/** The word-draw endpoint (`GET /api/flashcard`): read the dataset, keep its
    non-blank lines, pick one at a random index and answer with its first
    three comma-separated fields, or with a 500 error. */
module FlashcardRoute {
  import opened Wrappers
  import opened JsString

  const FailureMessage: string := "Failed to get flashcard"

  /** The JSON body of the response. A destructured field that the line does
      not have is `undefined`, and `JSON.stringify` leaves that key out. */
  datatype Response =
    | Noun(article: string, word: Option<string>, translation: Option<string>)
    | Failure(error: string)

  function Status(r: Response): (code: int)
    ensures code == 200 <==> r.Noun?
    ensures r.Failure? ==> code == 500
  {
    if r.Noun? then 200 else 500
  }

  /** `fileContent.split('\n').filter(line => line.trim())`. */
  function Lines(content: string): (lines: seq<string>)
  {
    KeepNonBlank(Split(content, '\n'))
  }

  /** The `filter` step: lines whose `trim()` is non-empty, in their order. */
  function KeepNonBlank(ls: seq<string>): (kept: seq<string>)
    ensures |kept| <= |ls|
    ensures forall x :: x in kept <==> x in ls && !IsBlank(x)
  {
    if ls == [] then []
    else
      TrimEmptyIffBlank(ls[0]);
      assert ls == [ls[0]] + ls[1..];
      var rest := KeepNonBlank(ls[1..]);
      if Trim(ls[0]) != "" then [ls[0]] + rest else rest
  }

  /** The filter keeps a single line exactly when it is not blank, and it
      distributes over concatenation; together the two determine it: the kept
      lines are the input lines, in order, minus the blank ones. */
  lemma {:induction false} KeepNonBlankAppend(a: seq<string>, b: seq<string>)
    ensures KeepNonBlank(a + b) == KeepNonBlank(a) + KeepNonBlank(b)
  {
    if a != [] {
      var ab := a + b;
      assert ab[0] == a[0];
      assert ab[1..] == a[1..] + b;
      KeepNonBlankAppend(a[1..], b);
      assert KeepNonBlank(ab) == (if Trim(a[0]) != "" then [a[0]] else []) + KeepNonBlank(ab[1..]);
      assert KeepNonBlank(a) == (if Trim(a[0]) != "" then [a[0]] else []) + KeepNonBlank(a[1..]);
    } else {
      assert a + b == b;
    }
  }

  lemma KeepNonBlankSingle(x: string)
    ensures KeepNonBlank([x]) == if IsBlank(x) then [] else [x]
  {
  }

  /** `Math.floor(r * n)` for `r` returned by `Math.random()`. */
  function PickIndex(r: real, n: nat): (i: int)
    requires 0.0 <= r < 1.0
    ensures n > 0 ==> 0 <= i < n
    ensures n == 0 ==> i == 0
  {
    assert 0.0 <= r * n as real <= n as real;
    assert n > 0 ==> r * n as real < n as real;
    (r * n as real).Floor
  }

  /** `const [article, word, translation] = line.split(',')`. */
  function Parse(line: string): (resp: Response)
    ensures resp.Noun?
  {
    var fields := Split(line, ',');
    Noun(fields[0],
         if |fields| > 1 then Some(fields[1]) else None,
         if |fields| > 2 then Some(fields[2]) else None)
  }

  /** The handler. `file` is the dataset as read from disk (`None` if the read
      failed) and `random` the value `Math.random()` produced. */
  function Get(file: Option<string>, random: real): (resp: Response)
    requires 0.0 <= random < 1.0
  {
    match file
    case None => Failure(FailureMessage)
    case Some(content) =>
      var lines := Lines(content);
      var i := PickIndex(random, |lines|);
      // `lines[i]` is `undefined` outside the array, and `.split` on it throws
      if 0 <= i < |lines| then Parse(lines[i]) else Failure(FailureMessage)
  }

  /** The endpoint fails exactly when the file cannot be read or has no
      non-blank line; the failure is a 500 with the fixed message. */
  lemma GetFailsIffNoLines(file: Option<string>, random: real)
    requires 0.0 <= random < 1.0
    ensures Get(file, random).Failure? <==> file.None? || Lines(file.value) == []
    ensures Get(file, random).Failure? ==> Get(file, random) == Failure(FailureMessage)
    ensures Status(Get(file, random)) == 500 <==> Get(file, random).Failure?
  {
  }

  /** A successful draw answers with the first three comma-separated fields
      of one retained line, exactly as that line has them (no trimming); no
      field holds a comma and fields after the third are dropped. */
  lemma GetAnswersFieldsOfOneLine(content: string, random: real)
    requires 0.0 <= random < 1.0
    requires Lines(content) != []
    ensures var lines := Lines(content);
            var i := PickIndex(random, |lines|);
            var fields := Split(lines[i], ',');
            && 0 <= i < |lines|
            && lines[i] in Split(content, '\n') && !IsBlank(lines[i])
            && Get(Some(content), random) == Parse(lines[i])
            && Parse(lines[i]).article == fields[0]
            && Parse(lines[i]).word == (if |fields| > 1 then Some(fields[1]) else None)
            && Parse(lines[i]).translation == (if |fields| > 2 then Some(fields[2]) else None)
  {
  }

  /** No field of a parsed line holds a comma. */
  lemma ParsedFieldsHaveNoComma(line: string)
    ensures ',' !in Parse(line).article
    ensures Parse(line).word.Some? ==> ',' !in Parse(line).word.value
    ensures Parse(line).translation.Some? ==> ',' !in Parse(line).translation.value
  {
  }

  /** A line with exactly two commas is rebuilt by joining its three fields. */
  lemma ParseRoundTrip(line: string)
    requires Count(line, ',') == 2
    ensures Parse(line).word.Some? && Parse(line).translation.Some?
    ensures Parse(line).article + "," + Parse(line).word.value + "," + Parse(line).translation.value == line
  {
    var f := Split(line, ',');
    assert |f| == 3;
    JoinSplit(line, ',');
    JoinThree(f, ',');
  }

  lemma JoinThree(f: seq<string>, sep: char)
    requires |f| == 3
    ensures Join(f, sep) == f[0] + [sep] + f[1] + [sep] + f[2]
  {
    assert f[1..][1..] == [f[2]];
    assert Join(f[1..][1..], sep) == f[2];
    assert Join(f[1..], sep) == f[1] + [sep] + f[2];
  }

  /** Joining three comma-free fields and drawing that line gives them back. */
  lemma RecordRoundTrip(article: string, word: string, translation: string)
    requires ',' !in article && ',' !in word && ',' !in translation
    ensures Parse(article + "," + word + "," + translation)
            == Noun(article, Some(word), Some(translation))
  {
    var parts := [article, word, translation];
    JoinThree(parts, ',');
    SplitJoin(parts, ',');
  }

  /** A dataset of one non-blank line, with or without a final newline,
      always yields that line's fields. */
  lemma SingleLineDataset(line: string, content: string, random: real)
    requires 0.0 <= random < 1.0
    requires '\n' !in line && !IsBlank(line)
    requires content == line || content == line + "\n"
    ensures Get(Some(content), random) == Parse(line)
  {
    SingleLineLines(line, content);
    var i := PickIndex(random, 1);
    assert i == 0;
  }

  /** The retained lines of such a file are that line alone. */
  lemma SingleLineLines(line: string, content: string)
    requires '\n' !in line && !IsBlank(line)
    requires content == line || content == line + "\n"
    ensures Lines(content) == [line]
  {
    KeepNonBlankSingle(line);
    if content != line {
      assert content == line + ['\n'] + "";
      SplitPrefix(line, '\n', "");
      assert Split(content, '\n') == [line] + [""];
      KeepNonBlankAppend([line], [""]);
      KeepNonBlankSingle("");
    }
  }

  /** A dataset holding a single record `article,word,translation` (with or
      without a final newline) yields that record on every draw. */
  lemma SingleRecordDataset(article: string, word: string, translation: string,
                            content: string, random: real)
    requires 0.0 <= random < 1.0
    requires ',' !in article && ',' !in word && ',' !in translation
    requires '\n' !in article + word + translation
    requires var line := article + "," + word + "," + translation;
             content == line || content == line + "\n"
    ensures Get(Some(content), random) == Noun(article, Some(word), Some(translation))
  {
    var line := article + "," + word + "," + translation;
    assert line == article + [','] + word + [','] + translation;
    assert !IsBlank(line) by { assert line[|article|] == ','; }
    SingleLineDataset(line, content, random);
    RecordRoundTrip(article, word, translation);
  }

  /** Lines are not trimmed: with Windows line endings the carriage return
      stays at the end of the translation. */
  lemma CarriageReturnKept(article: string, word: string, translation: string, random: real)
    requires 0.0 <= random < 1.0
    requires ',' !in article && ',' !in word && ',' !in translation
    requires '\n' !in article + word + translation
    ensures Get(Some(article + "," + word + "," + translation + "\r\n"), random)
            == Noun(article, Some(word), Some(translation + "\r"))
  {
    assert article + "," + word + "," + translation + "\r\n"
        == article + "," + word + "," + (translation + "\r") + "\n";
    assert '\n' !in article + word + (translation + "\r") by {
      assert article + word + (translation + "\r") == (article + word + translation) + "\r";
    }
    SingleRecordDataset(article, word, translation + "\r",
                        article + "," + word + "," + (translation + "\r") + "\n", random);
  }
}
