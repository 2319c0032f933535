/** The JavaScript string operations the routes rely on: `split` with a
    one-character separator, `trim`, and the joining that undoes `split`. */
module JsString {

  /** The characters `String.prototype.trim` removes: the ECMAScript
      WhiteSpace and LineTerminator code points. */
  predicate IsWhitespace(c: char)
  {
    c in {'\t', '\n', '\U{000B}', '\U{000C}', '\r', ' ', '\U{00A0}', '\U{1680}',
          '\U{2028}', '\U{2029}', '\U{202F}', '\U{205F}', '\U{3000}', '\U{FEFF}'}
    || ('\U{2000}' <= c <= '\U{200A}')
  }

  /** Every character of `s` is whitespace (the empty string included). */
  predicate IsBlank(s: string)
  {
    forall i :: 0 <= i < |s| ==> IsWhitespace(s[i])
  }

  /** `s.trimStart()`: `s` without its leading whitespace. */
  function TrimStart(s: string): (r: string)
    ensures |r| <= |s| && r == s[|s| - |r|..]
    ensures forall i :: 0 <= i < |s| - |r| ==> IsWhitespace(s[i])
    ensures r != [] ==> !IsWhitespace(r[0])
  {
    if s != [] && IsWhitespace(s[0]) then TrimStart(s[1..]) else s
  }

  /** `s.trimEnd()`: `s` without its trailing whitespace. */
  function TrimEnd(s: string): (r: string)
    ensures |r| <= |s| && r == s[..|r|]
    ensures forall i :: |r| <= i < |s| ==> IsWhitespace(s[i])
    ensures r != [] ==> !IsWhitespace(r[|r| - 1])
  {
    if s != [] && IsWhitespace(s[|s| - 1]) then TrimEnd(s[..|s| - 1]) else s
  }

  /** `s.trim()`. */
  function Trim(s: string): (r: string)
  {
    TrimEnd(TrimStart(s))
  }

  /** `s.trim()` is falsy (the empty string) exactly when `s` is blank. */
  lemma TrimEmptyIffBlank(s: string)
    ensures Trim(s) == "" <==> IsBlank(s)
  {
  }

  /** Number of occurrences of `c` in `s`. */
  function Count(s: string, c: char): (n: nat)
    ensures n <= |s|
    ensures n == 0 <==> c !in s
  {
    if s == [] then 0 else (if s[0] == c then 1 else 0) + Count(s[1..], c)
  }

  /** No piece holds the separator. */
  predicate SeparatorFree(parts: seq<string>, sep: char)
  {
    forall i :: 0 <= i < |parts| ==> sep !in parts[i]
  }

  /** `s.indexOf(c)` where `c` occurs: the position of its first occurrence
      (for strings and arrays alike). */
  function IndexOf<T(==)>(s: seq<T>, c: T): (i: nat)
    requires c in s
    ensures i < |s| && s[i] == c
    ensures forall j :: 0 <= j < i ==> s[j] != c
  {
    if s[0] == c then 0 else 1 + IndexOf(s[1..], c)
  }

  /** Counting distributes over concatenation. */
  lemma {:induction false} CountAppend(a: string, b: string, c: char)
    ensures Count(a + b, c) == Count(a, c) + Count(b, c)
  {
    if a != [] {
      assert (a + b)[0] == a[0];
      assert (a + b)[1..] == a[1..] + b;
      CountAppend(a[1..], b, c);
    } else {
      assert a + b == b;
    }
  }

  /** The first separator accounts for one occurrence; the rest lie after it. */
  lemma CountAtFirst(s: string, i: nat, sep: char)
    requires i < |s| && s[i] == sep && forall j :: 0 <= j < i ==> s[j] != sep
    ensures Count(s, sep) == 1 + Count(s[i + 1..], sep)
  {
    assert s == s[..i] + ([sep] + s[i + 1..]);
    CountAppend(s[..i], [sep] + s[i + 1..], sep);
    CountAppend([sep], s[i + 1..], sep);
    assert sep !in s[..i];
  }

  /** `s.split(sep)` for a one-character separator: the pieces between the
      occurrences of `sep`, always at least one (`"".split(",")` is `[""]`). */
  function Split(s: string, sep: char): (parts: seq<string>)
    ensures |parts| == Count(s, sep) + 1
    ensures SeparatorFree(parts, sep)
    decreases |s|
  {
    if sep !in s then [s]
    else
      var i := IndexOf(s, sep);
      var rest := Split(s[i + 1..], sep);
      CountAtFirst(s, i, sep);
      assert sep !in s[..i] by {
        assert forall j :: 0 <= j < i ==> s[..i][j] == s[j];
      }
      SeparatorFreeCons(s[..i], rest, sep);
      [s[..i]] + rest
  }

  lemma SeparatorFreeCons(p: string, rest: seq<string>, sep: char)
    requires sep !in p && SeparatorFree(rest, sep)
    ensures SeparatorFree([p] + rest, sep)
  {
  }

  /** `parts.join(sep)` for a non-empty array. */
  function Join(parts: seq<string>, sep: char): string
    requires |parts| >= 1
  {
    if |parts| == 1 then parts[0] else parts[0] + [sep] + Join(parts[1..], sep)
  }

  /** A character that is not the separator and is in no piece is not in
      the joined string. */
  lemma {:induction false} JoinAvoids(parts: seq<string>, sep: char, c: char)
    requires |parts| >= 1 && c != sep
    requires SeparatorFree(parts, c)
    ensures c !in Join(parts, sep)
  {
    if |parts| > 1 {
      JoinAvoids(parts[1..], sep, c);
      assert c !in parts[0];
    }
  }

  /** The part of `s` before its first `c`; all of `s` when it has none. */
  function Before(s: string, c: char): (r: string)
    ensures r <= s && c !in r
    ensures c !in s ==> r == s
  {
    if c in s then s[..IndexOf(s, c)] else s
  }

  /** Cutting a concatenation: inside the first part when it holds `c`,
      otherwise inside the second. */
  lemma BeforeAppend(a: string, b: string, c: char)
    ensures c in a ==> Before(a + b, c) == Before(a, c)
    ensures c !in a ==> Before(a + b, c) == a + Before(b, c)
  {
    if c in a {
      BeforeInFirst(a, b, c);
    } else if c in b {
      BeforeInSecond(a, b, c);
    }
  }

  lemma BeforeInFirst(a: string, b: string, c: char)
    requires c in a
    ensures Before(a + b, c) == Before(a, c)
  {
    var i := IndexOf(a, c);
    assert forall j :: 0 <= j <= i ==> (a + b)[j] == a[j];
    IndexOfIs(a + b, c, i);
  }

  lemma BeforeInSecond(a: string, b: string, c: char)
    requires c !in a && c in b
    ensures Before(a + b, c) == a + Before(b, c)
  {
    var i := IndexOf(b, c);
    var ab := a + b;
    forall j | 0 <= j < |a| + i
      ensures ab[j] != c
    {
      if j < |a| {
        assert ab[j] == a[j];
      } else {
        assert ab[j] == b[j - |a|];
      }
    }
    assert ab[|a| + i] == b[i];
    IndexOfIs(ab, c, |a| + i);
    SliceOfAppend(a, b, i);
  }

  /** The first `c` is at `k` when `k` holds one and nothing before it does. */
  lemma IndexOfIs<T>(s: seq<T>, c: T, k: nat)
    requires k < |s| && s[k] == c
    requires forall j :: 0 <= j < k ==> s[j] != c
    ensures c in s && IndexOf(s, c) == k
  {
  }

  lemma SliceOfAppend(a: string, b: string, i: nat)
    requires i <= |b|
    ensures (a + b)[..|a| + i] == a + b[..i]
  {
  }

  /** Cutting a joined string at the first `c`, which lies in piece `k`:
      the pieces before `k` survive whole, and piece `k` is cut. */
  lemma {:induction false} BeforeJoin(parts: seq<string>, sep: char, c: char, k: nat)
    requires k < |parts| && c != sep
    requires forall i :: 0 <= i < k ==> c !in parts[i]
    requires c in parts[k]
    ensures Before(Join(parts, sep), c) == Join(parts[..k] + [Before(parts[k], c)], sep)
  {
    if |parts| == 1 {
      assert parts[..k] + [Before(parts[k], c)] == [Before(parts[0], c)];
    } else if k == 0 {
      BeforeAppend(parts[0], [sep] + Join(parts[1..], sep), c);
      assert parts[0] + [sep] + Join(parts[1..], sep) == parts[0] + ([sep] + Join(parts[1..], sep));
      assert parts[..k] + [Before(parts[k], c)] == [Before(parts[0], c)];
    } else {
      var tail := parts[1..];
      BeforeJoin(tail, sep, c, k - 1);
      assert c !in parts[0];
      assert c !in parts[0] + [sep];
      BeforeAppend(parts[0] + [sep], Join(tail, sep), c);
      var cut := parts[..k] + [Before(parts[k], c)];
      assert cut[1..] == tail[..k - 1] + [Before(tail[k - 1], c)];
      JoinCons(cut[0], cut[1..], sep);
      assert [cut[0]] + cut[1..] == cut;
    }
  }

  /** Joining the pieces of `s.split(sep)` with `sep` gives back `s`. */
  lemma {:induction false} JoinSplit(s: string, sep: char)
    ensures Join(Split(s, sep), sep) == s
    decreases |s|
  {
    if sep in s {
      var i := IndexOf(s, sep);
      var tail := s[i + 1..];
      JoinSplit(tail, sep);
      SplitAtFirst(s, sep);
      JoinCons(s[..i], Split(tail, sep), sep);
      Reassemble(s, i);
    }
  }

  /** Where `s` holds the separator, its first piece ends at the first one. */
  lemma SplitAtFirst(s: string, sep: char)
    requires sep in s
    ensures Split(s, sep) == [s[..IndexOf(s, sep)]] + Split(s[IndexOf(s, sep) + 1..], sep)
  {
  }

  lemma Reassemble(s: string, i: nat)
    requires i < |s|
    ensures s == s[..i] + [s[i]] + s[i + 1..]
  {
    assert s[..i + 1] == s[..i] + [s[i]];
    assert s == s[..i + 1] + s[i + 1..];
  }

  lemma JoinCons(head: string, tail: seq<string>, sep: char)
    requires |tail| >= 1
    ensures Join([head] + tail, sep) == head + [sep] + Join(tail, sep)
  {
    assert ([head] + tail)[1..] == tail;
  }

  /** Splitting undoes joining when no piece holds the separator. */
  lemma {:induction false} SplitJoin(parts: seq<string>, sep: char)
    requires |parts| >= 1
    requires SeparatorFree(parts, sep)
    ensures Split(Join(parts, sep), sep) == parts
  {
    if |parts| > 1 {
      var tail := Join(parts[1..], sep);
      SplitJoin(parts[1..], sep);
      assert sep !in parts[0];
      SplitPrefix(parts[0], sep, tail);
      assert [parts[0]] + parts[1..] == parts;
    }
  }

  /** Splitting `p + sep + rest`, where `p` holds no separator, yields `p`
      followed by the pieces of `rest`. */
  lemma SplitPrefix(p: string, sep: char, rest: string)
    requires sep !in p
    ensures Split(p + [sep] + rest, sep) == [p] + Split(rest, sep)
  {
    var whole := p + [sep] + rest;
    assert whole[|p|] == sep;
    var i := IndexOf(whole, sep);
    assert forall j :: 0 <= j < |p| ==> whole[j] == p[j];
    assert i == |p|;
    assert whole[..i] == p;
    assert whole[i + 1..] == rest;
  }
}
