/** The flashcard component's session: the state cells it keeps, the
    browser-storage record of correct answers, and the handlers that change
    them. */
module Session {
  import opened Wrappers
  import ImagesRoute
  import JsString

  /** A card on screen: the drawn noun plus the URL of its picture, if any. */
  datatype Card = Card(article: string, word: string, translation: string, imageUrl: Option<string>)

  /** What the client gets from `fetch('/api/flashcard')`: the drawn noun, or
      a failure (the request rejected, the body was not JSON, or the status
      was not ok). */
  datatype DrawReply = Drawn(article: string, word: string, translation: string) | DrawFailed

  /** The image endpoint's reply to the client, `None` when the request or
      its JSON decoding rejected. */
  type ImageReply = Option<ImagesRoute.Response>

  // ---------------------------------------------------------------------
  // JavaScript `Set<string>`: distinct elements in insertion order

  predicate NoDuplicates(xs: seq<string>)
  {
    forall i, j :: 0 <= i < j < |xs| ==> xs[i] != xs[j]
  }

  function Elements(xs: seq<string>): set<string>
  {
    set x | x in xs
  }

  /** `set.add(x)`: a new element goes to the end, a present one changes nothing. */
  function SetAdd(xs: seq<string>, x: string): (r: seq<string>)
    ensures Elements(r) == Elements(xs) + {x}
    ensures |xs| <= |r| <= |xs| + 1 && r[..|xs|] == xs
    ensures x in xs ==> r == xs
    ensures NoDuplicates(xs) ==> NoDuplicates(r)
  {
    if x in xs then xs else xs + [x]
  }

  /** `new Set(list)`: the elements of `list` in order of first occurrence. */
  function {:induction false} FromList(list: seq<string>): (r: seq<string>)
    ensures NoDuplicates(r)
    ensures Elements(r) == Elements(list)
  {
    if list == [] then []
    else
      var init := list[..|list| - 1];
      assert Elements(list) == Elements(init) + {list[|list| - 1]} by {
        assert list == init + [list[|list| - 1]];
      }
      SetAdd(FromList(init), list[|list| - 1])
  }

  /** The elements of `r` appear in the order in which `list` first shows
      them. */
  predicate InFirstOccurrenceOrder(r: seq<string>, list: seq<string>)
  {
    forall i, j :: 0 <= i < j < |r| && r[i] in list && r[j] in list ==>
      JsString.IndexOf(list, r[i]) < JsString.IndexOf(list, r[j])
  }

  /** A first occurrence in a prefix is the first occurrence in the whole. */
  lemma IndexOfInPrefix(init: seq<string>, last: string, x: string)
    requires x in init
    ensures JsString.IndexOf(init + [last], x) == JsString.IndexOf(init, x)
  {
    var k := JsString.IndexOf(init, x);
    var whole := init + [last];
    assert whole[k] == x;
    assert forall j :: 0 <= j < k ==> whole[j] == init[j];
    JsString.IndexOfIs(whole, x, k);
  }

  /** `new Set(list)` lists the elements in the order of their first
      occurrence in `list`; with `FromList`'s own contract this determines
      the result. */
  lemma {:induction false} FromListInFirstOccurrenceOrder(list: seq<string>)
    ensures InFirstOccurrenceOrder(FromList(list), list)
  {
    if list != [] {
      var init := list[..|list| - 1];
      var last := list[|list| - 1];
      assert list == init + [last];
      FromListInFirstOccurrenceOrder(init);
      AddKeepsOrder(FromList(init), init, last);
    }
  }

  /** Adding the next element of the list keeps the order. */
  lemma AddKeepsOrder(prev: seq<string>, init: seq<string>, last: string)
    requires Elements(prev) == Elements(init)
    requires InFirstOccurrenceOrder(prev, init)
    ensures InFirstOccurrenceOrder(SetAdd(prev, last), init + [last])
  {
    var r := SetAdd(prev, last);
    var list := init + [last];
    forall i, j | 0 <= i < j < |r| && r[i] in list && r[j] in list
      ensures JsString.IndexOf(list, r[i]) < JsString.IndexOf(list, r[j])
    {
      assert r[i] in Elements(prev);
      IndexOfInPrefix(init, last, r[i]);
      if j < |prev| {
        assert r[j] in Elements(prev);
        IndexOfInPrefix(init, last, r[j]);
      } else {
        assert last !in Elements(init);
        JsString.IndexOfIs(list, last, |init|);
      }
    }
  }

  /** Rebuilding a set from its own listing `[...set]` gives the same set,
      in the same order. */
  lemma {:induction false} FromListOfDistinct(xs: seq<string>)
    requires NoDuplicates(xs)
    ensures FromList(xs) == xs
  {
    if xs != [] {
      var init := xs[..|xs| - 1];
      var last := xs[|xs| - 1];
      assert NoDuplicates(init);
      FromListOfDistinct(init);
      assert last !in init by {
        forall i | 0 <= i < |init| ensures init[i] != last {
          assert init[i] == xs[i];
        }
      }
      assert FromList(xs) == SetAdd(init, last);
      assert init + [last] == xs;
    }
  }

  // ---------------------------------------------------------------------
  // The stored record and the feedback texts

  /** The initial value of `correctAnswers`: the set listed by the stored
      record, or the empty set when there is none. */
  function Load(stored: Option<seq<string>>): (r: seq<string>)
    ensures NoDuplicates(r)
    ensures stored.None? ==> r == []
    ensures stored.Some? ==> Elements(r) == Elements(stored.value)
  {
    match stored
    case None => []
    case Some(list) => FromList(list)
  }

  function CorrectMessage(selectedArticle: string, word: string): string
  {
    "Correct! \"" + selectedArticle + " " + word + "\" is right!"
  }

  function IncorrectMessage(article: string, word: string): string
  {
    "Incorrect \U{274C} The correct article is \"" + article + " " + word + "\""
  }

  predicate Contains(text: string, part: string)
  {
    exists i :: 0 <= i <= |text| && part <= text[i..]
  }

  /** The affirmation names the chosen article and the word. */
  lemma CorrectMessageNamesNoun(article: string, word: string)
    ensures Contains(CorrectMessage(article, word), article + " " + word)
  {
    var noun := article + " " + word;
    var c := CorrectMessage(article, word);
    assert c == "Correct! \"" + noun + "\" is right!";
    assert noun <= c[10..];
  }

  /** The correction names the correct article and the word. */
  lemma IncorrectMessageNamesNoun(article: string, word: string)
    ensures Contains(IncorrectMessage(article, word), article + " " + word)
  {
    var noun := article + " " + word;
    var m := IncorrectMessage(article, word);
    var lead := "Incorrect \U{274C} The correct article is \"";
    assert m == lead + noun + "\"";
    assert noun <= m[|lead|..];
  }

  /** The two feedback texts can never be confused. */
  lemma MessagesDiffer(article: string, word: string, otherArticle: string, otherWord: string)
    ensures CorrectMessage(article, word) != IncorrectMessage(otherArticle, otherWord)
  {
    assert CorrectMessage(article, word)[0] == 'C';
    assert IncorrectMessage(otherArticle, otherWord)[0] == 'I';
  }

  // ---------------------------------------------------------------------
  // The session as a value, and its transitions

  datatype SessionState = SessionState(
    currentCard: Option<Card>,
    loading: bool,
    correctAnswers: seq<string>,
    feedbackMessage: Option<string>,
    hasAnswered: bool,
    stored: Option<seq<string>>)   // the `correctAnswers` entry of `localStorage`

  /** Reloading the page would rebuild exactly the current set. */
  predicate Consistent(s: SessionState)
  {
    Load(s.stored) == s.correctAnswers
  }

  /** The state when the component mounts, before the first draw. */
  function Initial(saved: Option<seq<string>>): (s: SessionState)
    ensures Consistent(s)
  {
    SessionState(None, false, Load(saved), None, false, saved)
  }

  /** `fetchImage`: the first hit's `webformatURL`, or `null`. */
  function FetchImage(reply: ImageReply): (url: Option<string>)
    ensures url.Some? <==> reply.Some? && reply.value.Images? && reply.value.hits != []
    ensures url.Some? ==> url.value == reply.value.hits[0].webformatURL
  {
    if reply.Some? && ImagesRoute.Status(reply.value) == 200 && reply.value.Images? && |reply.value.hits| > 0
    then Some(reply.value.hits[0].webformatURL)
    else None
  }

  /** `handleAnswer(selectedArticle)`; `written` is whether
      `localStorage.setItem` succeeds. When it throws (storage full or
      blocked), the set has already grown but the rest of the handler does
      not run: the record, the feedback and the answered flag stay as they
      were. */
  function Answer(s: SessionState, selectedArticle: string, written: bool): SessionState
  {
    if s.currentCard.None? || s.hasAnswered then s
    else
      var card := s.currentCard.value;
      if selectedArticle == card.article then
        var newCorrectAnswers := SetAdd(s.correctAnswers, card.word);
        if !written then s.(correctAnswers := newCorrectAnswers)
        else
          s.(correctAnswers := newCorrectAnswers, stored := Some(newCorrectAnswers),
             feedbackMessage := Some(CorrectMessage(selectedArticle, card.word)), hasAnswered := true)
      else
        s.(feedbackMessage := Some(IncorrectMessage(card.article, card.word)), hasAnswered := true)
  }

  /** `handleReset()`; `confirmed` is what the user answered to `confirm`. */
  function Reset(s: SessionState, confirmed: bool): SessionState
  {
    if confirmed then s.(stored := None, correctAnswers := []) else s
  }

  /** The part of `handleNext()` that runs before the new draw. */
  function ClearFeedback(s: SessionState): SessionState
  {
    s.(feedbackMessage := None, hasAnswered := false)
  }

  /** `fetchNewCard()` run to completion: `draw` is the word endpoint's reply
      and `images(w)` the image endpoint's reply to the query `w`. */
  function Fetch(s: SessionState, draw: DrawReply, images: string -> ImageReply): SessionState
  {
    match draw
    case DrawFailed => s.(loading := false)
    case Drawn(article, word, translation) =>
      s.(currentCard := Some(Card(article, word, translation, FetchImage(images(word)))), loading := false)
  }

  // ---------------------------------------------------------------------
  // Properties of the transitions

  /** With no card, or once the card is answered, an answer changes nothing;
      so of two answers to the same card only the first is scored, unless
      saving the first one failed. */
  lemma AnswerAtMostOncePerCard(s: SessionState, first: string, second: string, written: bool, again: bool)
    ensures s.currentCard.None? || s.hasAnswered ==> Answer(s, first, written) == s
    ensures s.currentCard.Some? && (written || first != s.currentCard.value.article) ==>
              Answer(s, first, written).hasAnswered
    ensures written ==> Answer(Answer(s, first, written), second, again) == Answer(s, first, written)
  {
  }

  /** A correct answer adds the card's word to the set (at the end, if it is
      new) and keeps every earlier word; the stored record then lists exactly
      the new set; nothing but the set, the record, the feedback and the
      answered flag changes. */
  lemma CorrectAnswerRecordsWord(s: SessionState, selectedArticle: string)
    requires NoDuplicates(s.correctAnswers)
    requires s.currentCard.Some? && !s.hasAnswered
    requires selectedArticle == s.currentCard.value.article
    ensures var t := Answer(s, selectedArticle, true);
            var word := s.currentCard.value.word;
            && Elements(t.correctAnswers) == Elements(s.correctAnswers) + {word}
            && t.correctAnswers[..|s.correctAnswers|] == s.correctAnswers
            && |s.correctAnswers| <= |t.correctAnswers| <= |s.correctAnswers| + 1
            && (word in s.correctAnswers ==> t.correctAnswers == s.correctAnswers)
            && t.stored == Some(t.correctAnswers)
            && Consistent(t)
            && t.feedbackMessage == Some(CorrectMessage(selectedArticle, word))
            && t.hasAnswered
            && t.currentCard == s.currentCard && t.loading == s.loading
  {
    FromListOfDistinct(Answer(s, selectedArticle, true).correctAnswers);
  }

  /** When saving a correct answer fails, the set has the word but the
      record is unchanged: from a saved state, unless the word was already
      there, a reload would lose it. No feedback is shown and the card stays
      open, so it can be answered again. */
  lemma FailedWriteLeavesCardOpen(s: SessionState, selectedArticle: string)
    requires s.currentCard.Some? && !s.hasAnswered
    requires selectedArticle == s.currentCard.value.article
    ensures var t := Answer(s, selectedArticle, false);
            var word := s.currentCard.value.word;
            && Elements(t.correctAnswers) == Elements(s.correctAnswers) + {word}
            && t.stored == s.stored
            && (Consistent(s) ==> (word !in s.correctAnswers <==> !Consistent(t)))
            && t.feedbackMessage == s.feedbackMessage && !t.hasAnswered
            && t.currentCard == s.currentCard && t.loading == s.loading
  {
    var t := Answer(s, selectedArticle, false);
    var word := s.currentCard.value.word;
    if Consistent(s) && word !in s.correctAnswers {
      assert |t.correctAnswers| == |s.correctAnswers| + 1;
    }
  }

  /** Answering the open card correctly again after a failed save, this time
      with a save that succeeds, records the word once and brings the stored
      record back in step with the set. */
  lemma RetryAfterFailedWriteSaves(s: SessionState, selectedArticle: string)
    requires NoDuplicates(s.correctAnswers)
    requires s.currentCard.Some? && !s.hasAnswered
    requires selectedArticle == s.currentCard.value.article
    ensures var t := Answer(s, selectedArticle, false);
            var u := Answer(t, selectedArticle, true);
            && Consistent(u) && u.hasAnswered
            && u.correctAnswers == t.correctAnswers
            && Elements(u.correctAnswers) == Elements(s.correctAnswers) + {s.currentCard.value.word}
  {
    var t := Answer(s, selectedArticle, false);
    CorrectAnswerRecordsWord(t, selectedArticle);
  }

  /** A wrong answer leaves the set and the stored record alone, and the
      feedback names the correct article and the word. */
  lemma WrongAnswerKeepsProgress(s: SessionState, selectedArticle: string, written: bool)
    requires s.currentCard.Some? && !s.hasAnswered
    requires selectedArticle != s.currentCard.value.article
    ensures var t := Answer(s, selectedArticle, written);
            var card := s.currentCard.value;
            && t.correctAnswers == s.correctAnswers && t.stored == s.stored
            && t.feedbackMessage == Some(IncorrectMessage(card.article, card.word))
            && Contains(t.feedbackMessage.value, card.article + " " + card.word)
            && t.hasAnswered
            && t.currentCard == s.currentCard && t.loading == s.loading
  {
    IncorrectMessageNamesNoun(s.currentCard.value.article, s.currentCard.value.word);
  }

  /** A confirmed reset empties the set and removes the record, so a reload
      starts from nothing; an unconfirmed one changes nothing. Neither touches
      the card, the feedback or the answered flag. */
  lemma ResetClearsProgress(s: SessionState, confirmed: bool)
    ensures var t := Reset(s, confirmed);
            && (confirmed ==> t.correctAnswers == [] && t.stored.None? && Initial(t.stored).correctAnswers == [])
            && (!confirmed ==> t == s)
            && t.currentCard == s.currentCard && t.feedbackMessage == s.feedbackMessage
            && t.hasAnswered == s.hasAnswered && t.loading == s.loading
  {
  }

  /** "Next" clears the feedback and the answered flag and then draws: a
      failed draw keeps the old card, a successful one shows the drawn noun
      with the first image hit (or none); loading ends false either way and
      the progress is untouched. */
  lemma NextDrawsNewCard(s: SessionState, draw: DrawReply, images: string -> ImageReply)
    ensures var t := Fetch(ClearFeedback(s), draw, images);
            && t.feedbackMessage.None? && !t.hasAnswered && !t.loading
            && t.correctAnswers == s.correctAnswers && t.stored == s.stored
            && (draw.DrawFailed? ==> t.currentCard == s.currentCard)
            && (draw.Drawn? ==>
                  && t.currentCard.Some?
                  && t.currentCard.value.article == draw.article
                  && t.currentCard.value.word == draw.word
                  && t.currentCard.value.translation == draw.translation
                  && t.currentCard.value.imageUrl == FetchImage(images(draw.word)))
  {
  }

  /** Every handler keeps the stored record in step with the set, so that a
      reload rebuilds the set the user last saw, as long as the record can be
      written. */
  lemma TransitionsStayConsistent(s: SessionState, selectedArticle: string, confirmed: bool,
                                  draw: DrawReply, images: string -> ImageReply)
    requires Consistent(s)
    ensures Consistent(Answer(s, selectedArticle, true))
    ensures Consistent(Reset(s, confirmed))
    ensures Consistent(Fetch(ClearFeedback(s), draw, images))
  {
    if s.currentCard.Some? && !s.hasAnswered && selectedArticle == s.currentCard.value.article {
      CorrectAnswerRecordsWord(s, selectedArticle);
    }
  }

  /** Only a confirmed reset ever removes a word from the set. */
  lemma ProgressOnlyGrows(s: SessionState, selectedArticle: string, written: bool,
                          draw: DrawReply, images: string -> ImageReply)
    ensures Elements(s.correctAnswers) <= Elements(Answer(s, selectedArticle, written).correctAnswers)
    ensures Elements(s.correctAnswers) <= Elements(Reset(s, false).correctAnswers)
    ensures Elements(s.correctAnswers) <= Elements(Fetch(ClearFeedback(s), draw, images).correctAnswers)
  {
  }

  /** The picture on a card for the word `w` is the first hit Pixabay returns
      for `w`, and there is one exactly when the image endpoint is configured,
      `w` is not blank and Pixabay returns at least one hit. */
  lemma PictureIsFirstHit(apiKey: Option<string>, w: string, upstream: ImagesRoute.Upstream)
    ensures var url := FetchImage(Some(ImagesRoute.Get(apiKey, Some(w), None, upstream).response));
            && (url.Some? <==> !ImagesRoute.KeyMissing(apiKey) && !JsString.IsBlank(w)
                               && upstream.Body? && upstream.data.hits != [])
            && (url.Some? ==> url.value == upstream.data.hits[0].webformatURL)
  {
  }

  // ---------------------------------------------------------------------
  // The component

  class FlashcardSession {
    var currentCard: Option<Card>
    var loading: bool
    var correctAnswers: seq<string>
    var feedbackMessage: Option<string>
    var hasAnswered: bool
    var stored: Option<seq<string>>   // the `correctAnswers` entry of `localStorage`

    function State(): SessionState
      reads this
    {
      SessionState(currentCard, loading, correctAnswers, feedbackMessage, hasAnswered, stored)
    }

    /** `correctAnswers` is a set: it holds no word twice. */
    ghost predicate Valid()
      reads this
    {
      NoDuplicates(correctAnswers)
    }

    /** The stored record is in step with the set. */
    ghost predicate Saved()
      reads this
    {
      Consistent(State())
    }

    /** Mounting: every cell takes its initial value and the set is loaded
        from `saved`, the stored record. */
    constructor (saved: Option<seq<string>>)
      ensures Valid() && Saved()
      ensures State() == Initial(saved)
    {
      currentCard := None;
      loading := false;
      stored := saved;
      correctAnswers := if saved.Some? then FromList(saved.value) else [];
      feedbackMessage := None;
      hasAnswered := false;
    }

    /** `written` is whether `localStorage.setItem` succeeds; when it
        throws, the handler stops right after growing the set. */
    method HandleAnswer(selectedArticle: string, written: bool)
      requires Valid()
      modifies this
      ensures Valid()
      ensures old(Saved()) && written ==> Saved()
      ensures State() == Answer(old(State()), selectedArticle, written)
    {
      ghost var before := State();
      if written && Consistent(before) {
        TransitionsStayConsistent(before, selectedArticle, false, DrawFailed, _ => None);
      }
      if currentCard.None? || hasAnswered {
        return;
      }
      var card := currentCard.value;
      if selectedArticle == card.article {
        var newCorrectAnswers := SetAdd(correctAnswers, card.word);
        correctAnswers := newCorrectAnswers;
        if !written {
          return;
        }
        stored := Some(newCorrectAnswers);
        feedbackMessage := Some(CorrectMessage(selectedArticle, card.word));
        hasAnswered := true;
      } else {
        feedbackMessage := Some(IncorrectMessage(card.article, card.word));
        hasAnswered := true;
      }
    }

    method HandleReset(confirmed: bool)
      requires Valid()
      modifies this
      ensures Valid()
      ensures old(Saved()) || confirmed ==> Saved()
      ensures State() == Reset(old(State()), confirmed)
    {
      if confirmed {
        stored := None;
        correctAnswers := [];
      }
    }

    method FetchNewCard(draw: DrawReply, images: string -> ImageReply)
      requires Valid()
      modifies this
      ensures Valid()
      ensures old(Saved()) ==> Saved()
      ensures State() == Fetch(old(State()), draw, images)
    {
      loading := true;
      match draw {
        case DrawFailed =>
        case Drawn(article, word, translation) =>
          var imageUrl := FetchImage(images(word));
          currentCard := Some(Card(article, word, translation, imageUrl));
      }
      loading := false;
    }

    method HandleNext(draw: DrawReply, images: string -> ImageReply)
      requires Valid()
      modifies this
      ensures Valid()
      ensures old(Saved()) ==> Saved()
      ensures State() == Fetch(ClearFeedback(old(State())), draw, images)
    {
      feedbackMessage := None;
      hasAnswered := false;
      FetchNewCard(draw, images);
    }
  }
}
