# German article flashcards — a Dafny model

The application shows a German noun, lets the user pick its article (`der`,
`die` or `das`), and counts correct answers in the browser's `localStorage`.
Three pieces of it are modelled here, each as its own module:

- `FlashcardRoute` (`FlashcardRoute.dfy`) is the word-draw endpoint
  `GET /api/flashcard`. It reads the dataset file, splits it on `'\n'`, keeps
  the lines whose `trim()` is non-empty, and picks the line at
  `Math.floor(Math.random() * lines.length)`. It answers with that line's
  first three comma-separated fields, or with
  `500 {error: 'Failed to get flashcard'}`.
- `ImagesRoute` (`ImagesRoute.dfy`) is the image-search endpoint
  `GET /api/images`. It is a Pixabay proxy that checks things in a fixed
  order: is the key configured (500), is the query non-blank (400), did
  Pixabay answer (500), were there hits (404). It then reshapes Pixabay's
  hits field by field. Besides the response, the model returns the outbound
  Pixabay request, or `None` when no request is sent. That makes "no upstream
  call" something a lemma can state. Pixabay's answer is a parameter.
- `Session` (`Session.dfy`) is the `Flashcard` component. Its React state
  cells become the fields of class `FlashcardSession`: `currentCard`,
  `loading`, `correctAnswers`, `feedbackMessage` and `hasAnswered`. A further
  field, `stored`, holds the `localStorage` entry. The handlers are methods.
  Whether `localStorage.setItem` succeeds is an input of `handleAnswer`.
  Each method is proved equal to a transition function on the value
  `SessionState` (`Answer`, `Reset`, `ClearFeedback`, `Fetch`). The
  properties are lemmas about those functions. The class invariant `Valid`
  says the set holds no word twice. `Saved` says the record is
  `Consistent` with the set: reloading the page would rebuild exactly the
  current set. Every handler keeps `Saved`, except a correct answer whose
  save throws.

There are also three helper modules. `JsString` holds JavaScript's `split`,
`join`, `trim` and the cut of a string at its first occurrence of a
character. `UriComponent` holds `encodeURIComponent` (UTF-8 bytes as `%XX`
escapes). `Wrappers` holds `Option`, which stands for
`null`/`undefined`.

The images module also models the query string of the Pixabay URL, both as
the handler writes it and with every value encoded. It shows that the
written form lets a client's `per_page` switch safe search off (see
"## Findings").

Modelling choices:

- A JavaScript `Set<string>` is a `seq<string>` without duplicates, in
  insertion order. Order matters because the stored record is
  `[...newCorrectAnswers]`.
- `new Set(list)` is `FromList`: first occurrences, in order.
- `Math.random()` is a `real` parameter in `[0, 1)`.
- `confirm()` is a `bool` parameter.
- The file read is an `Option<string>` (`None`: the read failed).
- `process.env.PIXABAY_API_KEY` is an `Option<string>`. The empty string also
  counts as missing, because the code tests `!PIXABAY_API_KEY`.
- What the client receives from its own two endpoints is a parameter:
  `DrawReply`, and a function from query word to image reply.
- On an empty dataset, `lines` is empty, the index is `0`, and `lines[0]` is
  `undefined`. The `.split` call on it throws, and the `catch` turns that into
  the 500. The model reproduces this chain.
- A line with fewer than two commas leaves `word` and/or `translation`
  `undefined`. `JSON.stringify` then omits those keys, so the response's
  fields are `Option`s.
- The projection drops three of Pixabay's fields: `type`, `imageSize` and
  `user_id`. All the others are copied.

Some behaviour of the code differs from what a reader might expect; the
model follows the code:

- A stored record that fails to parse is not read as the empty set:
  `JSON.parse` throws, and nothing catches it.
- The draw endpoint accepts any article, not only `der`, `die` and `das`:
  it validates nothing.
- A confirmed reset does not save the empty set; it removes the entry, so
  the model sets `stored` to `None`.
- A failed draw does not leave the component loading: `loading` goes back
  to false and the previous card stays.

## Model

| member | source | states |
|---|---|---|
| JsString.TrimStart | src/app/api/flashcard/route.ts:15 | the result is a suffix of the input, everything cut off is whitespace, and the result does not begin with whitespace |
| JsString.TrimEnd | src/app/api/flashcard/route.ts:15 | the result is a prefix of the input, everything cut off is whitespace, and the result does not end with whitespace |
| JsString.TrimEmptyIffBlank | src/app/api/flashcard/route.ts:15 | `line.trim()` is the empty (falsy) string exactly when every character of the line is ECMAScript whitespace |
| JsString.Split | src/app/api/flashcard/route.ts:15-18 | `split(sep)` gives one piece more than there are separators, and no piece holds the separator |
| JsString.JoinSplit | src/app/api/flashcard/route.ts:15-18 | joining the pieces of `split(sep)` with the separator gives back the input, so splitting loses nothing |
| JsString.SplitJoin | src/app/api/flashcard/route.ts:18 | splitting undoes joining when no piece holds the separator |
| JsString.SplitPrefix | src/app/api/flashcard/route.ts:15 | splitting `p + sep + rest` (`p` free of `sep`) gives `p` followed by the pieces of `rest` |
| FlashcardRoute.KeepNonBlank | src/app/api/flashcard/route.ts:15 | every retained line holds a non-whitespace character, and a line is retained iff it is a split line that is not blank |
| FlashcardRoute.KeepNonBlankAppend | src/app/api/flashcard/route.ts:15 | the filter distributes over concatenation, so the lines keep their original order |
| FlashcardRoute.KeepNonBlankSingle | src/app/api/flashcard/route.ts:15 | a single line is kept exactly when it is not blank |
| FlashcardRoute.PickIndex | src/app/api/flashcard/route.ts:17 | `Math.floor(r * n)` with `0 <= r < 1` lies in `[0, n)` when `n > 0`, and is `0` when there are no lines |
| FlashcardRoute.Parse | src/app/api/flashcard/route.ts:18-24 | destructuring a line always yields a noun response (`article` is always defined) |
| FlashcardRoute.Status | src/app/api/flashcard/route.ts:20-30 | the status is 200 exactly for a noun body, and 500 for the error body |
| FlashcardRoute.GetFailsIffNoLines | src/app/api/flashcard/route.ts:11-31 | the endpoint fails (500, `Failed to get flashcard`) exactly when the file cannot be read or has no non-blank line |
| FlashcardRoute.GetAnswersFieldsOfOneLine | src/app/api/flashcard/route.ts:15-24 | a successful draw picks an in-range retained line, which is an untrimmed line of the file, and answers its first, second and third comma fields (undefined when absent) |
| FlashcardRoute.ParsedFieldsHaveNoComma | src/app/api/flashcard/route.ts:18 | none of `article`, `word`, `translation` contains a comma, so later fields are dropped |
| FlashcardRoute.ParseRoundTrip | src/app/api/flashcard/route.ts:18 | for a line with exactly two commas, all three fields are defined and `article + "," + word + "," + translation` is the line |
| FlashcardRoute.RecordRoundTrip | src/app/api/flashcard/route.ts:18 | a record joined from three comma-free fields parses back to those fields |
| FlashcardRoute.SingleLineDataset | src/app/api/flashcard/route.ts:14-18 | a file of one non-blank line, with or without a final newline, draws that line for every random value |
| FlashcardRoute.SingleRecordDataset | src/app/api/flashcard/route.ts:14-24 | a dataset holding the single record `article,word,translation` yields exactly that noun on every draw |
| FlashcardRoute.CarriageReturnKept | src/app/api/flashcard/route.ts:15-18 | with a `\r\n` line ending the `\r` stays in the translation: lines are not trimmed |
| ImagesRoute.PerPage | src/app/api/images/route.ts:49 | `per_page` is `"20"` when the parameter is absent or empty, and the parameter otherwise |
| ImagesRoute.ProjectHits | src/app/api/images/route.ts:85-105 | `hits.map` keeps the length and the order and projects each hit |
| ImagesRoute.ProjectDropsExactlyThreeFields | src/app/api/images/route.ts:85-105 | every output field equals the same-named input field: restoring `type`, `imageSize` and `user_id` gives the hit back, and two hits project alike iff they differ only in those three |
| ImagesRoute.MissingKeyComesFirst | src/app/api/images/route.ts:39-44 | a missing or empty key answers 500 `API key not configured` whatever the query, and sends no request |
| ImagesRoute.BlankQueryRejected | src/app/api/images/route.ts:51-56 | with a key, a missing or whitespace-only query answers 400 and sends no request |
| ImagesRoute.RequestSentIffValid | src/app/api/images/route.ts:38-66 | a Pixabay request is sent iff the key is set and the query is not blank; it carries the untrimmed query and the defaulted `per_page`; without a request Pixabay cannot affect the answer |
| UriComponent.Encode | src/app/api/images/route.ts:59 | `encodeURIComponent(q)` is made only of unreserved characters and `%`, and leaves a string of unreserved characters unchanged |
| UriComponent.EncodedHasNoDelimiter | src/app/api/images/route.ts:59 | an encoded value holds no `&`, `=` or `#`, so it stays inside its own query parameter |
| JsString.BeforeJoin | src/app/api/images/route.ts:59 | cutting joined pieces at the first `c` keeps the pieces before it whole and cuts the piece holding it (what a `#` in the URL does to the query string) |
| ImagesRoute.QueryKeepsItsParameters | src/app/api/images/route.ts:59 | with every value encoded, Pixabay receives exactly the six parameters `key`, `q`, `image_type`, `per_page`, `pretty`, `safesearch`, in order, carrying the request's values |
| ImagesRoute.EncodedRequestKeepsSafeSearch | src/app/api/images/route.ts:59 | every request the handler builds asks for `image_type=photo`, `pretty=true` and `safesearch=true`; only under the corrected encoding `Query` (every value encoded) does Pixabay receive exactly those parameters. The handler's own `QueryAsWritten` does not guarantee this (see "## Findings") |
| ImagesRoute.FragmentInPerPageDropsSafeSearch | src/app/api/images/route.ts:49-59 | as written, a `#` in `per_page` ends the query string: Pixabay receives `key`, `q`, `image_type` and `per_page` cut at the `#`, and no `pretty` or `safesearch` |
| ImagesRoute.PerPageTwentyHashIsSent | src/app/api/images/route.ts:49-59 | `per_page=20%23` reaches the request unchanged as `20#` |
| ImagesRoute.PerPageTwentyHashDropsSafeSearch | src/app/api/images/route.ts:59 | for that request the written query string stops at `per_page=20`, without safe search |
| ImagesRoute.Relay | src/app/api/images/route.ts:68-114 | any failure of the upstream call (transport, non-ok status, unreadable body) becomes 500 `Failed to fetch images`; an empty hit list becomes 404 `No images found`; the status is 200 exactly when the body has hits |
| ImagesRoute.UpstreamOutcomes | src/app/api/images/route.ts:68-79 | after the request, a transport error, non-ok status or malformed body answers 500 `Failed to fetch images`, and zero hits answers 404 |
| ImagesRoute.SuccessIff | src/app/api/images/route.ts:74-106 | the answer is 200 iff key set, query non-blank and at least one hit; then `total` and `totalHits` are copied and the hits are Pixabay's, in order, each projected |
| Session.SetAdd | src/components/Flashcard.tsx:73 | `new Set(s).add(w)` has the old elements plus `w`, keeps the old ones in order and grows by at most one, not at all if `w` was present |
| Session.FromList | src/components/Flashcard.tsx:29 | `new Set(list)` has no duplicates and the same elements as the list |
| Session.FromListInFirstOccurrenceOrder | src/components/Flashcard.tsx:29 | `new Set(list)` lists its elements in the order of their first occurrence in `list`; with `FromList`'s contract this fixes the result |
| Session.FromListOfDistinct | src/components/Flashcard.tsx:29 | rebuilding a set from its stored listing gives the same set in the same order |
| Session.Load | src/components/Flashcard.tsx:27-30 | the initial set is empty without a stored record, and otherwise holds the record's elements without duplicates |
| Session.CorrectMessageNamesNoun | src/components/Flashcard.tsx:77 | the affirmation contains the chosen article and the word, as `article word` |
| Session.IncorrectMessageNamesNoun | src/components/Flashcard.tsx:79 | the correction contains the correct article and the word, as `article word` |
| Session.MessagesDiffer | src/components/Flashcard.tsx:77-79 | no affirmation is ever the same text as a correction |
| Session.Initial | src/components/Flashcard.tsx:25-32 | the mounted state is consistent with the stored record |
| Session.FetchImage | src/components/Flashcard.tsx:36-47 | the image URL is `hits[0].webformatURL` exactly when the reply is ok with a non-empty `hits`, and `null` otherwise |
| Session.AnswerAtMostOncePerCard | src/components/Flashcard.tsx:69-83 | without a card or once answered, an answer changes nothing; a wrong answer, or a correct one whose save succeeds, sets `hasAnswered`, so a second answer is ignored |
| Session.CorrectAnswerRecordsWord | src/components/Flashcard.tsx:72-77 | from any state whose set has no duplicates, including one left by an earlier failed save, a correct answer whose save succeeds yields the old set plus the word, keeps every earlier word in order, grows by at most one, stores exactly the new set, and changes nothing else but feedback and flag |
| Session.WrongAnswerKeepsProgress | src/components/Flashcard.tsx:78-82 | a wrong answer leaves the set and the record unchanged, and the feedback names the correct article and the word |
| Session.FailedWriteLeavesCardOpen | src/components/Flashcard.tsx:72-82 | when `localStorage.setItem` throws after a correct answer, the set has the word and the record is unchanged (from a saved state, a reload loses the word exactly when it was new); no feedback is shown and the card stays open |
| Session.RetryAfterFailedWriteSaves | src/components/Flashcard.tsx:69-82 | after a failed save the open card can be answered again; a correct retry whose save succeeds marks the card answered, adds nothing more to the set and brings the record back in step with it |
| Session.ResetClearsProgress | src/components/Flashcard.tsx:85-90 | a confirmed reset empties the set and removes the record (a reload starts empty); an unconfirmed one changes nothing; neither touches card, feedback or flag |
| Session.NextDrawsNewCard | src/components/Flashcard.tsx:49-96 | next clears feedback and flag; a failed draw keeps the card, a successful one shows the drawn noun with the first image hit or none; loading ends false; progress is untouched |
| Session.TransitionsStayConsistent | src/components/Flashcard.tsx:69-96 | every handler keeps the stored record such that a reload rebuilds the current set, whenever the record can be written |
| Session.ProgressOnlyGrows | src/components/Flashcard.tsx:69-96 | only a confirmed reset removes words from the set |
| Session.PictureIsFirstHit | src/components/Flashcard.tsx:36-47 | a card's picture is Pixabay's first hit for the word, present iff the key is set, the word is not blank and Pixabay has a hit |
| Session.FlashcardSession.constructor | src/components/Flashcard.tsx:25-32 | the cells start as `null`, `false`, the loaded set, `null`, `false`, and the record is the stored one |
| Session.FlashcardSession.HandleAnswer | src/components/Flashcard.tsx:69-83 | the new state is `Answer` of the old one, for a save that succeeds or throws; the set stays duplicate-free, and the record stays in step only when the save succeeds |
| Session.FlashcardSession.HandleReset | src/components/Flashcard.tsx:85-90 | the new state is `Reset` of the old one |
| Session.FlashcardSession.FetchNewCard | src/components/Flashcard.tsx:49-63 | the new state is `Fetch` of the old one: the card is replaced only on a successful draw, and loading ends false |
| Session.FlashcardSession.HandleNext | src/components/Flashcard.tsx:92-96 | the new state is `Fetch` after `ClearFeedback` of the old one |

## Left out

- File reading, `fetch`, `process.env` and `localStorage` are I/O. They become
  parameters or fields. A `setItem` that throws is modelled (`written`).
  The error it raises then leaves the handler uncaught. What React does with
  that error is not modelled. `console.error` logging is dropped.
- The parsing of the incoming request URL is not modelled: the query
  parameters arrive already decoded. The outbound request is a record of
  the values the handler puts in the Pixabay URL; its query string is
  modelled (`QueryAsWritten`, `Query`), the base URL and the `Accept`
  header are not.
- `ImagesRoute.Get`: its request record does not by itself say what Pixabay
  receives. The handler pastes the key and `per_page` into the URL without
  encoding, so a `per_page` holding `&`, `=` or `#` changes the outbound
  query (a `#` drops `pretty` and `safesearch`; a `&` adds parameters). See
  "## Findings".
- `UriComponent.Encode`: the model does not state that `decodeURIComponent`
  undoes it; only its output alphabet and its identity on unreserved text
  are stated. Lone UTF-16 surrogates, on which it throws, cannot occur in
  the model's strings.
- The `revalidate: 3600` caching is not modelled. It is an intermediary's
  policy, not the route's logic.
- `JSON.stringify`/`JSON.parse` of the stored record are not modelled. The
  record is modelled as the list it holds. A corrupt record, a non-array one,
  and the empty string (which the loader treats as absent) cannot be
  represented. In the code a corrupt record makes `JSON.parse` throw with no
  fallback.
- The async interleaving is not modelled. `FetchNewCard` runs to completion
  as one step. The moment where `loading` is true is internal to it. A stale
  image reply applied after "next" is not modelled either: that needs
  concurrency.
- The mount effect (`useEffect` calling `fetchNewCard`) is not a separate
  member. It is the constructor followed by `FetchNewCard`.
- The session's `DrawReply` carries all three fields as strings. That holds
  for every dataset line with at least two commas. The case where the
  endpoint omits `word` or `translation`, and the client then handles
  `undefined`, is not carried into the session.
- JavaScript numbers in Pixabay's hits are modelled as `int`: no
  floating-point values.
- Strings are sequences of Unicode scalar values, not UTF-16 code units.
- `FlashcardRoute.PickIndex`: does not state that the index is uniformly
  distributed. It also treats `r * n` as exact real arithmetic, leaving out
  floating-point rounding.
- Rendering (`page.tsx`, the JSX, the disabled buttons, toast, spinner) is
  presentation and is not modelled.

## Findings

| source | as written | input that shows it | evidently intended | confidence | as-written member | corrected member |
|---|---|---|---|---|---|---|
| src/app/api/images/route.ts:59 | `per_page` (and the key) are pasted into the Pixabay URL without `encodeURIComponent`; only `q` is encoded | `GET /api/images?q=cat&per_page=20%23`: `per_page` is `20#`, the URL reads `…&per_page=20#&pretty=true&safesearch=true`, and `fetch` does not send the fragment, so Pixabay gets neither `pretty` nor `safesearch` and a client can turn safe search off | every value encoded, so Pixabay always receives the six parameters with `safesearch=true` | high; not executed | ImagesRoute.FragmentInPerPageDropsSafeSearch (with ImagesRoute.PerPageTwentyHashDropsSafeSearch on `ImagesRoute.QueryAsWritten`) | ImagesRoute.QueryKeepsItsParameters (with ImagesRoute.EncodedRequestKeepsSafeSearch on `ImagesRoute.Query`) |
