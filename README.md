# Happy Thoughts board — verified model of the client logic

This project models, in Dafny, the logic of a small React "happy thoughts"
board: a feed of short messages that can be posted and liked. The model
covers four pieces of the client:

- **The thought list** (`src/App.tsx`). A `Thought` has an id, a message, a
  like count and a timestamp. Posting puts a new thought with no likes in
  front of the list. Liking rebuilds the list with one more like on every
  entry whose id matches. Both are functions on `seq<Thought>`, because the
  component only ever replaces the whole list.
- **The post form** (`src/components/ThoughtForm.tsx`). A draft is accepted
  when, once trimmed, it is at least 5 characters long and, as typed, at most
  140. The too-short check runs first. An accepted draft is handed on as
  typed, not trimmed, and the form is cleared. The form's `message` and
  `error` state is the class `ThoughtForm.Form`. The characters-left counter
  and the over-limit flag are functions of the draft.
- **The feed** (`src/components/ThoughtList.tsx`). It shows a relative age
  ("N seconds ago", "1 minute ago", "3 hours ago", "2 days ago") computed from
  whole elapsed seconds with the thresholds 60, 3600 and 86400. It keeps a set
  of ids drawn as new, the class `ThoughtList.Feed`.
- **Like counts** (`src/components/MyLikedThoughts.tsx`,
  `src/components/LikeCounter.tsx`). The liked thoughts are a filter of the
  list by membership of their id in a liked-id list. The labels are
  "thought"/"thoughts", "1 like"/"N likes" and "x N".

Two helper modules model the JavaScript behaviour the code depends on.
`Decimal` prints an integer as `${n}` does, and proves that the printed
number can be read back. `JsString` models `String.prototype.trim` over the
ECMAScript WhiteSpace and LineTerminator characters. It also models
`length` as a count of UTF-16 code units: a character outside the Basic
Multilingual Plane counts 2.

Clock readings are parameters. Times are integer milliseconds: `nowMs` for
"now" and the thought's `timestamp`. The id of a new thought
(`Date.now().toString()` in the source) is also a parameter.

The model follows what the code does, which is narrower than the board's
intended design:

- The code has no network-backed repository, session store or persisted
  liked-id set. Liking only changes the in-memory list. A post is added
  locally with an id taken from the clock.
- The 140-character ceiling applies to the draft as typed, not to the
  trimmed text.
- The too-long message asks to keep the text "under 140 characters", but a
  draft of exactly 140 is accepted, since the check is `length > 140`
  (`ThoughtForm.Validate`, `ThoughtForm.ErrorTexts`).

Ids come from the clock and nothing keeps them distinct. `App.LikeAfterPost`
shows the effect: a like on a new thought's id also likes any older thought
that has the same id.

## Model

| member | source | states |
|---|---|---|
| `Decimal.IntToString` | src/components/LikeCounter.tsx:11 | the printed number is non-empty; it starts with `-` exactly for negative numbers and with a digit otherwise, is digits after the first character, and has no leading zeros ("0" is the only text starting with `0`) |
| `Decimal.NatToStringRoundTrip` | src/components/LikeCounter.tsx:11-14 | reading back the printed digits of a natural number gives the number |
| `Decimal.IntToStringRoundTrip` | src/components/LikeCounter.tsx:11-14 | reading back a printed integer, sign included, gives the integer |
| `Decimal.IntToStringPrefixUnique` | src/components/ThoughtList.tsx:37-46 | a printed number followed by text that starts with a non-digit splits back into the same number and the same text |
| `JsString.Utf16Length` | src/components/ThoughtForm.tsx:36 | `length` lies between the number of characters and twice that |
| `JsString.Trim` | src/components/ThoughtForm.tsx:29 | the trimmed text is never longer, in UTF-16 code units, than the input |
| `JsString.LeadingBlanksShape` | src/components/ThoughtForm.tsx:29 | the counted leading characters are all whitespace and the next one is not |
| `JsString.TrailingBlanksShape` | src/components/ThoughtForm.tsx:29 | the counted trailing characters are all whitespace and the one before them is not |
| `JsString.TrimShape` | src/components/ThoughtForm.tsx:29 | `trim()` is the infix between a blank prefix and a blank suffix; it neither starts nor ends with a blank; it is empty exactly when the input is all blank |
| `JsString.TrimIdempotent` | src/components/ThoughtForm.tsx:29 | trimming twice is trimming once |
| `JsString.TrimIgnoresLeadingBlanks` | src/components/ThoughtForm.tsx:29 | blanks in front of a text do not change its trimmed form |
| `App.SeedThoughts` | src/App.tsx:14-33 | the board starts with three thoughts with distinct ids, non-negative likes and times before start-up, newest first |
| `App.AddThought` | src/App.tsx:35-43 | posting gives a list one longer whose head has the given id, message, time and 0 likes, and whose tail is the old list |
| `App.HandleLike` | src/App.tsx:45-51 | liking keeps the length, the order and every id, message and timestamp; matching entries gain exactly one like; every other entry is unchanged |
| `App.HandleLikeAbsent` | src/App.tsx:48 | liking an id no entry carries returns the same list |
| `App.HandleLikeMonotone` | src/App.tsx:48 | no like count decreases, so non-negative counts stay non-negative |
| `App.HandleLikeCommutes` | src/App.tsx:45-51 | likes on two ids give the same list in either order |
| `App.LikeAfterPost` | src/App.tsx:35-51 | a like right after a post gives the new thought 1 like and likes the old list as if the post had not happened |
| `App.SeedLikeExample` | src/App.tsx:14-51 | on the start-up list, a like on "2" gives the same list with thought "2" at 11 likes, so the counts read 0, 11 and 23 |
| `ThoughtForm.Validate` | src/components/ThoughtForm.tsx:29-45 | too short exactly when the trimmed length is below 5; too long exactly when it is not and the raw length is above 140; accepted exactly when 5 <= trimmed length and raw length <= 140 |
| `ThoughtForm.IsOverLimit` | src/components/ThoughtForm.tsx:53-54 | the counter is over the limit exactly when the draft is longer than 140 |
| `ThoughtForm.CharactersLeft` | src/components/ThoughtForm.tsx:53 | the counter shows 140 minus the draft's length in UTF-16 code units, which is at most 140 minus the number of characters, and 140 exactly for an empty draft |
| `ThoughtForm.CharactersLeftOfBmp` | src/components/ThoughtForm.tsx:53 | for a draft without characters outside the Basic Multilingual Plane, the counter shows 140 minus the number of characters |
| `ThoughtForm.ErrorFor` | src/components/ThoughtForm.tsx:29-45 | a too-short draft gets exactly the too-short message, a too-long one exactly the too-long message, and an accepted one no error; an error shown is never empty |
| `ThoughtForm.ErrorTexts` | src/components/ThoughtForm.tsx:30-39 | the two messages read "Your message is too short. Please write at least 5 characters." and "Your message is too long. Please keep it under 140 characters.", and differ |
| `ThoughtForm.AcceptedBounds` | src/components/ThoughtForm.tsx:29-54 | an accepted draft is 5 to 140 long both trimmed and as typed, and the counter shows 0 to 135 for it |
| `ThoughtForm.OverLimitNeverAccepted` | src/components/ThoughtForm.tsx:36-54 | a draft shown as over the limit is never accepted |
| `ThoughtForm.PaddingKeepsTooShort` | src/components/ThoughtForm.tsx:29-41 | adding blanks in front of a too-short draft leaves it too short, however long it gets |
| `ThoughtForm.TooShortTakesPrecedence` | src/components/ThoughtForm.tsx:29-41 | 150 spaces followed by "abc" is over 140 as typed and is reported as too short |
| `ThoughtForm.Form.constructor` | src/components/ThoughtForm.tsx:14-15 | the form starts with an empty draft and no error |
| `ThoughtForm.Form.OnPostingChanged` | src/components/ThoughtForm.tsx:20-24 | when `isPosting` is true the error is cleared; the draft never changes |
| `ThoughtForm.Form.HandleChange` | src/components/ThoughtForm.tsx:48-51 | the draft becomes the typed value and the error is cleared |
| `ThoughtForm.Form.HandleSubmit` | src/components/ThoughtForm.tsx:26-46 | `onSubmit` receives the untrimmed draft exactly when it is accepted; a rejected draft is kept and gets its error; an accepted one clears the draft and the error |
| `ThoughtList.ElapsedSeconds` | src/components/ThoughtList.tsx:34 | the result is the floor of the millisecond difference over 1000 |
| `ThoughtList.Bucket` | src/components/ThoughtList.tsx:36-47 | seconds below 60, minutes below 3600, hours below 86400, days otherwise; a seconds count is the age itself |
| `ThoughtList.BucketCount` | src/components/ThoughtList.tsx:38-46 | a minute, hour or day count is the age in whole units rounded down; minutes lie in 1..59, hours in 1..23, and days are at least 1 |
| `ThoughtList.PluralSuffix` | src/components/ThoughtList.tsx:37-46 | the unit takes an "s" exactly when it is seconds or the count is above 1, and nothing otherwise |
| `ThoughtList.Tail` | src/components/ThoughtList.tsx:37-46 | the text after the number; its shape is stated by `ThoughtList.TailNamesUnit` |
| `ThoughtList.Render` | src/components/ThoughtList.tsx:37-46 | the number followed by its tail; `ThoughtList.RenderInjective` states that it tells the age back |
| `ThoughtList.FormatTimestamp` | src/components/ThoughtList.tsx:32-48 | the label under a thought; its value in each range is stated by `ThoughtList.FormatSeconds`, `FormatMinutes`, `FormatHours` and `FormatDays`, and its ending by `ThoughtList.FormatTimestampEndsWithAgo` |
| `ThoughtList.FormatTimestampEndsWithAgo` | src/components/ThoughtList.tsx:32-48 | every label ends in " ago" |
| `ThoughtList.FormatSeconds` | src/components/ThoughtList.tsx:36-37 | below 60 s the label is "<n> seconds ago", plural even for 0 and 1 |
| `ThoughtList.FormatMinutes` | src/components/ThoughtList.tsx:38-40 | from 60 s to 3599 s the label counts whole minutes, 1 to 59, with an "s" exactly above 1 |
| `ThoughtList.FormatHours` | src/components/ThoughtList.tsx:41-43 | from 3600 s to 86399 s the label counts whole hours, 1 to 23, with an "s" exactly above 1 |
| `ThoughtList.FormatDays` | src/components/ThoughtList.tsx:44-46 | from 86400 s on the label counts whole days, at least 1, with an "s" exactly above 1 |
| `ThoughtList.TailNamesUnit` | src/components/ThoughtList.tsx:37-46 | after the number comes a blank, then the whole unit name, whose first letter differs for each unit |
| `ThoughtList.RenderInjective` | src/components/ThoughtList.tsx:37-46 | two ages with the same label have the same count and unit |
| `ThoughtList.SecondsExamples` | src/components/ThoughtList.tsx:36-37 | "0 seconds ago", "1 seconds ago", and "-5 seconds ago" for a time 5 s in the future |
| `ThoughtList.UnitExamples` | src/components/ThoughtList.tsx:38-46 | "1 minute ago" at 90 s, "2 hours ago" at 7200 s, "1 day ago" at 86400 s |
| `ThoughtList.SeedTimestamps` | src/App.tsx:14-33 | at start-up the three seed thoughts read "30 seconds ago", "10 minutes ago" and "15 minutes ago" |
| `ThoughtList.Feed.constructor` | src/components/ThoughtList.tsx:15 | the set of new thoughts starts empty |
| `ThoughtList.Feed.HandleNewThought` | src/components/ThoughtList.tsx:18-20 | the id is added only if absent, and the result says whether it was; a repeated call changes nothing |
| `ThoughtList.Feed.ExpireNewThought` | src/components/ThoughtList.tsx:22-26 | the timer's callback removes the id from the set |
| `ThoughtList.Feed.RenderFeed` | src/components/ThoughtList.tsx:52-59 | one pass of the feed's map draws each thought as new iff its id was in the set when the pass started, and adds the first thought's id to the set; nothing else changes |
| `ThoughtList.Feed.Show` | src/components/ThoughtList.tsx:52-59 | the render React keeps, after re-running a pass that set state: every thought is drawn as new iff its id is in the final set, the final set is the old one plus the first thought's id, and the first thought is always drawn as new |
| `ThoughtList.Feed.ExpireThenShow` | src/components/ThoughtList.tsx:18-27 | after the timer's callback for any id and a render, the set is the old one minus that id plus the first thought's id, and each thought is drawn as new iff its id is in that set; so an expired first thought is back in the set and drawn as new, and any other expired id stays out |
| `MyLikedThoughts.LikedThoughts` | src/components/MyLikedThoughts.tsx:13 | a thought is kept iff it is in the list and its id is liked; the result is never longer than the list |
| `MyLikedThoughts.LikedThoughtsConcat` | src/components/MyLikedThoughts.tsx:13 | the filter keeps the original relative order |
| `MyLikedThoughts.LikedThoughtsOnlyMatchingIdsMatter` | src/components/MyLikedThoughts.tsx:13 | two liked-id lists that agree on the ids of the shown thoughts give the same result |
| `MyLikedThoughts.DuplicateIdsDoNotCount` | src/components/MyLikedThoughts.tsx:13 | a repeated liked id does not inflate the count |
| `MyLikedThoughts.UnmatchedIdsDoNotCount` | src/components/MyLikedThoughts.tsx:13 | liked ids that no thought carries add nothing |
| `MyLikedThoughts.CountWord` | src/components/MyLikedThoughts.tsx:18 | "thought" exactly for a count of 1, "thoughts" otherwise, 0 included |
| `MyLikedThoughts.Summary` | src/components/MyLikedThoughts.tsx:13-19 | the line the component renders for a board; `MyLikedThoughts.SummaryTellsCount` and `MyLikedThoughts.SummaryWord` state what it says |
| `MyLikedThoughts.Sentence` | src/components/MyLikedThoughts.tsx:17-18 | the line for a given count; `MyLikedThoughts.SentenceInjective` states that it tells the count back |
| `MyLikedThoughts.SentenceInjective` | src/components/MyLikedThoughts.tsx:17-18 | two counts give the same line only when they are equal |
| `MyLikedThoughts.SummaryTellsCount` | src/components/MyLikedThoughts.tsx:13-19 | two boards whose lines read the same have the same number of liked thoughts |
| `MyLikedThoughts.SummaryWord` | src/components/MyLikedThoughts.tsx:13-19 | the line ends in " thought" exactly when one thought is liked, and in " thoughts" otherwise |
| `MyLikedThoughts.SentenceWord` | src/components/MyLikedThoughts.tsx:17-18 | the line for a count of 1 ends in " thought", and for any other count in " thoughts" |
| `MyLikedThoughts.SummaryOfDefaults` | src/components/MyLikedThoughts.tsx:9-19 | with both props at their empty defaults, the count is 0 and the line reads "You’ve liked 0 thoughts" |
| `LikeCounter.ScreenReaderText` | src/components/LikeCounter.tsx:11 | the hidden text; `LikeCounter.LikeCounterTexts` states its shape and `LikeCounter.LikeCounterTextsDetermineCount` that it tells the count |
| `LikeCounter.VisibleText` | src/components/LikeCounter.tsx:14 | the visible text; `LikeCounter.LikeCounterTexts` states its shape and `LikeCounter.LikeCounterTextsDetermineCount` that it tells the count |
| `LikeCounter.LikeCounterTexts` | src/components/LikeCounter.tsx:10-15 | the screen-reader text is the printed count followed by " like" exactly for 1 and " likes" otherwise; the visible text starts with "x " and the rest is the same printed count |
| `LikeCounter.LikeCounterTextsDetermineCount` | src/components/LikeCounter.tsx:10-15 | each of the two texts determines the count it shows |
| `ThoughtItem.LikeButtonDisabled` | src/components/ThoughtItem.tsx:26 | the like button is disabled exactly while the in-flight like id equals this thought's id |

## Left out

- `src/components/LoginForm.tsx` and `src/components/SignupForm.tsx` are not part of this model. They are `fetch` calls, JSON parsing and `localStorage` writes.
- `src/components/Spinner.tsx` is not part of this model: it is markup only. The markup of the other components is left out too: JSX, CSS classes and aria attributes.
- Session tokens, a persisted liked-id set and an optimistic network protocol are not modelled. No code for them exists in these files.
- The clock is left out. Readings of `Date.now()` and `new Date()` become the integer millisecond parameters `nowMs` and `postedMs`. The id of a new thought, `Date.now().toString()` in the source, becomes an arbitrary string parameter `id`; the model keeps no link between it and `nowMs`.
- The 2000 ms `setTimeout` that schedules `Feed.ExpireNewThought` is left out, since it is a timed effect. The callback's body is modelled.
- ThoughtList.Feed.RenderFeed: describes one pass of the feed's map only. A pass that marks the first thought new sets state while rendering, and React discards that pass and renders again; `ThoughtList.Feed.Show` models the render React keeps. The effect is that the first thought is always drawn as new: the two-second timer removes its id and the next render adds it back (`ThoughtList.Feed.ExpireThenShow`). The model does not say how often React re-renders or when the timer fires.
- JavaScript strings may hold an unpaired UTF-16 surrogate, which a Dafny `char` cannot. `JsString.Utf16Length` and `JsString.Trim` match JavaScript only for well-formed text.
- React scheduling is left out. The state setters in one handler are applied in order. They set different fields, so batching gives the same final state.
- The feed's `thought === thoughts[0]` compares objects by reference. The model uses position 0. The list holds a distinct object per entry, so the two agree.
- `App.tsx` does not pass the `isPosting` prop to the form, so at run time it is `undefined` and the effect never clears the error. `Form.OnPostingChanged` models the effect for a given prop value.
- JavaScript numbers are modelled as unbounded integers. Fractional like counts and the exponent notation of very large numbers (`${1e21}`) are outside the model.
- The like button's aria text "Like this thought. Currently has N likes" and its "x N" text in `src/components/ThoughtList.tsx:79-94` are not modelled separately. Its "x N" text is the one `LikeCounter.VisibleText` models.
- The empty `useEffect` in `src/components/ThoughtItem.tsx` does nothing and is left out.
