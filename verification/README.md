# vanishVote client: a verified model of its logic

vanishVote is a Next.js client for short-lived anonymous polls. Under its
JSX and HTTP calls sit a few pieces of sequential logic, and this project
models them in Dafny and proves what they promise:

- **The poll card** (`components/PollCard.tsx`). It covers:
  - the vote total, a left fold over the `votes` object;
  - the "LEADING" option, a scan that starts from a maximum of 0 and takes an entry only on a strictly greater count;
  - the percentage shown beside each option;
  - the guard that re-votes only when the clicked option differs from `selectedOption`.

  The `votes` object is a sequence of `(option, count)` entries in
  `Object.entries` order, so iteration order is explicit.
- **The two poll-creation pages** (`app/page.tsx` and `app/create/page.tsx`).
  The option-list editor keeps two to five entries. Submission keeps only the
  non-blank options and splits the chosen end time back into hours and
  minutes. The time picker offers 48 zero-padded `HH:MM` labels. The home
  page also has the `loading`/`error` lifecycle of its create request and
  resets the form on success.
- **The comment form** (`components/PollCardCommentForm.tsx`), a small state
  machine over `commentText`, `isLoading` and `hasError`, with the 3-second
  error-clearing timer.
- **The vote slice** (`redux/slices/voteSlice.ts`), a one-field store with
  `setValue` and `reset`.

The JavaScript built-ins this logic relies on are modelled in `JsStrings`:
`trim` over the ECMAScript whitespace set, `split` on one character,
`padStart`, `toString` of a non-negative integer, `Number` of a digit string,
and `<` on strings of Basic Multilingual Plane characters.

Files:

| file | module |
|---|---|
| `wrappers.dfy` | `Wrappers` |
| `jsstrings.dfy` | `JsStrings` |
| `timeslots.dfy` | `TimeSlots` (the `HH:MM` labels, their split and their order) |
| `polleditor.dfy` | `PollEditor` (the list editor, submit filter and `generateTimeOptions` the two pages share) |
| `homepage.dfy` | `HomePage` |
| `createpage.dfy` | `CreatePage` |
| `pollcard.dfy` | `PollCard` |
| `commentform.dfy` | `PollCardCommentForm` |
| `voteslice.dfy` | `VoteSlice` |

How the async handlers are modelled:

- Each asynchronous handler is split at its `await` into two methods. The
  first runs up to the request and returns the request's content. The second
  takes the request's outcome as a parameter and runs the rest.
- A control the page disables becomes a precondition. The home page's submit
  button is disabled while `loading`. The comment form's textarea and button
  are disabled while `isLoading`. The selects offer only the values they list.

Three behaviours of the code are worth naming:

- **Ties for "LEADING".** The code marks the first entry that reaches the
  maximum count as leading (`IsLeader`). It does not show "no leader" on a tie.
- **Switching a vote.** There is no local tally decrement and no local
  reaction state; the card only posts the vote or reaction.
- **Store value after a failed vote.** `handleOptionSelect` dispatches
  `setValue(option)` whatever the vote request's outcome. After a failed vote,
  the store therefore names an option whose vote was never recorded, while
  `selectedOption` keeps its old value. `PollCardView.OptionSelect` and
  `PollCardView.VoteSettled` state this as it is.

## Model

| member | source | states |
|---|---|---|
| JsStrings.TrimStart | components/PollCardCommentForm.tsx:21 | the result is a suffix of the input, every dropped character is whitespace, and the result does not start with whitespace |
| JsStrings.TrimEnd | components/PollCardCommentForm.tsx:21 | the result is a prefix of the input, every dropped character is whitespace, and the result does not end with whitespace |
| JsStrings.BlankIffAllWhitespace | app/page.tsx:77 | `s.trim() === ""` holds exactly when every character of `s` is whitespace |
| JsStrings.Split | app/page.tsx:67 | `split` yields at least one piece, and no piece contains the separator |
| JsStrings.JoinSplit | app/page.tsx:67 | joining the pieces of a split with the same separator gives back the string |
| JsStrings.SplitJoin | app/page.tsx:67 | splitting a join of separator-free pieces gives back the pieces |
| JsStrings.DigitValue | app/page.tsx:67 | a digit character's value is below 10 and converts back to the same character |
| JsStrings.NatToString | app/page.tsx:114 | `n.toString()` is a non-empty digit string with no leading zero, one character long exactly when `n < 10` |
| JsStrings.ToNumber | app/page.tsx:67 | `Number(s)` is defined exactly on non-empty digit strings |
| JsStrings.NatToStringRoundTrip | app/page.tsx:67 | `Number(n.toString()) === n` |
| JsStrings.LeadingZero | app/page.tsx:114 | a leading `'0'` keeps a digit string's value |
| JsStrings.PadStart | app/page.tsx:114 | `padStart(len)` yields `len` characters when the input is shorter, and otherwise the input's length |
| JsStrings.ZeroPaddingKeepsValue | app/page.tsx:114-115 | padding a digit string with zeros keeps the number it denotes |
| TimeSlots.Pad2Digits | app/page.tsx:114-115 | below 100, the padded field is exactly the tens digit followed by the units digit |
| TimeSlots.NextSlot | app/page.tsx:112-116 | the label pushed for hour `h` and minute mark `m` is the picker's entry `2h + m` |
| TimeSlots.SlotShape | app/page.tsx:116 | every label is five characters: two digits, a colon, two digits |
| TimeSlots.Pad2RoundTrip | app/page.tsx:67 | a padded field parses back to its number and contains no colon |
| TimeSlots.SlotRoundTrip | app/page.tsx:67 | splitting `HH:MM` on ":" and mapping `Number` gives back the hour and the minute |
| TimeSlots.GeneratedSlotsRoundTrip | app/page.tsx:67 | the picker's entry `k` splits into hour `k / 2` and minute `30 * (k % 2)` |
| TimeSlots.SlotAtSplitsIntoTime | app/page.tsx:66-70 | the picker's entry `k` splits into an hour below 24 and a minute of 0 or 30 |
| TimeSlots.SlotSplitsIntoTime | app/page.tsx:66-70 | any label the picker offers splits into an hour below 24 and a minute of 0 or 30 |
| TimeSlots.NoonIsSlot | app/page.tsx:35 | the initial end time `"12:00"` is one of the offered labels (entry 24) |
| TimeSlots.LexLessAt | app/page.tsx:110-120 | two strings that agree up to a position and differ there compare by that character |
| TimeSlots.Digits5Order | app/page.tsx:110-120 | five-character labels compare as their (hour, minute) pairs do |
| TimeSlots.SlotOrder | app/page.tsx:110-120 | labels compare as their (hour, minute) pairs do |
| TimeSlots.SlotsAscending | app/page.tsx:110-120 | the 48 labels are in strictly ascending string order |
| PollEditor.AppendBlank | app/create/page.tsx:29-33 | below five entries, exactly one `""` is appended and the others are kept; at five the list is unchanged |
| PollEditor.RemoveOption | app/page.tsx:46-52 | with more than two entries and an index in range, exactly entry `index` is removed and the others keep their order; otherwise the list is unchanged |
| PollEditor.ChangeOption | app/page.tsx:54-58 | entry `index` becomes `value`; the length and all other entries are unchanged |
| PollEditor.AppendBlankKeepsBounds | app/page.tsx:40-44 | appending keeps the list within two to five entries |
| PollEditor.RemoveOptionKeepsBounds | app/page.tsx:46-52 | removing keeps the list within two to five entries |
| PollEditor.Filter | app/page.tsx:77 | the filtered list is no longer than the input |
| PollEditor.KeptIndicesMatch | app/page.tsx:77 | entry `k` of the filtered list is the input entry at the `k`-th kept position |
| PollEditor.ShiftKeepsIncreasing | app/page.tsx:77 | moving increasing positions up by one keeps them increasing, with room for position 0 in front |
| PollEditor.KeptIndicesIncreasing | app/page.tsx:77 | the kept positions are strictly increasing |
| PollEditor.KeptIndicesSound | app/page.tsx:77 | only entries that pass the test are kept |
| PollEditor.InShift | app/page.tsx:77 | a position in a list of positions reappears one higher after the shift |
| PollEditor.KeptIndicesComplete | app/page.tsx:77 | every entry that passes the test is kept |
| PollEditor.NonBlankOptionsIsSubsequence | app/create/page.tsx:63 | the submitted options are the input entries at strictly increasing positions, so they keep their original order |
| PollEditor.NonBlankOptionsKeepsExactlyFilled | app/create/page.tsx:63 | a position is among those submitted exactly when its entry's trim is non-empty |
| PollEditor.EditsKeepBounds | app/page.tsx:40-58 | any sequence of add, remove and change keeps a list of two to five entries within those bounds |
| PollEditor.ReachableListsInBounds | app/create/page.tsx:25-47 | from `["", ""]`, every reachable option list has two to five entries |
| PollEditor.GenerateTimeOptions | app/page.tsx:110-120 | 48 labels, entry `k` being hour `k / 2` and minute `30 * (k % 2)`, both zero-padded to two digits (the same as app/create/page.tsx:75-85) |
| HomePage.CreatePollForm.constructor | app/page.tsx:30-38 | the form starts with question `""`, options `["", ""]`, an end date, end time `"12:00"`, type 0, not loading and no error |
| HomePage.CreatePollForm.SetQuestion | app/page.tsx:149 | the question becomes the typed text, and nothing else changes |
| HomePage.CreatePollForm.SetQuestionType | app/page.tsx:160-167 | the question type becomes the selected 0 or 1, and nothing else changes |
| HomePage.CreatePollForm.PickEndDate | app/page.tsx:261 | picking or clearing a date sets only whether an end date exists |
| HomePage.CreatePollForm.SetEndTime | app/page.tsx:269 | the end time becomes the selected label, and nothing else changes |
| HomePage.CreatePollForm.AddOption | app/page.tsx:40-44 | the list grows by one `""` only below five entries and when the type is 0; the list stays within bounds and nothing else changes |
| HomePage.CreatePollForm.RemoveOption | app/page.tsx:46-52 | the list is `RemoveOption` of the old list and stays within bounds; nothing else changes |
| HomePage.CreatePollForm.ChangeOption | app/page.tsx:54-58 | the list is `ChangeOption` of the old list; nothing else changes |
| HomePage.CreatePollForm.BeginSubmit | app/page.tsx:60-78 | loading starts and the error clears; the body's options are `[]` for a Yes/No poll and the non-blank options otherwise; its time, when a date exists, is the end time split into an hour below 24 and a minute of 0 or 30 |
| HomePage.CreatePollForm.FinishSubmit | app/page.tsx:80-107 | loading ends on every path; success resets the question, options, end date and end time to `""`, `["", ""]`, a date and `"12:00"`; a failed request sets the error message and keeps the form |
| CreatePage.CreatePollForm.constructor | app/create/page.tsx:24-27 | the form starts with question `""`, options `["", ""]`, an end date and end time `"12:00"` |
| CreatePage.CreatePollForm.SetQuestion | app/create/page.tsx:109 | the question becomes the typed text, and nothing else changes |
| CreatePage.CreatePollForm.PickEndDate | app/create/page.tsx:197 | picking or clearing a date sets only whether an end date exists |
| CreatePage.CreatePollForm.SetEndTime | app/create/page.tsx:205 | the end time becomes the selected label, and nothing else changes |
| CreatePage.CreatePollForm.AddOption | app/create/page.tsx:29-33 | the list grows by one `""` below five entries, with no type condition; it stays within bounds |
| CreatePage.CreatePollForm.RemoveOption | app/create/page.tsx:35-41 | the list is `RemoveOption` of the old list and stays within bounds |
| CreatePage.CreatePollForm.ChangeOption | app/create/page.tsx:43-47 | only the indexed entry is replaced |
| CreatePage.CreatePollForm.Submit | app/create/page.tsx:49-72 | the built poll has the non-blank options and the end time split into an hour below 24 and a minute of 0 or 30; afterwards the form is `""`, `["", ""]`, a date and `"12:00"` |
| PollCard.TotalVotes | components/PollCard.tsx:98-103 | the total is the tally of the entries, and 0 when the poll has no `votes` |
| PollCard.TallyAppend | components/PollCard.tsx:98-103 | the tally of two runs of entries is the sum of their tallies |
| PollCard.TallyBoundsEach | components/PollCard.tsx:98-103 | with non-negative counts, the total is non-negative and at least every single count |
| PollCard.TallyZeroIff | components/PollCard.tsx:98-103 | with non-negative counts, the total is 0 exactly when every count is 0 |
| PollCard.Percentage | components/PollCard.tsx:159-163 | 0 when the total is not positive; otherwise `p * total == 100 * count`, and `p` lies in [0, 100] when `0 <= count <= total` |
| PollCard.PercentageAdd | components/PollCard.tsx:159-163 | at a positive total, the percentages of two counts add up to the percentage of their sum |
| PollCard.SumPercentagesOfTally | components/PollCard.tsx:159-163 | at a positive total, the entries' percentages add up to the percentage of their tally |
| PollCard.PercentageOfWhole | components/PollCard.tsx:159-163 | a count equal to a positive total is exactly 100 percent |
| PollCard.PercentagesSumToHundred | components/PollCard.tsx:159-163 | when anybody has voted, the percentages of all options add up to exactly 100 |
| PollCard.LeaderUnique | components/PollCard.tsx:126-131 | at most one entry is the leader |
| PollCard.FindWinningOption | components/PollCard.tsx:120-134 | null without `votes`; null exactly when no count is positive; otherwise the option of the leader, whose count is positive, not below any other count, and strictly above every earlier entry's count |
| PollCard.PollCardView.constructor | components/PollCard.tsx:31 | `selectedOption` starts null |
| PollCard.PollCardView.OptionSelect | components/PollCard.tsx:61-66 | an option equal to `selectedOption` changes nothing and sends nothing; any other option sends a vote for it and sets the store's value to it |
| PollCard.PollCardView.VoteSettled | components/PollCard.tsx:45-59 | `selectedOption` becomes the option only after the vote succeeds, and is unchanged after a failure |
| PollCardCommentForm.CommentForm.constructor | components/PollCardCommentForm.tsx:10-12 | empty text, not loading, no error |
| PollCardCommentForm.CommentForm.ChangeText | components/PollCardCommentForm.tsx:14-16 | typing replaces the text while the textarea is enabled, and nothing else changes |
| PollCardCommentForm.CommentForm.Submit | components/PollCardCommentForm.tsx:18-28 | blank text raises the error, sends nothing and keeps the text and loading state; other text clears the error, starts loading and sends the text |
| PollCardCommentForm.CommentForm.RequestSettled | components/PollCardCommentForm.tsx:30-45 | loading ends either way; success clears the text and calls the callback exactly when there is one; failure raises the error and keeps the text |
| PollCardCommentForm.CommentForm.ErrorTimerElapsed | components/PollCardCommentForm.tsx:48-56 | the timer clears the error and changes nothing else |
| VoteSlice.VoteState.constructor | redux/slices/voteSlice.ts:7-9 | the initial value is `""` |
| VoteSlice.VoteState.SetValue | redux/slices/voteSlice.ts:15-17 | the value becomes the payload |
| VoteSlice.VoteState.Reset | redux/slices/voteSlice.ts:18-20 | the value becomes `""` whatever it was |
| VoteSlice.SetValueIdempotent | redux/slices/voteSlice.ts:15-17 | dispatching the same `setValue` twice leaves the same state as dispatching it once |

Several page methods also keep an invariant, `Valid()`:

- Every method of `HomePage.CreatePollForm` and `CreatePage.CreatePollForm`
  preserves two to five options and an end time the picker offers.
- Every method of `PollCardCommentForm.CommentForm` preserves that no error
  shows while a request is in flight.

## Left out

- HTTP requests are not modelled: the vote, reaction, comment and create calls, and the fetch of a poll. A request appears as the value a method returns, and its outcome as a method parameter.
- `handleReaction` is left out. It only posts a request and keeps no local state.
- Cookies, the random user id and the random profile pictures are left out. They are browser storage and randomness.
- The ended/active check compares two `toLocaleString` strings, which depends on locale formatting. That check is not modelled, so nothing is claimed about when a poll ends.
- `toFixed(1)` rounding is left out. `PollCard.Percentage` is the exact rational value before rounding.
- Dates are not modelled: `addDays`, `addHours`, `Date.setHours` and the calendar's past-date filter. An end date is reduced to whether one is picked. The request body carries the hours and minutes that `setHours` would receive.
- The clipboard copy and its 2-second "Copied" flag are left out. They are a browser API and a timer.
- Not modelled: `console.log`, `alert`, `router.push` and the rendering itself.
- Redux persistence and the static fixture data are not part of this model.
- JsStrings.ToNumber: models `Number` only on strings of ASCII decimal digits. Every other string gives None, where JavaScript would give `NaN`, `0` for the empty string, or parse signs, decimals and surrounding whitespace. Every string the model passes to it comes from the time picker.
- JsStrings.LexLess: compares characters by code point, which agrees with JavaScript's UTF-16 code-unit order only on strings of Basic Multilingual Plane characters; the picker's labels are ASCII.
- JsStrings.PadStart: its contract states only the length. What the padding means for the picker's labels is proved in `TimeSlots.Pad2Digits` and `JsStrings.ZeroPaddingKeepsValue`.
- PollCard.VoteEntry: counts are integers. `Number(votes)` on a non-numeric count, which would give `NaN`, is not modelled, and neither is the string concatenation `reduce` would do on one.
- HomePage.CreatePollForm.ChangeOption: requires an index within the list, because only the rendered inputs call it. JavaScript would extend the array with holes at a larger index.
- CreatePage.CreatePollForm.ChangeOption: the same index precondition as the home page.
- HomePage.CreatePollForm.BeginSubmit: requires that no request is loading, because the submit button is disabled then. The browser's `required` validation of the question and option inputs is not modelled.
- HomePage.CreatePollForm.SetQuestionType: requires 0 or 1, the only values the select offers.
- PollCard.PollCardView.OptionSelect: the button of the option the store holds is disabled. That restriction is not a precondition here, since the handler's own guard is on `selectedOption`.
