# Today I Learned — fact board state model

A Dafny model of the state logic of the "Today I Learned" fact-sharing board
(`src/App.js`): users post short facts with a source link and a category,
browse them by category and vote on each fact. What is modelled is the part
of the component that is not rendering and not the store client:

- **Facts** (`facts.dfy`): the fact record, its three vote columns, the
  derived *disputed* flag and the fixed category names.
- **Validation** (`validation.dfy`): `isValidHttpUrl`, the `handleSubmit`
  guard and the `200 - text.length` counter. JavaScript's `length` counts
  UTF-16 code units, so the model counts a character above U+FFFF twice
  (`Utf16Length`). The URL constructor is a parameter (`UrlParser`) that
  yields the parsed protocol, or nothing when parsing throws.
- **FactList** (`fact_list.dfy`): the two list transforms, prepending the
  inserted record and replacing by id after a vote.
- **Store** (`store.dfy`): the requests the board sends (the filtered,
  ordered, capped list query; the insert; the vote update that writes the
  displayed counter plus one) and what an honest answer looks like. The
  store itself is not modelled: each answer is a `StoreResult` parameter.
- **Board** (`board.dfy`): a class `App` holding the component state —
  `facts`, `isLoading`, `currentCategory`, `isShowForm`, the form's
  `text`/`source`/`category`/`isUploading`, and the per-row `isUpdating`
  flags — with one method per "request issued" and "answer arrived" step
  of `getFacts`, `handleSubmit`, `handleVote`, and the header toggle.
  React's mounting rules are kept: the form's state exists only while the
  form is shown, and a row's flag exists only while that row is mounted.
  Rows are keyed by id, so a flag is lost when the loader replaces the
  list or when a new list no longer holds the row. Each vote carries a
  fresh token, so an answer re-enables only the row it was sent from.
- **Scenarios** (`scenarios.dfy`): clients that run whole sequences on a
  fresh `App`.

## Behaviour as written

The model follows the code as written, including these behaviours:

- A category answer is applied whenever it arrives; nothing discards an
  answer for a category that is no longer selected
  (`Scenarios.OutOfOrderCategoryAnswers`).
- The guard checks only that the category is non-empty, not that it is a
  listed name (`Validation.UnlistedCategoryPasses`); the form's select is
  what keeps other values out (`Board.App.Submit`).
- A failed insert still clears the fields and closes the form
  (`Board.App.SubmitResponded`, `Scenarios.FailedInsertClosesForm`).
- The vote update writes the locally displayed counter plus one, so two
  votes sent from the same displayed value store one vote
  (`Store.StaleVotesCountOnce`, `Scenarios.VoteDuringReload`).
- A row's vote buttons are enabled again whenever the row leaves the list,
  even while its vote is in flight (`Scenarios.RowDroppedByLateAnswer`).
- Prepending a new record ignores the "most interesting first" order and the
  active filter (`FactList.PrependCanBreakOrder`).

## Model

| member | source | states |
|---|---|---|
| `Facts.Votes` | src/App.js:273 | reads the counter `factObj[columnName]`; its contract is stated through `Facts.WithVotes` |
| `Facts.WithVotes` | src/App.js:273 | setting one counter changes that counter only; id, text, source, category, year and the other counters are kept; the row is unchanged exactly when the value written is the one read |
| `Facts.IsDisputed` | src/App.js:266-267 | a fact with no false votes and non-negative other counters is never disputed; a fact with no other votes is disputed exactly when it has a false vote |
| `Facts.DisputedSamples` | src/App.js:12-14 | the sample record 24/9/4 is not disputed; a constructed 1/0/2 record is |
| `Facts.VoteMovesDisputedOneWay` | src/App.js:266-273 | one more false vote never clears the flag; one more vote in another column never sets it |
| `Facts.CategoryNamesFacts` | src/App.js:110-119 | eight distinct category names, none empty and none "all" |
| `Validation.Utf16Length` | src/App.js:142 | the JavaScript length lies between the character count and twice it, and is zero only for the empty text |
| `Validation.Utf16LengthAppend` | src/App.js:142 | the length of a concatenation is the sum of the lengths |
| `Validation.AsciiLength` | src/App.js:142 | a text with no character above U+FFFF has as many code units as characters |
| `Validation.ShortTextFits` | src/App.js:142 | any text of at most 100 characters passes the length check |
| `Validation.RemainingChars` | src/App.js:193 | the counter is at most 200 and equals 200 exactly for an empty text |
| `Validation.RemainingCharsNonNegativeIff` | src/App.js:142-193 | the counter is non-negative exactly when the text passes the length check |
| `Validation.IsValidHttpUrl` | src/App.js:121-129 | false when parsing throws; otherwise true exactly when the protocol is `http:` or `https:` |
| `Validation.IsSubmittable` | src/App.js:142 | an accepted submission has 1 to 200 characters and a source whose protocol is `http:` or `https:` |
| `Validation.SubmittableConditions` | src/App.js:142 | an empty text, an over-long text, an unparsable source, a non-http(s) protocol or an empty category each reject; meeting all four accepts |
| `Validation.SubmittableCounterRange` | src/App.js:142-193 | an accepted submission shows a counter from 0 to 199 |
| `Validation.UnlistedCategoryPasses` | src/App.js:142 | a category outside the listed names (here "astrology") passes the guard |
| `Validation.LengthBoundary` | src/App.js:142 | 200 plain characters are accepted, 201 are rejected |
| `FactList.Ids` | src/App.js:274-280 | the id list has one entry per row, in row order |
| `FactList.Prepend` | src/App.js:166 | the new list is one longer, starts with the stored record and continues with the old list unchanged |
| `FactList.PrependKeepsIdsUnique` | src/App.js:166 | prepending a record with a new id keeps ids unique |
| `FactList.PrependCanBreakOrder` | src/App.js:166 | prepending a record with fewer "interesting" votes than the head leaves the list out of the fetched order |
| `FactList.ReplaceById` | src/App.js:279-281 | same length; every row with the voted id becomes the stored record; every other row stays where it was |
| `FactList.ReplaceAbsentId` | src/App.js:279-281 | replacing an id no row has leaves the list unchanged |
| `FactList.ReplaceIdempotent` | src/App.js:279-281 | applying the same stored record twice equals applying it once |
| `FactList.ReplaceKeepsIds` | src/App.js:279-281 | a record with the voted id keeps the id list; with unique ids only the voted position changes |
| `Store.FactsQuery` | src/App.js:52-60 | no filter exactly for "all", otherwise the selected category; ordered by interesting votes, descending, capped at 1000 |
| `Store.FactsQueryAnswer` | src/App.js:53-60 | an honest answer has at most 1000 rows, sorted by interesting votes descending, all of the selected category unless "all" |
| `Store.VoteRequest` | src/App.js:271-275 | the update targets the shown row's id and column and asks for the displayed counter plus one |
| `Store.ApplyUpdate` | src/App.js:273-274 | an update sets its one column to its value and keeps every other field |
| `Store.VoteIncrementsShownRow` | src/App.js:273 | when the stored row is the displayed one, the vote adds exactly one to the chosen counter |
| `Store.StaleVotesCountOnce` | src/App.js:273 | two updates sent from the same displayed row leave the counter one higher, not two |
| `Store.FalseVoteFromFour` | src/App.js:273 | a false vote on a row showing 4 asks for 5 |
| `Board.App.constructor` | src/App.js:42-45 | no facts, not loading, filter "all", form hidden and empty, no row updating |
| `Board.KeepShown` | src/App.js:253-254 | a row's flag survives a new list exactly when a row with the same id is in it, and keeps its token |
| `Board.App.ToggleForm` | src/App.js:102 | the form's visibility flips; a closed form has no state and an opened one starts empty; nothing else changes |
| `Board.App.RequestFacts` | src/App.js:49-60 | the loader is shown, every row flag is dropped with the rows, and the query for the selected category is sent |
| `Board.App.FactsArrived` | src/App.js:58-64 | on success the list becomes the answer, on error it is kept; loading ends either way; flags of rows missing from the list are dropped |
| `Board.App.SelectCategory` | src/App.js:45-69 | the filter becomes the choice; only a different choice re-runs the fetch |
| `Board.App.EditText` | src/App.js:186-192 | only the form's text changes |
| `Board.App.EditSource` | src/App.js:194-200 | only the form's source changes |
| `Board.App.ChooseCategory` | src/App.js:201-208 | only the form's category changes, to the placeholder or a listed name |
| `Board.App.Submit` | src/App.js:137-149 | a request is sent exactly when the guard accepts, carrying the three fields and marking the form uploading; otherwise nothing changes |
| `Board.App.SubmitResponded` | src/App.js:150-174 | on success the stored record is prepended, on error the list is kept; either way the fields are cleared, the upload ends and the form closes |
| `Board.App.Vote` | src/App.js:269-275 | the row becomes updating under a fresh token and the update asks for its displayed counter plus one; nothing else changes |
| `Board.App.VoteResponded` | src/App.js:276-281 | the flag set by this vote is cleared and no other; on success every row with the id becomes the stored record, on error the list is kept; only shown rows keep flags |
| `Scenarios.OutOfOrderCategoryAnswers` | src/App.js:47-69 | with "science" then "history" selected and the history answer first, the list ends with science facts under the history filter |
| `Scenarios.FailedInsertClosesForm` | src/App.js:142-174 | a failed insert sends the fields, keeps the list, and leaves the form closed and empty |
| `Scenarios.RejectedThenAcceptedSubmission` | src/App.js:142-175 | an `ftp:` source sends nothing and keeps the form as typed; after fixing it the stored record heads the list |
| `Scenarios.FailedVoteKeepsCounts` | src/App.js:269-281 | a failed vote leaves every row as displayed and re-enables the row |
| `Scenarios.SuccessfulVoteReplacesRow` | src/App.js:276-281 | with unique ids a successful vote replaces exactly the voted position and re-enables the row |
| `Scenarios.VoteDuringReload` | src/App.js:47-83 | a category change during a vote remounts the row enabled; a second vote asks for the same value and the first answer leaves the new flag set |
| `Scenarios.RowDroppedByLateAnswer` | src/App.js:253-281 | overlapping answers [x], [y], [x] drop the flag a vote set on x, so x can be voted on again from the same displayed value |

## Left out

- Rendering: the JSX of every component, the loader and empty-list messages, and the category colour lookup (`CATEGORIES.find(...).color`).
- The store client (`supabase`): every answer is a parameter, either data or an error. The store's own behaviour is assumed in two places only: the predicate `Store.Answers` (what an honest list answer holds), used by `Store.FactsQueryAnswer` and `Scenarios.OutOfOrderCategoryAnswers`; and the function `Store.ApplyUpdate` (what an update does to the row it matches), used by `Store.VoteIncrementsShownRow`, `Store.StaleVotesCountOnce` and `Store.FalseVoteFromFour`.
- The `URL` constructor: parsing is a `UrlParser` parameter giving the protocol or nothing. WHATWG URL parsing is not modelled.
- `alert` on a failed fetch: it is a user notification and changes no state.
- Asynchrony: each handler is two atomic steps, and concurrent handlers interleave only at those steps. React's batching and render scheduling are not modelled.
- An answer whose `data` array is empty, which makes `newFact[0]` or `updatedFact[0]` undefined: every record answer is one `Fact`.
- The commented-out `initialFacts` and the old client-side id generation, except the sample counters used in `Facts.DisputedSamples`.
- Facts.Fact: ids and counters are unbounded integers, not JavaScript doubles; precision loss above 2^53 is not modelled.
- React's key reconciliation when two rows share an id: a row's flag is tracked per id, and two shown rows with one id share it.
