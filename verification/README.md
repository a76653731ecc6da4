# Employee directory: filter, detail modal and state codes

The program is a single browser script (`js/scripts.js`). It fetches twelve
users, shows them as a card gallery with a search box, and opens a detail
modal with cyclic Prev/Next buttons. This Dafny project models the logic
under that page:

- **Text** (`text.dfy`): the two string operations the search uses.
  `Lower` stands in for `toLowerCase` and folds ASCII capitals only.
  `Includes` stands in for `includes`; it is a recursive search, proved
  equal to "occurs at some position".
- **Users** (`users.dfy`): a `User` record with first name, last name and
  state. `FullName` builds `lower(first) + " " + lower(last)`. `Matching`
  is the `users.filter(...)` of `filterUsers`. Its contract gives
  membership both ways and the multiplicity of every user. A separate
  lemma proves the result is an order-preserving subsequence.
- **StateCodes** (`state_codes.dfy`): the fifty-entry
  `stateAbbreviations` table and the detail view's
  `stateAbbreviations[name] || name`. Two versions exist: the lookup
  as the script writes it (`StateCodeAsWritten`, see Findings) and the
  own-keys lookup `StateCode`, which the rest of the model uses.
- **Arith** (`arith.dfy`): facts about Euclidean remainder that the
  wrap-around navigation proofs rest on.
- **UserDirectory** (`user_directory.dfy`): the directory's state. It holds
  `users`, `filteredUsers` and the modal, which is `Closed` or
  `Open(index, shown)`. `index` is the modal's `data-index`. `shown` is the
  user it was rendered with. The operations are `loadUsers`, `filterUsers`,
  the search box listener, `showModal`, `closeModal`, `showPrevUser` and
  `showNextUser`, all as pure state transformers.
- **DirectoryApp** (`directory_app.dfy`): the page's events (load
  settled, text typed, card clicked, Prev/Next/Close clicked) as a
  datatype. It defines runs of events and proves what holds after any
  run.

How the script behaves, and so how the model behaves:

- `showModal(i)` removes the existing modal before it looks up
  `filteredUsers[i]` (js/scripts.js:87-90). If `i` is outside the list,
  that user is `undefined`, so reading its birthday throws
  (js/scripts.js:91), and the page is left with no modal. `ShowModal` is
  therefore total: an in-range position opens the modal, and any other
  position closes it.
- `filterUsers` never touches the modal. An open modal keeps its position
  and keeps showing the user it was rendered with, even when that position
  now holds another user or no user at all. Nothing closes such a modal;
  the model follows the script (`StaleModalAfterShrink`).
- From such a stale position, Next loses the modal. Prev lands on the new
  last user only when the position was exactly one past it. Otherwise the
  modal is lost too. From any position inside the list, Prev and Next are
  the wrap-around steps `(i - 1 + n) mod n` and `(i + 1) mod n`.
- Clicking a card whose position is out of range closes an open modal. It
  is not a no-op. The gallery only renders cards for positions inside the
  list, so this case does not arise from the page itself.
- `loadUsers` sets both lists to the fetched users and leaves the modal
  alone. No modal can be open before the first load, because no cards
  exist yet. A failed fetch changes only the page's text.

## Model

| member | source | states |
|---|---|---|
| Text.Lower | js/scripts.js:77 | The lower-cased text has the same length and no ASCII capital. Each capital is replaced by its lower-case letter, every other character is kept in place, and text with no capitals comes back unchanged. |
| Text.IncludesIffOccurs | js/scripts.js:78 | `includes` holds exactly when the query occurs as a contiguous slice at some position of the text. |
| Users.FullName | js/scripts.js:77 | The searched name has no capitals. It is the lower-cased first name, then one space, then the lower-cased last name. |
| Users.Matching | js/scripts.js:76-79 | A user is kept iff it is in the list and its lower-cased "first last" includes the query. Each kept user appears as often as in the input. Non-matching users appear zero times. The result is never longer than the input. |
| Users.MatchingIsSubsequence | js/scripts.js:76-79 | The filtered list keeps the users' original relative order: it is a subsequence of the user list. |
| Users.MatchingKeepsAllWhenAllMatch | js/scripts.js:76-79 | When every user matches, the filter returns the list unchanged. |
| Users.EmptyQueryKeepsAll | js/scripts.js:73-79 | Filtering with the empty query returns the whole list in order, so the `''` special case agrees with the general filter. |
| Users.NoMatchIsEmpty | js/scripts.js:76-79 | When nobody matches, the result is the empty list, not an error. |
| Users.CapitalInQueryMatchesNobody | js/scripts.js:77-78 | A query containing an ASCII capital matches nobody, because names are lower-cased before comparison. This is why the listener lower-cases the query. |
| StateCodes.StateCode | js/scripts.js:7-18 | A listed state name yields a two-capital postal code. Any other string comes back unchanged. |
| StateCodes.ListedIffAbbreviated | js/scripts.js:7-18 | The lookup changes a name exactly when the name is one of the fifty table keys. |
| StateCodes.StateCodeIdempotent | js/scripts.js:7-18 | Looking up an already-abbreviated state changes nothing, because no code is a state name. |
| StateCodes.PrototypeMembersAreNotStates | js/scripts.js:7-18 | No name inherited from `Object.prototype` is one of the fifty state keys. |
| StateCodes.PropertyGet | js/scripts.js:92 | Indexing the table yields a string exactly for the fifty keys, and that string is a postal code. It yields an inherited member exactly for the `Object.prototype` names. Any other name yields `undefined`. |
| StateCodes.StateCodeAsWritten | js/scripts.js:92 | `lookup || name` yields a string exactly when the name is not an inherited `Object.prototype` name. |
| StateCodes.AsWrittenAgreesOffPrototype | js/scripts.js:92 | Away from the inherited names, the script's lookup equals the table-with-fallback lookup. |
| StateCodes.ConstructorIsNotPassedThrough | js/scripts.js:92 | "constructor" is not a state, yet the script's lookup yields the inherited constructor instead of the name. |
| UserDirectory.ShownStateCode | js/scripts.js:92 | The open modal's state line is the shown user's postal code for a listed state, and the state name otherwise. |
| UserDirectory.Init | js/scripts.js:5-6 | The constructor starts with no users and an empty filtered list, so no modal can be out of step. |
| UserDirectory.LoadUsers | js/scripts.js:22-33 | A successful fetch makes the fetched users both the user list and the filtered list. A failed fetch changes nothing. The modal is untouched. |
| UserDirectory.LoadedIsUnfiltered | js/scripts.js:26-27 | The state right after loading equals the state after filtering with the empty query. |
| UserDirectory.FilterUsers | js/scripts.js:72-80 | The new filtered list holds exactly the users whose lower-cased "first last" includes the query, each as often as in the users and in their original order (a subsequence), so it is no longer than them. It equals the users for the empty query. The user list and the modal are unchanged. |
| UserDirectory.FilterForgetsEarlierQuery | js/scripts.js:72-80 | Filtering always starts from `users`: a filter after a filter equals the second filter alone. |
| UserDirectory.Search | js/scripts.js:64-66 | Typing keeps a user iff its lower-cased "first last" includes the lower-cased typed text, each as often as in the users and in their original order. Empty text shows everyone. The modal is untouched. |
| UserDirectory.SearchIgnoresCase | js/scripts.js:64-66 | Typing a text and typing its lower-cased form give the same directory. |
| UserDirectory.ShowModal | js/scripts.js:85-91 | The modal ends up open iff the position is inside the filtered list. It is then at that position and shows the user there; otherwise there is no modal. Neither list changes. |
| UserDirectory.CloseModal | js/scripts.js:126-129 | After closing there is no modal, and both lists are unchanged. |
| UserDirectory.CloseIdempotent | js/scripts.js:126-129 | Closing twice equals closing once. Closing with no modal open changes nothing. |
| UserDirectory.ShowPrev | js/scripts.js:132-138 | With no modal, Prev does nothing. From position i of n it opens `(i - 1 + n) mod n`. From a stale position it opens the last position, and only when it was exactly one past it. The result is always in step with the list. |
| UserDirectory.ShowNext | js/scripts.js:141-147 | With no modal, Next does nothing. From position i of n it opens `(i + 1) mod n`. From a stale position it closes the modal. The result is always in step with the list. |
| UserDirectory.PrevWrapsToLast | js/scripts.js:136 | Prev from the first position opens the last. |
| UserDirectory.NextWrapsToFirst | js/scripts.js:145 | Next from the last position opens the first. |
| UserDirectory.NextThenPrev | js/scripts.js:132-147 | For a modal in step with the list, Prev undoes Next. |
| UserDirectory.PrevThenNext | js/scripts.js:132-147 | For a modal in step with the list, Next undoes Prev. |
| Arith.ModPredecessor | js/scripts.js:136 | The script's conditional step back agrees with `(i - 1 + n) mod n`: position 0 goes to `n - 1`, any other position `i` to `i - 1`. |
| Arith.ModSuccessor | js/scripts.js:145 | On a cycle of `n` positions, one step forward from `i` followed by `k - 1` more lands on `(i + k) mod n`, the same place as `k` steps at once. |
| UserDirectory.NextTimesSteps | js/scripts.js:141-147 | k presses of Next from position i of n open position `(i + k) mod n`. |
| UserDirectory.NextCycle | js/scripts.js:141-147 | n presses of Next on a list of n users return the directory to where it started. |
| UserDirectory.StaleModalAfterShrink | js/scripts.js:72-82 | A filter that leaves no user at the modal's position keeps the modal, now out of step. Next then loses the modal. Prev reopens only from exactly one past the end. |
| DirectoryApp.Step | js/scripts.js:64-177 | Dispatches each page event to its listener's handler: the search `input` listener, the modal's Close/Prev/Next buttons and the gallery's card click. Only a load changes the user list. Only a load or typed text changes the filtered list, and neither touches the modal. A card click opens the modal exactly when its position is inside the list. Prev and Next with no modal change nothing. Close leaves no modal. |
| DirectoryApp.StepKeepsViewFiltered | js/scripts.js:26-147 | Every event keeps the filtered list an order-preserving subsequence of the users. Card, Prev, Next and Close events leave the modal in step with the list. |
| DirectoryApp.RunKeepsViewFiltered | js/scripts.js:26-79 | Any run of events keeps the filtered list an order-preserving subsequence of the users. |
| DirectoryApp.ReachableViewIsFiltered | js/scripts.js:3-6 | From the constructor's empty state, after any events, the filtered list is an order-preserving subsequence of the users. |
| DirectoryApp.LastSearchWins | js/scripts.js:64-80 | After any run of typed texts, the directory equals the one produced by typing only the last text. |

## Left out

- Fetching (`fetch`, `response.json()`) and the `try`/`catch` around them are network I/O. `LoadUsers` takes the outcome as a parameter. `console.error` and the "Failed to load users." text are not modelled.
- All rendering is out: the gallery cards, the modal markup, the loading text and the search box injection. It is DOM output. The model keeps the data the page is rendered from.
- Event-listener wiring and reading `data-index` back from the page are DOM plumbing. They become `Event` values and the modal's explicit `index`.
- Birthday formatting with `toLocaleDateString` is a locale library call.
- `toLowerCase` folds ASCII capitals only. Full Unicode case mapping, which can change a string's length, is not modelled.
- A user carries only first name, last name and state. Picture, e-mail, city, phone numbers, street, postcode and birthday are only displayed.
- `showModal` on an out-of-range position is modelled by its effect, no modal. The thrown `TypeError` and its console report are not modelled.
- The text the page shows for an inherited `Object.prototype` value (a function's source, or `[object Object]`) is kept abstract as `Inherited(member)`.

- StateCodes.StateCode — the contract says a listed state yields some two-capital postal code and every other name comes back unchanged; it does not say which of the fifty codes each state gets. The solver cannot close a per-state or round-trip statement over the fifty string literals within its resource bound. The fifty pairs are written in the body as the table at js/scripts.js:8-17 lists them.
- UserDirectory.ShownStateCode — the modal's state line uses the corrected own-keys lookup `StateCode`. For the twelve `Object.prototype` names it shows the name, whereas the script shows the inherited member (see Findings and `StateCodeAsWritten`).

## Findings

| source | as written | input that shows it | evidently intended | confidence | as-written member | corrected member |
|---|---|---|---|---|---|---|
| js/scripts.js:92 | `this.stateAbbreviations[user.location.state] \|\| user.location.state` indexes a plain object literal. That also finds the truthy members inherited from `Object.prototype`, so the fallback never applies to them. | A user whose state is `"constructor"` (likewise `"toString"`, `"valueOf"`, `"__proto__"`, …) is shown with the inherited function instead of the name. | Any name outside the fifty-state table is shown unchanged. | not executed; standard JavaScript property lookup. The data source is asked for US users only, so such a state name is unlikely in practice. | StateCodes.StateCodeAsWritten (counterexample: StateCodes.ConstructorIsNotPassedThrough) | StateCodes.StateCode (property: StateCodes.ListedIffAbbreviated; agreement elsewhere: StateCodes.AsWrittenAgreesOffPrototype) |
