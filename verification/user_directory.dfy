/** `UserDirectory`: the fetched users, the filtered list the gallery shows,
    and the detail modal with its cyclic Prev/Next navigation. Rendering is
    left to the page; what is kept here is the data the page is rendered
    from. */
module UserDirectory {
  import opened Text
  import opened Users
  import StateCodes
  import opened Arith

  /** The `.modal-container` element: absent, or present with the
      `data-index` it was rendered for and the user it displays. The
      displayed user is fixed when the modal is rendered; nothing
      re-renders it when the filtered list changes underneath it. */
  datatype Modal = Closed | Open(index: nat, shown: User)

  /** The state line of the open modal: the abbreviation of the shown
      user's state. */
  function ShownStateCode(m: Modal): (code: string)
    requires m.Open?
    ensures StateCodes.IsStateName(m.shown.state) ==> StateCodes.IsPostalCode(code)
    ensures !StateCodes.IsStateName(m.shown.state) ==> code == m.shown.state
  {
    StateCodes.StateCode(m.shown.state)
  }

  /** `users` (all fetched), `filteredUsers` (the gallery) and the modal. */
  datatype State = State(users: seq<User>, filtered: seq<User>, modal: Modal)

  /** The modal, if open, sits on a position of the current filtered list
      and shows the user at that position. */
  predicate InSync(s: State) {
    s.modal.Open? ==>
      s.modal.index < |s.filtered| && s.modal.shown == s.filtered[s.modal.index]
  }

  /** The state the constructor leaves: no users, nothing shown. */
  function Init(): (s: State)
    ensures |s.users| == 0 && |s.filtered| == 0
    ensures InSync(s)
  {
    State([], [], Closed)
  }

  /** The outcome of `fetch` plus `response.json()`. */
  datatype FetchResult = Fetched(results: seq<User>) | FetchFailed

  /** `loadUsers`: on success both lists become the fetched users (no filter
      yet); on failure only the page's text changes, not the state. */
  function LoadUsers(s: State, fetch: FetchResult): (s': State)
    ensures fetch.FetchFailed? ==> s' == s
    ensures fetch.Fetched? ==> s'.users == fetch.results && s'.filtered == s'.users
    ensures s'.modal == s.modal
  {
    match fetch
    case Fetched(results) => s.(users := results, filtered := results)
    case FetchFailed => s
  }

  /** `filterUsers(query)`: the filtered list becomes the users, in their
      original order, whose lower-cased "first last" includes `query`; the
      empty query restores the full list. Always computed from `users`,
      never from the previous filtered list. The modal is not touched. */
  function FilterUsers(s: State, query: string): (s': State)
    ensures s'.users == s.users && s'.modal == s.modal
    ensures query == "" ==> s'.filtered == s.users
    ensures forall u :: u in s'.filtered <==> u in s.users && Matches(u, query)
    ensures forall u :: multiset(s'.filtered)[u] == if Matches(u, query) then multiset(s.users)[u] else 0
    ensures IsSubsequence(s'.filtered, s.users)
    ensures |s'.filtered| <= |s.users|
  {
    if query == "" then
      EmptyQueryKeepsAll(s.users);
      SubsequenceReflexive(s.users);
      s.(filtered := s.users)
    else
      MatchingIsSubsequence(s.users, query);
      s.(filtered := Matching(s.users, query))
  }

  /** The search box's `input` listener: lower-case what was typed, then
      filter. */
  function Search(s: State, typed: string): (s': State)
    ensures s'.users == s.users && s'.modal == s.modal
    ensures typed == "" ==> s'.filtered == s.users
    ensures forall u :: u in s'.filtered <==> u in s.users && Includes(FullName(u), Lower(typed))
    ensures forall u :: multiset(s'.filtered)[u] ==
                        (if Includes(FullName(u), Lower(typed)) then multiset(s.users)[u] else 0)
    ensures IsSubsequence(s'.filtered, s.users)
  {
    FilterUsers(s, Lower(typed))
  }

  /** `showModal(i)`: the old modal is removed first; then the user at `i`
      is looked up. Outside the filtered list that user is `undefined`,
      reading its birthday throws, and the page is left with no modal. */
  function ShowModal(s: State, i: int): (s': State)
    ensures s'.users == s.users && s'.filtered == s.filtered
    ensures s'.modal.Open? <==> 0 <= i < |s.filtered|
    ensures s'.modal.Open? ==> s'.modal.index == i
    ensures InSync(s')
  {
    if 0 <= i < |s.filtered| then s.(modal := Open(i, s.filtered[i]))
    else s.(modal := Closed)
  }

  /** `closeModal`: remove the modal if there is one. */
  function CloseModal(s: State): (s': State)
    ensures s'.users == s.users && s'.filtered == s.filtered
    ensures s'.modal.Closed?
  {
    s.(modal := Closed)
  }

  /** `showPrevUser`: nothing without a modal; otherwise step back one
      position, from the first position to the last. From a position the
      list no longer reaches (it shrank under an open modal) the step lands
      on the last position only when it was exactly one past it. */
  function ShowPrev(s: State): (s': State)
    ensures s'.users == s.users && s'.filtered == s.filtered
    ensures s.modal.Closed? ==> s' == s
    ensures InSync(s')
    ensures s.modal.Open? && s.modal.index < |s.filtered| ==>
      s'.modal.Open? && s'.modal.index == (s.modal.index - 1 + |s.filtered|) % |s.filtered|
    ensures s.modal.Open? && s.modal.index >= |s.filtered| ==>
      (s'.modal.Open? <==> 0 < |s.filtered| == s.modal.index)
    ensures s.modal.Open? && s.modal.index >= |s.filtered| && s'.modal.Open? ==>
      s'.modal.index == |s.filtered| - 1
  {
    match s.modal
    case Closed => s
    case Open(i, _) =>
      ModPredecessor(i, |s.filtered|);
      ShowModal(s, if i == 0 then |s.filtered| - 1 else i - 1)
  }

  /** `showNextUser`: nothing without a modal; otherwise step forward one
      position, from the last position to the first. From a position the
      list no longer reaches the modal is lost. */
  function ShowNext(s: State): (s': State)
    ensures s'.users == s.users && s'.filtered == s.filtered
    ensures s.modal.Closed? ==> s' == s
    ensures InSync(s')
    ensures s.modal.Open? && s.modal.index < |s.filtered| ==>
      s'.modal.Open? && s'.modal.index == (s.modal.index + 1) % |s.filtered|
    ensures s.modal.Open? && s.modal.index >= |s.filtered| ==> s'.modal.Closed?
  {
    match s.modal
    case Closed => s
    case Open(i, _) => ShowModal(s, if i == |s.filtered| - 1 then 0 else i + 1)
  }

  /** Next from the last position wraps to the first. */
  lemma NextWrapsToFirst(s: State)
    requires s.modal.Open? && s.modal.index == |s.filtered| - 1
    ensures ShowNext(s).modal.Open? && ShowNext(s).modal.index == 0
  {
  }

  /** Prev from the first position wraps to the last. */
  lemma PrevWrapsToLast(s: State)
    requires s.modal.Open? && s.modal.index == 0 && |s.filtered| > 0
    ensures ShowPrev(s).modal.Open? && ShowPrev(s).modal.index == |s.filtered| - 1
  {
  }

  /** Prev undoes Next. */
  lemma NextThenPrev(s: State)
    requires InSync(s)
    ensures ShowPrev(ShowNext(s)) == s
  {
  }

  /** Next undoes Prev. */
  lemma PrevThenNext(s: State)
    requires InSync(s)
    ensures ShowNext(ShowPrev(s)) == s
  {
  }

  /** Closing twice is closing once, and closing without a modal changes
      nothing. */
  lemma CloseIdempotent(s: State)
    ensures CloseModal(CloseModal(s)) == CloseModal(s)
    ensures s.modal.Closed? ==> CloseModal(s) == s
  {
  }

  /** `k` presses of Next. */
  function NextTimes(s: State, k: nat): State
    decreases k
  {
    if k == 0 then s else NextTimes(ShowNext(s), k - 1)
  }

  /** Opening a position depends only on the lists, not on the modal that
      was there before. */
  lemma ShowModalForgetsModal(s: State, t: State, i: int)
    requires s.users == t.users && s.filtered == t.filtered
    ensures ShowModal(s, i) == ShowModal(t, i)
  {
  }

  /** One press of Next followed by `k - 1` more, given where the `k - 1`
      presses land. */
  lemma NextTimesSucc(s: State, k: nat)
    requires InSync(s) && s.modal.Open? && k > 0
    requires NextTimes(ShowNext(s), k - 1)
             == ShowModal(ShowNext(s), (ShowNext(s).modal.index + (k - 1)) % |s.filtered|)
    ensures NextTimes(s, k) == ShowModal(s, (s.modal.index + k) % |s.filtered|)
  {
    var i, n := s.modal.index, |s.filtered|;
    var t := ShowNext(s);
    var j := (i + 1) % n;
    assert t.modal.index == j;
    assert NextTimes(s, k) == NextTimes(t, k - 1);
    var m := (i + k) % n;
    ModSuccessor(i, k, n);
    assert (j + (k - 1)) % n == m;
    ShowModalForgetsModal(t, s, m);
  }

  /** `k` presses of Next from position `i` of a list of `n` users land on
      position `(i + k) mod n`. */
  lemma {:induction false} NextTimesSteps(s: State, k: nat)
    requires InSync(s) && s.modal.Open?
    ensures NextTimes(s, k) == ShowModal(s, (s.modal.index + k) % |s.filtered|)
    decreases k
  {
    if k == 0 {
      ModUnique(s.modal.index, |s.filtered|, 0, s.modal.index);
      assert ShowModal(s, s.modal.index).modal == s.modal;
    } else {
      NextTimesSteps(ShowNext(s), k - 1);
      NextTimesSucc(s, k);
    }
  }

  /** As many presses of Next as there are filtered users bring the modal
      back to where it started. */
  lemma NextCycle(s: State)
    requires InSync(s) && s.modal.Open?
    ensures NextTimes(s, |s.filtered|) == s
  {
    NextTimesSteps(s, |s.filtered|);
    ModUnique(s.modal.index + |s.filtered|, |s.filtered|, 1, s.modal.index);
  }

  /** Filtering replaces the filtered list wholesale: only the last query
      matters. */
  lemma FilterForgetsEarlierQuery(s: State, q1: string, q2: string)
    ensures FilterUsers(FilterUsers(s, q1), q2) == FilterUsers(s, q2)
  {
  }

  /** Typing with different capitalisation gives the same result. */
  lemma SearchIgnoresCase(s: State, typed: string)
    ensures Search(s, typed) == Search(s, Lower(typed))
  {
    LowerIdempotent(typed);
  }

  /** Loading leaves the directory as an empty query would. */
  lemma LoadedIsUnfiltered(s: State, results: seq<User>)
    ensures FilterUsers(LoadUsers(s, Fetched(results)), "") == LoadUsers(s, Fetched(results))
  {
  }

  /** A filter that leaves fewer users than the open modal's position keeps
      the modal open on a position that is gone: the modal still shows the
      old user, Next then loses the modal, and Prev lands on the new last
      user only from exactly one past it. */
  lemma StaleModalAfterShrink(s: State, query: string)
    requires s.modal.Open?
    requires |FilterUsers(s, query).filtered| <= s.modal.index
    ensures FilterUsers(s, query).modal == s.modal
    ensures !InSync(FilterUsers(s, query))
    ensures ShowNext(FilterUsers(s, query)).modal.Closed?
    ensures ShowPrev(FilterUsers(s, query)).modal.Open? <==>
      0 < |FilterUsers(s, query).filtered| == s.modal.index
  {
  }
}
