/** `DirectoryApp` and the page's event listeners: the directory driven by
    a sequence of user events, and what holds after any such sequence. */
module DirectoryApp {
  import opened Text
  import opened Users
  import opened UserDirectory

  /** Everything that reaches the directory after `init()`. */
  datatype Event =
    | Loaded(fetch: FetchResult) // `loadUsers` settles
    | Typed(text: string)        // `input` on the search box, with its value
    | CardClicked(index: nat)    // click on the gallery card with that `data-index`
    | PrevClicked
    | NextClicked
    | CloseClicked

  /** The directory's response to one event. */
  function Step(s: State, e: Event): (s': State)
    ensures !e.Loaded? ==> s'.users == s.users
    ensures !e.Loaded? && !e.Typed? ==> s'.filtered == s.filtered
    ensures e.Loaded? || e.Typed? ==> s'.modal == s.modal
    ensures e.CardClicked? ==> (s'.modal.Open? <==> e.index < |s.filtered|)
    ensures (e.PrevClicked? || e.NextClicked?) && s.modal.Closed? ==> s' == s
    ensures e.CloseClicked? ==> s'.modal.Closed?
  {
    match e
    case Loaded(fetch) => LoadUsers(s, fetch)
    case Typed(text) => Search(s, text)
    case CardClicked(i) => ShowModal(s, i)
    case PrevClicked => ShowPrev(s)
    case NextClicked => ShowNext(s)
    case CloseClicked => CloseModal(s)
  }

  function Run(s: State, events: seq<Event>): State
    decreases |events|
  {
    if |events| == 0 then s else Run(Step(s, events[0]), events[1..])
  }

  /** The gallery shows some of the users, in their original order. */
  predicate ViewIsFiltered(s: State) {
    IsSubsequence(s.filtered, s.users)
  }

  /** Every event keeps the gallery a subsequence of the users; the modal
      events also leave the modal in step with the gallery. */
  lemma StepKeepsViewFiltered(s: State, e: Event)
    requires ViewIsFiltered(s)
    ensures ViewIsFiltered(Step(s, e))
    ensures !e.Loaded? && !e.Typed? ==> InSync(Step(s, e))
  {
    if e.Loaded? && e.fetch.Fetched? {
      SubsequenceReflexive(e.fetch.results);
    }
  }

  lemma {:induction false} RunKeepsViewFiltered(s: State, events: seq<Event>)
    requires ViewIsFiltered(s)
    ensures ViewIsFiltered(Run(s, events))
    decreases |events|
  {
    if |events| > 0 {
      StepKeepsViewFiltered(s, events[0]);
      RunKeepsViewFiltered(Step(s, events[0]), events[1..]);
    }
  }

  /** From the constructor's state, whatever happens, the gallery is an
      order-preserving selection of the fetched users. */
  lemma ReachableViewIsFiltered(events: seq<Event>)
    ensures ViewIsFiltered(Run(Init(), events))
  {
    RunKeepsViewFiltered(Init(), events);
  }

  predicate AllTyped(events: seq<Event>) {
    forall i :: 0 <= i < |events| ==> events[i].Typed?
  }

  /** Searching is history-independent: after any run of typing, the
      directory is as if only the last text had been typed. */
  lemma {:induction false} LastSearchWins(s: State, events: seq<Event>)
    requires |events| > 0 && AllTyped(events)
    ensures Run(s, events) == Search(s, events[|events| - 1].text)
    decreases |events|
  {
    var t := Step(s, events[0]);
    if |events| > 1 {
      var rest := events[1..];
      LastSearchWins(t, rest);
      assert rest[|rest| - 1] == events[|events| - 1];
      FilterForgetsEarlierQuery(s, Lower(events[0].text), Lower(events[|events| - 1].text));
    }
  }
}
