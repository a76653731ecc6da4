/** The user records the directory holds and the name filter behind its
    search box (`UserDirectory.filterUsers`). */
module Users {
  import opened Text

  /** One fetched user, reduced to the fields the core logic reads: the
      first and last name (searched) and the full state name (abbreviated
      in the detail view). Picture, e-mail, city, phone numbers, street,
      postcode and birthday are only rendered. */
  datatype User = User(first: string, last: string, state: string)

  /** The searched text: lower-cased first name, one space, lower-cased
      last name. */
  function FullName(u: User): (name: string)
    ensures NoUpper(name)
    ensures |name| == |u.first| + 1 + |u.last|
    ensures name[|u.first|] == ' '
    ensures name[..|u.first|] == Lower(u.first) && name[|u.first| + 1..] == Lower(u.last)
  {
    Lower(u.first) + " " + Lower(u.last)
  }

  /** The filter's test: the full name includes the query, taken literally
      (no trimming, no folding of the query itself). */
  predicate Matches(u: User, query: string) {
    Includes(FullName(u), query)
  }

  /** `users.filter(user => fullName.includes(query))`: the matching users,
      each as often as it occurs in `users`. */
  function Matching(users: seq<User>, query: string): (kept: seq<User>)
    ensures |kept| <= |users|
    ensures forall u :: u in kept <==> u in users && Matches(u, query)
    ensures forall u :: multiset(kept)[u] == if Matches(u, query) then multiset(users)[u] else 0
  {
    if |users| == 0 then []
    else
      var rest := Matching(users[1..], query);
      assert users == [users[0]] + users[1..];
      (if Matches(users[0], query) then [users[0]] else []) + rest
  }

  /** `xs` can be obtained from `ys` by deleting elements, without
      reordering the rest. */
  predicate IsSubsequence<T(==)>(xs: seq<T>, ys: seq<T>)
    decreases |ys|
  {
    || |xs| == 0
    || (&& |ys| > 0
        && ((xs[0] == ys[0] && IsSubsequence(xs[1..], ys[1..])) || IsSubsequence(xs, ys[1..])))
  }

  lemma {:induction false} SubsequenceReflexive<T>(xs: seq<T>)
    ensures IsSubsequence(xs, xs)
    decreases |xs|
  {
    if |xs| > 0 {
      SubsequenceReflexive(xs[1..]);
    }
  }

  /** The filter keeps the original relative order: its result is a
      subsequence of the user list. */
  lemma {:induction false} MatchingIsSubsequence(users: seq<User>, query: string)
    ensures IsSubsequence(Matching(users, query), users)
    decreases |users|
  {
    if |users| > 0 {
      var rest := Matching(users[1..], query);
      MatchingIsSubsequence(users[1..], query);
      if Matches(users[0], query) {
        assert Matching(users, query) == [users[0]] + rest;
        assert ([users[0]] + rest)[1..] == rest;
      } else {
        assert Matching(users, query) == rest;
      }
    }
  }

  /** When every user matches, the filter gives back the list unchanged. */
  lemma {:induction false} MatchingKeepsAllWhenAllMatch(users: seq<User>, query: string)
    requires forall i :: 0 <= i < |users| ==> Matches(users[i], query)
    ensures Matching(users, query) == users
    decreases |users|
  {
    if |users| > 0 {
      MatchingKeepsAllWhenAllMatch(users[1..], query);
      assert [users[0]] + users[1..] == users;
    }
  }

  /** Filtering with the empty query keeps every user in place, so the
      source's special case for `''` agrees with the general filter. */
  lemma EmptyQueryKeepsAll(users: seq<User>)
    ensures Matching(users, "") == users
  {
    forall i | 0 <= i < |users|
      ensures Matches(users[i], "")
    {
      IncludesEmpty(FullName(users[i]));
    }
    MatchingKeepsAllWhenAllMatch(users, "");
  }

  /** No user matching gives the empty list, not an error. */
  lemma NoMatchIsEmpty(users: seq<User>, query: string)
    requires forall i :: 0 <= i < |users| ==> !Matches(users[i], query)
    ensures Matching(users, query) == []
  {
  }

  /** A query holding an ASCII capital matches nobody, because the full
      name it is compared with is lower-cased: the search box therefore
      lower-cases the query before filtering. */
  lemma CapitalInQueryMatchesNobody(users: seq<User>, query: string)
    requires !NoUpper(query)
    ensures Matching(users, query) == []
  {
    forall i | 0 <= i < |users|
      ensures !Matches(users[i], query)
    {
      if Matches(users[i], query) {
        IncludedInLowerHasNoUpper(FullName(users[i]), query);
      }
    }
    NoMatchIsEmpty(users, query);
  }
}
