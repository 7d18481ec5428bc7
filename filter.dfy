/** Narrowing the records to the searched airport (`app.py`, lines 67 and 83-89). */
module Filter {
  import opened Lounges

  /** `[lounge for lounge in s if lounge['airport'] == place]`. */
  function AtAirport(s: seq<Lounge>, place: string): (r: seq<Lounge>)
    ensures |r| <= |s|
    ensures forall i :: 0 <= i < |r| ==> r[i].airport == place
  {
    if s == [] then []
    else (if s[0].airport == place then [s[0]] else []) + AtAirport(s[1..], place)
  }

  /**
   * The records the highlight step works on: a copy of all records, narrowed to `place` only when
   * `place` is not empty. An empty `place` is "not constrained by place", not "matches nothing".
   */
  function Candidates(all: seq<Lounge>, place: string): (r: seq<Lounge>)
    ensures place == "" ==> r == all
    ensures place != "" ==> forall i :: 0 <= i < |r| ==> r[i].airport == place
    ensures |r| <= |all|
  {
    if place != "" then AtAirport(all, place) else all
  }

  /** `a` is `b` with some elements left out, the rest in their order. */
  predicate IsSubsequence(a: seq<Lounge>, b: seq<Lounge>)
  {
    if a == [] then true
    else if b == [] then false
    else if a[0] == b[0] then IsSubsequence(a[1..], b[1..])
    else IsSubsequence(a, b[1..])
  }

  /** The filter keeps the original relative order. */
  lemma {:induction false} AtAirportIsSubsequence(s: seq<Lounge>, place: string)
    ensures IsSubsequence(AtAirport(s, place), s)
  {
    if s != [] {
      AtAirportIsSubsequence(s[1..], place);
      var rest := AtAirport(s[1..], place);
      if s[0].airport == place {
        assert AtAirport(s, place) == [s[0]] + rest;
        assert ([s[0]] + rest)[1..] == rest;
      } else {
        assert AtAirport(s, place) == rest;
        assert rest != [] ==> rest[0].airport == place;
      }
    }
  }

  /** The filter keeps every matching record exactly as often as it occurs, and no other record. */
  lemma {:induction false} AtAirportCounts(s: seq<Lounge>, place: string)
    ensures forall x :: multiset(AtAirport(s, place))[x] == if x.airport == place then multiset(s)[x] else 0
  {
    if s != [] {
      AtAirportCounts(s[1..], place);
      assert s == [s[0]] + s[1..];
    }
  }

  /** Every record the filter returns is one of the input records. */
  lemma AtAirportFrom(s: seq<Lounge>, place: string)
    ensures forall x :: x in AtAirport(s, place) ==> x in s
  {
    AtAirportCounts(s, place);
    forall x | x in AtAirport(s, place) ensures x in s {
      assert multiset(AtAirport(s, place))[x] > 0;
    }
  }

  /** Leaving records out cannot make two ids equal. */
  lemma {:induction false} AtAirportKeepsDistinct(s: seq<Lounge>, place: string)
    requires DistinctIds(s)
    ensures DistinctIds(AtAirport(s, place))
  {
    if s != [] {
      AtAirportKeepsDistinct(s[1..], place);
      var rest := AtAirport(s[1..], place);
      if s[0].airport == place {
        AtAirportFrom(s[1..], place);
        forall k | 0 <= k < |rest| ensures rest[k].id != s[0].id {
          assert rest[k] in s[1..];
        }
        assert AtAirport(s, place) == [s[0]] + rest;
      }
    }
  }
}
