/** Reading the four query parameters of a search request (`app.py`, lines 70-80). */
module Query {
  import opened Wrappers
  import opened PyStr

  /** The raw request parameters; `None` when the parameter is absent from the request. */
  datatype QueryArgs = QueryArgs(place: Option<string>, date: Option<string>, time: Option<string>, flight: Option<string>)

  /** The `search_terms` dictionary echoed back to the page. */
  datatype SearchTerms = SearchTerms(place: string, date: string, time: string, flight: string)

  /** The shape every normalised query has: no field starts or ends with whitespace, no lower-case ASCII in `place`. */
  predicate WellFormed(t: SearchTerms)
  {
    && IsStripped(t.place) && IsStripped(t.date) && IsStripped(t.time) && IsStripped(t.flight)
    && forall i :: 0 <= i < |t.place| ==> !('a' <= t.place[i] <= 'z')
  }

  /** `request.args.get(key, '')`. */
  function Arg(a: Option<string>): string
  {
    a.GetOr("")
  }

  /** `place` is stripped and upper-cased; `date`, `time` and `flight` are only stripped. */
  function Normalise(args: QueryArgs): (t: SearchTerms)
    ensures WellFormed(t)
    ensures args.place == None ==> t.place == ""
    ensures args.date == None ==> t.date == ""
    ensures args.time == None ==> t.time == ""
    ensures args.flight == None ==> t.flight == ""
  {
    var place := Strip(Arg(args.place));
    UpperStripped(place);
    SearchTerms(Upper(place), Strip(Arg(args.date)), Strip(Arg(args.time)), Strip(Arg(args.flight)))
  }

  /** Upper-casing keeps a stripped string stripped. */
  lemma UpperStripped(s: string)
    requires IsStripped(s)
    ensures IsStripped(Upper(s))
  {
    UpperKeepsSpace(s);
  }

  /** Upper-casing keeps a run of whitespace a run of whitespace. */
  lemma UpperSpaceBetween(s: string, lo: nat, hi: nat)
    requires lo <= hi <= |s| && SpaceBetween(s, lo, hi)
    ensures SpaceBetween(Upper(s), lo, hi)
  {
    UpperKeepsSpace(s);
  }

  /** Upper-casing only ASCII letters, `upper()` and `strip()` can be applied in either order. */
  lemma UpperStrip(s: string)
    ensures Upper(Strip(s)) == Strip(Upper(s))
  {
    var r := Strip(s);
    var i: nat :| StripsTo(s, r, i);
    var j := i + |r|;
    var u := Upper(s);
    UpperSpaceBetween(s, 0, i);
    UpperSpaceBetween(s, j, |s|);
    assert Upper(r) == u[i..j];
    UpperStripped(r);
    StripIsUnique(u, i, j);
  }

  /**
   * Each normalised field is its raw value with only surrounding whitespace removed; for `place`,
   * the raw value upper-cased.
   */
  lemma NormaliseOnlyTrims(args: QueryArgs)
    ensures var t := Normalise(args);
            && (exists i: nat :: StripsTo(Upper(Arg(args.place)), t.place, i))
            && (exists i: nat :: StripsTo(Arg(args.date), t.date, i))
            && (exists i: nat :: StripsTo(Arg(args.time), t.time, i))
            && (exists i: nat :: StripsTo(Arg(args.flight), t.flight, i))
  {
    UpperStrip(Arg(args.place));
  }

  /** Submitting the echoed search terms again gives the same search terms. */
  lemma NormaliseIsIdempotent(args: QueryArgs)
    ensures var t := Normalise(args);
            Normalise(QueryArgs(Some(t.place), Some(t.date), Some(t.time), Some(t.flight))) == t
  {
    var t := Normalise(args);
    StripIdempotent(Arg(args.date));
    StripIdempotent(Arg(args.time));
    StripIdempotent(Arg(args.flight));
    var p := Strip(Arg(args.place));
    UpperStripped(p);
    StripIsUnique(Upper(p), 0, |Upper(p)|);
    UpperIdempotent(p);
  }
}
