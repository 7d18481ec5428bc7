/**
 * The request handler `home()` of `app.py`: read the query, narrow the records to the searched
 * airport, sort them by rating, ask for a description of the best one and put it in its record.
 */
module Search {
  import opened Wrappers
  import opened PyStr
  import opened Lounges
  import opened Query
  import opened Ranking
  import opened Filter
  import opened Describe

  /** What the handler hands to the page template (`app.py`, lines 149-154). */
  datatype Page = Page(lounges: seq<Lounge>, searchTerms: SearchTerms, searchActive: bool)

  /** The number of records `home()` asks the generator for. */
  const NumLounges := 100

  /** The index of the first record with id `id`, or `|s|` when there is none. */
  function IndexOfId(s: seq<Lounge>, id: int): (k: nat)
    ensures k <= |s|
    ensures k < |s| ==> s[k].id == id
    ensures forall j :: 0 <= j < k ==> s[j].id != id
  {
    if s == [] then 0
    else if s[0].id == id then 0
    else 1 + IndexOfId(s[1..], id)
  }

  /**
   * The `for i, lounge in enumerate(...)` loop of lines 136-142: the first record with id `id` is
   * replaced by a copy whose description is `description`, and the scan stops there.
   */
  method ReplaceFirstById(a: array<Lounge>, id: int, description: string)
    modifies a
    ensures var k := IndexOfId(old(a[..]), id);
            a[..] == if k < a.Length then old(a[..])[k := old(a[k]).(aiDescription := description)] else old(a[..])
  {
    var i := 0;
    while i < a.Length
      invariant 0 <= i <= a.Length
      invariant forall j :: 0 <= j < i ==> a[j].id != id
      invariant a[..] == old(a[..])
    {
      if a[i].id == id {
        a[i] := a[i].(aiDescription := description);
        break;
      }
      i := i + 1;
    }
  }

  /**
   * `home()` from line 67 on, for the records `all` it generated: the page lists the candidates
   * sorted by rating, highest first, and the first of them carries the new description when the
   * generation step produced a non-empty text; otherwise nothing changes.
   */
  method RunSearch(all: seq<Lounge>, args: QueryArgs, setup: GeminiSetup, reply: ApiReply) returns (page: Page)
    ensures page.searchTerms == Normalise(args)
    ensures page.searchActive
    ensures var c := Candidates(all, page.searchTerms.place);
            && |page.lounges| == |c|
            && (c == [] ==> page.lounges == [])
            && (c != [] ==>
                  var ranked := RankByRating(c);
                  var d := Generate(setup, reply, page.searchTerms, ranked[0]);
                  page.lounges == if d.Some? && d.value != ""
                                  then ranked[0 := ranked[0].(aiDescription := d.value)]
                                  else ranked)
  {
    var filtered := all;
    var searchActive := true;
    var terms := Normalise(args);
    if terms.place != "" {
      searchActive := true;
      filtered := AtAirport(filtered, terms.place);
    }
    var lounges := new Lounge[|filtered|](i requires 0 <= i < |filtered| => filtered[i]);
    assert lounges[..] == filtered;
    if searchActive && lounges.Length > 0 {
      SortByRatingDesc(lounges);
      var top := lounges[0];
      var description := Generate(setup, reply, terms, top);
      if description.Some? && description.value != "" {
        ReplaceFirstById(lounges, top.id, description.value);
      }
    }
    page := Page(lounges[..], terms, searchActive);
  }

  /** The sorted candidates are records of `all`, and they keep `all`'s distinct ids. */
  lemma RankedCandidatesFrom(all: seq<Lounge>, place: string)
    requires DistinctIds(all)
    ensures var r := RankByRating(Candidates(all, place));
            DistinctIds(r) && forall i :: 0 <= i < |r| ==> r[i] in all
  {
    var c := Candidates(all, place);
    if place != "" {
      AtAirportKeepsDistinct(all, place);
      AtAirportFrom(all, place);
    }
    RankKeepsDistinct(c);
    RankIsPermutation(c);
    var r := RankByRating(c);
    forall i | 0 <= i < |r| ensures r[i] in all {
      assert r[i] in multiset(c);
    }
  }

  /** Records drawn from a list numbered 1, 2, ... carry ids within the numbering. */
  lemma IdsFromNumbering(all: seq<Lounge>, r: seq<Lounge>)
    requires forall i :: 0 <= i < |all| ==> all[i].id == i + 1
    requires forall i :: 0 <= i < |r| ==> r[i] in all
    ensures forall i :: 0 <= i < |r| ==> 1 <= r[i].id <= |all|
  {
    forall i | 0 <= i < |r| ensures 1 <= r[i].id <= |all| {
      var k :| 0 <= k < |all| && all[k] == r[i];
    }
  }

  /**
   * `home()`: generate `NumLounges` records from the random choices `draws`, then search them.
   * Every listed record has a generated id, and no two listed records share an id, so the one
   * record whose description was replaced is the only record carrying its id.
   */
  method Home(draws: seq<Draw>, args: QueryArgs, setup: GeminiSetup, reply: ApiReply) returns (page: Page)
    requires |draws| == NumLounges
    ensures page.searchTerms == Normalise(args) && page.searchActive
    ensures |page.lounges| <= NumLounges
    ensures DistinctIds(page.lounges)
    ensures forall i :: 0 <= i < |page.lounges| ==> 1 <= page.lounges[i].id <= NumLounges
  {
    var all := GenerateDummyLounges(NumLounges, draws);
    page := RunSearch(all, args, setup, reply);
    var ranked := RankByRating(Candidates(all, page.searchTerms.place));
    RankedCandidatesFrom(all, page.searchTerms.place);
    IdsFromNumbering(all, ranked);
    assert forall i :: 0 <= i < |page.lounges| ==> page.lounges[i].id == ranked[i].id;
  }

  /** Three records for a worked example: two JFK lounges rated 4.2 and 4.8 and a LAX lounge rated 5.0. */
  const JfkSky := Lounge(1, "JFK", "Sky Lounge", "T1", "Wi-Fi, Snacks, Drinks", "", 42)
  const JfkStar := Lounge(2, "JFK", "Star Lounge", "T4", "Wi-Fi, Showers, Food, Bar", "", 48)
  const LaxQantas := Lounge(3, "LAX", "Qantas Lounge", "T2", "Wi-Fi, Quiet Zone, Refreshments", "", 50)

  /** Searching the example records for " jfk " ranks the 4.8 JFK lounge before the 4.2 one. */
  lemma JfkRanking()
    ensures var place := Normalise(QueryArgs(Some(" jfk "), None, None, None)).place;
            && place == "JFK"
            && RankByRating(Candidates([JfkSky, JfkStar, LaxQantas], place)) == [JfkStar, JfkSky]
  {
    var raw := " jfk ";
    StripIsUnique(raw, 1, 4);
    assert raw[1..4] == "jfk";
    assert Upper("jfk") == "JFK";
    var s := [JfkSky, JfkStar, LaxQantas];
    assert AtAirport(s[2..], "JFK") == [];
    assert AtAirport(s, "JFK") == [JfkSky, JfkStar];
    assert [JfkSky, JfkStar][..1] == [JfkSky];
    assert RankByRating([JfkSky]) == [JfkSky];
    assert InsertByRating([JfkSky], JfkStar) == InsertByRating([], JfkStar) + [JfkSky];
  }

  /**
   * The example searched for " jfk ", with any date, time and flight, and the service configured
   * off: the page lists the two JFK lounges, id 2 before id 1 as the in-place sort leaves them; id 2
   * alone carries the simulated description, and id 1 is listed unchanged.
   */
  method JfkScenario(date: string, time: string, flight: string) returns (page: Page)
    ensures page.searchTerms.place == "JFK"
    ensures |page.lounges| == 2
    ensures page.lounges[0] == JfkStar.(aiDescription := SimulatedDescription("JFK", Strip(flight), JfkStar))
    ensures page.lounges[1] == JfkSky
  {
    JfkRanking();
    var args := QueryArgs(Some(" jfk "), Some(date), Some(time), Some(flight));
    page := RunSearch([JfkSky, JfkStar, LaxQantas], args, ConfigureFailed, ApiError);
  }
}
