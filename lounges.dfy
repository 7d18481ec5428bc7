/**
 * Lounge records and the dummy-record generator of `app.py`.
 * The random choices the generator makes are an input (`Draw`); only the id numbering is its own.
 */
module Lounges {
  import opened PyStr

  /** A rating in tenths of a star: `round(uniform(3.5, 5.0), 1)` is one of 3.5, 3.6, ..., 5.0. */
  type Rating = r: int | 35 <= r <= 50 witness 35

  /** One lounge record: the dictionary built in `generate_dummy_lounges`. */
  datatype Lounge = Lounge(
    id: int,
    airport: string,
    name: string,
    terminal: string,
    amenities: string,
    aiDescription: string,
    rating: Rating)

  const Airports: seq<string> := ["JFK", "LAX", "LHR", "CDG", "DXB", "HND", "ORD", "ATL", "AMS", "SIN"]
  const LoungeNames: seq<string> :=
    ["Sky", "Star", "Aspire", "Centurion", "Maple Leaf", "Plaza Premium", "Qantas", "Emirates", "United Club", "Delta Sky Club"]
  const Terminals: seq<string> := ["T1", "T2", "T3", "T4", "International", "Domestic"]
  const AmenityLists: seq<string> := [
    "Wi-Fi, Showers, Food, Bar",
    "Wi-Fi, Snacks, Drinks",
    "Wi-Fi, Business Center, Food",
    "Premium Wi-Fi, Spa, A la carte Dining, Bar",
    "Wi-Fi, Quiet Zone, Refreshments"
  ]

  /**
   * The random choices of one generator iteration. The default description names an amenity list
   * drawn separately from the one stored in the record (`blurbAmenities` against `amenities`).
   */
  datatype Draw = Draw(
    airport: string,
    nameStem: string,
    terminal: string,
    blurbAmenities: string,
    amenities: string,
    rating: Rating)

  /** Every choice is one that `random.choice` can make from the generator's pools. */
  predicate FromPools(d: Draw)
  {
    && d.airport in Airports
    && d.nameStem in LoungeNames
    && d.terminal in Terminals
    && d.blurbAmenities in AmenityLists
    && d.amenities in AmenityLists
  }

  /** The pieces of the f-string of a record's default description (`app.py`, line 50). */
  function DefaultPieces(name: string, airport: string, terminal: string, amenities: string): seq<string>
  {
    ["Experience comfort at ", name, " in ", airport, " (", terminal, "). Enjoy ", Lower(amenities), "."]
  }

  /** The default description names the lounge, its airport, its terminal and the lower-cased amenities. */
  function DefaultDescription(name: string, airport: string, terminal: string, amenities: string): (r: string)
    ensures Contains(r, name) && Contains(r, airport) && Contains(r, terminal)
    ensures Contains(r, Lower(amenities))
  {
    var pieces := DefaultPieces(name, airport, terminal, amenities);
    JoinContains(pieces, 1);
    JoinContains(pieces, 3);
    JoinContains(pieces, 5);
    JoinContains(pieces, 7);
    Join(pieces)
  }

  /**
   * The record that iteration `id - 1` of the generator appends: the drawn airport, terminal,
   * amenities and rating, the name `"<stem> Lounge"`, and a description that names the lounge,
   * its airport and its terminal.
   */
  function MakeLounge(id: int, d: Draw): (l: Lounge)
    ensures l.id == id && l.airport == d.airport && l.terminal == d.terminal
    ensures l.amenities == d.amenities && l.rating == d.rating
    ensures |l.name| == |d.nameStem| + 7 && l.name[..|d.nameStem|] == d.nameStem && l.name[|d.nameStem|..] == " Lounge"
    ensures Contains(l.aiDescription, l.name) && Contains(l.aiDescription, l.airport) && Contains(l.aiDescription, l.terminal)
  {
    var name := d.nameStem + " Lounge";
    Lounge(id, d.airport, name, d.terminal, d.amenities, DefaultDescription(name, d.airport, d.terminal, d.blurbAmenities), d.rating)
  }

  /** No two records share an id. */
  predicate DistinctIds(s: seq<Lounge>)
  {
    forall i, j :: 0 <= i < j < |s| ==> s[i].id != s[j].id
  }

  /** `generate_dummy_lounges(num_lounges)`, with its random choices supplied as `draws`. */
  method GenerateDummyLounges(numLounges: nat, draws: seq<Draw>) returns (lounges: seq<Lounge>)
    requires |draws| == numLounges
    ensures |lounges| == numLounges
    ensures forall i :: 0 <= i < numLounges ==> lounges[i].id == i + 1
    ensures forall i :: 0 <= i < numLounges ==> lounges[i] == MakeLounge(i + 1, draws[i])
    ensures DistinctIds(lounges)
    ensures forall i :: 0 <= i < numLounges && FromPools(draws[i]) ==>
              lounges[i].airport in Airports && lounges[i].amenities in AmenityLists
  {
    lounges := [];
    for i := 0 to numLounges
      invariant |lounges| == i
      invariant forall k :: 0 <= k < i ==> lounges[k] == MakeLounge(k + 1, draws[k])
    {
      lounges := lounges + [MakeLounge(i + 1, draws[i])];
    }
  }
}
