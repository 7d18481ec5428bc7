/**
 * Producing the highlighted lounge's new description (`app.py`, lines 14-29 and 118-130).
 * The text-generation service is outside the model: what it does is an input, `ApiReply`.
 */
module Describe {
  import opened Wrappers
  import opened PyStr
  import opened Lounges
  import opened Query

  /**
   * The state the module-level set-up leaves behind. With no `GEMINI_API_KEY` the flag
   * `GEMINI_ACTIVE` is never bound (its only unconditional assignment is commented out), so the
   * handler's `if GEMINI_ACTIVE` raises `NameError`. When `genai.configure` or the model
   * constructor raises, the flag is `False`; otherwise it is `True`.
   */
  datatype GeminiSetup = NoApiKey | ConfigureFailed | Configured

  /** What `model.generate_content(prompt).text` does: returns a text, or raises. */
  datatype ApiReply = Reply(text: string) | ApiError

  /** `str(rating)` for a rating of one decimal between 3.5 and 5.0, such as "4.2" or "5.0". */
  function RatingText(r: Rating): (t: string)
    ensures |t| == 3 && t[1] == '.'
    ensures '0' <= t[0] <= '9' && '0' <= t[2] <= '9'
    ensures (t[0] as int - '0' as int) * 10 + (t[2] as int - '0' as int) == r
  {
    [('0' as int + r / 10) as char, '.', ('0' as int + r % 10) as char]
  }

  /**
   * `amenities.split(',')[0].strip()`: the first amenity named in the list. It holds no comma, has no
   * whitespace at either end, and is the text before the first comma with only whitespace cut away.
   */
  function FirstAmenity(amenities: string): (r: string)
    ensures IsStripped(r) && ',' !in r
    ensures exists i: nat :: StripsTo(SplitFirst(amenities, ','), r, i)
  {
    Strip(SplitFirst(amenities, ','))
  }

  /** When the text before the first comma has no surrounding whitespace, it is the first amenity. */
  lemma FirstAmenityBeforeComma(amenities: string, n: nat)
    requires n < |amenities| && amenities[n] == ','
    requires forall j :: 0 <= j < n ==> amenities[j] != ','
    requires IsStripped(amenities[..n])
    ensures FirstAmenity(amenities) == amenities[..n]
  {
    var head := SplitFirst(amenities, ',');
    assert head == amenities[..n];
    StripIsUnique(head, 0, n);
  }

  /** Every amenity list the generator can store names "Wi-Fi" or "Premium Wi-Fi" first. */
  lemma FirstAmenityOfPools(amenities: string)
    requires amenities in AmenityLists
    ensures FirstAmenity(amenities) == "Wi-Fi" || FirstAmenity(amenities) == "Premium Wi-Fi"
  {
    var k :| 0 <= k < |AmenityLists| && AmenityLists[k] == amenities;
    if k == 3 {
      assert amenities[..13] == "Premium Wi-Fi";
      assert amenities[13] == ',';
      FirstAmenityBeforeComma(amenities, 13);
    } else {
      assert amenities[..5] == "Wi-Fi";
      assert amenities[5] == ',';
      FirstAmenityBeforeComma(amenities, 5);
    }
  }

  /** The flight shown in the simulated text: the flight number, or a stand-in when none was given. */
  function FlightText(flight: string): string
  {
    if flight != "" then flight else "your next journey"
  }

  /**
   * The pieces of the f-string of the simulated response (`app.py`, line 130), fields included. The
   * literal text keeps the characters the source file holds where emoji were meant: each emoji's
   * UTF-8 bytes read back as Mac Roman characters.
   */
  function SimulatedPieces(place: string, flight: string, top: Lounge): seq<string>
  {
    [ "\U{201A}\U{FA}\U{AE} Jetsetter alert! For your stop at ", place,
      ", the **", top.name,
      "** (", top.terminal,
      ") is a top pick (", RatingText(top.rating),
      "\U{201A}\U{2260}\U{EA})! Unwind with amenities like _", FirstAmenity(top.amenities),
      "_ before flight ", FlightText(flight),
      ". Bon voyage! \U{201A}\U{FA}\U{E0}\U{D4}\U{220F}\U{E8}\U{F8FF}\U{FC}\U{F5}\U{E3}\U{D4}\U{220F}\U{E8}" ]
  }

  /** The simulated response used when the service is configured off (`app.py`, lines 129-130). */
  function SimulatedDescription(place: string, flight: string, top: Lounge): string
  {
    Join(SimulatedPieces(place, flight, top))
  }

  /** The simulated text names the searched airport, the lounge, its first amenity and the flight. */
  lemma SimulatedMentions(place: string, flight: string, top: Lounge)
    ensures var d := SimulatedDescription(place, flight, top);
            && d != ""
            && Contains(d, place)
            && Contains(d, top.name)
            && Contains(d, FirstAmenity(top.amenities))
            && (flight != "" ==> Contains(d, flight))
            && (flight == "" ==> Contains(d, "your next journey"))
  {
    var pieces := SimulatedPieces(place, flight, top);
    JoinContains(pieces, 0);
    JoinContains(pieces, 1);
    JoinContains(pieces, 3);
    JoinContains(pieces, 9);
    JoinContains(pieces, 11);
    assert Join(pieces) == pieces[0] + Join(pieces[1..]);
  }

  /**
   * The outcome of the `try` block around the service call (lines 118-130) before the update:
   * `Some(text)` when it completes, `None` when it raises and the handler's `except` takes over.
   */
  function Generate(setup: GeminiSetup, reply: ApiReply, terms: SearchTerms, top: Lounge): (d: Option<string>)
    ensures d == None <==> setup == NoApiKey || (setup == Configured && reply == ApiError)
    ensures setup == Configured && reply.Reply? ==> d == Some(reply.text)
    ensures setup == ConfigureFailed ==>
              && d.Some? && d.value != ""
              && Contains(d.value, FirstAmenity(top.amenities))
              && (terms.flight == "" ==> Contains(d.value, "your next journey"))
  {
    match setup
    case NoApiKey => None
    case ConfigureFailed =>
      SimulatedMentions(terms.place, terms.flight, top);
      Some(SimulatedDescription(terms.place, terms.flight, top))
    case Configured =>
      match reply
      case Reply(text) => Some(text)
      case ApiError => None
  }
}
