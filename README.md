# Airport lounge search: a Dafny model of `home()`

This project models the search pipeline of a small airport-lounge web page. The application
first generates 100 dummy lounge records, each with an id from 1 to 100, an airport code, a name,
a terminal, an amenity list, a default description and a rating between 3.5 and 5.0.

It then reads the four query parameters `place`, `date`, `time` and `flight`. `place` is stripped
and upper-cased; the other three are only stripped.

When `place` is non-empty, the records are narrowed to that airport. The remaining records are
sorted by rating, highest first. The application asks a text-generation service for a description
of the top record, or simulates one, and puts that description into the top record. The page
receives the resulting list, the echoed search terms and the flag `search_active`, which is
always true.

Modules, in dependency order:

- `Wrappers`: `Option`.
- `PyStr`: the pieces of Python's `str` the handler uses: `strip()`, `upper()`, `lower()`,
  `split(',')[0]` and f-string concatenation. It also defines `Contains`, the substring relation
  that the contracts about the built texts are stated in.
- `Lounges`: the record, the generator's value pools and `generate_dummy_lounges`, with the random
  choices supplied as input.
- `Query`: normalising the request parameters.
- `Filter`: the copy and the airport filter.
- `Ranking`: the stable descending sort by rating. It has two forms: a specification function on
  sequences, and an in-place insertion sort on an array that is proved to produce the same result.
- `Describe`: the outcome of the generation step, including the simulated text. That text is built
  from the characters `app.py` holds at line 130, so where emoji were meant the model has the same
  garbled characters as the source file (each emoji's UTF-8 bytes read as Mac Roman).
- `Search`: the handler itself. `RunSearch` covers the handler from the copy onwards; `Home` also
  generates the records.

How the model treats the service set-up at the top of `app.py` (lines 14-29):

- No `GEMINI_API_KEY`: nothing ever binds `GEMINI_ACTIVE`, because its unconditional assignment is
  commented out. The handler's `if GEMINI_ACTIVE` therefore raises `NameError`, and the `except`
  clause catches it. The start-up warning says AI features will be simulated, but no description
  is produced at all and every record keeps its default description. This is `NoApiKey`.
- Configuration fails: the simulated description is used. This is `ConfigureFailed`.
- Configuration succeeds: the service is called. A reply becomes the description; an exception
  leaves the list as it was sorted. This is `Configured`, with `ApiReply`.

In every case an empty description leaves the list unchanged.

The filter keeps the records in their original order, but the page does not show them in that
order: the code sorts the filtered list in place before it is rendered. The model follows the code,
so the page lists the candidates highest-rated first. `Search.JfkRanking` and `Search.JfkScenario`
work this out on a three-record example.

## Model

| member | source | states |
|---|---|---|
| PyStr.IsSpace | app.py:70-73 | the characters `strip()` removes: Python's `isspace` set; `PyStr.IsSpaceAscii` states which ASCII characters it holds |
| PyStr.IsSpaceAscii | app.py:70-73 | among ASCII characters, `strip()` removes exactly tab, line feed, vertical tab, form feed, carriage return, the separators 0x1C-0x1F and space |
| PyStr.Strip | app.py:70-73 | `strip()` returns a slice of its input that has only whitespace before and after it and that neither starts nor ends with whitespace, where whitespace is Python's `isspace` set |
| PyStr.StripIsUnique | app.py:70-73 | any slice with only whitespace removed on both sides and no whitespace at either end is exactly what `strip()` returns |
| PyStr.StripIdempotent | app.py:70-73 | stripping a stripped string changes nothing |
| PyStr.Upper | app.py:70 | `upper()` keeps the length, maps every character through the letter mapping and leaves no lower-case ASCII letter |
| PyStr.UpperIdempotent | app.py:70 | upper-casing twice is upper-casing once |
| PyStr.Lower | app.py:50 | `lower()` keeps the length, maps every character and leaves no upper-case ASCII letter |
| PyStr.SplitFirst | app.py:129 | `split(',')[0]` is the longest prefix without a comma, and it ends either at the first comma or at the end of the string |
| PyStr.JoinContains | app.py:130 | a string built from pieces contains each of the pieces |
| Lounges.DefaultDescription | app.py:50 | the default description names the lounge, its airport, its terminal and the lower-cased amenity list drawn for it |
| Lounges.MakeLounge | app.py:46-59 | a generated record carries the id and the drawn airport, terminal, amenities and rating; its name is the drawn stem followed by " Lounge"; its description names the lounge, its airport and its terminal |
| Lounges.GenerateDummyLounges | app.py:32-61 | the generator returns `num_lounges` records; record `i` has id `i + 1` and is built from the `i`-th round of random choices; the ids are distinct; a record's airport and amenity list come from the generator's pools |
| Query.Normalise | app.py:70-80 | the search terms carry no surrounding whitespace and `place` has no lower-case letter; a missing parameter becomes the empty string |
| Query.UpperStrip | app.py:70 | `strip().upper()` equals `upper().strip()` |
| Query.NormaliseOnlyTrims | app.py:70-73 | each search term is its raw parameter with only surrounding whitespace removed (for `place`, the upper-cased parameter) |
| Query.NormaliseIsIdempotent | app.py:70-80 | submitting the echoed search terms again yields the same search terms |
| Filter.AtAirport | app.py:86-89 | the comprehension returns no more records than it was given, and every one of them is at the searched airport |
| Filter.Candidates | app.py:67-89 | an empty `place` keeps every record in its order; a non-empty `place` keeps only records at that airport |
| Filter.AtAirportIsSubsequence | app.py:86-89 | the filter result is a subsequence of its input: records are only dropped, never reordered |
| Filter.AtAirportCounts | app.py:86-89 | every record at the airport appears in the result exactly as often as in the input; no other record appears |
| Filter.AtAirportKeepsDistinct | app.py:86-89 | filtering a list with distinct ids gives a list with distinct ids |
| Ranking.RankByRating | app.py:95 | the list sorted by rating, highest first, ties in input order, of the same length; its meaning is stated by `RankIsPermutation`, `RankIsOrdered`, `RankIsStable` and `StableSortIsUnique` |
| Ranking.RankIsPermutation | app.py:95 | the sort neither adds, drops nor duplicates a record |
| Ranking.RankIsOrdered | app.py:95 | the sorted list is ordered by rating, highest first |
| Ranking.RankIsStable | app.py:95 | for every rating, the records with that rating keep their relative order |
| Ranking.StableSortIsUnique | app.py:95 | any list that is ordered by rating and keeps each rating's records in input order is the sort's result, so the model's sort and Python's stable `sort(reverse=True)` agree |
| Ranking.RankKeepsDistinct | app.py:95 | sorting a list with distinct ids gives a list with distinct ids |
| Ranking.FirstBest | app.py:97-98 | the index of a record whose rating is the maximum, with every earlier record rated strictly lower |
| Ranking.RankTopIsFirstBest | app.py:95-98 | `top_lounge` is the highest-rated record, and among records tied for the highest rating it is the one that came first |
| Ranking.InsertAt | app.py:95 | one step of the in-place sort leaves the first `i + 1` slots holding the old first `i` records with the old `a[i]` inserted after every record rated at least as high; later slots are untouched |
| Ranking.SortByRatingDesc | app.py:95 | the in-place sort leaves the array holding exactly the stable descending ordering of its old contents |
| Describe.RatingText | app.py:130 | `str(rating)` of a rating in tenths is three characters, digit, point, digit, and reads back as the rating |
| Describe.FirstAmenity | app.py:129 | the first amenity holds no comma, has no whitespace at either end, and is the text before the first comma with only surrounding whitespace removed |
| Describe.FirstAmenityOfPools | app.py:37-43 | for every amenity list the generator can store, the first amenity is "Wi-Fi" or "Premium Wi-Fi" |
| Describe.SimulatedDescription | app.py:130 | the simulated response, built from the f-string's pieces; its meaning is stated by `Describe.SimulatedMentions` |
| Describe.SimulatedMentions | app.py:129-130 | the simulated text is non-empty and names the searched place, the lounge, its first amenity, and either the flight or "your next journey" when no flight was given |
| Describe.Generate | app.py:118-130 | generation fails exactly when no API key was set or the service call raised; a successful call yields its reply text; a failed configuration yields the simulated text, which is non-empty and names the first amenity |
| Search.IndexOfId | app.py:136-137 | the index of the first record with the given id, or the list length when no record has it |
| Search.ReplaceFirstById | app.py:136-142 | the first record with the id gets the new description and nothing else changes; with no such record the list is unchanged |
| Search.RunSearch | app.py:67-154 | the page echoes the normalised terms with `search_active` set; it lists the candidates sorted by rating; the top record alone carries the new description when generation produced a non-empty text; otherwise the sorted list is unchanged; no candidates give an empty page |
| Search.RankedCandidatesFrom | app.py:83-95 | the sorted candidates are records of the generated list and keep its distinct ids |
| Search.IdsFromNumbering | app.py:53 | records taken from a list whose ids were numbered 1, 2, ... carry ids between 1 and the list's length |
| Search.Home | app.py:65-154 | the page lists at most 100 records, all with distinct ids from 1 to 100, so the replaced record is the only one carrying its id |
| Search.JfkRanking | app.py:70-95 | two JFK lounges rated 4.2 and 4.8 and a LAX lounge rated 5.0, searched for " jfk ": the place becomes "JFK" and the sorted candidates list the 4.8 lounge before the 4.2 lounge |
| Search.JfkScenario | app.py:67-154 | the same search with the service configured off and any date, time and flight: the page lists exactly the two JFK lounges; the 4.8 lounge comes first and alone carries the simulated description; the 4.2 lounge is listed unchanged |

## Left out

- Flask: the route, `request` and `render_template` become `QueryArgs` in and `Page` out.
- The service configuration and `generate_content` are abstracted to the outcomes
  `GeminiSetup` and `ApiReply`. The prompt text is not built, because only the service reads it.
- The random choices of `generate_dummy_lounges` are an input sequence of `Draw` values. The model
  proves nothing about their distribution.
- Ratings are integer tenths from 35 to 50, standing for the floats `round(uniform(3.5, 5.0), 1)`.
  Float arithmetic and the formatting of floats outside that range are left out.
- `print` calls and the unused `pandas` import are left out.
- PyStr.Upper: maps only the ASCII letters `a`-`z`. Python's `upper()` also maps non-ASCII
  letters, and this reaches the filter. For example, `"sın".upper()` and `"ſin".upper()` are both
  `"SIN"`, so the program lists the SIN lounges for such a query, while the model upper-cases it to
  a string that matches no airport and lists none. Python's mapping can also change the length
  (`ß` becomes `SS`).
- PyStr.Lower: maps only the ASCII letters `A`-`Z`. The amenity lists it is applied to are ASCII.
- Search.RunSearch: models the lists as values. The dictionaries shared between `all_lounges`
  and the filtered copy are not modelled as aliased objects. The source replaces the top record
  with a copy, so no shared dictionary is changed anyway.
- The sort is modelled as an insertion sort, not Python's timsort. `Ranking.StableSortIsUnique`
  shows that any stable descending sort gives the same list.
