/**
 * What the flight-search worker and the scrapers share: the values a flight
 * record holds, the record every MakeMyTrip-style extractor emits (a dict
 * with nine keys), the exceptions a card's extraction can raise, and the
 * cards that survive a loop which skips every card that raises.
 */
module FlightRecords {
  import opened Wrappers
  import opened PyDict

  /** A value stored in a record: a string, `None`, or a list of `<span>` tags
      whose texts are given (one scraper can store such a list as the price). */
  datatype Value = Str(text: string) | Null | SpanList(texts: seq<string>)

  /** The exception extracting one card raises: an attribute looked up on
      `None`, an index past the end of a list, or a variable read before any
      card assigned it. */
  datatype PyError = AttributeError | IndexError | NameError(name: string)

  /** The placeholder for a field whose element is missing. */
  const NA: string := "N/A"

  /** `x.text if x else "N/A"`, for an element whose text is `t` when present. */
  function OrNA(t: Option<string>): (s: string)
    ensures t.None? ==> s == NA
    ensures t.Some? ==> s == t.value
  {
    t.GetOr(NA)
  }

  /** A flight record as the extractors emit it: one value per key of the literal. */
  datatype Flight = Flight(airline: Value, departureTime: Value, departureCity: Value,
                           arrivalTime: Value, arrivalCity: Value, layoverDuration: Value,
                           layoverCity: Value, price: Value, offers: Value)

  /** The keys of a flight record, in the order the literal writes them. */
  const FlightKeys: seq<string> :=
    ["Airline", "Departure_Time", "Departure_City", "Arrival_Time", "Arrival_City",
     "Layover_Duration", "Layover_City", "Price", "Offers"]

  lemma FlightKeysDistinct()
    ensures Distinct(FlightKeys)
  {
    assert |FlightKeys[0]| == 7 && |FlightKeys[1]| == 14 && |FlightKeys[2]| == 14;
    assert |FlightKeys[3]| == 12 && |FlightKeys[4]| == 12 && |FlightKeys[5]| == 16;
    assert |FlightKeys[6]| == 12 && |FlightKeys[7]| == 5 && |FlightKeys[8]| == 6;
    assert FlightKeys[1][10] != FlightKeys[2][10];
    assert FlightKeys[3][8] != FlightKeys[4][8] && FlightKeys[3][0] != FlightKeys[6][0];
    assert FlightKeys[4][0] != FlightKeys[6][0];
  }

  /** The nine-entry literal `{'Airline': ..., ..., 'Offers': ...}`. */
  function FlightPairs(f: Flight): seq<(string, Value)>
  {
    [("Airline", f.airline), ("Departure_Time", f.departureTime), ("Departure_City", f.departureCity),
     ("Arrival_Time", f.arrivalTime), ("Arrival_City", f.arrivalCity), ("Layover_Duration", f.layoverDuration),
     ("Layover_City", f.layoverCity), ("Price", f.price), ("Offers", f.offers)]
  }

  /** The dict the literal builds: exactly the nine keys, in the order written,
      each bound to the value written beside it. */
  function AsDict(f: Flight): (r: Dict<Value>)
    ensures Valid(r) && r.keys == FlightKeys
    ensures forall i :: 0 <= i < |FlightKeys| ==> r.values[FlightKeys[i]] == FlightPairs(f)[i].1
  {
    var pairs := FlightPairs(f);
    assert Firsts(pairs) == FlightKeys;
    FlightKeysDistinct();
    FromDistinctPairs(pairs);
    FromPairs(pairs)
  }

  /* ------------------------------------------------- MakeMyTrip listings */

  /** A block found by `timeInfoLeft`, `stop-info` or `timeInfoRight`: the text of
      its first `<p>`, and of its first `<p>` with the block's city class
      (`blackText`, or `flightsLayoverInfo` in the stop block), when present. */
  datatype Block = Block(firstP: Option<string>, classP: Option<string>)

  /** One MakeMyTrip listing, `div[data-test*=component-clusterItem]`, as the
      unstripped `.text` of what each selector finds in it. `price` is the price
      section when there is one, holding the text of its first `<span>` when that
      exists; `offers` is the offers paragraph. */
  datatype MmtCard = MmtCard(airline: Option<string>, start: Option<Block>, layover: Option<Block>,
                             end: Option<Block>, price: Option<Option<string>>, offers: Option<string>)

  /** The listings of a saved results page, or `None` when the file cannot be read. */
  type MmtPage = Option<seq<MmtCard>>

  /* ------------------------------------------- loops that skip failing cards */

  /** The results that succeeded, in order: what a loop appending one record per
      card, and skipping every card that raises, has appended. */
  function Successes<T, E>(rs: seq<Result<T, E>>): (out: seq<T>)
    ensures |out| <= |rs|
  {
    if rs == [] then []
    else
      var last := rs[|rs| - 1];
      Successes(rs[..|rs| - 1]) + if last.Success? then [last.value] else []
  }

  /** The positions of the results that succeeded, in increasing order. */
  function SuccessIndices<T, E>(rs: seq<Result<T, E>>): seq<nat>
  {
    if rs == [] then []
    else SuccessIndices(rs[..|rs| - 1]) + if rs[|rs| - 1].Success? then [|rs| - 1] else []
  }

  /** The k-th record emitted comes from the k-th card that did not raise: the
      records keep card order, and every card that did not raise gives one. */
  lemma {:induction false} SuccessesInOrder<T, E>(rs: seq<Result<T, E>>)
    ensures var idx := SuccessIndices(rs);
            && |idx| == |Successes(rs)|
            && (forall k :: 0 <= k < |idx| ==> idx[k] < |rs| && rs[idx[k]] == Success(Successes(rs)[k]))
            && (forall k, l :: 0 <= k < l < |idx| ==> idx[k] < idx[l])
            && (forall i :: 0 <= i < |rs| && rs[i].Success? ==> i in idx)
  {
    if rs != [] {
      var init := rs[..|rs| - 1];
      SuccessesInOrder(init);
      var idx := SuccessIndices(rs);
      var idx0 := SuccessIndices(init);
      assert forall k :: 0 <= k < |idx0| ==> idx0[k] == idx[k];
      assert forall i :: 0 <= i < |init| ==> init[i] == rs[i];
    }
  }
}
