/**
 * The MakeMyTrip scraper's extraction: the same listings as the flight-search
 * tool, but with unguarded lookups, so a card missing an element raises and
 * is skipped; its record literal writes "Arrival_City" twice.
 */
module MmtExtraction {
  import opened Wrappers
  import opened Text
  import opened PyDict
  import opened FlightRecords

  /** The scraper's ten-entry literal, which writes "Arrival_City" a second time
      after "Layover_City". */
  function MmtPairs(f: Flight): seq<(string, Value)>
  {
    [("Airline", f.airline), ("Departure_Time", f.departureTime), ("Departure_City", f.departureCity),
     ("Arrival_Time", f.arrivalTime), ("Arrival_City", f.arrivalCity), ("Layover_Duration", f.layoverDuration),
     ("Layover_City", f.layoverCity), ("Arrival_City", f.arrivalCity), ("Price", f.price), ("Offers", f.offers)]
  }

  /** The second "Arrival_City" collapses into the first: the dict has the nine
      distinct keys, in the usual order, with the usual values. */
  lemma DuplicateKeyCollapses(f: Flight)
    ensures FromPairs(MmtPairs(f)) == AsDict(f)
    ensures FromPairs(MmtPairs(f)).keys == FlightKeys
  {
    var pairs := FlightPairs(f);
    var pre := pairs[..7];
    var post := pairs[7..];
    assert MmtPairs(f) == pre + [pre[4]] + post;
    assert pairs == pre + post;
    RepeatedPair(pre, 4, post);
  }

  /** The body of the `try` for one card: the airline and the price section
      are guarded, but looking inside a missing start, stop or end block, reading
      the text of a missing city tag, price span or offers tag raises. */
  function CardResult(card: MmtCard): (r: Result<Flight, PyError>)
    ensures r.Success? <==>
              && card.start.Some? && card.start.value.classP.Some?
              && card.layover.Some? && card.layover.value.classP.Some?
              && card.end.Some? && card.end.value.classP.Some?
              && (card.price.Some? ==> card.price.value.Some?)
              && card.offers.Some?
    ensures r.Failure? ==> r.error == AttributeError
  {
    var airline := if card.airline.Some? then Strip(card.airline.value) else NA;
    if card.start.None? || card.start.value.classP.None? then Failure(AttributeError)
    else
      var departureTime := OrNA(card.start.value.firstP);
      var departureCity := card.start.value.classP.value;
      if card.layover.None? || card.layover.value.classP.None? then Failure(AttributeError)
      else
        var layoverDuration := OrNA(card.layover.value.firstP);
        var layoverCity := card.layover.value.classP.value;
        if card.end.None? || card.end.value.classP.None? then Failure(AttributeError)
        else
          var arrivalTime := OrNA(card.end.value.firstP);
          var arrivalCity := card.end.value.classP.value;
          if card.price.Some? && card.price.value.None? then Failure(AttributeError)
          else
            var rawPrice := if card.price.Some? then Strip(card.price.value.value) else NA;
            if card.offers.None? then Failure(AttributeError)
            else
              Success(Flight(Str(airline), Str(departureTime), Str(departureCity), Str(arrivalTime),
                             Str(arrivalCity), Str(layoverDuration), Str(layoverCity), Str(rawPrice),
                             Str(card.offers.value)))
  }

  /** A card that is kept has "N/A" for a missing airline, a missing price
      section and a block without a `<p>`, a stripped airline and price, and the
      other texts as found. */
  lemma KeptCardFields(card: MmtCard)
    requires CardResult(card).Success?
    ensures var f := CardResult(card).value;
            && f.airline == Str(if card.airline.Some? then Strip(card.airline.value) else NA)
            && f.price == Str(if card.price.Some? then Strip(card.price.value.value) else NA)
            && f.departureTime == Str(OrNA(card.start.value.firstP))
            && f.departureCity == Str(card.start.value.classP.value)
            && f.layoverDuration == Str(OrNA(card.layover.value.firstP))
            && f.layoverCity == Str(card.layover.value.classP.value)
            && f.arrivalTime == Str(OrNA(card.end.value.firstP))
            && f.arrivalCity == Str(card.end.value.classP.value)
            && f.offers == Str(card.offers.value)
  {
  }

  function CardResults(cards: seq<MmtCard>): (rs: seq<Result<Flight, PyError>>)
    ensures |rs| == |cards| && forall i :: 0 <= i < |cards| ==> rs[i] == CardResult(cards[i])
  {
    seq(|cards|, i requires 0 <= i < |cards| => CardResult(cards[i]))
  }

  /** The records of the cards that do not raise, in card order. */
  function Extracted(cards: seq<MmtCard>): seq<Flight>
  {
    Successes(CardResults(cards))
  }

  /** There are never more records than cards; the k-th record comes from the
      k-th card that does not raise, and every such card gives a record. */
  lemma ExtractedInCardOrder(cards: seq<MmtCard>)
    ensures |Extracted(cards)| <= |cards|
    ensures var idx := SuccessIndices(CardResults(cards));
            && |idx| == |Extracted(cards)|
            && (forall k :: 0 <= k < |idx| ==> idx[k] < |cards| && CardResult(cards[idx[k]]) == Success(Extracted(cards)[k]))
            && (forall k, l :: 0 <= k < l < |idx| ==> idx[k] < idx[l])
            && (forall i :: 0 <= i < |cards| && CardResult(cards[i]).Success? ==> i in idx)
  {
    SuccessesInOrder(CardResults(cards));
  }

  /** `extract_flight_data`: the card loop, which skips a card whose extraction
      raises and appends the record of every other card. */
  method ExtractFlightData(cards: seq<MmtCard>) returns (flightData: seq<Flight>)
    ensures flightData == Extracted(cards)
  {
    flightData := [];
    if |cards| == 0 {
      return;
    }
    for i := 0 to |cards|
      invariant flightData == Successes(CardResults(cards)[..i])
    {
      assert CardResults(cards)[..i + 1][..i] == CardResults(cards)[..i];
      var r := CardResult(cards[i]);
      if r.Failure? {
        continue;
      }
      flightData := flightData + [r.value];
    }
    assert CardResults(cards)[..|cards|] == CardResults(cards);
  }

  /** The dict a kept card's literal builds. */
  function RecordDict(f: Flight): (d: Dict<Value>)
    ensures d == AsDict(f) && d.keys == FlightKeys
  {
    DuplicateKeyCollapses(f);
    FromPairs(MmtPairs(f))
  }

  /** What `save_to_csv` writes: the header row, then one row per record. */
  datatype CsvFile = CsvFile(header: seq<string>, rows: seq<Dict<Value>>)

  /** `save_to_csv`: nothing at all for no records; otherwise the header is the
      first record's keys, which are the nine flight keys, and every row has
      exactly the header's keys. */
  function SaveToCsv(data: seq<Flight>): (written: Option<CsvFile>)
    ensures written.None? <==> data == []
    ensures written.Some? ==> written.value.header == FlightKeys
    ensures written.Some? ==> |written.value.rows| == |data|
    ensures written.Some? ==> forall i :: 0 <= i < |data| ==>
              written.value.rows[i] == AsDict(data[i]) && written.value.rows[i].keys == written.value.header
  {
    if data == [] then None
    else
      var fieldnames := RecordDict(data[0]).keys;
      Some(CsvFile(fieldnames, seq(|data|, i requires 0 <= i < |data| => RecordDict(data[i]))))
  }

  /** `parse_flight_data`: nothing when the saved page cannot be read, and the
      extracted records otherwise. */
  method ParseFlightData(page: MmtPage) returns (result: Option<seq<Flight>>)
    ensures page.None? ==> result.None?
    ensures page.Some? ==> result == Some(Extracted(page.value))
  {
    if page.None? {
      return None;
    }
    var flightData := ExtractFlightData(page.value);
    return Some(flightData);
  }
}
