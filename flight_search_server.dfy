/**
 * The flight-search tool the worker agent calls: it scrapes a MakeMyTrip
 * results page into a file (left to a parameter here), reads the listings
 * back one record per card, and answers with a fixed message or the records.
 */
module FlightSearchServer {
  import opened Wrappers
  import opened Text
  import opened PyDict
  import opened FlightRecords

  /** The text of the block's first `<p>`, or "N/A" when the block or the `<p>` is missing. */
  function BlockText(b: Option<Block>): (s: string)
    ensures b.None? || b.value.firstP.None? ==> s == NA
    ensures b.Some? && b.value.firstP.Some? ==> s == b.value.firstP.value
  {
    if b.Some? then OrNA(b.value.firstP) else NA
  }

  /** The text of the block's city `<p>`, or "N/A" when the block or the `<p>` is missing. */
  function BlockCity(b: Option<Block>): (s: string)
    ensures b.None? || b.value.classP.None? ==> s == NA
    ensures b.Some? && b.value.classP.Some? ==> s == b.value.classP.value
  {
    if b.Some? then OrNA(b.value.classP) else NA
  }

  /** The record built for one card. Every lookup is guarded, so no card raises
      and no field is `None`. */
  function CardRecord(card: MmtCard): (f: Flight)
    ensures f.airline.Str? && f.departureTime.Str? && f.departureCity.Str? && f.arrivalTime.Str?
    ensures f.arrivalCity.Str? && f.layoverDuration.Str? && f.layoverCity.Str? && f.price.Str? && f.offers.Str?
  {
    var airline := if card.airline.Some? then Strip(card.airline.value) else NA;
    var price := if card.price.Some? && card.price.value.Some? then Strip(card.price.value.value) else NA;
    Flight(Str(airline), Str(BlockText(card.start)), Str(BlockCity(card.start)),
           Str(BlockText(card.end)), Str(BlockCity(card.end)),
           Str(BlockText(card.layover)), Str(BlockCity(card.layover)),
           Str(price), Str(OrNA(card.offers)))
  }

  /** A missing element gives "N/A" for each field read from it. */
  lemma MissingElementsGiveNA(card: MmtCard)
    ensures var f := CardRecord(card);
            && (card.airline.None? ==> f.airline == Str(NA))
            && (card.start.None? ==> f.departureTime == Str(NA) && f.departureCity == Str(NA))
            && (card.end.None? ==> f.arrivalTime == Str(NA) && f.arrivalCity == Str(NA))
            && (card.layover.None? ==> f.layoverDuration == Str(NA) && f.layoverCity == Str(NA))
            && (card.price.None? || card.price.value.None? ==> f.price == Str(NA))
            && (card.offers.None? ==> f.offers == Str(NA))
  {
  }

  /** The airline and the price are stripped of surrounding whitespace; the
      time, city and offer texts are kept exactly as found. */
  lemma FoundTextsKept(card: MmtCard, airline: string, price: string, time: string, city: string, offers: string)
    ensures var f := CardRecord(card);
            && (card.airline == Some(airline) ==> f.airline == Str(Strip(airline)))
            && (card.price == Some(Some(price)) ==> f.price == Str(Strip(price)))
            && (card.start == Some(Block(Some(time), Some(city))) ==>
                  f.departureTime == Str(time) && f.departureCity == Str(city))
            && (card.end == Some(Block(Some(time), Some(city))) ==>
                  f.arrivalTime == Str(time) && f.arrivalCity == Str(city))
            && (card.layover == Some(Block(Some(time), Some(city))) ==>
                  f.layoverDuration == Str(time) && f.layoverCity == Str(city))
            && (card.offers == Some(offers) ==> f.offers == Str(offers))
  {
  }

  /** `get_flights`: no records for an unreadable page or a page without cards,
      otherwise one record per card, in card order. The route and the date play
      no part in the result. */
  method GetFlights(origin: string, destination: string, travelDate: string, page: MmtPage)
    returns (flightData: seq<Flight>)
    ensures page.None? ==> flightData == []
    ensures page.Some? ==> |flightData| == |page.value|
    ensures page.Some? ==> forall i :: 0 <= i < |page.value| ==> flightData[i] == CardRecord(page.value[i])
  {
    if page.None? {
      return [];
    }
    var flightCards := page.value;
    flightData := [];
    if |flightCards| == 0 {
      return;
    }
    for i := 0 to |flightCards|
      invariant |flightData| == i
      invariant forall k :: 0 <= k < i ==> flightData[k] == CardRecord(flightCards[k])
    {
      var card := flightCards[i];
      var airline := if card.airline.Some? then Strip(card.airline.value) else NA;
      var departureCity := NA;
      var departureTime := NA;
      if card.start.Some? {
        departureTime := OrNA(card.start.value.firstP);
        departureCity := OrNA(card.start.value.classP);
      }
      var layoverDuration := NA;
      var layoverCity := NA;
      if card.layover.Some? {
        layoverDuration := OrNA(card.layover.value.firstP);
        layoverCity := OrNA(card.layover.value.classP);
      }
      var arrivalCity := NA;
      var arrivalTime := NA;
      if card.end.Some? {
        arrivalTime := OrNA(card.end.value.firstP);
        arrivalCity := OrNA(card.end.value.classP);
      }
      var priceText := NA;
      if card.price.Some? {
        priceText := if card.price.value.Some? then Strip(card.price.value.value) else NA;
      }
      var offers := OrNA(card.offers);
      flightData := flightData + [Flight(Str(airline), Str(departureTime), Str(departureCity),
                                         Str(arrivalTime), Str(arrivalCity), Str(layoverDuration),
                                         Str(layoverCity), Str(priceText), Str(offers))];
    }
  }

  const NoFlightsMessage: string := "No flights found or error occurred during extraction."
  const SearchErrorPrefix: string := "Error executing search: "

  /** What the tool answers: a message, or the records (sent as their JSON text). */
  datatype ToolReply = Message(text: string) | Json(records: seq<Flight>)

  /** `search_flights`: the scrape either completes, after which `page` is what the
      saved file holds, or raises with a message. The tool never raises: a failed
      scrape gives the error message, an empty extraction the fixed message, and
      otherwise the records of every card. */
  method SearchFlights(origin: string, destination: string, travelDate: string,
                       scrape: Outcome<string>, page: MmtPage) returns (reply: ToolReply)
    ensures scrape.Fail? ==> reply == Message(SearchErrorPrefix + scrape.error)
    ensures scrape.Pass? && (page.None? || page.value == []) ==> reply == Message(NoFlightsMessage)
    ensures scrape.Pass? && page.Some? && page.value != [] ==>
              && reply.Json? && |reply.records| == |page.value|
              && forall i :: 0 <= i < |page.value| ==> reply.records[i] == CardRecord(page.value[i])
  {
    if scrape.Fail? {
      return Message(SearchErrorPrefix + scrape.error);
    }
    var results := GetFlights(origin, destination, travelDate, page);
    if |results| == 0 {
      return Message(NoFlightsMessage);
    }
    return Json(results);
  }
}
