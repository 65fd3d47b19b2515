/**
 * The Expedia scraper's extraction. The route is split on " - " and the
 * layover text on " in ", and the price is picked by the number of price
 * spans. The loop never resets the cities, the layover fields or the price,
 * so a card that does not assign them reuses the previous card's values, and
 * a card that raises part-way keeps the assignments made before the raise.
 */
module ExpediaExtraction {
  import opened Wrappers
  import opened Text
  import opened FlightRecords

  const RouteSeparator: string := " - "
  const LayoverSeparator: string := " in "
  const Direct: string := "Direct"

  /** The tertiary section: the texts of its `<span>`s and of its
      `truncate-lines-2` divs. */
  datatype Tertiary = Tertiary(spans: seq<string>, stopDivs: seq<string>)

  /** One offer listing, `li[data-test-id=offer-listing]`, as the stripped text
      (`get_text(strip=True)`) of what each lookup finds: the secondary
      section's `truncate-lines-2` labels, the tertiary section, the time divs,
      and the `<span>`s of the price column when there is one. */
  datatype ExpediaCard = ExpediaCard(secondary: Option<seq<string>>, tertiary: Option<Tertiary>,
                                     times: seq<string>, priceSpans: Option<seq<string>>)

  /** The variables that live across cards; `None` is a variable no card has
      assigned yet, whose reading raises NameError. */
  datatype Carried = Carried(departureCity: Option<string>, arrivalCity: Option<string>,
                             layoverDuration: Option<Value>, layoverCity: Option<Value>,
                             price: Option<Value>)

  const Unassigned: Carried := Carried(None, None, None, None, None)

  /** One card: the variables afterwards, and the record or the exception. */
  datatype StepOut = StepOut(carried: Carried, result: Result<Flight, PyError>)

  /** `stops`: the third span of the tertiary section when it has three. */
  function Stops(card: ExpediaCard): Option<string>
  {
    if card.tertiary.Some? && |card.tertiary.value.spans| >= 3 then Some(card.tertiary.value.spans[2]) else None
  }

  /** The price variable after the price section: the second span's text for
      two spans, the third's for more, and the list of spans itself otherwise. */
  function PriceAfter(old_price: Option<Value>, card: ExpediaCard): (p: Option<Value>)
    ensures card.priceSpans.None? ==> p == old_price
    ensures card.priceSpans.Some? ==> p.Some?
  {
    match card.priceSpans
    case None => old_price
    case Some(spans) =>
      if |spans| == 2 then Some(Str(spans[1]))
      else if |spans| > 2 then Some(Str(spans[2]))
      else Some(SpanList(spans))
  }

  /** The record once the route, layover and price steps have not raised:
      reading a variable no card has assigned raises NameError. */
  function Emit(c: Carried, card: ExpediaCard, airline: string): Result<Flight, PyError>
  {
    var depTime := if |card.times| > 0 then card.times[0] else NA;
    var arrTime := if |card.times| > 1 then card.times[1] else NA;
    if c.departureCity.None? then Failure(NameError("departure_city"))
    else if c.arrivalCity.None? then Failure(NameError("arrival_city"))
    else if c.layoverDuration.None? then Failure(NameError("layover_duration"))
    else if c.layoverCity.None? then Failure(NameError("layover_city"))
    else if c.price.None? then Failure(NameError("price_element"))
    else Success(Flight(Str(airline), Str(depTime), Str(c.departureCity.value), Str(arrTime),
                        Str(c.arrivalCity.value), c.layoverDuration.value, c.layoverCity.value,
                        c.price.value, Null))
  }

  /** The tertiary step, the times and the price, once the route step is done. */
  function AfterRoute(c: Carried, card: ExpediaCard, airline: string): StepOut
  {
    if card.tertiary.None? then
      var c' := c.(price := PriceAfter(c.price, card));
      StepOut(c', Emit(c', card, airline))
    else
      var cleared := c.(layoverDuration := Some(Null), layoverCity := Some(Null));
      if Stops(card) == Some(Direct) then
        var c' := cleared.(price := PriceAfter(c.price, card));
        StepOut(c', Emit(c', card, airline))
      else if card.tertiary.value.stopDivs == [] then StepOut(cleared, Failure(IndexError))
      else
        var parts := Split(card.tertiary.value.stopDivs[0], LayoverSeparator);
        var withDuration := cleared.(layoverDuration := Some(Str(parts[0])));
        if |parts| < 2 then StepOut(withDuration, Failure(IndexError))
        else
          var withCity := withDuration.(layoverCity := Some(Str(parts[1])));
          var c' := withCity.(price := PriceAfter(c.price, card));
          StepOut(c', Emit(c', card, airline))
  }

  /** The body of the `try` for one card, from the variables left by the cards before. */
  function CardStep(c: Carried, card: ExpediaCard): (out: StepOut)
  {
    if card.secondary.Some? && |card.secondary.value| >= 2 then
      var labels := card.secondary.value;
      var pieces := Split(labels[0], RouteSeparator);
      var withDeparture := c.(departureCity := Some(pieces[0]));
      if |pieces| < 2 then StepOut(withDeparture, Failure(IndexError))
      else AfterRoute(withDeparture.(arrivalCity := Some(pieces[1])), card, labels[1])
    else AfterRoute(c, card, NA)
  }

  /** What the loop holds after some cards: its variables and the records appended. */
  datatype ScanState = ScanState(carried: Carried, records: seq<Flight>)

  function Scan(cards: seq<ExpediaCard>): ScanState
  {
    if cards == [] then ScanState(Unassigned, [])
    else
      var before := Scan(cards[..|cards| - 1]);
      var out := CardStep(before.carried, cards[|cards| - 1]);
      ScanState(out.carried, before.records + if out.result.Success? then [out.result.value] else [])
  }

  /** One more card is one more step from the variables the earlier cards left. */
  lemma ScanSnoc(cards: seq<ExpediaCard>, i: nat)
    requires i < |cards|
    ensures var before := Scan(cards[..i]);
            var out := CardStep(before.carried, cards[i]);
            Scan(cards[..i + 1]) == ScanState(out.carried, before.records + if out.result.Success? then [out.result.value] else [])
  {
    assert cards[..i + 1][..i] == cards[..i];
  }

  /** `extract_flight_data`: the card loop. The carried variables are the loop's
      state: each card's `try` body starts from what the cards before it left,
      and a card that raises is skipped but keeps its partial assignments. */
  method ExtractFlightData(cards: seq<ExpediaCard>) returns (flightData: seq<Flight>)
    ensures flightData == Scan(cards).records
  {
    flightData := [];
    var carried := Unassigned;
    for i := 0 to |cards|
      invariant Scan(cards[..i]) == ScanState(carried, flightData)
    {
      ScanSnoc(cards, i);
      var out := CardStep(carried, cards[i]);
      carried := out.carried;
      if out.result.Failure? {
        continue;
      }
      flightData := flightData + [out.result.value];
    }
    assert cards[..|cards|] == cards;
  }

  /** `parse_flight_data`: nothing when the saved page cannot be read, and the
      records of its cards otherwise. */
  method ParseFlightData(page: Option<seq<ExpediaCard>>) returns (result: Option<seq<Flight>>)
    ensures page.None? ==> result.None?
    ensures page.Some? ==> result == Some(Scan(page.value).records)
  {
    if page.None? {
      return None;
    }
    var flightData := ExtractFlightData(page.value);
    return Some(flightData);
  }

  /* ------------------------------------------------------------ properties */

  /** The route step raises: the first label has no " - ". */
  predicate RouteRaises(card: ExpediaCard)
  {
    card.secondary.Some? && |card.secondary.value| >= 2 && |Split(card.secondary.value[0], RouteSeparator)| < 2
  }

  /** The layover step raises: not a direct flight, and no stop div or no " in " in it. */
  predicate LayoverRaises(card: ExpediaCard)
  {
    && card.tertiary.Some? && Stops(card) != Some(Direct)
    && (card.tertiary.value.stopDivs == [] || |Split(card.tertiary.value.stopDivs[0], LayoverSeparator)| < 2)
  }

  /** A route "A - B", where the first " - " is the one after A and B holds no
      other, gives A as the departure city and B as the arrival city. */
  lemma RouteSplit(c: Carried, card: ExpediaCard, a: string, b: string)
    requires card.secondary.Some? && |card.secondary.value| >= 2
    requires card.secondary.value[0] == a + RouteSeparator + b
    requires forall j: nat :: j < |a| ==> !OccursAt(a + RouteSeparator + b, RouteSeparator, j)
    requires !Contains(b, RouteSeparator)
    ensures var out := CardStep(c, card);
            && out.carried.departureCity == Some(a) && out.carried.arrivalCity == Some(b)
            && (out.result.Success? ==>
                  && out.result.value.departureCity == Str(a) && out.result.value.arrivalCity == Str(b)
                  && out.result.value.airline == Str(card.secondary.value[1]))
  {
    SplitAtFirst(a, b, RouteSeparator);
  }

  /** A route without " - " raises after the departure city has been set to the
      whole route: the card is skipped and the arrival city stays as it was. */
  lemma RouteWithoutSeparator(c: Carried, card: ExpediaCard)
    requires card.secondary.Some? && |card.secondary.value| >= 2
    requires !Contains(card.secondary.value[0], RouteSeparator)
    ensures CardStep(c, card) == StepOut(c.(departureCity := Some(card.secondary.value[0])), Failure(IndexError))
  {
    SplitAbsent(card.secondary.value[0], RouteSeparator);
  }

  /** Past the route, a stop text "X in Y", where the first " in " is the one
      after X and Y holds no other, gives X as the layover duration and Y as the
      layover city. */
  lemma LayoverSplit(c: Carried, card: ExpediaCard, x: string, y: string)
    requires !RouteRaises(card)
    requires card.tertiary.Some? && Stops(card) != Some(Direct) && card.tertiary.value.stopDivs != []
    requires card.tertiary.value.stopDivs[0] == x + LayoverSeparator + y
    requires forall j: nat :: j < |x| ==> !OccursAt(x + LayoverSeparator + y, LayoverSeparator, j)
    requires !Contains(y, LayoverSeparator)
    ensures var out := CardStep(c, card);
            && out.carried.layoverDuration == Some(Str(x)) && out.carried.layoverCity == Some(Str(y))
            && (out.result.Success? ==> out.result.value.layoverDuration == Str(x) && out.result.value.layoverCity == Str(y))
  {
    SplitAtFirst(x, y, LayoverSeparator);
  }

  /** A stop text whose city contains the letter 'i' splits into its duration
      and its city. */
  lemma LayoverTextExample()
    ensures Split("1h 35m in Mumbai", LayoverSeparator) == ["1h 35m", "Mumbai"]
  {
    var x, y := "1h 35m", "Mumbai";
    assert x + LayoverSeparator + y == "1h 35m in Mumbai";
    forall j: nat | j < |x| ensures !OccursAt(x + LayoverSeparator + y, LayoverSeparator, j) {
      assert (x + LayoverSeparator + y)[j + 1] != 'i';
    }
    forall j: nat ensures !OccursAt(y, LayoverSeparator, j) {
      if j + |LayoverSeparator| <= |y| {
        assert y[j..j + |LayoverSeparator|][0] == y[j];
      }
    }
    SplitAtFirst(x, y, LayoverSeparator);
  }

  /** Past the route, a stop without a stop div or without " in " in it makes the card raise. */
  lemma LayoverWithoutSeparator(c: Carried, card: ExpediaCard)
    requires !RouteRaises(card)
    requires card.tertiary.Some? && Stops(card) != Some(Direct)
    requires card.tertiary.value.stopDivs == [] || !Contains(card.tertiary.value.stopDivs[0], LayoverSeparator)
    ensures CardStep(c, card).result == Failure(IndexError)
  {
    if card.tertiary.value.stopDivs != [] {
      SplitAbsent(card.tertiary.value.stopDivs[0], LayoverSeparator);
    }
  }

  /** Past the route, a direct flight has `None` for both layover fields. */
  lemma DirectHasNoLayover(c: Carried, card: ExpediaCard)
    requires !RouteRaises(card)
    requires card.tertiary.Some? && Stops(card) == Some(Direct)
    ensures var out := CardStep(c, card);
            && out.carried.layoverDuration == Some(Null) && out.carried.layoverCity == Some(Null)
            && (out.result.Success? ==> out.result.value.layoverDuration == Null && out.result.value.layoverCity == Null)
  {
  }

  /** When nothing before it raises, the price is the second span's text for two
      spans, the third span's for more, the list of spans itself for fewer, and
      the previous card's price without a price column. */
  lemma PriceRule(c: Carried, card: ExpediaCard)
    requires !RouteRaises(card) && !LayoverRaises(card)
    ensures var p := CardStep(c, card).carried.price;
            && (card.priceSpans.None? ==> p == c.price)
            && (card.priceSpans.Some? && |card.priceSpans.value| == 2 ==> p == Some(Str(card.priceSpans.value[1])))
            && (card.priceSpans.Some? && |card.priceSpans.value| > 2 ==> p == Some(Str(card.priceSpans.value[2])))
            && (card.priceSpans.Some? && |card.priceSpans.value| < 2 ==> p == Some(SpanList(card.priceSpans.value)))
  {
  }

  /** The departure time is "N/A" without time divs, the arrival time "N/A"
      with fewer than two. */
  lemma TimeDefaults(c: Carried, card: ExpediaCard)
    requires CardStep(c, card).result.Success?
    ensures var f := CardStep(c, card).result.value;
            && f.departureTime == Str(if |card.times| > 0 then card.times[0] else NA)
            && f.arrivalTime == Str(if |card.times| > 1 then card.times[1] else NA)
  {
  }

  /** No record has offers. */
  lemma {:induction false} OffersAlwaysNone(cards: seq<ExpediaCard>)
    ensures forall k :: 0 <= k < |Scan(cards).records| ==> Scan(cards).records[k].offers == Null
  {
    if cards != [] {
      OffersAlwaysNone(cards[..|cards| - 1]);
    }
  }

  /** A first card without a route, before any card has set the cities, is skipped. */
  lemma FirstCardWithoutRouteSkipped(card: ExpediaCard)
    requires !(card.secondary.Some? && |card.secondary.value| >= 2)
    ensures CardStep(Unassigned, card).result.Failure?
  {
  }

  /** A later card without a route reuses the cities, and one without a price
      column the price, that the cards before it left. */
  lemma EarlierValuesReused(c: Carried, card: ExpediaCard)
    requires CardStep(c, card).result.Success?
    ensures var f := CardStep(c, card).result.value;
            && (!(card.secondary.Some? && |card.secondary.value| >= 2) ==>
                  f.departureCity == Str(c.departureCity.value) && f.arrivalCity == Str(c.arrivalCity.value))
            && (card.priceSpans.None? ==> f.price == c.price.value)
  {
  }

  /** All five carried variables are assigned. */
  predicate AllAssigned(c: Carried)
  {
    c.departureCity.Some? && c.arrivalCity.Some? && c.layoverDuration.Some? && c.layoverCity.Some? && c.price.Some?
  }

  /** Every variable assigned in `c` is assigned in `d`. */
  predicate Covers(c: Carried, d: Carried)
  {
    && (c.departureCity.Some? ==> d.departureCity.Some?)
    && (c.arrivalCity.Some? ==> d.arrivalCity.Some?)
    && (c.layoverDuration.Some? ==> d.layoverDuration.Some?)
    && (c.layoverCity.Some? ==> d.layoverCity.Some?)
    && (c.price.Some? ==> d.price.Some?)
  }

  lemma AfterRouteKeepsAssigned(c: Carried, card: ExpediaCard, airline: string)
    ensures Covers(c, AfterRoute(c, card, airline).carried)
  {
    if card.tertiary.Some? && Stops(card) != Some(Direct) && card.tertiary.value.stopDivs != [] {
      var parts := Split(card.tertiary.value.stopDivs[0], LayoverSeparator);
      if |parts| >= 2 {
        assert PriceAfter(c.price, card).Some? || PriceAfter(c.price, card) == c.price;
      }
    }
  }

  /** A card never unassigns a variable. */
  lemma StepKeepsAssigned(c: Carried, card: ExpediaCard)
    ensures Covers(c, CardStep(c, card).carried)
  {
    if card.secondary.Some? && |card.secondary.value| >= 2 {
      var labels := card.secondary.value;
      var pieces := Split(labels[0], RouteSeparator);
      if |pieces| >= 2 {
        var routed := c.(departureCity := Some(pieces[0]), arrivalCity := Some(pieces[1]));
        AfterRouteKeepsAssigned(routed, card, labels[1]);
      }
    } else {
      AfterRouteKeepsAssigned(c, card, NA);
    }
  }

  /** Once all five variables are assigned, no card raises NameError. */
  lemma AssignedNoNameError(c: Carried, card: ExpediaCard)
    requires AllAssigned(c)
    ensures !(CardStep(c, card).result.Failure? && CardStep(c, card).result.error.NameError?)
  {
    StepKeepsAssigned(c, card);
  }

  /** Once the cards so far have assigned all five variables, every later card
      that gets past the route and layover steps gives a record. */
  lemma {:induction false} AssignedStaysAssigned(cards: seq<ExpediaCard>, i: nat, j: nat)
    requires i <= j <= |cards| && AllAssigned(Scan(cards[..i]).carried)
    ensures AllAssigned(Scan(cards[..j]).carried)
    ensures j < |cards| && !RouteRaises(cards[j]) && !LayoverRaises(cards[j]) ==>
              CardStep(Scan(cards[..j]).carried, cards[j]).result.Success?
    decreases j - i
  {
    if i < j {
      AssignedStaysAssigned(cards, i + 1, j) by {
        ScanSnoc(cards, i);
        StepKeepsAssigned(Scan(cards[..i]).carried, cards[i]);
      }
    }
    if j < |cards| {
      AssignedNoNameError(Scan(cards[..j]).carried, cards[j]);
    }
  }
}
