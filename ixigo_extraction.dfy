/**
 * The ixigo scraper's extraction. Each saved page's listings are read after
 * dropping the first, with no per-listing recovery: a listing that raises
 * aborts the page and the whole run. The airline, flight number, cities and
 * duration are not reset between listings. The pages are read in turn, the
 * run stopping at the first unreadable one, and the collected records are
 * deduplicated before they are printed.
 */
module IxigoExtraction {
  import opened Wrappers
  import opened Text
  import opened PyDict
  import opened FlightRecords

  const Standard: string := "Standard"

  /** The price block: the `.text` of its amount div and of its offers span, when present. */
  datatype PriceBlock = PriceBlock(amount: Option<string>, offers: Option<string>)

  /** One `shadow-card` listing, as what each lookup finds in it: the badge area
      and the stripped text of its first `<span>`; the stripped texts of the
      airline block's `<p>`s; the `.text` of the time headings; the `.text` of
      the time tile's `<p>`s; and the price block. */
  datatype Listing = Listing(badge: Option<Option<string>>, airlineInfo: Option<seq<string>>,
                             times: seq<string>, timeTile: Option<seq<string>>,
                             priceBlock: Option<PriceBlock>)

  /** The listings of one saved page, or `None` when the file cannot be read. */
  type IxigoPage = Option<seq<Listing>>

  /** The thirteen-key record this scraper emits. */
  datatype IxigoFlight = IxigoFlight(airline: string, flightNo: string, departureTime: string,
                                     departureCity: string, duration: string, arrivalTime: string,
                                     arrivalCity: string, flightType: string, layoverDuration: Value,
                                     layoverCity: Value, price: Value, offers: Value, extraBadges: Value)

  /** A record's items, the key-value pairs deduplication compares. */
  function ItemsOf(f: IxigoFlight): map<string, Value>
  {
    map["Airline" := Str(f.airline), "flight_no" := Str(f.flightNo), "Departure_Time" := Str(f.departureTime),
        "Departure_City" := Str(f.departureCity), "Duration" := Str(f.duration),
        "Arrival_Time" := Str(f.arrivalTime), "Arrival_City" := Str(f.arrivalCity),
        "flight_type" := Str(f.flightType), "Layover_Duration" := f.layoverDuration,
        "Layover_City" := f.layoverCity, "Price" := f.price, "Offers" := f.offers,
        "extra_badges" := f.extraBadges]
  }

  /** The variables that live across the listings of a page; `None` is one no
      listing has assigned yet, whose reading raises NameError. */
  datatype Carried = Carried(airline: Option<string>, flightNo: Option<string>, departureCity: Option<string>,
                             duration: Option<string>, arrivalCity: Option<string>)

  const Unassigned: Carried := Carried(None, None, None, None, None)

  /** The badge text, when the badge area has a `<span>`. */
  function BadgeText(l: Listing): Option<string>
  {
    if l.badge.Some? && l.badge.value.Some? then Some(l.badge.value.value) else None
  }

  /** The record fields read from the listing itself once nothing has raised. */
  function Emit(c: Carried, l: Listing): Result<IxigoFlight, PyError>
    requires |l.times| >= 2
    requires l.priceBlock.Some? ==> l.priceBlock.value.amount.Some? && l.priceBlock.value.offers.Some?
  {
    var price := if l.priceBlock.Some? then Str(Strip(l.priceBlock.value.amount.value)) else Null;
    var offers := if l.priceBlock.Some? then Str(Strip(l.priceBlock.value.offers.value)) else Null;
    var flightType := BadgeText(l).GetOr(Standard);
    var extraBadges := if BadgeText(l).Some? then Str(BadgeText(l).value) else Null;
    if c.airline.None? then Failure(NameError("airline"))
    else if c.flightNo.None? then Failure(NameError("flight_no"))
    else if c.departureCity.None? then Failure(NameError("departure_city"))
    else if c.duration.None? then Failure(NameError("duration"))
    else if c.arrivalCity.None? then Failure(NameError("arrival_city"))
    else Success(IxigoFlight(c.airline.value, c.flightNo.value, Strip(l.times[0]), c.departureCity.value,
                             c.duration.value, Strip(l.times[1]), c.arrivalCity.value, flightType,
                             Null, Null, price, offers, extraBadges))
  }

  /** The variables after one listing, and its record; or the exception. */
  datatype Step = Step(carried: Carried, flight: IxigoFlight)

  /** The loop body for one listing: an airline block or time tile with too few
      `<p>`s, fewer than two time headings, or a price block without its amount
      or offers raises. */
  function ListingStep(c: Carried, l: Listing): Result<Step, PyError>
  {
    if l.airlineInfo.Some? && |l.airlineInfo.value| < 2 then Failure(IndexError)
    else if |l.times| < 2 then Failure(IndexError)
    else if l.timeTile.Some? && |l.timeTile.value| < 4 then Failure(IndexError)
    else if l.priceBlock.Some? && (l.priceBlock.value.amount.None? || l.priceBlock.value.offers.None?) then
      Failure(AttributeError)
    else
      var withAirline :=
        if l.airlineInfo.Some? then c.(airline := Some(l.airlineInfo.value[0]), flightNo := Some(l.airlineInfo.value[1]))
        else c;
      var withTile :=
        if l.timeTile.Some? then
          withAirline.(departureCity := Some(Strip(l.timeTile.value[0])), duration := Some(Strip(l.timeTile.value[1])),
                       arrivalCity := Some(Strip(l.timeTile.value[3])))
        else withAirline;
      match Emit(withTile, l)
      case Failure(e) => Failure(e)
      case Success(f) => Success(Step(withTile, f))
  }

  /** What the listing loop holds after some listings. */
  datatype ScanState = ScanState(carried: Carried, records: seq<IxigoFlight>)

  /** The listing loop over `listings`, from nothing assigned; the first
      exception ends it. */
  function Scan(listings: seq<Listing>): Result<ScanState, PyError>
  {
    if listings == [] then Success(ScanState(Unassigned, []))
    else
      match Scan(listings[..|listings| - 1])
      case Failure(e) => Failure(e)
      case Success(st) =>
        match ListingStep(st.carried, listings[|listings| - 1])
        case Failure(e) => Failure(e)
        case Success(step) => Success(ScanState(step.carried, st.records + [step.flight]))
  }

  /** `flight_listings[1:]`. */
  function DropFirst(listings: seq<Listing>): (rest: seq<Listing>)
    ensures listings == [] ==> rest == []
    ensures listings != [] ==> [listings[0]] + rest == listings
  {
    if listings == [] then [] else listings[1..]
  }

  /** The records of a page: one per listing after the first, or the exception. */
  function Extracted(listings: seq<Listing>): Result<seq<IxigoFlight>, PyError>
  {
    match Scan(DropFirst(listings))
    case Failure(e) => Failure(e)
    case Success(st) => Success(st.records)
  }

  /** One more listing is one more step, unless the loop has already raised. */
  lemma ScanSnoc(listings: seq<Listing>, i: nat)
    requires i < |listings|
    ensures Scan(listings[..i + 1]) ==
              match Scan(listings[..i])
              case Failure(e) => Failure(e)
              case Success(st) =>
                match ListingStep(st.carried, listings[i])
                case Failure(e) => Failure(e)
                case Success(step) => Success(ScanState(step.carried, st.records + [step.flight]))
  {
    assert listings[..i + 1][..i] == listings[..i];
  }

  /** `extract_flight_data`: the loop over the listings after the first,
      appending a record per listing and keeping the variables across them; an
      exception leaves the function. */
  method ExtractFlightData(listings: seq<Listing>) returns (result: Result<seq<IxigoFlight>, PyError>)
    ensures result == Extracted(listings)
  {
    var flightListings := DropFirst(listings);
    var flightsData: seq<IxigoFlight> := [];
    var carried := Unassigned;
    for i := 0 to |flightListings|
      invariant Scan(flightListings[..i]) == Success(ScanState(carried, flightsData))
    {
      ScanSnoc(flightListings, i);
      var step := ListingStep(carried, flightListings[i]);
      if step.Failure? {
        assert Scan(flightListings[..i + 1]) == Failure(step.error);
        ScanKeepsFailure(flightListings, i + 1);
        return Failure(step.error);
      }
      carried := step.value.carried;
      flightsData := flightsData + [step.value.flight];
    }
    assert flightListings[..|flightListings|] == flightListings;
    return Success(flightsData);
  }

  /** Once the loop has raised, the later listings are never read. */
  lemma {:induction false} ScanKeepsFailure(listings: seq<Listing>, i: nat)
    requires i <= |listings| && Scan(listings[..i]).Failure?
    ensures Scan(listings) == Scan(listings[..i])
    decreases |listings| - i
  {
    if i < |listings| {
      ScanSnoc(listings, i);
      ScanKeepsFailure(listings, i + 1);
    } else {
      assert listings[..i] == listings;
    }
  }

  /** A listing the loop body gets through without an IndexError or
      AttributeError: two airline `<p>`s when the block exists, two time
      headings, four time-tile `<p>`s when the tile exists, and the amount and
      offers when there is a price block. */
  predicate WellFormed(l: Listing)
  {
    && (l.airlineInfo.Some? ==> |l.airlineInfo.value| >= 2)
    && |l.times| >= 2
    && (l.timeTile.Some? ==> |l.timeTile.value| >= 4)
    && (l.priceBlock.Some? ==> l.priceBlock.value.amount.Some? && l.priceBlock.value.offers.Some?)
  }

  /** What a record takes from its own listing: the stripped time headings, the
      badge text or "Standard" as flight type, the badge text or `None` as extra
      badges, no layover, and the stripped price and offers or `None`. */
  predicate OwnFields(l: Listing, f: IxigoFlight)
  {
    && WellFormed(l)
    && f.departureTime == Strip(l.times[0]) && f.arrivalTime == Strip(l.times[1])
    && f.flightType == BadgeText(l).GetOr(Standard)
    && f.extraBadges == (if BadgeText(l).Some? then Str(BadgeText(l).value) else Null)
    && f.layoverDuration == Null && f.layoverCity == Null
    && f.price == (if l.priceBlock.Some? then Str(Strip(l.priceBlock.value.amount.value)) else Null)
    && f.offers == (if l.priceBlock.Some? then Str(Strip(l.priceBlock.value.offers.value)) else Null)
  }

  /** The airline, flight number, cities and duration a record takes from its
      listing's airline block and time tile, when they exist. */
  predicate ReadFields(l: Listing, f: IxigoFlight)
  {
    && (l.airlineInfo.Some? ==>
          |l.airlineInfo.value| >= 2 && f.airline == l.airlineInfo.value[0] && f.flightNo == l.airlineInfo.value[1])
    && (l.timeTile.Some? ==>
          && |l.timeTile.value| >= 4 && f.departureCity == Strip(l.timeTile.value[0])
          && f.duration == Strip(l.timeTile.value[1]) && f.arrivalCity == Strip(l.timeTile.value[3]))
  }

  /** A listing without an airline block or time tile repeats those fields of
      the previous record. */
  predicate KeptFields(l: Listing, prev: IxigoFlight, f: IxigoFlight)
  {
    && (l.airlineInfo.None? ==> f.airline == prev.airline && f.flightNo == prev.flightNo)
    && (l.timeTile.None? ==> f.departureCity == prev.departureCity && f.duration == prev.duration
                             && f.arrivalCity == prev.arrivalCity)
  }

  /** The variables as a record leaves them. */
  function CarriedOf(f: IxigoFlight): Carried
  {
    Carried(Some(f.airline), Some(f.flightNo), Some(f.departureCity), Some(f.duration), Some(f.arrivalCity))
  }

  /** One listing: it passes exactly when it is well formed and every carried
      variable is assigned by it or before it; its record reads its own fields
      and repeats the carried ones it does not assign, and the variables then
      hold that record's values. */
  lemma StepFields(c: Carried, l: Listing)
    ensures ListingStep(c, l).Success? <==>
              && WellFormed(l)
              && (l.airlineInfo.None? ==> c.airline.Some? && c.flightNo.Some?)
              && (l.timeTile.None? ==> c.departureCity.Some? && c.duration.Some? && c.arrivalCity.Some?)
    ensures ListingStep(c, l).Success? ==>
              var f := ListingStep(c, l).value.flight;
              && OwnFields(l, f) && ReadFields(l, f)
              && (l.airlineInfo.None? ==> c.airline == Some(f.airline) && c.flightNo == Some(f.flightNo))
              && (l.timeTile.None? ==> c.departureCity == Some(f.departureCity) && c.duration == Some(f.duration)
                                       && c.arrivalCity == Some(f.arrivalCity))
              && ListingStep(c, l).value.carried == CarriedOf(f)
  {
  }

  /** The records `st` holds after `listings`: one per listing, each reading its
      own listing and repeating what its listing does not assign from the record
      before, with the variables holding the last record's values. */
  predicate Traced(listings: seq<Listing>, st: ScanState)
  {
    && |st.records| == |listings|
    && (listings == [] ==> st.carried == Unassigned)
    && (listings != [] ==> st.carried == CarriedOf(st.records[|listings| - 1]))
    && (forall i :: 0 <= i < |listings| ==> OwnFields(listings[i], st.records[i]))
    && (forall i :: 0 <= i < |listings| ==> ReadFields(listings[i], st.records[i]))
    && (forall i :: 0 < i < |listings| ==> KeptFields(listings[i], st.records[i - 1], st.records[i]))
  }

  lemma TracedSnoc(listings: seq<Listing>, st: ScanState, l: Listing, f: IxigoFlight)
    requires Traced(listings, st) && OwnFields(l, f) && ReadFields(l, f)
    requires l.airlineInfo.None? ==> st.carried.airline == Some(f.airline) && st.carried.flightNo == Some(f.flightNo)
    requires l.timeTile.None? ==> st.carried.departureCity == Some(f.departureCity) && st.carried.duration == Some(f.duration)
                                  && st.carried.arrivalCity == Some(f.arrivalCity)
    ensures Traced(listings + [l], ScanState(CarriedOf(f), st.records + [f]))
  {
    var ls := listings + [l];
    var rs := st.records + [f];
    var n := |listings|;
    forall i | 0 <= i <= n
      ensures OwnFields(ls[i], rs[i]) && ReadFields(ls[i], rs[i])
    {
      if i < n {
        assert ls[i] == listings[i] && rs[i] == st.records[i];
      }
    }
    forall i | 0 < i <= n
      ensures KeptFields(ls[i], rs[i - 1], rs[i])
    {
      if i < n {
        assert ls[i] == listings[i] && rs[i] == st.records[i] && rs[i - 1] == st.records[i - 1];
      } else {
        assert rs[i - 1] == st.records[n - 1];
      }
    }
  }

  /** The listing loop after its last listing, from the loop before it. */
  lemma ScanLast(listings: seq<Listing>)
    requires listings != []
    ensures var n := |listings| - 1;
            Scan(listings) ==
              match Scan(listings[..n])
              case Failure(e) => Failure(e)
              case Success(st) =>
                match ListingStep(st.carried, listings[n])
                case Failure(e) => Failure(e)
                case Success(step) => Success(ScanState(step.carried, st.records + [step.flight]))
  {
  }

  /** Every listing is well formed and the first one has both an airline block
      and a time tile. */
  predicate Completes(listings: seq<Listing>)
  {
    && (forall i :: 0 <= i < |listings| ==> WellFormed(listings[i]))
    && (listings != [] ==> listings[0].airlineInfo.Some? && listings[0].timeTile.Some?)
  }

  lemma CompletesSnoc(init: seq<Listing>, l: Listing)
    ensures Completes(init + [l]) <==>
              Completes(init) && WellFormed(l) && (init == [] ==> l.airlineInfo.Some? && l.timeTile.Some?)
  {
    var ls := init + [l];
    assert ls[|init|] == l;
    if init != [] {
      assert ls[0] == init[0];
    }
    if Completes(init) && WellFormed(l) {
      forall i | 0 <= i < |ls|
        ensures WellFormed(ls[i])
      {
        if i < |init| {
          assert ls[i] == init[i];
        }
      }
    }
    if Completes(ls) {
      forall i | 0 <= i < |init|
        ensures WellFormed(init[i])
      {
        assert ls[i] == init[i];
      }
    }
  }

  /** The listing loop completes exactly when every listing is well formed and
      the first one has both an airline block and a time tile: every carried
      variable is then assigned before it is read. */
  lemma {:induction false} ScanSucceeds(listings: seq<Listing>)
    ensures Scan(listings).Success? <==> Completes(listings)
  {
    if listings != [] {
      var n := |listings| - 1;
      var init := listings[..n];
      assert init + [listings[n]] == listings;
      ScanLast(listings);
      ScanSucceeds(init);
      CompletesSnoc(init, listings[n]);
      if Scan(init).Success? {
        var st := Scan(init).value;
        ScanRecords(init);
        StepFields(st.carried, listings[n]);
        if n == 0 {
          assert st.carried == Unassigned;
        } else {
          assert st.carried == CarriedOf(st.records[n - 1]);
        }
      }
    }
  }

  /** A completed listing loop holds one record per listing, as `Traced` says. */
  lemma {:induction false} ScanRecords(listings: seq<Listing>)
    ensures Scan(listings).Success? ==> Traced(listings, Scan(listings).value)
  {
    if listings != [] {
      var n := |listings| - 1;
      var init := listings[..n];
      ScanLast(listings);
      ScanRecords(init);
      assert init + [listings[n]] == listings;
      if Scan(init).Success? && ListingStep(Scan(init).value.carried, listings[n]).Success? {
        var st := Scan(init).value;
        StepFields(st.carried, listings[n]);
        TracedSnoc(init, st, listings[n], ListingStep(st.carried, listings[n]).value.flight);
      }
    }
  }

  /** A page's extraction completes exactly when every listing after the first
      is well formed and the second has both an airline block and a time tile:
      a listing with fewer than two time headings is not skipped but ends the
      page. The page then gives one record per listing after the first. */
  lemma ExtractedRecords(listings: seq<Listing>)
    ensures Extracted(listings).Success? <==> Completes(DropFirst(listings))
    ensures Extracted(listings).Success? ==>
              var records := Extracted(listings).value;
              && |records| == (if listings == [] then 0 else |listings| - 1)
              && (forall i :: 0 <= i < |records| ==>
                    OwnFields(listings[i + 1], records[i]) && ReadFields(listings[i + 1], records[i]))
              && (forall i :: 0 < i < |records| ==> KeptFields(listings[i + 1], records[i - 1], records[i]))
  {
    var rest := DropFirst(listings);
    ScanSucceeds(rest);
    ScanRecords(rest);
    assert forall i :: 0 <= i < |rest| ==> rest[i] == listings[i + 1];
  }

  /** The first listing is never read: any other first listing gives the same result. */
  lemma FirstListingDropped(first: Listing, other: Listing, rest: seq<Listing>)
    ensures Extracted([first] + rest) == Extracted([other] + rest)
  {
    assert DropFirst([first] + rest) == rest == DropFirst([other] + rest);
  }

  /** The records of pages that were all read, in page order. */
  function Concat(outcomes: seq<PageOutcome>): seq<IxigoFlight>
  {
    if outcomes == [] then []
    else
      (if outcomes[0].Some? && outcomes[0].value.Success? then outcomes[0].value.value else [])
      + Concat(outcomes[1..])
  }

  /** Reading stops at the first unreadable page: every page before it was read
      without an exception. A run that reads every page collects their records
      in page order. */
  lemma {:induction false} GatherStops(outcomes: seq<PageOutcome>)
    ensures Gather(outcomes).Success? && Gather(outcomes).value.Unreadable? ==>
              var k := Gather(outcomes).value.index;
              && k < |outcomes| && outcomes[k].None?
              && forall j :: 0 <= j < k ==> outcomes[j].Some? && outcomes[j].value.Success?
    ensures Gather(outcomes).Success? && Gather(outcomes).value.Read? ==>
              && (forall j :: 0 <= j < |outcomes| ==> outcomes[j].Some? && outcomes[j].value.Success?)
              && Gather(outcomes).value.flights == Concat(outcomes)
  {
    if outcomes != [] && outcomes[0].Some? && outcomes[0].value.Success? {
      GatherStops(outcomes[1..]);
      assert forall j :: 0 < j < |outcomes| ==> outcomes[j] == outcomes[1..][j - 1];
    }
  }

  /** What reading the pages gives: the index of the first unreadable page, or
      the records of all of them in page order. */
  datatype Gathered = Unreadable(index: nat) | Read(flights: seq<IxigoFlight>)

  /** What a page yields: `None` when it cannot be read, else its extraction. */
  type PageOutcome = Option<Result<seq<IxigoFlight>, PyError>>

  function Outcomes(pages: seq<IxigoPage>): (outcomes: seq<PageOutcome>)
    ensures |outcomes| == |pages|
    ensures forall i :: 0 <= i < |pages| ==>
              outcomes[i] == if pages[i].None? then None else Some(Extracted(pages[i].value))
  {
    seq(|pages|, i requires 0 <= i < |pages| => if pages[i].None? then None else Some(Extracted(pages[i].value)))
  }

  /** The pages read in turn: the first unreadable page or exception ends it. */
  function Gather(outcomes: seq<PageOutcome>): Result<Gathered, PyError>
  {
    if outcomes == [] then Success(Read([]))
    else if outcomes[0].None? then Success(Unreadable(0))
    else
      match outcomes[0].value
      case Failure(e) => Failure(e)
      case Success(fs) =>
        match Gather(outcomes[1..])
        case Failure(e) => Failure(e)
        case Success(Unreadable(i)) => Success(Unreadable(i + 1))
        case Success(Read(rest)) => Success(Read(fs + rest))
  }

  /** What follows from reading the first pages into `acc`: the rest's result,
      shifted past those pages and after `acc`. */
  function Continue(acc: seq<IxigoFlight>, i: nat, rest: Result<Gathered, PyError>): Result<Gathered, PyError>
  {
    match rest
    case Failure(e) => Failure(e)
    case Success(Unreadable(j)) => Success(Unreadable(i + j))
    case Success(Read(fs)) => Success(Read(acc + fs))
  }

  /** How a run of `parse_flight_data` ends without raising: it returns at an
      unreadable page, or it prints the deduplicated records. */
  datatype IxigoRun = StoppedAt(index: nat) | Printed(flights: seq<map<string, Value>>)

  /** `[dict(fs) for fs in set(frozenset(d.items()) for d in flight_data)]`:
      every record's items once. The set's iteration order is not specified,
      so only the contents are promised. */
  method Deduplicate(flightData: seq<IxigoFlight>) returns (unique: seq<map<string, Value>>)
    ensures Distinct(unique)
    ensures forall m :: m in unique <==> exists k :: 0 <= k < |flightData| && m == ItemsOf(flightData[k])
  {
    var items := seq(|flightData|, k requires 0 <= k < |flightData| => ItemsOf(flightData[k]));
    unique := FirstOccurrences(items);
    forall k | 0 <= k < |flightData|
      ensures ItemsOf(flightData[k]) in unique
    {
      assert items[k] in items;
    }
    forall m | m in unique
      ensures exists k :: 0 <= k < |flightData| && m == ItemsOf(flightData[k])
    {
      var k :| 0 <= k < |items| && items[k] == m;
    }
  }

  /** Reading page `i` after the pages before it: an unreadable page stops the
      run there, a page whose extraction raises ends it with that exception, and
      otherwise its records follow those collected so far. */
  lemma GatherStep(outcomes: seq<PageOutcome>, i: nat, acc: seq<IxigoFlight>)
    requires i < |outcomes|
    ensures outcomes[i].None? ==> Continue(acc, i, Gather(outcomes[i..])) == Success(Unreadable(i))
    ensures outcomes[i].Some? && outcomes[i].value.Failure? ==>
              Continue(acc, i, Gather(outcomes[i..])) == Failure(outcomes[i].value.error)
    ensures outcomes[i].Some? && outcomes[i].value.Success? ==>
              Continue(acc, i, Gather(outcomes[i..])) == Continue(acc + outcomes[i].value.value, i + 1, Gather(outcomes[i + 1..]))
  {
    var here := outcomes[i..];
    assert here[0] == outcomes[i] && here[1..] == outcomes[i + 1..];
    if outcomes[i].Some? && outcomes[i].value.Success? {
      var fs := outcomes[i].value.value;
      match Gather(outcomes[i + 1..]) {
        case Failure(_) =>
        case Success(Unreadable(j)) =>
        case Success(Read(rest)) =>
          assert acc + (fs + rest) == (acc + fs) + rest;
      }
    }
  }

  /** `parse_flight_data`: the pages in turn, stopping at the first unreadable one
      without printing; an exception while extracting leaves the function. */
  method ParseFlightData(pages: seq<IxigoPage>) returns (run: Result<IxigoRun, PyError>)
    ensures var g := Gather(Outcomes(pages));
            && (g.Failure? ==> run == Failure(g.error))
            && (g.Success? && g.value.Unreadable? ==> run == Success(StoppedAt(g.value.index)))
            && (g.Success? && g.value.Read? ==>
                  && run.Success? && run.value.Printed?
                  && Distinct(run.value.flights)
                  && forall m :: m in run.value.flights <==>
                       exists k :: 0 <= k < |g.value.flights| && m == ItemsOf(g.value.flights[k]))
  {
    ghost var outcomes := Outcomes(pages);
    var flightData: seq<IxigoFlight> := [];
    assert outcomes[0..] == outcomes;
    assert Gather(outcomes).Success? && Gather(outcomes).value.Read? ==>
             [] + Gather(outcomes).value.flights == Gather(outcomes).value.flights;
    for i := 0 to |pages|
      invariant Gather(outcomes) == Continue(flightData, i, Gather(outcomes[i..]))
    {
      GatherStep(outcomes, i, flightData);
      if pages[i].None? {
        return Success(StoppedAt(i));
      }
      var extracted := ExtractFlightData(pages[i].value);
      if extracted.Failure? {
        return Failure(extracted.error);
      }
      flightData := flightData + extracted.value;
    }
    assert outcomes[|pages|..] == [];
    assert flightData + [] == flightData;
    var unique := Deduplicate(flightData);
    return Success(Printed(unique));
  }
}
