/** The commands that do their own multi-collection updates (commands/AddFlight.java,
    commands/AddBooking.java, commands/EditBooking.java) and the two per-customer
    booking reports (commands/ShowBooking.java, commands/ShowCustomer.java).
    A command whose fields are all final is a datatype value with an Execute
    method; a report keeps a growing result buffer and so is a class. */
module Commands {
  import opened Common
  import opened Text
  import opened Ordered
  import opened Entities
  import opened Registry

  // ---------------------------------------------------------------- AddFlight

  /** The largest flight id in fs, or 0 when there is none (AddFlight's maxId). */
  function MaxId(fs: seq<Flight>): (m: int)
    reads fs
    ensures m >= 0
    ensures forall i :: 0 <= i < |fs| ==> fs[i].id <= m
    ensures m == 0 || exists i :: 0 <= i < |fs| && fs[i].id == m
  {
    if fs == [] then 0 else Max(MaxId(fs[..|fs| - 1]), fs[|fs| - 1].id)
  }

  /** AddFlight's scan over getFlights(): maxId starts at 0 and is raised to
      every larger id met. */
  method LargestId(fs: seq<Flight>) returns (maxId: int)
    ensures maxId == MaxId(fs)
  {
    maxId := 0;
    for i := 0 to |fs|
      invariant maxId == MaxId(fs[..i])
    {
      assert fs[..i + 1][..i] == fs[..i];
      if fs[i].id > maxId {
        maxId := fs[i].id;
      }
    }
    assert fs[..|fs|] == fs;
  }

  /** The largest id of a listing of the map's values bounds every stored
      flight's id and, unless it is 0, is the id of a stored flight. */
  lemma ListedIds(m: map<int, Flight>, fs: seq<Flight>)
    requires InKeyOrder(m, fs)
    ensures forall k :: k in m ==> m[k].id <= MaxId(fs)
    ensures MaxId(fs) == 0 || exists k :: k in m && m[k].id == MaxId(fs)
  {
    InKeyOrderValues(m, fs);
    assert forall k :: k in m ==> m[k] in m.Values;
    if MaxId(fs) != 0 {
      var i :| 0 <= i < |fs| && fs[i].id == MaxId(fs);
      var k := SortedKeys(m.Keys)[i];
      assert k in m && m[k] == fs[i];
    }
  }

  /** The id AddFlight.execute gives a new flight: ++maxId on an int, so one
      more than the largest id getFlights() lists (1 when there are no flights),
      which exceeds every stored flight's id, unless that largest id is the
      largest int, when it wraps around to the smallest. */
  method NextFlightId(fbs: FlightBookingSystem) returns (id: int)
    ensures (forall k :: k in fbs.flights ==> fbs.flights[k].id < MaxInt) ==>
              id >= 1 && (forall k :: k in fbs.flights ==> fbs.flights[k].id < id)
              && (id == 1 || exists k :: k in fbs.flights && fbs.flights[k].id == id - 1)
    ensures ((forall k :: k in fbs.flights ==> fbs.flights[k].id <= MaxInt)
             && (exists k :: k in fbs.flights && fbs.flights[k].id == MaxInt)) ==> id == MinInt
  {
    var listing := fbs.GetFlights();
    var maxId := LargestId(listing);
    ListedIds(fbs.flights, listing);
    id := AddInt(maxId, 1);
    if maxId < MaxInt {
      assert IsInt32(maxId + 1);
    } else if maxId == MaxInt {
      AddOneWraps();
    }
  }

  /** The arguments of an AddFlight command, after its constructor accepted them. */
  datatype AddFlight = AddFlight(flightNumber: string, origin: string, destination: string,
                                 departureDate: Date, capacity: int, price: Price)
  {
    /** execute: the new flight's id is one more than the largest existing id
        (1 for an empty registry), wrapping around to the smallest int after the
        largest; the flight goes through addFlight, whose failure is re-wrapped. */
    method Execute(fbs: FlightBookingSystem) returns (s: Status, ghost f: Flight)
      modifies fbs`flights
      ensures fresh(f) && f.passengers == {} && f.bookings == {}
      ensures f.flightNumber == flightNumber && f.origin == origin && f.destination == destination
      ensures f.departureDate == departureDate && f.capacity == capacity && f.price == price
      ensures (forall k :: k in old(fbs.flights) ==> old(fbs.flights)[k].id < MaxInt) ==>
                f.id >= 1 && (forall k :: k in old(fbs.flights) ==> old(fbs.flights)[k].id < f.id)
                && (f.id == 1 || exists k :: k in old(fbs.flights) && old(fbs.flights)[k].id == f.id - 1)
                && (old(fbs.FlightKeysMatchIds()) ==> s == Done)
      ensures ((forall k :: k in old(fbs.flights) ==> old(fbs.flights)[k].id <= MaxInt)
               && (exists k :: k in old(fbs.flights) && old(fbs.flights)[k].id == MaxInt)) ==> f.id == MinInt
      ensures s == Done <==> f.id !in old(fbs.flights)
      ensures s == Done ==>
        fbs.flights == old(fbs.flights)[f.id := f] && |fbs.flights| == |old(fbs.flights)| + 1
      ensures s != Done ==>
        s == Failed(AddFlightFailed(FlightIdExists(f.id))) && fbs.flights == old(fbs.flights)
      ensures old(fbs.FlightKeysMatchIds()) ==> fbs.FlightKeysMatchIds()
    {
      var id := NextFlightId(fbs);
      var nf := new Flight(id, flightNumber, origin, destination, departureDate, capacity, price);
      var added := fbs.AddFlight(nf);
      f := nf;
      if added.Failed? {
        return Failed(AddFlightFailed(added.error)), f;
      }
      s := Done;
    }
  }

  /** AddFlight's constructor: a null flight number, origin, destination or
      departure date is refused; capacity and price cannot be null. */
  function NewAddFlight(flightNumber: Option<string>, origin: Option<string>,
                        destination: Option<string>, departureDate: Option<Date>,
                        capacity: int, price: Price): (r: Result<AddFlight>)
    ensures r.Ok? <==> flightNumber.Some? && origin.Some? && destination.Some? && departureDate.Some?
    ensures r.Ok? ==>
      r.value.flightNumber == flightNumber.value && r.value.origin == origin.value
      && r.value.destination == destination.value && r.value.departureDate == departureDate.value
      && r.value.capacity == capacity && r.value.price == price
    ensures r.Err? ==> r.error == InvalidArguments
  {
    if flightNumber.None? || origin.None? || destination.None? || departureDate.None? then
      Err(InvalidArguments)
    else
      Ok(AddFlight(flightNumber.value, origin.value, destination.value, departureDate.value,
                   capacity, price))
  }

  // --------------------------------------------------------------- AddBooking

  /** An AddBooking command: a customer id and a flight id. */
  datatype AddBooking = AddBooking(customerId: int, flightId: int)
  {
    /** execute: both lookups first, then a booking dated today is created (taking
        an id) and appended to the master list BEFORE the customer's duplicate
        check; only an accepted booking reaches the flight's sets. Every
        FlightBookingSystemException is caught; the status says which outcome
        the console message reports. */
    method Execute(fbs: FlightBookingSystem, today: Date) returns (s: Status, ghost nb: Option<Booking>)
      modifies fbs`bookings, fbs.ids`lastBookingId
      modifies At(fbs.customers, customerId)`bookings
      modifies At(fbs.flights, flightId)`passengers, At(fbs.flights, flightId)`bookings
      ensures customerId !in old(fbs.customers) ==>
        s == Failed(NoCustomerWithId) && nb == None
        && fbs.bookings == old(fbs.bookings) && fbs.ids.lastBookingId == old(fbs.ids.lastBookingId)
        && unchanged(At(fbs.flights, flightId))
      ensures customerId in old(fbs.customers) && flightId !in old(fbs.flights) ==>
        s == Failed(NoFlightWithId) && nb == None
        && fbs.bookings == old(fbs.bookings) && fbs.ids.lastBookingId == old(fbs.ids.lastBookingId)
        && unchanged(fbs.customers[customerId])
      ensures customerId in old(fbs.customers) && flightId in old(fbs.flights) ==>
        var c := old(fbs.customers)[customerId]; var f := old(fbs.flights)[flightId];
        nb.Some? && fresh(nb.value)
        && nb.value.id == old(fbs.ids.lastBookingId) + 1 && fbs.ids.lastBookingId == nb.value.id
        && nb.value.customer == c && nb.value.flight == f && nb.value.bookingDate == today
        && nb.value.price == ZeroPrice && !nb.value.cancelled
        && fbs.bookings == old(fbs.bookings) + [nb.value]
        && (old(HoldsFlight(c.bookings, f)) ==>
              s == Failed(AlreadyBookedOnFlight) && c.bookings == old(c.bookings)
              && f.passengers == old(f.passengers) && f.bookings == old(f.bookings))
        && (!old(HoldsFlight(c.bookings, f)) ==>
              s == Done && c.bookings == old(c.bookings) + [nb.value]
              && f.passengers == old(f.passengers) + {c} && f.bookings == old(f.bookings) + {nb.value})
    {
      var cr := fbs.GetCustomerById(customerId);
      if cr.Err? {
        return Failed(cr.error), None;
      }
      var fr := fbs.GetFlightById(flightId);
      if fr.Err? {
        return Failed(fr.error), None;
      }
      var booking := Book(fbs, cr.value, fr.value, today);
      s, nb := booking.0, Some(booking.1);
    }
  }

  /** The mutation sequence of AddBooking.execute once both lookups succeeded. */
  method Book(fbs: FlightBookingSystem, c: Customer, f: Flight, today: Date)
    returns (r: (Status, Booking))
    modifies fbs`bookings, fbs.ids`lastBookingId, c`bookings, f`passengers, f`bookings
    ensures var (s, b) := r;
      fresh(b) && b.id == old(fbs.ids.lastBookingId) + 1 && fbs.ids.lastBookingId == b.id
      && b.customer == c && b.flight == f && b.bookingDate == today
      && b.price == ZeroPrice && !b.cancelled
      && fbs.bookings == old(fbs.bookings) + [b]
      && (old(HoldsFlight(c.bookings, f)) ==>
            s == Failed(AlreadyBookedOnFlight) && c.bookings == old(c.bookings)
            && f.passengers == old(f.passengers) && f.bookings == old(f.bookings))
      && (!old(HoldsFlight(c.bookings, f)) ==>
            s == Done && c.bookings == old(c.bookings) + [b]
            && f.passengers == old(f.passengers) + {c} && f.bookings == old(f.bookings) + {b})
  {
    var b := new Booking(fbs.ids, c, f, today);
    fbs.AddBooking(b);
    var added := c.AddBooking(b);
    if added.Failed? {
      return (Failed(added.error), b);
    }
    f.AddPassenger(c);
    f.AddBookingForCustomer(b);
    return (Done, b);
  }

  // -------------------------------------------------------------- EditBooking

  /** An EditBooking command: a booking id and the id of the flight to move it to. */
  datatype EditBooking = EditBooking(bookingId: int, flightId: int)
  {
    /** execute: an unknown booking id or an unknown target flight ends the command
        before any change; otherwise the booking is moved exactly as the
        registry's editBooking moves it. The target flight is not checked for
        another booking of the same customer. */
    method Execute(fbs: FlightBookingSystem, today: Date) returns (s: Status, ghost nb: Option<Booking>)
      modifies fbs`bookings, fbs.ids`lastBookingId
      modifies (set b | b in fbs.bookings && b.id == bookingId :: b.flight)`passengers
      modifies (set b | b in fbs.bookings && b.id == bookingId :: b.flight)`bookings
      modifies (set b | b in fbs.bookings && b.id == bookingId :: b.customer)`bookings
      modifies At(fbs.flights, flightId)`passengers, At(fbs.flights, flightId)`bookings
      ensures FirstWithId(old(fbs.bookings), bookingId) == |old(fbs.bookings)| ==>
        s == Failed(BookingNotFound(bookingId)) && nb == None
        && fbs.bookings == old(fbs.bookings) && fbs.ids.lastBookingId == old(fbs.ids.lastBookingId)
        && unchanged(At(fbs.flights, flightId))
      ensures var k := FirstWithId(old(fbs.bookings), bookingId);
        k < |old(fbs.bookings)| && flightId !in old(fbs.flights) ==>
          var b := old(fbs.bookings)[k];
          s == Failed(NoFlightWithId) && nb == None
          && fbs.bookings == old(fbs.bookings) && fbs.ids.lastBookingId == old(fbs.ids.lastBookingId)
          && unchanged(b.flight, b.customer)
      ensures var k := FirstWithId(old(fbs.bookings), bookingId);
        k < |old(fbs.bookings)| && flightId in old(fbs.flights) ==>
          var b := old(fbs.bookings)[k]; var nf := old(fbs.flights)[flightId];
          s == Done && nb.Some? && fresh(nb.value)
          && nb.value.id == old(fbs.ids.lastBookingId) + 1 && fbs.ids.lastBookingId == nb.value.id
          && nb.value.customer == b.customer && nb.value.flight == nf
          && nb.value.bookingDate == today && nb.value.price == ZeroPrice && !nb.value.cancelled
          && fbs.bookings == Without(old(fbs.bookings), k) + [nb.value]
          && b.customer.bookings == RemoveFirst(old(b.customer.bookings), b)
          && (b.flight != nf ==>
                b.flight.passengers == old(b.flight.passengers) - {b.customer}
                && b.flight.bookings == old(b.flight.bookings) - {b}
                && nf.passengers == old(nf.passengers) + {b.customer}
                && nf.bookings == old(nf.bookings) + {nb.value})
          && (b.flight == nf ==>
                nf.passengers == old(nf.passengers) + {b.customer}
                && nf.bookings == old(nf.bookings) - {b} + {nb.value})
    {
      var found := fbs.GetBookingById(bookingId);
      if found.None? {
        return Failed(BookingNotFound(bookingId)), None;
      }
      var b := found.value;
      var target := fbs.GetFlightById(flightId);
      if target.Err? {
        return Failed(target.error), None;
      }
      var moved := fbs.MoveBooking(b, FirstWithId(fbs.bookings, bookingId), target.value, today);
      s, nb := Done, Some(moved);
    }
  }

  // ------------------------------------------------------ per-customer reports

  /** The bookings of bs whose customer has id cid, in list order. */
  function OfCustomer(bs: seq<Booking>, cid: int): (r: seq<Booking>)
    reads bs, set b | b in bs :: b.customer
    ensures |r| <= |bs|
    ensures forall i :: 0 <= i < |r| ==> r[i] in bs && r[i].customer.id == cid
    ensures forall i :: 0 <= i < |bs| && bs[i].customer.id == cid ==> bs[i] in r
  {
    if bs == [] then []
    else
      var last := bs[|bs| - 1];
      OfCustomer(bs[..|bs| - 1], cid) + (if last.customer.id == cid then [last] else [])
  }

  /** Filtering a concatenation filters each part, so the report keeps the
      relative order of the master list. */
  lemma {:induction false} OfCustomerAppend(a: seq<Booking>, b: seq<Booking>, cid: int)
    ensures OfCustomer(a + b, cid) == OfCustomer(a, cid) + OfCustomer(b, cid)
    decreases |b|
  {
    if b == [] {
      assert a + b == a;
    } else {
      var n := |b| - 1;
      assert (a + b)[..|a + b| - 1] == a + b[..n];
      OfCustomerAppend(a, b[..n], cid);
    }
  }

  lemma OfCustomerStep(bs: seq<Booking>, i: nat, cid: int)
    requires i < |bs|
    ensures bs[i].customer.id == cid ==> OfCustomer(bs[..i + 1], cid) == OfCustomer(bs[..i], cid) + [bs[i]]
    ensures bs[i].customer.id != cid ==> OfCustomer(bs[..i + 1], cid) == OfCustomer(bs[..i], cid)
  {
    assert bs[..i + 1][..i] == bs[..i];
    assert OfCustomer(bs[..i], cid) + [] == OfCustomer(bs[..i], cid);
  }

  // The fixed texts of the two reports.
  const BookingIdLabel: string := "Booking ID: "
  const FlightDetailsRule: string := "----------Flight Details------------- \n"
  const IdLabel: string := "ID: "
  const FlightNoLabel: string := "Flight no: "
  const OriginLabel: string := "Origin: "
  const DestinationLabel: string := "Destination: "
  const SeatsLabel: string := "Number of seats: "
  const PriceLabel: string := "Price: "
  const DepartureLabel: string := "Departure Date: "
  const BookingDateLabel: string := "* Booking date: "
  const ForFlightLabel: string := " for Flight #"
  const Dash: string := " - "
  const ToLabel: string := " to "
  const OnLabel: string := " on "
  const BookingsSuffix: string := " booking(s)\n"
  const NoFlightsBooked: string := "No flights booked with customerID #"
  const NoBookingsFound: string := "No bookings found.\n"

  /** The count line that closes a report; the empty-report line differs between
      ShowBooking and ShowCustomer. */
  function CountLine(n: nat, none: string): string
  {
    if n == 0 then none else IntToString(n) + BookingsSuffix
  }

  /** What a report prints about one booking: its id and date and its flight's
      fields, as they are when the report runs. */
  datatype Entry = Entry(bookingId: int, bookingDate: Date, flightId: int, flightNumber: string,
                         origin: string, destination: string, departureDate: Date,
                         capacity: int, price: Price)

  function EntryOf(b: Booking): Entry
    reads b, b.flight
  {
    var f := b.flight;
    Entry(b.id, b.bookingDate, f.id, f.flightNumber, f.origin, f.destination, f.departureDate,
          f.capacity, f.price)
  }

  /** The entries of bs, one per booking, in list order. */
  function EntriesOf(bs: seq<Booking>): (r: seq<Entry>)
    reads bs, set b | b in bs :: b.flight
    ensures |r| == |bs| && forall i :: 0 <= i < |bs| ==> r[i] == EntryOf(bs[i])
  {
    if bs == [] then [] else EntriesOf(bs[..|bs| - 1]) + [EntryOf(bs[|bs| - 1])]
  }

  /** Filtering reads nothing but the bookings and their customers. */
  twostate lemma OfCustomerKept(bs: seq<Booking>)
    requires forall b :: b in bs ==> unchanged(b) && unchanged(old(b.customer))
    ensures forall cid :: OfCustomer(bs, cid) == old(OfCustomer(bs, cid))
  {
  }

  /** The entries read nothing but the bookings and their flights. */
  twostate lemma EntriesKept(bs: seq<Booking>)
    requires forall b :: b in bs ==> unchanged(b) && unchanged(old(b.flight))
    ensures EntriesOf(bs) == old(EntriesOf(bs))
  {
  }

  /** One booking in ShowBooking's layout. */
  function FlightDetails(e: Entry): (s: string)
    ensures |s| > |BookingIdLabel| + 2 && s[..|BookingIdLabel|] == BookingIdLabel && s[|s| - 2..] == "\n\n"
  {
    var body := IntToString(e.bookingId) + "\n"
      + FlightDetailsRule
      + IdLabel + IntToString(e.flightId) + "\n"
      + FlightNoLabel + e.flightNumber + "\n"
      + OriginLabel + e.origin + "\n"
      + DestinationLabel + e.destination + "\n"
      + SeatsLabel + IntToString(e.capacity) + "\n"
      + PriceLabel + e.price.text + "\n"
      + DepartureLabel + FormatDate(e.departureDate);
    Framed(BookingIdLabel, body, "\n\n");
    BookingIdLabel + body + "\n\n"
  }

  function FlightDetailsAll(es: seq<Entry>): string
  {
    if es == [] then "" else FlightDetailsAll(es[..|es| - 1]) + FlightDetails(es[|es| - 1])
  }

  /** One booking in ShowCustomer's layout. */
  function BookingLine(e: Entry): (s: string)
    ensures |s| > |BookingDateLabel| && s[..|BookingDateLabel|] == BookingDateLabel && s[|s| - 1] == '\n'
  {
    var body := FormatDate(e.bookingDate) + ForFlightLabel + IntToString(e.flightId)
      + Dash + e.flightNumber + Dash + e.origin + ToLabel + e.destination
      + OnLabel + FormatDate(e.departureDate);
    Framed(BookingDateLabel, body, "\n");
    BookingDateLabel + body + "\n"
  }

  function BookingLines(es: seq<Entry>): string
  {
    if es == [] then "" else BookingLines(es[..|es| - 1]) + BookingLine(es[|es| - 1])
  }

  /** The loop both reports run over the master list: the bookings whose
      customer has id cid, in list order, and their count. */
  method CustomerBookings(bs: seq<Booking>, cid: int) returns (mine: seq<Booking>, count: nat)
    ensures mine == OfCustomer(bs, cid) && count == |mine|
  {
    mine, count := [], 0;
    for i := 0 to |bs|
      invariant mine == OfCustomer(bs[..i], cid) && count == |mine|
    {
      OfCustomerStep(bs, i, cid);
      if bs[i].customer.id == cid {
        mine := mine + [bs[i]];
        count := count + 1;
      }
    }
    assert bs[..|bs|] == bs;
  }

  /** ShowBooking's text: the customer's long details, the entries, the count line. */
  function BookingReportText(details: string, es: seq<Entry>, cid: int): string
  {
    details + "\n" + FlightDetailsAll(es) + CountLine(|es|, NoFlightsBooked + IntToString(cid) + ".\n")
  }

  /** ShowCustomer's text: the customer's long details, the lines, the count line. */
  function CustomerReportText(details: string, es: seq<Entry>): string
  {
    details + "\n" + BookingLines(es) + CountLine(|es|, NoBookingsFound)
  }

  /** The ShowBooking command: the bookings of one customer, with flight details. */
  class ShowBooking {
    const customerId: int
    var result: string

    constructor(customerId: int)
      ensures this.customerId == customerId && result == ""
    {
      this.customerId := customerId;
      result := "";
    }

    /** execute: an unknown customer makes getCustomerByID throw, so the source's
        "is not found" text is never produced. Otherwise the customer's long
        details, one entry per master-list booking of that customer id, and the
        count line are appended to what earlier executes left in the buffer. */
    method Execute(fbs: FlightBookingSystem) returns (s: Status)
      modifies this`result
      ensures customerId !in fbs.customers ==> s == Failed(NoCustomerWithId) && result == old(result)
      ensures customerId in fbs.customers ==>
        s == Done
        && result == old(result) + BookingReportText(fbs.customers[customerId].DetailsLong(),
                                                      EntriesOf(OfCustomer(fbs.bookings, customerId)),
                                                      customerId)
    {
      var found := fbs.GetCustomerById(customerId);
      if found.Err? {
        return Failed(found.error);
      }
      var mine, count := CustomerBookings(fbs.bookings, customerId);
      var details := found.value.DetailsLong();
      var entries := EntriesOf(mine);
      var text := BookingReportText(details, entries, customerId);
      label Before:
      result := result + text;
      OfCustomerKept@Before(fbs.bookings);
      EntriesKept@Before(OfCustomer(fbs.bookings, customerId));
      assert fbs.customers[customerId].DetailsLong() == old@Before(fbs.customers[customerId].DetailsLong());
      s := Done;
    }
  }

  /** The ShowCustomer command: one customer and a line per booking. */
  class ShowCustomer {
    const customerId: int
    var result: string

    constructor(customerId: int)
      ensures this.customerId == customerId && result == ""
    {
      this.customerId := customerId;
      result := "";
    }

    /** execute: an unknown customer makes getCustomerByID throw before anything is
        appended. Otherwise the long details, one line per master-list booking of
        that customer id and the count line are appended to the buffer. */
    method Execute(fbs: FlightBookingSystem) returns (s: Status)
      modifies this`result
      ensures customerId !in fbs.customers ==> s == Failed(NoCustomerWithId) && result == old(result)
      ensures customerId in fbs.customers ==>
        s == Done
        && result == old(result) + CustomerReportText(fbs.customers[customerId].DetailsLong(),
                                                       EntriesOf(OfCustomer(fbs.bookings, customerId)))
    {
      var found := fbs.GetCustomerById(customerId);
      if found.Err? {
        return Failed(found.error);
      }
      var mine, count := CustomerBookings(fbs.bookings, customerId);
      var details := found.value.DetailsLong();
      var entries := EntriesOf(mine);
      var text := CustomerReportText(details, entries);
      label Before:
      result := result + text;
      OfCustomerKept@Before(fbs.bookings);
      EntriesKept@Before(OfCustomer(fbs.bookings, customerId));
      assert fbs.customers[customerId].DetailsLong() == old@Before(fbs.customers[customerId].DetailsLong());
      s := Done;
    }
  }
}
