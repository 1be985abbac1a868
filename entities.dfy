/** The three entity classes (model/Flight.java, model/Customer.java,
    model/Booking.java) and the process-wide id counters. Entities are compared
    by reference, as in the source, which overrides neither equals nor hashCode. */
module Entities {
  import opened Common
  import opened Text

  /** The two static counters of the source, Booking.lastID and
      FlightBookingSystem.nextCustomerId, as one object shared by every
      registry and every booking constructed in a run. */
  class Counters {
    var lastBookingId: int
    var nextCustomerId: int

    constructor()
      ensures lastBookingId == 0 && nextCustomerId == 1
    {
      lastBookingId := 0;
      nextCustomerId := 1;
    }

    /** FlightBookingSystem.getNextCustomerId: hands out the counter, then advances it. */
    method TakeCustomerId() returns (id: int)
      modifies this`nextCustomerId
      ensures id == old(nextCustomerId) && nextCustomerId == id + 1
    {
      id := nextCustomerId;
      nextCustomerId := nextCustomerId + 1;
    }
  }

  class Booking {
    const id: int               // there is no setter: fixed at construction
    var customer: Customer
    var flight: Flight
    var bookingDate: Date
    var date: Option<Date>      // declared by the source, never set by it
    var price: Price
    var cancelled: bool

    /** Takes the next booking id from the shared counter (++lastID). */
    constructor(ids: Counters, customer: Customer, flight: Flight, bookingDate: Date)
      modifies ids`lastBookingId
      ensures id == old(ids.lastBookingId) + 1 && ids.lastBookingId == id
      ensures this.customer == customer && this.flight == flight && this.bookingDate == bookingDate
      ensures date == None && price == ZeroPrice && !cancelled
    {
      ids.lastBookingId := ids.lastBookingId + 1;
      id := ids.lastBookingId;
      this.customer := customer;
      this.flight := flight;
      this.bookingDate := bookingDate;
      date := None;
      price := ZeroPrice;
      cancelled := false;
    }

    method SetCustomer(c: Customer)
      modifies this`customer
      ensures customer == c
    {
      customer := c;
    }

    method SetFlight(f: Flight)
      modifies this`flight
      ensures flight == f
    {
      flight := f;
    }

    method SetBookingDate(d: Date)
      modifies this`bookingDate
      ensures bookingDate == d
    {
      bookingDate := d;
    }

    method SetDate(d: Date)
      modifies this`date
      ensures date == Some(d)
    {
      date := Some(d);
    }

    method SetPrice(p: Price)
      modifies this`price
      ensures price == p
    {
      price := p;
    }

    method SetCancelled(c: bool)
      modifies this`cancelled
      ensures cancelled == c
    {
      cancelled := c;
    }
  }

  class Flight {
    var id: int
    var flightNumber: string
    var origin: string
    var destination: string
    var departureDate: Date
    var capacity: int
    var price: Price
    var passengers: set<Customer>
    var bookings: set<Booking>

    constructor(id: int, flightNumber: string, origin: string, destination: string,
                departureDate: Date, capacity: int, price: Price)
      ensures this.id == id && this.flightNumber == flightNumber
      ensures this.origin == origin && this.destination == destination
      ensures this.departureDate == departureDate && this.capacity == capacity && this.price == price
      ensures passengers == {} && bookings == {}
    {
      this.id := id;
      this.flightNumber := flightNumber;
      this.origin := origin;
      this.destination := destination;
      this.departureDate := departureDate;
      this.capacity := capacity;
      this.price := price;
      passengers := {};
      bookings := {};
    }

    method SetId(x: int)
      modifies this`id
      ensures id == x
    {
      id := x;
    }

    method SetFlightNumber(x: string)
      modifies this`flightNumber
      ensures flightNumber == x
    {
      flightNumber := x;
    }

    method SetOrigin(x: string)
      modifies this`origin
      ensures origin == x
    {
      origin := x;
    }

    method SetDestination(x: string)
      modifies this`destination
      ensures destination == x
    {
      destination := x;
    }

    method SetDepartureDate(x: Date)
      modifies this`departureDate
      ensures departureDate == x
    {
      departureDate := x;
    }

    method SetCapacity(x: int)
      modifies this`capacity
      ensures capacity == x
    {
      capacity := x;
    }

    method SetPrice(x: Price)
      modifies this`price
      ensures price == x
    {
      price := x;
    }

    /** getPassengers: a list copy of the passenger set, in no particular order. */
    method GetPassengers() returns (r: seq<Customer>)
      ensures forall c :: c in r <==> c in passengers
      ensures |r| == |passengers|
    {
      r := ListOf(passengers);
    }

    /** getBookings: a list copy of the booking set, in no particular order. */
    method GetBookings() returns (r: seq<Booking>)
      ensures forall b :: b in r <==> b in bookings
      ensures |r| == |bookings|
    {
      r := ListOf(bookings);
    }

    /** addBooking: the booking set only; the passengers are left alone. */
    method AddBooking(b: Booking)
      modifies this`bookings
      ensures bookings == old(bookings) + {b}
    {
      bookings := bookings + {b};
    }

    /** getDetailsShort. */
    function DetailsShort(): (s: string)
      reads this
      ensures |s| == |"Flight  from  to ."| + |flightNumber| + |origin| + |destination|
      ensures s[..7] == "Flight " && s[7..7 + |flightNumber|] == flightNumber && s[|s| - 1] == '.'
    {
      "Flight " + flightNumber + " from " + origin + " to " + destination + "."
    }

    /** addPassenger: set insertion; no capacity check. */
    method AddPassenger(c: Customer)
      modifies this`passengers
      ensures passengers == old(passengers) + {c}
    {
      passengers := passengers + {c};
    }

    /** addBookingForCustomer: the flight-side half of creating a booking. */
    method AddBookingForCustomer(b: Booking)
      modifies this`bookings, this`passengers
      ensures bookings == old(bookings) + {b}
      ensures passengers == old(passengers) + {b.customer}
    {
      bookings := bookings + {b};
      AddPassenger(b.customer);
    }

    /** removePassenger: set deletion. */
    method RemovePassenger(c: Customer)
      modifies this`passengers
      ensures passengers == old(passengers) - {c}
    {
      passengers := passengers - {c};
    }

    /** removeBooking: drops the booking and its customer, even when another
        booking of that customer is still in the booking set. */
    method RemoveBooking(b: Booking)
      modifies this`bookings, this`passengers
      ensures bookings == old(bookings) - {b}
      ensures passengers == old(passengers) - {b.customer}
    {
      bookings := bookings - {b};
      passengers := passengers - {b.customer};
    }
  }

  /** new ArrayList<>(set): every element once, in an unspecified order. */
  method ListOf<T>(s: set<T>) returns (r: seq<T>)
    ensures forall x :: x in r <==> x in s
    ensures |r| == |s|
  {
    r := [];
    var rest := s;
    while rest != {}
      invariant rest <= s
      invariant forall x :: x in r <==> x in s - rest
      invariant |r| == |s - rest|
      decreases |rest|
    {
      var x :| x in rest;
      assert s - (rest - {x}) == (s - rest) + {x};
      r := r + [x];
      rest := rest - {x};
    }
  }

  /** No operation consults capacity: a flight of capacity 0 takes a passenger. */
  method OverbookedFlight(d: Date, p: Price) returns (f: Flight)
    ensures |f.passengers| > f.capacity
  {
    f := new Flight(1, "FL0", "A", "B", d, 0, p);
    var c := new Customer(1, "N", "P", "E");
    f.AddPassenger(c);
  }

  /** The position of the first booking in bs whose flight is f, or |bs|. */
  function FirstForFlight(bs: seq<Booking>, f: Flight): (k: nat)
    reads bs
    ensures k <= |bs|
    ensures k < |bs| ==> bs[k].flight == f
    ensures forall j :: 0 <= j < k ==> bs[j].flight != f
  {
    if bs == [] then 0 else if bs[0].flight == f then 0 else 1 + FirstForFlight(bs[1..], f)
  }

  /** The position of the first booking in bs whose flight has id fid, or |bs|. */
  function FirstForFlightId(bs: seq<Booking>, fid: int): (k: nat)
    reads bs, set b | b in bs :: b.flight
    ensures k <= |bs|
    ensures k < |bs| ==> bs[k].flight.id == fid
    ensures forall j :: 0 <= j < k ==> bs[j].flight.id != fid
  {
    if bs == [] then 0
    else if bs[0].flight.id == fid then 0
    else 1 + FirstForFlightId(bs[1..], fid)
  }

  /** Some booking in bs is for flight f. */
  ghost predicate HoldsFlight(bs: seq<Booking>, f: Flight)
    reads bs
  {
    exists i :: 0 <= i < |bs| && bs[i].flight == f
  }

  /** No two bookings in bs are for the same flight. */
  ghost predicate OneBookingPerFlight(bs: seq<Booking>)
    reads bs
  {
    forall i, j :: 0 <= i < j < |bs| ==> bs[i].flight != bs[j].flight
  }

  /** Removing the element at k, when k is the first place its value occurs. */
  lemma RemoveFirstAt<T>(s: seq<T>, k: nat)
    requires k < |s|
    requires forall j :: 0 <= j < k ==> s[j] != s[k]
    ensures RemoveFirst(s, s[k]) == Without(s, k)
  {
    assert IndexOf(s, s[k]) == k;
  }

  class Customer {
    var id: int
    var name: string
    var phone: string
    var email: string
    var bookings: seq<Booking>

    constructor(id: int, name: string, phone: string, email: string)
      ensures this.id == id && this.name == name && this.phone == phone && this.email == email
      ensures bookings == []
    {
      this.id := id;
      this.name := name;
      this.phone := phone;
      this.email := email;
      bookings := [];
    }

    method SetId(x: int)
      modifies this`id
      ensures id == x
    {
      id := x;
    }

    method SetName(x: string)
      modifies this`name
      ensures name == x
    {
      name := x;
    }

    method SetPhone(x: string)
      modifies this`phone
      ensures phone == x
    {
      phone := x;
    }

    method SetEmail(x: string)
      modifies this`email
      ensures email == x
    {
      email := x;
    }

    method SetBookings(bs: seq<Booking>)
      modifies this`bookings
      ensures bookings == bs
    {
      bookings := bs;
    }

    /** getDetailsShort. */
    function DetailsShort(): (s: string)
      reads this
      ensures |s| >= 10 + |phone| && s[..10] == "Customer #" && s[|s| - |phone|..] == phone
    {
      "Customer #" + IntToString(id) + "-" + name + " - " + phone
    }

    /** getDetailsLong. */
    function DetailsLong(): (s: string)
      reads this
      ensures |s| > 10 + |email| && s[..10] == "Customer #" && s[|s| - 1 - |email|..] == email + "\n"
    {
      var body := IntToString(id) + "\n" + "Name: " + name + "\n" + "Phone: " + phone + "\n" + "Email:";
      Framed("Customer #", body, email + "\n");
      "Customer #" + body + (email + "\n")
    }

    /** removeBooking: List.remove by reference, first occurrence only. */
    method RemoveBooking(b: Booking)
      modifies this`bookings
      ensures bookings == RemoveFirst(old(bookings), b)
    {
      bookings := RemoveFirst(bookings, b);
    }

    /** findBookingForFlight: the first booking in list order for f, or null. */
    method FindBookingForFlight(f: Flight) returns (r: Option<Booking>)
      ensures var k := FirstForFlight(bookings, f);
        r == if k < |bookings| then Some(bookings[k]) else None
    {
      var i := 0;
      while i < |bookings|
        invariant 0 <= i <= |bookings|
        invariant forall j :: 0 <= j < i ==> bookings[j].flight != f
      {
        if bookings[i].flight == f {
          return Some(bookings[i]);
        }
        i := i + 1;
      }
      return None;
    }

    /** hasBookingForFlight: some booking in the list is for f. */
    method HasBookingForFlight(f: Flight) returns (b: bool)
      ensures b <==> HoldsFlight(bookings, f)
    {
      var r := FindBookingForFlight(f);
      b := r.Some?;
    }

    /** addBooking: refuses a second booking for the same flight object
        (whether or not the first one is cancelled), otherwise appends. */
    method AddBooking(b: Booking) returns (s: Status)
      modifies this`bookings
      ensures old(HoldsFlight(bookings, b.flight)) ==>
                s == Failed(AlreadyBookedOnFlight) && bookings == old(bookings)
      ensures !old(HoldsFlight(bookings, b.flight)) ==> s == Done && bookings == old(bookings) + [b]
      ensures old(OneBookingPerFlight(bookings)) ==> OneBookingPerFlight(bookings)
    {
      var has := HasBookingForFlight(b.flight);
      if has {
        return Failed(AlreadyBookedOnFlight);
      }
      bookings := bookings + [b];
      s := Done;
    }

    /** cancelBookingForFlight: removes the first booking for f from this list
        only; fails when there is none. */
    method CancelBookingForFlight(f: Flight) returns (s: Status)
      modifies this`bookings
      ensures var k := FirstForFlight(old(bookings), f);
        if k == |old(bookings)| then s == Failed(NoBookingForFlight) && bookings == old(bookings)
        else s == Done && bookings == Without(old(bookings), k)
    {
      var found := FindBookingForFlight(f);
      if found.None? {
        return Failed(NoBookingForFlight);
      }
      RemoveFirstAt(bookings, FirstForFlight(bookings, f));
      bookings := RemoveFirst(bookings, found.value);
      s := Done;
    }

    /** removeBookingByFlightId: removes the first booking whose flight has that
        id; a silent no-op when there is none. */
    method RemoveBookingByFlightId(fid: int)
      modifies this`bookings
      ensures var k := FirstForFlightId(old(bookings), fid);
        bookings == if k < |old(bookings)| then Without(old(bookings), k) else old(bookings)
    {
      var i := 0;
      while i < |bookings|
        invariant 0 <= i <= |bookings|
        invariant forall j :: 0 <= j < i ==> bookings[j].flight.id != fid
      {
        if bookings[i].flight.id == fid {
          RemoveFirstAt(bookings, i);
          bookings := RemoveFirst(bookings, bookings[i]);
          return;
        }
        i := i + 1;
      }
    }

    /** issueBooking: builds a priced booking and registers it with the flight
        BEFORE the duplicate check, so on a duplicate the flight's sets have
        changed while this list has not. */
    method IssueBooking(ids: Counters, f: Flight, bookingDate: Date, p: Price)
      returns (s: Status, ghost b: Booking)
      modifies this`bookings, f`bookings, f`passengers, ids`lastBookingId
      ensures fresh(b) && b.id == old(ids.lastBookingId) + 1 && ids.lastBookingId == b.id
      ensures b.customer == this && b.flight == f && b.bookingDate == bookingDate
      ensures b.price == p && !b.cancelled
      ensures f.bookings == old(f.bookings) + {b} && f.passengers == old(f.passengers) + {this}
      ensures old(HoldsFlight(bookings, f)) ==>
                s == Failed(AlreadyBookedOnFlight) && bookings == old(bookings)
      ensures !old(HoldsFlight(bookings, f)) ==> s == Done && bookings == old(bookings) + [b]
    {
      var nb := new Booking(ids, this, f, bookingDate);
      b := nb;
      nb.SetPrice(p);
      f.AddBookingForCustomer(nb);
      s := AddBooking(nb);
    }
  }
}
