/** model/FlightBookingSystem.java: the in-memory registry. Flights and
    customers live in id-keyed TreeMaps, bookings in one master list. */
module Registry {
  import opened Common
  import opened Text
  import opened Ordered
  import opened Entities

  /** The position of the first booking in bs made by customer id cid on flight
      id fid, or |bs|. */
  function FirstBookingOf(bs: seq<Booking>, cid: int, fid: int): (k: nat)
    reads bs, set b | b in bs :: b.customer, set b | b in bs :: b.flight
    ensures k <= |bs|
    ensures k < |bs| ==> bs[k].customer.id == cid && bs[k].flight.id == fid
    ensures forall j :: 0 <= j < k ==> !(bs[j].customer.id == cid && bs[j].flight.id == fid)
  {
    if bs == [] then 0
    else if bs[0].customer.id == cid && bs[0].flight.id == fid then 0
    else 1 + FirstBookingOf(bs[1..], cid, fid)
  }

  /** The position of the first booking in bs with booking id bid, or |bs|. */
  function FirstWithId(bs: seq<Booking>, bid: int): (k: nat)
    ensures k <= |bs|
    ensures k < |bs| ==> bs[k].id == bid
    ensures forall j :: 0 <= j < k ==> bs[j].id != bid
  {
    if bs == [] then 0 else if bs[0].id == bid then 0 else 1 + FirstWithId(bs[1..], bid)
  }

  /** Some stored customer has email e, ignoring case. */
  ghost predicate EmailTaken(cs: map<int, Customer>, e: string)
    reads cs.Values
  {
    exists k :: k in cs && EqualsIgnoreCase(cs[k].email, e)
  }

  /** The lowest key whose flight has the given number: the flight a TreeMap
      scan in key order meets first. */
  ghost function LowestKeyNumbered(fs: map<int, Flight>, number: string): (r: Option<int>)
    reads fs.Values
    ensures r.None? <==> forall k :: k in fs ==> fs[k].flightNumber != number
    ensures r.Some? ==> r.value in fs && fs[r.value].flightNumber == number
    ensures r.Some? ==> forall k :: k in fs && fs[k].flightNumber == number ==> r.value <= k
  {
    var matching := set k | k in fs && fs[k].flightNumber == number;
    assert forall k :: k in fs && fs[k].flightNumber == number ==> k in matching;
    if matching == {} then None else Some(MinKey(matching))
  }

  /** When every flight sits under its own id, a key-ordered listing is ordered
      by flight id. */
  lemma FlightsInIdOrder(fs: map<int, Flight>, r: seq<Flight>)
    requires InKeyOrder(fs, r)
    requires forall k :: k in fs ==> fs[k].id == k
    ensures forall i, j :: 0 <= i < j < |r| ==> r[i].id < r[j].id
  {
    var ks := SortedKeys(fs.Keys);
    forall i, j | 0 <= i < j < |r|
      ensures r[i].id < r[j].id
    {
      assert r[i].id == ks[i] && r[j].id == ks[j];
    }
  }

  class FlightBookingSystem {
    const systemDate: Date
    const ids: Counters
    var customers: map<int, Customer>
    var flights: map<int, Flight>
    var bookings: seq<Booking>

    constructor(ids: Counters)
      ensures systemDate == CalendarDate(2020, 11, 11) && this.ids == ids
      ensures customers == map[] && flights == map[] && bookings == []
    {
      systemDate := CalendarDate(2020, 11, 11);
      this.ids := ids;
      customers := map[];
      flights := map[];
      bookings := [];
    }

    /** Every customer key but the largest int is below the counter, so the
        counter hands out no key in use until it reaches that one; addCustomer's
        id + 1 wraps around for the largest int and leaves the counter behind it. */
    ghost predicate CounterAboveKeys()
      reads this, ids
    {
      forall k :: k in customers ==> k < ids.nextCustomerId || k == MaxInt
    }

    /** Each flight is stored under its own id. */
    ghost predicate FlightKeysMatchIds()
      reads this, flights.Values
    {
      forall k :: k in flights ==> flights[k].id == k
    }

    /** getFlights: the flights in ascending key order. */
    method GetFlights() returns (r: seq<Flight>)
      ensures InKeyOrder(flights, r)
    {
      var ks := KeysInOrder(flights.Keys);
      var m := flights;
      r := [];
      for i := 0 to |ks|
        invariant |r| == i
        invariant forall j :: 0 <= j < i ==> ks[j] in m && r[j] == m[ks[j]]
      {
        assert ks[i] in m;
        r := r + [m[ks[i]]];
      }
    }

    /** getCustomers: the customers in ascending key order. */
    method GetCustomers() returns (r: seq<Customer>)
      ensures InKeyOrder(customers, r)
    {
      var ks := KeysInOrder(customers.Keys);
      var m := customers;
      r := [];
      for i := 0 to |ks|
        invariant |r| == i
        invariant forall j :: 0 <= j < i ==> ks[j] in m && r[j] == m[ks[j]]
      {
        assert ks[i] in m;
        r := r + [m[ks[i]]];
      }
    }

    /** getFlightByID: fails exactly when the id is not a key. */
    method GetFlightById(id: int) returns (r: Result<Flight>)
      ensures r.Ok? <==> id in flights
      ensures r.Ok? ==> r.value == flights[id]
      ensures r.Err? ==> r.error == NoFlightWithId
    {
      if id !in flights {
        return Err(NoFlightWithId);
      }
      return Ok(flights[id]);
    }

    /** getCustomerByID: fails exactly when the id is not a key. */
    method GetCustomerById(id: int) returns (r: Result<Customer>)
      ensures r.Ok? <==> id in customers
      ensures r.Ok? ==> r.value == customers[id]
      ensures r.Err? ==> r.error == NoCustomerWithId
    {
      if id !in customers {
        return Err(NoCustomerWithId);
      }
      return Ok(customers[id]);
    }

    /** getFlightByNumber: walks the TreeMap in ascending key order (the
        smallest unvisited key each step) and returns the first flight with
        that number, or null. */
    method GetFlightByNumber(number: string) returns (r: Option<Flight>)
      ensures var k := LowestKeyNumbered(flights, number);
        r == if k.Some? then Some(flights[k.value]) else None
    {
      var fs := flights;
      var rest := fs.Keys;
      while rest != {}
        invariant rest <= fs.Keys
        invariant forall k :: k in fs && k !in rest ==> fs[k].flightNumber != number
        decreases |rest|
      {
        var k := SmallestKey(rest);
        if fs[k].flightNumber == number {
          var low := LowestKeyNumbered(fs, number);
          assert low.value in rest;
          return Some(fs[k]);
        }
        rest := rest - {k};
      }
      return None;
    }

    /** addFlight: refuses an id already used as a key, otherwise adds exactly
        the entry id -> flight. */
    method AddFlight(f: Flight) returns (s: Status)
      modifies this`flights
      ensures f.id in old(flights) ==> s == Failed(FlightIdExists(f.id)) && flights == old(flights)
      ensures f.id !in old(flights) ==> s == Done && flights == old(flights)[f.id := f]
      ensures old(FlightKeysMatchIds()) ==> FlightKeysMatchIds()
    {
      if f.id in flights {
        return Failed(FlightIdExists(f.id));
      }
      flights := flights[f.id := f];
      s := Done;
    }

    /** addCustomer: refuses an e-mail already registered (ignoring case); id 0
        takes the counter, any other id raises the counter to the int id + 1,
        which wraps around for the largest int. The id is not checked for
        uniqueness, so a present key is overwritten. */
    method AddCustomer(c: Customer) returns (s: Status)
      modifies this`customers, ids`nextCustomerId, c`id
      ensures old(EmailTaken(customers, c.email)) ==>
                s == Failed(EmailExists(c.email)) && customers == old(customers)
                && ids.nextCustomerId == old(ids.nextCustomerId) && c.id == old(c.id)
      ensures !old(EmailTaken(customers, c.email)) ==>
                s == Done && customers == old(customers)[c.id := c]
                && if old(c.id) == 0 then c.id == old(ids.nextCustomerId) && ids.nextCustomerId == c.id + 1
                   else c.id == old(c.id) && ids.nextCustomerId == Max(old(ids.nextCustomerId), AddInt(c.id, 1))
      ensures s == Done && old(c.id) != 0 && old(c.id) in old(customers) ==> |customers| == |old(customers)|
      ensures old(CounterAboveKeys()) && IsInt32(old(c.id)) ==> CounterAboveKeys()
    {
      var taken := EmailInUse(c.email);
      if taken {
        return Failed(EmailExists(c.email));
      }
      if c.id == 0 {
        var id := NextCustomerId();
        c.SetId(id);
      } else {
        ids.nextCustomerId := Max(ids.nextCustomerId, AddInt(c.id, 1));
      }
      customers := customers[c.id := c];
      assert old(c.id) != 0 && old(c.id) in old(customers) ==> customers.Keys == old(customers).Keys;
      s := Done;
    }

    /** The duplicate scan at the head of addCustomer: visits the customers in
        key order and stops at the first e-mail equal ignoring case. */
    method EmailInUse(e: string) returns (taken: bool)
      ensures taken <==> EmailTaken(customers, e)
    {
      var cs := customers;
      var rest := cs.Keys;
      while rest != {}
        invariant rest <= cs.Keys
        invariant forall k :: k in cs && k !in rest ==> !EqualsIgnoreCase(cs[k].email, e)
        decreases |rest|
      {
        var k := SmallestKey(rest);
        if EqualsIgnoreCase(cs[k].email, e) {
          return true;
        }
        rest := rest - {k};
      }
      return false;
    }

    /** getNextCustomerId. */
    method NextCustomerId() returns (id: int)
      modifies ids`nextCustomerId
      ensures id == old(ids.nextCustomerId) && ids.nextCustomerId == id + 1
    {
      id := ids.TakeCustomerId();
    }

    /** cancelBooking: the first master-list booking with both ids is marked
        cancelled and leaves the master list, its customer's list and (through
        its customer) the flight's passengers; it stays in the flight's booking
        set. With no match nothing changes. */
    method CancelBooking(customerId: int, flightId: int) returns (s: Status)
      modifies this`bookings, bookings`cancelled
      modifies (set b | b in bookings :: b.flight)`passengers
      modifies (set b | b in bookings :: b.customer)`bookings
      ensures var bs := old(bookings); var k := old(FirstBookingOf(bookings, customerId, flightId));
        k == |bs| ==>
          s == Failed(NoBookingForFlight) && bookings == bs
          && (forall x :: x in bs ==>
                x.cancelled == old(x.cancelled)
                && x.flight.passengers == old(x.flight.passengers)
                && x.customer.bookings == old(x.customer.bookings))
      ensures var bs := old(bookings); var k := old(FirstBookingOf(bookings, customerId, flightId));
        k < |bs| ==>
          var b := bs[k];
          s == Done && b.cancelled && bookings == Without(bs, k)
          && b.flight.passengers == old(b.flight.passengers) - {b.customer}
          && b.flight.bookings == old(b.flight.bookings)
          && b.customer.bookings == RemoveFirst(old(b.customer.bookings), b)
          && (forall x :: x in bs && x != b ==> x.cancelled == old(x.cancelled))
          && (forall x :: x in bs && x.flight != b.flight ==> x.flight.passengers == old(x.flight.passengers))
          && (forall x :: x in bs && x.customer != b.customer ==> x.customer.bookings == old(x.customer.bookings))
    {
      var i := 0;
      while i < |bookings| && !(bookings[i].customer.id == customerId && bookings[i].flight.id == flightId)
        invariant 0 <= i <= |bookings|
        invariant forall j :: 0 <= j < i ==> !(bookings[j].customer.id == customerId && bookings[j].flight.id == flightId)
      {
        i := i + 1;
      }
      if i == |bookings| {
        return Failed(NoBookingForFlight);
      }
      CancelAt(bookings[i], i);
      return Done;
    }

    /** The updates cancelBooking makes once it has found booking b at
        position k of the master list. */
    method CancelAt(b: Booking, ghost k: nat)
      requires k < |bookings| && bookings[k] == b
      requires forall j :: 0 <= j < k ==> bookings[j] != b
      modifies this`bookings, b`cancelled, b.flight`passengers, b.customer`bookings
      ensures b.cancelled && bookings == Without(old(bookings), k)
      ensures b.flight.passengers == old(b.flight.passengers) - {b.customer}
      ensures b.customer.bookings == RemoveFirst(old(b.customer.bookings), b)
    {
      b.SetCancelled(true);
      b.flight.RemovePassenger(b.customer);
      b.customer.RemoveBooking(b);
      RemoveFirstAt(bookings, k);
      bookings := RemoveFirst(bookings, b);
    }

    /** The first master-list booking with id bookingId. */
    ghost function BookingWithId(bookingId: int): Booking
      requires FirstWithId(bookings, bookingId) < |bookings|
      reads this
    {
      bookings[FirstWithId(bookings, bookingId)]
    }

    /** getBookingById: the first master-list booking with that id, or null. */
    method GetBookingById(bookingId: int) returns (r: Option<Booking>)
      ensures var k := FirstWithId(bookings, bookingId);
        r == if k < |bookings| then Some(bookings[k]) else None
    {
      for i := 0 to |bookings|
        invariant forall j :: 0 <= j < i ==> bookings[j].id != bookingId
      {
        if bookings[i].id == bookingId {
          return Some(bookings[i]);
        }
      }
      return None;
    }

    /** editBooking: the booking leaves the old flight's sets, its customer's list
        and the master list; a new booking (next id, date today) for the same
        customer joins the master list and the target flight's sets but not the
        customer's list. A missing target flight fails before any change. A
        missing booking id dereferences null in the source, hence the requires. */
    method EditBooking(bookingId: int, flightId: int, today: Date)
      returns (s: Status, ghost nb: Option<Booking>)
      requires FirstWithId(bookings, bookingId) < |bookings|
      modifies this`bookings, ids`lastBookingId
      modifies BookingWithId(bookingId).flight`passengers, BookingWithId(bookingId).flight`bookings
      modifies BookingWithId(bookingId).customer`bookings
      modifies At(flights, flightId)`passengers, At(flights, flightId)`bookings
      ensures var b := old(BookingWithId(bookingId));
        flightId !in old(flights) ==>
          s == Failed(NoFlightWithId) && nb == None && bookings == old(bookings)
          && ids.lastBookingId == old(ids.lastBookingId)
          && unchanged(b.flight, b.customer) && unchanged(flights.Values)
      ensures var k := old(FirstWithId(bookings, bookingId)); var b := old(BookingWithId(bookingId));
        flightId in old(flights) ==>
          var nf := old(flights)[flightId];
          s == Done && nb.Some? && fresh(nb.value)
          && nb.value.id == old(ids.lastBookingId) + 1 && ids.lastBookingId == nb.value.id
          && nb.value.customer == b.customer && nb.value.flight == nf
          && nb.value.bookingDate == today && nb.value.price == ZeroPrice && !nb.value.cancelled
          && bookings == Without(old(bookings), k) + [nb.value]
          && b.customer.bookings == RemoveFirst(old(b.customer.bookings), b)
          && (b.flight != nf ==>
                b.flight.passengers == old(b.flight.passengers) - {b.customer}
                && b.flight.bookings == old(b.flight.bookings) - {b}
                && nf.passengers == old(nf.passengers) + {b.customer}
                && nf.bookings == old(nf.bookings) + {nb.value})
          && (b.flight == nf ==>
                nf.passengers == old(nf.passengers) + {b.customer}
                && nf.bookings == old(nf.bookings) - {b} + {nb.value})
    {
      var found := GetBookingById(bookingId);
      var b := found.value;
      var oldFlight := b.flight;
      var customer := b.customer;
      var target := GetFlightById(flightId);
      if target.Err? {
        return Failed(target.error), None;
      }
      var newFlight := target.value;
      var newBooking := MoveBooking(b, FirstWithId(bookings, bookingId), newFlight, today);
      s, nb := Done, Some(newBooking);
    }

    /** The mutation sequence of editBooking, once both lookups have succeeded:
        the removals from the old flight, the customer and the master list, then
        the new booking's insertions. */
    method MoveBooking(b: Booking, ghost k: nat, nf: Flight, today: Date) returns (nb: Booking)
      requires k < |bookings| && bookings[k] == b
      requires forall j :: 0 <= j < k ==> bookings[j] != b
      modifies this`bookings, ids`lastBookingId
      modifies b.flight`passengers, b.flight`bookings, b.customer`bookings, nf`passengers, nf`bookings
      ensures fresh(nb) && nb.id == old(ids.lastBookingId) + 1 && ids.lastBookingId == nb.id
      ensures nb.customer == b.customer && nb.flight == nf && nb.bookingDate == today
      ensures nb.price == ZeroPrice && !nb.cancelled
      ensures bookings == Without(old(bookings), k) + [nb]
      ensures b.customer.bookings == RemoveFirst(old(b.customer.bookings), b)
      ensures b.flight != nf ==>
                b.flight.passengers == old(b.flight.passengers) - {b.customer}
                && b.flight.bookings == old(b.flight.bookings) - {b}
                && nf.passengers == old(nf.passengers) + {b.customer}
                && nf.bookings == old(nf.bookings) + {nb}
      ensures b.flight == nf ==>
                nf.passengers == old(nf.passengers) + {b.customer}
                && nf.bookings == old(nf.bookings) - {b} + {nb}
    {
      var customer := b.customer;
      Detach(b, k);
      nb := Attach(customer, nf, today);
    }

    /** The removals of editBooking: old flight, customer list, master list. */
    method Detach(b: Booking, ghost k: nat)
      requires k < |bookings| && bookings[k] == b
      requires forall j :: 0 <= j < k ==> bookings[j] != b
      modifies this`bookings, b.flight`passengers, b.flight`bookings, b.customer`bookings
      ensures bookings == Without(old(bookings), k)
      ensures b.flight.passengers == old(b.flight.passengers) - {b.customer}
      ensures b.flight.bookings == old(b.flight.bookings) - {b}
      ensures b.customer.bookings == RemoveFirst(old(b.customer.bookings), b)
    {
      var oldFlight := b.flight;
      var customer := b.customer;
      oldFlight.RemovePassenger(customer);
      oldFlight.RemoveBooking(b);
      customer.RemoveBooking(b);
      RemoveFirstAt(bookings, k);
      RemoveBooking(b);
    }

    /** The insertions of editBooking: the new booking reaches the master list
        and the flight, never the customer's list. */
    method Attach(c: Customer, f: Flight, today: Date) returns (nb: Booking)
      modifies this`bookings, ids`lastBookingId, f`passengers, f`bookings
      ensures fresh(nb) && nb.id == old(ids.lastBookingId) + 1 && ids.lastBookingId == nb.id
      ensures nb.customer == c && nb.flight == f && nb.bookingDate == today
      ensures nb.price == ZeroPrice && !nb.cancelled
      ensures bookings == old(bookings) + [nb]
      ensures f.passengers == old(f.passengers) + {c} && f.bookings == old(f.bookings) + {nb}
    {
      nb := new Booking(ids, c, f, today);
      AddBooking(nb);
      f.AddPassenger(c);
      f.AddBookingForCustomer(nb);
    }

    /** removeBooking: the master list only, first occurrence. */
    method RemoveBooking(b: Booking)
      modifies this`bookings
      ensures bookings == RemoveFirst(old(bookings), b)
    {
      bookings := RemoveFirst(bookings, b);
    }

    /** addBooking: the master list only, at the end. */
    method AddBooking(b: Booking)
      modifies this`bookings
      ensures bookings == old(bookings) + [b]
    {
      bookings := bookings + [b];
    }

    /** deleteCustomer: removes one map entry; bookings, flights and the counter
        are left alone. */
    method DeleteCustomer(customerId: int) returns (r: Result<bool>)
      modifies this`customers
      ensures customerId in old(customers) ==> r == Ok(true) && customers == old(customers) - {customerId}
      ensures customerId !in old(customers) ==>
                r == Err(CustomerNotFound(customerId)) && customers == old(customers)
    {
      if customerId in customers {
        customers := customers - {customerId};
        return Ok(true);
      }
      return Err(CustomerNotFound(customerId));
    }

    /** deleteFlight: finds the lowest-key flight with that number and removes
        the entry keyed by that flight's id field. */
    method DeleteFlight(number: string) returns (s: Status)
      modifies this`flights
      ensures var k := old(LowestKeyNumbered(flights, number));
        k.None? ==> s == Failed(FlightNumberNotFound(number)) && flights == old(flights)
      ensures var k := old(LowestKeyNumbered(flights, number));
        k.Some? ==> s == Done && flights == old(flights) - {old(flights)[k.value].id}
      ensures var k := old(LowestKeyNumbered(flights, number));
        k.Some? && old(FlightKeysMatchIds()) ==>
          flights == old(flights) - {k.value} && |flights| == |old(flights)| - 1
    {
      var found := GetFlightByNumber(number);
      if found.None? {
        return Failed(FlightNumberNotFound(number));
      }
      flights := flights - {found.value.id};
      s := Done;
    }
  }
}
