/** data/BookingDataManager.java: one line per booking (storeData) and the
    loader that reads such lines back into a registry (loadData). */
module BookingData {
  import opened Common
  import opened Text
  import opened Entities
  import opened Ordered
  import opened Registry
  import opened DataFormat

  datatype BookingRecord = BookingRecord(customerId: int, flightId: int, bookingDate: Date)

  function BookingRecordOf(b: Booking): BookingRecord
    reads b, b.customer, b.flight
  {
    BookingRecord(b.customer.id, b.flight.id, b.bookingDate)
  }

  /** The line storeData writes for a booking: ids and the ISO date; neither
      the booking id, the price nor the cancelled flag is written. */
  function EncodeBooking(r: BookingRecord): (line: string)
    ensures NoBreak(line, ReaderBreaks)
  {
    BookingFieldsUnbroken(r);
    Terminated([IntToString(r.customerId), IntToString(r.flightId), FormatDate(r.bookingDate)], Separator)
  }

  /** The per-line decoding of loadData: the pieces of split("::") are read in
      order, a missing piece throws ArrayIndexOutOfBoundsException, a bad number
      NumberFormatException and a bad date DateTimeParseException; each aborts
      the load. Pieces past the third are ignored. */
  function DecodeBooking(line: string): (r: Result<BookingRecord>)
    ensures r.Ok? ==> IsInt32(r.value.customerId) && IsInt32(r.value.flightId)
    ensures r.Err? ==> r.error in {IndexOutOfBounds, NumberFormat, DateTimeParse}
  {
    var p := SplitDroppingTrailing(line, Separator);
    if |p| < 1 then Err(IndexOutOfBounds)
    else
      match ParseInt(p[0])
      case None => Err(NumberFormat)
      case Some(customerId) =>
        if |p| < 2 then Err(IndexOutOfBounds)
        else
          match ParseInt(p[1])
          case None => Err(NumberFormat)
          case Some(flightId) =>
            if |p| < 3 then Err(IndexOutOfBounds)
            else
              match ParseIsoDate(p[2])
              case None => Err(DateTimeParse)
              case Some(date) => Ok(BookingRecord(customerId, flightId, date))
  }

  /** A booking whose line reads back as itself: int ids and a date in the
      LocalDate range. */
  predicate StorableBooking(r: BookingRecord)
  {
    IsInt32(r.customerId) && IsInt32(r.flightId) && -MaxYear <= r.bookingDate.year <= MaxYear
  }

  /** A booking line holds no line-ending character: it is digits, signs and
      separators. */
  lemma BookingFieldsUnbroken(r: BookingRecord)
    ensures NoBreak(Terminated([IntToString(r.customerId), IntToString(r.flightId), FormatDate(r.bookingDate)],
                               Separator), ReaderBreaks)
  {
    NumeralNoBreak(IntToString(r.customerId), ReaderBreaks);
    NumeralNoBreak(IntToString(r.flightId), ReaderBreaks);
    NumeralNoBreak(FormatDate(r.bookingDate), ReaderBreaks);
    TerminatedNoBreak([IntToString(r.customerId), IntToString(r.flightId), FormatDate(r.bookingDate)], ReaderBreaks);
  }

  lemma BookingRoundTrip(r: BookingRecord)
    requires StorableBooking(r)
    ensures DecodeBooking(EncodeBooking(r)) == Ok(r)
  {
    IntField(r.customerId);
    IntField(r.flightId);
    DateField(r.bookingDate);
    IntRoundTrip(r.customerId);
    IntRoundTrip(r.flightId);
    DateRoundTrip(r.bookingDate);
    SplitStored([IntToString(r.customerId), IntToString(r.flightId), FormatDate(r.bookingDate)]);
  }

  // ---------------------------------------------------------------------------
  // Whole files

  /** The booking file storeData writes: one line per booking of the master
      list, in list order. StoredBookingLines and ReloadBookings state what these
      lines read back as. */
  function EncodeBookings(rs: seq<BookingRecord>): (lines: seq<string>)
    ensures |lines| == |rs|
  {
    if rs == [] then [] else [EncodeBooking(rs[0])] + EncodeBookings(rs[1..])
  }

  function BookingRecords(bs: seq<Booking>): (rs: seq<BookingRecord>)
    reads bs, set b | b in bs :: b.customer, set b | b in bs :: b.flight
    ensures |rs| == |bs| && forall i :: 0 <= i < |bs| ==> rs[i] == BookingRecordOf(bs[i])
  {
    if bs == [] then [] else [BookingRecordOf(bs[0])] + BookingRecords(bs[1..])
  }

  /** The per-line results of decoding a booking file. ReloadBookings states
      what they give for a stored file. */
  function DecodeBookings(lines: seq<string>): (ds: seq<Result<BookingRecord>>)
    ensures |ds| == |lines|
  {
    if lines == [] then [] else [DecodeBooking(lines[0])] + DecodeBookings(lines[1..])
  }

  /** Why a decoded line is not booked, if it is not: its own decoding error,
      then getCustomerByID, then getFlightByID, in the order loadData calls them. */
  function Refusal(customerKeys: set<int>, flightKeys: set<int>, d: Result<BookingRecord>): Option<Error>
  {
    match d
    case Err(e) => Some(e)
    case Ok(r) =>
      if r.customerId !in customerKeys then Some(NoCustomerWithId)
      else if r.flightId !in flightKeys then Some(NoFlightWithId)
      else None
  }

  /** What registering decoded bookings does, given the registered customer
      and flight keys (the loader changes neither map): `loaded` are the
      records booked so far; the first refusal stops the load with the records
      before it kept. */
  function AddBookings(customerKeys: set<int>, flightKeys: set<int>, loaded: seq<BookingRecord>,
                       ds: seq<Result<BookingRecord>>): (o: Outcome<BookingRecord>)
    ensures |loaded| <= |o.records| <= |loaded| + |ds|
    ensures o.status == Done ==> |o.records| == |loaded| + |ds|
    decreases |ds|
  {
    if ds == [] then Outcome(loaded, Done)
    else
      match Refusal(customerKeys, flightKeys, ds[0])
      case Some(e) => Outcome(loaded, Failed(e))
      case None => AddBookings(customerKeys, flightKeys, loaded + [ds[0].value], ds[1..])
  }

  /** What loading the booking file's text does: BufferedReader.readLine cuts
      it into lines. */
  function ReadBookings(customerKeys: set<int>, flightKeys: set<int>, text: string): Outcome<BookingRecord>
  {
    AddBookings(customerKeys, flightKeys, [], DecodeBookings(Lines(text, ReaderBreaks)))
  }

  /** The load books the longest run of lines that are not refused, in order,
      and fails with the first refusal if there is one. */
  lemma {:induction false} AddBookingsPrefix(customerKeys: set<int>, flightKeys: set<int>,
                                              loaded: seq<BookingRecord>, ds: seq<Result<BookingRecord>>)
    ensures var o := AddBookings(customerKeys, flightKeys, loaded, ds);
      var n := |o.records| - |loaded|;
      loaded <= o.records && 0 <= n <= |ds|
      && (forall j :: 0 <= j < n ==>
            Refusal(customerKeys, flightKeys, ds[j]).None? && ds[j] == Ok(o.records[|loaded| + j]))
      && (n == |ds| ==> o.status == Done)
      && (n < |ds| ==> o.status.Failed? && Refusal(customerKeys, flightKeys, ds[n]) == Some(o.status.error))
    decreases |ds|
  {
    if ds != [] && Refusal(customerKeys, flightKeys, ds[0]).None? {
      var r := ds[0].value;
      AddBookingsPrefix(customerKeys, flightKeys, loaded + [r], ds[1..]);
      var o := AddBookings(customerKeys, flightKeys, loaded, ds);
      assert o == AddBookings(customerKeys, flightKeys, loaded + [r], ds[1..]);
      var n := |o.records| - |loaded|;
      forall j | 0 <= j < n
        ensures Refusal(customerKeys, flightKeys, ds[j]).None? && ds[j] == Ok(o.records[|loaded| + j])
      {
        if j > 0 {
          assert ds[j] == ds[1..][j - 1];
        }
      }
      if n < |ds| {
        assert ds[n] == ds[1..][n - 1];
      }
    }
  }

  /** Every record is storable (stated record by record, head first). */
  predicate StorableBookings(rs: seq<BookingRecord>)
  {
    rs == [] || (StorableBooking(rs[0]) && StorableBookings(rs[1..]))
  }

  /** Every record names a registered customer and a registered flight. */
  predicate KnownIds(customerKeys: set<int>, flightKeys: set<int>, rs: seq<BookingRecord>)
  {
    rs == [] || (rs[0].customerId in customerKeys && rs[0].flightId in flightKeys
                 && KnownIds(customerKeys, flightKeys, rs[1..]))
  }

  lemma {:induction false} StorableBookingsAll(rs: seq<BookingRecord>)
    requires forall j :: 0 <= j < |rs| ==> StorableBooking(rs[j])
    ensures StorableBookings(rs)
  {
    if rs != [] {
      assert StorableBooking(rs[0]);
      forall j | 0 <= j < |rs[1..]|
        ensures StorableBooking(rs[1..][j])
      {
        assert rs[1..][j] == rs[j + 1];
      }
      StorableBookingsAll(rs[1..]);
    }
  }

  lemma {:induction false} KnownIdsAll(customerKeys: set<int>, flightKeys: set<int>, rs: seq<BookingRecord>)
    requires forall j :: 0 <= j < |rs| ==> rs[j].customerId in customerKeys && rs[j].flightId in flightKeys
    ensures KnownIds(customerKeys, flightKeys, rs)
  {
    if rs != [] {
      assert rs[0].customerId in customerKeys;
      forall j | 0 <= j < |rs[1..]|
        ensures rs[1..][j].customerId in customerKeys && rs[1..][j].flightId in flightKeys
      {
        assert rs[1..][j] == rs[j + 1];
      }
      KnownIdsAll(customerKeys, flightKeys, rs[1..]);
    }
  }

  lemma {:induction false} EncodeBookingsAt(rs: seq<BookingRecord>, i: nat)
    requires i < |rs|
    ensures EncodeBookings(rs)[i] == EncodeBooking(rs[i])
  {
    if i > 0 {
      EncodeBookingsAt(rs[1..], i - 1);
    }
  }

  /** A stored booking file reads back as its lines. */
  lemma StoredBookingLines(rs: seq<BookingRecord>, eol: string)
    requires IsLineSeparator(eol)
    ensures Lines(FileText(EncodeBookings(rs), eol), ReaderBreaks) == EncodeBookings(rs)
  {
    var lines := EncodeBookings(rs);
    forall i | 0 <= i < |lines|
      ensures NoBreak(lines[i], ReaderBreaks)
    {
      EncodeBookingsAt(rs, i);
    }
    LinesOfFileText(lines, eol, ReaderBreaks);
  }

  /** Every line of a stored booking file decodes to its booking. */
  lemma {:induction false} DecodeStoredBookings(rs: seq<BookingRecord>)
    requires StorableBookings(rs)
    ensures DecodeBookings(EncodeBookings(rs)) == Decoded(rs)
  {
    if rs != [] {
      var lines := EncodeBookings(rs);
      BookingRoundTrip(rs[0]);
      assert lines[0] == EncodeBooking(rs[0]);
      assert lines[1..] == EncodeBookings(rs[1..]);
      DecodeStoredBookings(rs[1..]);
    }
  }

  /** Registering bookings of registered customers on registered flights books
      all of them, in order. */
  lemma {:induction false} AddKnownBookings(customerKeys: set<int>, flightKeys: set<int>,
                                             loaded: seq<BookingRecord>, rs: seq<BookingRecord>)
    requires KnownIds(customerKeys, flightKeys, rs)
    ensures AddBookings(customerKeys, flightKeys, loaded, Decoded(rs)) == Outcome(loaded + rs, Done)
    decreases |rs|
  {
    if rs == [] {
      assert loaded + rs == loaded;
    } else {
      var ds := Decoded(rs);
      assert ds[0] == Ok(rs[0]) && ds[0..] == ds && ds[1..] == Decoded(rs[1..]);
      BookingsGoOn(customerKeys, flightKeys, loaded, ds, 0);
      AddKnownBookings(customerKeys, flightKeys, loaded + [rs[0]], rs[1..]);
      assert loaded + [rs[0]] + rs[1..] == loaded + rs;
    }
  }

  /** Storing storable bookings of registered customers on registered flights,
      then loading the file back, books exactly those bookings, in order,
      whichever line separator the platform writes. */
  lemma ReloadBookings(customerKeys: set<int>, flightKeys: set<int>, rs: seq<BookingRecord>, eol: string)
    requires IsLineSeparator(eol)
    requires forall j :: 0 <= j < |rs| ==> StorableBooking(rs[j])
    requires forall j :: 0 <= j < |rs| ==> rs[j].customerId in customerKeys && rs[j].flightId in flightKeys
    ensures ReadBookings(customerKeys, flightKeys, FileText(EncodeBookings(rs), eol)) == Outcome(rs, Done)
  {
    StoredBookingLines(rs, eol);
    StorableBookingsAll(rs);
    KnownIdsAll(customerKeys, flightKeys, rs);
    DecodeStoredBookings(rs);
    AddKnownBookings(customerKeys, flightKeys, [], rs);
  }

  /** What storeData writes for the master booking list loads back, into a
      registry where each booking's customer and flight are registered under
      their own ids, as the same (customer, flight, date) records, in order. */
  lemma StoredBookingsReload(cs: map<int, Customer>, fs: map<int, Flight>, bs: seq<Booking>, eol: string)
    requires IsLineSeparator(eol)
    requires forall i :: 0 <= i < |bs| ==>
               bs[i].customer.id in cs && cs[bs[i].customer.id] == bs[i].customer
               && bs[i].flight.id in fs && fs[bs[i].flight.id] == bs[i].flight
    requires forall i :: 0 <= i < |bs| ==> StorableBooking(BookingRecordOf(bs[i]))
    ensures ReadBookings(cs.Keys, fs.Keys, FileText(EncodeBookings(BookingRecords(bs)), eol))
            == Outcome(BookingRecords(bs), Done)
  {
    var rs := BookingRecords(bs);
    forall j | 0 <= j < |rs|
      ensures StorableBooking(rs[j]) && rs[j].customerId in cs.Keys && rs[j].flightId in fs.Keys
    {
      assert rs[j] == BookingRecordOf(bs[j]);
    }
    ReloadBookings(cs.Keys, fs.Keys, rs, eol);
  }

  // ---------------------------------------------------------------------------
  // Registering the decoded bookings

  /** The customers flight f gains from the loaded records rs: the customer
      registered under each record's customer id whose flight id names f. */
  function PassengersGained(rs: seq<BookingRecord>, cs: map<int, Customer>, fs: map<int, Flight>, f: Flight)
    : set<Customer>
  {
    if rs == [] then {}
    else
      var r := rs[|rs| - 1];
      PassengersGained(rs[..|rs| - 1], cs, fs, f)
      + (if r.customerId in cs && r.flightId in fs && fs[r.flightId] == f then {cs[r.customerId]} else {})
  }

  /** The bookings flight f gains: those of bs whose record names f. */
  function BookingsGained(bs: seq<Booking>, rs: seq<BookingRecord>, fs: map<int, Flight>, f: Flight): set<Booking>
    requires |bs| == |rs|
  {
    if bs == [] then {}
    else
      var r := rs[|rs| - 1];
      BookingsGained(bs[..|bs| - 1], rs[..|rs| - 1], fs, f)
      + (if r.flightId in fs && fs[r.flightId] == f then {bs[|bs| - 1]} else {})
  }

  lemma GainedSnoc(bs: seq<Booking>, rs: seq<BookingRecord>, cs: map<int, Customer>, fs: map<int, Flight>,
                   nb: Booking, r: BookingRecord)
    requires |bs| == |rs|
    ensures forall f :: PassengersGained(rs + [r], cs, fs, f)
              == PassengersGained(rs, cs, fs, f)
                 + (if r.customerId in cs && r.flightId in fs && fs[r.flightId] == f then {cs[r.customerId]} else {})
    ensures forall f :: BookingsGained(bs + [nb], rs + [r], fs, f)
              == BookingsGained(bs, rs, fs, f) + (if r.flightId in fs && fs[r.flightId] == f then {nb} else {})
  {
    assert (rs + [r])[..|rs|] == rs;
    assert (bs + [nb])[..|bs|] == bs;
  }

  /** A booking as loadData makes it from record r: the registered customer and
      flight under r's ids, r's date, the given id, no price and not cancelled. */
  ghost predicate MadeFrom(b: Booking, r: BookingRecord, id: int, cs: map<int, Customer>, fs: map<int, Flight>)
    reads b
  {
    r.customerId in cs && r.flightId in fs
    && b.id == id && b.customer == cs[r.customerId] && b.flight == fs[r.flightId]
    && b.bookingDate == r.bookingDate && b.price == ZeroPrice && !b.cancelled
  }

  /** bs are the bookings made, in order, from rs with the ids after `last`. */
  ghost predicate MadeAll(bs: seq<Booking>, rs: seq<BookingRecord>, last: int, cs: map<int, Customer>, fs: map<int, Flight>)
    reads bs
  {
    |bs| == |rs| && forall j :: 0 <= j < |bs| ==> MadeFrom(bs[j], rs[j], last + j + 1, cs, fs)
  }

  lemma MadeAllSnoc(bs: seq<Booking>, rs: seq<BookingRecord>, last: int, cs: map<int, Customer>, fs: map<int, Flight>,
                    nb: Booking, r: BookingRecord)
    requires MadeAll(bs, rs, last, cs, fs) && MadeFrom(nb, r, last + |bs| + 1, cs, fs)
    ensures MadeAll(bs + [nb], rs + [r], last, cs, fs)
  {
    forall j | 0 <= j < |bs| + 1
      ensures MadeFrom((bs + [nb])[j], (rs + [r])[j], last + j + 1, cs, fs)
    {
      if j < |bs| {
        assert (bs + [nb])[j] == bs[j] && (rs + [r])[j] == rs[j];
      }
    }
  }

  /** The body of the load loop for one decoded line: getCustomerByID, then
      getFlightByID, then a new Booking taking the next booking id, added to
      the master list and to the flight (its passengers and its bookings);
      the customer's own booking list is left alone. */
  method RegisterBooking(fbs: FlightBookingSystem, r: BookingRecord) returns (s: Status)
    modifies fbs`bookings, fbs.ids`lastBookingId, fbs.flights.Values`passengers, fbs.flights.Values`bookings
    ensures var e := Refusal(fbs.customers.Keys, fbs.flights.Keys, Ok(r));
      e.Some? ==>
        s == Failed(e.value) && fbs.bookings == old(fbs.bookings) && fbs.ids.lastBookingId == old(fbs.ids.lastBookingId)
        && forall f :: f in fbs.flights.Values ==> f.passengers == old(f.passengers) && f.bookings == old(f.bookings)
    ensures var e := Refusal(fbs.customers.Keys, fbs.flights.Keys, Ok(r));
      e.None? ==>
        s == Done && |fbs.bookings| == |old(fbs.bookings)| + 1
        && var nb := fbs.bookings[|old(fbs.bookings)|];
        fbs.bookings == old(fbs.bookings) + [nb] && fresh(nb)
        && MadeFrom(nb, r, old(fbs.ids.lastBookingId) + 1, fbs.customers, fbs.flights)
        && fbs.ids.lastBookingId == old(fbs.ids.lastBookingId) + 1
        && forall f :: f in fbs.flights.Values ==>
             f.passengers == old(f.passengers) + (if fbs.flights[r.flightId] == f then {fbs.customers[r.customerId]} else {})
             && f.bookings == old(f.bookings) + (if fbs.flights[r.flightId] == f then {nb} else {})
  {
    var c := fbs.GetCustomerById(r.customerId);
    if c.Err? {
      return Failed(c.error);
    }
    var f := fbs.GetFlightById(r.flightId);
    if f.Err? {
      return Failed(f.error);
    }
    var nb := fbs.Attach(c.value, f.value, r.bookingDate);
    s := Done;
  }

  /** A refused line stops the reading. */
  lemma BookingsStop(customerKeys: set<int>, flightKeys: set<int>, loaded: seq<BookingRecord>,
                     ds: seq<Result<BookingRecord>>, i: nat, e: Error)
    requires i < |ds| && Refusal(customerKeys, flightKeys, ds[i]) == Some(e)
    ensures AddBookings(customerKeys, flightKeys, loaded, ds[i..]) == Outcome(loaded, Failed(e))
  {
    assert ds[i..][0] == ds[i];
  }

  /** A line that is not refused is booked and reading goes on. */
  lemma BookingsGoOn(customerKeys: set<int>, flightKeys: set<int>, loaded: seq<BookingRecord>,
                     ds: seq<Result<BookingRecord>>, i: nat)
    requires i < |ds| && Refusal(customerKeys, flightKeys, ds[i]).None?
    ensures AddBookings(customerKeys, flightKeys, loaded, ds[i..])
            == AddBookings(customerKeys, flightKeys, loaded + [ds[i].value], ds[i + 1..])
  {
    assert ds[i..][0] == ds[i];
    assert ds[i..][1..] == ds[i + 1..];
  }

  /** The state the loader has reached after booking records recs as the
      bookings added, against the list bs0, the counter last0 and the flights'
      passengers pass0 and bookings bks0 it started from. */
  ghost predicate Loaded(fbs: FlightBookingSystem, bs0: seq<Booking>, last0: int,
                         pass0: map<Flight, set<Customer>>, bks0: map<Flight, set<Booking>>,
                         recs: seq<BookingRecord>, added: seq<Booking>)
    reads fbs, fbs.ids, fbs.flights.Values, added
  {
    fbs.bookings == bs0 + added
    && fbs.ids.lastBookingId == last0 + |recs|
    && MadeAll(added, recs, last0, fbs.customers, fbs.flights)
    && forall f :: f in fbs.flights.Values ==>
         f in pass0 && f in bks0
         && f.passengers == pass0[f] + PassengersGained(recs, fbs.customers, fbs.flights, f)
         && f.bookings == bks0[f] + BookingsGained(added, recs, fbs.flights, f)
  }

  /** One turn of the load loop: RegisterBooking, seen as a step of Loaded. */
  method RegisterNext(fbs: FlightBookingSystem, r: BookingRecord, ghost bs0: seq<Booking>, ghost last0: int,
                      ghost pass0: map<Flight, set<Customer>>, ghost bks0: map<Flight, set<Booking>>,
                      ghost recs: seq<BookingRecord>, ghost added: seq<Booking>)
    returns (s: Status)
    requires Loaded(fbs, bs0, last0, pass0, bks0, recs, added)
    modifies fbs`bookings, fbs.ids`lastBookingId, fbs.flights.Values`passengers, fbs.flights.Values`bookings
    ensures var e := Refusal(fbs.customers.Keys, fbs.flights.Keys, Ok(r));
      s == if e.Some? then Failed(e.value) else Done
    ensures s.Failed? ==> Loaded(fbs, bs0, last0, pass0, bks0, recs, added)
    ensures s.Done? ==>
      |fbs.bookings| == |old(fbs.bookings)| + 1 && fresh(fbs.bookings[|old(fbs.bookings)|])
      && Loaded(fbs, bs0, last0, pass0, bks0, recs + [r], added + [fbs.bookings[|old(fbs.bookings)|]])
  {
    s := RegisterBooking(fbs, r);
    if s.Failed? {
      assert unchanged(fbs.flights.Values);
    } else {
      ghost var nb := fbs.bookings[|old(fbs.bookings)|];
      GainedSnoc(added, recs, fbs.customers, fbs.flights, nb, r);
      MadeAllSnoc(added, recs, last0, fbs.customers, fbs.flights, nb, r);
      forall f | f in fbs.flights.Values
        ensures f in pass0 && f in bks0
        ensures f.passengers == pass0[f] + PassengersGained(recs + [r], fbs.customers, fbs.flights, f)
        ensures f.bookings == bks0[f] + BookingsGained(added + [nb], recs + [r], fbs.flights, f)
      {
        assert old(f.passengers) == pass0[f] + PassengersGained(recs, fbs.customers, fbs.flights, f);
        assert old(f.bookings) == bks0[f] + BookingsGained(added, recs, fbs.flights, f);
      }
      Regroup(bs0, added, [nb]);
    }
  }

  /** One decoded line of the load loop: a line that does not parse, or whose
      ids are not registered, stops the reading with its error; any other is
      booked and reading goes on. */
  method RegisterLine(fbs: FlightBookingSystem, ds: seq<Result<BookingRecord>>, i: nat,
                      ghost o: Outcome<BookingRecord>, ghost bs0: seq<Booking>, ghost last0: int,
                      ghost pass0: map<Flight, set<Customer>>, ghost bks0: map<Flight, set<Booking>>,
                      ghost recs: seq<BookingRecord>, ghost added: seq<Booking>)
    returns (s: Status, ghost recs': seq<BookingRecord>, ghost added': seq<Booking>)
    requires i < |ds| && o == AddBookings(fbs.customers.Keys, fbs.flights.Keys, recs, ds[i..])
    requires Loaded(fbs, bs0, last0, pass0, bks0, recs, added)
    modifies fbs`bookings, fbs.ids`lastBookingId, fbs.flights.Values`passengers, fbs.flights.Values`bookings
    ensures s.Done? ==> o == AddBookings(fbs.customers.Keys, fbs.flights.Keys, recs', ds[i + 1..])
    ensures s.Failed? ==> o == Outcome(recs', s)
    ensures Loaded(fbs, bs0, last0, pass0, bks0, recs', added')
    ensures forall b :: b in added' ==> b in added || fresh(b)
  {
    recs', added' := recs, added;
    if ds[i].Err? {
      BookingsStop(fbs.customers.Keys, fbs.flights.Keys, recs, ds, i, ds[i].error);
      return Failed(ds[i].error), recs', added';
    }
    var r := ds[i].value;
    ghost var n := |fbs.bookings|;
    s := RegisterNext(fbs, r, bs0, last0, pass0, bks0, recs, added);
    if s.Failed? {
      BookingsStop(fbs.customers.Keys, fbs.flights.Keys, recs, ds, i, s.error);
    } else {
      BookingsGoOn(fbs.customers.Keys, fbs.flights.Keys, recs, ds, i);
      recs', added' := recs + [r], added + [fbs.bookings[n]];
    }
  }

  /** The load loop itself, stated through Loaded: it books the records of
      the lines up to the first refusal and stops with that refusal's error. */
  method RegisterEach(fbs: FlightBookingSystem, ds: seq<Result<BookingRecord>>,
                      ghost pass0: map<Flight, set<Customer>>, ghost bks0: map<Flight, set<Booking>>)
    returns (s: Status, ghost added: seq<Booking>)
    requires Loaded(fbs, fbs.bookings, fbs.ids.lastBookingId, pass0, bks0, [], [])
    modifies fbs`bookings, fbs.ids`lastBookingId, fbs.flights.Values`passengers, fbs.flights.Values`bookings
    ensures var o := AddBookings(fbs.customers.Keys, fbs.flights.Keys, [], ds);
      s == o.status
      && Loaded(fbs, old(fbs.bookings), old(fbs.ids.lastBookingId), pass0, bks0, o.records, added)
      && forall b :: b in added ==> fresh(b)
  {
    ghost var bs0, last0 := fbs.bookings, fbs.ids.lastBookingId;
    ghost var recs: seq<BookingRecord> := [];
    ghost var o := AddBookings(fbs.customers.Keys, fbs.flights.Keys, [], ds);
    added := [];
    var i := 0;
    assert ds[0..] == ds;
    s := Done;
    while i < |ds| && s.Done?
      invariant forall b :: b in added ==> fresh(b)
      invariant 0 <= i <= |ds|
      invariant s.Done? ==> o == AddBookings(fbs.customers.Keys, fbs.flights.Keys, recs, ds[i..])
      invariant s.Failed? ==> o == Outcome(recs, s)
      invariant Loaded(fbs, bs0, last0, pass0, bks0, recs, added)
    {
      s, recs, added := RegisterLine(fbs, ds, i, o, bs0, last0, pass0, bks0, recs, added);
      i := i + 1;
    }
    if s.Done? {
      assert ds[i..] == [];
    }
  }

  /** The registering half of the booking loader: the bookings of the lines
      up to the first refusal are appended to the master list with consecutive
      ids, and each flight gains exactly the new bookings on it and their
      customers; the customers' booking lists are not touched. */
  method RegisterBookings(fbs: FlightBookingSystem, ds: seq<Result<BookingRecord>>) returns (s: Status)
    modifies fbs`bookings, fbs.ids`lastBookingId, fbs.flights.Values`passengers, fbs.flights.Values`bookings
    ensures var o := AddBookings(fbs.customers.Keys, fbs.flights.Keys, [], ds);
      var n0 := |old(fbs.bookings)|;
      s == o.status && n0 <= |fbs.bookings| && fbs.bookings[..n0] == old(fbs.bookings)
      && MadeAll(fbs.bookings[n0..], o.records, old(fbs.ids.lastBookingId), fbs.customers, fbs.flights)
      && fbs.ids.lastBookingId == old(fbs.ids.lastBookingId) + |o.records|
    ensures var o := AddBookings(fbs.customers.Keys, fbs.flights.Keys, [], ds);
      var added := fbs.bookings[|old(fbs.bookings)|..];
      |added| == |o.records| && (forall b :: b in added ==> fresh(b))
      && forall f :: f in fbs.flights.Values ==>
           f.passengers == old(f.passengers) + PassengersGained(o.records, fbs.customers, fbs.flights, f)
           && f.bookings == old(f.bookings) + BookingsGained(added, o.records, fbs.flights, f)
  {
    ghost var bs0 := fbs.bookings;
    ghost var pass0 := map f | f in fbs.flights.Values :: f.passengers;
    ghost var bks0 := map f | f in fbs.flights.Values :: f.bookings;
    assert bs0 + [] == bs0;
    ghost var added;
    s, added := RegisterEach(fbs, ds, pass0, bks0);
    assert fbs.bookings[..|bs0|] == bs0;
    assert fbs.bookings[|bs0|..] == added;
  }

  /** loadData for bookings, given the file's text. Decoding a line has no side
      effect, so decoding every line first and then registering the results in
      order ends in the same state and error as the source's loop, which does
      both per line. */
  method LoadBookings(fbs: FlightBookingSystem, text: string) returns (s: Status)
    modifies fbs`bookings, fbs.ids`lastBookingId, fbs.flights.Values`passengers, fbs.flights.Values`bookings
    ensures var o := ReadBookings(fbs.customers.Keys, fbs.flights.Keys, text);
      var n0 := |old(fbs.bookings)|;
      s == o.status && n0 <= |fbs.bookings| && fbs.bookings[..n0] == old(fbs.bookings)
      && MadeAll(fbs.bookings[n0..], o.records, old(fbs.ids.lastBookingId), fbs.customers, fbs.flights)
      && fbs.ids.lastBookingId == old(fbs.ids.lastBookingId) + |o.records|
    ensures var o := ReadBookings(fbs.customers.Keys, fbs.flights.Keys, text);
      var added := fbs.bookings[|old(fbs.bookings)|..];
      |added| == |o.records| && (forall b :: b in added ==> fresh(b))
      && forall f :: f in fbs.flights.Values ==>
           f.passengers == old(f.passengers) + PassengersGained(o.records, fbs.customers, fbs.flights, f)
           && f.bookings == old(f.bookings) + BookingsGained(added, o.records, fbs.flights, f)
  {
    var lines := Lines(text, ReaderBreaks);
    var ds := DecodeBookings(lines);
    s := RegisterBookings(fbs, ds);
  }
}
