/** data/FlightDataManager.java: one line per flight (storeData) and the
    loader that reads such lines back into a registry (loadData). */
module FlightData {
  import opened Common
  import opened Text
  import opened Entities
  import opened Ordered
  import opened Registry
  import opened DataFormat

  datatype FlightRecord = FlightRecord(id: int, flightNumber: string, origin: string,
                                       destination: string, departureDate: Date,
                                       capacity: int, price: Price)

  function FlightRecordOf(f: Flight): FlightRecord
    reads f
  {
    FlightRecord(f.id, f.flightNumber, f.origin, f.destination, f.departureDate, f.capacity, f.price)
  }

  /** The line storeData writes for a flight: its seven fields, each followed
      by "::". A storable flight's line holds no character at which
      Scanner.nextLine ends a line, so it stays one line of the file. */
  function EncodeFlight(r: FlightRecord): (line: string)
    ensures StorableFlight(r) ==> NoBreak(line, ScannerBreaks)
  {
    FlightFieldsUnbroken(r);
    Terminated(FlightFields(r), Separator)
  }

  /** The fields of a flight line, in the order storeData writes them. */
  function FlightFields(r: FlightRecord): seq<string>
  {
    [IntToString(r.id), r.flightNumber, r.origin, r.destination,
     FormatPatternDate(r.departureDate), IntToString(r.capacity), r.price.text]
  }

  /** The per-line decoding of loadData: at least seven fields (split with limit
      -1) and a non-empty first one, else an error naming the 1-based line; a
      bad id, capacity or price is reported with the line, while a bad date
      escapes as the parser's own exception. Fields past the seventh are ignored. */
  function DecodeFlight(line: string, lineNo: int): (r: Result<FlightRecord>)
    ensures r.Ok? ==> IsInt32(r.value.id) && IsInt32(r.value.capacity) && r.value.departureDate.year >= 1
    ensures r.Err? ==>
              r.error == InvalidData(lineNo) || r.error == UnparsableData(lineNo) || r.error == DateTimeParse
  {
    var p := SplitAll(line, Separator);
    if |p| < 7 || p[0] == "" then Err(InvalidData(lineNo))
    else
      match ParseInt(p[0])
      case None => Err(UnparsableData(lineNo))
      case Some(id) =>
        match ParsePatternDate(p[4])
        case None => Err(DateTimeParse)
        case Some(date) =>
          match ParseInt(p[5])
          case None => Err(UnparsableData(lineNo))
          case Some(capacity) =>
            match ParsePrice(p[6])
            case None => Err(UnparsableData(lineNo))
            case Some(price) => Ok(FlightRecord(id, p[1], p[2], p[3], date, capacity, price))
  }

  /** A flight whose line reads back as itself: int-sized numbers, a departure
      year of the current era, a price in Java syntax, and text fields that
      survive the "::" format and hold no character at which Scanner.nextLine
      ends a line. */
  predicate StorableFlight(r: FlightRecord)
  {
    IsInt32(r.id) && IsInt32(r.capacity) && 1 <= r.departureDate.year <= MaxYear
    && ParsePrice(r.price.text) == Some(r.price)
    && NoSeparator(r.flightNumber) && NoSeparator(r.origin) && NoSeparator(r.destination)
    && NoSeparator(r.price.text)
    && NoBreak(r.flightNumber, ScannerBreaks) && NoBreak(r.origin, ScannerBreaks)
    && NoBreak(r.destination, ScannerBreaks) && NoBreak(r.price.text, ScannerBreaks)
  }

  lemma FlightRoundTrip(r: FlightRecord, lineNo: int)
    requires StorableFlight(r)
    ensures DecodeFlight(EncodeFlight(r), lineNo) == Ok(r)
  {
    FlightLineSplits(r);
    PatternDateRoundTrip(r.departureDate);
    IntRoundTrip(r.id);
    IntRoundTrip(r.capacity);
  }

  lemma FlightFieldsUnbroken(r: FlightRecord)
    ensures StorableFlight(r) ==> NoBreak(Terminated(FlightFields(r), Separator), ScannerBreaks)
  {
    if StorableFlight(r) {
      NumeralNoBreak(IntToString(r.id), ScannerBreaks);
      NumeralNoBreak(IntToString(r.capacity), ScannerBreaks);
      NumeralNoBreak(FormatPatternDate(r.departureDate), ScannerBreaks);
      TerminatedNoBreak(FlightFields(r), ScannerBreaks);
    }
  }

  /** A stored flight line splits back into its seven fields and the empty
      piece after the last separator. */
  lemma FlightLineSplits(r: FlightRecord)
    requires StorableFlight(r)
    ensures SplitAll(EncodeFlight(r), Separator)
            == [IntToString(r.id), r.flightNumber, r.origin, r.destination,
                FormatPatternDate(r.departureDate), IntToString(r.capacity), r.price.text, ""]
  {
    var fields := [IntToString(r.id), r.flightNumber, r.origin, r.destination,
                   FormatPatternDate(r.departureDate), IntToString(r.capacity), r.price.text];
    IntField(r.id);
    IntField(r.capacity);
    DateField(r.departureDate);
    SplitTerminated(fields);
  }

  /** The flight file storeData writes, one line per flight in listing order.
      StoredFlightLines and ReloadFlights state what these lines read back as. */
  function EncodeFlights(rs: seq<FlightRecord>): (lines: seq<string>)
    ensures |lines| == |rs|
  {
    if rs == [] then [] else [EncodeFlight(rs[0])] + EncodeFlights(rs[1..])
  }

  function FlightRecords(fs: seq<Flight>): (rs: seq<FlightRecord>)
    reads fs
    ensures |rs| == |fs| && forall i :: 0 <= i < |fs| ==> rs[i] == FlightRecordOf(fs[i])
  {
    if fs == [] then [] else [FlightRecordOf(fs[0])] + FlightRecords(fs[1..])
  }

  /** The ids of a sequence of flight records. */
  function IdsOf(rs: seq<FlightRecord>): (ids: set<int>)
    ensures forall j :: 0 <= j < |rs| ==> rs[j].id in ids
  {
    if rs == [] then {} else IdsOf(rs[..|rs| - 1]) + {rs[|rs| - 1].id}
  }

  /** Appending a record adds its id. */
  lemma IdsOfSnoc(rs: seq<FlightRecord>, r: FlightRecord)
    ensures IdsOf(rs + [r]) == IdsOf(rs) + {r.id}
  {
    assert (rs + [r])[..|rs|] == rs;
  }

  /** The per-line results of decoding a flight file, lines numbered from lineNo.
      ReloadFlights states what they give for a stored file. */
  function DecodeFlights(lines: seq<string>, lineNo: int): (ds: seq<Result<FlightRecord>>)
    ensures |ds| == |lines|
  {
    if lines == [] then [] else [DecodeFlight(lines[0], lineNo)] + DecodeFlights(lines[1..], lineNo + 1)
  }

  /** What registering decoded flights does: `keys` are the ids already
      registered and `loaded` the records added so far; each record is added
      unless its id is taken, and the first error stops the load with the
      records before it kept. */
  function AddFlights(keys: set<int>, loaded: seq<FlightRecord>, ds: seq<Result<FlightRecord>>)
    : (o: Outcome<FlightRecord>)
    ensures |loaded| <= |o.records| <= |loaded| + |ds|
    ensures o.status == Done ==> |o.records| == |loaded| + |ds|
    decreases |ds|
  {
    if ds == [] then Outcome(loaded, Done)
    else
      match ds[0]
      case Err(e) => Outcome(loaded, Failed(e))
      case Ok(r) =>
        if r.id in keys then Outcome(loaded, Failed(FlightIdExists(r.id)))
        else AddFlights(keys + {r.id}, loaded + [r], ds[1..])
  }

  /** What loading the flight file's text does, given the ids already
      registered: Scanner.nextLine cuts it into lines, numbered from 1. */
  function ReadFlights(keys: set<int>, text: string): Outcome<FlightRecord>
  {
    AddFlights(keys, [], DecodeFlights(Lines(text, ScannerBreaks), 1))
  }

  /** Loading adds each new flight once, under an id not registered before. */
  lemma {:induction false} AddedFlightsAreNew(keys: set<int>, loaded: seq<FlightRecord>, ds: seq<Result<FlightRecord>>)
    ensures var o := AddFlights(keys, loaded, ds);
      loaded <= o.records
      && (forall j :: |loaded| <= j < |o.records| ==> o.records[j].id !in keys)
      && forall i, j :: |loaded| <= i < j < |o.records| ==> o.records[i].id != o.records[j].id
    decreases |ds|
  {
    if ds != [] && ds[0].Ok? && ds[0].value.id !in keys {
      var r := ds[0].value;
      AddedFlightsAreNew(keys + {r.id}, loaded + [r], ds[1..]);
      var o := AddFlights(keys, loaded, ds);
      assert o == AddFlights(keys + {r.id}, loaded + [r], ds[1..]);
      forall i, j | |loaded| <= i < j < |o.records|
        ensures o.records[i].id != o.records[j].id
      {
        if i == |loaded| {
          assert o.records[i] == r;
        }
      }
    }
  }

  /** Every record is storable (stated record by record, head first). */
  predicate StorableFlights(rs: seq<FlightRecord>)
  {
    rs == [] || (StorableFlight(rs[0]) && StorableFlights(rs[1..]))
  }

  /** Each id is new: not among `keys` nor among the ids before it. */
  predicate FreshIds(keys: set<int>, rs: seq<FlightRecord>)
    decreases |rs|
  {
    rs == [] || (rs[0].id !in keys && FreshIds(keys + {rs[0].id}, rs[1..]))
  }

  lemma {:induction false} StorableFlightsAll(rs: seq<FlightRecord>)
    requires forall j :: 0 <= j < |rs| ==> StorableFlight(rs[j])
    ensures StorableFlights(rs)
  {
    if rs != [] {
      assert StorableFlight(rs[0]);
      forall j | 0 <= j < |rs[1..]|
        ensures StorableFlight(rs[1..][j])
      {
        assert rs[1..][j] == rs[j + 1];
      }
      StorableFlightsAll(rs[1..]);
    }
  }

  lemma {:induction false} FreshIdsDistinct(keys: set<int>, rs: seq<FlightRecord>)
    requires forall j :: 0 <= j < |rs| ==> rs[j].id !in keys
    requires forall i, j :: 0 <= i < j < |rs| ==> rs[i].id != rs[j].id
    ensures FreshIds(keys, rs)
    decreases |rs|
  {
    if rs != [] {
      forall j | 0 <= j < |rs[1..]|
        ensures rs[1..][j].id !in keys + {rs[0].id}
      {
        assert rs[1..][j] == rs[j + 1];
      }
      FreshIdsDistinct(keys + {rs[0].id}, rs[1..]);
    }
  }

  /** A stored flight file reads back as its lines. */
  lemma {:induction false} StoredFlightLines(rs: seq<FlightRecord>, eol: string)
    requires IsLineSeparator(eol) && StorableFlights(rs)
    ensures Lines(FileText(EncodeFlights(rs), eol), ScannerBreaks) == EncodeFlights(rs)
  {
    var lines := EncodeFlights(rs);
    forall i | 0 <= i < |lines|
      ensures NoBreak(lines[i], ScannerBreaks)
    {
      StorableAt(rs, i);
      EncodeFlightsAt(rs, i);
    }
    LinesOfFileText(lines, eol, ScannerBreaks);
  }

  lemma {:induction false} StorableAt(rs: seq<FlightRecord>, i: nat)
    requires StorableFlights(rs) && i < |rs|
    ensures StorableFlight(rs[i])
  {
    if i > 0 {
      StorableAt(rs[1..], i - 1);
    }
  }

  lemma {:induction false} EncodeFlightsAt(rs: seq<FlightRecord>, i: nat)
    requires i < |rs|
    ensures EncodeFlights(rs)[i] == EncodeFlight(rs[i])
  {
    if i > 0 {
      EncodeFlightsAt(rs[1..], i - 1);
    }
  }

  /** Every line of a stored flight file decodes to its flight. */
  lemma {:induction false} DecodeStoredFlights(rs: seq<FlightRecord>, lineNo: int)
    requires StorableFlights(rs)
    ensures DecodeFlights(EncodeFlights(rs), lineNo) == Decoded(rs)
    decreases |rs|
  {
    if rs != [] {
      var lines := EncodeFlights(rs);
      FlightRoundTrip(rs[0], lineNo);
      assert lines[0] == EncodeFlight(rs[0]);
      assert lines[1..] == EncodeFlights(rs[1..]);
      DecodeStoredFlights(rs[1..], lineNo + 1);
    }
  }

  /** Registering flights with fresh ids adds exactly those flights, in order. */
  lemma {:induction false} AddFreshFlights(keys: set<int>, loaded: seq<FlightRecord>, rs: seq<FlightRecord>)
    requires FreshIds(keys, rs)
    ensures AddFlights(keys, loaded, Decoded(rs)) == Outcome(loaded + rs, Done)
    decreases |rs|
  {
    if rs == [] {
      assert loaded + rs == loaded;
    } else {
      var ds := Decoded(rs);
      assert ds[0] == Ok(rs[0]) && ds[0..] == ds && ds[1..] == Decoded(rs[1..]);
      AddFlightsAdds(keys, loaded, ds, 0, rs[0]);
      AddFreshFlights(keys + {rs[0].id}, loaded + [rs[0]], rs[1..]);
      assert loaded + [rs[0]] + rs[1..] == loaded + rs;
    }
  }

  /** Storing storable flights whose ids are distinct and not yet registered,
      then loading the file back, adds exactly those flights, in order,
      whichever line separator the platform writes. */
  lemma ReloadFlights(keys: set<int>, rs: seq<FlightRecord>, eol: string)
    requires IsLineSeparator(eol)
    requires forall j :: 0 <= j < |rs| ==> StorableFlight(rs[j]) && rs[j].id !in keys
    requires forall i, j :: 0 <= i < j < |rs| ==> rs[i].id != rs[j].id
    ensures ReadFlights(keys, FileText(EncodeFlights(rs), eol)) == Outcome(rs, Done)
  {
    StorableFlightsAll(rs);
    StoredFlightLines(rs, eol);
    FreshIdsDistinct(keys, rs);
    DecodeStoredFlights(rs, 1);
    AddFreshFlights(keys, [], rs);
  }

  /** What storeData writes for the registry's flight listing (getFlights, in
      key order) loads back, into a registry without flights, as the same
      flights, when each flight sits under its own id and is storable. */
  lemma StoredFlightsReload(fs: map<int, Flight>, listing: seq<Flight>, eol: string)
    requires IsLineSeparator(eol)
    requires InKeyOrder(fs, listing)
    requires forall k :: k in fs ==> fs[k].id == k
    requires forall i :: 0 <= i < |listing| ==> StorableFlight(FlightRecordOf(listing[i]))
    ensures ReadFlights({}, FileText(EncodeFlights(FlightRecords(listing)), eol)) == Outcome(FlightRecords(listing), Done)
  {
    var rs := FlightRecords(listing);
    FlightsInIdOrder(fs, listing);
    forall i, j | 0 <= i < j < |rs|
      ensures rs[i].id != rs[j].id
    {
      assert rs[i].id == listing[i].id && rs[j].id == listing[j].id;
    }
    forall j | 0 <= j < |rs|
      ensures StorableFlight(rs[j]) && rs[j].id !in {}
    {
      assert rs[j] == FlightRecordOf(listing[j]);
    }
    ReloadFlights({}, rs, eol);
  }

  /** A record that registers adds it and reading goes on. */
  lemma AddFlightsAdds(keys: set<int>, loaded: seq<FlightRecord>, ds: seq<Result<FlightRecord>>, i: nat, r: FlightRecord)
    requires i < |ds| && ds[i] == Ok(r) && r.id !in keys
    ensures AddFlights(keys, loaded, ds[i..]) == AddFlights(keys + {r.id}, loaded + [r], ds[i + 1..])
  {
    assert ds[i..][0] == ds[i];
    assert ds[i..][1..] == ds[i + 1..];
  }

  /** An error, or a taken id, stops the reading. */
  lemma AddFlightsStops(keys: set<int>, loaded: seq<FlightRecord>, ds: seq<Result<FlightRecord>>, i: nat, e: Error)
    requires i < |ds|
    requires ds[i] == Err(e) || (ds[i].Ok? && ds[i].value.id in keys && e == FlightIdExists(ds[i].value.id))
    ensures AddFlights(keys, loaded, ds[i..]) == Outcome(loaded, Failed(e))
  {
    assert ds[i..][0] == ds[i];
  }

  /** A flight registered by the loader: the record's fields, with no passengers
      and no bookings yet. */
  ghost predicate Installed(fs: map<int, Flight>, r: FlightRecord)
    reads fs.Values
  {
    r.id in fs && FlightRecordOf(fs[r.id]) == r && fs[r.id].passengers == {} && fs[r.id].bookings == {}
  }

  /** Installed flights stay installed while their objects are untouched. */
  twostate lemma InstalledKept(fs: map<int, Flight>)
    requires forall f :: f in fs.Values ==> unchanged(f)
    ensures forall r :: Installed(fs, r) == old(Installed(fs, r))
  { }

  /** The body of the load loop for one decoded line: a new Flight with the
      record's fields, handed to addFlight. */
  method RegisterFlight(fbs: FlightBookingSystem, r: FlightRecord) returns (s: Status, ghost f: Flight)
    modifies fbs`flights
    ensures r.id in old(fbs.flights) ==> s == Failed(FlightIdExists(r.id)) && fbs.flights == old(fbs.flights)
    ensures r.id !in old(fbs.flights) ==>
              s == Done && fresh(f) && fbs.flights == old(fbs.flights)[r.id := f]
              && fbs.flights.Keys == old(fbs.flights.Keys) + {r.id} && Installed(fbs.flights, r)
    ensures forall x :: old(Installed(fbs.flights, x)) ==> Installed(fbs.flights, x)
  {
    ghost var before := fbs.flights;
    label Before:
    var nf := new Flight(r.id, r.flightNumber, r.origin, r.destination, r.departureDate, r.capacity, r.price);
    f := nf;
    s := fbs.AddFlight(nf);
    InstalledKept@Before(before);
    if s.Done? {
      assert fbs.flights.Keys == old(fbs.flights.Keys) + {r.id};
      forall x | Installed(before, x)
        ensures Installed(fbs.flights, x)
      {
        assert x.id != r.id;
      }
    }
  }

  /** loadData for flights, given the file's text. Decoding a line has no side
      effect, so decoding every line first and then registering the results in
      order ends in the same state and error as the source's loop, which does
      both per line. */
  method LoadFlights(fbs: FlightBookingSystem, text: string) returns (s: Status)
    modifies fbs`flights
    ensures var o := ReadFlights(old(fbs.flights.Keys), text);
      s == o.status
      && fbs.flights.Keys == old(fbs.flights.Keys) + IdsOf(o.records)
      && (forall j :: 0 <= j < |o.records| ==> Installed(fbs.flights, o.records[j]))
    ensures forall k :: k in fbs.flights ==>
              if k in old(fbs.flights) then fbs.flights[k] == old(fbs.flights[k]) else fresh(fbs.flights[k])
  {
    var lines := Lines(text, ScannerBreaks);
    var ds := DecodeFlights(lines, 1);
    s := RegisterFlights(fbs, ds);
  }

  /** The registering half of the flight loader: each decoded flight becomes a
      new Flight handed to addFlight; the first error (a bad line or a taken id)
      ends the load. */
  method RegisterFlights(fbs: FlightBookingSystem, ds: seq<Result<FlightRecord>>) returns (s: Status)
    modifies fbs`flights
    ensures var o := AddFlights(old(fbs.flights.Keys), [], ds);
      s == o.status
      && fbs.flights.Keys == old(fbs.flights.Keys) + IdsOf(o.records)
      && (forall j :: 0 <= j < |o.records| ==> Installed(fbs.flights, o.records[j]))
    ensures forall k :: k in fbs.flights ==>
              if k in old(fbs.flights) then fbs.flights[k] == old(fbs.flights[k]) else fresh(fbs.flights[k])
  {
    ghost var keys := fbs.flights.Keys;
    ghost var recs: seq<FlightRecord> := [];
    var i := 0;
    assert ds[0..] == ds;
    while i < |ds|
      invariant 0 <= i <= |ds|
      invariant AddFlights(keys, [], ds) == AddFlights(fbs.flights.Keys, recs, ds[i..])
      invariant fbs.flights.Keys == keys + IdsOf(recs)
      invariant forall j :: 0 <= j < |recs| ==> Installed(fbs.flights, recs[j])
      invariant forall k :: k in fbs.flights ==>
                  if k in old(fbs.flights) then fbs.flights[k] == old(fbs.flights[k]) else fresh(fbs.flights[k])
    {
      ghost var present := fbs.flights.Keys;
      if ds[i].Err? {
        AddFlightsStops(present, recs, ds, i, ds[i].error);
        return Failed(ds[i].error);
      }
      var r := ds[i].value;
      if r.id in fbs.flights {
        AddFlightsStops(present, recs, ds, i, FlightIdExists(r.id));
      } else {
        AddFlightsAdds(present, recs, ds, i, r);
      }
      ghost var f;
      s, f := RegisterFlight(fbs, r);
      if s.Failed? {
        return;
      }
      IdsOfSnoc(recs, r);
      recs := recs + [r];
      i := i + 1;
    }
    assert ds[i..] == [];
    s := Done;
  }
}
