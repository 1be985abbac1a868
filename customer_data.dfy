/** data/CustomerDataManager.java: one line per customer (storeData) and the
    loader that reads such lines back into a registry (loadData). */
module CustomerData {
  import opened Common
  import opened Text
  import opened Entities
  import opened Ordered
  import opened Registry
  import opened DataFormat

  datatype CustomerRecord = CustomerRecord(id: int, name: string, phone: string, email: string)

  function CustomerRecordOf(c: Customer): CustomerRecord
    reads c
  {
    CustomerRecord(c.id, c.name, c.phone, c.email)
  }

  /** The line storeData writes for a customer: id, name, phone and e-mail,
      each followed by "::". A storable customer's line holds no character at
      which BufferedReader.readLine ends a line, so it stays one line of the file. */
  function EncodeCustomer(r: CustomerRecord): (line: string)
    ensures StorableCustomer(r) ==> NoBreak(line, ReaderBreaks)
  {
    CustomerFieldsUnbroken(r);
    Terminated([IntToString(r.id), r.name, r.phone, r.email], Separator)
  }

  /** The per-line decoding of loadData: split("::") must give exactly four
      pieces, otherwise the line is skipped (None); a first piece that is not
      an int throws NumberFormatException, which aborts the load. */
  function DecodeCustomer(line: string): (r: Result<Option<CustomerRecord>>)
    ensures r.Err? ==> r.error == NumberFormat
    ensures r.Ok? && r.value.Some? ==> IsInt32(r.value.value.id)
  {
    var p := SplitDroppingTrailing(line, Separator);
    if |p| != 4 then Ok(None)
    else
      match ParseInt(p[0])
      case None => Err(NumberFormat)
      case Some(id) => Ok(Some(CustomerRecord(id, p[1], p[2], p[3])))
  }

  /** A customer whose line reads back as itself: an int id, and text fields
      that survive the "::" format and hold no character at which
      BufferedReader.readLine ends a line. */
  predicate StorableCustomer(r: CustomerRecord)
  {
    IsInt32(r.id) && NoSeparator(r.name) && NoSeparator(r.phone) && NoSeparator(r.email)
    && NoBreak(r.name, ReaderBreaks) && NoBreak(r.phone, ReaderBreaks) && NoBreak(r.email, ReaderBreaks)
  }

  lemma CustomerFieldsUnbroken(r: CustomerRecord)
    ensures StorableCustomer(r) ==>
              NoBreak(Terminated([IntToString(r.id), r.name, r.phone, r.email], Separator), ReaderBreaks)
  {
    if StorableCustomer(r) {
      NumeralNoBreak(IntToString(r.id), ReaderBreaks);
      TerminatedNoBreak([IntToString(r.id), r.name, r.phone, r.email], ReaderBreaks);
    }
  }

  /** A stored customer with a non-empty e-mail reads back as itself. */
  lemma CustomerRoundTrip(r: CustomerRecord)
    requires StorableCustomer(r) && r.email != ""
    ensures DecodeCustomer(EncodeCustomer(r)) == Ok(Some(r))
  {
    IntField(r.id);
    IntRoundTrip(r.id);
    SplitStored([IntToString(r.id), r.name, r.phone, r.email]);
  }

  /** A stored customer with an empty e-mail loses its last field and is skipped. */
  lemma EmptyEmailSkipped(r: CustomerRecord)
    requires StorableCustomer(r) && r.email == ""
    ensures DecodeCustomer(EncodeCustomer(r)) == Ok(None)
  {
    IntField(r.id);
    SplitStoredEmptyLast([IntToString(r.id), r.name, r.phone, r.email]);
  }

  /** A name ending in ':' fuses with the separator that follows it: the name
      comes back without its colon and the phone gains one. */
  lemma ColonEndingNameShifts(r: CustomerRecord, w: string)
    requires r.name == w + ":" && r.email != ""
    requires StorableCustomer(CustomerRecord(r.id, w, ":" + r.phone, r.email))
    ensures DecodeCustomer(EncodeCustomer(r)) == Ok(Some(CustomerRecord(r.id, w, ":" + r.phone, r.email)))
  {
    var shifted := CustomerRecord(r.id, w, ":" + r.phone, r.email);
    var id := IntToString(r.id);
    var tail := Terminated([r.phone, r.email], Separator);
    var shiftedTail := Terminated([":" + r.phone, r.email], Separator);
    TerminatedCons(r.phone, [r.email]);
    TerminatedCons(":" + r.phone, [r.email]);
    assert shiftedTail == ":" + tail;
    TerminatedCons(r.name, [r.phone, r.email]);
    TerminatedCons(w, [":" + r.phone, r.email]);
    TerminatedCons(id, [r.name, r.phone, r.email]);
    TerminatedCons(id, [w, ":" + r.phone, r.email]);
    assert EncodeCustomer(r) == id + Separator + ((w + ":") + Separator + tail);
    assert EncodeCustomer(shifted) == id + Separator + (w + Separator + shiftedTail);
    assert (w + ":") + Separator + tail == w + Separator + (":" + tail) by {
      assert ":" + Separator == Separator + ":";
    }
    assert EncodeCustomer(r) == EncodeCustomer(shifted);
    CustomerRoundTrip(shifted);
  }

  /** The customer file storeData writes, one line per customer in listing order.
      StoredCustomerLines and ReloadCustomers state what these lines read back as. */
  function EncodeCustomers(rs: seq<CustomerRecord>): (lines: seq<string>)
    ensures |lines| == |rs|
  {
    if rs == [] then [] else [EncodeCustomer(rs[0])] + EncodeCustomers(rs[1..])
  }

  function CustomerRecords(cs: seq<Customer>): (rs: seq<CustomerRecord>)
    reads cs
    ensures |rs| == |cs| && forall i :: 0 <= i < |cs| ==> rs[i] == CustomerRecordOf(cs[i])
  {
    if cs == [] then [] else [CustomerRecordOf(cs[0])] + CustomerRecords(cs[1..])
  }

  /** The per-line results of decoding a customer file. ReloadCustomers states
      what they give for a stored file. */
  function DecodeCustomers(lines: seq<string>): (ds: seq<Result<Option<CustomerRecord>>>)
    ensures |ds| == |lines|
  {
    if lines == [] then [] else [DecodeCustomer(lines[0])] + DecodeCustomers(lines[1..])
  }

  // ---------------------------------------------------------------------------
  // What loading does to the customer side of a registry

  /** The customer side of a registry as values: the record stored under each
      key, and the id counter (nextCustomerId). */
  datatype Directory = Directory(rows: map<int, CustomerRecord>, next: int)

  /** Some stored customer has e-mail e, ignoring case. */
  predicate EmailListed(rows: map<int, CustomerRecord>, e: string)
  {
    exists k :: k in rows && EqualsIgnoreCase(rows[k].email, e)
  }

  /** addCustomer on values: an e-mail already present (ignoring case) is
      refused; id 0 takes the counter, which then advances; any other id is
      kept, raises the counter to the int id + 1 (which wraps to the smallest
      int for the largest id) and replaces a row under that key. */
  function Admit(d: Directory, r: CustomerRecord): (res: Result<Directory>)
    ensures res.Err? <==> EmailListed(d.rows, r.email)
    ensures res.Err? ==> res.error == EmailExists(r.email)
    ensures res.Ok? ==> d.rows.Keys <= res.value.rows.Keys && d.next <= res.value.next
  {
    if EmailListed(d.rows, r.email) then Err(EmailExists(r.email))
    else if r.id == 0 then Ok(Directory(d.rows[d.next := r.(id := d.next)], d.next + 1))
    else Ok(Directory(d.rows[r.id := r], Max(d.next, AddInt(r.id, 1))))
  }

  /** A customer with the largest int id does not move the counter: id + 1
      wraps around, so its key is not below the counter afterwards. */
  lemma LargestIdKeepsCounter(d: Directory, r: CustomerRecord)
    requires r.id == MaxInt && !EmailListed(d.rows, r.email) && 1 <= d.next <= MaxInt
    ensures Admit(d, r).Ok? && Admit(d, r).value.next == d.next
    ensures r.id in Admit(d, r).value.rows && r.id >= Admit(d, r).value.next
  {
    AddOneWraps();
  }

  /** No two stored customers share an e-mail, ignoring case. */
  predicate DistinctEmails(rows: map<int, CustomerRecord>)
  {
    forall k1, k2 :: k1 in rows && k2 in rows && k1 != k2 ==> !EqualsIgnoreCase(rows[k1].email, rows[k2].email)
  }

  /** What addCustomer keeps true of a registry that starts empty with the
      counter at 1: each customer is stored under its own non-zero id, below
      the counter unless it is the largest int, and e-mails are unique
      ignoring case. */
  predicate Sound(d: Directory)
  {
    1 <= d.next
    && (forall k :: k in d.rows ==> d.rows[k].id == k && k != 0 && (k < d.next || k == MaxInt))
    && DistinctEmails(d.rows)
  }

  /** An admitted customer keeps the directory sound, keeps every key and
      makes its e-mail taken; a refused one names that e-mail. */
  lemma AdmitKeepsSound(d: Directory, r: CustomerRecord)
    requires Sound(d) && IsInt32(r.id)
    ensures Admit(d, r).Err? <==> EmailListed(d.rows, r.email)
    ensures Admit(d, r).Err? ==> Admit(d, r).error == EmailExists(r.email)
    ensures Admit(d, r).Ok? ==>
              var e := Admit(d, r).value;
              Sound(e) && d.rows.Keys <= e.rows.Keys && d.next <= e.next && EmailListed(e.rows, r.email)
  {
    if !EmailListed(d.rows, r.email) {
      var e := Admit(d, r).value;
      var k := if r.id == 0 then d.next else r.id;
      assert e.rows == d.rows[k := r.(id := k)];
      assert e.rows[k].email == r.email;
      forall k1, k2 | k1 in e.rows && k2 in e.rows && k1 != k2
        ensures !EqualsIgnoreCase(e.rows[k1].email, e.rows[k2].email)
      {
        if k1 == k {
          assert !EqualsIgnoreCase(d.rows[k2].email, r.email);
        } else if k2 == k {
          assert !EqualsIgnoreCase(d.rows[k1].email, r.email);
        }
      }
    }
  }

  /** How registering decoded customer lines ends. */
  datatype Admitted = Admitted(dir: Directory, status: Status)

  /** What registering decoded customer lines does: a skipped line changes
      nothing, a customer goes through addCustomer, and the first exception (a
      bad id or a taken e-mail) ends the load with the customers before it kept. */
  function AddCustomers(d: Directory, ds: seq<Result<Option<CustomerRecord>>>): (o: Admitted)
    ensures d.rows.Keys <= o.dir.rows.Keys && d.next <= o.dir.next
    decreases |ds|
  {
    if ds == [] then Admitted(d, Done)
    else
      match ds[0]
      case Err(e) => Admitted(d, Failed(e))
      case Ok(None) => AddCustomers(d, ds[1..])
      case Ok(Some(r)) =>
        match Admit(d, r)
        case Err(e) => Admitted(d, Failed(e))
        case Ok(next) => AddCustomers(next, ds[1..])
  }

  /** What loading the customer file's text does, given the customer side
      before: BufferedReader.readLine cuts it into lines. */
  function ReadCustomers(d: Directory, text: string): Admitted
  {
    AddCustomers(d, DecodeCustomers(Lines(text, ReaderBreaks)))
  }

  /** Every customer found on a line has an int id (as decoding ensures). */
  predicate IntIds(ds: seq<Result<Option<CustomerRecord>>>)
  {
    forall j :: 0 <= j < |ds| && ds[j].Ok? && ds[j].value.Some? ==> IsInt32(ds[j].value.value.id)
  }

  /** Loading keeps a sound directory sound, keeps every key it had and never
      moves the counter back. */
  lemma {:induction false} AddCustomersKeepsSound(d: Directory, ds: seq<Result<Option<CustomerRecord>>>)
    requires Sound(d) && IntIds(ds)
    ensures var o := AddCustomers(d, ds);
      Sound(o.dir) && d.rows.Keys <= o.dir.rows.Keys && d.next <= o.dir.next
    decreases |ds|
  {
    if ds != [] && ds[0].Ok? {
      assert IntIds(ds[1..]) by {
        assert forall j :: 0 <= j < |ds[1..]| ==> ds[1..][j] == ds[j + 1];
      }
      match ds[0].value
      case None =>
        AddCustomersKeepsSound(d, ds[1..]);
      case Some(r) =>
        AdmitKeepsSound(d, r);
        if Admit(d, r).Ok? {
          AddCustomersKeepsSound(Admit(d, r).value, ds[1..]);
        }
    }
  }

  // ---------------------------------------------------------------------------
  // Storing, then loading

  /** The rows after putting each record under its id, in order. */
  function Insert(rows: map<int, CustomerRecord>, rs: seq<CustomerRecord>): map<int, CustomerRecord>
    decreases |rs|
  {
    if rs == [] then rows else Insert(rows[rs[0].id := rs[0]], rs[1..])
  }

  /** The counter after Math.max with each int id + 1, in order: it ends past
      every id but the largest int, whose + 1 wraps around. */
  function NextAfter(n: int, rs: seq<CustomerRecord>): (m: int)
    ensures n <= m && forall j :: 0 <= j < |rs| && IsInt32(rs[j].id) && rs[j].id != MaxInt ==> rs[j].id < m
    decreases |rs|
  {
    if rs == [] then n
    else
      var m := NextAfter(Max(n, AddInt(rs[0].id, 1)), rs[1..]);
      assert forall j :: 1 <= j < |rs| ==> rs[j] == rs[1..][j - 1];
      m
  }

  /** Every record decodes as itself (stated head first). */
  predicate StorableCustomers(rs: seq<CustomerRecord>)
  {
    rs == [] || (StorableCustomer(rs[0]) && rs[0].email != "" && StorableCustomers(rs[1..]))
  }

  /** Each e-mail is new, ignoring case, when its record comes to be added. */
  predicate FreshEmails(rows: map<int, CustomerRecord>, rs: seq<CustomerRecord>)
    decreases |rs|
  {
    rs == [] || (!EmailListed(rows, rs[0].email) && FreshEmails(rows[rs[0].id := rs[0]], rs[1..]))
  }

  /** Each record found on its line. */
  function Found(rs: seq<CustomerRecord>): (ds: seq<Result<Option<CustomerRecord>>>)
    ensures |ds| == |rs| && forall j :: 0 <= j < |rs| ==> ds[j] == Ok(Some(rs[j]))
  {
    if rs == [] then [] else [Ok(Some(rs[0]))] + Found(rs[1..])
  }

  lemma {:induction false} StorableCustomersAll(rs: seq<CustomerRecord>)
    requires forall j :: 0 <= j < |rs| ==> StorableCustomer(rs[j]) && rs[j].email != ""
    ensures StorableCustomers(rs)
  {
    if rs != [] {
      forall j | 0 <= j < |rs[1..]|
        ensures StorableCustomer(rs[1..][j]) && rs[1..][j].email != ""
      {
        assert rs[1..][j] == rs[j + 1];
      }
      StorableCustomersAll(rs[1..]);
    }
  }

  /** Adding a row whose e-mail differs from e leaves e free. */
  lemma StillFree(rows: map<int, CustomerRecord>, k: int, r: CustomerRecord, e: string)
    requires !EmailListed(rows, e) && !EqualsIgnoreCase(r.email, e)
    ensures !EmailListed(rows[k := r], e)
  {
    var rows' := rows[k := r];
    forall k' | k' in rows'
      ensures !EqualsIgnoreCase(rows'[k'].email, e)
    {
      if k' != k {
        assert k' in rows;
      }
    }
  }

  lemma {:induction false} FreshEmailsDistinct(rows: map<int, CustomerRecord>, rs: seq<CustomerRecord>)
    requires forall j :: 0 <= j < |rs| ==> !EmailListed(rows, rs[j].email)
    requires forall i, j :: 0 <= i < j < |rs| ==> !EqualsIgnoreCase(rs[i].email, rs[j].email)
    ensures FreshEmails(rows, rs)
    decreases |rs|
  {
    if rs != [] {
      var rows' := rows[rs[0].id := rs[0]];
      forall j | 0 <= j < |rs[1..]|
        ensures !EmailListed(rows', rs[1..][j].email)
      {
        assert rs[1..][j] == rs[j + 1];
        StillFree(rows, rs[0].id, rs[0], rs[j + 1].email);
      }
      FreshEmailsDistinct(rows', rs[1..]);
    }
  }

  /** Every line of a stored customer file decodes to its customer. */
  lemma {:induction false} DecodeStoredCustomers(rs: seq<CustomerRecord>)
    requires StorableCustomers(rs)
    ensures DecodeCustomers(EncodeCustomers(rs)) == Found(rs)
    decreases |rs|
  {
    if rs != [] {
      var lines := EncodeCustomers(rs);
      CustomerRoundTrip(rs[0]);
      assert lines[0] == EncodeCustomer(rs[0]);
      assert lines[1..] == EncodeCustomers(rs[1..]);
      DecodeStoredCustomers(rs[1..]);
    }
  }

  /** Registering customers with non-zero ids and new e-mails puts each under
      its id and advances the counter past every id. */
  lemma {:induction false} AddFreshCustomers(d: Directory, rs: seq<CustomerRecord>)
    requires forall j :: 0 <= j < |rs| ==> rs[j].id != 0
    requires FreshEmails(d.rows, rs)
    ensures AddCustomers(d, Found(rs)) == Admitted(Directory(Insert(d.rows, rs), NextAfter(d.next, rs)), Done)
    decreases |rs|
  {
    if rs != [] {
      assert Found(rs)[1..] == Found(rs[1..]);
      assert rs[0].id != 0;
      var d' := Directory(d.rows[rs[0].id := rs[0]], Max(d.next, AddInt(rs[0].id, 1)));
      assert Admit(d, rs[0]) == Ok(d');
      forall j | 0 <= j < |rs[1..]|
        ensures rs[1..][j].id != 0
      {
        assert rs[1..][j] == rs[j + 1];
      }
      AddFreshCustomers(d', rs[1..]);
    }
  }

  lemma {:induction false} EncodeCustomersAt(rs: seq<CustomerRecord>, i: nat)
    requires i < |rs|
    ensures EncodeCustomers(rs)[i] == EncodeCustomer(rs[i])
  {
    if i > 0 {
      EncodeCustomersAt(rs[1..], i - 1);
    }
  }

  /** A stored customer file reads back as its lines. */
  lemma StoredCustomerLines(rs: seq<CustomerRecord>, eol: string)
    requires IsLineSeparator(eol)
    requires forall j :: 0 <= j < |rs| ==> StorableCustomer(rs[j])
    ensures Lines(FileText(EncodeCustomers(rs), eol), ReaderBreaks) == EncodeCustomers(rs)
  {
    var lines := EncodeCustomers(rs);
    forall i | 0 <= i < |lines|
      ensures NoBreak(lines[i], ReaderBreaks)
    {
      EncodeCustomersAt(rs, i);
    }
    LinesOfFileText(lines, eol, ReaderBreaks);
  }

  /** A name with a line break inside cuts the customer's line in two: a line
      of two fields and one of three, both skipped, so the customer is not
      loaded. */
  lemma BrokenNameSkipped(d: Directory, r: CustomerRecord, w1: string, w2: string)
    requires r.name == w1 + "\n" + w2 && w1 != "" && w2 != ""
    requires NoColon(w1) && NoColon(w2) && NoBreak(w1, ReaderBreaks) && NoBreak(w2, ReaderBreaks)
    requires StorableCustomer(r.(name := w1))
    ensures var id := IntToString(r.id);
      Lines(FileText(EncodeCustomers([r]), "\n"), ReaderBreaks)
        == [id + Separator + w1, Terminated([w2, r.phone, r.email], Separator)]
    ensures ReadCustomers(d, FileText(EncodeCustomers([r]), "\n")) == Admitted(d, Done)
  {
    var id := IntToString(r.id);
    var a := id + Separator + w1;
    var b := Terminated([w2, r.phone, r.email], Separator);
    BrokenNameText(r, w1, w2);
    BrokenNamePieces(r, w1, w2);
    LinesOfFileText([a, b], "\n", ReaderBreaks);
    TwoFieldsSkipped(id, w1);
    ThreeFieldsSkipped(w2, r.phone, r.email);
    var skipped: seq<Result<Option<CustomerRecord>>> := [Ok(None), Ok(None)];
    assert DecodeCustomers([a, b]) == skipped by {
      assert [a, b][1..] == [b] && [b][1..] == [];
    }
    assert skipped[1..] == [Ok(None)] && skipped[1..][1..] == [];
  }

  /** The file of that one customer is the file of its two pieces. */
  lemma BrokenNameText(r: CustomerRecord, w1: string, w2: string)
    requires r.name == w1 + "\n" + w2
    ensures FileText(EncodeCustomers([r]), "\n")
            == FileText([IntToString(r.id) + Separator + w1, Terminated([w2, r.phone, r.email], Separator)], "\n")
  {
    var id := IntToString(r.id);
    var a := id + Separator + w1;
    var b := Terminated([w2, r.phone, r.email], Separator);
    TerminatedCons(w2, [r.phone, r.email]);
    TerminatedCons(r.name, [r.phone, r.email]);
    TerminatedCons(id, [r.name, r.phone, r.email]);
    assert EncodeCustomer(r) == a + "\n" + b;
    assert EncodeCustomers([r]) == [EncodeCustomer(r)];
    assert FileText([a, b], "\n") == a + "\n" + (b + "\n" + FileText([], "\n")) by {
      assert [a, b][1..] == [b] && [b][1..] == [];
    }
    assert FileText(EncodeCustomers([r]), "\n") == EncodeCustomer(r) + "\n" + FileText([], "\n") by {
      assert [EncodeCustomer(r)][1..] == [];
    }
  }

  lemma BrokenNamePieces(r: CustomerRecord, w1: string, w2: string)
    requires NoBreak(w1, ReaderBreaks) && NoBreak(w2, ReaderBreaks)
    requires StorableCustomer(r.(name := w1))
    ensures var pieces := [IntToString(r.id) + Separator + w1, Terminated([w2, r.phone, r.email], Separator)];
      forall i :: 0 <= i < |pieces| ==> NoBreak(pieces[i], ReaderBreaks)
  {
    var id := IntToString(r.id);
    NumeralNoBreak(id, ReaderBreaks);
    NoBreakConcat(id, Separator, ReaderBreaks);
    NoBreakConcat(id + Separator, w1, ReaderBreaks);
    TerminatedNoBreak([w2, r.phone, r.email], ReaderBreaks);
  }

  /** Two fields joined by "::" are skipped. */
  lemma TwoFieldsSkipped(f: string, g: string)
    requires NoColon(f) && NoColon(g) && g != ""
    ensures DecodeCustomer(f + Separator + g) == Ok(None)
  {
    var s := f + Separator + g;
    NoColonIsNoSeparator(f);
    SplitAllAfterField(f, g);
    forall j | 0 <= j < |g|
      ensures !OccursAt(g, Separator, j)
    {
      if j + 2 <= |g| {
        assert g[j..j + 2][0] == g[j] != ':';
      }
    }
    NoOccurrenceInPrefix(g, Separator, |g|);
    assert g[..|g|] == g;
    assert OccursAt(s, Separator, |f|) by {
      assert s[|f|..|f| + 2] == Separator;
    }
    assert SplitAll(s, Separator) == [f, g];
  }

  /** Three stored fields are skipped. */
  lemma ThreeFieldsSkipped(f: string, g: string, h: string)
    requires NoSeparator(f) && NoSeparator(g) && NoSeparator(h) && f != ""
    ensures DecodeCustomer(Terminated([f, g, h], Separator)) == Ok(None)
  {
    if h != "" {
      SplitStored([f, g, h]);
    } else {
      SplitStoredEmptyLast([f, g, h]);
    }
  }

  /** Storing customers with non-zero ids and distinct, non-empty e-mails new
      to the directory, then loading the file back, puts each under its id,
      whichever line separator the platform writes. */
  lemma ReloadCustomers(d: Directory, rs: seq<CustomerRecord>, eol: string)
    requires IsLineSeparator(eol)
    requires forall j :: 0 <= j < |rs| ==>
               StorableCustomer(rs[j]) && rs[j].email != "" && rs[j].id != 0 && !EmailListed(d.rows, rs[j].email)
    requires forall i, j :: 0 <= i < j < |rs| ==> !EqualsIgnoreCase(rs[i].email, rs[j].email)
    ensures ReadCustomers(d, FileText(EncodeCustomers(rs), eol))
            == Admitted(Directory(Insert(d.rows, rs), NextAfter(d.next, rs)), Done)
  {
    StoredCustomerLines(rs, eol);
    StorableCustomersAll(rs);
    DecodeStoredCustomers(rs);
    FreshEmailsDistinct(d.rows, rs);
    AddFreshCustomers(d, rs);
  }

  /** The ids of a sequence of customer records. */
  function CustomerIds(rs: seq<CustomerRecord>): set<int>
  {
    set j | 0 <= j < |rs| :: rs[j].id
  }

  /** Putting records with distinct ids: each is found under its id, the keys
      are the old ones and the ids, and other rows are untouched. */
  lemma {:induction false} InsertDistinct(rows: map<int, CustomerRecord>, rs: seq<CustomerRecord>)
    requires forall i, j :: 0 <= i < j < |rs| ==> rs[i].id != rs[j].id
    ensures Insert(rows, rs).Keys == rows.Keys + CustomerIds(rs)
    ensures forall j :: 0 <= j < |rs| ==> Insert(rows, rs)[rs[j].id] == rs[j]
    ensures forall k :: k in rows && k !in CustomerIds(rs) ==> Insert(rows, rs)[k] == rows[k]
    decreases |rs|
  {
    if rs != [] {
      var rest := rs[1..];
      var rows' := rows[rs[0].id := rs[0]];
      assert forall j :: 0 <= j < |rest| ==> rest[j] == rs[j + 1];
      InsertDistinct(rows', rest);
      var ids := CustomerIds(rs);
      assert ids == {rs[0].id} + CustomerIds(rest) by {
        forall k | k in ids
          ensures k in {rs[0].id} + CustomerIds(rest)
        {
          var j :| 0 <= j < |rs| && rs[j].id == k;
          if j > 0 {
            assert rest[j - 1].id == k;
          }
        }
      }
    }
  }

  /** The customer side of a registry as values. */
  function CustomerRows(cs: map<int, Customer>): (rows: map<int, CustomerRecord>)
    reads cs.Values
    ensures rows.Keys == cs.Keys
  {
    map k | k in cs :: CustomerRecordOf(cs[k])
  }

  /** The records of a key-order listing whose customers sit under their own
      ids: ids ascend, cover the keys, and each record is its key's row. */
  lemma ListedCustomers(cs: map<int, Customer>, listing: seq<Customer>)
    requires InKeyOrder(cs, listing)
    requires forall k :: k in cs ==> cs[k].id == k
    ensures var rs := CustomerRecords(listing);
      (forall i, j :: 0 <= i < j < |rs| ==> rs[i].id < rs[j].id)
      && CustomerIds(rs) == cs.Keys
      && forall i :: 0 <= i < |rs| ==> rs[i].id in cs && CustomerRows(cs)[rs[i].id] == rs[i]
  {
    var rs := CustomerRecords(listing);
    var ks := SortedKeys(cs.Keys);
    ListedKeys(cs, listing);
    ListedIdsCover(cs.Keys, rs, ks);
    forall i | 0 <= i < |rs|
      ensures rs[i].id in cs && CustomerRows(cs)[rs[i].id] == rs[i]
    {
      assert rs[i].id == ks[i];
    }
  }

  /** Record i of a key-order listing carries key i. */
  lemma ListedKeys(cs: map<int, Customer>, listing: seq<Customer>)
    requires InKeyOrder(cs, listing)
    requires forall k :: k in cs ==> cs[k].id == k
    ensures var rs := CustomerRecords(listing);
      var ks := SortedKeys(cs.Keys);
      |rs| == |ks| && forall i :: 0 <= i < |rs| ==> rs[i].id == ks[i] && ks[i] in cs && CustomerRows(cs)[ks[i]] == rs[i]
  {
  }

  /** Ids that list all the keys in ascending order ascend and cover exactly
      the keys. */
  lemma ListedIdsCover(keys: set<int>, rs: seq<CustomerRecord>, ks: seq<int>)
    requires |rs| == |ks| && forall i :: 0 <= i < |rs| ==> rs[i].id == ks[i]
    requires Increasing(ks) && forall k :: k in ks <==> k in keys
    ensures forall i, j :: 0 <= i < j < |rs| ==> rs[i].id < rs[j].id
    ensures CustomerIds(rs) == keys
  {
    forall k | k in keys
      ensures k in CustomerIds(rs)
    {
      var j :| 0 <= j < |ks| && ks[j] == k;
      assert rs[j].id == k;
    }
    forall k | k in CustomerIds(rs)
      ensures k in keys
    {
      var j :| 0 <= j < |rs| && rs[j].id == k;
      assert ks[j] in ks;
    }
  }

  /** Records with distinct ids that are exactly the rows of a map, put into
      an empty map, give that map. */
  lemma InsertAll(rows: map<int, CustomerRecord>, rs: seq<CustomerRecord>)
    requires forall i, j :: 0 <= i < j < |rs| ==> rs[i].id != rs[j].id
    requires CustomerIds(rs) == rows.Keys
    requires forall i :: 0 <= i < |rs| ==> rs[i].id in rows && rows[rs[i].id] == rs[i]
    ensures Insert(map[], rs) == rows
  {
    InsertDistinct(map[], rs);
    forall k | k in rows
      ensures Insert(map[], rs)[k] == rows[k]
    {
      var j :| 0 <= j < |rs| && rs[j].id == k;
    }
  }

  /** What storeData writes for the registry's customer listing (getCustomers,
      in key order) loads back, into a registry without customers, as the same
      customers under the same keys, when each customer sits under its own
      non-zero id, is storable with a non-empty e-mail, and e-mails are unique
      ignoring case; the counter ends past every id but the largest int. */
  lemma StoredCustomersReload(cs: map<int, Customer>, listing: seq<Customer>, n: int, eol: string)
    requires IsLineSeparator(eol)
    requires InKeyOrder(cs, listing)
    requires forall k :: k in cs ==> cs[k].id == k && k != 0
    requires forall i :: 0 <= i < |listing| ==>
               StorableCustomer(CustomerRecordOf(listing[i])) && listing[i].email != ""
    requires DistinctEmails(CustomerRows(cs))
    ensures var rs := CustomerRecords(listing);
      ReadCustomers(Directory(map[], n), FileText(EncodeCustomers(rs), eol))
      == Admitted(Directory(CustomerRows(cs), NextAfter(n, rs)), Done)
  {
    var rs := CustomerRecords(listing);
    var rows := CustomerRows(cs);
    ListedCustomers(cs, listing);
    forall i, j | 0 <= i < j < |rs|
      ensures !EqualsIgnoreCase(rs[i].email, rs[j].email)
    {
      assert rs[i] == rows[rs[i].id] && rs[j] == rows[rs[j].id];
    }
    forall j | 0 <= j < |rs|
      ensures StorableCustomer(rs[j]) && rs[j].email != "" && rs[j].id != 0 && !EmailListed(map[], rs[j].email)
    {
      assert rs[j] == CustomerRecordOf(listing[j]);
    }
    ReloadCustomers(Directory(map[], n), rs, eol);
    InsertAll(rows, rs);
  }

  // ---------------------------------------------------------------------------
  // The loader

  /** The customer side of a registry: its rows and the shared counter. */
  function DirectoryOf(fbs: FlightBookingSystem): Directory
    reads fbs, fbs.ids, fbs.customers.Values
  {
    Directory(CustomerRows(fbs.customers), fbs.ids.nextCustomerId)
  }

  /** The registry's duplicate test is the one on values. */
  lemma TakenIsListed(cs: map<int, Customer>, e: string)
    ensures EmailTaken(cs, e) <==> EmailListed(CustomerRows(cs), e)
  {
    if EmailTaken(cs, e) {
      var k :| k in cs && EqualsIgnoreCase(cs[k].email, e);
      assert CustomerRows(cs)[k].email == cs[k].email;
    }
    if EmailListed(CustomerRows(cs), e) {
      var k :| k in CustomerRows(cs) && EqualsIgnoreCase(CustomerRows(cs)[k].email, e);
      assert CustomerRows(cs)[k].email == cs[k].email;
    }
  }

  lemma RowsUpdate(cs: map<int, Customer>, k: int, c: Customer)
    ensures CustomerRows(cs[k := c]) == CustomerRows(cs)[k := CustomerRecordOf(c)]
  {
  }

  /** The rows of customers that are not written keep their values. */
  twostate lemma RowsKept(cs: map<int, Customer>)
    requires forall c :: c in cs.Values ==> unchanged(c)
    ensures CustomerRows(cs) == old(CustomerRows(cs))
  {
  }

  /** The body of the load loop for one customer line: a new Customer with the
      record's fields, handed to addCustomer. */
  method RegisterCustomer(fbs: FlightBookingSystem, r: CustomerRecord) returns (s: Status, ghost c: Customer)
    modifies fbs`customers, fbs.ids`nextCustomerId
    ensures var a := Admit(old(DirectoryOf(fbs)), r);
      (a.Err? ==> s == Failed(a.error) && fbs.customers == old(fbs.customers)
                  && fbs.ids.nextCustomerId == old(fbs.ids.nextCustomerId))
      && (a.Ok? ==> s == Done && DirectoryOf(fbs) == a.value
                    && fresh(c) && c.bookings == [] && fbs.customers == old(fbs.customers)[c.id := c])
  {
    ghost var d := DirectoryOf(fbs);
    ghost var cs := fbs.customers;
    var nc := new Customer(r.id, r.name, r.phone, r.email);
    c := nc;
    TakenIsListed(cs, r.email);
    RowsKept(cs);
    label Before:
    s := fbs.AddCustomer(nc);
    RowsKept@Before(cs);
    if s.Done? {
      RowsUpdate(cs, nc.id, nc);
      assert CustomerRecordOf(nc) == if r.id == 0 then r.(id := d.next) else r;
    }
  }

  /** A bad line, or a customer addCustomer refuses, ends the reading. */
  lemma CustomersStop(d: Directory, ds: seq<Result<Option<CustomerRecord>>>, i: nat, e: Error)
    requires i < |ds|
    requires ds[i] == Err(e) || (ds[i].Ok? && ds[i].value.Some? && Admit(d, ds[i].value.value) == Err(e))
    ensures AddCustomers(d, ds[i..]) == Admitted(d, Failed(e))
  {
    assert ds[i..][0] == ds[i];
  }

  /** A skipped line, or an admitted customer, lets the reading go on. */
  lemma CustomersGoOn(d: Directory, next: Directory, ds: seq<Result<Option<CustomerRecord>>>, i: nat)
    requires i < |ds|
    requires (ds[i] == Ok(None) && next == d)
             || (ds[i].Ok? && ds[i].value.Some? && Admit(d, ds[i].value.value) == Ok(next))
    ensures AddCustomers(d, ds[i..]) == AddCustomers(next, ds[i + 1..])
  {
    assert ds[i..][0] == ds[i];
    assert ds[i..][1..] == ds[i + 1..];
  }

  /** The registering half of the customer loader: a skipped line changes
      nothing, each customer becomes a new Customer handed to addCustomer, and
      the first exception ends the load. Customers already registered are
      never written; the ones added are new and have no bookings. */
  method RegisterCustomers(fbs: FlightBookingSystem, ds: seq<Result<Option<CustomerRecord>>>) returns (s: Status)
    modifies fbs`customers, fbs.ids`nextCustomerId
    ensures var o := AddCustomers(old(DirectoryOf(fbs)), ds);
      s == o.status && DirectoryOf(fbs) == o.dir
    ensures forall k :: k in fbs.customers ==>
              (k in old(fbs.customers) && fbs.customers[k] == old(fbs.customers[k]))
              || (fresh(fbs.customers[k]) && fbs.customers[k].bookings == [])
  {
    ghost var d0 := DirectoryOf(fbs);
    var i := 0;
    assert ds[0..] == ds;
    assert AddCustomers(d0, ds) == AddCustomers(DirectoryOf(fbs), ds[i..]);
    while i < |ds|
      invariant 0 <= i <= |ds|
      invariant AddCustomers(d0, ds) == AddCustomers(DirectoryOf(fbs), ds[i..])
      invariant forall k :: k in fbs.customers ==>
                  (k in old(fbs.customers) && fbs.customers[k] == old(fbs.customers[k]))
                  || (fresh(fbs.customers[k]) && fbs.customers[k].bookings == [])
    {
      ghost var d := DirectoryOf(fbs);
      if ds[i].Err? {
        CustomersStop(d, ds, i, ds[i].error);
        return Failed(ds[i].error);
      }
      if ds[i].value.Some? {
        var r := ds[i].value.value;
        ghost var c;
        s, c := RegisterCustomer(fbs, r);
        if s.Failed? {
          CustomersStop(d, ds, i, s.error);
          return;
        }
        CustomersGoOn(d, DirectoryOf(fbs), ds, i);
      } else {
        CustomersGoOn(d, d, ds, i);
      }
      i := i + 1;
    }
    assert ds[i..] == [];
    s := Done;
  }

  /** loadData for customers, given the file's text. Decoding a line has no side effect (a skipped
      line only prints), so decoding every line first and then registering the
      results in order ends in the same state and error as the source's loop. */
  method LoadCustomers(fbs: FlightBookingSystem, text: string) returns (s: Status)
    modifies fbs`customers, fbs.ids`nextCustomerId
    ensures var o := ReadCustomers(old(DirectoryOf(fbs)), text);
      s == o.status && DirectoryOf(fbs) == o.dir
    ensures forall k :: k in fbs.customers ==>
              (k in old(fbs.customers) && fbs.customers[k] == old(fbs.customers[k]))
              || (fresh(fbs.customers[k]) && fbs.customers[k].bookings == [])
  {
    var lines := Lines(text, ReaderBreaks);
    var ds := DecodeCustomers(lines);
    s := RegisterCustomers(fbs, ds);
  }
}
