/** CommandParser.parse on the console lines that need nothing but the line
    itself: the line is cut at its first two spaces and dispatched on the first
    token and on the number of tokens. */
module Parser {
  import opened Common
  import opened Text

  /** The command a console line selects. AddFlightPrompt and AddCustomerPrompt
      stand for the two branches that go on to read their fields from the
      console; what those prompts read is not part of this model. */
  datatype Command =
    | AddFlightPrompt
    | AddCustomerPrompt
    | LoadGui
    | ListFlights
    | ListCustomers
    | Help
    | ShowFlight(flightId: int)
    | ShowCustomer(customerId: int)
    | ShowBooking(customerId: int)
    | AddBooking(customerId: int, flightId: int)
    | EditBooking(bookingId: int, flightId: int)
    | CancelBooking(customerId: int, flightId: int)

  const Space: string := " "

  /** Every number a command carries is a Java int. */
  predicate WellFormed(c: Command)
  {
    match c
    case ShowFlight(id) => IsInt32(id)
    case ShowCustomer(id) => IsInt32(id)
    case ShowBooking(id) => IsInt32(id)
    case AddBooking(a, b) => IsInt32(a) && IsInt32(b)
    case EditBooking(a, b) => IsInt32(a) && IsInt32(b)
    case CancelBooking(a, b) => IsInt32(a) && IsInt32(b)
    case _ => true
  }

  predicate NoSpace(w: string)
  {
    ' ' !in w
  }

  /** line.split(" ", 3). */
  function Tokens(line: string): (parts: seq<string>)
    ensures 1 <= |parts| <= 3
    ensures Join(parts, Space) == line
  {
    SplitAtMost(line, Space, 3)
  }

  /** The command for a line, or the "Invalid command." failure. A number that
      Integer.parseInt refuses ends in the same failure. */
  function Parse(line: string): (r: Result<Command>)
    ensures r.Err? ==> r.error == InvalidCommand
    ensures r.Ok? ==> WellFormed(r.value)
  {
    Dispatch(line, Tokens(line))
  }

  /** The dispatch of parse on the tokens of the line. */
  function Dispatch(line: string, parts: seq<string>): (r: Result<Command>)
    requires 1 <= |parts| <= 3
    ensures r.Err? ==> r.error == InvalidCommand
    ensures r.Ok? ==> WellFormed(r.value)
  {
    var cmd := parts[0];
    if cmd == "addflight" then Ok(AddFlightPrompt)
    else if cmd == "addcustomer" then Ok(AddCustomerPrompt)
    else if cmd == "loadgui" then Ok(LoadGui)
    else if |parts| == 1 then Bare(line)
    else if |parts| == 2 then
      // the argument is converted before the keyword is looked at
      match ParseInt(parts[1])
      case None => Err(InvalidCommand)
      case Some(id) => Show(cmd, id)
    else if IsBookingWord(cmd) then
      match (ParseInt(parts[1]), ParseInt(parts[2]))
      case (Some(a), Some(b)) => Ok(Booking(cmd, a, b))
      case _ => Err(InvalidCommand)
    else Err(InvalidCommand)
  }

  /** A line of one token: only the three argument-less keywords. */
  function Bare(line: string): Result<Command>
  {
    if line == "listflights" then Ok(ListFlights)
    else if line == "listcustomers" then Ok(ListCustomers)
    else if line == "help" then Ok(Help)
    else Err(InvalidCommand)
  }

  /** A keyword followed by one int. */
  function Show(cmd: string, id: int): Result<Command>
  {
    if cmd == "showflight" then Ok(ShowFlight(id))
    else if cmd == "showcustomer" then Ok(ShowCustomer(id))
    else if cmd == "showbooking" then Ok(ShowBooking(id))
    else Err(InvalidCommand)
  }

  predicate IsBookingWord(cmd: string)
  {
    cmd == "addbooking" || cmd == "editbooking" || cmd == "cancelbooking"
  }

  /** A keyword followed by two ints. */
  function Booking(cmd: string, a: int, b: int): Command
    requires IsBookingWord(cmd)
  {
    if cmd == "addbooking" then AddBooking(a, b)
    else if cmd == "editbooking" then EditBooking(a, b)
    else CancelBooking(a, b)
  }

  /** The line a user types for a command, with single spaces between tokens. */
  function Render(c: Command): string
  {
    match c
    case AddFlightPrompt => "addflight"
    case AddCustomerPrompt => "addcustomer"
    case LoadGui => "loadgui"
    case ListFlights => "listflights"
    case ListCustomers => "listcustomers"
    case Help => "help"
    case ShowFlight(id) => "showflight" + Space + IntToString(id)
    case ShowCustomer(id) => "showcustomer" + Space + IntToString(id)
    case ShowBooking(id) => "showbooking" + Space + IntToString(id)
    case AddBooking(a, b) => "addbooking" + Space + IntToString(a) + Space + IntToString(b)
    case EditBooking(a, b) => "editbooking" + Space + IntToString(a) + Space + IntToString(b)
    case CancelBooking(a, b) => "cancelbooking" + Space + IntToString(a) + Space + IntToString(b)
  }

  // ---------------------------------------------------------------------------
  // How split(" ", limit) cuts a line

  /** A word followed by a space is split off as the first token. */
  lemma SplitAfterWord(w: string, rest: string, limit: nat)
    requires NoSpace(w) && limit >= 2
    ensures SplitAtMost(w + Space + rest, Space, limit) == [w] + SplitAtMost(rest, Space, limit - 1)
  {
    var s := w + Space + rest;
    assert OccursAt(s, Space, |w|) by {
      assert s[|w|..|w| + 1] == Space;
    }
    forall j | 0 <= j < |w|
      ensures !OccursAt(s, Space, j)
    {
      assert s[j] == w[j];
    }
    assert FindFrom(s, Space, 0) == Some(|w|);
    assert s[..|w|] == w;
    assert s[|w| + 1..] == rest;
  }

  /** A word without a space is a single token. */
  lemma SplitWord(w: string, limit: nat)
    requires NoSpace(w) && limit >= 1
    ensures SplitAtMost(w, Space, limit) == [w]
  {
    if limit > 1 {
      forall j | 0 <= j
        ensures !OccursAt(w, Space, j)
      {
        if j < |w| {
          assert w[j..j + 1] == [w[j]];
        }
      }
      assert FindFrom(w, Space, 0) == None;
    }
  }

  /** A string Integer.parseInt accepts holds digits and a sign only. */
  lemma ParsedHasNoSpace(t: string)
    requires ParseInt(t).Some?
    ensures NoSpace(t)
  {
    var digits := if t[0] == '-' || t[0] == '+' then t[1..] else t;
    forall j | 0 <= j < |t|
      ensures t[j] != ' '
    {
      if j > 0 && (t[0] == '-' || t[0] == '+') {
        assert t[j] == digits[j - 1];
      }
    }
  }

  /** The line a split of two or three tokens came from. */
  lemma JoinedTokens(line: string)
    ensures |Tokens(line)| == 2 ==> line == Tokens(line)[0] + Space + Tokens(line)[1]
    ensures |Tokens(line)| == 3 ==>
              line == Tokens(line)[0] + Space + Tokens(line)[1] + Space + Tokens(line)[2]
  {
    var parts := Tokens(line);
    if |parts| == 2 {
      assert Join(parts[1..], Space) == parts[1];
    } else if |parts| == 3 {
      assert Join(parts[2..], Space) == parts[2];
      assert parts[1..][1..] == parts[2..];
      assert Join(parts[1..], Space) == parts[1] + Space + parts[2];
    }
  }

  /** A line that is a keyword, one space and one int. */
  predicate HasOneArgument(line: string, kw: string, id: int)
  {
    kw + Space <= line && ParseInt(line[|kw| + 1..]) == Some(id)
  }

  /** A line that is a keyword and two ints, each after one space. */
  ghost predicate HasTwoArguments(line: string, kw: string, x: int, y: int)
  {
    exists a, b :: ParseInt(a) == Some(x) && ParseInt(b) == Some(y) &&
      line == kw + Space + a + Space + b
  }

  /** A line splits into a keyword and one int exactly when it has that shape. */
  lemma OneArgumentTokens(line: string, kw: string, id: int)
    requires NoSpace(kw)
    ensures HasOneArgument(line, kw, id) <==>
              |Tokens(line)| == 2 && Tokens(line)[0] == kw && ParseInt(Tokens(line)[1]) == Some(id)
  {
    var parts := Tokens(line);
    if HasOneArgument(line, kw, id) {
      var rest := line[|kw| + 1..];
      assert line == kw + Space + rest;
      SplitAfterWord(kw, rest, 3);
      ParsedHasNoSpace(rest);
      SplitWord(rest, 2);
    }
    if |parts| == 2 && parts[0] == kw {
      JoinedTokens(line);
      assert line[|kw| + 1..] == parts[1];
    }
  }

  /** The tokens of kw + " " + a + " " + b when neither kw nor a holds a space. */
  lemma ThreeTokens(kw: string, a: string, b: string)
    requires NoSpace(kw) && NoSpace(a)
    ensures Tokens(kw + Space + a + Space + b) == [kw, a, b]
  {
    assert kw + Space + a + Space + b == kw + Space + (a + Space + b);
    SplitAfterWord(kw, a + Space + b, 3);
    SplitAfterWord(a, b, 2);
  }

  /** A line splits into a keyword and two ints exactly when it has that shape. */
  lemma TwoArgumentTokens(line: string, kw: string, x: int, y: int)
    requires NoSpace(kw)
    ensures HasTwoArguments(line, kw, x, y) <==>
              |Tokens(line)| == 3 && Tokens(line)[0] == kw &&
              ParseInt(Tokens(line)[1]) == Some(x) && ParseInt(Tokens(line)[2]) == Some(y)
  {
    var parts := Tokens(line);
    if HasTwoArguments(line, kw, x, y) {
      var a, b :| ParseInt(a) == Some(x) && ParseInt(b) == Some(y) &&
        line == kw + Space + a + Space + b;
      ParsedHasNoSpace(a);
      ThreeTokens(kw, a, b);
    } else if |parts| == 3 && parts[0] == kw {
      JoinedTokens(line);
    }
  }

  // ---------------------------------------------------------------------------
  // What each kind of line parses to

  /** "loadgui" is recognised by its first token, whatever follows it. */
  lemma {:induction false} ParseLoadGui(line: string)
    ensures Parse(line) == Ok(LoadGui) <==> line == "loadgui" || "loadgui" + Space <= line
  {
    if line == "loadgui" {
      SplitWord(line, 3);
    } else if "loadgui" + Space <= line {
      assert line == "loadgui" + Space + line[8..];
      SplitAfterWord("loadgui", line[8..], 3);
    } else if |Tokens(line)| >= 2 {
      var parts := Tokens(line);
      assert line == parts[0] + Space + Join(parts[1..], Space);
    }
    DispatchKeywords(line, Tokens(line));
  }

  /** listflights, listcustomers and help are recognised only as the whole line. */
  lemma {:induction false} ParseKeywordLines(line: string)
    ensures Parse(line) == Ok(ListFlights) <==> line == "listflights"
    ensures Parse(line) == Ok(ListCustomers) <==> line == "listcustomers"
    ensures Parse(line) == Ok(Help) <==> line == "help"
  {
    if line == "listflights" || line == "listcustomers" || line == "help" {
      SplitWord(line, 3);
    }
    DispatchKeywords(line, Tokens(line));
  }

  /** showflight, showcustomer and showbooking (case-sensitive) take the int
      that makes up the rest of the line. */
  lemma {:induction false} ParseShow(line: string, id: int)
    ensures Parse(line) == Ok(ShowFlight(id)) <==> HasOneArgument(line, "showflight", id)
    ensures Parse(line) == Ok(ShowCustomer(id)) <==> HasOneArgument(line, "showcustomer", id)
    ensures Parse(line) == Ok(ShowBooking(id)) <==> HasOneArgument(line, "showbooking", id)
  {
    OneArgumentTokens(line, "showflight", id);
    OneArgumentTokens(line, "showcustomer", id);
    OneArgumentTokens(line, "showbooking", id);
    DispatchOneArgument(line, Tokens(line), id);
  }

  /** addbooking, editbooking and cancelbooking take two ints separated by one
      space, the second one being the rest of the line. */
  lemma {:induction false} ParseBookingCommands(line: string, x: int, y: int)
    ensures Parse(line) == Ok(AddBooking(x, y)) <==> HasTwoArguments(line, "addbooking", x, y)
    ensures Parse(line) == Ok(EditBooking(x, y)) <==> HasTwoArguments(line, "editbooking", x, y)
    ensures Parse(line) == Ok(CancelBooking(x, y)) <==> HasTwoArguments(line, "cancelbooking", x, y)
  {
    TwoArgumentTokens(line, "addbooking", x, y);
    TwoArgumentTokens(line, "editbooking", x, y);
    TwoArgumentTokens(line, "cancelbooking", x, y);
    DispatchTwoArguments(line, Tokens(line), x, y);
  }

  /** What the keyword commands need of the tokens, the only token of a
      one-token line being the line itself. */
  lemma DispatchKeywords(line: string, parts: seq<string>)
    requires 1 <= |parts| <= 3 && (|parts| == 1 ==> parts[0] == line)
    ensures Dispatch(line, parts) == Ok(LoadGui) <==> parts[0] == "loadgui"
    ensures Dispatch(line, parts) == Ok(ListFlights) <==> |parts| == 1 && line == "listflights"
    ensures Dispatch(line, parts) == Ok(ListCustomers) <==> |parts| == 1 && line == "listcustomers"
    ensures Dispatch(line, parts) == Ok(Help) <==> |parts| == 1 && line == "help"
  {
  }

  /** What the one-argument commands need of the tokens. */
  lemma DispatchOneArgument(line: string, parts: seq<string>, x: int)
    requires 1 <= |parts| <= 3
    ensures Dispatch(line, parts) == Ok(ShowFlight(x)) <==>
              |parts| == 2 && parts[0] == "showflight" && ParseInt(parts[1]) == Some(x)
    ensures Dispatch(line, parts) == Ok(ShowCustomer(x)) <==>
              |parts| == 2 && parts[0] == "showcustomer" && ParseInt(parts[1]) == Some(x)
    ensures Dispatch(line, parts) == Ok(ShowBooking(x)) <==>
              |parts| == 2 && parts[0] == "showbooking" && ParseInt(parts[1]) == Some(x)
  {
  }

  /** What the two-argument commands need of the tokens. */
  lemma DispatchTwoArguments(line: string, parts: seq<string>, x: int, y: int)
    requires 1 <= |parts| <= 3
    ensures Dispatch(line, parts) == Ok(AddBooking(x, y)) <==>
              |parts| == 3 && parts[0] == "addbooking" && ParseInt(parts[1]) == Some(x) && ParseInt(parts[2]) == Some(y)
    ensures Dispatch(line, parts) == Ok(EditBooking(x, y)) <==>
              |parts| == 3 && parts[0] == "editbooking" && ParseInt(parts[1]) == Some(x) && ParseInt(parts[2]) == Some(y)
    ensures Dispatch(line, parts) == Ok(CancelBooking(x, y)) <==>
              |parts| == 3 && parts[0] == "cancelbooking" && ParseInt(parts[1]) == Some(x) && ParseInt(parts[2]) == Some(y)
  {
  }

  /** Parsing the typed form of a command gives the command back. */
  lemma RenderRoundTrip(c: Command)
    requires WellFormed(c)
    ensures Parse(Render(c)) == Ok(c)
  {
    match c
    case ShowFlight(id) =>
      IntRoundTrip(id);
      ParseShow(Render(c), id);
    case ShowCustomer(id) =>
      IntRoundTrip(id);
      ParseShow(Render(c), id);
    case ShowBooking(id) =>
      IntRoundTrip(id);
      ParseShow(Render(c), id);
    case AddBooking(x, y) =>
      IntRoundTrip(x);
      IntRoundTrip(y);
      ParseBookingCommands(Render(c), x, y);
    case EditBooking(x, y) =>
      IntRoundTrip(x);
      IntRoundTrip(y);
      ParseBookingCommands(Render(c), x, y);
    case CancelBooking(x, y) =>
      IntRoundTrip(x);
      IntRoundTrip(y);
      ParseBookingCommands(Render(c), x, y);
    case _ =>
      SplitWord(Render(c), 3);
  }
}
