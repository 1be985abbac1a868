/** Shared vocabulary: optional values, the error kinds the booking system
    signals, and the list operations of java.util.List that the model uses. */
module Common {

  datatype Option<+T> = None | Some(value: T)

  /** Every failure the modelled code can signal. The FlightBookingSystemException
      messages are told apart by constructor; unchecked Java exceptions that
      escape a loader get their own constructors. */
  datatype Error =
    | NoFlightWithId                        // "There is no flight with that ID."
    | NoCustomerWithId                      // "There is no customer with that ID."
    | FlightIdExists(flightId: int)         // addFlight on a present key
    | EmailExists(email: string)            // addCustomer with a registered e-mail
    | AlreadyBookedOnFlight                 // Customer.addBooking duplicate
    | NoBookingForFlight                    // cancelBooking / cancelBookingForFlight
    | CustomerNotFound(customerId: int)     // deleteCustomer
    | FlightNumberNotFound(number: string)  // deleteFlight
    | BookingNotFound(bookingId: int)       // EditBooking on an unknown booking id
    | InvalidArguments                      // AddFlight constructor: a null argument
    | AddFlightFailed(cause: Error)         // AddFlight.execute re-wraps its failure
    | InvalidCommand                        // CommandParser.parse
    | InvalidData(lineNo: int)              // flight file: malformed line
    | UnparsableData(lineNo: int)           // flight file: bad number on a line
    | NumberFormat                          // uncaught NumberFormatException
    | DateTimeParse                         // uncaught DateTimeParseException
    | IndexOutOfBounds                      // uncaught ArrayIndexOutOfBoundsException

  datatype Result<+T> = Ok(value: T) | Err(error: Error)

  /** The outcome of a void Java method that may throw. */
  datatype Status = Done | Failed(error: Error)

  /** Concatenation regrouped, for proofs whose context is too large to find it. */
  lemma Regroup<T>(a: seq<T>, b: seq<T>, c: seq<T>)
    ensures a + (b + c) == (a + b) + c
  {
  }

  /** The value stored under key k, as a frame: empty when k is absent. */
  ghost function At<T>(m: map<int, T>, k: int): set<T>
  {
    if k in m then {m[k]} else {}
  }

  /** The two ends of a concatenation a + b + c are a and c. */
  lemma Framed<T>(a: seq<T>, b: seq<T>, c: seq<T>)
    ensures (a + b + c)[..|a|] == a && (a + b + c)[|a| + |b|..] == c
  {
  }

  /** List.indexOf, with |s| standing for -1. */
  function IndexOf<T(==)>(s: seq<T>, x: T): (k: nat)
    ensures k <= |s|
    ensures k < |s| <==> x in s
    ensures k < |s| ==> s[k] == x
    ensures forall j :: 0 <= j < k ==> s[j] != x
  {
    if s == [] then 0 else if s[0] == x then 0 else 1 + IndexOf(s[1..], x)
  }

  /** List.remove(Object): drops the first occurrence of x; no-op when absent. */
  function RemoveFirst<T(==)>(s: seq<T>, x: T): (r: seq<T>)
    ensures x !in s ==> r == s
    ensures x in s ==> |r| == |s| - 1
    ensures multiset(r) == multiset(s) - multiset{x}
  {
    var k := IndexOf(s, x);
    if k == |s| then s
    else
      assert s == s[..k] + [x] + s[k + 1..];
      s[..k] + s[k + 1..]
  }

  /** s with the element at position k taken out. */
  function Without<T>(s: seq<T>, k: nat): (r: seq<T>)
    requires k < |s|
  {
    s[..k] + s[k + 1..]
  }

  function Max(a: int, b: int): int { if a < b then b else a }
}
