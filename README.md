# Flight Booking System — a verified Dafny model

This project models the core of the Flight Booking System: a console and GUI application that keeps flights, customers and bookings in memory and persists them as three `::`-delimited text files. The model covers:

- **Registry** (`registry.dfy`, module `Registry`). `FlightBookingSystem` has:
  - flights and customers in id-keyed maps, which are iterated in ascending key order as a `TreeMap` is;
  - a master list of bookings;
  - a shared `Counters` object.

  Its operations are the lookups, `addFlight`, `addCustomer`, `cancelBooking`, `editBooking`, `deleteCustomer` and `deleteFlight`. They change these fields in place.
- **Entities** (`entities.dfy`, module `Entities`). `Flight`, `Customer` and `Booking` are classes, so object identity is Java reference identity.
  - A flight's passenger and booking `HashSet`s are Dafny sets of references.
  - A customer's booking `ArrayList` is a sequence.
  - The two static counters, `Booking.lastID` and `FlightBookingSystem.nextCustomerId`, are the fields of one `Counters` object.
- **Commands** (`commands.dfy`, module `Commands`):
  - `AddFlight`, which picks id = largest id + 1;
  - `AddBooking` and `EditBooking`;
  - the two per-customer reports, `ShowBooking` and `ShowCustomer`. Their result buffer grows across executes.
- **Console parser** (`parser.dfy`, module `Parser`). `CommandParser.parse` on the lines that need nothing but the line: `split(" ", 3)`, then dispatch on the first token and on the number of tokens.
- **Data files**:
  - the per-line codecs of the three data managers (`flight_data.dfy`, `customer_data.dfy`, `booking_data.dfy`);
  - their shared `::` format (`data_format.dfy`);
  - what each loader does to the registry.
- **Java library behaviour** the code relies on (`text.dfy`, `ordered.dfy`, `common.dfy`):
  - `String.split` with limits -1, 0 and 3;
  - `Integer.parseInt` with its 32-bit range, and `int` addition, which wraps around;
  - `LocalDate` formatting and parsing, in strict ISO form and through the `yyyy-MM-dd` pattern with smart resolution, over the whole `LocalDate` year range: signed years and years of more than four digits included;
  - `Double.parseDouble` syntax for decimal literals;
  - how `BufferedReader.readLine` and `Scanner.nextLine` cut a file's text into lines;
  - `equalsIgnoreCase`;
  - `List.remove`;
  - `TreeMap` iteration order.

Each loader is split in two:

1. A pure decoding of every line. Decoding has no side effect, so decoding first gives the same end state and the same error as the source's loop, which decodes and registers line by line.
2. A registering loop over the decoded results. It is proved against a recursive specification function (`AddFlights`, `AddCustomers`, `AddBookings`) that says which records are added and how the load ends.

Round-trip lemmas then show that what `storeData` writes, `loadData` reads back. A data file is its text: the lines `storeData` writes, each followed by the platform's line separator (`"\n"` or `"\r\n"`), cut back into lines the way the loader's reader does it.

In three places the model follows the code where its comments, messages or dead branches suggest otherwise:

- **Field round-trip.** A field written between `::` separators survives only if it contains no `::` AND does not end in `:`. A name `a:` is written `a:::`, and that splits after `a`. `NoSeparator` states the real condition, and `CustomerData.ColonEndingNameShifts` shows what happens otherwise.
- **`ShowBooking` with an unknown customer.** `getCustomerByID` throws, so the "not found" text in `ShowBooking` is never produced.
- **Bad flight date.** The flight loader reports a bad date as the date parser's own exception, not as the "Error parsing flight properties" error.

The model also keeps what the code does at the edges of its types:

- **Id arithmetic wraps.** `customer.getId() + 1` in `addCustomer` and `++maxId` in `AddFlight` are `int` additions. After the largest int they give the smallest, so a customer with id 2147483647 leaves the counter where it was, and a new flight after one with that id gets id -2147483648.
- **Years before year 1 lose their era in the flight file.** The `yyyy` pattern writes the year of era, so year 0 is written as 0001 and read back as year 1.
- **Line breaks inside a field split the record.** A name holding a `\n` is stored across two lines, and the customer loader then skips both as malformed.

## Model

| member | source | states |
|---|---|---|
| Entities.Counters.constructor | FlightBookingSystem_Dist/src/bcu/cmp5332/bookingsystem/model/Booking.java:19 | The booking counter starts at 0 and the customer counter at 1, shared by every registry |
| Entities.Counters.TakeCustomerId | FlightBookingSystem_Dist/src/bcu/cmp5332/bookingsystem/model/FlightBookingSystem.java:256-258 | Hands out the current customer counter and advances it by one |
| Entities.Booking.constructor | FlightBookingSystem_Dist/src/bcu/cmp5332/bookingsystem/model/Booking.java:29-34 | The new id is the counter + 1 and is stored back, so ids strictly increase; exactly the given customer, flight and booking date; price 0, not cancelled, no date |
| Entities.Booking.SetCustomer | FlightBookingSystem_Dist/src/bcu/cmp5332/bookingsystem/model/Booking.java:62-64 | Changes only the customer field, to the value given |
| Entities.Booking.SetFlight | FlightBookingSystem_Dist/src/bcu/cmp5332/bookingsystem/model/Booking.java:82-84 | Changes only the flight field |
| Entities.Booking.SetBookingDate | FlightBookingSystem_Dist/src/bcu/cmp5332/bookingsystem/model/Booking.java:102-104 | Changes only the booking date |
| Entities.Booking.SetDate | FlightBookingSystem_Dist/src/bcu/cmp5332/bookingsystem/model/Booking.java:122-124 | Changes only the date field |
| Entities.Booking.SetPrice | FlightBookingSystem_Dist/src/bcu/cmp5332/bookingsystem/model/Booking.java:142-144 | Changes only the price |
| Entities.Booking.SetCancelled | FlightBookingSystem_Dist/src/bcu/cmp5332/bookingsystem/model/Booking.java:160-162 | Changes only the cancelled flag |
| Entities.Flight.constructor | FlightBookingSystem_Dist/src/bcu/cmp5332/bookingsystem/model/Flight.java:43-54 | Stores the seven arguments; the passenger and booking sets start empty |
| Entities.Flight.SetId | FlightBookingSystem_Dist/src/bcu/cmp5332/bookingsystem/model/Flight.java:70-72 | Changes only the id, to the value given |
| Entities.Flight.SetFlightNumber | FlightBookingSystem_Dist/src/bcu/cmp5332/bookingsystem/model/Flight.java:88-90 | Changes only the flight number |
| Entities.Flight.SetOrigin | FlightBookingSystem_Dist/src/bcu/cmp5332/bookingsystem/model/Flight.java:106-108 | Changes only the origin |
| Entities.Flight.SetDestination | FlightBookingSystem_Dist/src/bcu/cmp5332/bookingsystem/model/Flight.java:124-126 | Changes only the destination |
| Entities.Flight.SetDepartureDate | FlightBookingSystem_Dist/src/bcu/cmp5332/bookingsystem/model/Flight.java:142-144 | Changes only the departure date |
| Entities.Flight.SetCapacity | FlightBookingSystem_Dist/src/bcu/cmp5332/bookingsystem/model/Flight.java:160-162 | Changes only the capacity |
| Entities.Flight.SetPrice | FlightBookingSystem_Dist/src/bcu/cmp5332/bookingsystem/model/Flight.java:178-180 | Changes only the price |
| Entities.Flight.GetPassengers | FlightBookingSystem_Dist/src/bcu/cmp5332/bookingsystem/model/Flight.java:187-189 | A list holding each passenger exactly once, and nothing else |
| Entities.Flight.GetBookings | FlightBookingSystem_Dist/src/bcu/cmp5332/bookingsystem/model/Flight.java:196-198 | A list holding each booking of the set exactly once, and nothing else |
| Entities.Flight.AddBooking | FlightBookingSystem_Dist/src/bcu/cmp5332/bookingsystem/model/Flight.java:205-207 | Adds to the booking set only; the passengers are untouched |
| Entities.Flight.DetailsShort | FlightBookingSystem_Dist/src/bcu/cmp5332/bookingsystem/model/Flight.java:214-216 | Starts with "Flight ", then the flight number, ends with '.', and its length is the three fields' lengths plus the fixed words |
| Entities.Flight.AddPassenger | FlightBookingSystem_Dist/src/bcu/cmp5332/bookingsystem/model/Flight.java:271-273 | Set insertion: the customer is a passenger afterwards, which is idempotent, and there is no capacity check |
| Entities.Flight.AddBookingForCustomer | FlightBookingSystem_Dist/src/bcu/cmp5332/bookingsystem/model/Flight.java:280-285 | The booking joins the booking set and its customer joins the passengers |
| Entities.Flight.RemovePassenger | FlightBookingSystem_Dist/src/bcu/cmp5332/bookingsystem/model/Flight.java:292-294 | Set deletion: the customer is no passenger afterwards |
| Entities.Flight.RemoveBooking | FlightBookingSystem_Dist/src/bcu/cmp5332/bookingsystem/model/Flight.java:302-307 | Removes the booking AND its customer from the passengers, even when another booking of that customer remains |
| Entities.ListOf | FlightBookingSystem_Dist/src/bcu/cmp5332/bookingsystem/model/Flight.java:187-198 | `new ArrayList<>(set)`: every element exactly once, and the length is the set's size |
| Entities.OverbookedFlight | FlightBookingSystem_Dist/src/bcu/cmp5332/bookingsystem/model/Flight.java:271-285 | Exhibits a flight whose passenger count exceeds its capacity, since nothing consults capacity |
| Entities.FirstForFlight | FlightBookingSystem_Dist/src/bcu/cmp5332/bookingsystem/model/Customer.java:201-208 | The first position whose booking is for that flight object, or the length of the list |
| Entities.FirstForFlightId | FlightBookingSystem_Dist/src/bcu/cmp5332/bookingsystem/model/Customer.java:236-254 | The first position whose booking's flight has that id, or the length of the list |
| Entities.RemoveFirstAt | FlightBookingSystem_Dist/src/bcu/cmp5332/bookingsystem/model/Customer.java:118-120 | Removing by reference takes out exactly position k when k is the reference's first occurrence |
| Entities.Customer.constructor | FlightBookingSystem_Dist/src/bcu/cmp5332/bookingsystem/model/Customer.java:34-40 | Stores the four arguments; the booking list starts empty |
| Entities.Customer.SetId | FlightBookingSystem_Dist/src/bcu/cmp5332/bookingsystem/model/Customer.java:58-60 | Changes only the id |
| Entities.Customer.SetName | FlightBookingSystem_Dist/src/bcu/cmp5332/bookingsystem/model/Customer.java:78-80 | Changes only the name |
| Entities.Customer.SetPhone | FlightBookingSystem_Dist/src/bcu/cmp5332/bookingsystem/model/Customer.java:98-100 | Changes only the phone |
| Entities.Customer.SetEmail | FlightBookingSystem_Dist/src/bcu/cmp5332/bookingsystem/model/Customer.java:138-140 | Changes only the e-mail |
| Entities.Customer.SetBookings | FlightBookingSystem_Dist/src/bcu/cmp5332/bookingsystem/model/Customer.java:108-110 | Replaces the booking list |
| Entities.Customer.DetailsShort | FlightBookingSystem_Dist/src/bcu/cmp5332/bookingsystem/model/Customer.java:149-151 | Starts with "Customer #" and ends with the phone |
| Entities.Customer.DetailsLong | FlightBookingSystem_Dist/src/bcu/cmp5332/bookingsystem/model/Customer.java:160-167 | Starts with "Customer #", and its last line is the e-mail followed by a newline |
| Entities.Customer.RemoveBooking | FlightBookingSystem_Dist/src/bcu/cmp5332/bookingsystem/model/Customer.java:118-120 | Removes only the first occurrence of that reference; it is a no-op when the reference is absent |
| Entities.Customer.FindBookingForFlight | FlightBookingSystem_Dist/src/bcu/cmp5332/bookingsystem/model/Customer.java:201-208 | The first booking in list order whose flight is that object, or null |
| Entities.Customer.HasBookingForFlight | FlightBookingSystem_Dist/src/bcu/cmp5332/bookingsystem/model/Customer.java:190-192 | True exactly when some booking in the list is for that flight |
| Entities.Customer.AddBooking | FlightBookingSystem_Dist/src/bcu/cmp5332/bookingsystem/model/Customer.java:176-181 | Refuses, with the list unchanged, a second booking for the same flight, cancelled or not. Otherwise it appends at the end. It keeps the list free of two bookings for one flight |
| Entities.Customer.CancelBookingForFlight | FlightBookingSystem_Dist/src/bcu/cmp5332/bookingsystem/model/Customer.java:217-228 | Removes exactly the first booking for that flight; fails with the list unchanged when there is none |
| Entities.Customer.RemoveBookingByFlightId | FlightBookingSystem_Dist/src/bcu/cmp5332/bookingsystem/model/Customer.java:236-254 | Removes exactly the first booking whose flight has that id; a silent no-op otherwise |
| Entities.Customer.IssueBooking | FlightBookingSystem_Dist/src/bcu/cmp5332/bookingsystem/model/Customer.java:265-277 | A fresh priced booking reaches the flight's sets before the duplicate check. On a duplicate the flight has changed and the customer list has not. Otherwise the booking is appended to the list |
| Registry.FirstBookingOf | FlightBookingSystem_Dist/src/bcu/cmp5332/bookingsystem/model/FlightBookingSystem.java:158-166 | The first master-list position whose customer id and flight id both match, or the length |
| Registry.FirstWithId | FlightBookingSystem_Dist/src/bcu/cmp5332/bookingsystem/model/FlightBookingSystem.java:196-203 | The first master-list position with that booking id, or the length |
| Registry.LowestKeyNumbered | FlightBookingSystem_Dist/src/bcu/cmp5332/bookingsystem/model/FlightBookingSystem.java:96-103 | None exactly when no flight has that number; otherwise the least key among the flights that have it |
| Registry.FlightsInIdOrder | FlightBookingSystem_Dist/src/bcu/cmp5332/bookingsystem/model/FlightBookingSystem.java:56-58 | When each flight sits under its own id, the key-ordered listing is strictly ascending by id |
| Registry.FlightBookingSystem.constructor | FlightBookingSystem_Dist/src/bcu/cmp5332/bookingsystem/model/FlightBookingSystem.java:22-40 | Empty maps and master list, system date 2020-11-11, the shared counters |
| Registry.FlightBookingSystem.GetFlights | FlightBookingSystem_Dist/src/bcu/cmp5332/bookingsystem/model/FlightBookingSystem.java:56-58 | The flights in ascending key order |
| Registry.FlightBookingSystem.GetCustomers | FlightBookingSystem_Dist/src/bcu/cmp5332/bookingsystem/model/FlightBookingSystem.java:283-285 | The customers in ascending key order |
| Registry.FlightBookingSystem.GetFlightById | FlightBookingSystem_Dist/src/bcu/cmp5332/bookingsystem/model/FlightBookingSystem.java:68-73 | Fails exactly when the id is not a key; otherwise the stored flight |
| Registry.FlightBookingSystem.GetCustomerById | FlightBookingSystem_Dist/src/bcu/cmp5332/bookingsystem/model/FlightBookingSystem.java:83-88 | Fails exactly when the id is not a key; otherwise the stored customer |
| Registry.FlightBookingSystem.GetFlightByNumber | FlightBookingSystem_Dist/src/bcu/cmp5332/bookingsystem/model/FlightBookingSystem.java:96-103 | The flight under the lowest key with an equal number, or null |
| Registry.FlightBookingSystem.AddFlight | FlightBookingSystem_Dist/src/bcu/cmp5332/bookingsystem/model/FlightBookingSystem.java:112-117 | A used id fails with the map unchanged; otherwise the map gains exactly id → flight, and each flight still sits under its own id |
| Registry.FlightBookingSystem.AddCustomer | FlightBookingSystem_Dist/src/bcu/cmp5332/bookingsystem/model/FlightBookingSystem.java:126-145 | Spelled out below the table |
| Registry.FlightBookingSystem.EmailInUse | FlightBookingSystem_Dist/src/bcu/cmp5332/bookingsystem/model/FlightBookingSystem.java:128-133 | True exactly when some stored e-mail equals the given one, ignoring case |
| Registry.FlightBookingSystem.NextCustomerId | FlightBookingSystem_Dist/src/bcu/cmp5332/bookingsystem/model/FlightBookingSystem.java:256-258 | Returns the counter and advances it by one |
| Registry.FlightBookingSystem.CancelBooking | FlightBookingSystem_Dist/src/bcu/cmp5332/bookingsystem/model/FlightBookingSystem.java:156-187 | Spelled out below the table |
| Registry.FlightBookingSystem.CancelAt | FlightBookingSystem_Dist/src/bcu/cmp5332/bookingsystem/model/FlightBookingSystem.java:170-181 | The cancel updates once the booking is found: the flag is set; the booking leaves the master list at its position and the customer's list; its customer leaves the passengers |
| Registry.FlightBookingSystem.GetBookingById | FlightBookingSystem_Dist/src/bcu/cmp5332/bookingsystem/model/FlightBookingSystem.java:196-203 | The first master-list booking with that id, or null |
| Registry.FlightBookingSystem.EditBooking | FlightBookingSystem_Dist/src/bcu/cmp5332/bookingsystem/model/FlightBookingSystem.java:216-240 | Spelled out below the table |
| Registry.FlightBookingSystem.MoveBooking | FlightBookingSystem_Dist/src/bcu/cmp5332/bookingsystem/model/FlightBookingSystem.java:228-239 | The removals and then the insertions of editBooking, with the resulting sets given both for a different and for the same target flight |
| Registry.FlightBookingSystem.Detach | FlightBookingSystem_Dist/src/bcu/cmp5332/bookingsystem/model/FlightBookingSystem.java:228-233 | The booking leaves the old flight's sets, the customer's list and the master list |
| Registry.FlightBookingSystem.Attach | FlightBookingSystem_Dist/src/bcu/cmp5332/bookingsystem/model/FlightBookingSystem.java:236-239 | A fresh booking, with the next id and dated today, is appended to the master list and joins the flight's sets |
| Registry.FlightBookingSystem.RemoveBooking | FlightBookingSystem_Dist/src/bcu/cmp5332/bookingsystem/model/FlightBookingSystem.java:247-249 | The master list loses the first occurrence of the booking |
| Registry.FlightBookingSystem.AddBooking | FlightBookingSystem_Dist/src/bcu/cmp5332/bookingsystem/model/FlightBookingSystem.java:265-267 | The master list gains the booking at the end |
| Registry.FlightBookingSystem.DeleteCustomer | FlightBookingSystem_Dist/src/bcu/cmp5332/bookingsystem/model/FlightBookingSystem.java:294-303 | Removes exactly that entry. An absent key fails with no change. Nothing else is writable |
| Registry.FlightBookingSystem.DeleteFlight | FlightBookingSystem_Dist/src/bcu/cmp5332/bookingsystem/model/FlightBookingSystem.java:311-325 | No flight with that number: fails with no change. Otherwise it removes the entry keyed by the id of the lowest-key flight with that number, so when keys match ids the count drops by one |
| Commands.MaxId | FlightBookingSystem_Dist/src/bcu/cmp5332/bookingsystem/commands/AddFlight.java:84-91 | At least 0, bounds every id in the list, and is 0 or one of those ids |
| Commands.LargestId | FlightBookingSystem_Dist/src/bcu/cmp5332/bookingsystem/commands/AddFlight.java:84-91 | The max-tracking loop computes MaxId |
| Commands.ListedIds | FlightBookingSystem_Dist/src/bcu/cmp5332/bookingsystem/commands/AddFlight.java:84-91 | The largest id of the key-ordered listing bounds every stored flight's id, and is 0 or a stored flight's id |
| Commands.NextFlightId | FlightBookingSystem_Dist/src/bcu/cmp5332/bookingsystem/commands/AddFlight.java:84-92 | When every stored id is below the largest int: at least 1, above every stored id, and 1 or one more than a stored id. When the largest stored id is the largest int, `++maxId` wraps and the id is the smallest int |
| Commands.AddFlight.Execute | FlightBookingSystem_Dist/src/bcu/cmp5332/bookingsystem/commands/AddFlight.java:80-103 | Spelled out below the table |
| Commands.NewAddFlight | FlightBookingSystem_Dist/src/bcu/cmp5332/bookingsystem/commands/AddFlight.java:58-62 | Accepts exactly when the flight number, origin, destination and date are all non-null, keeping the arguments; otherwise fails with invalid arguments |
| Commands.AddBooking.Execute | FlightBookingSystem_Dist/src/bcu/cmp5332/bookingsystem/commands/AddBooking.java:71-101 | Spelled out below the table |
| Commands.Book | FlightBookingSystem_Dist/src/bcu/cmp5332/bookingsystem/commands/AddBooking.java:84-96 | The mutation sequence after both lookups, with the same outcome split as AddBooking.Execute |
| Commands.EditBooking.Execute | FlightBookingSystem_Dist/src/bcu/cmp5332/bookingsystem/commands/EditBooking.java:63-106 | An unknown booking id or target flight changes nothing. Otherwise the booking is moved as the registry's editBooking moves it, never to the customer's list, with no duplicate check on the target |
| Commands.OfCustomer | FlightBookingSystem_Dist/src/bcu/cmp5332/bookingsystem/commands/ShowBooking.java:59-75 | Exactly the master-list bookings whose customer has that id: every one kept, nothing else |
| Commands.OfCustomerAppend | FlightBookingSystem_Dist/src/bcu/cmp5332/bookingsystem/commands/ShowBooking.java:59-75 | The filter distributes over concatenation, so the report keeps master-list order |
| Commands.EntriesOf | FlightBookingSystem_Dist/src/bcu/cmp5332/bookingsystem/commands/ShowBooking.java:61-73 | One entry per booking, in order, read from the booking and its flight |
| Commands.CustomerBookings | FlightBookingSystem_Dist/src/bcu/cmp5332/bookingsystem/commands/ShowCustomer.java:76-86 | The report loop collects exactly OfCustomer, in order, and counts it |
| Commands.FlightDetails | FlightBookingSystem_Dist/src/bcu/cmp5332/bookingsystem/commands/ShowBooking.java:63-71 | One booking's block starts with "Booking ID: " and ends with a blank line |
| Commands.BookingLine | FlightBookingSystem_Dist/src/bcu/cmp5332/bookingsystem/commands/ShowCustomer.java:79-83 | One booking's line starts with "* Booking date: " and ends with a newline |
| Commands.ShowBooking.constructor | FlightBookingSystem_Dist/src/bcu/cmp5332/bookingsystem/commands/ShowBooking.java:21-31 | Keeps the customer id; the buffer starts empty |
| Commands.ShowBooking.Execute | FlightBookingSystem_Dist/src/bcu/cmp5332/bookingsystem/commands/ShowBooking.java:42-83 | An unknown customer fails with the buffer unchanged. Otherwise it appends the long details, one block per booking of that customer in master-list order, and "N booking(s)" or "No flights booked with customerID #id." to the earlier buffer. Only the buffer changes |
| Commands.ShowCustomer.constructor | FlightBookingSystem_Dist/src/bcu/cmp5332/bookingsystem/commands/ShowCustomer.java:42-52 | Keeps the customer id; the buffer starts empty |
| Commands.ShowCustomer.Execute | FlightBookingSystem_Dist/src/bcu/cmp5332/bookingsystem/commands/ShowCustomer.java:67-93 | An unknown customer fails with the buffer unchanged. Otherwise it appends the details, one line per booking of that customer, and "N booking(s)" or "No bookings found.". Only the buffer changes |
| Parser.Tokens | FlightBookingSystem_Dist/src/bcu/cmp5332/bookingsystem/main/CommandParser.java:44 | One to three tokens that join back, with single spaces, into the line |
| Parser.Parse | FlightBookingSystem_Dist/src/bcu/cmp5332/bookingsystem/main/CommandParser.java:41-170 | Every failure is "Invalid command."; every number a command carries is a 32-bit int |
| Parser.Dispatch | FlightBookingSystem_Dist/src/bcu/cmp5332/bookingsystem/main/CommandParser.java:45-169 | Same as Parse, for any one to three tokens |
| Parser.ParseLoadGui | FlightBookingSystem_Dist/src/bcu/cmp5332/bookingsystem/main/CommandParser.java:99-101 | loadgui is recognised exactly when it is the first token, whatever follows |
| Parser.ParseKeywordLines | FlightBookingSystem_Dist/src/bcu/cmp5332/bookingsystem/main/CommandParser.java:102-117 | listflights, listcustomers and help are recognised exactly when the whole line is the keyword |
| Parser.ParseShow | FlightBookingSystem_Dist/src/bcu/cmp5332/bookingsystem/main/CommandParser.java:118-137 | showflight/showcustomer/showbooking n parse exactly from keyword, one space and an int making up the rest of the line |
| Parser.ParseBookingCommands | FlightBookingSystem_Dist/src/bcu/cmp5332/bookingsystem/main/CommandParser.java:138-161 | addbooking/editbooking/cancelbooking x y parse exactly from keyword, space, int, space, int |
| Parser.OneArgumentTokens | FlightBookingSystem_Dist/src/bcu/cmp5332/bookingsystem/main/CommandParser.java:44 | A line is a keyword plus one int exactly when it splits into those two tokens |
| Parser.TwoArgumentTokens | FlightBookingSystem_Dist/src/bcu/cmp5332/bookingsystem/main/CommandParser.java:44 | A line is a keyword plus two ints exactly when it splits into those three tokens |
| Parser.JoinedTokens | FlightBookingSystem_Dist/src/bcu/cmp5332/bookingsystem/main/CommandParser.java:44 | Two or three tokens rebuild the line with single spaces |
| Parser.RenderRoundTrip | FlightBookingSystem_Dist/src/bcu/cmp5332/bookingsystem/main/CommandParser.java:41-170 | Parsing the typed form of any command with int-sized arguments gives that command back |
| Text.FindFrom | FlightBookingSystem_Dist/src/bcu/cmp5332/bookingsystem/data/FlightDataManager.java:47 | The first occurrence of the separator at or after a position |
| Text.SplitDroppingTrailing | FlightBookingSystem_Dist/src/bcu/cmp5332/bookingsystem/data/CustomerDataManager.java:38 | `split(sep)`: the pieces of `split(sep, -1)` up to the trailing empty ones, which are the only ones dropped; the last piece kept is non-empty unless the separator never occurs |
| Text.SplitAll | FlightBookingSystem_Dist/src/bcu/cmp5332/bookingsystem/data/FlightDataManager.java:47 | `split(sep, -1)`: at least one piece, and the pieces join back into the line |
| Text.SplitAtMost | FlightBookingSystem_Dist/src/bcu/cmp5332/bookingsystem/main/CommandParser.java:44 | `split(sep, n)`: at most n pieces joining back into the line, none but the last holding the separator |
| Text.DropTrailingEmpty | FlightBookingSystem_Dist/src/bcu/cmp5332/bookingsystem/data/CustomerDataManager.java:38 | `split(sep)` drops exactly the trailing empty pieces |
| Text.SplitTerminated | FlightBookingSystem_Dist/src/bcu/cmp5332/bookingsystem/data/FlightDataManager.java:47 | A line of separator-terminated fields splits into those fields plus one empty piece |
| Text.ParseInt | FlightBookingSystem_Dist/src/bcu/cmp5332/bookingsystem/data/CustomerDataManager.java:41 | `Integer.parseInt`: results are 32-bit and the text starts with a sign or a digit |
| Text.IntToString | FlightBookingSystem_Dist/src/bcu/cmp5332/bookingsystem/data/CustomerDataManager.java:65-66 | `Integer.toString`: non-empty digits and signs, starting with '-' exactly when the number is negative; IntRoundTrip reads it back |
| Text.AddInt | FlightBookingSystem_Dist/src/bcu/cmp5332/bookingsystem/model/FlightBookingSystem.java:140 | `int` addition: always an int, the plain sum when that is an int, and otherwise the sum shifted by a multiple of 2^32 |
| Text.AddOneWraps | FlightBookingSystem_Dist/src/bcu/cmp5332/bookingsystem/commands/AddFlight.java:92 | One more than the largest int is the smallest int |
| Text.IntRoundTrip | FlightBookingSystem_Dist/src/bcu/cmp5332/bookingsystem/data/CustomerDataManager.java:41 | `parseInt(toString(n)) == n` for every int |
| Text.DigitsRoundTrip | FlightBookingSystem_Dist/src/bcu/cmp5332/bookingsystem/data/CustomerDataManager.java:41 | Decimal digits read back as the number written |
| Text.EqualsIgnoreCaseByLetter | FlightBookingSystem_Dist/src/bcu/cmp5332/bookingsystem/model/FlightBookingSystem.java:130 | Equal ignoring case exactly when the lengths are equal and the letters agree after lower-casing |
| Text.EqualsIgnoreCase | FlightBookingSystem_Dist/src/bcu/cmp5332/bookingsystem/model/FlightBookingSystem.java:129 | Every string equals itself ignoring case, and strings that are equal ignoring case have the same length |
| Text.ParseIsoDate | FlightBookingSystem_Dist/src/bcu/cmp5332/bookingsystem/data/BookingDataManager.java:43 | Accepts only a year field followed by -dd-dd, and only years of the LocalDate range, -999999999 to 999999999 |
| Text.ParsePatternDate | FlightBookingSystem_Dist/src/bcu/cmp5332/bookingsystem/data/FlightDataManager.java:55 | Accepts only a year field followed by -dd-dd, and only years of the current era up to 999999999 |
| Text.DateRoundTrip | FlightBookingSystem_Dist/src/bcu/cmp5332/bookingsystem/data/BookingDataManager.java:43 | `LocalDate.parse` reads back what `toString` writes, for every year of the LocalDate range, signed and long years included |
| Text.PatternDateRoundTrip | FlightBookingSystem_Dist/src/bcu/cmp5332/bookingsystem/data/FlightDataManager.java:55 | For every year from 1 up, the yyyy-MM-dd pattern writes the ISO text and reads it back |
| Text.PatternDateDropsEra | FlightBookingSystem_Dist/src/bcu/cmp5332/bookingsystem/data/FlightDataManager.java:55 | A year before year 1 written with the pattern reads back as year 1 - y, with the day clamped to that month's length |
| Text.FormatDate | FlightBookingSystem_Dist/src/bcu/cmp5332/bookingsystem/data/BookingDataManager.java:67 | `LocalDate.toString`: digits and signs only, ending in -MM-dd, the shape both parsers need |
| Text.FormatPatternDate | FlightBookingSystem_Dist/src/bcu/cmp5332/bookingsystem/data/FlightDataManager.java:88 | The yyyy-MM-dd pattern: digits and signs only, ending in -MM-dd |
| Text.ParseYearField | FlightBookingSystem_Dist/src/bcu/cmp5332/bookingsystem/data/BookingDataManager.java:43 | A year field is at least four characters; a leading '-' gives a negative year and anything else a year of at least 0 |
| Text.YearTextReads | FlightBookingSystem_Dist/src/bcu/cmp5332/bookingsystem/data/BookingDataManager.java:43 | The year field reads back every year of the LocalDate range, with the ten and nineteen digit limits of the two formats |
| Text.ParsePrice | FlightBookingSystem_Dist/src/bcu/cmp5332/bookingsystem/data/FlightDataManager.java:57 | Accepts exactly the decimal forms of the Java double syntax (sign, NaN, Infinity, digits with a point and exponent, type suffix, surrounding blanks), keeping the text |
| Text.Trim | FlightBookingSystem_Dist/src/bcu/cmp5332/bookingsystem/data/FlightDataManager.java:57 | `String.trim` inside `parseDouble`: a contiguous part of the text, with nothing at or below ' ' at either end, and the text itself when it has none there |
| Common.RemoveFirst | FlightBookingSystem_Dist/src/bcu/cmp5332/bookingsystem/model/FlightBookingSystem.java:247-249 | `List.remove`: unchanged when absent, else one shorter with exactly one occurrence fewer |
| Common.IndexOf | FlightBookingSystem_Dist/src/bcu/cmp5332/bookingsystem/model/FlightBookingSystem.java:247-249 | The first position of the element, or the length exactly when it is absent |
| Ordered.SortedKeys | FlightBookingSystem_Dist/src/bcu/cmp5332/bookingsystem/model/FlightBookingSystem.java:56-58 | The keys strictly ascending, each exactly once |
| Ordered.InKeyOrderValues | FlightBookingSystem_Dist/src/bcu/cmp5332/bookingsystem/model/FlightBookingSystem.java:56-58 | A key-ordered listing holds exactly the map's values, one per key |
| Ordered.SmallestKey | FlightBookingSystem_Dist/src/bcu/cmp5332/bookingsystem/model/FlightBookingSystem.java:97 | The least key of the remaining set, the next key a TreeMap iteration visits |
| Ordered.KeysInOrder | FlightBookingSystem_Dist/src/bcu/cmp5332/bookingsystem/model/FlightBookingSystem.java:56-58 | Repeated selection of the least key yields the keys in TreeMap order |
| DataFormat.SplitStored | FlightBookingSystem_Dist/src/bcu/cmp5332/bookingsystem/data/CustomerDataManager.java:38 | `split("::")` of a stored line gives its fields back when the last one is non-empty |
| DataFormat.SplitStoredEmptyLast | FlightBookingSystem_Dist/src/bcu/cmp5332/bookingsystem/data/CustomerDataManager.java:38-40 | With an empty last field the split yields fewer pieces than fields |
| DataFormat.IntField | FlightBookingSystem_Dist/src/bcu/cmp5332/bookingsystem/data/CustomerDataManager.java:65 | A written int is a non-empty field that survives the format |
| DataFormat.DateField | FlightBookingSystem_Dist/src/bcu/cmp5332/bookingsystem/data/BookingDataManager.java:67 | A written date, in either format, is a non-empty field that survives the format |
| DataFormat.Lines | FlightBookingSystem_Dist/src/bcu/cmp5332/bookingsystem/data/CustomerDataManager.java:37 | readLine/nextLine over a whole file: no line holds a line-break character |
| DataFormat.LinesOfFileText | FlightBookingSystem_Dist/src/bcu/cmp5332/bookingsystem/data/CustomerDataManager.java:64-68 | Lines free of line breaks, each written with a newline or carriage return and newline after it, are read back as the same lines |
| FlightData.DecodeFlight | FlightBookingSystem_Dist/src/bcu/cmp5332/bookingsystem/data/FlightDataManager.java:47-67 | Decoded ids and capacities are ints and the year is at least 1. Errors are: invalid data on the numbered line, unparsable data on the numbered line, or the date parser's own error |
| FlightData.EncodeFlight | FlightBookingSystem_Dist/src/bcu/cmp5332/bookingsystem/data/FlightDataManager.java:84-92 | A storable flight's line holds no character at which Scanner.nextLine ends a line; FlightRoundTrip decodes it back |
| FlightData.FlightRoundTrip | FlightBookingSystem_Dist/src/bcu/cmp5332/bookingsystem/data/FlightDataManager.java:47-57 | A storable flight's line decodes to that flight |
| FlightData.FlightLineSplits | FlightBookingSystem_Dist/src/bcu/cmp5332/bookingsystem/data/FlightDataManager.java:47 | A written flight line splits into its seven fields and one trailing empty piece |
| FlightData.EncodeFlights | FlightBookingSystem_Dist/src/bcu/cmp5332/bookingsystem/data/FlightDataManager.java:83-93 | One line per flight |
| FlightData.DecodeFlights | FlightBookingSystem_Dist/src/bcu/cmp5332/bookingsystem/data/FlightDataManager.java:44-48 | One decoding per line, with line numbers from 1 |
| FlightData.AddFlights | FlightBookingSystem_Dist/src/bcu/cmp5332/bookingsystem/data/FlightDataManager.java:44-69 | The load never loses the flights loaded before it, adds at most one per line, and exactly one per line when it completes; AddedFlightsAreNew states that the earlier ones stay in front, in order |
| FlightData.StoredFlightLines | FlightBookingSystem_Dist/src/bcu/cmp5332/bookingsystem/data/FlightDataManager.java:83-93 | The text storeData writes for storable flights is cut back into exactly the lines it wrote |
| FlightData.AddedFlightsAreNew | FlightBookingSystem_Dist/src/bcu/cmp5332/bookingsystem/data/FlightDataManager.java:61 | Loading keeps what was loaded. Each added flight has an id that was not registered before, and no two added flights share an id |
| FlightData.ReloadFlights | FlightBookingSystem_Dist/src/bcu/cmp5332/bookingsystem/data/FlightDataManager.java:41-92 | Writing storable flights with distinct, unregistered ids as a file, with either line separator, and loading that text adds exactly those flights in order, and the load completes |
| FlightData.StoredFlightsReload | FlightBookingSystem_Dist/src/bcu/cmp5332/bookingsystem/data/FlightDataManager.java:41-92 | The file storeData writes for the registry's key-ordered flights, with either line separator, loads back into an empty registry as the same flights |
| FlightData.AddFlightsStops | FlightBookingSystem_Dist/src/bcu/cmp5332/bookingsystem/data/FlightDataManager.java:61-67 | A bad line or a taken id ends the load with the flights before it kept |
| FlightData.RegisterFlight | FlightBookingSystem_Dist/src/bcu/cmp5332/bookingsystem/data/FlightDataManager.java:59-61 | A taken id fails with the map unchanged. Otherwise a fresh flight carrying the record's fields and empty sets is added under its id |
| FlightData.RegisterFlights | FlightBookingSystem_Dist/src/bcu/cmp5332/bookingsystem/data/FlightDataManager.java:44-69 | Ends as AddFlights says. The keys gain exactly the ids of the loaded records, each installed with its fields. Old entries are untouched and new ones are fresh |
| FlightData.LoadFlights | FlightBookingSystem_Dist/src/bcu/cmp5332/bookingsystem/data/FlightDataManager.java:41-71 | loadData for flights: the same, from the file's text cut into lines as Scanner.nextLine cuts it |
| CustomerData.DecodeCustomer | FlightBookingSystem_Dist/src/bcu/cmp5332/bookingsystem/data/CustomerDataManager.java:38-49 | A line that is not exactly four pieces is skipped. A bad id is the only error (NumberFormatException). Decoded ids are ints |
| CustomerData.EncodeCustomer | FlightBookingSystem_Dist/src/bcu/cmp5332/bookingsystem/data/CustomerDataManager.java:65-67 | A storable customer's line holds no character at which readLine ends a line; CustomerRoundTrip decodes it back |
| CustomerData.CustomerRoundTrip | FlightBookingSystem_Dist/src/bcu/cmp5332/bookingsystem/data/CustomerDataManager.java:38-44 | A storable customer with a non-empty e-mail reads back as itself |
| CustomerData.EmptyEmailSkipped | FlightBookingSystem_Dist/src/bcu/cmp5332/bookingsystem/data/CustomerDataManager.java:38-48 | A stored customer with an empty e-mail is skipped when read back |
| CustomerData.ColonEndingNameShifts | FlightBookingSystem_Dist/src/bcu/cmp5332/bookingsystem/data/CustomerDataManager.java:38-44 | A name ending in ':' loses the colon, which moves to the front of the phone |
| CustomerData.EncodeCustomers | FlightBookingSystem_Dist/src/bcu/cmp5332/bookingsystem/data/CustomerDataManager.java:64-67 | One line per customer |
| CustomerData.DecodeCustomers | FlightBookingSystem_Dist/src/bcu/cmp5332/bookingsystem/data/CustomerDataManager.java:37-38 | One decoding per line |
| CustomerData.Admit | FlightBookingSystem_Dist/src/bcu/cmp5332/bookingsystem/model/FlightBookingSystem.java:126-145 | addCustomer on values: fails with the e-mail error exactly when the e-mail is listed ignoring case; otherwise no key is lost and the counter does not go down |
| CustomerData.LargestIdKeepsCounter | FlightBookingSystem_Dist/src/bcu/cmp5332/bookingsystem/model/FlightBookingSystem.java:140 | A customer with the largest int id is added under that id, and the counter stays where it was, not above the new key |
| CustomerData.AddCustomers | FlightBookingSystem_Dist/src/bcu/cmp5332/bookingsystem/data/CustomerDataManager.java:37-50 | The load never loses a key and never lowers the counter |
| CustomerData.AdmitKeepsSound | FlightBookingSystem_Dist/src/bcu/cmp5332/bookingsystem/model/FlightBookingSystem.java:126-145 | Spelled out below the table |
| CustomerData.AddCustomersKeepsSound | FlightBookingSystem_Dist/src/bcu/cmp5332/bookingsystem/data/CustomerDataManager.java:37-50 | Loading lines whose ids are ints keeps a sound directory sound (every key below the counter or the largest int), keeps every key and never lowers the counter |
| CustomerData.NextAfter | FlightBookingSystem_Dist/src/bcu/cmp5332/bookingsystem/model/FlightBookingSystem.java:140 | The counter after the loaded ids is at least the start, and above every loaded int id except the largest int, where id + 1 wraps |
| CustomerData.ReloadCustomers | FlightBookingSystem_Dist/src/bcu/cmp5332/bookingsystem/data/CustomerDataManager.java:34-66 | Spelled out below the table |
| CustomerData.InsertDistinct | FlightBookingSystem_Dist/src/bcu/cmp5332/bookingsystem/model/FlightBookingSystem.java:144 | Putting records with distinct ids finds each under its id and leaves other rows alone |
| CustomerData.ListedCustomers | FlightBookingSystem_Dist/src/bcu/cmp5332/bookingsystem/model/FlightBookingSystem.java:283-285 | The records of the key-ordered customer listing have strictly ascending ids covering the keys |
| CustomerData.StoredCustomersReload | FlightBookingSystem_Dist/src/bcu/cmp5332/bookingsystem/data/CustomerDataManager.java:34-71 | The file storeData writes for the registry's customers, with either line separator, loads back into an empty registry as the same rows, with the counter past every id except the largest int |
| CustomerData.StoredCustomerLines | FlightBookingSystem_Dist/src/bcu/cmp5332/bookingsystem/data/CustomerDataManager.java:62-71 | The text storeData writes for storable customers is cut back into exactly the lines it wrote |
| CustomerData.BrokenNameSkipped | FlightBookingSystem_Dist/src/bcu/cmp5332/bookingsystem/data/CustomerDataManager.java:37-49 | A name holding a newline is written across two lines; each has too few pieces, so both are skipped and the load leaves the directory unchanged |
| CustomerData.TakenIsListed | FlightBookingSystem_Dist/src/bcu/cmp5332/bookingsystem/model/FlightBookingSystem.java:128-133 | The registry's duplicate test is the duplicate test on values |
| CustomerData.RegisterCustomer | FlightBookingSystem_Dist/src/bcu/cmp5332/bookingsystem/data/CustomerDataManager.java:45-46 | A fresh customer, with no bookings, is handed to addCustomer. The registry's customer side ends as Admit says |
| CustomerData.RegisterCustomers | FlightBookingSystem_Dist/src/bcu/cmp5332/bookingsystem/data/CustomerDataManager.java:37-50 | Ends as AddCustomers says. Old customers are untouched and added ones are fresh with no bookings |
| CustomerData.LoadCustomers | FlightBookingSystem_Dist/src/bcu/cmp5332/bookingsystem/data/CustomerDataManager.java:34-52 | loadData for customers: the same, from the file's text cut into lines as BufferedReader.readLine cuts it |
| BookingData.DecodeBooking | FlightBookingSystem_Dist/src/bcu/cmp5332/bookingsystem/data/BookingDataManager.java:40-43 | Decoded ids are ints. The errors are a missing piece, a bad number or a bad date, in field order |
| BookingData.EncodeBooking | FlightBookingSystem_Dist/src/bcu/cmp5332/bookingsystem/data/BookingDataManager.java:66-68 | A booking line never holds a line-break character; BookingRoundTrip decodes it back |
| BookingData.BookingRoundTrip | FlightBookingSystem_Dist/src/bcu/cmp5332/bookingsystem/data/BookingDataManager.java:40-67 | A stored booking line decodes to its customer id, flight id and date |
| BookingData.EncodeBookings | FlightBookingSystem_Dist/src/bcu/cmp5332/bookingsystem/data/BookingDataManager.java:65-69 | One line per master-list booking |
| BookingData.DecodeBookings | FlightBookingSystem_Dist/src/bcu/cmp5332/bookingsystem/data/BookingDataManager.java:39-40 | One decoding per line |
| BookingData.AddBookings | FlightBookingSystem_Dist/src/bcu/cmp5332/bookingsystem/data/BookingDataManager.java:39-51 | The load never loses the bookings loaded before it, adds at most one per line, and exactly one per line when it completes; AddBookingsPrefix states that the earlier ones stay in front, in order |
| BookingData.StoredBookingLines | FlightBookingSystem_Dist/src/bcu/cmp5332/bookingsystem/data/BookingDataManager.java:63-71 | The text storeData writes for bookings is cut back into exactly the lines it wrote |
| BookingData.AddBookingsPrefix | FlightBookingSystem_Dist/src/bcu/cmp5332/bookingsystem/data/BookingDataManager.java:39-50 | The load books the longest run of accepted lines, in order, and fails with the first refusal if there is one |
| BookingData.ReloadBookings | FlightBookingSystem_Dist/src/bcu/cmp5332/bookingsystem/data/BookingDataManager.java:36-71 | Storable records of registered customers and flights, written as a file with either line separator and loaded back, are booked in the same order, and the load completes |
| BookingData.StoredBookingsReload | FlightBookingSystem_Dist/src/bcu/cmp5332/bookingsystem/data/BookingDataManager.java:36-71 | The master list written as a file, with either line separator, and loaded back gives the same (customer id, flight id, date) sequence |
| BookingData.RegisterBooking | FlightBookingSystem_Dist/src/bcu/cmp5332/bookingsystem/data/BookingDataManager.java:44-50 | An unknown customer, then an unknown flight, fails with no change. Otherwise it makes a fresh booking with the next id, appends it to the master list and puts it in the flight's sets; the customer's list is untouched |
| BookingData.RegisterNext | FlightBookingSystem_Dist/src/bcu/cmp5332/bookingsystem/data/BookingDataManager.java:44-50 | One turn of the load loop keeps the loader invariant with one more record and one more fresh booking |
| BookingData.RegisterLine | FlightBookingSystem_Dist/src/bcu/cmp5332/bookingsystem/data/BookingDataManager.java:40-50 | One line: a refusal ends the load as AddBookings says, and an accepted line moves on, keeping the invariant |
| BookingData.RegisterEach | FlightBookingSystem_Dist/src/bcu/cmp5332/bookingsystem/data/BookingDataManager.java:39-51 | The load loop books exactly the records AddBookings selects and ends with its status |
| BookingData.RegisterBookings | FlightBookingSystem_Dist/src/bcu/cmp5332/bookingsystem/data/BookingDataManager.java:39-51 | Spelled out below the table |
| BookingData.LoadBookings | FlightBookingSystem_Dist/src/bcu/cmp5332/bookingsystem/data/BookingDataManager.java:36-53 | loadData for bookings: the same, from the file's text cut into lines as BufferedReader.readLine cuts it |

The longer contracts in the table, in full:

- **Registry.FlightBookingSystem.AddCustomer**
  - An e-mail already stored, ignoring case, fails and changes nothing.
  - Id 0 takes the counter, which then advances.
  - Any other id sets the counter to max(counter, id + 1), with `int` addition, and overwrites a present key, so the count is unchanged.
  - When the added id is an int, every key stays below the counter or is the largest int, the one id whose successor wraps.
- **Registry.FlightBookingSystem.CancelBooking**
  - With no match it fails and changes nothing.
  - Otherwise the first booking with both ids is marked cancelled and leaves the master list (at its position) and the customer's list (first occurrence).
  - Its customer leaves the flight's passengers.
  - It stays in the flight's booking set.
  - Every other booking, flight and customer is unchanged.
- **Registry.FlightBookingSystem.EditBooking**
  - A missing target flight fails before any change.
  - Otherwise the booking leaves the old flight's sets, the customer's list and the master list.
  - A fresh booking is created with the next id, for the same customer, dated today. It is appended to the master list and joins the target's sets, but never the customer's list.
  - The booking id must exist; the source dereferences null otherwise.
- **Commands.AddFlight.Execute**
  - The new flight carries the arguments, with empty sets.
  - When every stored id is below the largest int, its id is above every stored id (1 for none), and the command succeeds when keys match ids.
  - When the largest stored id is the largest int, `++maxId` wraps and the id is the smallest int.
  - It succeeds exactly when the id is free.
  - The map then gains exactly that entry, so the count grows by one.
  - Otherwise the error is re-wrapped and the map is unchanged.
- **Commands.AddBooking.Execute**
  - An unknown customer, then an unknown flight, changes nothing.
  - Otherwise a fresh booking (next id, dated today, price 0) is always appended to the master list and consumes an id.
  - A duplicate for the flight leaves the customer's list and the flight's sets unchanged.
  - Otherwise the booking is appended to the customer's list, and the flight gains the customer and the booking.
- **CustomerData.AdmitKeepsSound**
  - addCustomer on values, for an int id, keeps a sound directory sound: keys equal the non-zero ids, every key is below the counter or is the largest int, and e-mails are distinct ignoring case.
  - It keeps every key and never lowers the counter.
- **CustomerData.ReloadCustomers**
  - Writing storable customers with non-zero ids and distinct non-empty e-mails as a file, with either line separator, then loading that text, puts each one under its id.
  - The counter is left past them, except past the largest int, and the load completes.
- **BookingData.RegisterBookings**
  - The load ends with AddBookings' status.
  - The booking made for each accepted record has the next id, the record's registered customer and flight, and its date, and is appended to the master list in order.
  - Each flight gains exactly the customers and bookings of its records.
  - Customer lists are never filled.

## Left out

- The GUI (`gui/`), `Main`'s read–eval loop, and `FlightBookingSystemData`'s file orchestration. The booking loader takes the registered customer and flight keys as they are after the flight and customer loads.
- The interactive `addflight` and `addcustomer` branches of `CommandParser.parse` and `parseDateWithAttempts`. They read from the console, and the model only names them (`AddFlightPrompt`, `AddCustomerPrompt`).
- File handles and character encodings. A data file is its text; the platform's line separator is a parameter, `"\n"` or `"\r\n"`.
- `Help`, `LoadGUI`, `ListFlights`, `ListCustomers` and the `CancelBooking` command. They are constant text, window launching, printing, or a one-line call of the registry's cancelBooking, which is modelled.
- `ShowFlight`, `Flight.getDetailsLong` and `Booking.getDetails`. They format `double` values and dates for display.
- Prices. A `double` is kept as its decimal text (`Price`). `Double.toString` normalisation and arithmetic are not modelled, so the flight round trip requires the price text to read back as itself.
- `LocalDate.now()`. Today's date is a parameter of the commands that read it.
- `equalsIgnoreCase` folds ASCII letters only; Unicode case folding is not modelled.
- `Entities.Counters.TakeCustomerId`: does not model 32-bit wrap-around of the customer counter (`nextCustomerId++`), which would overflow after 2^31 ids.
- `Registry.FlightBookingSystem.NextCustomerId`: advances the counter by unbounded addition, for the same reason.
- `CustomerData.Admit`: its id-0 branch advances the counter by unbounded addition, for the same reason; an explicit id goes through the wrapping `Text.AddInt`.
- `Entities.Booking.constructor`: does not model 32-bit wrap-around of `lastID`.
- Null references. A missing argument of AddFlight's constructor is an `Option`. A missing booking in `editBooking` is a precondition, because the source dereferences null there.
- `System.out` messages, including the skipped-line message of the customer loader and the error messages of AddBooking's catch block. The returned `Status` says which message would be printed.
- `Text.PatternDateRoundTrip`: holds only for years from 1 up; earlier years lose their era, as `PatternDateDropsEra` states.
- `Text.ParseInt`: accepts ASCII digits only; `Integer.parseInt` also accepts the other Unicode decimal digits that `Character.digit` knows.
- `Text.ParsePrice`: accepts the decimal forms only; the hexadecimal floating-point literals `Double.parseDouble` also accepts (such as `0x1p3`) are rejected here.
- `FlightData.FlightRoundTrip`: requires text fields that contain no `::` and do not end in `:`, int-sized numbers, a year from 1 up and a price whose text reads back as itself.
- `CustomerData.CustomerRoundTrip`: requires fields free of `::` that do not end in `:`, and a non-empty e-mail; the other cases are stated by `EmptyEmailSkipped` and `ColonEndingNameShifts`.
- `BookingData.StoredBookingsReload`: the booking id, price and cancelled flag are not written by storeData, so they are not part of the round trip; the reloaded bookings get fresh ids.
- `Booking.date` is never set by the code in this model; its setter is modelled, its getter is not used by any modelled operation.
- Aliasing between the lists returned by `getBookings`/`getPassengers` and the entity state is not modelled; those getters return copies here, which is what every modelled caller needs.
- The scans over `TreeMap` values (addCustomer's duplicate scan, getFlightByNumber, deleteFlight's lookup) are modelled as a walk that takes the least remaining key each step, which visits the keys in the same order as the source's iterator.
