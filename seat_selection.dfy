/** The seat selection page: the booked/selected membership tests, the
    toggle rule with its ten-seat bound, the seat grid, the session load
    chain, and the booking guard with its user-id choice. */
module SeatSelection {
  import opened Results
  import opened JsText
  import opened Api
  import opened Storage
  import opened Auth

  const MaxSeats := 10
  const LoadFailed := "Failed to load booking details."
  const DefaultUserId := "1"
  const SomethingWrong := "Something went wrong"

  /** What the page renders. */
  datatype PageView = Spinner | Message(text: string) | SeatGrid
  const BookingsRoute := "/bookings"

  // ---------------------------------------------------------------- membership

  /** The coordinates of the booked records, in order, without their
      status and booking id. */
  function Positions(booked: seq<BookedSeat>): (p: seq<Seat>)
    ensures |p| == |booked|
    ensures forall i :: 0 <= i < |booked| ==> p[i] == Seat(booked[i].row, booked[i].col)
  {
    seq(|booked|, i requires 0 <= i < |booked| => Seat(booked[i].row, booked[i].col))
  }

  /** `isSeatBooked`: some booked record has the row and the column,
      whatever its status. */
  predicate IsSeatBooked(booked: seq<BookedSeat>, row: int, col: int): (b: bool)
    ensures b <==> Seat(row, col) in Positions(booked)
  {
    exists i :: 0 <= i < |booked| && booked[i].row == row && booked[i].col == col
  }

  /** `isSeatSelected`: some selected entry has the row and the column, that
      is, the seat is a member of the selection. */
  predicate IsSeatSelected(selected: seq<Seat>, row: int, col: int): (b: bool)
    ensures b <==> Seat(row, col) in selected
  {
    exists i :: 0 <= i < |selected| && selected[i].row == row && selected[i].col == col
  }

  // ---------------------------------------------------------------- toggle

  /** `selectedSeats.filter(s => !(s.row === row && s.col === col))`. */
  function Without(selected: seq<Seat>, seat: Seat): (r: seq<Seat>)
    ensures forall x :: x in r <==> x in selected && x != seat
    ensures |r| <= |selected|
    ensures seat in selected ==> |r| < |selected|
  {
    if selected == [] then []
    else (if selected[0] == seat then [] else [selected[0]]) + Without(selected[1..], seat)
  }

  /** The new selection `toggleSeat(row, col)` stores: the clicked seat ends
      up selected exactly when it was not and there was room for it, no
      other seat changes, and the ten-seat bound is kept. */
  function Toggle(selected: seq<Seat>, seat: Seat): (r: seq<Seat>)
    ensures seat in r <==> seat !in selected && |selected| < MaxSeats
    ensures forall x :: x != seat ==> (x in r <==> x in selected)
    ensures |selected| <= MaxSeats ==> |r| <= MaxSeats
  {
    if IsSeatSelected(selected, seat.row, seat.col) then Without(selected, seat)
    else if |selected| >= MaxSeats then selected
    else selected + [seat]
  }

  /** Removal keeps the other entries in their order: filtering a selection
      made of two parts filters each part. */
  lemma {:induction false} WithoutConcat(a: seq<Seat>, b: seq<Seat>, seat: Seat)
    ensures Without(a + b, seat) == Without(a, seat) + Without(b, seat)
  {
    if a == [] {
      assert a + b == b;
    } else {
      assert (a + b)[0] == a[0];
      assert (a + b)[1..] == a[1..] + b;
      WithoutConcat(a[1..], b, seat);
    }
  }

  lemma {:induction false} WithoutAbsent(selected: seq<Seat>, seat: Seat)
    requires seat !in selected
    ensures Without(selected, seat) == selected
  {
    if selected != [] {
      WithoutAbsent(selected[1..], seat);
    }
  }

  /** Toggling a selected seat removes every entry equal to it, keeps every
      other entry, and does so at any selection size. */
  lemma ToggleDeselects(selected: seq<Seat>, seat: Seat)
    requires seat in selected
    ensures Toggle(selected, seat) == Without(selected, seat)
    ensures seat !in Toggle(selected, seat)
    ensures forall x :: x != seat ==> (x in Toggle(selected, seat) <==> x in selected)
    ensures |Toggle(selected, seat)| < |selected|
  {
  }

  /** Toggling an unselected seat when ten or more are selected changes nothing. */
  lemma ToggleAtLimit(selected: seq<Seat>, seat: Seat)
    requires seat !in selected && |selected| >= MaxSeats
    ensures Toggle(selected, seat) == selected
  {
  }

  /** Toggling an unselected seat below the limit appends it after the
      earlier entries, which keep their order. */
  lemma ToggleAppends(selected: seq<Seat>, seat: Seat)
    requires seat !in selected && |selected| < MaxSeats
    ensures Toggle(selected, seat) == selected + [seat]
    ensures Toggle(selected, seat)[..|selected|] == selected
  {
  }

  /** Toggling an absent seat twice, below the limit, restores the selection. */
  lemma ToggleTwiceRestores(selected: seq<Seat>, seat: Seat)
    requires seat !in selected && |selected| < MaxSeats
    ensures Toggle(Toggle(selected, seat), seat) == selected
  {
    ToggleAppends(selected, seat);
    ToggleDeselects(selected + [seat], seat);
    WithoutConcat(selected, [seat], seat);
    WithoutAbsent(selected, seat);
    assert Without([seat], seat) == [];
  }

  predicate NoDuplicates(s: seq<Seat>) {
    forall i, j :: 0 <= i < j < |s| ==> s[i] != s[j]
  }

  /** The selection invariant: at most ten seats, none twice. */
  predicate WellFormed(selected: seq<Seat>) {
    |selected| <= MaxSeats && NoDuplicates(selected)
  }

  lemma {:induction false} WithoutNoDuplicates(selected: seq<Seat>, seat: Seat)
    requires NoDuplicates(selected)
    ensures NoDuplicates(Without(selected, seat))
  {
    if selected != [] {
      WithoutNoDuplicates(selected[1..], seat);
      var rest := Without(selected[1..], seat);
      assert selected[0] !in selected[1..];
      assert selected[0] !in rest;
    }
  }

  lemma ToggleKeepsWellFormed(selected: seq<Seat>, seat: Seat)
    requires WellFormed(selected)
    ensures WellFormed(Toggle(selected, seat))
  {
    if seat in selected {
      WithoutNoDuplicates(selected, seat);
    }
  }

  /** The selection after a sequence of clicks. */
  function ToggleAll(selected: seq<Seat>, clicks: seq<Seat>): seq<Seat>
    decreases |clicks|
  {
    if clicks == [] then selected
    else ToggleAll(Toggle(selected, clicks[0]), clicks[1..])
  }

  /** From a well-formed selection (the empty one in particular), any
      sequence of toggles keeps at most ten seats and no duplicates. */
  lemma {:induction false} ToggleAllWellFormed(selected: seq<Seat>, clicks: seq<Seat>)
    requires WellFormed(selected)
    ensures WellFormed(ToggleAll(selected, clicks))
    decreases |clicks|
  {
    if clicks != [] {
      ToggleKeepsWellFormed(selected, clicks[0]);
      ToggleAllWellFormed(Toggle(selected, clicks[0]), clicks[1..]);
    }
  }

  // ---------------------------------------------------------------- grid

  /** The buttons of one row, columns 1 to `cols` (`Array.from` of a
      non-positive length is empty). */
  function GridRow(row: int, cols: int): (r: seq<Seat>)
    ensures forall s :: s in r <==> s.row == row && 1 <= s.col <= cols
    ensures |r| == if cols <= 0 then 0 else cols
  {
    if cols <= 0 then [] else GridRow(row, cols - 1) + [Seat(row, cols)]
  }

  /** The seats the grid renders, row by row, 1-indexed. */
  function Grid(rows: int, cols: int): (g: seq<Seat>)
    ensures forall s :: s in g <==> 1 <= s.row <= rows && 1 <= s.col <= cols
    ensures rows >= 0 && cols >= 0 ==> |g| == rows * cols
  {
    if rows <= 0 then [] else Grid(rows - 1, cols) + GridRow(rows, cols)
  }

  /** A rendered seat button. */
  datatype SeatButton = SeatButton(seat: Seat, disabled: bool, selected: bool)

  /** The grid of buttons for a screen: booked seats are disabled. */
  function SeatButtons(screen: Screen, booked: seq<BookedSeat>, selected: seq<Seat>): (bs: seq<SeatButton>)
    ensures |bs| == |Grid(screen.numRows, screen.numCols)|
    ensures forall i :: 0 <= i < |bs| ==> bs[i].seat == Grid(screen.numRows, screen.numCols)[i]
    ensures forall b :: b in bs ==> (b.disabled <==> IsSeatBooked(booked, b.seat.row, b.seat.col))
    ensures forall b :: b in bs ==> (b.selected <==> IsSeatSelected(selected, b.seat.row, b.seat.col))
  {
    var g := Grid(screen.numRows, screen.numCols);
    seq(|g|, i requires 0 <= i < |g| =>
      SeatButton(g[i], IsSeatBooked(booked, g[i].row, g[i].col), IsSeatSelected(selected, g[i].row, g[i].col)))
  }

  /** A seat a user can click: inside the grid and not booked. */
  predicate Offered(screen: Screen, booked: seq<BookedSeat>, seat: Seat) {
    InsideGrid(screen, seat.row, seat.col) && !IsSeatBooked(booked, seat.row, seat.col)
  }

  /** The enabled buttons are exactly the offered seats. */
  lemma EnabledButtonsAreOffered(screen: Screen, booked: seq<BookedSeat>, selected: seq<Seat>, seat: Seat)
    ensures (exists b :: b in SeatButtons(screen, booked, selected) && b.seat == seat && !b.disabled)
            <==> Offered(screen, booked, seat)
  {
    var bs := SeatButtons(screen, booked, selected);
    var g := Grid(screen.numRows, screen.numCols);
    if Offered(screen, booked, seat) {
      var i :| 0 <= i < |g| && g[i] == seat;
      assert bs[i] in bs && bs[i].seat == seat && !bs[i].disabled;
    }
  }

  lemma ToggleStaysWithin(selected: seq<Seat>, seat: Seat)
    ensures forall x :: x in Toggle(selected, seat) ==> x in selected || x == seat
  {
  }

  /** When every click comes from an enabled grid button, a selection of
      offered seats stays inside the grid and disjoint from the booked list. */
  lemma {:induction false} GridClicksStayOffered(screen: Screen, booked: seq<BookedSeat>,
                                                  selected: seq<Seat>, clicks: seq<Seat>)
    requires forall x :: x in selected ==> Offered(screen, booked, x)
    requires forall i :: 0 <= i < |clicks| ==> Offered(screen, booked, clicks[i])
    ensures forall x :: x in ToggleAll(selected, clicks) ==> Offered(screen, booked, x)
    decreases |clicks|
  {
    if clicks != [] {
      ToggleStaysWithin(selected, clicks[0]);
      GridClicksStayOffered(screen, booked, Toggle(selected, clicks[0]), clicks[1..]);
    }
  }

  // ---------------------------------------------------------------- load chain

  /** What loading the page fetched: each step runs only when the one before
      it succeeded, and `failed` says that some step threw. */
  datatype LoadOutcome = LoadOutcome(
    showtime: Option<Showtime>, screen: Option<Screen>, theatre: Option<Theatre>,
    bookedSeats: Option<seq<BookedSeat>>, failed: bool)

  /** The page's load sequence: showtime, its screen, that screen's theatre,
      then the booked seats. */
  function LoadChain(c: Catalog, showtimeId: int): (o: LoadOutcome)
    ensures o.failed <==> o.bookedSeats.None?
    ensures o.showtime.None? <==> GetShowtimeById(c, showtimeId).Err?
    ensures o.showtime.Some? ==> o.showtime.value.showtimeId == showtimeId && o.showtime.value in c.showtimes
    ensures o.screen.Some? ==> o.showtime.Some? && o.showtime.value.screenId in c.screens
                               && o.screen.value == c.screens[o.showtime.value.screenId]
    ensures o.showtime.Some? && o.screen.None? ==> o.showtime.value.screenId !in c.screens
    ensures o.theatre.Some? ==> o.screen.Some? && o.screen.value.theatreId in c.theatres
                                && o.theatre.value == c.theatres[o.screen.value.theatreId]
    ensures o.screen.Some? && o.theatre.None? ==> o.screen.value.theatreId !in c.theatres
    ensures o.bookedSeats.Some? ==> o.theatre.Some? && o.bookedSeats.value == GetBookedSeats(showtimeId)
    ensures o.theatre.Some? ==> o.bookedSeats == Some(GetBookedSeats(showtimeId)) && !o.failed
    ensures o.showtime.Some? ==> o.showtime.value == GetShowtimeById(c, showtimeId).value
  {
    match GetShowtimeById(c, showtimeId)
    case Err(_) => LoadOutcome(None, None, None, None, true)
    case Ok(showtime) =>
      match GetScreen(c, showtime.screenId)
      case Err(_) => LoadOutcome(Some(showtime), None, None, None, true)
      case Ok(screen) =>
        match GetTheatre(c, screen.theatreId)
        case Err(_) => LoadOutcome(Some(showtime), Some(screen), None, None, true)
        case Ok(theatre) =>
          LoadOutcome(Some(showtime), Some(screen), Some(theatre), Some(GetBookedSeats(showtimeId)), false)
  }

  /** On the mock tables every mock showtime loads, and every seat reported
      booked for it lies inside its screen's grid. */
  lemma MockShowtimesLoad(stamp: (int, int) -> string, showtimeId: int)
    requires 101 <= showtimeId <= 108
    ensures !LoadChain(MockCatalog(stamp), showtimeId).failed
    ensures forall i :: 0 <= i < |GetBookedSeats(showtimeId)| ==>
      InsideGrid(LoadChain(MockCatalog(stamp), showtimeId).screen.value,
                 GetBookedSeats(showtimeId)[i].row, GetBookedSeats(showtimeId)[i].col)
  {
    var c := MockCatalog(stamp);
    MockCatalogClosed(stamp);
    assert c.showtimes[showtimeId - 101].showtimeId == showtimeId;
    var o := LoadChain(c, showtimeId);
    MockBookedSeatsFitEveryScreen(showtimeId, o.showtime.value.screenId);
  }

  // ---------------------------------------------------------------- booking

  /** `!storedUserId`: a stored user id counts only when it is a non-empty
      string; null and "" are falsy. */
  predicate NeedsDefaultUser(stored: Option<string>): (r: bool)
    ensures stored == None ==> r
    ensures stored == Some("") ==> r
    ensures !r ==> stored.Some? && |stored.value| > 0
    ensures stored.Some? && stored.value != "" ==> !r
  {
    stored.None? || stored.value == ""
  }

  /** The user id `handleBooking` books under: the stored one, else "1". */
  function ResolveUserId(stored: Option<string>): (id: string)
    ensures NeedsDefaultUser(stored) ==> id == DefaultUserId
    ensures !NeedsDefaultUser(stored) ==> id == stored.value
    ensures id != ""
  {
    if NeedsDefaultUser(stored) then DefaultUserId else stored.value
  }

  /** A signed-in user books under their own id: login stores it in decimal
      under "userId" and the booking parses it back unchanged. */
  lemma LoggedInUserBooksUnderOwnId(items: map<string, string>, newToken: string, newUser: User)
    ensures var stored := LoginWrites(items, newToken, newUser);
      UserIdKey in stored && ParseInt(ResolveUserId(Some(stored[UserIdKey]))) == Some(newUser.userId)
  {
    var decimal := IntToDecimal(newUser.userId);
    assert ResolveUserId(Some(decimal)) == decimal;
    ParseIntOfDecimal(newUser.userId);
  }

  /** With nothing stored, the booking is made for user 1. */
  lemma DefaultUserIsOne()
    ensures ParseInt(ResolveUserId(None)) == Some(1)
  {
    assert IntToDecimal(1) == DefaultUserId;
    ParseIntOfDecimal(1);
  }

  /** The polling loop's stop condition: the word "confirmed" with each
      letter in either case, and nothing before or after it. */
  predicate IsConfirmed(status: string): (b: bool)
    ensures b <==> |status| == 9 && forall i :: 0 <= i < 9 ==>
                     status[i] == "confirmed"[i] || status[i] == "CONFIRMED"[i]
  {
    ToLowerCase(status) == "confirmed"
  }

  /** The mock booking service's answer already meets the stop condition. */
  lemma MockBookingIsConfirmed(request: BookingRequest, draw: int)
    requires 0 <= draw < 10000
    ensures IsConfirmed(CreateBooking(request, draw).status)
  {
  }

  // ---------------------------------------------------------------- the page

  /** The page component's state. `polling` is the booking id the status
      interval polls while it runs; `navigation` is where the page sent the
      user. */
  class SeatSelectionPage {
    var showtime: Option<Showtime>
    var screen: Option<Screen>
    var theatre: Option<Theatre>
    var bookedSeats: seq<BookedSeat>
    var selectedSeats: seq<Seat>
    var loading: bool
    var error: Option<string>
    var bookingInProgress: bool
    var polling: Option<int>
    var navigation: Option<string>

    ghost predicate Valid()
      reads this
    {
      WellFormed(selectedSeats)
    }

    constructor ()
      ensures Valid()
      ensures showtime.None? && screen.None? && theatre.None?
      ensures bookedSeats == [] && selectedSeats == []
      ensures loading && error.None? && !bookingInProgress
      ensures polling.None? && navigation.None?
    {
      showtime, screen, theatre := None, None, None;
      bookedSeats, selectedSeats := [], [];
      loading, error, bookingInProgress := true, None, false;
      polling, navigation := None, None;
    }

    /** Which of its three views the page renders: the spinner while
        loading; the error text (or "Something went wrong") when there is a
        non-empty error or the showtime or screen is missing; else the grid. */
    function View(): (v: PageView)
      reads this
      ensures v == Spinner <==> loading
      ensures v.Message? ==> v.text != ""
      ensures v.Message? && error.Some? && error.value != "" ==> v.text == error.value
      ensures v.Message? && (error.None? || error.value == "") ==> v.text == SomethingWrong
      ensures !loading && (error.None? || error.value == "") && showtime.Some? && screen.Some? <==> v == SeatGrid
    {
      if loading then Spinner
      else if (error.Some? && error.value != "") || showtime.None? || screen.None? then
        Message(if error.Some? && error.value != "" then error.value else SomethingWrong)
      else SeatGrid
    }

    /** The grid is on screen: loading is over, no error, and both the
        showtime and the screen are known. */
    predicate Rendered(): (r: bool)
      reads this
      ensures r <==> View() == SeatGrid
      ensures r ==> showtime.Some? && screen.Some?
    {
      !loading && (error.None? || error.value == "") && showtime.Some? && screen.Some?
    }

    /** The seat has an enabled button on the rendered grid. */
    predicate Clickable(row: int, col: int)
      reads this
    {
      Rendered() && Offered(screen.value, bookedSeats, Seat(row, col))
    }

    /** Every selected seat is offered by the current screen. */
    ghost predicate SelectionOffered()
      reads this
    {
      screen.Some? && forall x :: x in selectedSeats ==> Offered(screen.value, bookedSeats, x)
    }

    /** The confirm button is disabled: nothing is selected or a booking is
        under way. An enabled button on the rendered grid always gets past
        the guard of `handleBooking`. */
    predicate ConfirmDisabled(): (r: bool)
      reads this
      ensures bookingInProgress ==> r
      ensures selectedSeats == [] ==> r
      ensures !bookingInProgress && |selectedSeats| > 0 ==> !r
      ensures Rendered() && !r ==> showtime.Some? && |selectedSeats| > 0
    {
      |selectedSeats| == 0 || bookingInProgress
    }

    /** The load effect for the route's showtime id (`None` when the route
        has none, and then nothing happens). Each fetched record is stored as
        soon as it arrives, so a later failure leaves the earlier ones set. */
    method Load(c: Catalog, showtimeId: Option<int>)
      modifies this
      ensures showtimeId.None? ==> unchanged(this)
      ensures showtimeId.Some? ==>
        var o := LoadChain(c, showtimeId.value);
        && !loading
        && showtime == (if o.showtime.Some? then o.showtime else old(showtime))
        && screen == (if o.screen.Some? then o.screen else old(screen))
        && theatre == (if o.theatre.Some? then o.theatre else old(theatre))
        && bookedSeats == (if o.bookedSeats.Some? then o.bookedSeats.value else old(bookedSeats))
        && error == (if o.failed then Some(LoadFailed) else old(error))
      ensures selectedSeats == old(selectedSeats) && bookingInProgress == old(bookingInProgress)
      ensures polling == old(polling) && navigation == old(navigation)
    {
      if showtimeId.None? {
        return;
      }
      var id := showtimeId.value;
      loading := true;
      var showtimeResp := GetShowtimeById(c, id);
      if showtimeResp.Err? {
        error := Some(LoadFailed);
        loading := false;
        return;
      }
      showtime := Some(showtimeResp.value);
      var screenData := GetScreen(c, showtimeResp.value.screenId);
      if screenData.Err? {
        error := Some(LoadFailed);
        loading := false;
        return;
      }
      screen := Some(screenData.value);
      var theatreData := GetTheatre(c, screenData.value.theatreId);
      if theatreData.Err? {
        error := Some(LoadFailed);
        loading := false;
        return;
      }
      theatre := Some(theatreData.value);
      bookedSeats := GetBookedSeats(id);
      loading := false;
    }

    /** `toggleSeat(row, col)`; `alerted` says the ten-seat alert was shown. */
    method ToggleSeat(row: int, col: int) returns (alerted: bool)
      requires Valid()
      modifies this`selectedSeats
      ensures Valid()
      ensures selectedSeats == Toggle(old(selectedSeats), Seat(row, col))
      ensures alerted <==> Seat(row, col) !in old(selectedSeats) && |old(selectedSeats)| >= MaxSeats
      ensures old(SelectionOffered()) && old(Clickable(row, col)) ==> SelectionOffered()
    {
      ToggleKeepsWellFormed(selectedSeats, Seat(row, col));
      ToggleStaysWithin(selectedSeats, Seat(row, col));
      alerted := false;
      var isSelected := IsSeatSelected(selectedSeats, row, col);
      if isSelected {
        selectedSeats := Without(selectedSeats, Seat(row, col));
      } else {
        if |selectedSeats| >= MaxSeats {
          alerted := true;
          return;
        }
        selectedSeats := selectedSeats + [Seat(row, col)];
      }
    }

    /** `handleBooking`. With no showtime or an empty selection it does
        nothing. Otherwise it resolves the user id (storing "1" when none is
        stored), sends the showtime id and the current selection, and starts
        polling the returned booking id; its frame leaves every other field of
        the page as it was. `draw` is the mock's random id. */
    method HandleBooking(storage: LocalStorage, draw: int) returns (request: Option<BookingRequest>)
      requires 0 <= draw < 10000
      modifies this`bookingInProgress, this`polling, storage
      ensures old(showtime).None? || |old(selectedSeats)| == 0 ==>
        request.None? && unchanged(this) && unchanged(storage)
      ensures old(showtime).Some? && |old(selectedSeats)| > 0 ==>
        var stored := if UserIdKey in old(storage.items) then Some(old(storage.items)[UserIdKey]) else None;
        && request == Some(BookingRequest(ParseInt(ResolveUserId(stored)), old(showtime).value.showtimeId, old(selectedSeats)))
        && storage.items == (if NeedsDefaultUser(stored) then old(storage.items)[UserIdKey := DefaultUserId]
                             else old(storage.items))
        && bookingInProgress && ConfirmDisabled()
        && polling == Some(draw)
    {
      if showtime.None? || |selectedSeats| == 0 {
        return None;
      }
      ghost var before := storage.items;
      bookingInProgress := true;
      var storedUserId := storage.GetItem(UserIdKey);
      assert storedUserId == (if UserIdKey in before then Some(before[UserIdKey]) else None);
      var resolved := ResolveUserId(storedUserId);
      if NeedsDefaultUser(storedUserId) {
        storage.SetItem(UserIdKey, DefaultUserId);
      }
      var userId := ParseInt(resolved);
      var body := BookingRequest(userId, showtime.value.showtimeId, selectedSeats);
      var response := CreateBooking(body, draw);
      polling := Some(response.bookingId);
      request := Some(body);
      assert storage.items == (if NeedsDefaultUser(storedUserId) then before[UserIdKey := DefaultUserId] else before);
    }

    /** One tick of the status interval. A failed poll is only logged; a
        status that reads "confirmed" in any letter case stops the interval,
        ends the booking and sends the user to the bookings list. */
    method OnPollResult(poll: Result<string>)
      requires polling.Some?
      modifies this`polling, this`bookingInProgress, this`navigation
      ensures poll.Ok? && IsConfirmed(poll.value) ==>
        polling.None? && !bookingInProgress && navigation == Some(BookingsRoute)
        && selectedSeats == old(selectedSeats)
      ensures !(poll.Ok? && IsConfirmed(poll.value)) ==> unchanged(this)
    {
      if poll.Ok? && IsConfirmed(poll.value) {
        polling := None;
        bookingInProgress := false;
        navigation := Some(BookingsRoute);
      }
    }
  }
}
