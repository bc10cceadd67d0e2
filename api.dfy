/** The service layer: the records the client exchanges with the movie,
    theatre and booking services, the mock tables standing in for those
    services, the lookups over them, and the movie-list request builder and
    response check. Network round trips and artificial delays are not part
    of this model; each call is the value it resolves to. */
module Api {
  import opened Results

  datatype Movie = Movie(
    movieId: int, name: string, genres: seq<string>, runtimeMinutes: int,
    releaseDate: string, rating: real, language: string,
    description: Option<string>, posterUrl: Option<string>)

  datatype Showtime = Showtime(
    showtimeId: int, movieId: int, screenId: int, startTime: string,
    price: real, seatsBooked: int)

  datatype Cinema = Cinema(cinemaId: int, name: string)

  datatype Theatre = Theatre(theatreId: int, cinemaId: int, name: string, address: string)

  datatype Screen = Screen(
    screenId: int, theatreId: int, screenNumber: string, numRows: int, numCols: int)

  datatype BookedSeat = BookedSeat(row: int, col: int, status: string, bookingId: int)

  /** A seat coordinate as the booking request carries it. */
  datatype Seat = Seat(row: int, col: int)

  /** The body of a create-booking call; `userId` is `None` when the stored
      id does not parse (`parseInt` gives `NaN`). */
  datatype BookingRequest = BookingRequest(userId: Option<int>, showtimeId: int, seats: seq<Seat>)

  datatype BookingResponse = BookingResponse(bookingId: int, status: string, message: string)

  /** The tables the theatre and movie services answer from. */
  datatype Catalog = Catalog(
    movies: seq<Movie>, cinemas: seq<Cinema>, theatres: map<int, Theatre>,
    screens: map<int, Screen>, showtimes: seq<Showtime>)

  const MovieNotFound := "Movie not found"
  const ShowtimeNotFound := "Showtime not found"
  const ScreenNotFound := "Screen not found"
  const TheatreNotFound := "Theatre not found"
  const CinemaNotFound := "Cinema not found"
  const InvalidResponse := "Invalid API response format"
  const AllGenres := "All Genres"

  // ---------------------------------------------------------------- mock tables

  const MockMovies: seq<Movie> := [
    Movie(1, "Inception", ["Sci-Fi", "Action"], 148, "2010-07-16", 8.8, "English",
      Some("A thief who steals corporate secrets through the use of dream-sharing technology is given the inverse task of planting an idea into the mind of a C.E.O."),
      Some("https://images.unsplash.com/photo-1626814026160-2237a95fc5a0?q=80&w=800&auto=format&fit=crop")),
    Movie(2, "The Dark Knight", ["Action", "Crime"], 152, "2008-07-18", 9.0, "English",
      Some("When the menace known as the Joker wreaks havoc and chaos on the people of Gotham, Batman must accept one of the greatest psychological and physical tests of his ability to fight injustice."),
      Some("https://images.unsplash.com/photo-1478720568477-152d9b164e63?q=80&w=800&auto=format&fit=crop")),
    Movie(3, "Interstellar", ["Sci-Fi", "Adventure"], 169, "2014-11-07", 8.6, "English",
      Some("A team of explorers travel through a wormhole in space in an attempt to ensure humanity's survival."),
      Some("https://images.unsplash.com/photo-1534447677768-be436bb09401?q=80&w=800&auto=format&fit=crop")),
    Movie(4, "Dune: Part Two", ["Sci-Fi", "Adventure"], 166, "2024-03-01", 8.9, "English",
      Some("Paul Atreides unites with Chani and the Fremen while on a warpath of revenge against the conspirators who destroyed his family."),
      Some("https://images.unsplash.com/photo-1541963463532-d68292c34b19?q=80&w=800&auto=format&fit=crop"))
  ]

  const MockCinemas: seq<Cinema> := [
    Cinema(1, "AMC Theatres"),
    Cinema(2, "Regal Cinemas")
  ]

  const MockTheatres: map<int, Theatre> := map[
    1 := Theatre(1, 1, "AMC Empire 25", "234 W 42nd St, New York, NY"),
    2 := Theatre(2, 1, "AMC Lincoln Square", "1998 Broadway, New York, NY"),
    3 := Theatre(3, 2, "Regal Union Square", "850 Broadway, New York, NY")
  ]

  const MockScreens: map<int, Screen> := map[
    1 := Screen(1, 1, "1", 8, 10),
    2 := Screen(2, 1, "2", 10, 12),
    3 := Screen(3, 2, "IMAX", 15, 20),
    4 := Screen(4, 3, "1", 8, 10),
    5 := Screen(5, 3, "2", 8, 10)
  ]

  /** The mock showtimes. Their start times are today's date at a fixed
      local hour and minute; `stamp(h, m)` is the ISO text of that instant,
      which depends on the clock and the time zone. */
  function MockShowtimes(stamp: (int, int) -> string): (r: seq<Showtime>)
    ensures |r| == 8
    ensures forall i :: 0 <= i < |r| ==> r[i].showtimeId == 101 + i
  {
    [
      Showtime(101, 1, 1, stamp(10, 0), 12.50, 5),
      Showtime(102, 1, 1, stamp(14, 30), 12.50, 12),
      Showtime(103, 1, 2, stamp(18, 0), 15.00, 45),
      Showtime(104, 2, 3, stamp(11, 0), 22.50, 8),
      Showtime(105, 2, 3, stamp(15, 0), 22.50, 20),
      Showtime(106, 2, 4, stamp(20, 0), 15.00, 80),
      Showtime(107, 3, 5, stamp(13, 0), 12.50, 15),
      Showtime(108, 4, 4, stamp(16, 30), 14.00, 30)
    ]
  }

  function MockCatalog(stamp: (int, int) -> string): Catalog {
    Catalog(MockMovies, MockCinemas, MockTheatres, MockScreens, MockShowtimes(stamp))
  }

  /** The mock tables hold movies 1 to 4, cinemas 1 and 2, theatres 1 to 3,
      screens 1 to 5 and showtimes 101 to 108, the sequences in id order and
      every map entry under its own id. */
  lemma MockTableIds(stamp: (int, int) -> string)
    ensures var c := MockCatalog(stamp);
      && |c.movies| == 4 && (forall i :: 0 <= i < 4 ==> c.movies[i].movieId == i + 1)
      && |c.cinemas| == 2 && c.cinemas[0].cinemaId == 1 && c.cinemas[1].cinemaId == 2
      && c.theatres.Keys == {1, 2, 3} && (forall id :: id in c.theatres ==> c.theatres[id].theatreId == id)
      && c.screens.Keys == {1, 2, 3, 4, 5} && (forall id :: id in c.screens ==> c.screens[id].screenId == id)
      && |c.showtimes| == 8 && (forall i :: 0 <= i < 8 ==> c.showtimes[i].showtimeId == 101 + i)
  {
  }

  /** The seats reported as booked for an even showtime id. */
  const MockBookedSeats: seq<BookedSeat> := [
    BookedSeat(1, 2, "booked", 1),
    BookedSeat(1, 3, "booked", 1),
    BookedSeat(4, 5, "booked", 2),
    BookedSeat(4, 6, "booked", 2),
    BookedSeat(5, 5, "booked", 3)
  ]

  /** The seats reported as booked for an odd showtime id. */
  const OddShowtimeBookedSeats: seq<BookedSeat> := [
    BookedSeat(2, 2, "booked", 10),
    BookedSeat(2, 3, "booked", 10),
    BookedSeat(3, 4, "booked", 11)
  ]

  // ---------------------------------------------------------------- lookups

  /** `Array.prototype.findIndex`: the first position whose element matches. */
  function FindFirst<T>(s: seq<T>, matches: T -> bool): (r: Option<nat>)
    ensures r.Some? ==> r.value < |s| && matches(s[r.value])
    ensures r.Some? ==> forall j :: 0 <= j < r.value ==> !matches(s[j])
    ensures r.None? ==> forall j :: 0 <= j < |s| ==> !matches(s[j])
  {
    if s == [] then None
    else if matches(s[0]) then Some(0)
    else match FindFirst(s[1..], matches)
      case None => None
      case Some(k) => Some(k + 1)
  }

  /** `movieApi.getById`: the first movie with the id, else "Movie not found". */
  function GetMovieById(c: Catalog, id: int): (r: Result<Movie>)
    ensures r.Ok? <==> exists i :: 0 <= i < |c.movies| && c.movies[i].movieId == id
    ensures r.Ok? ==> r.value in c.movies && r.value.movieId == id
    ensures r.Ok? ==> exists i :: 0 <= i < |c.movies| && c.movies[i] == r.value
                        && forall j :: 0 <= j < i ==> c.movies[j].movieId != id
    ensures r.Err? ==> r.error == MovieNotFound
  {
    match FindFirst(c.movies, (m: Movie) => m.movieId == id)
    case None => Err(MovieNotFound)
    case Some(i) => Ok(c.movies[i])
  }

  /** `theatreApi.getShowtimeById`: the first showtime with the id, else
      "Showtime not found". */
  function GetShowtimeById(c: Catalog, id: int): (r: Result<Showtime>)
    ensures r.Ok? <==> exists i :: 0 <= i < |c.showtimes| && c.showtimes[i].showtimeId == id
    ensures r.Ok? ==> r.value in c.showtimes && r.value.showtimeId == id
    ensures r.Ok? ==> exists i :: 0 <= i < |c.showtimes| && c.showtimes[i] == r.value
                        && forall j :: 0 <= j < i ==> c.showtimes[j].showtimeId != id
    ensures r.Err? ==> r.error == ShowtimeNotFound
  {
    match FindFirst(c.showtimes, (s: Showtime) => s.showtimeId == id)
    case None => Err(ShowtimeNotFound)
    case Some(i) => Ok(c.showtimes[i])
  }

  /** `theatreApi.getScreen`: the screen stored under the id, else "Screen not found". */
  function GetScreen(c: Catalog, id: int): (r: Result<Screen>)
    ensures r.Ok? <==> id in c.screens
    ensures r.Ok? ==> r.value == c.screens[id]
    ensures r.Err? ==> r.error == ScreenNotFound
  {
    if id in c.screens then Ok(c.screens[id]) else Err(ScreenNotFound)
  }

  /** `theatreApi.getTheatre`: the theatre stored under the id, else "Theatre not found". */
  function GetTheatre(c: Catalog, id: int): (r: Result<Theatre>)
    ensures r.Ok? <==> id in c.theatres
    ensures r.Ok? ==> r.value == c.theatres[id]
    ensures r.Err? ==> r.error == TheatreNotFound
  {
    if id in c.theatres then Ok(c.theatres[id]) else Err(TheatreNotFound)
  }

  /** `theatreApi.getCinema`: the first cinema with the id, else "Cinema not found". */
  function GetCinema(c: Catalog, id: int): (r: Result<Cinema>)
    ensures r.Ok? <==> exists i :: 0 <= i < |c.cinemas| && c.cinemas[i].cinemaId == id
    ensures r.Ok? ==> r.value in c.cinemas && r.value.cinemaId == id
    ensures r.Ok? ==> exists i :: 0 <= i < |c.cinemas| && c.cinemas[i] == r.value
                        && forall j :: 0 <= j < i ==> c.cinemas[j].cinemaId != id
    ensures r.Err? ==> r.error == CinemaNotFound
  {
    match FindFirst(c.cinemas, (x: Cinema) => x.cinemaId == id)
    case None => Err(CinemaNotFound)
    case Some(i) => Ok(c.cinemas[i])
  }

  /** The showtimes of `shows` that belong to the movie, in their order. */
  function ShowtimesOf(shows: seq<Showtime>, movieId: int): (r: seq<Showtime>)
    ensures forall s :: s in r <==> s in shows && s.movieId == movieId
    ensures |r| <= |shows|
  {
    if shows == [] then []
    else (if shows[0].movieId == movieId then [shows[0]] else []) + ShowtimesOf(shows[1..], movieId)
  }

  /** `theatreApi.getShowtimes`: the catalog's showtimes of the movie. */
  function GetShowtimes(c: Catalog, movieId: int): (r: seq<Showtime>)
    ensures forall s :: s in r <==> s in c.showtimes && s.movieId == movieId
  {
    ShowtimesOf(c.showtimes, movieId)
  }

  /** Filtering by movie keeps table order: the showtimes of a table made of
      two parts are those of the first part followed by those of the second. */
  lemma {:induction false} ShowtimesOfConcat(a: seq<Showtime>, b: seq<Showtime>, movieId: int)
    ensures ShowtimesOf(a + b, movieId) == ShowtimesOf(a, movieId) + ShowtimesOf(b, movieId)
  {
    if a != [] {
      assert (a + b)[0] == a[0];
      assert (a + b)[1..] == a[1..] + b;
      ShowtimesOfConcat(a[1..], b, movieId);
    } else {
      assert a + b == b;
    }
  }

  /** The filter keeps every copy of a matching showtime and no copy of any
      other: as multisets, the result is the matching part of the table. */
  lemma {:induction false} ShowtimesOfMultiset(shows: seq<Showtime>, movieId: int, s: Showtime)
    ensures multiset(ShowtimesOf(shows, movieId))[s] ==
            if s.movieId == movieId then multiset(shows)[s] else 0
  {
    if shows != [] {
      assert shows == [shows[0]] + shows[1..];
      ShowtimesOfMultiset(shows[1..], movieId, s);
    }
  }

  /** `bookingApi.getBookedSeats`: the five-seat list for an even showtime id,
      the three-seat list otherwise. (JavaScript's `%` truncates, Dafny's is
      Euclidean; the two agree on whether the remainder is zero.) */
  function GetBookedSeats(showtimeId: int): (r: seq<BookedSeat>)
    ensures showtimeId % 2 == 0 ==> r == MockBookedSeats
    ensures showtimeId % 2 != 0 ==> r == OddShowtimeBookedSeats
    ensures forall i :: 0 <= i < |r| ==> r[i].status == "booked"
  {
    if showtimeId % 2 == 0 then MockBookedSeats else OddShowtimeBookedSeats
  }

  /** `bookingApi.createBooking`: the mock confirms every request at once.
      `draw` is `Math.floor(Math.random() * 10000)`, the random booking id. */
  function CreateBooking(request: BookingRequest, draw: int): (r: BookingResponse)
    requires 0 <= draw < 10000
    ensures r.status == "confirmed"
    ensures 0 <= r.bookingId < 10000 && r.bookingId == draw
  {
    BookingResponse(draw, "confirmed", "Booking created successfully (MOCK)")
  }

  // ---------------------------------------------------------------- integrity

  predicate HasCinema(c: Catalog, cinemaId: int) {
    exists i :: 0 <= i < |c.cinemas| && c.cinemas[i].cinemaId == cinemaId
  }

  /** Every reference between the tables resolves: showtime to screen, screen
      to theatre and theatre to cinema. */
  predicate ReferentiallyClosed(c: Catalog) {
    && (forall i :: 0 <= i < |c.showtimes| ==> c.showtimes[i].screenId in c.screens)
    && (forall id :: id in c.screens ==> c.screens[id].theatreId in c.theatres)
    && (forall id :: id in c.theatres ==> HasCinema(c, c.theatres[id].cinemaId))
  }

  lemma MockCatalogClosed(stamp: (int, int) -> string)
    ensures ReferentiallyClosed(MockCatalog(stamp))
  {
    var c := MockCatalog(stamp);
    assert c.cinemas[0].cinemaId == 1 && c.cinemas[1].cinemaId == 2;
  }

  predicate InsideGrid(screen: Screen, row: int, col: int) {
    1 <= row <= screen.numRows && 1 <= col <= screen.numCols
  }

  /** The smallest mock screen has 8 rows and 10 columns, and every seat
      either booked-seat list reports lies inside every mock screen. */
  lemma MockBookedSeatsFitEveryScreen(showtimeId: int, screenId: int)
    requires screenId in MockScreens
    ensures MockScreens[screenId].numRows >= 8 && MockScreens[screenId].numCols >= 10
    ensures forall i :: 0 <= i < |GetBookedSeats(showtimeId)| ==>
      InsideGrid(MockScreens[screenId], GetBookedSeats(showtimeId)[i].row, GetBookedSeats(showtimeId)[i].col)
  {
  }

  // ---------------------------------------------------------------- movie list

  /** The optional `{ name, genre }` filters of `movieApi.getAll`. */
  datatype MovieFilters = MovieFilters(name: Option<string>, genre: Option<string>)

  predicate HasParam(params: seq<(string, string)>, key: string, value: string) {
    exists i :: 0 <= i < |params| && params[i] == (key, value)
  }

  lemma HasParamShort(params: seq<(string, string)>, key: string, value: string)
    requires |params| <= 2
    ensures HasParam(params, key, value) <==>
      (|params| > 0 && params[0] == (key, value)) || (|params| > 1 && params[1] == (key, value))
  {
  }

  /** The query string `movieApi.getAll` sends: a `name` parameter when a
      non-empty name is given, then a `genre` parameter when a non-empty genre
      other than "All Genres" is given. */
  method BuildQueryParams(filters: Option<MovieFilters>) returns (params: seq<(string, string)>)
    ensures |params| <= 2
    ensures forall i :: 0 <= i < |params| ==> params[i].0 == "name" || params[i].0 == "genre"
    ensures forall v :: HasParam(params, "name", v) <==>
      filters.Some? && filters.value.name == Some(v) && v != ""
    ensures forall v :: HasParam(params, "genre", v) <==>
      filters.Some? && filters.value.genre == Some(v) && v != "" && v != AllGenres
    ensures |params| == 2 ==> params[0].0 == "name" && params[1].0 == "genre"
  {
    params := [];
    if filters.Some? && filters.value.name.Some? && filters.value.name.value != "" {
      params := params + [("name", filters.value.name.value)];
    }
    if filters.Some? && filters.value.genre.Some? && filters.value.genre.value != ""
       && filters.value.genre.value != AllGenres {
      params := params + [("genre", filters.value.genre.value)];
    }
    forall key, v | key == "name" || key == "genre"
      ensures HasParam(params, key, v) <==>
        (|params| > 0 && params[0] == (key, v)) || (|params| > 1 && params[1] == (key, v))
    {
      HasParamShort(params, key, v);
    }
  }

  /** A decoded JSON response body. */
  datatype Json =
    | JNull
    | JBool(b: bool)
    | JNumber(n: real)
    | JString(s: string)
    | JArray(elements: seq<Json>)
    | JObject(fields: map<string, Json>)

  /** JavaScript truthiness of a JSON value. */
  predicate Truthy(v: Json) {
    match v
    case JNull => false
    case JBool(b) => b
    case JNumber(n) => n != 0.0
    case JString(s) => s != ""
    case JArray(_) => true
    case JObject(_) => true
  }

  /** `v.items`: only an object can have that property. */
  function ItemsOf(v: Json): Option<Json> {
    if v.JObject? && "items" in v.fields then Some(v.fields["items"]) else None
  }

  /** `getAll`'s check of the response: the body must be an array, or an
      object whose `items` is an array; it returns `items` when present and
      truthy, else the body itself. */
  function ValidateMoviesResponse(data: Json): (r: Result<seq<Json>>)
    ensures r.Ok? <==> data.JArray? || (data.JObject? && "items" in data.fields && data.fields["items"].JArray?)
    ensures data.JArray? ==> r == Ok(data.elements)
    ensures data.JObject? && "items" in data.fields && data.fields["items"].JArray? ==>
      r == Ok(data.fields["items"].elements)
    ensures r.Err? ==> r.error == InvalidResponse
  {
    var items := ItemsOf(data);
    var valid := data.JArray? || (Truthy(data) && items.Some? && items.value.JArray?);
    if !valid then Err(InvalidResponse)
    else
      var returned := if items.Some? && Truthy(items.value) then items.value else data;
      assert returned.JArray?;
      Ok(returned.elements)
  }
}
