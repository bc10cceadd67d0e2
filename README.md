# Theatre UI booking client — a Dafny model

This project models the logic of the Theatre UI movie-booking web client,
which is written in TypeScript/React. That logic is small: the mock service
layer, the movie page, the seat-selection page and the authentication
context. Rendering, styling and the network are not part of it.

- **Service layer** (`Api`, `api.dfy`)
  - the records the client exchanges;
  - the mock tables, copied value for value. Their start times come from a
    clock parameter `stamp`;
  - the lookup-or-error functions over the tables: movie, showtime, screen,
    theatre, cinema;
  - the showtime filter by movie;
  - the even/odd booked-seat rule;
  - the mock booking call;
  - the query parameters and response check of the movie-list call.

  The lookups take a `Catalog` of tables as a parameter, so their contracts
  hold for any tables. Lemmas about `MockCatalog` state what holds of the
  mock data: its references all resolve, and every booked seat fits every
  screen.
- **Movie page** (`MoviePage`, `movie_page.dfy`)
  - the load effect: the movie, its showtimes, and the screen → theatre →
    cinema lookups for each showtime;
  - the `groupedShowtimes` reduce, an imperative loop building the nested
    dictionary date → cinema name → theatre name → showtimes. It is proved
    against a fold of one insertion step. Lemmas then show that the
    grouping partitions the input and keeps input order within each list.
- **Seat selection page** (`SeatSelection`, `seat_selection.dfy`)
  - membership tests, the toggle rule with its ten-seat bound, and the seat
    grid with its disabled buttons;
  - a class `SeatSelectionPage` holding the page's state. Its methods are
    the load effect, `toggleSeat`, `handleBooking` (guard, user-id choice,
    request) and one tick of the status poll.
- **Authentication context** (`Auth`, `auth.dfy`)
  - a class `AuthProvider` with the `token` and `user` state;
  - `login` and `logout` with their writes to `localStorage`. That storage
    is modelled as a class over a map (`Storage`, `storage.dfy`);
  - the derived `isAuthenticated` flag and the `useAuth` guard.
- **JavaScript built-ins** the client's logic depends on (`JsText`,
  `js_text.dfy`): `Number.prototype.toString` on integers,
  `parseInt(s, 10)`, `toLowerCase` and the string quoting of
  `JSON.stringify`. With these, the model can prove a link between the two
  pages: the user id that login stores is the id the booking parses back.

The model follows the code as written:

- `toggleSeat` has no range check and does not reject booked seats. Only
  the grid keeps clicks in range, and only `disabled={booked}` keeps booked
  seats out. `GridClicksStayOffered` proves these grid facts as a
  precondition on clicks.
- The selection is not cleared after a confirmed booking.
- The error field of either page is never reset by a later successful load.
- On the seat page, records fetched before a failing step stay set.

## Model

| member | source | states |
|---|---|---|
| JsText.IntToDecimal | src/contexts/AuthContext.tsx:54 | `user_id.toString()` for integral ids of magnitude below 10^21: a leading minus exactly for negative ids, digits only otherwise |
| JsText.NatToDecimal | src/contexts/AuthContext.tsx:54 | the decimal form of a non-negative id is non-empty, all digits, without a leading zero |
| JsText.DigitsValueOfDecimal | src/contexts/AuthContext.tsx:54 | the digits written for n denote n |
| JsText.LeadingWhitespace | src/pages/SeatSelection.tsx:75 | parseInt's white-space skip: the number of leading characters that are JavaScript white space; all of those are white space and the next character, if any, is not |
| JsText.ParseSigned | src/pages/SeatSelection.tsx:75 | parseInt after the white space: a digit string gives its value, a minus sign before a digit string gives the negated value, the empty text gives NaN (`None`) |
| JsText.DigitPrefix | src/pages/SeatSelection.tsx:75 | parseInt's digit run: the longest all-digit prefix, followed by a non-digit or the end |
| JsText.ParseInt | src/pages/SeatSelection.tsx:75 | `parseInt(s, 10)`: a non-empty digit string parses to its value; the empty string gives NaN (`None`) |
| JsText.ParseIntOfNegative | src/pages/SeatSelection.tsx:75 | a minus sign followed by digits parses to the negated value |
| JsText.ParseIntOfDecimal | src/pages/SeatSelection.tsx:75 | parsing what `toString` wrote gives back the integer: in the model for every integer, in JavaScript for those of magnitude below 10^21 |
| JsText.LowerAscii | src/pages/SeatSelection.tsx:88 | 'A'..'Z' map to the letter at the same place in 'a'..'z'; every other character is kept |
| JsText.ToLowerCase | src/pages/SeatSelection.tsx:88 | same length, each character lower-cased by `LowerAscii` in place, so no upper-case ASCII letter is left |
| JsText.JsonEscapeChar | src/contexts/AuthContext.tsx:52 | a character is written as itself exactly when it needs no escape |
| JsText.JsonEscape | src/contexts/AuthContext.tsx:52 | the escaped body of a JSON string literal: never shorter than the text, and of the same length exactly when no character needs an escape |
| JsText.JsonEscapeConcat | src/contexts/AuthContext.tsx:52 | escaping works character by character: escaping two texts in a row escapes each |
| JsText.JsonQuote | src/contexts/AuthContext.tsx:52 | a JSON string literal starts and ends with a double quote |
| JsText.PlainTextQuotedVerbatim | src/contexts/AuthContext.tsx:52 | text with nothing to escape is quoted unchanged |
| Storage.LocalStorage.GetItem | src/pages/SeatSelection.tsx:70 | returns a value exactly when the key is stored, and then the stored value |
| Storage.LocalStorage.SetItem | src/pages/SeatSelection.tsx:73 | the key now maps to the value; every other key is unchanged |
| Storage.LocalStorage.RemoveItem | src/contexts/AuthContext.tsx:61-63 | the key is gone; every other key is unchanged |
| Api.FindFirst | src/services/api.ts:200 | `find`: the first matching position, or none when nothing matches |
| Api.GetMovieById | src/services/api.ts:200-201 | succeeds iff some movie has the id; returns the first one; otherwise "Movie not found" |
| Api.GetShowtimeById | src/services/api.ts:231-232 | succeeds iff some showtime has the id; returns the first one; otherwise "Showtime not found" |
| Api.GetScreen | src/services/api.ts:245-246 | succeeds iff the id is a screen key, with that screen; otherwise "Screen not found" |
| Api.GetTheatre | src/services/api.ts:259-260 | succeeds iff the id is a theatre key, with that theatre; otherwise "Theatre not found" |
| Api.GetCinema | src/services/api.ts:273-274 | succeeds iff some cinema has the id; returns the first one; otherwise "Cinema not found" |
| Api.ShowtimesOf | src/services/api.ts:219 | keeps exactly the showtimes of the movie |
| Api.GetShowtimes | src/services/api.ts:219 | the result holds exactly the table's showtimes whose movie id matches |
| Api.ShowtimesOfConcat | src/services/api.ts:219 | the filter keeps table order: filtering two parts in a row filters each part |
| Api.ShowtimesOfMultiset | src/services/api.ts:219 | every copy of a matching showtime is kept and no copy of any other |
| Api.GetBookedSeats | src/services/api.ts:293-300 | the five-seat list for even ids, the three-seat list for odd ids, all with status "booked" |
| Api.CreateBooking | src/services/api.ts:317-321 | the mock always answers "confirmed", with a booking id below 10000 |
| Api.MockShowtimes | src/services/api.ts:126-140 | eight showtimes with ids 101 to 108 in table order |
| Api.MockTableIds | src/services/api.ts:60-140 | the mock tables hold movies 1–4, cinemas 1–2, theatres 1–3, screens 1–5 and showtimes 101–108, sequences in id order and every map entry under its own id |
| Api.MockCatalogClosed | src/services/api.ts:107-140 | every showtime's screen, every screen's theatre and every theatre's cinema exists in the mock tables |
| Api.MockBookedSeatsFitEveryScreen | src/services/api.ts:118-148 | every mock screen is at least 8×10, and every seat of either booked list lies inside every mock screen |
| Api.BuildQueryParams | src/services/api.ts:155-157 | `name` is sent iff a non-empty name is given; `genre` is sent iff a non-empty genre other than "All Genres" is given; name comes first; nothing else is sent |
| Api.ValidateMoviesResponse | src/services/api.ts:164-170 | accepted iff the body is an array or has an array `items`; returns `items` when present, else the body; otherwise "Invalid API response format" |
| Auth.SerializeUser | src/contexts/AuthContext.tsx:52 | the stored user is a JSON object text |
| Auth.UseAuth | src/contexts/AuthContext.tsx:21-26 | fails iff there is no provider, with "useAuth must be used within an AuthProvider"; otherwise returns the context value |
| Auth.LoginWrites | src/contexts/AuthContext.tsx:51-54 | storage after login holds the token, the serialised user and the decimal user id; every other key keeps its value |
| Auth.LogoutClears | src/contexts/AuthContext.tsx:61-63 | storage after logout lacks exactly the three keys; every other key keeps its value |
| Auth.LogoutUndoesLogin | src/contexts/AuthContext.tsx:48-67 | logout after login leaves storage as logout alone would |
| Auth.LogoutIdempotent | src/contexts/AuthContext.tsx:57-63 | logging out twice is logging out once |
| Auth.AuthProvider.constructor | src/contexts/AuthContext.tsx:34-35 | token and user start null, so the provider starts unauthenticated whatever storage holds |
| Auth.Authenticated | src/contexts/AuthContext.tsx:75 | `!!token && !!user`: false for a null or empty token or a null user; true for a non-empty token with a user |
| Auth.AuthProvider.Value | src/contexts/AuthContext.tsx:72-79 | passes user and token through; `isAuthenticated` iff the token is non-null and non-empty and the user is non-null |
| Auth.AuthProvider.Login | src/contexts/AuthContext.tsx:48-55 | token and user become the arguments; storage becomes `LoginWrites` of the old storage; authenticated iff the token is non-empty |
| Auth.AuthProvider.Logout | src/contexts/AuthContext.tsx:57-67 | storage becomes `LogoutClears` of the old storage; token and user are null; not authenticated |
| SeatSelection.IsSeatBooked | src/pages/SeatSelection.tsx:123-125 | `isSeatBooked(row, col)` iff some booked record sits at that row and column, whatever its status |
| SeatSelection.IsSeatSelected | src/pages/SeatSelection.tsx:127-129 | `isSeatSelected(row, col)` iff the seat is in the selection |
| SeatSelection.Without | src/pages/SeatSelection.tsx:54 | the filter keeps exactly the entries different from the seat, and gets shorter when the seat was there |
| SeatSelection.WithoutConcat | src/pages/SeatSelection.tsx:54 | the filter keeps the other entries in their order |
| SeatSelection.WithoutAbsent | src/pages/SeatSelection.tsx:54 | filtering out an absent seat changes nothing |
| SeatSelection.Toggle | src/pages/SeatSelection.tsx:51-62 | the new selection holds the clicked seat iff it was not selected and fewer than ten were; every other seat is in it iff it was before; a selection of at most ten stays at most ten |
| SeatSelection.ToggleDeselects | src/pages/SeatSelection.tsx:52-54 | toggling a selected seat removes every copy of it and keeps every other entry, at any selection size |
| SeatSelection.ToggleAtLimit | src/pages/SeatSelection.tsx:56-58 | toggling an unselected seat when ten or more are selected leaves the selection unchanged |
| SeatSelection.ToggleAppends | src/pages/SeatSelection.tsx:60 | below the limit an unselected seat is appended after the earlier entries, which keep their order |
| SeatSelection.ToggleTwiceRestores | src/pages/SeatSelection.tsx:54-60 | toggling an absent seat twice below the limit restores the selection exactly |
| SeatSelection.WithoutNoDuplicates | src/pages/SeatSelection.tsx:54 | filtering keeps a duplicate-free selection duplicate-free |
| SeatSelection.ToggleKeepsWellFormed | src/pages/SeatSelection.tsx:51-62 | one toggle keeps the selection at most ten and free of duplicates |
| SeatSelection.ToggleAllWellFormed | src/pages/SeatSelection.tsx:15-62 | from the empty selection (or any well-formed one), any sequence of toggles keeps it at most ten and free of duplicates |
| SeatSelection.GridRow | src/pages/SeatSelection.tsx:161-163 | a row's buttons are exactly columns 1..num_cols of that row |
| SeatSelection.Grid | src/pages/SeatSelection.tsx:159-163 | the grid offers exactly the seats with 1 ≤ row ≤ num_rows and 1 ≤ col ≤ num_cols, num_rows × num_cols of them |
| SeatSelection.SeatButtons | src/pages/SeatSelection.tsx:159-171 | one button per grid seat, in grid order; disabled iff booked; its `selected` flag iff `isSeatSelected` |
| SeatSelection.EnabledButtonsAreOffered | src/pages/SeatSelection.tsx:164-170 | a seat has an enabled button iff it is inside the grid and not booked |
| SeatSelection.ToggleStaysWithin | src/pages/SeatSelection.tsx:51-62 | a toggle adds no seat other than the clicked one |
| SeatSelection.GridClicksStayOffered | src/pages/SeatSelection.tsx:159-171 | when every click comes from an enabled button, the selection stays inside the grid and never meets the booked list |
| SeatSelection.LoadChain | src/pages/SeatSelection.tsx:20-49 | showtime (the first with the id), then its screen, then that screen's theatre, then the booked seats for the id; each runs only after the one before succeeded; once the theatre is found the booked seats are fetched and nothing fails; failure iff the booked seats were not reached |
| SeatSelection.MockShowtimesLoad | src/pages/SeatSelection.tsx:26-39 | every mock showtime (101–108) loads, and its booked seats lie inside its screen |
| SeatSelection.NeedsDefaultUser | src/pages/SeatSelection.tsx:71 | `!storedUserId`: true exactly for a missing or empty stored id, false for every non-empty one |
| SeatSelection.ResolveUserId | src/pages/SeatSelection.tsx:70-74 | the stored non-empty user id, else "1" |
| SeatSelection.LoggedInUserBooksUnderOwnId | src/pages/SeatSelection.tsx:70-75 | after login stored the user, the booking's parsed user id is that user's id |
| SeatSelection.DefaultUserIsOne | src/pages/SeatSelection.tsx:71-75 | with no stored id the booking is for user 1 |
| SeatSelection.IsConfirmed | src/pages/SeatSelection.tsx:88 | the stop condition holds iff the status has nine characters, each the letter of "confirmed" at that place in lower or upper case |
| SeatSelection.MockBookingIsConfirmed | src/pages/SeatSelection.tsx:88 | the mock booking's status already meets the polling stop condition. The page itself reads only `booking_id` from that answer (src/pages/SeatSelection.tsx:84); the poll's status comes from `getBooking` |
| SeatSelection.SeatSelectionPage.constructor | src/pages/SeatSelection.tsx:11-18 | the initial state: nothing fetched or selected, loading, no error, no booking in progress |
| SeatSelection.SeatSelectionPage.Load | src/pages/SeatSelection.tsx:20-49 | no route id: nothing changes. Otherwise each record `LoadChain` reached is stored, a failure sets "Failed to load booking details.", loading ends, and the selection is untouched |
| SeatSelection.SeatSelectionPage.ToggleSeat | src/pages/SeatSelection.tsx:51-62 | the selection becomes `Toggle` of the old one; the alert fires iff a new seat meets a full selection; the invariant and grid-confinement are kept |
| SeatSelection.SeatSelectionPage.HandleBooking | src/pages/SeatSelection.tsx:64-84 | no showtime or an empty selection: no request and no change. Otherwise "1" is stored when no id is stored, the request carries the parsed id, the showtime id and the selection unchanged, the confirm button becomes disabled, and polling starts on the returned id |
| SeatSelection.SeatSelectionPage.View | src/pages/SeatSelection.tsx:107-121 | the spinner exactly while loading; otherwise the non-empty error text, or "Something went wrong" when there is no such error but the showtime or screen is missing; otherwise the seat grid |
| SeatSelection.SeatSelectionPage.Rendered | src/pages/SeatSelection.tsx:107-121 | the grid is on screen exactly when `View` is the grid, and then the showtime and the screen are known |
| SeatSelection.SeatSelectionPage.ConfirmDisabled | src/pages/SeatSelection.tsx:219 | disabled exactly while a booking is under way or nothing is selected; an enabled button on the rendered grid always passes the guard of `handleBooking` |
| SeatSelection.SeatSelectionPage.OnPollResult | src/pages/SeatSelection.tsx:85-97 | a status reading "confirmed" in any case stops polling, ends the booking and navigates to /bookings, and may change nothing else; any other result or a failed poll changes nothing |
| MoviePage.EnrichOne | src/pages/MoviePage.tsx:32-35 | succeeds iff the screen, its theatre and that theatre's cinema exist; carries exactly those records, the cinema being the first with the id |
| MoviePage.Enrich | src/pages/MoviePage.tsx:31-36 | fails iff some showtime's lookups fail; otherwise same length and order, entry i enriching showtime i |
| MoviePage.EnrichSucceedsOnClosedCatalog | src/pages/MoviePage.tsx:31-36 | on referentially closed tables the catalog's own showtimes always enrich |
| MoviePage.FetchData | src/pages/MoviePage.tsx:19-47 | no route id: nothing changes. Otherwise loading ends; any failure sets "Failed to load movie details." and stores no enriched list; whenever the movie is found it is stored, even when enrichment then fails; success also stores one enriched entry per showtime |
| MoviePage.MockMoviePagesLoad | src/pages/MoviePage.tsx:19-47 | every mock movie's page loads without error, with one entry per showtime of the movie |
| MoviePage.CinemaName | src/pages/MoviePage.tsx:79 | a cinema with a non-empty name gives that name; no cinema or an empty name gives "Unknown Cinema" |
| MoviePage.TheatreName | src/pages/MoviePage.tsx:82 | a theatre with a non-empty name gives that name; no theatre or an empty name gives "Unknown Theatre" |
| MoviePage.KeyOf | src/pages/MoviePage.tsx:71-82 | a showtime's key: the date text of its start time and the names `CinemaName` and `TheatreName` give, so a missing record or an empty name falls back to the Unknown name |
| MoviePage.Insert | src/pages/MoviePage.tsx:77-89 | after one reduce step the key's date, cinema and theatre levels exist and the key's list ends with the showtime |
| MoviePage.InsertShape | src/pages/MoviePage.tsx:77-89 | one reduce step adds the showtime's date, cinema and theatre keys, appends to that one list, and leaves every other entry as it was |
| MoviePage.InsertGroups | src/pages/MoviePage.tsx:77-91 | one reduce step turns the grouping of a prefix into the grouping of the prefix plus one showtime |
| MoviePage.GroupFoldGroups | src/pages/MoviePage.tsx:70-92 | the fold of the reduce step yields exactly the grouping of its input |
| MoviePage.GroupShowtimes | src/pages/MoviePage.tsx:70-92 | the nested-dictionary loop computes the fold, and so the grouping of its input: keys are exactly the occurring date, cinema and theatre combinations, each list is that key's showtimes in input order |
| MoviePage.BucketMembership | src/pages/MoviePage.tsx:88-89 | a showtime is in a list iff it is in the input and that list is its own key's |
| MoviePage.BucketConcat | src/pages/MoviePage.tsx:88-89 | lists keep input order: the list for two inputs in a row is the first's followed by the second's |
| MoviePage.BucketSizesSum | src/pages/MoviePage.tsx:70-92 | the list sizes over the distinct keys add up to the number of showtimes |
| MoviePage.GroupingPartitionsInput | src/pages/MoviePage.tsx:70-92 | the grouping's keys are exactly the distinct keys of the input, and its list sizes add up to the number of showtimes |
| MoviePage.EveryShowtimeInExactlyOneBucket | src/pages/MoviePage.tsx:70-92 | every showtime is in its own key's list and in no other |
| MoviePage.GroupingHasNoEmptyLevel | src/pages/MoviePage.tsx:77-89 | no date, cinema or theatre level and no list of the grouping is empty |
| MoviePage.MissingNamesFallBack | src/pages/MoviePage.tsx:79-82 | a showtime without cinema sits under "Unknown Cinema", one without theatre under "Unknown Theatre" |

## Left out

- Network, `axios` and timing. The REST calls of `movieApi.getAll`, the `setTimeout` delays and `Promise.all` scheduling are not modelled. A failing call is its error value; with several failures, the first in list order stands for the rejection.
- `movieApi.getAll`: only its query parameters and its response check are modelled. The HTTP request and `console.log` of the response are not.
- The `setInterval` poll's timer and lifetime. One tick is `OnPollResult`, given the poll's outcome. The interval is never cleared on a failed poll or on unmount, and that is not captured.
- `bookingApi.getBooking` is called by the poll but is not defined in `src/services/api.ts`. As written, every tick throws a TypeError, the catch at src/pages/SeatSelection.tsx:94 swallows it, and polling never stops. The model's `poll` parameter stands for the answer of an API that does exist; the as-written case is the failed poll (`poll.Err?`), which changes nothing.
- The catch branch of `handleBooking`: the mock `createBooking` never throws, so the failure alert and the `bookingInProgress` reset after a failed create are not modelled.
- Randomness: the booking id from `Math.random` is the `draw` parameter, within 0..9999.
- Clock and locale. Mock start times depend on the current time through the `stamp` parameter. The date key of the grouping is an uninterpreted function `dateKey` of the start time. The sorting of dates by parsing them is not modelled.
- Floating point: prices and ratings are `real` values, and the total-price display with `toFixed(2)` is left out.
- Route parameters are taken as integers. A non-numeric parameter goes through `Number()` to `NaN`, which matches no record. In the model that is the same not-found path as an unknown id, but the conversion is not modelled.
- `console`, `alert` and the rendered markup. The ten-seat alert is the `alerted` result of `ToggleSeat`; other alerts are not modelled.
- The `loading` flag of the auth context and the effect that logs and clears `loading`.
- React state batching: each setter takes effect at once.
- GroupShowtimes: Dafny maps are not JavaScript plain objects. In the source, `acc[date][cinemaName][theatreName]` also finds inherited properties such as `toString` or `constructor`, so a theatre named "toString" makes the push throw and a cinema named "constructor" is never rendered. The model treats every name as an ordinary key. The mock tables contain no such names.
- JavaScript object key order: Dafny maps are unordered, so the order of dates, cinemas and theatres in the grouping is not captured.
- JsText.ToLowerCase: only ASCII letters are lower-cased. This is exact for the one use, comparing with "confirmed".
- JsText.IntToDecimal: writes every digit of any integer. JavaScript's `toString` writes exponent notation from 10^21 on ("1e+21", which `parseInt` reads as 1), and a non-integral `user_id` such as 1.5 is written "1.5" and read back as 1. Ids are modelled as unbounded integers, so `ParseIntOfDecimal` and `LoggedInUserBooksUnderOwnId` hold of the program only for integral ids of magnitude below 10^21; for other ids the program books under a different id.
- JsText.ParseInt: integers are unbounded, so ids above 2^53 do not lose precision as a JavaScript number would.
- JsText.JsonEscapeChar: lone surrogate code units are not escaped.
- Auth.SerializeUser: only the object's outer braces are stated. `JSON.stringify(newUser)` writes the runtime object's own properties in their own order, including any properties beyond those of `User`, and writes `"last_name":null` for a null last name. The model writes the fields of `User` in declaration order and none besides, and leaves `last_name` out when it is absent, as for an undefined one.
- `src/pages/Login.tsx` and the rendering-only components and pages are not part of this model.
