/** The movie page: each showtime of the movie is enriched with its screen,
    theatre and cinema, and the enriched showtimes are grouped by date,
    cinema name and theatre name for display. */
module MoviePage {
  import opened Results
  import opened Api

  const LoadFailed := "Failed to load movie details."
  const UnknownCinema := "Unknown Cinema"
  const UnknownTheatre := "Unknown Theatre"

  datatype EnrichedShowtime = EnrichedShowtime(
    showtime: Showtime, screen: Option<Screen>, theatre: Option<Theatre>, cinema: Option<Cinema>)

  // ---------------------------------------------------------------- enrichment

  /** One showtime's lookups, in order: its screen, that screen's theatre,
      that theatre's cinema. */
  function EnrichOne(c: Catalog, s: Showtime): (r: Result<EnrichedShowtime>)
    ensures r.Ok? <==> s.screenId in c.screens && c.screens[s.screenId].theatreId in c.theatres
                       && HasCinema(c, c.theatres[c.screens[s.screenId].theatreId].cinemaId)
    ensures r.Ok? ==>
      && r.value.showtime == s
      && r.value.screen == Some(c.screens[s.screenId])
      && r.value.theatre == Some(c.theatres[c.screens[s.screenId].theatreId])
      && r.value.cinema.Some? && r.value.cinema.value in c.cinemas
      && r.value.cinema.value.cinemaId == r.value.theatre.value.cinemaId
      && r.value.cinema == Some(GetCinema(c, r.value.theatre.value.cinemaId).value)
  {
    match GetScreen(c, s.screenId)
    case Err(e) => Err(e)
    case Ok(screen) =>
      match GetTheatre(c, screen.theatreId)
      case Err(e) => Err(e)
      case Ok(theatre) =>
        match GetCinema(c, theatre.cinemaId)
        case Err(e) => Err(e)
        case Ok(cinema) => Ok(EnrichedShowtime(s, Some(screen), Some(theatre), Some(cinema)))
  }

  /** The enrichment `map`: it fails when any showtime's lookups fail, and
      otherwise keeps the length and the order of its input. */
  function Enrich(c: Catalog, shows: seq<Showtime>): (r: Result<seq<EnrichedShowtime>>)
    ensures r.Ok? <==> forall i :: 0 <= i < |shows| ==> EnrichOne(c, shows[i]).Ok?
    ensures r.Ok? ==> |r.value| == |shows|
    ensures r.Ok? ==> forall i :: 0 <= i < |shows| ==> EnrichOne(c, shows[i]) == Ok(r.value[i])
  {
    if shows == [] then Ok([])
    else
      match EnrichOne(c, shows[0])
      case Err(e) => Err(e)
      case Ok(first) =>
        assert forall i :: 0 < i < |shows| ==> shows[1..][i - 1] == shows[i];
        match Enrich(c, shows[1..])
        case Err(e) => Err(e)
        case Ok(rest) => Ok([first] + rest)
  }

  /** On referentially closed tables enrichment of the catalog's own
      showtimes never fails. */
  lemma EnrichSucceedsOnClosedCatalog(c: Catalog, shows: seq<Showtime>)
    requires ReferentiallyClosed(c)
    requires forall s :: s in shows ==> s in c.showtimes
    ensures Enrich(c, shows).Ok?
  {
    forall i | 0 <= i < |shows| ensures EnrichOne(c, shows[i]).Ok? {
      assert shows[i] in shows;
      var j :| 0 <= j < |c.showtimes| && c.showtimes[j] == shows[i];
    }
  }

  // ---------------------------------------------------------------- page state

  datatype MoviePageState = MoviePageState(
    movie: Option<Movie>, enriched: seq<EnrichedShowtime>, loading: bool, error: Option<string>)

  const Initial := MoviePageState(None, [], true, None)

  /** Whether the page's load fails for the movie id: the movie lookup or
      the enrichment of one of its showtimes throws. */
  predicate LoadFails(c: Catalog, id: int) {
    GetMovieById(c, id).Err? || Enrich(c, GetShowtimes(c, id)).Err?
  }

  /** The load effect (`None` when the route has no id, and then nothing
      happens). The movie is stored as soon as it arrives; the enriched list
      only once every showtime is enriched. */
  function FetchData(c: Catalog, id: Option<int>, before: MoviePageState): (after: MoviePageState)
    ensures id.None? ==> after == before
    ensures id.Some? ==> !after.loading
    ensures id.Some? && LoadFails(c, id.value) ==>
      after.error == Some(LoadFailed) && after.enriched == before.enriched
    ensures id.Some? && !LoadFails(c, id.value) ==>
      && after.error == before.error
      && after.movie == Some(GetMovieById(c, id.value).value)
      && after.enriched == Enrich(c, GetShowtimes(c, id.value)).value
      && |after.enriched| == |GetShowtimes(c, id.value)|
    ensures id.Some? && GetMovieById(c, id.value).Err? ==> after.movie == before.movie
    ensures id.Some? && GetMovieById(c, id.value).Ok? ==> after.movie == Some(GetMovieById(c, id.value).value)
  {
    if id.None? then before
    else
      match GetMovieById(c, id.value)
      case Err(_) => before.(loading := false, error := Some(LoadFailed))
      case Ok(movie) =>
        match Enrich(c, GetShowtimes(c, id.value))
        case Err(_) => before.(movie := Some(movie), loading := false, error := Some(LoadFailed))
        case Ok(enriched) => before.(movie := Some(movie), enriched := enriched, loading := false)
  }

  /** Every mock movie's page loads without error, with one enriched entry
      per showtime of the movie. */
  lemma MockMoviePagesLoad(stamp: (int, int) -> string, id: int)
    requires 1 <= id <= 4
    ensures FetchData(MockCatalog(stamp), Some(id), Initial).error.None?
    ensures |FetchData(MockCatalog(stamp), Some(id), Initial).enriched| ==
            |GetShowtimes(MockCatalog(stamp), id)|
  {
    var c := MockCatalog(stamp);
    assert c.movies[id - 1].movieId == id;
    MockCatalogClosed(stamp);
    EnrichSucceedsOnClosedCatalog(c, GetShowtimes(c, id));
  }

  // ---------------------------------------------------------------- grouping

  /** The nested dictionary date -> cinema name -> theatre name -> showtimes. */
  type Grouping = map<string, map<string, map<string, seq<EnrichedShowtime>>>>

  /** `showtime.cinema?.name || 'Unknown Cinema'`: an absent cinema and an
      empty name both fall back. */
  function CinemaName(e: EnrichedShowtime): (name: string)
    ensures name != ""
    ensures e.cinema.Some? && e.cinema.value.name != "" ==> name == e.cinema.value.name
    ensures e.cinema.None? || e.cinema.value.name == "" ==> name == UnknownCinema
  {
    if e.cinema.Some? && e.cinema.value.name != "" then e.cinema.value.name else UnknownCinema
  }

  /** `showtime.theatre?.name || 'Unknown Theatre'`. */
  function TheatreName(e: EnrichedShowtime): (name: string)
    ensures name != ""
    ensures e.theatre.Some? && e.theatre.value.name != "" ==> name == e.theatre.value.name
    ensures e.theatre.None? || e.theatre.value.name == "" ==> name == UnknownTheatre
  {
    if e.theatre.Some? && e.theatre.value.name != "" then e.theatre.value.name else UnknownTheatre
  }

  datatype GroupKey = GroupKey(date: string, cinema: string, theatre: string)

  /** The bucket a showtime goes to. `dateKey` stands for the locale date
      formatting of the start time. */
  function KeyOf(dateKey: string -> string, e: EnrichedShowtime): (k: GroupKey)
    ensures k.date == dateKey(e.showtime.startTime)
    ensures k.cinema != "" && k.theatre != ""
    ensures e.cinema.Some? && e.cinema.value.name != "" ==> k.cinema == e.cinema.value.name
    ensures e.theatre.Some? && e.theatre.value.name != "" ==> k.theatre == e.theatre.value.name
    ensures e.cinema.None? ==> k.cinema == UnknownCinema
    ensures e.theatre.None? ==> k.theatre == UnknownTheatre
    ensures k.cinema == CinemaName(e) && k.theatre == TheatreName(e)
  {
    GroupKey(dateKey(e.showtime.startTime), CinemaName(e), TheatreName(e))
  }

  /** The showtimes of `shows` whose key is `k`, in input order. */
  function Bucket(shows: seq<EnrichedShowtime>, dateKey: string -> string, k: GroupKey): seq<EnrichedShowtime> {
    if shows == [] then []
    else Bucket(shows[..|shows| - 1], dateKey, k)
         + (if KeyOf(dateKey, shows[|shows| - 1]) == k then [shows[|shows| - 1]] else [])
  }

  predicate HasDate(shows: seq<EnrichedShowtime>, dateKey: string -> string, date: string) {
    shows != [] && (KeyOf(dateKey, shows[|shows| - 1]).date == date || HasDate(shows[..|shows| - 1], dateKey, date))
  }

  predicate HasCinemaOn(shows: seq<EnrichedShowtime>, dateKey: string -> string, date: string, cinema: string) {
    shows != []
    && ((KeyOf(dateKey, shows[|shows| - 1]).date == date && KeyOf(dateKey, shows[|shows| - 1]).cinema == cinema)
        || HasCinemaOn(shows[..|shows| - 1], dateKey, date, cinema))
  }

  lemma {:induction false} CinemaOnlyOnItsDate(shows: seq<EnrichedShowtime>, dateKey: string -> string,
                                               date: string, cinema: string)
    requires HasCinemaOn(shows, dateKey, date, cinema)
    ensures HasDate(shows, dateKey, date)
  {
    if !(KeyOf(dateKey, shows[|shows| - 1]).date == date) {
      CinemaOnlyOnItsDate(shows[..|shows| - 1], dateKey, date, cinema);
    }
  }

  /** `g` is what the reduce builds from `shows`: a date, a cinema under it
      and a theatre under that are present exactly when some showtime has
      them, and each list holds that bucket. */
  ghost predicate GroupsOf(g: Grouping, shows: seq<EnrichedShowtime>, dateKey: string -> string) {
    && (forall d :: d in g <==> HasDate(shows, dateKey, d))
    && (forall d, c :: d in g ==> (c in g[d] <==> HasCinemaOn(shows, dateKey, d, c)))
    && (forall d, c, t :: d in g && c in g[d] ==>
          (t in g[d][c] <==> Bucket(shows, dateKey, GroupKey(d, c, t)) != []))
    && (forall d, c, t :: d in g && c in g[d] && t in g[d][c] ==>
          g[d][c][t] == Bucket(shows, dateKey, GroupKey(d, c, t)))
  }

  /** One step of the reduce: create the missing levels, then push. Afterwards
      all three levels of the key are present and the key's list ends with
      the showtime. */
  function Insert(g: Grouping, k: GroupKey, e: EnrichedShowtime): (r: Grouping)
    ensures k.date in r && k.cinema in r[k.date] && k.theatre in r[k.date][k.cinema]
    ensures |r[k.date][k.cinema][k.theatre]| > 0
    ensures r[k.date][k.cinema][k.theatre][|r[k.date][k.cinema][k.theatre]| - 1] == e
  {
    var g1 := if k.date in g then g else g[k.date := map[]];
    var g2 := if k.cinema in g1[k.date] then g1 else g1[k.date := g1[k.date][k.cinema := map[]]];
    var g3 := if k.theatre in g2[k.date][k.cinema] then g2
              else g2[k.date := g2[k.date][k.cinema := g2[k.date][k.cinema][k.theatre := []]]];
    g3[k.date := g3[k.date][k.cinema := g3[k.date][k.cinema][k.theatre := g3[k.date][k.cinema][k.theatre] + [e]]]]
  }

  lemma {:induction false} BucketOnlyUnderItsCinema(shows: seq<EnrichedShowtime>, dateKey: string -> string,
                                                    k: GroupKey)
    requires Bucket(shows, dateKey, k) != []
    ensures HasCinemaOn(shows, dateKey, k.date, k.cinema)
  {
    if KeyOf(dateKey, shows[|shows| - 1]) != k {
      BucketOnlyUnderItsCinema(shows[..|shows| - 1], dateKey, k);
    }
  }

  /** How the three views of the input change when one showtime is appended. */
  lemma AppendFacts(shows: seq<EnrichedShowtime>, dateKey: string -> string, e: EnrichedShowtime)
    ensures forall d :: HasDate(shows + [e], dateKey, d) <==> d == KeyOf(dateKey, e).date || HasDate(shows, dateKey, d)
    ensures forall d, c :: HasCinemaOn(shows + [e], dateKey, d, c) <==>
      (d == KeyOf(dateKey, e).date && c == KeyOf(dateKey, e).cinema) || HasCinemaOn(shows, dateKey, d, c)
    ensures forall k ::
              Bucket(shows + [e], dateKey, k) == Bucket(shows, dateKey, k) + (if k == KeyOf(dateKey, e) then [e] else [])
  {
    var shows' := shows + [e];
    assert shows'[..|shows'| - 1] == shows;
    assert shows'[|shows'| - 1] == e;
  }

  lemma InsertShapeDates(g: Grouping, k: GroupKey, e: EnrichedShowtime)
    ensures Insert(g, k, e).Keys == g.Keys + {k.date}
    ensures forall d :: d in g && d != k.date ==> Insert(g, k, e)[d] == g[d]
  {
  }

  lemma InsertShapeCinemas(g: Grouping, k: GroupKey, e: EnrichedShowtime)
    ensures Insert(g, k, e)[k.date].Keys == (if k.date in g then g[k.date].Keys else {}) + {k.cinema}
    ensures k.date in g ==> forall c :: c in g[k.date] && c != k.cinema ==>
      Insert(g, k, e)[k.date][c] == g[k.date][c]
  {
  }

  lemma InsertShapeTheatres(g: Grouping, k: GroupKey, e: EnrichedShowtime)
    ensures Insert(g, k, e)[k.date][k.cinema].Keys ==
      (if k.date in g && k.cinema in g[k.date] then g[k.date][k.cinema].Keys else {}) + {k.theatre}
    ensures k.date in g && k.cinema in g[k.date] ==> forall t :: t in g[k.date][k.cinema] && t != k.theatre ==>
      Insert(g, k, e)[k.date][k.cinema][t] == g[k.date][k.cinema][t]
    ensures Insert(g, k, e)[k.date][k.cinema][k.theatre] ==
      (if k.date in g && k.cinema in g[k.date] && k.theatre in g[k.date][k.cinema]
       then g[k.date][k.cinema][k.theatre] else []) + [e]
  {
  }

  /** What one `Insert` does to each level of the dictionary. */
  lemma InsertShape(g: Grouping, k: GroupKey, e: EnrichedShowtime)
    ensures Insert(g, k, e).Keys == g.Keys + {k.date}
    ensures forall d :: d in g && d != k.date ==> Insert(g, k, e)[d] == g[d]
    ensures Insert(g, k, e)[k.date].Keys == (if k.date in g then g[k.date].Keys else {}) + {k.cinema}
    ensures k.date in g ==> forall c :: c in g[k.date] && c != k.cinema ==>
      Insert(g, k, e)[k.date][c] == g[k.date][c]
    ensures Insert(g, k, e)[k.date][k.cinema].Keys ==
      (if k.date in g && k.cinema in g[k.date] then g[k.date][k.cinema].Keys else {}) + {k.theatre}
    ensures k.date in g && k.cinema in g[k.date] ==> forall t :: t in g[k.date][k.cinema] && t != k.theatre ==>
      Insert(g, k, e)[k.date][k.cinema][t] == g[k.date][k.cinema][t]
    ensures Insert(g, k, e)[k.date][k.cinema][k.theatre] ==
      (if k.date in g && k.cinema in g[k.date] && k.theatre in g[k.date][k.cinema]
       then g[k.date][k.cinema][k.theatre] else []) + [e]
  {
    InsertShapeDates(g, k, e);
    InsertShapeCinemas(g, k, e);
    InsertShapeTheatres(g, k, e);
  }

  lemma InsertGroupsDates(g: Grouping, shows: seq<EnrichedShowtime>, dateKey: string -> string, e: EnrichedShowtime)
    requires GroupsOf(g, shows, dateKey)
    ensures forall d :: d in Insert(g, KeyOf(dateKey, e), e) <==> HasDate(shows + [e], dateKey, d)
  {
    AppendFacts(shows, dateKey, e);
    InsertShape(g, KeyOf(dateKey, e), e);
  }

  lemma InsertGroupsCinemas(g: Grouping, shows: seq<EnrichedShowtime>, dateKey: string -> string, e: EnrichedShowtime)
    requires GroupsOf(g, shows, dateKey)
    ensures var g' := Insert(g, KeyOf(dateKey, e), e);
      forall d, c :: d in g' ==> (c in g'[d] <==> HasCinemaOn(shows + [e], dateKey, d, c))
  {
    var k := KeyOf(dateKey, e);
    var g' := Insert(g, k, e);
    AppendFacts(shows, dateKey, e);
    InsertShape(g, k, e);
    forall d, c | d in g' ensures c in g'[d] <==> HasCinemaOn(shows + [e], dateKey, d, c) {
      if d == k.date && HasCinemaOn(shows, dateKey, d, c) {
        CinemaOnlyOnItsDate(shows, dateKey, d, c);
      }
    }
  }

  /** In the dictionary before the step, a showtime list under a present
      date and cinema belongs to a key the prefix has. */
  lemma PrefixKeysPresent(g: Grouping, shows: seq<EnrichedShowtime>, dateKey: string -> string, k: GroupKey)
    requires GroupsOf(g, shows, dateKey)
    requires Bucket(shows, dateKey, k) != []
    ensures k.date in g && k.cinema in g[k.date] && k.theatre in g[k.date][k.cinema]
  {
    BucketOnlyUnderItsCinema(shows, dateKey, k);
    CinemaOnlyOnItsDate(shows, dateKey, k.date, k.cinema);
  }

  lemma InsertGroupsTheatres(g: Grouping, shows: seq<EnrichedShowtime>, dateKey: string -> string, e: EnrichedShowtime)
    requires GroupsOf(g, shows, dateKey)
    ensures var g' := Insert(g, KeyOf(dateKey, e), e);
      forall d, c, t :: d in g' && c in g'[d] ==>
        (t in g'[d][c] <==> Bucket(shows + [e], dateKey, GroupKey(d, c, t)) != [])
  {
    var k := KeyOf(dateKey, e);
    var g' := Insert(g, k, e);
    AppendFacts(shows, dateKey, e);
    InsertShape(g, k, e);
    forall d, c, t | d in g' && c in g'[d]
      ensures t in g'[d][c] <==> Bucket(shows + [e], dateKey, GroupKey(d, c, t)) != []
    {
      if Bucket(shows, dateKey, GroupKey(d, c, t)) != [] {
        PrefixKeysPresent(g, shows, dateKey, GroupKey(d, c, t));
      }
      if !(d == k.date && c == k.cinema) {
        assert d in g && c in g[d];
      }
    }
  }

  lemma BucketAppend(shows: seq<EnrichedShowtime>, dateKey: string -> string, e: EnrichedShowtime, k: GroupKey)
    ensures Bucket(shows + [e], dateKey, k) == Bucket(shows, dateKey, k) + (if k == KeyOf(dateKey, e) then [e] else [])
  {
    var shows' := shows + [e];
    assert shows'[..|shows'| - 1] == shows;
  }

  /** Under the inserted showtime's own key, `Insert` leaves that key's bucket. */
  lemma InsertBucketOwnKey(g: Grouping, shows: seq<EnrichedShowtime>, dateKey: string -> string, e: EnrichedShowtime)
    requires GroupsOf(g, shows, dateKey)
    ensures var k := KeyOf(dateKey, e);
      Insert(g, k, e)[k.date][k.cinema][k.theatre] == Bucket(shows + [e], dateKey, k)
  {
    var k := KeyOf(dateKey, e);
    BucketAppend(shows, dateKey, e, k);
    InsertShapeTheatres(g, k, e);
    if Bucket(shows, dateKey, k) != [] {
      PrefixKeysPresent(g, shows, dateKey, k);
    }
  }

  /** Under every other key `Insert` leaves the list as it was. */
  lemma InsertBucketOtherKey(g: Grouping, shows: seq<EnrichedShowtime>, dateKey: string -> string, e: EnrichedShowtime,
                             key: GroupKey)
    requires GroupsOf(g, shows, dateKey)
    requires key != KeyOf(dateKey, e)
    requires var g' := Insert(g, KeyOf(dateKey, e), e);
      key.date in g' && key.cinema in g'[key.date] && key.theatre in g'[key.date][key.cinema]
    ensures Insert(g, KeyOf(dateKey, e), e)[key.date][key.cinema][key.theatre] == Bucket(shows + [e], dateKey, key)
  {
    var k := KeyOf(dateKey, e);
    BucketAppend(shows, dateKey, e, key);
    if key.date != k.date {
      InsertShapeDates(g, k, e);
    } else if key.cinema != k.cinema {
      InsertShapeCinemas(g, k, e);
      assert key.date in g;
    } else {
      InsertShapeTheatres(g, k, e);
      InsertShapeCinemas(g, k, e);
      assert key.date in g && key.cinema in g[key.date];
    }
  }

  lemma InsertGroupsBuckets(g: Grouping, shows: seq<EnrichedShowtime>, dateKey: string -> string, e: EnrichedShowtime)
    requires GroupsOf(g, shows, dateKey)
    ensures var g' := Insert(g, KeyOf(dateKey, e), e);
      forall d, c, t :: d in g' && c in g'[d] && t in g'[d][c] ==>
        g'[d][c][t] == Bucket(shows + [e], dateKey, GroupKey(d, c, t))
  {
    var g' := Insert(g, KeyOf(dateKey, e), e);
    forall d, c, t | d in g' && c in g'[d] && t in g'[d][c]
      ensures g'[d][c][t] == Bucket(shows + [e], dateKey, GroupKey(d, c, t))
    {
      if GroupKey(d, c, t) == KeyOf(dateKey, e) {
        InsertBucketOwnKey(g, shows, dateKey, e);
      } else {
        InsertBucketOtherKey(g, shows, dateKey, e, GroupKey(d, c, t));
      }
    }
  }

  /** One reduce step keeps the dictionary equal to the grouping of the
      prefix it has seen. */
  lemma InsertGroups(g: Grouping, shows: seq<EnrichedShowtime>, dateKey: string -> string, e: EnrichedShowtime)
    requires GroupsOf(g, shows, dateKey)
    ensures GroupsOf(Insert(g, KeyOf(dateKey, e), e), shows + [e], dateKey)
  {
    InsertGroupsDates(g, shows, dateKey, e);
    InsertGroupsCinemas(g, shows, dateKey, e);
    InsertGroupsTheatres(g, shows, dateKey, e);
    InsertGroupsBuckets(g, shows, dateKey, e);
  }

  /** The reduce as a left fold of `Insert` over the showtimes. */
  function GroupFold(shows: seq<EnrichedShowtime>, dateKey: string -> string): Grouping {
    if shows == [] then map[]
    else Insert(GroupFold(shows[..|shows| - 1], dateKey), KeyOf(dateKey, shows[|shows| - 1]), shows[|shows| - 1])
  }

  /** The fold builds the grouping of its input. */
  lemma {:induction false} GroupFoldGroups(shows: seq<EnrichedShowtime>, dateKey: string -> string)
    ensures GroupsOf(GroupFold(shows, dateKey), shows, dateKey)
  {
    if shows != [] {
      var prefix := shows[..|shows| - 1];
      var last := shows[|shows| - 1];
      assert shows == prefix + [last];
      GroupFoldGroups(prefix, dateKey);
      InsertGroups(GroupFold(prefix, dateKey), prefix, dateKey, last);
    }
  }

  /** The `groupedShowtimes` reduce: the nested dictionaries are created on
      first use and each showtime is pushed onto the list of its date, cinema
      name and theatre name. */
  method GroupShowtimes(shows: seq<EnrichedShowtime>, dateKey: string -> string) returns (acc: Grouping)
    ensures acc == GroupFold(shows, dateKey)
    ensures GroupsOf(acc, shows, dateKey)
  {
    acc := map[];
    for i := 0 to |shows|
      invariant acc == GroupFold(shows[..i], dateKey)
    {
      var showtime := shows[i];
      ghost var before := acc;
      var date := dateKey(showtime.showtime.startTime);
      if date !in acc {
        acc := acc[date := map[]];
      }
      var cinemaName := CinemaName(showtime);
      if cinemaName !in acc[date] {
        acc := acc[date := acc[date][cinemaName := map[]]];
      }
      var theatreName := TheatreName(showtime);
      if theatreName !in acc[date][cinemaName] {
        acc := acc[date := acc[date][cinemaName := acc[date][cinemaName][theatreName := []]]];
      }
      acc := acc[date := acc[date][cinemaName := acc[date][cinemaName][theatreName :=
               acc[date][cinemaName][theatreName] + [showtime]]]];
      ghost var k := KeyOf(dateKey, showtime);
      assert k == GroupKey(date, cinemaName, theatreName);
      assert acc == Insert(before, k, showtime);
      assert shows[..i + 1][..i] == shows[..i];
    }
    assert shows[..|shows|] == shows;
    GroupFoldGroups(shows, dateKey);
  }

  // ---------------------------------------------------------------- grouping properties

  /** A showtime is in a bucket exactly when it is in the input and the bucket
      is the one for its key. */
  lemma {:induction false} BucketMembership(shows: seq<EnrichedShowtime>, dateKey: string -> string,
                                            k: GroupKey, e: EnrichedShowtime)
    ensures e in Bucket(shows, dateKey, k) <==> e in shows && KeyOf(dateKey, e) == k
  {
    if shows != [] {
      var prefix := shows[..|shows| - 1];
      assert shows == prefix + [shows[|shows| - 1]];
      BucketMembership(prefix, dateKey, k, e);
    }
  }

  /** Buckets keep the input order: the bucket of two lists one after the
      other is the first list's bucket followed by the second's. */
  lemma {:induction false} BucketConcat(a: seq<EnrichedShowtime>, b: seq<EnrichedShowtime>,
                                        dateKey: string -> string, k: GroupKey)
    ensures Bucket(a + b, dateKey, k) == Bucket(a, dateKey, k) + Bucket(b, dateKey, k)
  {
    if b == [] {
      assert a + b == a;
    } else {
      var b' := b[..|b| - 1];
      assert (a + b)[..|a + b| - 1] == a + b';
      assert (a + b)[|a + b| - 1] == b[|b| - 1];
      BucketConcat(a, b', dateKey, k);
    }
  }

  /** The distinct keys of the input, in order of first appearance. */
  function KeySeq(shows: seq<EnrichedShowtime>, dateKey: string -> string): seq<GroupKey> {
    if shows == [] then []
    else
      var keys := KeySeq(shows[..|shows| - 1], dateKey);
      var k := KeyOf(dateKey, shows[|shows| - 1]);
      if k in keys then keys else keys + [k]
  }

  lemma {:induction false} KeySeqMembers(shows: seq<EnrichedShowtime>, dateKey: string -> string, k: GroupKey)
    ensures k in KeySeq(shows, dateKey) <==> Bucket(shows, dateKey, k) != []
  {
    if shows != [] {
      KeySeqMembers(shows[..|shows| - 1], dateKey, k);
    }
  }

  predicate DistinctKeys(ks: seq<GroupKey>) {
    forall i, j :: 0 <= i < j < |ks| ==> ks[i] != ks[j]
  }

  lemma {:induction false} KeySeqDistinct(shows: seq<EnrichedShowtime>, dateKey: string -> string)
    ensures DistinctKeys(KeySeq(shows, dateKey))
  {
    if shows != [] {
      KeySeqDistinct(shows[..|shows| - 1], dateKey);
    }
  }

  /** The total size of the buckets named by `ks`. */
  function SumSizes(shows: seq<EnrichedShowtime>, dateKey: string -> string, ks: seq<GroupKey>): nat {
    if ks == [] then 0
    else SumSizes(shows, dateKey, ks[..|ks| - 1]) + |Bucket(shows, dateKey, ks[|ks| - 1])|
  }

  lemma {:induction false} SumSizesAppend(shows: seq<EnrichedShowtime>, dateKey: string -> string,
                                          e: EnrichedShowtime, ks: seq<GroupKey>)
    requires DistinctKeys(ks)
    ensures SumSizes(shows + [e], dateKey, ks) ==
            SumSizes(shows, dateKey, ks) + (if KeyOf(dateKey, e) in ks then 1 else 0)
  {
    if ks != [] {
      var prefix := ks[..|ks| - 1];
      assert ks == prefix + [ks[|ks| - 1]];
      assert KeyOf(dateKey, e) in ks <==> KeyOf(dateKey, e) in prefix || KeyOf(dateKey, e) == ks[|ks| - 1];
      SumSizesAppend(shows, dateKey, e, prefix);
      AppendFacts(shows, dateKey, e);
    }
  }

  /** The buckets partition the input: their sizes add up to its length. */
  lemma {:induction false} BucketSizesSum(shows: seq<EnrichedShowtime>, dateKey: string -> string)
    ensures SumSizes(shows, dateKey, KeySeq(shows, dateKey)) == |shows|
  {
    if shows != [] {
      var prefix := shows[..|shows| - 1];
      var e := shows[|shows| - 1];
      assert shows == prefix + [e];
      var keys := KeySeq(prefix, dateKey);
      var k := KeyOf(dateKey, e);
      BucketSizesSum(prefix, dateKey);
      KeySeqDistinct(prefix, dateKey);
      SumSizesAppend(prefix, dateKey, e, keys);
      if k !in keys {
        KeySeqMembers(prefix, dateKey, k);
        AppendFacts(prefix, dateKey, e);
        assert (keys + [k])[..|keys + [k]| - 1] == keys;
      }
    }
  }

  /** A grouping built by the reduce has exactly the keys of its input, and
      its bucket sizes add up to the number of showtimes. */
  lemma GroupingPartitionsInput(g: Grouping, shows: seq<EnrichedShowtime>, dateKey: string -> string)
    requires GroupsOf(g, shows, dateKey)
    ensures forall d, c, t :: d in g && c in g[d] && t in g[d][c] <==> GroupKey(d, c, t) in KeySeq(shows, dateKey)
    ensures SumSizes(shows, dateKey, KeySeq(shows, dateKey)) == |shows|
  {
    forall d, c, t
      ensures d in g && c in g[d] && t in g[d][c] <==> GroupKey(d, c, t) in KeySeq(shows, dateKey)
    {
      var k := GroupKey(d, c, t);
      KeySeqMembers(shows, dateKey, k);
      if Bucket(shows, dateKey, k) != [] {
        BucketOnlyUnderItsCinema(shows, dateKey, k);
        CinemaOnlyOnItsDate(shows, dateKey, d, c);
      }
    }
    BucketSizesSum(shows, dateKey);
  }

  /** Every showtime of the input is in the list of its own key, and in no
      other list of the grouping. */
  lemma EveryShowtimeInExactlyOneBucket(g: Grouping, shows: seq<EnrichedShowtime>, dateKey: string -> string, i: int)
    requires GroupsOf(g, shows, dateKey) && 0 <= i < |shows|
    ensures var k := KeyOf(dateKey, shows[i]);
      k.date in g && k.cinema in g[k.date] && k.theatre in g[k.date][k.cinema]
      && shows[i] in g[k.date][k.cinema][k.theatre]
    ensures forall d, c, t :: d in g && c in g[d] && t in g[d][c] && shows[i] in g[d][c][t] ==>
      GroupKey(d, c, t) == KeyOf(dateKey, shows[i])
  {
    var k := KeyOf(dateKey, shows[i]);
    BucketMembership(shows, dateKey, k, shows[i]);
    BucketOnlyUnderItsCinema(shows, dateKey, k);
    CinemaOnlyOnItsDate(shows, dateKey, k.date, k.cinema);
    forall d, c, t | d in g && c in g[d] && t in g[d][c] && shows[i] in g[d][c][t]
      ensures GroupKey(d, c, t) == k
    {
      BucketMembership(shows, dateKey, GroupKey(d, c, t), shows[i]);
    }
  }

  lemma {:induction false} DateHasCinema(shows: seq<EnrichedShowtime>, dateKey: string -> string, date: string)
    returns (cinema: string)
    requires HasDate(shows, dateKey, date)
    ensures HasCinemaOn(shows, dateKey, date, cinema)
  {
    var last := KeyOf(dateKey, shows[|shows| - 1]);
    if last.date == date {
      cinema := last.cinema;
    } else {
      cinema := DateHasCinema(shows[..|shows| - 1], dateKey, date);
    }
  }

  lemma {:induction false} CinemaHasTheatre(shows: seq<EnrichedShowtime>, dateKey: string -> string,
                                            date: string, cinema: string)
    returns (theatre: string)
    requires HasCinemaOn(shows, dateKey, date, cinema)
    ensures Bucket(shows, dateKey, GroupKey(date, cinema, theatre)) != []
  {
    var last := KeyOf(dateKey, shows[|shows| - 1]);
    if last.date == date && last.cinema == cinema {
      theatre := last.theatre;
    } else {
      theatre := CinemaHasTheatre(shows[..|shows| - 1], dateKey, date, cinema);
    }
  }

  /** No level of the grouping is empty: nested dictionaries are created
      only on the way to a push. */
  lemma GroupingHasNoEmptyLevel(g: Grouping, shows: seq<EnrichedShowtime>, dateKey: string -> string)
    requires GroupsOf(g, shows, dateKey)
    ensures forall d :: d in g ==> |g[d]| > 0
    ensures forall d, c :: d in g && c in g[d] ==> |g[d][c]| > 0
    ensures forall d, c, t :: d in g && c in g[d] && t in g[d][c] ==> |g[d][c][t]| > 0
  {
    forall d | d in g ensures |g[d]| > 0 {
      var c := DateHasCinema(shows, dateKey, d);
      assert c in g[d];
    }
    forall d, c | d in g && c in g[d] ensures |g[d][c]| > 0 {
      var t := CinemaHasTheatre(shows, dateKey, d, c);
      assert t in g[d][c];
    }
  }

  /** A showtime without a cinema is listed under "Unknown Cinema", and one
      without a theatre under "Unknown Theatre". */
  lemma MissingNamesFallBack(g: Grouping, shows: seq<EnrichedShowtime>, dateKey: string -> string, i: int)
    requires GroupsOf(g, shows, dateKey) && 0 <= i < |shows|
    ensures shows[i].cinema.None? ==>
      var d := dateKey(shows[i].showtime.startTime);
      d in g && UnknownCinema in g[d] && TheatreName(shows[i]) in g[d][UnknownCinema]
      && shows[i] in g[d][UnknownCinema][TheatreName(shows[i])]
    ensures shows[i].theatre.None? ==>
      var d := dateKey(shows[i].showtime.startTime);
      d in g && CinemaName(shows[i]) in g[d] && UnknownTheatre in g[d][CinemaName(shows[i])]
      && shows[i] in g[d][CinemaName(shows[i])][UnknownTheatre]
  {
    var k := KeyOf(dateKey, shows[i]);
    EveryShowtimeInExactlyOneBucket(g, shows, dateKey, i);
    assert k.date in g && k.cinema in g[k.date] && k.theatre in g[k.date][k.cinema];
    assert shows[i] in g[k.date][k.cinema][k.theatre];
  }
}
