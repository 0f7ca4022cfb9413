/** The TV roll-up of the exporters: `process_tvshow_data` in scripts/datagen/export.py and
    `extract_tvshow_data` in scripts/datagen/show.py (over a catalogue export), and `process_tvshows` in
    scripts/datagen/plex_sync.py (over the media server's objects). Each walks shows, their seasons and the
    seasons' episodes, counts episodes and adds up part sizes per season, per show and for the library,
    and collects each episode file's resolution, codecs, container and year for the aggregated fields. */
module TvExport {
  import opened Wrappers
  import opened Text
  import opened ExportFormat
  import opened ExportRecords

  // ---------------------------------------------------------------- records

  /** An episode: its year, its duration in milliseconds (0 when unset) and its media versions (`None` when
      the `media` key is absent). */
  datatype Episode = Episode(year: Option<int>, duration: nat, media: Option<seq<Media>>)

  /** A season: its key, its number and its episodes (`season.get("episodes", [])`). */
  datatype Season = Season(ratingKey: Option<string>, seasonNumber: Option<int>, episodes: seq<Episode>)

  /** A show: its key and title (read without a default by the catalogue exporters), the preformatted
      duration of the catalogue export, the duration in milliseconds of the media server (0 when unset),
      its rating, its season count and its seasons. */
  datatype Show = Show(ratingKey: Option<string>, title: Option<string>, durationHuman: Option<string>,
                       duration: nat, contentRating: Option<string>, seasonCount: Option<int>,
                       seasons: seq<Season>)

  /** A season entry of the catalogue. `avgEpisodeDuration` is only written by plex_sync.py. */
  datatype SeasonData = SeasonData(ratingKey: Option<string>, seasonNumber: Option<int>, totalEpisodes: nat,
                                   avgEpisodeDuration: Option<string>, sizeHuman: string,
                                   videoResolution: string, audioCodec: string, videoCodec: string,
                                   container: string, yearRange: Option<string>)

  /** A show entry of the catalogue. */
  datatype ShowData = ShowData(ratingKey: Option<string>, title: Option<string>, avgEpisodeDuration: Option<string>,
                               contentRating: Option<string>, seasonCount: Option<int>, totalEpisodes: nat,
                               sizeHuman: string, videoResolutions: string, audioCodecs: string,
                               videoCodecs: string, containers: string, yearRange: Option<string>,
                               seasons: seq<SeasonData>)

  /** The catalogue file: the kept shows and the library totals. */
  datatype TvOut = TvOut(shows: seq<ShowData>, totalShow: nat, totalSeasonCount: nat, totalEpisode: nat,
                         totalSizeHuman: string)

  /** The value lists a season or a show collects: one entry per episode file. */
  datatype Columns = Columns(resolutions: seq<Option<string>>, audioCodecs: seq<Option<string>>,
                             videoCodecs: seq<Option<string>>, containers: seq<Option<string>>,
                             years: seq<Option<int>>)
  {
    /** `list.extend` on all five lists. */
    function Extend(more: Columns): Columns {
      Columns(resolutions + more.resolutions, audioCodecs + more.audioCodecs, videoCodecs + more.videoCodecs,
              containers + more.containers, years + more.years)
    }
  }

  const NoColumns := Columns([], [], [], [], [])

  // ---------------------------------------------------------------- what one episode contributes

  /** The episode's file: its first media version and that version's first part, or `None` when either list
      is missing or empty (`episode["media"][0]["parts"][0]` raises, `if episode.media` / `if parts` fails). */
  function FileOf(e: Episode): Option<(Media, Part)> {
    match First(e.media)
    case None => None
    case Some(m) =>
      match First(m.parts)
      case None => None
      case Some(p) => Some((m, p))
  }

  /** The bytes an episode adds to the sizes: its part's size, nothing without a file. */
  function FileBytes(e: Episode): nat {
    match FileOf(e)
    case Some((_, p)) => p.size
    case None => 0
  }

  /** The values an episode appends to the lists: one each when it has a file, none otherwise. */
  function FileColumns(e: Episode): Columns {
    match FileOf(e)
    case Some((m, p)) =>
      Columns([FormatResolution(m.videoResolution)], [FormatCodec(m.audioCodec)], [FormatCodec(m.videoCodec)],
              [p.container], [e.year])
    case None => NoColumns
  }

  /** The lists of a run of episodes, taken from the back so that a loop's next step extends them. */
  function Collected(eps: seq<Episode>): Columns {
    if eps == [] then NoColumns else Collected(eps[..|eps| - 1]).Extend(FileColumns(eps[|eps| - 1]))
  }

  lemma CollectedStep(eps: seq<Episode>, i: nat)
    requires i < |eps|
    ensures Collected(eps[..i + 1]) == Collected(eps[..i]).Extend(FileColumns(eps[i]))
  {
    assert eps[..i + 1][..i] == eps[..i];
  }

  function SeasonColumns(s: Season): Columns { Collected(s.episodes) }

  /** The lists of a show: its seasons' lists one after the other. */
  function ShowColumns(seasons: seq<Season>): Columns {
    if seasons == [] then NoColumns
    else ShowColumns(seasons[..|seasons| - 1]).Extend(SeasonColumns(seasons[|seasons| - 1]))
  }

  lemma ShowColumnsStep(seasons: seq<Season>, j: nat)
    requires j < |seasons|
    ensures ShowColumns(seasons[..j + 1]) == ShowColumns(seasons[..j]).Extend(SeasonColumns(seasons[j]))
  {
    assert seasons[..j + 1][..j] == seasons[..j];
  }

  function EpisodeCount(s: Season): nat { |s.episodes| }

  function SeasonBytes(s: Season): nat { Sum(s.episodes, FileBytes) }

  function EpisodeDuration(e: Episode): nat { e.duration }

  // ---------------------------------------------------------------- the catalogue exporters

  /** `f"{min(years)}-{max(years)}" if years else None` over years that may be `None`: Python orders no
      `None` against anything, so a list of two or more holding a `None` raises `TypeError`, which the
      exporters do not catch, while a lone `None` is returned by `min` and `max` without a comparison. */
  function PyYearRange(years: seq<Option<int>>): (r: Result<Option<string>>)
    ensures r.Failure? <==> |years| >= 2 && None in years
    ensures r == Success(None) <==> years == []
  {
    if years == [] then Success(None)
    else if None !in years then
      assert PresentYears(years) != [] by { assert years[0].value in PresentYears(years); }
      Success(YearRange(PresentYears(years)))
    else if |years| == 1 then Success(Some("None-None"))
    else Failure("TypeError")
  }

  /** The index of the first episode without a file, or the number of episodes when every one has one:
      `episode["media"][0]["parts"][0]` raises there and the show is abandoned. */
  function FirstMissing(eps: seq<Episode>): (i: nat)
    ensures i <= |eps|
    ensures forall k :: 0 <= k < i ==> FileOf(eps[k]).Some?
    ensures i < |eps| ==> FileOf(eps[i]).None?
  {
    if eps == [] || FileOf(eps[0]).None? then 0
    else
      var rest := FirstMissing(eps[1..]);
      assert forall k :: 1 <= k < 1 + rest ==> eps[k] == eps[1..][k - 1];
      1 + rest
  }

  predicate Completes(s: Season) { FirstMissing(s.episodes) == |s.episodes| }

  /** The episodes a season adds to the counters: all of them, or up to and including the first without a
      file (the counters are incremented before the file is looked up). */
  function EpisodesCounted(s: Season): (n: nat)
    ensures n <= |s.episodes|
    ensures n == |s.episodes| <==> Completes(s) || FirstMissing(s.episodes) == |s.episodes| - 1
  {
    var i := FirstMissing(s.episodes);
    if i < |s.episodes| then i + 1 else i
  }

  /** The bytes a season adds to the sizes: those of the episodes before the first without a file. */
  function BytesCounted(s: Season): nat {
    Sum(s.episodes[..FirstMissing(s.episodes)], FileBytes)
  }

  /** A season that completes adds all its episodes and all its bytes. */
  lemma CompletedSeason(s: Season)
    requires Completes(s)
    ensures EpisodesCounted(s) == EpisodeCount(s) && BytesCounted(s) == SeasonBytes(s)
  {
    assert s.episodes[..|s.episodes|] == s.episodes;
  }

  /** The season entry of the catalogue exporters, or the `TypeError` of its year range. */
  function CatalogueSeason(fmt: Formats, s: Season): Result<SeasonData> {
    var cols := SeasonColumns(s);
    match PyYearRange(cols.years)
    case Failure(e) => Failure(e)
    case Success(range) =>
      Success(SeasonData(s.ratingKey, s.seasonNumber, EpisodeCount(s), None, fmt.size(SeasonBytes(s)),
                         AggregateUnique(cols.resolutions), AggregateUnique(cols.audioCodecs),
                         AggregateUnique(cols.videoCodecs), AggregateUnique(cols.containers), range))
  }

  /** The index of the first season that does not complete, or the number of seasons. */
  function FirstIncomplete(seasons: seq<Season>): (j: nat)
    ensures j <= |seasons|
    ensures forall k :: 0 <= k < j ==> Completes(seasons[k])
    ensures j < |seasons| ==> !Completes(seasons[j])
  {
    if seasons == [] || !Completes(seasons[0]) then 0
    else
      var rest := FirstIncomplete(seasons[1..]);
      assert forall k :: 1 <= k < 1 + rest ==> seasons[k] == seasons[1..][k - 1];
      1 + rest
  }

  /** The seasons a show's pass enters: all of them, or up to and including the first that does not
      complete. */
  function Reached(seasons: seq<Season>): (r: seq<Season>)
    ensures |r| <= |seasons| && r == seasons[..|r|]
  {
    var j := FirstIncomplete(seasons);
    seasons[..if j < |seasons| then j + 1 else j]
  }

  /** What becomes of a show: kept with its entry, skipped by the `except (KeyError, IndexError)` clause,
      or a `TypeError` that ends the export. */
  datatype Outcome = Kept(data: ShowData) | Skipped | Crashed

  /** Some season entered before the first incomplete one raises in its year range. */
  predicate SeasonRaises(fmt: Formats, seasons: seq<Season>) {
    exists k :: 0 <= k < FirstIncomplete(seasons) && CatalogueSeason(fmt, seasons[k]).Failure?
  }

  /** The outcome of a show in the catalogue exporters. The seasons are entered in order; a season without
      an episode file skips the show, a season's year range may raise first; the key and the title are read
      after all seasons, and the show's year range after them. */
  function CatalogueShow(fmt: Formats, show: Show): Outcome {
    var seasons := show.seasons;
    if SeasonRaises(fmt, seasons) then Crashed
    else if FirstIncomplete(seasons) < |seasons| || show.ratingKey.None? || show.title.None? then Skipped
    else
      match PyYearRange(ShowColumns(seasons).years)
      case Failure(_) => Crashed
      case Success(range) => Kept(CatalogueShowData(fmt, show, range))
  }

  /** The entries of the seasons whose year ranges do not raise, in order. */
  function CatalogueSeasons(fmt: Formats, seasons: seq<Season>): seq<SeasonData> {
    if seasons == [] then []
    else
      CatalogueSeasons(fmt, seasons[..|seasons| - 1])
      + (match CatalogueSeason(fmt, seasons[|seasons| - 1]) case Success(d) => [d] case Failure(_) => [])
  }

  /** The entry of a show whose seasons all complete without raising, given its year range. */
  function CatalogueShowData(fmt: Formats, show: Show, range: Option<string>): ShowData {
    var seasons := show.seasons;
    var cols := ShowColumns(seasons);
    ShowData(show.ratingKey, show.title, show.durationHuman, show.contentRating, show.seasonCount,
             Sum(seasons, EpisodeCount), fmt.size(Sum(seasons, SeasonBytes)),
             AggregateUnique(cols.resolutions), AggregateUnique(cols.audioCodecs),
             AggregateUnique(cols.videoCodecs), AggregateUnique(cols.containers), range,
             CatalogueSeasons(fmt, seasons))
  }

  /** What a show adds to the library counters, kept or skipped. */
  function ShowSeasons(show: Show): nat { |Reached(show.seasons)| }

  function ShowEpisodes(show: Show): nat { Sum(Reached(show.seasons), EpisodesCounted) }

  function ShowBytes(show: Show): nat { Sum(Reached(show.seasons), BytesCounted) }

  /** The entries of the kept shows, in input order. */
  function KeptData(fmt: Formats, shows: seq<Show>): seq<ShowData> {
    if shows == [] then []
    else
      KeptData(fmt, shows[..|shows| - 1])
      + (match CatalogueShow(fmt, shows[|shows| - 1]) case Kept(d) => [d] case _ => [])
  }

  predicate Raises(fmt: Formats, shows: seq<Show>) {
    exists i :: 0 <= i < |shows| && CatalogueShow(fmt, shows[i]).Crashed?
  }

  /** The catalogue file of the catalogue exporters, or the `TypeError` that stops them before it is
      written. */
  function CatalogueExport(fmt: Formats, shows: seq<Show>): Result<TvOut> {
    if Raises(fmt, shows) then Failure("TypeError")
    else
      Success(TvOut(KeptData(fmt, shows), |shows|, Sum(shows, ShowSeasons), Sum(shows, ShowEpisodes),
                    fmt.size(Sum(shows, ShowBytes))))
  }

  // ---------------------------------------------------------------- the catalogue exporters' loops

  /** The episode loop of a season in the catalogue exporters: counts every episode it enters, adds the
      part sizes and extends the lists; `complete` is false when an episode without a file ended it. */
  method CatalogueSeasonPass(season: Season) returns (episodes: nat, bytes: nat, cols: Columns, complete: bool)
    ensures complete == Completes(season)
    ensures episodes == EpisodesCounted(season) && bytes == BytesCounted(season)
    ensures complete ==> cols == SeasonColumns(season)
  {
    var eps := season.episodes;
    episodes, bytes, cols := 0, 0, NoColumns;
    var i := 0;
    while i < |eps|
      invariant i <= FirstMissing(eps)
      invariant episodes == i && bytes == Sum(eps[..i], FileBytes) && cols == Collected(eps[..i])
    {
      episodes := episodes + 1;
      var file := FileOf(eps[i]);
      if file.None? {
        complete := false;
        return;
      }
      var (_, part) := file.value;
      bytes := bytes + part.size;
      SumStep(eps, i, FileBytes);
      cols := cols.Extend(FileColumns(eps[i]));
      CollectedStep(eps, i);
      i := i + 1;
    }
    complete := true;
    assert eps[..i] == eps;
  }

  /** What the season loop of a show has done after `j` complete seasons. */
  ghost predicate SeasonsLoop(fmt: Formats, seasons: seq<Season>, j: nat, entered: nat, episodes: nat, bytes: nat,
                              cols: Columns, data: seq<SeasonData>)
  {
    SeasonsEntered(fmt, seasons, j) && SeasonCounters(seasons, j, entered, episodes, bytes, cols)
    && SeasonEntries(fmt, seasons, j, data)
  }

  ghost predicate SeasonsEntered(fmt: Formats, seasons: seq<Season>, j: nat) {
    j <= FirstIncomplete(seasons) && j <= |seasons|
    && (forall k :: 0 <= k < j ==> CatalogueSeason(fmt, seasons[k]).Success?)
  }

  ghost predicate SeasonCounters(seasons: seq<Season>, j: nat, entered: nat, episodes: nat, bytes: nat, cols: Columns)
    requires j <= |seasons|
  {
    entered == j
    && episodes == Sum(seasons[..j], EpisodesCounted) && bytes == Sum(seasons[..j], BytesCounted)
    && cols == ShowColumns(seasons[..j])
  }

  ghost predicate SeasonEntries(fmt: Formats, seasons: seq<Season>, j: nat, data: seq<SeasonData>)
    requires j <= |seasons|
  {
    data == CatalogueSeasons(fmt, seasons[..j])
  }

  lemma SeasonsLoopStep(fmt: Formats, seasons: seq<Season>, j: nat, entered: nat, episodes: nat, bytes: nat,
                        cols: Columns, data: seq<SeasonData>)
    requires SeasonsLoop(fmt, seasons, j, entered, episodes, bytes, cols, data)
    requires j < |seasons| && Completes(seasons[j]) && CatalogueSeason(fmt, seasons[j]).Success?
    ensures SeasonsLoop(fmt, seasons, j + 1, entered + 1, episodes + EpisodesCounted(seasons[j]),
                        bytes + BytesCounted(seasons[j]), cols.Extend(SeasonColumns(seasons[j])),
                        data + [CatalogueSeason(fmt, seasons[j]).value])
  {
    SeasonsEnteredStep(fmt, seasons, j);
    SeasonCountersStep(seasons, j, entered, episodes, bytes, cols);
    SeasonEntriesStep(fmt, seasons, j, data);
  }

  lemma SeasonsEnteredStep(fmt: Formats, seasons: seq<Season>, j: nat)
    requires SeasonsEntered(fmt, seasons, j)
    requires j < |seasons| && Completes(seasons[j]) && CatalogueSeason(fmt, seasons[j]).Success?
    ensures SeasonsEntered(fmt, seasons, j + 1)
  {
    assert j != FirstIncomplete(seasons);
  }

  lemma SeasonCountersStep(seasons: seq<Season>, j: nat, entered: nat, episodes: nat, bytes: nat, cols: Columns)
    requires j < |seasons| && SeasonCounters(seasons, j, entered, episodes, bytes, cols)
    ensures SeasonCounters(seasons, j + 1, entered + 1, episodes + EpisodesCounted(seasons[j]),
                           bytes + BytesCounted(seasons[j]), cols.Extend(SeasonColumns(seasons[j])))
  {
    SumStep(seasons, j, EpisodesCounted);
    SumStep(seasons, j, BytesCounted);
    ShowColumnsStep(seasons, j);
  }

  lemma SeasonEntriesStep(fmt: Formats, seasons: seq<Season>, j: nat, data: seq<SeasonData>)
    requires j < |seasons| && CatalogueSeason(fmt, seasons[j]).Success?
    requires SeasonEntries(fmt, seasons, j, data)
    ensures SeasonEntries(fmt, seasons, j + 1, data + [CatalogueSeason(fmt, seasons[j]).value])
  {
    assert seasons[..j + 1][..j] == seasons[..j];
  }

  /** The season loop stopped at `j` by a season without an episode file: the show is skipped, and the
      counters hold what the reached seasons add. */
  lemma SkippedAt(fmt: Formats, show: Show, j: nat, entered: nat, episodes: nat, bytes: nat, cols: Columns,
                  data: seq<SeasonData>)
    requires SeasonsLoop(fmt, show.seasons, j, entered, episodes, bytes, cols, data)
    requires j < |show.seasons| && !Completes(show.seasons[j])
    ensures CatalogueShow(fmt, show) == Skipped
    ensures entered + 1 == ShowSeasons(show)
    ensures episodes + EpisodesCounted(show.seasons[j]) == ShowEpisodes(show)
    ensures bytes + BytesCounted(show.seasons[j]) == ShowBytes(show)
  {
    var seasons := show.seasons;
    assert FirstIncomplete(seasons) == j;
    assert Reached(seasons) == seasons[..j + 1];
    SumStep(seasons, j, EpisodesCounted);
    SumStep(seasons, j, BytesCounted);
  }

  /** The year range of the season at `j`, entered before any incomplete one, raises. */
  lemma CrashedAt(fmt: Formats, show: Show, j: nat)
    requires SeasonsEntered(fmt, show.seasons, j) && j < |show.seasons| && Completes(show.seasons[j])
    requires PyYearRange(SeasonColumns(show.seasons[j]).years).Failure?
    ensures CatalogueShow(fmt, show) == Crashed
  {
    assert j != FirstIncomplete(show.seasons);
    assert CatalogueSeason(fmt, show.seasons[j]).Failure?;
    assert SeasonRaises(fmt, show.seasons);
  }

  /** All seasons completed without raising: what remains is the key, the title and the show's range. */
  lemma AllSeasons(fmt: Formats, show: Show, entered: nat, episodes: nat, bytes: nat, cols: Columns,
                   data: seq<SeasonData>)
    requires SeasonsLoop(fmt, show.seasons, |show.seasons|, entered, episodes, bytes, cols, data)
    ensures !SeasonRaises(fmt, show.seasons) && FirstIncomplete(show.seasons) == |show.seasons|
    ensures forall k :: 0 <= k < |show.seasons| ==> CatalogueSeason(fmt, show.seasons[k]).Success?
    ensures cols == ShowColumns(show.seasons) && data == CatalogueSeasons(fmt, show.seasons)
    ensures entered == ShowSeasons(show) && episodes == ShowEpisodes(show) && bytes == ShowBytes(show)
    ensures episodes == Sum(show.seasons, EpisodeCount) && bytes == Sum(show.seasons, SeasonBytes)
  {
    AllSeasonsEntered(fmt, show.seasons);
    AllSeasonsCounted(show, entered, episodes, bytes, cols);
    assert show.seasons[..|show.seasons|] == show.seasons;
  }

  lemma AllSeasonsEntered(fmt: Formats, seasons: seq<Season>)
    requires SeasonsEntered(fmt, seasons, |seasons|)
    ensures !SeasonRaises(fmt, seasons) && FirstIncomplete(seasons) == |seasons|
  {
  }

  lemma AllSeasonsCounted(show: Show, entered: nat, episodes: nat, bytes: nat, cols: Columns)
    requires FirstIncomplete(show.seasons) == |show.seasons|
    requires SeasonCounters(show.seasons, |show.seasons|, entered, episodes, bytes, cols)
    ensures cols == ShowColumns(show.seasons)
    ensures entered == ShowSeasons(show) && episodes == ShowEpisodes(show) && bytes == ShowBytes(show)
    ensures episodes == Sum(show.seasons, EpisodeCount) && bytes == Sum(show.seasons, SeasonBytes)
  {
    var seasons := show.seasons;
    assert seasons[..|seasons|] == seasons;
    assert Reached(seasons) == seasons;
    CompletedSeasons(seasons);
  }

  /** Seasons that all complete add all their episodes and bytes. */
  lemma CompletedSeasons(seasons: seq<Season>)
    requires forall k :: 0 <= k < |seasons| ==> Completes(seasons[k])
    ensures Sum(seasons, EpisodesCounted) == Sum(seasons, EpisodeCount)
    ensures Sum(seasons, BytesCounted) == Sum(seasons, SeasonBytes)
  {
    forall k | 0 <= k < |seasons|
      ensures EpisodesCounted(seasons[k]) == EpisodeCount(seasons[k]) && BytesCounted(seasons[k]) == SeasonBytes(seasons[k])
    {
      CompletedSeason(seasons[k]);
    }
    SumsMatch(seasons, seasons, EpisodesCounted, EpisodeCount);
    SumsMatch(seasons, seasons, BytesCounted, SeasonBytes);
  }

  /** Two runs of the same length whose elements measure the same, one by one, have the same sum. */
  lemma {:induction false} SumsMatch<T, U>(xs: seq<T>, ys: seq<U>, f: T -> nat, g: U -> nat)
    requires |xs| == |ys| && forall k :: 0 <= k < |xs| ==> f(xs[k]) == g(ys[k])
    ensures Sum(xs, f) == Sum(ys, g)
    decreases |xs|
  {
    if xs != [] {
      var init, yinit := xs[..|xs| - 1], ys[..|ys| - 1];
      assert forall k :: 0 <= k < |init| ==> init[k] == xs[k] && yinit[k] == ys[k];
      SumsMatch(init, yinit, f, g);
    }
  }

  /** One show of the catalogue exporters: the seasons, episodes and bytes it adds to the library counters
      (exact unless the export crashes) and its outcome. */
  method CatalogueShowPass(fmt: Formats, show: Show) returns (entered: nat, episodes: nat, bytes: nat, outcome: Outcome)
    ensures outcome == CatalogueShow(fmt, show)
    ensures !outcome.Crashed? ==> entered == ShowSeasons(show) && episodes == ShowEpisodes(show) && bytes == ShowBytes(show)
  {
    var cols, data, stopped;
    entered, episodes, bytes, cols, data, stopped := CatalogueSeasonsPass(fmt, show);
    if stopped.Some? {
      return entered, episodes, bytes, stopped.value;
    }
    AllSeasons(fmt, show, entered, episodes, bytes, cols, data);
    if show.ratingKey.None? || show.title.None? {
      outcome := Skipped;
      return;
    }
    var range := PyYearRange(cols.years);
    if range.Failure? {
      outcome := Crashed;
      return;
    }
    outcome := Kept(ShowData(show.ratingKey, show.title, show.durationHuman, show.contentRating, show.seasonCount,
                             episodes, fmt.size(bytes), AggregateUnique(cols.resolutions),
                             AggregateUnique(cols.audioCodecs), AggregateUnique(cols.videoCodecs),
                             AggregateUnique(cols.containers), range.value, data));
  }

  /** The season loop of a show in the catalogue exporters: `stopped` holds the outcome when a season ended
      the show early, and is `None` when every season completed. */
  method CatalogueSeasonsPass(fmt: Formats, show: Show)
    returns (entered: nat, episodes: nat, bytes: nat, cols: Columns, data: seq<SeasonData>, stopped: Option<Outcome>)
    ensures stopped.Some? ==> stopped.value == CatalogueShow(fmt, show) && !stopped.value.Kept?
    ensures stopped == Some(Skipped) ==> entered == ShowSeasons(show) && episodes == ShowEpisodes(show) && bytes == ShowBytes(show)
    ensures stopped.None? ==> SeasonsLoop(fmt, show.seasons, |show.seasons|, entered, episodes, bytes, cols, data)
  {
    entered, episodes, bytes := 0, 0, 0;
    cols, data := NoColumns, [];
    for j := 0 to |show.seasons|
      invariant SeasonsLoop(fmt, show.seasons, j, entered, episodes, bytes, cols, data)
    {
      entered, episodes, bytes, cols, data, stopped := CatalogueSeasonStep(fmt, show, j, entered, episodes, bytes, cols, data);
      if stopped.Some? {
        return;
      }
    }
    stopped := None;
  }

  /** One season of that loop: its episodes, then its entry, or the outcome that ends the show. */
  method CatalogueSeasonStep(fmt: Formats, show: Show, j: nat, entered: nat, episodes: nat, bytes: nat, cols: Columns,
                             data: seq<SeasonData>)
    returns (entered': nat, episodes': nat, bytes': nat, cols': Columns, data': seq<SeasonData>, stopped: Option<Outcome>)
    requires j < |show.seasons| && SeasonsLoop(fmt, show.seasons, j, entered, episodes, bytes, cols, data)
    ensures stopped.Some? ==> stopped.value == CatalogueShow(fmt, show) && !stopped.value.Kept?
    ensures stopped == Some(Skipped) ==> entered' == ShowSeasons(show) && episodes' == ShowEpisodes(show) && bytes' == ShowBytes(show)
    ensures stopped.None? ==> SeasonsLoop(fmt, show.seasons, j + 1, entered', episodes', bytes', cols', data')
  {
    var season := show.seasons[j];
    var e, b, c, complete := CatalogueSeasonPass(season);
    entered', episodes', bytes', cols', data' := entered + 1, episodes + e, bytes + b, cols, data;
    if !complete {
      SkippedAt(fmt, show, j, entered, episodes, bytes, cols, data);
      return entered', episodes', bytes', cols', data', Some(Skipped);
    }
    var range := PyYearRange(c.years);
    if range.Failure? {
      CrashedAt(fmt, show, j);
      return entered', episodes', bytes', cols', data', Some(Crashed);
    }
    var entry := SeasonData(season.ratingKey, season.seasonNumber, e, None, fmt.size(b),
                            AggregateUnique(c.resolutions), AggregateUnique(c.audioCodecs),
                            AggregateUnique(c.videoCodecs), AggregateUnique(c.containers), range.value);
    SeasonAdvance(fmt, show.seasons, j, entered, episodes, bytes, cols, data, e, b, c);
    cols', data' := cols.Extend(c), data + [entry];
    stopped := None;
  }

  /** The loop state after a complete season whose range did not raise: its episode loop's counters and lists
      are added, and its entry is the one built from them. */
  lemma SeasonAdvance(fmt: Formats, seasons: seq<Season>, j: nat, entered: nat, episodes: nat, bytes: nat,
                      cols: Columns, data: seq<SeasonData>, e: nat, b: nat, c: Columns)
    requires j < |seasons| && SeasonsLoop(fmt, seasons, j, entered, episodes, bytes, cols, data)
    requires Completes(seasons[j]) && e == EpisodesCounted(seasons[j]) && b == BytesCounted(seasons[j])
    requires c == SeasonColumns(seasons[j]) && PyYearRange(c.years).Success?
    ensures SeasonsLoop(fmt, seasons, j + 1, entered + 1, episodes + e, bytes + b, cols.Extend(c),
                        data + [SeasonData(seasons[j].ratingKey, seasons[j].seasonNumber, e, None, fmt.size(b),
                                           AggregateUnique(c.resolutions), AggregateUnique(c.audioCodecs),
                                           AggregateUnique(c.videoCodecs), AggregateUnique(c.containers),
                                           PyYearRange(c.years).value)])
  {
    SeasonEntry(fmt, seasons[j], e, b, c);
    SeasonsLoopStep(fmt, seasons, j, entered, episodes, bytes, cols, data);
  }

  /** A complete season's entry, built from what its episode loop gathered. */
  lemma SeasonEntry(fmt: Formats, s: Season, e: nat, b: nat, c: Columns)
    requires Completes(s) && e == EpisodesCounted(s) && b == BytesCounted(s) && c == SeasonColumns(s)
    requires PyYearRange(c.years).Success?
    ensures CatalogueSeason(fmt, s)
            == Success(SeasonData(s.ratingKey, s.seasonNumber, e, None, fmt.size(b),
                                  AggregateUnique(c.resolutions), AggregateUnique(c.audioCodecs),
                                  AggregateUnique(c.videoCodecs), AggregateUnique(c.containers),
                                  PyYearRange(c.years).value))
  {
    CompletedSeason(s);
  }

  /** What the show loop of the catalogue exporters has done after `i` shows. */
  ghost predicate ShowsLoop(fmt: Formats, shows: seq<Show>, i: nat, totalShows: nat, totalSeasons: nat,
                            totalEpisodes: nat, totalBytes: nat, kept: seq<ShowData>)
  {
    i <= |shows|
    && !Raises(fmt, shows[..i])
    && totalShows == i
    && totalSeasons == Sum(shows[..i], ShowSeasons) && totalEpisodes == Sum(shows[..i], ShowEpisodes)
    && totalBytes == Sum(shows[..i], ShowBytes)
    && kept == KeptData(fmt, shows[..i])
  }

  lemma ShowsLoopStep(fmt: Formats, shows: seq<Show>, i: nat, totalShows: nat, totalSeasons: nat,
                      totalEpisodes: nat, totalBytes: nat, kept: seq<ShowData>, outcome: Outcome)
    requires ShowsLoop(fmt, shows, i, totalShows, totalSeasons, totalEpisodes, totalBytes, kept)
    requires i < |shows| && outcome == CatalogueShow(fmt, shows[i]) && !outcome.Crashed?
    ensures ShowsLoop(fmt, shows, i + 1, totalShows + 1, totalSeasons + ShowSeasons(shows[i]),
                      totalEpisodes + ShowEpisodes(shows[i]), totalBytes + ShowBytes(shows[i]),
                      kept + (if outcome.Kept? then [outcome.data] else []))
  {
    assert shows[..i + 1][..i] == shows[..i];
    RaisesStep(fmt, shows, i);
    SumStep(shows, i, ShowSeasons);
    SumStep(shows, i, ShowEpisodes);
    SumStep(shows, i, ShowBytes);
    KeptDataStep(fmt, shows, i);
  }

  lemma RaisesStep(fmt: Formats, shows: seq<Show>, i: nat)
    requires i < |shows| && !Raises(fmt, shows[..i]) && !CatalogueShow(fmt, shows[i]).Crashed?
    ensures !Raises(fmt, shows[..i + 1])
  {
    var longer := shows[..i + 1];
    forall k | 0 <= k < i + 1
      ensures !CatalogueShow(fmt, longer[k]).Crashed?
    {
      if k < i {
        assert longer[k] == shows[..i][k];
      }
    }
  }

  lemma KeptDataStep(fmt: Formats, shows: seq<Show>, i: nat)
    requires i < |shows|
    ensures KeptData(fmt, shows[..i + 1])
            == KeptData(fmt, shows[..i]) + (match CatalogueShow(fmt, shows[i]) case Kept(d) => [d] case _ => [])
  {
    assert shows[..i + 1][..i] == shows[..i];
  }

  /** `process_tvshow_data` (export.py) and `extract_tvshow_data` (show.py), with the script's own size
      formatter. */
  method ProcessTvShowData(script: Script, shows: seq<Show>) returns (out: Result<TvOut>)
    ensures out == CatalogueExport(FormatsOf(script), shows)
  {
    out := CatalogueRollUp(FormatsOf(script), shows);
  }

  /** The catalogue exporters' roll-up for any size formatter. */
  method CatalogueRollUp(fmt: Formats, shows: seq<Show>) returns (out: Result<TvOut>)
    ensures out == CatalogueExport(fmt, shows)
  {
    var totalShows, totalSeasons, totalEpisodes, totalBytes := 0, 0, 0, 0;
    var kept: seq<ShowData> := [];
    for i := 0 to |shows|
      invariant ShowsLoop(fmt, shows, i, totalShows, totalSeasons, totalEpisodes, totalBytes, kept)
    {
      var seasons, episodes, bytes, outcome := CatalogueShowPass(fmt, shows[i]);
      if outcome.Crashed? {
        CrashedShow(fmt, shows, i);
        return Failure("TypeError");
      }
      ShowsLoopStep(fmt, shows, i, totalShows, totalSeasons, totalEpisodes, totalBytes, kept, outcome);
      totalShows, totalSeasons := totalShows + 1, totalSeasons + seasons;
      totalEpisodes, totalBytes := totalEpisodes + episodes, totalBytes + bytes;
      kept := kept + (if outcome.Kept? then [outcome.data] else []);
    }
    ShowsDone(fmt, shows, totalShows, totalSeasons, totalEpisodes, totalBytes, kept);
    out := Success(TvOut(kept, totalShows, totalSeasons, totalEpisodes, fmt.size(totalBytes)));
  }

  /** A show that raised stops the roll-up before anything is written. */
  lemma CrashedShow(fmt: Formats, shows: seq<Show>, i: nat)
    requires i < |shows| && CatalogueShow(fmt, shows[i]).Crashed?
    ensures CatalogueExport(fmt, shows) == Failure("TypeError")
  {
    assert Raises(fmt, shows);
  }

  /** After every show, the counters and the kept entries are those of the catalogue file. */
  lemma ShowsDone(fmt: Formats, shows: seq<Show>, totalShows: nat, totalSeasons: nat, totalEpisodes: nat,
                  totalBytes: nat, kept: seq<ShowData>)
    requires ShowsLoop(fmt, shows, |shows|, totalShows, totalSeasons, totalEpisodes, totalBytes, kept)
    ensures CatalogueExport(fmt, shows) == Success(TvOut(kept, totalShows, totalSeasons, totalEpisodes, fmt.size(totalBytes)))
  {
    assert shows[..|shows|] == shows;
  }

  // ---------------------------------------------------------------- plex_sync.py

  /** `season_total_duration // season_total_episodes if season_total_episodes > 0 else 0`; an unset duration
      adds nothing (`if episode.duration`). */
  function AverageDuration(eps: seq<Episode>): nat {
    if |eps| > 0 then Sum(eps, EpisodeDuration) / |eps| else 0
  }

  /** The season entry of plex_sync.py. Values that are empty strings are dropped from the aggregates as well
      as missing ones, the year range is over the truthy years, and the mean episode duration is written only
      when it is positive. */
  function PlexSeason(fmt: Formats, s: Season): SeasonData {
    var cols := SeasonColumns(s);
    var avg := AverageDuration(s.episodes);
    SeasonData(s.ratingKey, s.seasonNumber, EpisodeCount(s), if avg > 0 then Some(fmt.duration(avg)) else None,
               fmt.size(SeasonBytes(s)), AggregateTruthy(cols.resolutions), AggregateTruthy(cols.audioCodecs),
               AggregateTruthy(cols.videoCodecs), AggregateTruthy(cols.containers),
               YearRange(TruthyYears(cols.years)))
  }

  /** The season entries of a show, in order. */
  function PlexSeasons(fmt: Formats, seasons: seq<Season>): (r: seq<SeasonData>)
    ensures |r| == |seasons|
  {
    if seasons == [] then [] else PlexSeasons(fmt, seasons[..|seasons| - 1]) + [PlexSeason(fmt, seasons[|seasons| - 1])]
  }

  function ShowEpisodeCount(show: Show): nat { Sum(show.seasons, EpisodeCount) }

  function ShowFileBytes(show: Show): nat { Sum(show.seasons, SeasonBytes) }

  function SeasonTotal(show: Show): nat { |show.seasons| }

  /** The show entry of plex_sync.py: its year range keeps a year 0 that the seasons' ranges drop, and its
      duration is formatted only when set. */
  function PlexShow(fmt: Formats, show: Show): ShowData {
    var cols := ShowColumns(show.seasons);
    ShowData(show.ratingKey, show.title, if show.duration > 0 then Some(fmt.duration(show.duration)) else None,
             show.contentRating, show.seasonCount, ShowEpisodeCount(show), fmt.size(ShowFileBytes(show)),
             AggregateTruthy(cols.resolutions), AggregateTruthy(cols.audioCodecs),
             AggregateTruthy(cols.videoCodecs), AggregateTruthy(cols.containers),
             YearRange(PresentYears(cols.years)), PlexSeasons(fmt, show.seasons))
  }

  /** The show entries, in order. */
  function PlexShows(fmt: Formats, shows: seq<Show>): (r: seq<ShowData>)
    ensures |r| == |shows|
  {
    if shows == [] then [] else PlexShows(fmt, shows[..|shows| - 1]) + [PlexShow(fmt, shows[|shows| - 1])]
  }

  /** The catalogue file of plex_sync.py, or `None` for an empty library (`if not shows: return`). Every show
      is kept. */
  function PlexExport(fmt: Formats, shows: seq<Show>): Option<TvOut> {
    if shows == [] then None
    else
      Some(TvOut(PlexShows(fmt, shows), |shows|,
                 Sum(shows, SeasonTotal), Sum(shows, ShowEpisodeCount), fmt.size(Sum(shows, ShowFileBytes))))
  }

  /** The episode loop of a season in plex_sync.py: every episode is counted and its duration added; an
      episode without a file adds nothing else. */
  method PlexSeasonPass(fmt: Formats, season: Season) returns (data: SeasonData, bytes: nat, cols: Columns)
    ensures data == PlexSeason(fmt, season)
    ensures bytes == SeasonBytes(season) && cols == SeasonColumns(season)
  {
    var eps := season.episodes;
    var episodes, duration := 0, 0;
    bytes, cols := 0, NoColumns;
    for i := 0 to |eps|
      invariant episodes == i && duration == Sum(eps[..i], EpisodeDuration)
      invariant bytes == Sum(eps[..i], FileBytes) && cols == Collected(eps[..i])
    {
      episodes := episodes + 1;
      SumStep(eps, i, EpisodeDuration);
      SumStep(eps, i, FileBytes);
      CollectedStep(eps, i);
      if eps[i].duration > 0 {
        duration := duration + eps[i].duration;
      }
      var file := FileOf(eps[i]);
      if file.Some? {
        var (_, part) := file.value;
        bytes := bytes + part.size;
        cols := cols.Extend(FileColumns(eps[i]));
      }
    }
    assert eps[..|eps|] == eps;
    var avg := if episodes > 0 then duration / episodes else 0;
    data := SeasonData(season.ratingKey, season.seasonNumber, episodes, if avg > 0 then Some(fmt.duration(avg)) else None,
                       fmt.size(bytes), AggregateTruthy(cols.resolutions), AggregateTruthy(cols.audioCodecs),
                       AggregateTruthy(cols.videoCodecs), AggregateTruthy(cols.containers),
                       YearRange(TruthyYears(cols.years)));
  }

  /** One show of plex_sync.py: its entry and the seasons, episodes and bytes it adds to the library. */
  method PlexShowPass(fmt: Formats, show: Show) returns (data: ShowData, entered: nat, episodes: nat, bytes: nat)
    ensures data == PlexShow(fmt, show)
    ensures entered == SeasonTotal(show) && episodes == ShowEpisodeCount(show) && bytes == ShowFileBytes(show)
  {
    var seasons := show.seasons;
    entered, episodes, bytes := 0, 0, 0;
    var cols := NoColumns;
    var entries: seq<SeasonData> := [];
    for j := 0 to |seasons|
      invariant PlexSeasonsLoop(fmt, seasons, j, entered, episodes, bytes, cols, entries)
    {
      var season, b, c := PlexSeasonPass(fmt, seasons[j]);
      PlexSeasonsLoopStep(fmt, seasons, j, entered, episodes, bytes, cols, entries);
      entered, episodes, bytes := entered + 1, episodes + |seasons[j].episodes|, bytes + b;
      cols := cols.Extend(c);
      entries := entries + [season];
    }
    PlexSeasonsDone(fmt, seasons, entered, episodes, bytes, cols, entries);
    data := ShowData(show.ratingKey, show.title, if show.duration > 0 then Some(fmt.duration(show.duration)) else None,
                     show.contentRating, show.seasonCount, episodes, fmt.size(bytes),
                     AggregateTruthy(cols.resolutions), AggregateTruthy(cols.audioCodecs),
                     AggregateTruthy(cols.videoCodecs), AggregateTruthy(cols.containers),
                     YearRange(PresentYears(cols.years)), entries);
  }

  /** What the season loop of plex_sync.py has done after `j` seasons. */
  ghost predicate PlexSeasonsLoop(fmt: Formats, seasons: seq<Season>, j: nat, entered: nat, episodes: nat,
                                  bytes: nat, cols: Columns, entries: seq<SeasonData>)
  {
    j <= |seasons| && entered == j && episodes == Sum(seasons[..j], EpisodeCount)
    && bytes == Sum(seasons[..j], SeasonBytes) && cols == ShowColumns(seasons[..j])
    && entries == PlexSeasons(fmt, seasons[..j])
  }

  lemma PlexSeasonsLoopStep(fmt: Formats, seasons: seq<Season>, j: nat, entered: nat, episodes: nat,
                            bytes: nat, cols: Columns, entries: seq<SeasonData>)
    requires j < |seasons| && PlexSeasonsLoop(fmt, seasons, j, entered, episodes, bytes, cols, entries)
    ensures PlexSeasonsLoop(fmt, seasons, j + 1, entered + 1, episodes + |seasons[j].episodes|,
                            bytes + SeasonBytes(seasons[j]), cols.Extend(SeasonColumns(seasons[j])),
                            entries + [PlexSeason(fmt, seasons[j])])
  {
    SumStep(seasons, j, EpisodeCount);
    SumStep(seasons, j, SeasonBytes);
    ShowColumnsStep(seasons, j);
    assert seasons[..j + 1][..j] == seasons[..j];
  }

  lemma PlexSeasonsDone(fmt: Formats, seasons: seq<Season>, entered: nat, episodes: nat, bytes: nat,
                        cols: Columns, entries: seq<SeasonData>)
    requires PlexSeasonsLoop(fmt, seasons, |seasons|, entered, episodes, bytes, cols, entries)
    ensures entered == |seasons| && episodes == Sum(seasons, EpisodeCount) && bytes == Sum(seasons, SeasonBytes)
    ensures cols == ShowColumns(seasons) && entries == PlexSeasons(fmt, seasons)
  {
    assert seasons[..|seasons|] == seasons;
  }

  /** What the show loop of plex_sync.py has done after `i` shows. */
  ghost predicate PlexShowsLoop(fmt: Formats, shows: seq<Show>, i: nat, totalShows: nat, totalSeasons: nat,
                                totalEpisodes: nat, totalBytes: nat, entries: seq<ShowData>)
  {
    i <= |shows| && totalShows == i && totalSeasons == Sum(shows[..i], SeasonTotal)
    && totalEpisodes == Sum(shows[..i], ShowEpisodeCount) && totalBytes == Sum(shows[..i], ShowFileBytes)
    && entries == PlexShows(fmt, shows[..i])
  }

  lemma PlexShowsLoopStep(fmt: Formats, shows: seq<Show>, i: nat, totalShows: nat, totalSeasons: nat,
                          totalEpisodes: nat, totalBytes: nat, entries: seq<ShowData>)
    requires i < |shows| && PlexShowsLoop(fmt, shows, i, totalShows, totalSeasons, totalEpisodes, totalBytes, entries)
    ensures PlexShowsLoop(fmt, shows, i + 1, totalShows + 1, totalSeasons + SeasonTotal(shows[i]),
                          totalEpisodes + ShowEpisodeCount(shows[i]), totalBytes + ShowFileBytes(shows[i]),
                          entries + [PlexShow(fmt, shows[i])])
  {
    SumStep(shows, i, SeasonTotal);
    SumStep(shows, i, ShowEpisodeCount);
    SumStep(shows, i, ShowFileBytes);
    assert shows[..i + 1][..i] == shows[..i];
  }

  lemma PlexShowsDone(fmt: Formats, shows: seq<Show>, totalShows: nat, totalSeasons: nat, totalEpisodes: nat,
                      totalBytes: nat, entries: seq<ShowData>)
    requires shows != [] && PlexShowsLoop(fmt, shows, |shows|, totalShows, totalSeasons, totalEpisodes, totalBytes, entries)
    ensures entries == PlexShows(fmt, shows) && totalShows == |shows|
    ensures totalSeasons == Sum(shows, SeasonTotal) && totalEpisodes == Sum(shows, ShowEpisodeCount)
    ensures totalBytes == Sum(shows, ShowFileBytes)
  {
    assert shows[..|shows|] == shows;
  }

  /** `process_tvshows` of plex_sync.py, with its own formatters. */
  method ProcessTvShows(shows: seq<Show>) returns (out: Option<TvOut>)
    ensures out == PlexExport(FormatsOf(PlexSync), shows)
  {
    out := PlexRollUp(FormatsOf(PlexSync), shows);
  }

  /** plex_sync.py's TV roll-up for any pair of formatters. */
  method PlexRollUp(fmt: Formats, shows: seq<Show>) returns (out: Option<TvOut>)
    ensures out == PlexExport(fmt, shows)
  {
    if shows == [] {
      return None;
    }
    var totalShows, totalSeasons, totalEpisodes, totalBytes, entries := PlexShowsPass(fmt, shows);
    PlexShowsDone(fmt, shows, totalShows, totalSeasons, totalEpisodes, totalBytes, entries);
    out := Some(TvOut(entries, totalShows, totalSeasons, totalEpisodes, fmt.size(totalBytes)));
  }

  /** The show loop of plex_sync.py. */
  method PlexShowsPass(fmt: Formats, shows: seq<Show>)
    returns (totalShows: nat, totalSeasons: nat, totalEpisodes: nat, totalBytes: nat, entries: seq<ShowData>)
    ensures PlexShowsLoop(fmt, shows, |shows|, totalShows, totalSeasons, totalEpisodes, totalBytes, entries)
  {
    totalShows, totalSeasons, totalEpisodes, totalBytes := 0, 0, 0, 0;
    entries := [];
    for i := 0 to |shows|
      invariant PlexShowsLoop(fmt, shows, i, totalShows, totalSeasons, totalEpisodes, totalBytes, entries)
    {
      var data, seasons, episodes, bytes := PlexShowPass(fmt, shows[i]);
      PlexShowsLoopStep(fmt, shows, i, totalShows, totalSeasons, totalEpisodes, totalBytes, entries);
      totalShows, totalSeasons := totalShows + 1, totalSeasons + seasons;
      totalEpisodes, totalBytes := totalEpisodes + episodes, totalBytes + bytes;
      entries := entries + [data];
    }
  }
}
