/** What the TV roll-ups promise about their counters, aggregates, averages and year ranges. */
module TvFacts {
  import opened Wrappers
  import opened Text
  import opened ExportFormat
  import opened ExportRecords
  import opened TvExport

  function SeasonDataEpisodes(d: SeasonData): nat { d.totalEpisodes }

  function ShowDataEpisodes(d: ShowData): nat { d.totalEpisodes }

  function ShowDataSeasons(d: ShowData): nat { |d.seasons| }

  // ---------------------------------------------------------------- counters of the catalogue exporters

  /** A kept show's total is the sum of its seasons' totals, and it adds exactly its seasons and episodes to
      the library counters. */
  lemma CatalogueKeptTotals(fmt: Formats, show: Show)
    requires CatalogueShow(fmt, show).Kept?
    ensures var d := CatalogueShow(fmt, show).data;
            |d.seasons| == |show.seasons| == ShowSeasons(show)
            && d.totalEpisodes == Sum(d.seasons, SeasonDataEpisodes) == ShowEpisodes(show)
  {
    var seasons := show.seasons;
    KeptEntry(fmt, show);
    assert Reached(seasons) == seasons by { assert seasons[..|seasons|] == seasons; }
    CatalogueSeasonsCount(fmt, seasons);
    CatalogueSeasonsSum(fmt, seasons);
    CompletedSeasons(seasons);
  }

  /** A kept show is one whose seasons all completed without raising, with a key, a title and a year range
      that did not raise. */
  lemma KeptShow(fmt: Formats, show: Show)
    requires CatalogueShow(fmt, show).Kept?
    ensures !SeasonRaises(fmt, show.seasons) && FirstIncomplete(show.seasons) == |show.seasons|
    ensures PyYearRange(ShowColumns(show.seasons).years).Success?
    ensures CatalogueShow(fmt, show).data
            == CatalogueShowData(fmt, show, PyYearRange(ShowColumns(show.seasons).years).value)
  {
  }

  /** A kept show completed every season without raising, and its entry lists one entry per season. */
  lemma KeptEntry(fmt: Formats, show: Show)
    requires CatalogueShow(fmt, show).Kept?
    ensures FirstIncomplete(show.seasons) == |show.seasons|
    ensures forall k :: 0 <= k < |show.seasons| ==> CatalogueSeason(fmt, show.seasons[k]).Success?
    ensures var d := CatalogueShow(fmt, show).data;
            d.seasons == CatalogueSeasons(fmt, show.seasons) && d.totalEpisodes == Sum(show.seasons, EpisodeCount)
  {
    KeptShow(fmt, show);
  }

  /** Seasons that all produce an entry give one entry each. */
  lemma {:induction false} CatalogueSeasonsCount(fmt: Formats, seasons: seq<Season>)
    requires forall k :: 0 <= k < |seasons| ==> CatalogueSeason(fmt, seasons[k]).Success?
    ensures |CatalogueSeasons(fmt, seasons)| == |seasons|
    decreases |seasons|
  {
    if seasons != [] {
      var init := seasons[..|seasons| - 1];
      assert forall k :: 0 <= k < |init| ==> init[k] == seasons[k];
      CatalogueSeasonsCount(fmt, init);
    }
  }

  /** The entries' totals of such seasons add up to the seasons' episodes. */
  lemma {:induction false} CatalogueSeasonsSum(fmt: Formats, seasons: seq<Season>)
    requires forall k :: 0 <= k < |seasons| ==> CatalogueSeason(fmt, seasons[k]).Success?
    ensures Sum(CatalogueSeasons(fmt, seasons), SeasonDataEpisodes) == Sum(seasons, EpisodeCount)
    decreases |seasons|
  {
    if seasons != [] {
      var init, last := seasons[..|seasons| - 1], seasons[|seasons| - 1];
      assert forall k :: 0 <= k < |init| ==> init[k] == seasons[k];
      CatalogueSeasonsSum(fmt, init);
      var d := CatalogueSeason(fmt, last).value;
      assert d.totalEpisodes == EpisodeCount(last);
      assert CatalogueSeasons(fmt, seasons) == CatalogueSeasons(fmt, init) + [d];
      SumSnoc(CatalogueSeasons(fmt, init), d, SeasonDataEpisodes);
    }
  }

  /** A show skipped at the first episode without a file keeps the counts it made: every season it entered,
      every episode of the complete seasons before, and the episodes of the last season up to and including
      the one that raised; the sizes up to that episode. */
  lemma CatalogueSkippedCounts(fmt: Formats, show: Show)
    requires FirstIncomplete(show.seasons) < |show.seasons|
    ensures var j := FirstIncomplete(show.seasons);
            var i := FirstMissing(show.seasons[j].episodes);
            ShowSeasons(show) == j + 1
            && ShowEpisodes(show) == Sum(show.seasons[..j], EpisodeCount) + i + 1
            && ShowBytes(show) == Sum(show.seasons[..j], SeasonBytes) + Sum(show.seasons[j].episodes[..i], FileBytes)
  {
    var seasons := show.seasons;
    var j := FirstIncomplete(seasons);
    assert Reached(seasons) == seasons[..j + 1];
    SumStep(seasons, j, EpisodesCounted);
    SumStep(seasons, j, BytesCounted);
    var before := seasons[..j];
    assert forall k :: 0 <= k < |before| ==> before[k] == seasons[k];
    CompletedSeasons(before);
  }

  /** The shows that the `except` clause skipped. */
  function SkippedCount(fmt: Formats, shows: seq<Show>): nat {
    if shows == [] then 0
    else SkippedCount(fmt, shows[..|shows| - 1]) + (if CatalogueShow(fmt, shows[|shows| - 1]).Skipped? then 1 else 0)
  }

  /** The episodes the skipped shows added to the library counter before they were skipped. */
  function SkippedEpisodes(fmt: Formats, shows: seq<Show>): nat {
    if shows == [] then 0
    else
      SkippedEpisodes(fmt, shows[..|shows| - 1])
      + (if CatalogueShow(fmt, shows[|shows| - 1]).Skipped? then ShowEpisodes(shows[|shows| - 1]) else 0)
  }

  lemma NoRaiseBefore(fmt: Formats, shows: seq<Show>)
    requires shows != [] && !Raises(fmt, shows)
    ensures !Raises(fmt, shows[..|shows| - 1]) && !CatalogueShow(fmt, shows[|shows| - 1]).Crashed?
  {
    var init := shows[..|shows| - 1];
    forall k | 0 <= k < |init|
      ensures !CatalogueShow(fmt, init[k]).Crashed?
    {
      assert init[k] == shows[k];
    }
  }

  /** `totalShow` counts every input show: those written and those skipped. */
  lemma {:induction false} CatalogueShowCount(fmt: Formats, shows: seq<Show>)
    requires CatalogueExport(fmt, shows).Success?
    ensures var out := CatalogueExport(fmt, shows).value;
            out.totalShow == |shows| == |out.shows| + SkippedCount(fmt, shows)
  {
    KeptAndSkipped(fmt, shows);
  }

  lemma {:induction false} KeptAndSkipped(fmt: Formats, shows: seq<Show>)
    requires !Raises(fmt, shows)
    ensures |KeptData(fmt, shows)| + SkippedCount(fmt, shows) == |shows|
    decreases |shows|
  {
    if shows != [] {
      NoRaiseBefore(fmt, shows);
      KeptAndSkipped(fmt, shows[..|shows| - 1]);
    }
  }

  /** The library's episode counter is the sum of the written shows' totals plus what the skipped shows
      counted before they were skipped: every episode entered is counted once. */
  lemma {:induction false} CatalogueEpisodeCount(fmt: Formats, shows: seq<Show>)
    requires CatalogueExport(fmt, shows).Success?
    ensures var out := CatalogueExport(fmt, shows).value;
            out.totalEpisode == Sum(out.shows, ShowDataEpisodes) + SkippedEpisodes(fmt, shows)
  {
    KeptAndSkippedEpisodes(fmt, shows);
  }

  lemma {:induction false} KeptAndSkippedEpisodes(fmt: Formats, shows: seq<Show>)
    requires !Raises(fmt, shows)
    ensures Sum(shows, ShowEpisodes) == Sum(KeptData(fmt, shows), ShowDataEpisodes) + SkippedEpisodes(fmt, shows)
    decreases |shows|
  {
    if shows != [] {
      NoRaiseBefore(fmt, shows);
      KeptAndSkippedEpisodes(fmt, shows[..|shows| - 1]);
      KeptAndSkippedStep(fmt, shows);
    }
  }

  lemma KeptAndSkippedStep(fmt: Formats, shows: seq<Show>)
    requires shows != [] && !CatalogueShow(fmt, shows[|shows| - 1]).Crashed?
    requires var init := shows[..|shows| - 1];
             Sum(init, ShowEpisodes) == Sum(KeptData(fmt, init), ShowDataEpisodes) + SkippedEpisodes(fmt, init)
    ensures Sum(shows, ShowEpisodes) == Sum(KeptData(fmt, shows), ShowDataEpisodes) + SkippedEpisodes(fmt, shows)
  {
    if CatalogueShow(fmt, shows[|shows| - 1]).Kept? {
      KeptStep(fmt, shows);
    } else {
      SkippedStep(fmt, shows);
    }
  }

  lemma KeptStep(fmt: Formats, shows: seq<Show>)
    requires shows != [] && CatalogueShow(fmt, shows[|shows| - 1]).Kept?
    ensures var init, last := shows[..|shows| - 1], shows[|shows| - 1];
            Sum(shows, ShowEpisodes) == Sum(init, ShowEpisodes) + ShowEpisodes(last)
            && Sum(KeptData(fmt, shows), ShowDataEpisodes) == Sum(KeptData(fmt, init), ShowDataEpisodes) + ShowEpisodes(last)
            && SkippedEpisodes(fmt, shows) == SkippedEpisodes(fmt, init)
  {
    var init, last := shows[..|shows| - 1], shows[|shows| - 1];
    var d := CatalogueShow(fmt, last).data;
    assert KeptData(fmt, shows) == KeptData(fmt, init) + [d];
    CatalogueKeptTotals(fmt, last);
    SumSnoc(KeptData(fmt, init), d, ShowDataEpisodes);
  }

  lemma SkippedStep(fmt: Formats, shows: seq<Show>)
    requires shows != [] && CatalogueShow(fmt, shows[|shows| - 1]).Skipped?
    ensures var init, last := shows[..|shows| - 1], shows[|shows| - 1];
            Sum(shows, ShowEpisodes) == Sum(init, ShowEpisodes) + ShowEpisodes(last)
            && KeptData(fmt, shows) == KeptData(fmt, init)
            && SkippedEpisodes(fmt, shows) == SkippedEpisodes(fmt, init) + ShowEpisodes(last)
  {
    var init := shows[..|shows| - 1];
    assert KeptData(fmt, shows) == KeptData(fmt, init) + [];
  }

  // ---------------------------------------------------------------- counters of plex_sync.py

  /** A show's total is the sum of its seasons' totals. */
  lemma PlexShowTotals(fmt: Formats, show: Show)
    ensures var d := PlexShow(fmt, show);
            |d.seasons| == |show.seasons| && d.totalEpisodes == Sum(d.seasons, SeasonDataEpisodes)
  {
    PlexSeasonsSum(fmt, show.seasons);
  }

  lemma {:induction false} PlexSeasonsSum(fmt: Formats, seasons: seq<Season>)
    ensures Sum(PlexSeasons(fmt, seasons), SeasonDataEpisodes) == Sum(seasons, EpisodeCount)
    decreases |seasons|
  {
    if seasons != [] {
      var init := seasons[..|seasons| - 1];
      PlexSeasonsSum(fmt, init);
      SumSnoc(PlexSeasons(fmt, init), PlexSeason(fmt, seasons[|seasons| - 1]), SeasonDataEpisodes);
    }
  }

  /** Every show is written and counted, and the library's season and episode counters are the sums over the
      written shows. */
  lemma PlexLibraryTotals(fmt: Formats, shows: seq<Show>)
    requires shows != []
    ensures var out := PlexExport(fmt, shows).value;
            out.totalShow == |out.shows| == |shows|
            && out.totalSeasonCount == Sum(out.shows, ShowDataSeasons)
            && out.totalEpisode == Sum(out.shows, ShowDataEpisodes)
  {
    PlexShowsSeasons(fmt, shows);
    PlexShowsEpisodes(fmt, shows);
  }

  lemma {:induction false} PlexShowsSeasons(fmt: Formats, shows: seq<Show>)
    ensures Sum(PlexShows(fmt, shows), ShowDataSeasons) == Sum(shows, SeasonTotal)
    decreases |shows|
  {
    if shows != [] {
      var init, last := shows[..|shows| - 1], shows[|shows| - 1];
      PlexShowsSeasons(fmt, init);
      SumSnoc(PlexShows(fmt, init), PlexShow(fmt, last), ShowDataSeasons);
    }
  }

  lemma {:induction false} PlexShowsEpisodes(fmt: Formats, shows: seq<Show>)
    ensures Sum(PlexShows(fmt, shows), ShowDataEpisodes) == Sum(shows, ShowEpisodeCount)
    decreases |shows|
  {
    if shows != [] {
      var init, last := shows[..|shows| - 1], shows[|shows| - 1];
      PlexShowsEpisodes(fmt, init);
      SumSnoc(PlexShows(fmt, init), PlexShow(fmt, last), ShowDataEpisodes);
    }
  }

  /** The season average: the whole milliseconds of the mean episode duration, written only when positive,
      which is when the season has episodes and at least one millisecond per episode in total. */
  lemma PlexSeasonAverage(fmt: Formats, s: Season)
    ensures var n, total := |s.episodes|, Sum(s.episodes, EpisodeDuration);
            var a, d := AverageDuration(s.episodes), PlexSeason(fmt, s);
            (n > 0 ==> a * n <= total < a * n + n)
            && (d.avgEpisodeDuration.Some? <==> n > 0 && total >= n)
            && (d.avgEpisodeDuration.Some? ==> d.avgEpisodeDuration.value == fmt.duration(a))
  {
    var n, total := |s.episodes|, Sum(s.episodes, EpisodeDuration);
    if n > 0 {
      DivBounds(total, n);
    }
  }

  lemma DivBounds(total: nat, n: nat)
    requires n > 0
    ensures (total / n) * n <= total < (total / n) * n + n
    ensures total / n > 0 <==> total >= n
  {
  }

  // ---------------------------------------------------------------- year ranges of plex_sync.py

  /** A season's range spans the least and the greatest truthy year of its files, and is absent when none is
      truthy. */
  lemma PlexSeasonYears(fmt: Formats, s: Season, lo: int, hi: int)
    requires var years := SeasonColumns(s).years;
             Some(lo) in years && Some(hi) in years && lo != 0 && hi != 0
             && forall y :: Some(y) in years && y != 0 ==> lo <= y <= hi
    ensures PlexSeason(fmt, s).yearRange == Some(IntToString(lo) + "-" + IntToString(hi))
  {
    RangeOf(TruthyYears(SeasonColumns(s).years), lo, hi);
  }

  lemma PlexSeasonNoYears(fmt: Formats, s: Season)
    ensures PlexSeason(fmt, s).yearRange.None? <==> forall y :: Some(y) in SeasonColumns(s).years ==> y == 0
  {
    var ys := TruthyYears(SeasonColumns(s).years);
    if ys != [] {
      assert ys[0] in ys;
    }
  }

  /** A show's range spans the least and the greatest year present among its files, a year 0 included,
      and is absent when none is present. */
  lemma PlexShowYears(fmt: Formats, show: Show, lo: int, hi: int)
    requires var years := ShowColumns(show.seasons).years;
             Some(lo) in years && Some(hi) in years && forall y :: Some(y) in years ==> lo <= y <= hi
    ensures PlexShow(fmt, show).yearRange == Some(IntToString(lo) + "-" + IntToString(hi))
  {
    RangeOf(PresentYears(ShowColumns(show.seasons).years), lo, hi);
  }

  lemma PlexShowNoYears(fmt: Formats, show: Show)
    ensures PlexShow(fmt, show).yearRange.None? <==> forall y :: Some(y) !in ShowColumns(show.seasons).years
  {
    var ys := PresentYears(ShowColumns(show.seasons).years);
    if ys != [] {
      assert ys[0] in ys;
    }
  }

  /** `YearRange` of a list whose least element is `lo` and greatest `hi`. */
  lemma RangeOf(ys: seq<int>, lo: int, hi: int)
    requires lo in ys && hi in ys && forall y :: y in ys ==> lo <= y <= hi
    ensures YearRange(ys) == Some(IntToString(lo) + "-" + IntToString(hi))
  {
    LeastIs(ys, lo);
    GreatestIs(ys, hi);
  }

  lemma LeastIs(ys: seq<int>, lo: int)
    requires lo in ys && forall y :: y in ys ==> lo <= y
    ensures MinOf(ys) == lo
  {
    var m := MinOf(ys);
    assert m <= lo && lo <= m;
  }

  lemma GreatestIs(ys: seq<int>, hi: int)
    requires hi in ys && forall y :: y in ys ==> y <= hi
    ensures MaxOf(ys) == hi
  {
    var n := MaxOf(ys);
    assert hi <= n && n <= hi;
  }

  // ---------------------------------------------------------------- show aggregates are unions

  /** The four aggregated fields. */
  datatype Field = Resolution | AudioCodec | VideoCodec | Container

  /** The list a field is aggregated from. */
  function Pick(c: Columns, f: Field): seq<Option<string>> {
    match f
    case Resolution => c.resolutions
    case AudioCodec => c.audioCodecs
    case VideoCodec => c.videoCodecs
    case Container => c.containers
  }

  /** The aggregated field of a show entry. */
  function Aggregated(d: ShowData, f: Field): string {
    match f
    case Resolution => d.videoResolutions
    case AudioCodec => d.audioCodecs
    case VideoCodec => d.videoCodecs
    case Container => d.containers
  }

  /** A value is in a show's list exactly when it is in one of its seasons' lists. */
  lemma {:induction false} ShowValues(seasons: seq<Season>, f: Field, x: string)
    ensures Some(x) in Pick(ShowColumns(seasons), f)
            <==> exists k :: 0 <= k < |seasons| && Some(x) in Pick(SeasonColumns(seasons[k]), f)
    decreases |seasons|
  {
    if seasons != [] {
      var init, last := seasons[..|seasons| - 1], seasons[|seasons| - 1];
      ShowValues(init, f, x);
      assert Pick(ShowColumns(seasons), f) == Pick(ShowColumns(init), f) + Pick(SeasonColumns(last), f);
      ShowValuesStep(seasons, f, x);
    }
  }

  lemma ShowValuesStep(seasons: seq<Season>, f: Field, x: string)
    requires seasons != []
    requires var init := seasons[..|seasons| - 1];
             Some(x) in Pick(ShowColumns(init), f)
             <==> exists k :: 0 <= k < |init| && Some(x) in Pick(SeasonColumns(init[k]), f)
    requires Some(x) in Pick(ShowColumns(seasons), f)
             <==> Some(x) in Pick(ShowColumns(seasons[..|seasons| - 1]), f)
                  || Some(x) in Pick(SeasonColumns(seasons[|seasons| - 1]), f)
    ensures Some(x) in Pick(ShowColumns(seasons), f)
            <==> exists k :: 0 <= k < |seasons| && Some(x) in Pick(SeasonColumns(seasons[k]), f)
  {
    var init := seasons[..|seasons| - 1];
    assert forall k :: 0 <= k < |init| ==> init[k] == seasons[k];
  }

  /** A kept show's aggregated field is the aggregate of the union of its seasons' values: any list holding
      exactly those values gives the same text. */
  lemma CatalogueShowAggregate(fmt: Formats, show: Show, f: Field, w: seq<Option<string>>)
    requires CatalogueShow(fmt, show).Kept?
    requires forall x :: Some(x) in w <==> exists k :: 0 <= k < |show.seasons| && Some(x) in Pick(SeasonColumns(show.seasons[k]), f)
    ensures Aggregated(CatalogueShow(fmt, show).data, f) == AggregateUnique(w)
  {
    var u := Pick(ShowColumns(show.seasons), f);
    forall x ensures Some(x) in u <==> Some(x) in w {
      ShowValues(show.seasons, f, x);
    }
    AggregateUniqueBySet(u, w);
    KeptAggregate(fmt, show, f);
  }

  lemma KeptAggregate(fmt: Formats, show: Show, f: Field)
    requires CatalogueShow(fmt, show).Kept?
    ensures Aggregated(CatalogueShow(fmt, show).data, f) == AggregateUnique(Pick(ShowColumns(show.seasons), f))
  {
    KeptShow(fmt, show);
  }

  /** The same for plex_sync.py, whose aggregates also drop empty strings. */
  lemma PlexShowAggregate(fmt: Formats, show: Show, f: Field, w: seq<Option<string>>)
    requires forall x :: Some(x) in w <==> exists k :: 0 <= k < |show.seasons| && Some(x) in Pick(SeasonColumns(show.seasons[k]), f)
    ensures Aggregated(PlexShow(fmt, show), f) == AggregateTruthy(w)
  {
    var u := Pick(ShowColumns(show.seasons), f);
    forall x ensures Some(x) in u <==> Some(x) in w {
      ShowValues(show.seasons, f, x);
    }
    AggregateTruthyBySet(u, w);
  }
}
