/** The movie roll-up of the exporters: `process_movie_data` in scripts/datagen/export.py and
    scripts/datagen/export_movies.py and `extract_movie_data` in scripts/datagen/movie.py (over a catalogue
    export), and `process_movies` in scripts/datagen/plex_sync.py (over the media server's objects). Each
    counts every movie, adds up the sizes of the first part of each movie's first media version and writes
    one entry per movie it keeps. */
module MovieExport {
  import opened Wrappers
  import opened ExportFormat
  import opened ExportRecords

  /** A movie: its key and title (read without a default by the catalogue exporters), year, rating, the
      preformatted duration of the catalogue export, the duration in milliseconds of the media server (0 when
      unset) and its media versions (`None` when the `media` key is absent). */
  datatype MovieRecord = MovieRecord(ratingKey: Option<string>, title: Option<string>, year: Option<int>,
                                     contentRating: Option<string>, durationHuman: Option<string>, duration: nat,
                                     media: Option<seq<Media>>)

  /** A movie entry of the catalogue. */
  datatype MovieData = MovieData(ratingKey: Option<string>, title: Option<string>, year: Option<int>,
                                 contentRating: Option<string>, durationHuman: Option<string>,
                                 audioCodec: Option<string>, container: Option<string>, videoCodec: Option<string>,
                                 videoResolution: Option<string>, sizeHuman: Option<string>)

  /** The catalogue file: the kept movies and the library totals. */
  datatype MoviesOut = MoviesOut(movies: seq<MovieData>, totalMovies: nat, totalSizeHuman: string)

  /** The movie's file: its first media version and that version's first part, or `None` when either list is
      missing or empty. */
  function MovieFile(m: MovieRecord): Option<(Media, Part)> {
    match First(m.media)
    case None => None
    case Some(media) =>
      match First(media.parts)
      case None => None
      case Some(p) => Some((media, p))
  }

  /** The bytes a movie adds to the total: its part's size whenever it has a file. */
  function MovieBytes(m: MovieRecord): nat {
    match MovieFile(m)
    case Some((_, p)) => p.size
    case None => 0
  }

  // ---------------------------------------------------------------- the catalogue exporters

  /** The entry of the catalogue exporters, or `None` when the movie is skipped: a missing file raises before
      the size is added, a missing key or title after it. */
  function CatalogueMovie(m: MovieRecord): (r: Option<MovieData>)
    ensures r.Some? <==> MovieFile(m).Some? && m.ratingKey.Some? && m.title.Some?
    ensures r.Some? ==>
              r.value.ratingKey == m.ratingKey && r.value.title == m.title
              && r.value.sizeHuman == MovieFile(m).value.1.sizeHuman
  {
    match MovieFile(m)
    case None => None
    case Some((media, part)) =>
      if m.ratingKey.None? || m.title.None? then None
      else
        Some(MovieData(m.ratingKey, m.title, m.year, m.contentRating, m.durationHuman,
                       FormatCodec(media.audioCodec), part.container, FormatCodec(media.videoCodec),
                       FormatResolution(media.videoResolution), part.sizeHuman))
  }

  /** The entries of the kept movies, in input order. */
  function CatalogueEntries(movies: seq<MovieRecord>): seq<MovieData> {
    if movies == [] then []
    else
      CatalogueEntries(movies[..|movies| - 1])
      + (match CatalogueMovie(movies[|movies| - 1]) case Some(d) => [d] case None => [])
  }

  lemma CatalogueEntriesStep(movies: seq<MovieRecord>, i: nat)
    requires i < |movies|
    ensures CatalogueEntries(movies[..i + 1])
            == CatalogueEntries(movies[..i]) + (match CatalogueMovie(movies[i]) case Some(d) => [d] case None => [])
  {
    assert movies[..i + 1][..i] == movies[..i];
  }

  /** The catalogue file of the catalogue exporters. */
  function CatalogueMovies(fmt: Formats, movies: seq<MovieRecord>): MoviesOut {
    MoviesOut(CatalogueEntries(movies), |movies|, fmt.size(Sum(movies, MovieBytes)))
  }

  /** `process_movie_data` (export.py, export_movies.py) and `extract_movie_data` (movie.py), with the
      script's own size formatter. */
  method ProcessMovieData(script: Script, movies: seq<MovieRecord>) returns (out: MoviesOut)
    ensures out == CatalogueMovies(FormatsOf(script), movies)
  {
    out := CatalogueRollUp(FormatsOf(script), movies);
  }

  /** The catalogue exporters' movie loop for any size formatter. */
  method CatalogueRollUp(fmt: Formats, movies: seq<MovieRecord>) returns (out: MoviesOut)
    ensures out == CatalogueMovies(fmt, movies)
  {
    var totalMovies, totalBytes := 0, 0;
    var entries: seq<MovieData> := [];
    for i := 0 to |movies|
      invariant totalMovies == i && totalBytes == Sum(movies[..i], MovieBytes)
      invariant entries == CatalogueEntries(movies[..i])
    {
      var m := movies[i];
      totalMovies := totalMovies + 1;
      SumStep(movies, i, MovieBytes);
      CatalogueEntriesStep(movies, i);
      var file := MovieFile(m);
      if file.None? {
        continue;
      }
      var (media, part) := file.value;
      totalBytes := totalBytes + part.size;
      if m.ratingKey.None? || m.title.None? {
        continue;
      }
      entries := entries + [MovieData(m.ratingKey, m.title, m.year, m.contentRating, m.durationHuman,
                                      FormatCodec(media.audioCodec), part.container, FormatCodec(media.videoCodec),
                                      FormatResolution(media.videoResolution), part.sizeHuman)];
    }
    assert movies[..|movies|] == movies;
    out := MoviesOut(entries, totalMovies, fmt.size(totalBytes));
  }

  // ---------------------------------------------------------------- plex_sync.py

  /** The entry of plex_sync.py, or `None` for a movie without a file: its size is formatted from the part's
      bytes and its duration only when set. */
  function PlexMovie(fmt: Formats, m: MovieRecord): (r: Option<MovieData>)
    ensures r.Some? <==> MovieFile(m).Some?
    ensures r.Some? ==> r.value.ratingKey == m.ratingKey && r.value.sizeHuman == Some(fmt.size(MovieBytes(m)))
  {
    match MovieFile(m)
    case None => None
    case Some((media, part)) =>
      Some(MovieData(m.ratingKey, m.title, m.year, m.contentRating,
                     if m.duration > 0 then Some(fmt.duration(m.duration)) else None,
                     FormatCodec(media.audioCodec), part.container, FormatCodec(media.videoCodec),
                     FormatResolution(media.videoResolution), Some(fmt.size(part.size))))
  }

  function PlexEntries(fmt: Formats, movies: seq<MovieRecord>): seq<MovieData> {
    if movies == [] then []
    else
      PlexEntries(fmt, movies[..|movies| - 1])
      + (match PlexMovie(fmt, movies[|movies| - 1]) case Some(d) => [d] case None => [])
  }

  lemma PlexEntriesStep(fmt: Formats, movies: seq<MovieRecord>, i: nat)
    requires i < |movies|
    ensures PlexEntries(fmt, movies[..i + 1])
            == PlexEntries(fmt, movies[..i]) + (match PlexMovie(fmt, movies[i]) case Some(d) => [d] case None => [])
  {
    assert movies[..i + 1][..i] == movies[..i];
  }

  /** The catalogue file of plex_sync.py, or `None` for an empty library (`if not movies: return`). */
  function PlexMovies(fmt: Formats, movies: seq<MovieRecord>): Option<MoviesOut> {
    if movies == [] then None
    else Some(MoviesOut(PlexEntries(fmt, movies), |movies|, fmt.size(Sum(movies, MovieBytes))))
  }

  /** `process_movies` of plex_sync.py, with its own formatters. */
  method ProcessMovies(movies: seq<MovieRecord>) returns (out: Option<MoviesOut>)
    ensures out == PlexMovies(FormatsOf(PlexSync), movies)
  {
    out := PlexRollUp(FormatsOf(PlexSync), movies);
  }

  /** plex_sync.py's movie loop for any pair of formatters. */
  method PlexRollUp(fmt: Formats, movies: seq<MovieRecord>) returns (out: Option<MoviesOut>)
    ensures out == PlexMovies(fmt, movies)
  {
    if movies == [] {
      return None;
    }
    var totalMovies, totalBytes := 0, 0;
    var entries: seq<MovieData> := [];
    for i := 0 to |movies|
      invariant totalMovies == i && totalBytes == Sum(movies[..i], MovieBytes)
      invariant entries == PlexEntries(fmt, movies[..i])
    {
      var m := movies[i];
      totalMovies := totalMovies + 1;
      SumStep(movies, i, MovieBytes);
      PlexEntriesStep(fmt, movies, i);
      var media := First(m.media);
      if media.None? {
        continue;
      }
      var part := First(media.value.parts);
      if part.None? {
        continue;
      }
      var size := part.value.size;
      totalBytes := totalBytes + size;
      entries := entries + [MovieData(m.ratingKey, m.title, m.year, m.contentRating,
                                      if m.duration > 0 then Some(fmt.duration(m.duration)) else None,
                                      FormatCodec(media.value.audioCodec), part.value.container,
                                      FormatCodec(media.value.videoCodec),
                                      FormatResolution(media.value.videoResolution), Some(fmt.size(size)))];
    }
    assert movies[..|movies|] == movies;
    out := Some(MoviesOut(entries, totalMovies, fmt.size(totalBytes)));
  }

  // ---------------------------------------------------------------- properties

  predicate HasFile(m: MovieRecord) { MovieFile(m).Some? }

  /** A movie with a file but without a key or a title: skipped, yet its size is in the total. */
  predicate Orphan(m: MovieRecord) { HasFile(m) && (m.ratingKey.None? || m.title.None?) }

  predicate NoFile(m: MovieRecord) { MovieFile(m).None? }

  /** `totalMovies` counts every record: the kept ones, those without a file and those without a key or a
      title. */
  lemma CatalogueMovieCount(fmt: Formats, movies: seq<MovieRecord>)
    ensures var out := CatalogueMovies(fmt, movies);
            out.totalMovies == |movies| == |out.movies| + Count(movies, NoFile) + Count(movies, Orphan)
  {
    CatalogueKeptCount(movies);
  }

  lemma {:induction false} CatalogueKeptCount(movies: seq<MovieRecord>)
    ensures |CatalogueEntries(movies)| + Count(movies, NoFile) + Count(movies, Orphan) == |movies|
    decreases |movies|
  {
    if movies != [] {
      CatalogueKeptCount(movies[..|movies| - 1]);
    }
  }

  /** `totalMovies` of plex_sync.py counts the movies without a file too, and writes every other one. */
  lemma PlexMovieCount(fmt: Formats, movies: seq<MovieRecord>)
    requires movies != []
    ensures var out := PlexMovies(fmt, movies).value;
            out.totalMovies == |movies| == |out.movies| + Count(movies, NoFile)
  {
    PlexKeptCount(fmt, movies);
  }

  lemma {:induction false} PlexKeptCount(fmt: Formats, movies: seq<MovieRecord>)
    ensures |PlexEntries(fmt, movies)| + Count(movies, NoFile) == |movies|
    decreases |movies|
  {
    if movies != [] {
      PlexKeptCount(fmt, movies[..|movies| - 1]);
    }
  }

  /** On the same records the catalogue exporters write exactly the orphans fewer entries than plex_sync.py. */
  lemma {:induction false} OrphansDropped(fmt: Formats, movies: seq<MovieRecord>)
    ensures |PlexEntries(fmt, movies)| == |CatalogueEntries(movies)| + Count(movies, Orphan)
    decreases |movies|
  {
    if movies != [] {
      OrphansDropped(fmt, movies[..|movies| - 1]);
    }
  }

  /** The record a catalogue entry would be read back as: one media version with one part. */
  function Reimported(d: MovieData): MovieRecord {
    MovieRecord(d.ratingKey, d.title, d.year, d.contentRating, d.durationHuman, 0,
                Some([Media(d.container, 0, d.audioCodec, d.videoCodec, d.videoResolution,
                            Some([Part(0, d.container, d.sizeHuman)]))]))
  }

  /** Exporting an exported entry again gives the same entry: the codecs and the resolution are normalised
      once and for all, everything else is copied. */
  lemma CatalogueReexport(m: MovieRecord)
    requires CatalogueMovie(m).Some?
    ensures CatalogueMovie(Reimported(CatalogueMovie(m).value)) == CatalogueMovie(m)
  {
    var (media, _) := MovieFile(m).value;
    FormatResolutionIdempotent(media.videoResolution);
    CodecIdempotent(media.audioCodec);
    CodecIdempotent(media.videoCodec);
  }

  lemma CodecIdempotent(codec: Option<string>)
    ensures FormatCodec(FormatCodec(codec)) == FormatCodec(codec)
  {
  }
}
