/** The music roll-up of the exporters: `process_music_data` in scripts/datagen/export.py and
    export_music.py, `extract_music_data` in music.py and `process_music` in plex_sync.py. Every album of an
    artist is credited to the names the artist stands for: the artist's own title, or for a collaborative
    title "A; B" each collaborator (in the Tautulli scripts only a collaborator that has an entry of its own
    with a rating key). Credits gather per name, in the order names are first credited; the library totals
    count each album once, except the duration, which grows once per credit. */
module MusicExport {
  import opened Wrappers
  import opened Text
  import opened ExportFormat
  import opened ExportRecords
  import opened AlbumExport

  /** An artist entry of the export: its title, optional rating key and albums. */
  datatype ArtistRecord = ArtistRecord(title: string, ratingKey: Option<string>, albums: seq<AlbumRecord>)

  /** The scripts that roll up music. */
  predicate MusicScript(script: Script) {
    script == ExportPy || script == ExportMusicPy || script == MusicPy || script == PlexSync
  }

  /** A rating key as Python's truth test sees it: present and not empty. */
  predicate TruthyKey(key: Option<string>) {
    key.Some? && key.value != ""
  }

  /** `next((a for a in music_data if a["title"] == name), None)`: the first entry with that title. */
  function FirstMatch(music: seq<ArtistRecord>, name: string): (r: Option<ArtistRecord>)
    ensures r.Some? ==> r.value in music && r.value.title == name
    ensures r.None? <==> forall k :: 0 <= k < |music| ==> music[k].title != name
  {
    if music == [] then None
    else if music[0].title == name then Some(music[0])
    else FirstMatch(music[1..], name)
  }

  /** The Tautulli scripts' test on a collaborator: its first entry exists and has a rating key. */
  predicate Standalone(music: seq<ArtistRecord>, name: string) {
    FirstMatch(music, name).Some? && TruthyKey(FirstMatch(music, name).value.ratingKey)
  }

  /** The collaborators that pass the test, in order. */
  function Standalones(music: seq<ArtistRecord>, names: seq<string>): (r: seq<string>)
    ensures forall n :: n in r <==> n in names && Standalone(music, n)
  {
    if names == [] then []
    else
      var init := Standalones(music, names[..|names| - 1]);
      if Standalone(music, names[|names| - 1]) then init + [names[|names| - 1]] else init
  }

  /** The collaborators credited: all of them in plex_sync.py, those that pass the test elsewhere. */
  function Picked(script: Script, music: seq<ArtistRecord>, collaborators: seq<string>): seq<string> {
    if script == PlexSync then collaborators else Standalones(music, collaborators)
  }

  /** The names an artist's albums are credited to. */
  function CreditedNames(script: Script, music: seq<ArtistRecord>, a: ArtistRecord): seq<string> {
    if ';' in a.title then Picked(script, music, SplitCollaborators(a.title)) else [a.title]
  }

  /** The key a credit offers its name: plex_sync.py keeps the crediting artist's key, the Tautulli scripts
      keep none. */
  function CreditKey(script: Script, a: ArtistRecord): Option<string> {
    if script == PlexSync then a.ratingKey else None
  }

  // ---------------------------------------------------------------- credits

  /** One album credited to one name, with the album's duration and the key offered. */
  datatype Credit = Credit(name: string, album: AlbumData, duration: nat, ratingKey: Option<string>)

  /** The credits of one album, one per name, in order. */
  function AlbumCredits(names: seq<string>, album: AlbumData, duration: nat, key: Option<string>): (r: seq<Credit>)
    ensures |r| == |names|
    ensures forall k :: 0 <= k < |r| ==> r[k] == Credit(names[k], album, duration, key)
  {
    seq(|names|, k requires 0 <= k < |names| => Credit(names[k], album, duration, key))
  }

  /** The entries `process_album` writes for the given albums, in order. */
  function Summaries(fmt: Formats, albums: seq<AlbumRecord>): (r: seq<AlbumData>)
    ensures |r| == |albums|
  {
    if albums == [] then [] else Summaries(fmt, albums[..|albums| - 1]) + [Summary(fmt, albums[|albums| - 1])]
  }

  /** The durations `process_album` returns for the given albums, in order. */
  function Durations(albums: seq<AlbumRecord>): (r: seq<nat>)
    ensures |r| == |albums|
  {
    if albums == [] then [] else Durations(albums[..|albums| - 1]) + [AlbumDuration(albums[|albums| - 1])]
  }

  /** The credits of album entries with their durations, album by album, each album to every name. */
  function Credits(names: seq<string>, entries: seq<AlbumData>, durations: seq<nat>, key: Option<string>): seq<Credit>
    requires |entries| == |durations|
  {
    if entries == [] then []
    else
      var n := |entries| - 1;
      Credits(names, entries[..n], durations[..n], key) + AlbumCredits(names, entries[n], durations[n], key)
  }

  /** The credits of the albums of artist `a`. */
  function ArtistCredits(script: Script, fmt: Formats, music: seq<ArtistRecord>, a: ArtistRecord): seq<Credit> {
    Credits(CreditedNames(script, music, a), Summaries(fmt, a.albums), Durations(a.albums), CreditKey(script, a))
  }

  /** The credits of the given artists, artist by artist. */
  function AllCredits(script: Script, fmt: Formats, music: seq<ArtistRecord>, artists: seq<ArtistRecord>): seq<Credit> {
    if artists == [] then []
    else
      var last := artists[|artists| - 1];
      AllCredits(script, fmt, music, artists[..|artists| - 1]) + ArtistCredits(script, fmt, music, last)
  }

  // ---------------------------------------------------------------- the per-name tally

  /** `artists_data[name]`: the name's albums, sizes, tracks, album count, years and (plex_sync.py) key. */
  datatype ArtistAcc = ArtistAcc(albums: seq<AlbumData>, totalSizeBytes: nat, totalTracks: nat, totalAlbums: nat,
                                 years: seq<Option<int>>, ratingKey: Option<string>)

  const EmptyAcc := ArtistAcc([], 0, 0, 0, [], None)

  /** `artists_data`: the names in the order they were first credited, and each name's entry. */
  datatype Tally = Tally(names: seq<string>, acc: map<string, ArtistAcc>)

  predicate WellFormed(t: Tally) {
    (forall n :: n in t.names ==> n in t.acc) && (forall n :: n in t.acc ==> n in t.names)
    && forall i, j :: 0 <= i < j < |t.names| ==> t.names[i] != t.names[j]
  }

  /** Crediting an album to a name: the body of the innermost loop. */
  function AddCredit(t: Tally, c: Credit): Tally {
    var prior := if c.name in t.acc then t.acc[c.name] else EmptyAcc;
    var entry := ArtistAcc(prior.albums + [c.album], prior.totalSizeBytes + c.album.totalAlbumSizeBytes,
                           prior.totalTracks + c.album.tracks, prior.totalAlbums + 1, prior.years + [c.album.year],
                           if TruthyKey(prior.ratingKey) then prior.ratingKey else c.ratingKey);
    Tally(if c.name in t.acc then t.names else t.names + [c.name], t.acc[c.name := entry])
  }

  /** The tally after the given credits, in order. */
  function AddAll(t: Tally, cs: seq<Credit>): Tally {
    if cs == [] then t else AddCredit(AddAll(t, cs[..|cs| - 1]), cs[|cs| - 1])
  }

  /** Crediting keeps each name listed once, with an entry. */
  lemma AddCreditWellFormed(t: Tally, c: Credit)
    requires WellFormed(t)
    ensures WellFormed(AddCredit(t, c))
  {
  }

  lemma {:induction false} AddAllWellFormed(t: Tally, cs: seq<Credit>)
    requires WellFormed(t)
    ensures WellFormed(AddAll(t, cs))
    decreases |cs|
  {
    if cs != [] {
      AddAllWellFormed(t, cs[..|cs| - 1]);
      AddCreditWellFormed(AddAll(t, cs[..|cs| - 1]), cs[|cs| - 1]);
    }
  }

  lemma AddAllStep(t: Tally, cs: seq<Credit>, c: Credit)
    ensures AddAll(t, cs + [c]) == AddCredit(AddAll(t, cs), c)
  {
    assert (cs + [c])[..|cs|] == cs;
  }

  lemma {:induction false} AddAllAppend(t: Tally, xs: seq<Credit>, ys: seq<Credit>)
    ensures AddAll(t, xs + ys) == AddAll(AddAll(t, xs), ys)
    decreases |ys|
  {
    if ys == [] {
      assert xs + ys == xs;
    } else {
      assert (xs + ys)[..|xs + ys| - 1] == xs + ys[..|ys| - 1];
      AddAllAppend(t, xs, ys[..|ys| - 1]);
    }
  }

  const EmptyTally := Tally([], map[])

  /** One album entry credited to each of `names`, in order: the tally the innermost loop builds. */
  function AddNames(t: Tally, names: seq<string>, album: AlbumData, duration: nat, key: Option<string>): Tally {
    if names == [] then t
    else AddCredit(AddNames(t, names[..|names| - 1], album, duration, key), Credit(names[|names| - 1], album, duration, key))
  }

  /** Album entries credited album by album: the tally the albums loop builds. */
  function AddAlbums(t: Tally, names: seq<string>, entries: seq<AlbumData>, durations: seq<nat>, key: Option<string>): Tally
    requires |entries| == |durations|
  {
    if entries == [] then t
    else
      var n := |entries| - 1;
      AddNames(AddAlbums(t, names, entries[..n], durations[..n], key), names, entries[n], durations[n], key)
  }

  /** Crediting one album name by name takes in its credits in order. */
  lemma {:induction false} AddNamesCredits(t: Tally, names: seq<string>, album: AlbumData, duration: nat, key: Option<string>)
    ensures AddNames(t, names, album, duration, key) == AddAll(t, AlbumCredits(names, album, duration, key))
    decreases |names|
  {
    if names != [] {
      var n := |names| - 1;
      AddNamesCredits(t, names[..n], album, duration, key);
      assert AlbumCredits(names, album, duration, key)
        == AlbumCredits(names[..n], album, duration, key) + [Credit(names[n], album, duration, key)];
      AddAllStep(t, AlbumCredits(names[..n], album, duration, key), Credit(names[n], album, duration, key));
    }
  }

  /** Crediting album by album takes in the credits in order. */
  lemma {:induction false} AddAlbumsCredits(t: Tally, names: seq<string>, entries: seq<AlbumData>, durations: seq<nat>,
                                            key: Option<string>)
    requires |entries| == |durations|
    ensures AddAlbums(t, names, entries, durations, key) == AddAll(t, Credits(names, entries, durations, key))
    decreases |entries|
  {
    if entries != [] {
      var n := |entries| - 1;
      var prior := Credits(names, entries[..n], durations[..n], key);
      AddAlbumsCredits(t, names, entries[..n], durations[..n], key);
      AddNamesCredits(AddAll(t, prior), names, entries[n], durations[n], key);
      AddAllAppend(t, prior, AlbumCredits(names, entries[n], durations[n], key));
    }
  }

  lemma AddAlbumsSnoc(t: Tally, names: seq<string>, entries: seq<AlbumData>, durations: seq<nat>, key: Option<string>,
                      album: AlbumData, duration: nat)
    requires |entries| == |durations|
    ensures AddAlbums(t, names, entries + [album], durations + [duration], key)
      == AddNames(AddAlbums(t, names, entries, durations, key), names, album, duration, key)
  {
    assert (entries + [album])[..|entries|] == entries;
    assert (durations + [duration])[..|durations|] == durations;
  }

  // ---------------------------------------------------------------- the export

  /** An artist entry of the catalogue. */
  datatype ArtistOut = ArtistOut(artistName: string, ratingKey: Option<string>, totalAlbums: nat, totalTracks: nat,
                                 totalSizeHuman: string, yearRange: Option<string>, albums: seq<AlbumData>)

  /** The catalogue: the artists and the library totals. */
  datatype MusicOut = MusicOut(artists: seq<ArtistOut>, totalArtists: nat, totalAlbums: nat, totalTracks: nat,
                               totalSizeHuman: string, totalDurationHuman: string)

  /** The entry of a credited name: its key is, in plex_sync.py, the first truthy key offered by a credit and
      otherwise the key of the first entry with that title; in the other scripts the latter. The year range
      spans the truthy album years. */
  function ArtistOutOf(script: Script, fmt: Formats, music: seq<ArtistRecord>, name: string, e: ArtistAcc): ArtistOut {
    var firstKey := if FirstMatch(music, name).Some? then FirstMatch(music, name).value.ratingKey else None;
    ArtistOut(name, if script == PlexSync && TruthyKey(e.ratingKey) then e.ratingKey else firstKey,
              e.totalAlbums, e.totalTracks, fmt.size(e.totalSizeBytes), YearRange(TruthyYears(e.years)), e.albums)
  }

  function ArtistAlbums(a: ArtistRecord): nat { |a.albums| }

  function AlbumTracks(al: AlbumRecord): nat { |al.tracks| }

  function ArtistTracks(a: ArtistRecord): nat { Sum(a.albums, AlbumTracks) }

  function ArtistBytes(a: ArtistRecord): nat { Sum(a.albums, AlbumBytes) }

  function CreditDuration(c: Credit): nat { c.duration }

  function EntryTracks(d: AlbumData): nat { d.tracks }

  function EntryBytes(d: AlbumData): nat { d.totalAlbumSizeBytes }

  /** The entries' track counts and byte counts add up to the albums'. */
  lemma {:induction false} SummariesTotals(fmt: Formats, albums: seq<AlbumRecord>)
    ensures Sum(Summaries(fmt, albums), EntryTracks) == Sum(albums, AlbumTracks)
    ensures Sum(Summaries(fmt, albums), EntryBytes) == Sum(albums, AlbumBytes)
    decreases |albums|
  {
    if albums != [] {
      var n := |albums| - 1;
      SummariesTotals(fmt, albums[..n]);
      SumSnoc(Summaries(fmt, albums[..n]), Summary(fmt, albums[n]), EntryTracks);
      SumSnoc(Summaries(fmt, albums[..n]), Summary(fmt, albums[n]), EntryBytes);
    }
  }

  /** The entries of the tally's names, in order. */
  function Entries(script: Script, fmt: Formats, music: seq<ArtistRecord>, t: Tally): (r: seq<ArtistOut>)
    requires WellFormed(t)
    ensures |r| == |t.names|
  {
    seq(|t.names|, k requires 0 <= k < |t.names| => ArtistOutOf(script, fmt, music, t.names[k], t.acc[t.names[k]]))
  }

  /** What the roll-up writes. */
  function Export(script: Script, fmt: Formats, music: seq<ArtistRecord>): MusicOut {
    var cs := AllCredits(script, fmt, music, music);
    var t := AddAll(EmptyTally, cs);
    assert WellFormed(t) by {
      AddAllWellFormed(EmptyTally, cs);
    }
    var artists := Entries(script, fmt, music, t);
    MusicOut(artists, |artists|, Sum(music, ArtistAlbums), Sum(music, ArtistTracks),
             fmt.size(Sum(music, ArtistBytes)), fmt.duration(Sum(cs, CreditDuration)))
  }

  /** What the script writes: plex_sync.py returns without writing anything when the library has no
      artist; every other script writes the roll-up, an empty one included. */
  function Written(script: Script, fmt: Formats, music: seq<ArtistRecord>): (out: Option<MusicOut>)
    ensures out.None? <==> script == PlexSync && music == []
    ensures out.Some? ==> out.value == Export(script, fmt, music)
  {
    if script == PlexSync && music == [] then None else Some(Export(script, fmt, music))
  }

  // ---------------------------------------------------------------- the loops

  /** The innermost loop of a collaborative artist: credits the album to each picked collaborator and adds
      the album's duration once per credit. */
  method CreditCollaborators(script: Script, music: seq<ArtistRecord>, collaborators: seq<string>, data: AlbumData,
                             duration: nat, key: Option<string>, tally: Tally)
    returns (tally': Tally, addedDuration: nat)
    ensures tally' == AddNames(tally, Picked(script, music, collaborators), data, duration, key)
    ensures addedDuration == Sum(AlbumCredits(Picked(script, music, collaborators), data, duration, key), CreditDuration)
  {
    tally' := tally;
    addedDuration := 0;
    for k := 0 to |collaborators|
      invariant CollaboratorsLoop(script, music, collaborators, data, duration, key, tally, k, tally', addedDuration)
    {
      var collaborator := collaborators[k];
      CollaboratorsLoopStep(script, music, collaborators, data, duration, key, tally, k, tally', addedDuration);
      if script == PlexSync || Standalone(music, collaborator) {
        tally' := AddCredit(tally', Credit(collaborator, data, duration, key));
        addedDuration := addedDuration + duration;
      }
    }
    assert collaborators[..|collaborators|] == collaborators;
  }

  /** The invariant of the innermost loop after the first `k` collaborators. */
  ghost predicate CollaboratorsLoop(script: Script, music: seq<ArtistRecord>, collaborators: seq<string>,
                                    data: AlbumData, duration: nat, key: Option<string>, tally: Tally,
                                    k: nat, current: Tally, added: nat)
    requires k <= |collaborators|
  {
    var picked := Picked(script, music, collaborators[..k]);
    current == AddNames(tally, picked, data, duration, key)
    && added == Sum(AlbumCredits(picked, data, duration, key), CreditDuration)
  }

  lemma CollaboratorsLoopStep(script: Script, music: seq<ArtistRecord>, collaborators: seq<string>,
                              data: AlbumData, duration: nat, key: Option<string>, tally: Tally,
                              k: nat, current: Tally, added: nat)
    requires k < |collaborators|
    requires CollaboratorsLoop(script, music, collaborators, data, duration, key, tally, k, current, added)
    ensures var credit := Credit(collaborators[k], data, duration, key);
      if script == PlexSync || Standalone(music, collaborators[k]) then
        CollaboratorsLoop(script, music, collaborators, data, duration, key, tally, k + 1, AddCredit(current, credit),
                          added + duration)
      else CollaboratorsLoop(script, music, collaborators, data, duration, key, tally, k + 1, current, added)
  {
    var picked := Picked(script, music, collaborators[..k]);
    CollaboratorStep(script, music, collaborators, k, data, duration, key);
    PickedStep(script, music, collaborators, k);
    if script == PlexSync || Standalone(music, collaborators[k]) {
      var credit := Credit(collaborators[k], data, duration, key);
      AddNamesSnoc(tally, picked, collaborators[k], data, duration, key);
      SumSnoc(AlbumCredits(picked, data, duration, key), credit, CreditDuration);
    } else {
      assert picked + [] == picked;
      assert Picked(script, music, collaborators[..k + 1]) == picked;
    }
  }

  lemma AddNamesSnoc(t: Tally, names: seq<string>, name: string, album: AlbumData, duration: nat, key: Option<string>)
    ensures AddNames(t, names + [name], album, duration, key)
      == AddCredit(AddNames(t, names, album, duration, key), Credit(name, album, duration, key))
  {
    assert (names + [name])[..|names|] == names;
  }

  lemma PickedStep(script: Script, music: seq<ArtistRecord>, names: seq<string>, k: nat)
    requires k < |names|
    ensures Picked(script, music, names[..k + 1]) == Picked(script, music, names[..k])
      + (if script == PlexSync || Standalone(music, names[k]) then [names[k]] else [])
  {
    assert names[..k + 1][..k] == names[..k];
  }

  /** One step of the innermost loop: a picked collaborator adds one credit, another adds none. */
  lemma CollaboratorStep(script: Script, music: seq<ArtistRecord>, names: seq<string>, k: nat,
                         album: AlbumData, duration: nat, key: Option<string>)
    requires k < |names|
    ensures var before := AlbumCredits(Picked(script, music, names[..k]), album, duration, key);
      var after := AlbumCredits(Picked(script, music, names[..k + 1]), album, duration, key);
      if script == PlexSync || Standalone(music, names[k]) then after == before + [Credit(names[k], album, duration, key)]
      else after == before
  {
    PickedStep(script, music, names, k);
    var picked := Picked(script, music, names[..k]);
    if script == PlexSync || Standalone(music, names[k]) {
      assert AlbumCredits(picked + [names[k]], album, duration, key)
        == AlbumCredits(picked, album, duration, key) + [Credit(names[k], album, duration, key)];
    } else {
      assert Picked(script, music, names[..k + 1]) == picked;
    }
  }

  /** One more album: its entry and duration follow the earlier ones. */
  lemma SummariesStep(fmt: Formats, albums: seq<AlbumRecord>, j: nat)
    requires j < |albums|
    ensures Summaries(fmt, albums[..j + 1]) == Summaries(fmt, albums[..j]) + [Summary(fmt, albums[j])]
    ensures Durations(albums[..j + 1]) == Durations(albums[..j]) + [AlbumDuration(albums[j])]
  {
    assert albums[..j + 1][..j] == albums[..j];
  }

  /** One more album entry adds its credits after the earlier ones. */
  lemma CreditsSnoc(names: seq<string>, entries: seq<AlbumData>, durations: seq<nat>, entry: AlbumData, duration: nat,
                    key: Option<string>)
    requires |entries| == |durations|
    ensures Credits(names, entries + [entry], durations + [duration], key)
      == Credits(names, entries, durations, key) + AlbumCredits(names, entry, duration, key)
  {
    assert (entries + [entry])[..|entries|] == entries;
    assert (durations + [duration])[..|durations|] == durations;
  }

  /** The credits of one more artist. */
  lemma AllCreditsStep(script: Script, fmt: Formats, music: seq<ArtistRecord>, i: nat)
    requires i < |music|
    ensures AllCredits(script, fmt, music, music[..i + 1]) == AllCredits(script, fmt, music, music[..i]) + ArtistCredits(script, fmt, music, music[i])
  {
    assert music[..i + 1][..i] == music[..i];
  }

  /** The albums loop of one artist, in either of its two forms: for a collaborative title each album is
      credited to the picked collaborators, otherwise to the artist's own title. The library counters grow
      once per album. */
  method ProcessArtist(script: Script, fmt: Formats, music: seq<ArtistRecord>, artist: ArtistRecord, tally: Tally)
    returns (tally': Tally, albums: nat, tracks: nat, sizeBytes: nat, duration: nat)
    ensures tally' == AddAll(tally, ArtistCredits(script, fmt, music, artist))
    ensures duration == Sum(ArtistCredits(script, fmt, music, artist), CreditDuration)
    ensures albums == ArtistAlbums(artist) && tracks == ArtistTracks(artist) && sizeBytes == ArtistBytes(artist)
  {
    tally', albums, tracks, sizeBytes, duration := CreditAlbums(script, fmt, music, artist, tally);
    AddAlbumsCredits(tally, CreditedNames(script, music, artist), Summaries(fmt, artist.albums),
                     Durations(artist.albums), CreditKey(script, artist));
  }

  /** The albums loop: each album is summarised once, counted once in the library totals, and credited to
      every name the artist stands for. */
  method CreditAlbums(script: Script, fmt: Formats, music: seq<ArtistRecord>, artist: ArtistRecord, tally: Tally)
    returns (tally': Tally, albums: nat, tracks: nat, sizeBytes: nat, duration: nat)
    ensures tally' == AddAlbums(tally, CreditedNames(script, music, artist), Summaries(fmt, artist.albums),
                                Durations(artist.albums), CreditKey(script, artist))
    ensures duration == Sum(ArtistCredits(script, fmt, music, artist), CreditDuration)
    ensures albums == ArtistAlbums(artist) && tracks == ArtistTracks(artist) && sizeBytes == ArtistBytes(artist)
  {
    tally' := tally;
    albums, tracks, sizeBytes, duration := 0, 0, 0, 0;
    var key := CreditKey(script, artist);
    var collaborative := ';' in artist.title;
    var collaborators := if collaborative then SplitCollaborators(artist.title) else [];
    ghost var names := CreditedNames(script, music, artist);
    for j := 0 to |artist.albums|
      invariant AlbumsLoop(fmt, artist.albums, names, key, tally, j, tally', duration, albums, tracks, sizeBytes)
    {
      var album := artist.albums[j];
      var albumData, albumSizeBytes, albumDuration := ProcessAlbum(fmt, album);
      var tally'', added := CreditAlbum(script, music, artist, collaborative, collaborators, albumData, albumDuration,
                                        key, tally');
      ghost var before := (tally', duration, albums, tracks, sizeBytes);
      tally' := tally'';
      duration := duration + added;
      albums := albums + 1;
      tracks := tracks + albumData.tracks;
      sizeBytes := sizeBytes + albumSizeBytes;
      AlbumsLoopStep(fmt, artist.albums, names, key, tally, j, before.0, before.1, before.2, before.3, before.4,
                     albumData, albumSizeBytes, albumDuration, tally', added, duration, albums, tracks, sizeBytes);
    }
    AlbumsLoopDone(script, fmt, music, artist, tally, tally', duration, albums, tracks, sizeBytes);
  }

  /** After the last album the loop invariant is the method's promise. */
  lemma AlbumsLoopDone(script: Script, fmt: Formats, music: seq<ArtistRecord>, artist: ArtistRecord, tally: Tally,
                       current: Tally, duration: nat, albums: nat, tracks: nat, sizeBytes: nat)
    requires AlbumsLoop(fmt, artist.albums, CreditedNames(script, music, artist), CreditKey(script, artist), tally,
                        |artist.albums|, current, duration, albums, tracks, sizeBytes)
    ensures current == AddAlbums(tally, CreditedNames(script, music, artist), Summaries(fmt, artist.albums),
                                 Durations(artist.albums), CreditKey(script, artist))
    ensures duration == Sum(ArtistCredits(script, fmt, music, artist), CreditDuration)
    ensures albums == ArtistAlbums(artist) && tracks == ArtistTracks(artist) && sizeBytes == ArtistBytes(artist)
  {
    assert artist.albums[..|artist.albums|] == artist.albums;
    SummariesTotals(fmt, artist.albums);
  }

  /** The invariant of the albums loop after the first `j` albums. */
  ghost predicate AlbumsLoop(fmt: Formats, records: seq<AlbumRecord>, names: seq<string>, key: Option<string>,
                             tally: Tally, j: nat, current: Tally, duration: nat, albums: nat, tracks: nat, sizeBytes: nat)
    requires j <= |records|
  {
    var entries, durations := Summaries(fmt, records[..j]), Durations(records[..j]);
    && current == AddAlbums(tally, names, entries, durations, key)
    && duration == Sum(Credits(names, entries, durations, key), CreditDuration)
    && albums == j && tracks == Sum(entries, EntryTracks) && sizeBytes == Sum(entries, EntryBytes)
  }

  lemma AlbumsLoopStep(fmt: Formats, records: seq<AlbumRecord>, names: seq<string>, key: Option<string>,
                       tally: Tally, j: nat, current: Tally, duration: nat, albums: nat, tracks: nat, sizeBytes: nat,
                       data: AlbumData, bytes: nat, albumDuration: nat, next: Tally, added: nat,
                       duration': nat, albums': nat, tracks': nat, sizeBytes': nat)
    requires j < |records|
    requires AlbumsLoop(fmt, records, names, key, tally, j, current, duration, albums, tracks, sizeBytes)
    requires data == Summary(fmt, records[j]) && albumDuration == AlbumDuration(records[j])
    requires bytes == data.totalAlbumSizeBytes
    requires next == AddNames(current, names, data, albumDuration, key)
    requires added == Sum(AlbumCredits(names, data, albumDuration, key), CreditDuration)
    requires duration' == duration + added && albums' == albums + 1
    requires tracks' == tracks + data.tracks && sizeBytes' == sizeBytes + bytes
    ensures AlbumsLoop(fmt, records, names, key, tally, j + 1, next, duration', albums', tracks', sizeBytes')
  {
    var entries, durations := Summaries(fmt, records[..j]), Durations(records[..j]);
    SummariesStep(fmt, records, j);
    AddAlbumsSnoc(tally, names, entries, durations, key, data, albumDuration);
    CreditedDurationStep(names, key, entries, durations, duration, data, albumDuration, added, duration');
    EntryTotalsStep(entries, data, tracks, sizeBytes, tracks', sizeBytes');
  }

  /** One more album entry: the duration total grows by the album's duration once per credit. */
  lemma CreditedDurationStep(names: seq<string>, key: Option<string>, entries: seq<AlbumData>, durations: seq<nat>,
                             total: nat, data: AlbumData, duration: nat, added: nat, total': nat)
    requires |entries| == |durations|
    requires total == Sum(Credits(names, entries, durations, key), CreditDuration)
    requires added == Sum(AlbumCredits(names, data, duration, key), CreditDuration)
    requires total' == total + added
    ensures total' == Sum(Credits(names, entries + [data], durations + [duration], key), CreditDuration)
  {
    CreditsSnoc(names, entries, durations, data, duration, key);
    SumAppend(Credits(names, entries, durations, key), AlbumCredits(names, data, duration, key), CreditDuration);
  }

  /** One more album entry: the track and byte totals grow by the entry's. */
  lemma EntryTotalsStep(entries: seq<AlbumData>, data: AlbumData, tracks: nat, sizeBytes: nat, tracks': nat,
                        sizeBytes': nat)
    requires tracks == Sum(entries, EntryTracks) && sizeBytes == Sum(entries, EntryBytes)
    requires tracks' == tracks + data.tracks && sizeBytes' == sizeBytes + data.totalAlbumSizeBytes
    ensures tracks' == Sum(entries + [data], EntryTracks) && sizeBytes' == Sum(entries + [data], EntryBytes)
  {
    SumSnoc(entries, data, EntryTracks);
    SumSnoc(entries, data, EntryBytes);
  }

  /** Crediting one album entry to the names the artist stands for, by the form chosen before the loop. */
  method CreditAlbum(script: Script, music: seq<ArtistRecord>, artist: ArtistRecord, collaborative: bool,
                     collaborators: seq<string>, data: AlbumData, duration: nat, key: Option<string>, tally: Tally)
    returns (tally': Tally, addedDuration: nat)
    requires collaborative == (';' in artist.title)
    requires collaborative ==> collaborators == SplitCollaborators(artist.title)
    ensures tally' == AddNames(tally, CreditedNames(script, music, artist), data, duration, key)
    ensures addedDuration == Sum(AlbumCredits(CreditedNames(script, music, artist), data, duration, key), CreditDuration)
  {
    if collaborative {
      tally', addedDuration := CreditCollaborators(script, music, collaborators, data, duration, key, tally);
    } else {
      tally', addedDuration := CreditOwn(artist.title, data, duration, key, tally);
    }
  }

  /** The body of the albums loop of an artist credited under its own title. */
  method CreditOwn(name: string, data: AlbumData, duration: nat, key: Option<string>, tally: Tally)
    returns (tally': Tally, addedDuration: nat)
    ensures tally' == AddNames(tally, [name], data, duration, key)
    ensures addedDuration == Sum(AlbumCredits([name], data, duration, key), CreditDuration)
  {
    var credit := Credit(name, data, duration, key);
    assert AlbumCredits([name], data, duration, key) == [] + [credit];
    AddNamesSnoc(tally, [], name, data, duration, key);
    SumSnoc([], credit, CreditDuration);
    tally' := AddCredit(tally, credit);
    addedDuration := duration;
  }

  // ---------------------------------------------------------------- the artists loop and the output

  /** `process_music_data` (export.py, export_music.py), `extract_music_data` (music.py) and `process_music`
      (plex_sync.py), for the script's formatters: the artists loop credits every album, then one entry is
      written per credited name. */
  method ProcessMusicData(script: Script, music: seq<ArtistRecord>) returns (out: Option<MusicOut>)
    ensures out == Written(script, FormatsOf(script), music)
  {
    out := RollUp(script, FormatsOf(script), music);
  }

  /** The roll-up for any pair of formatters. */
  method RollUp(script: Script, fmt: Formats, music: seq<ArtistRecord>) returns (out: Option<MusicOut>)
    ensures out == Written(script, fmt, music)
  {
    if script == PlexSync && music == [] {
      return None;
    }
    var tally := EmptyTally;
    var totalAlbums, totalTracks, totalSizeBytes, totalDuration := 0, 0, 0, 0;
    for i := 0 to |music|
      invariant ArtistsLoop(script, fmt, music, i, tally, totalAlbums, totalTracks, totalSizeBytes, totalDuration)
    {
      var tally', albums, tracks, sizeBytes, duration := ProcessArtist(script, fmt, music, music[i], tally);
      ghost var before := (tally, totalAlbums, totalTracks, totalSizeBytes, totalDuration);
      tally := tally';
      totalAlbums := totalAlbums + albums;
      totalTracks := totalTracks + tracks;
      totalSizeBytes := totalSizeBytes + sizeBytes;
      totalDuration := totalDuration + duration;
      ArtistsLoopStep(script, fmt, music, i, before.0, before.1, before.2, before.3, before.4,
                      albums, tracks, sizeBytes, duration, tally, totalAlbums, totalTracks, totalSizeBytes, totalDuration);
    }
    ArtistsLoopDone(script, fmt, music, tally, totalAlbums, totalTracks, totalSizeBytes, totalDuration);
    var artists := WriteArtists(script, fmt, music, tally);
    out := Some(MusicOut(artists, |artists|, totalAlbums, totalTracks, fmt.size(totalSizeBytes), fmt.duration(totalDuration)));
  }

  /** The invariant of the artists loop after the first `i` artists. */
  ghost predicate ArtistsLoop(script: Script, fmt: Formats, music: seq<ArtistRecord>, i: nat, tally: Tally,
                              albums: nat, tracks: nat, sizeBytes: nat, duration: nat)
    requires i <= |music|
  {
    var cs := AllCredits(script, fmt, music, music[..i]);
    && tally == AddAll(EmptyTally, cs)
    && albums == Sum(music[..i], ArtistAlbums) && tracks == Sum(music[..i], ArtistTracks)
    && sizeBytes == Sum(music[..i], ArtistBytes) && duration == Sum(cs, CreditDuration)
  }

  lemma ArtistsLoopStep(script: Script, fmt: Formats, music: seq<ArtistRecord>, i: nat, tally: Tally,
                        albums: nat, tracks: nat, sizeBytes: nat, duration: nat,
                        artistAlbums: nat, artistTracks: nat, artistBytes: nat, artistDuration: nat,
                        tally': Tally, albums': nat, tracks': nat, sizeBytes': nat, duration': nat)
    requires i < |music|
    requires ArtistsLoop(script, fmt, music, i, tally, albums, tracks, sizeBytes, duration)
    requires tally' == AddAll(tally, ArtistCredits(script, fmt, music, music[i]))
    requires artistDuration == Sum(ArtistCredits(script, fmt, music, music[i]), CreditDuration)
    requires artistAlbums == ArtistAlbums(music[i]) && artistTracks == ArtistTracks(music[i])
    requires artistBytes == ArtistBytes(music[i])
    requires albums' == albums + artistAlbums && tracks' == tracks + artistTracks
    requires sizeBytes' == sizeBytes + artistBytes && duration' == duration + artistDuration
    ensures ArtistsLoop(script, fmt, music, i + 1, tally', albums', tracks', sizeBytes', duration')
  {
    var cs := AllCredits(script, fmt, music, music[..i]);
    var more := ArtistCredits(script, fmt, music, music[i]);
    AllCreditsStep(script, fmt, music, i);
    AddAllAppend(EmptyTally, cs, more);
    SumAppend(cs, more, CreditDuration);
    SumStep(music, i, ArtistAlbums);
    SumStep(music, i, ArtistTracks);
    SumStep(music, i, ArtistBytes);
  }

  lemma ArtistsLoopDone(script: Script, fmt: Formats, music: seq<ArtistRecord>, tally: Tally,
                        albums: nat, tracks: nat, sizeBytes: nat, duration: nat)
    requires ArtistsLoop(script, fmt, music, |music|, tally, albums, tracks, sizeBytes, duration)
    ensures tally == AddAll(EmptyTally, AllCredits(script, fmt, music, music)) && WellFormed(tally)
    ensures albums == Sum(music, ArtistAlbums) && tracks == Sum(music, ArtistTracks)
    ensures sizeBytes == Sum(music, ArtistBytes)
    ensures duration == Sum(AllCredits(script, fmt, music, music), CreditDuration)
  {
    assert music[..|music|] == music;
    AddAllWellFormed(EmptyTally, AllCredits(script, fmt, music, music));
  }

  /** The output loop: one entry per credited name, in the order the names were first credited. */
  method WriteArtists(script: Script, fmt: Formats, music: seq<ArtistRecord>, tally: Tally)
    returns (artists: seq<ArtistOut>)
    requires WellFormed(tally)
    ensures artists == Entries(script, fmt, music, tally)
  {
    ghost var all := Entries(script, fmt, music, tally);
    artists := [];
    for k := 0 to |tally.names|
      invariant artists == all[..k]
    {
      var name := tally.names[k];
      artists := artists + [ArtistOutOf(script, fmt, music, name, tally.acc[name])];
      assert all[..k + 1] == all[..k] + [all[k]];
    }
    assert all[..|all|] == all;
  }
}
