/** What the music roll-up promises about its output, stated against independent definitions: each credited
    name is listed once, in the order it was first credited; its entry holds exactly the albums credited to
    it, with their counts and sums; a collaborator is credited only when the script's test lets it through;
    and the library duration counts an album once per name credited with it. */
module MusicFacts {
  import opened Wrappers
  import opened ExportFormat
  import opened ExportRecords
  import opened AlbumExport
  import opened MusicExport

  // ---------------------------------------------------------------- reference definitions

  /** The names of the credits, in order. */
  function Names(cs: seq<Credit>): (r: seq<string>)
    ensures |r| == |cs| && forall k :: 0 <= k < |cs| ==> r[k] == cs[k].name
  {
    seq(|cs|, k requires 0 <= k < |cs| => cs[k].name)
  }

  /** The distinct names, in the order of their first occurrence. */
  function Distinct(xs: seq<string>): (r: seq<string>)
    ensures forall n :: n in r <==> n in xs
    ensures forall i, j :: 0 <= i < j < |r| ==> r[i] != r[j]
  {
    if xs == [] then []
    else
      var d := Distinct(xs[..|xs| - 1]);
      if xs[|xs| - 1] in d then d else d + [xs[|xs| - 1]]
  }

  /** The credits given to name `n`, in order. */
  function CreditsFor(cs: seq<Credit>, n: string): (r: seq<Credit>)
    ensures forall c :: c in r <==> c in cs && c.name == n
  {
    if cs == [] then []
    else CreditsFor(cs[..|cs| - 1], n) + (if cs[|cs| - 1].name == n then [cs[|cs| - 1]] else [])
  }

  function CreditBytes(c: Credit): nat { c.album.totalAlbumSizeBytes }

  function CreditTracks(c: Credit): nat { c.album.tracks }

  /** The key a name ends up with: the first truthy key its credits offer; when none does, the one offered
      last (`None` with no credit). */
  function KeptKey(cs: seq<Credit>): (key: Option<string>)
    ensures TruthyKey(key) <==> exists k :: 0 <= k < |cs| && TruthyKey(cs[k].ratingKey)
    ensures TruthyKey(key) ==>
      exists k :: 0 <= k < |cs| && key == cs[k].ratingKey && (forall j :: 0 <= j < k ==> !TruthyKey(cs[j].ratingKey))
  {
    if cs == [] then None
    else
      var init := cs[..|cs| - 1];
      var prior := KeptKey(init);
      if TruthyKey(prior) then prior else cs[|cs| - 1].ratingKey
  }

  /** The entry a name's credits make, field by field: the albums and years in order, the byte and track
      sums, one album per credit, and the kept key. */
  function AccOf(cs: seq<Credit>): ArtistAcc {
    ArtistAcc(seq(|cs|, k requires 0 <= k < |cs| => cs[k].album), Sum(cs, CreditBytes), Sum(cs, CreditTracks), |cs|,
              seq(|cs|, k requires 0 <= k < |cs| => cs[k].album.year), KeptKey(cs))
  }

  // ---------------------------------------------------------------- the tally against them

  lemma NamesSnoc(cs: seq<Credit>, c: Credit)
    ensures Names(cs + [c]) == Names(cs) + [c.name]
  {
  }

  lemma DistinctSnoc(xs: seq<string>, x: string)
    ensures Distinct(xs + [x]) == if x in Distinct(xs) then Distinct(xs) else Distinct(xs) + [x]
  {
    assert (xs + [x])[..|xs|] == xs;
  }

  lemma CreditsForSnoc(cs: seq<Credit>, c: Credit, n: string)
    ensures CreditsFor(cs + [c], n) == CreditsFor(cs, n) + (if c.name == n then [c] else [])
  {
    assert (cs + [c])[..|cs|] == cs;
  }

  /** The tally lists the credited names once each, in the order they were first credited. */
  lemma {:induction false} TallyNames(cs: seq<Credit>)
    ensures AddAll(EmptyTally, cs).names == Distinct(Names(cs))
    ensures forall n :: n in AddAll(EmptyTally, cs).acc <==> n in Names(cs)
    decreases |cs|
  {
    if cs != [] {
      var init, c := cs[..|cs| - 1], cs[|cs| - 1];
      TallyNames(init);
      InitLast(cs);
      AddAllStep(EmptyTally, init, c);
      NamesSnoc(init, c);
      DistinctSnoc(Names(init), c.name);
    }
  }

  lemma InitLast(cs: seq<Credit>)
    requires cs != []
    ensures cs == cs[..|cs| - 1] + [cs[|cs| - 1]]
  {
  }

  /** One more credit extends the reference entry of its name by one album. */
  lemma AccOfSnoc(cs: seq<Credit>, c: Credit)
    ensures var e := AccOf(cs);
      AccOf(cs + [c]) == ArtistAcc(e.albums + [c.album], e.totalSizeBytes + c.album.totalAlbumSizeBytes,
                                   e.totalTracks + c.album.tracks, e.totalAlbums + 1, e.years + [c.album.year],
                                   if TruthyKey(e.ratingKey) then e.ratingKey else c.ratingKey)
  {
    assert (cs + [c])[..|cs|] == cs;
    SumSnoc(cs, c, CreditBytes);
    SumSnoc(cs, c, CreditTracks);
  }

  /** The entry of each credited name is the reference entry of its credits. */
  lemma {:induction false} TallyEntry(cs: seq<Credit>, n: string)
    requires n in AddAll(EmptyTally, cs).acc
    ensures AddAll(EmptyTally, cs).acc[n] == AccOf(CreditsFor(cs, n))
    decreases |cs|
  {
    var init, c := cs[..|cs| - 1], cs[|cs| - 1];
    InitLast(cs);
    if n in AddAll(EmptyTally, init).acc {
      TallyEntry(init, n);
      TallyEntryStep(init, c, n);
    } else {
      TallyNames(init);
      FirstCredit(init, c, n);
    }
  }

  lemma TallyEntryStep(init: seq<Credit>, c: Credit, n: string)
    requires n in AddAll(EmptyTally, init).acc
    requires AddAll(EmptyTally, init).acc[n] == AccOf(CreditsFor(init, n))
    ensures n in AddAll(EmptyTally, init + [c]).acc
    ensures AddAll(EmptyTally, init + [c]).acc[n] == AccOf(CreditsFor(init + [c], n))
  {
    AddAllStep(EmptyTally, init, c);
    CreditsForSnoc(init, c, n);
    if c.name == n {
      CreditedAgain(AddAll(EmptyTally, init), c, CreditsFor(init, n));
    } else {
      assert CreditsFor(init, n) + [] == CreditsFor(init, n);
    }
  }

  /** A credit to a name whose entry is the reference entry of `prior` makes the one of `prior + [c]`. */
  lemma CreditedAgain(t: Tally, c: Credit, prior: seq<Credit>)
    requires c.name in t.acc && t.acc[c.name] == AccOf(prior)
    ensures AddCredit(t, c).acc[c.name] == AccOf(prior + [c])
  {
    AccOfSnoc(prior, c);
  }

  /** A name missing from the tally has had no credit, so its first credit makes the entry of one credit. */
  lemma FirstCredit(init: seq<Credit>, c: Credit, n: string)
    requires n !in AddAll(EmptyTally, init).acc && n in AddAll(EmptyTally, init + [c]).acc
    requires forall m :: m in AddAll(EmptyTally, init).acc <==> m in Names(init)
    ensures AddAll(EmptyTally, init + [c]).acc[n] == AccOf(CreditsFor(init + [c], n))
  {
    AddAllStep(EmptyTally, init, c);
    CreditsForSnoc(init, c, n);
    assert CreditsFor(init, n) == [] by {
      if CreditsFor(init, n) != [] {
        NameOfCredit(init, CreditsFor(init, n)[0]);
      }
    }
    CreditedFirst(AddAll(EmptyTally, init), c);
  }

  /** A first credit to a name makes the reference entry of that one credit. */
  lemma CreditedFirst(t: Tally, c: Credit)
    requires c.name !in t.acc
    ensures AddCredit(t, c).acc[c.name] == AccOf([] + [c])
  {
    AccOfSnoc([], c);
    assert AccOf([]) == EmptyAcc;
  }

  lemma NameOfCredit(cs: seq<Credit>, c: Credit)
    requires c in cs
    ensures c.name in Names(cs)
  {
    var k :| 0 <= k < |cs| && cs[k] == c;
    assert Names(cs)[k] == c.name;
  }

  // ---------------------------------------------------------------- who is credited

  /** A collaborator is picked exactly when plex_sync.py runs or it passes the Tautulli scripts' test. */
  lemma PickedMembers(script: Script, music: seq<ArtistRecord>, collaborators: seq<string>, n: string)
    ensures n in Picked(script, music, collaborators) <==>
      n in collaborators && (script == PlexSync || Standalone(music, n))
  {
  }

  lemma NamesAppend(xs: seq<Credit>, ys: seq<Credit>)
    ensures Names(xs + ys) == Names(xs) + Names(ys)
  {
  }

  /** The credits of album entries name every name when there is an entry, and none otherwise. */
  lemma {:induction false} CreditsNames(names: seq<string>, entries: seq<AlbumData>, durations: seq<nat>,
                                        key: Option<string>, n: string)
    requires |entries| == |durations|
    ensures n in Names(Credits(names, entries, durations, key)) <==> n in names && entries != []
    decreases |entries|
  {
    if entries != [] {
      var k := |entries| - 1;
      var album := AlbumCredits(names, entries[k], durations[k], key);
      CreditsNames(names, entries[..k], durations[..k], key, n);
      NamesAppend(Credits(names, entries[..k], durations[..k], key), album);
      assert n in Names(album) <==> n in names by {
        if n in names {
          var j :| 0 <= j < |names| && names[j] == n;
          assert Names(album)[j] == n;
        }
      }
    }
  }

  /** A name is credited by the given artists exactly when one of them has an album and stands for it. */
  lemma {:induction false} AllCreditsNames(script: Script, fmt: Formats, music: seq<ArtistRecord>,
                                           artists: seq<ArtistRecord>, n: string)
    ensures n in Names(AllCredits(script, fmt, music, artists)) <==>
      exists a :: a in artists && a.albums != [] && n in CreditedNames(script, music, a)
    decreases |artists|
  {
    if artists != [] {
      var init, last := artists[..|artists| - 1], artists[|artists| - 1];
      AllCreditsNames(script, fmt, music, init, n);
      NamesAppend(AllCredits(script, fmt, music, init), ArtistCredits(script, fmt, music, last));
      CreditsNames(CreditedNames(script, music, last), Summaries(fmt, last.albums), Durations(last.albums),
                   CreditKey(script, last), n);
      ArtistsSnoc(artists, (a: ArtistRecord) => a.albums != [] && n in CreditedNames(script, music, a));
    }
  }

  /** Some element of `xs` satisfies `p` exactly when one of its front part does or its last one does. */
  lemma ArtistsSnoc(xs: seq<ArtistRecord>, p: ArtistRecord -> bool)
    requires xs != []
    ensures (exists a :: a in xs && p(a)) <==>
      (exists a :: a in xs[..|xs| - 1] && p(a)) || p(xs[|xs| - 1])
  {
    InitLastArtists(xs);
  }

  lemma InitLastArtists(xs: seq<ArtistRecord>)
    requires xs != []
    ensures xs == xs[..|xs| - 1] + [xs[|xs| - 1]]
  {
  }

  // ---------------------------------------------------------------- the export against them

  /** The names of the written entries. */
  function EntryNames(artists: seq<ArtistOut>): (r: seq<string>)
    ensures |r| == |artists| && forall k :: 0 <= k < |artists| ==> r[k] == artists[k].artistName
  {
    seq(|artists|, k requires 0 <= k < |artists| => artists[k].artistName)
  }

  /** The entries are written for the credited names, once each, in the order they were first credited;
      a name has an entry exactly when some artist with an album stands for it; the artist count is the
      number of entries. */
  lemma ExportNames(script: Script, fmt: Formats, music: seq<ArtistRecord>, n: string)
    ensures var out := Export(script, fmt, music);
      && EntryNames(out.artists) == Distinct(Names(AllCredits(script, fmt, music, music)))
      && out.totalArtists == |out.artists|
      && (n in EntryNames(out.artists) <==>
          exists a :: a in music && a.albums != [] && n in CreditedNames(script, music, a))
  {
    var cs := AllCredits(script, fmt, music, music);
    TallyNames(cs);
    AllCreditsNames(script, fmt, music, music, n);
  }

  /** Each entry holds exactly the albums credited to its name, in order, with their years; its album count
      is the number of those credits (at least one) and its tracks and size are their sums. Its key, in
      plex_sync.py, is the first truthy key a credit offered; otherwise, and in the other scripts, the key
      of the first input artist with that title. */
  lemma ExportEntry(script: Script, fmt: Formats, music: seq<ArtistRecord>, k: nat)
    requires k < |Export(script, fmt, music).artists|
    ensures var out := Export(script, fmt, music).artists[k];
      var credits := CreditsFor(AllCredits(script, fmt, music, music), out.artistName);
      && credits != [] && out.totalAlbums == |credits| >= 1
      && out.albums == seq(|credits|, j requires 0 <= j < |credits| => credits[j].album)
      && out.totalTracks == Sum(credits, CreditTracks)
      && out.totalSizeHuman == fmt.size(Sum(credits, CreditBytes))
      && out.yearRange == YearRange(TruthyYears(seq(|credits|, j requires 0 <= j < |credits| => credits[j].album.year)))
      && (script == PlexSync && TruthyKey(KeptKey(credits)) ==> out.ratingKey == KeptKey(credits))
      && (script != PlexSync || !TruthyKey(KeptKey(credits)) ==>
            out.ratingKey == (if FirstMatch(music, out.artistName).Some? then FirstMatch(music, out.artistName).value.ratingKey
                              else None))
  {
    var out := Export(script, fmt, music).artists[k];
    var credits := CreditsFor(AllCredits(script, fmt, music, music), out.artistName);
    ExportEntryAcc(script, fmt, music, k);
    EntryOfCredits(script, fmt, music, out.artistName, credits);
  }

  /** The entry at `k` is built from the reference entry of its name's credits, of which there is one at least. */
  lemma ExportEntryAcc(script: Script, fmt: Formats, music: seq<ArtistRecord>, k: nat)
    requires k < |Export(script, fmt, music).artists|
    ensures var out := Export(script, fmt, music).artists[k];
      var credits := CreditsFor(AllCredits(script, fmt, music, music), out.artistName);
      credits != [] && out == ArtistOutOf(script, fmt, music, out.artistName, AccOf(credits))
  {
    var cs := AllCredits(script, fmt, music, music);
    var t := AddAll(EmptyTally, cs);
    var n := ExportTallied(script, fmt, music, k);
    TallyEntry(cs, n);
    TallyNames(cs);
    CreditedName(cs, n);
  }

  /** The entry at `k` is built from the tally of its name. */
  lemma ExportTallied(script: Script, fmt: Formats, music: seq<ArtistRecord>, k: nat) returns (n: string)
    requires k < |Export(script, fmt, music).artists|
    ensures var t := AddAll(EmptyTally, AllCredits(script, fmt, music, music));
      k < |t.names| && n == t.names[k] && n in t.acc
      && Export(script, fmt, music).artists[k] == ArtistOutOf(script, fmt, music, n, t.acc[n])
  {
    var t := AddAll(EmptyTally, AllCredits(script, fmt, music, music));
    AddAllWellFormed(EmptyTally, AllCredits(script, fmt, music, music));
    n := t.names[k];
  }

  /** A credited name has a credit. */
  lemma CreditedName(cs: seq<Credit>, n: string)
    requires n in Names(cs)
    ensures CreditsFor(cs, n) != []
  {
    var j :| 0 <= j < |cs| && Names(cs)[j] == n;
    assert cs[j] in CreditsFor(cs, n);
  }

  /** The entry built from a name's credits. */
  lemma EntryOfCredits(script: Script, fmt: Formats, music: seq<ArtistRecord>, n: string, credits: seq<Credit>)
    ensures var out := ArtistOutOf(script, fmt, music, n, AccOf(credits));
      && out.artistName == n && out.totalAlbums == |credits|
      && out.albums == seq(|credits|, j requires 0 <= j < |credits| => credits[j].album)
      && out.totalTracks == Sum(credits, CreditTracks)
      && out.totalSizeHuman == fmt.size(Sum(credits, CreditBytes))
      && out.yearRange == YearRange(TruthyYears(seq(|credits|, j requires 0 <= j < |credits| => credits[j].album.year)))
      && (script == PlexSync && TruthyKey(KeptKey(credits)) ==> out.ratingKey == KeptKey(credits))
      && (script != PlexSync || !TruthyKey(KeptKey(credits)) ==>
            out.ratingKey == (if FirstMatch(music, n).Some? then FirstMatch(music, n).value.ratingKey else None))
  {
  }

  // ---------------------------------------------------------------- durations

  /** The duration an artist adds to the library total: its albums' duration once per name credited. */
  function CreditedDuration(script: Script, music: seq<ArtistRecord>, a: ArtistRecord): nat {
    |CreditedNames(script, music, a)| * Sum(a.albums, AlbumDuration)
  }

  function Millis(d: nat): nat { d }

  /** One album credited to each name adds its duration once per name. */
  lemma {:induction false} AlbumCreditsDuration(names: seq<string>, album: AlbumData, duration: nat, key: Option<string>)
    ensures Sum(AlbumCredits(names, album, duration, key), CreditDuration) == |names| * duration
    decreases |names|
  {
    if names != [] {
      var k := |names| - 1;
      AlbumCreditsDuration(names[..k], album, duration, key);
      assert AlbumCredits(names, album, duration, key)
        == AlbumCredits(names[..k], album, duration, key) + [Credit(names[k], album, duration, key)];
      SumSnoc(AlbumCredits(names[..k], album, duration, key), Credit(names[k], album, duration, key), CreditDuration);
      assert |names| * duration == |names[..k]| * duration + duration;
    }
  }

  /** Album entries credited to each name add their durations once per name. */
  lemma {:induction false} CreditsDuration(names: seq<string>, entries: seq<AlbumData>, durations: seq<nat>,
                                           key: Option<string>)
    requires |entries| == |durations|
    ensures Sum(Credits(names, entries, durations, key), CreditDuration) == |names| * Sum(durations, Millis)
    decreases |entries|
  {
    if entries != [] {
      var k := |entries| - 1;
      var init, last := Credits(names, entries[..k], durations[..k], key), AlbumCredits(names, entries[k], durations[k], key);
      CreditsDuration(names, entries[..k], durations[..k], key);
      AlbumCreditsDuration(names, entries[k], durations[k], key);
      SumAppend(init, last, CreditDuration);
      assert Credits(names, entries, durations, key) == init + last;
      var before := Sum(durations[..k], Millis);
      assert Sum(durations, Millis) == before + durations[k];
      Distribute(Sum(init + last, CreditDuration), Sum(init, CreditDuration), Sum(last, CreditDuration),
                 |names|, before, durations[k]);
    }
  }

  lemma Distribute(total: nat, a: nat, b: nat, n: nat, x: nat, y: nat)
    requires total == a + b && a == n * x && b == n * y
    ensures total == n * (x + y)
  {
  }

  /** The durations listed for the albums add up to the albums' durations. */
  lemma {:induction false} DurationsSum(albums: seq<AlbumRecord>)
    ensures Sum(Durations(albums), Millis) == Sum(albums, AlbumDuration)
    decreases |albums|
  {
    if albums != [] {
      var k := |albums| - 1;
      DurationsSum(albums[..k]);
      SumSnoc(Durations(albums[..k]), AlbumDuration(albums[k]), Millis);
    }
  }

  /** The library duration counts every album once per name credited with it, so a collaborative album
      credited to two names counts twice, while the album, track and size totals count it once. */
  lemma {:induction false} TotalDuration(script: Script, fmt: Formats, music: seq<ArtistRecord>,
                                         artists: seq<ArtistRecord>)
    ensures Sum(AllCredits(script, fmt, music, artists), CreditDuration)
      == Sum(artists, (a: ArtistRecord) => CreditedDuration(script, music, a))
    decreases |artists|
  {
    if artists != [] {
      var init, last := artists[..|artists| - 1], artists[|artists| - 1];
      TotalDuration(script, fmt, music, init);
      SumAppend(AllCredits(script, fmt, music, init), ArtistCredits(script, fmt, music, last), CreditDuration);
      CreditsDuration(CreditedNames(script, music, last), Summaries(fmt, last.albums), Durations(last.albums),
                      CreditKey(script, last));
      DurationsSum(last.albums);
    }
  }

  /** What the metadata reports: albums, tracks and size once per album of every input artist, duration once
      per credit. */
  lemma ExportTotals(script: Script, fmt: Formats, music: seq<ArtistRecord>)
    ensures var out := Export(script, fmt, music);
      && out.totalAlbums == Sum(music, ArtistAlbums) && out.totalTracks == Sum(music, ArtistTracks)
      && out.totalSizeHuman == fmt.size(Sum(music, ArtistBytes))
      && out.totalDurationHuman == fmt.duration(Sum(music, (a: ArtistRecord) => CreditedDuration(script, music, a)))
  {
    TotalDuration(script, fmt, music, music);
  }
}
