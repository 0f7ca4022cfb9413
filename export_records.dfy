/** What the exporter scripts read and share: which script runs (it fixes the units of sizes and the style
    of durations), the media and part records of a catalogue export, and sums and unions over them. A field
    read with a default (`.get("size", 0)`, `.get("parts", [])`) is a plain value holding that default when
    the key is absent; a field read without one is an `Option`. */
module ExportRecords {
  import opened Wrappers
  import opened ExportFormat
  import opened Text

  /** The exporter scripts. */
  datatype Script = ExportPy | PlexSync | ExportMusicPy | ExportMoviesPy | MusicPy | ShowPy | MoviePy {

    /** The units the script's `human_readable_size` knows. */
    function Scale(): (s: SizeScale)
      ensures s == GbMb <==> this == MusicPy
      ensures s == TbGb <==> this == ShowPy || this == MoviePy
    {
      match this
      case MusicPy => GbMb
      case ShowPy => TbGb
      case MoviePy => TbGb
      case _ => TbGbMb
    }

    /** The script's `human_readable_size`. */
    function Size(bytes: nat): string {
      HumanReadableSize(Scale(), bytes)
    }

    /** The script's `human_readable_duration`: rounded minutes in plex_sync.py, hours, minutes and seconds
        elsewhere. */
    function Duration(totalMilliseconds: nat): string {
      if this == PlexSync then RoundedDuration(totalMilliseconds) else HumanReadableDuration(totalMilliseconds)
    }
  }

  /** A script's two formatters as values: `human_readable_size` and `human_readable_duration`. The roll-ups
      are stated for any pair, so that what they prove about sums and credits does not depend on the text
      a formatter produces. */
  datatype Formats = Formats(size: nat -> string, duration: nat -> string)

  /** The formatters of a script. */
  function FormatsOf(script: Script): (f: Formats)
    ensures forall bytes: nat :: f.size(bytes) == script.Size(bytes)
    ensures forall ms: nat :: f.duration(ms) == script.Duration(ms)
    ensures f.duration(60_000) == "1 min" <==> script == PlexSync
  {
    DurationShapes(60_000);
    assert IntToString(1) == "1";
    Formats((bytes: nat) => script.Size(bytes), (ms: nat) => script.Duration(ms))
  }

  /** A media part: its size in bytes, its container and its preformatted size. */
  datatype Part = Part(size: nat, container: Option<string>, sizeHuman: Option<string>)

  /** A media version of an item: its container, duration in milliseconds, codecs, resolution and parts.
      `parts` is `None` when the key is absent. */
  datatype Media = Media(container: Option<string>, duration: nat, audioCodec: Option<string>,
                         videoCodec: Option<string>, videoResolution: Option<string>,
                         parts: Option<seq<Part>>)

  /** `xs[0]` of a field read as `record["key"][0]`: `None` when the key is absent or the list is empty. */
  function First<T>(xs: Option<seq<T>>): (r: Option<T>)
    ensures r.Some? <==> xs.Some? && xs.value != []
    ensures r.Some? ==> r.value == xs.value[0]
  {
    if xs.Some? && xs.value != [] then Some(xs.value[0]) else None
  }

  // ---------------------------------------------------------------- sums and unions

  /** `sum(f(x) for x in xs)`, taken from the back so that a loop's next step extends it. */
  function Sum<T>(xs: seq<T>, f: T -> nat): nat {
    if xs == [] then 0 else Sum(xs[..|xs| - 1], f) + f(xs[|xs| - 1])
  }

  /** One more element adds its value. */
  lemma SumStep<T>(xs: seq<T>, i: nat, f: T -> nat)
    requires i < |xs|
    ensures Sum(xs[..i + 1], f) == Sum(xs[..i], f) + f(xs[i])
  {
    assert xs[..i + 1][..i] == xs[..i];
  }

  lemma SumSnoc<T>(xs: seq<T>, x: T, f: T -> nat)
    ensures Sum(xs + [x], f) == Sum(xs, f) + f(x)
  {
    assert (xs + [x])[..|xs|] == xs;
  }

  lemma {:induction false} SumAppend<T>(xs: seq<T>, ys: seq<T>, f: T -> nat)
    ensures Sum(xs + ys, f) == Sum(xs, f) + Sum(ys, f)
    decreases |ys|
  {
    if ys == [] {
      assert xs + ys == xs;
    } else {
      assert (xs + ys)[..|xs + ys| - 1] == xs + ys[..|ys| - 1];
      SumAppend(xs, ys[..|ys| - 1], f);
    }
  }

  /** The union of `f(x)` over the elements, taken from the back. */
  function Union<T, U>(xs: seq<T>, f: T -> set<U>): set<U> {
    if xs == [] then {} else Union(xs[..|xs| - 1], f) + f(xs[|xs| - 1])
  }

  lemma UnionStep<T, U>(xs: seq<T>, i: nat, f: T -> set<U>)
    requires i < |xs|
    ensures Union(xs[..i + 1], f) == Union(xs[..i], f) + f(xs[i])
  {
    assert xs[..i + 1][..i] == xs[..i];
  }

  /** An element is in the union exactly when some `f(x)` holds it. */
  lemma {:induction false} UnionMembers<T, U>(xs: seq<T>, f: T -> set<U>, u: U)
    ensures u in Union(xs, f) <==> exists k :: 0 <= k < |xs| && u in f(xs[k])
    decreases |xs|
  {
    if xs != [] {
      var init := xs[..|xs| - 1];
      UnionMembers(init, f, u);
      if u in Union(xs, f) && u !in f(xs[|xs| - 1]) {
        var k :| 0 <= k < |init| && u in f(init[k]);
        assert xs[k] == init[k];
      }
      if exists k :: 0 <= k < |xs| && u in f(xs[k]) {
        var k :| 0 <= k < |xs| && u in f(xs[k]);
        if k < |init| {
          assert init[k] == xs[k];
        }
      }
    }
  }

  /** `len([x for x in xs if p(x)])`. */
  function Count<T>(xs: seq<T>, p: T -> bool): (n: nat)
    ensures n <= |xs|
  {
    if xs == [] then 0 else Count(xs[..|xs| - 1], p) + (if p(xs[|xs| - 1]) then 1 else 0)
  }

  lemma CountStep<T>(xs: seq<T>, i: nat, p: T -> bool)
    requires i < |xs|
    ensures Count(xs[..i + 1], p) == Count(xs[..i], p) + (if p(xs[i]) then 1 else 0)
  {
    assert xs[..i + 1][..i] == xs[..i];
  }
}
