/** The formatting helpers that every exporter script repeats (scripts/datagen/export.py, plex_sync.py,
    export_music.py, export_movies.py, music.py, show.py, movie.py): sizes with a unit, resolutions, codecs,
    durations, collaborator names, comma-separated value lists and rating keys taken from image names. */
module ExportFormat {
  import opened Wrappers
  import opened Text
  import opened Decimal
  import opened Sorting

  // ---------------------------------------------------------------- sizes

  const MB: nat := 1_000_000
  const GB: nat := 1_000_000_000
  const TB: nat := 1_000_000_000_000

  /** Which units a script's `human_readable_size` knows: export.py, plex_sync.py, export_music.py and
      export_movies.py use TB, GB and MB; music.py only GB and MB; show.py and movie.py only TB and GB. */
  datatype SizeScale = TbGbMb | GbMb | TbGb

  /** A size unit: its divisor in bytes and its name. */
  datatype Unit = Megabytes | Gigabytes | Terabytes {
    function Divisor(): (d: nat)
      ensures d > 0
    {
      match this
      case Megabytes => MB
      case Gigabytes => GB
      case Terabytes => TB
    }

    function Name(): (n: string)
      ensures |n| == 2 && ' ' !in n
    {
      match this
      case Megabytes => "MB"
      case Gigabytes => "GB"
      case Terabytes => "TB"
    }
  }

  /** The unit `human_readable_size` chooses for a byte count: the largest the script knows whose
      threshold the count reaches (10^12 bytes for TB, 10^9 for GB), else the smallest it knows. */
  function UnitFor(scale: SizeScale, bytes: nat): (u: Unit)
    ensures u == Terabytes <==> scale != GbMb && bytes >= TB
    ensures u == Megabytes <==> scale != TbGb && bytes < GB
  {
    match scale
    case TbGbMb => if bytes >= TB then Terabytes else if bytes >= GB then Gigabytes else Megabytes
    case GbMb => if bytes >= GB then Gigabytes else Megabytes
    case TbGb => if bytes >= TB then Terabytes else Gigabytes
  }

  /** `bytes / unit` rounded to hundredths, half to even. */
  function Hundredths(bytes: nat, unit: Unit): nat {
    RoundHalfEven(100 * bytes, unit.Divisor())
  }

  /** The hundredths are within half a hundredth of `bytes / unit`, and even on a tie. */
  lemma HundredthsNearest(bytes: nat, unit: Unit)
    ensures var h, d := Hundredths(bytes, unit), unit.Divisor();
      && 2 * (h * d - 100 * bytes) <= d && 2 * (100 * bytes - h * d) <= d
      && (2 * (100 * bytes % d) == d ==> h % 2 == 0)
  {
    RoundNearest(100 * bytes, unit.Divisor());
  }

  /** `human_readable_size(total_bytes)`: `f"{total_bytes / unit:.2f} {name}"`. */
  function HumanReadableSize(scale: SizeScale, bytes: nat): (r: string)
    ensures |r| >= 7 && r[|r| - 3..] == " " + UnitFor(scale, bytes).Name()
    ensures ParseFloat(r) == Some(Hundredths(bytes, UnitFor(scale, bytes)) as real / 100.0)
  {
    var unit := UnitFor(scale, bytes);
    var h := Hundredths(bytes, unit);
    FixedWithUnit(h, unit.Name());
    FormatFixed2(h) + " " + unit.Name()
  }

  /** A `.2f` number followed by a space and a two-letter unit ends with the unit and reads back as the
      number. */
  lemma FixedWithUnit(h: nat, name: string)
    requires |name| == 2 && ' ' !in name
    ensures var r := FormatFixed2(h) + " " + name;
      |r| >= 7 && r[|r| - 3..] == " " + name && ParseFloat(r) == Some(h as real / 100.0)
  {
    ParseFormatFixed2(h, " " + name);
    assert FormatFixed2(h) + " " + name == FormatFixed2(h) + (" " + name);
  }

  // ---------------------------------------------------------------- resolutions and codecs

  /** Python's `str.isdigit()` on ASCII text: non-empty and only digits. */
  predicate IsDigitString(s: string) { s != [] && AllDigits(s) }

  /** `format_resolution(resolution)`: lower-cased, "4k" becomes "2160p", a bare number gains a "p". */
  function FormatResolution(resolution: Option<string>): (r: Option<string>)
    ensures r.None? <==> resolution.None?
    ensures r.Some? ==> ToLower(r.value) == r.value
    ensures resolution.Some? && ToLower(resolution.value) == "4k" ==> r == Some("2160p")
    ensures resolution.Some? && IsDigitString(resolution.value) ==> r == Some(resolution.value + "p")
    ensures resolution.Some? && ToLower(resolution.value) != "4k" && !IsDigitString(ToLower(resolution.value)) ==>
      r == Some(ToLower(resolution.value))
  {
    match resolution
    case None => None
    case Some(res) =>
      var lower := ToLower(res);
      LowerOfLower(res);
      if lower == "4k" then
        assert ToLower("2160p") == "2160p" by {
          assert forall k :: 0 <= k < 5 ==> LowerChar("2160p"[k]) == "2160p"[k];
        }
        assert !IsDigitString(res) by {
          assert LowerChar(res[1]) == 'k';
        }
        Some("2160p")
      else if IsDigitString(lower) then
        assert ToLower(lower + "p") == lower + "p" by {
          assert forall k :: 0 <= k < |lower| ==> (lower + "p")[k] == lower[k];
        }
        assert IsDigitString(res) ==> lower == res;
        Some(lower + "p")
      else Some(lower)
  }

  /** Formatting a formatted resolution changes nothing. */
  lemma FormatResolutionIdempotent(resolution: Option<string>)
    ensures FormatResolution(FormatResolution(resolution)) == FormatResolution(resolution)
  {
    if resolution.Some? {
      var lower := ToLower(resolution.value);
      var r := FormatResolution(resolution).value;
      assert ToLower(r) == r;
      assert (r != [] && r[|r| - 1] == 'p') || (r == lower && lower != "4k" && !IsDigitString(lower));
      assert !IsDigitString(r);
      assert r != "4k";
    }
  }

  /** `format_codec(codec)`: upper-cased. */
  function FormatCodec(codec: Option<string>): (r: Option<string>)
    ensures r.None? <==> codec.None?
    ensures r.Some? ==> |r.value| == |codec.value| && ToUpper(r.value) == r.value
    ensures r.Some? ==> ToLower(r.value) == ToLower(codec.value)
  {
    match codec
    case None => None
    case Some(c) =>
      assert ToUpper(ToUpper(c)) == ToUpper(c);
      LowerOfUpper(c);
      Some(ToUpper(c))
  }

  // ---------------------------------------------------------------- durations

  /** The divmod decomposition of `total_milliseconds // 1000` into hours, minutes and seconds. */
  datatype Clock = Clock(hours: nat, minutes: nat, seconds: nat)

  function ClockOf(totalMilliseconds: nat): (c: Clock)
    ensures c.minutes < 60 && c.seconds < 60
    ensures c.hours * 3600 + c.minutes * 60 + c.seconds == totalMilliseconds / 1000
  {
    var totalSeconds := totalMilliseconds / 1000;
    var (minutes, seconds) := (totalSeconds / 60, totalSeconds % 60);
    Clock(minutes / 60, minutes % 60, seconds)
  }

  /** `human_readable_duration(total_milliseconds)` of export.py, export_music.py and music.py. */
  function HumanReadableDuration(totalMilliseconds: nat): (r: string)
    ensures |r| > 5
    ensures totalMilliseconds / 1000 >= 60 ==> r[|r| - 5..] == " mins" || r[|r| - 5..] == " secs"
    ensures totalMilliseconds / 1000 >= 600 ==> r[|r| - 5..] == " mins"
    ensures totalMilliseconds / 1000 < 60 ==> r[|r| - 5..] == " secs"
  {
    var c := ClockOf(totalMilliseconds);
    if c.hours > 0 then IntToString(c.hours) + " hrs " + IntToString(c.minutes) + " mins"
    else if c.minutes >= 10 then IntToString(c.minutes) + " mins"
    else if c.minutes > 0 then IntToString(c.minutes) + " mins " + IntToString(c.seconds) + " secs"
    else IntToString(c.seconds) + " secs"
  }

  /** The four shapes of the text, chosen by how long the duration is. */
  lemma DurationShapes(totalMilliseconds: nat)
    ensures var seconds := totalMilliseconds / 1000;
      var text := HumanReadableDuration(totalMilliseconds);
      && (seconds >= 3600 ==>
            text == IntToString(seconds / 60 / 60) + " hrs " + IntToString(seconds / 60 % 60) + " mins")
      && (600 <= seconds < 3600 ==> text == IntToString(seconds / 60) + " mins")
      && (60 <= seconds < 600 ==>
            text == IntToString(seconds / 60) + " mins " + IntToString(seconds % 60) + " secs")
      && (seconds < 60 ==> text == IntToString(seconds) + " secs")
  {
  }

  /** The whole minutes that `human_readable_duration` of plex_sync.py shows: `round(seconds / 60)`, ties to
      even, but at least 1 when there is any second. */
  function RoundedMinutes(totalMilliseconds: nat): (m: nat)
    ensures m == 0 <==> totalMilliseconds / 1000 == 0
    ensures totalMilliseconds / 1000 > 30 ==>
      2 * (m * 60 - totalMilliseconds / 1000) <= 60 && 2 * (totalMilliseconds / 1000 - m * 60) <= 60
    ensures 0 < totalMilliseconds / 1000 <= 30 ==> m == 1
    ensures totalMilliseconds / 1000 > 30 && totalMilliseconds / 1000 % 60 == 30 ==> m % 2 == 0
  {
    var totalSeconds := totalMilliseconds / 1000;
    var m := RoundHalfEven(totalSeconds, 60);
    RoundNearest(totalSeconds, 60);
    if m == 0 && totalSeconds > 0 then 1 else m
  }

  /** `human_readable_duration(total_milliseconds)` of plex_sync.py: "N min" for exactly one minute,
      "N mins" otherwise. */
  function RoundedDuration(totalMilliseconds: nat): (r: string)
    ensures RoundedMinutes(totalMilliseconds) == 1 ==> r == "1 min"
  {
    var m := RoundedMinutes(totalMilliseconds);
    IntToString(m) + " min" + (if m != 1 then "s" else "")
  }

  // ---------------------------------------------------------------- year ranges

  /** The smallest and the largest of a non-empty list of years. */
  function MinOf(ys: seq<int>): (m: int)
    requires ys != []
    ensures m in ys && forall y :: y in ys ==> m <= y
  {
    if |ys| == 1 then ys[0]
    else
      var rest := MinOf(ys[1..]);
      assert forall y :: y in ys ==> y == ys[0] || y in ys[1..];
      if ys[0] <= rest then ys[0] else rest
  }

  function MaxOf(ys: seq<int>): (m: int)
    requires ys != []
    ensures m in ys && forall y :: y in ys ==> y <= m
  {
    if |ys| == 1 then ys[0]
    else
      var rest := MaxOf(ys[1..]);
      assert forall y :: y in ys ==> y == ys[0] || y in ys[1..];
      if ys[0] >= rest then ys[0] else rest
  }

  /** `f"{min(years)}-{max(years)}" if years else None`. */
  function YearRange(years: seq<int>): (r: Option<string>)
    ensures r.None? <==> years == []
  {
    if years == [] then None
    else Some(IntToString(MinOf(years)) + "-" + IntToString(MaxOf(years)))
  }

  /** `[year for year in years if year]`: the years that are present and not 0. */
  function TruthyYears(years: seq<Option<int>>): (r: seq<int>)
    ensures forall y :: y in r <==> Some(y) in years && y != 0
  {
    if years == [] then []
    else (if years[0].Some? && years[0].value != 0 then [years[0].value] else []) + TruthyYears(years[1..])
  }

  /** `[year for year in years if year is not None]`: the years that are present, 0 included. */
  function PresentYears(years: seq<Option<int>>): (r: seq<int>)
    ensures forall y :: y in r <==> Some(y) in years
  {
    if years == [] then []
    else (if years[0].Some? then [years[0].value] else []) + PresentYears(years[1..])
  }

  // ---------------------------------------------------------------- collaborators

  /** `split_collaborative_artists(artist_name)`: the names between the ';' separators, stripped. */
  function SplitCollaborators(artistName: string): (names: seq<string>)
    ensures |names| == |Split(artistName, ';')| == multiset(artistName)[';'] + 1
    ensures forall k :: 0 <= k < |names| ==> ';' !in names[k]
    ensures forall k :: 0 <= k < |names| ==> names[k] == Strip(Split(artistName, ';')[k])
  {
    var pieces := Split(artistName, ';');
    SplitPieces(artistName, ';');
    var names := seq(|pieces|, k requires 0 <= k < |pieces| => Strip(pieces[k]));
    forall k | 0 <= k < |names|
      ensures ';' !in names[k]
    {
      StrippedWithin(pieces[k], names[k], IsPySpace);
    }
    names
  }

  // ---------------------------------------------------------------- value lists

  /** The values that are present (not `None`), in order. */
  function Present(values: seq<Option<string>>): (r: seq<string>)
    ensures forall v :: v in r <==> Some(v) in values
  {
    if values == [] then []
    else
      (if values[0].Some? then [values[0].value] else []) + Present(values[1..])
  }

  /** `aggregate_unique(values)`: the distinct present values, sorted, joined with ", ". */
  function AggregateUnique(values: seq<Option<string>>): (r: string)
    ensures exists vs :: StrictlySorted(vs) && (forall v :: v in vs <==> Some(v) in values) && r == Join(vs, ", ")
  {
    var vs := SortedUnique(Present(values));
    assert forall v :: v in vs <==> v in Elements(vs);
    Join(vs, ", ")
  }

  /** `", ".join(sorted(set([v for v in values if v])))` in plex_sync.py: as `aggregate_unique`, but the empty
      string is dropped as well. */
  function AggregateTruthy(values: seq<Option<string>>): (r: string)
    ensures exists vs :: StrictlySorted(vs) && (forall v :: v in vs <==> Some(v) in values && v != "")
                         && r == Join(vs, ", ")
  {
    var vs := SortedUnique(Truthy(Present(values)));
    assert forall v :: v in vs <==> v in Elements(vs);
    Join(vs, ", ")
  }

  function Truthy(values: seq<string>): (r: seq<string>)
    ensures forall v :: v in r <==> v in values && v != ""
  {
    if values == [] then []
    else (if values[0] != "" then [values[0]] else []) + Truthy(values[1..])
  }

  /** `aggregate_unique` depends only on which values occur: not on their order, not on repetitions. */
  lemma AggregateUniqueBySet(u: seq<Option<string>>, v: seq<Option<string>>)
    requires forall x :: Some(x) in u <==> Some(x) in v
    ensures AggregateUnique(u) == AggregateUnique(v)
  {
    assert Elements(Present(u)) == Elements(Present(v));
    SortedUniqueBySet(Present(u), Present(v));
  }

  /** The truthy variant, too, depends only on which values occur. */
  lemma AggregateTruthyBySet(u: seq<Option<string>>, v: seq<Option<string>>)
    requires forall x :: Some(x) in u <==> Some(x) in v
    ensures AggregateTruthy(u) == AggregateTruthy(v)
  {
    assert Elements(Truthy(Present(u))) == Elements(Truthy(Present(v)));
    SortedUniqueBySet(Truthy(Present(u)), Truthy(Present(v)));
  }

  /** The truthy variant agrees with `aggregate_unique` when no value is the empty string. */
  lemma AggregateTruthyWithoutEmpty(values: seq<Option<string>>)
    requires Some("") !in values
    ensures AggregateTruthy(values) == AggregateUnique(values)
  {
    assert Elements(Truthy(Present(values))) == Elements(Present(values));
    SortedUniqueBySet(Truthy(Present(values)), Present(values));
  }

  /** The value list of a concatenation is that of the union: a show's list over all its seasons' values. */
  lemma AggregateUniqueOfConcat(u: seq<Option<string>>, v: seq<Option<string>>, w: seq<Option<string>>)
    requires forall x :: Some(x) in w <==> Some(x) in u || Some(x) in v
    ensures AggregateUnique(u + v) == AggregateUnique(w)
  {
    AggregateUniqueBySet(u + v, w);
  }

  // ---------------------------------------------------------------- rating keys of image files

  /** `file.split("[")[-1].split("]")[0]`: the text after the last '[' up to the next ']'. */
  function RatingKeyOfFileName(file: string): (key: string)
    ensures '[' !in key && ']' !in key
  {
    var afterBracket := Split(file, '[');
    SplitPieces(file, '[');
    var last := afterBracket[|afterBracket| - 1];
    var closed := Split(last, ']');
    SplitPieces(last, ']');
    assert closed[0] in Split(last, ']');
    assert multiset(closed[0]) <= multiset(last) by {
      JoinSplit(last, ']');
      SplitFirstPiece(last, ']');
    }
    assert multiset(last)['['] == 0;
    closed[0]
  }

  lemma SplitFirstPiece(s: string, sep: char)
    ensures multiset(Split(s, sep)[0]) <= multiset(s)
  {
    if sep in s {
      var i := IndexOf(s, sep);
      assert s == s[..i] + s[i..];
    }
  }

  /** An image named `prefix[key]suffix`, where neither key nor suffix holds a '[' and the key no ']',
      yields `key`. */
  lemma RatingKeyOfTaggedName(prefix: string, key: string, suffix: string)
    requires '[' !in key && ']' !in key && '[' !in suffix
    ensures RatingKeyOfFileName(prefix + "[" + key + "]" + suffix) == key
  {
    var file := prefix + "[" + key + "]" + suffix;
    var tail := key + [']'] + suffix;
    assert file == prefix + ['['] + tail;
    assert '[' !in tail by {
      assert forall k :: 0 <= k < |tail| ==> tail[k] in key || tail[k] == ']' || tail[k] in suffix;
    }
    LastPiece(prefix, '[', tail);
    var p := Split(file, '[');
    assert p[|p| - 1] == tail;
    SplitAtFirst(key, ']', suffix);
    assert Split(tail, ']')[0] == key;
  }

  /** When `t` has no separator, the last piece of `s + [sep] + t` is `t`. */
  lemma {:induction false} LastPiece(s: string, sep: char, t: string)
    requires sep !in t
    ensures var p := Split(s + [sep] + t, sep); p[|p| - 1] == t
    decreases |s|
  {
    if sep !in s {
      LastPieceOfTwo(s, sep, t);
    } else {
      var j := IndexOf(s, sep);
      LastPiece(s[j + 1..], sep, t);
      LastPieceStep(s, sep, t, j);
    }
  }

  /** Without a separator in `s` there are two pieces, `s` and `t`. */
  lemma LastPieceOfTwo(s: string, sep: char, t: string)
    requires sep !in s && sep !in t
    ensures var p := Split(s + [sep] + t, sep); p[|p| - 1] == t
  {
    SplitAtFirst(s, sep, t);
    assert Split(t, sep) == [t];
  }

  /** The last piece after the first separator of `s` is the last piece of the whole. */
  lemma LastPieceStep(s: string, sep: char, t: string, j: nat)
    requires j < |s| && s[j] == sep && sep !in s[..j]
    requires var p := Split(s[j + 1..] + [sep] + t, sep); p[|p| - 1] == t
    ensures var p := Split(s + [sep] + t, sep); p[|p| - 1] == t
  {
    var rest := s[j + 1..] + [sep] + t;
    CutAtFirst(s, sep, t, j);
    SplitAtFirst(s[..j], sep, rest);
    LastOfCons(s[..j], Split(rest, sep));
  }

  /** Cutting `s + [sep] + t` at the first separator of `s`. */
  lemma CutAtFirst(s: string, sep: char, t: string, j: nat)
    requires j < |s| && s[j] == sep
    ensures s + [sep] + t == s[..j] + [sep] + (s[j + 1..] + [sep] + t)
  {
    assert s == s[..j] + [sep] + s[j + 1..];
  }

  lemma LastOfCons(x: string, q: seq<string>)
    requires q != []
    ensures var p := [x] + q; p[|p| - 1] == q[|q| - 1]
  {
  }
}
