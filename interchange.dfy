/** What the pages read back from what the exporters write: sizes, year ranges and resolution lists cross
    from the Python scripts to the JavaScript pages as text, and these lemmas say what survives the trip. */
module Interchange {
  import opened Wrappers
  import opened Text
  import opened Decimal
  import opened Sorting
  import opened CatalogValues
  import opened ExportFormat

  // ---------------------------------------------------------------- sizes

  /** The number `parseSize` reads from an exported size: the rounded value in the chosen unit, times 1024
      for GB and 1024 * 1024 for TB. */
  lemma ReadExportedSize(scale: SizeScale, bytes: nat)
    ensures ParseSize(Some(HumanReadableSize(scale, bytes)))
         == SizeRead(scale, bytes)
  {
    var unit := UnitFor(scale, bytes);
    var text := FormatFixed2(Hundredths(bytes, unit)) + " " + unit.Name();
    assert HumanReadableSize(scale, bytes) == text;
    ParseSizeOfWritten(Hundredths(bytes, unit), unit.Name());
  }

  /** The hundredths written for a byte count, bounded by the unit's thresholds. */
  lemma HundredthsBounds(scale: SizeScale, bytes: nat)
    ensures var unit := UnitFor(scale, bytes);
      && (unit == Megabytes ==> Hundredths(bytes, unit) <= 100_000)
      && (unit == Gigabytes && bytes >= GB ==> Hundredths(bytes, unit) >= 100)
      && (unit == Gigabytes && bytes < TB ==> Hundredths(bytes, unit) <= 100_000)
      && (unit == Terabytes ==> Hundredths(bytes, unit) >= 100)
  {
    var unit := UnitFor(scale, bytes);
    if unit == Megabytes {
      RoundMonotone(100 * bytes, 100 * GB, MB);
      RoundExact(100_000, MB);
    }
    if unit == Gigabytes && bytes >= GB {
      RoundMonotone(100 * GB, 100 * bytes, GB);
      RoundExact(100, GB);
    }
    if unit == Gigabytes && bytes < TB {
      RoundMonotone(100 * bytes, 100 * TB, GB);
      RoundExact(100_000, GB);
    }
    if unit == Terabytes {
      RoundMonotone(100 * TB, 100 * bytes, TB);
      RoundExact(100, TB);
    }
  }

  /** The value `parseSize` reads from an exported size, without the text in between. */
  function SizeRead(scale: SizeScale, bytes: nat): real {
    var unit := UnitFor(scale, bytes);
    Scaled(Hundredths(bytes, unit) as real / 100.0, Some(unit.Name()))
  }

  lemma SizeReadMonotone(scale: SizeScale, b1: nat, b2: nat)
    requires b1 <= b2
    ensures SizeRead(scale, b1) <= SizeRead(scale, b2)
  {
    HundredthsBounds(scale, b1);
    HundredthsBounds(scale, b2);
    var u1, u2 := UnitFor(scale, b1), UnitFor(scale, b2);
    if u1 == u2 {
      RoundMonotone(100 * b1, 100 * b2, u1.Divisor());
    }
  }

  /** Sorting by `parseSize` of exported sizes agrees with sorting by bytes, for every exporter's units:
      the size read back never decreases as the byte count grows, across unit changes too (at most 1000 MB
      against at least 1024 for 1.00 GB; at most 1,024,000 for 1000.00 GB against at least 1,048,576). */
  lemma ReadSizeMonotone(scale: SizeScale, b1: nat, b2: nat)
    requires b1 <= b2
    ensures ParseSize(Some(HumanReadableSize(scale, b1))) <= ParseSize(Some(HumanReadableSize(scale, b2)))
  {
    ReadExportedSize(scale, b1);
    ReadExportedSize(scale, b2);
    SizeReadMonotone(scale, b1, b2);
  }

  // ---------------------------------------------------------------- year ranges

  lemma FourDigitYearText(y: int)
    requires 1000 <= y <= 9999
    ensures |IntToString(y)| == 4 && AllDigits(IntToString(y))
    ensures DigitsValue(IntToString(y)) == y
  {
    NatToDigitsValue(y);
    var d := NatToDigits(y);
    assert d == NatToDigits(y / 10) + [DigitChar(y % 10)];
    assert NatToDigits(y / 10) == NatToDigits(y / 100) + [DigitChar(y / 10 % 10)];
    assert NatToDigits(y / 100) == NatToDigits(y / 1000) + [DigitChar(y / 100 % 10)];
  }

  /** `parseYearRange` of an exported "min-max" range of four-digit years reads the earliest year. */
  lemma ReadExportedYearRange(years: seq<int>)
    requires years != [] && forall y :: y in years ==> 1000 <= y <= 9999
    ensures ParseYearRange(YearRange(years)) == MinOf(years)
  {
    var lo, hi := IntToString(MinOf(years)), IntToString(MaxOf(years));
    FourDigitYearText(MinOf(years));
    FourDigitYearText(MaxOf(years));
    YearRangeText(lo, hi);
  }

  /** A range written as two four-digit numerals around a dash is matched at its start, by both patterns. */
  lemma YearRangeText(lo: string, hi: string)
    requires |lo| == 4 && |hi| == 4 && AllDigits(lo) && AllDigits(hi)
    ensures var s := lo + "-" + hi;
      s[0..4] == lo && s[5..9] == hi && FirstFourDigits(s, 0) == Some(0) && FirstRange(s, 0) == Some(0)
  {
    var s := lo + "-" + hi;
    assert s[0..4] == lo && s[5..9] == hi;
    assert RangeAt(s, 0);
  }

  /** `formatYearRange` of an exported range of four-digit years shows one year when all the years are
      equal and the whole range otherwise. */
  lemma DisplayExportedYearRange(years: seq<int>)
    requires years != [] && forall y :: y in years ==> 1000 <= y <= 9999
    ensures MinOf(years) == MaxOf(years) ==> FormatYearRange(YearRange(years)) == IntToString(MinOf(years))
    ensures MinOf(years) != MaxOf(years) ==> FormatYearRange(YearRange(years)) == YearRange(years).value
  {
    var lo, hi := IntToString(MinOf(years)), IntToString(MaxOf(years));
    FourDigitYearText(MinOf(years));
    FourDigitYearText(MaxOf(years));
    YearRangeText(lo, hi);
    if MinOf(years) != MaxOf(years) {
      assert lo != hi by {
        NatToDigitsValue(MinOf(years));
        NatToDigitsValue(MaxOf(years));
      }
    }
  }

  // ---------------------------------------------------------------- resolution lists

  /** Two lists of pieces that are the same once each piece is stripped. */
  predicate SameStripped(xs: seq<string>, ys: seq<string>) {
    |xs| == |ys| && forall k :: 0 <= k < |xs| ==> Trim(xs[k]) == Trim(ys[k])
  }

  lemma {:induction false} SplitCommaJoin(parts: seq<string>)
    requires parts != [] && forall k :: 0 <= k < |parts| ==> ',' !in parts[k]
    ensures SameStripped(Split(Join(parts, ", "), ','), parts)
    decreases |parts|
  {
    if |parts| == 1 {
      assert Join(parts, ", ") == parts[0];
    } else {
      var rest := parts[1..];
      SplitCommaJoin(rest);
      var tail := " " + Join(rest, ", ");
      JoinCommaCons(parts);
      SplitAtFirst(parts[0], ',', tail);
      SpaceThenSplit(Join(rest, ", "));
      SameStrippedCons(parts[0], Split(tail, ','), Split(Join(rest, ", "), ','), rest);
      HeadTail(parts);
    }
  }

  lemma HeadTail(parts: seq<string>)
    requires parts != []
    ensures parts == [parts[0]] + parts[1..]
  {
  }

  /** Joining with ", " puts the first part, a comma, and a space before the rest. */
  lemma JoinCommaCons(parts: seq<string>)
    requires |parts| > 1
    ensures Join(parts, ", ") == parts[0] + [','] + (" " + Join(parts[1..], ", "))
  {
  }

  /** Pieces that strip the same after a first piece that is shared. */
  lemma SameStrippedCons(first: string, later: seq<string>, pieces: seq<string>, rest: seq<string>)
    requires |later| == |pieces| && later != []
    requires Trim(later[0]) == Trim(pieces[0]) && later[1..] == pieces[1..]
    requires SameStripped(pieces, rest)
    ensures SameStripped([first] + later, [first] + rest)
  {
    var whole := [first] + later;
    forall k | 1 <= k < |whole| ensures Trim(whole[k]) == Trim(([first] + rest)[k]) {
      if k > 1 {
        assert later[k - 1] == later[1..][k - 2] == pieces[1..][k - 2];
      }
    }
  }

  /** A leading space only adds a space to the first piece, which stripping removes. */
  lemma SpaceThenSplit(s: string)
    ensures |Split(" " + s, ',')| == |Split(s, ',')|
    ensures Trim(Split(" " + s, ',')[0]) == Trim(Split(s, ',')[0])
    ensures Split(" " + s, ',')[1..] == Split(s, ',')[1..]
  {
    if ',' in s {
      var i := IndexOf(s, ',');
      var a, b := s[..i], s[i + 1..];
      SpacePrefixAtFirst(s, i);
      SplitAtFirst(" " + a, ',', b);
      SplitAtFirst(a, ',', b);
      TrimSpacePrefix(a);
    } else {
      SpacePrefixNoSep(s, ',');
      TrimSpacePrefix(s);
    }
  }

  /** Cutting `s` at its first comma, with a space in front of the first part. */
  lemma SpacePrefixAtFirst(s: string, i: nat)
    requires i < |s| && s[i] == ',' && ',' !in s[..i]
    ensures s == s[..i] + [','] + s[i + 1..]
    ensures " " + s == (" " + s[..i]) + [','] + s[i + 1..]
    ensures ',' !in " " + s[..i]
  {
    assert s == s[..i] + [','] + s[i + 1..];
  }

  /** A space holds no separator. */
  lemma SpacePrefixNoSep(s: string, sep: char)
    requires sep != ' ' && sep !in s
    ensures sep !in " " + s
  {
  }

  /** The badges a show card displays for an exported value list: each distinct resolution once, in sorted
      order, upper-cased when it is "sd" or "hd" and otherwise exactly as exported. */
  lemma BadgesOfExportedResolutions(resolutions: seq<Option<string>>)
    requires forall r :: Some(r) in resolutions ==> r != "" && ',' !in r && Trim(r) == r
    requires exists r :: Some(r) in resolutions
    ensures var distinct := SortedUnique(Present(resolutions));
      ResolutionBadges(AggregateUnique(resolutions))
        == seq(|distinct|, k requires 0 <= k < |distinct| => CatalogValues.FormatResolution(distinct[k]))
  {
    var distinct := SortedUnique(Present(resolutions));
    var r :| Some(r) in resolutions;
    assert r in Elements(Present(resolutions));
    assert distinct != [] by {
      assert r in Elements(distinct);
    }
    forall k | 0 <= k < |distinct| ensures ',' !in distinct[k] && Trim(distinct[k]) == distinct[k] {
      assert distinct[k] in Elements(distinct);
    }
    BadgesOfJoin(distinct);
  }

  /** The badges of stripped, comma-free values joined with ", " are those values, each formatted. */
  lemma BadgesOfJoin(values: seq<string>)
    requires values != []
    requires forall k :: 0 <= k < |values| ==> ',' !in values[k] && Trim(values[k]) == values[k]
    ensures ResolutionBadges(Join(values, ", "))
      == seq(|values|, k requires 0 <= k < |values| => CatalogValues.FormatResolution(values[k]))
  {
    SplitCommaJoin(values);
    var pieces := Split(Join(values, ", "), ',');
    var badges := ResolutionBadges(Join(values, ", "));
    forall k | 0 <= k < |values| ensures badges[k] == CatalogValues.FormatResolution(values[k]) {
      assert Trim(pieces[k]) == Trim(values[k]) == values[k];
    }
  }
}
