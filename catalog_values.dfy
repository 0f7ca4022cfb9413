/** The catalogue value helpers of the pages (src/js/utils.js and `formatResolution` in src/js/tvshows.js):
    sizes such as "1.50 GB" read back as megabytes, year ranges such as "1998-2004" read and displayed,
    and resolution badges. A JSON field that is absent or null is `None`. */
module CatalogValues {
  import opened Wrappers
  import opened Text
  import opened Decimal

  // ---------------------------------------------------------------- sizes

  /** The number in megabytes that `parseSize` makes of a value and its unit: gigabytes count 1024,
      terabytes 1024 * 1024; any other unit, or none, leaves the number as it is. */
  function Scaled(value: real, unit: Option<string>): (r: real)
    ensures unit == Some("GB") ==> r == 1024.0 * value
    ensures unit == Some("TB") ==> r == 1024.0 * 1024.0 * value
    ensures unit != Some("GB") && unit != Some("TB") ==> r == value
  {
    if unit == Some("GB") then value * 1024.0
    else if unit == Some("TB") then value * 1024.0 * 1024.0
    else value
  }

  /** `parseSize(sizeHuman)`: the number before the first space, `NaN` read as 0, scaled by the unit after
      it; a missing or empty size is 0. */
  function ParseSize(sizeHuman: Option<string>): (r: real)
    ensures sizeHuman.None? || sizeHuman == Some("") ==> r == 0.0
  {
    if sizeHuman.None? || sizeHuman.value == "" then 0.0
    else
      var parts := Split(sizeHuman.value, ' ');
      var unit := if |parts| > 1 then Some(parts[1]) else None;
      Scaled(ParseFloatOrZero(parts[0]), unit)
  }

  /** `parseSize` of a numeral, a space and a unit: the numeral's value (0 when it is not a number), scaled
      by the unit. */
  lemma ParseSizeParts(numeral: string, unit: string)
    requires ' ' !in numeral && ' ' !in unit
    ensures ParseSize(Some(numeral + [' '] + unit)) == Scaled(ParseFloatOrZero(numeral), Some(unit))
  {
    SplitAtFirst(numeral, ' ', unit);
    assert Split(unit, ' ') == [unit];
  }

  /** A size without a unit is the bare number. */
  lemma ParseSizeBare(numeral: string)
    requires numeral != [] && ' ' !in numeral
    ensures ParseSize(Some(numeral)) == ParseFloatOrZero(numeral)
  {
    assert Split(numeral, ' ') == [numeral];
  }

  /** A size without a unit is the bare number; with a unit, TB is 1024 times GB, which is 1024 times MB;
      a numeral that does not start with a number counts 0 whatever the unit. */
  lemma ParseSizeUnits(numeral: string)
    requires numeral != [] && ' ' !in numeral
    ensures ParseSize(Some(numeral)) == ParseSize(Some(numeral + " MB")) == ParseFloatOrZero(numeral)
    ensures ParseSize(Some(numeral + " GB")) == 1024.0 * ParseSize(Some(numeral + " MB"))
    ensures ParseSize(Some(numeral + " TB")) == 1024.0 * ParseSize(Some(numeral + " GB"))
    ensures ParseFloat(numeral).None? ==> ParseSize(Some(numeral + " TB")) == 0.0
  {
    ParseSizeBare(numeral);
    UnitWord(numeral, " MB", "MB");
    UnitWord(numeral, " GB", "GB");
    UnitWord(numeral, " TB", "TB");
  }

  /** A numeral followed by a space and a one-word unit. */
  lemma UnitWord(numeral: string, suffix: string, unit: string)
    requires ' ' !in numeral && ' ' !in unit && suffix == [' '] + unit
    ensures ParseSize(Some(numeral + suffix)) == Scaled(ParseFloatOrZero(numeral), Some(unit))
  {
    ParseSizeParts(numeral, unit);
    assert numeral + [' '] + unit == numeral + suffix;
  }

  /** Only the first space-separated word after the numeral is the unit: whatever follows a second space is
      ignored. */
  lemma ParseSizeSuffix(numeral: string, unit: string, rest: string)
    requires ' ' !in numeral && ' ' !in unit
    ensures ParseSize(Some(numeral + " " + unit + " " + rest)) == Scaled(ParseFloatOrZero(numeral), Some(unit))
  {
    var parts := Split(numeral + " " + unit + " " + rest, ' ');
    TwoWords(numeral, unit, rest);
    assert |parts| > 1 && parts[0] == numeral && parts[1] == unit;
  }

  /** Splitting on spaces finds the numeral, then the unit. */
  lemma TwoWords(numeral: string, unit: string, rest: string)
    requires ' ' !in numeral && ' ' !in unit
    ensures var parts := Split(numeral + " " + unit + " " + rest, ' ');
      |parts| > 1 && parts[0] == numeral && parts[1] == unit
  {
    var tail := unit + [' '] + rest;
    assert numeral + " " + unit + " " + rest == numeral + [' '] + tail;
    SplitAtFirst(numeral, ' ', tail);
    SplitAtFirst(unit, ' ', rest);
  }

  /** A size written as a two-decimal number, a space and a unit reads back as that number scaled by the unit. */
  lemma ParseSizeOfWritten(h: nat, unit: string)
    requires ' ' !in unit
    ensures ParseSize(Some(FormatFixed2(h) + " " + unit)) == Scaled(h as real / 100.0, Some(unit))
  {
    var text := FormatFixed2(h);
    assert ' ' !in text by {
      assert forall k :: 0 <= k < |text| ==> IsDigit(text[k]) || text[k] == '.';
    }
    assert text + " " + unit == text + [' '] + unit;
    SplitAtFirst(text, ' ', unit);
    assert Split(unit, ' ') == [unit];
    ParseFormatFixed2(h, []);
    assert text + [] == text;
  }

  lemma ParseSizeGigabytes()
    ensures ParseSize(Some("1.50 GB")) == 1536.0
  {
    assert NatToDigits(1) == "1";
    assert DigitChar(5) == '5' && DigitChar(0) == '0';
    assert FormatFixed2(150) == "1.50";
    assert FormatFixed2(150) + " " + "GB" == "1.50 GB";
    ParseSizeOfWritten(150, "GB");
  }

  lemma ParseSizeTerabytes()
    ensures ParseSize(Some("2.00 TB")) == 2097152.0
  {
    assert NatToDigits(2) == "2";
    assert DigitChar(0) == '0';
    assert FormatFixed2(200) == "2.00";
    assert FormatFixed2(200) + " " + "TB" == "2.00 TB";
    ParseSizeOfWritten(200, "TB");
  }

  // ---------------------------------------------------------------- year ranges

  /** Four ASCII digits start at position `i` of `s` (the pattern `\d{4}`). */
  predicate FourDigitsAt(s: string, i: int) {
    0 <= i && i + 4 <= |s| && AllDigits(s[i..i + 4])
  }

  /** The leftmost match of `\d{4}` at or after `from`. */
  function FirstFourDigits(s: string, from: nat): (r: Option<nat>)
    ensures r.Some? ==> from <= r.value && FourDigitsAt(s, r.value)
    ensures r.Some? ==> forall j :: from <= j < r.value ==> !FourDigitsAt(s, j)
    ensures r.None? ==> forall j :: from <= j ==> !FourDigitsAt(s, j)
    decreases |s| - from
  {
    if from + 4 > |s| then None
    else if FourDigitsAt(s, from) then Some(from)
    else FirstFourDigits(s, from + 1)
  }

  /** `parseYearRange(yearRange)`: the value of the first four digits in the text, 0 when there are none or
      the range is missing. */
  function ParseYearRange(yearRange: Option<string>): (r: nat)
    ensures r <= 9999
    ensures yearRange.None? || FirstFourDigits(yearRange.value, 0).None? ==> r == 0
    ensures yearRange.Some? && FirstFourDigits(yearRange.value, 0).Some? ==>
      var i := FirstFourDigits(yearRange.value, 0).value;
      r == DigitsValue(yearRange.value[i..i + 4])
  {
    if yearRange.None? || yearRange.value == "" then 0
    else
      match FirstFourDigits(yearRange.value, 0)
      case None => 0
      case Some(i) => FourDigitValue(yearRange.value[i..i + 4])
  }

  /** A year range reads as its first year. */
  lemma ParseYearRangeExample()
    ensures ParseYearRange(Some("1998-2004")) == 1998
  {
    assert FourDigitsAt("1998-2004", 0);
    assert "1998-2004"[0..4] == "1998";
    assert "1998"[..3] == "199" && "199"[..2] == "19" && "19"[..1] == "1" && "1"[..0] == "";
    assert DigitsValue("1998") == 1998;
  }

  function FourDigitValue(ds: string): (v: nat)
    requires |ds| == 4 && AllDigits(ds)
    ensures v <= 9999
  {
    DigitsValueBound(ds);
    DigitsValue(ds)
  }

  /** The pattern `(\d{4})-(\d{4})` matches at position `i`. */
  predicate RangeAt(s: string, i: int) {
    FourDigitsAt(s, i) && i + 9 <= |s| && s[i + 4] == '-' && FourDigitsAt(s, i + 5)
  }

  /** The leftmost match of `(\d{4})-(\d{4})` at or after `from`. */
  function FirstRange(s: string, from: nat): (r: Option<nat>)
    ensures r.Some? ==> from <= r.value && RangeAt(s, r.value)
    ensures r.Some? ==> forall j :: from <= j < r.value ==> !RangeAt(s, j)
    ensures r.None? ==> forall j :: from <= j ==> !RangeAt(s, j)
    decreases |s| - from
  {
    if from + 9 > |s| then None
    else if RangeAt(s, from) then Some(from)
    else FirstRange(s, from + 1)
  }

  /** The first `dddd-dddd` in `s` has two equal halves. */
  predicate CollapsesAt(s: string) {
    match FirstRange(s, 0)
    case None => false
    case Some(i) => s[i..i + 4] == s[i + 5..i + 9]
  }

  /** `formatYearRange(yearRange)`: when the first `dddd-dddd` in the text has equal halves, that one year;
      otherwise the text unchanged; a missing range becomes the empty string. */
  function FormatYearRange(yearRange: Option<string>): (r: string)
    ensures yearRange.None? ==> r == ""
    ensures yearRange.Some? ==> |r| <= |yearRange.value|
    ensures yearRange.Some? && r != yearRange.value ==> |r| == 4 && AllDigits(r)
    ensures yearRange.Some? && CollapsesAt(yearRange.value) ==>
      var i := FirstRange(yearRange.value, 0).value;
      r == yearRange.value[i..i + 4]
    ensures yearRange.Some? && !CollapsesAt(yearRange.value) ==> r == yearRange.value
  {
    if yearRange.None? || yearRange.value == "" then ""
    else
      var s := yearRange.value;
      match FirstRange(s, 0)
      case Some(i) =>
        if s[i..i + 4] == s[i + 5..i + 9] then s[i..i + 4] else s
      case None => s
  }

  /** Displaying a displayed year range again changes nothing. */
  lemma FormatYearRangeIdempotent(yearRange: Option<string>)
    ensures FormatYearRange(Some(FormatYearRange(yearRange))) == FormatYearRange(yearRange)
  {
    var r := FormatYearRange(yearRange);
    if yearRange.Some? && r != yearRange.value {
      assert FirstRange(r, 0).None?;
    }
  }

  // ---------------------------------------------------------------- resolutions

  /** The letters that `/(\d+)([pi])/gi` accepts after the digits. */
  predicate IsScanSuffix(c: char) { c == 'p' || c == 'P' || c == 'i' || c == 'I' }

  /** A character changed by the replacement: a scan-type letter right after a digit, lowered. */
  function SuffixLowered(t: string, k: nat): char
    requires k < |t|
  {
    if k > 0 && IsDigit(t[k - 1]) && IsScanSuffix(t[k]) then LowerChar(t[k]) else t[k]
  }

  /** The global replacement `t.replace(/(\d+)([pi])/gi, num + letter.toLowerCase())`, scanning left to right:
      where a run of digits is followed by a scan-type letter the letter is lowered and scanning resumes after
      it; elsewhere one character is kept and scanning moves on by one. The result differs from `t` exactly in
      the scan-type letters that follow a digit. */
  function LowerScanSuffixes(t: string): (r: string)
    ensures |r| == |t|
    ensures forall k :: 0 <= k < |t| ==> r[k] == SuffixLowered(t, k)
    decreases |t|
  {
    if t == [] then []
    else
      var n := DigitRun(t);
      if 0 < n < |t| && IsScanSuffix(t[n]) then
        var rest := LowerScanSuffixes(t[n + 1..]);
        LoweredAfterRun(t, n, rest);
        t[..n] + [LowerChar(t[n])] + rest
      else
        var rest := LowerScanSuffixes(t[1..]);
        KeptFirst(t, n, rest);
        [t[0]] + rest
  }

  /** Lowering the letter after a run of digits, then the replacement of what follows it. */
  lemma LoweredAfterRun(t: string, n: nat, rest: string)
    requires 0 < n < |t| && AllDigits(t[..n]) && IsScanSuffix(t[n])
    requires |rest| == |t| - n - 1
    requires forall k :: 0 <= k < |rest| ==> rest[k] == SuffixLowered(t[n + 1..], k)
    ensures var r := t[..n] + [LowerChar(t[n])] + rest;
      |r| == |t| && forall k :: 0 <= k < |t| ==> r[k] == SuffixLowered(t, k)
  {
    var r := t[..n] + [LowerChar(t[n])] + rest;
    forall k | 0 <= k < |t| ensures r[k] == SuffixLowered(t, k) {
      if k < n {
        assert IsDigit(t[..n][k]);
      } else if k > n {
        assert r[k] == rest[k - n - 1];
      }
    }
  }

  /** Keeping the first character, then the replacement of the rest. */
  lemma KeptFirst(t: string, n: nat, rest: string)
    requires t != [] && n == DigitRun(t) && !(0 < n < |t| && IsScanSuffix(t[n]))
    requires |rest| == |t| - 1
    requires forall k :: 0 <= k < |rest| ==> rest[k] == SuffixLowered(t[1..], k)
    ensures var r := [t[0]] + rest;
      |r| == |t| && forall k :: 0 <= k < |t| ==> r[k] == SuffixLowered(t, k)
  {
    var r := [t[0]] + rest;
    forall k | 1 <= k < |t| ensures r[k] == SuffixLowered(t, k) {
      assert r[k] == rest[k - 1];
    }
  }

  /** `formatResolution(resolution)` on the pages: "sd" and "hd" in any case are upper-cased; otherwise the
      scan-type letter after a number is lower-cased, as in "1080P" to "1080p". Only letter case changes. */
  function FormatResolution(resolution: string): (r: string)
    ensures |r| == |resolution|
    ensures ToLower(r) == ToLower(resolution)
    ensures ToLower(resolution) == "sd" ==> r == "SD"
    ensures ToLower(resolution) == "hd" ==> r == "HD"
    ensures ToLower(resolution) != "sd" && ToLower(resolution) != "hd" ==>
      forall k :: 0 <= k < |r| ==> r[k] == SuffixLowered(resolution, k)
  {
    var lower := ToLower(resolution);
    if lower == "sd" || lower == "hd" then
      LowerOfUpper(resolution);
      var r := ToUpper(resolution);
      assert r == "SD" || r == "HD" by {
        assert forall k :: 0 <= k < 2 ==> UpperChar(resolution[k]) == UpperChar(lower[k]);
      }
      r
    else
      var r := LowerScanSuffixes(resolution);
      assert forall k :: 0 <= k < |r| ==> LowerChar(r[k]) == LowerChar(resolution[k]);
      r
  }

  /** A resolution already in lower case, other than "sd" and "hd", is displayed as it is. */
  lemma FormatResolutionOfLower(resolution: string)
    requires ToLower(resolution) == resolution
    requires resolution != "sd" && resolution != "hd"
    ensures FormatResolution(resolution) == resolution
  {
    var r := LowerScanSuffixes(resolution);
    forall k | 0 <= k < |resolution| ensures r[k] == resolution[k] {
      assert LowerChar(resolution[k]) == resolution[k];
    }
  }

  /** Formatting a formatted resolution changes nothing. */
  lemma FormatResolutionIdempotent(resolution: string)
    ensures FormatResolution(FormatResolution(resolution)) == FormatResolution(resolution)
  {
    var r := FormatResolution(resolution);
    var lower := ToLower(resolution);
    if lower != "sd" && lower != "hd" {
      assert ToLower(r) == lower;
      var r2 := FormatResolution(r);
      forall k | 0 <= k < |r| ensures r2[k] == r[k] {
        SuffixStable(resolution, r, k);
      }
    }
  }

  /** A letter the replacement has seen is not changed by a second replacement. */
  lemma SuffixStable(t: string, r: string, k: nat)
    requires |r| == |t| && forall j :: 0 <= j < |t| ==> r[j] == SuffixLowered(t, j)
    requires k < |r|
    ensures SuffixLowered(r, k) == r[k]
  {
    if k > 0 && IsDigit(r[k - 1]) && IsScanSuffix(r[k]) {
      assert IsDigit(t[k - 1]);
      assert IsScanSuffix(t[k]);
    }
  }

  /** The badges of a show card: `avgVideoResolutions.split(',')`, each piece trimmed and formatted. */
  function ResolutionBadges(avgVideoResolutions: string): (badges: seq<string>)
    ensures |badges| == |Split(avgVideoResolutions, ',')|
    ensures forall k :: 0 <= k < |badges| ==>
      badges[k] == FormatResolution(Trim(Split(avgVideoResolutions, ',')[k]))
  {
    var pieces := Split(avgVideoResolutions, ',');
    seq(|pieces|, k requires 0 <= k < |pieces| => FormatResolution(Trim(pieces[k])))
  }
}
