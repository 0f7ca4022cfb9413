/** The TV shows page (src/js/tvshows.js): the show records it reads, its sort keys (title, the show size
    read by `parseSize`, the first year of the show's year range), and the label of a season in the season
    view. Resolution badges are `CatalogValues.ResolutionBadges`. */
module TvShowsPage {
  import opened Wrappers
  import opened Text
  import opened Sorting
  import opened CatalogValues
  import opened CatalogView
  import Decimal

  /** A JSON `seasonNumber`: absent, `null`, a number or a string. */
  datatype SeasonNumber = Missing | Null | Num(n: int) | Text(s: string)

  datatype Season = Season(seasonNumber: SeasonNumber, seasonRatingKey: string, yearRange: Option<string>)

  /** The fields of a show record that the page sorts, searches and labels by. */
  datatype Show = Show(ratingKey: string, title: string, showYearRange: Option<string>,
                       showSizeHuman: Option<string>, avgVideoResolutions: string, seasons: seq<Season>)

  /** Title, `parseSize(showSizeHuman)` and `parseYearRange(showYearRange)`. */
  function ShowKeys(): Keys<Show> {
    Keys((s: Show) => s.title, (s: Show) => ParseSize(s.showSizeHuman),
         (s: Show) => ParseYearRange(s.showYearRange) as real)
  }

  /** The page as it starts: nothing cached, sorted by title ascending, lazy only without a search. */
  method NewTvShowsPage() returns (page: CatalogPage<Show>)
    ensures fresh(page)
    ensures page.keys == ShowKeys() && !page.alwaysLazy
    ensures page.all == [] && page.sort == InitialSort && page.grid == [] && page.observer == 0
    ensures page.Valid()
  {
    page := new CatalogPage(ShowKeys(), false);
  }

  /** Sorted by date, the first years of the shows' ranges never decrease (ascending) or never increase
      (descending); a show whose range has no year counts as year 0. */
  lemma ShowsByDate(all: seq<Show>, searchQuery: string, ascending: bool, collate: Comparator<string>)
    requires IsConsistent(collate)
    ensures var v := View(all, searchQuery, SortState(Date, ascending), collate, ShowKeys());
      && (ascending ==> forall i, j :: 0 <= i < j < |v| ==>
            ParseYearRange(v[i].showYearRange) <= ParseYearRange(v[j].showYearRange))
      && (!ascending ==> forall i, j :: 0 <= i < j < |v| ==>
            ParseYearRange(v[i].showYearRange) >= ParseYearRange(v[j].showYearRange))
  {
    ViewSorted(all, searchQuery, SortState(Date, ascending), collate, ShowKeys());
  }

  // ---------------------------------------------------------------- season labels

  /** `String(seasonNumber)`. */
  function JsString(n: SeasonNumber): string {
    match n
    case Missing => "undefined"
    case Null => "null"
    case Num(k) => IntToString(k)
    case Text(s) => s
  }

  /** Text that `Number()` converts to zero, once trimmed: a decimal literal with an optional sign whose
      digits are all zeros, with an optional exponent, or a binary, octal or hexadecimal literal of zeros. */
  predicate ZeroLiteral(t: string) {
    DecimalZero(Decimal.Unsigned(t)) || RadixZero(t)
  }

  /** "0x", "0o" or "0b" in either case, then one or more zeros. */
  predicate RadixZero(t: string) {
    |t| >= 3 && t[0] == '0' && t[1] in "xXoObB" && forall k :: 2 <= k < |t| ==> t[k] == '0'
  }

  /** Zeros with at most one point, then optionally an exponent. */
  predicate DecimalZero(b: string) {
    var m := ExponentStart(b);
    ZeroMantissa(b[..m]) && (m == |b| || Exponent(b[m + 1..]))
  }

  /** At least one zero, nothing but zeros and at most one point. */
  predicate ZeroMantissa(b: string) {
    '0' in b && multiset(b)['.'] <= 1 && forall k :: 0 <= k < |b| ==> b[k] == '0' || b[k] == '.'
  }

  /** The digits of an exponent, after an optional sign. */
  predicate Exponent(x: string) {
    var d := Decimal.Unsigned(x);
    d != [] && AllDigits(d)
  }

  /** The position of the first "e" or "E", or the length when there is none. */
  function ExponentStart(b: string): (m: nat)
    ensures m <= |b| && forall k :: 0 <= k < m ==> b[k] != 'e' && b[k] != 'E'
    ensures m < |b| ==> b[m] == 'e' || b[m] == 'E'
  {
    if b == [] || b[0] == 'e' || b[0] == 'E' then 0 else 1 + ExponentStart(b[1..])
  }

  /** `Number(seasonNumber) === 0`: `null`, the number 0, and a string that is blank or a zero literal. */
  predicate NumberIsZero(n: SeasonNumber) {
    match n
    case Missing => false
    case Null => true
    case Num(k) => k == 0
    case Text(s) => Trim(s) == "" || ZeroLiteral(Trim(s))
  }

  /** The season title: "Specials" when the number is the string "0" or converts to the number 0, otherwise
      "Season " and the number as text. */
  function SeasonLabel(n: SeasonNumber): (title: string)
    ensures n == Null || n == Num(0) || n == Text("0") ==> title == "Specials"
    ensures n.Num? && n.n != 0 ==> title == "Season " + IntToString(n.n)
    ensures n == Missing ==> title == "Season undefined"
    ensures title != "Specials" ==> |title| > 7 && title[..7] == "Season "
    ensures n.Text? && NumberIsZero(n) ==> title == "Specials"
    ensures n.Text? && n.s != "0" && !NumberIsZero(n) ==> title == "Season " + n.s
  {
    if JsString(n) == "0" || NumberIsZero(n) then "Specials"
    else
      assert n.Text? ==> n.s != [];
      "Season " + JsString(n)
  }

  /** For a numeric season number: "Specials" exactly for 0, and otherwise the label ends with the number,
      which reads back from it. */
  lemma SeasonLabelOfNumber(k: int)
    ensures SeasonLabel(Num(k)) == "Specials" <==> k == 0
    ensures k > 0 ==> AllDigits(SeasonLabel(Num(k))[7..]) && DigitsValue(SeasonLabel(Num(k))[7..]) == k
  {
    var title := SeasonLabel(Num(k));
    if k != 0 {
      assert title[1] == 'e';
    }
    if k > 0 {
      assert title[7..] == NatToDigits(k);
      NatToDigitsValue(k);
    }
  }

  /** Blank text converts to 0, so an empty season number is shown as specials. */
  lemma SeasonLabelOfBlank()
    ensures SeasonLabel(Text("")) == "Specials"
    ensures SeasonLabel(Text(" ")) == "Specials"
  {
    assert Trim(" ") == Trim("");
  }

  /** A zero literal other than "0" is specials too. */
  lemma SeasonLabelOfZeros()
    ensures SeasonLabel(Text("00")) == "Specials"
  {
    assert Trim("00") == "00";
    assert Decimal.Unsigned("00") == "00";
    assert ExponentStart("00") == 2;
    assert multiset("00")['.'] == 0;
  }

  /** The exponent, signed and radix spellings of zero are specials as well. */
  lemma SeasonLabelOfZeroForms()
    ensures SeasonLabel(Text("0e0")) == "Specials"
    ensures SeasonLabel(Text("0x0")) == "Specials"
    ensures SeasonLabel(Text("-0")) == "Specials"
  {
    ExponentZero();
    RadixZeroText();
    SignedZero();
  }

  /** "0e0" is a zero mantissa with an exponent. */
  lemma ExponentZero()
    ensures NumberIsZero(Text("0e0"))
  {
    assert Trim("0e0") == "0e0";
    assert Decimal.Unsigned("0e0") == "0e0" && ExponentStart("0e0") == 1;
    assert "0e0"[..1] == "0" && "0e0"[2..] == "0" && multiset("0")['.'] == 0;
  }

  /** "0x0" is a hexadecimal zero. */
  lemma RadixZeroText()
    ensures NumberIsZero(Text("0x0"))
  {
    assert Trim("0x0") == "0x0";
    assert RadixZero("0x0");
  }

  /** "-0" is a signed zero. */
  lemma SignedZero()
    ensures NumberIsZero(Text("-0"))
  {
    assert Trim("-0") == "-0";
    assert Decimal.Unsigned("-0") == "0" && ExponentStart("0") == 1;
    assert multiset("0")['.'] == 0;
  }

  /** Other text is shown as it is. */
  lemma SeasonLabelOfDigitText()
    ensures SeasonLabel(Text("2")) == "Season 2"
  {
    assert Trim("2") == "2";
    assert Decimal.Unsigned("2") == "2";
    assert '0' !in "2";
  }
}
