/** Character and string primitives shared by the page scripts and the exporters: ASCII case mapping,
    digits, white space, substring search, splitting on one character and joining, and decimal rendering of
    integers. Case mapping is ASCII only (see README, "Left out"). */
module Text {

  // ---------------------------------------------------------------- characters

  predicate IsDigit(c: char) { '0' <= c <= '9' }

  predicate IsAsciiUpper(c: char) { 'A' <= c <= 'Z' }

  predicate IsAsciiLower(c: char) { 'a' <= c <= 'z' }

  /** The white space Python's `str.strip()` removes: the characters for which `str.isspace()` holds. */
  predicate IsPySpace(c: char) {
    || c == ' ' || '\t' <= c <= '\r' || '\U{001C}' <= c <= '\U{001F}' || c == '\U{0085}' || c == '\U{00A0}'
    || c == '\U{1680}' || '\U{2000}' <= c <= '\U{200A}' || c == '\U{2028}' || c == '\U{2029}'
    || c == '\U{202F}' || c == '\U{205F}' || c == '\U{3000}'
  }

  /** The white space JavaScript's `trim()`, `Number()` and `parseFloat` skip: the WhiteSpace and
      LineTerminator characters of ECMAScript. */
  predicate IsJsSpace(c: char) {
    || c == ' ' || '\t' <= c <= '\r' || c == '\U{00A0}' || c == '\U{1680}' || '\U{2000}' <= c <= '\U{200A}'
    || c == '\U{2028}' || c == '\U{2029}' || c == '\U{202F}' || c == '\U{205F}' || c == '\U{3000}'
    || c == '\U{FEFF}'
  }

  function LowerChar(c: char): (r: char)
    ensures IsAsciiUpper(c) ==> IsAsciiLower(r)
    ensures !IsAsciiUpper(c) ==> r == c
    ensures !IsAsciiUpper(r)
  {
    if IsAsciiUpper(c) then (c as int + 32) as char else c
  }

  function UpperChar(c: char): (r: char)
    ensures IsAsciiLower(c) ==> IsAsciiUpper(r)
    ensures !IsAsciiLower(c) ==> r == c
    ensures !IsAsciiLower(r)
  {
    if IsAsciiLower(c) then (c as int - 32) as char else c
  }

  function ToLower(s: string): (r: string)
    ensures |r| == |s|
    ensures forall i :: 0 <= i < |s| ==> r[i] == LowerChar(s[i])
  {
    seq(|s|, i requires 0 <= i < |s| => LowerChar(s[i]))
  }

  function ToUpper(s: string): (r: string)
    ensures |r| == |s|
    ensures forall i :: 0 <= i < |s| ==> r[i] == UpperChar(s[i])
  {
    seq(|s|, i requires 0 <= i < |s| => UpperChar(s[i]))
  }

  lemma LowerOfLower(s: string)
    ensures ToLower(ToLower(s)) == ToLower(s)
  {
  }

  lemma LowerOfUpper(s: string)
    ensures ToLower(ToUpper(s)) == ToLower(s)
  {
    assert forall i :: 0 <= i < |s| ==> LowerChar(UpperChar(s[i])) == LowerChar(s[i]);
  }

  // ---------------------------------------------------------------- substrings

  /** `q` occurs in `s` starting at position `i`. */
  predicate OccursAt(s: string, q: string, i: int) {
    0 <= i <= |s| - |q| && s[i..i + |q|] == q
  }

  /** `s.includes(q)` in JavaScript, `q in s` in Python. */
  predicate Contains(s: string, q: string) {
    exists i | 0 <= i <= |s| - |q| :: OccursAt(s, q, i)
  }

  /** `r` is the slice `s[i..j]`, everything outside it is white space, and `r` neither starts nor ends with
      white space. */
  predicate StrippedAt(s: string, r: string, isSpace: char -> bool, i: int, j: int) {
    && 0 <= i <= j <= |s| && r == s[i..j]
    && (forall k :: 0 <= k < i ==> isSpace(s[k]))
    && (forall k :: j <= k < |s| ==> isSpace(s[k]))
    && (r != [] ==> !isSpace(r[0]) && !isSpace(r[|r| - 1]))
  }

  /** `r` is `s` without its leading and trailing white space. */
  predicate StrippedOf(s: string, r: string, isSpace: char -> bool) {
    exists i, j | 0 <= i <= j <= |s| :: StrippedAt(s, r, isSpace, i, j)
  }

  /** `s` with the leading and trailing characters that satisfy `isSpace` removed. */
  function StripWhere(s: string, isSpace: char -> bool): (r: string)
    ensures StrippedOf(s, r, isSpace)
    decreases |s|
  {
    if s == [] then
      assert StrippedAt(s, s, isSpace, 0, 0);
      s
    else if isSpace(s[0]) then
      var r := StripWhere(s[1..], isSpace);
      StrippedFront(s, r, isSpace);
      r
    else if isSpace(s[|s| - 1]) then
      var r := StripWhere(s[..|s| - 1], isSpace);
      StrippedBack(s, r, isSpace);
      r
    else
      assert StrippedAt(s, s, isSpace, 0, |s|);
      s
  }

  lemma StrippedFront(s: string, r: string, isSpace: char -> bool)
    requires s != [] && isSpace(s[0]) && StrippedOf(s[1..], r, isSpace)
    ensures StrippedOf(s, r, isSpace)
  {
    var i, j :| 0 <= i <= j <= |s| - 1 && StrippedAt(s[1..], r, isSpace, i, j);
    assert s[1..][i..j] == s[i + 1..j + 1];
    forall k | 0 <= k < i + 1 ensures isSpace(s[k]) {
      if k > 0 {
        assert s[k] == s[1..][k - 1];
      }
    }
    forall k | j + 1 <= k < |s| ensures isSpace(s[k]) {
      assert s[k] == s[1..][k - 1];
    }
    assert StrippedAt(s, r, isSpace, i + 1, j + 1);
  }

  lemma StrippedBack(s: string, r: string, isSpace: char -> bool)
    requires s != [] && isSpace(s[|s| - 1]) && StrippedOf(s[..|s| - 1], r, isSpace)
    ensures StrippedOf(s, r, isSpace)
  {
    var i, j :| 0 <= i <= j <= |s| - 1 && StrippedAt(s[..|s| - 1], r, isSpace, i, j);
    assert s[..|s| - 1][i..j] == s[i..j];
    assert StrippedAt(s, r, isSpace, i, j);
  }

  /** A stripped text holds only characters of the text. */
  lemma StrippedWithin(s: string, r: string, isSpace: char -> bool)
    requires StrippedOf(s, r, isSpace)
    ensures forall c :: c in r ==> c in s
  {
    var i, j :| 0 <= i <= j <= |s| && StrippedAt(s, r, isSpace, i, j);
    forall c | c in r
      ensures c in s
    {
      var k :| 0 <= k < |r| && r[k] == c;
      assert s[i + k] == c;
    }
  }

  /** Python's `str.strip()` with no argument. */
  function Strip(s: string): (r: string)
    ensures StrippedOf(s, r, IsPySpace)
  {
    StripWhere(s, IsPySpace)
  }

  /** JavaScript's `s.trim()`. */
  function Trim(s: string): (r: string)
    ensures StrippedOf(s, r, IsJsSpace)
  {
    StripWhere(s, IsJsSpace)
  }

  /** A leading space makes no difference once trimmed. */
  lemma TrimSpacePrefix(s: string)
    ensures Trim(" " + s) == Trim(s)
  {
    assert (" " + s)[1..] == s;
  }

  // ---------------------------------------------------------------- split and join

  /** The position of the first `c` in `s`. */
  function IndexOf(s: string, c: char): (i: nat)
    requires c in s
    ensures i < |s| && s[i] == c && c !in s[..i]
  {
    if s[0] == c then 0
    else
      var j := IndexOf(s[1..], c);
      assert s[..j + 1] == [s[0]] + s[1..][..j];
      j + 1
  }

  /** `s.split(sep)` for a one-character separator, in JavaScript and in Python alike: the pieces between
      occurrences of `sep`, including empty ones; the empty string gives one empty piece. */
  function Split(s: string, sep: char): (parts: seq<string>)
    ensures |parts| >= 1
    decreases |s|
  {
    if sep !in s then [s]
    else
      var i := IndexOf(s, sep);
      [s[..i]] + Split(s[i + 1..], sep)
  }

  /** `sep.join(parts)` in Python, `parts.join(sep)` in JavaScript. */
  function Join(parts: seq<string>, sep: string): string {
    if |parts| == 0 then ""
    else if |parts| == 1 then parts[0]
    else parts[0] + sep + Join(parts[1..], sep)
  }

  /** Joining one more part appends the separator and the part. */
  lemma {:induction false} JoinSnoc(parts: seq<string>, last: string, sep: string)
    requires parts != []
    ensures Join(parts + [last], sep) == Join(parts, sep) + sep + last
    decreases |parts|
  {
    var whole := parts + [last];
    assert whole[1..] == parts[1..] + [last];
    if |parts| > 1 {
      JoinSnoc(parts[1..], last, sep);
    } else {
      assert whole[1..] == [last];
    }
  }

  /** Splitting and joining back with the same separator gives the original string. */
  lemma {:induction false} JoinSplit(s: string, sep: char)
    ensures Join(Split(s, sep), [sep]) == s
    decreases |s|
  {
    if sep in s {
      var i := IndexOf(s, sep);
      var rest := Split(s[i + 1..], sep);
      JoinSplit(s[i + 1..], sep);
      assert Split(s, sep) == [s[..i]] + rest;
      assert ([s[..i]] + rest)[1..] == rest;
      assert s == s[..i] + [sep] + s[i + 1..];
    }
  }

  /** There is one piece more than there are separators, and no piece holds a separator. */
  lemma {:induction false} SplitPieces(s: string, sep: char)
    ensures |Split(s, sep)| == multiset(s)[sep] + 1
    ensures forall k :: 0 <= k < |Split(s, sep)| ==> sep !in Split(s, sep)[k]
    decreases |s|
  {
    if sep in s {
      var i := IndexOf(s, sep);
      var rest := Split(s[i + 1..], sep);
      SplitPieces(s[i + 1..], sep);
      assert s == s[..i] + [sep] + s[i + 1..];
      assert multiset(s) == multiset(s[..i]) + multiset([sep]) + multiset(s[i + 1..]);
      assert multiset(s[..i])[sep] == 0;
      var parts := Split(s, sep);
      assert parts == [s[..i]] + rest;
      forall k | 0 <= k < |parts| ensures sep !in parts[k] {
        if k > 0 {
          assert parts[k] == rest[k - 1];
        }
      }
    } else {
      assert multiset(s)[sep] == 0;
    }
  }

  /** When `s` has no separator, splitting `s + [sep] + t` gives `s` followed by the pieces of `t`. */
  lemma SplitAtFirst(s: string, sep: char, t: string)
    requires sep !in s
    ensures Split(s + [sep] + t, sep) == [s] + Split(t, sep)
  {
    var u := s + [sep] + t;
    var i := IndexOf(u, sep);
    assert forall k :: 0 <= k < |s| ==> u[k] == s[k] != sep;
    assert forall k :: 0 <= k < i ==> u[..i][k] == u[k] != sep;
    assert u[|s|] == sep;
    assert u[..i] == s;
    assert u[i + 1..] == t;
  }

  // ---------------------------------------------------------------- decimal digits

  predicate AllDigits(s: string) { forall i :: 0 <= i < |s| ==> IsDigit(s[i]) }

  function DigitValue(c: char): (d: nat)
    requires IsDigit(c)
    ensures d < 10
  {
    c as int - '0' as int
  }

  function DigitChar(d: nat): (c: char)
    requires d < 10
    ensures IsDigit(c) && DigitValue(c) == d
  {
    ('0' as int + d) as char
  }

  /** The value of a run of decimal digits (`parseInt` of it); the empty run is worth 0. */
  function DigitsValue(ds: string): nat
    requires AllDigits(ds)
  {
    if ds == [] then 0 else DigitsValue(ds[..|ds| - 1]) * 10 + DigitValue(ds[|ds| - 1])
  }

  /** The number of digits at the front of `s`. */
  function DigitRun(s: string): (n: nat)
    ensures n <= |s| && AllDigits(s[..n])
    ensures n < |s| ==> !IsDigit(s[n])
  {
    if s == [] || !IsDigit(s[0]) then 0
    else
      var n := 1 + DigitRun(s[1..]);
      assert s[..n] == [s[0]] + s[1..][..n - 1];
      n
  }

  lemma {:induction false} DigitRunOfDigitsThenOther(ds: string, rest: string)
    requires AllDigits(ds)
    requires rest == [] || !IsDigit(rest[0])
    ensures DigitRun(ds + rest) == |ds|
    decreases |ds|
  {
    if ds != [] {
      assert (ds + rest)[1..] == ds[1..] + rest;
      DigitRunOfDigitsThenOther(ds[1..], rest);
    } else {
      assert ds + rest == rest;
    }
  }

  /** The decimal rendering of a natural number, as Python's `str` and JavaScript's template strings give it. */
  function NatToDigits(n: nat): (r: string)
    ensures |r| >= 1 && AllDigits(r)
    ensures r[0] != '0' || n == 0
    decreases n
  {
    if n < 10 then [DigitChar(n)] else NatToDigits(n / 10) + [DigitChar(n % 10)]
  }

  /** Reading back a rendered number gives the number. */
  lemma {:induction false} NatToDigitsValue(n: nat)
    ensures DigitsValue(NatToDigits(n)) == n
    decreases n
  {
    if n >= 10 {
      var r := NatToDigits(n);
      NatToDigitsValue(n / 10);
      assert r[..|r| - 1] == NatToDigits(n / 10);
    }
  }

  /** The decimal rendering of an integer, with a leading minus sign when negative. */
  function IntToString(i: int): (r: string)
    ensures |r| >= 1
    ensures '-' !in r[1..] && ' ' !in r && ';' !in r
    ensures i >= 0 ==> AllDigits(r)
    ensures i < 0 ==> r[0] == '-'
  {
    var r := if i < 0 then "-" + NatToDigits(-i) else NatToDigits(i);
    assert i >= 0 ==> r == NatToDigits(i);
    assert forall k :: 1 <= k < |r| ==> IsDigit(r[k]);
    r
  }
}
