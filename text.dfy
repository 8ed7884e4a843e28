/** The string rules the scraper relies on: the first run of decimal digits
    (`re.findall(r'\d+', s)[0]` followed by `int`), decimal rendering of
    integers (`str`), and the first and last pieces of `str.split(sep)`.
    A digit is an ASCII digit '0'..'9'. */
module Text {
  import opened Common

  predicate IsDigit(c: char) { '0' <= c <= '9' }

  predicate AllDigits(s: string) { forall k :: 0 <= k < |s| ==> IsDigit(s[k]) }

  predicate NoDigit(s: string) { forall k :: 0 <= k < |s| ==> !IsDigit(s[k]) }

  // ---------------------------------------------------------------------------
  // Digit runs

  /** The position of the first digit of s, or |s| when s has none. */
  function FirstDigitAt(s: string): (i: nat)
    ensures i <= |s|
    ensures forall k :: 0 <= k < i ==> !IsDigit(s[k])
    ensures i < |s| ==> IsDigit(s[i])
  {
    if |s| == 0 || IsDigit(s[0]) then 0 else 1 + FirstDigitAt(s[1..])
  }

  /** The end of the run of digits that starts at i. */
  function DigitRunEnd(s: string, i: nat): (j: nat)
    requires i <= |s|
    ensures i <= j <= |s|
    ensures forall k :: i <= k < j ==> IsDigit(s[k])
    ensures j < |s| ==> !IsDigit(s[j])
    decreases |s| - i
  {
    if i == |s| || !IsDigit(s[i]) then i else DigitRunEnd(s, i + 1)
  }

  /** The first maximal run of digits of s, as `re.findall(r'\d+', s)[0]`
      returns it; None where findall finds nothing and the index raises. */
  function FirstDigitRun(s: string): (r: Option<string>)
    ensures r.None? <==> NoDigit(s)
    ensures r.Some? ==> |r.value| > 0 && AllDigits(r.value)
  {
    var i := FirstDigitAt(s);
    if i == |s| then
      None
    else
      var j := DigitRunEnd(s, i);
      Some(s[i..j])
  }

  /** The first run is pinned down by where it sits: no digit before it,
      only digits in it, and no digit right after it. */
  lemma FirstDigitRunIs(s: string, i: nat, j: nat)
    requires i < j <= |s|
    requires forall k :: 0 <= k < i ==> !IsDigit(s[k])
    requires forall k :: i <= k < j ==> IsDigit(s[k])
    requires j == |s| || !IsDigit(s[j])
    ensures FirstDigitRun(s) == Some(s[i..j])
  {
    assert IsDigit(s[i]);
    var i' := FirstDigitAt(s);
    assert i' == i;
    var j' := DigitRunEnd(s, i);
    assert j' == j;
  }

  // ---------------------------------------------------------------------------
  // Decimal numbers

  function DigitValue(c: char): nat
    requires IsDigit(c)
  {
    c as int - '0' as int
  }

  function DigitChar(d: nat): (c: char)
    requires d < 10
    ensures IsDigit(c) && DigitValue(c) == d
  {
    ('0' as int + d) as char
  }

  /** The integer a string of digits denotes, as Python's `int` reads it
      (leading zeros allowed). `int("")` raises; the empty string is given 0
      here, and only non-empty digit runs are ever read. */
  function DecimalValue(d: string): nat
    requires AllDigits(d)
  {
    if |d| == 0 then 0
    else DecimalValue(d[..|d| - 1]) * 10 + DigitValue(d[|d| - 1])
  }

  /** The decimal rendering of a natural number, as Python's `str` writes it. */
  function NatToDecimal(n: nat): (r: string)
    ensures |r| > 0 && AllDigits(r)
    ensures r[0] == '0' ==> n == 0
  {
    if n < 10 then [DigitChar(n)] else NatToDecimal(n / 10) + [DigitChar(n % 10)]
  }

  /** The decimal rendering of an integer, with a leading '-' when negative. */
  function IntToDecimal(i: int): (r: string)
    ensures |r| > 0
    ensures r[0] == '-' <==> i < 0
    ensures forall k :: 0 < k < |r| ==> IsDigit(r[k])
  {
    if i < 0 then "-" + NatToDecimal(-i) else NatToDecimal(i)
  }

  /** Reading back what `str` wrote gives the number again. */
  lemma {:induction false} DecimalRoundTrip(n: nat)
    ensures DecimalValue(NatToDecimal(n)) == n
    decreases n
  {
    if n >= 10 {
      DecimalRoundTrip(n / 10);
      var r := NatToDecimal(n);
      assert r[..|r| - 1] == NatToDecimal(n / 10);
    }
  }

  /** The longest decimal string Python's `int` converts: from version 3.11
      on, a longer one raises ValueError, leading zeros counted. This is the
      interpreter's default limit. */
  const INT_MAX_STR_DIGITS: nat := 4300

  /** Why `int(re.findall(r'\d+', s)[0])` raises: findall found nothing, so
      the index raises IndexError, or the first run is too long for `int`,
      which raises ValueError. */
  datatype IntError = NoDigits | TooManyDigits(count: nat)

  /** `int(re.findall(r'\d+', s)[0])`: the value of the first digit run, or
      the error the expression raises. */
  function FirstInt(s: string): (r: Result<nat, IntError>)
    ensures r == Failure(NoDigits) <==> NoDigit(s)
    ensures r.Success? <==> FirstDigitRun(s).Some? && |FirstDigitRun(s).value| <= INT_MAX_STR_DIGITS
    ensures r.Failure? && r.error.TooManyDigits? ==>
              FirstDigitRun(s).Some? && r.error.count == |FirstDigitRun(s).value| > INT_MAX_STR_DIGITS
  {
    match FirstDigitRun(s)
    case None => Failure(NoDigits)
    case Some(d) =>
      if |d| > INT_MAX_STR_DIGITS then Failure(TooManyDigits(|d|)) else Success(DecimalValue(d))
  }

  /** A label such as "128 projects" yields 128. */
  lemma FirstIntOfLabel()
    ensures FirstInt("128 projects") == Success(128)
  {
    var s := "128 projects";
    FirstDigitRunIs(s, 0, 3);
    assert s[0..3] == "128";
    assert DecimalValue("1") == 1 by { assert "1"[..0] == ""; }
    assert DecimalValue("12") == 12 by { assert "12"[..1] == "1"; }
    assert DecimalValue("128") == 128 by { assert "128"[..2] == "12"; }
  }

  /** A run one digit past the limit raises ValueError, where the same digits
      one shorter are read. */
  lemma FirstIntLimit()
    ensures FirstInt(seq(INT_MAX_STR_DIGITS + 1, _ => '1')) == Failure(TooManyDigits(INT_MAX_STR_DIGITS + 1))
    ensures FirstInt(seq(INT_MAX_STR_DIGITS, _ => '1')).Success?
  {
    var long := seq(INT_MAX_STR_DIGITS + 1, _ => '1');
    FirstDigitRunIs(long, 0, |long|);
    assert long[0..|long|] == long;
    var short := seq(INT_MAX_STR_DIGITS, _ => '1');
    FirstDigitRunIs(short, 0, |short|);
    assert short[0..|short|] == short;
  }

  // ---------------------------------------------------------------------------
  // Splitting

  predicate OccursAt(s: string, pat: string, i: nat)
  {
    i + |pat| <= |s| && s[i..i + |pat|] == pat
  }

  /** The first position at or after i where pat occurs, or |s| when none does. */
  function FindFrom(s: string, pat: string, i: nat): (j: nat)
    requires i <= |s|
    ensures i <= j <= |s|
    ensures j < |s| ==> OccursAt(s, pat, j)
    ensures forall k :: i <= k < j ==> !OccursAt(s, pat, k)
    decreases |s| - i
  {
    if i == |s| || OccursAt(s, pat, i) then i else FindFrom(s, pat, i + 1)
  }

  /** `s.split(sep)[0]`: the part of s before the first occurrence of sep,
      or s itself when sep does not occur. Python refuses an empty sep. */
  function SplitFirst(s: string, sep: string): (r: string)
    requires |sep| > 0
    ensures |r| <= |s| && r == s[..|r|]
    ensures |r| == |s| || OccursAt(s, sep, |r|)
    ensures forall k :: 0 <= k < |r| ==> !OccursAt(s, sep, k)
  {
    s[..FindFrom(s, sep, 0)]
  }

  /** When sep occurs at i and nowhere before, the first piece of the split
      is exactly what precedes i. */
  lemma SplitFirstAt(s: string, sep: string, i: nat)
    requires |sep| > 0 && OccursAt(s, sep, i)
    requires forall k :: 0 <= k < i ==> !OccursAt(s, sep, k)
    ensures SplitFirst(s, sep) == s[..i]
  {
    var j := FindFrom(s, sep, 0);
    assert j == i;
  }

  /** Where the piece of `s.split(sep)` that begins at `from` ends up
      starting the final piece: split scans s from the left, and every
      occurrence of sep it meets closes one piece and opens the next. */
  function LastPieceStart(s: string, sep: string, from: nat): (j: nat)
    requires |sep| > 0 && from <= |s|
    ensures from <= j <= |s|
    ensures forall k :: j <= k ==> !OccursAt(s, sep, k)
    ensures j == from || (from + |sep| <= j && OccursAt(s, sep, j - |sep|))
    decreases |s| - from
  {
    var i := FindFrom(s, sep, from);
    if i == |s| then from else LastPieceStart(s, sep, i + |sep|)
  }

  /** `s.split(sep)[-1]`: the last piece of the split. */
  function SplitLast(s: string, sep: string): (r: string)
    requires |sep| > 0
    ensures |r| <= |s| && r == s[|s| - |r|..]
  {
    s[LastPieceStart(s, sep, 0)..]
  }

  /** Where sep does not occur at all, the split has one piece, s itself. */
  lemma SplitLastWhole(s: string, sep: string)
    requires |sep| > 0
    requires forall k :: !OccursAt(s, sep, k)
    ensures SplitLast(s, sep) == s
  {
    assert LastPieceStart(s, sep, 0) == 0;
  }

  /** When sep occurs at i, no later occurrence exists and no earlier one
      overlaps it, the last piece of the split is exactly what follows i. */
  lemma SplitLastAt(s: string, sep: string, i: nat)
    requires |sep| > 0 && OccursAt(s, sep, i)
    requires forall k: nat :: i < k ==> !OccursAt(s, sep, k)
    requires forall k: nat :: i - |sep| < k < i ==> !OccursAt(s, sep, k)
    ensures SplitLast(s, sep) == s[i + |sep|..]
  {
    var j := LastPieceStart(s, sep, 0);
    assert i < j;
    assert j - |sep| == i;
  }
}
