/** The Python string built-ins the feed normaliser uses: `str.strip()`,
    `int(str)` and the substring test `needle in hay`. */
module PyText {
  import opened Wrappers

  // ---------------------------------------------------------------- strip

  /** The whitespace `strip` removes: space, tab, line feed, carriage
      return, vertical tab and form feed. */
  predicate IsSpace(c: char) {
    c == ' ' || c == '\t' || c == '\n' || c == '\r' || c == '\U{000B}' || c == '\U{000C}'
  }

  predicate AllSpace(s: string) {
    forall k :: 0 <= k < |s| ==> IsSpace(s[k])
  }

  /** Neither the first nor the last character is whitespace. */
  predicate NoEdgeSpace(s: string) {
    s == [] || (!IsSpace(s[0]) && !IsSpace(s[|s| - 1]))
  }

  /** `r` is `s` with a whitespace-only prefix and suffix cut off, leaving
      no whitespace at either edge: the independent description of `strip`. */
  ghost predicate IsTrimOf(s: string, r: string) {
    NoEdgeSpace(r) && exists i, j :: TrimmedAt(s, r, i, j)
  }

  /** `r` is `s[i..j]` and only whitespace lies outside it. */
  predicate TrimmedAt(s: string, r: string, i: int, j: int) {
    0 <= i <= j <= |s| && s[i..j] == r && AllSpace(s[..i]) && AllSpace(s[j..])
  }

  /** `str.lstrip()`. */
  function TrimStart(s: string): (r: string)
    ensures |r| <= |s| && r == s[|s| - |r|..]
    ensures AllSpace(s[..|s| - |r|])
    ensures r == [] || !IsSpace(r[0])
  {
    if |s| > 0 && IsSpace(s[0]) then
      var r := TrimStart(s[1..]);
      assert s[..|s| - |r|] == [s[0]] + s[1..][..|s| - 1 - |r|];
      r
    else s
  }

  /** `str.rstrip()`. */
  function TrimEnd(s: string): (r: string)
    ensures |r| <= |s| && r == s[..|r|]
    ensures AllSpace(s[|r|..])
    ensures r == [] || !IsSpace(r[|r| - 1])
  {
    if |s| > 0 && IsSpace(s[|s| - 1]) then
      var r := TrimEnd(s[..|s| - 1]);
      assert s[|r|..] == s[..|s| - 1][|r|..] + [s[|s| - 1]];
      r
    else s
  }

  /** `str.strip()`. */
  function Strip(s: string): (r: string)
    ensures NoEdgeSpace(r)
    ensures |r| <= |s|
  {
    var t := TrimStart(s);
    var r := TrimEnd(t);
    assert r == [] || r[0] == t[0];
    r
  }

  /** Cutting a whitespace prefix and then a whitespace suffix is a trim at those positions. */
  lemma TrimSteps(s: string, t: string, r: string)
    requires |t| <= |s| && t == s[|s| - |t|..] && AllSpace(s[..|s| - |t|])
    requires |r| <= |t| && r == t[..|r|] && AllSpace(t[|r|..])
    ensures TrimmedAt(s, r, |s| - |t|, |s| - |t| + |r|)
  {
    var i := |s| - |t|;
    assert s[i..i + |r|] == r;
    assert s[i + |r|..] == t[|r|..];
  }

  /** Strip removes exactly a whitespace prefix and suffix. */
  lemma StripIsTrim(s: string)
    ensures IsTrimOf(s, Strip(s))
  {
    var t := TrimStart(s);
    var r := TrimEnd(t);
    TrimSteps(s, t, r);
    assert TrimmedAt(s, r, |s| - |t|, |s| - |t| + |r|);
  }

  /** There is only one way to trim a string, so IsTrimOf determines Strip. */
  lemma TrimIsUnique(s: string, a: string, b: string)
    requires IsTrimOf(s, a) && IsTrimOf(s, b)
    ensures a == b
  {
    var i1, j1 :| TrimmedAt(s, a, i1, j1);
    var i2, j2 :| TrimmedAt(s, b, i2, j2);
    if AllSpace(s) {
      AllSpaceTrimIsEmpty(s, a, i1, j1);
      AllSpaceTrimIsEmpty(s, b, i2, j2);
    } else {
      EmptyTrimMeansAllSpace(s, i1, j1);
      EmptyTrimMeansAllSpace(s, i2, j2);
      TrimBounds(s, a, i1, j1);
      TrimBounds(s, b, i2, j2);
      assert i1 == i2 && j1 == j2;
    }
  }

  /** Every trim of an all-whitespace string is empty. */
  lemma AllSpaceTrimIsEmpty(s: string, r: string, i: nat, j: nat)
    requires i <= j <= |s| && s[i..j] == r && NoEdgeSpace(r) && AllSpace(s)
    ensures r == []
  {
    assert forall k :: 0 <= k < |r| ==> r[k] == s[i + k];
  }

  /** A non-empty trim starts at the first and ends after the last non-space character. */
  lemma TrimBounds(s: string, r: string, i: nat, j: nat)
    requires i <= j <= |s| && s[i..j] == r && AllSpace(s[..i]) && AllSpace(s[j..])
    requires NoEdgeSpace(r) && r != []
    ensures forall k :: 0 <= k < i ==> IsSpace(s[k])
    ensures forall k :: j <= k < |s| ==> IsSpace(s[k])
    ensures !IsSpace(s[i]) && !IsSpace(s[j - 1])
  {
    forall k | 0 <= k < i ensures IsSpace(s[k]) { assert s[..i][k] == s[k]; }
    forall k | j <= k < |s| ensures IsSpace(s[k]) { assert s[j..][k - j] == s[k]; }
  }

  /** An empty trim leaves only whitespace around it. */
  lemma EmptyTrimMeansAllSpace(s: string, i: nat, j: nat)
    requires i <= j <= |s| && AllSpace(s[..i]) && AllSpace(s[j..])
    ensures s[i..j] == [] ==> AllSpace(s)
  {
    if i == j {
      forall k | 0 <= k < |s| ensures IsSpace(s[k]) {
        if k < i { assert s[..i][k] == s[k]; } else { assert s[j..][k - j] == s[k]; }
      }
    }
  }

  /** A string without whitespace at its edges is its own trim. */
  lemma TrimmedIsFixed(s: string)
    requires NoEdgeSpace(s)
    ensures IsTrimOf(s, s)
  {
    assert s[0..|s|] == s && s[..0] == [] && s[|s|..] == [];
    assert TrimmedAt(s, s, 0, |s|);
  }

  /** Whatever trim of `s` is found, it is what Strip returns. */
  lemma TrimIsStrip(s: string, r: string, i: int, j: int)
    requires TrimmedAt(s, r, i, j) && NoEdgeSpace(r)
    ensures Strip(s) == r
  {
    StripIsTrim(s);
    TrimIsUnique(s, r, Strip(s));
  }

  /** Stripping twice is stripping once. */
  lemma StripIdempotent(s: string)
    ensures Strip(Strip(s)) == Strip(s)
  {
    var r := Strip(s);
    StripIsTrim(r);
    TrimmedIsFixed(r);
    TrimIsUnique(r, r, Strip(r));
  }

  // ---------------------------------------------------------------- int()

  predicate IsDigit(c: char) {
    '0' <= c <= '9'
  }

  predicate AllDigits(s: string) {
    forall k :: 0 <= k < |s| ==> IsDigit(s[k])
  }

  /** The literals `int` accepts here: an optional sign then one or more decimal digits. */
  predicate IsIntLiteral(s: string) {
    if |s| > 0 && (s[0] == '+' || s[0] == '-') then |s| > 1 && AllDigits(s[1..])
    else |s| > 0 && AllDigits(s)
  }

  function DigitValue(c: char): (d: nat)
    requires IsDigit(c)
    ensures d < 10
  {
    (c as int) - ('0' as int)
  }

  function DigitChar(d: nat): (c: char)
    requires d < 10
    ensures IsDigit(c) && DigitValue(c) == d
  {
    ('0' as int + d) as char
  }

  /** The value of a decimal digit string, most significant digit first. */
  function DigitsValue(s: string): nat
    requires AllDigits(s)
  {
    if |s| == 0 then 0 else DigitsValue(s[..|s| - 1]) * 10 + DigitValue(s[|s| - 1])
  }

  /** `int(s)`; None stands for the ValueError raised on anything that is not an integer literal. */
  function ParseInt(s: string): (r: Option<int>)
    ensures r.Some? <==> IsIntLiteral(s)
    ensures r.Some? && |s| > 0 && s[0] == '-' ==> r.value <= 0
    ensures r.Some? && (s[0] != '-') ==> r.value >= 0
  {
    if |s| > 0 && (s[0] == '+' || s[0] == '-') then
      if |s| > 1 && AllDigits(s[1..]) then
        var n: int := DigitsValue(s[1..]);
        var v := if s[0] == '-' then -n else n;
        Some(v)
      else None
    else if |s| > 0 && AllDigits(s) then Some(DigitsValue(s))
    else None
  }

  /** `str(n)` for a natural number: its shortest decimal digit string. */
  function ShowNat(n: nat): (s: string)
    ensures |s| > 0 && AllDigits(s)
    ensures |s| > 1 ==> s[0] != '0'
  {
    if n < 10 then [DigitChar(n)] else ShowNat(n / 10) + [DigitChar(n % 10)]
  }

  /** `str(n)`. */
  function ShowInt(n: int): string {
    if n < 0 then "-" + ShowNat(-n) else ShowNat(n)
  }

  lemma {:induction false} DigitsOfShowNat(n: nat)
    ensures DigitsValue(ShowNat(n)) == n
  {
    if n >= 10 {
      var s := ShowNat(n);
      assert s[..|s| - 1] == ShowNat(n / 10);
      DigitsOfShowNat(n / 10);
    }
  }

  /** `int(str(n)) == n`: printing an integer and reading it back is the identity. */
  lemma ParseShowRoundTrip(n: int)
    ensures ParseInt(ShowInt(n)) == Some(n)
  {
    var s := ShowInt(n);
    if n < 0 {
      assert s[0] == '-' && s[1..] == ShowNat(-n);
      DigitsOfShowNat(-n);
      assert IsIntLiteral(s);
    } else {
      DigitsOfShowNat(n);
      assert IsDigit(s[0]);
    }
  }

  /** A leading zero does not change the value of a digit string. */
  lemma {:induction false} LeadingZeroValue(d: string)
    requires AllDigits(d)
    ensures AllDigits("0" + d) && DigitsValue("0" + d) == DigitsValue(d)
  {
    var z := "0" + d;
    assert AllDigits(z) by {
      forall k | 0 <= k < |z| ensures IsDigit(z[k]) {
        if k > 0 { assert z[k] == d[k - 1]; }
      }
    }
    if |d| > 0 {
      assert z[..|z| - 1] == "0" + d[..|d| - 1];
      assert z[|z| - 1] == d[|d| - 1];
      LeadingZeroValue(d[..|d| - 1]);
    }
  }

  /** `int("0" + d) == int(d)`: leading zeros are accepted and ignored. */
  lemma LeadingZeroIgnored(d: string)
    requires |d| > 0 && AllDigits(d)
    ensures ParseInt("0" + d) == ParseInt(d)
  {
    LeadingZeroValue(d);
    assert ("0" + d)[0] == '0';
  }

  /** `int("+" + d) == int(d)`: an explicit plus sign is accepted and ignored. */
  lemma PlusSignIgnored(d: string)
    requires |d| > 0 && AllDigits(d)
    ensures ParseInt("+" + d) == ParseInt(d)
  {
    assert ("+" + d)[1..] == d;
    assert IsDigit(d[0]);
  }

  /** `int("-" + d) == -int(d)`: a minus sign negates the digits' value. */
  lemma MinusSignNegates(d: string)
    requires |d| > 0 && AllDigits(d)
    ensures ParseInt(d).Some? && ParseInt("-" + d) == Some(-ParseInt(d).value)
  {
    assert ("-" + d)[1..] == d;
    assert IsDigit(d[0]);
  }

  // ---------------------------------------------------------------- in

  /** `needle` occurs in `hay` starting at position `i`. */
  predicate OccursAt(hay: string, needle: string, i: nat) {
    i + |needle| <= |hay| && hay[i..i + |needle|] == needle
  }

  /** Python's `needle in hay` on strings. */
  function Contains(hay: string, needle: string): (r: bool)
    ensures r <==> exists i: nat :: OccursAt(hay, needle, i)
    decreases |hay|
  {
    if |hay| < |needle| then false
    else if hay[..|needle|] == needle then (assert OccursAt(hay, needle, 0); true)
    else
      var rest := Contains(hay[1..], needle);
      assert forall i: nat :: OccursAt(hay[1..], needle, i) <==> OccursAt(hay, needle, i + 1) by {
        forall i: nat ensures OccursAt(hay[1..], needle, i) <==> OccursAt(hay, needle, i + 1) {
          if i + 1 + |needle| <= |hay| {
            assert hay[1..][i..i + |needle|] == hay[i + 1..i + 1 + |needle|];
          }
        }
      }
      assert forall i: nat :: OccursAt(hay, needle, i) && i > 0 ==> OccursAt(hay[1..], needle, i - 1);
      rest
  }
}
