/** What trimming, reading and printing an amount mean, told from the characters of the text. */
module UsdcLaws {
  import opened Common
  import opened JsText
  import opened UsdcAmounts

  // ---------------------------------------------------------------- trimming

  /** White space and line ends by their code points. */
  predicate IsWhite(c: char) {
    var code := c as int;
    || 9 <= code <= 13 || code == 32 || code == 0xA0 || code == 0x1680 || 0x2000 <= code <= 0x200A
    || 0x2028 <= code <= 0x2029 || code == 0x202F || code == 0x205F || code == 0x3000 || code == 0xFEFF
  }

  predicate AllWhite(s: string) {
    forall i :: 0 <= i < |s| ==> IsWhite(s[i])
  }

  predicate Tight(s: string) {
    s == "" || (!IsWhite(s[0]) && !IsWhite(s[|s| - 1]))
  }

  predicate Surrounds(s: string, before: string, t: string, after: string) {
    s == before + t + after && AllWhite(before) && AllWhite(after) && Tight(t)
  }

  lemma {:induction false} SpaceIsWhite(c: char)
    ensures IsSpace(c) == IsWhite(c)
  {
    assert IsWhite(c) && !('\t' <= c <= '\r') && !('\U{2000}' <= c <= '\U{200A}') ==>
        || c == ' ' || c == '\U{00A0}' || c == '\U{1680}' || c == '\U{2028}' || c == '\U{2029}'
        || c == '\U{202F}' || c == '\U{205F}' || c == '\U{3000}' || c == '\U{FEFF}';
  }

  lemma {:induction false} StartTrimmed(s: string) returns (before: string)
    ensures s == before + TrimStart(s) && AllWhite(before)
    ensures TrimStart(s) == "" || !IsWhite(TrimStart(s)[0])
  {
    before := "";
    if s != "" {
      SpaceIsWhite(s[0]);
      if IsSpace(s[0]) {
        var more := StartTrimmed(s[1..]);
        before := [s[0]] + more;
      }
    }
  }

  lemma {:induction false} EndTrimmed(s: string) returns (after: string)
    ensures s == TrimEnd(s) + after && AllWhite(after)
    ensures TrimEnd(s) == "" || !IsWhite(TrimEnd(s)[|TrimEnd(s)| - 1])
  {
    after := "";
    if s != "" {
      SpaceIsWhite(s[|s| - 1]);
      if IsSpace(s[|s| - 1]) {
        var more := EndTrimmed(s[..|s| - 1]);
        after := more + [s[|s| - 1]];
      }
    }
  }

  lemma {:induction false} WhiteOutside(s: string, before: string, t: string, after: string, i: nat)
    requires Surrounds(s, before, t, after) && i < |s| && !(|before| <= i < |before| + |t|)
    ensures IsWhite(s[i])
  {
    if i < |before| {
      assert s[i] == before[i];
    } else {
      assert s[i] == after[i - |before| - |t|];
    }
  }

  /** What is not white stands between the surroundings. */
  lemma {:induction false} Inside(s: string, before: string, t: string, after: string, i: nat)
    requires Surrounds(s, before, t, after) && i < |s| && !IsWhite(s[i])
    ensures |before| <= i < |before| + |t|
  {
    if !(|before| <= i < |before| + |t|) {
      WhiteOutside(s, before, t, after, i);
    }
  }

  /** Two ways of cutting white space off both ends leave the same text. */
  lemma {:induction false} OneMiddle(s: string, b: string, t: string, a: string, c: string, u: string, d: string)
    requires Surrounds(s, b, t, a) && Surrounds(s, c, u, d) && t != ""
    ensures t == u
  {
    assert s[|b|] == t[0] && s[|b| + |t| - 1] == t[|t| - 1];
    Inside(s, c, u, d, |b|);
    Inside(s, c, u, d, |b| + |t| - 1);
    assert s[|c|] == u[0] && s[|c| + |u| - 1] == u[|u| - 1];
    Inside(s, b, t, a, |c|);
    Inside(s, b, t, a, |c| + |u| - 1);
    assert t == s[|b|..|b| + |t|] && u == s[|c|..|c| + |u|];
  }

  /** Trimming cuts exactly the white space at both ends. */
  lemma {:induction false} TrimMeans(s: string, t: string)
    ensures Trim(s) == t <==> exists before, after :: Surrounds(s, before, t, after)
  {
    var b := StartTrimmed(s);
    var a := EndTrimmed(TrimStart(s));
    var u := Trim(s);
    assert s == b + (u + a);
    assert b + (u + a) == b + u + a;
    assert u != "" ==> u[0] == TrimStart(s)[0];
    assert Surrounds(s, b, u, a);
    if before, after :| Surrounds(s, before, t, after) {
      if t != "" {
        OneMiddle(s, before, t, after, b, u, a);
      } else if u != "" {
        OneMiddle(s, b, u, a, before, t, after);
      }
    }
  }

  // ---------------------------------------------------------------- reading

  /** The text shows `n` millionths: a whole number without leading zeros and up to six places after a dot. */
  ghost predicate Shows(s: string, whole: string, places: string, n: nat) {
    && whole != "" && AllDigits(whole) && (whole[0] == '0' ==> whole == "0")
    && |places| <= 6 && AllDigits(places)
    && s == (if places == "" then whole else whole + "." + places)
    && AllDigits(whole + places) && n * PowerOfTen(|places|) == Value(whole + places) * 1000000
  }

  lemma {:induction false} PowerSum(j: nat, k: nat)
    ensures PowerOfTen(j) * PowerOfTen(k) == PowerOfTen(j + k)
  {
    if j > 0 {
      PowerSum(j - 1, k);
      calc {
        PowerOfTen(j) * PowerOfTen(k);
        10 * PowerOfTen(j - 1) * PowerOfTen(k);
        10 * PowerOfTen(j - 1 + k);
      }
    }
  }

  lemma {:induction false} OneMoreDigit(v: nat, p: nat, i: nat)
    ensures (v * p + i) * 10 == v * (10 * p) + i * 10
  {
  }

  lemma {:induction false} ValueOfJoin(a: string, b: string)
    requires AllDigits(a) && AllDigits(b)
    ensures AllDigits(a + b) && Value(a + b) == Value(a) * PowerOfTen(|b|) + Value(b)
    decreases |b|
  {
    if b == "" {
      assert a + b == a;
    } else {
      var init := b[..|b| - 1];
      ValueOfJoin(a, init);
      assert (a + b)[..|a + b| - 1] == a + init && (a + b)[|a + b| - 1] == b[|b| - 1];
      OneMoreDigit(Value(a), PowerOfTen(|init|), Value(init));
    }
  }

  lemma {:induction false} ValueOfZeros(k: nat)
    ensures AllDigits(Zeros(k)) && Value(Zeros(k)) == 0
  {
    ZerosThenValue(k, "");
    assert Zeros(k) + "" == Zeros(k);
  }

  lemma {:induction false} Scaled(w: nat, f: nat, p: nat, q: nat)
    requires p * q == 1000000
    ensures (w * 1000000 + f * q) * p == (w * p + f) * 1000000
  {
    calc {
      (w * 1000000 + f * q) * p;
      { Distribute(w * 1000000, f * q, p); }
      w * 1000000 * p + f * q * p;
      { assert f * q * p == f * (p * q); }
      w * p * 1000000 + f * 1000000;
      (w * p + f) * 1000000;
    }
  }

  lemma {:induction false} PaddedPlaces(places: string)
    requires AllDigits(places) && |places| <= 6
    ensures Value(PadToPlaces(places)) == Value(places) * PowerOfTen(6 - |places|)
  {
    var k := 6 - |places|;
    ValueOfZeros(k);
    ValueOfJoin(places, Zeros(k));
    ZerosAreDigits(k);
    EmptyZeros(places);
  }

  /** Padding to six places multiplies by what is missing to a million. */
  lemma {:induction false} PaddedValue(whole: string, places: string)
    requires AllDigits(whole) && AllDigits(places) && |places| <= 6
    ensures AllDigits(whole + places)
    ensures (Value(whole) * MICRO + Value(PadToPlaces(places))) * PowerOfTen(|places|)
         == Value(whole + places) * 1000000
  {
    PaddedPlaces(places);
    ValueOfJoin(whole, places);
    PowerSum(|places|, 6 - |places|);
    SixPlaces();
    hide Value, PowerOfTen, PadToPlaces, Zeros;
    Scaled(Value(whole), Value(places), PowerOfTen(|places|), PowerOfTen(6 - |places|));
  }

  lemma {:induction false} OneAmount(m: nat, n: nat, p: Positive)
    requires m * p == n * p
    ensures m == n
  {
    MulGap(m, n, p);
    MulGap(n, m, p);
  }

  lemma {:induction false} ReadShows(s: string, n: nat)
    requires ParseClient(s) == Some(n)
    ensures exists whole, places :: Shows(s, whole, places, n)
  {
    var parts := Match(s).value;
    MatchMeans(s, parts);
    var whole, places := parts.whole, FractionDigits(parts);
    PaddingsAgree(places);
    PaddedValue(whole, places);
    assert AllDigits(whole);
    assert Shows(s, whole, places, n);
  }

  lemma {:induction false} ShownIsParsed(s: string, whole: string, places: string)
    requires AllDigits(whole) && AllDigits(places) && IsWhole(whole) && |places| <= 6
    requires s == if places == "" then whole else whole + "." + places
    ensures ParseClient(s) == Some(Value(whole) * MICRO + Value(PadToPlaces(places)))
  {
    var parts := Parts(whole, if places == "" then None else Some(places));
    MatchMeans(s, parts);
    PaddingsAgree(places);
    hide Value, PadToPlaces, CutToPlaces, Match;
    assert FractionDigits(parts) == places;
  }

  lemma {:induction false} ShownIsRead(s: string, whole: string, places: string, n: nat)
    requires Shows(s, whole, places, n)
    ensures ParseClient(s) == Some(n)
  {
    ShownIsParsed(s, whole, places);
    PaddedValue(whole, places);
    hide ParseClient, PowerOfTen, Value, PadToPlaces, AllDigits, IsWhole;
    OneAmount(Value(whole) * MICRO + Value(PadToPlaces(places)), n, PowerOfTen(|places|));
  }

  /** The client reads exactly the texts that show an amount, as that amount. */
  lemma {:induction false} ReadMeans(s: string, n: nat)
    ensures ParseClient(s) == Some(n) <==> exists whole, places :: Shows(s, whole, places, n)
  {
    if ParseClient(s) == Some(n) {
      ReadShows(s, n);
    }
    if whole, places :| Shows(s, whole, places, n) {
      ShownIsRead(s, whole, places, n);
    }
  }

  // ---------------------------------------------------------------- printing

  lemma {:induction false} NoZeroAtEnd(s: string)
    ensures StripZeros(s) == "" || StripZeros(s)[|StripZeros(s)| - 1] != '0'
  {
    if s != "" && s[|s| - 1] == '0' {
      NoZeroAtEnd(s[..|s| - 1]);
    }
  }

  lemma {:induction false} StripOfPadded(s: string, k: nat)
    requires s == "" || s[|s| - 1] != '0'
    ensures StripZeros(s + Zeros(k)) == s
  {
    ZerosAreDigits(k);
    if k == 0 {
      EmptyZeros(s);
    } else {
      StripOfPadded(s, k - 1);
      assert (s + Zeros(k))[..|s + Zeros(k)| - 1] == s + Zeros(k - 1);
    }
  }

  lemma {:induction false} DigitOfValue(c: char)
    requires IsDigit(c)
    ensures Digit(c as int - '0' as int) == c
  {
    assert c in "0123456789";
    assert forall i :: 0 <= i < 10 ==> "0123456789"[i] as int == '0' as int + i;
  }

  /** A number has one decimal form without leading zeros. */
  lemma {:induction false} DecimalOfValue(s: string)
    requires AllDigits(s) && s != "" && (s[0] == '0' ==> s == "0")
    ensures Decimal(Value(s)) == s
  {
    var init, last := s[..|s| - 1], s[|s| - 1];
    DigitOfValue(last);
    if init == "" {
      assert Value(s) == last as int - '0' as int;
    } else {
      DecimalOfValue(init);
      PositiveValue(init);
      assert Value(s) / 10 == Value(init) && Value(s) % 10 == last as int - '0' as int;
      assert s == init + [last];
    }
  }

  lemma {:induction false} PositiveValue(s: string)
    requires AllDigits(s) && s != "" && s[0] != '0'
    ensures 0 < Value(s)
  {
    if |s| > 1 {
      PositiveValue(s[..|s| - 1]);
    }
  }

  lemma {:induction false} ValueFits(s: string)
    requires AllDigits(s)
    ensures Value(s) < PowerOfTen(|s|)
  {
    if s != "" {
      ValueFits(s[..|s| - 1]);
    }
  }

  lemma {:induction false} SameDigits(s: string, t: string)
    requires AllDigits(s) && AllDigits(t) && |s| == |t| && Value(s) == Value(t)
    ensures s == t
  {
    if s != "" {
      SameDigits(s[..|s| - 1], t[..|t| - 1]);
      assert s == s[..|s| - 1] + [s[|s| - 1]] && t == t[..|t| - 1] + [t[|t| - 1]];
    }
  }

  lemma {:induction false} ShortestShown(n: nat)
    ensures exists whole, places ::
              Shows(FormatMicroUnits(n), whole, places, n) && (places == "" || places[|places| - 1] != '0')
  {
    var s := FormatMicroUnits(n);
    var digits := SixFractionDigits(n);
    DecimalValue(n / MICRO);
    NoZeroAtEnd(digits);
    PaddedBack(digits);
    var whole, places := Decimal(n / MICRO), StripZeros(digits);
    PaddedValue(whole, places);
    assert Shows(s, whole, places, n);
  }

  /** The shown parts are the quotient and the rest of the amount. */
  lemma {:induction false} PartsOfShown(s: string, whole: string, places: string, n: nat)
    requires Shows(s, whole, places, n)
    ensures Value(whole) == n / MICRO && Value(PadToPlaces(places)) == n % MICRO
    ensures |PadToPlaces(places)| == 6
  {
    PaddedValue(whole, places);
    var padded := PadToPlaces(places);
    ZerosAreDigits(6 - |places|);
    EmptyZeros(places);
    ValueFits(padded);
    SixPlaces();
    hide Value, PowerOfTen, PadToPlaces, AllDigits;
    OneAmount(Value(whole) * MICRO + Value(padded), n, PowerOfTen(|places|));
  }

  lemma {:induction false} ShortestIsPrinted(s: string, whole: string, places: string, n: nat)
    requires Shows(s, whole, places, n) && (places == "" || places[|places| - 1] != '0')
    ensures FormatMicroUnits(n) == s
  {
    PartsOfShown(s, whole, places, n);
    DecimalOfValue(whole);
    var digits := SixFractionDigits(n);
    SameDigits(digits, PadToPlaces(places));
    EmptyZeros(places);
    StripOfPadded(places, 6 - |places|);
    hide Value, PowerOfTen, AllDigits, Decimal, StripZeros, Zeros, PadStart;
  }

  /** The client prints the shortest text that shows the amount. */
  lemma {:induction false} PrintMeans(n: nat, s: string)
    ensures FormatMicroUnits(n) == s
       <==> exists whole, places :: Shows(s, whole, places, n) && (places == "" || places[|places| - 1] != '0')
  {
    if FormatMicroUnits(n) == s {
      ShortestShown(n);
    }
    if whole, places :| Shows(s, whole, places, n) && (places == "" || places[|places| - 1] != '0') {
      ShortestIsPrinted(s, whole, places, n);
    }
  }
}
