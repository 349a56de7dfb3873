/** Dollar amounts as text: what the client prints and what client and server read back. */
module UsdcAmounts {
  import opened Common
  import opened JsText

  const PLACES: nat := 6
  const MICRO: Positive := 1000000

  // ---------------------------------------------------------------- decimal digits

  predicate IsDigit(c: char) {
    '0' <= c <= '9'
  }

  predicate AllDigits(s: string) {
    forall i :: 0 <= i < |s| ==> IsDigit(s[i])
  }

  function Digit(d: nat): char
    requires d < 10
  {
    "0123456789"[d]
  }

  /** The number that a string of digits denotes. */
  function Value(s: string): nat
    requires AllDigits(s)
  {
    if s == "" then 0 else Value(s[..|s| - 1]) * 10 + (s[|s| - 1] as int - '0' as int)
  }

  /** A number in decimal, without leading zeros. */
  function Decimal(n: nat): string {
    if n < 10 then [Digit(n)] else Decimal(n / 10) + [Digit(n % 10)]
  }

  function Zeros(n: nat): string {
    if n == 0 then "" else Zeros(n - 1) + "0"
  }

  function PadStart(s: string, n: nat): string {
    if |s| < n then Zeros(n - |s|) + s else s
  }

  function PadEnd(s: string, n: nat): string {
    if |s| < n then s + Zeros(n - |s|) else s
  }

  function StripZeros(s: string): string {
    if s != "" && s[|s| - 1] == '0' then StripZeros(s[..|s| - 1]) else s
  }

  // ---------------------------------------------------------------- the accepted shape

  /** Zero, or digits that do not start with a zero. */
  predicate IsWhole(s: string) {
    s == "0" || (s != "" && AllDigits(s) && s[0] != '0')
  }

  predicate IsFraction(s: string) {
    1 <= |s| <= PLACES && AllDigits(s)
  }

  function FirstDot(s: string): (i: nat)
    ensures i <= |s|
  {
    if s == "" || s[0] == '.' then 0 else 1 + FirstDot(s[1..])
  }

  datatype Parts = Parts(whole: string, fraction: Option<string>)

  predicate WellFormed(parts: Parts) {
    IsWhole(parts.whole) && (parts.fraction.Some? ==> IsFraction(parts.fraction.value))
  }

  /** The two groups of the pattern, when the whole string matches it. */
  function Match(s: string): (r: Option<Parts>)
    ensures r.Some? ==> WellFormed(r.value)
  {
    var dot := FirstDot(s);
    if !IsWhole(s[..dot]) then None
    else if dot == |s| then Some(Parts(s, None))
    else if IsFraction(s[dot + 1..]) then Some(Parts(s[..dot], Some(s[dot + 1..])))
    else None
  }

  function Joined(parts: Parts): string {
    if parts.fraction.Some? then parts.whole + "." + parts.fraction.value else parts.whole
  }

  lemma {:induction false} DotIn(whole: string, rest: string)
    requires AllDigits(whole)
    ensures FirstDot(whole + "." + rest) == |whole| && FirstDot(whole) == |whole|
  {
    if whole != "" {
      DotIn(whole[1..], rest);
      assert (whole + "." + rest)[1..] == whole[1..] + "." + rest;
    }
  }

  lemma {:induction false} DotSplits(s: string)
    requires FirstDot(s) < |s|
    ensures s[FirstDot(s)] == '.'
  {
    if s[0] != '.' {
      DotSplits(s[1..]);
    }
  }

  lemma {:induction false} MatchedIsJoined(s: string, parts: Parts)
    requires Match(s) == Some(parts)
    ensures WellFormed(parts) && s == Joined(parts)
  {
    if FirstDot(s) < |s| {
      DotSplits(s);
    }
  }

  lemma {:induction false} JoinedMatches(parts: Parts)
    requires WellFormed(parts)
    ensures Match(Joined(parts)) == Some(parts)
  {
    var whole := parts.whole;
    if parts.fraction.Some? {
      var s := whole + "." + parts.fraction.value;
      DotIn(whole, parts.fraction.value);
      assert s[..|whole|] == whole && s[|whole| + 1..] == parts.fraction.value;
    } else {
      DotIn(whole, "");
    }
  }

  /** The pattern's groups are the one way to cut an accepted string into well-formed parts. */
  lemma {:induction false} MatchMeans(s: string, parts: Parts)
    ensures Match(s) == Some(parts) <==> WellFormed(parts) && s == Joined(parts)
  {
    if Match(s) == Some(parts) {
      MatchedIsJoined(s, parts);
    }
    if WellFormed(parts) && s == Joined(parts) {
      JoinedMatches(parts);
    }
  }

  // ---------------------------------------------------------------- the printer and the two parsers

  datatype Error = InvalidUsdcAmount | InvalidWithdrawalAmount

  function FormatMicroUnits(n: nat): string {
    var fraction := StripZeros(PadStart(Decimal(n % MICRO), PLACES));
    if fraction != "" then Decimal(n / MICRO) + "." + fraction else Decimal(n / MICRO)
  }

  /** The fraction digits of a match, none when there is no fraction. */
  function FractionDigits(parts: Parts): (f: string)
    requires WellFormed(parts)
    ensures |f| <= PLACES && AllDigits(f)
  {
    if parts.fraction.Some? then parts.fraction.value else ""
  }

  /** The client pads a fraction by cutting it and six zeros to six places. */
  function CutToPlaces(fraction: string): (f: string)
    requires AllDigits(fraction)
    ensures AllDigits(f)
  {
    ZerosAreDigits(PLACES);
    (fraction + Zeros(PLACES))[..PLACES]
  }

  /** The server pads a fraction on the right. */
  function PadToPlaces(fraction: string): (f: string)
    requires AllDigits(fraction)
    ensures AllDigits(f)
  {
    ZerosAreDigits(if |fraction| < PLACES then PLACES - |fraction| else 0);
    PadEnd(fraction, PLACES)
  }

  function ParseClient(s: string): Option<nat> {
    match Match(s)
    case None => None
    case Some(parts) => Some(Value(parts.whole) * MICRO + Value(CutToPlaces(FractionDigits(parts))))
  }

  /** The server trims and refuses zero. */
  function ParseServer(s: string): Result<nat, Error> {
    match Match(Trim(s))
    case None => Err(InvalidUsdcAmount)
    case Some(parts) =>
      var n := Value(parts.whole) * MICRO + Value(PadToPlaces(FractionDigits(parts)));
      if n == 0 then Err(InvalidWithdrawalAmount) else Ok(n)
  }

  lemma {:induction false} ZerosAreDigits(n: nat)
    ensures |Zeros(n)| == n && forall i :: 0 <= i < n ==> Zeros(n)[i] == '0'
  {
    if n > 0 {
      ZerosAreDigits(n - 1);
    }
  }

  // ---------------------------------------------------------------- digits and their value

  lemma {:induction false} DecimalValue(n: nat)
    ensures AllDigits(Decimal(n)) && Value(Decimal(n)) == n && IsWhole(Decimal(n))
    ensures 0 < n ==> Decimal(n)[0] != '0'
  {
    if n >= 10 {
      DecimalValue(n / 10);
      var s := Decimal(n);
      assert s[..|s| - 1] == Decimal(n / 10);
    }
  }

  function PowerOfTen(k: nat): Positive {
    if k == 0 then 1 else 10 * PowerOfTen(k - 1)
  }

  lemma {:induction false} DecimalLength(n: nat, k: nat)
    requires 0 < k && n < PowerOfTen(k)
    ensures |Decimal(n)| <= k
  {
    if n >= 10 {
      DecimalLength(n / 10, k - 1);
    }
  }

  lemma {:induction false} SixPlaces()
    ensures PowerOfTen(PLACES) == MICRO
  {
    assert PowerOfTen(3) == 1000;
    assert PowerOfTen(6) == 1000 * PowerOfTen(3);
  }

  lemma {:induction false} ZerosThenValue(k: nat, s: string)
    requires AllDigits(s)
    ensures AllDigits(Zeros(k) + s) && Value(Zeros(k) + s) == Value(s)
  {
    ZerosAreDigits(k);
    if s == "" {
      assert Zeros(k) + s == Zeros(k);
      if k > 0 {
        ZerosThenValue(k - 1, "");
        assert Zeros(k - 1) + "" == Zeros(k - 1) && Zeros(k)[..k - 1] == Zeros(k - 1);
      }
    } else {
      var init := s[..|s| - 1];
      ZerosThenValue(k, init);
      assert (Zeros(k) + s)[..k + |s| - 1] == Zeros(k) + init;
    }
  }

  /** Stripping zeros from the right and padding them again restores the string. */
  lemma {:induction false} StripThenPad(s: string)
    ensures |StripZeros(s)| <= |s| && StripZeros(s) + Zeros(|s| - |StripZeros(s)|) == s
    ensures AllDigits(s) ==> AllDigits(StripZeros(s))
  {
    if s != "" && s[|s| - 1] == '0' {
      var init := s[..|s| - 1];
      StripThenPad(init);
      var stripped := StripZeros(init);
      assert stripped + Zeros(|s| - |stripped|) == stripped + Zeros(|init| - |stripped|) + "0";
    }
  }

  lemma {:induction false} PaddedDigits(part: string)
    requires |part| <= PLACES && AllDigits(part)
    ensures var digits := PadStart(part, PLACES);
            |digits| == PLACES && AllDigits(digits) && Value(digits) == Value(part)
  {
    ZerosThenValue(PLACES - |part|, part);
    ZerosAreDigits(PLACES - |part|);
  }

  lemma {:induction false} PaddedBack(digits: string)
    requires |digits| == PLACES && AllDigits(digits)
    ensures var fraction := StripZeros(digits);
            |fraction| <= PLACES && AllDigits(fraction) && PadToPlaces(fraction) == digits
  {
    StripThenPad(digits);
    EmptyZeros(StripZeros(digits));
  }

  /** The six fraction digits that are printed for the micro-unit part of an amount, before stripping zeros. */
  lemma {:induction false} SixFractionDigits(n: nat) returns (digits: string)
    ensures digits == PadStart(Decimal(n % MICRO), PLACES)
    ensures |digits| == PLACES && AllDigits(digits) && Value(digits) == n % MICRO
  {
    hide Decimal, PadStart, PowerOfTen, Value;
    var part := n % MICRO;
    SixPlaces();
    DecimalLength(part, PLACES);
    DecimalValue(part);
    digits := PadStart(Decimal(part), PLACES);
    PaddedDigits(Decimal(part));
  }

  lemma {:induction false} EmptyZeros(s: string)
    ensures s + Zeros(0) == s && Zeros(0) + s == s
  {
  }

  /** The parts that the printer joins. */
  lemma {:induction false} PrintedParts(n: nat) returns (parts: Parts)
    ensures WellFormed(parts) && Joined(parts) == FormatMicroUnits(n)
    ensures AllDigits(parts.whole) && Value(parts.whole) == n / MICRO
    ensures Value(PadToPlaces(FractionDigits(parts))) == n % MICRO
  {
    DecimalValue(n / MICRO);
    var digits := SixFractionDigits(n);
    PaddedBack(digits);
    hide Decimal, StripZeros, PadStart, PadToPlaces, Value;
    var fraction := StripZeros(digits);
    parts := Parts(Decimal(n / MICRO), if fraction == "" then None else Some(fraction));
    assert FractionDigits(parts) == fraction;
  }

  // ---------------------------------------------------------------- the two parsers agree

  /** Both ways of padding a fraction to six places give the same digits. */
  lemma {:induction false} PaddingsAgree(fraction: string)
    requires |fraction| <= PLACES && AllDigits(fraction)
    ensures CutToPlaces(fraction) == PadToPlaces(fraction)
  {
    ZerosAreDigits(PLACES);
    ZerosAreDigits(PLACES - |fraction|);
  }

  lemma {:induction false} AcceptedIsTight(s: string)
    requires Match(s).Some?
    ensures Trim(s) == s
  {
    MatchedIsJoined(s, Match(s).value);
    assert IsDigit(s[0]) && IsDigit(s[|s| - 1]);
    TrimOfTight(s);
  }

  /** The server accepts exactly what the client accepts after trimming, at the same amount, unless it is zero. */
  lemma {:induction false} ParsersAgree(s: string)
    ensures ParseServer(s) ==
            match ParseClient(Trim(s))
            case None => Err(InvalidUsdcAmount)
            case Some(n) => if n == 0 then Err(InvalidWithdrawalAmount) else Ok(n)
    ensures ParseClient(s).Some? ==> Trim(s) == s
  {
    hide Trim, Match, Value, CutToPlaces, PadToPlaces, WellFormed;
    if Match(Trim(s)).Some? {
      PaddingsAgree(FractionDigits(Match(Trim(s)).value));
    }
    if Match(s).Some? {
      AcceptedIsTight(s);
    }
  }

  /** Every positive amount that both parsers accept is the same amount for both. */
  lemma {:induction false} SameAmount(s: string, client: nat, server: nat)
    requires ParseClient(s) == Some(client) && ParseServer(s) == Ok(server)
    ensures client == server
  {
    ParsersAgree(s);
  }

  /** What the client prints, the client and the server both read back as the same amount. */
  lemma {:induction false} RoundTrip(n: nat)
    ensures ParseClient(FormatMicroUnits(n)) == Some(n)
    ensures ParseServer(FormatMicroUnits(n)) == if n == 0 then Err(InvalidWithdrawalAmount) else Ok(n)
  {
    hide FormatMicroUnits, Match, Trim, Value, CutToPlaces, PadToPlaces, WellFormed, Joined;
    var parts := PrintedParts(n);
    JoinedMatches(parts);
    PaddingsAgree(FractionDigits(parts));
    ParsersAgree(FormatMicroUnits(n));
  }

  /** Different amounts are printed differently. */
  lemma {:induction false} PrintingIsInjective(m: nat, n: nat)
    requires FormatMicroUnits(m) == FormatMicroUnits(n)
    ensures m == n
  {
    RoundTrip(m);
    RoundTrip(n);
  }
}
