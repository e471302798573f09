/**
  The duration mini-language of schedule dates: numbers with a unit letter,
  found anywhere in the text, converted and added in 64-bit arithmetic.
 */
module Durations {
  import opened Options

  // ---------- scanning ----------

  datatype Token = Token(digits: string, unit: char)

  predicate IsDigit(c: char) {
    '0' <= c <= '9'
  }

  /** The letters of the pattern; there is no letter for weeks. */
  predicate IsUnit(c: char) {
    c in "smhdMy"
  }

  function DigitRun(s: string): (n: nat)
    ensures n <= |s| && (forall i :: 0 <= i < n ==> IsDigit(s[i])) && (n < |s| ==> !IsDigit(s[n]))
  {
    if s == "" || !IsDigit(s[0]) then 0 else 1 + DigitRun(s[1..])
  }

  /** All non-overlapping matches of one or more digits and a unit letter, from the left. */
  function Scan(s: string): seq<Token>
    decreases |s|
  {
    if s == "" then []
    else
      var n := DigitRun(s);
      if n == 0 then Scan(s[1..])
      else if n < |s| && IsUnit(s[n]) then [Token(s[..n], s[n])] + Scan(s[n + 1..])
      else Scan(s[n..])
  }

  /** The pattern matches the characters from `i` up to and including the unit at `k`. */
  ghost predicate Match(s: string, i: int, k: int) {
    0 <= i < k < |s| && IsUnit(s[k]) && forall m :: i <= m < k ==> IsDigit(s[m])
  }

  /** The first match: no match starts earlier. */
  ghost predicate FirstMatch(s: string, i: int, k: int) {
    Match(s, i, k) && forall i2, k2 :: Match(s, i2, k2) ==> i <= i2
  }

  lemma {:induction false} MatchShift(s: string, d: nat, i: int, k: int)
    requires d <= |s| && i >= d
    ensures Match(s, i, k) <==> Match(s[d..], i - d, k - d)
  {
    if Match(s[d..], i - d, k - d) {
      forall m | i <= m < k ensures IsDigit(s[m]) {
        assert s[d..][m - d] == s[m];
      }
    }
  }

  /** Skipping the first `d` characters loses nothing if no match starts there. */
  lemma {:induction false} FirstMatchShift(s: string, d: nat, i: int, k: int)
    requires d <= |s| && forall i2, k2 :: Match(s, i2, k2) ==> i2 >= d
    ensures FirstMatch(s[d..], i - d, k - d) <==> FirstMatch(s, i, k)
  {
    forall i2, k2 | i2 >= d ensures Match(s, i2, k2) <==> Match(s[d..], i2 - d, k2 - d) {
      MatchShift(s, d, i2, k2);
    }
    if FirstMatch(s, i, k) {
      forall i2, k2 | Match(s[d..], i2, k2) ensures i - d <= i2 {
        assert Match(s, i2 + d, k2 + d);
      }
    }
    if FirstMatch(s[d..], i - d, k - d) {
      assert Match(s, i, k);
    }
  }

  lemma {:induction false} MatchInRun(s: string, i: int, k: int)
    requires Match(s, i, k) && i < DigitRun(s)
    ensures k == DigitRun(s) && IsUnit(s[k])
  {
  }

  /** How many characters the scan moves on, and the token it takes, if any. */
  function Advance(s: string): (d: nat)
    requires s != ""
    ensures 0 < d <= |s|
  {
    var n := DigitRun(s);
    if n == 0 then 1 else if n < |s| && IsUnit(s[n]) then n + 1 else n
  }

  function Taken(s: string): seq<Token>
    requires s != ""
  {
    var n := DigitRun(s);
    if 0 < n < |s| && IsUnit(s[n]) then [Token(s[..n], s[n])] else []
  }

  lemma {:induction false} ScanStep(s: string)
    requires s != ""
    ensures Scan(s) == Taken(s) + Scan(s[Advance(s)..])
  {
  }

  lemma {:induction false} NothingSkipped(s: string, i: int, k: int)
    requires s != "" && Taken(s) == [] && Match(s, i, k)
    ensures i >= Advance(s)
  {
    if i < DigitRun(s) {
      MatchInRun(s, i, k);
    }
  }

  ghost predicate FirstToken(s: string, i: int, k: int) {
    FirstMatch(s, i, k) && Scan(s) == [Token(s[i..k], s[k])] + Scan(s[k + 1..])
  }

  ghost predicate NoMatch(s: string) {
    forall i, k :: !Match(s, i, k)
  }

  /**
    Scanning is leftmost matching: it finds nothing exactly when nothing matches,
    and otherwise its first token is the first match and the others are those
    found after it.
   */
  lemma {:induction false} ScanIsLeftmost(s: string)
    ensures Scan(s) == [] <==> NoMatch(s)
    ensures Scan(s) != [] ==> exists i, k :: FirstToken(s, i, k)
    decreases |s|
  {
    if s != "" {
      ScanStep(s);
      var n, d := DigitRun(s), Advance(s);
      if Taken(s) != [] {
        assert Match(s, 0, n);
        assert FirstToken(s, 0, n);
      } else {
        forall i, k | Match(s, i, k) ensures i >= d {
          NothingSkipped(s, i, k);
        }
        ScanIsLeftmost(s[d..]);
        NoMatchShift(s, d);
        if Scan(s) != [] {
          var i, k :| FirstToken(s[d..], i, k);
          FirstTokenShift(s, d, i, k);
        }
      }
    }
  }

  lemma {:induction false} NoMatchShift(s: string, d: nat)
    requires d <= |s| && forall i, k :: Match(s, i, k) ==> i >= d
    ensures NoMatch(s) <==> NoMatch(s[d..])
  {
    if i, k :| Match(s, i, k) {
      MatchShift(s, d, i, k);
    }
    if i, k :| Match(s[d..], i, k) {
      MatchShift(s, d, i + d, k + d);
    }
  }

  lemma {:induction false} FirstTokenShift(s: string, d: nat, i: int, k: int)
    requires d <= |s| && Scan(s) == Scan(s[d..]) && FirstToken(s[d..], i, k)
    requires forall i2, k2 :: Match(s, i2, k2) ==> i2 >= d
    ensures FirstToken(s, i + d, k + d)
  {
    FirstMatchShift(s, d, i + d, k + d);
    assert s[d..][i..k] == s[i + d..k + d] && s[d..][k + 1..] == s[k + d + 1..];
  }

  lemma {:induction false} ScannedTokens(s: string)
    ensures forall t <- Scan(s) :: IsUnit(t.unit) && t.digits != "" && forall c <- t.digits :: IsDigit(c)
    decreases |s|
  {
    if s != "" {
      var n := DigitRun(s);
      if n == 0 {
        ScannedTokens(s[1..]);
      } else if n < |s| && IsUnit(s[n]) {
        ScannedTokens(s[n + 1..]);
      } else {
        ScannedTokens(s[n..]);
      }
    }
  }

  lemma {:induction false} DigitRunConcat(a: string, b: string)
    requires a != "" && !IsDigit(a[|a| - 1])
    ensures DigitRun(a + b) == DigitRun(a) < |a|
  {
    assert (a + b)[0] == a[0];
    if IsDigit(a[0]) {
      assert (a + b)[1..] == a[1..] + b;
      DigitRunConcat(a[1..], b);
    }
  }

  lemma {:induction false} StepConcat(a: string, b: string)
    requires a != "" && !IsDigit(a[|a| - 1])
    ensures Advance(a + b) == Advance(a) && Taken(a + b) == Taken(a)
    ensures (a + b)[Advance(a)..] == a[Advance(a)..] + b
  {
    DigitRunConcat(a, b);
    var n := DigitRun(a);
    assert (a + b)[..n] == a[..n] && (a + b)[n] == a[n];
  }

  lemma {:induction false} Associative(a: seq<Token>, b: seq<Token>, c: seq<Token>)
    ensures a + (b + c) == (a + b) + c
  {
  }

  lemma {:induction false} ScanStepConcat(a: string, b: string)
    requires a != "" && !IsDigit(a[|a| - 1])
    ensures Scan(a + b) == Taken(a) + Scan(a[Advance(a)..] + b)
  {
    StepConcat(a, b);
    ScanStep(a + b);
  }

  lemma {:induction false} LastStays(a: string)
    requires a != "" && !IsDigit(a[|a| - 1])
    ensures var rest := a[Advance(a)..]; rest == "" || !IsDigit(rest[|rest| - 1])
  {
  }

  /** Scanning a text that does not end in a digit, followed by another, finds the tokens of both. */
  lemma {:induction false} ScanConcat(a: string, b: string)
    requires a == "" || !IsDigit(a[|a| - 1])
    ensures Scan(a + b) == Scan(a) + Scan(b)
    decreases |a|
  {
    if a == "" {
      assert a + b == b;
    } else {
      var rest := a[Advance(a)..];
      ScanStepConcat(a, b);
      ScanStep(a);
      LastStays(a);
      ScanConcat(rest, b);
      Associative(Taken(a), Scan(rest), Scan(b));
    }
  }

  // ---------- numbers ----------

  function DigitOf(d: nat): char
    requires d < 10
  {
    "0123456789"[d]
  }

  function Decimal(n: nat): string {
    if n < 10 then [DigitOf(n)] else Decimal(n / 10) + [DigitOf(n % 10)]
  }

  function Value(digits: string): nat {
    if digits == "" then 0
    else
      var front, last := digits[..|digits| - 1], digits[|digits| - 1];
      10 * Value(front) + (if IsDigit(last) then (last - '0') as nat else 0)
  }

  const MAX_INT64 := 0x7fff_ffff_ffff_ffff

  /** strconv.Atoi on digits: out of range beyond 64 bits. */
  function Atoi(digits: string): Option<nat> {
    if Value(digits) <= MAX_INT64 then Some(Value(digits)) else None
  }

  lemma {:induction false} DecimalFacts(n: nat)
    ensures Decimal(n) != "" && (forall c <- Decimal(n) :: IsDigit(c)) && Value(Decimal(n)) == n
  {
    assert forall d: nat :: d < 10 ==> IsDigit(DigitOf(d)) && (DigitOf(d) - '0') as nat == d;
    if n >= 10 {
      DecimalFacts(n / 10);
      assert Decimal(n)[..|Decimal(n)| - 1] == Decimal(n / 10);
    } else {
      assert Decimal(n)[..0] == "" && Value("") == 0;
    }
  }

  // ---------- 64-bit arithmetic ----------

  const TWO_64 := 0x1_0000_0000_0000_0000
  const MIN_INT64 := -0x8000_0000_0000_0000

  /** The value an int64 holds after an operation whose exact result is `x`. */
  function Wrap(x: int): (w: int)
    ensures MIN_INT64 <= w <= MAX_INT64
  {
    (x - MIN_INT64) % TWO_64 + MIN_INT64
  }

  lemma {:induction false} WrapFacts(x: int) returns (k: int)
    ensures Wrap(x) == x + k * TWO_64
    ensures Wrap(x) == x <==> MIN_INT64 <= x <= MAX_INT64
  {
    k := -((x - MIN_INT64) / TWO_64);
  }

  lemma {:induction false} WrapShift(x: int, k: int)
    ensures Wrap(x + k * TWO_64) == Wrap(x)
  {
    var a, b := Wrap(x + k * TWO_64), Wrap(x);
    var i := WrapFacts(x + k * TWO_64);
    var j := WrapFacts(x);
    assert a - b == (k + i - j) * TWO_64;
  }

  lemma {:induction false} WrapAdd(x: int, y: int)
    ensures Wrap(Wrap(x) + Wrap(y)) == Wrap(x + y)
  {
    var i := WrapFacts(x);
    var j := WrapFacts(y);
    WrapShift(x + y, i + j);
  }

  lemma {:induction false} WrapMul(x: int, c: int)
    ensures Wrap(Wrap(x) * c) == Wrap(x * c)
  {
    var i := WrapFacts(x);
    assert (x + i * TWO_64) * c == x * c + (i * c) * TWO_64;
    WrapShift(x * c, i * c);
  }

  // ---------- durations ----------

  const SECOND := 1_000_000_000
  const MINUTE := 60 * SECOND
  const HOUR := 60 * MINUTE

  /** What one unit is worth: months of 30 days, years of 365. */
  function UnitValue(unit: char): nat {
    if unit == 's' then SECOND
    else if unit == 'm' then MINUTE
    else if unit == 'h' then HOUR
    else if unit == 'd' then 24 * HOUR
    else if unit == 'M' then 30 * 24 * HOUR
    else 365 * 24 * HOUR
  }

  /** The exact sum of number times unit. */
  function Total(tokens: seq<Token>): nat {
    if tokens == [] then 0
    else Total(tokens[..|tokens| - 1]) + Value(tokens[|tokens| - 1].digits) * UnitValue(tokens[|tokens| - 1].unit)
  }

  ghost predicate AllReadable(tokens: seq<Token>) {
    forall i :: 0 <= i < |tokens| ==> Atoi(tokens[i].digits).Some?
  }

  /** time.Time.Sub, which saturates. */
  function Saturate(x: int): int {
    if x > MAX_INT64 then MAX_INT64 else if x < MIN_INT64 then MIN_INT64 else x
  }

  lemma {:induction false} WrapDays(days: int)
    ensures Wrap(Wrap(Wrap(days) * 24) * HOUR) == Wrap(days * 24 * HOUR)
  {
    WrapMul(days, 24);
    WrapMul(days * 24, HOUR);
  }

  /** One term of the sum, multiplied from the left in 64-bit steps as the source writes it. */
  method Term(value: nat, unit: char) returns (term: int)
    requires value <= MAX_INT64 && IsUnit(unit)
    ensures term == Wrap(value * UnitValue(unit))
  {
    match unit
    case 's' => term := Wrap(value * SECOND);
    case 'm' => term := Wrap(value * MINUTE);
    case 'h' => term := Wrap(value * HOUR);
    case 'd' =>
      var days := Wrap(value * 24);
      term := Wrap(days * HOUR);
      WrapMul(value * 24, HOUR);
    case 'M' =>
      var days := Wrap(value * 30);
      var hours := Wrap(days * 24);
      term := Wrap(hours * HOUR);
      WrapDays(value * 30);
    case 'y' =>
      var days := Wrap(value * 365);
      var hours := Wrap(days * 24);
      term := Wrap(hours * HOUR);
      WrapDays(value * 365);
  }

  /** The lead time of a start in the future. */
  function Lead(start: int, now: int): int {
    if start > now then Saturate(start - now) else 0
  }

  /** One round of the loop: `sum` holds the wrapped `exact` sum so far. */
  method AddToken(sum: int, ghost exact: int, token: Token) returns (next: Option<int>)
    requires sum == Wrap(exact) && IsUnit(token.unit)
    ensures next.Some? <==> Atoi(token.digits).Some?
    ensures next.Some? ==> next.value == Wrap(exact + Value(token.digits) * UnitValue(token.unit))
  {
    var value := Atoi(token.digits);
    if value.None? {
      return None;
    }
    var term := Term(value.value, token.unit);
    WrapAdd(exact, value.value * UnitValue(token.unit));
    next := Some(Wrap(sum + term));
  }

  lemma {:induction false} TotalNext(tokens: seq<Token>, i: nat)
    requires i < |tokens|
    ensures Total(tokens[..i + 1]) == Total(tokens[..i]) + Value(tokens[i].digits) * UnitValue(tokens[i].unit)
  {
    assert tokens[..i + 1][..i] == tokens[..i];
  }

  /** The loop over the matches, started from `lead`. */
  method SumTokens(matches: seq<Token>, lead: int) returns (sum: Option<int>)
    requires lead == Wrap(lead) && forall t <- matches :: IsUnit(t.unit)
    ensures sum.Some? <==> AllReadable(matches)
    ensures sum.Some? ==> sum.value == Wrap(lead + Total(matches))
  {
    var total := lead;
    for i := 0 to |matches|
      invariant AllReadable(matches[..i])
      invariant total == Wrap(lead + Total(matches[..i]))
    {
      assert matches[i] in matches;
      var next := AddToken(total, lead + Total(matches[..i]), matches[i]);
      if next.None? {
        return None;
      }
      TotalNext(matches, i);
      total := next.value;
    }
    assert matches[..|matches|] == matches;
    sum := Some(total);
  }

  /**
    Adds up the tokens of a schedule date; fails exactly when a number does not
    fit in 64 bits. The result is the exact total, wrapped to 64 bits once.
   */
  method DurationFromDateString(sd: string, start: int, now: int) returns (duration: Option<int>)
    ensures duration.Some? <==> AllReadable(Scan(sd))
    ensures duration.Some? ==> duration.value == Wrap(Lead(start, now) + Total(Scan(sd)))
  {
    var lead := 0;
    if start > now {
      lead := lead + Saturate(start - now);
    }
    var matches := Scan(sd);
    ScannedTokens(sd);
    duration := SumTokens(matches, lead);
  }

  // ---------- round trip ----------

  datatype Amount = Amount(number: nat, unit: char)

  function Render(amounts: seq<Amount>): string {
    if amounts == [] then "" else Decimal(amounts[0].number) + [amounts[0].unit] + Render(amounts[1..])
  }

  function ReadBack(tokens: seq<Token>): seq<Amount> {
    seq(|tokens|, i requires 0 <= i < |tokens| => Amount(Value(tokens[i].digits), tokens[i].unit))
  }

  ghost predicate GoodUnits(amounts: seq<Amount>) {
    forall i :: 0 <= i < |amounts| ==> IsUnit(amounts[i].unit)
  }

  lemma {:induction false} DigitRunOf(digits: string, tail: string)
    requires (forall c <- digits :: IsDigit(c)) && (tail == "" || !IsDigit(tail[0]))
    ensures DigitRun(digits + tail) == |digits|
  {
    if digits == "" {
      assert digits + tail == tail;
    } else {
      assert (digits + tail)[1..] == digits[1..] + tail;
      DigitRunOf(digits[1..], tail);
    }
  }

  lemma {:induction false} ScanTakesToken(digits: string, unit: char, rest: string)
    requires digits != "" && (forall c <- digits :: IsDigit(c)) && IsUnit(unit)
    ensures Scan(digits + [unit] + rest) == [Token(digits, unit)] + Scan(rest)
  {
    var s := digits + [unit] + rest;
    assert s == digits + ([unit] + rest);
    DigitRunOf(digits, [unit] + rest);
    assert s[..|digits|] == digits && s[|digits|] == unit && s[|digits| + 1..] == rest;
    ScanStep(s);
  }

  lemma {:induction false} ReadBackNext(t: Token, tokens: seq<Token>)
    ensures ReadBack([t] + tokens) == [Amount(Value(t.digits), t.unit)] + ReadBack(tokens)
  {
  }

  lemma {:induction false} GoodUnitsReadBack(amounts: seq<Amount>)
    requires GoodUnits(amounts)
    ensures ReadBack(Scan(Render(amounts))) == amounts
  {
    if amounts != [] {
      var digits, unit, rest := Decimal(amounts[0].number), amounts[0].unit, Render(amounts[1..]);
      DecimalFacts(amounts[0].number);
      ScanTakesToken(digits, unit, rest);
      GoodUnitsReadBack(amounts[1..]);
      ReadBackNext(Token(digits, unit), Scan(rest));
    }
  }

  lemma {:induction false} ReadBackUnits(s: string)
    ensures GoodUnits(ReadBack(Scan(s)))
  {
    ScannedTokens(s);
    forall i | 0 <= i < |Scan(s)| ensures IsUnit(ReadBack(Scan(s))[i].unit) {
      assert Scan(s)[i] in Scan(s);
    }
  }

  /**
    Rendering amounts and scanning the text gives the amounts back exactly when
    their units are the six of the pattern; weeks are not among them.
   */
  lemma {:induction false} ScanOfRender(amounts: seq<Amount>)
    ensures ReadBack(Scan(Render(amounts))) == amounts <==> GoodUnits(amounts)
  {
    if GoodUnits(amounts) {
      GoodUnitsReadBack(amounts);
    } else {
      ReadBackUnits(Render(amounts));
    }
  }

  function Worth(amounts: seq<Amount>): nat {
    if amounts == [] then 0
    else Worth(amounts[..|amounts| - 1]) + amounts[|amounts| - 1].number * UnitValue(amounts[|amounts| - 1].unit)
  }

  lemma {:induction false} TotalIsWorth(tokens: seq<Token>)
    ensures Total(tokens) == Worth(ReadBack(tokens))
  {
    if tokens != [] {
      TotalIsWorth(tokens[..|tokens| - 1]);
      assert ReadBack(tokens)[..|tokens| - 1] == ReadBack(tokens[..|tokens| - 1]);
    }
  }

  /** The total of a rendered list is the exact sum of number times unit. */
  lemma {:induction false} RenderedTotal(amounts: seq<Amount>)
    requires GoodUnits(amounts)
    ensures Total(Scan(Render(amounts))) == Worth(amounts)
  {
    ScanOfRender(amounts);
    TotalIsWorth(Scan(Render(amounts)));
  }

  /** A number with one character behind it scans to one token, or to none. */
  lemma {:induction false} ScanOne(n: nat, c: char)
    requires !IsDigit(c)
    ensures Scan(Decimal(n) + [c]) == if IsUnit(c) then [Token(Decimal(n), c)] else []
  {
    var digits, s := Decimal(n), Decimal(n) + [c];
    DecimalFacts(n);
    if IsUnit(c) {
      ScanTakesToken(digits, c, "");
      assert digits + [c] + "" == s;
    } else {
      DigitRunOf(digits, [c]);
      assert s[|digits|..] == [c] && [c][1..] == "";
      assert Scan([c]) == Scan("") == [];
    }
  }

  /** Exactly the six letters of the pattern are units. */
  lemma {:induction false} UnitLetters(n: nat, c: char)
    requires !('0' <= c <= '9')
    ensures Scan(Decimal(n) + [c]) != [] <==> c == 's' || c == 'm' || c == 'h' || c == 'd' || c == 'M' || c == 'y'
  {
    ScanOne(n, c);
  }

  lemma {:induction false} TotalOne(n: nat, c: char)
    requires IsUnit(c)
    ensures Total(Scan(Decimal(n) + [c])) == n * UnitValue(c)
  {
    ScanOne(n, c);
    DecimalFacts(n);
    assert [Token(Decimal(n), c)][..0] == [];
  }

  /** What each unit is worth, in nanoseconds: a month is thirty days, a year three hundred and sixty-five. */
  const NANOSECONDS := map[
    's' := 1_000_000_000,
    'm' := 60_000_000_000,
    'h' := 3_600_000_000_000,
    'd' := 86_400_000_000_000,
    'M' := 2_592_000_000_000_000,
    'y' := 31_536_000_000_000_000]

  lemma {:induction false} UnitWorth(n: nat, c: char)
    requires c in NANOSECONDS
    ensures Total(Scan(Decimal(n) + [c])) == n * NANOSECONDS[c]
  {
    assert IsUnit(c) && UnitValue(c) == NANOSECONDS[c];
    TotalOne(n, c);
  }

  /** A number is readable exactly up to the greatest 64-bit integer. */
  lemma {:induction false} ReadableIff(n: nat, c: char)
    requires IsUnit(c)
    ensures AllReadable(Scan(Decimal(n) + [c])) <==> n <= 9_223_372_036_854_775_807
  {
    ScanOne(n, c);
    DecimalFacts(n);
    assert Scan(Decimal(n) + [c])[0].digits == Decimal(n);
  }

  /** Decimal numbers are written with the digits 0 to 9, most significant first, without leading zeros. */
  lemma {:induction false} DecimalForm(n: nat)
    ensures n < 10 ==> Decimal(n) == ["0123456789"[n]]
    ensures n >= 10 ==> Decimal(n) == Decimal(n / 10) + ["0123456789"[n % 10]] && Decimal(n)[0] != '0'
  {
    if n >= 10 {
      DecimalForm(n / 10);
      assert Decimal(n)[0] == Decimal(n / 10)[0];
    }
  }

  lemma {:induction false} TotalConcat(a: seq<Token>, b: seq<Token>)
    ensures Total(a + b) == Total(a) + Total(b)
  {
    if b == [] {
      assert a + b == a;
    } else {
      assert (a + b)[..|a + b| - 1] == a + b[..|b| - 1];
      TotalConcat(a, b[..|b| - 1]);
    }
  }

  /** Totals of joined texts add up, unless the first text ends in a digit. */
  lemma {:induction false} TotalsAdd(a: string, b: string)
    requires a == "" || !IsDigit(a[|a| - 1])
    ensures Total(Scan(a + b)) == Total(Scan(a)) + Total(Scan(b))
  {
    ScanConcat(a, b);
    TotalConcat(Scan(a), Scan(b));
  }

  /** The 64-bit duration is the exact total exactly when that fits in 63 bits. */
  lemma {:induction false} ExactIff(tokens: seq<Token>)
    ensures Wrap(Total(tokens)) == Total(tokens) <==> Total(tokens) <= MAX_INT64
  {
    var k := WrapFacts(Total(tokens));
  }

  /** The products formed on the way to one term, from the left. */
  function Products(value: nat, unit: char): seq<int> {
    if unit == 'd' then [value * 24, value * 24 * HOUR]
    else if unit == 'M' then [value * 30, value * 30 * 24, value * 30 * 24 * HOUR]
    else if unit == 'y' then [value * 365, value * 365 * 24, value * 365 * 24 * HOUR]
    else [value * UnitValue(unit)]
  }

  lemma {:induction false} TotalGrows(tokens: seq<Token>, i: nat)
    requires i < |tokens|
    ensures Total(tokens[..i]) <= Total(tokens[..i + 1])
  {
    TotalNext(tokens, i);
    assert 0 <= Value(tokens[i].digits) * UnitValue(tokens[i].unit);
  }

  lemma {:induction false} PartialTotals(tokens: seq<Token>, i: nat)
    requires i <= |tokens|
    ensures Total(tokens[..i]) <= Total(tokens)
    decreases |tokens| - i
  {
    if i == |tokens| {
      assert tokens[..i] == tokens;
    } else {
      TotalGrows(tokens, i);
      PartialTotals(tokens, i + 1);
    }
  }

  lemma {:induction false} ProductsBounded(value: nat, unit: char)
    requires IsUnit(unit)
    ensures forall p <- Products(value, unit) :: 0 <= p <= value * UnitValue(unit)
  {
    assert value * (24 * HOUR) == value * 24 * HOUR;
    assert value * (30 * 24 * HOUR) == value * 30 * 24 * HOUR;
    assert value * (365 * 24 * HOUR) == value * 365 * 24 * HOUR;
  }

  /** When the exact total fits, no product and no partial sum on the way to it overflows. */
  lemma {:induction false} NoIntermediateOverflow(tokens: seq<Token>, i: nat)
    requires i < |tokens| && IsUnit(tokens[i].unit) && Total(tokens) <= MAX_INT64
    ensures forall p <- Products(Value(tokens[i].digits), tokens[i].unit) :: 0 <= p <= MAX_INT64
    ensures Total(tokens[..i + 1]) <= MAX_INT64
  {
    TotalNext(tokens, i);
    PartialTotals(tokens, i + 1);
    ProductsBounded(Value(tokens[i].digits), tokens[i].unit);
  }

  /** A number of weeks scans to nothing, although the conversion has a case for it. */
  lemma {:induction false} WeeksScanToNothing(n: nat)
    ensures Scan(Decimal(n) + "w") == []
  {
    var s := Decimal(n) + "w";
    DecimalFacts(n);
    DigitRunOf(Decimal(n), "w");
    assert s[|Decimal(n)|] == 'w' && s[|Decimal(n)|..] == "w";
    assert DigitRun("w") == 0 && "w"[1..] == "" && Scan("") == [];
    assert Scan("w") == [];
  }

  /** A duration outside 64 bits becomes the nearest one inside. */
  lemma {:induction false} SaturateForms(x: int)
    ensures x < -9_223_372_036_854_775_808 ==> Saturate(x) == -9_223_372_036_854_775_808
    ensures -9_223_372_036_854_775_808 <= x <= 9_223_372_036_854_775_807 ==> Saturate(x) == x
    ensures x > 9_223_372_036_854_775_807 ==> Saturate(x) == 9_223_372_036_854_775_807
  {
  }

  /** The lead time is the time until the start, if that is to come, up to the greatest 64-bit integer. */
  lemma {:induction false} LeadForms(start: int, now: int)
    ensures start <= now ==> Lead(start, now) == 0
    ensures now < start <= now + 9_223_372_036_854_775_807 ==> now + Lead(start, now) == start
    ensures start > now + 9_223_372_036_854_775_807 ==> Lead(start, now) == 9_223_372_036_854_775_807
  {
  }

  lemma {:induction false} WrapDiffers(x: int, lead: int)
    requires 0 < lead < TWO_64
    ensures Wrap(lead + x) != Wrap(x)
  {
    var i := WrapFacts(x);
    var k := WrapFacts(lead + x);
    if i <= k {
      assert i * TWO_64 <= k * TWO_64;
    } else {
      assert i * TWO_64 >= k * TWO_64 + TWO_64;
    }
  }

  /**
    Ignoring the start date of a date string gives the duration that honouring it
    would give exactly when the start is not in the future.
   */
  lemma {:induction false} StartIgnoredIff(tokens: seq<Token>, start: int, now: int)
    ensures Wrap(Total(tokens)) == Wrap(Lead(start, now) + Total(tokens)) <==> start <= now
  {
    if start > now {
      WrapDiffers(Total(tokens), Lead(start, now));
    }
  }

  // ---------- cron or date string ----------

  /** Go's zero time, before every clock reading. */
  const ZERO_TIME := -0x8000_0000_0000_0000

  function ValueOr(t: Option<int>, default: int): int {
    if t.Some? then t.value else default
  }

  /**
    A schedule's duration. The start date is compared through a variable that
    still holds the zero time. `cron` is the foreign parser: the next time after
    a given one, or None for a text that is no cron expression.
   */
  method Duration(
    sd: string, startDate: Option<int>, now: int, later: int, last: int, cron: (string, int) -> Option<int>)
    returns (duration: Option<int>)
    requires ZERO_TIME < now <= later <= last
    ensures cron(sd, now).Some? ==> duration == Some(Saturate(cron(sd, now).value - later))
    ensures cron(sd, now).None? ==>
              && (duration.Some? <==> AllReadable(Scan(sd)))
              && (duration.Some? ==> duration.value == Wrap(Total(Scan(sd))))
  {
    var start := ZERO_TIME;
    if startDate.None? || start < now {
      start := now;
    } else {
      start := ValueOr(startDate, start);
    }
    var next := cron(sd, start);
    var dateDuration := DurationFromDateString(sd, start, last);
    if next.None? && dateDuration.None? {
      return None;
    }
    if next.None? {
      return dateDuration;
    }
    duration := Some(Saturate(next.value - later));
  }
}
