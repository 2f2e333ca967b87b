/** app/chat/constants.ts: the debate's wait bounds and turn limit, read
    from the environment with positive-integer parsing and fixed defaults. */
module DebateConstants {
  import opened Types
  import opened Strings

  const DefaultMinWaitMs := 900
  const DefaultMaxWaitMs := 3000
  const DefaultMaxTurns := 15

  const MinWaitVar := "NEXT_PUBLIC_DEBATE_MIN_WAIT_MS"
  const MaxWaitVar := "NEXT_PUBLIC_DEBATE_MAX_WAIT_MS"
  const MaxTurnsVar := "NEXT_PUBLIC_DEBATE_MAX_TURNS"

  predicate IsDigit(c: char) {
    '0' <= c <= '9'
  }

  function DigitValue(c: char): (d: nat)
    requires IsDigit(c)
    ensures d < 10
  {
    c as int - '0' as int
  }

  /** The value of a run of decimal digits, most significant first. */
  function DigitsValue(ds: string): nat
    requires forall i | 0 <= i < |ds| :: IsDigit(ds[i])
  {
    if |ds| == 0 then 0 else DigitsValue(ds[..|ds| - 1]) * 10 + DigitValue(ds[|ds| - 1])
  }

  /** The length of the run of digits `s` starts with. */
  function DigitCount(s: string): (n: nat)
    ensures n <= |s|
    ensures forall i | 0 <= i < n :: IsDigit(s[i])
    ensures n < |s| ==> !IsDigit(s[n])
  {
    if |s| > 0 && IsDigit(s[0]) then 1 + DigitCount(s[1..]) else 0
  }

  /** The text after leading whitespace and one optional sign. */
  function Unsigned(s: string): string {
    AfterSign(TrimStart(s))
  }

  predicate Negative(s: string) {
    MinusSign(TrimStart(s))
  }

  /** `t` without its leading sign, if it has one. */
  function AfterSign(t: string): string {
    if |t| > 0 && (t[0] == '-' || t[0] == '+') then t[1..] else t
  }

  predicate MinusSign(t: string) {
    |t| > 0 && t[0] == '-'
  }

  /** `Number.parseInt(s, 10)`: leading whitespace, an optional sign, then
      the longest run of digits, the rest ignored; NaN (None) when no
      digit follows. */
  function ParseInt(s: string): (r: Option<int>)
    ensures r.None? <==> |Unsigned(s)| == 0 || !IsDigit(Unsigned(s)[0])
    ensures r.Some? && r.value > 0 ==> !Negative(s)
  {
    match Magnitude(Unsigned(s))
    case None => None
    case Some(magnitude) => Some(if Negative(s) then -(magnitude as int) else magnitude)
  }

  /** The value of the digit run `u` starts with, if it has one. */
  function Magnitude(u: string): (r: Option<nat>)
    ensures r.None? <==> |u| == 0 || !IsDigit(u[0])
  {
    var n := DigitCount(u);
    if n == 0 then None else Some(DigitsValue(u[..n]))
  }

  /** `parsePositiveInt(value, fallback)`: the parsed value when it is a
      positive integer, otherwise the fallback. */
  function ParsePositiveInt(value: Option<string>, fallback: int): (r: int)
    ensures r == fallback || r > 0
    ensures value.None? ==> r == fallback
    ensures value.Some? && (ParseInt(value.value).None? || ParseInt(value.value).value <= 0) ==> r == fallback
    ensures value.Some? && ParseInt(value.value).Some? && ParseInt(value.value).value > 0 ==>
              r == ParseInt(value.value).value
  {
    var parsed := ParseInt(match value case Some(v) => v case None => "");
    if parsed.None? || parsed.value <= 0 then fallback else parsed.value
  }

  function Lookup(env: map<string, string>, name: string): Option<string> {
    if name in env then Some(env[name]) else None
  }

  datatype DebateConfig = DebateConfig(minWaitMs: int, maxWaitMs: int, maxTurns: int)

  /** `DEBATE_MIN_WAIT_MS`, `DEBATE_MAX_WAIT_MS` and `DEBATE_MAX_TURNS` for
      the environment `env`: the two parsed delays in sorted order, and a
      positive turn limit. */
  function Config(env: map<string, string>): (c: DebateConfig)
    ensures 0 < c.minWaitMs <= c.maxWaitMs
    ensures c.maxTurns > 0
    ensures multiset{c.minWaitMs, c.maxWaitMs} ==
              multiset{ParsePositiveInt(Lookup(env, MinWaitVar), DefaultMinWaitMs),
                       ParsePositiveInt(Lookup(env, MaxWaitVar), DefaultMaxWaitMs)}
  {
    var envMinDelay := ParsePositiveInt(Lookup(env, MinWaitVar), DefaultMinWaitMs);
    var envMaxDelay := ParsePositiveInt(Lookup(env, MaxWaitVar), DefaultMaxWaitMs);
    DebateConfig(if envMinDelay <= envMaxDelay then envMinDelay else envMaxDelay,
                 if envMinDelay <= envMaxDelay then envMaxDelay else envMinDelay,
                 ParsePositiveInt(Lookup(env, MaxTurnsVar), DefaultMaxTurns))
  }

  /** With nothing set, the defaults 900, 3000 and 15. */
  lemma Defaults()
    ensures Config(map[]) == DebateConfig(900, 3000, 15)
  {
    assert Unsigned("") == "";
  }

  /** The digits of `n` read back give `n`. */
  lemma {:induction false} DecimalValue(n: nat)
    ensures DigitsValue(Decimal(n)) == n
  {
    var d := Decimal(n);
    DigitRoundTrip(n % 10);
    if n >= 10 {
      DecimalValue(n / 10);
      assert d[..|d| - 1] == Decimal(n / 10);
      assert d[|d| - 1] == Digit(n % 10);
    }
  }

  lemma DigitRoundTrip(k: nat)
    requires k < 10
    ensures DigitValue(Digit(k)) == k
  {
    var digits := "0123456789";
    assert Digit(k) == digits[k];
    assert digits[k] as int - '0' as int == k by {
      if k == 0 {} else if k == 1 {} else if k == 2 {} else if k == 3 {} else if k == 4 {}
      else if k == 5 {} else if k == 6 {} else if k == 7 {} else if k == 8 {} else {}
    }
  }

  /** A digit run stops at the first non-digit. */
  lemma {:induction false} DigitRunEnds(ds: string, rest: string)
    requires forall i | 0 <= i < |ds| :: IsDigit(ds[i])
    requires rest == [] || !IsDigit(rest[0])
    ensures DigitCount(ds + rest) == |ds|
  {
    if |ds| > 0 {
      assert (ds + rest)[1..] == ds[1..] + rest;
      DigitRunEnds(ds[1..], rest);
    }
  }

  /** `parseInt` reads back the decimal rendering of any natural number,
      whatever non-digit text follows it. */
  lemma ParseDecimal(n: nat, rest: string)
    requires rest == [] || !IsDigit(rest[0])
    ensures ParseInt(Decimal(n) + rest) == Some(n)
  {
    var d := Decimal(n);
    var s := d + rest;
    assert s[0] == d[0];
    StartsWithDigit(s);
    DigitRunEnds(d, rest);
    assert s[..|d|] == d;
    DecimalValue(n);
  }

  /** A text that starts with a digit has neither whitespace nor a sign to skip. */
  lemma StartsWithDigit(s: string)
    requires |s| > 0 && IsDigit(s[0])
    ensures Unsigned(s) == s && !Negative(s)
  {
    var t := TrimStart(s);
    assert t == s;
    assert t[0] != '-' && t[0] != '+';
  }

  /** `parseInt` over any input of the shape it reads: leading whitespace,
      an optional sign, then a text starting with a digit. The value is the
      magnitude of the leading digit run, negated after '-'. */
  lemma ParseSigned(ws: string, sign: string, u: string, magnitude: nat)
    requires AllSpace(ws) && (sign == "" || sign == "+" || sign == "-")
    requires |u| > 0 && IsDigit(u[0]) && Magnitude(u) == Some(magnitude)
    ensures ParseInt(ws + sign + u) == Some(if sign == "-" then -(magnitude as int) else magnitude)
  {
    SignedText(ws, sign, u);
    ParseFromParts(ws + sign + u, magnitude, sign == "-");
  }

  /** After whitespace and an optional sign, a text starting with a digit
      is what `parseInt` reads its digits from. */
  lemma SignedText(ws: string, sign: string, u: string)
    requires AllSpace(ws) && (sign == "" || sign == "+" || sign == "-")
    requires |u| > 0 && IsDigit(u[0])
    ensures Unsigned(ws + sign + u) == u
    ensures Negative(ws + sign + u) <==> sign == "-"
  {
    SkipToSign(ws, sign, u);
    SignPart(sign, u);
  }

  lemma SignPart(sign: string, u: string)
    requires (sign == "" || sign == "+" || sign == "-") && |u| > 0 && IsDigit(u[0])
    ensures AfterSign(sign + u) == u && (MinusSign(sign + u) <==> sign == "-")
  {
    if sign == "" {
      assert sign + u == u;
    } else {
      assert (sign + u)[0] == sign[0] && (sign + u)[1..] == u;
    }
  }

  lemma SkipToSign(ws: string, sign: string, u: string)
    requires AllSpace(ws) && (sign == "" || sign == "+" || sign == "-")
    requires |u| > 0 && IsDigit(u[0])
    ensures TrimStart(ws + sign + u) == sign + u
  {
    var t := sign + u;
    assert ws + sign + u == ws + t;
    assert t[0] == if sign == "" then u[0] else sign[0];
    TrimStartSkips(ws, t);
  }

  lemma ParseFromParts(s: string, magnitude: nat, negative: bool)
    requires Magnitude(Unsigned(s)) == Some(magnitude) && (Negative(s) <==> negative)
    ensures ParseInt(s) == Some(if negative then -(magnitude as int) else magnitude)
  {
  }

  /** The magnitude read from a digit run is the run's value, whatever
      non-digit text follows it. */
  lemma DigitsMagnitude(digits: string, rest: string)
    requires |digits| > 0 && forall i | 0 <= i < |digits| :: IsDigit(digits[i])
    requires rest == [] || !IsDigit(rest[0])
    ensures Magnitude(digits + rest) == Some(DigitsValue(digits))
  {
    DigitRunEnds(digits, rest);
    assert (digits + rest)[..|digits|] == digits;
  }

  /** Leading zeros do not change a digit run's value. */
  lemma {:induction false} LeadingZeros(zeros: string, ds: string)
    requires forall i | 0 <= i < |zeros| :: zeros[i] == '0'
    requires forall i | 0 <= i < |ds| :: IsDigit(ds[i])
    ensures forall i | 0 <= i < |zeros + ds| :: IsDigit((zeros + ds)[i])
    ensures DigitsValue(zeros + ds) == DigitsValue(ds)
  {
    var s := zeros + ds;
    assert forall i | 0 <= i < |s| :: IsDigit(s[i]) by {
      forall i | 0 <= i < |s| ensures IsDigit(s[i]) {
        if i < |zeros| { assert s[i] == zeros[i]; } else { assert s[i] == ds[i - |zeros|]; }
      }
    }
    if ds == [] {
      assert s == zeros;
      if zeros != [] {
        LeadingZeros(zeros[..|zeros| - 1], []);
        assert zeros[..|zeros| - 1] + [] == zeros[..|zeros| - 1];
      }
    } else {
      var init := ds[..|ds| - 1];
      LeadingZeros(zeros, init);
      assert s[..|s| - 1] == zeros + init;
    }
  }

  /** `parseInt` of whitespace, an optional sign, zeros and then the decimal
      rendering of `n`, followed by anything that is not a digit. */
  lemma ParseDecimalForms(ws: string, sign: string, zeros: string, n: nat, rest: string)
    requires AllSpace(ws) && (sign == "" || sign == "+" || sign == "-")
    requires forall i | 0 <= i < |zeros| :: zeros[i] == '0'
    requires rest == [] || !IsDigit(rest[0])
    ensures ParseInt(ws + sign + (zeros + Decimal(n) + rest)) == Some(if sign == "-" then -(n as int) else n)
  {
    var d := Decimal(n);
    LeadingZeros(zeros, d);
    DecimalValue(n);
    DigitsMagnitude(zeros + d, rest);
    assert (zeros + d + rest)[0] == (zeros + d)[0];
    ParseSigned(ws, sign, zeros + d + rest, n);
  }

  /** A positive decimal setting replaces the default; zero does not. */
  lemma PositiveSetting(n: nat, fallback: int)
    ensures n > 0 ==> ParsePositiveInt(Some(Decimal(n)), fallback) == n
    ensures n == 0 ==> ParsePositiveInt(Some(Decimal(n)), fallback) == fallback
  {
    ParseDecimal(n, "");
    assert Decimal(n) + "" == Decimal(n);
  }

  /** Two positive delays set in either order come out sorted. */
  lemma DelaysSorted(a: nat, b: nat)
    requires a > 0 && b > 0
    ensures var c := Config(map[MinWaitVar := Decimal(a), MaxWaitVar := Decimal(b)]);
      c.minWaitMs == (if a <= b then a else b) && c.maxWaitMs == (if a <= b then b else a)
      && c.maxTurns == DefaultMaxTurns
  {
    var env := map[MinWaitVar := Decimal(a), MaxWaitVar := Decimal(b)];
    SettingLookups(env, Decimal(a), Decimal(b));
    PositiveSetting(a, DefaultMinWaitMs);
    PositiveSetting(b, DefaultMaxWaitMs);
    assert Unsigned("") == "";
  }

  lemma SettingLookups(env: map<string, string>, minWait: string, maxWait: string)
    requires env == map[MinWaitVar := minWait, MaxWaitVar := maxWait]
    ensures Lookup(env, MinWaitVar) == Some(minWait)
    ensures Lookup(env, MaxWaitVar) == Some(maxWait)
    ensures Lookup(env, MaxTurnsVar) == None
  {
    assert |MaxTurnsVar| == 28 && |MinWaitVar| == 30 && |MaxWaitVar| == 30;
    assert MinWaitVar != MaxWaitVar by {
      assert MinWaitVar[20] != MaxWaitVar[20];
    }
  }
}
