/**
 The refresh-token lifetime: a configuration string such as "7d", its parser
 (the regular expression of auth.service.ts) and the arithmetic that turns it
 into a row expiry and into a JWT `exp`. Times are milliseconds, JWT times are
 seconds.
 */
module Duration {
  import opened Wrappers

  datatype Unit = Days | Hours | Minutes | Seconds {
    /** Length of the unit in seconds. */
    function InSeconds(): (n: nat) {
      match this
      case Days => 86400
      case Hours => 3600
      case Minutes => 60
      case Seconds => 1
    }

    function Letter(): char {
      match this
      case Days => 'd'
      case Hours => 'h'
      case Minutes => 'm'
      case Seconds => 's'
    }
  }

  datatype Lifetime = Lifetime(value: nat, unit: Unit) {
    function InSeconds(): nat { value * unit.InSeconds() }
  }

  predicate IsDigit(c: char) { '0' <= c <= '9' }

  predicate AllDigits(s: string) { forall i | 0 <= i < |s| :: IsDigit(s[i]) }

  /** `Number.parseInt(s, 10)` on a string of digits. */
  function ParseInt(s: string): nat
    requires AllDigits(s)
  {
    if s == [] then 0
    else 10 * ParseInt(s[..|s| - 1]) + (s[|s| - 1] as int - '0' as int)
  }

  /** Decimal printing, without leading zeros. */
  function PrintNat(n: nat): (s: string)
    ensures |s| > 0 && AllDigits(s)
  {
    var digit := ['0' + (n % 10) as char];
    if n < 10 then digit else PrintNat(n / 10) + digit
  }

  function UnitOf(c: char): Option<Unit> {
    if c == 'd' then Some(Days)
    else if c == 'h' then Some(Hours)
    else if c == 'm' then Some(Minutes)
    else if c == 's' then Some(Seconds)
    else None
  }

  /** Match `/^(\d+)([dhms])$/` and read the two groups. */
  function Parse(s: string): Option<Lifetime> {
    if |s| < 2 then None
    else
      var digits, last := s[..|s| - 1], UnitOf(s[|s| - 1]);
      if AllDigits(digits) && last.Some? then Some(Lifetime(ParseInt(digits), last.value)) else None
  }

  lemma {:induction false} ParseIntOfPrintNat(n: nat)
    ensures ParseInt(PrintNat(n)) == n
  {
    if n >= 10 {
      var digit := ['0' + (n % 10) as char];
      var s := PrintNat(n);
      assert s == PrintNat(n / 10) + digit;
      assert s[..|s| - 1] == PrintNat(n / 10);
      ParseIntOfPrintNat(n / 10);
    }
  }

  /** The parser recovers every printed value and unit. */
  lemma ParseRecoversPrinted(l: Lifetime)
    ensures Parse(PrintNat(l.value) + [l.unit.Letter()]) == Some(l)
  {
    var s := PrintNat(l.value) + [l.unit.Letter()];
    assert s[..|s| - 1] == PrintNat(l.value);
    ParseIntOfPrintNat(l.value);
  }

  /** What a printed lifetime means: days, hours, minutes and seconds have the
      lengths everybody expects. */
  lemma UnitsAreExact(n: nat)
    ensures Parse(PrintNat(n) + "d").Some? && 1000 * Parse(PrintNat(n) + "d").value.InSeconds() == 86_400_000 * n
    ensures Parse(PrintNat(n) + "h").Some? && 1000 * Parse(PrintNat(n) + "h").value.InSeconds() == 3_600_000 * n
    ensures Parse(PrintNat(n) + "m").Some? && 1000 * Parse(PrintNat(n) + "m").value.InSeconds() == 60_000 * n
    ensures Parse(PrintNat(n) + "s").Some? && 1000 * Parse(PrintNat(n) + "s").value.InSeconds() == 1_000 * n
  {
    ParseRecoversPrinted(Lifetime(n, Days));
    ParseRecoversPrinted(Lifetime(n, Hours));
    ParseRecoversPrinted(Lifetime(n, Minutes));
    ParseRecoversPrinted(Lifetime(n, Seconds));
  }

  /** The digits are the ten of them. */
  lemma DigitsAreTen(c: char)
    ensures IsDigit(c) <==> c in "0123456789"
  {
    var ten := "0123456789";
    assert ten[0] == '0' && ten[1] == '1' && ten[2] == '2' && ten[3] == '3' && ten[4] == '4';
    assert ten[5] == '5' && ten[6] == '6' && ten[7] == '7' && ten[8] == '8' && ten[9] == '9';
  }

  /** Digits are read in base ten, the last one counting least. */
  lemma ReadsBaseTen(s: string, d: nat)
    requires AllDigits(s) && d < 10
    ensures ParseInt("") == 0 && AllDigits(s + ["0123456789"[d]])
    ensures ParseInt(s + ["0123456789"[d]]) == 10 * ParseInt(s) + d
  {
    assert (s + ["0123456789"[d]])[..|s|] == s;
  }

  /** Leading zeros are accepted and change nothing. */
  lemma {:induction false} ParseIgnoresLeadingZeros(zeros: nat, digits: string)
    requires AllDigits(digits)
    ensures AllDigits(Zeros(zeros) + digits)
    ensures ParseInt(Zeros(zeros) + digits) == ParseInt(digits)
    decreases |digits| + zeros
  {
    var s := Zeros(zeros) + digits;
    if digits != [] {
      ParseIgnoresLeadingZeros(zeros, digits[..|digits| - 1]);
      assert s[..|s| - 1] == Zeros(zeros) + digits[..|digits| - 1];
    } else if zeros > 0 {
      ParseIgnoresLeadingZeros(zeros - 1, []);
      assert s == Zeros(zeros);
      assert s[..|s| - 1] == Zeros(zeros - 1) + [];
    }
  }

  function Zeros(n: nat): (s: string)
    ensures |s| == n && forall i | 0 <= i < n :: s[i] == '0'
  {
    seq(n, _ => '0')
  }

  /** The parser accepts exactly nonempty digits followed by one unit letter. */
  lemma ParseAcceptsExactly(s: string)
    ensures Parse(s).Some? <==>
            exists digits: string, u: Unit ::
              digits != [] && AllDigits(digits) && s == digits + [u.Letter()]
  {
    if Parse(s).Some? {
      var digits, u := s[..|s| - 1], UnitOf(s[|s| - 1]).value;
      assert s == digits + [u.Letter()];
    }
    if digits: string, u: Unit :| digits != [] && AllDigits(digits) && s == digits + [u.Letter()] {
      assert s[..|s| - 1] == digits;
    }
  }

  /** The `exp` claim jsonwebtoken writes: `iat` in whole seconds plus the lifetime. */
  function JwtExp(signedAt: nat, lifetime: nat): nat { signedAt / 1000 + lifetime }

  /** `jwt.verify` rejects a token from its `exp` second on. */
  predicate JwtInDate(exp: int, now: nat) { now / 1000 < exp }

  /** So a token is in date strictly before the instant its `exp` names. */
  lemma InDateIff(exp: int, now: nat)
    ensures JwtInDate(exp, now) <==> now < 1000 * exp
  {
  }

  /** The in-place `Date` update of saveRefreshToken, one setter per unit. */
  method AddLifetime(now: nat, lifetime: Lifetime) returns (expiresAt: nat)
    ensures lifetime.unit.Days? ==> expiresAt == now + 86_400_000 * lifetime.value
    ensures lifetime.unit.Hours? ==> expiresAt == now + 3_600_000 * lifetime.value
    ensures lifetime.unit.Minutes? ==> expiresAt == now + 60_000 * lifetime.value
    ensures lifetime.unit.Seconds? ==> expiresAt == now + 1_000 * lifetime.value
  {
    expiresAt := now;
    match lifetime.unit
    case Days => expiresAt := expiresAt + lifetime.value * 24 * 60 * 60 * 1000;
    case Hours => expiresAt := expiresAt + lifetime.value * 60 * 60 * 1000;
    case Minutes => expiresAt := expiresAt + lifetime.value * 60 * 1000;
    case Seconds => expiresAt := expiresAt + lifetime.value * 1000;
  }

}
