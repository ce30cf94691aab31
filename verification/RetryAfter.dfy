/** The Retry-After header, RFC 9110 section 10.2.3: delay-seconds or a date.
    Durations are int64 nanoseconds. */
module RetryAfter {
  import opened GoErrors

  const SECOND: int := 1_000_000_000
  const MAX_INT64: int := 0x7fff_ffff_ffff_ffff
  const MIN_INT64: int := -0x8000_0000_0000_0000

  predicate IsDigit(c: char) {
    '0' <= c <= '9'
  }

  predicate IsDigits(s: string) {
    s != [] && forall c | c in s :: IsDigit(c)
  }

  function DigitsValue(s: string): nat
    requires forall c | c in s :: IsDigit(c)
  {
    if s == [] then 0
    else
      assert IsDigit(s[|s| - 1]);
      DigitsValue(s[..|s| - 1]) * 10 + (s[|s| - 1] as int - '0' as int)
  }

  /** strconv.ParseUint(s, 10, 31). */
  function ParseUint31(s: string): Option<nat> {
    if IsDigits(s) && DigitsValue(s) < 0x8000_0000 then Some(DigitsValue(s)) else None
  }

  /** time.Time.Sub saturates at the ends of the int64 range. */
  function TimeSub(t: int, now: int): int {
    if t - now > MAX_INT64 then MAX_INT64
    else if t - now < MIN_INT64 then MIN_INT64
    else t - now
  }

  datatype Parsed = Parsed(delay: int, malformed: bool)

  function Max(a: int, b: int): int {
    if a >= b then a else b
  }

  /** ParseRetryAfter; date is the reading of HTTP dates, in nanoseconds. */
  function Parse(now: int, s: string, date: string -> Option<int>): (r: Parsed)
    ensures 0 <= r.delay <= MAX_INT64
    ensures r.malformed <==> date(s).None? && !(IsDigits(s) && DigitsValue(s) < 0x8000_0000)
    ensures r.malformed ==> r.delay == 0
    ensures !(IsDigits(s) && DigitsValue(s) < 0x8000_0000) && date(s).Some? ==>
              r.delay == if date(s).value <= now then 0
                         else if date(s).value - now > 0x7fff_ffff_ffff_ffff then 0x7fff_ffff_ffff_ffff
                         else date(s).value - now
  {
    match ParseUint31(s)
    case Some(sec) => Parsed(sec * SECOND, false)
    case None =>
      match date(s)
      case Some(t) => Parsed(Max(TimeSub(t, now), 0), false)
      case None => Parsed(0, true)
  }

  function Decimal(n: nat): string {
    if n < 10 then [('0' as int + n) as char] else Decimal(n / 10) + [('0' as int + n % 10) as char]
  }

  lemma {:induction false} DecimalValue(n: nat)
    ensures IsDigits(Decimal(n)) && DigitsValue(Decimal(n)) == n
  {
    if n < 10 {
      assert Decimal(n)[..0] == [];
    } else {
      DecimalValue(n / 10);
      var s := Decimal(n);
      assert s[..|s| - 1] == Decimal(n / 10);
    }
  }

  /** Printing and parsing is the identity on seconds below 2^31, and anything
      larger is malformed rather than truncated. */
  lemma SecondsRoundTrip(n: nat, now: int, date: string -> Option<int>)
    ensures n < 0x8000_0000 ==> Parse(now, Decimal(n), date) == Parsed(n * SECOND, false)
    ensures n >= 0x8000_0000 && date(Decimal(n)).None? ==> Parse(now, Decimal(n), date) == Parsed(0, true)
  {
    DecimalValue(n);
  }

  /** A sign is no digit: a signed number is malformed, not a delay. */
  lemma SignedIsMalformed(s: string, now: int, date: string -> Option<int>)
    requires s != [] && s[0] in {'-', '+'} && date(s).None?
    ensures Parse(now, s, date) == Parsed(0, true)
  {
    assert s[0] in s && !IsDigit(s[0]);
  }
}
