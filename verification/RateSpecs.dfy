/** Rate limit strings such as "5/hour", as read by the limiter
    (src/tiresias/auth/rate_limiter.py:15-47) and by the decision point
    (src/tiresias/auth/pdp.py:239-251). */
module RateSpecs {
  import opened Strings
  import opened Wrappers

  /** So many requests in so many seconds. */
  datatype Rate = Rate(count: nat, seconds: nat)

  predicate AllDigits(s: string) {
    forall i :: 0 <= i < |s| ==> IsDigit(s[i])
  }

  function Decimal(s: string): nat
    requires AllDigits(s)
  {
    if s == "" then 0 else 10 * Decimal(s[..|s| - 1]) + (s[|s| - 1] as int - '0' as int)
  }

  function Digits(n: nat): (s: string)
    ensures AllDigits(s) && s != ""
  {
    var last := ['0' + (n % 10) as char];
    if n < 10 then last else Digits(n / 10) + last
  }

  /** The seconds of a period; the end of the pattern also matches before a final newline. */
  function PeriodSeconds(period: string): Option<nat> {
    match period
    case "second" => Some(1)
    case "second\n" => Some(1)
    case "minute" => Some(60)
    case "minute\n" => Some(60)
    case "hour" => Some(3600)
    case "hour\n" => Some(3600)
    case "day" => Some(86400)
    case "day\n" => Some(86400)
    case _ => None
  }

  function ParseWith(spec: string, period: string -> Option<nat>): Option<Rate> {
    var parts := Split(spec, '/');
    if |parts| == 2 && parts[0] != "" && AllDigits(parts[0]) && period(parts[1]).Some?
    then Some(Rate(Decimal(parts[0]), period(parts[1]).value))
    else None
  }

  function ParseSliding(spec: string): Option<Rate> {
    ParseWith(spec, (p: string) => PeriodSeconds(p))
  }

  /** The decision point does not know the period "second". */
  function PdpSeconds(period: string): Option<nat> {
    if period == "second" || period == "second\n" then None else PeriodSeconds(period)
  }

  function ParsePdp(spec: string): Option<Rate> {
    ParseWith(spec, (p: string) => PdpSeconds(p))
  }

  /** The two parsers agree on every string but per-second limits, which the decision point
      cannot read (and so does not enforce). */
  lemma ParsersDifferOnSecondsOnly(spec: string)
    ensures ParsePdp(spec)
            == if ParseSliding(spec).Some? && ParseSliding(spec).value.seconds == 1 then None else ParseSliding(spec)
  {
  }

  const PERIODS := ["second", "minute", "hour", "day", "second\n", "minute\n", "hour\n", "day\n"]

  /** A limit is read exactly when it is digits, a slash and one of four periods. */
  lemma {:induction false} ReadExactlyWhen(spec: string)
    ensures ParseSliding(spec).Some? <==>
      exists digits, period :: digits != "" && AllDigits(digits) && period in PERIODS && spec == digits + "/" + period
  {
    if ParseSliding(spec).Some? {
      var parts := Split(spec, '/');
      JoinOfSplit(spec, '/');
      assert Join(parts, '/') == parts[0] + "/" + parts[1];
      PeriodsListed(parts[1]);
      assert parts[0] != "" && AllDigits(parts[0]) && parts[1] in PERIODS && spec == parts[0] + "/" + parts[1];
    } else if exists digits, period :: digits != "" && AllDigits(digits) && period in PERIODS && spec == digits + "/" + period {
      var digits, period :| digits != "" && AllDigits(digits) && period in PERIODS && spec == digits + "/" + period;
      PeriodsListed(period);
      WrittenIsRead(digits, period);
    }
  }

  lemma PeriodsListed(period: string)
    ensures period in PERIODS <==> PeriodSeconds(period).Some?
    ensures period in PERIODS ==> '/' !in period
  {
  }

  lemma {:induction false} WrittenIsRead(digits: string, period: string)
    requires digits != "" && AllDigits(digits) && '/' !in period && PeriodSeconds(period).Some?
    ensures ParseSliding(digits + "/" + period) == Some(Rate(Decimal(digits), PeriodSeconds(period).value))
  {
    SplitFirst(digits, period, '/');
    SplitFree(period, '/');
  }

  /** What the four periods mean. */
  lemma {:induction false} PeriodsInSeconds(digits: string)
    requires digits != "" && AllDigits(digits)
    ensures ParseSliding(digits + "/" + "second") == Some(Rate(Decimal(digits), 1))
    ensures ParseSliding(digits + "/" + "minute") == Some(Rate(Decimal(digits), 60))
    ensures ParseSliding(digits + "/" + "hour") == Some(Rate(Decimal(digits), 60 * 60))
    ensures ParseSliding(digits + "/" + "day") == Some(Rate(Decimal(digits), 24 * 60 * 60))
  {
    WrittenIsRead(digits, "second");
    WrittenIsRead(digits, "minute");
    WrittenIsRead(digits, "hour");
    WrittenIsRead(digits, "day");
  }

  lemma {:induction false} DecimalOfDigits(n: nat)
    ensures Decimal(Digits(n)) == n
  {
    var last := ['0' + (n % 10) as char];
    if n < 10 {
      assert Digits(n) == last && last[..0] == "";
    } else {
      DecimalOfDigits(n / 10);
      assert (Digits(n / 10) + last)[..|Digits(n / 10)|] == Digits(n / 10);
    }
  }

  /** Every count and period that is written out is read back. */
  lemma {:induction false} ParseOfFormat(n: nat, period: string)
    requires '/' !in period && PeriodSeconds(period).Some?
    ensures ParseSliding(Digits(n) + "/" + period) == Some(Rate(n, PeriodSeconds(period).value))
  {
    assert '/' !in Digits(n);
    SplitFirst(Digits(n), period, '/');
    SplitFree(period, '/');
    DecimalOfDigits(n);
  }
}
