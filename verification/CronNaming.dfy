/**
 Names and annotations of the searches a CronSearch creates: `constructSearchForCronSearch` and
 `getScheduledTimeForSearch` (internal/controller/cronsearch_controller.go).
 */
module CronNaming {
  import opened Wrappers
  import opened CronSchedule

  const DIGITS: string := "0123456789"

  /** The decimal numeral of a natural number, without leading zeros. */
  function Decimal(n: nat): (s: string)
    ensures s != [] && forall c :: c in s ==> c in DIGITS
    ensures n >= 10 ==> |s| > 1
  {
    if n < 10 then [DIGITS[n]] else Decimal(n / 10) + [DIGITS[n % 10]]
  }

  function Numeral(n: int): string { if n < 0 then "-" + Decimal(-n) else Decimal(n) }

  lemma {:induction false} DecimalInjective(m: nat, n: nat)
    requires Decimal(m) == Decimal(n)
    ensures m == n
  {
    var s := Decimal(m);
    if m >= 10 && n >= 10 {
      assert s[..|s| - 1] == Decimal(m / 10) == Decimal(n / 10);
      assert s[|s| - 1] == DIGITS[m % 10] == DIGITS[n % 10];
      DecimalInjective(m / 10, n / 10);
      assert m % 10 == n % 10;
    } else if m < 10 && n < 10 {
      assert DIGITS[m] == DIGITS[n];
    }
  }

  /** The number that a string of digits stands for. */
  function ValueOf(s: string): int {
    if s == [] then 0 else 10 * ValueOf(s[..|s| - 1]) + (s[|s| - 1] as int - '0' as int)
  }

  /** The numeral of a number stands for that number, and has no leading zero. */
  lemma {:induction false} DecimalStandsFor(n: nat)
    ensures ValueOf(Decimal(n)) == n && (n > 0 ==> Decimal(n)[0] != '0')
  {
    var s := Decimal(n);
    assert DIGITS[n % 10] as int - '0' as int == n % 10;
    if n >= 10 {
      DecimalStandsFor(n / 10);
      assert s[..|s| - 1] == Decimal(n / 10);
    } else {
      assert s[..0] == [];
    }
  }

  lemma NumeralSign(n: int)
    ensures Numeral(n)[0] == '-' <==> n < 0
  {
    if n >= 0 {
      assert Decimal(n)[0] in DIGITS;
    }
  }

  lemma NumeralInjective(m: int, n: int)
    requires Numeral(m) == Numeral(n)
    ensures m == n
  {
    NumeralSign(m);
    NumeralSign(n);
    if m < 0 {
      assert Decimal(-m) == Numeral(m)[1..] == Numeral(n)[1..] == Decimal(-n);
      DecimalInjective(-m, -n);
    } else {
      DecimalInjective(m, n);
    }
  }

  /** Seconds since the epoch, rounded down. */
  function Unix(t: int): int { t / NANOS }

  /** The deterministic name of the search for the run scheduled at `t`. */
  function NameFor(cronSearch: string, t: int): string { cronSearch + "-" + Numeral(Unix(t)) }

  /** The name of a search is that of the CronSearch, a dash, and the second of the run in decimal digits. */
  lemma NameIs(cronSearch: string, t: nat) returns (digits: string)
    ensures NameFor(cronSearch, t) == cronSearch + "-" + digits
    ensures digits != [] && (forall c :: c in digits ==> '0' <= c <= '9') && ValueOf(digits) == t / 1_000_000_000
  {
    digits := Numeral(Unix(t));
    DecimalStandsFor(Unix(t));
  }

  /** Two runs of one CronSearch have the same name exactly if they are the same activation. */
  lemma SameNameSameActivation(cronSearch: string, t: int, u: int)
    requires t % NANOS == 0 && u % NANOS == 0
    ensures NameFor(cronSearch, t) == NameFor(cronSearch, u) <==> t == u
  {
    if NameFor(cronSearch, t) == NameFor(cronSearch, u) {
      var k := |cronSearch + "-"|;
      assert NameFor(cronSearch, t)[k..] == Numeral(Unix(t));
      assert NameFor(cronSearch, u)[k..] == Numeral(Unix(u));
      NumeralInjective(Unix(t), Unix(u));
    }
  }

  /** The scheduled-at annotation: an RFC 3339 timestamp has whole seconds. */
  datatype Annotation = Absent | Malformed | At(seconds: int)

  function Format(t: int): Annotation { At(Unix(t)) }

  function Parse(a: Annotation): Option<int> {
    match a
    case At(s) => Some(s * NANOS)
    case _ => None
  }

  /** Writing an instant into the annotation and reading it back gives the same instant if and
      only if it is a whole second, as activations are. */
  lemma AnnotationRoundTrip(t: int)
    ensures Parse(Format(t)) == Some(t) <==> t % NANOS == 0
  {
  }
}
