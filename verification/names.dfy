/**
 Display names: "Player" followed by the decimal digits of
 Math.floor(Math.random() * 10000), the way a JavaScript number that is a
 non-negative integer below 10000 converts to a string.
 */
module Names {
  import opened GameState

  const PREFIX: string := "Player"

  /** Names are drawn from 0 .. NAME_RANGE - 1. */
  const NAME_RANGE: int := 10000

  predicate IsDigit(c: char) {
    '0' <= c <= '9'
  }

  predicate AllDigits(s: string) {
    forall i | 0 <= i < |s| :: IsDigit(s[i])
  }

  function DigitChar(d: int): (c: char)
    requires 0 <= d < 10
    ensures IsDigit(c)
    ensures (c as int) - ('0' as int) == d
  {
    (('0' as int) + d) as char
  }

  /** The decimal text of a natural number: no sign, no leading zero. */
  function Decimal(n: nat): (s: string)
    ensures 1 <= |s|
    ensures AllDigits(s)
    ensures |s| > 1 ==> s[0] != '0'
    ensures n < 10 <==> |s| == 1
    decreases n
  {
    if n < 10 then [DigitChar(n)] else Decimal(n / 10) + [DigitChar(n % 10)]
  }

  /** Reads a string of digits back as the number it denotes. */
  function ParseDecimal(s: string): nat
    requires AllDigits(s)
  {
    if s == [] then 0
    else ParseDecimal(s[..|s| - 1]) * 10 + ((s[|s| - 1] as int) - ('0' as int))
  }

  /** Reading the decimal text of `n` gives `n` back. */
  lemma {:induction false} ParseDecimalOfDecimal(n: nat)
    ensures ParseDecimal(Decimal(n)) == n
    decreases n
  {
    var s := Decimal(n);
    if n >= 10 {
      assert s[..|s| - 1] == Decimal(n / 10);
      ParseDecimalOfDecimal(n / 10);
    }
  }

  /** Distinct numbers have distinct decimal texts. */
  lemma DecimalInjective(m: nat, n: nat)
    requires Decimal(m) == Decimal(n)
    ensures m == n
  {
    ParseDecimalOfDecimal(m);
    ParseDecimalOfDecimal(n);
  }

  /** The number of a name: Math.floor(u * 10000). */
  function NameNumber(u: Unit): (k: int)
    ensures 0 <= k < NAME_RANGE
  {
    (u * NAME_RANGE as real).Floor
  }

  /** generateName(): "Player" and the decimal number drawn from `u`. */
  function GenerateName(u: Unit): (name: string)
    ensures |PREFIX| < |name| <= |PREFIX| + 4
    ensures name[..|PREFIX|] == PREFIX
    ensures AllDigits(name[|PREFIX|..])
    ensures ParseDecimal(name[|PREFIX|..]) == NameNumber(u)
    ensures |name| > |PREFIX| + 1 ==> name[|PREFIX|] != '0'
  {
    var digits := Decimal(NameNumber(u));
    DecimalLength(NameNumber(u));
    ParseDecimalOfDecimal(NameNumber(u));
    assert (PREFIX + digits)[|PREFIX|..] == digits;
    PREFIX + digits
  }

  /** A number below 10000 has at most four digits. */
  lemma {:induction false} DecimalLength(n: nat)
    requires n < NAME_RANGE
    ensures |Decimal(n)| <= 4
  {
    if n >= 10 {
      if n >= 100 {
        if n >= 1000 {
          assert |Decimal(n / 1000)| == 1;
          assert Decimal(n / 100) == Decimal(n / 100 / 10) + [DigitChar(n / 100 % 10)];
        }
      }
    }
  }

  /** Two draws yield the same name exactly when they yield the same number. */
  lemma SameNameIffSameNumber(u: Unit, v: Unit)
    ensures GenerateName(u) == GenerateName(v) <==> NameNumber(u) == NameNumber(v)
  {
  }
}
