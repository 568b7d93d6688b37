/** The side file ".<name>.cfs" that records how large a package is once it has been downloaded completely. */
module CompleteFileSize {
  import opened Wrappers

  const U64_LIMIT: nat := 0x1_0000_0000_0000_0000

  predicate IsDigit(c: char) {
    '0' <= c <= '9'
  }

  predicate AllDigits(s: string) {
    forall i :: 0 <= i < |s| ==> IsDigit(s[i])
  }

  function Digit(d: nat): char
    requires d < 10
  {
    ('0' as int + d) as char
  }

  function Decimal(n: nat): string {
    if n < 10 then [Digit(n)] else Decimal(n / 10) + [Digit(n % 10)]
  }

  /** The text that is written for size n. */
  function Print(n: nat): string {
    Decimal(n) + "\n"
  }

  function DecimalValue(s: string): nat
    requires AllDigits(s)
  {
    if s == "" then 0
    else 10 * DecimalValue(s[..|s| - 1]) + (s[|s| - 1] as int - '0' as int)
  }

  /** Parsing an unsigned 64-bit integer out of a text that holds digits only: the empty text and
      values from 2^64 on are errors. */
  function ParseU64(s: string): Option<nat>
    requires AllDigits(s)
  {
    if s == "" || DecimalValue(s) >= U64_LIMIT then None else Some(DecimalValue(s))
  }

  /** What a reader makes of the side file: one line of digits, or nothing. */
  function Parse(text: string): Option<nat> {
    if |text| > 0 && text[|text| - 1] == '\n' && AllDigits(text[..|text| - 1])
    then ParseU64(text[..|text| - 1])
    else None
  }

  lemma {:induction false} DecimalMeansItsNumber(n: nat)
    ensures Decimal(n) != "" && AllDigits(Decimal(n)) && DecimalValue(Decimal(n)) == n
  {
    if n >= 10 {
      DecimalMeansItsNumber(n / 10);
      assert Decimal(n)[..|Decimal(n)| - 1] == Decimal(n / 10);
    }
  }

  /** Round trip: exactly the 64-bit sizes are read back as they were written. */
  lemma PrintThenParse(n: nat)
    ensures Parse(Print(n)) == if n < U64_LIMIT then Some(n) else None
  {
    DecimalMeansItsNumber(n);
    assert Print(n)[..|Print(n)| - 1] == Decimal(n);
  }

  /** A reader that races the writer sees nothing until the last byte has arrived. */
  lemma ProperPrefixIsUnreadable(n: nat, text: string)
    requires text < Print(n)
    ensures Parse(text) == None
  {
    DecimalMeansItsNumber(n);
    if |text| > 0 {
      assert text[|text| - 1] == Decimal(n)[|text| - 1];
    }
  }
}
