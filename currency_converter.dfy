/** hooks/useCurrencyConverter.ts: the fixed exchange table and the conversion
    of an amount into reais. */
module CurrencyConverter {

  /** The currencies of the table, and any other code a caller may pass. */
  datatype Currency = USD | EUR | BRL | Other(code: string)

  /** `RATES[currency] || 1`: reais per unit, 1 for a currency the table lacks. */
  function Rate(c: Currency): (r: real)
    ensures r > 0.0
    ensures c.Other? ==> r == 1.0
  {
    match c
    case USD => 5.15
    case EUR => 5.58
    case BRL => 1.00
    case Other(_) => 1.0
  }

  /** `convertToBRL(amount, currency)`. */
  function ConvertToBrl(amount: real, c: Currency): real
  {
    amount * Rate(c)
  }

  /** Reais are left as they are, dollars and euros multiplied by the table. */
  lemma KnownRates(amount: real)
    ensures ConvertToBrl(amount, BRL) == amount
    ensures ConvertToBrl(amount, USD) == amount * 5.15
    ensures ConvertToBrl(amount, EUR) == amount * 5.58
    ensures ConvertToBrl(1.0, EUR) > ConvertToBrl(1.0, USD) > ConvertToBrl(1.0, BRL)
  {
  }

  /** Conversion is linear: sums convert to sums, zero to zero, and it can be
      undone by dividing by the rate. */
  lemma Linear(a: real, b: real, c: Currency)
    ensures ConvertToBrl(a + b, c) == ConvertToBrl(a, c) + ConvertToBrl(b, c)
    ensures ConvertToBrl(0.0, c) == 0.0
    ensures ConvertToBrl(a, c) / Rate(c) == a
  {
  }

  /** Every rate is positive, so conversion keeps the sign and the order of
      amounts. */
  lemma KeepsSignAndOrder(a: real, b: real, c: Currency)
    ensures a > 0.0 <==> ConvertToBrl(a, c) > 0.0
    ensures a < 0.0 <==> ConvertToBrl(a, c) < 0.0
    ensures a <= b <==> ConvertToBrl(a, c) <= ConvertToBrl(b, c)
  {
    var r := Rate(c);
    if a <= b {
      assert a * r <= b * r;
    }
    if a * r <= b * r {
      assert (b - a) * r >= 0.0;
    }
  }

  /** A code missing from the table converts one to one. */
  lemma UnknownIsIdentity(amount: real, code: string)
    ensures ConvertToBrl(amount, Other(code)) == amount
  {
  }
}
