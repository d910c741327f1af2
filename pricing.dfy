/**
 * `calculatePrice`, written identically in app/components/ShoppingCart.tsx
 * and app/api/checkout/route.ts: an item costs one currency unit per ASCII
 * letter of its label; the server charges that amount in cents.
 */
module Pricing {
  import opened Text

  /** `item.replace(/[^a-zA-Z]/g, '').length` */
  function Price(item: string): (p: nat)
    ensures p <= |item|
  {
    |Filter(IsAsciiLetter, item)|
  }

  /** `Math.round(calculatePrice(item) * 100)`: the price is whole, so no rounding happens. */
  function UnitAmount(item: string): (cents: nat)
    ensures cents % 100 == 0 && cents / 100 == Price(item)
  {
    Price(item) * 100
  }

  /** A price counts letters: no more than the label's length, all of it exactly when every character is a letter. */
  lemma {:induction false} PriceBounds(item: string)
    ensures Price(item) <= |item|
    ensures Price(item) == |item| <==> AllChars(IsAsciiLetter, item)
    ensures Price(item) == 0 <==> forall i :: 0 <= i < |item| ==> !IsAsciiLetter(item[i])
  {
    if item != [] {
      PriceBounds(item[1..]);
      FilterConcat(IsAsciiLetter, [item[0]], item[1..]);
      assert [item[0]] + item[1..] == item;
      if !IsAsciiLetter(item[0]) {
        assert !AllChars(IsAsciiLetter, item);
      }
    }
  }

  /** The price of a concatenation is the sum of the prices. */
  lemma PriceOfConcat(a: string, b: string)
    ensures Price(a + b) == Price(a) + Price(b)
  {
    FilterConcat(IsAsciiLetter, a, b);
  }

  /** Digits, spaces and punctuation are free; "Milk 2L" has five letters. */
  lemma PriceExamples()
    ensures Price("Milk 2L") == 5
    ensures Price("!!!") == 0
    ensures Price("Bread") == 5
  {
  }
}
