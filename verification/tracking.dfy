/**
 * Order tracking numbers. `Order.generate_tracking_number` joins ten characters
 * drawn at random from the decimal digits (clothes/models.py:233-234). The
 * random source is not modelled: the generator takes the ten draws, each an
 * index into "0123456789", as a parameter.
 */
module Tracking {

  const TrackingLength: nat := 10

  /** One draw of the generator: the position of a character in "0123456789". */
  newtype Digit = d: int | 0 <= d < 10

  predicate IsDigitChar(c: char) {
    '0' <= c <= '9'
  }

  predicate AllDigits(s: string) {
    forall i :: 0 <= i < |s| ==> IsDigitChar(s[i])
  }

  /** What an order's tracking number always looks like. */
  predicate IsTrackingNumber(s: string) {
    |s| == TrackingLength && AllDigits(s)
  }

  function DigitChar(d: Digit): char {
    (('0' as int) + (d as int)) as char
  }

  function CharDigit(c: char): Digit
    requires IsDigitChar(c)
  {
    (c as int - '0' as int) as Digit
  }

  /** The characters the draws select, in order. */
  function Spell(ds: seq<Digit>): (s: string)
    ensures |s| == |ds|
    ensures AllDigits(s)
  {
    if ds == [] then [] else [DigitChar(ds[0])] + Spell(ds[1..])
  }

  /** The draws a string of digits was spelled from. */
  function Read(s: string): (ds: seq<Digit>)
    requires AllDigits(s)
    ensures |ds| == |s|
  {
    if s == [] then [] else [CharDigit(s[0])] + Read(s[1..])
  }

  lemma {:induction false} ReadSpell(ds: seq<Digit>)
    ensures Read(Spell(ds)) == ds
  {
    if ds != [] {
      ReadSpell(ds[1..]);
      assert Spell(ds)[1..] == Spell(ds[1..]);
    }
  }

  lemma {:induction false} SpellRead(s: string)
    requires AllDigits(s)
    ensures Spell(Read(s)) == s
  {
    if s != [] {
      SpellRead(s[1..]);
      assert Read(s)[1..] == Read(s[1..]);
    }
  }

  /**
   * `Order.generate_tracking_number`: exactly ten decimal digits, and the
   * draws can be read back from the result.
   */
  function GenerateTrackingNumber(draws: seq<Digit>): (r: string)
    requires |draws| == TrackingLength
    ensures IsTrackingNumber(r)
    ensures Read(r) == draws
  {
    ReadSpell(draws);
    Spell(draws)
  }
}
