/** Hexadecimal text: written in lower case, read in either. */
module Hex {
  import opened Bytes

  function Digit(n: nat): (c: byte)
    requires n < 16
  {
    if n < 10 then 48 + n else 87 + n
  }

  function Value(c: byte): (n: Option<nat>)
    ensures n.Some? ==> n.value < 16
  {
    if 48 <= c <= 57 then Some(c - 48)
    else if 97 <= c <= 102 then Some(c - 87)
    else if 65 <= c <= 70 then Some(c - 55)
    else None
  }

  function Encode(b: bytes): (h: bytes) {
    seq(2 * |b|, i requires 0 <= i < 2 * |b| => Digit(if i % 2 == 0 then b[i / 2] / 16 else b[i / 2] % 16))
  }

  predicate IsHex(h: bytes) {
    |h| % 2 == 0 && forall i | 0 <= i < |h| :: Value(h[i]).Some?
  }

  function Decode(h: bytes): (b: Option<bytes>) {
    if !IsHex(h) then None
    else Some(seq(|h| / 2, i requires 0 <= i < |h| / 2 =>
      16 * Value(h[2 * i]).value + Value(h[2 * i + 1]).value))
  }

  lemma {:induction false} EncodedPair(b: bytes, i: nat)
    requires i < |b|
    ensures Encode(b)[2 * i] == Digit(b[i] / 16) && Encode(b)[2 * i + 1] == Digit(b[i] % 16)
  {
  }

  /** The number a hexadecimal string denotes. */
  function Number(h: bytes): (n: nat)
    requires forall i | 0 <= i < |h| :: Value(h[i]).Some?
  {
    if h == [] then 0 else 16 * Number(h[..|h| - 1]) + Value(h[|h| - 1]).value
  }

  /** Two lower-case digits for each octet. */
  lemma {:induction false} EncodedLower(b: bytes)
    ensures |Encode(b)| == 2 * |b| && IsHex(Encode(b))
    ensures forall i | 0 <= i < |Encode(b)| :: 48 <= Encode(b)[i] <= 57 || 97 <= Encode(b)[i] <= 102
  {
  }

  lemma {:induction false} EncodedNext(b: bytes, c: byte)
    ensures Encode(b + [c]) == Encode(b) + [Digit(c / 16)] + [Digit(c % 16)]
  {
    forall i | 0 <= i < 2 * |b| + 2 ensures Encode(b + [c])[i] == (Encode(b) + [Digit(c / 16)] + [Digit(c % 16)])[i] {
    }
  }

  lemma {:induction false} NumberNext(h: bytes, n: nat)
    requires n < 16 && forall i | 0 <= i < |h| :: Value(h[i]).Some?
    ensures Value(Digit(n)) == Some(n) && Number(h + [Digit(n)]) == 16 * Number(h) + n
  {
    assert (h + [Digit(n)])[..|h|] == h;
  }

  /** They denote the number that the octets denote. */
  lemma {:induction false} EncodeDenotes(b: bytes)
    ensures IsHex(Encode(b)) && Number(Encode(b)) == Unsigned(b)
  {
    EncodedLower(b);
    if b != [] {
      var init, c := b[..|b| - 1], b[|b| - 1];
      EncodedLower(init);
      EncodeDenotes(init);
      EncodedNext(init, c);
      assert init + [c] == b;
      NumberNext(Encode(init), c / 16);
      NumberNext(Encode(init) + [Digit(c / 16)], c % 16);
    }
  }

  lemma {:induction false} DecodeEncode(b: bytes)
    ensures Decode(Encode(b)) == Some(b)
  {
    var d := Decode(Encode(b)).value;
    forall i | 0 <= i < |b| ensures d[i] == b[i] {
      EncodedPair(b, i);
    }
    assert d == b;
  }
}
