/** Text as the row-key rules read it: UTF-8 validation, Unicode white space, decimal numerals. */
module Text {
  import opened Bytes

  // ---------------------------------------------------------------- UTF-8

  /** The length of the character that starts `b`, by the well-formed byte sequences of table 3-7 of
      the Unicode Standard; 0 if there is none. */
  function CharLength(b: bytes): (n: nat)
    ensures n <= |b| && n <= 4
  {
    if |b| >= 1 && b[0] < 0x80 then 1
    else if |b| >= 2 && 0xC2 <= b[0] <= 0xDF && Trails(b[1]) then 2
    else if |b| >= 3 && 0xE0 <= b[0] <= 0xEF && Trails(b[1]) && Trails(b[2])
            && (b[0] == 0xE0 ==> b[1] >= 0xA0) && (b[0] == 0xED ==> b[1] <= 0x9F) then 3
    else if |b| >= 4 && 0xF0 <= b[0] <= 0xF4 && Trails(b[1]) && Trails(b[2]) && Trails(b[3])
            && (b[0] == 0xF0 ==> b[1] >= 0x90) && (b[0] == 0xF4 ==> b[1] <= 0x8F) then 4
    else 0
  }

  predicate Trails(b: byte) {
    0x80 <= b <= 0xBF
  }

  function CodePoint(b: bytes): (c: nat)
    requires CharLength(b) > 0
  {
    var lead, rest := b[0] as int, (i: nat) requires i < |b| && Trails(b[i]) => (b[i] as int) - 0x80;
    match CharLength(b)
    case 1 => lead
    case 2 => (lead - 0xC0) * 0x40 + rest(1)
    case 3 => (lead - 0xE0) * 0x1000 + rest(1) * 0x40 + rest(2)
    case _ => (lead - 0xF0) * 0x4_0000 + rest(1) * 0x1000 + rest(2) * 0x40 + rest(3)
  }

  function Decode(b: bytes): (r: Option<seq<nat>>) {
    if b == [] then Some([])
    else
      var n := CharLength(b);
      if n == 0 then None
      else
        match Decode(b[n..])
        case None => None
        case Some(rest) => Some([CodePoint(b)] + rest)
  }

  /** Unicode scalar values: no surrogates. */
  predicate IsScalar(c: nat) {
    c < 0xD800 || 0xE000 <= c < 0x11_0000
  }

  /** The octets of a character, by section 3 of RFC 3629. */
  function EncodeChar(c: nat): (b: bytes)
    requires IsScalar(c)
  {
    if c < 0x80 then [c]
    else if c < 0x800 then [0xC0 + c / 0x40, 0x80 + c % 0x40]
    else if c < 0x1_0000 then [0xE0 + c / 0x1000, 0x80 + c / 0x40 % 0x40, 0x80 + c % 0x40]
    else [0xF0 + c / 0x4_0000, 0x80 + c / 0x1000 % 0x40, 0x80 + c / 0x40 % 0x40, 0x80 + c % 0x40]
  }

  predicate AllScalar(s: seq<nat>) {
    forall i | 0 <= i < |s| :: IsScalar(s[i])
  }

  function Encode(s: seq<nat>): (b: bytes)
    requires AllScalar(s)
  {
    if s == [] then [] else EncodeChar(s[0]) + Encode(s[1..])
  }

  lemma {:induction false} ThreeReads(b: bytes)
    requires CharLength(b) == 3
    ensures IsScalar(CodePoint(b)) && EncodeChar(CodePoint(b)) == [b[0], b[1], b[2]]
  {
    ThreeOctets(b[0] - 0xE0, b[1] - 0x80, b[2] - 0x80);
  }

  lemma {:induction false} FourReads(b: bytes)
    requires CharLength(b) == 4
    ensures IsScalar(CodePoint(b)) && EncodeChar(CodePoint(b)) == [b[0], b[1], b[2], b[3]]
  {
    FourOctets(b[0] - 0xF0, b[1] - 0x80, b[2] - 0x80, b[3] - 0x80);
  }

  /** What starts a text is the encoding of the character it is read as. */
  lemma {:induction false} CharReads(b: bytes)
    requires CharLength(b) > 0
    ensures IsScalar(CodePoint(b)) && EncodeChar(CodePoint(b)) == b[..CharLength(b)]
  {
    var n := CharLength(b);
    if n == 3 {
      ThreeReads(b);
    } else if n == 4 {
      FourReads(b);
    }
  }

  lemma {:induction false} ThreeOctets(x: nat, y: nat, z: nat)
    requires y < 0x40 && z < 0x40
    ensures var c := x * 0x1000 + y * 0x40 + z; c / 0x1000 == x && c / 0x40 % 0x40 == y && c % 0x40 == z
  {
    var c := x * 0x1000 + y * 0x40 + z;
    assert c / 0x40 == x * 0x40 + y;
  }

  lemma {:induction false} FourOctets(w: nat, x: nat, y: nat, z: nat)
    requires x < 0x40 && y < 0x40 && z < 0x40
    ensures var c := w * 0x4_0000 + x * 0x1000 + y * 0x40 + z;
            c / 0x4_0000 == w && c / 0x1000 % 0x40 == x && c / 0x40 % 0x40 == y && c % 0x40 == z
  {
    var c := w * 0x4_0000 + x * 0x1000 + y * 0x40 + z;
    assert c / 0x40 == w * 0x1000 + x * 0x40 + y;
    assert c / 0x1000 == w * 0x40 + x;
  }

  lemma {:induction false} MiddleOctet(c: nat)
    ensures c / 0x40 == c / 0x1000 * 0x40 + c / 0x40 % 0x40
  {
    var rest := c % 0x1000;
    assert c == c / 0x1000 * 0x1000 + rest && rest == rest / 0x40 * 0x40 + rest % 0x40;
    ThreeOctets(c / 0x1000, rest / 0x40, rest % 0x40);
  }

  lemma {:induction false} UpperOctet(c: nat)
    ensures c / 0x1000 == c / 0x4_0000 * 0x40 + c / 0x1000 % 0x40
  {
    var q := c / 0x1000;
    assert c == q * 0x1000 + c % 0x1000 && q == q / 0x40 * 0x40 + q % 0x40;
    assert c == q / 0x40 * 0x4_0000 + (q % 0x40 * 0x1000 + c % 0x1000);
  }

  lemma {:induction false} ShortEncoded(c: nat, b: bytes)
    requires c < 0x800 && EncodeChar(c) <= b
    ensures CharLength(b) == |EncodeChar(c)| && CodePoint(b) == c
  {
  }

  lemma {:induction false} ThreeEncoded(c: nat, b: bytes)
    requires IsScalar(c) && 0x800 <= c < 0x1_0000 && EncodeChar(c) <= b
    ensures CharLength(b) == 3 && CodePoint(b) == c
  {
    MiddleOctet(c);
  }

  lemma {:induction false} FourEncoded(c: nat, b: bytes)
    requires IsScalar(c) && 0x1_0000 <= c && EncodeChar(c) <= b
    ensures CharLength(b) == 4 && CodePoint(b) == c
  {
    MiddleOctet(c);
    UpperOctet(c);
  }

  /** The encoding of a character is read as that character, whatever follows. */
  lemma {:induction false} CharEncoded(c: nat, rest: bytes)
    requires IsScalar(c)
    ensures var b := EncodeChar(c) + rest;
            CharLength(b) == |EncodeChar(c)| > 0 && CodePoint(b) == c && b[CharLength(b)..] == rest
  {
    var b := EncodeChar(c) + rest;
    if c < 0x800 {
      ShortEncoded(c, b);
    } else if c < 0x1_0000 {
      ThreeEncoded(c, b);
    } else {
      FourEncoded(c, b);
    }
  }

  lemma {:induction false} TextSplits(b: bytes) returns (c: nat, rest: bytes)
    requires b != [] && Decode(b).Some?
    ensures IsScalar(c) && b == EncodeChar(c) + rest && |rest| < |b|
    ensures Decode(rest).Some? && Decode(b).value == [c] + Decode(rest).value
  {
    CharReads(b);
    c, rest := CodePoint(b), b[CharLength(b)..];
  }

  lemma {:induction false} DecodedIsEncoded(b: bytes)
    requires Decode(b).Some?
    ensures AllScalar(Decode(b).value) && b == Encode(Decode(b).value)
  {
    if b != [] {
      var c, rest := TextSplits(b);
      DecodedIsEncoded(rest);
      JoinEncoded(b, EncodeChar(c), rest, c, Decode(rest).value);
    }
  }

  lemma {:induction false} JoinEncoded(b: bytes, first: bytes, rest: bytes, c: nat, s: seq<nat>)
    requires b == first + rest && IsScalar(c) && AllScalar(s) && first == EncodeChar(c) && rest == Encode(s)
    ensures AllScalar([c] + s) && b == Encode([c] + s)
  {
    EncodeNext(c, s);
  }

  lemma {:induction false} EncodeNext(c: nat, s: seq<nat>)
    requires IsScalar(c) && AllScalar(s)
    ensures AllScalar([c] + s) && Encode([c] + s) == EncodeChar(c) + Encode(s)
  {
    assert ([c] + s)[1..] == s;
  }

  lemma {:induction false} EncodedDecodes(s: seq<nat>)
    requires AllScalar(s)
    ensures Decode(Encode(s)) == Some(s)
  {
    if s != [] {
      EncodedDecodes(s[1..]);
      CharEncoded(s[0], Encode(s[1..]));
      assert s == [s[0]] + s[1..];
    }
  }

  /** Exactly the encodings of scalar values are texts, each of the values it encodes. */
  lemma {:induction false} DecodesIffEncoded(b: bytes, s: seq<nat>)
    ensures Decode(b) == Some(s) <==> AllScalar(s) && b == Encode(s)
  {
    if Decode(b) == Some(s) {
      DecodedIsEncoded(b);
    }
    if AllScalar(s) && b == Encode(s) {
      EncodedDecodes(s);
    }
  }

  predicate IsAscii(b: bytes) {
    forall i | 0 <= i < |b| :: b[i] < 0x80
  }

  lemma {:induction false} AsciiDecodes(b: bytes)
    requires IsAscii(b)
    ensures Decode(b) == Some(b)
  {
    if b != [] {
      assert b[0] < 0x80;
      AsciiDecodes(b[1..]);
      assert [b[0]] + b[1..] == b;
    }
  }

  // ---------------------------------------------------------------- white space

  /** The White_Space property. */
  predicate IsSpace(c: nat) {
    || 9 <= c <= 13 || c == 0x20 || c == 0x85 || c == 0xA0 || c == 0x1680 || 0x2000 <= c <= 0x200A
    || c == 0x2028 || c == 0x2029 || c == 0x202F || c == 0x205F || c == 0x3000
  }

  predicate AllSpace(s: seq<nat>) {
    forall i | 0 <= i < |s| :: IsSpace(s[i])
  }

  function TrimStart(s: seq<nat>): (r: seq<nat>) {
    if s != [] && IsSpace(s[0]) then TrimStart(s[1..]) else s
  }

  function TrimEnd(s: seq<nat>): (r: seq<nat>) {
    if s != [] && IsSpace(s[|s| - 1]) then TrimEnd(s[..|s| - 1]) else s
  }

  function Trim(s: seq<nat>): (r: seq<nat>) {
    TrimEnd(TrimStart(s))
  }

  /** No space at either end. */
  predicate Tight(s: seq<nat>) {
    s != [] ==> !IsSpace(s[0]) && !IsSpace(s[|s| - 1])
  }

  lemma {:induction false} TrimStartOf(l: seq<nat>, m: seq<nat>)
    requires AllSpace(l) && (m != [] ==> !IsSpace(m[0]))
    ensures TrimStart(l + m) == m
  {
    if l == [] {
      assert l + m == m;
    } else {
      assert (l + m)[1..] == l[1..] + m;
      TrimStartOf(l[1..], m);
    }
  }

  lemma {:induction false} TrimEndOf(m: seq<nat>, r: seq<nat>)
    requires AllSpace(r) && (m != [] ==> !IsSpace(m[|m| - 1]))
    ensures TrimEnd(m + r) == m
  {
    if r == [] {
      assert m + r == m;
    } else {
      assert (m + r)[..|m + r| - 1] == m + r[..|r| - 1];
      TrimEndOf(m, r[..|r| - 1]);
    }
  }

  /** Trimming removes exactly the spaces around a tight text. */
  lemma {:induction false} TrimOf(l: seq<nat>, m: seq<nat>, r: seq<nat>)
    requires AllSpace(l) && AllSpace(r) && m != [] && Tight(m)
    ensures Trim(l + m + r) == m
  {
    assert l + m + r == l + (m + r);
    TrimStartOf(l, m + r);
    TrimEndOf(m, r);
  }

  lemma {:induction false} TrimStartParts(s: seq<nat>) returns (l: seq<nat>)
    ensures AllSpace(l) && s == l + TrimStart(s)
    ensures TrimStart(s) != [] ==> !IsSpace(TrimStart(s)[0])
  {
    l := [];
    if s != [] && IsSpace(s[0]) {
      var k := TrimStartParts(s[1..]);
      l := [s[0]] + k;
      assert s == [s[0]] + s[1..];
    }
  }

  lemma {:induction false} TrimEndParts(s: seq<nat>) returns (r: seq<nat>)
    ensures AllSpace(r) && s == TrimEnd(s) + r
    ensures TrimEnd(s) != [] ==> !IsSpace(TrimEnd(s)[|TrimEnd(s)| - 1])
  {
    r := [];
    if s != [] && IsSpace(s[|s| - 1]) {
      var k := TrimEndParts(s[..|s| - 1]);
      r := k + [s[|s| - 1]];
      assert s == s[..|s| - 1] + [s[|s| - 1]];
    }
  }

  lemma {:induction false} TrimParts(s: seq<nat>) returns (l: seq<nat>, r: seq<nat>)
    ensures AllSpace(l) && AllSpace(r) && s == l + Trim(s) + r && Tight(Trim(s))
  {
    l := TrimStartParts(s);
    r := TrimEndParts(TrimStart(s));
    var m := Trim(s);
    assert l + (m + r) == l + m + r;
    if m != [] {
      assert TrimStart(s)[0] == m[0];
    }
  }

  // ---------------------------------------------------------------- decimal numerals

  predicate IsDigit(c: nat) {
    48 <= c <= 57
  }

  predicate AllDigits(s: seq<nat>) {
    forall i | 0 <= i < |s| :: IsDigit(s[i])
  }

  /** The number a run of digits denotes, leading zeros and all. */
  function NumberOf(s: seq<nat>): (n: nat)
    requires AllDigits(s)
  {
    if s == [] then 0 else NumberOf(s[..|s| - 1]) * 10 + (s[|s| - 1] - 48)
  }

  function Numeral(n: nat): (s: bytes)
    ensures s != []
  {
    if n < 10 then [48 + n] else Numeral(n / 10) + [48 + n % 10]
  }

  function Decimal(n: int): (s: bytes)
    ensures s != []
  {
    if n < 0 then [45] + Numeral(-n) else Numeral(n)
  }

  lemma {:induction false} NumeralMeans(n: nat)
    ensures AllDigits(Numeral(n)) && NumberOf(Numeral(n)) == n
  {
    if n >= 10 {
      NumeralMeans(n / 10);
      var s := Numeral(n);
      assert s[..|s| - 1] == Numeral(n / 10);
    } else {
      assert NumberOf([48 + n][..0]) == 0;
    }
  }

  lemma {:induction false} DecimalInjective(n: int, m: int)
    requires Decimal(n) == Decimal(m)
    ensures n == m
  {
    NumeralMeans(if n < 0 then -n else n);
    NumeralMeans(if m < 0 then -m else m);
    assert n < 0 <==> Decimal(n)[0] == 45;
    assert m < 0 <==> Decimal(m)[0] == 45;
    if n < 0 {
      assert Decimal(n)[1..] == Numeral(-n) && Decimal(m)[1..] == Numeral(-m);
    }
  }
}
