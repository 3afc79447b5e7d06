/** The canonical text of a row key, the same from every spelling and both wire formats. */
module RowKeys {
  import opened Bytes
  import Text
  import Hex
  import opened Envelope

  const INT8: nat := 20
  const INT2: nat := 21
  const INT4: nat := 23
  const TEXT: nat := 25
  const VARCHAR: nat := 1043
  const UUID: nat := 2950

  const HYPHEN: nat := 45
  const OPEN_BRACE: nat := 123
  const CLOSE_BRACE: nat := 125

  datatype Format = Textual | Binary

  // ---------------------------------------------------------------- integers

  /** The width in bytes of an integer type. */
  function Width(oid: nat): (w: Option<nat>) {
    if oid == INT2 then Some(2) else if oid == INT4 then Some(4) else if oid == INT8 then Some(8) else None
  }

  function Pow256(w: nat): (n: nat)
    ensures n > 0
  {
    if w == 0 then 1 else 256 * Pow256(w - 1)
  }

  predicate InRange(n: int, w: nat) {
    -(Pow256(w) as int) <= 2 * n < Pow256(w)
  }

  /** The sign and digits of a trimmed numeral, as `FromStr` reads them. */
  function ParseInteger(s: seq<nat>): (n: Option<int>) {
    var negative := s != [] && s[0] == 45;
    var digits := if s != [] && (s[0] == 45 || s[0] == 43) then s[1..] else s;
    if digits == [] || !Text.AllDigits(digits) then None
    else Some(if negative then -(Text.NumberOf(digits) as int) else Text.NumberOf(digits))
  }

  function IntegerText(b: bytes, w: nat): (r: Result<bytes, Error>) {
    match Text.Decode(b)
    case None => Err(RowKeyType)
    case Some(text) =>
      match ParseInteger(Text.Trim(text))
      case Some(n) => if InRange(n, w) then Ok(Text.Decimal(n)) else Err(RowKeyType)
      case None => Err(RowKeyType)
  }

  /** Two's complement big-endian. */
  function SignedOf(b: bytes): (n: int) {
    if 2 * Unsigned(b) < Pow256(|b|) then Unsigned(b) else Unsigned(b) - Pow256(|b|)
  }

  function BigEndian(n: nat, w: nat): (b: bytes)
    ensures |b| == w
  {
    if w == 0 then [] else BigEndian(n / 256, w - 1) + [n % 256]
  }

  function TwosComplement(n: int, w: nat): (b: bytes)
    requires InRange(n, w)
    ensures |b| == w
  {
    BigEndian(if n < 0 then n + Pow256(w) else n, w)
  }

  function IntegerBinary(b: bytes, w: nat): (r: Result<bytes, Error>) {
    if |b| != w then Err(RowKeyType) else Ok(Text.Decimal(SignedOf(b)))
  }

  // ---------------------------------------------------------------- uuids

  /** 8-4-4-4-12. */
  function Hyphenated(hex: bytes): (s: bytes)
    requires |hex| == 32
  {
    hex[..8] + [45] + hex[8..12] + [45] + hex[12..16] + [45] + hex[16..20] + [45] + hex[20..]
  }

  predicate IsHexDigit(c: nat) {
    48 <= c <= 57 || 65 <= c <= 70 || 97 <= c <= 102
  }

  function Lower(c: nat): (d: byte)
    requires IsHexDigit(c)
  {
    if 65 <= c <= 70 then c + 32 else c
  }

  /** The lower-cased hex digits of a text, hyphens dropped; `None` at any other character. */
  function HexDigits(s: seq<nat>): (r: Option<bytes>) {
    if s == [] then Some([])
    else
      match HexDigits(s[..|s| - 1])
      case None => None
      case Some(before) =>
        var c := s[|s| - 1];
        if c == HYPHEN then Some(before)
        else if !IsHexDigit(c) then None
        else Some(before + [Lower(c)])
  }

  /** A leading brace must be matched by a trailing one; without it nothing is left. */
  function Unbraced(s: seq<nat>): (r: seq<nat>) {
    if s == [] || s[0] != OPEN_BRACE then s
    else if |s| >= 2 && s[|s| - 1] == CLOSE_BRACE then s[1..|s| - 1]
    else []
  }

  function UuidText(b: bytes): (r: Result<bytes, Error>) {
    match Text.Decode(b)
    case None => Err(RowKeyType)
    case Some(text) =>
      match HexDigits(Unbraced(Text.Trim(text)))
      case None => Err(RowKeyType)
      case Some(hex) => if |hex| != 32 then Err(RowKeyType) else Ok(Hyphenated(hex))
  }

  /** `uuid_from_text`, collecting digits one character at a time. */
  method UuidFromText(b: bytes) returns (r: Result<bytes, Error>)
    ensures r == UuidText(b)
  {
    var text := Text.Decode(b);
    if text.None? {
      return Err(RowKeyType);
    }
    var inner := Unbraced(Text.Trim(text.value));
    var hex: bytes := [];
    for i := 0 to |inner|
      invariant HexDigits(inner[..i]) == Some(hex)
    {
      assert inner[..i + 1][..i] == inner[..i];
      if inner[i] == HYPHEN {
        continue;
      }
      if !IsHexDigit(inner[i]) {
        NoHexDigits(inner, i + 1);
        return Err(RowKeyType);
      }
      hex := hex + [Lower(inner[i])];
    }
    assert inner[..|inner|] == inner;
    if |hex| != 32 {
      return Err(RowKeyType);
    }
    r := Ok(Hyphenated(hex));
  }

  lemma {:induction false} NoHexDigits(s: seq<nat>, n: nat)
    requires n <= |s| && HexDigits(s[..n]).None?
    ensures HexDigits(s).None?
    decreases |s|
  {
    if n < |s| {
      assert s[..|s| - 1][..n] == s[..n];
      NoHexDigits(s[..|s| - 1], n);
    } else {
      assert s[..n] == s;
    }
  }

  // ---------------------------------------------------------------- canonical

  function Canonical(oid: nat, format: Format, value: Option<bytes>): (r: Result<bytes, Error>) {
    if value.None? then Err(RowKeyType)
    else
      var b := value.value;
      if Width(oid).Some? then
        if format.Textual? then IntegerText(b, Width(oid).value) else IntegerBinary(b, Width(oid).value)
      else if oid == UUID then
        if format.Textual? then UuidText(b)
        else if |b| != 16 then Err(RowKeyType)
        else Ok(Hyphenated(Hex.Encode(b)))
      else if oid == TEXT || oid == VARCHAR then
        if Text.Decode(b).Some? then Ok(b) else Err(RowKeyType)
      else Err(RowKeyType)
  }

  /** Textual keys are themselves, in both formats, exactly when they are valid UTF-8; so distinct ones are
      distinct keys. NULL and every other type have no key. */
  lemma {:induction false} TextKeys(oid: nat, format: Format, b: bytes)
    ensures oid == TEXT || oid == VARCHAR ==>
              Canonical(oid, format, Some(b)) == if Text.Decode(b).Some? then Ok(b) else Err(RowKeyType)
    ensures Canonical(oid, format, None) == Err(RowKeyType)
    ensures oid !in {INT2, INT4, INT8, UUID, TEXT, VARCHAR} ==> Canonical(oid, format, Some(b)) == Err(RowKeyType)
  {
  }

  /** A binary key has exactly its type's width: an integer is its two's complement, a uuid its 16 octets. */
  lemma {:induction false} BinaryKeys(oid: nat, b: bytes)
    ensures Width(oid).Some? ==>
              Canonical(oid, Binary, Some(b))
              == if |b| == Width(oid).value then Ok(Text.Decimal(SignedOf(b))) else Err(RowKeyType)
    ensures Canonical(UUID, Binary, Some(b))
         == if |b| == 16 then Ok(Hyphenated(Hex.Encode(b))) else Err(RowKeyType)
  {
  }

  // ---------------------------------------------------------------- integers: what is accepted

  predicate IsSign(sign: seq<nat>) {
    |sign| == 0 || (|sign| == 1 && (sign[0] == 43 || sign[0] == 45))
  }

  function Signed(sign: seq<nat>, n: nat): (r: int) {
    if |sign| == 1 && sign[0] == 45 then -(n as int) else n
  }

  /** `text` is a spelling of `n`: white space around an optional sign and at least one digit. */
  predicate Spelling(text: seq<nat>, l: seq<nat>, sign: seq<nat>, digits: seq<nat>, r: seq<nat>, n: int) {
    && text == l + (sign + digits) + r && Text.AllSpace(l) && Text.AllSpace(r)
    && IsSign(sign) && digits != [] && Text.AllDigits(digits) && n == Signed(sign, Text.NumberOf(digits))
  }

  lemma {:induction false} ParseSpelled(sign: seq<nat>, digits: seq<nat>)
    requires IsSign(sign) && digits != [] && Text.AllDigits(digits)
    ensures ParseInteger(sign + digits) == Some(Signed(sign, Text.NumberOf(digits)))
  {
    var s := sign + digits;
    if |sign| == 0 {
      assert s == digits && Text.IsDigit(digits[0]);
    } else {
      assert s[1..] == digits && s[0] == sign[0];
    }
  }

  /** Every spelling of an integer in range gives its decimal form, in every width. */
  lemma {:induction false} SpellingsAgree(
    oid: nat, b: bytes, text: seq<nat>, l: seq<nat>, sign: seq<nat>, digits: seq<nat>, r: seq<nat>, n: int)
    requires Width(oid).Some? && Text.Decode(b) == Some(text) && Spelling(text, l, sign, digits, r, n)
    ensures Canonical(oid, Textual, Some(b))
         == if InRange(n, Width(oid).value) then Ok(Text.Decimal(n)) else Err(RowKeyType)
  {
    var m := sign + digits;
    assert m[0] == if sign == [] then digits[0] else sign[0];
    assert m[|m| - 1] == digits[|digits| - 1];
    Text.TrimOf(l, m, r);
    ParseSpelled(sign, digits);
  }

  /** Nothing else is accepted: what has a key is a spelling of an integer in range. */
  lemma {:induction false} OnlySpellings(oid: nat, b: bytes)
    returns (text: seq<nat>, l: seq<nat>, sign: seq<nat>, digits: seq<nat>, r: seq<nat>, n: int)
    requires Width(oid).Some? && Canonical(oid, Textual, Some(b)).Ok?
    ensures Text.Decode(b) == Some(text) && Spelling(text, l, sign, digits, r, n)
    ensures InRange(n, Width(oid).value) && Canonical(oid, Textual, Some(b)) == Ok(Text.Decimal(n))
  {
    text := Text.Decode(b).value;
    l, r := Text.TrimParts(text);
    var m := Text.Trim(text);
    n := ParseInteger(m).value;
    if m[0] == 45 || m[0] == 43 {
      sign, digits := [m[0]], m[1..];
      assert sign + digits == m;
    } else {
      sign, digits := [], m;
      assert sign + digits == m;
    }
  }

  // ---------------------------------------------------------------- integers: the two formats

  lemma {:induction false} UnsignedBound(b: bytes)
    ensures Unsigned(b) < Pow256(|b|)
  {
    if b != [] {
      UnsignedBound(b[..|b| - 1]);
    }
  }

  lemma {:induction false} UnsignedInverse(n: nat, w: nat)
    requires n < Pow256(w)
    ensures Unsigned(BigEndian(n, w)) == n
  {
    if w > 0 {
      UnsignedInverse(n / 256, w - 1);
      var b := BigEndian(n, w);
      assert b[..|b| - 1] == BigEndian(n / 256, w - 1);
    }
  }

  lemma {:induction false} SignedInverse(n: int, w: nat)
    requires InRange(n, w)
    ensures SignedOf(TwosComplement(n, w)) == n
  {
    UnsignedInverse(if n < 0 then n + Pow256(w) else n, w);
  }

  lemma {:induction false} DecimalDecodes(n: int)
    ensures Text.Decode(Text.Decimal(n)) == Some(Text.Decimal(n))
  {
    var m := if n < 0 then -n else n;
    Text.NumeralMeans(m);
    assert forall i | 0 <= i < |Text.Numeral(m)| :: Text.IsDigit(Text.Numeral(m)[i]);
    Text.AsciiDecodes(Text.Decimal(n));
  }

  function SignOf(n: int): (sign: seq<nat>) {
    if n < 0 then [45] else []
  }

  lemma {:induction false} DecimalSpells(n: int)
    ensures Spelling(Text.Decimal(n), [], SignOf(n), Text.Numeral(if n < 0 then -n else n), [], n)
  {
    var digits := Text.Numeral(if n < 0 then -n else n);
    Text.NumeralMeans(if n < 0 then -n else n);
    var core := SignOf(n) + digits;
    assert core == Text.Decimal(n);
    assert [] + core + [] == core;
  }

  /** The binary form, the canonical form itself, and the typed constructor all give the same key; so
      the canonical form is a fixed point. */
  lemma {:induction false} IntegerFormsAgree(oid: nat, n: int)
    requires Width(oid).Some? && InRange(n, Width(oid).value)
    ensures Canonical(oid, Binary, Some(TwosComplement(n, Width(oid).value))) == Ok(Text.Decimal(n))
    ensures Canonical(oid, Textual, Some(Text.Decimal(n))) == Ok(Text.Decimal(n))
  {
    var m := if n < 0 then -n else n;
    SignedInverse(n, Width(oid).value);
    DecimalDecodes(n);
    DecimalSpells(n);
    SpellingsAgree(oid, Text.Decimal(n), Text.Decimal(n), [], SignOf(n), Text.Numeral(m), [], n);
  }

  /** Every binary value of the right width is some integer in range, and distinct integers have
      distinct keys. */
  lemma {:induction false} IntegerKeysDistinct(oid: nat, b: bytes, c: bytes)
    requires Width(oid).Some? && |b| == Width(oid).value && |c| == Width(oid).value
    ensures InRange(SignedOf(b), Width(oid).value)
    ensures Canonical(oid, Binary, Some(b)) == Canonical(oid, Binary, Some(c)) <==> b == c
  {
    UnsignedBound(b);
    UnsignedBound(c);
    if Canonical(oid, Binary, Some(b)) == Canonical(oid, Binary, Some(c)) {
      Text.DecimalInjective(SignedOf(b), SignedOf(c));
      UnsignedInjective(b, c);
    }
  }

  lemma {:induction false} UnsignedInjective(b: bytes, c: bytes)
    requires |b| == |c| && Unsigned(b) == Unsigned(c)
    ensures b == c
  {
    if b != [] {
      var n := |b| - 1;
      assert Unsigned(b[..n]) * 256 + b[n] == Unsigned(c[..n]) * 256 + c[n];
      UnsignedInjective(b[..n], c[..n]);
      assert b == b[..n] + [b[n]] && c == c[..n] + [c[n]];
    }
  }

  // ---------------------------------------------------------------- uuids

  /** `text` spells the uuid `u`: white space around an optional pair of braces, inside which 32 hex
      digits of either case with hyphens anywhere. */
  predicate UuidSpelling(text: seq<nat>, l: seq<nat>, inner: seq<nat>, r: seq<nat>, braced: bool, u: bytes) {
    && |u| == 16 && Text.AllSpace(l) && Text.AllSpace(r)
    && text == l + (if braced then [OPEN_BRACE] + inner + [CLOSE_BRACE] else inner) + r
    && HexDigits(inner) == Some(Hex.Encode(u))
  }

  lemma {:induction false} HexCharacters(s: seq<nat>)
    requires HexDigits(s).Some?
    ensures forall i | 0 <= i < |s| :: s[i] == HYPHEN || IsHexDigit(s[i])
  {
    if s != [] {
      HexCharacters(s[..|s| - 1]);
    }
  }

  lemma {:induction false} UuidSpellingsAgree(
    b: bytes, text: seq<nat>, l: seq<nat>, inner: seq<nat>, r: seq<nat>, braced: bool, u: bytes)
    requires Text.Decode(b) == Some(text) && UuidSpelling(text, l, inner, r, braced, u)
    ensures Canonical(UUID, Textual, Some(b)) == Ok(Hyphenated(Hex.Encode(u)))
    ensures Canonical(UUID, Textual, Some(b)) == Canonical(UUID, Binary, Some(u))
  {
    HexCharacters(inner);
    assert inner != [];
    var m := if braced then [OPEN_BRACE] + inner + [CLOSE_BRACE] else inner;
    assert Text.Tight(m);
    Text.TrimOf(l, m, r);
    if braced {
      assert m[1..|m| - 1] == inner;
    }
  }

  lemma {:induction false} LowerHex(s: seq<nat>)
    requires HexDigits(s).Some?
    ensures forall i | 0 <= i < |HexDigits(s).value| ::
              48 <= HexDigits(s).value[i] <= 57 || 97 <= HexDigits(s).value[i] <= 102
  {
    if s != [] {
      LowerHex(s[..|s| - 1]);
    }
  }

  /** 32 lower-case digits are the hex of some 16 bytes. */
  lemma {:induction false} HexIsEncoded(h: bytes)
    requires |h| == 32 && forall i | 0 <= i < |h| :: 48 <= h[i] <= 57 || 97 <= h[i] <= 102
    ensures Hex.IsHex(h) && |Hex.Decode(h).value| == 16 && Hex.Encode(Hex.Decode(h).value) == h
  {
    var u := Hex.Decode(h).value;
    forall i | 0 <= i < 32 ensures Hex.Encode(u)[i] == h[i] {
      var k := i / 2;
      Hex.EncodedPair(u, k);
      NibblesOf(h[2 * k], h[2 * k + 1]);
      assert i == 2 * k || i == 2 * k + 1;
    }
  }

  lemma {:induction false} NibblesOf(a: byte, b: byte)
    requires (48 <= a <= 57 || 97 <= a <= 102) && (48 <= b <= 57 || 97 <= b <= 102)
    ensures var v := 16 * Hex.Value(a).value + Hex.Value(b).value;
            v < 256 && Hex.Digit(v / 16) == a && Hex.Digit(v % 16) == b
  {
  }

  lemma {:induction false} DigitsOfUuid(inner: seq<nat>) returns (u: bytes)
    requires HexDigits(inner).Some? && |HexDigits(inner).value| == 32
    ensures |u| == 16 && HexDigits(inner) == Some(Hex.Encode(u))
  {
    LowerHex(inner);
    HexIsEncoded(HexDigits(inner).value);
    u := Hex.Decode(HexDigits(inner).value).value;
  }

  lemma {:induction false} UnbracedParts(m: seq<nat>)
    requires m != [] && Unbraced(m) != []
    ensures m == if m[0] == OPEN_BRACE then [OPEN_BRACE] + Unbraced(m) + [CLOSE_BRACE] else Unbraced(m)
  {
  }

  /** Nothing but a spelling of a uuid has a key. */
  lemma {:induction false} OnlyUuidSpellings(b: bytes)
    returns (text: seq<nat>, l: seq<nat>, inner: seq<nat>, r: seq<nat>, braced: bool, u: bytes)
    requires Canonical(UUID, Textual, Some(b)).Ok?
    ensures Text.Decode(b) == Some(text) && UuidSpelling(text, l, inner, r, braced, u)
    ensures Canonical(UUID, Textual, Some(b)) == Ok(Hyphenated(Hex.Encode(u)))
  {
    text := Text.Decode(b).value;
    l, r := Text.TrimParts(text);
    var m := Text.Trim(text);
    inner := Unbraced(m);
    assert HexDigits(inner).Some? && |HexDigits(inner).value| == 32;
    u := DigitsOfUuid(inner);
    assert inner != [] by { assert HexDigits([]) == Some([]); }
    UnbracedParts(m);
    braced := m[0] == OPEN_BRACE;
  }

  lemma {:induction false} HexOfLower(h: bytes)
    requires forall i | 0 <= i < |h| :: 48 <= h[i] <= 57 || 97 <= h[i] <= 102
    ensures HexDigits(h) == Some(h)
  {
    if h != [] {
      HexOfLower(h[..|h| - 1]);
      assert h == h[..|h| - 1] + [h[|h| - 1]];
    }
  }

  lemma {:induction false} HexDigitsConcat(a: seq<nat>, b: seq<nat>)
    requires HexDigits(a).Some? && HexDigits(b).Some?
    ensures HexDigits(a + b) == Some(HexDigits(a).value + HexDigits(b).value)
  {
    if b == [] {
      assert a + b == a && HexDigits(a).value + [] == HexDigits(a).value;
    } else {
      var n := |b| - 1;
      assert |a + b| - 1 == |a| + n && (a + b)[..|a| + n] == a + b[..n] && (a + b)[|a| + n] == b[n];
      HexDigitsConcat(a, b[..n]);
      var x, y := HexDigits(a).value, HexDigits(b[..n]).value;
      if b[n] != HYPHEN {
        assert x + (y + [Lower(b[n])]) == (x + y) + [Lower(b[n])];
      }
    }
  }

  /** A hyphen and then more digits. */
  lemma {:induction false} HexDigitsNext(a: seq<nat>, x: bytes, h: bytes)
    requires HexDigits(a) == Some(x) && forall i | 0 <= i < |h| :: 48 <= h[i] <= 57 || 97 <= h[i] <= 102
    ensures HexDigits(a + [45] + h) == Some(x + h)
  {
    var hyphen: seq<nat> := [45];
    assert hyphen[..0] == [];
    HexDigitsConcat(a, hyphen);
    assert x + [] == x;
    HexOfLower(h);
    HexDigitsConcat(a + hyphen, h);
  }

  /** The hyphenated form reads back to its digits. */
  lemma {:induction false} HyphenatedDigits(h: bytes)
    requires |h| == 32 && forall i | 0 <= i < |h| :: 48 <= h[i] <= 57 || 97 <= h[i] <= 102
    ensures HexDigits(Hyphenated(h)) == Some(h)
  {
    HexOfLower(h[..8]);
    HexDigitsNext(h[..8], h[..8], h[8..12]);
    var a: seq<nat> := h[..8] + [45] + h[8..12];
    assert h[..8] + h[8..12] == h[..12];
    HexDigitsNext(a, h[..12], h[12..16]);
    var b: seq<nat> := a + [45] + h[12..16];
    assert h[..12] + h[12..16] == h[..16];
    HexDigitsNext(b, h[..16], h[16..20]);
    var c: seq<nat> := b + [45] + h[16..20];
    assert h[..16] + h[16..20] == h[..20];
    HexDigitsNext(c, h[..20], h[20..]);
    assert h[..20] + h[20..] == h;
  }

  /** The canonical uuid is a fixed point of the text form, and what the binary form gives. */
  lemma {:induction false} UuidFixedPoint(u: bytes)
    requires |u| == 16
    ensures var key := Hyphenated(Hex.Encode(u));
            Canonical(UUID, Binary, Some(u)) == Ok(key) && Canonical(UUID, Textual, Some(key)) == Ok(key)
    ensures HexDigits(Hyphenated(Hex.Encode(u))) == Some(Hex.Encode(u))
  {
    var key := Hyphenated(Hex.Encode(u));
    HyphenatedDigits(Hex.Encode(u));
    AsciiKey(Hex.Encode(u));
    Text.AsciiDecodes(key);
    assert key == [] + key + [];
    UuidSpellingsAgree(key, key, [], key, [], false, u);
  }

  /** Distinct uuids have distinct keys. */
  lemma {:induction false} UuidKeysDistinct(u: bytes, v: bytes)
    requires |u| == 16 && |v| == 16
    ensures Canonical(UUID, Binary, Some(u)) == Canonical(UUID, Binary, Some(v)) <==> u == v
  {
    if Canonical(UUID, Binary, Some(u)) == Canonical(UUID, Binary, Some(v)) {
      UuidFixedPoint(u);
      UuidFixedPoint(v);
      Hex.DecodeEncode(u);
      Hex.DecodeEncode(v);
    }
  }

  lemma {:induction false} AsciiKey(h: bytes)
    requires |h| == 32 && forall i | 0 <= i < |h| :: 48 <= h[i] <= 57 || 97 <= h[i] <= 102
    ensures Text.IsAscii(Hyphenated(h))
  {
  }
}
