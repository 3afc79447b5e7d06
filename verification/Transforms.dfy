/** The stored forms of a protected column: the envelope with its optional blind index, and the
    format-preserving pseudonym over a value's digits. */
module Transforms {
  import opened Bytes
  import opened Envelope

  const BLIND_INDEX_LEN: nat := 32

  /** A keyed hash with a 32-byte result. */
  type Mac = f: (bytes, bytes) -> bytes | forall k, p :: |f(k, p)| == BLIND_INDEX_LEN
    witness (k: bytes, p: bytes) => seq(BLIND_INDEX_LEN, _ => 0)

  // ---------------------------------------------------------------- blind index

  function Prepend(index: bytes, enveloped: bytes): (stored: bytes) {
    index + enveloped
  }

  /** `None` when no envelope follows an index. */
  function Split(stored: bytes): (r: Option<(bytes, bytes)>) {
    if |stored| < BLIND_INDEX_LEN || !IsEnveloped(stored[BLIND_INDEX_LEN..]) then None
    else Some((stored[..BLIND_INDEX_LEN], stored[BLIND_INDEX_LEN..]))
  }

  // ---------------------------------------------------------------- encryption

  /** A column under envelope encryption; `indexKey` names the key that makes it searchable. */
  datatype Encrypting = Encrypting(context: bytes, indexKey: Option<bytes>, strict: bool)

  /** The index a plaintext is stored under, given the deterministic keys the source can resolve. */
  function SearchIndex(c: Encrypting, mac: Mac, indexKeys: Keys, plaintext: bytes)
    : (r: Result<Option<bytes>, Error>)
  {
    match c.indexKey
    case None => Ok(None)
    case Some(name) =>
      if name !in indexKeys then Err(UnknownKey(name)) else Ok(Some(mac(indexKeys[name], plaintext)))
  }

  /** Write one value; `sealing` is what the cipher cache answered for it. */
  function SealValue(c: Encrypting, mac: Mac, indexKeys: Keys, sealing: Result<Sealing, Error>, plaintext: bytes)
    : (r: Result<bytes, Error>)
  {
    match sealing
    case Err(e) => Err(e)
    case Ok(s) =>
      match SearchIndex(c, mac, indexKeys, plaintext)
      case Err(e) => Err(e)
      case Ok(None) => Ok(Stored(s))
      case Ok(Some(index)) => Ok(Prepend(index, Stored(s)))
  }

  /** Read one value; `Ok(None)` leaves it as it is stored. */
  function OpenValue(c: Encrypting, ledger: Ledger, keys: Keys, stored: bytes, row: Option<bytes>)
    : (r: Result<Option<bytes>, Error>)
    requires Genuine(ledger)
  {
    var enveloped := match Split(stored)
      case Some(parts) => Some(parts.1)
      case None => if IsEnveloped(stored) then Some(stored) else None;
    if enveloped.None? then Ok(None)
    else
      match OpenEnvelope(ledger, keys, Binding(c.context, row, c.strict), enveloped.value)
      case Ok(p) => Ok(Some(p))
      case Err(e) => Err(e)
  }

  /** The sealing is for this plaintext, in this column, and in this row if one is bound. */
  predicate SealedFor(s: Sealing, c: Encrypting, row: Option<bytes>, plaintext: bytes) {
    s.version == Written(Binding(c.context, row, false)) && s.plaintext == plaintext
  }

  lemma {:induction false} SplitPrepended(index: bytes, s: Sealing)
    requires |index| == BLIND_INDEX_LEN && WellFormed(s)
    ensures Split(Prepend(index, Stored(s))) == Some((index, Stored(s)))
    ensures Split(Stored(s))
         == if IsEnveloped(s.ciphertext) then Some((Stored(s)[..BLIND_INDEX_LEN], s.ciphertext)) else None
  {
    var stored := Prepend(index, Stored(s));
    assert stored[..BLIND_INDEX_LEN] == index && stored[BLIND_INDEX_LEN..] == Stored(s);
    AssembledParts(MagicOf(s.version), s);
    assert Stored(s)[..4] == MagicOf(s.version);
  }

  /** An envelope never opens to anything but what its own length allows. */
  lemma {:induction false} OpenedLength(ledger: Ledger, keys: Keys, b: Binding, data: bytes)
    requires Genuine(ledger) && OpenEnvelope(ledger, keys, b, data).Ok?
    ensures |data| == HEADER_LEN + |OpenEnvelope(ledger, keys, b, data).value| + TAG_LEN
  {
    var key, aad := keys[KeyIdOf(data).value], OpeningAad(b, data).value;
    var s := UnsealFinds(ledger, key, data[MAGIC_LEN + KEY_ID_LEN..HEADER_LEN], aad, data[HEADER_LEN..]);
    assert WellFormed(s);
  }

  /** What was stored reads back, whatever key is active now, however the column's `searchable` and
      strictness have changed since: always behind an index, and bare exactly when the ciphertext is
      not itself shaped like an envelope. */
  lemma {:induction false} RoundTrip(
    c: Encrypting, ledger: Ledger, keys: Keys, s: Sealing, index: bytes, row: Option<bytes>, plaintext: bytes)
    requires Genuine(ledger) && s in ledger && SealedFor(s, c, row, plaintext)
    requires s.keyId in keys && keys[s.keyId] == s.key && |index| == BLIND_INDEX_LEN
    ensures OpenValue(c, ledger, keys, Prepend(index, Stored(s)), row) == Ok(Some(plaintext))
    ensures OpenValue(c, ledger, keys, Stored(s), row) == Ok(Some(plaintext)) <==> !IsEnveloped(s.ciphertext)
  {
    var b := Binding(c.context, row, c.strict);
    SealedOpens(ledger, s, b);
    assert WellFormed(s);
    SplitPrepended(index, s);
    if IsEnveloped(s.ciphertext) && OpenEnvelope(ledger, keys, b, s.ciphertext).Ok? {
      OpenedLength(ledger, keys, b, s.ciphertext);
    }
  }

  /** `seal` then `open`, before and after any change of the column's settings. */
  lemma {:induction false} SealThenOpen(
    c: Encrypting, now: Encrypting, mac: Mac, indexKeys: Keys, ledger: Ledger, keys: Keys, s: Sealing,
    row: Option<bytes>, plaintext: bytes)
    requires Genuine(ledger) && s in ledger && SealedFor(s, c, row, plaintext)
    requires s.keyId in keys && keys[s.keyId] == s.key && now.context == c.context
    requires SealValue(c, mac, indexKeys, Ok(s), plaintext).Ok?
    ensures var stored := SealValue(c, mac, indexKeys, Ok(s), plaintext).value;
            OpenValue(now, ledger, keys, stored, row) == Ok(Some(plaintext))
            <==> c.indexKey.Some? || !IsEnveloped(s.ciphertext)
  {
    var index := match c.indexKey case Some(name) => mac(indexKeys[name], plaintext) case None => seq(32, _ => 0);
    RoundTrip(now, ledger, keys, s, index, row, plaintext);
  }

  /** A searchable value is found by its plaintext: what equality compares is the same for every row
      and every key it may have been sealed under. */
  lemma {:induction false} FoundByIndex(
    c: Encrypting, mac: Mac, indexKeys: Keys, s: Sealing, stored: bytes, p: bytes, q: bytes)
    requires c.indexKey.Some? && SealValue(c, mac, indexKeys, Ok(s), p) == Ok(stored)
    ensures SearchIndex(c, mac, indexKeys, q).Ok? && |stored| >= BLIND_INDEX_LEN
    ensures SearchIndex(c, mac, indexKeys, q) == Ok(Some(stored[..BLIND_INDEX_LEN]))
       <==> mac(indexKeys[c.indexKey.value], p) == mac(indexKeys[c.indexKey.value], q)
  {
    var index := mac(indexKeys[c.indexKey.value], p);
    assert Prepend(index, Stored(s))[..BLIND_INDEX_LEN] == index;
  }

  /** Whatever bytes are stored, a value read out of a column was sealed for that column, and for
      that row if it was row-bound; bytes of neither stored form are the only ones left alone. */
  lemma {:induction false} OpenedIsAuthentic(
    c: Encrypting, ledger: Ledger, keys: Keys, stored: bytes, row: Option<bytes>) returns (s: Sealing)
    requires Genuine(ledger)
    requires forall s | s in ledger :: Frameable(s.version) && !Confusable(s.version, Binding(c.context, row, c.strict))
    requires OpenValue(c, ledger, keys, stored, row).Ok?
    requires OpenValue(c, ledger, keys, stored, row).value.Some?
    ensures s in ledger && OpenValue(c, ledger, keys, stored, row) == Ok(Some(s.plaintext))
    ensures stored == Stored(s) || (|stored| > BLIND_INDEX_LEN && stored[BLIND_INDEX_LEN..] == Stored(s))
    ensures s.version.V1? || s.version == V2(c.context)
         || (row.Some? && s.version == V3(c.context, row.value))
    ensures row.Some? && c.strict ==> s.version == V3(c.context, row.value)
    ensures s.keyId in keys && keys[s.keyId] == s.key
  {
    var data := match Split(stored) case Some(parts) => parts.1 case None => stored;
    s := OpensWhereSealed(ledger, keys[KeyIdOf(data).value], Binding(c.context, row, c.strict), data);
  }

  // ---------------------------------------------------------------- format-preserving encryption

  const MIN_FPE_DIGITS: nat := 6
  const ZERO: byte := 48

  predicate IsDigit(b: byte) {
    48 <= b <= 57
  }

  /** A numeral string: decimal digits by value. */
  type Numeral = d: seq<nat> | forall i | 0 <= i < |d| :: d[i] < 10

  function Positions(data: bytes): (ps: seq<nat>)
    ensures forall k | 0 <= k < |ps| :: ps[k] < |data| && IsDigit(data[ps[k]])
  {
    if data == [] then []
    else
      var last := |data| - 1;
      if IsDigit(data[last]) then Positions(data[..last]) + [last] else Positions(data[..last])
  }

  /** How many digits come before place `i`. */
  function Rank(data: bytes, i: nat): (k: nat)
    requires i <= |data|
  {
    |Positions(data[..i])|
  }

  /** Ranks and positions of digits are inverse. */
  lemma {:induction false} RankOfPosition(data: bytes, k: nat)
    requires k < |Positions(data)|
    ensures Rank(data, Positions(data)[k]) == k
  {
    var last := |data| - 1;
    if k < |Positions(data[..last])| {
      RankOfPosition(data[..last], k);
      assert data[..last][..Positions(data)[k]] == data[..Positions(data)[k]];
    }
  }

  lemma {:induction false} PositionOfRank(data: bytes, i: nat)
    requires i < |data| && IsDigit(data[i])
    ensures Rank(data, i) < |Positions(data)| && Positions(data)[Rank(data, i)] == i
  {
    var last := |data| - 1;
    if i < last {
      PositionOfRank(data[..last], i);
      assert data[..last][..i] == data[..i];
    }
  }

  /** The digits of `data`, in order. */
  function DigitsOf(data: bytes): (d: Numeral)
    ensures |d| == |Positions(data)|
  {
    var ps := Positions(data);
    seq(|ps|, k requires 0 <= k < |ps| => data[ps[k]] - ZERO)
  }

  /** `data` with its digits replaced, in order. */
  function WithDigits(data: bytes, d: Numeral): (r: bytes)
    requires |d| == |Positions(data)|
  {
    seq(|data|, i requires 0 <= i < |data| =>
      if IsDigit(data[i]) && Rank(data, i) < |d| then ZERO + d[Rank(data, i)] else data[i])
  }

  /** Same length, digits at the same places, every other byte unchanged. */
  predicate SameShape(a: bytes, b: bytes) {
    && |a| == |b|
    && (forall i | 0 <= i < |a| :: IsDigit(a[i]) == IsDigit(b[i]))
    && (forall i | 0 <= i < |a| && !IsDigit(a[i]) :: a[i] == b[i])
  }

  lemma {:induction false} PositionsByShape(a: bytes, b: bytes)
    requires SameShape(a, b)
    ensures Positions(a) == Positions(b)
  {
    if a != [] {
      PositionsByShape(a[..|a| - 1], b[..|b| - 1]);
    }
  }

  /** Two values of one shape with the same digits are the same value. */
  lemma {:induction false} SameByDigits(a: bytes, b: bytes)
    requires SameShape(a, b) && DigitsOf(a) == DigitsOf(b)
    ensures a == b
  {
    PositionsByShape(a, b);
    forall i | 0 <= i < |a| ensures a[i] == b[i] {
      if IsDigit(a[i]) {
        PositionOfRank(a, i);
        assert DigitsOf(a)[Rank(a, i)] == DigitsOf(b)[Rank(a, i)];
      }
    }
  }

  lemma {:induction false} DigitsReplaced(data: bytes, d: Numeral)
    requires |d| == |Positions(data)|
    ensures SameShape(data, WithDigits(data, d)) && DigitsOf(WithDigits(data, d)) == d
  {
    var w := WithDigits(data, d);
    PositionsByShape(data, w);
    forall k | 0 <= k < |d| ensures DigitsOf(w)[k] == d[k] {
      RankOfPosition(data, k);
    }
  }

  /** A permutation of the numeral strings of each length. */
  datatype Ff1 = Ff1(encrypt: Numeral -> Numeral, decrypt: Numeral -> Numeral)

  ghost predicate IsPermutation(f: Ff1) {
    forall d: Numeral {:trigger f.encrypt(d)} {:trigger f.decrypt(d)} ::
      && |f.encrypt(d)| == |f.decrypt(d)| == |d|
      && f.decrypt(f.encrypt(d)) == d && f.encrypt(f.decrypt(d)) == d
  }

  /** What `transform_digits` answers. */
  ghost function Transformed(ff1: Result<Ff1, Error>, data: bytes, decrypt: bool): (r: Result<Option<bytes>, Error>)
    requires ff1.Ok? ==> IsPermutation(ff1.value)
  {
    if |Positions(data)| < MIN_FPE_DIGITS then Ok(None)
    else
      match ff1
      case Err(e) => Err(e)
      case Ok(f) =>
        var d := DigitsOf(data);
        Ok(Some(WithDigits(data, if decrypt then f.decrypt(d) else f.encrypt(d))))
  }

  /** It works on the digits alone: below six it leaves the value, and otherwise answers the value of the same
      shape whose digits are the permuted ones. */
  lemma {:induction false} TransformsDigits(ff1: Result<Ff1, Error>, data: bytes, decrypt: bool)
    requires ff1.Ok? ==> IsPermutation(ff1.value)
    ensures match Transformed(ff1, data, decrypt)
            case Ok(None) => |DigitsOf(data)| < MIN_FPE_DIGITS
            case Err(e) => |DigitsOf(data)| >= MIN_FPE_DIGITS && ff1 == Err(e)
            case Ok(Some(w)) =>
              && |DigitsOf(data)| >= MIN_FPE_DIGITS && ff1.Ok? && SameShape(data, w)
              && DigitsOf(w) == if decrypt then ff1.value.decrypt(DigitsOf(data)) else ff1.value.encrypt(DigitsOf(data))
  {
    if ff1.Ok? && |Positions(data)| >= MIN_FPE_DIGITS {
      var d := DigitsOf(data);
      DigitsReplaced(data, if decrypt then ff1.value.decrypt(d) else ff1.value.encrypt(d));
    }
  }

  /** The digits of a string of decimal digits are their values. */
  lemma {:induction false} DigitsOfNumeral(d: Numeral)
    ensures DigitsOf(seq(|d|, i requires 0 <= i < |d| => ZERO + d[i])) == d
    decreases |d|
  {
    var data := seq(|d|, i requires 0 <= i < |d| => ZERO + d[i]);
    AllPositions(data);
  }

  lemma {:induction false} AllPositions(data: bytes)
    requires forall i | 0 <= i < |data| :: IsDigit(data[i])
    ensures |Positions(data)| == |data| && forall i | 0 <= i < |data| :: Positions(data)[i] == i
  {
    if data != [] {
      AllPositions(data[..|data| - 1]);
    }
  }

  /** Write digits back one position at a time. */
  method Scatter(data: bytes, positions: seq<nat>, d: Numeral) returns (result: bytes)
    requires positions == Positions(data) && |d| == |positions|
    ensures result == WithDigits(data, d)
  {
    result := data;
    for k := 0 to |positions|
      invariant |result| == |data|
      invariant forall i | 0 <= i < |data| ::
                  result[i] == if IsDigit(data[i]) && Rank(data, i) < k then WithDigits(data, d)[i] else data[i]
    {
      RankOfPosition(data, k);
      forall i | 0 <= i < |data| && IsDigit(data[i]) && Rank(data, i) == k ensures i == positions[k] {
        PositionOfRank(data, i);
      }
      result := result[positions[k] := ZERO + d[k]];
    }
    forall i | 0 <= i < |data| && IsDigit(data[i]) ensures Rank(data, i) < |d| {
      PositionOfRank(data, i);
    }
  }

  method FindDigits(data: bytes) returns (positions: seq<nat>)
    ensures positions == Positions(data)
  {
    positions := [];
    for i := 0 to |data|
      invariant positions == Positions(data[..i])
    {
      assert data[..i + 1][..i] == data[..i];
      if IsDigit(data[i]) {
        positions := positions + [i];
      }
    }
    assert data[..|data|] == data;
  }

  method Gather(data: bytes, positions: seq<nat>) returns (digits: seq<nat>)
    requires positions == Positions(data)
    ensures digits == DigitsOf(data)
  {
    digits := [];
    for k := 0 to |positions|
      invariant |digits| == k
      invariant forall j | 0 <= j < k :: digits[j] == data[positions[j]] - ZERO
    {
      digits := digits + [data[positions[k]] - ZERO];
    }
  }

  method TransformDigits(ff1: Result<Ff1, Error>, data: bytes, decrypt: bool)
    returns (r: Result<Option<bytes>, Error>)
    requires ff1.Ok? ==> IsPermutation(ff1.value)
    ensures r == Transformed(ff1, data, decrypt)
    ensures match r
            case Ok(None) => |DigitsOf(data)| < MIN_FPE_DIGITS
            case Err(e) => |DigitsOf(data)| >= MIN_FPE_DIGITS && ff1 == Err(e)
            case Ok(Some(w)) =>
              && |DigitsOf(data)| >= MIN_FPE_DIGITS && ff1.Ok? && SameShape(data, w)
              && DigitsOf(w) == if decrypt then ff1.value.decrypt(DigitsOf(data)) else ff1.value.encrypt(DigitsOf(data))
  {
    TransformsDigits(ff1, data, decrypt);
    var positions := FindDigits(data);
    if |positions| < MIN_FPE_DIGITS {
      return Ok(None);
    }
    var digits := Gather(data, positions);
    match ff1
    case Err(e) => r := Err(e);
    case Ok(f) =>
      var out := if decrypt then f.decrypt(digits) else f.encrypt(digits);
      var result := Scatter(data, positions, out);
      r := Ok(Some(result));
  }

  ghost function FpeSeal(ff1: Result<Ff1, Error>, plaintext: bytes): (r: Result<bytes, Error>)
    requires ff1.Ok? ==> IsPermutation(ff1.value)
  {
    match Transformed(ff1, plaintext, false)
    case Err(e) => Err(e)
    case Ok(None) => Err(FpeDomain)
    case Ok(Some(v)) => Ok(v)
  }

  ghost function FpeOpen(ff1: Result<Ff1, Error>, detokenize: bool, stored: bytes): (r: Result<Option<bytes>, Error>)
    requires ff1.Ok? ==> IsPermutation(ff1.value)
  {
    if !detokenize then Ok(None) else Transformed(ff1, stored, true)
  }

  /** A pseudonym is the value with its digits encrypted, in place and under the given permutation, and opening
      decrypts them; a column that does not detokenize opens nothing. */
  lemma {:induction false} FpePermutesDigits(f: Ff1, value: bytes, w: bytes)
    requires IsPermutation(f)
    ensures FpeSeal(Ok(f), value) == Ok(w) <==>
              |DigitsOf(value)| >= MIN_FPE_DIGITS && SameShape(value, w) && DigitsOf(w) == f.encrypt(DigitsOf(value))
    ensures FpeOpen(Ok(f), true, value) == Ok(Some(w)) <==>
              |DigitsOf(value)| >= MIN_FPE_DIGITS && SameShape(value, w) && DigitsOf(w) == f.decrypt(DigitsOf(value))
    ensures FpeOpen(Ok(f), false, value) == Ok(None)
  {
    TransformsDigits(Ok(f), value, false);
    TransformsDigits(Ok(f), value, true);
    if SameShape(value, w) {
      var a, b := Transformed(Ok(f), value, false), Transformed(Ok(f), value, true);
      if a.value.Some? {
        SameShapes(value, w, a.value.value);
        SameShapes(value, w, b.value.value);
      }
    }
  }

  lemma {:induction false} SameShapes(value: bytes, a: bytes, b: bytes)
    requires SameShape(value, a) && SameShape(value, b)
    ensures DigitsOf(a) == DigitsOf(b) ==> a == b
  {
    if DigitsOf(a) == DigitsOf(b) {
      SameByDigits(a, b);
    }
  }

  /** A pseudonym keeps the value's shape and opens back to it; it exists exactly for values of at
      least six digits, and every value of that shape is the pseudonym of exactly one value. */
  lemma {:induction false} FpeIsABijectionOfShapes(f: Ff1, value: bytes)
    requires IsPermutation(f)
    ensures FpeSeal(Ok(f), value).Ok? <==> |Positions(value)| >= MIN_FPE_DIGITS
    ensures FpeSeal(Ok(f), value).Ok? ==>
              && SameShape(value, FpeSeal(Ok(f), value).value)
              && FpeOpen(Ok(f), true, FpeSeal(Ok(f), value).value) == Ok(Some(value))
    ensures |Positions(value)| >= MIN_FPE_DIGITS ==>
              && FpeOpen(Ok(f), true, value).Ok? && FpeOpen(Ok(f), true, value).value.Some?
              && FpeSeal(Ok(f), FpeOpen(Ok(f), true, value).value.value) == Ok(value)
  {
    if |Positions(value)| >= MIN_FPE_DIGITS {
      Undone(value, f.encrypt(DigitsOf(value)), f.decrypt(f.encrypt(DigitsOf(value))));
      Undone(value, f.decrypt(DigitsOf(value)), f.encrypt(f.decrypt(DigitsOf(value))));
    }
  }

  /** Replacing the digits and then putting the original ones back. */
  lemma {:induction false} Undone(value: bytes, d: Numeral, e: Numeral)
    requires |d| == |Positions(value)| && e == DigitsOf(value)
    ensures var w := WithDigits(value, d);
            && SameShape(value, w) && Positions(w) == Positions(value) && DigitsOf(w) == d
            && WithDigits(w, e) == value
  {
    var w := WithDigits(value, d);
    DigitsReplaced(value, d);
    PositionsByShape(value, w);
    DigitsReplaced(w, e);
    SameByDigits(value, WithDigits(w, e));
  }
}
