/** The stored ciphertext envelope and the associated data that ties it to a cell.

    Authenticated encryption is symbolic: a ledger lists every sealing ever made, and a ciphertext
    opens exactly when the ledger holds it under the same key, nonce and associated data. */
module Envelope {
  import opened Bytes

  const MAGIC_V1: bytes := [68, 66, 83, 49]
  const MAGIC: bytes := [68, 66, 83, 50]
  const MAGIC_V3: bytes := [68, 66, 83, 51]
  const MAGIC_LEN: nat := 4
  const KEY_ID_LEN: nat := 16
  const NONCE_LEN: nat := 12
  const HEADER_LEN: nat := 32
  const TAG_LEN: nat := 16

  datatype Error =
    | Malformed
    | Decrypt
    | UnknownKey(id: bytes)
    | KeyExhausted(id: bytes)
    | RowKeyMissing
    | RowBindingDowngraded
    | RowBindingFieldTooLong
    | RowKeyType
    | FpeDomain
    | UnknownColumn(name: bytes)
    | RowKeyRequired(name: bytes)
    | RowKeyNotDeclared(name: bytes)
    | NotReadable(name: bytes)

  datatype Binding = Binding(context: bytes, row: Option<bytes>, strict: bool)

  /** How one value was sealed: the pre-context format, cell-bound, or row-bound. */
  datatype Version = V1 | V2(context: bytes) | V3(context: bytes, row: bytes)

  datatype Sealing = Sealing(
    version: Version, keyId: bytes, key: bytes, nonce: bytes, ciphertext: bytes, plaintext: bytes)

  type Ledger = seq<Sealing>

  // ---------------------------------------------------------------- associated data

  function Aad(context: bytes, keyId: bytes): (r: bytes) {
    keyId + context
  }

  /** A length-prefixed field. */
  function Framed(b: bytes): (r: bytes)
    requires |b| < TWO_32
    ensures |r| == 4 + |b|
  {
    BigEndian32(|b|) + b
  }

  function AadWithRow(context: bytes, keyId: bytes, row: bytes): (r: Result<bytes, Error>) {
    if |context| >= TWO_32 || |row| >= TWO_32 then Err(RowBindingFieldTooLong)
    else Ok(keyId + Framed(context) + Framed(row))
  }

  predicate Frameable(v: Version) {
    v.V3? ==> |v.context| < TWO_32 && |v.row| < TWO_32
  }

  function AadOf(v: Version, keyId: bytes): (r: bytes)
    requires Frameable(v)
  {
    match v
    case V1 => keyId
    case V2(context) => Aad(context, keyId)
    case V3(context, row) => keyId + Framed(context) + Framed(row)
  }

  function MagicOf(v: Version): (m: bytes)
    ensures |m| == MAGIC_LEN
  {
    match v case V1 => MAGIC_V1 case V2(_) => MAGIC case V3(_, _) => MAGIC_V3
  }

  /** The version a binding writes. */
  function Written(b: Binding): (v: Version) {
    match b.row case Some(row) => V3(b.context, row) case None => V2(b.context)
  }

  // ---------------------------------------------------------------- the ledger

  predicate WellFormed(s: Sealing) {
    && Frameable(s.version) && |s.keyId| == KEY_ID_LEN && |s.nonce| == NONCE_LEN
    && |s.ciphertext| == |s.plaintext| + TAG_LEN
  }

  predicate SameBox(s: Sealing, key: bytes, nonce: bytes, ciphertext: bytes) {
    s.key == key && s.nonce == nonce && s.ciphertext == ciphertext
  }

  /** No two sealings share key, nonce and ciphertext. */
  predicate Genuine(ledger: Ledger) {
    && (forall i {:trigger ledger[i]} | 0 <= i < |ledger| :: WellFormed(ledger[i]))
    && (forall i, j | 0 <= i < j < |ledger| ::
          !SameBox(ledger[j], ledger[i].key, ledger[i].nonce, ledger[i].ciphertext))
  }

  function Unseal(ledger: Ledger, key: bytes, nonce: bytes, aad: bytes, ciphertext: bytes)
    : (r: Option<bytes>)
    requires forall i {:trigger ledger[i]} | 0 <= i < |ledger| :: WellFormed(ledger[i])
  {
    if ledger == [] then None
    else
      assert WellFormed(ledger[0]);
      if SameBox(ledger[0], key, nonce, ciphertext) && AadOf(ledger[0].version, ledger[0].keyId) == aad
      then Some(ledger[0].plaintext) else Unseal(ledger[1..], key, nonce, aad, ciphertext)
  }

  // ---------------------------------------------------------------- envelopes

  predicate StartsWith(data: bytes, prefix: bytes) {
    |prefix| <= |data| && data[..|prefix|] == prefix
  }

  predicate IsEnveloped(data: bytes) {
    |data| > HEADER_LEN && (StartsWith(data, MAGIC) || StartsWith(data, MAGIC_V1) || StartsWith(data, MAGIC_V3))
  }

  /** An envelope is a known magic, a key id, a nonce and some ciphertext. */
  lemma {:induction false} EnvelopedIff(data: bytes)
    ensures IsEnveloped(data) <==>
              MAGIC_LEN + KEY_ID_LEN + NONCE_LEN < |data| && data[..MAGIC_LEN] in {MAGIC_V1, MAGIC, MAGIC_V3}
  {
  }

  function KeyIdOf(data: bytes): (r: Result<bytes, Error>) {
    if !IsEnveloped(data) then Err(Malformed) else Ok(data[MAGIC_LEN..MAGIC_LEN + KEY_ID_LEN])
  }

  function Assemble(magic: bytes, s: Sealing): (data: bytes) {
    magic + s.keyId + s.nonce + s.ciphertext
  }

  /** The stored form of a sealing. */
  function Stored(s: Sealing): (data: bytes) {
    Assemble(MagicOf(s.version), s)
  }

  function OpeningAad(b: Binding, data: bytes): (r: Result<bytes, Error>)
    requires IsEnveloped(data)
  {
    var id := data[MAGIC_LEN..MAGIC_LEN + KEY_ID_LEN];
    var downgraded := b.row.Some? && b.strict;
    if StartsWith(data, MAGIC_V1) then
      if downgraded then Err(RowBindingDowngraded) else Ok(id)
    else if StartsWith(data, MAGIC_V3) then
      if b.row.None? then Err(RowKeyMissing) else AadWithRow(b.context, id, b.row.value)
    else
      if downgraded then Err(RowBindingDowngraded) else Ok(Aad(b.context, id))
  }

  function DecryptWith(ledger: Ledger, key: bytes, b: Binding, data: bytes): (r: Result<bytes, Error>)
    requires Genuine(ledger)
  {
    if !IsEnveloped(data) then Err(Malformed)
    else
      match OpeningAad(b, data)
      case Err(e) => Err(e)
      case Ok(aad) =>
        match Unseal(ledger, key, data[MAGIC_LEN + KEY_ID_LEN..HEADER_LEN], aad, data[HEADER_LEN..])
        case Some(p) => Ok(p)
        case None => Err(Decrypt)
  }

  type Keys = map<bytes, bytes>

  /** `Ciphers::open`: decrypt under the key the header names. */
  function OpenEnvelope(ledger: Ledger, keys: Keys, b: Binding, data: bytes): (r: Result<bytes, Error>)
    requires Genuine(ledger)
  {
    match KeyIdOf(data)
    case Err(e) => Err(e)
    case Ok(id) => if id !in keys then Err(UnknownKey(id)) else DecryptWith(ledger, keys[id], b, data)
  }

  predicate IsRowBound(data: bytes) {
    StartsWith(data, MAGIC_V3)
  }

  /** Why bytes do not open, the first that applies: they are no envelope; the header's key is not known; they
      are not row-bound where only row-bound values are accepted; they are row-bound and no row is given;
      the column's name or the row is too long to frame; or nothing was sealed so. */
  lemma {:induction false} OpenRefusedIff(ledger: Ledger, keys: Keys, b: Binding, data: bytes, e: Error)
    requires Genuine(ledger)
    ensures OpenEnvelope(ledger, keys, b, data) == Err(e) <==>
              if !IsEnveloped(data) then e == Malformed
              else if data[4..20] !in keys then e == UnknownKey(data[4..20])
              else if !IsRowBound(data) && b.row.Some? && b.strict then e == RowBindingDowngraded
              else if IsRowBound(data) && b.row.None? then e == RowKeyMissing
              else if IsRowBound(data) && (|b.context| >= TWO_32 || |b.row.value| >= TWO_32)
                   then e == RowBindingFieldTooLong
              else e == Decrypt && DecryptWith(ledger, keys[data[4..20]], b, data).Err?
    ensures !IsEnveloped(data) ==> forall key :: DecryptWith(ledger, key, b, data) == Err(Malformed)
  {
    if IsEnveloped(data) && IsRowBound(data) {
      assert !StartsWith(data, MAGIC_V1);
    }
  }

  // ---------------------------------------------------------------- framing is injective

  lemma {:induction false} FramedPrefix(a: bytes, x: bytes, b: bytes, y: bytes)
    requires |a| < TWO_32 && |b| < TWO_32 && Framed(a) + x == Framed(b) + y
    ensures a == b && x == y
  {
    var l, r := Framed(a) + x, Framed(b) + y;
    assert l[..4] == BigEndian32(|a|) && r[..4] == BigEndian32(|b|);
    BigEndian32Inverse(|a|, BigEndian32(|a|));
    BigEndian32Inverse(|b|, BigEndian32(|b|));
    assert l[4..4 + |a|] == a && r[4..4 + |b|] == b;
    assert l[4 + |a|..] == x && r[4 + |b|..] == y;
  }

  lemma {:induction false} KeyIdPrefix(k: bytes, x: bytes, l: bytes, y: bytes)
    requires |k| == |l| && k + x == l + y
    ensures k == l && x == y
  {
    assert (k + x)[..|k|] == k && (l + y)[..|l|] == l;
    assert (k + x)[|k|..] == x && (l + y)[|l|..] == y;
  }

  /** What is bound after the key id. */
  function Tail(v: Version): (r: bytes)
    requires Frameable(v)
  {
    match v
    case V1 => []
    case V2(context) => context
    case V3(context, row) => Framed(context) + Framed(row)
  }

  lemma {:induction false} AadSplits(v: Version, keyId: bytes)
    requires Frameable(v)
    ensures AadOf(v, keyId) == keyId + Tail(v)
  {
    if v.V3? {
      assert keyId + Framed(v.context) + Framed(v.row) == keyId + (Framed(v.context) + Framed(v.row));
    } else if v.V1? {
      assert keyId + [] == keyId;
    }
  }

  /** Associated data determines the key id and what was bound; within one version it determines the
      column, and the row. */
  lemma {:induction false} AadIsInjective(v: Version, k: bytes, w: Version, l: bytes)
    requires Frameable(v) && Frameable(w) && |k| == KEY_ID_LEN && |l| == KEY_ID_LEN
    ensures AadOf(v, k) == AadOf(w, l) <==> k == l && Tail(v) == Tail(w)
    ensures AadOf(v, k) == AadOf(w, l) && v.V2? && w.V2? ==> v == w
    ensures AadOf(v, k) == AadOf(w, l) && v.V3? && w.V3? ==> v == w
  {
    AadSplits(v, k);
    AadSplits(w, l);
    if AadOf(v, k) == AadOf(w, l) {
      KeyIdPrefix(k, Tail(v), l, Tail(w));
      if v.V3? && w.V3? {
        FramedPrefix(v.context, Framed(v.row), w.context, Framed(w.row));
        assert Framed(v.row) + [] == Framed(v.row) && Framed(w.row) + [] == Framed(w.row);
        FramedPrefix(v.row, [], w.row, []);
      }
    }
  }

  /** Across versions, exactly these bindings share associated data: a cell-bound value of the column
      whose name is itself the framing of another column and row, and one of a column with no name. */
  lemma {:induction false} AadAcrossVersions(k: bytes, c: bytes, d: bytes, row: bytes)
    requires |k| == KEY_ID_LEN && |d| < TWO_32 && |row| < TWO_32
    ensures AadOf(V2(c), k) == AadOf(V3(d, row), k) <==> c == Framed(d) + Framed(row)
    ensures AadOf(V2(c), k) == AadOf(V1, k) <==> c == []
    ensures AadOf(V3(d, row), k) != AadOf(V1, k)
  {
    AadIsInjective(V2(c), k, V3(d, row), k);
    AadIsInjective(V2(c), k, V1, k);
    AadIsInjective(V3(d, row), k, V1, k);
  }

  /** The name is itself the framing of a column and a row. */
  predicate IsFraming(c: bytes) {
    |c| >= 8
    && var n := ReadBigEndian32(c[..4]);
       n + 8 <= |c| && ReadBigEndian32(c[n + 4..n + 8]) == |c| - n - 8
  }

  lemma {:induction false} FramedIsFraming(d: bytes, row: bytes)
    requires |d| < TWO_32 && |row| < TWO_32
    ensures IsFraming(Framed(d) + Framed(row))
  {
    var c := Framed(d) + Framed(row);
    BigEndian32Inverse(|d|, BigEndian32(|d|));
    BigEndian32Inverse(|row|, BigEndian32(|row|));
    assert c[..4] == BigEndian32(|d|) && c[|d| + 4..|d| + 8] == BigEndian32(|row|);
  }

  lemma {:induction false} Unframed(c: bytes) returns (d: bytes, row: bytes)
    requires IsFraming(c)
    ensures |d| < TWO_32 && |row| < TWO_32 && c == Framed(d) + Framed(row)
  {
    var n := ReadBigEndian32(c[..4]);
    d, row := c[4..n + 4], c[n + 8..];
    BigEndian32Inverse(0, c[..4]);
    BigEndian32Inverse(0, c[n + 4..n + 8]);
    assert c == c[..4] + d + (c[n + 4..n + 8] + row);
  }

  /** A name that no other binding's associated data can be mistaken for. */
  predicate Distinctive(context: bytes) {
    context != [] && !IsFraming(context)
  }

  predicate DistinctiveVersion(v: Version) {
    v.V2? ==> Distinctive(v.context)
  }

  /** A name without a leading NUL, shorter than 16 megabytes, is distinctive. PostgreSQL names are all
      of this kind. */
  lemma {:induction false} NoLeadingNul(context: bytes)
    requires 0 < |context| < 0x100_0000 && context[0] != 0
    ensures Distinctive(context)
  {
  }

  // ---------------------------------------------------------------- what opens, and where

  /** What opens is in the ledger under that associated data. */
  lemma {:induction false} UnsealFinds(ledger: Ledger, key: bytes, nonce: bytes, aad: bytes, ciphertext: bytes)
    returns (s: Sealing)
    requires forall i {:trigger ledger[i]} | 0 <= i < |ledger| :: WellFormed(ledger[i])
    requires Unseal(ledger, key, nonce, aad, ciphertext).Some?
    ensures s in ledger && SameBox(s, key, nonce, ciphertext) && AadOf(s.version, s.keyId) == aad
    ensures Unseal(ledger, key, nonce, aad, ciphertext) == Some(s.plaintext)
  {
    s := ledger[0];
    if !(SameBox(s, key, nonce, ciphertext) && AadOf(s.version, s.keyId) == aad) {
      s := UnsealFinds(ledger[1..], key, nonce, aad, ciphertext);
    }
  }

  /** What is in the ledger opens under its own associated data and no other. */
  lemma {:induction false} UnsealOf(ledger: Ledger, i: nat, aad: bytes)
    requires Genuine(ledger) && i < |ledger|
    ensures var s := ledger[i];
            Unseal(ledger, s.key, s.nonce, aad, s.ciphertext)
            == if AadOf(s.version, s.keyId) == aad then Some(s.plaintext) else None
  {
    var s, rest := ledger[i], ledger[1..];
    assert forall j | 0 <= j < |rest| :: rest[j] == ledger[j + 1];
    if i > 0 {
      UnsealOf(rest, i - 1, aad);
    } else if AadOf(s.version, s.keyId) != aad && Unseal(rest, s.key, s.nonce, aad, s.ciphertext).Some? {
      var t := UnsealFinds(rest, s.key, s.nonce, aad, s.ciphertext);
    }
  }

  lemma {:induction false} AssembledParts(magic: bytes, s: Sealing)
    requires |magic| == MAGIC_LEN && WellFormed(s)
    ensures var data := Assemble(magic, s);
            && data[..MAGIC_LEN] == magic && data[MAGIC_LEN..MAGIC_LEN + KEY_ID_LEN] == s.keyId
            && data[MAGIC_LEN + KEY_ID_LEN..HEADER_LEN] == s.nonce && data[HEADER_LEN..] == s.ciphertext
            && |data| > HEADER_LEN
  {
  }

  /** The version whose associated data a binding checks an envelope against. */
  function Checked(b: Binding, data: bytes): (v: Version)
    requires IsEnveloped(data) && OpeningAad(b, data).Ok?
    ensures Frameable(v) && data[..MAGIC_LEN] == MagicOf(v)
    ensures OpeningAad(b, data) == Ok(AadOf(v, data[MAGIC_LEN..MAGIC_LEN + KEY_ID_LEN]))
    ensures v.V2? || v.V3? ==> v.context == b.context
    ensures v.V3? ==> b.row == Some(v.row)
    ensures b.row.Some? && b.strict ==> v.V3?
  {
    if StartsWith(data, MAGIC_V1) then V1
    else if StartsWith(data, MAGIC_V3) then V3(b.context, b.row.value)
    else V2(b.context)
  }

  /** Sealed for the cell: in the same column, and in the same row if row-bound; or before contexts. */
  predicate BelongsTo(s: Sealing, b: Binding) {
    s.version.V1? || s.version == V2(b.context) || (b.row.Some? && s.version == V3(b.context, b.row.value))
  }

  /** The value's associated data is also that of another version that the cell accepts: it is row-bound
      and the column's name is the framing of its column and row; or it is cell-bound and its column's
      name is empty, or the framing of this column and row; or it is pre-context and the column has no
      name. */
  predicate Confusable(v: Version, b: Binding)
    requires Frameable(v)
  {
    match v
    case V1 => b.context == []
    case V2(c) =>
      || c == []
      || (b.row.Some? && |b.context| < TWO_32 && |b.row.value| < TWO_32
          && c == Framed(b.context) + Framed(b.row.value))
    case V3(_, _) => b.context == Tail(v)
  }

  lemma {:induction false} DistinctiveIsClear(v: Version, b: Binding)
    requires Frameable(v) && DistinctiveVersion(v) && Distinctive(b.context)
    ensures !Confusable(v, b)
  {
    if v.V3? {
      FramedIsFraming(v.context, v.row);
    } else if v.V2? && b.row.Some? && |b.context| < TWO_32 && |b.row.value| < TWO_32 {
      FramedIsFraming(b.context, b.row.value);
    }
  }

  /** Whatever bytes are presented, a value opens in a cell only if it was sealed for that cell: in the
      same column, and in the same row when it was row-bound. Only a pre-context value opens
      elsewhere, and in a row-bound column past its migration window nothing but a value sealed for
      that very row opens at all. So it is unless the ledger holds a confusable value. */
  lemma {:induction false} OpensWhereSealed(ledger: Ledger, key: bytes, b: Binding, data: bytes)
    returns (s: Sealing)
    requires Genuine(ledger) && DecryptWith(ledger, key, b, data).Ok?
    requires forall s | s in ledger :: Frameable(s.version) && !Confusable(s.version, b)
    ensures s in ledger && s.key == key && KeyIdOf(data) == Ok(s.keyId)
    ensures data == Stored(s) && DecryptWith(ledger, key, b, data) == Ok(s.plaintext)
    ensures BelongsTo(s, b)
    ensures b.row.Some? && b.strict ==> s.version == V3(b.context, b.row.value)
  {
    var aad := OpeningAad(b, data).value;
    var nonce, ct := data[MAGIC_LEN + KEY_ID_LEN..HEADER_LEN], data[HEADER_LEN..];
    s := UnsealFinds(ledger, key, nonce, aad, ct);
    var id := data[MAGIC_LEN..MAGIC_LEN + KEY_ID_LEN];
    AadIsInjective(s.version, s.keyId, Checked(b, data), id);
    assert data == data[..MAGIC_LEN] + id + nonce + ct;
  }

  /** A sealed value opens in its own cell, strictly or not. */
  lemma {:induction false} SealedOpens(ledger: Ledger, s: Sealing, b: Binding)
    requires Genuine(ledger) && s in ledger
    requires s.version == Written(b) || (s.version == V2(b.context) && !b.strict) || (s.version.V1? && !b.strict)
    ensures IsEnveloped(Stored(s)) && KeyIdOf(Stored(s)) == Ok(s.keyId)
    ensures DecryptWith(ledger, s.key, b, Stored(s)) == Ok(s.plaintext)
  {
    AssembledParts(MagicOf(s.version), s);
    var data := Stored(s);
    assert data[..4] == MagicOf(s.version);
    var i :| 0 <= i < |ledger| && ledger[i] == s;
    UnsealOf(ledger, i, AadOf(s.version, s.keyId));
  }

  /** Rewriting the header of a sealed value to another version never opens it in its own column,
      whatever row and strictness it is opened with. */
  lemma {:induction false} RelabelledNeverOpens(ledger: Ledger, s: Sealing, magic: bytes, b: Binding)
    requires Genuine(ledger) && s in ledger && !s.version.V1?
    requires b.context == s.version.context && b.context != []
    requires magic in {MAGIC_V1, MAGIC, MAGIC_V3} && magic != MagicOf(s.version)
    ensures DecryptWith(ledger, s.key, b, Assemble(magic, s)).Err?
  {
    AssembledParts(magic, s);
    var data := Assemble(magic, s);
    assert data[..4] == magic;
    if OpeningAad(b, data).Ok? {
      var v := Checked(b, data);
      AadIsInjective(s.version, s.keyId, v, s.keyId);
      var i :| 0 <= i < |ledger| && ledger[i] == s;
      UnsealOf(ledger, i, AadOf(v, s.keyId));
    }
  }

  /** Without distinctive names the guarantee fails: a row-bound value relabelled as cell-bound opens in the
      column named like its framing. */
  lemma {:induction false} FramedNameOpens(ledger: Ledger, s: Sealing)
    requires Genuine(ledger) && s in ledger && s.version.V3?
    ensures var b := Binding(Framed(s.version.context) + Framed(s.version.row), None, false);
            DecryptWith(ledger, s.key, b, Assemble(MAGIC, s)) == Ok(s.plaintext)
  {
    var c := Framed(s.version.context) + Framed(s.version.row);
    AssembledParts(MAGIC, s);
    assert Assemble(MAGIC, s)[..4] == MAGIC;
    AadAcrossVersions(s.keyId, c, s.version.context, s.version.row);
    var i :| 0 <= i < |ledger| && ledger[i] == s;
    UnsealOf(ledger, i, Aad(c, s.keyId));
  }

  /** And a cell-bound value relabelled as row-bound opens, strictly or not, in the row and the column whose
      framing its own column is named like. */
  lemma {:induction false} FramingNamedOpens(ledger: Ledger, s: Sealing, b: Binding)
    requires Genuine(ledger) && s in ledger && s.version.V2? && b.row.Some?
    requires |b.context| < TWO_32 && |b.row.value| < TWO_32
    requires s.version.context == Framed(b.context) + Framed(b.row.value)
    ensures DecryptWith(ledger, s.key, b, Assemble(MAGIC_V3, s)) == Ok(s.plaintext)
  {
    var i :| 0 <= i < |ledger| && ledger[i] == s;
    AssembledParts(MAGIC_V3, s);
    assert Assemble(MAGIC_V3, s)[..4] == MAGIC_V3;
    AadAcrossVersions(s.keyId, s.version.context, b.context, b.row.value);
    UnsealOf(ledger, i, AadOf(V3(b.context, b.row.value), s.keyId));
  }

  /** Whatever opens in the column is the stored form of a value sealed for the cell it opens in, for
      every ledger whose cell-bound values are of columns with distinctive names. */
  ghost predicate OpensItsOwn(context: bytes) {
    forall ledger: Ledger, key: bytes, b: Binding, data: bytes
      | Genuine(ledger) && b.context == context && (forall s | s in ledger :: DistinctiveVersion(s.version))
        && DecryptWith(ledger, key, b, data).Ok?
      :: exists s :: s in ledger && data == Stored(s) && BelongsTo(s, b)
  }

  function Sample(v: Version): (s: Sealing) {
    Sealing(v, seq(KEY_ID_LEN, _ => 0), [], seq(NONCE_LEN, _ => 0), seq(TAG_LEN, _ => 0), [])
  }

  /** A column opens only what was sealed for the cell exactly when its name is not empty and not itself
      the framing of a column and a row. */
  lemma {:induction false} OpensItsOwnIff(context: bytes)
    ensures OpensItsOwn(context) <==> Distinctive(context)
  {
    if Distinctive(context) {
      forall ledger: Ledger, key: bytes, b: Binding, data: bytes
        | Genuine(ledger) && b.context == context && (forall s | s in ledger :: DistinctiveVersion(s.version))
          && DecryptWith(ledger, key, b, data).Ok?
        ensures exists s :: s in ledger && data == Stored(s) && BelongsTo(s, b)
      {
        forall s | s in ledger ensures Frameable(s.version) && !Confusable(s.version, b) {
          var i :| 0 <= i < |ledger| && ledger[i] == s;
          DistinctiveIsClear(s.version, b);
        }
        var s := OpensWhereSealed(ledger, key, b, data);
      }
    } else {
      var v := V1;
      if context != [] {
        var d, row := Unframed(context);
        v := V3(d, row);
      }
      SampleOpens(v, context);
    }
  }

  /** Bytes that open in the column, although no sealing has them as its stored form. */
  lemma {:induction false} SampleOpens(v: Version, context: bytes)
    requires !v.V2? && Frameable(v) && Tail(v) == context
    ensures !OpensItsOwn(context)
  {
    var s := Sample(v);
    var ledger, b, data := [s], Binding(context, None, false), Assemble(MAGIC, s);
    AssembledParts(MAGIC, s);
    AssembledParts(MagicOf(v), s);
    assert data[..4] == MAGIC && Stored(s)[..4] == MagicOf(v) != MAGIC;
    AadSplits(v, s.keyId);
    assert ledger[0] == s;
    UnsealOf(ledger, 0, Aad(context, s.keyId));
    assert DecryptWith(ledger, s.key, b, data).Ok?;
  }
}
