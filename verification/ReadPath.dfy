/** The read path over encrypted columns, end to end: what `decrypt_row` shows for a value that was
    sealed for a row, by what the row it comes back in says its key is. */
module ReadPath {
  import opened Bytes
  import opened Resolution
  import opened Frames
  import opened Envelope
  import opened Transforms
  import Hex
  import Rows
  import RowKeys
  import Text

  type GenuineLedger = l: Ledger | Genuine(l) witness []

  /** Transforms are the encrypting columns, by number; masks are any function. */
  datatype Deployment = Deployment(
    columns: nat -> Encrypting, ledger: GenuineLedger, keys: Keys, mask: (nat, bytes) -> bytes)

  function OpsOf(d: Deployment): (ops: Rows.Ops) {
    Rows.Ops(
      (t: nat) => true,
      (t: nat, stored: bytes, row: Option<bytes>) => OpenValue(d.columns(t), d.ledger, d.keys, stored, row),
      d.mask)
  }

  /** The stored form of a sealing: bare, or behind a blind index. */
  predicate IsStoredForm(s: Sealing, stored: bytes) {
    || (stored == Stored(s) && !IsEnveloped(s.ciphertext))
    || (|stored| >= BLIND_INDEX_LEN && stored[BLIND_INDEX_LEN..] == Stored(s))
  }

  /** The third byte of an envelope is no hex digit, so raw stored bytes are never taken for hex. */
  lemma {:induction false} NeverHex(s: Sealing, stored: bytes, at: nat)
    requires WellFormed(s) && at <= |stored| && stored[at..] == Stored(s)
    ensures |stored| >= 2 && Hex.Decode(stored[2..]).None?
  {
    AssembledParts(MagicOf(s.version), s);
    assert Stored(s)[..4] == MagicOf(s.version) && Stored(s)[2] == 83;
    assert stored[at + 2] == stored[at..][2] == 83;
    assert stored[2..][at] == 83 && Hex.Value(83).None?;
  }

  lemma {:induction false} WireForm(s: Sealing, stored: bytes, hexText: bool)
    requires WellFormed(s) && IsStoredForm(s, stored)
    ensures Rows.DecodeWire(true, Rows.OnTheWire(stored, hexText)) == (stored, hexText)
  {
    if hexText {
      Rows.HexTextRoundTrip(stored);
    } else if stored == Stored(s) {
      assert stored[0..] == Stored(s);
      NeverHex(s, stored, 0);
    } else {
      NeverHex(s, stored, BLIND_INDEX_LEN);
    }
  }

  /** The column under test: opened by transform `t`, its value at its position. */
  predicate Holds(d: Deployment, c: Column, t: nat, row: Rows.Row, raw: bytes) {
    c.read.transform == Some(t) && c.index < |row| && row[c.index] == Some(raw)
  }

  /** What a client may see of a plaintext: the column's mask of it, or all of it. */
  function Visible(d: Deployment, c: Column, plaintext: bytes): (v: bytes) {
    if c.read.mask.Some? then d.mask(c.read.mask.value, plaintext) else plaintext
  }

  predicate SealedAs(d: Deployment, s: Sealing, v: Version) {
    s in d.ledger && s.version == v && s.keyId in d.keys && d.keys[s.keyId] == s.key
  }

  /** The sealing is for this column and row key, under a key the source knows. */
  predicate SealedIn(d: Deployment, t: nat, s: Sealing, k: bytes) {
    SealedAs(d, s, V3(d.columns(t).context, k))
  }

  /** A value sealed without a row is shown, in a result set that tells no row key, as its plaintext or the
      column's mask of it; and while the table's migration window is open, in one that does. */
  lemma {:induction false} CellBoundValueReads(
    d: Deployment, positions: seq<Column>, c: Column, t: nat, formats: ResultFormats, row: Rows.Row, maxValue: nat,
    s: Sealing, stored: bytes, hexText: bool)
    requires Holds(d, c, t, row, Rows.OnTheWire(stored, hexText)) && SealedAs(d, s, V2(d.columns(t).context))
    requires IsStoredForm(s, stored) && |Rows.OnTheWire(stored, hexText)| <= maxValue
    requires Rows.UsableKey(Rows.KeyFor(c, formats, row)).None? || !d.columns(t).strict
    ensures Rows.Cell(OpsOf(d), positions, c, formats, row, maxValue)
         == Ok(Some(Rows.OnTheWire(Visible(d, c, s.plaintext), hexText)))
  {
    assert WellFormed(s);
    WireForm(s, stored, hexText);
    SealedOpens(d.ledger, s,
      Binding(d.columns(t).context, Rows.UsableKey(Rows.KeyFor(c, formats, row)), d.columns(t).strict));
    Rows.CellShows(OpsOf(d), positions, c, formats, row, maxValue, Rows.OnTheWire(stored, hexText));
  }

  /** In the row it was sealed for, the client sees the plaintext or the column's mask of it, in the form
      the value came in. */
  lemma {:induction false} BoundValueReads(
    d: Deployment, positions: seq<Column>, c: Column, t: nat, formats: ResultFormats, row: Rows.Row, maxValue: nat,
    s: Sealing, stored: bytes, hexText: bool, k: bytes)
    requires Holds(d, c, t, row, Rows.OnTheWire(stored, hexText)) && SealedIn(d, t, s, k) && IsStoredForm(s, stored)
    requires |Rows.OnTheWire(stored, hexText)| <= maxValue
    requires Rows.KeyFor(c, formats, row) == Some(Ok(k))
    ensures Rows.Cell(OpsOf(d), positions, c, formats, row, maxValue)
         == Ok(Some(Rows.OnTheWire(Visible(d, c, s.plaintext), hexText)))
  {
    assert WellFormed(s);
    WireForm(s, stored, hexText);
    SealedOpens(d.ledger, s, Binding(d.columns(t).context, Some(k), d.columns(t).strict));
  }

  lemma {:induction false} WrongRow(ledger: Ledger, keys: Keys, s: Sealing, b: Binding)
    requires Genuine(ledger) && s in ledger && WellFormed(s) && s.version.V3? && s.version.context == b.context
    requires s.keyId in keys && keys[s.keyId] == s.key
    requires b.row.Some? ==> b.row.value != s.version.row && |b.row.value| < TWO_32
    ensures OpenEnvelope(ledger, keys, b, Stored(s)) == Err(if b.row.Some? then Decrypt else RowKeyMissing)
  {
    AssembledParts(MAGIC_V3, s);
    var data := Stored(s);
    assert data[..4] == MAGIC_V3;
    if b.row.Some? {
      var v := Checked(b, data);
      AadIsInjective(s.version, s.keyId, v, s.keyId);
      var i :| 0 <= i < |ledger| && ledger[i] == s;
      UnsealOf(ledger, i, AadOf(v, s.keyId));
    }
  }

  /** In any other row the value is refused, and the refusal names the cell and the row it came back
      in, or the self-join that makes the row unknowable; without the row's key, or with one that
      cannot be read, the refusal says that instead. */
  lemma {:induction false} MovedValueIsNamed(
    d: Deployment, positions: seq<Column>, c: Column, t: nat, formats: ResultFormats, row: Rows.Row, maxValue: nat,
    s: Sealing, stored: bytes, hexText: bool, k: bytes)
    requires Holds(d, c, t, row, Rows.OnTheWire(stored, hexText)) && SealedIn(d, t, s, k) && IsStoredForm(s, stored)
    requires |Rows.OnTheWire(stored, hexText)| <= maxValue
    ensures match Rows.KeyFor(c, formats, row)
            case Some(Ok(other)) =>
              other != k && |other| < TWO_32 ==>
                Rows.Cell(OpsOf(d), positions, c, formats, row, maxValue)
                == Err(if Rows.Repeated(positions, c.read.name) then Rows.AmbiguousRowInstance(c.read.name)
                       else Rows.RowBindingFailed(c.read.name, other, c.index))
            case Some(Err(why)) =>
              Rows.Cell(OpsOf(d), positions, c, formats, row, maxValue) == Err(Rows.Core(why))
            case None =>
              Rows.Cell(OpsOf(d), positions, c, formats, row, maxValue) == Err(Rows.Core(RowKeyMissing))
  {
    assert WellFormed(s);
    WireForm(s, stored, hexText);
    var e := d.columns(t);
    WrongRow(d.ledger, d.keys, s, Binding(e.context, None, e.strict));
    match Rows.KeyFor(c, formats, row)
    case Some(Ok(other)) =>
      if other != k && |other| < TWO_32 {
        WrongRow(d.ledger, d.keys, s, Binding(e.context, Some(other), e.strict));
      }
    case _ =>
  }

  /** The row's key column holds integer `n`, in whichever format this result uses. */
  predicate KeyHolds(c: Column, formats: ResultFormats, row: Rows.Row, n: int) {
    && c.key.Slot? && c.key.index < |row| && row[c.key.index].Some? && RowKeys.Width(c.key.typeOid).Some?
    && RowKeys.InRange(n, RowKeys.Width(c.key.typeOid).value)
    && ((Rows.AskedIn(formats, c.key.index, RowKeys.Textual) && row[c.key.index] == Some(Text.Decimal(n)))
        || (Rows.AskedIn(formats, c.key.index, RowKeys.Binary)
            && row[c.key.index] == Some(RowKeys.TwosComplement(n, RowKeys.Width(c.key.typeOid).value))))
  }

  lemma {:induction false} KeyHeld(c: Column, formats: ResultFormats, row: Rows.Row, n: int)
    requires KeyHolds(c, formats, row, n)
    ensures Rows.KeyFor(c, formats, row) == Some(Ok(Text.Decimal(n)))
  {
    RowKeys.IntegerFormsAgree(c.key.typeOid, n);
    Rows.FormatIffAsked(formats, c.key.index, RowKeys.Textual);
    Rows.FormatIffAsked(formats, c.key.index, RowKeys.Binary);
  }

  function Pow10(k: nat): (n: nat) {
    if k == 0 then 1 else 10 * Pow10(k - 1)
  }

  lemma {:induction false} NumeralShort(n: nat, k: nat)
    requires k >= 1 && n < Pow10(k)
    ensures |Text.Numeral(n)| <= k
  {
    if n >= 10 {
      NumeralShort(n / 10, k - 1);
    }
  }

  lemma {:induction false} IntegerKeyShort(oid: nat, n: int)
    requires RowKeys.Width(oid).Some? && RowKeys.InRange(n, RowKeys.Width(oid).value)
    ensures |Text.Decimal(n)| <= 21
  {
    assert RowKeys.Pow256(2) == 0x1_0000;
    assert RowKeys.Pow256(4) == 0x1_0000_0000;
    assert RowKeys.Pow256(6) == 0x1_0000_0000_0000;
    assert RowKeys.Pow256(8) == 0x1_0000_0000_0000_0000;
    assert Pow10(5) == 100_000;
    assert Pow10(10) == 10_000_000_000;
    assert Pow10(15) == 1_000_000_000_000_000;
    assert Pow10(20) == 100_000_000_000_000_000_000;
    NumeralShort(if n < 0 then -n else n, 20);
  }

  /** A value sealed by a client that wrote the key `n` in any accepted spelling reads back, in either
      result format, in the row whose key is `n`, and in no other. */
  lemma {:induction false} DriversAgreeOnRows(
    d: Deployment, positions: seq<Column>, c: Column, t: nat, formats: ResultFormats, row: Rows.Row, maxValue: nat,
    s: Sealing, stored: bytes, hexText: bool, written: bytes, k: bytes, text: seq<nat>, l: seq<nat>, sign: seq<nat>,
    digits: seq<nat>, r: seq<nat>, n: int, m: int)
    requires KeyHolds(c, formats, row, m)
    requires Text.Decode(written) == Some(text) && RowKeys.Spelling(text, l, sign, digits, r, n)
    requires RowKeys.Canonical(c.key.typeOid, RowKeys.Textual, Some(written)) == Ok(k) && SealedIn(d, t, s, k)
    requires Holds(d, c, t, row, Rows.OnTheWire(stored, hexText)) && IsStoredForm(s, stored)
    requires |Rows.OnTheWire(stored, hexText)| <= maxValue
    ensures Rows.Cell(OpsOf(d), positions, c, formats, row, maxValue)
         == Ok(Some(Rows.OnTheWire(Visible(d, c, s.plaintext), hexText)))
       <==> n == m
  {
    RowKeys.SpellingsAgree(c.key.typeOid, written, text, l, sign, digits, r, n);
    KeyHeld(c, formats, row, m);
    assert k == Text.Decimal(n);
    if n == m {
      BoundValueReads(d, positions, c, t, formats, row, maxValue, s, stored, hexText, k);
    } else {
      if Text.Decimal(n) == Text.Decimal(m) {
        Text.DecimalInjective(n, m);
      }
      IntegerKeyShort(c.key.typeOid, m);
      MovedValueIsNamed(d, positions, c, t, formats, row, maxValue, s, stored, hexText, k);
    }
  }
}
