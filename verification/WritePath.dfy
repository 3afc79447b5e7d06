/** The write path end to end: what a session seals in a Bind is what the Parse of its statement asked for,
    and reads back in the row the Bind named. */
module WritePath {
  import opened Bytes
  import opened Params
  import opened Frames
  import opened Resolution
  import opened Envelope
  import opened Transforms
  import opened History
  import opened Session
  import opened ReadPath
  import Portals
  import SessionTheorems
  import B = BindRewrite
  import W = Wire
  import Rows
  import RowKeys
  import Text

  /** In every session: a Bind is relayed as it came only if its statement's name denotes no Parse in the
      recorded history, or one that asks for nothing. Otherwise every parameter that the Parse asks to
      seal or to index is forwarded so, and every other one as it came. */
  lemma {:induction false} SessionsSealParameters(
    states: seq<Session>, steps: seq<Step>, i: nat, ops: B.Ops, reject: bool, bind: W.BindBody, r: Option<bytes>)
    requires IsRun(states, steps) && i < |states| && 0 !in bind.portal && 0 !in bind.statement
    requires var log := states[i].q.log;
             var x := StatementAt(log, |log|, bind.statement);
             x.Some? ==> B.DistinctPlaceholders(log[x.value].params)
    requires B.Rewritten(ops, reject, bind, Portals.ActionsFor(states[i].t, bind.statement)) == Ok(r)
    ensures var log := states[i].q.log;
            var x := StatementAt(log, |log|, bind.statement);
            && (r.None? <==> x.None? || log[x.value].params == [])
            && (r.Some? ==> B.ForwardedAs(ops, bind, log[x.value].params, r.value))
  {
    var log := states[i].q.log;
    var x := StatementAt(log, |log|, bind.statement);
    SessionTheorems.BindActions(states, steps, i, bind.statement);
    if x.Some? {
      B.ForwardedParameters(ops, reject, bind, log[x.value].params, r);
    }
  }

  // ---------------------------------------------------------------- a value written and read

  /** A deployment that writes: `made` is what the cipher cache answers for each action. */
  datatype Writer = Writer(d: Deployment, mac: Mac, indexKeys: Keys, made: nat -> Result<Sealing, Error>,
                           indexArray: (nat, bytes, bool) -> Result<Option<bytes>, Error>)

  function WriteOps(w: Writer): (ops: B.Ops) {
    B.Ops((t: nat) => true,
          (k: nat, t: nat, value: bytes, row: Option<bytes>) =>
            SealValue(w.d.columns(t), w.mac, w.indexKeys, w.made(k), value),
          (t: nat, value: bytes) => Transforms.SearchIndex(w.d.columns(t), w.mac, w.indexKeys, value),
          w.indexArray)
  }

  /** What the server stores for a BYTEA parameter: its octets, or those its hex text denotes. */
  function ServerStores(sent: bytes, binary: bool): (stored: bytes) {
    if binary then sent else Rows.DecodeWire(true, sent).0
  }

  /** The cache has sealed for action `k` what the action asked for: this value, in the column of transform
      `t` and in the row of `key`, under a key the source knows. */
  predicate MadeFor(w: Writer, k: nat, t: nat, key: Option<bytes>, value: bytes) {
    && w.made(k).Ok? && w.made(k).value in w.d.ledger
    && SealedFor(w.made(k).value, w.d.columns(t), key, value)
    && w.made(k).value.keyId in w.d.keys && w.d.keys[w.made(k).value.keyId] == w.made(k).value.key
    && (w.d.columns(t).indexKey.Some? || !IsEnveloped(w.made(k).value.ciphertext))
  }

  /** Action `k` seals a value of this Bind for transform `t`, and the Bind names its row by `key`. */
  predicate Seals(bind: W.BindBody, actions: ParamTransforms, k: nat, t: nat, key: Option<bytes>) {
    && k < |actions| && actions[k].1.Seal? && actions[k].1.transform == t
    && B.HasValue(bind.params, actions[k].0) && B.NamesRow(actions[k].1.row, bind, key)
  }

  /** What the server comes to store for the value of action `k`. */
  function StoredFor(bind: W.BindBody, actions: ParamTransforms, k: nat, body: bytes): (stored: Option<bytes>)
    requires k < |actions|
  {
    var i := actions[k].0;
    match W.ParseBind(body)
    case Err(_) => None
    case Ok(sent) =>
      if i < |sent.params| && sent.params[i].Some?
      then Some(ServerStores(sent.params[i].value, W.FormatCode(bind.paramFormats, i) == 1)) else None
  }

  /** What is stored is a stored form of the sealing that was made. */
  lemma {:induction false} StoresSealing(
    w: Writer, bind: W.BindBody, actions: ParamTransforms, k: nat, t: nat, key: Option<bytes>, body: bytes)
    requires B.ForwardedAs(WriteOps(w), bind, actions, body) && Seals(bind, actions, k, t, key)
    requires MadeFor(w, k, t, key, bind.params[actions[k].0].value)
    ensures var stored := StoredFor(bind, actions, k, body);
            stored.Some? && IsStoredForm(w.made(k).value, stored.value)
  {
    var i, value := actions[k].0, bind.params[actions[k].0].value;
    var s, sent := w.made(k).value, W.ParseBind(body).value.params[i];
    assert B.SentAs(WriteOps(w), bind, actions, k, value, sent);
    var stored := SealValue(w.d.columns(t), w.mac, w.indexKeys, Ok(s), value).value;
    Rows.HexTextRoundTrip(stored);
    if w.d.columns(t).indexKey.Some? {
      var index := w.mac(w.indexKeys[w.d.columns(t).indexKey.value], value);
      assert Prepend(index, Stored(s))[BLIND_INDEX_LEN..] == Stored(s);
    }
  }

  /** A value sealed in a Bind and read back in a row whose key is the one the Bind named, or without one
      where it named none, is shown to the client as it was written, or as the column's mask of that. */
  lemma {:induction false} WrittenReadsBack(
    w: Writer, bind: W.BindBody, actions: ParamTransforms, k: nat, t: nat, key: Option<bytes>, body: bytes,
    positions: seq<Column>, c: Column, formats: ResultFormats, row: Rows.Row, maxValue: nat, hexText: bool)
    requires B.ForwardedAs(WriteOps(w), bind, actions, body) && Seals(bind, actions, k, t, key)
    requires MadeFor(w, k, t, key, bind.params[actions[k].0].value)
    requires var stored := StoredFor(bind, actions, k, body);
             && stored.Some? && |Rows.OnTheWire(stored.value, hexText)| <= maxValue
             && Holds(w.d, c, t, row, Rows.OnTheWire(stored.value, hexText))
    requires Rows.KeyFor(c, formats, row) == if key.Some? then Some(Ok(key.value)) else None
    ensures Rows.Cell(OpsOf(w.d), positions, c, formats, row, maxValue)
         == Ok(Some(Rows.OnTheWire(Visible(w.d, c, bind.params[actions[k].0].value), hexText)))
  {
    var s, stored := w.made(k).value, StoredFor(bind, actions, k, body).value;
    StoresSealing(w, bind, actions, k, t, key, body);
    if key.Some? {
      BoundValueReads(w.d, positions, c, t, formats, row, maxValue, s, stored, hexText, key.value);
    } else {
      CellBoundValueReads(w.d, positions, c, t, formats, row, maxValue, s, stored, hexText);
    }
  }

  /** A searched parameter of one Bind finds the value sealed in another exactly when the two have the same
      keyed hash: what the server compares is the index that the value is stored behind. */
  lemma {:induction false} SearchFindsWrittenIff(
    w: Writer, bind: W.BindBody, actions: ParamTransforms, k: nat, t: nat, key: Option<bytes>, body: bytes,
    search: W.BindBody, asked: ParamTransforms, l: nat, found: bytes, name: bytes)
    requires B.ForwardedAs(WriteOps(w), bind, actions, body) && Seals(bind, actions, k, t, key)
    requires MadeFor(w, k, t, key, bind.params[actions[k].0].value) && w.d.columns(t).indexKey == Some(name)
    requires B.ForwardedAs(WriteOps(w), search, asked, found) && l < |asked| && asked[l].1 == SearchIndex(t)
    requires B.HasValue(search.params, asked[l].0)
    ensures StoredFor(bind, actions, k, body).Some? && |StoredFor(bind, actions, k, body).value| >= BLIND_INDEX_LEN
    ensures name in w.indexKeys
    ensures StoredFor(search, asked, l, found) == Some(StoredFor(bind, actions, k, body).value[..BLIND_INDEX_LEN])
       <==> w.mac(w.indexKeys[name], bind.params[actions[k].0].value)
            == w.mac(w.indexKeys[name], search.params[asked[l].0].value)
  {
    var p, q := bind.params[actions[k].0].value, search.params[asked[l].0].value;
    var s := w.made(k).value;
    assert B.SentAs(WriteOps(w), bind, actions, k, p, W.ParseBind(body).value.params[actions[k].0]);
    assert B.SentAs(WriteOps(w), search, asked, l, q, W.ParseBind(found).value.params[asked[l].0]);
    var stored := SealValue(w.d.columns(t), w.mac, w.indexKeys, Ok(s), p).value;
    Rows.HexTextRoundTrip(stored);
    Rows.HexTextRoundTrip(w.mac(w.indexKeys[name], q));
    assert stored[..BLIND_INDEX_LEN] == w.mac(w.indexKeys[name], p);
  }

  /** Parameter `j` of the Bind is the integer `n`, in any spelling or in binary. */
  ghost predicate ParamIs(bind: W.BindBody, j: nat, typeOid: nat, n: int) {
    && B.HasValue(bind.params, j) && RowKeys.Width(typeOid).Some?
    && RowKeys.InRange(n, RowKeys.Width(typeOid).value)
    && (|| (W.FormatCode(bind.paramFormats, j) == 0
            && exists text, l, sign, digits, r {:trigger RowKeys.Spelling(text, l, sign, digits, r, n)} ::
                 Text.Decode(bind.params[j].value) == Some(text) && RowKeys.Spelling(text, l, sign, digits, r, n))
        || (W.FormatCode(bind.paramFormats, j) == 1
            && bind.params[j].value == RowKeys.TwosComplement(n, RowKeys.Width(typeOid).value)))
  }

  lemma {:induction false} ParamNamesRow(bind: W.BindBody, j: nat, typeOid: nat, column: bytes, n: int)
    requires ParamIs(bind, j, typeOid, n)
    ensures B.NamesRow(Param(j, typeOid, column), bind, Some(Text.Decimal(n)))
  {
    RowKeys.IntegerFormsAgree(typeOid, n);
    if W.FormatCode(bind.paramFormats, j) == 0 {
      var text, l, sign, digits, r :|
        Text.Decode(bind.params[j].value) == Some(text) && RowKeys.Spelling(text, l, sign, digits, r, n);
      RowKeys.SpellingsAgree(typeOid, bind.params[j].value, text, l, sign, digits, r, n);
      assert RowKeys.Textual in {RowKeys.Textual, RowKeys.Binary};
    } else {
      assert RowKeys.Binary in {RowKeys.Textual, RowKeys.Binary};
    }
  }

  /** A value sealed for the row whose integer key another parameter of the Bind gives, in any spelling or
      in binary, is read back in a row with that key, in either result format, and in no other. */
  lemma {:induction false} ReadsBackInItsRowIff(
    w: Writer, bind: W.BindBody, actions: ParamTransforms, k: nat, t: nat, body: bytes, n: int, m: int,
    positions: seq<Column>, c: Column, formats: ResultFormats, row: Rows.Row, maxValue: nat, hexText: bool)
    requires k < |actions| && actions[k].1.Seal? && actions[k].1.transform == t && actions[k].1.row.Param?
    requires var source := actions[k].1.row;
             && B.HasValue(bind.params, actions[k].0) && ParamIs(bind, source.index, source.typeOid, n)
             && KeyHolds(c, formats, row, m)
    requires B.ForwardedAs(WriteOps(w), bind, actions, body)
    requires MadeFor(w, k, t, Some(Text.Decimal(n)), bind.params[actions[k].0].value)
    requires var stored := StoredFor(bind, actions, k, body);
             && stored.Some? && |Rows.OnTheWire(stored.value, hexText)| <= maxValue
             && Holds(w.d, c, t, row, Rows.OnTheWire(stored.value, hexText))
    ensures Rows.Cell(OpsOf(w.d), positions, c, formats, row, maxValue)
            == Ok(Some(Rows.OnTheWire(Visible(w.d, c, bind.params[actions[k].0].value), hexText)))
       <==> n == m
  {
    var source, s, stored := actions[k].1.row, w.made(k).value, StoredFor(bind, actions, k, body).value;
    ParamNamesRow(bind, source.index, source.typeOid, source.column, n);
    KeyHeld(c, formats, row, m);
    if n == m {
      WrittenReadsBack(
        w, bind, actions, k, t, Some(Text.Decimal(n)), body, positions, c, formats, row, maxValue, hexText);
    } else {
      StoresSealing(w, bind, actions, k, t, Some(Text.Decimal(n)), body);
      if Text.Decimal(n) == Text.Decimal(m) {
        Text.DecimalInjective(n, m);
      }
      IntegerKeyShort(c.key.typeOid, m);
      MovedValueIsNamed(w.d, positions, c, t, formats, row, maxValue, s, stored, hexText, Text.Decimal(n));
    }
  }
}
