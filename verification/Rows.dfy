/** One DataRow on the read path: open and mask the protected positions in place, with each row key
    read once and the size of the row tracked as it changes. */
module Rows {
  import opened Bytes
  import opened Resolution
  import opened Frames
  import E = Envelope
  import W = Wire
  import RowKeys
  import Hex

  /** The transforms and masks a description refers to: any at all. */
  datatype Ops = Ops(
    bytea: nat -> bool,
    open: (nat, bytes, Option<bytes>) -> Result<Option<bytes>, E.Error>,
    mask: (nat, bytes) -> bytes)

  datatype Bounds = Bounds(maxValue: nat, maxBody: nat)

  datatype RowError =
    | AmbiguousRowKey(table: bytes, column: bytes)
    | RowKeyTypeChanged(table: bytes, column: bytes, wire: nat, resolved: nat)
    | ProtectedValueTooLarge(position: nat, len: nat, max: nat)
    | FrameTooLarge(bodyLen: nat, max: nat)
    | AmbiguousRowInstance(column: bytes)
    | RowBindingFailed(column: bytes, rowKey: bytes, position: nat)
    | Core(error: E.Error)
    | OnWire(wireError: W.Error)

  type Row = seq<Option<bytes>>

  // ---------------------------------------------------------------- one cell

  const HEX_PREFIX: bytes := [92, 120]

  /** A BYTEA value in text format is `\x` and hex; anything else is the stored form itself. */
  function DecodeWire(bytea: bool, raw: bytes): (r: (bytes, bool)) {
    if bytea && |raw| >= 2 && raw[..2] == HEX_PREFIX && Hex.Decode(raw[2..]).Some?
    then (Hex.Decode(raw[2..]).value, true)
    else (raw, false)
  }

  function HexTextForm(value: bytes): (r: bytes) {
    HEX_PREFIX + Hex.Encode(value)
  }

  /** A value sent back in hex is read back as that value. */
  lemma {:induction false} HexTextRoundTrip(value: bytes)
    ensures DecodeWire(true, HexTextForm(value)) == (value, true)
  {
    assert HexTextForm(value)[..2] == HEX_PREFIX && HexTextForm(value)[2..] == Hex.Encode(value);
    Hex.DecodeEncode(value);
  }

  /** A value is taken for hex exactly when its column is BYTEA and it is `\x` and the hex of something,
      which it is then read as; any other value is itself. */
  lemma {:induction false} DecodesHexIff(bytea: bool, raw: bytes, value: bytes)
    ensures DecodeWire(bytea, raw) == (value, true) <==>
              bytea && |raw| >= 2 && raw[..2] == HEX_PREFIX && Hex.Decode(raw[2..]) == Some(value)
    ensures DecodeWire(bytea, raw).1 || DecodeWire(bytea, raw) == (raw, false)
  {
  }

  function FormatOf(formats: ResultFormats, i: nat): (r: Result<RowKeys.Format, E.Error>) {
    var code := match formats case AllText => 0 case Codes(codes) => W.FormatCode(codes, i);
    if code == 0 then Ok(RowKeys.Textual) else if code == 1 then Ok(RowKeys.Binary) else Err(E.RowKeyType)
  }

  /** Column `i` was asked for in this format: in text unless the Bind says otherwise, once for all columns
      or column by column. */
  predicate AskedIn(formats: ResultFormats, i: nat, format: RowKeys.Format) {
    match formats
    case AllText => format == RowKeys.Textual
    case Codes(codes) =>
      || (|codes| == 1 && codes[0] == (if format == RowKeys.Binary then 1 else 0))
      || (1 < |codes| && i < |codes| && codes[i] == (if format == RowKeys.Binary then 1 else 0))
      || ((|codes| == 0 || (1 < |codes| && |codes| <= i)) && format == RowKeys.Textual)
  }

  lemma {:induction false} FormatIffAsked(formats: ResultFormats, i: nat, format: RowKeys.Format)
    ensures FormatOf(formats, i) == Ok(format) <==> AskedIn(formats, i, format)
  {
  }

  function ReadRowKey(i: nat, typeOid: nat, formats: ResultFormats, values: Row): (r: Result<bytes, E.Error>) {
    if i >= |values| then Err(E.RowKeyType)
    else
      match FormatOf(formats, i)
      case Err(e) => Err(e)
      case Ok(format) => RowKeys.Canonical(typeOid, format, values[i])
  }

  /** The key a column binds to, read out of `values`; `None` when it binds to none. */
  function KeyFor(c: Column, formats: ResultFormats, values: Row): (r: Option<Result<bytes, E.Error>>) {
    if c.key.Slot? then Some(ReadRowKey(c.key.index, c.key.typeOid, formats, values)) else None
  }

  /** A column's key is read exactly when its description has a place for it, the row reaches that far, and the
      value there has a canonical form in the format the Bind asked for. */
  lemma {:induction false} KeyReadIff(c: Column, formats: ResultFormats, values: Row, k: bytes)
    ensures KeyFor(c, formats, values) == Some(Ok(k)) <==>
              && c.key.Slot? && c.key.index < |values|
              && exists format | format in {RowKeys.Textual, RowKeys.Binary} ::
                   && AskedIn(formats, c.key.index, format)
                   && RowKeys.Canonical(c.key.typeOid, format, values[c.key.index]) == Ok(k)
    ensures KeyFor(c, formats, values).None? <==> !c.key.Slot?
  {
    if c.key.Slot? {
      FormatIffAsked(formats, c.key.index, RowKeys.Textual);
      FormatIffAsked(formats, c.key.index, RowKeys.Binary);
      assert RowKeys.Textual in {RowKeys.Textual, RowKeys.Binary};
      assert RowKeys.Binary in {RowKeys.Textual, RowKeys.Binary};
    }
  }

  function Attributed(e: E.Error, c: Column, key: Option<bytes>, repeated: bool): (r: RowError) {
    if e == E.Decrypt && key.Some? then
      if repeated then AmbiguousRowInstance(c.read.name)
      else RowBindingFailed(c.read.name, key.value, c.index)
    else Core(e)
  }

  function OpenCell(ops: Ops, c: Column, t: nat, repeated: bool, key: Option<Result<bytes, E.Error>>, stored: bytes)
    : (r: Result<Option<bytes>, RowError>)
  {
    match key
    case Some(Ok(k)) =>
      (match ops.open(t, stored, Some(k)) case Ok(o) => Ok(o) case Err(e) => Err(Attributed(e, c, Some(k), repeated)))
    case None =>
      (match ops.open(t, stored, None) case Ok(o) => Ok(o) case Err(e) => Err(Attributed(e, c, None, repeated)))
    case Some(Err(why)) =>
      match ops.open(t, stored, None)
      case Ok(o) => Ok(o)
      case Err(e) => if e == E.RowKeyMissing then Err(Core(why)) else Err(Attributed(e, c, None, repeated))
  }

  /** What the client sees in place of one value; `None` leaves it as it came. */
  function Replacement(ops: Ops, c: Column, repeated: bool, key: Option<Result<bytes, E.Error>>, value: bytes)
    : (r: Result<Option<bytes>, RowError>)
  {
    var decoded := if c.read.transform.Some? then DecodeWire(ops.bytea(c.read.transform.value), value) else (value, false);
    var result := if c.read.transform.Some?
                  then OpenCell(ops, c, c.read.transform.value, repeated, key, decoded.0) else Ok(None);
    match result
    case Err(e) => Err(e)
    case Ok(o) =>
      var shown := if o.Some? then o.value else decoded.0;
      var r := if c.read.mask.Some? then Some(ops.mask(c.read.mask.value, shown)) else o;
      Ok(if r.Some? && decoded.1 then Some(HexTextForm(r.value)) else r)
  }

  /** The column came back at more than one position. */
  predicate Repeated(positions: seq<Column>, name: bytes) {
    exists i, j | 0 <= i < j < |positions| :: positions[i].read.name == name == positions[j].read.name
  }

  /** The simple rule for one protected position: everything it needs is read from the row as it
      arrived. */
  function Cell(ops: Ops, positions: seq<Column>, c: Column, formats: ResultFormats, original: Row, maxValue: nat)
    : (r: Result<Option<bytes>, RowError>)
  {
    if c.index >= |original| || original[c.index].None? then Ok(None)
    else
      var value := original[c.index].value;
      if |value| > maxValue then Err(ProtectedValueTooLarge(c.index, |value|, maxValue))
      else Replacement(ops, c, Repeated(positions, c.read.name), KeyFor(c, formats, original), value)
  }

  // ---------------------------------------------------------------- one row

  /** Put one cell's answer into a row; a row that would print too long is refused. */
  function Placed(row: Row, c: Column, cell: Result<Option<bytes>, RowError>, maxBody: nat): (r: Result<Row, RowError>) {
    match cell
    case Err(e) => Err(e)
    case Ok(None) => Ok(row)
    case Ok(Some(v)) =>
      if c.index >= |row| then Ok(row)
      else
        var next := row[c.index := Some(v)];
        if W.EncodedLength(next) > maxBody then Err(FrameTooLarge(W.EncodedLength(next), maxBody)) else Ok(next)
  }

  /** The row after the first `n` positions, each computed from the row as it arrived. */
  function RowAfter(ops: Ops, positions: seq<Column>, formats: ResultFormats, original: Row, bounds: Bounds, n: nat)
    : (r: Result<Row, RowError>)
    requires n <= |positions|
  {
    if n == 0 then Ok(original)
    else
      match RowAfter(ops, positions, formats, original, bounds, n - 1)
      case Err(e) => Err(e)
      case Ok(row) =>
        var c := positions[n - 1];
        Placed(row, c, Cell(ops, positions, c, formats, original, bounds.maxValue), bounds.maxBody)
  }

  /** Some position among the first `n` has a replacement. */
  predicate Touched(ops: Ops, positions: seq<Column>, formats: ResultFormats, original: Row, bounds: Bounds, n: nat)
    requires n <= |positions|
  {
    exists k | 0 <= k < n ::
      && Cell(ops, positions, positions[k], formats, original, bounds.maxValue).Ok?
      && Cell(ops, positions, positions[k], formats, original, bounds.maxValue).value.Some?
  }

  /** The refusals the description alone decides, in its order. */
  function UpFront(positions: seq<Column>): (r: Option<RowError>) {
    if positions == [] then None
    else
      match positions[0].key
      case Ambiguous(table, column) => Some(AmbiguousRowKey(table, column))
      case TypeChanged(table, column, wire, resolved) => Some(RowKeyTypeChanged(table, column, wire, resolved))
      case _ => UpFront(positions[1..])
  }

  function Decrypted(ops: Ops, positions: seq<Column>, formats: ResultFormats, body: bytes, bounds: Bounds)
    : (r: Result<Option<bytes>, RowError>)
  {
    if UpFront(positions).Some? then Err(UpFront(positions).value)
    else
      match W.ParseDataRow(body)
      case Err(e) => Err(OnWire(e))
      case Ok(original) =>
        match RowAfter(ops, positions, formats, original, bounds, |positions|)
        case Err(e) => Err(e)
        case Ok(row) =>
          if !Touched(ops, positions, formats, original, bounds, |positions|) then Ok(None)
          else
            match W.EncodeDataRow(row)
            case Err(e) => Err(OnWire(e))
            case Ok(b) => Ok(Some(b))
  }

  // ---------------------------------------------------------------- sizes

  function SizeOf(v: Option<bytes>): (n: nat) {
    match v case Some(b) => |b| case None => 0
  }

  /** Replacing a value changes the printed length by the difference of the two. */
  lemma {:induction false} LengthAfter(row: Row, i: nat, v: Option<bytes>)
    requires i < |row|
    ensures W.EncodedLength(row) >= SizeOf(row[i])
    ensures W.EncodedLength(row[i := v]) == W.EncodedLength(row) - SizeOf(row[i]) + SizeOf(v)
    decreases |row|
  {
    var last := |row| - 1;
    if i < last {
      LengthAfter(row[..last], i, v);
      assert row[i := v][..last] == row[..last][i := v];
    } else {
      assert row[i := v][..last] == row[..last];
    }
  }

  lemma {:induction false} LengthBounds(row: Row, i: nat)
    requires i < |row|
    ensures SizeOf(row[i]) <= W.EncodedLength(row)
  {
    LengthAfter(row, i, None);
  }

  // ---------------------------------------------------------------- the loops

  /** Two columns that read their key at one place read it as one type. */
  predicate SlotsAgree(positions: seq<Column>) {
    forall c, d | c in positions && d in positions && c.key.Slot? && d.key.Slot? && c.key.index == d.key.index ::
      c.key.typeOid == d.key.typeOid
  }

  /** The places a description reads keys from, each once, with its type. */
  method DistinctSlots(positions: seq<Column>) returns (slots: seq<(nat, nat)>)
    requires SlotsAgree(positions)
    ensures forall i, j | 0 <= i < j < |slots| :: slots[i].0 != slots[j].0
    ensures forall c | c in positions && c.key.Slot? :: (c.key.index, c.key.typeOid) in slots
    ensures forall s | s in slots :: exists c :: c in positions && c.key == Slot(s.0, s.1)
  {
    slots := [];
    for n := 0 to |positions|
      invariant forall i, j | 0 <= i < j < |slots| :: slots[i].0 != slots[j].0
      invariant forall c | c in positions[..n] && c.key.Slot? :: (c.key.index, c.key.typeOid) in slots
      invariant forall s | s in slots :: exists c :: c in positions && c.key == Slot(s.0, s.1)
    {
      var c := positions[n];
      assert positions[..n + 1] == positions[..n] + [c];
      if c.key.Slot? {
        if forall s | s in slots :: s.0 != c.key.index {
          slots := slots + [(c.key.index, c.key.typeOid)];
        } else {
          var s :| s in slots && s.0 == c.key.index;
          assert s == (c.key.index, c.key.typeOid);
        }
      }
    }
    assert positions[..|positions|] == positions;
  }

  /** A key read once: the key, or why there is none. */
  datatype RowKeyOnce = RowKeyOnce(index: nat, key: Option<bytes>, why: Option<E.Error>)

  function Once(i: nat, r: Result<bytes, E.Error>): (o: RowKeyOnce) {
    match r case Ok(k) => RowKeyOnce(i, Some(k), None) case Err(e) => RowKeyOnce(i, None, Some(e))
  }

  /** Every slot of the description has been read, from the row as it arrived. */
  predicate AllRead(keys: seq<RowKeyOnce>, positions: seq<Column>, formats: ResultFormats, original: Row) {
    && (forall i, j | 0 <= i < j < |keys| :: keys[i].index != keys[j].index)
    && (forall c | c in positions && c.key.Slot? ::
          Once(c.key.index, ReadRowKey(c.key.index, c.key.typeOid, formats, original)) in keys)
  }

  method ReadKeys(positions: seq<Column>, formats: ResultFormats, original: Row) returns (keys: seq<RowKeyOnce>)
    requires SlotsAgree(positions)
    ensures AllRead(keys, positions, formats, original)
  {
    var slots := DistinctSlots(positions);
    keys := [];
    for k := 0 to |slots|
      invariant |keys| == k
      invariant forall j | 0 <= j < k :: keys[j] == Once(slots[j].0, ReadRowKey(slots[j].0, slots[j].1, formats, original))
    {
      keys := keys + [Once(slots[k].0, ReadRowKey(slots[k].0, slots[k].1, formats, original))];
    }
    forall c | c in positions && c.key.Slot?
      ensures Once(c.key.index, ReadRowKey(c.key.index, c.key.typeOid, formats, original)) in keys
    {
      var j :| 0 <= j < |slots| && slots[j] == (c.key.index, c.key.typeOid);
      assert keys[j] in keys;
    }
  }

  /** Where in `keys` a column's slot was read. */
  method FindKey(keys: seq<RowKeyOnce>, c: Column) returns (at: Option<nat>)
    ensures at.Some? ==> at.value < |keys| && c.key.Slot? && keys[at.value].index == c.key.index
    ensures at.None? ==> c.key.Slot? ==> forall k | k in keys :: k.index != c.key.index
    ensures !c.key.Slot? ==> at.None?
  {
    if !c.key.Slot? {
      return None;
    }
    for k := 0 to |keys|
      invariant forall j | 0 <= j < k :: keys[j].index != c.key.index
    {
      if keys[k].index == c.key.index {
        return Some(k);
      }
    }
    at := None;
  }

  /** Open one cell with the cached key. Where the key could not be read and the value needs one, the
      recorded reason is there to take. */
  method OpenWithCached(
    ops: Ops, c: Column, t: nat, repeated: bool, keys: seq<RowKeyOnce>, at: Option<nat>, stored: bytes,
    ghost key: Option<Result<bytes, E.Error>>) returns (r: Result<Option<bytes>, RowError>)
    requires at.None? <==> key.None?
    requires at.Some? ==> at.value < |keys| && c.key.Slot? && keys[at.value] == Once(c.key.index, key.value)
    ensures r == OpenCell(ops, c, t, repeated, key, stored)
  {
    if at.Some? && keys[at.value].key.Some? {
      var k := keys[at.value].key.value;
      match ops.open(t, stored, Some(k)) {
        case Ok(o) => r := Ok(o);
        case Err(e) => r := Err(Attributed(e, c, Some(k), repeated));
      }
    } else if at.None? {
      match ops.open(t, stored, None) {
        case Ok(o) => r := Ok(o);
        case Err(e) => r := Err(Attributed(e, c, None, repeated));
      }
    } else {
      match ops.open(t, stored, None) {
        case Ok(o) => r := Ok(o);
        case Err(e) =>
          if e == E.RowKeyMissing {
            assert keys[at.value].why.Some?;
            r := Err(Core(keys[at.value].why.value));
          } else {
            r := Err(Attributed(e, c, None, repeated));
          }
      }
    }
  }

  method RepeatedNames(positions: seq<Column>) returns (twice: set<bytes>)
    ensures forall n :: n in twice <==> Repeated(positions, n)
  {
    var seen: set<bytes> := {};
    twice := {};
    for k := 0 to |positions|
      invariant forall n :: n in seen <==> exists i | 0 <= i < k :: positions[i].read.name == n
      invariant forall n :: n in twice <==> Repeated(positions[..k], n)
    {
      var name := positions[k].read.name;
      RepeatedNext(positions, k);
      if name in seen {
        twice := twice + {name};
      }
      seen := seen + {name};
    }
    assert positions[..|positions|] == positions;
  }

  lemma {:induction false} RepeatedNext(positions: seq<Column>, k: nat)
    requires k < |positions|
    ensures forall n :: Repeated(positions[..k + 1], n) <==>
              Repeated(positions[..k], n)
              || (positions[k].read.name == n && exists i | 0 <= i < k :: positions[i].read.name == n)
  {
    var a, b := positions[..k], positions[..k + 1];
    assert forall i | 0 <= i < k :: a[i] == b[i] == positions[i];
    forall n ensures Repeated(b, n) <==>
        Repeated(a, n) || (positions[k].read.name == n && exists i | 0 <= i < k :: positions[i].read.name == n)
    {
      if Repeated(b, n) {
        var i, j :| 0 <= i < j < |b| && b[i].read.name == n == b[j].read.name;
        if j < k {
          assert a[i].read.name == n == a[j].read.name;
        } else {
          assert positions[i].read.name == n;
        }
      }
      if Repeated(a, n) {
        var i, j :| 0 <= i < j < |a| && a[i].read.name == n == a[j].read.name;
        assert b[i].read.name == n == b[j].read.name;
      }
      if positions[k].read.name == n && exists i | 0 <= i < k :: positions[i].read.name == n {
        var i :| 0 <= i < k && positions[i].read.name == n;
        assert b[i].read.name == n == b[k].read.name;
      }
    }
  }

  method RefuseUpFront(positions: seq<Column>) returns (r: Option<RowError>)
    ensures r == UpFront(positions)
  {
    for k := 0 to |positions|
      invariant UpFront(positions) == UpFront(positions[k..])
    {
      match positions[k].key {
        case Ambiguous(table, column) => return Some(AmbiguousRowKey(table, column));
        case TypeChanged(table, column, wire, resolved) =>
          return Some(RowKeyTypeChanged(table, column, wire, resolved));
        case _ =>
      }
    }
    r := None;
  }

  /** One position of the loop: what to put in place of `value`, with the cached key. */
  method ReplaceCell(
    ops: Ops, positions: seq<Column>, c: Column, repeated: bool, keys: seq<RowKeyOnce>, value: bytes,
    ghost formats: ResultFormats, ghost original: Row) returns (r: Result<Option<bytes>, RowError>)
    requires AllRead(keys, positions, formats, original) && c in positions
    ensures r == Replacement(ops, c, repeated, KeyFor(c, formats, original), value)
  {
    var stored, hexText := value, false;
    var result: Result<Option<bytes>, RowError> := Ok(None);
    if c.read.transform.Some? {
      var t := c.read.transform.value;
      var decoded := DecodeWire(ops.bytea(t), value);
      stored, hexText := decoded.0, decoded.1;
      var at := FindKey(keys, c);
      result := OpenWithCached(ops, c, t, repeated, keys, at, stored, KeyFor(c, formats, original));
    }
    if result.Err? {
      return Err(result.error);
    }
    var shown := if result.value.Some? then result.value.value else stored;
    var replacement := if c.read.mask.Some? then Some(ops.mask(c.read.mask.value, shown)) else result.value;
    r := Ok(if replacement.Some? && hexText then Some(HexTextForm(replacement.value)) else replacement);
  }

  /** One position, reading the row as it stands there. */
  method CellAt(
    ops: Ops, positions: seq<Column>, c: Column, repeated: set<bytes>, keys: seq<RowKeyOnce>, values: Row,
    maxValue: nat, ghost formats: ResultFormats, ghost original: Row) returns (r: Result<Option<bytes>, RowError>)
    requires AllRead(keys, positions, formats, original) && c in positions
    requires forall n :: n in repeated <==> Repeated(positions, n)
    requires |values| == |original| && (c.index < |values| ==> values[c.index] == original[c.index])
    ensures r == Cell(ops, positions, c, formats, original, maxValue)
    ensures r.Ok? && r.value.Some? ==> c.index < |values| && values[c.index].Some?
  {
    if c.index >= |values| || values[c.index].None? {
      return Ok(None);
    }
    var value := values[c.index].value;
    if |value| > maxValue {
      return Err(ProtectedValueTooLarge(c.index, |value|, maxValue));
    }
    r := ReplaceCell(ops, positions, c, c.read.name in repeated, keys, value, formats, original);
  }

  /** Positions not yet reached still hold what arrived. */
  predicate Pending(positions: seq<Column>, n: nat, original: Row, values: Row) {
    && |values| == |original|
    && (forall k | n <= k < |positions| && positions[k].index < |original| ::
          values[positions[k].index] == original[positions[k].index])
  }

  lemma {:induction false} PendingNext(positions: seq<Column>, n: nat, original: Row, values: Row, v: Option<bytes>)
    requires n < |positions| && Ascending(positions) && Pending(positions, n, original, values)
    ensures Pending(positions, n + 1, original, values)
    ensures positions[n].index < |values| ==> Pending(positions, n + 1, original, values[positions[n].index := v])
  {
  }

  /** One more position of the simple rule. */
  lemma {:induction false} Advance(
    ops: Ops, positions: seq<Column>, formats: ResultFormats, original: Row, bounds: Bounds, n: nat, values: Row)
    requires n < |positions| && RowAfter(ops, positions, formats, original, bounds, n) == Ok(values)
    ensures var cell := Cell(ops, positions, positions[n], formats, original, bounds.maxValue);
            && RowAfter(ops, positions, formats, original, bounds, n + 1)
               == Placed(values, positions[n], cell, bounds.maxBody)
            && (Touched(ops, positions, formats, original, bounds, n + 1) <==>
                  Touched(ops, positions, formats, original, bounds, n) || (cell.Ok? && cell.value.Some?))
  {
  }

  /** The rewriting loop: values replaced in place, `projected` kept as it goes. */
  method Rewrite(ops: Ops, positions: seq<Column>, formats: ResultFormats, original: Row, bounds: Bounds, size: nat)
    returns (r: Result<(Row, bool), RowError>)
    requires Ascending(positions) && SlotsAgree(positions) && size == W.EncodedLength(original)
    ensures match RowAfter(ops, positions, formats, original, bounds, |positions|)
            case Err(e) => r == Err(e)
            case Ok(row) => r == Ok((row, Touched(ops, positions, formats, original, bounds, |positions|)))
  {
    var repeated := RepeatedNames(positions);
    var keys := ReadKeys(positions, formats, original);
    var values, projected, changed := original, size, false;
    for n := 0 to |positions|
      invariant RowAfter(ops, positions, formats, original, bounds, n) == Ok(values)
      invariant Pending(positions, n, original, values)
      invariant projected == W.EncodedLength(values)
      invariant changed <==> Touched(ops, positions, formats, original, bounds, n)
    {
      var c := positions[n];
      assert c in positions;
      Advance(ops, positions, formats, original, bounds, n, values);
      PendingNext(positions, n, original, values, None);
      var cell := CellAt(ops, positions, c, repeated, keys, values, bounds.maxValue, formats, original);
      if cell.Err? {
        FailsFor(ops, positions, formats, original, bounds, n);
        return Err(cell.error);
      }
      if cell.value.Some? {
        LengthAfter(values, c.index, cell.value);
        PendingNext(positions, n, original, values, cell.value);
        projected := projected - |values[c.index].value| + |cell.value.value|;
        if projected > bounds.maxBody {
          FailsFor(ops, positions, formats, original, bounds, n);
          return Err(FrameTooLarge(projected, bounds.maxBody));
        }
        values, changed := values[c.index := cell.value], true;
      }
    }
    r := Ok((values, changed));
  }

  /** An error met at one position is the answer for the row. */
  lemma {:induction false} FailsFor(
    ops: Ops, positions: seq<Column>, formats: ResultFormats, original: Row, bounds: Bounds, n: nat)
    requires n < |positions| && RowAfter(ops, positions, formats, original, bounds, n + 1).Err?
    ensures RowAfter(ops, positions, formats, original, bounds, |positions|)
         == RowAfter(ops, positions, formats, original, bounds, n + 1)
  {
    StaysFailed(ops, positions, formats, original, bounds, n + 1, |positions|);
  }

  lemma {:induction false} StaysFailed(
    ops: Ops, positions: seq<Column>, formats: ResultFormats, original: Row, bounds: Bounds, n: nat, m: nat)
    requires n <= m <= |positions| && RowAfter(ops, positions, formats, original, bounds, n).Err?
    ensures RowAfter(ops, positions, formats, original, bounds, m)
         == RowAfter(ops, positions, formats, original, bounds, n)
    decreases m
  {
    if n < m {
      StaysFailed(ops, positions, formats, original, bounds, n, m - 1);
    }
  }

  /** `decrypt_row` answers what the simple rule says: cached keys, in-place replacement and running
      size are invisible. Its callers hold each position once, and one type per key place. */
  method DecryptRow(ops: Ops, positions: seq<Column>, formats: ResultFormats, body: bytes, bounds: Bounds)
    returns (r: Result<Option<bytes>, RowError>)
    requires Ascending(positions) && SlotsAgree(positions)
    ensures r == Decrypted(ops, positions, formats, body, bounds)
  {
    var refused := RefuseUpFront(positions);
    if refused.Some? {
      return Err(refused.value);
    }
    var parsed := W.ReadDataRow(body);
    if parsed.Err? {
      return Err(OnWire(parsed.error));
    }
    W.ParsedLength(body);
    var rewritten := Rewrite(ops, positions, formats, parsed.value, bounds, |body|);
    if rewritten.Err? {
      return Err(rewritten.error);
    }
    if !rewritten.value.1 {
      return Ok(None);
    }
    var printed := W.WriteDataRow(rewritten.value.0);
    match printed {
      case Ok(b) => r := Ok(Some(b));
      case Err(e) => r := Err(OnWire(e));
    }
  }

  // ---------------------------------------------------------------- what a client sees

  /** Column by column: every value is what its own position makes of the row as it arrived, whatever
      the other positions do; NULLs, unprotected columns and the number of columns are untouched. */
  lemma {:induction false} RowIsColumnwise(
    ops: Ops, positions: seq<Column>, formats: ResultFormats, original: Row, bounds: Bounds, n: nat, i: nat)
    requires n <= |positions| && Ascending(positions) && i < |original|
    requires RowAfter(ops, positions, formats, original, bounds, n).Ok?
    ensures var row := RowAfter(ops, positions, formats, original, bounds, n).value;
            && |row| == |original|
            && (original[i].None? ==> row[i].None?)
            && ((forall k | 0 <= k < n :: positions[k].index != i) ==> row[i] == original[i])
            && (forall k | 0 <= k < n && positions[k].index == i ::
                  var cell := Cell(ops, positions, positions[k], formats, original, bounds.maxValue);
                  cell.Ok? && row[i] == if cell.value.Some? then cell.value else original[i])
  {
    if n > 0 {
      RowIsColumnwise(ops, positions, formats, original, bounds, n - 1, i);
      var c := positions[n - 1];
      if c.index == i {
        assert forall k | 0 <= k < n - 1 :: positions[k].index != i;
      }
    }
  }

  /** Once some position has been replaced the row is within bounds, and stays so. */
  lemma {:induction false} TouchedFits(
    ops: Ops, positions: seq<Column>, formats: ResultFormats, original: Row, bounds: Bounds, n: nat)
    requires n <= |positions| && Ascending(positions)
    requires RowAfter(ops, positions, formats, original, bounds, n).Ok?
    requires Touched(ops, positions, formats, original, bounds, n)
    ensures W.EncodedLength(RowAfter(ops, positions, formats, original, bounds, n).value) <= bounds.maxBody
  {
    var c := positions[n - 1];
    var cell := Cell(ops, positions, c, formats, original, bounds.maxValue);
    var before := RowAfter(ops, positions, formats, original, bounds, n - 1).value;
    if cell.value.Some? {
      if c.index < |original| {
        RowIsColumnwise(ops, positions, formats, original, bounds, n - 1, c.index);
      }
    } else {
      assert Touched(ops, positions, formats, original, bounds, n - 1);
      TouchedFits(ops, positions, formats, original, bounds, n - 1);
    }
  }

  const MAX_MESSAGE_LEN: nat := 0x4000_0000

  /** A row that fits a frame prints, and to exactly its tracked length. */
  lemma {:induction false} FittingRowPrints(row: Row)
    requires |row| <= W.MAX_I16 && W.EncodedLength(row) <= MAX_MESSAGE_LEN - 4
    ensures W.RowFits(row) && |W.EncodeDataRow(row).value| == W.EncodedLength(row)
    ensures W.ParseDataRow(W.EncodeDataRow(row).value) == Ok(row)
  {
    forall i | 0 <= i < |row| ensures W.Encodable(row[i]) {
      LengthBounds(row, i);
    }
    W.PrintedLength(row);
    W.DataRowRoundTrip(row);
  }

  /** Within the frame limit, rewriting never fails to print: a rewritten body is exactly as long as
      the row it carries, fits a frame, and parses back to that row. A body left alone carries the row
      that arrived, none of whose values had a replacement. */
  lemma {:induction false} RewrittenRowPrints(
    ops: Ops, positions: seq<Column>, formats: ResultFormats, body: bytes, bounds: Bounds, row: Row)
    requires Ascending(positions) && bounds.maxBody <= MAX_MESSAGE_LEN - 4
    requires UpFront(positions).None? && W.ParseDataRow(body).Ok?
    requires RowAfter(ops, positions, formats, W.ParseDataRow(body).value, bounds, |positions|) == Ok(row)
    ensures Decrypted(ops, positions, formats, body, bounds).Ok?
    ensures match Decrypted(ops, positions, formats, body, bounds).value
            case Some(b) => |b| == W.EncodedLength(row) <= bounds.maxBody && W.ParseDataRow(b) == Ok(row)
            case None => W.ParseDataRow(body) == Ok(row)
  {
    var original := W.ParseDataRow(body).value;
    W.DataRowReprint(body);
    RowKeepsCount(ops, positions, formats, original, bounds, |positions|);
    if Touched(ops, positions, formats, original, bounds, |positions|) {
      TouchedFits(ops, positions, formats, original, bounds, |positions|);
      FittingRowPrints(row);
    } else {
      UntouchedStays(ops, positions, formats, original, bounds, |positions|);
    }
  }

  lemma {:induction false} RowKeepsCount(
    ops: Ops, positions: seq<Column>, formats: ResultFormats, original: Row, bounds: Bounds, n: nat)
    requires n <= |positions| && RowAfter(ops, positions, formats, original, bounds, n).Ok?
    ensures |RowAfter(ops, positions, formats, original, bounds, n).value| == |original|
  {
    if n > 0 {
      RowKeepsCount(ops, positions, formats, original, bounds, n - 1);
    }
  }

  lemma {:induction false} UntouchedStays(
    ops: Ops, positions: seq<Column>, formats: ResultFormats, original: Row, bounds: Bounds, n: nat)
    requires n <= |positions| && RowAfter(ops, positions, formats, original, bounds, n).Ok?
    requires !Touched(ops, positions, formats, original, bounds, n)
    ensures RowAfter(ops, positions, formats, original, bounds, n) == Ok(original)
  {
    if n > 0 {
      UntouchedStays(ops, positions, formats, original, bounds, n - 1);
    }
  }

  // ---------------------------------------------------------------- cell by cell

  /** Bytes as a client's result format carries them: raw, or `\x` and hex. */
  function OnTheWire(value: bytes, hexText: bool): (raw: bytes) {
    if hexText then HexTextForm(value) else value
  }

  /** The key handed to the transform: the row's, if it could be read. */
  function UsableKey(key: Option<Result<bytes, E.Error>>): (k: Option<bytes>) {
    match key case Some(Ok(k)) => Some(k) case _ => None
  }

  /** A value that is there and not over the limit is shown like this. Without a transform: masked, or as it
      came. With one that answers: the mask of what it opened, or of the stored bytes if it opened
      nothing; without a mask what it opened, or the value as it came; always in the form the value
      came in. */
  lemma {:induction false} CellShows(
    ops: Ops, positions: seq<Column>, c: Column, formats: ResultFormats, original: Row, maxValue: nat, raw: bytes)
    requires c.index < |original| && original[c.index] == Some(raw) && |raw| <= maxValue
    ensures var cell := Cell(ops, positions, c, formats, original, maxValue);
            match (c.read.transform, c.read.mask)
            case (None, None) => cell == Ok(None)
            case (None, Some(m)) => cell == Ok(Some(ops.mask(m, raw)))
            case (Some(t), mask) =>
              var (stored, hexText) := DecodeWire(ops.bytea(t), raw);
              match ops.open(t, stored, UsableKey(KeyFor(c, formats, original)))
              case Err(_) => cell.Err?
              case Ok(None) =>
                cell == Ok(if mask.None? then None else Some(OnTheWire(ops.mask(mask.value, stored), hexText)))
              case Ok(Some(p)) =>
                cell == Ok(Some(OnTheWire(if mask.None? then p else ops.mask(mask.value, p), hexText)))
  {
  }

  /** Whatever is refused is refused for this reason: the size, or the transform; and what the transform
      refuses is named by cell and row, or as a self-join, when it read a row's key and could not
      decrypt, and by the reason why there is no key when it asked for one. */
  lemma {:induction false} CellRefuses(
    ops: Ops, positions: seq<Column>, c: Column, formats: ResultFormats, original: Row, maxValue: nat, why: RowError)
    ensures Cell(ops, positions, c, formats, original, maxValue) == Err(why) <==>
              && c.index < |original| && original[c.index].Some?
              && var raw := original[c.index].value;
                 if |raw| > maxValue then why == ProtectedValueTooLarge(c.index, |raw|, maxValue)
                 else
                   && c.read.transform.Some?
                   && var t, key := c.read.transform.value, KeyFor(c, formats, original);
                      var answer := ops.open(t, DecodeWire(ops.bytea(t), raw).0, UsableKey(key));
                      && answer.Err?
                      && why ==
                         if UsableKey(key).Some? && answer.error == E.Decrypt then
                           if Repeated(positions, c.read.name) then AmbiguousRowInstance(c.read.name)
                           else RowBindingFailed(c.read.name, UsableKey(key).value, c.index)
                         else if key.Some? && key.value.Err? && answer.error == E.RowKeyMissing then
                           Core(key.value.error)
                         else Core(answer.error)
  {
  }

  predicate RefusesFirst(positions: seq<Column>, k: nat, why: RowError)
    requires k < |positions|
  {
    && (forall j | 0 <= j < k :: positions[j].key.Absent? || positions[j].key.Slot?)
    && match positions[k].key
       case Ambiguous(table, column) => why == AmbiguousRowKey(table, column)
       case TypeChanged(table, column, wire, resolved) => why == RowKeyTypeChanged(table, column, wire, resolved)
       case _ => false
  }

  /** The first position whose key is ambiguous or of a changed type refuses the row, before anything is
      read. */
  lemma {:induction false} RefusedUpFront(positions: seq<Column>, why: RowError)
    ensures UpFront(positions) == Some(why) <==> exists k | 0 <= k < |positions| :: RefusesFirst(positions, k, why)
  {
    if positions != [] {
      var rest := positions[1..];
      forall k: nat | 0 < k < |positions| && RefusesFirst(positions, k, why) ensures RefusesFirst(rest, k - 1, why) {
        assert forall j | 0 <= j < k - 1 :: rest[j] == positions[j + 1];
      }
      RefusedUpFront(rest, why);
      if UpFront(positions) == Some(why) && !RefusesFirst(positions, 0, why) {
        var k :| 0 <= k < |rest| && RefusesFirst(rest, k, why);
        assert RefusesFirst(positions, k + 1, why);
      }
    }
  }

  /** A row is refused at the first position whose own value is refused, or with which it would no longer
      fit; the positions before it have been replaced. */
  lemma {:induction false} RowRefused(
    ops: Ops, positions: seq<Column>, formats: ResultFormats, original: Row, bounds: Bounds, n: nat, why: RowError)
    returns (k: nat)
    requires n <= |positions| && RowAfter(ops, positions, formats, original, bounds, n) == Err(why)
    ensures k < n && RowAfter(ops, positions, formats, original, bounds, k).Ok?
    ensures var row := RowAfter(ops, positions, formats, original, bounds, k).value;
            var c, cell := positions[k], Cell(ops, positions, positions[k], formats, original, bounds.maxValue);
            || cell == Err(why)
            || (cell.Ok? && cell.value.Some? && c.index < |row|
                && var len := W.EncodedLength(row[c.index := cell.value]);
                   len > bounds.maxBody && why == FrameTooLarge(len, bounds.maxBody))
  {
    if RowAfter(ops, positions, formats, original, bounds, n - 1).Ok? {
      k := n - 1;
    } else {
      k := RowRefused(ops, positions, formats, original, bounds, n - 1, why);
    }
  }

  /** The row a client reads: the rewritten one, or the one that arrived. */
  function RowSeen(body: bytes, r: Option<bytes>): (row: Result<Row, W.Error>) {
    W.ParseDataRow(if r.Some? then r.value else body)
  }

  /** In no row that reaches the client is a masked column anything but masked: whatever the other columns
      do, the client reads the mask of what the transform opened, or of the stored bytes if it opened
      nothing or there is none; and a row with a masked value is never passed on as it is. */
  lemma {:induction false} MasksReachTheClient(
    ops: Ops, positions: seq<Column>, formats: ResultFormats, body: bytes, bounds: Bounds, k: nat, m: nat, raw: bytes)
    requires Ascending(positions) && bounds.maxBody <= MAX_MESSAGE_LEN - 4 && k < |positions|
    requires positions[k].read.mask == Some(m) && W.ParseDataRow(body).Ok?
    requires var original := W.ParseDataRow(body).value;
             positions[k].index < |original| && original[positions[k].index] == Some(raw)
    requires Decrypted(ops, positions, formats, body, bounds).Ok?
    ensures var original, c := W.ParseDataRow(body).value, positions[k];
            var r := Decrypted(ops, positions, formats, body, bounds).value;
            && r.Some? && RowSeen(body, r).Ok? && |RowSeen(body, r).value| == |original|
            && var seen := RowSeen(body, r).value[c.index];
               match c.read.transform
               case None => seen == Some(ops.mask(m, raw))
               case Some(t) =>
                 var (stored, hexText) := DecodeWire(ops.bytea(t), raw);
                 var answer := ops.open(t, stored, UsableKey(KeyFor(c, formats, original)));
                 && answer.Ok?
                 && seen == Some(OnTheWire(
                              ops.mask(m, if answer.value.Some? then answer.value.value else stored), hexText))
  {
    var original, c := W.ParseDataRow(body).value, positions[k];
    var row := RowAfter(ops, positions, formats, original, bounds, |positions|).value;
    RewrittenRowPrints(ops, positions, formats, body, bounds, row);
    RowIsColumnwise(ops, positions, formats, original, bounds, |positions|, c.index);
    CellShows(ops, positions, c, formats, original, bounds.maxValue, raw);
    assert Touched(ops, positions, formats, original, bounds, |positions|);
  }

  // ---------------------------------------------------------------- descriptions qualify

  /** Every slot of a description names a field, and its type. */
  predicate SlotsDescribed(d: Described) {
    forall c | c in d.columns && c.key.Slot? ::
      c.key.index < |d.fields| && c.key.typeOid == d.fields[c.key.index].typeOid
  }

  /** What a RowDescription or a re-derivation leaves behind is what `decrypt_row` asks for. */
  lemma {:induction false} DescriptionsQualify(d: Described, r: Resolved)
    requires WellDescribed(d) && SlotsDescribed(d)
    ensures SlotsDescribed(DescribedBy(r, d.fields)) && SlotsDescribed(Refreshed(d, r))
    ensures Ascending(d.columns) && SlotsAgree(d.columns)
  {
    PickedExact(ProtectedPicks(r, d.fields));
    forall c | c in Protected(r, d.fields) && c.key.Slot?
      ensures c.key.index < |d.fields| && c.key.typeOid == d.fields[c.key.index].typeOid
    {
      var oid := d.fields[c.index].tableOid;
      assert c == ProtectedAt(r, d.fields, c.index).value;
      RowKeyRefMeaning(r, oid, d.fields, c.key);
    }
    MergedExact(d, r);
  }
}
