/** DataRow, Bind and Parse bodies: the parsers that walk a cursor over the bytes, the printers that
    push onto a buffer, and that each undoes the other. */
module Wire {
  import opened Bytes

  datatype Error = MalformedBackend | WireFieldOverflow | BadMessageLength(len: int)

  const MAX_I16: nat := 0x7FFF
  const MAX_I32: nat := 0x7FFF_FFFF

  // ---------------------------------------------------------------- signed fields

  function Signed16(n: int): (s: int)
    requires 0 <= n < TWO_16
  {
    if n <= MAX_I16 then n else n - TWO_16
  }

  function Signed32(n: int): (s: int)
    requires 0 <= n < TWO_32
  {
    if n <= MAX_I32 then n else n - TWO_32
  }

  type int16 = n: int | -0x8000 <= n <= 0x7FFF

  function Int16(n: int16): (b: bytes)
    ensures |b| == 2
  {
    BigEndian16(if n < 0 then n + TWO_16 else n)
  }

  lemma {:induction false} Int16Inverse(n: int16, b: bytes)
    requires |b| == 2
    ensures Signed16(ReadBigEndian16(Int16(n))) == n
    ensures -0x8000 <= Signed16(ReadBigEndian16(b)) <= 0x7FFF && Int16(Signed16(ReadBigEndian16(b))) == b
  {
    BigEndian16Inverse(if n < 0 then n + TWO_16 else n, b);
  }

  // ---------------------------------------------------------------- taking from the front

  type Taken<+T> = Result<(T, bytes), Error>

  function TakeInt16(b: bytes): (r: Taken<int16>) {
    if |b| < 2 then Err(MalformedBackend)
    else
      Int16Inverse(0, b[..2]);
      Ok((Signed16(ReadBigEndian16(b[..2])), b[2..]))
  }

  /** One value: a length, -1 for NULL, then that many bytes. */
  function TakeNullable(b: bytes): (r: Taken<Option<bytes>>)
    ensures r.Ok? ==> |r.value.1| < |b|
  {
    if |b| < 4 then Err(MalformedBackend)
    else
      var len := Signed32(ReadBigEndian32(b[..4]));
      if len == -1 then Ok((None, b[4..]))
      else if len < 0 || len > |b| - 4 then Err(MalformedBackend)
      else Ok((Some(b[4..4 + len]), b[4 + len..]))
  }

  function FirstNul(b: bytes): (i: nat)
    ensures i <= |b| && 0 !in b[..i]
    ensures i < |b| ==> b[i] == 0
  {
    if b == [] || b[0] == 0 then 0 else 1 + FirstNul(b[1..])
  }

  function TakeString(b: bytes): (r: Taken<bytes>) {
    var i := FirstNul(b);
    if i == |b| then Err(MalformedBackend) else Ok((b[..i], b[i + 1..]))
  }

  function TakeInt16s(b: bytes, count: nat): (r: Taken<seq<int16>>)
    decreases count
  {
    if count == 0 then Ok(([], b))
    else
      match TakeInt16(b)
      case Err(e) => Err(e)
      case Ok(one) =>
        match TakeInt16s(one.1, count - 1)
        case Err(e) => Err(e)
        case Ok(more) => Ok(([one.0] + more.0, more.1))
  }

  function TakeNullables(b: bytes, count: nat): (r: Taken<seq<Option<bytes>>>)
    decreases count
  {
    if count == 0 then Ok(([], b))
    else
      match TakeNullable(b)
      case Err(e) => Err(e)
      case Ok(one) =>
        match TakeNullables(one.1, count - 1)
        case Err(e) => Err(e)
        case Ok(more) => Ok(([one.0] + more.0, more.1))
  }

  /** A loop over a negative count runs no times. */
  function Times(count: int): (n: nat) {
    if count < 0 then 0 else count
  }

  // ---------------------------------------------------------------- pushing onto a buffer

  predicate Encodable(v: Option<bytes>) {
    v.Some? ==> |v.value| <= MAX_I32
  }

  function PutNullable(v: Option<bytes>): (b: bytes)
    requires Encodable(v)
  {
    match v
    case None => [255, 255, 255, 255]
    case Some(value) => BigEndian32(|value|) + value
  }

  function PutNullables(vs: seq<Option<bytes>>): (b: bytes)
    requires forall i | 0 <= i < |vs| :: Encodable(vs[i])
  {
    if vs == [] then [] else PutNullable(vs[0]) + PutNullables(vs[1..])
  }

  function PutInt16s(ns: seq<int16>): (b: bytes) {
    if ns == [] then [] else Int16(ns[0]) + PutInt16s(ns[1..])
  }

  // ---------------------------------------------------------------- one value

  lemma {:induction false} TakePutNullable(v: Option<bytes>, rest: bytes)
    requires Encodable(v)
    ensures TakeNullable(PutNullable(v) + rest) == Ok((v, rest))
  {
    var b := PutNullable(v) + rest;
    if v.None? {
      assert b[..4] == [255, 255, 255, 255] && b[4..] == rest;
    } else {
      var len := |v.value|;
      BigEndian32Inverse(len, BigEndian32(len));
      assert b[..4] == BigEndian32(len) && b[4..4 + len] == v.value && b[4 + len..] == rest;
    }
  }

  lemma {:induction false} PutTakeNullable(b: bytes)
    requires TakeNullable(b).Ok?
    ensures Encodable(TakeNullable(b).value.0)
    ensures PutNullable(TakeNullable(b).value.0) + TakeNullable(b).value.1 == b
  {
    var (v, rest) := TakeNullable(b).value;
    BigEndian32Inverse(0, b[..4]);
    if v.None? {
      assert ReadBigEndian32(b[..4]) == 0xFFFF_FFFF;
      assert BigEndian32(0xFFFF_FFFF) == [255, 255, 255, 255];
      assert b == b[..4] + b[4..];
    } else {
      var len := |v.value|;
      assert b == b[..4] + b[4..4 + len] + b[4 + len..];
    }
  }

  // ---------------------------------------------------------------- lists

  lemma {:induction false} TakePutNullables(vs: seq<Option<bytes>>, rest: bytes)
    requires forall i | 0 <= i < |vs| :: Encodable(vs[i])
    ensures TakeNullables(PutNullables(vs) + rest, |vs|) == Ok((vs, rest))
    decreases |vs|
  {
    if vs == [] {
      assert [] + rest == rest;
    } else {
      var tail := PutNullables(vs[1..]) + rest;
      assert PutNullables(vs) + rest == PutNullable(vs[0]) + tail;
      TakePutNullable(vs[0], tail);
      TakePutNullables(vs[1..], rest);
      assert [vs[0]] + vs[1..] == vs;
    }
  }

  lemma {:induction false} PutTakeNullables(b: bytes, count: nat)
    requires TakeNullables(b, count).Ok?
    ensures |TakeNullables(b, count).value.0| == count
    ensures forall i | 0 <= i < count :: Encodable(TakeNullables(b, count).value.0[i])
    ensures PutNullables(TakeNullables(b, count).value.0) + TakeNullables(b, count).value.1 == b
    decreases count
  {
    if count > 0 {
      var one := TakeNullable(b).value;
      PutTakeNullable(b);
      PutTakeNullables(one.1, count - 1);
      var more := TakeNullables(one.1, count - 1).value;
    }
  }

  lemma {:induction false} TakePutInt16s(ns: seq<int16>, rest: bytes)
    ensures TakeInt16s(PutInt16s(ns) + rest, |ns|) == Ok((ns, rest))
    decreases |ns|
  {
    if ns == [] {
      assert [] + rest == rest;
    } else {
      var tail := PutInt16s(ns[1..]) + rest;
      assert PutInt16s(ns) + rest == Int16(ns[0]) + tail;
      assert (Int16(ns[0]) + tail)[..2] == Int16(ns[0]) && (Int16(ns[0]) + tail)[2..] == tail;
      Int16Inverse(ns[0], Int16(ns[0]));
      TakePutInt16s(ns[1..], rest);
      assert [ns[0]] + ns[1..] == ns;
    }
  }

  lemma {:induction false} PutTakeInt16s(b: bytes, count: nat)
    requires TakeInt16s(b, count).Ok?
    ensures var (ns, rest) := TakeInt16s(b, count).value; |ns| == count && PutInt16s(ns) + rest == b
    decreases count
  {
    if count > 0 {
      Int16Inverse(0, b[..2]);
      PutTakeInt16s(b[2..], count - 1);
      var (ns, rest) := TakeInt16s(b[2..], count - 1).value;
      var n := TakeInt16(b).value.0;
      assert ([n] + ns)[1..] == ns;
      assert Int16(n) + PutInt16s(ns) + rest == b[..2] + (PutInt16s(ns) + rest);
      assert b == b[..2] + b[2..];
    }
  }

  lemma {:induction false} TakePutString(s: bytes, rest: bytes)
    requires 0 !in s
    ensures TakeString(s + [0] + rest) == Ok((s, rest))
  {
    FirstNulOf(s, rest);
    assert (s + [0] + rest)[..|s|] == s && (s + [0] + rest)[|s| + 1..] == rest;
  }

  lemma {:induction false} FirstNulOf(s: bytes, rest: bytes)
    requires 0 !in s
    ensures FirstNul(s + [0] + rest) == |s|
  {
    if s != [] {
      assert (s + [0] + rest)[1..] == s[1..] + [0] + rest;
      FirstNulOf(s[1..], rest);
    }
  }

  // ---------------------------------------------------------------- DataRow

  function ParseDataRow(body: bytes): (r: Result<seq<Option<bytes>>, Error>) {
    match TakeInt16(body)
    case Err(e) => Err(e)
    case Ok(count) =>
      match TakeNullables(count.1, Times(count.0))
      case Err(e) => Err(e)
      case Ok(values) => if values.1 != [] then Err(MalformedBackend) else Ok(values.0)
  }

  predicate RowFits(vs: seq<Option<bytes>>) {
    |vs| <= MAX_I16 && forall i | 0 <= i < |vs| :: Encodable(vs[i])
  }

  function EncodeDataRow(vs: seq<Option<bytes>>): (r: Result<bytes, Error>)
    ensures r.Ok? <==> RowFits(vs)
  {
    if RowFits(vs) then Ok(Int16(|vs|) + PutNullables(vs)) else Err(WireFieldOverflow)
  }

  /** What was printed parses back. */
  lemma {:induction false} DataRowRoundTrip(vs: seq<Option<bytes>>)
    requires RowFits(vs)
    ensures ParseDataRow(EncodeDataRow(vs).value) == Ok(vs)
  {
    var body := Int16(|vs|) + PutNullables(vs);
    Int16Inverse(|vs|, Int16(|vs|));
    assert body[..2] == Int16(|vs|) && body[2..] == PutNullables(vs) + [];
    TakePutNullables(vs, []);
  }

  /** What parsed prints back to the very same bytes, exactly when its count was not negative. */
  lemma {:induction false} DataRowReprint(body: bytes)
    requires ParseDataRow(body).Ok?
    ensures RowFits(ParseDataRow(body).value)
    ensures EncodeDataRow(ParseDataRow(body).value) == Ok(body) <==> TakeInt16(body).value.0 >= 0
    ensures TakeInt16(body).value.0 < 0 ==> ParseDataRow(body) == Ok([]) && |body| == 2
  {
    var (count, rest) := TakeInt16(body).value;
    Int16Inverse(0, body[..2]);
    PutTakeNullables(rest, Times(count));
    var vs := ParseDataRow(body).value;
    assert PutNullables(vs) + [] == PutNullables(vs);
    assert body == body[..2] + rest;
    if count < 0 {
      assert Int16(0) == [0, 0] && EncodeDataRow([]) == Ok([0, 0] + []);
      assert body[..2] != [0, 0];
      assert ([0, 0] + [])[..2] == [0, 0];
    }
  }

  /** The length a row is printed to. */
  function EncodedLength(vs: seq<Option<bytes>>): (n: nat) {
    if vs == [] then 2
    else EncodedLength(vs[..|vs| - 1]) + 4 + (match vs[|vs| - 1] case Some(v) => |v| case None => 0)
  }

  lemma {:induction false} PutNullablesSnoc(vs: seq<Option<bytes>>, v: Option<bytes>)
    requires Encodable(v) && forall i | 0 <= i < |vs| :: Encodable(vs[i])
    ensures PutNullables(vs + [v]) == PutNullables(vs) + PutNullable(v)
  {
    if vs == [] {
      assert [v][1..] == [] && PutNullable(v) + [] == PutNullable(v) && [] + [v] == [v];
    } else {
      assert (vs + [v])[1..] == vs[1..] + [v];
      PutNullablesSnoc(vs[1..], v);
    }
  }

  lemma {:induction false} PrintedLength(vs: seq<Option<bytes>>)
    requires forall i | 0 <= i < |vs| :: Encodable(vs[i])
    ensures 2 + |PutNullables(vs)| == EncodedLength(vs)
  {
    if vs != [] {
      var last := |vs| - 1;
      PrintedLength(vs[..last]);
      PutNullablesSnoc(vs[..last], vs[last]);
      assert vs[..last] + [vs[last]] == vs;
    }
  }

  /** A parsed body has the printed length of its values, whatever its count says. */
  lemma {:induction false} ParsedLength(body: bytes)
    requires ParseDataRow(body).Ok?
    ensures |body| == EncodedLength(ParseDataRow(body).value)
  {
    var (count, rest) := TakeInt16(body).value;
    PutTakeNullables(rest, Times(count));
    PrintedLength(ParseDataRow(body).value);
    assert PutNullables(ParseDataRow(body).value) + [] == rest;
  }

  // ---------------------------------------------------------------- the loops

  function Joined<T>(before: seq<T>, r: Taken<seq<T>>): (s: Taken<seq<T>>) {
    match r case Ok(more) => Ok((before + more.0, more.1)) case Err(e) => Err(e)
  }

  lemma {:induction false} JoinedEmpty<T>(r: Taken<seq<T>>)
    ensures Joined([], r) == r
  {
    if r.Ok? {
      assert [] + r.value.0 == r.value.0;
    }
  }

  /** The cursor loop over nullable values. */
  method ReadNullables(b: bytes, count: int) returns (r: Taken<seq<Option<bytes>>>)
    ensures r == TakeNullables(b, Times(count))
  {
    var cursor := b;
    var values: seq<Option<bytes>> := [];
    JoinedEmpty(TakeNullables(b, Times(count)));
    var k := 0;
    while k < count
      invariant 0 <= k <= Times(count)
      invariant TakeNullables(b, Times(count)) == Joined(values, TakeNullables(cursor, Times(count) - k))
    {
      match TakeNullable(cursor) {
        case Err(e) => return Err(e);
        case Ok(one) =>
          assert forall more :: values + ([one.0] + more) == (values + [one.0]) + more;
          cursor, values := one.1, values + [one.0];
      }
      k := k + 1;
    }
    assert values + [] == values;
    r := Ok((values, cursor));
  }

  method ReadInt16s(b: bytes, count: int) returns (r: Taken<seq<int16>>)
    ensures r == TakeInt16s(b, Times(count))
  {
    var cursor := b;
    var codes: seq<int16> := [];
    JoinedEmpty(TakeInt16s(b, Times(count)));
    var k := 0;
    while k < count
      invariant 0 <= k <= Times(count)
      invariant TakeInt16s(b, Times(count)) == Joined(codes, TakeInt16s(cursor, Times(count) - k))
    {
      match TakeInt16(cursor) {
        case Err(e) => return Err(e);
        case Ok(one) =>
          assert forall more :: codes + ([one.0] + more) == (codes + [one.0]) + more;
          cursor, codes := one.1, codes + [one.0];
      }
      k := k + 1;
    }
    assert codes + [] == codes;
    r := Ok((codes, cursor));
  }

  method ReadDataRow(body: bytes) returns (r: Result<seq<Option<bytes>>, Error>)
    ensures r == ParseDataRow(body)
  {
    match TakeInt16(body) {
      case Err(e) => return Err(e);
      case Ok(count) =>
        var values := ReadNullables(count.1, count.0);
        if values.Err? {
          return Err(values.error);
        }
        if values.value.1 != [] {
          return Err(MalformedBackend);
        }
        r := Ok(values.value.0);
    }
  }

  lemma {:induction false} PutNext(out: bytes, vs: seq<Option<bytes>>, k: nat)
    requires k < |vs| && forall i | 0 <= i <= k :: Encodable(vs[i])
    ensures out + PutNullables(vs[..k]) + PutNullable(vs[k]) == out + PutNullables(vs[..k + 1])
  {
    PutNullablesSnoc(vs[..k], vs[k]);
    assert vs[..k] + [vs[k]] == vs[..k + 1];
  }

  /** The buffer loop; it stops at the first value too long to print. */
  method WriteNullables(out: bytes, vs: seq<Option<bytes>>) returns (r: Result<bytes, Error>)
    ensures r.Ok? <==> forall i | 0 <= i < |vs| :: Encodable(vs[i])
    ensures r.Ok? ==> r.value == out + PutNullables(vs)
    ensures r.Err? ==> r.error == WireFieldOverflow
  {
    var buffer := out;
    for k := 0 to |vs|
      invariant forall i | 0 <= i < k :: Encodable(vs[i])
      invariant buffer == out + PutNullables(vs[..k])
    {
      if vs[k].Some? && |vs[k].value| > MAX_I32 {
        return Err(WireFieldOverflow);
      }
      PutNext(out, vs, k);
      buffer := buffer + PutNullable(vs[k]);
    }
    assert vs[..|vs|] == vs;
    r := Ok(buffer);
  }

  method WriteDataRow(vs: seq<Option<bytes>>) returns (r: Result<bytes, Error>)
    ensures r == EncodeDataRow(vs)
  {
    if |vs| > MAX_I16 {
      return Err(WireFieldOverflow);
    }
    r := WriteNullables(Int16(|vs|), vs);
  }

  // ---------------------------------------------------------------- Bind

  datatype BindBody = BindBody(
    portal: bytes, statement: bytes, paramFormats: seq<int16>, params: seq<Option<bytes>>, resultFormats: bytes)

  function ParseBind(body: bytes): (r: Result<BindBody, Error>) {
    match TakeString(body)
    case Err(e) => Err(e)
    case Ok(portal) =>
      match TakeString(portal.1)
      case Err(e) => Err(e)
      case Ok(statement) =>
        match TakeInt16(statement.1)
        case Err(e) => Err(e)
        case Ok(formatCount) =>
          match TakeInt16s(formatCount.1, Times(formatCount.0))
          case Err(e) => Err(e)
          case Ok(formats) =>
            match TakeInt16(formats.1)
            case Err(e) => Err(e)
            case Ok(paramCount) =>
              match TakeNullables(paramCount.1, Times(paramCount.0))
              case Err(e) => Err(e)
              case Ok(params) => Ok(BindBody(portal.0, statement.0, formats.0, params.0, params.1))
  }

  predicate BindFits(b: BindBody) {
    |b.paramFormats| <= MAX_I16 && RowFits(b.params)
  }

  function EncodeBind(b: BindBody): (r: Result<bytes, Error>)
    ensures r.Ok? <==> BindFits(b)
  {
    if !BindFits(b) then Err(WireFieldOverflow)
    else Ok(b.portal + [0] + (b.statement + [0] + BindTail(b)))
  }

  function BindTail(b: BindBody): (r: bytes)
    requires BindFits(b)
  {
    Int16(|b.paramFormats|) + (PutInt16s(b.paramFormats) + ParamsTail(b))
  }

  function ParamsTail(b: BindBody): (r: bytes)
    requires BindFits(b)
  {
    Int16(|b.params|) + (PutNullables(b.params) + b.resultFormats)
  }

  lemma {:induction false} TakePutCount(n: nat, rest: bytes)
    requires n <= MAX_I16
    ensures TakeInt16(Int16(n) + rest) == Ok((n, rest))
  {
    Int16Inverse(n, Int16(n));
    assert (Int16(n) + rest)[..2] == Int16(n) && (Int16(n) + rest)[2..] == rest;
  }

  lemma {:induction false} BindRoundTrip(b: BindBody)
    requires BindFits(b) && 0 !in b.portal && 0 !in b.statement
    ensures ParseBind(EncodeBind(b).value) == Ok(b)
  {
    TakePutString(b.portal, b.statement + [0] + BindTail(b));
    TakePutString(b.statement, BindTail(b));
    TakePutCount(|b.paramFormats|, PutInt16s(b.paramFormats) + ParamsTail(b));
    TakePutInt16s(b.paramFormats, ParamsTail(b));
    TakePutCount(|b.params|, PutNullables(b.params) + b.resultFormats);
    TakePutNullables(b.params, b.resultFormats);
  }

  lemma {:induction false} PutTakeCount(b: bytes)
    requires TakeInt16(b).Ok? && TakeInt16(b).value.0 >= 0
    ensures Int16(TakeInt16(b).value.0) + TakeInt16(b).value.1 == b
  {
    Int16Inverse(0, b[..2]);
    assert b == b[..2] + b[2..];
  }

  lemma {:induction false} PutTakeString(b: bytes)
    requires TakeString(b).Ok?
    ensures TakeString(b).value.0 + [0] + TakeString(b).value.1 == b && 0 !in TakeString(b).value.0
  {
    var i := FirstNul(b);
    assert b == b[..i] + [b[i]] + b[i + 1..];
  }

  /** The counts a body announces. */
  function Counts(body: bytes): (r: (int, int))
    requires ParseBind(body).Ok?
  {
    var afterNames := TakeString(TakeString(body).value.1).value.1;
    var formats := TakeInt16(afterNames).value;
    (formats.0, TakeInt16(TakeInt16s(formats.1, Times(formats.0)).value.1).value.0)
  }

  lemma {:induction false} BindReprints(body: bytes)
    requires ParseBind(body).Ok? && Counts(body).0 >= 0 && Counts(body).1 >= 0
    ensures EncodeBind(ParseBind(body).value) == Ok(body)
  {
    var names := TakeString(body).value.1;
    var tail := TakeString(names).value.1;
    var formats := TakeInt16(tail).value;
    var params := TakeInt16s(formats.1, formats.0).value.1;
    var count := TakeInt16(params).value;
    PutTakeString(body);
    PutTakeString(names);
    PutTakeCount(tail);
    PutTakeInt16s(formats.1, formats.0);
    PutTakeCount(params);
    PutTakeNullables(count.1, count.0);
  }

  lemma {:induction false} SamePrefix(a: bytes, x: bytes, y: bytes)
    requires a + x == a + y
    ensures x == y
  {
    assert (a + x)[|a|..] == x && (a + y)[|a|..] == y;
  }

  /** A list printed with its own length never shows a negative count. */
  lemma {:induction false} CountShows(n: nat, rest: bytes, b: bytes)
    requires n <= MAX_I16 && TakeInt16(b).Ok? && Int16(n) + rest == b
    ensures TakeInt16(b).value.0 == n
  {
    TakePutCount(n, rest);
  }

  lemma {:induction false} ParsedBindFits(body: bytes)
    requires ParseBind(body).Ok?
    ensures BindFits(ParseBind(body).value)
    ensures var b := ParseBind(body).value;
            body == b.portal + [0] + (b.statement + [0] + TakeString(TakeString(body).value.1).value.1)
  {
    var names := TakeString(body).value.1;
    var formats := TakeInt16(TakeString(names).value.1).value;
    var params := TakeInt16s(formats.1, Times(formats.0)).value.1;
    var count := TakeInt16(params).value;
    PutTakeString(body);
    PutTakeString(names);
    PutTakeInt16s(formats.1, Times(formats.0));
    PutTakeNullables(count.1, Times(count.0));
  }

  lemma {:induction false} ReprintedCounts(body: bytes)
    requires ParseBind(body).Ok? && EncodeBind(ParseBind(body).value) == Ok(body)
    ensures Counts(body).0 >= 0 && Counts(body).1 >= 0
  {
    var b := ParseBind(body).value;
    var tail := TakeString(TakeString(body).value.1).value.1;
    ParsedBindFits(body);
    SamePrefix(b.portal + [0], b.statement + [0] + BindTail(b), b.statement + [0] + tail);
    SamePrefix(b.statement + [0], BindTail(b), tail);
    CountShows(|b.paramFormats|, PutInt16s(b.paramFormats) + ParamsTail(b), tail);
    var formats := TakeInt16(tail).value;
    TakePutCount(|b.paramFormats|, PutInt16s(b.paramFormats) + ParamsTail(b));
    TakePutInt16s(b.paramFormats, ParamsTail(b));
    CountShows(|b.params|, PutNullables(b.params) + b.resultFormats, TakeInt16s(formats.1, formats.0).value.1);
  }

  /** A parsed Bind prints back to the same bytes exactly when neither of its counts was negative. */
  lemma {:induction false} BindReprint(body: bytes)
    requires ParseBind(body).Ok?
    ensures EncodeBind(ParseBind(body).value) == Ok(body) <==> Counts(body).0 >= 0 && Counts(body).1 >= 0
  {
    if EncodeBind(ParseBind(body).value) == Ok(body) {
      ReprintedCounts(body);
    }
    if Counts(body).0 >= 0 && Counts(body).1 >= 0 {
      BindReprints(body);
    }
  }

  method ReadBind(body: bytes) returns (r: Result<BindBody, Error>)
    ensures r == ParseBind(body)
  {
    var portal := TakeString(body);
    if portal.Err? { return Err(portal.error); }
    var statement := TakeString(portal.value.1);
    if statement.Err? { return Err(statement.error); }
    var formatCount := TakeInt16(statement.value.1);
    if formatCount.Err? { return Err(formatCount.error); }
    var formats := ReadInt16s(formatCount.value.1, formatCount.value.0);
    if formats.Err? { return Err(formats.error); }
    var paramCount := TakeInt16(formats.value.1);
    if paramCount.Err? { return Err(paramCount.error); }
    var params := ReadNullables(paramCount.value.1, paramCount.value.0);
    if params.Err? { return Err(params.error); }
    r := Ok(BindBody(portal.value.0, statement.value.0, formats.value.0, params.value.0, params.value.1));
  }

  lemma {:induction false} PutInt16sSnoc(ns: seq<int16>, n: int16)
    ensures PutInt16s(ns + [n]) == PutInt16s(ns) + Int16(n)
  {
    if ns == [] {
      assert [n][1..] == [] && Int16(n) + [] == Int16(n) && [] + [n] == [n];
    } else {
      assert (ns + [n])[1..] == ns[1..] + [n];
      PutInt16sSnoc(ns[1..], n);
    }
  }

  method WriteInt16s(out: bytes, ns: seq<int16>) returns (buffer: bytes)
    ensures buffer == out + PutInt16s(ns)
  {
    buffer := out;
    for k := 0 to |ns|
      invariant buffer == out + PutInt16s(ns[..k])
    {
      PutInt16sSnoc(ns[..k], ns[k]);
      assert ns[..k] + [ns[k]] == ns[..k + 1];
      buffer := buffer + Int16(ns[k]);
    }
    assert ns[..|ns|] == ns;
  }

  method WriteBind(b: BindBody) returns (r: Result<bytes, Error>)
    ensures r == EncodeBind(b)
  {
    if |b.paramFormats| > MAX_I16 || |b.params| > MAX_I16 {
      return Err(WireFieldOverflow);
    }
    var formats := WriteInt16s(Int16(|b.paramFormats|), b.paramFormats);
    var params := WriteNullables(Int16(|b.params|), b.params);
    if params.Err? {
      return Err(params.error);
    }
    TailJoined(b, formats, params.value);
    r := Ok(b.portal + [0] + (b.statement + [0] + (formats + (params.value + b.resultFormats))));
  }

  lemma {:induction false} Regrouped(a: bytes, b: bytes, c: bytes)
    ensures (a + b) + c == a + (b + c)
  {
  }

  lemma {:induction false} TailJoined(b: BindBody, formats: bytes, params: bytes)
    requires BindFits(b) && formats == Int16(|b.paramFormats|) + PutInt16s(b.paramFormats)
    requires params == Int16(|b.params|) + PutNullables(b.params)
    ensures formats + (params + b.resultFormats) == BindTail(b)
  {
    Regrouped(Int16(|b.params|), PutNullables(b.params), b.resultFormats);
    Regrouped(Int16(|b.paramFormats|), PutInt16s(b.paramFormats), ParamsTail(b));
  }

  // ---------------------------------------------------------------- Parse

  datatype ParseBody = ParseBody(statement: bytes, query: bytes, paramTypes: bytes)

  function ParseParse(body: bytes): (r: Result<ParseBody, Error>) {
    match TakeString(body)
    case Err(e) => Err(e)
    case Ok(statement) =>
      match TakeString(statement.1)
      case Err(e) => Err(e)
      case Ok(query) => Ok(ParseBody(statement.0, query.0, query.1))
  }

  function EncodeParse(p: ParseBody): (b: bytes) {
    p.statement + [0] + (p.query + [0] + p.paramTypes)
  }

  /** Printing and parsing are inverse, in both directions. */
  lemma {:induction false} ParseRoundTrip(p: ParseBody, body: bytes)
    ensures 0 !in p.statement && 0 !in p.query ==> ParseParse(EncodeParse(p)) == Ok(p)
    ensures ParseParse(body).Ok? ==> EncodeParse(ParseParse(body).value) == body
  {
    if 0 !in p.statement && 0 !in p.query {
      TakePutString(p.statement, p.query + [0] + p.paramTypes);
      TakePutString(p.query, p.paramTypes);
    }
    if ParseParse(body).Ok? {
      PutTakeString(body);
      PutTakeString(TakeString(body).value.1);
    }
  }

  // ---------------------------------------------------------------- format codes

  /** Empty means all text, one code stands for every value, else one code per value. */
  function FormatCode(codes: seq<int>, index: nat): (code: int) {
    if |codes| == 0 then 0
    else if |codes| == 1 then codes[0]
    else if index < |codes| then codes[index]
    else 0
  }
}
