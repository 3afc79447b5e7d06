/** Which positions of a result set are protected, and how that mapping follows the catalog. */
module Resolution {
  import opened Bytes

  datatype Field = Field(tableOid: nat, attnum: int, typeOid: nat)

  /** `transform` and `mask` identify the column's transform object and mask specification. */
  datatype ReadColumn = ReadColumn(name: bytes, transform: Option<nat>, mask: Option<nat>)

  datatype RowKeyRef =
    | Absent
    | Slot(index: nat, typeOid: nat)
    | Ambiguous(table: bytes, column: bytes)
    | TypeChanged(table: bytes, column: bytes, wire: nat, resolved: nat)

  datatype Column = Column(index: nat, read: ReadColumn, key: RowKeyRef)

  datatype Described = Described(generation: nat, fields: seq<Field>, columns: seq<Column>)

  /** What a NoData answer leaves behind. */
  const NoRows: Described := Described(0, [], [])

  /** Position `i` of the result set is protected. */
  predicate Protects(d: Described, i: nat) {
    exists c :: c in d.columns && c.index == i
  }

  /** `d` describes the same result set and protects every position `d0` protects. */
  predicate Covers(d: Described, d0: Described) {
    && d.fields == d0.fields
    && forall c | c in d0.columns :: Protects(d, c.index)
  }

  lemma CoversTransitive(a: Described, b: Described, c: Described)
    requires Covers(a, b) && Covers(b, c)
    ensures Covers(a, c)
  {
  }

  // ---------------------------------------------------------------- one resolution

  datatype ResolvedRowKey = ResolvedRowKey(attnum: int, typeOid: nat, name: bytes, table: bytes)

  /** The configured columns by table and attribute number, and each table's declared row key. */
  datatype Resolved = Resolved(
    columns: map<(nat, int), ReadColumn>, rowKeys: map<nat, ResolvedRowKey>, generation: nat)

  predicate IsKeyField(f: Field, tableOid: nat, declared: ResolvedRowKey) {
    f.tableOid == tableOid && f.attnum == declared.attnum
  }

  /** The places below `n` that project the declared key. */
  function KeyPlaces(fields: seq<Field>, n: nat, tableOid: nat, declared: ResolvedRowKey): (ks: seq<nat>)
    requires n <= |fields|
    ensures forall k | k in ks :: k < n && IsKeyField(fields[k], tableOid, declared)
  {
    if n == 0 then []
    else
      KeyPlaces(fields, n - 1, tableOid, declared)
      + (if IsKeyField(fields[n - 1], tableOid, declared) then [n - 1] else [])
  }

  function RowKeyRefOf(r: Resolved, tableOid: nat, fields: seq<Field>): (ref: RowKeyRef) {
    if tableOid !in r.rowKeys then Absent
    else
      var declared := r.rowKeys[tableOid];
      var matches := KeyPlaces(fields, |fields|, tableOid, declared);
      if |matches| == 0 then Absent
      else if |matches| > 1 then Ambiguous(declared.table, declared.name)
      else
        assert matches[0] in matches;
        var wire := fields[matches[0]].typeOid;
        if wire != declared.typeOid then TypeChanged(declared.table, declared.name, wire, declared.typeOid)
        else Slot(matches[0], wire)
  }

  lemma {:induction false} KeyPlacesExact(fields: seq<Field>, n: nat, tableOid: nat, declared: ResolvedRowKey)
    requires n <= |fields|
    ensures var ks := KeyPlaces(fields, n, tableOid, declared);
            && (forall i | 0 <= i < n && IsKeyField(fields[i], tableOid, declared) :: i in ks)
            && (forall a, b | 0 <= a < b < |ks| :: ks[a] < ks[b])
  {
    if n > 0 {
      KeyPlacesExact(fields, n - 1, tableOid, declared);
      var ks := KeyPlaces(fields, n - 1, tableOid, declared);
      assert forall a | 0 <= a < |ks| :: ks[a] in ks;
    }
  }

  /** Place `k` is the one place that projects the declared key. */
  predicate OnlyKeyAt(fields: seq<Field>, tableOid: nat, declared: ResolvedRowKey, k: nat) {
    k < |fields| && forall i | 0 <= i < |fields| :: IsKeyField(fields[i], tableOid, declared) <==> i == k
  }

  predicate KeyTwice(fields: seq<Field>, tableOid: nat, declared: ResolvedRowKey) {
    exists i, k | 0 <= i < k < |fields| ::
      IsKeyField(fields[i], tableOid, declared) && IsKeyField(fields[k], tableOid, declared)
  }

  /** What a result set says about the row key of a table: a slot only when it projects the declared key
      exactly once, under the type the catalog resolved; two projections are ambiguous, and one under
      another type is a changed one; none is the same as no declared key. */
  predicate TellsRowKey(r: Resolved, tableOid: nat, fields: seq<Field>, ref: RowKeyRef) {
    if tableOid !in r.rowKeys then ref.Absent?
    else
      var declared := r.rowKeys[tableOid];
      match ref
      case Absent => forall i | 0 <= i < |fields| :: !IsKeyField(fields[i], tableOid, declared)
      case Slot(k, oid) =>
        OnlyKeyAt(fields, tableOid, declared, k) && oid == declared.typeOid == fields[k].typeOid
      case Ambiguous(table, column) =>
        table == declared.table && column == declared.name && KeyTwice(fields, tableOid, declared)
      case TypeChanged(table, column, wire, resolved) =>
        && table == declared.table && column == declared.name && wire != resolved == declared.typeOid
        && exists k | 0 <= k < |fields| :: OnlyKeyAt(fields, tableOid, declared, k) && fields[k].typeOid == wire
  }

  lemma {:induction false} AloneOrOther(ks: seq<nat>, k: nat) returns (other: nat)
    requires k in ks && forall a, b | 0 <= a < b < |ks| :: ks[a] < ks[b]
    ensures ks == [k] || (other in ks && other != k)
  {
    other := if |ks| > 1 && ks[0] == k then ks[1] else ks[0];
  }

  lemma {:induction false} OnePlace(fields: seq<Field>, tableOid: nat, declared: ResolvedRowKey, k: nat)
    ensures KeyPlaces(fields, |fields|, tableOid, declared) == [k] <==> OnlyKeyAt(fields, tableOid, declared, k)
  {
    var ks := KeyPlaces(fields, |fields|, tableOid, declared);
    KeyPlacesExact(fields, |fields|, tableOid, declared);
    if ks == [k] {
      assert k in ks;
    }
    if OnlyKeyAt(fields, tableOid, declared, k) {
      var other := AloneOrOther(ks, k);
    }
  }

  lemma {:induction false} NoPlace(fields: seq<Field>, tableOid: nat, declared: ResolvedRowKey)
    ensures KeyPlaces(fields, |fields|, tableOid, declared) == []
       <==> forall i | 0 <= i < |fields| :: !IsKeyField(fields[i], tableOid, declared)
  {
    var ks := KeyPlaces(fields, |fields|, tableOid, declared);
    KeyPlacesExact(fields, |fields|, tableOid, declared);
    if ks != [] {
      assert ks[0] in ks;
    }
  }

  lemma {:induction false} TwoPlaces(fields: seq<Field>, tableOid: nat, declared: ResolvedRowKey)
    ensures |KeyPlaces(fields, |fields|, tableOid, declared)| > 1 <==> KeyTwice(fields, tableOid, declared)
  {
    var ks := KeyPlaces(fields, |fields|, tableOid, declared);
    KeyPlacesExact(fields, |fields|, tableOid, declared);
    if |ks| > 1 {
      var i, k := ks[0], ks[1];
      assert i in ks && k in ks;
    }
    if KeyTwice(fields, tableOid, declared) {
      var i, k :| 0 <= i < k < |fields|
                  && IsKeyField(fields[i], tableOid, declared) && IsKeyField(fields[k], tableOid, declared);
      assert i in ks && k in ks;
    }
  }

  lemma {:induction false} RowKeyRefMeaning(r: Resolved, tableOid: nat, fields: seq<Field>, ref: RowKeyRef)
    ensures RowKeyRefOf(r, tableOid, fields) == ref <==> TellsRowKey(r, tableOid, fields, ref)
  {
    if tableOid in r.rowKeys {
      var declared := r.rowKeys[tableOid];
      var ks := KeyPlaces(fields, |fields|, tableOid, declared);
      NoPlace(fields, tableOid, declared);
      TwoPlaces(fields, tableOid, declared);
      match ref
      case Slot(k, _) => OnePlace(fields, tableOid, declared, k);
      case TypeChanged(_, _, wire, _) =>
        forall k: nat | OnlyKeyAt(fields, tableOid, declared, k) ensures ks == [k] {
          OnePlace(fields, tableOid, declared, k);
        }
        if |ks| == 1 {
          OnePlace(fields, tableOid, declared, ks[0]);
        }
      case _ =>
    }
  }

  // ---------------------------------------------------------------- positions in order

  type Picks = p: seq<Option<Column>> | forall i | 0 <= i < |p| && p[i].Some? :: p[i].value.index == i

  function Picked(picks: Picks): (cs: seq<Column>) {
    if picks == [] then []
    else
      var last := |picks| - 1;
      Picked(picks[..last]) + (match picks[last] case Some(c) => [c] case None => [])
  }

  predicate Ascending(cs: seq<Column>) {
    forall i, j | 0 <= i < j < |cs| :: cs[i].index < cs[j].index
  }

  lemma {:induction false} PickedMember(picks: Picks, c: Column)
    ensures c in Picked(picks) <==> c.index < |picks| && picks[c.index] == Some(c)
  {
    if picks != [] {
      PickedMember(picks[..|picks| - 1], c);
    }
  }

  lemma {:induction false} PickedAscending(picks: Picks)
    ensures Ascending(Picked(picks))
  {
    if picks != [] {
      var last := |picks| - 1;
      PickedAscending(picks[..last]);
      var before := Picked(picks[..last]);
      forall i | 0 <= i < |before| ensures before[i].index < last {
        PickedMember(picks[..last], before[i]);
      }
    }
  }

  lemma {:induction false} PickedExact(picks: Picks)
    ensures Ascending(Picked(picks))
    ensures forall c :: c in Picked(picks) <==> c.index < |picks| && picks[c.index] == Some(c)
  {
    PickedAscending(picks);
    forall c ensures c in Picked(picks) <==> c.index < |picks| && picks[c.index] == Some(c) {
      PickedMember(picks, c);
    }
  }

  /** Strictly ascending lists of the same columns are the same list. */
  lemma {:induction false} AscendingUnique(a: seq<Column>, b: seq<Column>)
    requires Ascending(a) && Ascending(b) && forall c :: c in a <==> c in b
    ensures a == b
  {
    assert a != [] ==> a[0] in b;
    assert b != [] ==> b[0] in a;
    if a != [] && b != [] {
      assert a[0] == b[0];
      forall c ensures c in a[1..] <==> c in b[1..] {
        assert c in a[1..] ==> c in a && c.index > a[0].index;
        assert c in b[1..] ==> c in b && c.index > b[0].index;
        assert c in a && c != a[0] ==> c in a[1..];
        assert c in b && c != b[0] ==> c in b[1..];
      }
      AscendingUnique(a[1..], b[1..]);
    }
  }

  // ---------------------------------------------------------------- describing and re-deriving

  function ProtectedAt(r: Resolved, fields: seq<Field>, i: nat): (c: Option<Column>)
    requires i < |fields|
    ensures c.Some? ==> c.value.index == i
  {
    var at := (fields[i].tableOid, fields[i].attnum);
    if at in r.columns then Some(Column(i, r.columns[at], RowKeyRefOf(r, fields[i].tableOid, fields))) else None
  }

  function ProtectedPicks(r: Resolved, fields: seq<Field>): (p: Picks)
    ensures |p| == |fields|
  {
    seq(|fields|, i requires 0 <= i < |fields| => ProtectedAt(r, fields, i))
  }

  /** The protected positions of a result set, in order. */
  function Protected(r: Resolved, fields: seq<Field>): (cs: seq<Column>) {
    Picked(ProtectedPicks(r, fields))
  }

  /** A position is protected exactly when its field is a column of the resolution, by table and attribute
      number; it is then read as that column, with the key the result set tells for the column's own
      table. */
  lemma {:induction false} ProtectedExact(r: Resolved, fields: seq<Field>, c: Column)
    ensures c in Protected(r, fields) <==>
              && c.index < |fields|
              && var f := fields[c.index];
                 && (f.tableOid, f.attnum) in r.columns && c.read == r.columns[(f.tableOid, f.attnum)]
                 && TellsRowKey(r, f.tableOid, fields, c.key)
  {
    PickedExact(ProtectedPicks(r, fields));
    if c.index < |fields| {
      RowKeyRefMeaning(r, fields[c.index].tableOid, fields, c.key);
    }
  }

  function DescribedBy(r: Resolved, fields: seq<Field>): (d: Described) {
    Described(r.generation, fields, Protected(r, fields))
  }

  predicate WellDescribed(d: Described) {
    Ascending(d.columns) && forall c | c in d.columns :: c.index < |d.fields|
  }

  function At(columns: seq<Column>, i: nat): (c: Option<Column>)
    ensures c.Some? ==> c.value in columns && c.value.index == i
    ensures c.None? ==> forall k | k in columns :: k.index != i
  {
    if columns == [] then None
    else if columns[0].index == i then Some(columns[0])
    else At(columns[1..], i)
  }

  /** What position `i` is protected by after re-derivation: the new resolution's column if it has
      one there, else what it was described with. */
  function MergedAt(d: Described, r: Resolved, i: nat): (c: Option<Column>)
    requires i < |d.fields|
    ensures c.Some? ==> c.value.index == i
  {
    match ProtectedAt(r, d.fields, i)
    case Some(c) => Some(c)
    case None => At(d.columns, i)
  }

  function MergedPicks(d: Described, r: Resolved): (p: Picks)
    ensures |p| == |d.fields|
  {
    seq(|d.fields|, i requires 0 <= i < |d.fields| => MergedAt(d, r, i))
  }

  function Refreshed(d: Described, r: Resolved): (d': Described) {
    Described(r.generation, d.fields, Picked(MergedPicks(d, r)))
  }

  function Inserted(cs: seq<Column>, c: Column): (r: seq<Column>) {
    if cs == [] || c.index < cs[0].index then [c] + cs else [cs[0]] + Inserted(cs[1..], c)
  }

  lemma {:induction false} InsertedExact(cs: seq<Column>, c: Column)
    requires Ascending(cs) && forall k | k in cs :: k.index != c.index
    ensures Ascending(Inserted(cs, c)) && forall k :: k in Inserted(cs, c) <==> k in cs || k == c
  {
    InsertedHas(cs, c);
    InsertedAscending(cs, c);
  }

  lemma {:induction false} AscendingCons(c: Column, cs: seq<Column>)
    requires Ascending(cs) && (cs != [] ==> c.index < cs[0].index)
    ensures Ascending([c] + cs)
  {
  }

  lemma {:induction false} InsertedAscending(cs: seq<Column>, c: Column)
    requires Ascending(cs) && forall k | k in cs :: k.index != c.index
    ensures Ascending(Inserted(cs, c)) && Inserted(cs, c) != []
    ensures Inserted(cs, c)[0] == if cs == [] || c.index < cs[0].index then c else cs[0]
  {
    if cs == [] || c.index < cs[0].index {
      AscendingCons(c, cs);
    } else {
      InsertedAscending(cs[1..], c);
      AscendingCons(cs[0], Inserted(cs[1..], c));
    }
  }

  lemma {:induction false} InsertedHas(cs: seq<Column>, c: Column)
    ensures forall k :: k in Inserted(cs, c) <==> k in cs || k == c
  {
    if cs != [] && c.index >= cs[0].index {
      InsertedHas(cs[1..], c);
      assert cs == [cs[0]] + cs[1..];
    }
  }

  predicate DistinctIndexes(cs: seq<Column>) {
    forall i, j | 0 <= i < j < |cs| :: cs[i].index != cs[j].index
  }

  method SortByIndex(cs: seq<Column>) returns (r: seq<Column>)
    requires DistinctIndexes(cs)
    ensures Ascending(r) && forall c :: c in r <==> c in cs
  {
    r := [];
    for i := 0 to |cs|
      invariant Ascending(r) && forall c :: c in r <==> c in cs[..i]
    {
      InsertedExact(r, cs[i]);
      r := Inserted(r, cs[i]);
      assert cs[..i + 1] == cs[..i] + [cs[i]];
    }
    assert cs[..|cs|] == cs;
  }

  /** `Described::rederived`: start from the new resolution, add what only the old description
      covered, and sort. */
  method Refresh(d: Described, r: Resolved) returns (d': Described)
    requires WellDescribed(d)
    ensures d' == Refreshed(d, r)
  {
    var protected := Protected(r, d.fields);
    PickedExact(ProtectedPicks(r, d.fields));
    var columns := protected;
    for k := 0 to |d.columns|
      invariant DistinctIndexes(columns)
      invariant forall c :: c in columns <==>
                  c in protected || (c in d.columns[..k] && forall p | p in protected :: p.index != c.index)
    {
      var c := d.columns[k];
      assert d.columns[..k + 1] == d.columns[..k] + [c];
      if !exists p | p in columns :: p.index == c.index {
        columns := columns + [c];
      }
    }
    assert d.columns[..|d.columns|] == d.columns;
    columns := SortByIndex(columns);
    MergedExact(d, r);
    AscendingUnique(columns, Refreshed(d, r).columns);
    d' := Described(r.generation, d.fields, columns);
  }

  /** Re-derivation keeps a well-formed description of the same result set: it holds exactly the new
      resolution's columns, and the old ones where the new resolution has none. */
  lemma {:induction false} MergedExact(d: Described, r: Resolved)
    requires WellDescribed(d)
    ensures WellDescribed(Refreshed(d, r))
    ensures forall c :: c in Refreshed(d, r).columns <==>
              c in Protected(r, d.fields)
              || (c in d.columns && forall p | p in Protected(r, d.fields) :: p.index != c.index)
  {
    PickedExact(MergedPicks(d, r));
    PickedExact(ProtectedPicks(r, d.fields));
    forall c ensures c in Refreshed(d, r).columns <==>
                c in Protected(r, d.fields)
                || (c in d.columns && forall p | p in Protected(r, d.fields) :: p.index != c.index)
    {
      if c.index < |d.fields| {
        assert MergedPicks(d, r)[c.index] == MergedAt(d, r, c.index);
        var p := ProtectedAt(r, d.fields, c.index);
        if p.Some? {
          assert p.value in Protected(r, d.fields);
        }
        if c in d.columns {
          OnlyAt(d.columns, c);
        }
      }
    }
  }

  lemma {:induction false} OnlyAt(columns: seq<Column>, c: Column)
    requires Ascending(columns) && c in columns
    ensures At(columns, c.index) == Some(c)
  {
    var k := At(columns, c.index).value;
    var i :| 0 <= i < |columns| && columns[i] == c;
    var j :| 0 <= j < |columns| && columns[j] == k;
  }

  lemma {:induction false} DescribedByWell(r: Resolved, fields: seq<Field>)
    ensures WellDescribed(DescribedBy(r, fields))
  {
    PickedExact(ProtectedPicks(r, fields));
  }

  /** Re-derivation only grows: every position described before, and every position the new
      resolution protects. */
  lemma {:induction false} RefreshedCovers(d: Described, r: Resolved)
    requires WellDescribed(d)
    ensures Covers(Refreshed(d, r), d)
    ensures forall c | c in Protected(r, d.fields) :: c in Refreshed(d, r).columns
  {
    MergedExact(d, r);
    forall c | c in d.columns ensures Protects(Refreshed(d, r), c.index) {
      if c !in Refreshed(d, r).columns {
        var p :| p in Protected(r, d.fields) && p.index == c.index;
        assert p in Refreshed(d, r).columns;
      } else {
        assert c in Refreshed(d, r).columns;
      }
    }
  }
}
