/** The policy: which columns are protected and how, and which tables bind values to a row. */
module Policy {
  import opened Bytes

  const DOT: byte := 46
  /** "public". */
  const DEFAULT_SCHEMA: bytes := [112, 117, 98, 108, 105, 99]
  const MAX_IDENTIFIER_BYTES: nat := 63

  datatype TransformKind = Encrypt | Fpe | Token | MaskOnly

  datatype ColumnPolicy = ColumnPolicy(
    table: bytes, column: bytes, transform: TransformKind, searchable: bool, detokenize: bool, mask: Option<nat>)

  datatype TablePolicy = TablePolicy(table: bytes, rowKey: bytes, strict: bool)

  datatype Policy = Policy(columns: seq<ColumnPolicy>, tables: seq<TablePolicy>)

  datatype Refusal =
    | DuplicateColumn(name: bytes)
    | SearchableNotEncrypted(name: bytes)
    | DetokenizeNotFpe(name: bytes)
    | NothingDone(name: bytes)
    | IdentifierTooLong(name: bytes)
    | DuplicateTable(name: bytes)
    | NothingToBind(name: bytes)
    | NothingBindable(name: bytes)
    | KeyTransformed(name: bytes)

  // ---------------------------------------------------------------- names

  function FirstDot(name: bytes): (i: nat)
    ensures i <= |name| && DOT !in name[..i]
    ensures i < |name| ==> name[i] == DOT
  {
    if name == [] || name[0] == DOT then 0 else 1 + FirstDot(name[1..])
  }

  function SplitTable(name: bytes): (r: (bytes, bytes))
    ensures DOT !in r.0
  {
    var i := FirstDot(name);
    if i < |name| then (name[..i], name[i + 1..]) else (DEFAULT_SCHEMA, name)
  }

  function TableName(schema: bytes, table: bytes): (name: bytes) {
    schema + [DOT] + table
  }

  function QualifiedName(c: ColumnPolicy): (name: bytes) {
    var (schema, table) := SplitTable(c.table);
    TableName(schema, table) + [DOT] + c.column
  }

  lemma {:induction false} FirstDotOf(schema: bytes, rest: bytes)
    requires DOT !in schema
    ensures FirstDot(schema + [DOT] + rest) == |schema|
  {
    if schema != [] {
      assert (schema + [DOT] + rest)[1..] == schema[1..] + [DOT] + rest;
      FirstDotOf(schema[1..], rest);
    }
  }

  /** A schema never holds a dot, so the joined name of a table determines both parts. */
  lemma {:induction false} TableNameInjective(s: bytes, t: bytes, u: bytes, v: bytes)
    requires DOT !in s && DOT !in u
    ensures TableName(s, t) == TableName(u, v) <==> s == u && t == v
  {
    if TableName(s, t) == TableName(u, v) {
      FirstDotOf(s, t);
      FirstDotOf(u, v);
      assert TableName(s, t)[..|s|] == s && TableName(u, v)[..|u|] == u;
      assert TableName(s, t)[|s| + 1..] == t && TableName(u, v)[|u| + 1..] == v;
    }
  }

  // ---------------------------------------------------------------- what is admissible

  predicate Fits(schema: bytes, table: bytes, column: bytes) {
    |schema| <= MAX_IDENTIFIER_BYTES && |table| <= MAX_IDENTIFIER_BYTES && |column| <= MAX_IDENTIFIER_BYTES
  }

  predicate ColumnFits(c: ColumnPolicy) {
    Fits(SplitTable(c.table).0, SplitTable(c.table).1, c.column)
  }

  predicate ColumnAdmissible(c: ColumnPolicy) {
    && (c.searchable ==> c.transform == Encrypt)
    && (!c.detokenize ==> c.transform == Fpe)
    && (c.transform == MaskOnly ==> c.mask.Some?)
    && ColumnFits(c)
  }

  predicate InTable(c: ColumnPolicy, t: TablePolicy) {
    SplitTable(c.table) == SplitTable(t.table)
  }

  /** A row key binds something, and can itself be read without it. */
  predicate TableAdmissible(t: TablePolicy, columns: seq<ColumnPolicy>) {
    && Fits(SplitTable(t.table).0, SplitTable(t.table).1, t.rowKey)
    && (exists i | 0 <= i < |columns| :: InTable(columns[i], t) && columns[i].transform == Encrypt)
    && (forall i | 0 <= i < |columns| && InTable(columns[i], t) && columns[i].column == t.rowKey ::
          columns[i].transform == MaskOnly)
  }

  predicate UniqueColumns(columns: seq<ColumnPolicy>) {
    forall i, j | 0 <= i < j < |columns| :: QualifiedName(columns[i]) != QualifiedName(columns[j])
  }

  predicate UniqueTables(tables: seq<TablePolicy>) {
    forall i, j | 0 <= i < j < |tables| :: SplitTable(tables[i].table) != SplitTable(tables[j].table)
  }

  predicate Admissible(p: Policy) {
    && UniqueColumns(p.columns)
    && (forall i | 0 <= i < |p.columns| :: ColumnAdmissible(p.columns[i]))
    && UniqueTables(p.tables)
    && (forall i | 0 <= i < |p.tables| :: TableAdmissible(p.tables[i], p.columns))
  }

  function NameOf(t: TablePolicy): (name: bytes) {
    TableName(SplitTable(t.table).0, SplitTable(t.table).1)
  }

  /** What a refusal claims of the policy. */
  predicate Blames(p: Policy, e: Refusal) {
    match e
    case DuplicateColumn(name) =>
      exists i, j | 0 <= i < j < |p.columns| :: QualifiedName(p.columns[i]) == name == QualifiedName(p.columns[j])
    case SearchableNotEncrypted(name) =>
      exists i | 0 <= i < |p.columns| ::
        QualifiedName(p.columns[i]) == name && p.columns[i].searchable && p.columns[i].transform != Encrypt
    case DetokenizeNotFpe(name) =>
      exists i | 0 <= i < |p.columns| ::
        QualifiedName(p.columns[i]) == name && !p.columns[i].detokenize && p.columns[i].transform != Fpe
    case NothingDone(name) =>
      exists i | 0 <= i < |p.columns| ::
        QualifiedName(p.columns[i]) == name && p.columns[i].transform == MaskOnly && p.columns[i].mask.None?
    case IdentifierTooLong(name) =>
      || (exists i | 0 <= i < |p.columns| :: QualifiedName(p.columns[i]) == name && !ColumnFits(p.columns[i]))
      || (exists i | 0 <= i < |p.tables| ::
            && NameOf(p.tables[i]) == name
            && !Fits(SplitTable(p.tables[i].table).0, SplitTable(p.tables[i].table).1, p.tables[i].rowKey))
    case DuplicateTable(name) =>
      exists i, j | 0 <= i < j < |p.tables| :: NameOf(p.tables[i]) == name == NameOf(p.tables[j])
    case NothingToBind(name) =>
      exists i | 0 <= i < |p.tables| ::
        && NameOf(p.tables[i]) == name
        && (forall k | 0 <= k < |p.columns| :: !InTable(p.columns[k], p.tables[i]))
    case NothingBindable(name) =>
      exists i | 0 <= i < |p.tables| ::
        && NameOf(p.tables[i]) == name
        && (exists k | 0 <= k < |p.columns| :: InTable(p.columns[k], p.tables[i]))
        && (forall k | 0 <= k < |p.columns| && InTable(p.columns[k], p.tables[i]) ::
              p.columns[k].transform != Encrypt)
    case KeyTransformed(name) =>
      exists i, k | 0 <= i < |p.tables| && 0 <= k < |p.columns| ::
        && NameOf(p.tables[i]) == name && InTable(p.columns[k], p.tables[i])
        && p.columns[k].column == p.tables[i].rowKey && p.columns[k].transform != MaskOnly
  }

  // ---------------------------------------------------------------- validation

  function ColumnRefusal(c: ColumnPolicy): (r: Option<Refusal>)
    ensures r.None? <==> ColumnAdmissible(c)
  {
    var name := QualifiedName(c);
    if c.searchable && c.transform != Encrypt then Some(SearchableNotEncrypted(name))
    else if !c.detokenize && c.transform != Fpe then Some(DetokenizeNotFpe(name))
    else if c.transform == MaskOnly && c.mask.None? then Some(NothingDone(name))
    else if !ColumnFits(c) then Some(IdentifierTooLong(name))
    else None
  }

  function TableRefusal(t: TablePolicy, columns: seq<ColumnPolicy>): (r: Option<Refusal>) {
    var (schema, table) := SplitTable(t.table);
    var name := TableName(schema, table);
    if !Fits(schema, table, t.rowKey) then Some(IdentifierTooLong(name))
    else if forall i | 0 <= i < |columns| :: !InTable(columns[i], t) then Some(NothingToBind(name))
    else if !exists i | 0 <= i < |columns| :: InTable(columns[i], t) && columns[i].transform == Encrypt then
      Some(NothingBindable(name))
    else if exists i | 0 <= i < |columns| ::
        InTable(columns[i], t) && columns[i].column == t.rowKey && columns[i].transform != MaskOnly then
      Some(KeyTransformed(name))
    else None
  }

  lemma {:induction false} ColumnBlamed(p: Policy, i: nat)
    requires i < |p.columns| && ColumnRefusal(p.columns[i]).Some?
    ensures Blames(p, ColumnRefusal(p.columns[i]).value)
  {
    assert p.columns[i] == p.columns[i];
  }

  lemma {:induction false} TableBlamed(p: Policy, i: nat)
    requires i < |p.tables| && TableRefusal(p.tables[i], p.columns).Some?
    ensures Blames(p, TableRefusal(p.tables[i], p.columns).value)
  {
    assert NameOf(p.tables[i]) == NameOf(p.tables[i]);
  }

  predicate Distinct(names: seq<bytes>) {
    forall i, j | 0 <= i < j < |names| :: names[i] != names[j]
  }

  /** `seen` holds the first `i` names, which are all different. */
  predicate Tracks(seen: set<bytes>, names: seq<bytes>, i: nat)
    requires i <= |names|
  {
    && Distinct(names[..i])
    && (forall k | 0 <= k < i :: names[k] in seen)
    && (forall n | n in seen :: n in names[..i])
  }

  lemma {:induction false} TracksNext(seen: set<bytes>, names: seq<bytes>, i: nat)
    requires i < |names| && Tracks(seen, names, i)
    ensures names[i] in seen <==> names[i] in names[..i]
    ensures names[i] in seen ==> !Distinct(names)
    ensures names[i] !in seen ==> Tracks(seen + {names[i]}, names, i + 1)
  {
    assert names[..i + 1] == names[..i] + [names[i]];
  }

  lemma {:induction false} TracksAll(seen: set<bytes>, names: seq<bytes>)
    requires Tracks(seen, names, |names|)
    ensures Distinct(names)
  {
    assert names[..|names|] == names;
  }

  function ColumnNames(columns: seq<ColumnPolicy>): (names: seq<bytes>) {
    seq(|columns|, i requires 0 <= i < |columns| => QualifiedName(columns[i]))
  }

  function TableNames(tables: seq<TablePolicy>): (names: seq<bytes>) {
    seq(|tables|, i requires 0 <= i < |tables| => NameOf(tables[i]))
  }

  /** The column at `i` is inadmissible by itself or repeats an earlier one. */
  predicate ColumnFault(p: Policy, i: nat, e: Refusal) {
    && i < |p.columns|
    && (|| ColumnRefusal(p.columns[i]) == Some(e)
        || (e == DuplicateColumn(QualifiedName(p.columns[i])) && QualifiedName(p.columns[i]) in ColumnNames(p.columns)[..i]))
  }

  lemma {:induction false} ColumnFaultBlamed(p: Policy, i: nat, e: Refusal)
    requires ColumnFault(p, i, e)
    ensures Blames(p, e) && !(UniqueColumns(p.columns) && ColumnAdmissible(p.columns[i]))
  {
    if ColumnRefusal(p.columns[i]) == Some(e) {
      ColumnBlamed(p, i);
    } else {
      var k :| 0 <= k < i && ColumnNames(p.columns)[k] == e.name;
      assert QualifiedName(p.columns[k]) == e.name == QualifiedName(p.columns[i]);
    }
  }

  /** The first column at fault. */
  method FindColumnFault(p: Policy) returns (r: Option<Refusal>, ghost at: nat)
    ensures r.Some? ==> ColumnFault(p, at, r.value)
    ensures r.None? ==> Distinct(ColumnNames(p.columns))
    ensures r.None? ==> forall i | 0 <= i < |p.columns| :: ColumnRefusal(p.columns[i]).None?
  {
    at := 0;
    ghost var names := ColumnNames(p.columns);
    var seen: set<bytes> := {};
    for i := 0 to |p.columns|
      invariant Tracks(seen, names, i)
      invariant forall k | 0 <= k < i :: ColumnRefusal(p.columns[k]).None?
    {
      at := i;
      var name := QualifiedName(p.columns[i]);
      TracksNext(seen, names, i);
      if name in seen {
        return Some(DuplicateColumn(name)), at;
      }
      seen := seen + {name};
      var bad := ColumnRefusal(p.columns[i]);
      if bad.Some? {
        return bad, at;
      }
    }
    TracksAll(seen, names);
    r := None;
  }

  method ValidateColumns(p: Policy) returns (r: Option<Refusal>)
    ensures r.None? <==> UniqueColumns(p.columns) && forall i | 0 <= i < |p.columns| :: ColumnAdmissible(p.columns[i])
    ensures r.Some? ==> Blames(p, r.value)
  {
    ghost var at;
    r, at := FindColumnFault(p);
    if r.Some? {
      ColumnFaultBlamed(p, at, r.value);
    } else {
      DistinctColumns(p.columns);
    }
  }

  lemma {:induction false} DistinctColumns(columns: seq<ColumnPolicy>)
    ensures Distinct(ColumnNames(columns)) <==> UniqueColumns(columns)
  {
    var names := ColumnNames(columns);
    if Distinct(names) {
      forall i, j | 0 <= i < j < |columns| ensures QualifiedName(columns[i]) != QualifiedName(columns[j]) {
        assert names[i] != names[j];
      }
    }
  }

  lemma {:induction false} DistinctTables(tables: seq<TablePolicy>)
    ensures Distinct(TableNames(tables)) <==> UniqueTables(tables)
  {
    var names := TableNames(tables);
    forall i, j | 0 <= i < j < |tables|
      ensures names[i] == names[j] <==> SplitTable(tables[i].table) == SplitTable(tables[j].table)
    {
      SameNameSameTable(tables[i], tables[j]);
    }
  }

  /** The table at `i` is inadmissible by itself or repeats an earlier one. */
  predicate TableFault(p: Policy, i: nat, e: Refusal) {
    && i < |p.tables|
    && (|| TableRefusal(p.tables[i], p.columns) == Some(e)
        || (e == DuplicateTable(NameOf(p.tables[i])) && NameOf(p.tables[i]) in TableNames(p.tables)[..i]))
  }

  lemma {:induction false} TableRefusalExact(t: TablePolicy, columns: seq<ColumnPolicy>)
    ensures TableRefusal(t, columns).None? <==> TableAdmissible(t, columns)
  {
  }

  lemma {:induction false} FaultBlamed(p: Policy, i: nat, e: Refusal)
    requires TableFault(p, i, e)
    ensures Blames(p, e) && !(UniqueTables(p.tables) && TableAdmissible(p.tables[i], p.columns))
  {
    if TableRefusal(p.tables[i], p.columns) == Some(e) {
      TableBlamed(p, i);
      TableRefusalExact(p.tables[i], p.columns);
    } else {
      var k :| 0 <= k < i && TableNames(p.tables)[k] == e.name;
      SameNameSameTable(p.tables[k], p.tables[i]);
    }
  }

  /** The names of the first `n` tables. */
  function SeenNames(tables: seq<TablePolicy>, n: nat): (names: set<bytes>)
    requires n <= |tables|
  {
    if n == 0 then {} else SeenNames(tables, n - 1) + {NameOf(tables[n - 1])}
  }

  lemma {:induction false} SeenNamesHas(tables: seq<TablePolicy>, n: nat, name: bytes)
    requires n <= |tables|
    ensures name in SeenNames(tables, n) <==> name in TableNames(tables)[..n]
  {
    if n > 0 {
      var names := TableNames(tables);
      SeenNamesHas(tables, n - 1, name);
      assert names[..n] == names[..n - 1] + [names[n - 1]];
    }
  }

  /** The table at `i` is admissible by itself and repeats no earlier one. */
  predicate Passes(p: Policy, i: nat)
    requires i < |p.tables|
  {
    NameOf(p.tables[i]) !in SeenNames(p.tables, i) && TableRefusal(p.tables[i], p.columns).None?
  }

  lemma {:induction false} RepeatedFault(p: Policy, i: nat)
    requires i < |p.tables| && NameOf(p.tables[i]) in SeenNames(p.tables, i)
    ensures TableFault(p, i, DuplicateTable(NameOf(p.tables[i])))
  {
    SeenNamesHas(p.tables, i, NameOf(p.tables[i]));
  }

  lemma {:induction false} AllPass(p: Policy)
    requires forall i | 0 <= i < |p.tables| :: Passes(p, i)
    ensures Distinct(TableNames(p.tables))
  {
    var names := TableNames(p.tables);
    forall i, j | 0 <= i < j < |names| ensures names[i] != names[j] {
      assert Passes(p, j);
      SeenNamesHas(p.tables, j, names[j]);
      assert names[..j][i] == names[i];
    }
  }

  method FindTableFault(p: Policy) returns (r: Option<Refusal>, ghost at: nat)
    ensures r.Some? ==> TableFault(p, at, r.value)
    ensures r.None? ==> forall i | 0 <= i < |p.tables| :: Passes(p, i)
  {
    at := 0;
    var seen: set<bytes> := {};
    for i := 0 to |p.tables|
      invariant seen == SeenNames(p.tables, i)
      invariant forall k | 0 <= k < i :: Passes(p, k)
    {
      at := i;
      var name := NameOf(p.tables[i]);
      if name in seen {
        RepeatedFault(p, i);
        return Some(DuplicateTable(name)), at;
      }
      seen := seen + {name};
      var bad := TableRefusal(p.tables[i], p.columns);
      if bad.Some? {
        return bad, at;
      }
      assert Passes(p, i);
    }
    r := None;
  }

  method ValidateRowKeys(p: Policy) returns (r: Option<Refusal>)
    ensures r.None? <==>
              UniqueTables(p.tables) && forall i | 0 <= i < |p.tables| :: TableAdmissible(p.tables[i], p.columns)
    ensures r.Some? ==> Blames(p, r.value)
  {
    ghost var at;
    r, at := FindTableFault(p);
    if r.Some? {
      FaultBlamed(p, at, r.value);
    } else {
      AllPass(p);
      DistinctTables(p.tables);
      forall i | 0 <= i < |p.tables| ensures TableAdmissible(p.tables[i], p.columns) {
        assert Passes(p, i);
        TableRefusalExact(p.tables[i], p.columns);
      }
    }
  }

  lemma {:induction false} SameNameSameTable(t: TablePolicy, u: TablePolicy)
    ensures NameOf(t) == NameOf(u) <==> SplitTable(t.table) == SplitTable(u.table)
  {
    var a, b := SplitTable(t.table), SplitTable(u.table);
    TableNameInjective(a.0, a.1, b.0, b.1);
  }

  /** Validation accepts exactly the admissible policies, and what it refuses a policy for is true of
      that policy. */
  method Validate(p: Policy) returns (r: Option<Refusal>)
    ensures r.None? <==> Admissible(p)
    ensures r.Some? ==> Blames(p, r.value)
  {
    r := ValidateColumns(p);
    if r.None? {
      r := ValidateRowKeys(p);
    }
  }
}
