/** Sealing and opening by column name: the policy's columns wired to their transforms. */
module Protector {
  import opened Bytes
  import opened Envelope
  import opened Transforms
  import opened Rules = Policy
  import Hex

  datatype Transform =
    | Enveloped(column: Encrypting)
    | Pseudonym(keyName: bytes, detokenize: bool)
    | Tokenised(keyName: bytes)

  datatype Column = Column(transform: Option<Transform>, readable: bool, rowBound: bool, mask: Option<nat>)

  type Columns = map<bytes, Column>

  // ---------------------------------------------------------------- wiring

  /** The first declaration of a table decides. */
  function Declared(tables: seq<TablePolicy>, name: (bytes, bytes)): (t: Option<TablePolicy>) {
    if tables == [] then None
    else if SplitTable(tables[0].table) == name then Some(tables[0])
    else Declared(tables[1..], name)
  }

  predicate BindsRow(p: Policy, c: ColumnPolicy) {
    exists i | 0 <= i < |p.tables| :: InTable(c, p.tables[i])
  }

  function Build(p: Policy, c: ColumnPolicy): (r: Column) {
    var name := QualifiedName(c);
    var declared := Declared(p.tables, SplitTable(c.table));
    var strict := declared.Some? && declared.value.strict;
    var (transform, readable) := match c.transform
      case Encrypt =>
        (Some(Enveloped(Encrypting(name, if c.searchable then Some(name) else None, strict))), true)
      case Fpe => (Some(Pseudonym(name, c.detokenize)), c.detokenize)
      case Token => (Some(Tokenised(name)), false)
      case MaskOnly => (None, false);
    Column(transform, readable, BindsRow(p, c), c.mask)
  }

  /** The columns by qualified name; a repeated name would keep its last entry. */
  function Wired(p: Policy, n: nat): (columns: Columns)
    requires n <= |p.columns|
  {
    if n == 0 then map[]
    else Wired(p, n - 1)[QualifiedName(p.columns[n - 1]) := Build(p, p.columns[n - 1])]
  }

  function AllWired(p: Policy): (columns: Columns) {
    Wired(p, |p.columns|)
  }

  method New(p: Policy) returns (r: Result<Columns, Refusal>)
    ensures r.Ok? <==> Admissible(p)
    ensures r.Ok? ==> r.value == AllWired(p)
    ensures r.Err? ==> Blames(p, r.error)
  {
    var refusal := Validate(p);
    if refusal.Some? {
      return Err(refusal.value);
    }
    var columns: Columns := map[];
    for n := 0 to |p.columns|
      invariant columns == Wired(p, n)
    {
      columns := columns[QualifiedName(p.columns[n]) := Build(p, p.columns[n])];
    }
    r := Ok(columns);
  }

  lemma {:induction false} WiredAt(p: Policy, n: nat, i: nat)
    requires i < n <= |p.columns| && UniqueColumns(p.columns)
    ensures QualifiedName(p.columns[i]) in Wired(p, n)
    ensures Wired(p, n)[QualifiedName(p.columns[i])] == Build(p, p.columns[i])
  {
    if i < n - 1 {
      WiredAt(p, n - 1, i);
    }
  }

  // ---------------------------------------------------------------- lookup

  function Dots(name: bytes): (n: nat) {
    if name == [] then 0 else Dots(name[1..]) + (if name[0] == DOT then 1 else 0)
  }

  /** `schema.table.column`, or `table.column` with the default schema. */
  function KeyOf(name: bytes): (key: bytes) {
    if Dots(name) == 1 && FirstDot(name) < |name| then
      var i := FirstDot(name);
      var (schema, table) := SplitTable(name[..i]);
      TableName(schema, table) + [DOT] + name[i + 1..]
    else name
  }

  function Lookup(columns: Columns, name: bytes): (c: Option<Column>) {
    if KeyOf(name) in columns then Some(columns[KeyOf(name)]) else None
  }

  lemma {:induction false} DotsConcat(a: bytes, b: bytes)
    ensures Dots(a + b) == Dots(a) + Dots(b)
  {
    if a == [] {
      assert a + b == b;
    } else {
      assert (a + b)[1..] == a[1..] + b;
      DotsConcat(a[1..], b);
    }
  }

  lemma {:induction false} NoDots(a: bytes)
    requires DOT !in a
    ensures Dots(a) == 0 && FirstDot(a) == |a|
  {
    if a != [] {
      NoDots(a[1..]);
    }
  }

  lemma {:induction false} QualifiedDots(c: ColumnPolicy)
    ensures Dots(QualifiedName(c)) >= 2
  {
    var parts := SplitTable(c.table);
    DotsConcat(parts.0, [DOT]);
    DotsConcat(parts.0 + [DOT], parts.1);
    DotsConcat(TableName(parts.0, parts.1), [DOT]);
    DotsConcat(TableName(parts.0, parts.1) + [DOT], c.column);
  }

  /** Every column of the policy is found under its full name; one in the default schema also under
      its short name. */
  lemma {:induction false} LookupFinds(p: Policy, i: nat)
    requires UniqueColumns(p.columns) && i < |p.columns|
    ensures Lookup(AllWired(p), QualifiedName(p.columns[i])) == Some(Build(p, p.columns[i]))
    ensures var c := p.columns[i];
            SplitTable(c.table).0 == DEFAULT_SCHEMA && DOT !in SplitTable(c.table).1 && DOT !in c.column ==>
              Lookup(AllWired(p), SplitTable(c.table).1 + [DOT] + c.column) == Some(Build(p, c))
  {
    var c := p.columns[i];
    var parts := SplitTable(c.table);
    WiredAt(p, |p.columns|, i);
    QualifiedDots(c);
    if parts.0 == DEFAULT_SCHEMA && DOT !in parts.1 && DOT !in c.column {
      var name := parts.1 + [DOT] + c.column;
      NoDots(parts.1);
      NoDots(c.column);
      DotsConcat(parts.1, [DOT]);
      DotsConcat(parts.1 + [DOT], c.column);
      FirstDotOf(parts.1, c.column);
      assert name[..|parts.1|] == parts.1 && name[|parts.1| + 1..] == c.column;
    }
  }

  lemma {:induction false} WiredOnly(p: Policy, n: nat, name: bytes)
    requires n <= |p.columns|
    ensures name in Wired(p, n) <==> exists i | 0 <= i < n :: QualifiedName(p.columns[i]) == name
  {
    if n > 0 {
      WiredOnly(p, n - 1, name);
    }
  }

  lemma {:induction false} OneDot(name: bytes)
    requires Dots(name) == 1
    ensures FirstDot(name) < |name| && KeyOf(name) == DEFAULT_SCHEMA + [DOT] + name
  {
    if FirstDot(name) == |name| {
      assert name[..|name|] == name;
      NoDots(name);
    }
    var i := FirstDot(name);
    NoDots(name[..i]);
    assert name == name[..i] + [DOT] + name[i + 1..];
    assert DEFAULT_SCHEMA + [DOT] + name[..i] + [DOT] + name[i + 1..] == DEFAULT_SCHEMA + [DOT] + name;
  }

  /** The name is the column's own, or lacks only the default schema. */
  predicate Denotes(name: bytes, c: ColumnPolicy) {
    name == QualifiedName(c) || (Dots(name) == 1 && DEFAULT_SCHEMA + [DOT] + name == QualifiedName(c))
  }

  /** A name is known exactly when it denotes a column of the policy. */
  lemma {:induction false} KnownIff(p: Policy, name: bytes)
    ensures Lookup(AllWired(p), name).Some? <==> exists i | 0 <= i < |p.columns| :: Denotes(name, p.columns[i])
  {
    WiredOnly(p, |p.columns|, KeyOf(name));
    if Dots(name) == 1 {
      OneDot(name);
    }
    forall i | 0 <= i < |p.columns|
      ensures Denotes(name, p.columns[i]) <==> QualifiedName(p.columns[i]) == KeyOf(name)
    {
      QualifiedDots(p.columns[i]);
    }
  }

  // ---------------------------------------------------------------- seal and open

  /** Everything outside the policy: what has been sealed, and the keys the source resolves. */
  datatype World = World(
    ledger: Ledger, keys: Keys, indexKeys: Keys, mac: Mac, ff1: bytes -> Result<Ff1, Error>)

  ghost predicate Ideal(w: World) {
    && Genuine(w.ledger)
    && (forall name :: w.ff1(name).Ok? ==> IsPermutation(w.ff1(name).value))
  }

  function CheckRow(c: Column, name: bytes, row: Option<bytes>): (e: Option<Error>)
    ensures e.None? <==> c.rowBound == row.Some?
  {
    if c.rowBound && row.None? then Some(RowKeyRequired(name))
    else if !c.rowBound && row.Some? then Some(RowKeyNotDeclared(name))
    else None
  }

  ghost function SealWith(t: Transform, w: World, sealing: Result<Sealing, Error>, plaintext: bytes)
    : (r: Result<bytes, Error>)
    requires Ideal(w)
  {
    match t
    case Enveloped(c) => SealValue(c, w.mac, w.indexKeys, sealing, plaintext)
    case Pseudonym(key, _) => FpeSeal(w.ff1(key), plaintext)
    case Tokenised(key) =>
      if key !in w.indexKeys then Err(UnknownKey(key)) else Ok(Hex.Encode(w.mac(w.indexKeys[key], plaintext)))
  }

  ghost function OpenWith(t: Transform, w: World, stored: bytes, row: Option<bytes>)
    : (r: Result<Option<bytes>, Error>)
    requires Ideal(w)
  {
    match t
    case Enveloped(c) => OpenValue(c, w.ledger, w.keys, stored, row)
    case Pseudonym(key, detokenize) => FpeOpen(w.ff1(key), detokenize, stored)
    case Tokenised(_) => Ok(None)
  }

  /** `sealing` is what the cipher cache answers, when the column's transform asks it. */
  ghost function Seal(columns: Columns, w: World, name: bytes, plaintext: bytes, row: Option<bytes>,
                      sealing: Result<Sealing, Error>): (r: Result<bytes, Error>)
    requires Ideal(w)
  {
    match Lookup(columns, name)
    case None => Err(UnknownColumn(name))
    case Some(c) =>
      match CheckRow(c, name, row)
      case Some(e) => Err(e)
      case None =>
        match c.transform
        case None => Ok(plaintext)
        case Some(t) => SealWith(t, w, sealing, plaintext)
  }

  datatype Opened = Value(value: bytes) | Unprotected(stored: bytes)

  ghost function OpenIn(c: Column, w: World, name: bytes, stored: bytes, row: Option<bytes>)
    : (r: Result<Opened, Error>)
    requires Ideal(w)
  {
    match CheckRow(c, name, row)
    case Some(e) => Err(e)
    case None =>
      match c.transform
      case None => Ok(Unprotected(stored))
      case Some(t) =>
        if !c.readable then Err(NotReadable(name))
        else
          match OpenWith(t, w, stored, row)
          case Err(e) => Err(e)
          case Ok(Some(v)) => Ok(Value(v))
          case Ok(None) => Ok(Unprotected(stored))
  }

  ghost function Open(columns: Columns, w: World, name: bytes, stored: bytes, row: Option<bytes>)
    : (r: Result<Opened, Error>)
    requires Ideal(w)
  {
    match Lookup(columns, name)
    case None => Err(UnknownColumn(name))
    case Some(c) => OpenIn(c, w, name, stored, row)
  }

  function SearchTerm(columns: Columns, w: World, name: bytes, plaintext: bytes): (r: Result<Option<bytes>, Error>) {
    match Lookup(columns, name)
    case None => Err(UnknownColumn(name))
    case Some(c) =>
      match c.transform
      case Some(Enveloped(e)) => SearchIndex(e, w.mac, w.indexKeys, plaintext)
      case _ => Ok(None)
  }

  /** The sealing the cache made for column `c` and this row, under a key the source still knows. */
  predicate Made(w: World, c: ColumnPolicy, s: Sealing, row: Option<bytes>, plaintext: bytes) {
    && s in w.ledger && s.plaintext == plaintext
    && s.version == Written(Binding(QualifiedName(c), row, false))
    && s.keyId in w.keys && w.keys[s.keyId] == s.key
  }

  // ---------------------------------------------------------------- what is stored

  /** Every request about a name that denotes no column of the policy is refused by that name. */
  lemma {:induction false} UnknownRefused(
    p: Policy, w: World, name: bytes, value: bytes, row: Option<bytes>, sealing: Result<Sealing, Error>)
    requires Ideal(w) && forall i | 0 <= i < |p.columns| :: !Denotes(name, p.columns[i])
    ensures Seal(AllWired(p), w, name, value, row, sealing) == Err(UnknownColumn(name))
    ensures Open(AllWired(p), w, name, value, row) == Err(UnknownColumn(name))
    ensures SearchTerm(AllWired(p), w, name, value) == Err(UnknownColumn(name))
  {
    KnownIff(p, name);
  }

  /** 64 lower-case hexadecimal digits that decode to `digest`. */
  predicate IsToken(token: bytes, digest: bytes) {
    && |token| == 64 && (forall i | 0 <= i < 64 :: 48 <= token[i] <= 57 || 97 <= token[i] <= 102)
    && Hex.Decode(token) == Some(digest)
  }

  /** What each kind of column stores: an envelope, behind the keyed hash of the plaintext if the column is
      searchable; the value with its digits encrypted; the token of the keyed hash; the value itself.
      Every key is the one named like the column, and what cannot be stored is refused by that. */
  predicate StoredAs(c: ColumnPolicy, w: World, sealing: Result<Sealing, Error>, plaintext: bytes,
                     r: Result<bytes, Error>) {
    var name := QualifiedName(c);
    match c.transform
    case Encrypt =>
      if sealing.Err? then r == Err(sealing.error)
      else if !c.searchable then r == Ok(Stored(sealing.value))
      else if name !in w.indexKeys then r == Err(UnknownKey(name))
      else
        && r.Ok? && |r.value| >= BLIND_INDEX_LEN && r.value[BLIND_INDEX_LEN..] == Stored(sealing.value)
        && r.value[..BLIND_INDEX_LEN] == w.mac(w.indexKeys[name], plaintext)
    case Fpe =>
      if |DigitsOf(plaintext)| < MIN_FPE_DIGITS then r == Err(FpeDomain)
      else if w.ff1(name).Err? then r == Err(w.ff1(name).error)
      else
        && r.Ok? && SameShape(plaintext, r.value)
        && DigitsOf(r.value) == w.ff1(name).value.encrypt(DigitsOf(plaintext))
    case Token =>
      if name !in w.indexKeys then r == Err(UnknownKey(name))
      else r.Ok? && IsToken(r.value, w.mac(w.indexKeys[name], plaintext))
    case MaskOnly => r == Ok(plaintext)
  }

  lemma {:induction false} PrependedParts(index: bytes, enveloped: bytes)
    requires |index| == BLIND_INDEX_LEN
    ensures var stored := Prepend(index, enveloped);
            stored[..BLIND_INDEX_LEN] == index && stored[BLIND_INDEX_LEN..] == enveloped
  {
  }

  lemma {:induction false} TransformStores(
    p: Policy, c: ColumnPolicy, w: World, plaintext: bytes, sealing: Result<Sealing, Error>)
    requires Ideal(w)
    ensures match Build(p, c).transform
            case Some(t) => StoredAs(c, w, sealing, plaintext, SealWith(t, w, sealing, plaintext))
            case None => StoredAs(c, w, sealing, plaintext, Ok(plaintext))
  {
    var name := QualifiedName(c);
    match c.transform
    case Encrypt =>
      if sealing.Ok? && name in w.indexKeys {
        PrependedParts(w.mac(w.indexKeys[name], plaintext), Stored(sealing.value));
      }
    case Fpe => TransformsDigits(w.ff1(name), plaintext, false);
    case Token =>
      if name in w.indexKeys {
        EncodedIsToken(w.mac(w.indexKeys[name], plaintext));
      }
    case MaskOnly =>
  }

  /** Sealing stores what the kind of the column says, with a row key exactly for row-bound columns. */
  lemma {:induction false} ColumnStores(
    p: Policy, w: World, i: nat, row: Option<bytes>, plaintext: bytes, sealing: Result<Sealing, Error>)
    requires Admissible(p) && Ideal(w) && i < |p.columns|
    ensures var c := p.columns[i];
            var r := Seal(AllWired(p), w, QualifiedName(c), plaintext, row, sealing);
            if BindsRow(p, c) && row.None? then r == Err(RowKeyRequired(QualifiedName(c)))
            else if !BindsRow(p, c) && row.Some? then r == Err(RowKeyNotDeclared(QualifiedName(c)))
            else StoredAs(c, w, sealing, plaintext, r)
  {
    LookupFinds(p, i);
    TransformStores(p, p.columns[i], w, plaintext, sealing);
  }

  lemma {:induction false} EncodedIsToken(digest: bytes)
    requires |digest| == BLIND_INDEX_LEN
    ensures IsToken(Hex.Encode(digest), digest)
  {
    Hex.EncodedLower(digest);
    Hex.DecodeEncode(digest);
  }

  /** Two values of a token column are stored alike exactly when their keyed hashes are the same. */
  lemma {:induction false} TokensAgreeIff(
    p: Policy, w: World, i: nat, row: Option<bytes>, other: Option<bytes>, a: bytes, b: bytes,
    sealing: Result<Sealing, Error>)
    requires Admissible(p) && Ideal(w) && i < |p.columns| && p.columns[i].transform == Token
    requires Seal(AllWired(p), w, QualifiedName(p.columns[i]), a, row, sealing).Ok?
    requires Seal(AllWired(p), w, QualifiedName(p.columns[i]), b, other, sealing).Ok?
    ensures var name := QualifiedName(p.columns[i]);
            && name in w.indexKeys
            && (Seal(AllWired(p), w, name, a, row, sealing) == Seal(AllWired(p), w, name, b, other, sealing)
                <==> w.mac(w.indexKeys[name], a) == w.mac(w.indexKeys[name], b))
  {
    LookupFinds(p, i);
    ColumnStores(p, w, i, row, a, sealing);
    ColumnStores(p, w, i, other, b, sealing);
  }

  // ---------------------------------------------------------------- round trip

  /** What is sealed in a column opens in it: an envelope unless it is bare and its ciphertext is
      itself shaped like one, a reversible pseudonym always, and a mask-only value as it was. What
      cannot be reversed says so. */
  lemma {:induction false} SealedOpensAgain(
    p: Policy, w: World, i: nat, row: Option<bytes>, plaintext: bytes, s: Sealing)
    requires Admissible(p) && Ideal(w) && i < |p.columns|
    requires Made(w, p.columns[i], s, row, plaintext)
    requires Seal(AllWired(p), w, QualifiedName(p.columns[i]), plaintext, row, Ok(s)).Ok?
    ensures var c := p.columns[i];
            var name := QualifiedName(c);
            var stored := Seal(AllWired(p), w, name, plaintext, row, Ok(s)).value;
            match c.transform
            case Encrypt =>
              Open(AllWired(p), w, name, stored, row) == Ok(Value(plaintext))
              <==> c.searchable || !IsEnveloped(s.ciphertext)
            case Fpe =>
              Open(AllWired(p), w, name, stored, row)
              == if c.detokenize then Ok(Value(plaintext)) else Err(NotReadable(name))
            case Token => Open(AllWired(p), w, name, stored, row) == Err(NotReadable(name))
            case MaskOnly => Open(AllWired(p), w, name, stored, row) == Ok(Unprotected(plaintext))
  {
    var c := p.columns[i];
    LookupFinds(p, i);
    match c.transform
    case Encrypt =>
      var e := Build(p, c).transform.value.column;
      SealThenOpen(e, e, w.mac, w.indexKeys, w.ledger, w.keys, s, row, plaintext);
    case Fpe => FpeIsABijectionOfShapes(w.ff1(QualifiedName(c)).value, plaintext);
    case _ =>
  }

  /** Only searchable columns have a search term: the keyed hash under the key named like the column. */
  lemma {:induction false} SearchTermIs(p: Policy, w: World, i: nat, plaintext: bytes)
    requires Admissible(p) && i < |p.columns|
    ensures var name := QualifiedName(p.columns[i]);
            SearchTerm(AllWired(p), w, name, plaintext)
            == if !p.columns[i].searchable then Ok(None)
               else if name !in w.indexKeys then Err(UnknownKey(name))
               else Ok(Some(w.mac(w.indexKeys[name], plaintext)))
  {
    LookupFinds(p, i);
    assert ColumnAdmissible(p.columns[i]);
  }

  /** The search term of a plaintext is what a searchable column stores it under. */
  lemma {:induction false} SearchTermFinds(
    p: Policy, w: World, i: nat, row: Option<bytes>, plaintext: bytes, s: Sealing)
    requires Admissible(p) && Ideal(w) && i < |p.columns| && p.columns[i].searchable
    requires Seal(AllWired(p), w, QualifiedName(p.columns[i]), plaintext, row, Ok(s)).Ok?
    ensures var name := QualifiedName(p.columns[i]);
            var stored := Seal(AllWired(p), w, name, plaintext, row, Ok(s)).value;
            && |stored| >= BLIND_INDEX_LEN
            && SearchTerm(AllWired(p), w, name, plaintext) == Ok(Some(stored[..BLIND_INDEX_LEN]))
  {
    LookupFinds(p, i);
    var name := QualifiedName(p.columns[i]);
    var stored := Seal(AllWired(p), w, name, plaintext, row, Ok(s)).value;
    FoundByIndex(Build(p, p.columns[i]).transform.value.column, w.mac, w.indexKeys, s, stored, plaintext, plaintext);
  }

  // ---------------------------------------------------------------- what is read

  /** The column's table has closed its migration window. */
  predicate Strict(p: Policy, c: ColumnPolicy) {
    exists i | 0 <= i < |p.tables| :: InTable(c, p.tables[i]) && p.tables[i].strict
  }

  /** What each kind of column reads: the envelope, behind an index or bare, under the binding of column and
      row; the value with its digits decrypted, if the column may; and what is of no stored form, or was
      never protected, as it is. */
  ghost predicate ReadAs(
    p: Policy, c: ColumnPolicy, w: World, stored: bytes, row: Option<bytes>, r: Result<Opened, Error>)
    requires Ideal(w)
  {
    var name := QualifiedName(c);
    match c.transform
    case Encrypt =>
      var behind := |stored| >= BLIND_INDEX_LEN && IsEnveloped(stored[BLIND_INDEX_LEN..]);
      if !behind && !IsEnveloped(stored) then r == Ok(Unprotected(stored))
      else
        var envelope := if behind then stored[BLIND_INDEX_LEN..] else stored;
        (match OpenEnvelope(w.ledger, w.keys, Binding(name, row, Strict(p, c)), envelope)
         case Ok(v) => r == Ok(Value(v))
         case Err(e) => r == Err(e))
    case Fpe =>
      if !c.detokenize then r == Err(NotReadable(name))
      else if |DigitsOf(stored)| < MIN_FPE_DIGITS then r == Ok(Unprotected(stored))
      else if w.ff1(name).Err? then r == Err(w.ff1(name).error)
      else
        && r.Ok? && r.value.Value? && SameShape(stored, r.value.value)
        && DigitsOf(r.value.value) == w.ff1(name).value.decrypt(DigitsOf(stored))
    case Token => r == Err(NotReadable(name))
    case MaskOnly => r == Ok(Unprotected(stored))
  }

  /** Opening reads what the kind of the column says, with a row key exactly for row-bound columns. */
  lemma {:induction false} ColumnReads(p: Policy, w: World, i: nat, row: Option<bytes>, stored: bytes)
    requires Admissible(p) && Ideal(w) && i < |p.columns|
    ensures var c := p.columns[i];
            var r := Open(AllWired(p), w, QualifiedName(c), stored, row);
            if BindsRow(p, c) && row.None? then r == Err(RowKeyRequired(QualifiedName(c)))
            else if !BindsRow(p, c) && row.Some? then r == Err(RowKeyNotDeclared(QualifiedName(c)))
            else ReadAs(p, c, w, stored, row, r)
  {
    var c := p.columns[i];
    LookupFinds(p, i);
    DeclaredStrict(p, c);
    if c.transform == Fpe {
      TransformsDigits(w.ff1(QualifiedName(c)), stored, true);
    }
  }

  lemma {:induction false} DeclaredStrict(p: Policy, c: ColumnPolicy)
    requires Admissible(p)
    ensures var declared := Declared(p.tables, SplitTable(c.table));
            declared.Some? && declared.value.strict <==> Strict(p, c)
  {
    if Strict(p, c) {
      var i :| 0 <= i < |p.tables| && InTable(c, p.tables[i]) && p.tables[i].strict;
      DeclaredOnce(p.tables, p.tables[i], c);
    }
    DeclaredIn(p.tables, SplitTable(c.table));
  }

  lemma {:induction false} DeclaredIn(tables: seq<TablePolicy>, name: (bytes, bytes))
    ensures var t := Declared(tables, name); t.Some? ==> t.value in tables && SplitTable(t.value.table) == name
  {
    if tables != [] {
      DeclaredIn(tables[1..], name);
    }
  }

  /** A value written before its table's rows were bound, or before values carried a context, is read in
      any row exactly while the table's migration window is open, and refused as a downgrade after. */
  lemma {:induction false} MigrationWindowIff(
    p: Policy, w: World, i: nat, row: bytes, s: Sealing, stored: bytes)
    requires Admissible(p) && Ideal(w) && i < |p.columns| && p.columns[i].transform == Encrypt
    requires BindsRow(p, p.columns[i]) && s in w.ledger && s.keyId in w.keys && w.keys[s.keyId] == s.key
    requires s.version.V1? || s.version == V2(QualifiedName(p.columns[i]))
    requires || (stored == Stored(s) && !IsEnveloped(s.ciphertext))
             || (|stored| >= BLIND_INDEX_LEN && stored[BLIND_INDEX_LEN..] == Stored(s))
    ensures Open(AllWired(p), w, QualifiedName(p.columns[i]), stored, Some(row))
         == if Strict(p, p.columns[i]) then Err(RowBindingDowngraded) else Ok(Value(s.plaintext))
  {
    var c := p.columns[i];
    var b := Binding(QualifiedName(c), Some(row), Strict(p, c));
    assert WellFormed(s);
    ColumnReads(p, w, i, Some(row), stored);
    SplitPrepended(seq(32, _ => 0), s);
    AssembledParts(MagicOf(s.version), s);
    assert Stored(s)[..4] == MagicOf(s.version);
    if !b.strict {
      SealedOpens(w.ledger, s, b);
    }
  }

  /** A value is masked exactly where the policy declares a mask, and with that mask. */
  function Mask(columns: Columns, apply: (nat, bytes) -> bytes, name: bytes, value: bytes): (r: Result<bytes, Error>) {
    match Lookup(columns, name)
    case None => Err(UnknownColumn(name))
    case Some(c) => Ok(if c.mask.Some? then apply(c.mask.value, value) else value)
  }

  lemma {:induction false} MasksWhereDeclared(
    p: Policy, apply: (nat, bytes) -> bytes, name: bytes, i: nat, value: bytes)
    requires Admissible(p)
    ensures i < |p.columns| && name == QualifiedName(p.columns[i]) ==>
              Mask(AllWired(p), apply, name, value)
              == Ok(if p.columns[i].mask.Some? then apply(p.columns[i].mask.value, value) else value)
    ensures (forall j | 0 <= j < |p.columns| :: !Denotes(name, p.columns[j])) ==>
              Mask(AllWired(p), apply, name, value) == Err(UnknownColumn(name))
  {
    if i < |p.columns| {
      LookupFinds(p, i);
    }
    KnownIff(p, name);
  }

  // ---------------------------------------------------------------- relocation

  /** An envelope as it was written opens under no other binding. */
  lemma {:induction false} ForeignNeverOpens(ledger: Ledger, keys: Keys, s: Sealing, b: Binding)
    requires Genuine(ledger) && s in ledger && !s.version.V1?
    requires s.keyId in keys && keys[s.keyId] == s.key
    requires s.version != V2(b.context) && (b.row.Some? ==> s.version != V3(b.context, b.row.value))
    ensures OpenEnvelope(ledger, keys, b, Stored(s)).Err?
  {
    AssembledParts(MagicOf(s.version), s);
    var data := Stored(s);
    assert data[..4] == MagicOf(s.version);
    if OpeningAad(b, data).Ok? {
      var v := Checked(b, data);
      AadIsInjective(s.version, s.keyId, v, s.keyId);
      var i :| 0 <= i < |ledger| && ledger[i] == s;
      UnsealOf(ledger, i, AadOf(v, s.keyId));
    }
  }

  /** Moved to another column or another row, a sealed value never comes back as its plaintext, and
      under an encrypting column it is refused outright. Only a bare envelope whose ciphertext is
      itself shaped like an envelope can open there as something else. */
  lemma {:induction false} MovedValueNeverOpens(e: Encrypting, w: World, stored: bytes, s: Sealing, row: Option<bytes>)
    requires Ideal(w) && s in w.ledger && !s.version.V1?
    requires s.keyId in w.keys && w.keys[s.keyId] == s.key
    requires s.version != V2(e.context) && (row.Some? ==> s.version != V3(e.context, row.value))
    requires stored == Stored(s) || (|stored| >= BLIND_INDEX_LEN && stored[BLIND_INDEX_LEN..] == Stored(s))
    ensures OpenValue(e, w.ledger, w.keys, stored, row) != Ok(Some(s.plaintext))
    ensures stored != Stored(s) || !IsEnveloped(s.ciphertext) ==>
              OpenValue(e, w.ledger, w.keys, stored, row).Err?
  {
    var b := Binding(e.context, row, e.strict);
    ForeignNeverOpens(w.ledger, w.keys, s, b);
    assert WellFormed(s);
    AssembledParts(MagicOf(s.version), s);
    assert Stored(s)[..4] == MagicOf(s.version);
    SplitPrepended(seq(32, _ => 0), s);
    if stored == Stored(s) && IsEnveloped(s.ciphertext) && OpenEnvelope(w.ledger, w.keys, b, s.ciphertext).Ok? {
      OpenedLength(w.ledger, w.keys, b, s.ciphertext);
    }
  }

  lemma {:induction false} StoredForms(
    p: Policy, w: World, i: nat, row: Option<bytes>, plaintext: bytes, s: Sealing, stored: bytes)
    requires Admissible(p) && Ideal(w) && i < |p.columns| && p.columns[i].transform == Encrypt && WellFormed(s)
    requires Seal(AllWired(p), w, QualifiedName(p.columns[i]), plaintext, row, Ok(s)) == Ok(stored)
    ensures row.Some? == BindsRow(p, p.columns[i])
    ensures if p.columns[i].searchable
            then |stored| > BLIND_INDEX_LEN && stored[BLIND_INDEX_LEN..] == Stored(s)
            else stored == Stored(s)
    ensures |stored| > |s.plaintext| && (p.columns[i].searchable ==> stored != Stored(s))
  {
    LookupFinds(p, i);
    AssembledParts(MagicOf(s.version), s);
    if p.columns[i].searchable {
      var name := QualifiedName(p.columns[i]);
      var index := w.mac(w.indexKeys[name], plaintext);
      assert stored == Prepend(index, Stored(s)) && stored[BLIND_INDEX_LEN..] == Stored(s);
    }
  }

  /** The relocation theorem: under a validated policy, what was sealed for one column and row is
      never returned as that value for another column, nor for another row of a row-bound column; and
      an encrypting column refuses it. */
  lemma {:induction false} RelocationRefused(
    p: Policy, w: World, i: nat, j: nat, row: Option<bytes>, other: Option<bytes>,
    plaintext: bytes, s: Sealing, stored: bytes)
    requires Admissible(p) && Ideal(w) && i < |p.columns| && j < |p.columns| && p.columns[i].transform == Encrypt
    requires Made(w, p.columns[i], s, row, plaintext)
    requires Seal(AllWired(p), w, QualifiedName(p.columns[i]), plaintext, row, Ok(s)) == Ok(stored)
    requires i != j || row != other
    ensures Open(AllWired(p), w, QualifiedName(p.columns[j]), stored, other) != Ok(Value(plaintext))
    ensures p.columns[j].transform == Encrypt && (p.columns[i].searchable || !IsEnveloped(s.ciphertext)) ==>
              Open(AllWired(p), w, QualifiedName(p.columns[j]), stored, other).Err?
  {
    var c, d := p.columns[i], p.columns[j];
    assert WellFormed(s);
    StoredForms(p, w, i, row, plaintext, s, stored);
    LookupFinds(p, j);
    assert i != j ==> QualifiedName(c) != QualifiedName(d);
    if other.Some? == BindsRow(p, d) {
      MovedColumn(p, d, w, stored, s, other);
    }
  }

  lemma {:induction false} MovedColumn(
    p: Policy, d: ColumnPolicy, w: World, stored: bytes, s: Sealing, row: Option<bytes>)
    requires Ideal(w) && s in w.ledger && !s.version.V1? && |stored| > |s.plaintext|
    requires s.keyId in w.keys && w.keys[s.keyId] == s.key
    requires s.version != V2(QualifiedName(d)) && (row.Some? ==> s.version != V3(QualifiedName(d), row.value))
    requires stored == Stored(s) || (|stored| >= BLIND_INDEX_LEN && stored[BLIND_INDEX_LEN..] == Stored(s))
    ensures OpenIn(Build(p, d), w, QualifiedName(d), stored, row) != Ok(Value(s.plaintext))
    ensures d.transform == Encrypt && (stored != Stored(s) || !IsEnveloped(s.ciphertext)) ==>
              OpenIn(Build(p, d), w, QualifiedName(d), stored, row).Err?
  {
    match d.transform
    case Encrypt => MovedValueNeverOpens(Build(p, d).transform.value.column, w, stored, s, row);
    case Fpe => PseudonymKeepsLength(w.ff1(QualifiedName(d)), d.detokenize, stored);
    case _ =>
  }

  lemma {:induction false} PseudonymKeepsLength(ff1: Result<Ff1, Error>, detokenize: bool, stored: bytes)
    requires ff1.Ok? ==> IsPermutation(ff1.value)
    ensures var r := FpeOpen(ff1, detokenize, stored);
            r.Ok? && r.value.Some? ==> |r.value.value| == |stored|
  {
  }

  // ---------------------------------------------------------------- any bytes at all

  /** Whatever bytes are found in an encrypting column, a value read out of them was sealed for that
      column, and for that row if it was row-bound; in a row-bound table whose migration window is
      closed it was sealed for that row. So it is unless the ledger holds a value that is confusable
      with one of this cell. */
  lemma {:induction false} ValuesAreAuthentic(p: Policy, w: World, j: nat, stored: bytes, row: Option<bytes>, v: bytes)
    returns (s: Sealing)
    requires Admissible(p) && Ideal(w) && j < |p.columns| && p.columns[j].transform == Encrypt
    requires forall s | s in w.ledger ::
               Frameable(s.version) && !Confusable(s.version, Binding(QualifiedName(p.columns[j]), row, false))
    requires Open(AllWired(p), w, QualifiedName(p.columns[j]), stored, row) == Ok(Value(v))
    ensures s in w.ledger && s.plaintext == v
    ensures BelongsTo(s, Binding(QualifiedName(p.columns[j]), row, false))
    ensures forall t | t in p.tables && InTable(p.columns[j], t) && t.strict ::
              row.Some? && s.version == V3(QualifiedName(p.columns[j]), row.value)
  {
    var c := p.columns[j];
    LookupFinds(p, j);
    s := OpenedIsAuthentic(Build(p, c).transform.value.column, w.ledger, w.keys, stored, row);
    forall t | t in p.tables && InTable(c, t) && t.strict
      ensures row.Some? && s.version == V3(QualifiedName(c), row.value)
    {
      DeclaredOnce(p.tables, t, c);
    }
  }

  /** The name of column `i` is the framing of the name of the row-bound column `j` and a row. An operator
      can tell from the names: `IsFraming` and the framed part. */
  predicate FramedFrom(p: Policy, i: nat, j: nat, row: bytes) {
    && i < |p.columns| && p.columns[i].transform == Encrypt
    && j < |p.columns| && p.columns[j].transform == Encrypt && BindsRow(p, p.columns[j])
    && |QualifiedName(p.columns[j])| < TWO_32 && |row| < TWO_32
    && QualifiedName(p.columns[i]) == Framed(QualifiedName(p.columns[j])) + Framed(row)
  }

  ghost predicate NoFramedNames(p: Policy) {
    forall i: nat, j: nat, row: bytes :: !FramedFrom(p, i, j, row)
  }

  /** What has been sealed under the policy: pre-context values, cell-bound values of its encrypting
      columns, among them those written before a table's rows were bound, and row-bound values of its
      row-bound ones. */
  predicate Writes(p: Policy, v: Version) {
    match v
    case V1 => true
    case V2(c) =>
      exists i | 0 <= i < |p.columns| :: p.columns[i].transform == Encrypt && QualifiedName(p.columns[i]) == c
    case V3(c, _) =>
      exists i | 0 <= i < |p.columns| ::
        p.columns[i].transform == Encrypt && BindsRow(p, p.columns[i]) && QualifiedName(p.columns[i]) == c
  }

  /** In every world in which only this policy has sealed values, whatever is read out of any bytes in an
      encrypting column was sealed for the cell it is read in. */
  ghost predicate Authentic(p: Policy) {
    forall w: World, j: nat, stored: bytes, row: Option<bytes>, v: bytes
      | Ideal(w) && (forall s | s in w.ledger :: Writes(p, s.version))
        && j < |p.columns| && p.columns[j].transform == Encrypt
        && Open(AllWired(p), w, QualifiedName(p.columns[j]), stored, row) == Ok(Value(v))
      :: exists s :: s in w.ledger && s.plaintext == v && BelongsTo(s, Binding(QualifiedName(p.columns[j]), row, false))
  }

  lemma {:induction false} NamesHaveDots(c: ColumnPolicy)
    ensures |QualifiedName(c)| >= 2
  {
  }

  lemma {:induction false} WrittenIsClear(p: Policy, j: nat, v: Version, row: Option<bytes>)
    requires NoFramedNames(p) && Writes(p, v) && Frameable(v)
    requires j < |p.columns| && p.columns[j].transform == Encrypt && (row.Some? ==> BindsRow(p, p.columns[j]))
    ensures !Confusable(v, Binding(QualifiedName(p.columns[j]), row, false))
  {
    var name := QualifiedName(p.columns[j]);
    NamesHaveDots(p.columns[j]);
    match v
    case V1 =>
    case V2(c) =>
      var i :| 0 <= i < |p.columns| && p.columns[i].transform == Encrypt && QualifiedName(p.columns[i]) == c;
      NamesHaveDots(p.columns[i]);
      if row.Some? {
        assert !FramedFrom(p, i, j, row.value);
      }
    case V3(c, bound) =>
      var i :| 0 <= i < |p.columns| && p.columns[i].transform == Encrypt && BindsRow(p, p.columns[i])
               && QualifiedName(p.columns[i]) == c;
      assert !FramedFrom(p, j, i, bound);
  }

  /** A cell-bound value of a column named like the framing of column `j` and row `row` is read there, once
      its version is rewritten. */
  lemma {:induction false} FramingColumnIsRead(p: Policy, w: World, j: nat, s: Sealing, row: bytes)
    requires Admissible(p) && Ideal(w) && j < |p.columns| && p.columns[j].transform == Encrypt
    requires BindsRow(p, p.columns[j]) && |QualifiedName(p.columns[j])| < TWO_32 && |row| < TWO_32
    requires s in w.ledger && WellFormed(s) && s.keyId in w.keys && w.keys[s.keyId] == s.key
    requires s.version == V2(Framed(QualifiedName(p.columns[j])) + Framed(row)) && !IsEnveloped(s.ciphertext)
    ensures Open(AllWired(p), w, QualifiedName(p.columns[j]), Assemble(MAGIC_V3, s), Some(row))
         == Ok(Value(s.plaintext))
  {
    var c := p.columns[j];
    LookupFinds(p, j);
    AssembledParts(MAGIC_V3, s);
    assert Assemble(MAGIC_V3, s)[..4] == MAGIC_V3;
    FramingNamedOpens(w.ledger, s, Binding(QualifiedName(c), Some(row), Build(p, c).transform.value.column.strict));
  }

  function SampleWorld(s: Sealing): (w: World) {
    World([s], map[s.keyId := s.key], map[], (k: bytes, v: bytes) => seq(BLIND_INDEX_LEN, _ => 0),
          _ => Err(FpeDomain))
  }

  lemma {:induction false} FramedNameIsRead(p: Policy, i: nat, j: nat, row: bytes)
    requires Admissible(p) && FramedFrom(p, i, j, row)
    ensures !Authentic(p)
  {
    var name, other := QualifiedName(p.columns[i]), QualifiedName(p.columns[j]);
    var s := Sample(V2(name));
    var w := SampleWorld(s);
    assert w.ledger[0] == s;
    FramingColumnIsRead(p, w, j, s, row);
    assert Writes(p, s.version);
    assert !BelongsTo(s, Binding(other, Some(row), false)) by {
      assert |name| > |other|;
    }
  }

  /** An admissible policy reads only what was sealed for the cell, from any bytes and whatever it has
      sealed, exactly when no encrypting column's name is the framing of the name of a row-bound
      encrypting column and a row. */
  lemma {:induction false} AuthenticIff(p: Policy)
    requires Admissible(p)
    ensures Authentic(p) <==> NoFramedNames(p)
  {
    if NoFramedNames(p) {
      forall w: World, j: nat, stored: bytes, row: Option<bytes>, v: bytes
        | Ideal(w) && (forall s | s in w.ledger :: Writes(p, s.version))
          && j < |p.columns| && p.columns[j].transform == Encrypt
          && Open(AllWired(p), w, QualifiedName(p.columns[j]), stored, row) == Ok(Value(v))
        ensures exists s :: s in w.ledger && s.plaintext == v
                            && BelongsTo(s, Binding(QualifiedName(p.columns[j]), row, false))
      {
        LookupFinds(p, j);
        forall s | s in w.ledger
          ensures Frameable(s.version) && !Confusable(s.version, Binding(QualifiedName(p.columns[j]), row, false))
        {
          var k :| 0 <= k < |w.ledger| && w.ledger[k] == s;
          WrittenIsClear(p, j, s.version, row);
        }
        var s := ValuesAreAuthentic(p, w, j, stored, row, v);
      }
    } else {
      var i, j, row :| FramedFrom(p, i, j, row);
      FramedNameIsRead(p, i, j, row);
    }
  }

  /** Names without a leading NUL, as PostgreSQL's all are, meet the condition. */
  lemma {:induction false} NulFreeNamesAuthentic(p: Policy)
    requires Admissible(p) && forall i | 0 <= i < |p.columns| :: QualifiedName(p.columns[i])[..1] != [0]
    ensures Authentic(p)
  {
    forall i: nat, j: nat, row: bytes ensures !FramedFrom(p, i, j, row) {
      if FramedFrom(p, i, j, row) {
        var name := QualifiedName(p.columns[i]);
        assert ColumnAdmissible(p.columns[i]);
        assert 2 <= |name| <= 3 * MAX_IDENTIFIER_BYTES + 2 && name[..1] == [name[0]];
        NoLeadingNul(name);
        FramedIsFraming(QualifiedName(p.columns[j]), row);
      }
    }
    AuthenticIff(p);
  }

  lemma {:induction false} DeclaredOnce(tables: seq<TablePolicy>, t: TablePolicy, c: ColumnPolicy)
    requires UniqueTables(tables) && t in tables && InTable(c, t)
    ensures Declared(tables, SplitTable(c.table)) == Some(t)
  {
    var i :| 0 <= i < |tables| && tables[i] == t;
    if i > 0 {
      assert SplitTable(tables[0].table) != SplitTable(tables[i].table);
      assert tables[1..][i - 1] == t;
      DeclaredOnce(tables[1..], t, c);
    }
  }

  lemma {:induction false} SplitJoined(schema: bytes, table: bytes)
    requires DOT !in schema
    ensures SplitTable(TableName(schema, table)) == (schema, table)
  {
    FirstDotOf(schema, table);
    assert TableName(schema, table)[..|schema|] == schema && TableName(schema, table)[|schema| + 1..] == table;
  }

  /** Two columns, `a.b.c` of a row-bound table and one whose name is the framing of `a.b.c` and row
      `x`. */
  function Colliding(): (p: Policy) {
    Rules.Policy(
      [ColumnPolicy(TableName([97], [98]), [99], Encrypt, false, true, None),
       ColumnPolicy(TableName([0, 0, 0, 5, 97], [98]), [99, 0, 0, 0, 1, 120], Encrypt, false, true, None)],
      [TablePolicy(TableName([97], [98]), [105, 100], false)])
  }

  const NAME_ABC: bytes := [97, 46, 98, 46, 99]

  lemma {:induction false} CollidingNames()
    ensures var p := Colliding();
            && QualifiedName(p.columns[0]) == NAME_ABC
            && QualifiedName(p.columns[1]) == Framed(NAME_ABC) + Framed([120])
            && SplitTable(p.columns[0].table) == ([97], [98])
            && SplitTable(p.columns[1].table) == ([0, 0, 0, 5, 97], [98])
  {
    SplitJoined([97], [98]);
    SplitJoined([0, 0, 0, 5, 97], [98]);
    assert TableName([0, 0, 0, 5, 97], [98]) + [DOT] + [99, 0, 0, 0, 1, 120] == Framed(NAME_ABC) + Framed([120]) by {
      assert BigEndian32(5) == [0, 0, 0, 5] && BigEndian32(1) == [0, 0, 0, 1];
    }
  }

  lemma {:induction false} CollidingColumns()
    ensures var p := Colliding();
            && UniqueColumns(p.columns)
            && (forall i | 0 <= i < |p.columns| :: ColumnAdmissible(p.columns[i]))
            && QualifiedName(p.columns[0]) != QualifiedName(p.columns[1])
  {
    var p := Colliding();
    CollidingNames();
    assert QualifiedName(p.columns[0])[0] == 97 && QualifiedName(p.columns[1])[0] == 0;
    assert ColumnFits(p.columns[0]) && ColumnFits(p.columns[1]);
  }

  lemma {:induction false} CollidingTable()
    ensures var p := Colliding();
            && TableAdmissible(p.tables[0], p.columns)
            && BindsRow(p, p.columns[0]) && !BindsRow(p, p.columns[1])
  {
    var p := Colliding();
    CollidingNames();
    assert |p.columns[0].column| == 1 && |p.columns[1].column| == 6 && |p.tables[0].rowKey| == 2;
    assert ([97], [98]).0 != ([0, 0, 0, 5, 97], [98]).0;
    assert InTable(p.columns[0], p.tables[0]) && !InTable(p.columns[1], p.tables[0]);
  }

  /** In any admissible policy, a column whose name is the framing of another column and a row, and whose
      rows are not bound, opens that row's value once its version is rewritten. */
  lemma {:induction false} FramedColumnOpens(p: Policy, w: World, j: nat, s: Sealing)
    requires Admissible(p) && Ideal(w) && j < |p.columns| && p.columns[j].transform == Encrypt
    requires !BindsRow(p, p.columns[j])
    requires s in w.ledger && s.keyId in w.keys && w.keys[s.keyId] == s.key
    requires s.version.V3? && !IsEnveloped(s.ciphertext) && WellFormed(s)
    requires QualifiedName(p.columns[j]) == Framed(s.version.context) + Framed(s.version.row)
    ensures Open(AllWired(p), w, QualifiedName(p.columns[j]), Assemble(MAGIC, s), None) == Ok(Value(s.plaintext))
  {
    LookupFinds(p, j);
    RelabelledOpens(Build(p, p.columns[j]).transform.value.column, w, s);
  }

  lemma {:induction false} CollidingPolicy() returns (p: Policy)
    ensures Admissible(p) && |p.columns| == 2 && p.columns[1].transform == Encrypt
    ensures BindsRow(p, p.columns[0]) && !BindsRow(p, p.columns[1])
    ensures QualifiedName(p.columns[0]) == NAME_ABC && QualifiedName(p.columns[1]) == Framed(NAME_ABC) + Framed([120])
    ensures QualifiedName(p.columns[0]) != QualifiedName(p.columns[1])
  {
    p := Colliding();
    CollidingNames();
    CollidingColumns();
    CollidingTable();
  }

  /** Validation does not look at the bytes of a name, so such policies are admissible: in this one a
      value sealed for row "x" of one column opens, its version rewritten, in the other. */
  lemma {:induction false} NulNamesCollide(w: World, s: Sealing) returns (p: Policy)
    requires Ideal(w) && s in w.ledger && s.keyId in w.keys && w.keys[s.keyId] == s.key
    requires s.version == V3(NAME_ABC, [120]) && !IsEnveloped(s.ciphertext)
    ensures Admissible(p) && |p.columns| == 2 && BindsRow(p, p.columns[0])
    ensures s.version == Written(Binding(QualifiedName(p.columns[0]), Some([120]), false))
    ensures QualifiedName(p.columns[0]) != QualifiedName(p.columns[1])
    ensures Open(AllWired(p), w, QualifiedName(p.columns[1]), Assemble(MAGIC, s), None) == Ok(Value(s.plaintext))
  {
    p := CollidingPolicy();
    FramedColumnOpens(p, w, 1, s);
  }

  lemma {:induction false} RelabelledOpens(e: Encrypting, w: World, s: Sealing)
    requires Ideal(w) && s in w.ledger && s.keyId in w.keys && w.keys[s.keyId] == s.key
    requires s.version.V3? && !IsEnveloped(s.ciphertext) && WellFormed(s)
    requires e.context == Framed(s.version.context) + Framed(s.version.row)
    ensures OpenValue(e, w.ledger, w.keys, Assemble(MAGIC, s), None) == Ok(Some(s.plaintext))
  {
    AssembledParts(MAGIC, s);
    FramedNameOpens(w.ledger, s);
    assert Assemble(MAGIC, s)[..4] == MAGIC;
  }
}
