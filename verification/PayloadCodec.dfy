/** The logical payload of a snapshot: what is encoded, what is decoded, and how they fit. */
module PayloadCodec {
  import opened Options
  import opened Bytes
  import opened Snapshots

  const PAGE_SIZE: nat := 4096
  const MAX_FILE_BYTES: nat := 64 * 1024 * 1024
  const MAX_TABLES: nat := 4096
  const MAX_FIELDS: nat := 4096
  const MAX_ROWS: nat := 100_000
  const MAX_NAME_BYTES: nat := 1024
  const MAX_TYPE_BYTES: nat := 128
  const MAX_ROW_BYTES: nat := 16 * 1024 * 1024

  // ----- the byte layout -----

  function Sized(b: seq<Byte>): seq<Byte>
  {
    U32(|b|) + b
  }

  function Bit(b: bool): Byte
  {
    if b then 1 else 0
  }

  function FlagByte(f: Field): Byte
  {
    Bit(f.optional) + 2 * Bit(f.primary) + 4 * Bit(f.unique) + 8 * Bit(f.indexed)
  }

  function FieldBytes(f: Field): seq<Byte>
  {
    Sized(f.name) + Sized(f.storage) + [FlagByte(f)]
  }

  function FieldsBytes(fs: seq<Field>): seq<Byte>
  {
    if fs == [] then [] else FieldBytes(fs[0]) + FieldsBytes(fs[1..])
  }

  function NamesBytes(ns: seq<Text>): seq<Byte>
  {
    if ns == [] then [] else Sized(ns[0]) + NamesBytes(ns[1..])
  }

  function ConstraintBytes(c: Constraint): seq<Byte>
  {
    Sized(c.name) + [Bit(c.unique)] + U32(|c.fields|) + NamesBytes(c.fields)
  }

  function ConstraintsBytes(cs: seq<Constraint>): seq<Byte>
  {
    if cs == [] then [] else ConstraintBytes(cs[0]) + ConstraintsBytes(cs[1..])
  }

  function RowsBytes(rows: seq<seq<Byte>>): seq<Byte>
  {
    if rows == [] then [] else Sized(rows[0]) + RowsBytes(rows[1..])
  }

  function ConstraintSection(cs: seq<Constraint>, composite: bool): seq<Byte>
  {
    if composite then U32(|cs|) + ConstraintsBytes(cs) else []
  }

  function TableBytes(t: Table, composite: bool): seq<Byte>
  {
    Sized(t.name) + (U32(|t.fields|) + (FieldsBytes(t.fields) +
      (ConstraintSection(t.constraints, composite) + (U64(|t.rows|) + RowsBytes(t.rows)))))
  }

  function TablesBytes(ts: seq<Table>, composite: bool): seq<Byte>
  {
    if ts == [] then [] else TableBytes(ts[0], composite) + TablesBytes(ts[1..], composite)
  }

  function PayloadBytes(ts: seq<Table>, composite: bool): seq<Byte>
  {
    U32(|ts|) + TablesBytes(ts, composite)
  }

  // ----- what the encoder accepts -----

  function FieldNames(fs: seq<Field>): (r: seq<Text>)
    ensures |r| == |fs|
    ensures forall i :: 0 <= i < |fs| ==> r[i] == fs[i].name
  {
    seq(|fs|, i requires 0 <= i < |fs| => fs[i].name)
  }

  predicate Distinct<T(==)>(s: seq<T>)
  {
    forall i, j :: 0 <= i < j < |s| ==> s[i] != s[j]
  }

  function PrimaryCount(fs: seq<Field>): nat
  {
    if fs == [] then 0 else (if fs[0].primary then 1 else 0) + PrimaryCount(fs[1..])
  }

  predicate FieldEncodable(f: Field)
  {
    |f.name| <= MAX_NAME_BYTES && |f.storage| <= MAX_TYPE_BYTES
  }

  predicate ConstraintEncodable(c: Constraint, names: seq<Text>)
  {
    && |c.name| <= MAX_NAME_BYTES
    && c.name !in names
    && 2 <= |c.fields| <= |names|
    && Distinct(c.fields)
    && (forall i :: 0 <= i < |c.fields| ==> c.fields[i] in names && |c.fields[i]| <= MAX_NAME_BYTES)
  }

  predicate ConstraintsEncodable(cs: seq<Constraint>, names: seq<Text>)
  {
    && |cs| < U32_LIMIT
    && (forall i :: 0 <= i < |cs| ==> ConstraintEncodable(cs[i], names))
    && (forall i, j :: 0 <= i < j < |cs| ==> cs[i].name != cs[j].name)
  }

  predicate TableEncodable(t: Table, composite: bool)
  {
    && |t.name| <= MAX_NAME_BYTES
    && 1 <= |t.fields| <= MAX_FIELDS
    && (forall i :: 0 <= i < |t.fields| ==> FieldEncodable(t.fields[i]))
    && Distinct(FieldNames(t.fields))
    && PrimaryCount(t.fields) == 1
    && |t.rows| <= MAX_ROWS
    && (if composite then ConstraintsEncodable(t.constraints, FieldNames(t.fields)) else t.constraints == [])
    && (forall i :: 0 <= i < |t.rows| ==> |t.rows[i]| <= MAX_ROW_BYTES)
  }

  predicate TablesEncodable(ts: seq<Table>, composite: bool)
  {
    && |ts| <= MAX_TABLES
    && DistinctNames(ts)
    && (forall i :: 0 <= i < |ts| ==> TableEncodable(ts[i], composite))
    && (ts == [] || |PayloadBytes(ts, composite)| <= MAX_FILE_BYTES - PAGE_SIZE)
  }

  /** The payload of a snapshot, tables in name order; no value where encoding is refused. */
  function EncodePayload(s: Snapshot, composite: bool): Option<seq<Byte>>
  {
    var ts := Sorted(s.tables);
    if TablesEncodable(ts, composite) then Some(PayloadBytes(ts, composite)) else None
  }

  // ----- the decoder: each parser eats a prefix and leaves the rest -----

  datatype Parsed<+T> = Malformed | Parsed(value: T, rest: seq<Byte>)

  function TakeBytes(b: seq<Byte>, n: nat): Parsed<seq<Byte>>
  {
    if |b| < n then Malformed else Parsed(b[..n], b[n..])
  }

  function TakeByte(b: seq<Byte>): Parsed<Byte>
  {
    if |b| < 1 then Malformed else Parsed(b[0], b[1..])
  }

  function TakeU32(b: seq<Byte>): Parsed<nat>
  {
    if |b| < 4 then Malformed else Parsed(FromLe(b[..4]), b[4..])
  }

  function TakeU64(b: seq<Byte>): Parsed<nat>
  {
    if |b| < 8 then Malformed else Parsed(FromLe(b[..8]), b[8..])
  }

  function TakeData(b: seq<Byte>, limit: nat): Parsed<seq<Byte>>
  {
    match TakeU32(b)
    case Malformed => Malformed
    case Parsed(n, rest) => if n > limit then Malformed else TakeBytes(rest, n)
  }

  function TakeText(b: seq<Byte>, limit: nat): Parsed<Text>
  {
    match TakeData(b, limit)
    case Malformed => Malformed
    case Parsed(t, rest) => if Utf8(t) then Parsed(t, rest) else Malformed
  }

  function FieldOf(name: Text, storage: Text, flags: Byte): Field
  {
    Field(name, storage, flags % 2 == 1, (flags / 2) % 2 == 1, (flags / 4) % 2 == 1, (flags / 8) % 2 == 1)
  }

  /** `allowed` is a mask of low bits (3, 7 or 15), so a flag byte uses an unknown bit iff it exceeds it. */
  function ParseField(b: seq<Byte>, seen: set<Text>, allowed: Byte): Parsed<Field>
  {
    match TakeText(b, MAX_NAME_BYTES)
    case Malformed => Malformed
    case Parsed(name, b1) =>
      if name in seen then Malformed else
      match TakeText(b1, MAX_TYPE_BYTES)
      case Malformed => Malformed
      case Parsed(storage, b2) =>
        match TakeByte(b2)
        case Malformed => Malformed
        case Parsed(flags, b3) =>
          if flags > allowed then Malformed else Parsed(FieldOf(name, storage, flags), b3)
  }

  function ParseFields(b: seq<Byte>, n: nat, seen: set<Text>, allowed: Byte): Parsed<seq<Field>>
    decreases n
  {
    if n == 0 then Parsed([], b)
    else
      match ParseField(b, seen, allowed)
      case Malformed => Malformed
      case Parsed(f, rest) =>
        match ParseFields(rest, n - 1, seen + {f.name}, allowed)
        case Malformed => Malformed
        case Parsed(fs, tail) => Parsed([f] + fs, tail)
  }

  function ParseNames(b: seq<Byte>, n: nat, known: set<Text>, seen: set<Text>): Parsed<seq<Text>>
    decreases n
  {
    if n == 0 then Parsed([], b)
    else
      match TakeText(b, MAX_NAME_BYTES)
      case Malformed => Malformed
      case Parsed(name, rest) =>
        if name !in known || name in seen then Malformed else
        match ParseNames(rest, n - 1, known, seen + {name})
        case Malformed => Malformed
        case Parsed(ns, tail) => Parsed([name] + ns, tail)
  }

  function ParseConstraint(b: seq<Byte>, known: set<Text>, fieldCount: nat, seen: set<Text>): Parsed<Constraint>
  {
    match TakeText(b, MAX_NAME_BYTES)
    case Malformed => Malformed
    case Parsed(name, b1) =>
      if name in known || name in seen then Malformed else
      match TakeByte(b1)
      case Malformed => Malformed
      case Parsed(flags, b2) =>
        if flags > 1 then Malformed else
        match TakeU32(b2)
        case Malformed => Malformed
        case Parsed(count, b3) =>
          if count < 2 || count > fieldCount then Malformed else
          match ParseNames(b3, count, known, {})
          case Malformed => Malformed
          case Parsed(names, b4) => Parsed(Constraint(name, flags == 1, names), b4)
  }

  function ParseConstraints(b: seq<Byte>, n: nat, known: set<Text>, fieldCount: nat, seen: set<Text>)
    : Parsed<seq<Constraint>>
    decreases n
  {
    if n == 0 then Parsed([], b)
    else
      match ParseConstraint(b, known, fieldCount, seen)
      case Malformed => Malformed
      case Parsed(c, rest) =>
        match ParseConstraints(rest, n - 1, known, fieldCount, seen + {c.name})
        case Malformed => Malformed
        case Parsed(cs, tail) => Parsed([c] + cs, tail)
  }

  function ParseConstraintSection(b: seq<Byte>, known: set<Text>, fieldCount: nat, composite: bool)
    : Parsed<seq<Constraint>>
  {
    if !composite then Parsed([], b)
    else
      match TakeU32(b)
      case Malformed => Malformed
      case Parsed(count, rest) =>
        if count > MAX_FIELDS then Malformed else ParseConstraints(rest, count, known, fieldCount, {})
  }

  function ParseRows(b: seq<Byte>, n: nat): Parsed<seq<seq<Byte>>>
    decreases n
  {
    if n == 0 then Parsed([], b)
    else
      match TakeData(b, MAX_ROW_BYTES)
      case Malformed => Malformed
      case Parsed(row, rest) =>
        match ParseRows(rest, n - 1)
        case Malformed => Malformed
        case Parsed(rows, tail) => Parsed([row] + rows, tail)
  }

  function ParseFieldSection(b: seq<Byte>, allowed: Byte): Parsed<seq<Field>>
  {
    match TakeU32(b)
    case Malformed => Malformed
    case Parsed(count, b1) =>
      if count == 0 || count > MAX_FIELDS then Malformed else
      match ParseFields(b1, count, {}, allowed)
      case Malformed => Malformed
      case Parsed(fields, b2) => if PrimaryCount(fields) != 1 then Malformed else Parsed(fields, b2)
  }

  function ParseRowSection(b: seq<Byte>): Parsed<seq<seq<Byte>>>
  {
    match TakeU64(b)
    case Malformed => Malformed
    case Parsed(count, rest) => if count > MAX_ROWS then Malformed else ParseRows(rest, count)
  }

  function NameSet(fs: seq<Field>): set<Text>
  {
    set n | n in FieldNames(fs)
  }

  function ParseTable(b: seq<Byte>, seen: set<Text>, allowed: Byte, composite: bool): Parsed<Table>
  {
    match TakeText(b, MAX_NAME_BYTES)
    case Malformed => Malformed
    case Parsed(name, b1) =>
      if name in seen then Malformed else
      match ParseFieldSection(b1, allowed)
      case Malformed => Malformed
      case Parsed(fields, b2) =>
        match ParseConstraintSection(b2, NameSet(fields), |fields|, composite)
        case Malformed => Malformed
        case Parsed(constraints, b3) =>
          match ParseRowSection(b3)
          case Malformed => Malformed
          case Parsed(rows, b4) => Parsed(Table(name, fields, constraints, rows), b4)
  }

  function ParseTables(b: seq<Byte>, n: nat, seen: set<Text>, allowed: Byte, composite: bool): Parsed<seq<Table>>
    decreases n
  {
    if n == 0 then Parsed([], b)
    else
      match ParseTable(b, seen, allowed, composite)
      case Malformed => Malformed
      case Parsed(t, rest) =>
        match ParseTables(rest, n - 1, seen + {t.name}, allowed, composite)
        case Malformed => Malformed
        case Parsed(ts, tail) => Parsed([t] + ts, tail)
  }

  function DecodePayload(b: seq<Byte>, allowed: Byte, composite: bool): Option<Snapshot>
  {
    match TakeU32(b)
    case Malformed => None
    case Parsed(count, rest) =>
      if count > MAX_TABLES then None else
      match ParseTables(rest, count, {}, allowed, composite)
      case Malformed => None
      case Parsed(ts, tail) => if tail != [] then None else Some(Snapshot(ts))
  }

  // ----- reading back what was written -----

  lemma TakeU32OfU32(n: nat, rest: seq<Byte>)
    requires n < U32_LIMIT
    ensures TakeU32(U32(n) + rest) == Parsed(n, rest)
  {
    U32RoundTrip(n);
    assert (U32(n) + rest)[..4] == U32(n);
    assert (U32(n) + rest)[4..] == rest;
  }

  lemma TakeU64OfU64(n: nat, rest: seq<Byte>)
    requires n < U64_LIMIT
    ensures TakeU64(U64(n) + rest) == Parsed(n, rest)
  {
    U64RoundTrip(n);
    assert (U64(n) + rest)[..8] == U64(n);
    assert (U64(n) + rest)[8..] == rest;
  }

  lemma TakeDataOfSized(b: seq<Byte>, limit: nat, rest: seq<Byte>)
    requires |b| <= limit < U32_LIMIT
    ensures TakeData(Sized(b) + rest, limit) == Parsed(b, rest)
  {
    TakeU32OfU32(|b|, b + rest);
    assert Sized(b) + rest == U32(|b|) + (b + rest);
    assert (b + rest)[..|b|] == b && (b + rest)[|b|..] == rest;
  }

  lemma TakeTextOfSized(t: Text, limit: nat, rest: seq<Byte>)
    requires |t| <= limit < U32_LIMIT
    ensures TakeText(Sized(t) + rest, limit) == Parsed(t, rest)
  {
    TakeDataOfSized(t, limit, rest);
  }

  lemma FlagBits(f: Field)
    ensures FieldOf(f.name, f.storage, FlagByte(f)) == f
  {
  }

  lemma ParseFieldOfBytes(f: Field, seen: set<Text>, allowed: Byte, rest: seq<Byte>)
    requires FieldEncodable(f) && f.name !in seen
    ensures ParseField(FieldBytes(f) + rest, seen, allowed)
            == if FlagByte(f) > allowed then Malformed else Parsed(f, rest)
  {
    var tail := [FlagByte(f)] + rest;
    assert FieldBytes(f) + rest == Sized(f.name) + (Sized(f.storage) + tail);
    TakeTextOfSized(f.name, MAX_NAME_BYTES, Sized(f.storage) + tail);
    TakeTextOfSized(f.storage, MAX_TYPE_BYTES, tail);
    assert tail[0] == FlagByte(f) && tail[1..] == rest;
    FlagBits(f);
  }

  predicate FlagsAllowed(fs: seq<Field>, allowed: Byte)
  {
    forall i :: 0 <= i < |fs| ==> FlagByte(fs[i]) <= allowed
  }

  lemma TailNamesDistinct(fs: seq<Field>)
    requires fs != [] && Distinct(FieldNames(fs))
    ensures Distinct(FieldNames(fs[1..]))
    ensures forall i :: 0 <= i < |fs[1..]| ==> fs[1..][i].name != fs[0].name
  {
    var names := FieldNames(fs);
    assert names[0] == fs[0].name;
    assert forall i :: 0 <= i < |fs| - 1 ==> FieldNames(fs[1..])[i] == names[i + 1];
  }

  lemma {:induction false} ParseFieldsOfBytes(fs: seq<Field>, seen: set<Text>, allowed: Byte, rest: seq<Byte>)
    requires forall i :: 0 <= i < |fs| ==> FieldEncodable(fs[i]) && fs[i].name !in seen
    requires Distinct(FieldNames(fs))
    ensures ParseFields(FieldsBytes(fs) + rest, |fs|, seen, allowed)
            == if FlagsAllowed(fs, allowed) then Parsed(fs, rest) else Malformed
    decreases fs
  {
    hide ParseField, FieldBytes, FieldNames;
    if fs == [] {
      assert FieldsBytes(fs) + rest == rest;
    } else {
      var f, tail := fs[0], FieldsBytes(fs[1..]) + rest;
      assert FieldsBytes(fs) + rest == FieldBytes(f) + tail;
      ParseFieldOfBytes(f, seen, allowed, tail);
      TailNamesDistinct(fs);
      ParseFieldsOfBytes(fs[1..], seen + {f.name}, allowed, rest);
      assert fs == [f] + fs[1..];
      assert FlagsAllowed(fs, allowed) <==> FlagByte(f) <= allowed && FlagsAllowed(fs[1..], allowed);
    }
  }

  lemma {:induction false} ParseNamesOfBytes(ns: seq<Text>, known: set<Text>, seen: set<Text>, rest: seq<Byte>)
    requires Distinct(ns)
    requires forall i :: 0 <= i < |ns| ==> ns[i] in known && ns[i] !in seen && |ns[i]| <= MAX_NAME_BYTES
    ensures ParseNames(NamesBytes(ns) + rest, |ns|, known, seen) == Parsed(ns, rest)
    decreases ns
  {
    if ns == [] {
      assert NamesBytes(ns) + rest == rest;
    } else {
      var tail := NamesBytes(ns[1..]) + rest;
      assert NamesBytes(ns) + rest == Sized(ns[0]) + tail;
      TakeTextOfSized(ns[0], MAX_NAME_BYTES, tail);
      ParseNamesOfBytes(ns[1..], known, seen + {ns[0]}, rest);
      assert ns == [ns[0]] + ns[1..];
    }
  }

  lemma ConstraintBytesSplit(c: Constraint, rest: seq<Byte>)
    ensures ConstraintBytes(c) + rest
            == Sized(c.name) + ([Bit(c.unique)] + (U32(|c.fields|) + (NamesBytes(c.fields) + rest)))
  {
    hide U32, Sized, NamesBytes;
  }

  lemma ParseConstraintOfBytes(c: Constraint, known: set<Text>, fieldCount: nat, seen: set<Text>, rest: seq<Byte>)
    requires |c.name| <= MAX_NAME_BYTES && c.name !in known && c.name !in seen
    requires 2 <= |c.fields| <= fieldCount <= MAX_FIELDS && Distinct(c.fields)
    requires forall i :: 0 <= i < |c.fields| ==> c.fields[i] in known && |c.fields[i]| <= MAX_NAME_BYTES
    ensures ParseConstraint(ConstraintBytes(c) + rest, known, fieldCount, seen) == Parsed(c, rest)
  {
    hide U32, Sized, TakeText, TakeU32, ParseNames, NamesBytes, ConstraintBytes;
    var t3 := NamesBytes(c.fields) + rest;
    var t2 := U32(|c.fields|) + t3;
    var t1 := [Bit(c.unique)] + t2;
    ConstraintBytesSplit(c, rest);
    TakeTextOfSized(c.name, MAX_NAME_BYTES, t1);
    assert t1[0] == Bit(c.unique) && t1[1..] == t2;
    TakeU32OfU32(|c.fields|, t3);
    ParseNamesOfBytes(c.fields, known, {}, rest);
  }

  lemma {:induction false} ParseConstraintsOfBytes(cs: seq<Constraint>, fs: seq<Field>, seen: set<Text>,
                                                   rest: seq<Byte>)
    requires |fs| <= MAX_FIELDS && ConstraintsEncodable(cs, FieldNames(fs))
    requires forall i :: 0 <= i < |cs| ==> cs[i].name !in seen
    ensures ParseConstraints(ConstraintsBytes(cs) + rest, |cs|, NameSet(fs), |fs|, seen) == Parsed(cs, rest)
    decreases cs
  {
    hide ParseConstraint, ConstraintBytes, FieldNames;
    if cs == [] {
      assert ConstraintsBytes(cs) + rest == rest;
    } else {
      var tail := ConstraintsBytes(cs[1..]) + rest;
      assert ConstraintsBytes(cs) + rest == ConstraintBytes(cs[0]) + tail;
      assert ConstraintEncodable(cs[0], FieldNames(fs));
      ParseConstraintOfBytes(cs[0], NameSet(fs), |fs|, seen, tail);
      ParseConstraintsOfBytes(cs[1..], fs, seen + {cs[0].name}, rest);
      assert cs == [cs[0]] + cs[1..];
    }
  }

  /** A table with more constraints than the decoder's cap is written but cannot be read. */
  predicate WithinConstraintCap(t: Table, composite: bool)
  {
    composite ==> |t.constraints| <= MAX_FIELDS
  }

  lemma ParseConstraintSectionOfBytes(t: Table, composite: bool, rest: seq<Byte>)
    requires TableEncodable(t, composite)
    ensures ParseConstraintSection(ConstraintSection(t.constraints, composite) + rest, NameSet(t.fields), |t.fields|,
                                   composite)
            == if WithinConstraintCap(t, composite) then Parsed(t.constraints, rest) else Malformed
  {
    if composite {
      var cs := t.constraints;
      var tail := ConstraintsBytes(cs) + rest;
      assert ConstraintSection(cs, composite) + rest == U32(|cs|) + tail;
      TakeU32OfU32(|cs|, tail);
      ParseConstraintsOfBytes(cs, t.fields, {}, rest);
    } else {
      assert ConstraintSection(t.constraints, composite) + rest == rest;
    }
  }

  lemma {:induction false} ParseRowsOfBytes(rows: seq<seq<Byte>>, rest: seq<Byte>)
    requires forall i :: 0 <= i < |rows| ==> |rows[i]| <= MAX_ROW_BYTES
    ensures ParseRows(RowsBytes(rows) + rest, |rows|) == Parsed(rows, rest)
    decreases rows
  {
    hide U32, Sized, TakeData;
    if rows == [] {
      assert RowsBytes(rows) + rest == rest;
    } else {
      var tail := RowsBytes(rows[1..]) + rest;
      assert RowsBytes(rows) + rest == Sized(rows[0]) + tail;
      TakeDataOfSized(rows[0], MAX_ROW_BYTES, tail);
      ParseRowsOfBytes(rows[1..], rest);
      assert rows == [rows[0]] + rows[1..];
    }
  }

  predicate Readable(t: Table, allowed: Byte, composite: bool)
  {
    FlagsAllowed(t.fields, allowed) && WithinConstraintCap(t, composite)
  }

  lemma ParseFieldSectionOfBytes(t: Table, allowed: Byte, composite: bool, rest: seq<Byte>)
    requires TableEncodable(t, composite)
    ensures ParseFieldSection(U32(|t.fields|) + (FieldsBytes(t.fields) + rest), allowed)
            == if FlagsAllowed(t.fields, allowed) then Parsed(t.fields, rest) else Malformed
  {
    TakeU32OfU32(|t.fields|, FieldsBytes(t.fields) + rest);
    ParseFieldsOfBytes(t.fields, {}, allowed, rest);
  }

  lemma ParseRowSectionOfBytes(t: Table, composite: bool, rest: seq<Byte>)
    requires TableEncodable(t, composite)
    ensures ParseRowSection(U64(|t.rows|) + (RowsBytes(t.rows) + rest)) == Parsed(t.rows, rest)
  {
    TakeU64OfU64(|t.rows|, RowsBytes(t.rows) + rest);
    ParseRowsOfBytes(t.rows, rest);
  }

  lemma ParseTableOfBytes(t: Table, seen: set<Text>, allowed: Byte, composite: bool, rest: seq<Byte>)
    requires TableEncodable(t, composite) && t.name !in seen
    ensures ParseTable(TableBytes(t, composite) + rest, seen, allowed, composite)
            == if Readable(t, allowed, composite) then Parsed(t, rest) else Malformed
  {
    hide U32, U64, Sized, TakeText, ParseFieldSection, ParseConstraintSection, ParseRowSection, ConstraintSection,
         FieldsBytes, RowsBytes;
    var t4 := U64(|t.rows|) + (RowsBytes(t.rows) + rest);
    var t3 := ConstraintSection(t.constraints, composite) + t4;
    var t2 := U32(|t.fields|) + (FieldsBytes(t.fields) + t3);
    assert TableBytes(t, composite) + rest == Sized(t.name) + t2;
    TakeTextOfSized(t.name, MAX_NAME_BYTES, t2);
    ParseFieldSectionOfBytes(t, allowed, composite, t3);
    ParseConstraintSectionOfBytes(t, composite, t4);
    ParseRowSectionOfBytes(t, composite, rest);
  }

  predicate AllReadable(ts: seq<Table>, allowed: Byte, composite: bool)
  {
    forall i :: 0 <= i < |ts| ==> Readable(ts[i], allowed, composite)
  }

  lemma {:induction false} ParseTablesOfBytes(ts: seq<Table>, seen: set<Text>, allowed: Byte, composite: bool,
                                              rest: seq<Byte>)
    requires DistinctNames(ts)
    requires forall i :: 0 <= i < |ts| ==> TableEncodable(ts[i], composite) && ts[i].name !in seen
    ensures ParseTables(TablesBytes(ts, composite) + rest, |ts|, seen, allowed, composite)
            == if AllReadable(ts, allowed, composite) then Parsed(ts, rest) else Malformed
    decreases ts
  {
    hide ParseTable, TableBytes, TableEncodable, Readable;
    if ts == [] {
      assert TablesBytes(ts, composite) + rest == rest;
    } else {
      var tail := TablesBytes(ts[1..], composite) + rest;
      assert TablesBytes(ts, composite) + rest == TableBytes(ts[0], composite) + tail;
      ParseTableOfBytes(ts[0], seen, allowed, composite, tail);
      ParseTablesOfBytes(ts[1..], seen + {ts[0].name}, allowed, composite, rest);
      assert ts == [ts[0]] + ts[1..];
      assert AllReadable(ts, allowed, composite)
          <==> Readable(ts[0], allowed, composite) && AllReadable(ts[1..], allowed, composite);
    }
  }

  /** Every table of the snapshot can be read back by a decoder of this version. */
  predicate SnapshotReadable(s: Snapshot, allowed: Byte, composite: bool)
  {
    forall t :: t in s.tables ==> Readable(t, allowed, composite)
  }

  lemma SortedReadable(s: Snapshot, allowed: Byte, composite: bool)
    ensures AllReadable(Sorted(s.tables), allowed, composite) <==> SnapshotReadable(s, allowed, composite)
  {
    hide Readable, Sorted;
    var ts := Sorted(s.tables);
    assert forall t :: t in ts <==> t in multiset(ts);
    assert forall t :: t in s.tables <==> t in multiset(s.tables);
  }

  /**
   * Reading back an encoded snapshot yields its tables in name order, exactly when the decoder
   * knows every flag in it and no table exceeds the constraint cap; otherwise it is refused.
   */
  lemma PayloadRoundTrip(s: Snapshot, allowed: Byte, composite: bool)
    requires EncodePayload(s, composite).Some?
    ensures DecodePayload(EncodePayload(s, composite).value, allowed, composite)
            == if SnapshotReadable(s, allowed, composite) then Some(Snapshot(Sorted(s.tables))) else None
  {
    hide U32, TakeU32, ParseTables, TablesBytes, TableEncodable, AllReadable, SnapshotReadable, Sorted;
    var ts := Sorted(s.tables);
    TakeU32OfU32(|ts|, TablesBytes(ts, composite));
    ParseTablesOfBytes(ts, {}, allowed, composite, []);
    assert TablesBytes(ts, composite) + [] == TablesBytes(ts, composite);
    SortedReadable(s, allowed, composite);
  }

  /** The bytes, and whether there are any, do not depend on the order of the input tables. */
  lemma EncodingIgnoresTableOrder(a: Snapshot, b: Snapshot, composite: bool)
    requires multiset(a.tables) == multiset(b.tables)
    ensures EncodePayload(a, composite) == EncodePayload(b, composite)
  {
    if DistinctNames(Sorted(a.tables)) {
      DistinctNamesOfPermutation(Sorted(a.tables), a.tables);
      SortedIgnoresOrder(a.tables, b.tables);
    } else if DistinctNames(Sorted(b.tables)) {
      DistinctNamesOfPermutation(Sorted(b.tables), Sorted(a.tables));
    }
  }
}
