/** The encoder as it runs: loops that check while they push into a growing buffer. */
module StoreEncoder {
  import opened Options
  import opened Bytes
  import opened Checksum
  import opened Snapshots
  import opened PayloadCodec
  import opened PageCodec

  // ----- appending one element to an encoded list -----

  lemma {:induction false} NamesBytesAppend(ns: seq<Text>, n: Text)
    ensures NamesBytes(ns + [n]) == NamesBytes(ns) + Sized(n)
  {
    hide Sized;
    if ns == [] {
      assert ([] + [n])[1..] == [];
    } else {
      assert (ns + [n])[1..] == ns[1..] + [n];
      NamesBytesAppend(ns[1..], n);
    }
  }

  lemma {:induction false} RowsBytesAppend(rows: seq<seq<Byte>>, row: seq<Byte>)
    ensures RowsBytes(rows + [row]) == RowsBytes(rows) + Sized(row)
  {
    hide Sized;
    if rows == [] {
      assert ([] + [row])[1..] == [];
    } else {
      assert (rows + [row])[1..] == rows[1..] + [row];
      RowsBytesAppend(rows[1..], row);
    }
  }

  lemma {:induction false} FieldsBytesAppend(fs: seq<Field>, f: Field)
    ensures FieldsBytes(fs + [f]) == FieldsBytes(fs) + FieldBytes(f)
    ensures PrimaryCount(fs + [f]) == PrimaryCount(fs) + (if f.primary then 1 else 0)
  {
    hide FieldBytes;
    if fs == [] {
      assert ([] + [f])[1..] == [];
    } else {
      assert (fs + [f])[1..] == fs[1..] + [f];
      FieldsBytesAppend(fs[1..], f);
    }
  }

  lemma {:induction false} ConstraintsBytesAppend(cs: seq<Constraint>, c: Constraint)
    ensures ConstraintsBytes(cs + [c]) == ConstraintsBytes(cs) + ConstraintBytes(c)
  {
    hide ConstraintBytes;
    if cs == [] {
      assert ([] + [c])[1..] == [];
    } else {
      assert (cs + [c])[1..] == cs[1..] + [c];
      ConstraintsBytesAppend(cs[1..], c);
    }
  }

  lemma {:induction false} TablesBytesAppend(ts: seq<Table>, t: Table, composite: bool)
    ensures TablesBytes(ts + [t], composite) == TablesBytes(ts, composite) + TableBytes(t, composite)
  {
    hide TableBytes;
    if ts == [] {
      assert ([] + [t])[1..] == [];
    } else {
      assert (ts + [t])[1..] == ts[1..] + [t];
      TablesBytesAppend(ts[1..], t, composite);
    }
  }

  /** The payload of a prefix of the tables is no longer than the whole. */
  lemma {:induction false} PrefixShorter(ts: seq<Table>, i: nat, composite: bool)
    requires i <= |ts|
    ensures |TablesBytes(ts[..i], composite)| <= |TablesBytes(ts, composite)|
    decreases |ts| - i
  {
    hide TableBytes;
    if i < |ts| {
      PrefixShorter(ts, i + 1, composite);
      assert ts[..i + 1] == ts[..i] + [ts[i]];
      TablesBytesAppend(ts[..i], ts[i], composite);
    } else {
      assert ts[..i] == ts;
    }
  }

  // ----- the loops -----

  predicate NamesEncodable(names: seq<Text>, known: seq<Text>)
  {
    Distinct(names) && forall i :: 0 <= i < |names| ==> names[i] in known && |names[i]| <= MAX_NAME_BYTES
  }

  method PushNames(names: seq<Text>, known: seq<Text>) returns (r: Option<seq<Byte>>)
    ensures r == if NamesEncodable(names, known) then Some(NamesBytes(names)) else None
  {
    var seen: set<Text> := {};
    var out: seq<Byte> := [];
    assert NamesBytes(names[..0]) == [];
    hide Sized, NamesBytes;
    for i := 0 to |names|
      invariant out == NamesBytes(names[..i])
      invariant seen == set n | n in names[..i]
      invariant NamesEncodable(names[..i], known)
    {
      if names[i] !in known || names[i] in seen || |names[i]| > MAX_NAME_BYTES {
        return None;
      }
      NamesBytesAppend(names[..i], names[i]);
      assert names[..i + 1] == names[..i] + [names[i]];
      out := out + Sized(names[i]);
      seen := seen + {names[i]};
    }
    assert names[..|names|] == names;
    r := Some(out);
  }

  predicate FieldsEncodable(fs: seq<Field>)
  {
    Distinct(FieldNames(fs)) && forall i :: 0 <= i < |fs| ==> FieldEncodable(fs[i])
  }

  lemma DistinctAppend(fs: seq<Field>, i: nat)
    requires i < |fs| && Distinct(FieldNames(fs[..i]))
    ensures Distinct(FieldNames(fs[..i + 1])) <==> fs[i].name !in FieldNames(fs[..i])
    ensures Distinct(FieldNames(fs)) ==> Distinct(FieldNames(fs[..i + 1]))
    ensures forall n :: n in FieldNames(fs[..i + 1]) <==> n in FieldNames(fs[..i]) || n == fs[i].name
    ensures FieldNames(fs[..i + 1]) == FieldNames(fs[..i]) + [fs[i].name]
  {
    var all, short, long := FieldNames(fs), FieldNames(fs[..i]), FieldNames(fs[..i + 1]);
    assert long == short + [fs[i].name];
    assert long == all[..i + 1];
  }

  /** The fields before `i` are written. */
  ghost predicate FieldsWritten(fs: seq<Field>, i: nat, out: seq<Byte>, seen: set<Text>, primaries: nat)
    requires i <= |fs|
  {
    && out == FieldsBytes(fs[..i]) && primaries == PrimaryCount(fs[..i]) && FieldsEncodable(fs[..i])
    && forall n :: n in seen <==> n in FieldNames(fs[..i])
  }

  lemma FieldsNext(fs: seq<Field>, i: nat, out: seq<Byte>, seen: set<Text>, primaries: nat)
    requires i < |fs| && FieldsWritten(fs, i, out, seen, primaries) && fs[i].name !in seen && FieldEncodable(fs[i])
    ensures FieldsWritten(fs, i + 1, out + FieldBytes(fs[i]), seen + {fs[i].name},
                          primaries + if fs[i].primary then 1 else 0)
  {
    hide FieldBytes, PrimaryCount, FieldNames, FieldsBytes, Distinct, FieldEncodable;
    DistinctAppend(fs, i);
    FieldsBytesAppend(fs[..i], fs[i]);
    assert fs[..i + 1] == fs[..i] + [fs[i]];
  }

  lemma FieldsRefused(fs: seq<Field>, i: nat, out: seq<Byte>, seen: set<Text>, primaries: nat)
    requires i < |fs| && FieldsWritten(fs, i, out, seen, primaries) && (fs[i].name in seen || !FieldEncodable(fs[i]))
    ensures !FieldsEncodable(fs)
  {
    hide PrimaryCount, FieldNames, FieldsBytes, Distinct, FieldEncodable;
    DistinctAppend(fs, i);
  }

  lemma FieldsDone(fs: seq<Field>, out: seq<Byte>, seen: set<Text>, primaries: nat)
    requires FieldsWritten(fs, |fs|, out, seen, primaries)
    ensures FieldsEncodable(fs) && out == FieldsBytes(fs) && primaries == PrimaryCount(fs)
  {
    hide PrimaryCount, FieldNames, FieldsBytes, FieldsEncodable;
    assert fs[..|fs|] == fs;
  }

  /** Field section: every field within its limits, names distinct, exactly one primary key. */
  method PushFields(fs: seq<Field>) returns (r: Option<seq<Byte>>)
    ensures r.Some? <==> FieldsEncodable(fs) && PrimaryCount(fs) == 1
    ensures r.Some? ==> r.value == FieldsBytes(fs)
  {
    var seen: set<Text> := {};
    var out: seq<Byte> := [];
    var primaries := 0;
    assert FieldsWritten(fs, 0, out, seen, primaries);
    hide FieldsWritten, FieldsEncodable, FieldsBytes, FieldBytes, PrimaryCount;
    for i := 0 to |fs|
      invariant primaries >= 0 && FieldsWritten(fs, i, out, seen, primaries)
    {
      if fs[i].name in seen || |fs[i].name| > MAX_NAME_BYTES || |fs[i].storage| > MAX_TYPE_BYTES {
        FieldsRefused(fs, i, out, seen, primaries);
        return None;
      }
      FieldsNext(fs, i, out, seen, primaries);
      out := out + FieldBytes(fs[i]);
      seen := seen + {fs[i].name};
      primaries := primaries + if fs[i].primary then 1 else 0;
    }
    FieldsDone(fs, out, seen, primaries);
    if primaries != 1 {
      return None;
    }
    r := Some(out);
  }

  method PushConstraint(c: Constraint, known: seq<Text>) returns (r: Option<seq<Byte>>)
    ensures r == if ConstraintEncodable(c, known) then Some(ConstraintBytes(c)) else None
  {
    hide Sized, NamesBytes, U32;
    if |c.name| > MAX_NAME_BYTES || c.name in known || |c.fields| < 2 || |c.fields| > |known| {
      return None;
    }
    var names := PushNames(c.fields, known);
    if names.None? {
      return None;
    }
    r := Some(Sized(c.name) + [Bit(c.unique)] + U32(|c.fields|) + names.value);
  }

  predicate ConstraintListOk(cs: seq<Constraint>, known: seq<Text>)
  {
    && (forall i :: 0 <= i < |cs| ==> ConstraintEncodable(cs[i], known))
    && (forall i, j :: 0 <= i < j < |cs| ==> cs[i].name != cs[j].name)
  }

  /** The constraints before `i` are written. */
  ghost predicate ConstraintsWritten(cs: seq<Constraint>, known: seq<Text>, i: nat, out: seq<Byte>, seen: set<Text>)
    requires i <= |cs|
  {
    && out == ConstraintsBytes(cs[..i]) && ConstraintListOk(cs[..i], known)
    && (forall j :: 0 <= j < i ==> cs[j].name in seen)
    && (forall n :: n in seen ==> exists j :: 0 <= j < i && cs[j].name == n)
  }

  lemma ConstraintsNext(cs: seq<Constraint>, known: seq<Text>, i: nat, out: seq<Byte>, seen: set<Text>)
    requires i < |cs| && ConstraintsWritten(cs, known, i, out, seen) && cs[i].name !in seen
             && ConstraintEncodable(cs[i], known)
    ensures ConstraintsWritten(cs, known, i + 1, out + ConstraintBytes(cs[i]), seen + {cs[i].name})
  {
    hide ConstraintBytes, ConstraintEncodable, ConstraintsBytes;
    ConstraintsBytesAppend(cs[..i], cs[i]);
    assert cs[..i + 1] == cs[..i] + [cs[i]];
  }

  lemma ConstraintsRefused(cs: seq<Constraint>, known: seq<Text>, i: nat, out: seq<Byte>, seen: set<Text>)
    requires i < |cs| && ConstraintsWritten(cs, known, i, out, seen)
             && (cs[i].name in seen || !ConstraintEncodable(cs[i], known))
    ensures !ConstraintListOk(cs, known)
  {
    hide ConstraintEncodable, ConstraintsBytes;
  }

  lemma ConstraintsDone(cs: seq<Constraint>, known: seq<Text>, out: seq<Byte>, seen: set<Text>)
    requires ConstraintsWritten(cs, known, |cs|, out, seen)
    ensures ConstraintListOk(cs, known) && out == ConstraintsBytes(cs)
  {
    hide ConstraintListOk, ConstraintsBytes;
    assert cs[..|cs|] == cs;
  }

  lemma ConstraintsSpec(cs: seq<Constraint>, known: seq<Text>)
    ensures ConstraintsEncodable(cs, known) <==> |cs| < U32_LIMIT && ConstraintListOk(cs, known)
  {
    hide ConstraintEncodable;
  }

  method PushConstraints(cs: seq<Constraint>, known: seq<Text>) returns (r: Option<seq<Byte>>)
    ensures r == if ConstraintsEncodable(cs, known) then Some(U32(|cs|) + ConstraintsBytes(cs)) else None
  {
    ConstraintsSpec(cs, known);
    if |cs| >= U32_LIMIT {
      return None;
    }
    var seen: set<Text> := {};
    var out: seq<Byte> := [];
    assert ConstraintsWritten(cs, known, 0, out, seen);
    hide ConstraintsWritten, ConstraintListOk, ConstraintsBytes, ConstraintBytes, ConstraintEncodable,
         ConstraintsEncodable, U32;
    for i := 0 to |cs|
      invariant ConstraintsWritten(cs, known, i, out, seen)
    {
      var one := PushConstraint(cs[i], known);
      if one.None? || cs[i].name in seen {
        ConstraintsRefused(cs, known, i, out, seen);
        return None;
      }
      ConstraintsNext(cs, known, i, out, seen);
      out := out + one.value;
      seen := seen + {cs[i].name};
    }
    ConstraintsDone(cs, known, out, seen);
    r := Some(U32(|cs|) + out);
  }

  method PushRows(rows: seq<seq<Byte>>) returns (r: Option<seq<Byte>>)
    ensures r == if forall i :: 0 <= i < |rows| ==> |rows[i]| <= MAX_ROW_BYTES then Some(RowsBytes(rows)) else None
  {
    var out: seq<Byte> := [];
    assert rows[..0] == [];
    for i := 0 to |rows|
      invariant out == RowsBytes(rows[..i])
      invariant forall j :: 0 <= j < i ==> |rows[j]| <= MAX_ROW_BYTES
    {
      hide Sized, RowsBytes;
      if |rows[i]| > MAX_ROW_BYTES {
        return None;
      }
      RowsBytesAppend(rows[..i], rows[i]);
      assert rows[..i + 1] == rows[..i] + [rows[i]];
      out := out + Sized(rows[i]);
    }
    assert rows[..|rows|] == rows;
    r := Some(out);
  }

  method PushTable(t: Table, composite: bool) returns (r: Option<seq<Byte>>)
    ensures r == if TableEncodable(t, composite) then Some(TableBytes(t, composite)) else None
  {
    hide Sized, U32, U64, FieldsBytes, ConstraintsBytes, RowsBytes, ConstraintsEncodable, PrimaryCount, FieldNames;
    if |t.name| > MAX_NAME_BYTES || |t.fields| == 0 || |t.fields| > MAX_FIELDS {
      return None;
    }
    var fields := PushFields(t.fields);
    if fields.None? || |t.rows| > MAX_ROWS {
      return None;
    }
    var constraints: seq<Byte> := [];
    if composite {
      var section := PushConstraints(t.constraints, FieldNames(t.fields));
      if section.None? {
        return None;
      }
      constraints := section.value;
    } else if t.constraints != [] {
      return None;
    }
    var rows := PushRows(t.rows);
    if rows.None? {
      return None;
    }
    r := Some(Sized(t.name) + (U32(|t.fields|) + (fields.value + (constraints + (U64(|t.rows|) + rows.value)))));
  }

  predicate TableListOk(ts: seq<Table>, composite: bool)
  {
    DistinctNames(ts) && forall i :: 0 <= i < |ts| ==> TableEncodable(ts[i], composite)
  }

  predicate SeenNames(ts: seq<Table>, seen: set<Text>)
  {
    seen == set j | 0 <= j < |ts| :: ts[j].name
  }

  /** The loop state after a prefix: everything in it accepted, its bytes and names collected. */
  predicate Progress(ts: seq<Table>, seen: set<Text>, body: seq<Byte>, composite: bool)
  {
    && TableListOk(ts, composite) && SeenNames(ts, seen) && body == TablesBytes(ts, composite)
    && (ts != [] ==> 4 + |body| <= MAX_FILE_BYTES - PAGE_SIZE)
  }

  predicate NextOk(t: Table, seen: set<Text>, body: seq<Byte>, composite: bool)
  {
    && t.name !in seen && TableEncodable(t, composite)
    && 4 + |body| + |TableBytes(t, composite)| <= MAX_FILE_BYTES - PAGE_SIZE
  }

  lemma TableListExtends(ts: seq<Table>, t: Table, seen: set<Text>, composite: bool)
    requires TableListOk(ts, composite) && SeenNames(ts, seen)
    ensures TableListOk(ts + [t], composite) <==> TableEncodable(t, composite) && t.name !in seen
    ensures SeenNames(ts + [t], seen + {t.name})
  {
    hide TableEncodable;
    var p := ts + [t];
    assert forall j :: 0 <= j < |ts| ==> p[j] == ts[j];
    assert p[|ts|] == t;
  }

  lemma ProgressExtends(ts: seq<Table>, i: nat, seen: set<Text>, body: seq<Byte>, composite: bool)
    requires i < |ts| && Progress(ts[..i], seen, body, composite)
    ensures NextOk(ts[i], seen, body, composite) ==>
              Progress(ts[..i + 1], seen + {ts[i].name}, body + TableBytes(ts[i], composite), composite)
    ensures !NextOk(ts[i], seen, body, composite) ==> !TablesEncodable(ts, composite)
  {
    if TablesEncodable(ts, composite) {
      hide TableEncodable, TablesBytes;
      assert TableListOk(ts[..i + 1], composite) && 4 + |TablesBytes(ts, composite)| <= MAX_FILE_BYTES - PAGE_SIZE;
    }
    hide TableListOk, TableBytes, TablesBytes, TableEncodable, TablesEncodable, SeenNames;
    assert ts[..i + 1] == ts[..i] + [ts[i]];
    TableListExtends(ts[..i], ts[i], seen, composite);
    TablesBytesAppend(ts[..i], ts[i], composite);
    PrefixShorter(ts, i + 1, composite);
  }

  lemma ProgressComplete(ts: seq<Table>, seen: set<Text>, body: seq<Byte>, composite: bool)
    requires |ts| <= MAX_TABLES && Progress(ts, seen, body, composite)
    ensures TablesEncodable(ts, composite) && U32(|ts|) + body == PayloadBytes(ts, composite)
  {
    hide TableEncodable, TablesBytes, U32;
  }

  /** The whole payload, tables in name order. */
  method EncodePayloadLoop(s: Snapshot, composite: bool) returns (r: Option<seq<Byte>>)
    ensures r == EncodePayload(s, composite)
  {
    hide Sorted, PayloadBytes, TableEncodable;
    var ts := Sorted(s.tables);
    SortedLength(s.tables);
    if |s.tables| > MAX_TABLES {
      return None;
    }
    r := PushTables(ts, composite);
  }

  /** The table loop: a duplicate name, the table itself and the running size are checked in turn. */
  method PushTables(ts: seq<Table>, composite: bool) returns (r: Option<seq<Byte>>)
    requires |ts| <= MAX_TABLES
    ensures r.Some? <==> TablesEncodable(ts, composite)
    ensures r.Some? ==> r.value == PayloadBytes(ts, composite)
  {
    var seen: set<Text> := {};
    var body: seq<Byte> := [];
    assert ts[..0] == [];
    for i := 0 to |ts|
      invariant Progress(ts[..i], seen, body, composite)
    {
      hide TableEncodable, TableBytes, TablesEncodable, PayloadBytes, Progress;
      ProgressExtends(ts, i, seen, body, composite);
      var one := PushTable(ts[i], composite);
      if ts[i].name in seen || one.None? || 4 + |body| + |one.value| > MAX_FILE_BYTES - PAGE_SIZE {
        return None;
      }
      body := body + one.value;
      seen := seen + {ts[i].name};
    }
    assert ts[..|ts|] == ts;
    ProgressComplete(ts, seen, body, composite);
    r := Some(U32(|ts|) + body);
  }

  // ----- pages written into a zeroed buffer -----

  /** The buffer holds `done` and is zero from there on. */
  ghost predicate Holds(a: array<Byte>, done: seq<Byte>)
    reads a
  {
    |done| <= a.Length && a[..] == done + Zeros(a.Length - |done|)
  }

  /** Copies `data` to `start`, at or after the end of what was written. */
  method Put(a: array<Byte>, ghost done: seq<Byte>, start: nat, data: seq<Byte>)
    requires Holds(a, done) && |done| <= start && start + |data| <= a.Length
    modifies a
    ensures Holds(a, done + Zeros(start - |done|) + data)
  {
    for i := 0 to |data|
      invariant forall j :: 0 <= j < a.Length ==>
        a[j] == if start <= j < start + i then data[j - start] else if j < |done| then done[j] else 0
    {
      a[start + i] := data[i];
    }
  }

  lemma HoldsMore(a: array<Byte>, done: seq<Byte>, k: nat)
    requires Holds(a, done) && |done| + k <= a.Length
    ensures Holds(a, done + Zeros(k))
  {
  }

  /** Writes one data page behind the pages already in the buffer. */
  method PutPage(a: array<Byte>, ghost done: seq<Byte>, number: nat, next: nat, data: seq<Byte>)
    requires Holds(a, done) && |done| == number * PAGE_SIZE
    requires (number + 1) * PAGE_SIZE <= a.Length && |data| <= PAGE_PAYLOAD_SIZE
    modifies a
    ensures Holds(a, done + PageOf(number, next, data))
  {
    hide U32, U64, Fnv1a, Holds;
    var start := number * PAGE_SIZE;
    var sum := Compute(data);
    ghost var d1 := done + [1] + Zeros(3) + U32(number);
    ghost var d2 := d1 + U32(|data|);
    ghost var d3 := d2 + U32(next);
    ghost var d4 := d3 + U64(sum);
    Put(a, done, start, [1]);
    assert done + Zeros(0) + [1] == done + [1];
    Put(a, done + [1], start + 4, U32(number));
    Put(a, d1, start + 8, U32(|data|));
    assert d1 + Zeros(0) + U32(|data|) == d2;
    Put(a, d2, start + 12, U32(next));
    assert d2 + Zeros(0) + U32(next) == d3;
    Put(a, d3, start + 16, U64(sum));
    assert d3 + Zeros(0) + U64(sum) == d4;
    Put(a, d4, start + PAGE_HEADER_SIZE, data);
    assert d4 + Zeros(8) + data == done + (PageHeader(number, next, data) + data);
    HoldsMore(a, done + (PageHeader(number, next, data) + data), PAGE_PAYLOAD_SIZE - |data|);
    assert done + (PageHeader(number, next, data) + data) + Zeros(PAGE_PAYLOAD_SIZE - |data|)
        == done + PageOf(number, next, data);
  }

  /** Writes the header page at the front of the zeroed buffer. */
  method PutHeader(a: array<Byte>, payload: seq<Byte>, generation: nat, version: nat, pages: nat)
    requires Holds(a, []) && PAGE_SIZE <= a.Length
    modifies a
    ensures Holds(a, HeaderPage(payload, generation, version, pages))
  {
    hide U32, U64, Fnv1a, Holds;
    var sum := Compute(payload);
    var prefix := MAGIC + (U32(version) + (U32(PAGE_SIZE) + (U64(generation) +
      (U64(|payload|) + (U64(pages) + (U64(sum) + U64(0)))))));
    assert prefix == HeaderPrefix(payload, generation, version, pages);
    Put(a, [], 0, prefix);
    assert [] + Zeros(0) + prefix == prefix;
    var header := Compute(prefix);
    Put(a, prefix, 56, U64(header));
    assert prefix + Zeros(0) + U64(header) == prefix + U64(header);
    HoldsMore(a, prefix + U64(header), PAGE_SIZE - 64);
    assert prefix + U64(header) + Zeros(PAGE_SIZE - 64) == HeaderPage(payload, generation, version, pages);
  }

  method EncodePagesLoop(s: Snapshot, generation: nat, version: nat, composite: bool) returns (r: Option<seq<Byte>>)
    ensures r == EncodePages(s, generation, version, composite)
  {
    hide EncodePayload;
    var encoded := EncodePayloadLoop(s, composite);
    if encoded.None? {
      return None;
    }
    var payload := encoded.value;
    var n := DataPages(|payload|);
    if n + 1 > MAX_PAGES {
      return None;
    }
    var image := FillPages(payload, generation, version, n);
    r := Some(image);
  }

  /** Cuts the payload into data pages behind the header, page by page, in a zeroed buffer. */
  method FillPages(payload: seq<Byte>, generation: nat, version: nat, n: nat) returns (image: seq<Byte>)
    requires n == DataPages(|payload|)
    ensures image == Image(payload, generation, version)
  {
    hide PageOf, HeaderPage, DataPages, Chunk;
    var a := new Byte[(n + 1) * PAGE_SIZE](_ => 0);
    assert a[..] == Zeros(a.Length) && [] + Zeros(a.Length) == Zeros(a.Length);
    PutHeader(a, payload, generation, version, n + 1);
    ghost var header := HeaderPage(payload, generation, version, n + 1);
    ghost var pages: seq<Byte> := [];
    assert header + pages == header;
    for k := 0 to n
      invariant fresh(a) && a.Length == (n + 1) * PAGE_SIZE
      invariant |pages| == k * PAGE_SIZE && Holds(a, header + pages)
      invariant pages + DataPagesFrom(payload, k, n) == DataPagesFrom(payload, 0, n)
    {
      hide Holds;
      var next := if k + 1 == n then 0 else k + 2;
      PutPage(a, header + pages, k + 1, next, Chunk(payload, k));
      ghost var page := DataPage(payload, k, n);
      assert pages + DataPagesFrom(payload, k, n) == (pages + page) + DataPagesFrom(payload, k + 1, n);
      assert header + pages + page == header + (pages + page);
      pages := pages + page;
    }
    assert pages == DataPagesFrom(payload, 0, n);
    image := a[..];
    assert header + pages + Zeros(0) == header + pages;
  }
}
