/** The decoder as it runs: a cursor over the payload and loops that check as they read. */
module StoreDecoder {
  import opened Options
  import opened Bytes
  import opened Checksum
  import opened Snapshots
  import opened PayloadCodec
  import opened PageCodec

  class Reader {
    const bytes: seq<Byte>
    var at: nat

    ghost predicate Valid()
      reads this
    {
      at <= |bytes|
    }

    /** The bytes not read yet. */
    ghost function Rest(): seq<Byte>
      requires Valid()
      reads this
    {
      bytes[at..]
    }

    constructor (bytes: seq<Byte>)
      ensures Valid() && Rest() == bytes && this.bytes == bytes
    {
      this.bytes := bytes;
      at := 0;
    }

    /** Success leaves exactly what the parser leaves; failure is the parser's failure. */
    ghost predicate Follows<T>(p: Parsed<T>, r: Option<T>)
      reads this
    {
      && Valid()
      && (p.Parsed? ==> r == Some(p.value) && Rest() == p.rest)
      && (p.Malformed? ==> r == None)
    }

    method Take(length: nat) returns (r: Option<seq<Byte>>)
      requires Valid()
      modifies this`at
      ensures Follows(TakeBytes(old(Rest()), length), r)
    {
      if at + length > |bytes| {
        return None;
      }
      r := Some(bytes[at..at + length]);
      at := at + length;
      assert bytes[at..] == old(bytes[at..])[length..];
      assert r.value == old(bytes[at..])[..length];
    }

    method ReadByte() returns (r: Option<Byte>)
      requires Valid()
      modifies this`at
      ensures Follows(TakeByte(old(Rest())), r)
    {
      var b := Take(1);
      r := if b.Some? then Some(b.value[0]) else None;
    }

    method ReadCount() returns (r: Option<nat>)
      requires Valid()
      modifies this`at
      ensures Follows(TakeU32(old(Rest())), r)
    {
      hide FromLe;
      var b := Take(4);
      r := if b.Some? then Some(FromLe(b.value)) else None;
    }

    method ReadLong() returns (r: Option<nat>)
      requires Valid()
      modifies this`at
      ensures Follows(TakeU64(old(Rest())), r)
    {
      hide FromLe;
      var b := Take(8);
      r := if b.Some? then Some(FromLe(b.value)) else None;
    }

    method Data(limit: nat) returns (r: Option<seq<Byte>>)
      requires Valid()
      modifies this`at
      ensures Follows(TakeData(old(Rest()), limit), r)
    {
      hide TakeU32;
      var length := ReadCount();
      if length.None? || length.value > limit {
        return None;
      }
      r := Take(length.value);
    }

    method ReadText(limit: nat) returns (r: Option<Text>)
      requires Valid()
      modifies this`at
      ensures Follows(TakeText(old(Rest()), limit), r)
    {
      hide TakeData;
      var b := Data(limit);
      if b.None? || !Utf8(b.value) {
        return None;
      }
      r := Some(b.value);
    }
  }

  // ----- a loop that reads a list, against the recursive parser of that list -----

  /** Prepending what the loop has read so far to what the parser says about the rest. */
  function Resume<T>(done: seq<T>, p: Parsed<seq<T>>): Parsed<seq<T>>
  {
    match p
    case Malformed => Malformed
    case Parsed(more, rest) => Parsed(done + more, rest)
  }

  lemma ResumeNothing<T>(p: Parsed<seq<T>>)
    ensures Resume([], p) == p
  {
    if p.Parsed? {
      assert [] + p.value == p.value;
    }
  }

  lemma ResumeAll<T>(done: seq<T>, rest: seq<Byte>)
    ensures Resume(done, Parsed([], rest)) == Parsed(done, rest)
  {
    assert done + [] == done;
  }

  lemma ResumeStep<T>(done: seq<T>, x: T, p: Parsed<seq<T>>)
    ensures Resume(done, Resume([x], p)) == Resume(done + [x], p)
  {
    if p.Parsed? {
      assert done + ([x] + p.value) == (done + [x]) + p.value;
    }
  }

  method ReadField(reader: Reader, seen: set<Text>, allowed: Byte) returns (r: Option<Field>)
    requires reader.Valid()
    modifies reader`at
    ensures reader.Follows(ParseField(old(reader.Rest()), seen, allowed), r)
  {
    hide TakeText, TakeByte;
    var name := reader.ReadText(MAX_NAME_BYTES);
    if name.None? || name.value in seen {
      return None;
    }
    var storage := reader.ReadText(MAX_TYPE_BYTES);
    if storage.None? {
      return None;
    }
    var flags := reader.ReadByte();
    if flags.None? || flags.value > allowed {
      return None;
    }
    r := Some(FieldOf(name.value, storage.value, flags.value));
  }

  method ReadFields(reader: Reader, n: nat, allowed: Byte) returns (r: Option<seq<Field>>)
    requires reader.Valid()
    modifies reader`at
    ensures reader.Follows(ParseFields(old(reader.Rest()), n, {}, allowed), r)
  {
    var fields: seq<Field> := [];
    var seen: set<Text> := {};
    ghost var whole := ParseFields(reader.Rest(), n, {}, allowed);
    ResumeNothing(whole);
    for i := 0 to n
      invariant reader.Valid()
      invariant whole == Resume(fields, ParseFields(reader.Rest(), n - i, seen, allowed))
    {
      hide ParseField;
      ghost var before := reader.Rest();
      var f := ReadField(reader, seen, allowed);
      if f.None? {
        return None;
      }
      ghost var tail := ParseFields(reader.Rest(), n - i - 1, seen + {f.value.name}, allowed);
      assert ParseFields(before, n - i, seen, allowed) == Resume([f.value], tail);
      ResumeStep(fields, f.value, tail);
      fields := fields + [f.value];
      seen := seen + {f.value.name};
    }
    ResumeAll(fields, reader.Rest());
    r := Some(fields);
  }

  method ReadNames(reader: Reader, n: nat, known: set<Text>) returns (r: Option<seq<Text>>)
    requires reader.Valid()
    modifies reader`at
    ensures reader.Follows(ParseNames(old(reader.Rest()), n, known, {}), r)
  {
    var names: seq<Text> := [];
    var seen: set<Text> := {};
    ghost var whole := ParseNames(reader.Rest(), n, known, {});
    ResumeNothing(whole);
    for i := 0 to n
      invariant reader.Valid()
      invariant whole == Resume(names, ParseNames(reader.Rest(), n - i, known, seen))
    {
      hide TakeText;
      ghost var before := reader.Rest();
      var name := reader.ReadText(MAX_NAME_BYTES);
      if name.None? || name.value !in known || name.value in seen {
        return None;
      }
      ghost var tail := ParseNames(reader.Rest(), n - i - 1, known, seen + {name.value});
      assert ParseNames(before, n - i, known, seen) == Resume([name.value], tail);
      ResumeStep(names, name.value, tail);
      names := names + [name.value];
      seen := seen + {name.value};
    }
    ResumeAll(names, reader.Rest());
    r := Some(names);
  }

  method ReadConstraint(reader: Reader, known: set<Text>, fieldCount: nat, seen: set<Text>)
      returns (r: Option<Constraint>)
    requires reader.Valid()
    modifies reader`at
    ensures reader.Follows(ParseConstraint(old(reader.Rest()), known, fieldCount, seen), r)
  {
    hide TakeText, TakeByte, TakeU32, ParseNames;
    var name := reader.ReadText(MAX_NAME_BYTES);
    if name.None? || name.value in known || name.value in seen {
      return None;
    }
    var flags := reader.ReadByte();
    if flags.None? || flags.value > 1 {
      return None;
    }
    var count := reader.ReadCount();
    if count.None? || count.value < 2 || count.value > fieldCount {
      return None;
    }
    var names := ReadNames(reader, count.value, known);
    if names.None? {
      return None;
    }
    r := Some(Constraint(name.value, flags.value == 1, names.value));
  }

  method ReadConstraints(reader: Reader, n: nat, known: set<Text>, fieldCount: nat) returns (r: Option<seq<Constraint>>)
    requires reader.Valid()
    modifies reader`at
    ensures reader.Follows(ParseConstraints(old(reader.Rest()), n, known, fieldCount, {}), r)
  {
    var constraints: seq<Constraint> := [];
    var seen: set<Text> := {};
    ghost var whole := ParseConstraints(reader.Rest(), n, known, fieldCount, {});
    ResumeNothing(whole);
    for i := 0 to n
      invariant reader.Valid()
      invariant whole == Resume(constraints, ParseConstraints(reader.Rest(), n - i, known, fieldCount, seen))
    {
      hide ParseConstraint;
      ghost var before := reader.Rest();
      var c := ReadConstraint(reader, known, fieldCount, seen);
      if c.None? {
        return None;
      }
      ghost var tail := ParseConstraints(reader.Rest(), n - i - 1, known, fieldCount, seen + {c.value.name});
      assert ParseConstraints(before, n - i, known, fieldCount, seen) == Resume([c.value], tail);
      ResumeStep(constraints, c.value, tail);
      constraints := constraints + [c.value];
      seen := seen + {c.value.name};
    }
    ResumeAll(constraints, reader.Rest());
    r := Some(constraints);
  }

  method ReadRows(reader: Reader, n: nat) returns (r: Option<seq<seq<Byte>>>)
    requires reader.Valid()
    modifies reader`at
    ensures reader.Follows(ParseRows(old(reader.Rest()), n), r)
  {
    var rows: seq<seq<Byte>> := [];
    ghost var whole := ParseRows(reader.Rest(), n);
    ResumeNothing(whole);
    for i := 0 to n
      invariant reader.Valid()
      invariant whole == Resume(rows, ParseRows(reader.Rest(), n - i))
    {
      hide TakeData;
      ghost var before := reader.Rest();
      var row := reader.Data(MAX_ROW_BYTES);
      if row.None? {
        return None;
      }
      ghost var tail := ParseRows(reader.Rest(), n - i - 1);
      assert ParseRows(before, n - i) == Resume([row.value], tail);
      ResumeStep(rows, row.value, tail);
      rows := rows + [row.value];
    }
    ResumeAll(rows, reader.Rest());
    r := Some(rows);
  }

  method ReadFieldSection(reader: Reader, allowed: Byte) returns (r: Option<seq<Field>>)
    requires reader.Valid()
    modifies reader`at
    ensures reader.Follows(ParseFieldSection(old(reader.Rest()), allowed), r)
  {
    hide TakeU32, ParseFields, PrimaryCount;
    var count := reader.ReadCount();
    if count.None? || count.value == 0 || count.value > MAX_FIELDS {
      return None;
    }
    var fields := ReadFields(reader, count.value, allowed);
    if fields.None? || PrimaryCount(fields.value) != 1 {
      return None;
    }
    r := fields;
  }

  method ReadConstraintSection(reader: Reader, known: set<Text>, fieldCount: nat, composite: bool)
    returns (r: Option<seq<Constraint>>)
    requires reader.Valid()
    modifies reader`at
    ensures reader.Follows(ParseConstraintSection(old(reader.Rest()), known, fieldCount, composite), r)
  {
    hide TakeU32, ParseConstraints;
    if !composite {
      return Some([]);
    }
    var count := reader.ReadCount();
    if count.None? || count.value > MAX_FIELDS {
      return None;
    }
    r := ReadConstraints(reader, count.value, known, fieldCount);
  }

  method ReadRowSection(reader: Reader) returns (r: Option<seq<seq<Byte>>>)
    requires reader.Valid()
    modifies reader`at
    ensures reader.Follows(ParseRowSection(old(reader.Rest())), r)
  {
    hide TakeU64, ParseRows;
    var count := reader.ReadLong();
    if count.None? || count.value > MAX_ROWS {
      return None;
    }
    r := ReadRows(reader, count.value);
  }

  method ReadTable(reader: Reader, seen: set<Text>, allowed: Byte, composite: bool) returns (r: Option<Table>)
    requires reader.Valid()
    modifies reader`at
    ensures reader.Follows(ParseTable(old(reader.Rest()), seen, allowed, composite), r)
  {
    hide TakeText, ParseFieldSection, ParseConstraintSection, ParseRowSection, NameSet;
    var name := reader.ReadText(MAX_NAME_BYTES);
    if name.None? || name.value in seen {
      return None;
    }
    var fields := ReadFieldSection(reader, allowed);
    if fields.None? {
      return None;
    }
    var constraints := ReadConstraintSection(reader, NameSet(fields.value), |fields.value|, composite);
    if constraints.None? {
      return None;
    }
    var rows := ReadRowSection(reader);
    if rows.None? {
      return None;
    }
    r := Some(Table(name.value, fields.value, constraints.value, rows.value));
  }

  method ReadTables(reader: Reader, n: nat, allowed: Byte, composite: bool) returns (r: Option<seq<Table>>)
    requires reader.Valid()
    modifies reader`at
    ensures reader.Follows(ParseTables(old(reader.Rest()), n, {}, allowed, composite), r)
  {
    hide ParseTables, ParseTable, Resume;
    var tables: seq<Table> := [];
    var seen: set<Text> := {};
    ghost var whole := ParseTables(reader.Rest(), n, {}, allowed, composite);
    ResumeNothing(whole);
    for i := 0 to n
      invariant reader.Valid()
      invariant whole == Resume(tables, ParseTables(reader.Rest(), n - i, seen, allowed, composite))
    {
      TablesStep(reader.Rest(), n - i, seen, allowed, composite, tables);
      ghost var before := reader.Rest();
      var t := ReadTable(reader, seen, allowed, composite);
      if t.None? {
        return None;
      }
      tables := tables + [t.value];
      seen := seen + {t.value.name};
    }
    TablesEnd(reader.Rest(), seen, allowed, composite, tables);
    r := Some(tables);
  }

  /** One table read is one step of the parser. */
  lemma TablesStep(b: seq<Byte>, n: nat, seen: set<Text>, allowed: Byte, composite: bool, done: seq<Table>)
    requires n > 0
    ensures match ParseTable(b, seen, allowed, composite)
            case Malformed => Resume(done, ParseTables(b, n, seen, allowed, composite)).Malformed?
            case Parsed(t, rest) =>
              Resume(done, ParseTables(b, n, seen, allowed, composite)) ==
              Resume(done + [t], ParseTables(rest, n - 1, seen + {t.name}, allowed, composite))
  {
    hide ParseTable;
    match ParseTable(b, seen, allowed, composite)
    case Malformed =>
    case Parsed(t, rest) => ResumeStep(done, t, ParseTables(rest, n - 1, seen + {t.name}, allowed, composite));
  }

  lemma TablesEnd(b: seq<Byte>, seen: set<Text>, allowed: Byte, composite: bool, done: seq<Table>)
    ensures Resume(done, ParseTables(b, 0, seen, allowed, composite)) == Parsed(done, b)
  {
    ResumeAll(done, b);
  }

  method DecodePayloadLoop(payload: seq<Byte>, allowed: Byte, composite: bool) returns (r: Option<Snapshot>)
    ensures r == DecodePayload(payload, allowed, composite)
  {
    hide TakeU32, ParseTables;
    var reader := new Reader(payload);
    var count := reader.ReadCount();
    if count.None? || count.value > MAX_TABLES {
      return None;
    }
    var tables := ReadTables(reader, count.value, allowed, composite);
    if tables.None? || reader.at != |payload| {
      return None;
    }
    r := Some(Snapshot(tables.value));
  }

  // ----- pages -----

  /** Walks the page chain, checking each page and appending what it carries. */
  method CollectPages(b: seq<Byte>, length: nat, n: nat) returns (r: Option<seq<Byte>>)
    requires |b| == (n + 1) * PAGE_SIZE && length <= n * PAGE_PAYLOAD_SIZE
    ensures r == if PagesOk(b, length, 0, n) then Some(Collected(b, length, 0, n)) else None
  {
    hide DataPageOk;
    var payload: seq<Byte> := [];
    for k := 0 to n
      invariant |payload| == Min(k * PAGE_PAYLOAD_SIZE, length)
      invariant forall j :: 0 <= j < k ==> DataPageOk(Page(b, j + 1), j + 1, Used(length, j), j + 1 == n)
      invariant payload + Collected(b, length, k, n) == Collected(b, length, 0, n)
    {
      var page := b[(k + 1) * PAGE_SIZE..(k + 2) * PAGE_SIZE];
      var used := Min(length - |payload|, PAGE_PAYLOAD_SIZE);
      assert page == Page(b, k + 1) && used == Used(length, k);
      if !DataPageOk(page, k + 1, used, k + 1 == n) {
        return None;
      }
      var data := page[PAGE_HEADER_SIZE..PAGE_HEADER_SIZE + used];
      assert payload + Collected(b, length, k, n) == (payload + data) + Collected(b, length, k + 1, n);
      payload := payload + data;
    }
    assert payload + [] == payload;
    r := Some(payload);
  }

  method DecodePagesLoop(b: seq<Byte>, allowed: Byte, composite: bool) returns (r: Option<Snapshot>)
    ensures r == DecodePages(b, allowed, composite)
  {
    hide HeaderOk, PagesOk, Collected, Fnv1a, FromLe, DecodePayload;
    if |b| < PAGE_SIZE || !HeaderOk(b[..PAGE_SIZE]) {
      return None;
    }
    var length, pages := ReadU64(b, 24), ReadU64(b, 32);
    if !(2 <= pages <= MAX_PAGES) || |b| != pages * PAGE_SIZE || length > (pages - 1) * PAGE_PAYLOAD_SIZE {
      return None;
    }
    var payload := CollectPages(b, length, pages - 1);
    if payload.None? {
      return None;
    }
    var sum := Compute(payload.value);
    if sum != ReadU64(b, 40) {
      return None;
    }
    r := DecodePayloadLoop(payload.value, allowed, composite);
  }
}
