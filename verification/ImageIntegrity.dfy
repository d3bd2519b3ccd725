/** What the decoder guarantees about whole images: round trips, and rejection of damage. */
module ImageIntegrity {
  import opened Options
  import opened Bytes
  import opened Checksum
  import opened Snapshots
  import opened PayloadCodec
  import opened PageCodec

  /** Flag mask and constraint support of each paged version. */
  function AllowedFlags(version: nat): Byte
  {
    if version == PAGE_VERSION then 3 else if version == UNIQUE_VERSION then 7 else 15
  }

  predicate Paged(version: nat)
  {
    PAGE_VERSION <= version <= VERSION
  }

  lemma DecodeOfImage(payload: seq<Byte>, generation: nat, version: nat)
    requires DataPages(|payload|) + 1 <= MAX_PAGES && generation < U64_LIMIT && Paged(version)
    ensures Decode(Image(payload, generation, version))
            == DecodePayload(payload, AllowedFlags(version), version == VERSION)
  {
    hide Image, HeaderPage, DecodePages, DecodePayload, HeaderOk, Fnv1a;
    HeaderFields(payload, generation, version, DataPages(|payload|) + 1);
    ImageHeader(payload, generation, version);
    DecodePagesOfImage(payload, generation, version, AllowedFlags(version), version == VERSION);
  }

  /**
   * An encoded snapshot decodes to its tables in name order exactly when the version knows its
   * flags and no table has more constraints than the decoder's cap; otherwise it is refused.
   */
  lemma SnapshotRoundTrip(s: Snapshot, generation: nat, version: nat)
    requires generation < U64_LIMIT && Paged(version)
    requires EncodePages(s, generation, version, version == VERSION).Some?
    ensures Decode(EncodePages(s, generation, version, version == VERSION).value)
            == if SnapshotReadable(s, AllowedFlags(version), version == VERSION)
               then Some(Snapshot(Sorted(s.tables))) else None
  {
    hide Image, Decode, DecodePayload, SnapshotReadable, Sorted;
    PayloadRoundTrip(s, AllowedFlags(version), version == VERSION);
    DecodeOfImage(EncodePayload(s, version == VERSION).value, generation, version);
  }

  lemma FlagByteBound(f: Field)
    ensures FlagByte(f) <= 15
  {
  }

  predicate ConstraintsReadable(s: Snapshot)
  {
    forall t :: t in s.tables ==> |t.constraints| <= MAX_FIELDS
  }

  /** In the current version only the constraint cap can make a written snapshot unreadable. */
  lemma CurrentVersionReadable(s: Snapshot)
    ensures SnapshotReadable(s, AllowedFlags(VERSION), true) <==> ConstraintsReadable(s)
  {
    hide FlagByte;
    forall t | t in s.tables
      ensures Readable(t, AllowedFlags(VERSION), true) <==> |t.constraints| <= MAX_FIELDS
    {
      forall i | 0 <= i < |t.fields| ensures FlagByte(t.fields[i]) <= 15 {
        FlagByteBound(t.fields[i]);
      }
    }
  }

  /** The current writer and reader agree, exactly on snapshots within the constraint cap. */
  lemma CurrentRoundTrip(s: Snapshot, generation: nat)
    requires generation < U64_LIMIT && EncodePages(s, generation, VERSION, true).Some?
    ensures Decode(EncodePages(s, generation, VERSION, true).value)
            == if ConstraintsReadable(s) then Some(Snapshot(Sorted(s.tables))) else None
  {
    hide Image, Decode, DecodePayload, SnapshotReadable, Sorted, EncodePages;
    SnapshotRoundTrip(s, generation, VERSION);
    CurrentVersionReadable(s);
  }

  lemma ImagesIgnoreTableOrder(a: Snapshot, b: Snapshot, generation: nat, version: nat, composite: bool)
    requires multiset(a.tables) == multiset(b.tables)
    ensures EncodePages(a, generation, version, composite) == EncodePages(b, generation, version, composite)
  {
    hide EncodePayload, Image;
    EncodingIgnoresTableOrder(a, b, composite);
  }

  // ----- a snapshot that is written but cannot be read -----

  lemma {:induction false} AsciiIsUtf8(b: seq<Byte>)
    requires forall i :: 0 <= i < |b| ==> b[i] < 128
    ensures Utf8(b)
  {
    if b != [] {
      AsciiIsUtf8(b[1..]);
    }
  }

  /** The `i`-th of 6144 distinct two-character names. */
  function ShortName(i: nat): (t: Text)
    requires i < 6144
    ensures |t| == 2 && t[0] == 32 + i / 64 && t[1] == 32 + i % 64
  {
    var name: seq<Byte> := [32 + i / 64, 32 + i % 64];
    AsciiIsUtf8(name);
    name
  }

  const KEY: Text := [107]
  const OTHER: Text := [111]
  const KEY_FIELD := Field(KEY, [], false, true, false, false)
  const OTHER_FIELD := Field(OTHER, [], false, false, false, false)

  function ManyConstraints(): (cs: seq<Constraint>)
    ensures |cs| == MAX_FIELDS + 1
    ensures forall i :: 0 <= i < |cs| ==> cs[i] == Constraint(ShortName(i), false, [KEY, OTHER])
  {
    seq(MAX_FIELDS + 1, i requires 0 <= i < MAX_FIELDS + 1 => Constraint(ShortName(i), false, [KEY, OTHER]))
  }

  /** Two fields and one constraint more than the decoder reads. */
  function OverfullTable(): Table
  {
    Table(KEY, [KEY_FIELD, OTHER_FIELD], ManyConstraints(), [])
  }

  lemma {:induction false} ConstraintsLength(cs: seq<Constraint>)
    requires forall i :: 0 <= i < |cs| ==> |cs[i].name| == 2 && cs[i].fields == [KEY, OTHER]
    ensures |ConstraintsBytes(cs)| == 21 * |cs|
  {
    hide U32;
    if cs != [] {
      ConstraintsLength(cs[1..]);
      assert NamesBytes([OTHER]) == Sized(OTHER) + NamesBytes([]);
      assert [KEY, OTHER][1..] == [OTHER];
      assert |ConstraintBytes(cs[0])| == 21;
    }
  }

  lemma ManyConstraintsEncodable()
    ensures ConstraintsEncodable(ManyConstraints(), [KEY, OTHER])
  {
    var cs := ManyConstraints();
    forall i | 0 <= i < |cs| ensures ConstraintEncodable(cs[i], [KEY, OTHER]) {
      assert |cs[i].name| == 2;
    }
    forall i, j | 0 <= i < j < |cs| ensures cs[i].name != cs[j].name {
      assert cs[i].name[0] != cs[j].name[0] || cs[i].name[1] != cs[j].name[1];
    }
  }

  lemma TwoFields()
    ensures FieldNames([KEY_FIELD, OTHER_FIELD]) == [KEY, OTHER]
    ensures PrimaryCount([KEY_FIELD, OTHER_FIELD]) == 1
    ensures |FieldsBytes([KEY_FIELD, OTHER_FIELD])| == 20
  {
    hide U32;
    assert [KEY_FIELD, OTHER_FIELD][1..] == [OTHER_FIELD] && [OTHER_FIELD][1..] == [];
    assert PrimaryCount([OTHER_FIELD]) == PrimaryCount([]);
    assert FieldsBytes([OTHER_FIELD]) == FieldBytes(OTHER_FIELD) + FieldsBytes([]);
    assert |FieldBytes(OTHER_FIELD)| == 10 && |FieldBytes(KEY_FIELD)| == 10;
  }

  lemma OverfullTableEncodable()
    ensures TableEncodable(OverfullTable(), true)
    ensures |TableBytes(OverfullTable(), true)| <= 100_000
  {
    hide U32, U64, FieldNames, FieldsBytes, ConstraintsBytes, PrimaryCount, ManyConstraints, ConstraintsEncodable;
    TwoFields();
    ManyConstraintsEncodable();
    ConstraintsLength(ManyConstraints());
    assert RowsBytes([]) == [];
  }

  /** Encoding accepts this snapshot, under every generation, and decoding refuses the result. */
  lemma OverfullSnapshotIsLost(generation: nat)
    requires generation < U64_LIMIT
    ensures var s := Snapshot([OverfullTable()]);
            EncodePages(s, generation, VERSION, true).Some?
            && Decode(EncodePages(s, generation, VERSION, true).value) == None
  {
    hide TableBytes, TableEncodable, Decode, Image, ManyConstraints, U32;
    var s := Snapshot([OverfullTable()]);
    OverfullTableEncodable();
    assert Sorted([OverfullTable()][1..]) == [];
    assert Sorted(s.tables) == [OverfullTable()];
    assert TablesBytes([OverfullTable()][1..], true) == [];
    assert |PayloadBytes(Sorted(s.tables), true)| <= 100_100;
    CurrentRoundTrip(s, generation);
    assert OverfullTable() in s.tables;
  }

  // ----- one damaged byte -----

  lemma ChangeInside(b: seq<Byte>, i: nat, v: Byte, lo: nat, hi: nat)
    requires lo <= i < hi <= |b|
    ensures b[i := v][lo..hi] == b[lo..hi][i - lo := v]
  {
  }

  lemma ChangeOutside(b: seq<Byte>, i: nat, v: Byte, lo: nat, hi: nat)
    requires lo <= hi <= |b| && i < |b| && (i < lo || hi <= i)
    ensures b[i := v][lo..hi] == b[lo..hi]
  {
  }

  lemma NumberChanges(b: seq<Byte>, i: nat, v: Byte, lo: nat, hi: nat)
    requires lo <= i < hi <= |b| && v != b[i]
    ensures FromLe(b[i := v][lo..hi]) != FromLe(b[lo..hi])
  {
    ChangeInside(b, i, v, lo, hi);
    assert b[lo..hi][i - lo] == b[i];
    FromLeInjective(b[i := v][lo..hi], b[lo..hi]);
  }

  lemma ChecksumChanges(b: seq<Byte>, i: nat, v: Byte, lo: nat, hi: nat)
    requires lo <= i < hi <= |b| && v != b[i]
    ensures Fnv1a(b[i := v][lo..hi]) != Fnv1a(b[lo..hi])
  {
    ChangeInside(b, i, v, lo, hi);
    assert b[lo..hi][i - lo] == b[i];
    Fnv1aDetectsChange(b[lo..hi], i - lo, v);
  }

  lemma HeaderRejectsChange(h: seq<Byte>, i: nat, v: Byte)
    requires |h| == PAGE_SIZE && HeaderOk(h) && i < PAGE_SIZE && v != h[i]
    ensures !HeaderOk(h[i := v])
  {
    hide Fnv1a, FromLe;
    var c := h[i := v];
    if i < 56 {
      ChecksumChanges(h, i, v, 0, 56);
      assert c[..56] == c[0..56] && h[..56] == h[0..56];
      ChangeOutside(h, i, v, 56, 64);
    } else if i < 64 {
      NumberChanges(h, i, v, 56, 64);
      ChangeOutside(h, i, v, 0, 56);
      assert c[..56] == c[0..56] && h[..56] == h[0..56];
    } else {
      assert c[64..][i - 64] == v && h[64..][i - 64] == h[i];
    }
  }

  lemma DataPageRejectsChange(p: seq<Byte>, number: nat, used: nat, last: bool, i: nat, v: Byte)
    requires |p| == PAGE_SIZE && used <= PAGE_PAYLOAD_SIZE && DataPageOk(p, number, used, last)
    requires i < PAGE_SIZE && v != p[i]
    ensures !DataPageOk(p[i := v], number, used, last)
  {
    hide Fnv1a, FromLe;
    var c := p[i := v];
    if i < 4 {
    } else if i < 8 {
      NumberChanges(p, i, v, 4, 8);
    } else if i < 12 {
      NumberChanges(p, i, v, 8, 12);
    } else if i < 16 {
      NumberChanges(p, i, v, 12, 16);
    } else if i < 24 {
      NumberChanges(p, i, v, 16, 24);
      ChangeOutside(p, i, v, PAGE_HEADER_SIZE, PAGE_HEADER_SIZE + used);
    } else if i < PAGE_HEADER_SIZE {
      NumberChanges(p, i, v, 24, 32);
    } else if i < PAGE_HEADER_SIZE + used {
      ChecksumChanges(p, i, v, PAGE_HEADER_SIZE, PAGE_HEADER_SIZE + used);
      ChangeOutside(p, i, v, 16, 24);
    } else {
      var at := i - PAGE_HEADER_SIZE - used;
      assert c[PAGE_HEADER_SIZE + used..][at] == v && p[PAGE_HEADER_SIZE + used..][at] == p[i];
    }
  }

  lemma HeaderNumbersKept(b: seq<Byte>, i: nat, v: Byte)
    requires PAGE_SIZE <= i < |b|
    ensures b[i := v][..PAGE_SIZE] == b[..PAGE_SIZE]
    ensures ReadU64(b[i := v], 24) == ReadU64(b, 24) && ReadU64(b[i := v], 32) == ReadU64(b, 32)
  {
    hide FromLe;
    ChangeOutside(b, i, v, 24, 32);
    ChangeOutside(b, i, v, 32, 40);
  }

  lemma DecodePagesRejectsChange(b: seq<Byte>, allowed: Byte, composite: bool, allowed': Byte, composite': bool, i: nat,
                                 v: Byte)
    requires DecodePages(b, allowed, composite).Some? && i < |b| && v != b[i]
    ensures DecodePages(b[i := v], allowed', composite') == None
  {
    hide HeaderOk, DataPageOk, Fnv1a, Collected, DecodePayload, FromLe;
    var c := b[i := v];
    if i < PAGE_SIZE {
      ChangeInside(b, i, v, 0, PAGE_SIZE);
      assert c[..PAGE_SIZE] == c[0..PAGE_SIZE] && b[..PAGE_SIZE] == b[0..PAGE_SIZE];
      HeaderRejectsChange(b[..PAGE_SIZE], i, v);
    } else {
      HeaderNumbersKept(b, i, v);
      var length, n := ReadU64(b, 24), ReadU64(b, 32) - 1;
      var j := i / PAGE_SIZE - 1;
      assert 0 <= j < n && (j + 1) * PAGE_SIZE <= i < (j + 2) * PAGE_SIZE;
      ChangeInside(b, i, v, (j + 1) * PAGE_SIZE, (j + 2) * PAGE_SIZE);
      var at := i - (j + 1) * PAGE_SIZE;
      assert Page(c, j + 1) == Page(b, j + 1)[at := v];
      DataPageRejectsChange(Page(b, j + 1), j + 1, Used(length, j), j + 1 == n, at, v);
    }
  }

  lemma DecodeLegacyRejectsChange(b: seq<Byte>, i: nat, v: Byte)
    requires DecodeLegacy(b).Some? && 12 <= i < |b| && v != b[i]
    ensures DecodeLegacy(b[i := v]) == None
  {
    hide Fnv1a, FromLe, DecodePayload;
    var c := b[i := v];
    assert b[32..] == b[32..|b|] && c[32..] == c[32..|b|];
    if i < 16 {
      NumberChanges(b, i, v, 12, 16);
    } else if i < 24 {
      NumberChanges(b, i, v, 16, 24);
    } else if i < 32 {
      NumberChanges(b, i, v, 24, 32);
      ChangeOutside(b, i, v, 32, |b|);
    } else {
      ChecksumChanges(b, i, v, 32, |b|);
      ChangeOutside(b, i, v, 24, 32);
    }
  }

  /** The page size field separates legacy images from paged ones. */
  lemma FormatsDisjoint(b: seq<Byte>, allowed: Byte, composite: bool)
    ensures DecodeLegacy(b).Some? ==> DecodePages(b, allowed, composite) == None
  {
    if |b| >= PAGE_SIZE {
      assert b[..PAGE_SIZE][12..16] == b[12..16];
    }
  }

  /** Changing the version word cannot turn one accepted image into another. */
  lemma VersionRejectsChange(b: seq<Byte>, i: nat, v: Byte)
    requires Decode(b).Some? && 8 <= i < 12 && v != b[i]
    ensures Decode(b[i := v]) == None
  {
    hide DecodePages, DecodeLegacy, FromLe;
    var c := b[i := v];
    NumberChanges(b, i, v, 8, 12);
    var version, changed := ReadU32(b, 8), ReadU32(c, 8);
    if version == LEGACY_VERSION {
      LegacyIgnoresVersion(b, i, v);
      FormatsDisjoint(c, AllowedFlags(changed), changed == VERSION);
    } else {
      DecodePagesRejectsChange(b, AllowedFlags(version), version == VERSION, AllowedFlags(changed), changed == VERSION,
                               i, v);
      LegacyNeedsZeroPageSize(b, AllowedFlags(version), version == VERSION, i, v);
    }
  }

  lemma LegacyIgnoresVersion(b: seq<Byte>, i: nat, v: Byte)
    requires DecodeLegacy(b).Some? && 8 <= i < 12
    ensures DecodeLegacy(b[i := v]).Some?
  {
    hide Fnv1a, FromLe, DecodePayload;
    ChangeOutside(b, i, v, 12, 16);
    ChangeOutside(b, i, v, 16, 24);
    ChangeOutside(b, i, v, 24, 32);
    assert b[i := v][32..] == b[32..];
  }

  lemma LegacyNeedsZeroPageSize(b: seq<Byte>, allowed: Byte, composite: bool, i: nat, v: Byte)
    requires DecodePages(b, allowed, composite).Some? && 8 <= i < 12
    ensures DecodeLegacy(b[i := v]) == None
  {
    hide Fnv1a, FromLe, DecodePayload, Collected, DataPageOk;
    ChangeOutside(b, i, v, 12, 16);
    assert b[..PAGE_SIZE][12..16] == b[12..16];
  }

  /** Every one-byte change to every image the decoder accepts, of any version, is rejected. */
  lemma DecodeRejectsChange(b: seq<Byte>, i: nat, v: Byte)
    requires Decode(b).Some? && i < |b| && v != b[i]
    ensures Decode(b[i := v]) == None
  {
    hide DecodePages, DecodeLegacy, FromLe;
    if i < 8 {
      assert b[i := v][..8][i] != b[..8][i];
    } else if i < 12 {
      VersionRejectsChange(b, i, v);
    } else {
      ChangeOutside(b, i, v, 8, 12);
      var version := ReadU32(b, 8);
      if version == LEGACY_VERSION {
        DecodeLegacyRejectsChange(b, i, v);
      } else {
        DecodePagesRejectsChange(b, AllowedFlags(version), version == VERSION, AllowedFlags(version),
                                 version == VERSION, i, v);
      }
    }
  }
}
