/** The write-ahead log: the page difference of two images, its encoding, and its application. */
module Wal {
  import opened Options
  import opened Bytes
  import opened Checksum
  import opened Snapshots
  import opened PayloadCodec
  import opened PageCodec
  import opened ImageIntegrity

  const WAL_MAGIC: seq<Byte> := [0x44, 0x49, 0x53, 0x50, 0x57, 0x41, 0x4c, 0x0a]
  const WAL_HEADER_SIZE: nat := 64
  const WAL_RECORD_SIZE: nat := 4104
  const MAX_WAL_BYTES: nat := 64 + 16384 * 4104

  datatype Record = Record(page: nat, data: seq<Byte>)

  datatype Log = Log(generation: nat, pages: nat, records: seq<Record>)

  predicate RecordOk(r: Record, pages: nat)
  {
    r.page < pages && |r.data| == PAGE_SIZE
  }

  function PagesOf(rs: seq<Record>): set<nat>
  {
    set i | 0 <= i < |rs| :: rs[i].page
  }

  predicate DistinctPages(rs: seq<Record>)
  {
    forall i, j :: 0 <= i < j < |rs| ==> rs[i].page != rs[j].page
  }

  predicate LogOk(log: Log)
  {
    && 2 <= log.pages <= MAX_PAGES
    && log.generation < U64_LIMIT
    && (forall i :: 0 <= i < |log.records| ==> RecordOk(log.records[i], log.pages))
    && DistinctPages(log.records)
    && 0 in PagesOf(log.records)
  }

  // ----- the difference of two images -----

  predicate Changed(before: seq<Byte>, after: seq<Byte>, p: nat)
    requires (p + 1) * PAGE_SIZE <= |after|
  {
    (p + 1) * PAGE_SIZE > |before| || Page(before, p) != Page(after, p)
  }

  function RecordsFrom(before: seq<Byte>, after: seq<Byte>, k: nat): (rs: seq<Record>)
    requires k * PAGE_SIZE <= |after|
    decreases |after| / PAGE_SIZE - k
  {
    if (k + 1) * PAGE_SIZE > |after| then []
    else (if Changed(before, after, k) then [Record(k, Page(after, k))] else []) + RecordsFrom(before, after, k + 1)
  }

  function Difference(before: seq<Byte>, after: seq<Byte>, generation: nat): Log
  {
    Log(generation, |after| / PAGE_SIZE, RecordsFrom(before, after, 0))
  }

  // ----- bytes -----

  function RecordBytes(r: Record): seq<Byte>
  {
    U64(r.page) + r.data
  }

  function RecordsBytes(rs: seq<Record>): seq<Byte>
  {
    if rs == [] then [] else RecordBytes(rs[0]) + RecordsBytes(rs[1..])
  }

  function WalPrefix(log: Log): (h: seq<Byte>)
    ensures |h| == 56
  {
    WAL_MAGIC + (U32(1) + (U32(PAGE_SIZE) + (U64(log.generation) + (U64(log.pages) +
      (U64(|log.records|) + (U64(Fnv1a(RecordsBytes(log.records))) + U64(0)))))))
  }

  function WalBytes(log: Log): seq<Byte>
  {
    WalPrefix(log) + (U64(Fnv1a(WalPrefix(log))) + RecordsBytes(log.records))
  }

  function EncodeWal(before: seq<Byte>, after: seq<Byte>, generation: nat): Option<seq<Byte>>
  {
    var log := Difference(before, after, generation);
    if WAL_HEADER_SIZE + |log.records| * WAL_RECORD_SIZE > MAX_WAL_BYTES then None else Some(WalBytes(log))
  }

  predicate WalHeaderOk(b: seq<Byte>)
    requires WAL_HEADER_SIZE <= |b|
  {
    && b[..8] == WAL_MAGIC
    && ReadU32(b, 8) == 1
    && ReadU32(b, 12) == PAGE_SIZE
    && ReadU64(b, 48) == 0
    && Fnv1a(b[..56]) == ReadU64(b, 56)
  }

  /** Multiplication that stops at the largest 64-bit number. */
  function SaturatingTimes(a: nat, b: nat): nat
  {
    Min(a * b, U64_LIMIT - 1)
  }

  function RecordAt(b: seq<Byte>, r: nat): Record
    requires WAL_HEADER_SIZE + (r + 1) * WAL_RECORD_SIZE <= |b|
  {
    var start := WAL_HEADER_SIZE + r * WAL_RECORD_SIZE;
    Record(ReadU64(b, start), b[start + 8..start + WAL_RECORD_SIZE])
  }

  function RecordsOf(b: seq<Byte>, n: nat): (rs: seq<Record>)
    requires WAL_HEADER_SIZE + n * WAL_RECORD_SIZE <= |b|
    ensures |rs| == n
    ensures forall i :: 0 <= i < n ==> rs[i] == RecordAt(b, i)
  {
    seq(n, i requires 0 <= i < n => RecordAt(b, i))
  }

  /** Everything `apply_wal` checks before it looks at the store file. */
  function ParseWal(b: seq<Byte>): Option<Log>
  {
    if |b| < WAL_HEADER_SIZE || |b| > MAX_WAL_BYTES || !WalHeaderOk(b) then None
    else
      var pages, count := ReadU64(b, 24), ReadU64(b, 32);
      var expected := WAL_HEADER_SIZE + SaturatingTimes(count, WAL_RECORD_SIZE);
      if expected >= U64_LIMIT || !(2 <= pages <= MAX_PAGES) || expected != |b| then None
      else if Fnv1a(b[WAL_HEADER_SIZE..]) != ReadU64(b, 40) then None
      else
        var log := Log(ReadU64(b, 16), pages, RecordsOf(b, count));
        if LogOk(log) then Some(log) else None
  }

  // ----- application -----

  function Resized(b: seq<Byte>, length: nat): (r: seq<Byte>)
    ensures |r| == length
  {
    b[..Min(|b|, length)] + Zeros(length - Min(|b|, length))
  }

  function WritePage(b: seq<Byte>, r: Record): (c: seq<Byte>)
    requires |r.data| == PAGE_SIZE && (r.page + 1) * PAGE_SIZE <= |b|
    ensures |c| == |b|
  {
    b[..r.page * PAGE_SIZE] + r.data + b[(r.page + 1) * PAGE_SIZE..]
  }

  function Patch(b: seq<Byte>, rs: seq<Record>): (c: seq<Byte>)
    requires forall i :: 0 <= i < |rs| ==> RecordOk(rs[i], |b| / PAGE_SIZE)
    ensures |c| == |b|
    decreases rs
  {
    if rs == [] then b
    else
      assert RecordOk(rs[0], |b| / PAGE_SIZE);
      Patch(WritePage(b, rs[0]), rs[1..])
  }

  function Committed(current: seq<Byte>, log: Log): (c: seq<Byte>)
    requires LogOk(log)
    ensures |c| == log.pages * PAGE_SIZE
  {
    Patch(Resized(current, log.pages * PAGE_SIZE), log.records)
  }

  function CurrentGeneration(b: seq<Byte>): (g: nat)
    ensures g < U64_LIMIT
  {
    if |b| >= PAGE_SIZE && b[..8] == MAGIC && ReadU32(b, 8) == VERSION then ReadU64(b, 16) else 0
  }

  /** The image `apply_wal` would install over the current file, if it accepts to install one. */
  function Replay(current: seq<Byte>, b: seq<Byte>): Option<seq<Byte>>
  {
    match ParseWal(b)
    case None => None
    case Some(log) =>
      if |current| > MAX_FILE_BYTES then None
      else
        var image := Committed(current, log);
        if CurrentGeneration(image) != log.generation || Decode(image) == None then None else Some(image)
  }

  // ----- the difference is complete -----

  lemma {:induction false} RecordsFromOk(before: seq<Byte>, after: seq<Byte>, k: nat)
    requires k * PAGE_SIZE <= |after|
    ensures var rs := RecordsFrom(before, after, k);
            && (forall i :: 0 <= i < |rs| ==> k <= rs[i].page && (rs[i].page + 1) * PAGE_SIZE <= |after|
                                              && rs[i].data == Page(after, rs[i].page))
            && DistinctPages(rs)
            && |rs| <= |after| / PAGE_SIZE - k
    decreases |after| / PAGE_SIZE - k
  {
    if (k + 1) * PAGE_SIZE <= |after| {
      RecordsFromOk(before, after, k + 1);
    }
  }

  lemma {:induction false} UnrecordedUnchanged(before: seq<Byte>, after: seq<Byte>, k: nat, p: nat)
    requires k <= p && (p + 1) * PAGE_SIZE <= |after|
    ensures p in PagesOf(RecordsFrom(before, after, k)) <==> Changed(before, after, p)
    decreases p - k
  {
    hide Page, Changed;
    var head := if Changed(before, after, k) then [Record(k, Page(after, k))] else [];
    var tail := RecordsFrom(before, after, k + 1);
    var all := RecordsFrom(before, after, k);
    assert all == head + tail;
    RecordsFromOk(before, after, k + 1);
    if p > k {
      UnrecordedUnchanged(before, after, k + 1, p);
      if p in PagesOf(tail) {
        var i :| 0 <= i < |tail| && tail[i].page == p;
        assert all[|head| + i].page == p;
      }
      if p in PagesOf(all) {
        var i :| 0 <= i < |all| && all[i].page == p;
        assert tail[i - |head|].page == p;
      }
    } else if Changed(before, after, k) {
      assert all[0].page == p;
    }
  }

  lemma LogSizeFits(before: seq<Byte>, after: seq<Byte>)
    requires |after| <= MAX_PAGES * PAGE_SIZE
    ensures |RecordsFrom(before, after, 0)| <= MAX_PAGES
    ensures WAL_HEADER_SIZE + |RecordsFrom(before, after, 0)| * WAL_RECORD_SIZE <= MAX_WAL_BYTES
  {
    RecordsFromOk(before, after, 0);
  }

  lemma FirstPageFields(b: seq<Byte>)
    requires |b| >= PAGE_SIZE
    ensures Page(b, 0)[..8] == b[..8] && Page(b, 0)[8..12] == b[8..12] && Page(b, 0)[16..24] == b[16..24]
  {
  }

  /** The log of an image of the next generation always rewrites the header page. */
  lemma HeaderPageChanges(before: seq<Byte>, payload: seq<Byte>)
    requires CurrentGeneration(before) + 1 < U64_LIMIT && DataPages(|payload|) + 1 <= MAX_PAGES
    ensures Changed(before, Image(payload, CurrentGeneration(before) + 1, VERSION), 0)
  {
    hide HeaderPage, HeaderOk, Fnv1a, FromLe, DataPagesFrom;
    var generation := CurrentGeneration(before) + 1;
    var after := Image(payload, generation, VERSION);
    HeaderFields(payload, generation, VERSION, DataPages(|payload|) + 1);
    ImageHeader(payload, generation, VERSION);
    if |before| >= PAGE_SIZE {
      FirstPageFields(before);
      FirstPageFields(after);
    }
  }

  lemma DifferenceOk(before: seq<Byte>, payload: seq<Byte>)
    requires CurrentGeneration(before) + 1 < U64_LIMIT && DataPages(|payload|) + 1 <= MAX_PAGES
    ensures var generation := CurrentGeneration(before) + 1;
            LogOk(Difference(before, Image(payload, generation, VERSION), generation))
  {
    hide Image, RecordsFrom, CurrentGeneration;
    var generation := CurrentGeneration(before) + 1;
    var after := Image(payload, generation, VERSION);
    RecordsFromOk(before, after, 0);
    HeaderPageChanges(before, payload);
    UnrecordedUnchanged(before, after, 0, 0);
  }

  // ----- reading the log back -----

  lemma {:induction false} RecordsBytesLength(rs: seq<Record>, pages: nat)
    requires forall i :: 0 <= i < |rs| ==> RecordOk(rs[i], pages)
    ensures |RecordsBytes(rs)| == |rs| * WAL_RECORD_SIZE
  {
    hide U64;
    if rs != [] {
      RecordsBytesLength(rs[1..], pages);
    }
  }

  lemma {:induction false} RecordSlice(rs: seq<Record>, pages: nat, r: nat)
    requires forall i :: 0 <= i < |rs| ==> RecordOk(rs[i], pages)
    requires r < |rs| && |RecordsBytes(rs)| == |rs| * WAL_RECORD_SIZE
    ensures RecordsBytes(rs)[r * WAL_RECORD_SIZE..(r + 1) * WAL_RECORD_SIZE] == RecordBytes(rs[r])
    decreases r
  {
    hide U64;
    var head, tail := RecordBytes(rs[0]), RecordsBytes(rs[1..]);
    RecordsBytesLength(rs[1..], pages);
    if r > 0 {
      RecordSlice(rs[1..], pages, r - 1);
      assert (head + tail)[r * WAL_RECORD_SIZE..(r + 1) * WAL_RECORD_SIZE]
          == tail[(r - 1) * WAL_RECORD_SIZE..r * WAL_RECORD_SIZE];
    }
  }

  lemma WalFields(log: Log)
    requires LogOk(log) && |log.records| <= MAX_PAGES
    ensures var b := WalBytes(log);
            && |b| == WAL_HEADER_SIZE + |log.records| * WAL_RECORD_SIZE
            && WalHeaderOk(b)
            && ReadU64(b, 16) == log.generation && ReadU64(b, 24) == log.pages
            && ReadU64(b, 32) == |log.records|
            && b[WAL_HEADER_SIZE..] == RecordsBytes(log.records)
            && ReadU64(b, 40) == Fnv1a(RecordsBytes(log.records))
  {
    hide U32, U64, Fnv1a, FromLe, RecordsBytes;
    RecordsBytesLength(log.records, log.pages);
    var b := WalBytes(log);
    var body := RecordsBytes(log.records);
    assert b[..8] == WAL_MAGIC && b[8..12] == U32(1) && b[12..16] == U32(PAGE_SIZE);
    assert b[16..24] == U64(log.generation) && b[24..32] == U64(log.pages);
    assert b[32..40] == U64(|log.records|) && b[40..48] == U64(Fnv1a(body)) && b[48..56] == U64(0);
    assert b[..56] == WalPrefix(log) && b[56..64] == U64(Fnv1a(WalPrefix(log)));
    U32RoundTrip(1);
    U32RoundTrip(PAGE_SIZE);
    U64RoundTrip(log.generation);
    U64RoundTrip(log.pages);
    U64RoundTrip(|log.records|);
    U64RoundTrip(Fnv1a(body));
    U64RoundTrip(0);
    U64RoundTrip(Fnv1a(WalPrefix(log)));
  }

  lemma RecordReadBack(log: Log, r: nat)
    requires LogOk(log) && |log.records| <= MAX_PAGES && r < |log.records|
    requires |WalBytes(log)| == WAL_HEADER_SIZE + |log.records| * WAL_RECORD_SIZE
    requires WalBytes(log)[WAL_HEADER_SIZE..] == RecordsBytes(log.records)
    ensures RecordAt(WalBytes(log), r) == log.records[r]
  {
    hide U64, Fnv1a, FromLe, RecordsBytes, WalBytes;
    var b, rec := WalBytes(log), log.records[r];
    var start := WAL_HEADER_SIZE + r * WAL_RECORD_SIZE;
    RecordsBytesLength(log.records, log.pages);
    RecordSlice(log.records, log.pages, r);
    var slice := b[WAL_HEADER_SIZE..][r * WAL_RECORD_SIZE..(r + 1) * WAL_RECORD_SIZE];
    assert slice == RecordBytes(rec);
    assert b[start..start + 8] == slice[..8] == U64(rec.page);
    assert b[start + 8..start + WAL_RECORD_SIZE] == slice[8..] == rec.data;
    U64RoundTrip(rec.page);
  }

  /** A written log parses to itself. */
  lemma WalRoundTrip(log: Log)
    requires LogOk(log) && |log.records| <= MAX_PAGES
    ensures ParseWal(WalBytes(log)) == Some(log)
  {
    assert 2 <= log.pages <= MAX_PAGES;
    hide Fnv1a, FromLe, RecordsBytes, WalBytes, WalHeaderOk, RecordAt, LogOk;
    WalFields(log);
    var b := WalBytes(log);
    forall r | 0 <= r < |log.records| ensures RecordAt(b, r) == log.records[r] {
      RecordReadBack(log, r);
    }
    assert RecordsOf(b, |log.records|) == log.records;
  }

  // ----- damage to the log -----

  /** Every one-byte change to every log that passes validation fails it, before any page is written. */
  lemma ParseWalRejectsChange(b: seq<Byte>, i: nat, v: Byte)
    requires ParseWal(b).Some? && i < |b| && v != b[i]
    ensures ParseWal(b[i := v]) == None
  {
    hide Fnv1a, FromLe, RecordsOf, LogOk;
    var c := b[i := v];
    assert b[..56] == b[0..56] && c[..56] == c[0..56];
    assert b[64..] == b[64..|b|] && c[64..] == c[64..|b|];
    if i < 56 {
      ChecksumChanges(b, i, v, 0, 56);
      ChangeOutside(b, i, v, 56, 64);
    } else if i < 64 {
      NumberChanges(b, i, v, 56, 64);
      ChangeOutside(b, i, v, 0, 56);
    } else {
      ChecksumChanges(b, i, v, 64, |b|);
      ChangeOutside(b, i, v, 40, 48);
    }
  }

  // ----- patching -----

  /** The log carries pages of `image`, and the file already agrees with it on every other page. */
  predicate Consistent(current: seq<Byte>, log: Log, image: seq<Byte>)
    requires LogOk(log) && |image| == log.pages * PAGE_SIZE
  {
    && (forall i :: 0 <= i < |log.records| ==> log.records[i].data == Page(image, log.records[i].page))
    && (forall p :: 0 <= p < log.pages && p !in PagesOf(log.records) ==>
          (p + 1) * PAGE_SIZE <= |current| && Page(current, p) == Page(image, p))
  }

  lemma WrittenPage(b: seq<Byte>, r: Record, p: nat)
    requires |r.data| == PAGE_SIZE && (r.page + 1) * PAGE_SIZE <= |b| && (p + 1) * PAGE_SIZE <= |b|
    ensures Page(WritePage(b, r), p) == if p == r.page then r.data else Page(b, p)
  {
    var c := WritePage(b, r);
    if p < r.page {
      assert (p + 1) * PAGE_SIZE <= r.page * PAGE_SIZE;
    } else if p > r.page {
      assert (r.page + 1) * PAGE_SIZE <= p * PAGE_SIZE;
      assert forall i :: (r.page + 1) * PAGE_SIZE <= i < |b| ==> c[i] == b[i];
    }
  }

  lemma {:induction false} PatchedPage(b: seq<Byte>, rs: seq<Record>, image: seq<Byte>, p: nat)
    requires |b| == |image| && (p + 1) * PAGE_SIZE <= |b|
    requires forall i :: 0 <= i < |rs| ==> RecordOk(rs[i], |b| / PAGE_SIZE) && rs[i].data == Page(image, rs[i].page)
    requires p in PagesOf(rs) || Page(b, p) == Page(image, p)
    ensures Page(Patch(b, rs), p) == Page(image, p)
    decreases rs
  {
    hide Page, WritePage;
    if rs != [] {
      WrittenPage(b, rs[0], p);
      if p in PagesOf(rs) && p != rs[0].page {
        var i :| 0 <= i < |rs| && rs[i].page == p;
        assert rs[1..][i - 1].page == p;
      }
      PatchedPage(WritePage(b, rs[0]), rs[1..], image, p);
    }
  }

  lemma {:induction false} PagewiseEqual(a: seq<Byte>, b: seq<Byte>, n: nat)
    requires |a| == |b| == n * PAGE_SIZE
    requires forall p :: 0 <= p < n ==> Page(a, p) == Page(b, p)
    ensures a == b
  {
    forall i | 0 <= i < |a| ensures a[i] == b[i] {
      var p := i / PAGE_SIZE;
      assert Page(a, p)[i - p * PAGE_SIZE] == a[i] && Page(b, p)[i - p * PAGE_SIZE] == b[i];
    }
  }

  lemma ResizedPage(b: seq<Byte>, length: nat, p: nat)
    requires (p + 1) * PAGE_SIZE <= |b| && (p + 1) * PAGE_SIZE <= length
    ensures Page(Resized(b, length), p) == Page(b, p)
  {
  }

  /** Applying a log to any file consistent with it yields exactly the logged image. */
  lemma CommittedIsImage(current: seq<Byte>, log: Log, image: seq<Byte>)
    requires LogOk(log) && |image| == log.pages * PAGE_SIZE && Consistent(current, log, image)
    ensures Committed(current, log) == image
  {
    hide Page, Resized, Patch;
    var resized := Resized(current, log.pages * PAGE_SIZE);
    forall p | 0 <= p < log.pages ensures Page(Committed(current, log), p) == Page(image, p) {
      if p !in PagesOf(log.records) {
        ResizedPage(current, log.pages * PAGE_SIZE, p);
      }
      PatchedPage(resized, log.records, image, p);
    }
    PagewiseEqual(Committed(current, log), image, log.pages);
  }

  lemma DifferenceConsistent(before: seq<Byte>, after: seq<Byte>, generation: nat)
    requires |after| % PAGE_SIZE == 0 && LogOk(Difference(before, after, generation))
    ensures Consistent(before, Difference(before, after, generation), after)
    ensures Consistent(after, Difference(before, after, generation), after)
  {
    var log := Difference(before, after, generation);
    RecordsFromOk(before, after, 0);
    forall p | 0 <= p < log.pages && p !in PagesOf(log.records)
      ensures (p + 1) * PAGE_SIZE <= |before| && Page(before, p) == Page(after, p)
    {
      UnrecordedUnchanged(before, after, 0, p);
    }
  }

  /** The generation word of a current-version image is the one it was written with. */
  lemma GenerationOfImage(payload: seq<Byte>, generation: nat)
    requires generation < U64_LIMIT && DataPages(|payload|) + 1 <= MAX_PAGES
    ensures CurrentGeneration(Image(payload, generation, VERSION)) == generation
  {
    hide HeaderPage, HeaderOk, Fnv1a, FromLe, DataPagesFrom;
    HeaderFields(payload, generation, VERSION, DataPages(|payload|) + 1);
    ImageHeader(payload, generation, VERSION);
  }

  /** The bytes of a log that parses, together with the image it commits. */
  predicate Logged(wal: seq<Byte>, log: Log, image: seq<Byte>)
  {
    && LogOk(log)
    && ParseWal(wal) == Some(log)
    && |image| == log.pages * PAGE_SIZE
    && CurrentGeneration(image) == log.generation
  }

  /**
   * Replaying a log over any file consistent with it (the old file, a torn one, or the new image
   * itself) installs exactly the logged image; where that image does not decode, it is refused.
   */
  lemma ReplayLogged(current: seq<Byte>, wal: seq<Byte>, log: Log, image: seq<Byte>)
    requires Logged(wal, log, image) && |current| <= MAX_FILE_BYTES && Consistent(current, log, image)
    ensures Replay(current, wal) == if Decode(image).Some? then Some(image) else None
  {
    hide ParseWal, Decode, Committed, Consistent, CurrentGeneration, LogOk;
    CommittedIsImage(current, log, image);
  }

  /** The log a commit writes over `before` for this payload, and the image it commits. */
  function NextImage(before: seq<Byte>, payload: seq<Byte>): (image: seq<Byte>)
    ensures |image| == (DataPages(|payload|) + 1) * PAGE_SIZE
  {
    Image(payload, CurrentGeneration(before) + 1, VERSION)
  }

  function NextLog(before: seq<Byte>, payload: seq<Byte>): Log
  {
    Difference(before, NextImage(before, payload), CurrentGeneration(before) + 1)
  }

  /** A commit's log always fits its limit, parses back, and is consistent with old and new file. */
  lemma CommitLog(before: seq<Byte>, payload: seq<Byte>)
    requires CurrentGeneration(before) + 1 < U64_LIMIT && DataPages(|payload|) + 1 <= MAX_PAGES
    ensures EncodeWal(before, NextImage(before, payload), CurrentGeneration(before) + 1)
            == Some(WalBytes(NextLog(before, payload)))
    ensures Logged(WalBytes(NextLog(before, payload)), NextLog(before, payload), NextImage(before, payload))
    ensures Consistent(before, NextLog(before, payload), NextImage(before, payload))
    ensures Consistent(NextImage(before, payload), NextLog(before, payload), NextImage(before, payload))
  {
    hide Image, RecordsFrom, CurrentGeneration, WalBytes, ParseWal, Consistent, PagesOf;
    var generation := CurrentGeneration(before) + 1;
    var after := NextImage(before, payload);
    DifferenceOk(before, payload);
    LogSizeFits(before, after);
    WalRoundTrip(NextLog(before, payload));
    DifferenceConsistent(before, after, generation);
    GenerationOfImage(payload, generation);
  }
}
