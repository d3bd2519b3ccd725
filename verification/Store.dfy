/** The store's operations as they run undisturbed, on the files they overwrite step by step. */
module Store {
  import opened Options
  import opened Bytes
  import opened Checksum
  import opened Snapshots
  import opened PayloadCodec
  import opened PageCodec
  import opened ImageIntegrity
  import opened Wal
  import opened StoreRuns
  import opened StoreSafety
  import opened StoreEncoder
  import opened StoreDecoder

  method DecodeImage(b: seq<Byte>) returns (r: Option<Snapshot>)
    ensures r == Decode(b)
  {
    hide DecodePages, DecodePayload, Fnv1a, FromLe;
    if |b| < 12 || |b| > MAX_FILE_BYTES || b[..8] != MAGIC {
      return None;
    }
    var version := ReadU32(b, 8);
    if version == LEGACY_VERSION {
      if |b| < LEGACY_HEADER_SIZE || ReadU32(b, 12) != 0 || ReadU64(b, 16) != |b| - LEGACY_HEADER_SIZE {
        return None;
      }
      var sum := Compute(b[LEGACY_HEADER_SIZE..]);
      if sum != ReadU64(b, 24) {
        return None;
      }
      r := DecodePayloadLoop(b[LEGACY_HEADER_SIZE..], 3, false);
    } else if PAGE_VERSION <= version <= VERSION {
      r := DecodePagesLoop(b, AllowedFlags(version), version == VERSION);
    } else {
      r := None;
    }
  }

  /** Compares the images page by page and keeps the pages that differ. */
  method ChangedPages(before: seq<Byte>, after: seq<Byte>) returns (records: seq<Record>)
    ensures records == RecordsFrom(before, after, 0)
  {
    records := [];
    var n := |after| / PAGE_SIZE;
    for k := 0 to n
      invariant records + RecordsFrom(before, after, k) == RecordsFrom(before, after, 0)
    {
      hide Changed, Page;
      ghost var rest := RecordsFrom(before, after, k + 1);
      ghost var all := RecordsFrom(before, after, k);
      if Changed(before, after, k) {
        assert all == [Record(k, Page(after, k))] + rest;
        assert records + ([Record(k, Page(after, k))] + rest) == (records + [Record(k, Page(after, k))]) + rest;
        records := records + [Record(k, Page(after, k))];
      } else {
        assert all == [] + rest == rest;
      }
    }
    assert RecordsFrom(before, after, n) == [] && records + [] == records;
  }

  lemma {:induction false} RecordsBytesAppend(rs: seq<Record>, r: Record)
    ensures RecordsBytes(rs + [r]) == RecordsBytes(rs) + RecordBytes(r)
  {
    hide RecordBytes;
    if rs == [] {
      assert ([] + [r])[1..] == [];
    } else {
      assert (rs + [r])[1..] == rs[1..] + [r];
      RecordsBytesAppend(rs[1..], r);
    }
  }

  method BodyBytes(records: seq<Record>) returns (body: seq<Byte>)
    ensures body == RecordsBytes(records)
  {
    hide RecordBytes, RecordsBytes;
    body := [];
    assert RecordsBytes([]) == [] by { NoRecords(); }
    assert records[..0] == [];
    for i := 0 to |records|
      invariant body == RecordsBytes(records[..i])
    {
      RecordsBytesAppend(records[..i], records[i]);
      assert records[..i + 1] == records[..i] + [records[i]];
      body := body + RecordBytes(records[i]);
    }
    assert records[..|records|] == records;
  }

  lemma NoRecords()
    ensures RecordsBytes([]) == []
  {
  }

  method PrefixBytes(log: Log, body: seq<Byte>) returns (prefix: seq<Byte>)
    requires body == RecordsBytes(log.records)
    ensures prefix == WalPrefix(log)
  {
    hide RecordsBytes, Fnv1a, U32, U64, WAL_MAGIC;
    var sum := Compute(body);
    prefix := WAL_MAGIC + (U32(1) + (U32(PAGE_SIZE) + (U64(log.generation) + (U64(log.pages) +
      (U64(|log.records|) + (U64(sum) + U64(0)))))));
  }

  method LogBytes(before: seq<Byte>, after: seq<Byte>, generation: nat) returns (r: Option<seq<Byte>>)
    ensures r == EncodeWal(before, after, generation)
  {
    hide RecordsBytes, RecordsFrom, Fnv1a, WalPrefix, U64;
    var records := ChangedPages(before, after);
    if WAL_HEADER_SIZE + |records| * WAL_RECORD_SIZE > MAX_WAL_BYTES {
      return None;
    }
    var body := BodyBytes(records);
    var log := Log(generation, |after| / PAGE_SIZE, records);
    var prefix := PrefixBytes(log, body);
    var header := Compute(prefix);
    r := Some(prefix + (U64(header) + body));
  }

  predicate RecordListOk(rs: seq<Record>, pages: nat)
  {
    (forall i :: 0 <= i < |rs| ==> RecordOk(rs[i], pages)) && DistinctPages(rs)
  }

  lemma RecordListExtends(rs: seq<Record>, r: Record, pages: nat)
    requires RecordListOk(rs, pages) && |r.data| == PAGE_SIZE
    ensures RecordListOk(rs + [r], pages) <==> r.page < pages && r.page !in PagesOf(rs)
    ensures PagesOf(rs + [r]) == PagesOf(rs) + {r.page}
  {
    var p := rs + [r];
    assert forall j :: 0 <= j < |rs| ==> p[j] == rs[j];
    assert p[|rs|] == r;
  }

  lemma PrefixListOk(rs: seq<Record>, i: nat, pages: nat)
    requires i <= |rs| && RecordListOk(rs, pages)
    ensures RecordListOk(rs[..i], pages)
  {
  }

  /** Reads the records one by one, rejecting pages out of range or named twice. */
  method ReadRecords(b: seq<Byte>, n: nat, pages: nat) returns (r: Option<seq<Record>>)
    requires WAL_HEADER_SIZE + n * WAL_RECORD_SIZE <= |b|
    ensures r.Some? <==> RecordListOk(RecordsOf(b, n), pages) && 0 in PagesOf(RecordsOf(b, n))
    ensures r.Some? ==> r.value == RecordsOf(b, n)
  {
    ghost var whole := RecordsOf(b, n);
    var records: seq<Record> := [];
    var seen: set<nat> := {};
    hide RecordListOk, PagesOf;
    assert RecordListOk([], pages) && PagesOf([]) == {} by { EmptyList(pages); }
    for i := 0 to n
      invariant |records| == i && records == whole[..i]
      invariant seen == PagesOf(records)
      invariant RecordListOk(records, pages)
    {
      var record := RecordAt(b, i);
      RecordListExtends(records, record, pages);
      assert whole[..i + 1] == records + [record];
      if record.page >= pages || record.page in seen {
        if RecordListOk(whole, pages) {
          PrefixListOk(whole, i + 1, pages);
        }
        return None;
      }
      records := records + [record];
      seen := seen + {record.page};
    }
    assert whole[..n] == whole;
    if 0 !in seen {
      return None;
    }
    r := Some(records);
  }

  lemma EmptyList(pages: nat)
    ensures RecordListOk([], pages) && PagesOf([]) == {}
  {
  }

  method ValidateWal(b: seq<Byte>) returns (r: Option<Log>)
    ensures r == ParseWal(b)
  {
    hide WalHeaderOk, Fnv1a, FromLe, RecordsOf, PagesOf;
    if |b| < WAL_HEADER_SIZE || |b| > MAX_WAL_BYTES || !WalHeaderOk(b) {
      return None;
    }
    var pages, count := ReadU64(b, 24), ReadU64(b, 32);
    var expected := WAL_HEADER_SIZE + SaturatingTimes(count, WAL_RECORD_SIZE);
    if expected >= U64_LIMIT || !(2 <= pages <= MAX_PAGES) || expected != |b| {
      return None;
    }
    var sum := Compute(b[WAL_HEADER_SIZE..]);
    if sum != ReadU64(b, 40) {
      return None;
    }
    var records := ReadRecords(b, count, pages);
    if records.None? {
      return None;
    }
    r := Some(Log(ReadU64(b, 16), pages, records.value));
  }

  // ----- patching in memory and in the file -----

  lemma {:induction false} PatchAppend(b: seq<Byte>, rs: seq<Record>, r: Record)
    requires forall i :: 0 <= i < |rs| ==> RecordOk(rs[i], |b| / PAGE_SIZE)
    requires RecordOk(r, |b| / PAGE_SIZE)
    ensures Patch(b, rs + [r]) == WritePage(Patch(b, rs), r)
    decreases rs
  {
    hide WritePage;
    if rs == [] {
      assert ([] + [r])[1..] == [];
    } else {
      assert (rs + [r])[1..] == rs[1..] + [r];
      PatchAppend(WritePage(b, rs[0]), rs[1..], r);
    }
  }

  /** The committed image: the current bytes, zero-extended or cut, with every record copied over. */
  method BuildCommitted(current: seq<Byte>, log: Log) returns (image: seq<Byte>)
    requires LogOk(log)
    ensures image == Committed(current, log)
  {
    var length := log.pages * PAGE_SIZE;
    image := Resized(current, length);
    assert log.records[..0] == [];
    for i := 0 to |log.records|
      invariant |image| == length
      invariant image == Patch(Resized(current, length), log.records[..i])
    {
      hide WritePage, Resized;
      assert RecordOk(log.records[i], log.pages);
      PatchAppend(Resized(current, length), log.records[..i], log.records[i]);
      assert log.records[..i + 1] == log.records[..i] + [log.records[i]];
      image := WritePage(image, log.records[i]);
    }
    assert log.records[..|log.records|] == log.records;
  }

  /** Overwriting in the file and then fixing its length is patching the resized bytes. */
  lemma OverwriteIsPatch(b: seq<Byte>, r: Record, length: nat)
    requires |r.data| == PAGE_SIZE && (r.page + 1) * PAGE_SIZE <= length
    ensures Resized(Overwrite(b, r), length) == WritePage(Resized(b, length), r)
  {
    var start, end := r.page * PAGE_SIZE, (r.page + 1) * PAGE_SIZE;
    var left, right := Resized(Overwrite(b, r), length), WritePage(Resized(b, length), r);
    var c := Overwrite(b, r);
    forall i | 0 <= i < length ensures left[i] == right[i] {
      if i < start {
        assert i < |c| && c[i] == if i < |b| then b[i] else 0;
      } else if i < end {
        assert c[i] == r.data[i - start];
      } else {
        assert i < |b| ==> c[i] == b[i];
      }
    }
  }

  class DataStore {
    var main: File
    var wal: File
    var backup: File

    /** The files of a store at rest: everything written has been synchronised. */
    ghost function Files(): Disk
      reads this
    {
      Disk(main, main, Clean, wal, None, backup, None)
    }

    /** Validates the log against the file, then writes the records in place and sets the length. */
    method ApplyWal(b: seq<Byte>) returns (ok: bool)
      modifies this`main
      ensures ok <==> Replay(Contents(old(main)), b).Some?
      ensures main == if ok then Replay(Contents(old(main)), b) else old(main)
    {
      hide ParseWal, Committed, CurrentGeneration, Decode;
      var parsed := ValidateWal(b);
      if parsed.None? || |Contents(main)| > MAX_FILE_BYTES {
        return false;
      }
      var log := parsed.value;
      ParsedLogOk(b);
      var image := BuildCommitted(Contents(main), log);
      if CurrentGeneration(image) != log.generation {
        return false;
      }
      var decoded := DecodeImage(image);
      if decoded.None? {
        return false;
      }
      Install(log);
      ok := true;
    }

    /** The page writes and the final truncation. */
    method Install(log: Log)
      requires LogOk(log)
      modifies this`main
      ensures main == Some(Committed(Contents(old(main)), log))
    {
      ghost var base := Resized(Contents(main), log.pages * PAGE_SIZE);
      assert log.records[..0] == [];
      for i := 0 to |log.records|
        invariant Resized(Contents(main), log.pages * PAGE_SIZE) == Patch(base, log.records[..i])
      {
        hide WritePage, Resized, Overwrite, Patch;
        var r := log.records[i];
        assert RecordOk(r, log.pages);
        OverwriteIsPatch(Contents(main), r, log.pages * PAGE_SIZE);
        PatchAppend(base, log.records[..i], r);
        assert log.records[..i + 1] == log.records[..i] + [r];
        main := Some(Overwrite(Contents(main), r));
      }
      assert log.records[..|log.records|] == log.records;
      main := Some(Resized(Contents(main), log.pages * PAGE_SIZE));
    }

    /** Rolls a leftover log forward: the log is gone and the answer of a load has not changed. */
    method RecoverWal() returns (ok: bool)
      modifies this`main, this`wal
      ensures ok ==> wal == None && View(Files()) == old(View(Files()))
      ensures !ok ==> main == old(main) && wal == old(wal) && View(Files()) == None
    {
      hide Replay, Decode;
      if wal.None? {
        return true;
      }
      ok := ApplyWal(wal.value);
      if ok {
        wal := None;
      }
    }

    /** A load answers with the stored value and does not change it. */
    method Load() returns (r: Option<Snapshot>)
      modifies this
      ensures r == old(View(Files()))
      ensures View(Files()) == old(View(Files()))
    {
      hide Replay, Decode;
      var ok := RecoverWal();
      if !ok {
        return None;
      }
      if main.Some? {
        r := DecodeImage(main.value);
      } else if backup.Some? {
        r := DecodeImage(backup.value);
        if r.Some? {
          main := backup;
          backup := None;
        }
      } else {
        r := Some(EMPTY);
      }
    }

    /** The bytes of the log this commit will write. */
    method PrepareLog(s: Snapshot) returns (r: Option<seq<Byte>>)
      ensures r == Prepared(main, s)
    {
      hide EncodePages, EncodeWal, CurrentGeneration;
      var before := Contents(main);
      if |before| > MAX_FILE_BYTES || CurrentGeneration(before) + 1 >= U64_LIMIT {
        return None;
      }
      var generation := CurrentGeneration(before) + 1;
      var image := EncodePagesLoop(s, generation, VERSION, true);
      if image.None? {
        return None;
      }
      r := LogBytes(before, image.value, generation);
    }

    /** Success stores exactly the snapshot; failure leaves the stored value alone. */
    method Commit(s: Snapshot) returns (ok: bool)
      modifies this
      ensures ok ==> View(Files()) == ReadBack(s)
      ensures !ok ==> View(Files()) == old(View(Files()))
    {
      hide Replay, Decode, Prepared, ReadBack;
      var recovered := RecoverWal();
      if !recovered {
        return false;
      }
      var log := PrepareLog(s);
      if log.None? {
        return false;
      }
      PreparedReplays(Files(), s, log.value);
      wal := log;
      var applied := ApplyWal(log.value);
      if applied {
        wal := None;
        backup := None;
      }
      ok := true;
    }
  }

  lemma ParsedLogOk(b: seq<Byte>)
    ensures ParseWal(b).Some? ==> LogOk(ParseWal(b).value)
  {
    hide LogOk, WalHeaderOk, Fnv1a, FromLe, RecordsOf;
  }

  lemma PreparedReplays(d: Disk, s: Snapshot, w: seq<Byte>)
    requires d.wal == None && d.pending == Clean && d.main == d.durable && Prepared(d.main, s) == Some(w)
    ensures Replay(Contents(d.main), w).Some? <==> ReadBack(s).Some?
    ensures ReadBack(s).Some? ==> Decode(Replay(Contents(d.main), w).value) == ReadBack(s)
  {
    hide Decode, Consistent, Replay, Logged, Prepared, ReadBack;
    PreparedReplayable(d, s, w);
    var log, image :| Replayable(d.(wal := Some(w), removedWal := None), w, log, image) && Decode(image) == ReadBack(s);
    ReplayLogged(Contents(d.main), w, log, image);
  }
}
