/** Crash atomicity and durability of the store, step by step and then over whole runs. */
module StoreSafety {
  import opened Options
  import opened Bytes
  import opened Snapshots
  import opened PayloadCodec
  import opened PageCodec
  import opened ImageIntegrity
  import opened Wal
  import opened StoreRuns

  lemma InitialKeeps(start: State)
    requires Initial(start)
    ensures Inv(start, start)
  {
  }

  lemma InvokeKeeps(start: State, s: State, t: State, l: Label)
    requires Inv(start, s) && InvokeStep(s, t, l)
    ensures Inv(start, t)
  {
    hide Decode, Logged, Consistent, Replayable, Retired;
  }

  /** A log on disk can be replayed exactly when the committed image decodes. */
  lemma ReplayOnDisk(d: Disk, value: Option<Snapshot>)
    requires DiskInv(d, value) && d.wal.Some?
    ensures Replay(Contents(d.main), d.wal.value).Some? <==> value.Some?
    ensures ParseWal(d.wal.value).Some? && LogOk(ParseWal(d.wal.value).value)
    ensures value.Some? ==> Decode(Replay(Contents(d.main), d.wal.value).value) == value
  {
    hide Decode, Consistent, Replay, ParseWal, LogOk, CurrentGeneration;
    var log, image :| Replayable(d, d.wal.value, log, image) && Decode(image) == value;
    ReplayLogged(Contents(d.main), d.wal.value, log, image);
  }

  lemma RecoverKeeps(start: State, s: State, t: State, l: Label)
    requires Inv(start, s) && RecoverStep(s, t, l)
    ensures Inv(start, t)
  {
    hide Decode, Consistent, Replay, ParseWal, LogOk, Logged, Replayable, Retired, LoadFiles;
    if s.disk.wal.Some? {
      ReplayOnDisk(s.disk, Expected(start, s.history));
    }
  }

  /** Writing one record keeps every other page and the file's completability. */
  lemma OverwriteConsistent(b: seq<Byte>, log: Log, image: seq<Byte>, k: nat)
    requires LogOk(log) && |image| == log.pages * PAGE_SIZE && k < |log.records|
    requires Consistent(b, log, image)
    ensures |log.records[k].data| == PAGE_SIZE
    ensures Consistent(Overwrite(b, log.records[k]), log, image)
  {
    hide Page, Overwrite;
    var r := log.records[k];
    assert r.page in PagesOf(log.records);
    forall p | 0 <= p < log.pages && p !in PagesOf(log.records)
      ensures (p + 1) * PAGE_SIZE <= |Overwrite(b, r)| && Page(Overwrite(b, r), p) == Page(b, p)
    {
      OverwrittenPage(b, r, p);
    }
  }

  lemma OverwriteApplied(b: seq<Byte>, log: Log, k: nat)
    requires LogOk(log) && k < |log.records| && Applied(b, log, k)
    ensures |log.records[k].data| == PAGE_SIZE
    ensures Applied(Overwrite(b, log.records[k]), log, k + 1)
  {
    hide Page, Overwrite;
    assert RecordOk(log.records[k], log.pages);
    forall i | 0 <= i < k + 1
      ensures (log.records[i].page + 1) * PAGE_SIZE <= |Overwrite(b, log.records[k])|
      ensures Page(Overwrite(b, log.records[k]), log.records[i].page) == log.records[i].data
    {
      OverwrittenPage(b, log.records[k], log.records[i].page);
    }
  }

  /** Replacing the visible file by another completable one, with the change recorded as pending. */
  lemma RewrittenReplayable(d: Disk, w: seq<Byte>, log: Log, image: seq<Byte>, pages: set<nat>, b: seq<Byte>)
    requires Replayable(d, w, log, image) && pages <= PagesOf(log.records)
    requires |b| <= MAX_FILE_BYTES && Consistent(b, log, image)
    ensures Replayable(Rewritten(d, pages, b), w, log, image)
  {
    hide Page, Logged;
    forall p | 0 <= p < log.pages && p !in PagesOf(log.records)
      ensures (p + 1) * PAGE_SIZE <= |b| && (p + 1) * PAGE_SIZE <= |Contents(d.durable)|
    {
    }
  }

  lemma RewrittenKeepsDisk(d: Disk, value: Option<Snapshot>, log: Log, image: seq<Byte>, pages: set<nat>, b: seq<Byte>)
    requires DiskInv(d, value) && d.wal.Some?
    requires Replayable(d, d.wal.value, log, image) && Decode(image) == value && pages <= PagesOf(log.records)
    requires |b| <= MAX_FILE_BYTES && Consistent(b, log, image)
    ensures DiskInv(Rewritten(d, pages, b), value)
  {
    hide Consistent, Decode, Touch, Replayable, Logged;
    RewrittenReplayable(d, d.wal.value, log, image, pages, b);
  }

  lemma RecordEnd(log: Log, image: seq<Byte>, k: nat)
    requires LogOk(log) && |image| == log.pages * PAGE_SIZE && k < |log.records|
    ensures (log.records[k].page + 1) * PAGE_SIZE <= |image|
    ensures log.records[k].page in PagesOf(log.records)
  {
    assert RecordOk(log.records[k], log.pages);
  }

  lemma WriteKeeps(start: State, s: State, t: State, l: Label)
    requires Inv(start, s) && WriteStep(s, t, l)
    ensures Inv(start, t)
  {
    hide Consistent, Decode, Touch, Overwrite, Replayable, ParseWal, Applied, Page, Retired, LoadFiles, Logged, LogOk;
    var value := Expected(start, s.history);
    var log, image :| Replayable(s.disk, s.disk.wal.value, log, image) && Decode(image) == value;
    ReplayableFacts(s.disk, s.disk.wal.value, log, image);
    var k := s.process.written;
    OverwriteConsistent(Contents(s.disk.main), log, image, k);
    OverwriteApplied(Contents(s.disk.main), log, k);
    RecordEnd(log, image, k);
    RewrittenKeepsDisk(s.disk, value, log, image, {log.records[k].page},
                       Overwrite(Contents(s.disk.main), log.records[k]));
  }

  lemma TruncatedIsImage(b: seq<Byte>, log: Log, image: seq<Byte>)
    requires LogOk(log) && |image| == log.pages * PAGE_SIZE
    requires Consistent(b, log, image) && Applied(b, log, |log.records|)
    ensures Resized(b, log.pages * PAGE_SIZE) == image
  {
    hide Page, Resized;
    var c := Resized(b, log.pages * PAGE_SIZE);
    forall p | 0 <= p < log.pages ensures Page(c, p) == Page(image, p) {
      if p in PagesOf(log.records) {
        var i :| 0 <= i < |log.records| && log.records[i].page == p;
        assert (log.records[i].page + 1) * PAGE_SIZE <= |b|;
      }
      ResizedPage(b, log.pages * PAGE_SIZE, p);
    }
    PagewiseEqual(c, image, log.pages);
  }

  lemma ImageConsistent(b: seq<Byte>, log: Log, image: seq<Byte>)
    requires LogOk(log) && |image| == log.pages * PAGE_SIZE && Consistent(b, log, image)
    ensures Consistent(image, log, image)
  {
  }

  lemma TruncateKeeps(start: State, s: State, t: State, l: Label)
    requires Inv(start, s) && TruncateStep(s, t, l)
    ensures Inv(start, t)
  {
    var value := Expected(start, s.history);
    var log, image :| Replayable(s.disk, s.disk.wal.value, log, image) && Decode(image) == value;
    assert log == s.process.log && |image| <= MAX_FILE_BYTES && Consistent(Contents(s.disk.durable), log, image);
    hide Consistent, Decode, Touch, Resized, Replayable, ParseWal, Applied, Committed, LoadFiles, Retired, LogOk;
    TruncatedIsImage(Contents(s.disk.main), log, image);
    CommittedIsImage(Contents(s.disk.durable), log, image);
    ImageConsistent(Contents(s.disk.main), log, image);
    RewrittenKeepsDisk(s.disk, value, log, image, {}, image);
  }

  /** What a log that can still be replayed says about the disk. */
  lemma ReplayableFacts(d: Disk, w: seq<Byte>, log: Log, image: seq<Byte>)
    requires Replayable(d, w, log, image)
    ensures Consistent(Contents(d.main), log, image) && Consistent(Contents(d.durable), log, image)
            && Logged(w, log, image)
    ensures |Contents(d.main)| <= MAX_FILE_BYTES
    ensures |image| <= MAX_FILE_BYTES && ParseWal(w) == Some(log) && LogOk(log) && |image| == log.pages * PAGE_SIZE
    ensures d.pending == Clean ==> d.main == d.durable
  {
    hide Consistent, ParseWal, Committed;
  }

  lemma SyncedReplayable(d: Disk, w: seq<Byte>, log: Log, image: seq<Byte>)
    requires Replayable(d, w, log, image)
    ensures Replayable(d.(durable := d.main, pending := Clean), w, log, image)
  {
    hide Consistent, Logged, Committed;
  }

  lemma SyncKeeps(start: State, s: State, t: State, l: Label)
    requires Inv(start, s) && SyncStep(s, t, l)
    ensures Inv(start, t)
  {
    hide Consistent, Decode, ParseWal, Committed, LoadFiles, Retired, LogOk, Logged, Replayable;
    var value := Expected(start, s.history);
    var log, image :| Replayable(s.disk, s.disk.wal.value, log, image) && Decode(image) == value;
    ReplayableFacts(s.disk, s.disk.wal.value, log, image);
    CommittedIsImage(Contents(s.disk.durable), log, image);
    CommittedIsImage(Contents(s.disk.main), log, image);
    SyncedReplayable(s.disk, s.disk.wal.value, log, image);
  }

  lemma UnlinkKeeps(start: State, s: State, t: State, l: Label)
    requires Inv(start, s) && UnlinkStep(s, t, l)
    ensures Inv(start, t)
  {
    hide Consistent, Decode, ParseWal, Committed, LogOk, Replayable, Logged;
    var value := Expected(start, s.history);
    var log, image :| Replayable(s.disk, s.disk.wal.value, log, image) && Decode(image) == value;
    ReplayableFacts(s.disk, s.disk.wal.value, log, image);
    assert s.disk.main == s.disk.durable && s.disk.removedWal == None;
    CommittedIsImage(Contents(s.disk.main), log, image);
    ImageConsistent(Contents(s.disk.main), log, image);
    assert Retired(t.disk, t.disk.removedWal.value, log, image);
  }

  lemma CleanKeeps(start: State, s: State, t: State, l: Label)
    requires Inv(start, s) && CleanStep(s, t, l)
    ensures Inv(start, t)
  {
    hide Consistent, Decode, Logged;
    if t.disk.removedWal.Some? {
      var log, image :| Retired(s.disk, s.disk.removedWal.value, log, image);
      assert Retired(t.disk, t.disk.removedWal.value, log, image);
    }
  }

  lemma LoadKeeps(start: State, s: State, t: State, l: Label)
    requires Inv(start, s) && LoadStep(s, t, l)
    ensures Inv(start, t)
  {
    hide Consistent, Decode, Logged;
    if s.disk.removedWal.Some? {
      var log, image :| Retired(s.disk, s.disk.removedWal.value, log, image);
      assert Retired(t.disk, t.disk.removedWal.value, log, image);
    }
  }

  lemma PrepareKeeps(start: State, s: State, t: State, l: Label)
    requires Inv(start, s) && PrepareStep(s, t, l)
    ensures Inv(start, t)
  {
    hide Decode, Consistent, Prepared, Logged, Replayable, Retired, LoadFiles;
  }

  /** What a commit logs is the difference between the file and the next image. */
  lemma PreparedLog(main: File, snapshot: Snapshot)
    requires |Contents(main)| <= MAX_FILE_BYTES && CurrentGeneration(Contents(main)) + 1 < U64_LIMIT
    requires EncodePages(snapshot, CurrentGeneration(Contents(main)) + 1, VERSION, true).Some?
    ensures EncodePayload(snapshot, true).Some?
    ensures var (before, payload) := (Contents(main), EncodePayload(snapshot, true).value);
            && DataPages(|payload|) + 1 <= MAX_PAGES
            && EncodePages(snapshot, CurrentGeneration(before) + 1, VERSION, true) == Some(NextImage(before, payload))
            && Prepared(main, snapshot) == EncodeWal(before, NextImage(before, payload), CurrentGeneration(before) + 1)
  {
    hide EncodePayload, Image, EncodeWal, CurrentGeneration, DataPages;
  }

  /** The commit point turns the stored value into the committed snapshot, in one atomic rename. */
  lemma PreparedReplayable(d: Disk, snapshot: Snapshot, w: seq<Byte>)
    requires d.wal == None && d.pending == Clean && d.main == d.durable
    requires Prepared(d.main, snapshot) == Some(w)
    ensures exists log, image ::
              Replayable(d.(wal := Some(w), removedWal := None), w, log, image) && Decode(image) == ReadBack(snapshot)
  {
    hide Consistent, Decode, Logged, ConstraintsReadable, WalBytes, EncodeWal, CurrentGeneration, NextImage, NextLog,
         EncodePages, EncodePayload, DataPages;
    PreparedFits(d.main, snapshot);
    PreparedLog(d.main, snapshot);
    hide Prepared;
    var before := Contents(d.main);
    var payload := EncodePayload(snapshot, true).value;
    var log, image := NextLog(before, payload), NextImage(before, payload);
    CommitLog(before, payload);
    CurrentRoundTrip(snapshot, CurrentGeneration(before) + 1);
    assert Replayable(d.(wal := Some(w), removedWal := None), w, log, image);
  }

  lemma PreparedFits(main: File, snapshot: Snapshot)
    requires Prepared(main, snapshot).Some?
    ensures |Contents(main)| <= MAX_FILE_BYTES && CurrentGeneration(Contents(main)) + 1 < U64_LIMIT
    ensures EncodePages(snapshot, CurrentGeneration(Contents(main)) + 1, VERSION, true).Some?
  {
    hide EncodeWal, CurrentGeneration, EncodePages;
  }

  lemma RenameKeeps(start: State, s: State, t: State, l: Label)
    requires Inv(start, s) && RenameStep(s, t, l)
    ensures Inv(start, t)
  {
    hide Consistent, Decode, Logged, Prepared, ReadBack, Replayable;
    PreparedReplayable(s.disk, s.process.op.snapshot, s.process.log');
    assert Expected(start, t.history) == ReadBack(s.process.op.snapshot);
  }

  lemma CheckpointKeeps(start: State, s: State, t: State, l: Label)
    requires Inv(start, s) && CheckpointStep(s, t, l)
    ensures Inv(start, t)
  {
    hide Decode, Consistent, Replay, ParseWal, LogOk, Logged, Replayable, Retired, LoadFiles;
    ReplayOnDisk(s.disk, Expected(start, s.history));
  }

  lemma TornConsistent(b: seq<Byte>, c: seq<Byte>, log: Log, image: seq<Byte>, k: nat)
    requires LogOk(log) && |image| == log.pages * PAGE_SIZE && k < |log.records|
    requires Consistent(b, log, image) && TornWrite(b, log.records[k], c)
    ensures Consistent(c, log, image)
  {
    hide Page;
    assert log.records[k].page in PagesOf(log.records);
    forall p | 0 <= p < log.pages && p !in PagesOf(log.records)
      ensures (p + 1) * PAGE_SIZE <= |c| && Page(c, p) == Page(b, p)
    {
      PageByBytes(b, c, p);
    }
  }

  lemma FailKeeps(start: State, s: State, t: State, l: Label)
    requires Inv(start, s) && FailStep(s, t, l)
    ensures Inv(start, t)
  {
    if t.disk != s.disk {
      var value := Expected(start, s.history);
      var log, image :| Replayable(s.disk, s.disk.wal.value, log, image) && Decode(image) == value;
      assert log == s.process.log && |image| <= MAX_FILE_BYTES && |Contents(s.disk.main)| <= MAX_FILE_BYTES;
      hide Consistent, Decode, Touch, Replayable, ParseWal, Applied, Page, Retired, LoadFiles;
      var k := s.process.written;
      RecordEnd(log, image, k);
      TornConsistent(Contents(s.disk.main), t.disk.main.value, log, image, k);
      RewrittenKeepsDisk(s.disk, value, log, image, {log.records[k].page}, t.disk.main.value);
    }
  }

  /** Whatever a crash leaves of a file with pending writes can still be completed. */
  lemma CrashedConsistent(d: Disk, w: seq<Byte>, log: Log, image: seq<Byte>, f: File)
    requires Replayable(d, w, log, image) && CrashedMain(d, f)
    ensures |Contents(f)| <= MAX_FILE_BYTES && Consistent(Contents(f), log, image)
  {
    hide Page, Logged;
    var b, c := Contents(d.durable), Contents(f);
    if d.pending.Dirty? {
      forall p | 0 <= p < log.pages && p !in PagesOf(log.records)
        ensures (p + 1) * PAGE_SIZE <= |c| && Page(c, p) == Page(b, p)
      {
        assert (p + 1) * PAGE_SIZE <= |b|;
        PageByBytes(b, c, p);
      }
    }
  }

  lemma CrashKeeps(start: State, s: State, t: State, l: Label)
    requires Inv(start, s) && CrashStep(s, t, l)
    ensures Inv(start, t)
  {
    hide Decode, Consistent, Logged;
    var value := Expected(start, s.history);
    if s.disk.wal.Some? {
      var log, image :| Replayable(s.disk, s.disk.wal.value, log, image) && Decode(image) == value;
      CrashedConsistent(s.disk, s.disk.wal.value, log, image, t.disk.main);
      assert Replayable(t.disk, t.disk.wal.value, log, image);
    } else if t.disk.wal.Some? {
      var log, image :| Retired(s.disk, s.disk.removedWal.value, log, image);
      assert Replayable(t.disk, t.disk.wal.value, log, image);
    }
  }

  /** Every step, including crashes and failed calls anywhere, keeps the invariant. */
  lemma StepKeeps(start: State, s: State, t: State, l: Label)
    requires Inv(start, s) && Step(s, t, l)
    ensures Inv(start, t)
  {
    hide Inv, InvokeStep, RecoverStep, WriteStep, TruncateStep, SyncStep, UnlinkStep, CleanStep, LoadStep,
         PrepareStep, RenameStep, CheckpointStep, FailStep, CrashStep;
    if InvokeStep(s, t, l) { InvokeKeeps(start, s, t, l); }
    else if RecoverStep(s, t, l) { RecoverKeeps(start, s, t, l); }
    else if WriteStep(s, t, l) { WriteKeeps(start, s, t, l); }
    else if TruncateStep(s, t, l) { TruncateKeeps(start, s, t, l); }
    else if SyncStep(s, t, l) { SyncKeeps(start, s, t, l); }
    else if UnlinkStep(s, t, l) { UnlinkKeeps(start, s, t, l); }
    else if CleanStep(s, t, l) { CleanKeeps(start, s, t, l); }
    else if LoadStep(s, t, l) { LoadKeeps(start, s, t, l); }
    else if PrepareStep(s, t, l) { PrepareKeeps(start, s, t, l); }
    else if RenameStep(s, t, l) { RenameKeeps(start, s, t, l); }
    else if CheckpointStep(s, t, l) { CheckpointKeeps(start, s, t, l); }
    else if FailStep(s, t, l) { FailKeeps(start, s, t, l); }
    else { CrashKeeps(start, s, t, l); }
  }

  /** In every reachable state an undisturbed load would answer with the last committed snapshot. */
  lemma ViewIsExpected(start: State, s: State)
    requires Inv(start, s)
    ensures View(s.disk) == Expected(start, s.history)
  {
    hide Decode, Replay, ParseWal, LogOk, Replayable, Retired;
    if s.disk.wal.Some? {
      ReplayOnDisk(s.disk, Expected(start, s.history));
    }
  }

  /** What a returning operation has achieved. */
  lemma ReturnMeaning(start: State, s: State, t: State, l: Label)
    requires Inv(start, s) && Step(s, t, l)
    ensures s.history <= t.history
    ensures l.Return? && l.op == Load && l.outcome.Loaded? ==>
              Expected(start, t.history) == Some(l.outcome.snapshot)
    ensures l.Return? && l.op.Commit? && l.outcome == Done ==> LastIs(t.history, l.op)
    ensures l.Return? && l.op == Load ==> l.outcome != Done
  {
    hide Decode, Replay, ParseWal, LogOk, Replayable, Retired, Expected, Prepared, TornWrite, Overwrite,
         Resized, Applied, Committed, CrashedDisk, Touch;
  }

  // ----- whole runs -----

  ghost predicate Run(states: seq<State>, labels: seq<Label>)
  {
    && |states| == |labels| + 1
    && Initial(states[0])
    && forall i :: 0 <= i < |labels| ==> Step(states[i], states[i + 1], labels[i])
  }

  lemma {:induction false} RunKeeps(states: seq<State>, labels: seq<Label>, i: nat)
    requires Run(states, labels) && i < |states|
    ensures Inv(states[0], states[i])
    decreases i
  {
    hide Inv, Step, Initial;
    if i == 0 {
      InitialKeeps(states[0]);
    } else {
      RunKeeps(states, labels, i - 1);
      assert Step(states[i - 1], states[i], labels[i - 1]);
      StepKeeps(states[0], states[i - 1], states[i], labels[i - 1]);
    }
  }

  lemma {:induction false} HistoryGrows(states: seq<State>, labels: seq<Label>, i: nat, j: nat)
    requires Run(states, labels) && i <= j < |states|
    ensures states[i].history <= states[j].history
    decreases j
  {
    hide Inv, Step, Initial;
    if i < j {
      HistoryGrows(states, labels, i, j - 1);
      RunKeeps(states, labels, j - 1);
      assert Step(states[j - 1], states[j], labels[j - 1]);
      ReturnMeaning(states[0], states[j - 1], states[j], labels[j - 1]);
    }
  }

  /**
   * Atomicity: whatever operations, failed calls and crashes came before, the store holds exactly
   * the snapshot of the last renamed log (or what it held at the start), and every load that
   * returns a snapshot returns that one.
   */
  lemma Atomicity(states: seq<State>, labels: seq<Label>, i: nat)
    requires Run(states, labels) && i < |states|
    ensures View(states[i].disk) == Expected(states[0], states[i].history)
    ensures i < |labels| && labels[i].Return? && labels[i].outcome.Loaded? ==>
              Some(labels[i].outcome.snapshot) == Expected(states[0], states[i + 1].history)
  {
    hide Inv, View, Expected, Initial;
    RunKeeps(states, labels, i);
    ViewIsExpected(states[0], states[i]);
    if i < |labels| {
      assert Step(states[i], states[i + 1], labels[i]);
      if labels[i].Return? && labels[i].outcome.Loaded? {
        OnlyLoadsLoad(states[i], states[i + 1], labels[i]);
      }
      ReturnMeaning(states[0], states[i], states[i + 1], labels[i]);
    }
  }

  lemma OnlyLoadsLoad(s: State, t: State, l: Label)
    requires Step(s, t, l) && l.Return? && l.outcome.Loaded?
    ensures l.op == Load
  {
    hide Replay, ParseWal, Prepared, TornWrite, Overwrite, Resized, CrashedDisk, Touch;
  }

  /** A successful commit is in the history when it returns, and stays at its place. */
  lemma CommitKept(states: seq<State>, labels: seq<Label>, i: nat, j: nat)
    requires Run(states, labels) && i < j < |states|
    requires labels[i].Return? && labels[i].op.Commit? && labels[i].outcome == Done
    ensures var at := |states[i + 1].history| - 1;
            0 <= at < |states[j].history| && states[j].history[at] == labels[i].op.snapshot
  {
    hide Inv, Step, Initial;
    RunKeeps(states, labels, i);
    assert Step(states[i], states[i + 1], labels[i]);
    ReturnMeaning(states[0], states[i], states[i + 1], labels[i]);
    HistoryGrows(states, labels, i + 1, j);
  }

  lemma RunLength(states: seq<State>, labels: seq<Label>)
    requires Run(states, labels)
    ensures |states| == |labels| + 1
  {
    hide Step, Initial;
  }

  lemma ExpectedLast(start: State, history: seq<Snapshot>)
    requires history != []
    ensures Expected(start, history) == ReadBack(history[|history| - 1])
  {
  }

  /**
   * Durability: once a commit has returned success, its snapshot stays in the committed history at
   * its place, and every later load that returns a snapshot returns that one or a later commit's.
   */
  lemma Durability(states: seq<State>, labels: seq<Label>, i: nat, j: nat)
    requires Run(states, labels) && i < j < |labels|
    requires labels[i].Return? && labels[i].op.Commit? && labels[i].outcome == Done
    requires labels[j].Return? && labels[j].outcome.Loaded?
    ensures var at := |states[i + 1].history| - 1;
            var history := states[j + 1].history;
            && 0 <= at < |history| && history[at] == labels[i].op.snapshot
            && ReadBack(history[|history| - 1]) == Some(labels[j].outcome.snapshot)
  {
    hide Run, View, ReadBack, Expected;
    RunLength(states, labels);
    CommitKept(states, labels, i, j + 1);
    assert states[j + 1].history != [];
    ExpectedLast(states[0], states[j + 1].history);
    Atomicity(states, labels, j);
  }

  // ----- the one way to lose the store -----

  /** The last commit wrote a snapshot the decoder refuses, and that commit has returned. */
  ghost predicate Bricked(start: State, s: State)
  {
    && Inv(start, s) && s.history != []
    && !ConstraintsReadable(s.history[|s.history| - 1])
    && (s.process == Idle || s.process.Recovering?)
  }

  lemma BrickedReplay(start: State, s: State)
    requires Bricked(start, s)
    ensures s.disk.wal.Some? && Replay(Contents(s.disk.main), s.disk.wal.value) == None
  {
    hide Inv, Replay, ConstraintsReadable;
    CommittedUnreplayable(start, s);
  }

  /** With a log that cannot be replayed, a store at rest only fails and waits. */
  lemma UnreplayableRests(s: State, t: State, l: Label)
    requires s.disk.wal.Some? && Replay(Contents(s.disk.main), s.disk.wal.value) == None
    requires Step(s, t, l) && (s.process == Idle || s.process.Recovering?)
    ensures t.history == s.history && (t.process == Idle || t.process.Recovering?)
    ensures l.Return? ==> l.outcome == Failed
  {
    hide Replay, ParseWal, Prepared, TornWrite, Overwrite, Resized, CrashedDisk, Touch, LoadFiles;
  }

  /** From then on every operation fails and nothing can be committed, whatever happens. */
  lemma BrickedForever(start: State, s: State, t: State, l: Label)
    requires Bricked(start, s) && Step(s, t, l)
    ensures Bricked(start, t) && t.history == s.history
    ensures l.Return? ==> l.outcome == Failed
  {
    hide Inv, Step, ConstraintsReadable, Replay;
    BrickedReplay(start, s);
    UnreplayableRests(s, t, l);
    StepKeeps(start, s, t, l);
  }

  /** The log a commit prepares, wherever the file and its generation leave room for it. */
  lemma PreparedAt(main: File, snapshot: Snapshot)
    requires |Contents(main)| <= MAX_FILE_BYTES && CurrentGeneration(Contents(main)) + 1 < U64_LIMIT
    requires EncodePages(snapshot, CurrentGeneration(Contents(main)) + 1, VERSION, true).Some?
    ensures Prepared(main, snapshot).Some?
  {
    hide *;
    PreparedLog(main, snapshot);
    CommitLog(Contents(main), EncodePayload(snapshot, true).value);
  }

  lemma OverfullUnreadable()
    ensures !ConstraintsReadable(Snapshot([OverfullTable()]))
  {
    hide ConstraintsReadable, OverfullTable;
    OverfullSnapshotIsLost(0);
    CurrentRoundTrip(Snapshot([OverfullTable()]), 0);
  }

  lemma RunLonger(states: seq<State>, labels: seq<Label>, t: State, l: Label)
    requires Run(states, labels) && Step(states[|states| - 1], t, l)
    ensures Run(states + [t], labels + [l])
  {
    hide Step, Initial;
    var (xs, ys) := (states + [t], labels + [l]);
    forall i | 0 <= i < |ys| ensures Step(xs[i], xs[i + 1], ys[i]) {
      if i < |labels| {
        assert xs[i] == states[i] && xs[i + 1] == states[i + 1];
      }
    }
  }

  /** The state after the steps of a commit up to the rename of its log. */
  function Renamed(start: State, snapshot: Snapshot, w: seq<Byte>): State
  {
    State(start.disk.(wal := Some(w), removedWal := None), Logged'(Commit(snapshot), w), start.history + [snapshot])
  }

  lemma CommitRuns(start: State, snapshot: Snapshot, w: seq<Byte>) returns (states: seq<State>, labels: seq<Label>)
    requires Initial(start) && Prepared(start.disk.main, snapshot) == Some(w)
    ensures Run(states, labels) && states[0] == start && states[|states| - 1] == Renamed(start, snapshot, w)
  {
    hide Prepared, Replay;
    var op := Commit(snapshot);
    var a := start.(process := Recovering(op));
    var b := start.(process := Ready(op));
    var c := start.(process := Logging(op, w));
    assert Step(start, a, Invoke(op)) by { assert InvokeStep(start, a, Invoke(op)); }
    assert Step(a, b, Internal) by { assert RecoverStep(a, b, Internal); }
    assert Step(b, c, Internal) by { assert PrepareStep(b, c, Internal); }
    assert Step(c, Renamed(start, snapshot, w), Internal) by {
      assert RenameStep(c, Renamed(start, snapshot, w), Internal);
    }
    hide Step, Initial, Renamed;
    states, labels := [start], [];
    RunLonger(states, labels, a, Invoke(op));
    states, labels := states + [a], labels + [Invoke(op)];
    RunLonger(states, labels, b, Internal);
    states, labels := states + [b], labels + [Internal];
    RunLonger(states, labels, c, Internal);
    states, labels := states + [c], labels + [Internal];
    RunLonger(states, labels, Renamed(start, snapshot, w), Internal);
    states, labels := states + [Renamed(start, snapshot, w)], labels + [Internal];
  }

  /** From every store at rest with room for one more generation, one commit that returns success leads there. */
  lemma OverfullBricks(start: State) returns (states: seq<State>, labels: seq<Label>)
    requires Initial(start) && |Contents(start.disk.main)| <= MAX_FILE_BYTES
    requires CurrentGeneration(Contents(start.disk.main)) + 1 < U64_LIMIT
    ensures Run(states, labels) && states[0] == start && Bricked(start, states[|states| - 1])
    ensures labels != [] && labels[|labels| - 1] == Return(Commit(Snapshot([OverfullTable()])), Done)
  {
    hide OverfullTable, ConstraintsReadable, Replay, Inv, Prepared, CurrentGeneration, Run, Initial, Step;
    var snapshot := Snapshot([OverfullTable()]);
    OverfullSnapshotIsLost(CurrentGeneration(Contents(start.disk.main)) + 1);
    PreparedAt(start.disk.main, snapshot);
    OverfullUnreadable();
    var w := Prepared(start.disk.main, snapshot).value;
    states, labels := CommitRuns(start, snapshot, w);
    RunShape(states, labels);
    var d := Renamed(start, snapshot, w);
    RunKeeps(states, labels, |states| - 1);
    CommittedUnreplayable(start, d);
    var e := d.(process := Idle);
    CheckpointReturns(d, e);
    RunLonger(states, labels, e, Return(Commit(snapshot), Done));
    states, labels := states + [e], labels + [Return(Commit(snapshot), Done)];
    RunShape(states, labels);
    RunKeeps(states, labels, |states| - 1);
  }

  lemma RunShape(states: seq<State>, labels: seq<Label>)
    requires Run(states, labels)
    ensures |states| == |labels| + 1
  {
  }

  /** A log that does not replay is left behind by a commit that reports success. */
  lemma CheckpointReturns(s: State, t: State)
    requires s.process.Logged'? && s.process.op.Commit? && t == s.(process := Idle)
    requires Replay(Contents(s.disk.main), s.process.log').None?
    ensures Step(s, t, Return(s.process.op, Done))
  {
    hide Replay;
    assert CheckpointStep(s, t, Return(s.process.op, Done));
  }

  lemma CommittedUnreplayable(start: State, s: State)
    requires Inv(start, s) && s.history != [] && !ConstraintsReadable(s.history[|s.history| - 1])
    ensures s.disk.wal.Some? && Replay(Contents(s.disk.main), s.disk.wal.value) == None
  {
    hide Replay, ParseWal, Replayable, ConstraintsReadable;
    assert Expected(start, s.history) == None;
    ReplayOnDisk(s.disk, None);
  }

  /** A committed snapshot can be loaded if and only if every table is within the constraint cap. */
  lemma CommittedLoadable(start: State, s: State)
    requires Inv(start, s) && s.history != []
    ensures View(s.disk).Some? <==> ConstraintsReadable(s.history[|s.history| - 1])
  {
    hide View, ConstraintsReadable;
    ViewIsExpected(start, s);
  }
}
