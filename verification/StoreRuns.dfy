/**
 * The store as a state machine: loads and commits broken into the steps between which the machine
 * may crash or an input/output call may fail, over files whose unsynchronised writes may be lost,
 * kept or torn.
 */
module StoreRuns {
  import opened Options
  import opened Bytes
  import opened Snapshots
  import opened PayloadCodec
  import opened PageCodec
  import opened ImageIntegrity
  import opened Wal

  type File = Option<seq<Byte>>

  function Contents(f: File): seq<Byte>
  {
    if f.Some? then f.value else []
  }

  /** Writes since the last synchronisation: the pages touched and the lengths passed through. */
  datatype Pending = Clean | Dirty(pages: set<nat>, shortest: nat, longest: nat)

  /**
   * `main` is the store file as the process sees it and `durable` what was last synchronised.
   * A removed log or backup may come back after a crash, because the removal is not synchronised;
   * renames are atomic and durable.
   */
  datatype Disk = Disk(main: File, durable: File, pending: Pending, wal: File, removedWal: File,
                       backup: File, removedBackup: File)

  datatype Operation = Load | Commit(snapshot: Snapshot)

  datatype Outcome = Loaded(snapshot: Snapshot) | Done | Failed

  datatype Process =
    | Idle
    | Recovering(op: Operation)
    | Writing(op: Operation, checkpoint: bool, log: Log, written: nat)
    | Syncing(op: Operation, checkpoint: bool, log: Log)
    | Unlinking(op: Operation, checkpoint: bool)
    | Cleaning(op: Operation)
    | Ready(op: Operation)
    | Logging(op: Operation, log': seq<Byte>)
    | Logged'(op: Operation, log': seq<Byte>)

  /** `history` lists the snapshots whose log was renamed into place: the committed transactions. */
  datatype State = State(disk: Disk, process: Process, history: seq<Snapshot>)

  datatype Label = Internal | Invoke(op: Operation) | Return(op: Operation, outcome: Outcome) | Crash

  // ----- file effects -----

  function Overwrite(b: seq<Byte>, r: Record): (c: seq<Byte>)
    requires |r.data| == PAGE_SIZE
    ensures |c| == Max(|b|, (r.page + 1) * PAGE_SIZE)
  {
    var start, end := r.page * PAGE_SIZE, (r.page + 1) * PAGE_SIZE;
    (if |b| < start then b + Zeros(start - |b|) else b[..start]) + r.data + (if end < |b| then b[end..] else [])
  }

  function Touch(d: Disk, pages: set<nat>, length: nat): Pending
  {
    match d.pending
    case Clean => Dirty(pages, Min(|Contents(d.durable)|, length), Max(|Contents(d.durable)|, length))
    case Dirty(ps, lo, hi) => Dirty(ps + pages, Min(lo, length), Max(hi, length))
  }

  function Rewritten(d: Disk, pages: set<nat>, b: seq<Byte>): Disk
  {
    d.(main := Some(b), pending := Touch(d, pages, |b|))
  }

  /** A failed write may leave any part of its page, with the file grown any part of the way. */
  predicate TornWrite(b: seq<Byte>, r: Record, c: seq<Byte>)
  {
    && |b| <= |c| <= Max(|b|, (r.page + 1) * PAGE_SIZE)
    && forall i :: 0 <= i < |b| && i / PAGE_SIZE != r.page ==> c[i] == b[i]
  }

  /** What a crash may leave of the store file. */
  predicate CrashedMain(d: Disk, f: File)
  {
    match d.pending
    case Clean => f == d.durable
    case Dirty(pages, shortest, longest) =>
      && (f.None? ==> d.durable.None?)
      && shortest <= |Contents(f)| <= longest
      && forall i :: 0 <= i < |Contents(f)| && i < |Contents(d.durable)| && i / PAGE_SIZE !in pages ==>
           Contents(f)[i] == Contents(d.durable)[i]
  }

  predicate CrashedDisk(d: Disk, c: Disk)
  {
    && CrashedMain(d, c.main)
    && c.durable == c.main
    && c.pending == Clean
    && (c.wal == d.wal || (d.wal.None? && c.wal == d.removedWal))
    && c.removedWal == None
    && (c.backup == d.backup || (d.backup.None? && c.backup == d.removedBackup))
    && c.removedBackup == None
  }

  // ----- what a load reads -----

  function LoadFiles(main: File, backup: File): Option<Snapshot>
  {
    if main.Some? then Decode(main.value)
    else if backup.Some? then Decode(backup.value)
    else Some(EMPTY)
  }

  /** The answer of an undisturbed load, or none where it fails. */
  function View(d: Disk): Option<Snapshot>
  {
    match d.wal
    case None => LoadFiles(d.main, d.backup)
    case Some(w) =>
      match Replay(Contents(d.main), w)
      case None => None
      case Some(image) => Decode(image)
  }

  // ----- steps -----

  predicate RecoverStep(s: State, t: State, l: Label)
  {
    && s.process.Recovering? && t.disk == s.disk && t.history == s.history
    && var op := s.process.op;
       match s.disk.wal
       case None => l == Internal && t.process == Ready(op)
       case Some(w) =>
         if Replay(Contents(s.disk.main), w).None?
         then l == Return(op, Failed) && t.process == Idle
         else l == Internal && t.process == Writing(op, false, ParseWal(w).value, 0)
  }

  predicate WriteStep(s: State, t: State, l: Label)
  {
    && s.process.Writing? && l == Internal && t.history == s.history
    && var (log, k) := (s.process.log, s.process.written);
       && k < |log.records|
       && |log.records[k].data| == PAGE_SIZE
       && t.disk == Rewritten(s.disk, {log.records[k].page}, Overwrite(Contents(s.disk.main), log.records[k]))
       && t.process == s.process.(written := k + 1)
  }

  predicate TruncateStep(s: State, t: State, l: Label)
  {
    && s.process.Writing? && l == Internal && t.history == s.history
    && s.process.written == |s.process.log.records|
    && t.disk == Rewritten(s.disk, {}, Resized(Contents(s.disk.main), s.process.log.pages * PAGE_SIZE))
    && t.process == Syncing(s.process.op, s.process.checkpoint, s.process.log)
  }

  predicate SyncStep(s: State, t: State, l: Label)
  {
    && s.process.Syncing? && l == Internal && t.history == s.history
    && t.disk == s.disk.(durable := s.disk.main, pending := Clean)
    && t.process == Unlinking(s.process.op, s.process.checkpoint)
  }

  predicate UnlinkStep(s: State, t: State, l: Label)
  {
    && s.process.Unlinking? && l == Internal && t.history == s.history
    && t.disk == s.disk.(wal := None, removedWal := s.disk.wal)
    && t.process == if s.process.checkpoint then Cleaning(s.process.op) else Ready(s.process.op)
  }

  /** The last act of a commit removes a leftover backup; whether that succeeds is ignored. */
  predicate CleanStep(s: State, t: State, l: Label)
  {
    && s.process.Cleaning? && l == Return(s.process.op, Done) && t.history == s.history
    && t.process == Idle
    && (t.disk == s.disk ||
        t.disk == s.disk.(backup := None, removedBackup :=
                          if s.disk.backup.Some? then s.disk.backup else s.disk.removedBackup))
  }

  predicate LoadStep(s: State, t: State, l: Label)
  {
    && s.process == Ready(Load) && t.history == s.history && t.process == Idle
    && var d := s.disk;
       match LoadFiles(d.main, d.backup)
       case None => l == Return(Load, Failed) && t.disk == d
       case Some(snapshot) =>
         && l == Return(Load, Loaded(snapshot))
         && t.disk == if d.main.None? && d.backup.Some?
                      then d.(main := d.backup, durable := d.backup, backup := None) else d
  }

  /** The log bytes a commit prepares, if it gets that far. */
  function Prepared(main: File, snapshot: Snapshot): Option<seq<Byte>>
  {
    var before := Contents(main);
    if |before| > MAX_FILE_BYTES || CurrentGeneration(before) + 1 >= U64_LIMIT then None
    else
      match EncodePages(snapshot, CurrentGeneration(before) + 1, VERSION, true)
      case None => None
      case Some(after) => EncodeWal(before, after, CurrentGeneration(before) + 1)
  }

  predicate PrepareStep(s: State, t: State, l: Label)
  {
    && s.process.Ready? && s.process.op.Commit? && t.disk == s.disk && t.history == s.history
    && match Prepared(s.disk.main, s.process.op.snapshot)
       case None => l == Return(s.process.op, Failed) && t.process == Idle
       case Some(w) => l == Internal && t.process == Logging(s.process.op, w)
  }

  /** Renaming the synchronised log into place is the commit point. */
  predicate RenameStep(s: State, t: State, l: Label)
  {
    && s.process.Logging? && s.process.op.Commit? && l == Internal
    && t.disk == s.disk.(wal := Some(s.process.log'), removedWal := None)
    && t.history == s.history + [s.process.op.snapshot]
    && t.process == Logged'(s.process.op, s.process.log')
  }

  predicate CheckpointStep(s: State, t: State, l: Label)
  {
    && s.process.Logged'? && t.disk == s.disk && t.history == s.history
    && if Replay(Contents(s.disk.main), s.process.log').None?
       then l == Return(s.process.op, Done) && t.process == Idle
       else l == Internal && t.process == Writing(s.process.op, true, ParseWal(s.process.log').value, 0)
  }

  /** The outcome when an input/output call fails: after the commit point only removal is reported. */
  function FailureOutcome(p: Process): Outcome
    requires !p.Idle?
  {
    if p.Logged'? || (p.Writing? && p.checkpoint) || (p.Syncing? && p.checkpoint) then Done else Failed
  }

  predicate FailStep(s: State, t: State, l: Label)
  {
    && !s.process.Idle? && !s.process.Cleaning? && l == Return(s.process.op, FailureOutcome(s.process))
    && t.process == Idle && t.history == s.history
    && (t.disk == s.disk || (
        && s.process.Writing? && s.process.written < |s.process.log.records|
        && t.disk.main.Some?
        && var r := s.process.log.records[s.process.written];
           && TornWrite(Contents(s.disk.main), r, t.disk.main.value)
           && t.disk == Rewritten(s.disk, {r.page}, t.disk.main.value)))
  }

  predicate InvokeStep(s: State, t: State, l: Label)
  {
    l.Invoke? && s.process == Idle && t == s.(process := Recovering(l.op))
  }

  predicate CrashStep(s: State, t: State, l: Label)
  {
    l == Crash && t.process == Idle && t.history == s.history && CrashedDisk(s.disk, t.disk)
  }

  predicate Step(s: State, t: State, l: Label)
  {
    || InvokeStep(s, t, l) || RecoverStep(s, t, l) || WriteStep(s, t, l) || TruncateStep(s, t, l)
    || SyncStep(s, t, l) || UnlinkStep(s, t, l) || CleanStep(s, t, l) || LoadStep(s, t, l)
    || PrepareStep(s, t, l) || RenameStep(s, t, l) || CheckpointStep(s, t, l)
    || FailStep(s, t, l) || CrashStep(s, t, l)
  }

  /** A store at rest with no log; its files may hold anything. */
  predicate Initial(s: State)
  {
    && s.process == Idle && s.history == []
    && s.disk == Disk(s.disk.main, s.disk.main, Clean, None, None, s.disk.backup, None)
  }

  // ----- the specification: the last committed snapshot -----

  /** What reading back a committed snapshot gives: none for one beyond the decoder's cap. */
  function ReadBack(s: Snapshot): Option<Snapshot>
  {
    if ConstraintsReadable(s) then Some(Snapshot(Sorted(s.tables))) else None
  }

  function Expected(start: State, history: seq<Snapshot>): Option<Snapshot>
  {
    if history == [] then LoadFiles(start.disk.main, start.disk.backup) else ReadBack(history[|history| - 1])
  }

  // ----- the invariant -----

  /** The log on disk commits `image`, and both views of the file can be completed to it. */
  predicate Replayable(d: Disk, w: seq<Byte>, log: Log, image: seq<Byte>)
  {
    && Logged(w, log, image)
    && |image| <= MAX_FILE_BYTES
    && |Contents(d.main)| <= MAX_FILE_BYTES && Consistent(Contents(d.main), log, image)
    && |Contents(d.durable)| <= MAX_FILE_BYTES && Consistent(Contents(d.durable), log, image)
    && match d.pending
       case Clean => d.main == d.durable
       case Dirty(pages, shortest, longest) =>
         && pages <= PagesOf(log.records)
         && shortest <= |Contents(d.main)| <= longest <= MAX_FILE_BYTES
         && d.main.Some?
         && forall p :: 0 <= p < log.pages && p !in PagesOf(log.records) ==> (p + 1) * PAGE_SIZE <= shortest
  }

  /** A log that was removed after its image was synchronised is harmless if it comes back. */
  predicate Retired(d: Disk, w: seq<Byte>, log: Log, image: seq<Byte>)
  {
    && Logged(w, log, image) && |image| <= MAX_FILE_BYTES
    && d.main == Some(image) && Consistent(image, log, image)
  }

  ghost predicate DiskInv(d: Disk, value: Option<Snapshot>)
  {
    && (d.removedBackup.Some? ==> d.main.Some? && d.durable.Some?)
    && match d.wal
       case Some(w) => d.removedWal == None
                       && exists log, image :: Replayable(d, w, log, image) && Decode(image) == value
       case None =>
         && d.pending == Clean && d.main == d.durable && LoadFiles(d.main, d.backup) == value
         && (d.removedWal.Some? ==>
               value.Some? && exists log, image :: Retired(d, d.removedWal.value, log, image))
  }

  /** The first `k` records are in the file. */
  predicate Applied(b: seq<Byte>, log: Log, k: nat)
  {
    forall i :: 0 <= i < k && i < |log.records| ==>
      (log.records[i].page + 1) * PAGE_SIZE <= |b| && Page(b, log.records[i].page) == log.records[i].data
  }

  predicate LastIs(history: seq<Snapshot>, op: Operation)
  {
    op.Commit? && history != [] && history[|history| - 1] == op.snapshot
  }

  predicate Installing(d: Disk, log: Log, value: Option<Snapshot>)
  {
    && d.wal.Some? && value.Some? && ParseWal(d.wal.value) == Some(log) && LogOk(log)
  }

  predicate ProcessInv(s: State, value: Option<Snapshot>)
  {
    match s.process
    case Idle => true
    case Recovering(_) => true
    case Writing(op, checkpoint, log, k) =>
      && Installing(s.disk, log, value) && k <= |log.records|
      && Applied(Contents(s.disk.main), log, k)
      && (checkpoint ==> LastIs(s.history, op))
    case Syncing(op, checkpoint, log) =>
      && Installing(s.disk, log, value)
      && s.disk.main == Some(Committed(Contents(s.disk.durable), log))
      && (checkpoint ==> LastIs(s.history, op))
    case Unlinking(op, checkpoint) =>
      && s.disk.wal.Some? && value.Some? && s.disk.pending == Clean
      && ParseWal(s.disk.wal.value).Some? && LogOk(ParseWal(s.disk.wal.value).value)
      && s.disk.main == Some(Committed(Contents(s.disk.main), ParseWal(s.disk.wal.value).value))
      && (checkpoint ==> LastIs(s.history, op))
    case Cleaning(op) => s.disk.wal == None && s.disk.main.Some? && LastIs(s.history, op)
    case Ready(op) => s.disk.wal == None
    case Logging(op, w) => op.Commit? && s.disk.wal == None && Prepared(s.disk.main, op.snapshot) == Some(w)
    case Logged'(op, w) => s.disk.wal == Some(w) && LastIs(s.history, op)
  }

  ghost predicate Inv(start: State, s: State)
  {
    var value := Expected(start, s.history);
    && DiskInv(s.disk, value)
    && ProcessInv(s, value)
    && (s.history != [] && value == None ==> s.disk.wal.Some?)
  }

  // ----- page facts -----

  lemma OverwrittenPage(b: seq<Byte>, r: Record, p: nat)
    requires |r.data| == PAGE_SIZE
    requires p == r.page || (p + 1) * PAGE_SIZE <= |b|
    ensures (p + 1) * PAGE_SIZE <= |Overwrite(b, r)|
    ensures Page(Overwrite(b, r), p) == if p == r.page then r.data else Page(b, p)
  {
    var start, end := r.page * PAGE_SIZE, (r.page + 1) * PAGE_SIZE;
    var head := if |b| < start then b + Zeros(start - |b|) else b[..start];
    var tail := if end < |b| then b[end..] else [];
    var c := Overwrite(b, r);
    assert c == head + r.data + tail && |head| == start;
    if p < r.page {
      assert (p + 1) * PAGE_SIZE <= start;
      assert c[p * PAGE_SIZE..(p + 1) * PAGE_SIZE] == head[p * PAGE_SIZE..(p + 1) * PAGE_SIZE];
    } else if p > r.page {
      assert end <= p * PAGE_SIZE;
      assert forall i :: end <= i < |b| ==> c[i] == b[i];
    }
  }

  lemma PageByBytes(b: seq<Byte>, c: seq<Byte>, p: nat)
    requires (p + 1) * PAGE_SIZE <= |b| && (p + 1) * PAGE_SIZE <= |c|
    requires forall i :: 0 <= i < |b| && i < |c| && i / PAGE_SIZE == p ==> c[i] == b[i]
    ensures Page(c, p) == Page(b, p)
  {
    forall i | 0 <= i < PAGE_SIZE ensures Page(c, p)[i] == Page(b, p)[i] {
      assert (p * PAGE_SIZE + i) / PAGE_SIZE == p;
    }
  }
}
