/** The disk-backed log with an index offset and snapshot compaction. */
module LogStore {
  import opened Domain
  import opened StateMachine
  import opened Consensus

  datatype Entry = Entry(index: nat, term: nat, timestamp: int, command: Command)

  datatype Snapshot = Snapshot(state: Store, lastIncludedIndex: nat, lastIncludedTerm: nat)

  /** The two files; an absent log file reads like an empty one. */
  datatype Files = Files(log: seq<Entry>, snap: Option<Snapshot>)

  datatype Log = Log(entries: seq<Entry>, base: nat, files: Files)

  datatype Op =
    | Append(term: nat, timestamp: int, command: Command)
    | CreateSnapshot(state: Store, term: nat)
    | InstallSnapshot(snapshot: Snapshot)
    | Truncate(from: nat)
    | Reopen

  function Opened(files: Files): Log {
    Log(files.log, if files.snap.Some? then files.snap.value.lastIncludedIndex + 1 else 1, files)
  }

  const FRESH := Opened(Files([], None))

  function LastIndex(l: Log): nat {
    if |l.entries| == 0 then (if l.base == 0 then 0 else l.base - 1) else l.base + |l.entries| - 1
  }

  function Next(l: Log, op: Op): Log {
    match op
    case Append(term, timestamp, command) =>
      var e := Entry(l.base + |l.entries|, term, timestamp, command);
      l.(entries := l.entries + [e], files := l.files.(log := l.files.log + [e]))
    case CreateSnapshot(state, term) =>
      var last := LastIndex(l);
      var covered := if last >= l.base then last - l.base + 1 else 0;
      var kept := l.entries[if covered < |l.entries| then covered else |l.entries|..];
      Log(kept, last + 1, Files(kept, Some(Snapshot(state, last, term))))
    case InstallSnapshot(snapshot) =>
      Log([], snapshot.lastIncludedIndex + 1, Files([], Some(snapshot)))
    case Truncate(from) =>
      var pos := if from >= l.base then from - l.base else 0;
      if pos >= |l.entries| then l else
      l.(entries := l.entries[..pos], files := l.files.(log := l.entries[..pos]))
    case Reopen => Opened(l.files)
  }

  function After(l: Log, ops: seq<Op>): Log {
    if |ops| == 0 then l else Next(After(l, ops[..|ops| - 1]), ops[|ops| - 1])
  }

  // ---- Indexing and the disk mirror -----------------------------------------------------------

  /** Entries carry consecutive indices from the base, which follows the snapshot; the log file holds
      exactly the entries in memory. */
  ghost predicate Inv(l: Log) {
    && (forall i | 0 <= i < |l.entries| :: l.entries[i].index == l.base + i)
    && l.files.log == l.entries
    && l.base == if l.files.snap.Some? then l.files.snap.value.lastIncludedIndex + 1 else 1
  }

  lemma NextInv(l: Log, op: Op)
    requires Inv(l)
    ensures Inv(Next(l, op))
    ensures op.Reopen? ==> Next(l, op) == l
  { }

  /** Every run, with any snapshots given or received, keeps indices and disk in step with memory. */
  lemma {:induction false} RunInv(ops: seq<Op>)
    ensures Inv(After(FRESH, ops))
  {
    if |ops| == 0 {
    } else {
      RunInv(ops[..|ops| - 1]);
      NextInv(After(FRESH, ops[..|ops| - 1]), ops[|ops| - 1]);
    }
  }

  function EntryAt(l: Log, i: nat): Entry
    requires l.base <= i < l.base + |l.entries|
  {
    l.entries[i - l.base]
  }

  /** The abstract view: which entry is held at which log index. */
  ghost function Held(l: Log): map<nat, Entry> {
    map i: nat | l.base <= i < l.base + |l.entries| :: EntryAt(l, i)
  }

  /** Truncation keeps exactly the held entries below the given index, even one below the base. */
  lemma TruncateKeepsBelow(l: Log, from: nat)
    ensures Held(Next(l, Truncate(from))) == map i | i in Held(l) && i < from :: Held(l)[i]
  { }

  /** A snapshot records the state and the term it is given and the last index it covers: the greatest index
      held, or the one before the base when nothing is. */
  lemma SnapshotRecords(l: Log, state: Store, term: nat)
    requires l.base > 0
    ensures var snap := Next(l, CreateSnapshot(state, term)).files.snap;
            && snap.Some? && snap.value.state == state && snap.value.lastIncludedTerm == term
            && (l.entries == [] ==> snap.value.lastIncludedIndex == l.base - 1)
            && (l.entries != [] ==> snap.value.lastIncludedIndex in Held(l))
            && (forall i | i in Held(l) :: i <= snap.value.lastIncludedIndex)
  { }

  /** An installed snapshot is what a restart finds, entire. */
  lemma InstallRecords(l: Log, snapshot: Snapshot)
    ensures Opened(Next(l, InstallSnapshot(snapshot)).files) == Next(l, InstallSnapshot(snapshot))
    ensures Next(l, InstallSnapshot(snapshot)).files.snap == Some(snapshot)
    ensures Held(Next(l, InstallSnapshot(snapshot))) == map[]
  { }

  lemma AppendExtends(l: Log, term: nat, timestamp: int, command: Command)
    requires l.base > 0
    ensures var i := LastIndex(l) + 1;
            Held(Next(l, Append(term, timestamp, command))) == Held(l)[i := Entry(i, term, timestamp, command)]
  { }

  // ---- Compaction -----------------------------------------------------------------------------

  function Commands(entries: seq<Entry>): seq<Command> {
    seq(|entries|, i requires 0 <= i < |entries| => entries[i].command)
  }

  function SnapshotState(l: Log): Store {
    if l.files.snap.Some? then l.files.snap.value.state else EMPTY
  }

  /** What a restart would rebuild: the snapshot, then the retained entries. */
  ghost function Recovered(l: Log): Store {
    Replay(SnapshotState(l), Commands(l.entries))
  }

  /** The log had nothing ever been compacted: the store it started from and everything kept since. */
  datatype Uncompacted = Uncompacted(start: Store, first: nat, entries: seq<Entry>)

  /** Compaction and reopening do not exist for the uncompacted log; a truncation cannot reach below
      what compaction already absorbed. */
  function NextFull(f: Uncompacted, op: Op, base: nat): Uncompacted {
    match op
    case Append(term, timestamp, command) =>
      f.(entries := f.entries + [Entry(f.first + |f.entries|, term, timestamp, command)])
    case InstallSnapshot(snapshot) => Uncompacted(snapshot.state, snapshot.lastIncludedIndex + 1, [])
    case Truncate(from) =>
      var bound := if from > base then from else base;
      if f.first <= bound < f.first + |f.entries| then f.(entries := f.entries[..bound - f.first]) else f
    case CreateSnapshot(_, _) => f
    case Reopen => f
  }

  const FRESH_FULL := Uncompacted(EMPTY, 1, [])

  function AfterFull(ops: seq<Op>): Uncompacted {
    if |ops| == 0 then FRESH_FULL else
    NextFull(AfterFull(ops[..|ops| - 1]), ops[|ops| - 1], After(FRESH, ops[..|ops| - 1]).base)
  }

  /** Every snapshot the run creates is given the state rebuilt so far. */
  ghost predicate Honest(ops: seq<Op>) {
    |ops| == 0 ||
    (Honest(ops[..|ops| - 1]) &&
     (ops[|ops| - 1].CreateSnapshot? ==> ops[|ops| - 1].state == Recovered(After(FRESH, ops[..|ops| - 1]))))
  }

  /** The held entries are a suffix of the uncompacted log, and the snapshot is the replay of the rest. */
  ghost predicate Refines(l: Log, f: Uncompacted) {
    && f.first <= l.base <= f.first + |f.entries|
    && l.entries == f.entries[l.base - f.first..]
    && SnapshotState(l) == Replay(f.start, Commands(f.entries[..l.base - f.first]))
  }

  lemma CommandsConcat(a: seq<Entry>, b: seq<Entry>)
    ensures Commands(a + b) == Commands(a) + Commands(b)
  { }

  /** Replaying the retained entries on the snapshot is replaying the whole uncompacted log. */
  lemma RecoveredIsReplay(l: Log, f: Uncompacted)
    requires Refines(l, f)
    ensures Recovered(l) == Replay(f.start, Commands(f.entries))
  {
    var k := l.base - f.first;
    assert f.entries == f.entries[..k] + f.entries[k..];
    CommandsConcat(f.entries[..k], f.entries[k..]);
    ReplayConcat(f.start, Commands(f.entries[..k]), Commands(f.entries[k..]));
  }

  lemma SnapshotRefines(l: Log, f: Uncompacted, state: Store, term: nat)
    requires Inv(l) && Refines(l, f) && state == Recovered(l)
    ensures Refines(Next(l, CreateSnapshot(state, term)), f)
  {
    hide Commands, Replay;
    RecoveredIsReplay(l, f);
    var t := Next(l, CreateSnapshot(state, term));
    assert t.base == f.first + |f.entries| && t.entries == [];
    assert f.entries[..t.base - f.first] == f.entries;
  }

  lemma TruncateRefines(l: Log, f: Uncompacted, from: nat)
    requires Inv(l) && Refines(l, f)
    ensures Refines(Next(l, Truncate(from)), NextFull(f, Truncate(from), l.base))
  {
    hide Commands, Replay;
    var k := l.base - f.first;
    var pos := if from >= l.base then from - l.base else 0;
    if pos < |l.entries| {
      assert NextFull(f, Truncate(from), l.base).entries == f.entries[..k + pos];
      assert f.entries[..k + pos][..k] == f.entries[..k];
      assert f.entries[..k + pos][k..] == f.entries[k..][..pos];
    } else {
      assert NextFull(f, Truncate(from), l.base) == f;
    }
  }

  lemma NextRefines(l: Log, f: Uncompacted, op: Op)
    requires Inv(l) && Refines(l, f) && (op.CreateSnapshot? ==> op.state == Recovered(l))
    ensures Refines(Next(l, op), NextFull(f, op, l.base))
  {
    match op
    case Append(term, timestamp, command) =>
      var k := l.base - f.first;
      var g := NextFull(f, op, l.base);
      assert g.entries[..k] == f.entries[..k];
      assert g.entries[k..] == Next(l, op).entries;
    case CreateSnapshot(state, term) => SnapshotRefines(l, f, state, term);
    case InstallSnapshot(snapshot) =>
      assert Commands([]) == [];
    case Truncate(from) => TruncateRefines(l, f, from);
    case Reopen => NextInv(l, op);
  }

  lemma RunStep(ops: seq<Op>)
    requires |ops| > 0
    ensures var before, op := ops[..|ops| - 1], ops[|ops| - 1];
            var l, f := After(FRESH, before), AfterFull(before);
            && After(FRESH, ops) == Next(l, op)
            && AfterFull(ops) == NextFull(f, op, l.base)
            && (Honest(ops) ==> Honest(before) && (op.CreateSnapshot? ==> op.state == Recovered(l)))
  { }

  lemma {:induction false} RunRefines(ops: seq<Op>)
    requires Honest(ops)
    ensures Refines(After(FRESH, ops), AfterFull(ops))
  {
    if |ops| == 0 {
      assert Commands([]) == [];
    } else {
      hide *;
      RunStep(ops);
      RunInv(ops[..|ops| - 1]);
      RunRefines(ops[..|ops| - 1]);
      NextRefines(After(FRESH, ops[..|ops| - 1]), AfterFull(ops[..|ops| - 1]), ops[|ops| - 1]);
    }
  }

  /** Commands appended in a run, in order. */
  function Appended(ops: seq<Op>): seq<Command> {
    if |ops| == 0 then [] else
    Appended(ops[..|ops| - 1]) + if ops[|ops| - 1].Append? then [ops[|ops| - 1].command] else []
  }

  ghost predicate NoRollback(ops: seq<Op>) {
    forall i | 0 <= i < |ops| :: !ops[i].Truncate? && !ops[i].InstallSnapshot?
  }

  lemma {:induction false} FullHoldsAll(ops: seq<Op>)
    requires NoRollback(ops)
    ensures AfterFull(ops).start == EMPTY && AfterFull(ops).first == 1
    ensures Commands(AfterFull(ops).entries) == Appended(ops)
  {
    if |ops| > 0 {
      FullHoldsAll(ops[..|ops| - 1]);
      var f, op := AfterFull(ops[..|ops| - 1]), ops[|ops| - 1];
      if op.Append? {
        var e := Entry(f.first + |f.entries|, op.term, op.timestamp, op.command);
        CommandsConcat(f.entries, [e]);
        assert Commands([e]) == [op.command];
      }
    } else {
      assert Commands([]) == [];
    }
  }

  /** Compaction preserves meaning. After any run of appends, snapshots of the state rebuilt so far and
      reopens, restarting rebuilds exactly the replay of every command ever appended; and with
      truncations and installed snapshots as well, the replay of the uncompacted log. */
  lemma CompactionPreservesMeaning(ops: seq<Op>)
    requires Honest(ops)
    ensures var f := AfterFull(ops);
            Recovered(After(FRESH, ops)) == Replay(f.start, Commands(f.entries))
    ensures NoRollback(ops) ==> Recovered(After(FRESH, ops)) == Replay(EMPTY, Appended(ops))
  {
    RunRefines(ops);
    RecoveredIsReplay(After(FRESH, ops), AfterFull(ops));
    if NoRollback(ops) { FullHoldsAll(ops); }
  }

  /** A node whose commands were all appended here comes back, after a restart, in the state it had. */
  lemma RestartRebuildsNode(r: Raft, ops: seq<Op>)
    requires Replicated(r) && Honest(ops) && NoRollback(ops) && Appended(ops) == r.log
    ensures Recovered(After(FRESH, ops)) == r.store
  {
    CompactionPreservesMeaning(ops);
  }

  // ---- Crashes inside creating and installing a snapshot --------------------------------------

  /** How far a snapshot got when the process died: the snapshot file not yet renamed into place, the log
      file not yet rewritten, or both done. */
  datatype Stage = BeforeRename | BeforeRewrite | BothWritten

  /** What the next open finds. */
  function Crashed(l: Log, state: Store, term: nat, stage: Stage): Log {
    var done := Next(l, CreateSnapshot(state, term)).files;
    Opened(match stage
           case BeforeRename => l.files
           case BeforeRewrite => Files(l.files.log, done.snap)
           case BothWritten => done)
  }

  /** Positions survive a crash at any stage except one: between the rename and the rewrite, what the next
      open finds is well indexed if and only if there was nothing to compact. */
  lemma CrashPositions(l: Log, state: Store, term: nat, stage: Stage)
    requires Inv(l)
    ensures Inv(Crashed(l, state, term, stage)) <==> !stage.BeforeRewrite? || l.entries == []
  {
    if stage.BeforeRewrite? && l.entries != [] {
      assert Crashed(l, state, term, stage).entries[0] == l.entries[0];
    }
  }

  /** What crashes do not disturb: the log file is the memory, and there is a base. */
  ghost predicate Mirrored(l: Log) {
    l.files.log == l.entries && l.base > 0
  }

  /** A snapshot of the rebuilt state absorbs every entry. */
  lemma SnapshotAbsorbs(l: Log, term: nat)
    requires Mirrored(l)
    ensures var t := Next(l, CreateSnapshot(Recovered(l), term));
            t.entries == [] && Mirrored(t) && Recovered(t) == Recovered(l)
  {
    assert Commands([]) == [];
  }

  /** The state survives a crash at every stage: entries the snapshot already covers are replayed a second
      time, which changes nothing. */
  lemma CrashKeepsState(l: Log, term: nat, stage: Stage)
    requires Mirrored(l)
    ensures Mirrored(Crashed(l, Recovered(l), term, stage))
    ensures Recovered(Crashed(l, Recovered(l), term, stage)) == Recovered(l)
  {
    hide Commands, Replay;
    ReplayTwice(SnapshotState(l), Commands(l.entries));
    SnapshotAbsorbs(l, term);
  }

  /** The same for a snapshot being installed: there is no log left to rewrite, only one to empty. */
  function CrashedInstall(l: Log, snapshot: Snapshot, stage: Stage): Log {
    Opened(match stage
           case BeforeRename => l.files
           case BeforeRewrite => Files(l.files.log, Some(snapshot))
           case BothWritten => Next(l, InstallSnapshot(snapshot)).files)
  }

  /** Between the rename and the emptying, the old entries keep their positions if and only if there are
      none or the snapshot ends where they begin. */
  lemma InstallCrashPositions(l: Log, snapshot: Snapshot, stage: Stage)
    requires Inv(l)
    ensures Inv(CrashedInstall(l, snapshot, stage)) <==>
              !stage.BeforeRewrite? || l.entries == [] || snapshot.lastIncludedIndex + 1 == l.base
  {
    if stage.BeforeRewrite? && l.entries != [] {
      assert CrashedInstall(l, snapshot, stage).entries[0] == l.entries[0];
    }
  }

  /** And a restart then rebuilds the state installed if and only if the old entries last wrote every key
      they wrote as the snapshot has it: they are replayed on top of it. */
  lemma InstallCrashState(l: Log, snapshot: Snapshot, stage: Stage)
    requires Mirrored(l)
    ensures Mirrored(CrashedInstall(l, snapshot, stage))
    ensures stage.BeforeRename? ==> Recovered(CrashedInstall(l, snapshot, stage)) == Recovered(l)
    ensures !stage.BeforeRename? ==>
              (Recovered(CrashedInstall(l, snapshot, stage)) == snapshot.state <==>
                 stage.BothWritten? || Settled(snapshot.state, Commands(l.entries)))
  {
    hide Settled;
    assert Commands([]) == [];
    ReplaySettledIff(snapshot.state, Commands(l.entries));
  }

  /** It goes wrong: an older version of a job in the log overwrites the newer one in the snapshot. */
  lemma InstallCrashRegresses(l: Log, snapshot: Snapshot, name: string, older: Job, newer: Job)
    requires Mirrored(l) && older != newer
    requires LastJob(None, Commands(l.entries), name) == Some(older)
    requires Lookup(snapshot.state.jobs, name) == Some(newer)
    ensures Lookup(Recovered(CrashedInstall(l, snapshot, BeforeRewrite)).jobs, name) == Some(older)
    ensures Recovered(CrashedInstall(l, snapshot, BeforeRewrite)) != snapshot.state
  {
    hide Commands, Replay, LastJob, Lookup;
    LastJobWins(snapshot.state, Commands(l.entries), name);
    DecidesJob(None, Some(newer), Commands(l.entries), name);
  }

  /** It goes well when the snapshot is of the very state this log rebuilds. */
  lemma InstallCrashOfOwnState(l: Log, snapshot: Snapshot, stage: Stage)
    requires Mirrored(l) && snapshot.state == Recovered(l)
    ensures Recovered(CrashedInstall(l, snapshot, stage)) == Recovered(l)
  {
    hide Settled, Replay, Commands;
    InstallCrashState(l, snapshot, stage);
    ReplayTwice(SnapshotState(l), Commands(l.entries));
    ReplaySettledIff(snapshot.state, Commands(l.entries));
  }

  /** Completed operations, and operations on snapshots that a crash cut short. */
  datatype Event =
    | Done(op: Op)
    | CrashInSnapshot(term: nat, stage: Stage)
    | CrashInInstall(snapshot: Snapshot, stage: Stage)

  ghost function NextEvent(l: Log, ev: Event): Log {
    match ev
    case Done(op) => Next(l, op)
    case CrashInSnapshot(term, stage) => Crashed(l, Recovered(l), term, stage)
    case CrashInInstall(snapshot, stage) => CrashedInstall(l, snapshot, stage)
  }

  ghost function AfterEvents(l: Log, evs: seq<Event>): Log {
    if |evs| == 0 then l else NextEvent(AfterEvents(l, evs[..|evs| - 1]), evs[|evs| - 1])
  }

  /** Nothing is truncated, and snapshots are created of the state rebuilt so far. */
  ghost predicate Orderly(l: Log, ev: Event) {
    ev.Done? ==> !ev.op.Truncate? && (ev.op.CreateSnapshot? ==> ev.op.state == Recovered(l))
  }

  ghost predicate AllOrderly(l: Log, evs: seq<Event>) {
    |evs| == 0 ||
    (AllOrderly(l, evs[..|evs| - 1]) && Orderly(AfterEvents(l, evs[..|evs| - 1]), evs[|evs| - 1]))
  }

  /** The state a restart is meant to rebuild: what was appended since the last installation took effect,
      which it does once its file is in place. */
  ghost function IntendedNext(s: Store, ev: Event): Store {
    match ev
    case Done(Append(_, _, command)) => Offer(s, command)
    case Done(InstallSnapshot(snapshot)) => snapshot.state
    case CrashInInstall(snapshot, stage) => if stage.BeforeRename? then s else snapshot.state
    case _ => s
  }

  ghost function Intended(evs: seq<Event>): Store {
    if |evs| == 0 then EMPTY else IntendedNext(Intended(evs[..|evs| - 1]), evs[|evs| - 1])
  }

  /** An installation dies between its two writes while the log still disagrees with the snapshot. */
  ghost predicate Regresses(l: Log, ev: Event) {
    ev.CrashInInstall? && ev.stage.BeforeRewrite? && !Settled(ev.snapshot.state, Commands(l.entries))
  }

  ghost predicate NeverRegresses(l: Log, evs: seq<Event>) {
    |evs| == 0 ||
    (NeverRegresses(l, evs[..|evs| - 1]) && !Regresses(AfterEvents(l, evs[..|evs| - 1]), evs[|evs| - 1]))
  }

  ghost predicate AlwaysIntended(evs: seq<Event>) {
    && Recovered(AfterEvents(FRESH, evs)) == Intended(evs)
    && (|evs| == 0 || AlwaysIntended(evs[..|evs| - 1]))
  }

  /** The command an event appends, if any. */
  function AppendedBy(ev: Event): seq<Command> {
    if ev.Done? && ev.op.Append? then [ev.op.command] else []
  }

  function AppendedIn(evs: seq<Event>): seq<Command> {
    if |evs| == 0 then [] else AppendedIn(evs[..|evs| - 1]) + AppendedBy(evs[|evs| - 1])
  }

  lemma AppendRecovered(l: Log, term: nat, timestamp: int, command: Command)
    requires Mirrored(l)
    ensures var t := Next(l, Append(term, timestamp, command));
            Mirrored(t) && Recovered(t) == Replay(Recovered(l), [command])
  {
    var e := Entry(l.base + |l.entries|, term, timestamp, command);
    CommandsConcat(l.entries, [e]);
    assert Commands([e]) == [command];
    ReplayConcat(SnapshotState(l), Commands(l.entries), [command]);
  }

  lemma ReplayOne(s: Store, c: Command)
    ensures Replay(s, [c]) == Offer(s, c)
  {
    assert [c][..0] == [];
    assert Replay(s, []) == s;
  }

  lemma InstallRecovered(l: Log, snapshot: Snapshot)
    ensures var t := Next(l, InstallSnapshot(snapshot));
            Mirrored(t) && Recovered(t) == snapshot.state
  {
    assert Commands([]) == [];
  }

  lemma EventIntended(l: Log, ev: Event)
    requires Mirrored(l) && Orderly(l, ev)
    ensures Mirrored(NextEvent(l, ev))
    ensures Recovered(NextEvent(l, ev)) == IntendedNext(Recovered(l), ev) <==> !Regresses(l, ev)
  {
    hide Replay, Commands, Settled, Offer;
    match ev
    case Done(Append(term, timestamp, command)) =>
      AppendRecovered(l, term, timestamp, command);
      ReplayOne(Recovered(l), command);
    case Done(CreateSnapshot(_, term)) => SnapshotAbsorbs(l, term);
    case Done(InstallSnapshot(snapshot)) => InstallRecovered(l, snapshot);
    case Done(Reopen) =>
    case CrashInSnapshot(term, stage) => CrashKeepsState(l, term, stage);
    case CrashInInstall(snapshot, stage) => InstallCrashState(l, snapshot, stage);
  }

  lemma AlwaysIntendedNow(evs: seq<Event>)
    ensures AlwaysIntended(evs) ==> Recovered(AfterEvents(FRESH, evs)) == Intended(evs)
  { }

  /** However often the process dies inside creating or installing a snapshot: at every point of a run a
      restart rebuilds what it should if and only if no installation died between its two writes while the
      log still disagreed with its snapshot. */
  lemma {:induction false} CrashesExactly(evs: seq<Event>)
    requires AllOrderly(FRESH, evs)
    ensures Mirrored(AfterEvents(FRESH, evs))
    ensures AlwaysIntended(evs) <==> NeverRegresses(FRESH, evs)
  {
    if |evs| == 0 {
      assert Commands([]) == [];
    } else {
      var before, ev := evs[..|evs| - 1], evs[|evs| - 1];
      CrashesExactly(before);
      AlwaysIntendedNow(before);
      hide Mirrored, Orderly, Regresses, Recovered, NextEvent, IntendedNext;
      EventIntended(AfterEvents(FRESH, before), ev);
    }
  }

  ghost predicate NoInstall(evs: seq<Event>) {
    forall i | 0 <= i < |evs| :: !evs[i].CrashInInstall? && !(evs[i].Done? && evs[i].op.InstallSnapshot?)
  }

  lemma {:induction false} IntendedIsAppended(evs: seq<Event>)
    requires NoInstall(evs)
    ensures Intended(evs) == Replay(EMPTY, AppendedIn(evs)) && NeverRegresses(FRESH, evs)
  {
    if |evs| == 0 {
    } else {
      var before, ev := evs[..|evs| - 1], evs[|evs| - 1];
      IntendedIsAppended(before);
      ReplayConcat(EMPTY, AppendedIn(before), AppendedBy(ev));
      if ev.Done? && ev.op.Append? { ReplayOne(Intended(before), ev.op.command); }
    }
  }

  /** So with no installations, restarting rebuilds the replay of every command ever appended, however
      often the process dies inside a snapshot. */
  lemma CrashesPreserveMeaning(evs: seq<Event>)
    requires AllOrderly(FRESH, evs) && NoInstall(evs)
    ensures Recovered(AfterEvents(FRESH, evs)) == Replay(EMPTY, AppendedIn(evs))
  {
    CrashesExactly(evs);
    IntendedIsAppended(evs);
    AlwaysIntendedNow(evs);
  }

  // ---- The store itself -----------------------------------------------------------------------

  class Disk {
    var log: seq<Entry>
    var snap: Option<Snapshot>

    constructor ()
      ensures log == [] && snap == None
    {
      log, snap := [], None;
    }
  }

  class RaftLogStore {
    var entries: seq<Entry>
    var base: nat
    const disk: Disk

    function View(): Log
      reads this, disk
    {
      Log(entries, base, Files(disk.log, disk.snap))
    }

    /** Loads the snapshot's position, then every line of the log file. */
    constructor Open(disk: Disk)
      ensures this.disk == disk
      ensures View() == Opened(Files(disk.log, disk.snap))
    {
      var first := 1;
      if disk.snap.Some? { first := disk.snap.value.lastIncludedIndex + 1; }
      var loaded: seq<Entry> := [];
      for i := 0 to |disk.log|
        invariant loaded == disk.log[..i]
      {
        loaded := loaded + [disk.log[i]];
      }
      this.disk, base, entries := disk, first, loaded;
    }

    method Append(term: nat, timestamp: int, command: Command) returns (entry: Entry)
      modifies this, disk
      ensures View() == Next(old(View()), Op.Append(term, timestamp, command))
      ensures entry == Entry(old(base) + |old(entries)|, term, timestamp, command)
    {
      var index := base + |entries|;
      entry := Entry(index, term, timestamp, command);
      disk.log := disk.log + [entry];
      entries := entries + [entry];
    }

    method Get(index: nat) returns (r: Option<Entry>)
      ensures r == if index in Held(View()) then Some(Held(View())[index]) else None
      ensures Inv(View()) && r.Some? ==> r.value.index == index
    {
      if index < base { return None; }
      var pos := index - base;
      if pos < |entries| {
        return Some(entries[pos]);
      }
      return None;
    }

    /** All held entries from an index on, in order. */
    method EntriesFrom(from: nat) returns (r: seq<Entry>)
      ensures var first, end := if from < base then base else from, base + |entries|;
              && |r| == (if first < end then end - first else 0)
              && (forall i | i in Held(View()) && i >= from :: i - first < |r| && r[i - first] == Held(View())[i])
    {
      if from < base { return entries; }
      var pos := from - base;
      if pos > |entries| { return []; }
      return entries[pos..];
    }

    method GetLastIndex() returns (n: nat)
      ensures Inv(View()) ==>
                && n + 1 == base + |entries|
                && (forall i | i in Held(View()) :: i <= n)
                && (entries != [] ==> n in Held(View()))
    {
      if |entries| == 0 {
        return if base == 0 then 0 else base - 1;
      }
      return base + |entries| - 1;
    }

    /** Rewrites the log file line by line from memory. */
    method RewriteLog()
      modifies disk`log
      ensures disk.log == entries
    {
      disk.log := [];
      for i := 0 to |entries|
        invariant disk.log == entries[..i]
      {
        disk.log := disk.log + [entries[i]];
      }
    }

    method CreateSnapshot(state: Store, lastIncludedTerm: nat) returns (snapshot: Snapshot)
      modifies this, disk
      ensures View() == Next(old(View()), Op.CreateSnapshot(state, lastIncludedTerm))
      ensures disk.snap == Some(snapshot) && snapshot.state == state
    {
      var last: nat := if |entries| == 0 then (if base == 0 then 0 else base - 1) else base + |entries| - 1;
      snapshot := Snapshot(state, last, lastIncludedTerm);
      disk.snap := Some(snapshot);
      var covered: nat := if last >= base then last - base + 1 else 0;
      entries := entries[if covered < |entries| then covered else |entries|..];
      base := last + 1;
      RewriteLog();
    }

    method InstallSnapshot(snapshot: Snapshot)
      modifies this, disk
      ensures View() == Next(old(View()), Op.InstallSnapshot(snapshot))
    {
      disk.snap := Some(snapshot);
      entries := [];
      base := snapshot.lastIncludedIndex + 1;
      disk.log := [];
    }

    method Truncate(from: nat)
      modifies this, disk
      ensures View() == Next(old(View()), Op.Truncate(from))
    {
      var pos: nat := if from >= base then from - base else 0;
      if pos >= |entries| { return; }
      entries := entries[..pos];
      RewriteLog();
    }
  }
}
