/** The lock file as a protocol between any number of lock instances in any number of processes on one
    host (package `lock`): every file access is a step of its own, and a process may die between any two. */
module LockProtocol {
  import opened Domain

  datatype Record = Record(pid: nat, start: int, rule: string)

  /** Where an instance is inside Acquire or Release: each name is the file access it is about to make. */
  datatype Pc =
    | Idle
    | ReadOwn(rule: string)
    | Truncate(record: Record)
    | Rewrite(record: Record, inode: nat)
    | ReadExisting(rule: string)
    | RemoveStale(rule: string)
    | Create(rule: string)
    | WriteNew(record: Record, inode: nat)
    | ReadBeforeRelease
    | Unlink

  datatype Outcome = Succeeded | HeldByOther | Raced | RemoveFailed | Stolen

  datatype Instance = Instance(pid: nat, info: Option<Record>, pc: Pc, last: Option<Outcome>)

  /** The lock path: nothing, or a file some instance created. Content `None` is created or truncated but
      not yet written, which does not parse. */
  datatype LockFile = Absent | Present(inode: nat, owner: nat, content: Option<Record>)

  datatype State = State(instances: map<nat, Instance>, dead: set<nat>, file: LockFile, nextInode: nat)

  predicate Alive(s: State, i: nat) {
    i in s.instances && s.instances[i].pid !in s.dead
  }

  function Parsed(s: State): Option<Record> {
    if s.file.Present? then s.file.content else None
  }

  predicate HeldByThis(x: Instance, r: Record) {
    x.info.Some? && r.pid == x.pid && r.start == x.info.value.start && r.rule == x.info.value.rule
  }

  function With(s: State, i: nat, x: Instance): State {
    s.(instances := s.instances[i := x])
  }

  function Done(x: Instance, o: Outcome): Instance {
    x.(pc := Idle, last := Some(o))
  }

  datatype Step =
    | StartAcquire(i: nat, rule: string)
    | StartRelease(i: nat)
    | Advance(i: nat, now: int)
    | Crash(pid: nat)

  /** The next file access of an instance, with its branches. */
  function Access(s: State, i: nat, now: int): State
    requires i in s.instances
  {
    var x := s.instances[i];
    match x.pc
    case Idle => s
    case ReadOwn(rule) =>
      if Parsed(s).Some? && HeldByThis(x, Parsed(s).value)
      then With(s, i, x.(pc := Truncate(Parsed(s).value.(rule := rule))))
      else With(s, i, x.(pc := ReadExisting(rule)))
    case Truncate(record) =>
      if s.file.Present?
      then With(s.(file := s.file.(content := None)), i, x.(pc := Rewrite(record, s.file.inode)))
      else With(s.(file := Present(s.nextInode, i, None), nextInode := s.nextInode + 1), i,
                x.(pc := Rewrite(record, s.nextInode)))
    case Rewrite(record, inode) =>
      var info := if x.info.Some? then Some(x.info.value.(rule := record.rule)) else None;
      With(Fill(s, inode, record), i, Done(x.(info := info), Succeeded))
    case ReadExisting(rule) =>
      if Parsed(s).None? then With(s, i, x.(pc := Create(rule)))
      else if Parsed(s).value.pid in s.dead then With(s, i, x.(pc := RemoveStale(rule)))
      else With(s, i, Done(x, HeldByOther))
    case RemoveStale(rule) =>
      if s.file.Absent? then With(s, i, Done(x, RemoveFailed))
      else With(s.(file := Absent), i, x.(pc := Create(rule)))
    case Create(rule) =>
      if s.file.Present? then With(s, i, Done(x, Raced))
      else With(s.(file := Present(s.nextInode, i, None), nextInode := s.nextInode + 1), i,
                x.(pc := WriteNew(Record(x.pid, now, rule), s.nextInode)))
    case WriteNew(record, inode) =>
      With(Fill(s, inode, record), i, Done(x.(info := Some(record)), Succeeded))
    case ReadBeforeRelease =>
      if Parsed(s).None? then With(s, i, Done(x.(info := None), Succeeded))
      else if HeldByThis(x, Parsed(s).value) then With(s, i, x.(pc := Unlink))
      else With(s, i, Done(x.(info := None), Stolen))
    case Unlink =>
      With(s.(file := Absent), i, Done(x.(info := None), Succeeded))
  }

  /** A write through an open file reaches the path only while the path still names that file. */
  function Fill(s: State, inode: nat, record: Record): State {
    if s.file.Present? && s.file.inode == inode then s.(file := s.file.(content := Some(record))) else s
  }

  predicate Enabled(s: State, step: Step) {
    match step
    case StartAcquire(i, _) => Alive(s, i) && s.instances[i].pc == Idle
    case StartRelease(i) => Alive(s, i) && s.instances[i].pc == Idle
    case Advance(i, _) => Alive(s, i) && s.instances[i].pc != Idle
    case Crash(_) => true
  }

  function Take(s: State, step: Step): State
    requires Enabled(s, step)
  {
    match step
    case StartAcquire(i, rule) =>
      var x := s.instances[i];
      With(s, i, x.(pc := if x.info.Some? then ReadOwn(rule) else ReadExisting(rule), last := None))
    case StartRelease(i) =>
      var x := s.instances[i];
      With(s, i, if x.info.Some? then x.(pc := ReadBeforeRelease, last := None) else Done(x, Succeeded))
    case Advance(i, now) => Access(s, i, now)
    case Crash(pid) => s.(dead := s.dead + {pid})
  }

  /** No instance has started, and the path is free or was left by a process that is gone. */
  ghost predicate Init(s: State) {
    && (forall i :: i in s.instances ==>
          s.instances[i].pc == Idle && s.instances[i].info == None && s.instances[i].last == None)
    && (s.file.Present? ==>
          && s.file.owner in s.instances && s.instances[s.file.owner].pid in s.dead
          && (s.file.content.Some? ==> s.file.content.value.pid == s.instances[s.file.owner].pid))
  }

  /** The hypothesis: at most one live instance is between judging a record stale and removing it. */
  ghost predicate OneRemover(s: State) {
    forall i, j :: (Alive(s, i) && Alive(s, j)
                    && s.instances[i].pc.RemoveStale? && s.instances[j].pc.RemoveStale?) ==> i == j
  }

  /** A run: states linked by steps of any instances in any order. */
  ghost predicate IsRun(run: seq<State>, steps: seq<Step>) {
    && |run| == |steps| + 1
    && Init(run[0])
    && forall k :: 0 <= k < |steps| ==> Enabled(run[k], steps[k]) && run[k + 1] == Take(run[k], steps[k])
  }

  /** The instance believes it holds the lock, or has created the file and is about to believe so. */
  predicate Engaged(x: Instance) {
    x.info.Some? || x.pc.WriteNew?
  }

  ghost predicate MutualExclusion(s: State) {
    forall i, j :: Alive(s, i) && Alive(s, j) && Engaged(s.instances[i]) && Engaged(s.instances[j]) ==> i == j
  }

  /** What the file must be like while a live instance is at its program point. */
  predicate Consistent(s: State, i: nat)
    requires i in s.instances
  {
    var x := s.instances[i];
    && x.last != Some(Stolen)
    && (Engaged(x) ==> s.file.Present? && s.file.owner == i)
    && (x.info.Some? ==> x.info.value.pid == x.pid)
    && match x.pc
       case Idle => x.info.Some? ==> Parsed(s) == x.info
       case ReadOwn(_) => x.info.Some? && Parsed(s) == x.info
       case Truncate(r) => x.info.Some? && Parsed(s) == x.info && r == x.info.value.(rule := r.rule)
       case Rewrite(r, inode) =>
         x.info.Some? && s.file.content == None && s.file.inode == inode && r == x.info.value.(rule := r.rule)
       case ReadExisting(_) => x.info.None?
       case RemoveStale(_) =>
         x.info.None? && Parsed(s).Some? && s.file.owner in s.instances && s.instances[s.file.owner].pid in s.dead
       case Create(_) => x.info.None?
       case WriteNew(r, inode) => x.info.None? && s.file.content == None && s.file.inode == inode && r.pid == x.pid
       case ReadBeforeRelease => x.info.Some? && Parsed(s) == x.info
       case Unlink => x.info.Some? && Parsed(s) == x.info
  }

  ghost predicate Inv(s: State) {
    && (forall i :: Alive(s, i) ==> Consistent(s, i))
    && (s.file.Present? ==>
          && s.file.owner in s.instances
          && (s.file.content.Some? ==> s.file.content.value.pid == s.instances[s.file.owner].pid))
  }

  lemma InvExclusive(s: State)
    requires Inv(s)
    ensures MutualExclusion(s)
  {
  }

  lemma AccessKeepsInv(s: State, i: nat, now: int)
    requires Inv(s) && OneRemover(s) && Alive(s, i)
    ensures Inv(Access(s, i, now))
  {
    var t := Access(s, i, now);
    assert Consistent(s, i);
    forall j | Alive(t, j) ensures Consistent(t, j) {
      assert Alive(s, j) && Consistent(s, j);
    }
  }

  lemma StepKeepsInv(s: State, step: Step)
    requires Inv(s) && OneRemover(s) && Enabled(s, step)
    ensures Inv(Take(s, step))
  {
    match step {
      case Advance(i, now) => AccessKeepsInv(s, i, now);
      case Crash(pid) =>
        forall j | Alive(Take(s, step), j) ensures Consistent(Take(s, step), j) {
          assert Alive(s, j) && Consistent(s, j);
        }
      case StartAcquire(i, _) =>
        assert Consistent(s, i);
        forall j | Alive(Take(s, step), j) ensures Consistent(Take(s, step), j) {
          assert Alive(s, j) && Consistent(s, j);
        }
      case StartRelease(i) =>
        assert Consistent(s, i);
        forall j | Alive(Take(s, step), j) ensures Consistent(Take(s, step), j) {
          assert Alive(s, j) && Consistent(s, j);
        }
    }
  }

  lemma {:induction false} RunInv(run: seq<State>, steps: seq<Step>, k: nat)
    requires IsRun(run, steps) && k < |run| && forall n :: 0 <= n < k ==> OneRemover(run[n])
    ensures Inv(run[k])
  {
    if k > 0 {
      RunInv(run, steps, k - 1);
      StepKeepsInv(run[k - 1], steps[k - 1]);
    }
  }

  /** In every run in which at most one instance at a time is about to remove a stale record, at most one
      live instance is engaged, the file is its own, nobody ever finds the lock stolen, and between calls
      a holder's own record agrees with the file in every field. */
  lemma LockIsExclusive(run: seq<State>, steps: seq<Step>, k: nat)
    requires IsRun(run, steps) && k < |run| && forall n :: 0 <= n < k ==> OneRemover(run[n])
    ensures MutualExclusion(run[k])
    ensures forall i :: Alive(run[k], i) ==>
              var x := run[k].instances[i];
              && (Engaged(x) ==> run[k].file.Present? && run[k].file.owner == i)
              && x.last != Some(Stolen)
              && (x.info.Some? && x.pc == Idle ==> Parsed(run[k]) == x.info)
  {
    RunInv(run, steps, k);
    InvExclusive(run[k]);
    forall i | Alive(run[k], i) ensures Consistent(run[k], i) {}
  }

  /** A holder's re-entry never falls through to a second acquisition and its release never meets a foreign
      record: the reads find its own record, the rewrite succeeds with the new rule name in both places, and
      the unlink leaves no file. */
  lemma HolderNeverFails(run: seq<State>, steps: seq<Step>, k: nat)
    requires IsRun(run, steps) && k < |steps| && forall n :: 0 <= n <= k ==> OneRemover(run[n])
    requires steps[k].Advance? && run[k].instances[steps[k].i].info.Some?
    ensures var i := steps[k].i;
            var x, y, t := run[k].instances[i], run[k + 1].instances[i], run[k + 1];
            && (x.pc.ReadOwn? ==> y.pc.Truncate? && y.pc.record == x.info.value.(rule := x.pc.rule))
            && (x.pc.Rewrite? ==> y.last == Some(Succeeded) && y.info == Some(x.pc.record) == Parsed(t))
            && (x.pc.ReadBeforeRelease? ==> y.pc == Unlink)
            && (x.pc.Unlink? ==> y.last == Some(Succeeded) && y.info == None && t.file == Absent)
  {
    RunInv(run, steps, k);
    assert Consistent(run[k], steps[k].i);
  }

  /** An instance that finds the stale file already removed fails and leaves things as they are. */
  lemma RemovedBefore(s: State, i: nat, now: int)
    requires i in s.instances && s.instances[i].pc.RemoveStale? && s.file.Absent?
    ensures var t := Access(s, i, now);
            && t.instances[i].last == Some(RemoveFailed) && t.instances[i].pc == Idle
            && t.instances[i].info == s.instances[i].info && t.file == s.file
  {
  }

  /** What an instance writes into a file that the path no longer names is lost, although it then believes to hold the
      lock. */
  lemma LateWriteIsLost(s: State, i: nat, now: int)
    requires i in s.instances && s.instances[i].pc.WriteNew?
    requires s.file.Absent? || s.file.inode != s.instances[i].pc.inode
    ensures var t := Access(s, i, now);
            t.file == s.file && t.instances[i].info == Some(s.instances[i].pc.record)
  {
  }

  /** A process that dies between creating the lock file and writing its record leaves a file that no step
      of any instance ever removes: from then on nobody acquires the lock. */
  lemma {:induction false} HalfWrittenIsForever(run: seq<State>, steps: seq<Step>, k: nat, n: nat)
    requires IsRun(run, steps) && k <= n < |run| && forall m :: 0 <= m < n ==> OneRemover(run[m])
    requires run[k].file.Present? && run[k].file.content.None? && !Alive(run[k], run[k].file.owner)
    ensures run[n].file == run[k].file && !Alive(run[n], run[n].file.owner)
    ensures forall i :: Alive(run[n], i) ==> !Engaged(run[n].instances[i])
  {
    RunInv(run, steps, n);
    if k < n {
      HalfWrittenIsForever(run, steps, k, n - 1);
      RunInv(run, steps, n - 1);
      var s, step := run[n - 1], steps[n - 1];
      if step.Advance? { assert Consistent(s, step.i); }
    }
    forall i | Alive(run[n], i) ensures !Engaged(run[n].instances[i]) {
      assert Consistent(run[n], i);
    }
  }

  /** Such a file is reached by one acquisition whose process dies just before it writes its record, while another
      process lives on. */
  lemma HalfWrittenReachable() returns (run: seq<State>, steps: seq<Step>)
    ensures IsRun(run, steps) && forall n :: 0 <= n < |run| ==> OneRemover(run[n])
    ensures var s := run[|steps|];
            s.file.Present? && s.file.content.None? && !Alive(s, s.file.owner) && Alive(s, 2)
  {
    var x, y := Instance(1, None, Idle, None), Instance(2, None, Idle, None);
    var s0 := State(map[1 := x, 2 := y], {}, Absent, 0);
    steps := [StartAcquire(1, "r"), Advance(1, 0), Advance(1, 0), Crash(1)];
    var s1 := Take(s0, StartAcquire(1, "r"));
    assert s1.instances[1].pc == ReadExisting("r");
    var s2 := Take(s1, Advance(1, 0));
    assert s2.instances[1].pc == Create("r");
    var s3 := Take(s2, Advance(1, 0));
    assert s3.instances[1].pc.WriteNew?;
    var s4 := Take(s3, Crash(1));
    run := [s0, s1, s2, s3, s4];
    forall n | 0 <= n < |run| ensures OneRemover(run[n]) {
      assert run[n].instances.Keys == {1, 2} && run[n].instances[2] == y;
    }
  }

  /** Three steps of an instance about to remove whatever the path holds: it ends up holding the lock. */
  lemma RemoveAndAcquire(s: State, i: nat) returns (t: State)
    requires Alive(s, i) && s.instances[i].pc.RemoveStale? && s.file.Present?
    ensures var a := Advance(i, 0);
            Enabled(Take(s, a), a) && Enabled(Take(Take(s, a), a), a) && t == Take(Take(Take(s, a), a), a)
    ensures t.dead == s.dead && t.instances.Keys == s.instances.Keys && t.file.Present?
    ensures t.instances[i].info.Some? && t.instances[i].pid == s.instances[i].pid
    ensures forall j :: j in s.instances && j != i ==> t.instances[j] == s.instances[j]
  {
    var a := Advance(i, 0);
    var s1 := Take(s, a);
    var s2 := Take(s1, a);
    t := Take(s2, a);
  }

  /** The hypothesis cannot be weakened: from any state with two live instances about to remove, six steps
      lead to both of them holding the lock. */
  lemma TwoRemoversBreakExclusion(s: State, i: nat, j: nat) returns (t: State)
    requires Alive(s, i) && Alive(s, j) && i != j && s.file.Present?
    requires s.instances[i].pc.RemoveStale? && s.instances[j].pc.RemoveStale?
    ensures !MutualExclusion(t)
    ensures exists u :: CanReach(s, u, i) && CanReach(u, t, j)
  {
    var u := RemoveAndAcquire(s, i);
    assert CanReach(s, u, i);
    t := RemoveAndAcquire(u, j);
    assert CanReach(u, t, j);
    assert Alive(t, i) && Alive(t, j) && Engaged(t.instances[i]) && Engaged(t.instances[j]);
  }

  /** Three accesses of one instance lead from `s` to `t`. */
  ghost predicate CanReach(s: State, t: State, i: nat) {
    var a := Advance(i, 0);
    Enabled(s, a) && Enabled(Take(s, a), a) && Enabled(Take(Take(s, a), a), a) && t == Take(Take(Take(s, a), a), a)
  }

  /** Such a state is reached by two acquisitions that meet one leftover record. */
  lemma TwoRemoversReachable() returns (run: seq<State>, steps: seq<Step>)
    ensures IsRun(run, steps)
    ensures var s := run[|steps|];
            && Alive(s, 1) && Alive(s, 2) && s.file.Present?
            && s.instances[1].pc.RemoveStale? && s.instances[2].pc.RemoveStale?
  {
    var x, y := Instance(1, None, Idle, None), Instance(2, None, Idle, None);
    var left := Present(0, 0, Some(Record(0, 0, "r")));
    var s0 := State(map[0 := Instance(0, None, Idle, None), 1 := x, 2 := y], {0}, left, 1);
    steps := [StartAcquire(1, "r"), StartAcquire(2, "r"), Advance(1, 0), Advance(2, 0)];
    var s1 := Take(s0, StartAcquire(1, "r"));
    var s2 := Take(s1, StartAcquire(2, "r"));
    assert s2.instances[2].pc == ReadExisting("r");
    var s3 := Take(s2, Advance(1, 0));
    assert s3.instances[1].pc == RemoveStale("r");
    var s4 := Take(s3, Advance(2, 0));
    run := [s0, s1, s2, s3, s4];
  }
}
