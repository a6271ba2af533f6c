/** `Acquire` and `Release` as one instance runs them when nobody else touches the lock file in between;
    `LockProtocol` has the same accesses interleaved. */
module FileLocks {
  import opened Domain
  import opened LockProtocol

  /** The lock directory on one host: the lock path and the processes known to be gone. */
  class LockDir {
    var file: LockFile
    var dead: set<nat>
    var nextInode: nat

    constructor (file: LockFile, dead: set<nat>)
      ensures this.file == file && this.dead == dead
    {
      this.file, this.dead, this.nextInode := file, dead, if file.Present? then file.inode + 1 else 0;
    }

    /** readLockInfo: nothing when the file is missing or does not parse. */
    function ReadLockInfo(): Option<Record>
      reads this
    {
      if file.Present? then file.content else None
    }
  }

  class FileLock {
    const dir: LockDir
    const pid: nat
    const id: nat
    var info: Option<Record>

    constructor (dir: LockDir, pid: nat, id: nat)
      ensures this.dir == dir && this.pid == pid && this.id == id && info == None && Valid()
    {
      this.dir, this.pid, this.id, this.info := dir, pid, id, None;
    }

    /** An instance's own record carries its process's PID. */
    predicate Valid()
      reads this
    {
      info.Some? ==> info.value.pid == pid
    }

    predicate HeldByThisInstance(r: Record)
      reads this
    {
      HeldByThis(Instance(pid, info, Idle, None), r)
    }

    /** The file holds this instance's own record. */
    predicate Owns()
      reads this, dir
    {
      dir.ReadLockInfo().Some? && HeldByThisInstance(dir.ReadLockInfo().value)
    }

    /** The lock can be taken: it is this instance's already, the path is free, or its record is stale. A
        file that does not parse counts as taken. */
    predicate Available()
      reads this, dir
    {
      Owns() || dir.file.Absent? || (dir.ReadLockInfo().Some? && dir.ReadLockInfo().value.pid in dir.dead)
    }

    method Acquire(ruleName: string, now: int) returns (out: LockProtocol.Outcome)
      requires Valid()
      modifies this`info, dir`file, dir`nextInode
      ensures Valid()
      ensures out == Succeeded <==> old(Available())
      ensures old(Available()) <==>
                || old(dir.file).Absent?
                || (old(dir.file).content.Some? && old(dir.file).content.value.pid in dir.dead)
                || (old(info).Some? && old(dir.file).content.Some?
                    && old(dir.file).content.value == Record(pid, old(info).value.start, old(info).value.rule))
      ensures out != Succeeded ==> out == if old(dir.file).content.Some? then HeldByOther else Raced
      ensures out == Succeeded ==>
                && Owns() && dir.ReadLockInfo() == info
                && info == Some(Record(pid, if old(Owns()) then old(info).value.start else now, ruleName))
      ensures out != Succeeded ==> dir.file == old(dir.file) && info == old(info)
    {
      if info.Some? {
        var own := dir.ReadLockInfo();
        if own.Some? && HeldByThisInstance(own.value) {
          dir.file := dir.file.(content := Some(own.value.(rule := ruleName)));
          info := Some(info.value.(rule := ruleName));
          return Succeeded;
        }
      }
      var existing := dir.ReadLockInfo();
      if existing.Some? {
        if existing.value.pid in dir.dead {
          dir.file := Absent;
        } else {
          return HeldByOther;
        }
      }
      var record := Record(pid, now, ruleName);
      if dir.file.Present? { return Raced; }
      dir.file := Present(dir.nextInode, id, None);
      dir.nextInode := dir.nextInode + 1;
      dir.file := dir.file.(content := Some(record));
      info := Some(record);
      return Succeeded;
    }

    /** Releasing what this instance owns removes the file; anything else leaves it alone. */
    method Release() returns (out: LockProtocol.Outcome)
      requires Valid()
      modifies this`info, dir`file
      ensures Valid() && info == None
      ensures dir.file == if old(Owns()) then Absent else old(dir.file)
      ensures old(Owns()) <==>
                && old(info).Some? && old(dir.file).Present? && old(dir.file).content.Some?
                && old(dir.file).content.value == Record(pid, old(info).value.start, old(info).value.rule)
      ensures out == if old(info).Some? && old(dir.ReadLockInfo()).Some? && !old(Owns()) then Stolen else Succeeded
    {
      if info.None? { return Succeeded; }
      var existing := dir.ReadLockInfo();
      if existing.None? {
        info := None;
        return Succeeded;
      }
      if !HeldByThisInstance(existing.value) {
        info := None;
        return Stolen;
      }
      dir.file := Absent;
      info := None;
      return Succeeded;
    }

    /** However often a rule of this instance re-acquires the lock, the release at the end succeeds and
        leaves no lock file, provided the first acquisition succeeded. */
    method AcquireEachThenRelease(rules: seq<string>, now: int) returns (out: LockProtocol.Outcome)
      requires Valid() && rules != [] && Available()
      modifies this`info, dir`file, dir`nextInode
      ensures out == Succeeded && dir.file == Absent && info == None
    {
      for i := 0 to |rules|
        invariant Valid() && Available() && (i > 0 ==> Owns())
      {
        out := Acquire(rules[i], now + i);
      }
      out := Release();
    }
  }

  // ----- the methods and the protocol agree

  /** `n` accesses of one instance with nobody in between; further accesses of an idle instance do nothing. */
  function Alone(s: State, i: nat, now: int, n: nat): State
    requires i in s.instances
    decreases n
  {
    if n == 0 then s else Alone(Access(s, i, now), i, now, n - 1)
  }

  /** The record is this instance's own. */
  predicate OwnRecord(s: State, i: nat)
    requires i in s.instances
  {
    Parsed(s).Some? && HeldByThis(s.instances[i], Parsed(s).value)
  }

  /** Acquire's accesses in one go give what the method gives: success exactly when the lock is this
      instance's, free or stale, with the same record in memory and file, and no change otherwise. */
  lemma AcquireAlone(s: State, i: nat, rule: string, now: int)
    requires i in s.instances && s.instances[i].pid !in s.dead && s.instances[i].pc == Idle
    requires s.instances[i].info.Some? ==> s.instances[i].info.value.pid == s.instances[i].pid
    ensures var x, t := s.instances[i], Alone(Take(s, StartAcquire(i, rule)), i, now, 5);
            var y := t.instances[i];
            && y.pc == Idle && y.last.Some?
            && (y.last == Some(Succeeded) <==>
                  OwnRecord(s, i) || s.file.Absent? || (Parsed(s).Some? && Parsed(s).value.pid in s.dead))
            && (y.last == Some(Succeeded) ==>
                  && Parsed(t) == y.info
                  && y.info == Some(Record(x.pid, if OwnRecord(s, i) then x.info.value.start else now, rule)))
            && (y.last != Some(Succeeded) ==>
                  && t.file == s.file && y.info == x.info
                  && y.last == Some(if s.file.content.Some? then HeldByOther else Raced))
  {
    var s0 := Take(s, StartAcquire(i, rule));
    var s1 := Access(s0, i, now);
    var s2 := Access(s1, i, now);
    var s3 := Access(s2, i, now);
    var s4 := Access(s3, i, now);
    var s5 := Access(s4, i, now);
    assert Alone(s4, i, now, 1) == Alone(s5, i, now, 0) == s5;
    assert Alone(s3, i, now, 2) == s5;
    assert Alone(s2, i, now, 3) == s5;
    assert Alone(s1, i, now, 4) == s5;
    assert Alone(s0, i, now, 5) == s5;
  }

  /** Release's accesses in one go: the file goes exactly when it is this instance's. */
  lemma ReleaseAlone(s: State, i: nat, now: int)
    requires i in s.instances && s.instances[i].pid !in s.dead && s.instances[i].pc == Idle
    ensures var t := Alone(Take(s, StartRelease(i)), i, now, 2);
            var y := t.instances[i];
            && y.pc == Idle && y.info == None
            && t.file == (if OwnRecord(s, i) then Absent else s.file)
            && y.last == Some(if s.instances[i].info.Some? && Parsed(s).Some? && !OwnRecord(s, i)
                              then Stolen else Succeeded)
  {
  }
}
