/** Resolution of two differing versions of one file (package `conflict`). */
module Conflict {
  import opened Domain
  import Diff

  function Resolve(strategy: ConflictStrategy, path: string, src: Option<FileInfo>, tgt: Option<FileInfo>): SyncAction {
    var act := (kind: ActionType, dir: Direction, why: Reason) => SyncAction(kind, dir, path, src, tgt, why);
    if src.None? || tgt.None? then act(ActionType.Conflict, SourceToTarget, NilInfo)
    else
      var s, t := src.value, tgt.value;
      match strategy
      case KeepLocal => act(Skip, SourceToTarget, KeepingLocal)
      case KeepRemote => act(Copy, SourceToTarget, UsingRemote)
      case KeepNewest =>
        if s.checksum != "" && t.checksum != "" && s.checksum == t.checksum then
          act(Skip, SourceToTarget, SameContent)
        else if s.modTime > t.modTime then act(Copy, SourceToTarget, SourceNewer)
        else if t.modTime > s.modTime then act(Copy, TargetToSource, TargetNewer)
        else if s.size == t.size then act(Skip, SourceToTarget, SameTimeAndSize)
        else act(ActionType.Conflict, SourceToTarget, SameTimeOtherSize)
      case _ => act(ActionType.Conflict, SourceToTarget, NeedsManual)
  }

  /** The copy direction a strategy picks for two differing versions: the winner's side to the other. */
  function Winner(strategy: ConflictStrategy, s: FileInfo, t: FileInfo): Option<Direction> {
    match strategy
    case KeepRemote => Some(SourceToTarget)
    case KeepNewest =>
      if s.checksum == t.checksum != "" || s.modTime == t.modTime then None
      else if s.modTime > t.modTime then Some(SourceToTarget) else Some(TargetToSource)
    case _ => None
  }

  /** What the planner can get back: called only for two files that `Compare` told apart, the
      resolver copies exactly in the winner's direction and otherwise leaves both versions alone;
      its nil branch and its "identical modification time and size" branch are never taken. */
  lemma ResolveFromPlanner(strategy: ConflictStrategy, path: string, s: FileInfo, t: FileInfo)
    requires s.IsFile() && t.IsFile()
    requires Diff.Compare(Some(s), Some(t)) == Diff.FileModified
    ensures var a := Resolve(strategy, path, Some(s), Some(t));
      && a.path == path && a.sourceInfo == Some(s) && a.targetInfo == Some(t)
      && a.reason != NilInfo && a.reason != SameTimeAndSize
      && (a.kind == Copy || a.kind == Skip || a.kind == ActionType.Conflict)
      && (a.kind == Skip <==> strategy == KeepLocal || (strategy == KeepNewest && s.checksum == t.checksum != ""))
      && (a.kind == Copy <==> Winner(strategy, s, t).Some?)
      && (a.kind == Copy ==> a.dir == Winner(strategy, s, t).value)
      && (a.kind != Copy ==> a.dir == SourceToTarget)
  {
  }
}
