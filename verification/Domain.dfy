/** The entities shared by every part of the sync engine (package `domain`). */
module Domain {
  datatype Option<+T> = None | Some(value: T)

  /** Symbolic links are listed by the local adapter but neither copied as links nor compared. */
  datatype Kind = Regular | Directory | Symlink

  /** Metadata of one listed path. An empty checksum means "not computed". */
  datatype FileInfo = FileInfo(path: string, kind: Kind, size: nat, modTime: int, checksum: string) {
    predicate IsDir() { kind == Directory }
    predicate IsFile() { kind == Regular }
  }

  datatype SyncMode = OneWayPush | OneWayPull | TwoWay

  /** `Unknown` stands for every other string, the empty one included. */
  datatype ConflictStrategy = KeepLocal | KeepRemote | KeepNewest | Manual | Unknown(text: string)

  datatype ActionType = Copy | Delete | Mkdir | Conflict | Skip

  datatype Direction = SourceToTarget | TargetToSource {
    function Flip(): Direction {
      if this == SourceToTarget then TargetToSource else SourceToTarget
    }
  }

  /** One constructor for each reason text the planner and the resolver attach to an action. */
  datatype Reason =
    | DirMissing | FileMissing | TypeMismatch | FileChanged | GoneFromSource
    | DirOnlyOnSource | FileOnlyOnSource | DirOnlyOnTarget | FileOnlyOnTarget
    | NilInfo | KeepingLocal | UsingRemote | SameContent | SourceNewer | TargetNewer
    | SameTimeAndSize | SameTimeOtherSize | NeedsManual

  datatype SyncAction = SyncAction(
    kind: ActionType,
    dir: Direction,
    path: string,
    sourceInfo: Option<FileInfo>,
    targetInfo: Option<FileInfo>,
    reason: Reason)
  {
    /** Executing the action changes a tree. */
    predicate Mutates() { kind == Mkdir || kind == Copy || kind == Delete }
  }

  datatype Stats = Stats(totalFiles: nat, filesToCopy: nat, filesToDelete: nat, dirsToCreate: nat,
                         conflicts: nat, bytesToSync: nat)

  datatype Rule = Rule(name: string, mode: SyncMode, ignorePatterns: seq<string>, strategy: ConflictStrategy)

  /** How planning and executing a rule went. */
  datatype RunResult = PlanFailed | ExecutionFailed | Synced(files: nat, bytes: nat)
}
