/** The size, time and checksum decision tree (package `diff`). */
module Diff {
  import opened Domain

  datatype DiffResult = FilesIdentical | FileModified | FileOnlyInSource | FileOnlyInTarget

  function Compare(src: Option<FileInfo>, tgt: Option<FileInfo>): DiffResult {
    if src.None? && tgt.None? then FilesIdentical
    else if tgt.None? then FileOnlyInSource
    else if src.None? then FileOnlyInTarget
    else
      var s, t := src.value, tgt.value;
      if s.IsFile() && t.IsFile() then
        if s.size != t.size then FileModified
        else if s.modTime != t.modTime then
          if s.checksum != "" && t.checksum != "" then
            if s.checksum == t.checksum then FilesIdentical else FileModified
          else if s.checksum == "" && t.checksum == "" then FilesIdentical
          else if s.modTime > t.modTime then FileModified
          else FileModified
        else FilesIdentical
      else FileModified
  }

  /** Two files are told apart by `Compare` exactly when their sizes differ, or their times differ
      and their checksums disagree (one of them missing counts as disagreeing). */
  lemma ComparedModified(s: FileInfo, t: FileInfo)
    requires s.IsFile() && t.IsFile()
    ensures Compare(Some(s), Some(t)) == FileModified <==>
            s.size != t.size || (s.modTime != t.modTime && s.checksum != t.checksum)
    ensures Compare(Some(s), Some(t)) != FileModified ==> Compare(Some(s), Some(t)) == FilesIdentical
  {
  }

  /** Where a side has nothing, and where the two are not both files. */
  lemma ComparedPresence(src: Option<FileInfo>, tgt: Option<FileInfo>)
    ensures Compare(src, tgt) == FileOnlyInSource <==> src.Some? && tgt.None?
    ensures Compare(src, tgt) == FileOnlyInTarget <==> src.None? && tgt.Some?
    ensures src.None? && tgt.None? ==> Compare(src, tgt) == FilesIdentical
    ensures src.Some? && tgt.Some? && (src.value.kind != Regular || tgt.value.kind != Regular) ==>
              Compare(src, tgt) == FileModified
  {
  }

  /** The comparison does not depend on which side is called the source. */
  lemma CompareSymmetric(src: Option<FileInfo>, tgt: Option<FileInfo>)
    ensures Compare(src, tgt) == FileModified <==> Compare(tgt, src) == FileModified
    ensures Compare(src, tgt) == FilesIdentical <==> Compare(tgt, src) == FilesIdentical
    ensures Compare(src, tgt) == FileOnlyInSource <==> Compare(tgt, src) == FileOnlyInTarget
  {
  }
}
