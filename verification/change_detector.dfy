/** `folder_changed`: whether a top-level folder needs to be rescanned. */
module ChangeDetector {
  import opened Wrappers

  /**
   * `last` is the folder's watermark row, if any; `current` is None when the folder is
   * not a directory and its modification time otherwise.  The predicate only reads.
   */
  predicate FolderChanged(last: Option<real>, current: Option<real>)
  {
    match current
    case None => false
    case Some(m) => last.None? || m > last.value + 1.0
  }

  lemma NotADirectoryIsUnchanged(last: Option<real>)
    ensures !FolderChanged(last, None)
  {
  }

  lemma NoWatermarkIsChanged(m: real)
    ensures FolderChanged(None, Some(m))
  {
  }

  /** One unit of slack and a strict comparison: exactly one unit newer is still unchanged. */
  lemma SlackIsStrict(last: real, m: real)
    ensures FolderChanged(Some(last), Some(m)) <==> m > last + 1.0
    ensures !FolderChanged(Some(last), Some(last + 1.0))
  {
  }

  lemma ChangedIsMonotone(last: Option<real>, m: real, m': real)
    requires m <= m' && FolderChanged(last, Some(m))
    ensures FolderChanged(last, Some(m'))
  {
  }

  /** A folder whose watermark is its current mtime reads as unchanged. */
  lemma FreshWatermarkIsUnchanged(m: real)
    ensures !FolderChanged(Some(m), Some(m))
  {
  }
}
