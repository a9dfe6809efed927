/** The older study indexer of the `dxray` command. Its `FullScan` is the
    same loop as `Indexer.StudyIndexer.FullScan`; what differs is how it is
    made: the index path is fixed, and the archive is opened only when the
    indexer is initialised. */
module LegacyIndexer {

  import opened Wrappers
  import opened FileSystem
  import opened Fsdb
  import opened Indexer

  /** `NewStudyIndexer` followed by `Init`: the index path is always
      `index.bleve`; an archive root that does not open is reported first,
      then an index that cannot be opened; otherwise the indexer works on
      the opened archive with an empty index. */
  method NewAndInit(fs: FS, root: string, openFails: bool)
    returns (idx: StudyIndexer?, err: Option<Error>)
    ensures New(fs, root).Err? ==> idx == null && err == Some(New(fs, root).error)
    ensures New(fs, root).Ok? && openFails ==> idx == null && err == Some(IndexFailure)
    ensures New(fs, root).Ok? && !openFails ==>
              err == None && idx != null && fresh(idx) && fresh(idx.index)
              && idx.db == Db(root) && idx.indexPath == DefaultIndexPath && idx.index.docs == map[]
  {
    var db := New(fs, root);
    if db.Err? {
      return null, Some(db.error);
    }
    if openFails {
      return null, Some(IndexFailure);
    }
    idx := new StudyIndexer(db.value, DefaultIndexPath);
    err := None;
  }
}
