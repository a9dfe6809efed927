/** The study indexer: a full scan hands every study the scanner sends to
    the search index's `Add`, in scan order, logs the ones that fail and
    counts the new and the known ones.

    The clock is an oracle `slow`: `slow(n)` says whether, once `n` studies
    were handled, more than five seconds have passed since the scan
    started. The index's own faults are oracles too: `lookupFails(i)` and
    `insertFails(i)` say whether the lookup or the insert of the `i`-th
    study (counting from 0) fails. */
module Indexer {

  import opened Wrappers
  import opened FileSystem
  import opened Fsdb
  import opened Search
  import opened Scanner

  /** The index path used when none is given. */
  const DefaultIndexPath := "index.bleve"

  /** The index path `NewStudyIndexer` keeps: the given one, or the default
      when it is empty. An index path is never empty. */
  function IndexPathOf(path: string): (p: string)
    ensures p != ""
    ensures path != "" ==> p == path
    ensures path == "" ==> p == DefaultIndexPath
  {
    if path == "" then DefaultIndexPath else path
  }

  // ---------------------------------------------------------------------
  // What a full scan does to the index, as a function of the scanned studies

  /** The number of studies handled, `Add` calls that reported a new study,
      that reported a known study, and that failed. Go keeps the first
      three as counters; the fourth is what is logged as a failure. */
  datatype Tally = Tally(count: nat, added: nat, known: nat, failed: nat)
  {
    /** The tally after one more `Add` with outcome `o`. */
    function Record(o: AddOutcome): Tally
    {
      if o.err.Some? then Tally(count + 1, added, known, failed + 1)
      else if o.added then Tally(count + 1, added + 1, known, failed)
      else Tally(count + 1, added, known + 1, failed)
    }
  }

  /** The documents and the tally after a run of `Add`s. */
  datatype Run = Run(docs: map<string, StudyDocument>, tally: Tally)

  /** `Add` each of `rs` in turn, starting from the documents `docs`. */
  function IndexRun(docs: map<string, StudyDocument>, fs: FS, rs: seq<StudyRef>,
                    lookupFails: nat -> bool, insertFails: nat -> bool): Run
    decreases |rs|
  {
    if rs == [] then Run(docs, Tally(0, 0, 0, 0))
    else
      var n := |rs| - 1;
      var prev := IndexRun(docs, fs, rs[..n], lookupFails, insertFails);
      var o := AddSpec(prev.docs, fs, rs[n], lookupFails(n), insertFails(n));
      Run(o.docs, prev.tally.Record(o))
  }

  /** One more study: the run over `rs + [r]` is the run over `rs` followed
      by one `Add`. */
  lemma IndexRunStep(docs: map<string, StudyDocument>, fs: FS, rs: seq<StudyRef>, r: StudyRef,
                     lookupFails: nat -> bool, insertFails: nat -> bool, prev: Run, o: AddOutcome)
    requires prev == IndexRun(docs, fs, rs, lookupFails, insertFails)
    requires o == AddSpec(prev.docs, fs, r, lookupFails(|rs|), insertFails(|rs|))
    ensures IndexRun(docs, fs, rs + [r], lookupFails, insertFails) == Run(o.docs, prev.tally.Record(o))
  {
    assert (rs + [r])[..|rs|] == rs;
  }

  /** The run over the first `i + 1` studies is that over the first `i`
      followed by one `Add` of study `i`. */
  lemma IndexRunAt(docs: map<string, StudyDocument>, fs: FS, rs: seq<StudyRef>, i: nat,
                   lookupFails: nat -> bool, insertFails: nat -> bool, prev: Run, o: AddOutcome)
    requires i < |rs| && prev == IndexRun(docs, fs, rs[..i], lookupFails, insertFails)
    requires o == AddSpec(prev.docs, fs, rs[i], lookupFails(i), insertFails(i))
    ensures IndexRun(docs, fs, rs[..i + 1], lookupFails, insertFails) == Run(o.docs, prev.tally.Record(o))
  {
    assert rs[..i + 1] == rs[..i] + [rs[i]];
    IndexRunStep(docs, fs, rs[..i], rs[i], lookupFails, insertFails, prev, o);
  }

  /** Every scanned study is handled exactly once, and each is counted as
      new, known or failed: total = new + known + failed. */
  lemma {:induction false} IndexRunTally(docs: map<string, StudyDocument>, fs: FS, rs: seq<StudyRef>,
                                         lookupFails: nat -> bool, insertFails: nat -> bool)
    ensures var t := IndexRun(docs, fs, rs, lookupFails, insertFails).tally;
            t.count == |rs| && t.count == t.added + t.known + t.failed
    decreases |rs|
  {
    if rs != [] {
      IndexRunTally(docs, fs, rs[..|rs| - 1], lookupFails, insertFails);
    }
  }

  /** The index only grows: every document stored before the scan is still
      stored, unchanged. */
  lemma {:induction false} IndexRunGrows(docs: map<string, StudyDocument>, fs: FS, rs: seq<StudyRef>,
                                         lookupFails: nat -> bool, insertFails: nat -> bool)
    ensures var d := IndexRun(docs, fs, rs, lookupFails, insertFails).docs;
            forall k :: k in docs ==> k in d && d[k] == docs[k]
    decreases |rs|
  {
    if rs != [] {
      var n := |rs| - 1;
      IndexRunGrows(docs, fs, rs[..n], lookupFails, insertFails);
      var prev := IndexRun(docs, fs, rs[..n], lookupFails, insertFails);
      AddGrowsByOne(prev.docs, fs, rs[n], lookupFails(n), insertFails(n));
    }
  }

  /** The new-study counter is exactly the number of documents the scan
      added to the index. */
  lemma {:induction false} IndexRunSize(docs: map<string, StudyDocument>, fs: FS, rs: seq<StudyRef>,
                                        lookupFails: nat -> bool, insertFails: nat -> bool)
    ensures var run := IndexRun(docs, fs, rs, lookupFails, insertFails);
            |run.docs| == |docs| + run.tally.added
    decreases |rs|
  {
    if rs != [] {
      var n := |rs| - 1;
      IndexRunSize(docs, fs, rs[..n], lookupFails, insertFails);
      var prev := IndexRun(docs, fs, rs[..n], lookupFails, insertFails);
      AddGrowsByOne(prev.docs, fs, rs[n], lookupFails(n), insertFails(n));
    }
  }

  /** The keys of the studies `rs`. */
  function KeysOf(rs: seq<StudyRef>): set<string>
  {
    set i | 0 <= i < |rs| :: GetKey(rs[i])
  }

  /** Every document the scan adds is stored under the key of a scanned
      study. */
  lemma {:induction false} IndexRunKeys(docs: map<string, StudyDocument>, fs: FS, rs: seq<StudyRef>,
                                        lookupFails: nat -> bool, insertFails: nat -> bool)
    ensures IndexRun(docs, fs, rs, lookupFails, insertFails).docs.Keys <= docs.Keys + KeysOf(rs)
    decreases |rs|
  {
    if rs != [] {
      var n := |rs| - 1;
      IndexRunKeys(docs, fs, rs[..n], lookupFails, insertFails);
      var prev := IndexRun(docs, fs, rs[..n], lookupFails, insertFails);
      AddGrowsByOne(prev.docs, fs, rs[n], lookupFails(n), insertFails(n));
      assert KeysOf(rs[..n]) <= KeysOf(rs) by {
        forall i | 0 <= i < n ensures GetKey(rs[..n][i]) in KeysOf(rs) {
          assert rs[..n][i] == rs[i];
        }
      }
      assert GetKey(rs[n]) in KeysOf(rs);
    }
  }

  /** Without index faults, every scanned study whose descriptor loads is
      stored in the index afterwards, and the key holds a document. */
  lemma {:induction false} IndexRunCovers(docs: map<string, StudyDocument>, fs: FS, rs: seq<StudyRef>,
                                          lookupFails: nat -> bool, insertFails: nat -> bool)
    requires forall j :: !lookupFails(j) && !insertFails(j)
    ensures var d := IndexRun(docs, fs, rs, lookupFails, insertFails).docs;
            forall i :: 0 <= i < |rs| && LoadStudyOf(fs, rs[i]).Ok? ==> GetKey(rs[i]) in d
    decreases |rs|
  {
    if rs != [] {
      var n := |rs| - 1;
      IndexRunCovers(docs, fs, rs[..n], lookupFails, insertFails);
      var prev := IndexRun(docs, fs, rs[..n], lookupFails, insertFails);
      var d := IndexRun(docs, fs, rs, lookupFails, insertFails).docs;
      AddGrowsByOne(prev.docs, fs, rs[n], lookupFails(n), insertFails(n));
      forall i | 0 <= i < |rs| && LoadStudyOf(fs, rs[i]).Ok? ensures GetKey(rs[i]) in d {
        if i < n {
          assert rs[..n][i] == rs[i];
        }
      }
    }
  }

  /** A full scan of a consistent archive without cancellation and without
      index faults leaves every study of the archive whose descriptor loads
      in the index, and adds nothing else. */
  lemma FullScanCovers(docs: map<string, StudyDocument>, fs: FS, d: Db, cancel: nat -> bool,
                       lookupFails: nat -> bool, insertFails: nat -> bool)
    requires Consistent(fs) && forall j :: !cancel(j)
    requires forall j :: !lookupFails(j) && !insertFails(j)
    ensures var all := AllStudies(fs, d);
            var after := IndexRun(docs, fs, ScanOf(fs, d, cancel), lookupFails, insertFails).docs;
            (forall i :: 0 <= i < |all| && LoadStudyOf(fs, all[i]).Ok? ==> GetKey(all[i]) in after)
            && after.Keys <= docs.Keys + KeysOf(all)
  {
    ScanComplete(fs, d, cancel);
    IndexRunCovers(docs, fs, AllStudies(fs, d), lookupFails, insertFails);
    IndexRunKeys(docs, fs, AllStudies(fs, d), lookupFails, insertFails);
  }

  /** The counts after which a progress line is logged: every hundredth
      study, once the scan has been running for more than five seconds. */
  function ProgressOf(n: nat, slow: nat -> bool): seq<nat>
    decreases n
  {
    if n == 0 then []
    else ProgressOf(n - 1, slow) + (if n % 100 == 0 && slow(n) then [n] else [])
  }

  /** One more study adds at most its own count. */
  lemma ProgressStep(n: nat, slow: nat -> bool)
    ensures ProgressOf(n + 1, slow) ==
              ProgressOf(n, slow) + (if (n + 1) % 100 == 0 && slow(n + 1) then [n + 1] else [])
  {
  }

  /** A progress line is logged after `c` studies exactly when `c` is a
      positive multiple of 100 no larger than the total and the scan is
      slow by then. */
  lemma {:induction false} ProgressSpec(n: nat, slow: nat -> bool, c: nat)
    ensures c in ProgressOf(n, slow) <==> 1 <= c <= n && c % 100 == 0 && slow(c)
    decreases n
  {
    if n != 0 {
      ProgressSpec(n - 1, slow, c);
    }
  }

  // ---------------------------------------------------------------------
  // The indexer

  /** A study indexer over the archive `db`, holding the search index it
      keeps up to date. */
  class StudyIndexer {
    const db: Db
    const indexPath: string
    const index: Index

    /** The indexer with its path resolved and a fresh, empty index. */
    constructor (db: Db, path: string)
      ensures this.db == db && indexPath == IndexPathOf(path)
      ensures fresh(index) && index.docs == map[]
    {
      this.db := db;
      indexPath := IndexPathOf(path);
      index := new Index();
    }

    /** One step of `FullScan`: `Add` a fresh handle of `r`, as the scanner
        hands one over. */
    method IndexOne(fs: FS, r: StudyRef, lookupFails: bool, insertFails: bool)
      returns (added: bool, err: Option<Error>)
      modifies index
      ensures AddOutcome(index.docs, added, err) == AddSpec(old(index.docs), fs, r, lookupFails, insertFails)
    {
      var study := new Study(r);
      added, err := index.Add(fs, study, lookupFails, insertFails);
    }

    /** One round of the loop of `FullScan` on study `i`: count it, index
        it, and count it as new or known unless `Add` failed; then log the
        progress line when one is due. */
    method IndexStep(fs: FS, studies: seq<StudyRef>, i: nat, lookupFails: nat -> bool, insertFails: nat -> bool,
                     slow: nat -> bool, ghost docs0: map<string, StudyDocument>, ghost run: Run,
                     count: nat, newStudies: nat, existingStudies: nat, progress: seq<nat>)
      returns (ghost run': Run, count': nat, newStudies': nat, existingStudies': nat, progress': seq<nat>)
      requires i < |studies| && run == IndexRun(docs0, fs, studies[..i], lookupFails, insertFails)
      requires index.docs == run.docs && count == run.tally.count == i
      requires newStudies == run.tally.added && existingStudies == run.tally.known
      requires progress == ProgressOf(count, slow)
      modifies index
      ensures run' == IndexRun(docs0, fs, studies[..i + 1], lookupFails, insertFails)
      ensures index.docs == run'.docs && count' == run'.tally.count == i + 1
      ensures newStudies' == run'.tally.added && existingStudies' == run'.tally.known
      ensures progress' == ProgressOf(count', slow)
    {
      count', newStudies', existingStudies', progress' := count + 1, newStudies, existingStudies, progress;
      var isNew, addErr := IndexOne(fs, studies[i], lookupFails(i), insertFails(i));
      ghost var o := AddOutcome(index.docs, isNew, addErr);
      if addErr.None? {
        if isNew {
          newStudies' := newStudies' + 1;
        } else {
          existingStudies' := existingStudies' + 1;
        }
      }
      IndexRunAt(docs0, fs, studies, i, lookupFails, insertFails, run, o);
      run' := Run(o.docs, run.tally.Record(o));
      ProgressStep(i, slow);
      if count' % 100 == 0 && slow(count') {
        progress' := progress' + [count'];
      }
    }

    /** `FullScan`: scan the archive and `Add` each study in turn. An `Add`
        error is logged and the scan goes on; the counters end as the run
        over the scanned studies says. `Scan` never fails, so neither does
        `FullScan`. */
    method FullScan(fs: FS, cancel: nat -> bool, lookupFails: nat -> bool, insertFails: nat -> bool,
                    slow: nat -> bool)
      returns (err: Option<Error>, count: nat, newStudies: nat, existingStudies: nat,
               progress: seq<nat>)
      modifies index
      ensures var run := IndexRun(old(index.docs), fs, ScanOf(fs, db, cancel), lookupFails, insertFails);
              index.docs == run.docs && count == run.tally.count
              && newStudies == run.tally.added && existingStudies == run.tally.known
      ensures count == |ScanOf(fs, db, cancel)|
      ensures progress == ProgressOf(count, slow)
      ensures err == None
    {
      var studies, scanErr := Scanner.Scan(fs, db, cancel);
      ghost var docs0 := index.docs;
      ghost var run := IndexRun(docs0, fs, [], lookupFails, insertFails);
      count, newStudies, existingStudies, progress := 0, 0, 0, [];
      for i := 0 to |studies|
        invariant run == IndexRun(docs0, fs, studies[..i], lookupFails, insertFails)
        invariant index.docs == run.docs && count == run.tally.count
        invariant newStudies == run.tally.added && existingStudies == run.tally.known
        invariant count == i
        invariant progress == ProgressOf(count, slow)
      {
        run, count, newStudies, existingStudies, progress :=
          IndexStep(fs, studies, i, lookupFails, insertFails, slow, docs0, run,
                    count, newStudies, existingStudies, progress);
      }
      assert studies[..|studies|] == studies;
      err := None;
    }
  }

  /** `NewStudyIndexer`: resolves the index path and opens the index; an
      index that cannot be opened is reported and no indexer is made. */
  method NewStudyIndexer(db: Db, path: string, openFails: bool)
    returns (idx: StudyIndexer?, err: Option<Error>)
    ensures openFails ==> idx == null && err == Some(IndexFailure)
    ensures !openFails ==> err == None && idx != null && fresh(idx) && fresh(idx.index)
                           && idx.db == db && idx.indexPath == IndexPathOf(path) && idx.index.docs == map[]
  {
    if openFails {
      return null, Some(IndexFailure);
    }
    idx := new StudyIndexer(db, path);
    err := None;
  }
}
