/** The search-index bookkeeping: the flattened document a study is indexed
    as, the `"<volume>/<study>"` key it is stored under, insert-if-absent
    `Add`, and `Get`, which turns a key back into a study of the archive.

    The bleve store is a map from key to document. Its own failures (a
    lookup or an insert that errors) are parameters of `Add`; its query
    engine is a function from query string to the list of hit keys. */
module Search {

  import opened Wrappers
  import opened GoStrings
  import opened GoStrconv
  import opened Models
  import opened FileSystem
  import opened Fsdb

  /** The searchable fields of one study. */
  datatype StudyDocument = StudyDocument(owner: string, patient: string, race: string, id: string,
                                         uid: string, date: string, description: string)

  /** The bleve query engine: the keys of the documents that match a query
      string, in relevance order, or the error the engine reports. */
  type Searcher = string -> Result<seq<string>>

  // ---------------------------------------------------------------------
  // Documents

  /** The non-empty series descriptions, in series order. */
  function SeriesDescriptions(series: seq<Series>): (lines: seq<string>)
    ensures |lines| <= |series|
    decreases |series|
  {
    if series == [] then []
    else
      var last := series[|series| - 1];
      SeriesDescriptions(series[..|series| - 1]) + (if last.description != "" then [last.description] else [])
  }

  /** The lines of a document's description: the study's description when
      it has one, then every non-empty series description. */
  function DescriptionLines(st: Models.Study): seq<string>
  {
    (if st.description != "" then [st.description] else []) + SeriesDescriptions(st.series)
  }

  /** The document indexed for a decoded descriptor. */
  function DocumentOf(m: ImageList): StudyDocument
  {
    var p := m.patient;
    StudyDocument(p.OwnerName(), p.AnimalName(), p.AnimalRace(), p.id, p.visit.study.uid,
                  p.visit.study.date, Join(DescriptionLines(p.visit.study), '\n'))
  }

  /** What `LoadStudy` yields for a study: the document of its descriptor,
      or the error reading the descriptor gives. */
  function LoadStudyOf(fs: FS, r: StudyRef): Result<StudyDocument>
  {
    match ReadDescriptor(fs, r.DescriptorPath())
    case Err(e) => Err(e)
    case Ok(m) => Ok(DocumentOf(m))
  }

  /** A description line is kept exactly when it is non-empty and is the
      study's own description or the description of one of its series. */
  lemma DescriptionLinesMembers(st: Models.Study, line: string)
    ensures line in DescriptionLines(st) <==>
              line != "" && (line == st.description ||
                             exists k :: 0 <= k < |st.series| && st.series[k].description == line)
  {
    SeriesDescriptionsMembers(st.series, line);
  }

  lemma {:induction false} SeriesDescriptionsMembers(series: seq<Series>, line: string)
    ensures line in SeriesDescriptions(series) <==>
              line != "" && exists k :: 0 <= k < |series| && series[k].description == line
    decreases |series|
  {
    if series != [] {
      var init := series[..|series| - 1];
      SeriesDescriptionsMembers(init, line);
      if line != "" && exists k :: 0 <= k < |series| && series[k].description == line {
        var k :| 0 <= k < |series| && series[k].description == line;
        if k < |init| {
          assert init[k] == series[k];
        }
      }
      if line in SeriesDescriptions(series) && line !in SeriesDescriptions(init) {
        assert series[|series| - 1].description == line;
      }
    }
  }

  /** When no description holds a newline and at least one is non-empty,
      splitting the document's description on newlines gives the lines back:
      the description loses nothing. */
  lemma DescriptionRoundTrip(m: ImageList)
    requires DescriptionLines(m.patient.visit.study) != []
    requires forall k :: 0 <= k < |DescriptionLines(m.patient.visit.study)| ==>
               '\n' !in DescriptionLines(m.patient.visit.study)[k]
    ensures Split(DocumentOf(m).description, '\n') == DescriptionLines(m.patient.visit.study)
  {
    SplitJoin(DescriptionLines(m.patient.visit.study), '\n');
  }

  /** The owner, animal and race of a document are the three parts of the
      compound patient name it was built from. */
  lemma DocumentNames(m: ImageList, owner: string, animal: string, race: string)
    requires m.patient.name == owner + "^" + (animal + " " + race)
    requires '^' !in owner && '^' !in animal && '^' !in race && ' ' !in animal
    requires animal != [] && !IsSpace(animal[0])
    requires race != [] && !IsSpace(race[|race| - 1])
    ensures DocumentOf(m).owner == owner && DocumentOf(m).patient == animal && DocumentOf(m).race == race
  {
    Decompose(m.patient, owner, animal, race);
  }

  /** `LoadStudy`: loads the handle (so its cached model is the descriptor on
      success) and flattens the model into a document, gathering the
      description lines in a loop. */
  method LoadStudy(fs: FS, s: Fsdb.Study) returns (r: Result<StudyDocument>)
    modifies s
    ensures r == LoadStudyOf(fs, s.ref)
    ensures r.Ok? ==> s.model == Some(fs.descriptors[s.ref.DescriptorPath()])
    ensures r.Err? ==> s.model == old(s.model)
  {
    var err := s.Load(fs);
    if err.Some? {
      return Err(err.value);
    }
    var (model, _) := s.Model();
    var st := model.patient.visit.study;
    var desc: seq<string> := [];
    if st.description != "" {
      desc := desc + [st.description];
    }
    var i := 0;
    while i < |st.series|
      invariant 0 <= i <= |st.series|
      invariant desc == (if st.description != "" then [st.description] else []) + SeriesDescriptions(st.series[..i])
    {
      assert st.series[..i + 1][..i] == st.series[..i];
      if st.series[i].description != "" {
        desc := desc + [st.series[i].description];
      }
      i := i + 1;
    }
    assert st.series[..|st.series|] == st.series;
    var p := model.patient;
    return Ok(StudyDocument(p.OwnerName(), p.AnimalName(), p.AnimalRace(), p.id, st.uid, st.date,
                            Join(desc, '\n')));
  }

  // ---------------------------------------------------------------------
  // Keys

  /** `getKey`: the volume name, a slash and the study name. */
  function GetKey(r: StudyRef): string
  {
    r.vol.name + "/" + r.name
  }

  /** `Get`: a key that does not split on `/` into two parts is rejected;
      otherwise the volume and then the study are opened by name. */
  function Get(key: string, fs: FS, d: Db): (r: Result<StudyRef>)
    ensures r.Ok? ==> r.value.vol.db == d
  {
    var parts := Split(key, '/');
    if |parts| != 2 then Err(InvalidKey(key))
    else
      match OpenVolumeByName(fs, d, parts[0])
      case Err(e) => Err(e)
      case Ok(vol) =>
        match OpenStudyByName(fs, vol, parts[1])
        case Err(e) => Err(e)
        case Ok(st) => Ok(st)
  }

  /** `Get` rejects exactly the keys without a single slash before it looks
      at the archive. */
  lemma GetRejects(key: string, fs: FS, d: Db)
    ensures Count(key, '/') != 1 <==> Get(key, fs, d) == Err(InvalidKey(key))
  {
    SplitCount(key, '/');
    if Count(key, '/') == 1 {
      SplitOne(key, '/');
    }
  }

  /** `Get` undoes `getKey`: with no slash in either name, the key of a
      study opens the same volume name and study name, and it opens exactly
      when both directories exist. */
  lemma GetKeyRoundTrip(fs: FS, r: StudyRef)
    requires '/' !in r.vol.name && '/' !in r.name
    ensures Get(GetKey(r), fs, r.vol.db).Ok? <==>
              r.vol.Path() in fs.dirs && r.Path() in fs.dirs
    ensures Get(GetKey(r), fs, r.vol.db).Ok? ==> Get(GetKey(r), fs, r.vol.db).value == r
  {
    assert GetKey(r) == Join([r.vol.name, r.name], '/');
    SplitJoin([r.vol.name, r.name], '/');
  }

  /** And `getKey` undoes `Get`: a key that opens is the key of what it
      opens. */
  lemma KeyGetRoundTrip(key: string, fs: FS, d: Db)
    requires Get(key, fs, d).Ok?
    ensures GetKey(Get(key, fs, d).value) == key
  {
    JoinSplit(key, '/');
  }

  // ---------------------------------------------------------------------
  // The index

  /** What the store returns for `Add`: the new documents, whether the
      study was new, and the error. */
  datatype AddOutcome = AddOutcome(docs: map<string, StudyDocument>, added: bool, err: Option<Error>)

  /** `Add` on the documents `docs`: a failing lookup is `(false, err)`; a
      key already present is `(false, nil)` and nothing is loaded; a study
      whose descriptor does not load is `(false, err)`; a failing insert is
      `(true, err)`; otherwise the document is stored and the result is
      `(true, nil)`. */
  function AddSpec(docs: map<string, StudyDocument>, fs: FS, r: StudyRef,
                   lookupFails: bool, insertFails: bool): AddOutcome
  {
    var key := GetKey(r);
    if lookupFails then AddOutcome(docs, false, Some(IndexFailure))
    else if key in docs then AddOutcome(docs, false, None)
    else
      match LoadStudyOf(fs, r)
      case Err(e) => AddOutcome(docs, false, Some(e))
      case Ok(doc) =>
        if insertFails then AddOutcome(docs, true, Some(IndexFailure))
        else AddOutcome(docs[key := doc], true, None)
  }

  /** An `Add` that stores a document grows the index by exactly one, under
      the study's key; every other outcome leaves the index as it was. */
  lemma AddGrowsByOne(docs: map<string, StudyDocument>, fs: FS, r: StudyRef,
                      lookupFails: bool, insertFails: bool)
    ensures var o := AddSpec(docs, fs, r, lookupFails, insertFails);
            (o.added && o.err.None? ==>
               GetKey(r) !in docs && o.docs == docs[GetKey(r) := LoadStudyOf(fs, r).value]
               && |o.docs| == |docs| + 1)
            && (!(o.added && o.err.None?) ==> o.docs == docs)
  {
  }

  /** Adding the same study twice stores it once: the second `Add` reports
      `(false, nil)` and changes nothing, so the count rises by one in
      total. */
  lemma AddTwice(docs: map<string, StudyDocument>, fs: FS, r: StudyRef)
    requires GetKey(r) !in docs && LoadStudyOf(fs, r).Ok?
    ensures var first := AddSpec(docs, fs, r, false, false);
            var second := AddSpec(first.docs, fs, r, false, false);
            first.added && first.err.None? && !second.added && second.err.None?
            && second.docs == first.docs && |second.docs| == |docs| + 1
  {
    AddGrowsByOne(docs, fs, r, false, false);
  }

  /** A study whose key is present is never loaded: its outcome is the
      same whatever the archive holds. */
  lemma AddKnownIgnoresArchive(docs: map<string, StudyDocument>, fs: FS, fs': FS, r: StudyRef,
                               insertFails: bool)
    requires GetKey(r) in docs
    ensures AddSpec(docs, fs, r, false, insertFails) == AddSpec(docs, fs', r, false, insertFails)
            == AddOutcome(docs, false, None)
  {
  }

  /** A search index: the documents bleve stores, by key. */
  class Index {
    var docs: map<string, StudyDocument>

    /** `New`: a fresh index holds no documents. */
    constructor ()
      ensures docs == map[]
    {
      docs := map[];
    }

    /** `Count`: the number of stored documents, or the store's failure
        when `countFails` (the error `DocCount` may return). */
    function Count(countFails: bool): (r: Result<nat>)
      reads this
      ensures r.Err? <==> countFails
      ensures r.Ok? ==> r.value == |docs|
    {
      if countFails then Err(IndexFailure) else Ok(|docs|)
    }

    /** `Add`: checks the store under the study's key and loads and
        inserts the study only when the key is absent. */
    method Add(fs: FS, s: Fsdb.Study, lookupFails: bool, insertFails: bool)
      returns (added: bool, err: Option<Error>)
      modifies this, s
      ensures AddOutcome(docs, added, err) == AddSpec(old(docs), fs, s.ref, lookupFails, insertFails)
      ensures lookupFails || GetKey(s.ref) in old(docs) ==> s.model == old(s.model)
      ensures Count(false).value == old(Count(false).value) + (if added && err.None? then 1 else 0)
    {
      var key := GetKey(s.ref);
      if lookupFails {
        return false, Some(IndexFailure);
      }
      if key !in docs {
        var model := LoadStudy(fs, s);
        if model.Err? {
          return false, Some(model.error);
        }
        if insertFails {
          return true, Some(IndexFailure);
        }
        docs := docs[key := model.value];
        return true, None;
      }
      return false, None;
    }
  }

  // ---------------------------------------------------------------------
  // Queries

  /** The `uid:` query of a UID: the prefix and the Go-quoted UID. */
  function UidQuery(uid: string): string
  {
    "uid:" + Quote(uid)
  }

  /** The keys of the stored documents that carry `uid`. */
  function KeysWithUid(docs: map<string, StudyDocument>, uid: string): set<string>
  {
    set k | k in docs && docs[k].uid == uid
  }

  /** A query engine is faithful to `docs` for `uid` when its answer to the
      `uid:` query lists, once each, the keys of the documents with that
      UID. */
  ghost predicate UidFaithful(search: Searcher, docs: map<string, StudyDocument>, uid: string)
  {
    var hits := search(UidQuery(uid));
    hits.Ok? && (forall i, j :: 0 <= i < j < |hits.value| ==> hits.value[i] != hits.value[j])
    && (forall k :: k in hits.value <==> k in KeysWithUid(docs, uid))
  }

  /** A faithful engine returns as many hits as there are documents with
      the UID. */
  lemma FaithfulHitCount(search: Searcher, docs: map<string, StudyDocument>, uid: string)
    requires UidFaithful(search, docs, uid)
    ensures |search(UidQuery(uid)).value| == |KeysWithUid(docs, uid)|
  {
    var hits := search(UidQuery(uid)).value;
    DistinctCard(hits);
    assert (set k | k in hits) == KeysWithUid(docs, uid);
  }

  /** A sequence without repetitions has as many elements as its set. */
  lemma {:induction false} DistinctCard(s: seq<string>)
    requires forall i, j :: 0 <= i < j < |s| ==> s[i] != s[j]
    ensures |set k | k in s| == |s|
  {
    if s != [] {
      var t := s[1..];
      DistinctCard(t);
      assert (set k | k in s) == (set k | k in t) + {s[0]};
      assert forall j :: 0 <= j < |t| ==> t[j] == s[j + 1] != s[0];
    }
  }
}
