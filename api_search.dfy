/** The search endpoint: the viewer studies of the search hits for the
    query `q`, in hit order, leaving out every hit that does not open or
    whose descriptor does not load. */
module ApiSearch {

  import opened Wrappers
  import opened FileSystem
  import opened Fsdb
  import opened Search
  import opened ApiUtils
  import opened Ohif

  /** The viewer JSON (without DICOM tags) of the study the key `key`
      names, when it opens and its descriptor reads. */
  function KeyView(fs: FS, d: Db, url: UrlFactory, key: string): Option<StudyJson>
  {
    match Get(key, fs, d)
    case Err(_) => None
    case Ok(r) =>
      if r.DescriptorPath() in fs.descriptors then
        Some(Project(Env(r, url, false, map[]), fs.descriptors[r.DescriptorPath()]))
      else None
  }

  /** The views of the keys that have one, in key order. */
  function Projected(fs: FS, d: Db, url: UrlFactory, keys: seq<string>): seq<StudyJson>
    decreases |keys|
  {
    if keys == [] then []
    else
      var last := keys[|keys| - 1];
      Projected(fs, d, url, keys[..|keys| - 1])
      + (if KeyView(fs, d, url, last).Some? then [KeyView(fs, d, url, last).value] else [])
  }

  /** The views of two runs of keys are those of the first followed by
      those of the second: the answer keeps the hit order. */
  lemma {:induction false} ProjectedAppend(fs: FS, d: Db, url: UrlFactory, a: seq<string>, b: seq<string>)
    ensures Projected(fs, d, url, a + b) == Projected(fs, d, url, a) + Projected(fs, d, url, b)
    decreases |b|
  {
    if b != [] {
      var n := |b| - 1;
      ProjectedAppend(fs, d, url, a, b[..n]);
      assert (a + b)[..|a + b| - 1] == a + b[..n];
      assert (a + b)[|a + b| - 1] == b[n];
    } else {
      assert a + b == a;
    }
  }

  /** One key contributes its view, or nothing when it has none. */
  lemma ProjectedOne(fs: FS, d: Db, url: UrlFactory, key: string)
    ensures Projected(fs, d, url, [key])
            == if KeyView(fs, d, url, key).Some? then [KeyView(fs, d, url, key).value] else []
  {
    assert [key][..0] == [];
  }

  /** The answer holds at most one study per hit, exactly one per hit when
      every hit has a view, and only views of hits. */
  lemma {:induction false} ProjectedBounds(fs: FS, d: Db, url: UrlFactory, keys: seq<string>)
    ensures |Projected(fs, d, url, keys)| <= |keys|
    ensures (forall i :: 0 <= i < |keys| ==> KeyView(fs, d, url, keys[i]).Some?) ==>
              |Projected(fs, d, url, keys)| == |keys|
    ensures forall m :: m in Projected(fs, d, url, keys) ==>
              exists i :: 0 <= i < |keys| && KeyView(fs, d, url, keys[i]) == Some(m)
    decreases |keys|
  {
    if keys != [] {
      var n := |keys| - 1;
      var init := keys[..n];
      ProjectedBounds(fs, d, url, init);
      assert forall i :: 0 <= i < n ==> init[i] == keys[i];
      forall m | m in Projected(fs, d, url, keys)
        ensures exists i :: 0 <= i < |keys| && KeyView(fs, d, url, keys[i]) == Some(m)
      {
        if m in Projected(fs, d, url, init) {
          var i :| 0 <= i < n && KeyView(fs, d, url, init[i]) == Some(m);
          assert keys[i] == init[i];
        } else {
          assert KeyView(fs, d, url, keys[n]) == Some(m);
        }
      }
    }
  }

  /** `SearchStudiesEndpoint` after the application context is fetched, with the hits of the query engine `search` in the
      archive `d`: a search error is 500; otherwise the views of the hits,
      in hit order, skipping each hit whose study does not open or whose
      descriptor does not load. */
  method SearchWith(search: Searcher, d: Db, fs: FS, term: string, url: UrlFactory)
    returns (r: Response<seq<StudyJson>>)
    ensures search(term).Err? ==> r == Status(500)
    ensures search(term).Ok? ==> r == Json(Projected(fs, d, url, search(term).value))
  {
    var results := search(term);
    if results.Err? {
      return Status(500);
    }
    var keys := results.value;
    var models: seq<StudyJson> := [];
    for i := 0 to |keys|
      invariant models == Projected(fs, d, url, keys[..i])
    {
      assert keys[..i + 1][..i] == keys[..i];
      var s := Get(keys[i], fs, d);
      if s.Err? {
        continue;
      }
      var st := new Study(s.value);
      var m := JSONFromDXR(fs, st, url, false, map[]);
      if m.Err? {
        continue;
      }
      models := models + [m.value];
    }
    assert keys[..|keys|] == keys;
    return Json(models);
  }

  /** `SearchStudiesEndpoint`: without an application context nothing is
      answered; otherwise its query engine and archive answer the query
      `q`, with the instance URLs of the request's host. */
  method SearchStudies(app: Option<App>, fs: FS, query: map<string, string>, host: string)
    returns (r: Response<seq<StudyJson>>)
    ensures app.None? ==> r == NoResponse
    ensures app.Some? && app.value.search(Query(query, "q")).Err? ==> r == Status(500)
    ensures app.Some? && app.value.search(Query(query, "q")).Ok? ==>
              r == Json(Projected(fs, app.value.db, StudyURLFactory(host), app.value.search(Query(query, "q")).value))
  {
    if app.None? {
      return NoResponse;
    }
    r := SearchWith(app.value.search, app.value.db, fs, Query(query, "q"), StudyURLFactory(host));
  }
}
