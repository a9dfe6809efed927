/** The older copy of the HTTP handlers, registered by the `dxray`
    command itself. They take the indexer and the archive from the router
    instead of the request's application context, and their instance URLs
    use the `/wado` path. Apart from that the code is the same as that of
    the current handlers, and each handler here is stated against the
    same specification. */
module LegacyApi {

  import opened Wrappers
  import opened GoStrings
  import opened FileSystem
  import opened Fsdb
  import opened Search
  import opened ApiUtils
  import opened Ohif
  import ApiList
  import ApiWado
  import ApiSearch

  /** The WADO path of the older API. */
  const LegacyWadoPath := "/wado"

  /** `getStudyURL`: the instance URLs of the request's host under the
      older path. `url.Values.Encode` sorts the keys, so the order in which
      the fields are added does not matter. */
  function LegacyURLFactory(host: string): UrlFactory
  {
    (study: string, series: string, instance: string) => InstanceURL(host, LegacyWadoPath, study, series, instance)
  }

  /** The older and the current instance URL of an instance differ only in
      the endpoint path before the query. */
  lemma LegacyURLDiffersInPath(host: string, study: string, series: string, instance: string)
    ensures var was := LegacyURLFactory(host)(study, series, instance);
            var cur := StudyURLFactory(host)(study, series, instance);
            var q := InstanceQuery(study, series, instance);
            was == "dicomweb://" + host + "/wado?" + q
            && cur == "dicomweb://" + host + "/api/dxray/v1/wado?" + q
            && was != cur
  {
    var was := LegacyURLFactory(host)(study, series, instance);
    var cur := StudyURLFactory(host)(study, series, instance);
    var k := |"dicomweb://" + host| + 1;
    assert was[k] == 'w';
    assert cur[k] == 'a';
  }

  /** The older `getStudyByUID`: the same chain as the current one, without
      the check for an application context. */
  function LegacyGetStudyByUID(app: App, fs: FS, uid: string): (r: Lookup)
    ensures r == GetStudyByUID(Some(app), fs, uid)
  {
    var hits := app.search(UidQuery(uid));
    if hits.Err? then Failed(Some(400), hits.error)
    else if |hits.value| == 0 then Failed(Some(404), Aborted)
    else if |hits.value| > 1 then Failed(Some(400), Aborted)
    else
      match Get(hits.value[0], fs, app.db)
      case Err(e) => Failed(Some(500), e)
      case Ok(st) => Found(st)
  }

  /** `searchStudies`: the search endpoint on the router's indexer and
      archive, with the older instance URLs. */
  method SearchStudies(app: App, fs: FS, query: map<string, string>, host: string)
    returns (r: Response<seq<StudyJson>>)
    ensures app.search(Query(query, "q")).Err? ==> r == Status(500)
    ensures app.search(Query(query, "q")).Ok? ==>
              r == Json(ApiSearch.Projected(fs, app.db, LegacyURLFactory(host), app.search(Query(query, "q")).value))
  {
    r := ApiSearch.SearchWith(app.search, app.db, fs, Query(query, "q"), LegacyURLFactory(host));
  }

  /** `wadoURI`: the same checks in the same order, then the older lookup
      and the same search of the descriptor. */
  method WadoURI(app: App, fs: FS, query: map<string, string>) returns (r: Response<()>)
    ensures ApiWado.Refusal(query).Some? ==> r == Status(ApiWado.Refusal(query).value)
    ensures ApiWado.Refusal(query).None? ==>
              r == ApiWado.Answer(fs, query, GetStudyByUID(Some(app), fs, Query(query, "studyUID")))
  {
    var refusal := ApiWado.Refusal(query);
    if refusal.Some? {
      return Status(refusal.value);
    }
    var std := LegacyGetStudyByUID(app, fs, Query(query, "studyUID"));
    r := ApiWado.Serve(fs, query, std);
  }

  /** `listStudies`: the same pagination on the router's archive, with the
      older instance URLs, and the same guard that never holds. */
  method ListStudies(d: Db, fs: FS, query: map<string, string>, host: string)
    returns (r: Response<seq<Option<StudyJson>>>)
    ensures ApiList.AsWritten(fs, d, query, LegacyURLFactory(host), r)
  {
    r := ApiList.ListPage(d, fs, query, LegacyURLFactory(host));
  }
}
