/** Helpers the HTTP handlers share: the viewer's instance URL, numeric
    query parameters, and resolving a study UID through the search index.

    A handler's effect on the HTTP exchange is a `Response`; the status
    codes are those the handlers write. */
module ApiUtils {

  import opened Wrappers
  import opened GoStrings
  import opened GoStrconv
  import opened FileSystem
  import opened Fsdb
  import opened Search

  /** What a handler answers: a JSON body with status 200, a file served
      from disk, only a status with no body, nothing at all (the handler
      returns without writing), or a crash (a Go panic). */
  datatype Response<T> = Json(body: T) | File(path: string) | Status(code: int) | NoResponse | Crash

  /** The request's application context: the archive and the indexer's
      query engine (with the documents it indexes). */
  datatype App = App(db: Db, search: Searcher, docs: map<string, StudyDocument>)

  // ---------------------------------------------------------------------
  // Instance URLs

  /** The URL query of an instance: `url.Values.Encode` writes the keys in
      sorted order. */
  function InstanceQuery(study: string, series: string, instance: string): string
  {
    Join([Field("objectUID", instance), Field("requestType", "WADO"), Field("seriesUID", series),
          Field("studyUID", study)], '&')
  }

  /** One `key=value` field of a URL query. */
  function Field(key: string, value: string): string
  {
    key + "=" + value
  }

  /** The instance URL, with the endpoint path `path` of the server
      `host`. */
  function InstanceURL(host: string, path: string, study: string, series: string, instance: string): string
  {
    "dicomweb://" + host + path + "?" + InstanceQuery(study, series, instance)
  }

  /** The WADO path of the current API. */
  const WadoPath := "/api/dxray/v1/wado"

  /** `createStudyURLFactory`: the instance URLs of the request's host. */
  function StudyURLFactory(host: string): (string, string, string) -> string
  {
    (study: string, series: string, instance: string) => InstanceURL(host, WadoPath, study, series, instance)
  }

  /** A value holding none of the characters that separate the fields of a
      query, so that encoding it needs no escape for them. */
  predicate QuerySafe(s: string)
  {
    '&' !in s && '=' !in s
  }

  /** The query of an instance URL splits into its four fields, in the
      order `url.Values.Encode` writes them; each field reads back with
      `FieldSplit`. */
  lemma InstanceQueryFields(study: string, series: string, instance: string)
    requires QuerySafe(study) && QuerySafe(series) && QuerySafe(instance)
    ensures Split(InstanceQuery(study, series, instance), '&')
            == [Field("objectUID", instance), Field("requestType", "WADO"), Field("seriesUID", series),
                Field("studyUID", study)]
  {
    var parts := [Field("objectUID", instance), Field("requestType", "WADO"), Field("seriesUID", series),
                  Field("studyUID", study)];
    FieldSafe("objectUID", instance);
    FieldSafe("requestType", "WADO");
    FieldSafe("seriesUID", series);
    FieldSafe("studyUID", study);
    SplitJoin(parts, '&');
  }

  /** A field of safe parts holds no field separator. */
  lemma FieldSafe(key: string, value: string)
    requires QuerySafe(key) && QuerySafe(value)
    ensures '&' !in Field(key, value)
  {
  }

  /** One `key=value` field splits back into its key and its value. */
  lemma FieldSplit(key: string, value: string)
    requires '=' !in key && '=' !in value
    ensures Split(Field(key, value), '=') == [key, value]
  {
    assert Field(key, value) == Join([key, value], '=');
    SplitJoin([key, value], '=');
  }

  /** Every instance URL starts with the scheme, the host and the path. */
  lemma InstanceURLPrefix(host: string, path: string, study: string, series: string, instance: string)
    ensures var u := InstanceURL(host, path, study, series, instance);
            var head := "dicomweb://" + host + path + "?";
            HasPrefix(u, head) && u[|head|..] == InstanceQuery(study, series, instance)
  {
  }

  // ---------------------------------------------------------------------
  // Numeric query parameters

  /** `ctx.Query`: the value of a query parameter, empty when absent. */
  function Query(query: map<string, string>, name: string): string
  {
    if name in query then query[name] else ""
  }

  /** `getNumberParam`: an empty value is `(0, false)`; otherwise a base-10
      64-bit parse, whose error is passed on, and `(value, true)`. */
  function GetNumberParam(query: map<string, string>, name: string): (r: Result<(int, bool)>)
  {
    var v := Query(query, name);
    if v == "" then Ok((0, false))
    else
      match ParseInt(v)
      case Err(e) => Err(e)
      case Ok(i) => Ok((i, true))
  }

  /** `getNumberParamDefault`: `def` when the parameter is unset or empty,
      the parsed value when set, the parse error otherwise. */
  function GetNumberParamDefault(query: map<string, string>, name: string, def: int): (r: Result<int>)
  {
    match GetNumberParam(query, name)
    case Err(e) => Err(e)
    case Ok((v, isSet)) => if !isSet then Ok(def) else Ok(v)
  }

  /** The parameter is reported set exactly when its value is non-empty and
      parses; an unset parameter reads as 0, a set one as its 64-bit
      value. */
  lemma GetNumberParamSpec(query: map<string, string>, name: string)
    ensures var v := Query(query, name);
            var r := GetNumberParam(query, name);
            (v == "" ==> r == Ok((0, false)))
            && (v != "" ==> (r.Ok? <==> ParseInt(v).Ok?))
            && (r.Ok? && r.value.1 ==> r.value.0 == ParseInt(v).value && MinInt64 <= r.value.0 <= MaxInt64)
            && (r.Err? ==> r.error == InvalidNumber(v))
  {
  }

  /** A parameter written with `Itoa` reads back as the number written,
      and an absent one as the default. */
  lemma NumberParamRoundTrip(query: map<string, string>, name: string, n: int, def: int)
    requires MinInt64 <= n <= MaxInt64
    ensures GetNumberParamDefault(query[name := Itoa(n)], name, def) == Ok(n)
    ensures name !in query ==> GetNumberParamDefault(query, name, def) == Ok(def)
  {
    ParseItoa(n);
    assert Itoa(n) != "" by {
      ItoaChars(n);
    }
  }

  // ---------------------------------------------------------------------
  // Resolving a study UID

  /** The result of `getStudyByUID`: the study found, or the error with the
      status written to the response (`None` when nothing was written). */
  datatype Lookup = Found(ref: StudyRef) | Failed(status: Option<int>, err: Error)

  /** `getStudyByUID`: without an application context nothing is looked
      up; a search error is 400, no hit 404, several hits 400; the one hit
      is opened with `Get`, whose failure is 500. */
  function GetStudyByUID(app: Option<App>, fs: FS, uid: string): (r: Lookup)
  {
    if app.None? then Failed(None, NoAppContext)
    else
      var hits := app.value.search(UidQuery(uid));
      if hits.Err? then Failed(Some(400), hits.error)
      else if |hits.value| == 0 then Failed(Some(404), Aborted)
      else if |hits.value| > 1 then Failed(Some(400), Aborted)
      else
        match Get(hits.value[0], fs, app.value.db)
        case Err(e) => Failed(Some(500), e)
        case Ok(st) => Found(st)
  }

  /** With a faithful query engine the lookup decides by the number of
      stored documents with the UID: none is 404, several are 400, and
      exactly one opens the study stored under its key, whose key it is. */
  lemma GetStudyByUIDFaithful(app: App, fs: FS, uid: string)
    requires UidFaithful(app.search, app.docs, uid)
    ensures var r := GetStudyByUID(Some(app), fs, uid);
            var keys := KeysWithUid(app.docs, uid);
            (|keys| == 0 ==> r == Failed(Some(404), Aborted))
            && (|keys| > 1 ==> r == Failed(Some(400), Aborted))
            && (|keys| == 1 ==> exists k :: k in keys && app.docs[k].uid == uid
                                 && (r.Found? ==> GetKey(r.ref) == k)
                                 && (r.Failed? ==> r.status == Some(500)))
  {
    FaithfulHitCount(app.search, app.docs, uid);
    var hits := app.search(UidQuery(uid)).value;
    var keys := KeysWithUid(app.docs, uid);
    if |keys| == 1 {
      var k := hits[0];
      assert k in keys;
      var r := GetStudyByUID(Some(app), fs, uid);
      if r.Found? {
        KeyGetRoundTrip(k, fs, app.db);
      }
    }
  }

  /** A study found by UID belongs to the application's archive, and its
      key is the single hit of the `uid:` query. */
  lemma GetStudyByUIDFound(app: App, fs: FS, uid: string)
    requires GetStudyByUID(Some(app), fs, uid).Found?
    ensures var r := GetStudyByUID(Some(app), fs, uid).ref;
            r.vol.db == app.db && app.search(UidQuery(uid)) == Ok([GetKey(r)])
  {
    var hits := app.search(UidQuery(uid)).value;
    KeyGetRoundTrip(hits[0], fs, app.db);
    assert hits == [hits[0]];
  }
}
