/** The WADO-URI endpoint (the URI service of DICOM PS3.18, chapter 9):
    one instance of a study, as its DICOM file or as its thumbnail image.

    The handler checks its query parameters, resolves the study by UID,
    loads its descriptor and serves the file of the first instance, in
    series-then-instance order, whose series and instance UIDs match. */
module ApiWado {

  import opened Wrappers
  import opened GoStrings
  import opened FileSystem
  import opened Fsdb
  import opened ApiUtils
  import Models

  const DicomType := "application/dicom"
  const JpegType := "image/jpeg"

  // ---------------------------------------------------------------------
  // Parameters

  /** The content type is one the handler serves: unset, DICOM or JPEG. */
  predicate Acceptable(contentType: string)
  {
    contentType == "" || contentType == DicomType || contentType == JpegType
  }

  /** The parameter checks of `WadoEndpoint`: the status of a request refused before any lookup, in
      the order of the checks: an unknown content type, then a missing
      UID, then a request type other than `WADO`. */
  function Refusal(query: map<string, string>): (r: Option<int>)
    ensures r.None? <==>
              Acceptable(Query(query, "contentType"))
              && Query(query, "studyUID") != "" && Query(query, "seriesUID") != ""
              && Query(query, "objectUID") != "" && Query(query, "requestType") == "WADO"
    ensures !Acceptable(Query(query, "contentType")) ==> r == Some(406)
    ensures Acceptable(Query(query, "contentType")) ==> r.None? || r == Some(400)
  {
    var contentType := Query(query, "contentType");
    if contentType != "" && (contentType != DicomType && contentType != JpegType) then Some(406)
    else if Query(query, "studyUID") == "" || Query(query, "seriesUID") == "" || Query(query, "objectUID") == ""
    then Some(400)
    else if Query(query, "requestType") != "WADO" then Some(400)
    else None
  }

  // ---------------------------------------------------------------------
  // The instance lookup

  /** The first instance of `insts` with UID `objectUid`. */
  function FirstIn(insts: seq<Models.Instance>, objectUid: string): Option<Models.Instance>
    decreases |insts|
  {
    if insts == [] then None
    else if insts[0].uid == objectUid then Some(insts[0])
    else FirstIn(insts[1..], objectUid)
  }

  /** The first instance with UID `objectUid` of the first series with UID
      `seriesUid` that holds one. */
  function FirstMatch(series: seq<Models.Series>, seriesUid: string, objectUid: string): Option<Models.Instance>
    decreases |series|
  {
    if series == [] then None
    else if series[0].uid == seriesUid && FirstIn(series[0].instances, objectUid).Some? then
      FirstIn(series[0].instances, objectUid)
    else FirstMatch(series[1..], seriesUid, objectUid)
  }

  /** Instance `j` of series `i` matches both UIDs. */
  predicate MatchAt(series: seq<Models.Series>, seriesUid: string, objectUid: string, i: int, j: int)
  {
    0 <= i < |series| && 0 <= j < |series[i].instances|
    && series[i].uid == seriesUid && series[i].instances[j].uid == objectUid
  }

  /** `FirstIn` finds an instance with the UID exactly when there is one,
      and then the first. */
  lemma {:induction false} FirstInSpec(insts: seq<Models.Instance>, objectUid: string)
    ensures FirstIn(insts, objectUid).None? <==> forall j :: 0 <= j < |insts| ==> insts[j].uid != objectUid
    ensures FirstIn(insts, objectUid).Some? ==>
              exists j :: 0 <= j < |insts| && insts[j] == FirstIn(insts, objectUid).value
                          && insts[j].uid == objectUid
                          && forall j' :: 0 <= j' < j ==> insts[j'].uid != objectUid
    decreases |insts|
  {
    if insts != [] && insts[0].uid != objectUid {
      var t := insts[1..];
      FirstInSpec(t, objectUid);
      if FirstIn(t, objectUid).Some? {
        var j :| 0 <= j < |t| && t[j] == FirstIn(t, objectUid).value && t[j].uid == objectUid
                 && forall j' :: 0 <= j' < j ==> t[j'].uid != objectUid;
        assert insts[j + 1] == t[j];
        forall j' | 0 <= j' < j + 1
          ensures insts[j'].uid != objectUid
        {
          if j' > 0 {
            assert insts[j'] == t[j' - 1];
          }
        }
      } else {
        forall j | 0 <= j < |insts|
          ensures insts[j].uid != objectUid
        {
          if j > 0 {
            assert insts[j] == t[j - 1];
          }
        }
      }
    }
  }

  /** The lookup finds nothing exactly when no instance matches both UIDs;
      otherwise it finds the match that comes first in series-then-instance
      order. */
  lemma {:induction false} FirstMatchSpec(series: seq<Models.Series>, seriesUid: string, objectUid: string)
    ensures FirstMatch(series, seriesUid, objectUid).None? <==>
              forall i, j :: !MatchAt(series, seriesUid, objectUid, i, j)
    ensures FirstMatch(series, seriesUid, objectUid).Some? ==>
              exists i, j :: MatchAt(series, seriesUid, objectUid, i, j)
                             && series[i].instances[j] == FirstMatch(series, seriesUid, objectUid).value
                             && (forall i', j' :: 0 <= i' < i ==> !MatchAt(series, seriesUid, objectUid, i', j'))
                             && (forall j' :: 0 <= j' < j ==> !MatchAt(series, seriesUid, objectUid, i, j'))
    decreases |series|
  {
    if series != [] {
      var s0 := series[0];
      FirstInSpec(s0.instances, objectUid);
      if s0.uid == seriesUid && FirstIn(s0.instances, objectUid).Some? {
        var j :| 0 <= j < |s0.instances| && s0.instances[j] == FirstIn(s0.instances, objectUid).value
                 && s0.instances[j].uid == objectUid
                 && forall j' :: 0 <= j' < j ==> s0.instances[j'].uid != objectUid;
        assert MatchAt(series, seriesUid, objectUid, 0, j);
      } else {
        var t := series[1..];
        FirstMatchSpec(t, seriesUid, objectUid);
        assert forall j :: !MatchAt(series, seriesUid, objectUid, 0, j);
        assert forall i, j :: 0 < i ==> (MatchAt(series, seriesUid, objectUid, i, j) <==>
                                          MatchAt(t, seriesUid, objectUid, i - 1, j));
        if FirstMatch(t, seriesUid, objectUid).Some? {
          var i, j :| MatchAt(t, seriesUid, objectUid, i, j)
                      && t[i].instances[j] == FirstMatch(t, seriesUid, objectUid).value
                      && (forall i', j' :: 0 <= i' < i ==> !MatchAt(t, seriesUid, objectUid, i', j'))
                      && (forall j' :: 0 <= j' < j ==> !MatchAt(t, seriesUid, objectUid, i, j'));
          assert MatchAt(series, seriesUid, objectUid, i + 1, j);
          assert series[i + 1] == t[i];
        } else {
          forall i, j
            ensures !MatchAt(series, seriesUid, objectUid, i, j)
          {
            if i > 0 {
              assert !MatchAt(t, seriesUid, objectUid, i - 1, j);
            }
          }
        }
      }
    }
  }

  /** The two nested `for` loops of `WadoEndpoint`: the nested search over the series and their
      instances, which stops at the first match. */
  method FindInstance(series: seq<Models.Series>, seriesUid: string, objectUid: string)
    returns (r: Option<Models.Instance>)
    ensures r == FirstMatch(series, seriesUid, objectUid)
  {
    var i := 0;
    while i < |series|
      invariant 0 <= i <= |series|
      invariant FirstMatch(series, seriesUid, objectUid) == FirstMatch(series[i..], seriesUid, objectUid)
      decreases |series| - i
    {
      var ser := series[i];
      assert series[i..][1..] == series[i + 1..];
      if ser.uid == seriesUid {
        var j := 0;
        while j < |ser.instances|
          invariant 0 <= j <= |ser.instances|
          invariant FirstIn(ser.instances, objectUid) == FirstIn(ser.instances[j..], objectUid)
          decreases |ser.instances| - j
        {
          assert ser.instances[j..][1..] == ser.instances[j + 1..];
          if ser.instances[j].uid == objectUid {
            return Some(ser.instances[j]);
          }
          j := j + 1;
        }
      }
      i := i + 1;
    }
    return None;
  }

  // ---------------------------------------------------------------------
  // The served path

  /** The two `strings.Replace` calls of `WadoEndpoint`: the thumbnail of an instance sits beside its DICOM file,
      with `S128_` for the first `I_` and `.jpg` for the first `.dcm`. */
  function ThumbnailPath(p: string): string
  {
    ReplaceFirst(ReplaceFirst(p, "I_", "S128_"), ".dcm", ".jpg")
  }

  /** The `contentType == "image/jpeg"` branch of `WadoEndpoint`: the thumbnail for `image/jpeg`, the DICOM file itself
      otherwise, rewritten under the archive root by `RealPath`. */
  function ServedPath(r: StudyRef, contentType: string, dicomPath: string): string
  {
    if contentType == JpegType then r.RealPath(ThumbnailPath(dicomPath)) else r.RealPath(dicomPath)
  }

  /** The first occurrence of `t` in `s` is at `i`. */
  lemma FindFirst(s: string, t: string, i: nat)
    requires OccursAt(s, t, i) && forall k :: 0 <= k < i ==> !OccursAt(s, t, k)
    ensures Find(s, t) == Some(i)
  {
  }

  /** A decimal digit. */
  predicate IsDigit(c: char)
  {
    '0' <= c <= '9'
  }

  /** The DICOM file `I_<n>.dcm`, with `n` a decimal number, in a directory
      whose path holds neither `I_` nor `.dcm`, has the thumbnail
      `S128_<n>.jpg` in the same directory. */
  lemma ThumbnailOfImage(dir: string, n: string)
    requires forall k :: !OccursAt(dir, "I_", k)
    requires forall k :: !OccursAt(dir, ".dcm", k)
    requires forall k :: 0 <= k < |n| ==> IsDigit(n[k])
    ensures ThumbnailPath(dir + "I_" + n + ".dcm") == dir + "S128_" + n + ".jpg"
  {
    ReplaceImagePrefix(dir, n);
    ReplaceDicomSuffix(dir, n);
  }

  /** The first `I_` of `<dir>I_<n>.dcm` is the one before `n`. */
  lemma ReplaceImagePrefix(dir: string, n: string)
    requires forall k :: !OccursAt(dir, "I_", k)
    ensures ReplaceFirst(dir + "I_" + n + ".dcm", "I_", "S128_") == dir + "S128_" + n + ".dcm"
  {
    var p := dir + "I_" + n + ".dcm";
    assert p[|dir|..|dir| + 2] == "I_";
    forall k | 0 <= k < |dir|
      ensures !OccursAt(p, "I_", k)
    {
      if k + 2 <= |dir| {
        assert p[k..k + 2] == dir[k..k + 2];
        assert !OccursAt(dir, "I_", k);
      } else {
        assert p[k..k + 2][1] == p[k + 1] == 'I';
      }
    }
    FindFirst(p, "I_", |dir|);
    assert p[..|dir|] == dir && p[|dir| + 2..] == n + ".dcm";
  }

  /** The first `.dcm` of `<dir>S128_<n>.dcm` is the extension, when `dir`
      holds none and `n` is digits. */
  lemma ReplaceDicomSuffix(dir: string, n: string)
    requires forall k :: !OccursAt(dir, ".dcm", k)
    requires forall k :: 0 <= k < |n| ==> IsDigit(n[k])
    ensures ReplaceFirst(dir + "S128_" + n + ".dcm", ".dcm", ".jpg") == dir + "S128_" + n + ".jpg"
  {
    var q := dir + "S128_" + n + ".dcm";
    var e := |dir| + 5 + |n|;
    assert q[e..e + 4] == ".dcm";
    forall k | 0 <= k < e
      ensures !OccursAt(q, ".dcm", k)
    {
      if k + 4 <= |dir| {
        assert q[k..k + 4] == dir[k..k + 4];
        assert !OccursAt(dir, ".dcm", k);
      } else if k < |dir| {
        assert q[k..k + 4][3] == q[k + 3] == "S128_"[k + 3 - |dir|];
        assert "S128_"[k + 3 - |dir|] in "S128_";
      } else if k < |dir| + 5 {
        assert q[k..k + 4][0] == q[k] == "S128_"[k - |dir|];
        assert "S128_"[k - |dir|] in "S128_";
      } else {
        assert q[k..k + 4][0] == q[k] == n[k - |dir| - 5];
        assert IsDigit(q[k]);
      }
    }
    FindFirst(q, ".dcm", e);
    assert q[..e] + ".jpg" + q[e + 4..] == dir + "S128_" + n + ".jpg";
  }

  /** A string without the first character of `t` holds no `t`. */
  lemma AbsentHead(s: string, t: string)
    requires t != [] && t[0] !in s
    ensures forall k :: !OccursAt(s, t, k)
  {
    forall k | 0 <= k && k + |t| <= |s|
      ensures !OccursAt(s, t, k)
    {
      assert s[k..k + |t|][0] == s[k];
      assert s[k] in s;
    }
  }

  /** A DICOM path without `I_` and `.dcm` has itself as its thumbnail. */
  lemma ThumbnailOfOther(p: string)
    requires forall k :: !OccursAt(p, "I_", k)
    requires forall k :: !OccursAt(p, ".dcm", k)
    ensures ThumbnailPath(p) == p
  {
    ReplaceFirstSpec(p, "I_", "S128_");
    ReplaceFirstSpec(p, ".dcm", ".jpg");
  }

  /** A path DX-R records under its archive prefix is served from the
      same place under the archive root. */
  lemma ArchiveRealPath(r: StudyRef, rest: string)
    ensures r.RealPath(ArchivePrefix + rest) == JoinPath(r.vol.db.rootPath, rest)
  {
    var p := ArchivePrefix + rest;
    assert p[..|ArchivePrefix|] == ArchivePrefix;
    assert p[|ArchivePrefix|..] == rest;
    assert ToLower(ArchivePrefix) == ArchivePrefix;
    RealPathSpec(r, p);
  }

  /** The JPEG of the DICOM file `I_<n>.dcm` that DX-R records in the
      directory `sub` of its archive prefix is `S128_<n>.jpg` in the same
      directory under the archive root; `sub` holds no `I` and no `.`, as
      DX-R's `VOL<n>/<n>_<suffix>/` directories do not. */
  lemma ServedThumbnail(r: StudyRef, sub: string, n: string)
    requires 'I' !in sub && '.' !in sub
    requires forall k :: 0 <= k < |n| ==> IsDigit(n[k])
    ensures ServedPath(r, JpegType, ArchivePrefix + sub + "I_" + n + ".dcm")
            == JoinPath(r.vol.db.rootPath, sub + "S128_" + n + ".jpg")
  {
    var dir := ArchivePrefix + sub;
    assert 'I' !in ArchivePrefix && '.' !in ArchivePrefix;
    assert 'I' !in dir && '.' !in dir;
    AbsentHead(dir, "I_");
    AbsentHead(dir, ".dcm");
    ThumbnailOfImage(dir, n);
    assert dir + "S128_" + n + ".jpg" == ArchivePrefix + (sub + "S128_" + n + ".jpg");
    ArchiveRealPath(r, sub + "S128_" + n + ".jpg");
  }

  /** The DICOM file itself, unset or asked for by type, is served from
      the archive root. */
  lemma ServedDicom(r: StudyRef, contentType: string, rest: string)
    requires contentType == "" || contentType == DicomType
    ensures ServedPath(r, contentType, ArchivePrefix + rest) == JoinPath(r.vol.db.rootPath, rest)
  {
    ArchiveRealPath(r, rest);
  }

  /** DX-R records `/dicompacs/orconsoledb/VOL00001/1_x/I_000123.dcm`; as
      JPEG the handler serves `S128_000123.jpg` beside it under the archive
      root. */
  lemma ServedPathExample(r: StudyRef)
    ensures ServedPath(r, JpegType, ArchivePrefix + "VOL00001/1_x/" + "I_" + "000123" + ".dcm")
            == JoinPath(r.vol.db.rootPath, "VOL00001/1_x/" + "S128_" + "000123" + ".jpg")
  {
    assert 'I' !in "VOL00001/1_x/" && '.' !in "VOL00001/1_x/";
    ServedThumbnail(r, "VOL00001/1_x/", "000123");
  }

  // ---------------------------------------------------------------------
  // The handler

  /** What the handler answers once the lookup is done: a failed lookup
      with the status it wrote (nothing when it wrote none); a descriptor
      that does not load with status 0, passed to the server's abort helper
      as written; a study with no matching instance with 404; and otherwise
      the file at the served path of the first matching instance. */
  function Answer(fs: FS, query: map<string, string>, std: Lookup): Response<()>
  {
    if std.Failed? then (if std.status.Some? then Status(std.status.value) else NoResponse)
    else if std.ref.DescriptorPath() !in fs.descriptors then Status(0)
    else
      var series := fs.descriptors[std.ref.DescriptorPath()].patient.visit.study.series;
      var inst := FirstMatch(series, Query(query, "seriesUID"), Query(query, "objectUID"));
      if inst.None? then Status(404)
      else File(ServedPath(std.ref, Query(query, "contentType"), inst.value.data.dicomPath))
  }

  /** `WadoEndpoint` after the lookup `std`: load the descriptor into a
      study handle and search it. */
  method Serve(fs: FS, query: map<string, string>, std: Lookup) returns (r: Response<()>)
    ensures r == Answer(fs, query, std)
  {
    if std.Failed? {
      return if std.status.Some? then Status(std.status.value) else NoResponse;
    }
    var s := new Study(std.ref);
    var err := s.Load(fs);
    if err.Some? {
      return Status(0);
    }
    var (model, _) := s.Model();
    var inst := FindInstance(model.patient.visit.study.series, Query(query, "seriesUID"),
                             Query(query, "objectUID"));
    if inst.None? {
      return Status(404);
    }
    return File(ServedPath(s.ref, Query(query, "contentType"), inst.value.data.dicomPath));
  }

  /** `WadoEndpoint`: a refused request is answered with its status before
      any lookup; otherwise the study is looked up by its UID and served. */
  method Wado(app: Option<App>, fs: FS, query: map<string, string>) returns (r: Response<()>)
    ensures Refusal(query).Some? ==> r == Status(Refusal(query).value)
    ensures Refusal(query).None? ==> r == Answer(fs, query, GetStudyByUID(app, fs, Query(query, "studyUID")))
  {
    var refusal := Refusal(query);
    if refusal.Some? {
      return Status(refusal.value);
    }
    var std := GetStudyByUID(app, fs, Query(query, "studyUID"));
    r := Serve(fs, query, std);
  }

  /** A served file is that of an instance matching both UIDs, and no
      instance earlier in series-then-instance order matches; 404 means no
      instance of the loaded descriptor matches. */
  lemma AnswerFile(fs: FS, query: map<string, string>, std: Lookup)
    requires std.Found? && std.ref.DescriptorPath() in fs.descriptors
    ensures var series := fs.descriptors[std.ref.DescriptorPath()].patient.visit.study.series;
            var su := Query(query, "seriesUID");
            var ou := Query(query, "objectUID");
            var r := Answer(fs, query, std);
            (r == Status(404) <==> forall i, j :: !MatchAt(series, su, ou, i, j))
            && (r.File? ==>
                  exists i, j :: MatchAt(series, su, ou, i, j)
                                 && r.path == ServedPath(std.ref, Query(query, "contentType"),
                                                         series[i].instances[j].data.dicomPath)
                                 && (forall i', j' :: 0 <= i' < i ==> !MatchAt(series, su, ou, i', j'))
                                 && (forall j' :: 0 <= j' < j ==> !MatchAt(series, su, ou, i, j')))
  {
    var series := fs.descriptors[std.ref.DescriptorPath()].patient.visit.study.series;
    FirstMatchSpec(series, Query(query, "seriesUID"), Query(query, "objectUID"));
  }
}
