/** The study list endpoint: one page of studies, newest first, by
    `limit` and `offset`.

    The handler flattens the archive volume by volume, both the volumes
    and the studies of each in decreasing name order, counts every study it
    passes and opens only those whose position falls in the page. The page
    is a slice of `limit` slots made before the walk; a slot the walk never
    writes stays empty (`None`, JSON `null`). */
module ApiList {

  import opened Wrappers
  import opened GoStrings
  import opened GoStrconv
  import opened FileSystem
  import opened Fsdb
  import opened ApiUtils
  import opened GoSort
  import Scanner
  import opened Ohif

  // ---------------------------------------------------------------------
  // The newest-first flattening

  /** A volume the walk can pass through: it opens and its studies list. */
  predicate VolumeGood(fs: FS, d: Db, name: string)
  {
    OpenVolumeByName(fs, d, name).Ok? && StudiesOf(fs, Volume(d, name)).Ok?
  }

  /** The studies of one volume in the order the walk visits them; a volume
      that does not open or list has none. */
  function VolumeRefs(fs: FS, d: Db, name: string): seq<StudyRef>
  {
    if VolumeGood(fs, d, name) then
      Scanner.RefsOf(Volume(d, name), ReverseSorted(StudiesOf(fs, Volume(d, name)).value))
    else []
  }

  /** The studies of the volumes `vols`, volume after volume. */
  function Listing(fs: FS, d: Db, vols: seq<string>): seq<StudyRef>
    decreases |vols|
  {
    if vols == [] then []
    else Listing(fs, d, vols[..|vols| - 1]) + VolumeRefs(fs, d, vols[|vols| - 1])
  }

  /** The viewer JSON of a listed study (without DICOM tags), when the study
      opens and its descriptor reads. */
  function View(fs: FS, url: UrlFactory, r: StudyRef): Option<StudyJson>
  {
    if OpenStudyByName(fs, r.vol, r.name).Ok? && r.DescriptorPath() in fs.descriptors then
      Some(Project(Env(r, url, false, map[]), fs.descriptors[r.DescriptorPath()]))
    else None
  }

  /** Slot `j` of the page of `all` that starts at `offset`. */
  function Slot(fs: FS, url: UrlFactory, all: seq<StudyRef>, offset: int, j: int): Option<StudyJson>
  {
    if 0 <= offset + j < |all| then View(fs, url, all[offset + j]) else None
  }

  /** The walk opens volume `k`: the first one always, a later one only
      while the studies before it end before the page does. */
  predicate Reached(fs: FS, d: Db, vols: seq<string>, k: nat, offset: int, limit: int)
    requires k <= |vols|
  {
    k == 0 || |Listing(fs, d, vols[..k])| < offset + limit
  }

  /** The walk meets an error: a volume it opens fails to open or to list,
      or a study of the page fails to open or to load. */
  predicate Broken(fs: FS, d: Db, vols: seq<string>, offset: int, limit: int, url: UrlFactory)
  {
    (exists k :: 0 <= k < |vols| && Reached(fs, d, vols, k, offset, limit) && !VolumeGood(fs, d, vols[k]))
    || (exists idx :: 0 <= idx < |Listing(fs, d, vols)| && offset <= idx < offset + limit
                      && View(fs, url, Listing(fs, d, vols)[idx]).None?)
  }

  /** Adding a volume appends its studies. */
  lemma ListingStep(fs: FS, d: Db, vols: seq<string>, k: nat)
    requires k < |vols|
    ensures Listing(fs, d, vols[..k + 1]) == Listing(fs, d, vols[..k]) + VolumeRefs(fs, d, vols[k])
  {
    assert vols[..k + 1][..k] == vols[..k];
  }

  /** A volume that opens is a directory, so its studies always list:
      the filesystem model has no listing that fails on a directory. */
  lemma OpenedVolumeLists(fs: FS, d: Db, name: string)
    requires OpenVolumeByName(fs, d, name).Ok?
    ensures VolumeGood(fs, d, name)
  {
  }

  /** The studies of fewer volumes are a prefix of those of more. */
  lemma {:induction false} ListingPrefix(fs: FS, d: Db, vols: seq<string>, a: nat, b: nat)
    requires a <= b <= |vols|
    ensures var la := Listing(fs, d, vols[..a]);
            var lb := Listing(fs, d, vols[..b]);
            |la| <= |lb| && lb[..|la|] == la
    decreases b - a
  {
    if a < b {
      ListingPrefix(fs, d, vols, a, b - 1);
      ListingStep(fs, d, vols, b - 1);
      var la := Listing(fs, d, vols[..a]);
      var mid := Listing(fs, d, vols[..b - 1]);
      var lb := Listing(fs, d, vols[..b]);
      assert lb == mid + VolumeRefs(fs, d, vols[b - 1]);
      assert |la| <= |mid| <= |lb| && lb[..|mid|] == mid;
      assert lb[..|la|] == mid[..|la|] == la;
    }
  }

  /** The `j`-th handle of `RefsOf` is that of the `j`-th name. */
  lemma {:induction false} RefsAt(v: Volume, names: seq<string>, j: nat)
    requires j < |names|
    ensures Scanner.RefsOf(v, names)[j] == StudyRef(v, names[j])
    decreases j
  {
    if j > 0 {
      RefsAt(v, names[1..], j - 1);
    }
  }

  // ---------------------------------------------------------------------
  // The walk

  /** How the walk ended: the page is full, the walk ran past the last
      volume, or an error was met. */
  datatype Fill = PageFull | PastLastVolume | WalkFailed

  /** In `ListStudiesEndpoint`, the body of the study loop: open the study `name` of volume `v`, load its
      descriptor and project it without DICOM tags; `None` when either
      step fails. */
  method VisitStudy(fs: FS, url: UrlFactory, v: Volume, name: string) returns (m: Option<StudyJson>)
    ensures m == View(fs, url, StudyRef(v, name))
  {
    var st := OpenStudyByName(fs, v, name);
    if st.Err? {
      return None;
    }
    var s := new Study(st.value);
    var j := JSONFromDXR(fs, s, url, false, map[]);
    if j.Err? {
      return None;
    }
    return Some(j.value);
  }

  /** The inner `for` loop of `ListStudiesEndpoint` over the sorted study
      names `names` of volume `v`, whose studies sit in the flattening
      `all` from position `start` on. Studies before the page are counted
      only; a study of the page is opened, projected and written to its
      slot. The loop stops when the page is full, when the names run out,
      or at the first study that fails, which is reported with its
      position. */
  method WalkVolume(fs: FS, url: UrlFactory, v: Volume, names: seq<string>, ghost all: seq<StudyRef>,
                    start: nat, offset: int, limit: nat, result: array<Option<StudyJson>>)
    returns (i: nat, full: bool, failed: bool)
    requires result.Length == limit && start + |names| <= |all|
    requires forall k :: 0 <= k < |names| ==> all[start + k] == StudyRef(v, names[k])
    requires forall idx :: 0 <= idx < start && offset <= idx ==> View(fs, url, all[idx]).Some?
    requires forall j :: 0 <= j < limit ==>
               result[j] == (if 0 <= offset + j < start then View(fs, url, all[offset + j]) else None)
    modifies result
    ensures start <= i <= start + |names|
    ensures failed ==> offset <= i < offset + limit && i < start + |names| && View(fs, url, all[i]).None?
    ensures !failed ==> forall idx :: 0 <= idx < i && offset <= idx ==> View(fs, url, all[idx]).Some?
    ensures !failed ==> forall j :: 0 <= j < limit ==>
                          result[j] == (if 0 <= offset + j < i then View(fs, url, all[offset + j]) else None)
    ensures !failed && full ==> offset + limit <= i
    ensures !failed && !full ==> i == start + |names| && i < offset + limit
  {
    var styIdx := 0;
    i := start;
    while true
      invariant 0 <= styIdx <= |names| && i == start + styIdx
      invariant forall idx :: 0 <= idx < i && offset <= idx ==> View(fs, url, all[idx]).Some?
      invariant forall j :: 0 <= j < limit ==>
                  result[j] == (if 0 <= offset + j < i then View(fs, url, all[offset + j]) else None)
      decreases |names| - styIdx
    {
      if i - offset >= limit {
        return i, true, false;
      }
      if styIdx >= |names| {
        return i, false, false;
      }
      assert all[i] == StudyRef(v, names[styIdx]);
      if i - offset >= 0 {
        var m := VisitStudy(fs, url, v, names[styIdx]);
        if m.None? {
          return i, false, true;
        }
        result[i - offset] := m;
      }
      forall idx | 0 <= idx < i + 1 && offset <= idx
        ensures View(fs, url, all[idx]).Some?
      {
        if idx == i {
          assert result[i - offset] == View(fs, url, all[i]);
        }
      }
      styIdx := styIdx + 1;
      i := i + 1;
    }
  }

  /** One round of the labelled outer loop `L` of `ListStudiesEndpoint` on the opened volume
      `vols[k]`, whose studies start at position `start` of the
      flattening `all`: list and sort its studies and walk them. A failure
      is that of the listing or of the study at the position returned. */
  method VisitVolume(fs: FS, d: Db, vols: seq<string>, k: nat, v: Volume, ghost all: seq<StudyRef>,
                     start: nat, offset: int, limit: nat, url: UrlFactory, result: array<Option<StudyJson>>)
    returns (i: nat, full: bool, failed: bool)
    requires k < |vols| && v == Volume(d, vols[k]) && OpenVolumeByName(fs, d, vols[k]).Ok?
    requires all == Listing(fs, d, vols) && start == |Listing(fs, d, vols[..k])| <= |all|
    requires result.Length == limit
    requires forall idx :: 0 <= idx < start && offset <= idx ==> View(fs, url, all[idx]).Some?
    requires forall j :: 0 <= j < limit ==>
               result[j] == (if 0 <= offset + j < start then View(fs, url, all[offset + j]) else None)
    modifies result
    ensures VolumeGood(fs, d, vols[k])
    ensures failed ==> offset <= i < offset + limit && i < |all| && View(fs, url, all[i]).None?
    ensures !failed ==> i <= |Listing(fs, d, vols[..k + 1])| <= |all|
    ensures !failed ==> forall idx :: 0 <= idx < i && offset <= idx ==> View(fs, url, all[idx]).Some?
    ensures !failed ==> forall j :: 0 <= j < limit ==>
                          result[j] == (if 0 <= offset + j < i then View(fs, url, all[offset + j]) else None)
    ensures !failed && full ==> offset + limit <= i
    ensures !failed && !full ==> i == |Listing(fs, d, vols[..k + 1])| < offset + limit
  {
    OpenedVolumeLists(fs, d, vols[k]);
    var studies := Studies(fs, v);
    if studies.Err? {
      return start, false, true;
    }
    var names := ReverseSorted(studies.value);
    VolumeSlice(fs, d, vols, k, v, names, all, start);
    i, full, failed := WalkVolume(fs, url, v, names, all, start, offset, limit, result);
  }

  /** The walk has passed the first `k` volumes, which all opened and
      listed, counting `i` studies; every study of the page among them
      opened, and `page` holds those and is empty after them. */
  predicate Walked(fs: FS, d: Db, vols: seq<string>, offset: int, limit: int, url: UrlFactory,
                   all: seq<StudyRef>, k: nat, i: nat, page: seq<Option<StudyJson>>)
  {
    k <= |vols| && all == Listing(fs, d, vols) && i == |Listing(fs, d, vols[..k])| <= |all|
    && (forall k' :: 0 <= k' < k ==> VolumeGood(fs, d, vols[k']))
    && (forall idx :: 0 <= idx < i && offset <= idx ==> View(fs, url, all[idx]).Some?)
    && |page| == limit
    && forall j :: 0 <= j < limit ==> page[j] == (if 0 <= offset + j < i then View(fs, url, all[offset + j]) else None)
  }

  /** `page` is the page of `all` that starts at `offset`. */
  predicate IsPage(fs: FS, url: UrlFactory, all: seq<StudyRef>, offset: int, limit: nat, page: seq<Option<StudyJson>>)
  {
    |page| == limit && forall j :: 0 <= j < limit ==> page[j] == Slot(fs, url, all, offset, j)
  }

  /** A page written up to position `i` is the whole page once `i` is past
      its end or at the end of the flattening. */
  lemma PageWritten(fs: FS, url: UrlFactory, all: seq<StudyRef>, offset: int, limit: nat, i: nat,
                    page: seq<Option<StudyJson>>)
    requires i <= |all| && (offset + limit <= i || i == |all|)
    requires |page| == limit
    requires forall j :: 0 <= j < limit ==> page[j] == (if 0 <= offset + j < i then View(fs, url, all[offset + j]) else None)
    ensures IsPage(fs, url, all, offset, limit, page)
  {
  }

  /** One round of the outer loop on the opened volume `vols[k]`, up to
      the `volIdx+1 > len(volumes)` guard: the walk fails, fills its page, or has passed
      that volume with room left on the page. */
  method Round(fs: FS, d: Db, vols: seq<string>, k: nat, v: Volume, ghost all: seq<StudyRef>,
               start: nat, offset: int, limit: nat, url: UrlFactory, result: array<Option<StudyJson>>)
    returns (i: nat, o: Option<Fill>)
    requires k < |vols| && v == Volume(d, vols[k]) && OpenVolumeByName(fs, d, vols[k]).Ok?
    requires Walked(fs, d, vols, offset, limit, url, all, k, start, result[..])
    modifies result
    ensures o == Some(WalkFailed) ==> Broken(fs, d, vols, offset, limit, url)
    ensures o == Some(PageFull) ==>
              !Broken(fs, d, vols, offset, limit, url) && offset + limit <= |all|
              && IsPage(fs, url, all, offset, limit, result[..])
    ensures o != Some(PastLastVolume)
    ensures o.None? ==> Walked(fs, d, vols, offset, limit, url, all, k + 1, i, result[..]) && i < offset + limit
  {
    var full, failed;
    i, full, failed := VisitVolume(fs, d, vols, k, v, all, start, offset, limit, url, result);
    if failed {
      BrokenByStudy(fs, d, vols, offset, limit, url, i);
      return i, Some(WalkFailed);
    }
    if full {
      NotBrokenFull(fs, d, vols, offset, limit, url, k, i);
      PageWritten(fs, url, all, offset, limit, i, result[..]);
      return i, Some(PageFull);
    }
    assert forall k' :: 0 <= k' < k + 1 ==> VolumeGood(fs, d, vols[k']);
    o := None;
  }

  /** The `volIdx++` and `OpenVolumeByName(volumes[volIdx])` that end a round: move to volume `k` once the walk has passed the
      volumes before it with room left on the page. Past the last volume
      the handler indexes the volume list at its length. */
  method Advance(fs: FS, d: Db, vols: seq<string>, k: nat, ghost all: seq<StudyRef>, i: nat,
                 offset: int, limit: nat, url: UrlFactory, ghost page: seq<Option<StudyJson>>)
    returns (v: Volume, o: Option<Fill>)
    requires 0 < k && Walked(fs, d, vols, offset, limit, url, all, k, i, page) && i < offset + limit
    ensures o.None? ==>
              k < |vols| && v == Volume(d, vols[k]) && OpenVolumeByName(fs, d, vols[k]).Ok?
              && Reached(fs, d, vols, k, offset, limit)
    ensures o == Some(WalkFailed) ==> Broken(fs, d, vols, offset, limit, url)
    ensures o == Some(PastLastVolume) ==>
              !Broken(fs, d, vols, offset, limit, url) && |all| < offset + limit
              && IsPage(fs, url, all, offset, limit, page)
    ensures o != Some(PageFull)
  {
    if k == |vols| {
      assert vols[..|vols|] == vols;
      NotBrokenPast(fs, d, vols, offset, limit, url);
      PageWritten(fs, url, all, offset, limit, i, page);
      return Volume(d, ""), Some(PastLastVolume);
    }
    var vol := OpenVolumeByName(fs, d, vols[k]);
    if vol.Err? {
      BrokenByVolume(fs, d, vols, offset, limit, url, k);
      return Volume(d, ""), Some(WalkFailed);
    }
    return vol.value, None;
  }

  /** `ListStudiesEndpoint` from `make` to the end of loop `L`: make the page, open the first volume
      and walk. The guard that should end the walk after the last volume
      never holds, so the walk carries on past it and reports
      `PastLastVolume` where the handler indexes the volume list at its
      length. The walk fails exactly when it is `Broken`; otherwise slot
      `j` holds the study at position `offset + j` of the flattening, and
      the page is full exactly when the archive holds at least
      `offset + limit` studies. */
  method FillPage(fs: FS, d: Db, vols: seq<string>, offset: int, limit: nat, url: UrlFactory)
    returns (o: Fill, page: seq<Option<StudyJson>>)
    requires vols != []
    ensures o == WalkFailed <==> Broken(fs, d, vols, offset, limit, url)
    ensures o != WalkFailed ==> IsPage(fs, url, Listing(fs, d, vols), offset, limit, page)
    ensures o == PageFull ==> offset + limit <= |Listing(fs, d, vols)|
    ensures o == PastLastVolume ==> |Listing(fs, d, vols)| < offset + limit
  {
    var result := new Option<StudyJson>[limit](_ => None);
    ghost var all := Listing(fs, d, vols);
    var volIdx := 0;
    var vol := OpenVolumeByName(fs, d, vols[volIdx]);
    if vol.Err? {
      BrokenByVolume(fs, d, vols, offset, limit, url, 0);
      return WalkFailed, [];
    }
    var v := vol.value;
    var i := 0;
    assert vols[..0] == [];
    while true
      invariant volIdx < |vols| && v == Volume(d, vols[volIdx]) && OpenVolumeByName(fs, d, vols[volIdx]).Ok?
      invariant Reached(fs, d, vols, volIdx, offset, limit)
      invariant Walked(fs, d, vols, offset, limit, url, all, volIdx, i, result[..])
      decreases |vols| - volIdx
    {
      var done;
      i, done := Round(fs, d, vols, volIdx, v, all, i, offset, limit, url, result);
      if done.Some? {
        return done.value, result[..];
      }
      // the `volIdx+1 > len(volumes)` guard, which never holds
      if volIdx + 1 > |vols| {
        break;
      }
      volIdx := volIdx + 1;
      v, done := Advance(fs, d, vols, volIdx, all, i, offset, limit, url, result[..]);
      if done.Some? {
        return done.value, result[..];
      }
    }
  }

  /** A volume the walk opens and that fails breaks the walk. */
  lemma BrokenByVolume(fs: FS, d: Db, vols: seq<string>, offset: int, limit: int, url: UrlFactory, k: nat)
    requires k < |vols| && Reached(fs, d, vols, k, offset, limit) && !VolumeGood(fs, d, vols[k])
    ensures Broken(fs, d, vols, offset, limit, url)
  {
  }

  /** A study of the page that fails breaks the walk. */
  lemma BrokenByStudy(fs: FS, d: Db, vols: seq<string>, offset: int, limit: int, url: UrlFactory, idx: nat)
    requires idx < |Listing(fs, d, vols)| && offset <= idx < offset + limit
    requires View(fs, url, Listing(fs, d, vols)[idx]).None?
    ensures Broken(fs, d, vols, offset, limit, url)
  {
  }

  /** A walk that fills its page at volume `last`, having met no error,
      is not broken: the volumes after `last` are never opened. */
  lemma NotBrokenFull(fs: FS, d: Db, vols: seq<string>, offset: int, limit: int, url: UrlFactory,
                      last: nat, i: int)
    requires last < |vols| && forall k :: 0 <= k <= last ==> VolumeGood(fs, d, vols[k])
    requires offset + limit <= i <= |Listing(fs, d, vols[..last + 1])| <= |Listing(fs, d, vols)|
    requires forall idx :: 0 <= idx < i && offset <= idx ==> View(fs, url, Listing(fs, d, vols)[idx]).Some?
    ensures !Broken(fs, d, vols, offset, limit, url)
  {
    forall k | 0 <= k < |vols| && Reached(fs, d, vols, k, offset, limit)
      ensures VolumeGood(fs, d, vols[k])
    {
      if k > last {
        ListingPrefix(fs, d, vols, last + 1, k);
      }
    }
  }

  /** A walk that passes every volume and every study of the page without
      error is not broken. */
  lemma NotBrokenPast(fs: FS, d: Db, vols: seq<string>, offset: int, limit: int, url: UrlFactory)
    requires forall k :: 0 <= k < |vols| ==> VolumeGood(fs, d, vols[k])
    requires forall idx :: 0 <= idx < |Listing(fs, d, vols)| && offset <= idx ==> View(fs, url, Listing(fs, d, vols)[idx]).Some?
    ensures !Broken(fs, d, vols, offset, limit, url)
  {
  }

  /** The studies of a volume the walk lists fill the flattening from the
      count of the volumes before it on, in sorted name order. */
  lemma VolumeSlice(fs: FS, d: Db, vols: seq<string>, k: nat, v: Volume, names: seq<string>,
                    all: seq<StudyRef>, start: nat)
    requires k < |vols| && v == Volume(d, vols[k]) && VolumeGood(fs, d, vols[k])
    requires names == ReverseSorted(StudiesOf(fs, v).value)
    requires all == Listing(fs, d, vols) && start == |Listing(fs, d, vols[..k])|
    ensures start + |names| == |Listing(fs, d, vols[..k + 1])| <= |all|
    ensures forall j :: 0 <= j < |names| ==> all[start + j] == StudyRef(v, names[j])
  {
    var before := Listing(fs, d, vols[..k]);
    var refs := Scanner.RefsOf(v, names);
    VolumeStep(fs, d, vols, k, v, names);
    ListingPrefixAll(fs, d, vols, k + 1);
    HandlesAfter(all, before, start, v, names);
  }

  /** Adding a volume that lists appends the handles of its sorted
      studies. */
  lemma VolumeStep(fs: FS, d: Db, vols: seq<string>, k: nat, v: Volume, names: seq<string>)
    requires k < |vols| && v == Volume(d, vols[k]) && VolumeGood(fs, d, vols[k])
    requires names == ReverseSorted(StudiesOf(fs, v).value)
    ensures Listing(fs, d, vols[..k + 1]) == Listing(fs, d, vols[..k]) + Scanner.RefsOf(v, names)
  {
    ListingStep(fs, d, vols, k);
  }

  /** The studies of the first `a` volumes start the whole flattening. */
  lemma ListingPrefixAll(fs: FS, d: Db, vols: seq<string>, a: nat)
    requires a <= |vols|
    ensures |Listing(fs, d, vols[..a])| <= |Listing(fs, d, vols)|
    ensures Listing(fs, d, vols)[..|Listing(fs, d, vols[..a])|] == Listing(fs, d, vols[..a])
  {
    ListingPrefix(fs, d, vols, a, |vols|);
    assert vols[..|vols|] == vols;
  }

  /** A sequence that starts with `before` and the handles of `names`
      holds the handle of each name right after `before`. */
  lemma HandlesAfter(all: seq<StudyRef>, before: seq<StudyRef>, start: nat, v: Volume, names: seq<string>)
    requires var refs := Scanner.RefsOf(v, names);
             start == |before| && |before + refs| <= |all| && all[..|before + refs|] == before + refs
    ensures forall j :: 0 <= j < |names| ==> all[start + j] == StudyRef(v, names[j])
  {
    var refs := Scanner.RefsOf(v, names);
    forall j | 0 <= j < |names|
      ensures all[start + j] == StudyRef(v, names[j])
    {
      RefsAt(v, names, j);
      assert all[|before| + j] == all[..|before + refs|][|before| + j] == refs[j];
    }
  }

  // ---------------------------------------------------------------------
  // The handler

  /** The `limit` parameter, 100 when unset. */
  function Limit(query: map<string, string>): Result<int>
  {
    GetNumberParamDefault(query, "limit", 100)
  }

  /** The `offset` parameter, 0 when unset. */
  function Offset(query: map<string, string>): Result<int>
  {
    GetNumberParamDefault(query, "offset", 0)
  }

  /** The request gets as far as the walk: both parameters parse and the
      archive lists at least one volume. */
  predicate Walks(d: Db, fs: FS, query: map<string, string>)
  {
    Limit(query).Ok? && Offset(query).Ok? && VolumeNamesOf(fs, d).Ok? && VolumeNamesOf(fs, d).value != []
  }

  /** The volume names, newest first. */
  function NewestFirst(fs: FS, d: Db): seq<string>
    requires VolumeNamesOf(fs, d).Ok?
  {
    ReverseSorted(VolumeNamesOf(fs, d).value)
  }

  /** Sorting keeps every volume, so a non-empty archive has a first
      volume to open. */
  lemma NewestFirstLength(fs: FS, d: Db)
    requires VolumeNamesOf(fs, d).Ok?
    ensures |NewestFirst(fs, d)| == |VolumeNamesOf(fs, d).value|
  {
    var names := VolumeNamesOf(fs, d).value;
    ReverseSortedSpec(names);
    assert |multiset(NewestFirst(fs, d))| == |multiset(names)|;
  }

  /** What the list handler answers for the archive `d`, once it has an
      archive, as written. A parameter that does not parse or a root that
      does not list is 500, an archive without volumes an empty list, and a
      negative `limit` a crash (`make` with a negative length). Otherwise
      the walk decides: an error it meets is 500, a page the archive cannot
      fill is a crash (the index past the end of the volume list), and a
      full page is the JSON list of its `limit` slots. */
  predicate AsWritten(fs: FS, d: Db, query: map<string, string>, url: UrlFactory,
                      r: Response<seq<Option<StudyJson>>>)
  {
    if !Walks(d, fs, query) then
      r == (if Limit(query).Ok? && Offset(query).Ok? && VolumeNamesOf(fs, d) == Ok([]) then Json([]) else Status(500))
    else
      var vols := NewestFirst(fs, d);
      var limit := Limit(query).value;
      var offset := Offset(query).value;
      if limit < 0 then r == Crash
      else if Broken(fs, d, vols, offset, limit, url) then r == Status(500)
      else if |Listing(fs, d, vols)| < offset + limit then r == Crash
      else r.Json? && IsPage(fs, url, Listing(fs, d, vols), offset, limit, r.body)
  }

  /** The same with the `volIdx+1 > len(volumes)` guard written as
      `volIdx+1 >= len(volumes)`: after the last volume the walk ends and
      the page is answered, with empty slots past the last study. */
  predicate AsIntended(fs: FS, d: Db, query: map<string, string>, url: UrlFactory,
                       r: Response<seq<Option<StudyJson>>>)
  {
    if !Walks(d, fs, query) then
      r == (if Limit(query).Ok? && Offset(query).Ok? && VolumeNamesOf(fs, d) == Ok([]) then Json([]) else Status(500))
    else
      var vols := NewestFirst(fs, d);
      var limit := Limit(query).value;
      var offset := Offset(query).value;
      if limit < 0 then r == Crash
      else if Broken(fs, d, vols, offset, limit, url) then r == Status(500)
      else r.Json? && IsPage(fs, url, Listing(fs, d, vols), offset, limit, r.body)
  }

  /** `ListStudiesEndpoint` after the application context is fetched, on the archive `d` with the instance
      URLs `url`: read the parameters, list and sort the volumes and walk
      them. */
  method ListPage(d: Db, fs: FS, query: map<string, string>, url: UrlFactory)
    returns (r: Response<seq<Option<StudyJson>>>)
    ensures AsWritten(fs, d, query, url, r)
  {
    var limit := GetNumberParamDefault(query, "limit", 100);
    if limit.Err? {
      return Status(500);
    }
    var offset := GetNumberParamDefault(query, "offset", 0);
    if offset.Err? {
      return Status(500);
    }
    var volumes := VolumeNames(fs, d);
    if volumes.Err? {
      return Status(500);
    }
    if |volumes.value| == 0 {
      return Json([]);
    }
    var vols := ReverseSorted(volumes.value);
    NewestFirstLength(fs, d);
    if limit.value < 0 {
      return Crash;
    }
    var o, page := FillPage(fs, d, vols, offset.value, limit.value, url);
    match o
    case PageFull => return Json(page);
    case PastLastVolume => return Crash;
    case WalkFailed => return Status(500);
  }

  /** `ListPage` with the corrected guard. */
  method ListPageCorrected(d: Db, fs: FS, query: map<string, string>, url: UrlFactory)
    returns (r: Response<seq<Option<StudyJson>>>)
    ensures AsIntended(fs, d, query, url, r)
  {
    var limit := GetNumberParamDefault(query, "limit", 100);
    if limit.Err? {
      return Status(500);
    }
    var offset := GetNumberParamDefault(query, "offset", 0);
    if offset.Err? {
      return Status(500);
    }
    var volumes := VolumeNames(fs, d);
    if volumes.Err? {
      return Status(500);
    }
    if |volumes.value| == 0 {
      return Json([]);
    }
    var vols := ReverseSorted(volumes.value);
    NewestFirstLength(fs, d);
    if limit.value < 0 {
      return Crash;
    }
    var o, page := FillPage(fs, d, vols, offset.value, limit.value, url);
    match o
    case PageFull => return Json(page);
    case PastLastVolume => return Json(page);
    case WalkFailed => return Status(500);
  }

  /** `ListStudiesEndpoint`, as written: without an application context
      nothing is answered; otherwise its archive is listed with the
      instance URLs of the request's host. */
  method ListStudies(app: Option<App>, fs: FS, query: map<string, string>, host: string)
    returns (r: Response<seq<Option<StudyJson>>>)
    ensures app.None? ==> r == NoResponse
    ensures app.Some? ==> AsWritten(fs, app.value.db, query, StudyURLFactory(host), r)
  {
    if app.None? {
      return NoResponse;
    }
    r := ListPage(app.value.db, fs, query, StudyURLFactory(host));
  }

  /** `ListStudiesEndpoint` with the corrected guard. */
  method ListStudiesCorrected(app: Option<App>, fs: FS, query: map<string, string>, host: string)
    returns (r: Response<seq<Option<StudyJson>>>)
    ensures app.None? ==> r == NoResponse
    ensures app.Some? ==> AsIntended(fs, app.value.db, query, StudyURLFactory(host), r)
  {
    if app.None? {
      return NoResponse;
    }
    r := ListPageCorrected(app.value.db, fs, query, StudyURLFactory(host));
  }

  /** The correction changes nothing but the crash on a page the archive
      cannot fill, which it answers instead; the answer is the same
      otherwise. A negative `limit` still crashes. */
  lemma CorrectionOnlyAnswersShortPages(fs: FS, d: Db, query: map<string, string>, url: UrlFactory,
                                        r: Response<seq<Option<StudyJson>>>, c: Response<seq<Option<StudyJson>>>)
    requires AsWritten(fs, d, query, url, r) && AsIntended(fs, d, query, url, c)
    ensures r != Crash ==> r == c
    ensures c == Crash ==> r == Crash
    ensures r == Crash && c != Crash ==>
              Walks(d, fs, query) && c.Json?
              && |Listing(fs, d, NewestFirst(fs, d))| < Offset(query).value + Limit(query).value
  {
    if r.Json? && c.Json? {
      assert r.body == c.body by {
        assert |r.body| == |c.body|;
        forall j | 0 <= j < |r.body|
          ensures r.body[j] == c.body[j]
        {
        }
      }
    }
  }

  /** The walk visits the volumes newest first: every arrangement of the
      volume names in decreasing order is the one it uses. */
  lemma NewestFirstOrder(fs: FS, d: Db, t: seq<string>)
    requires VolumeNamesOf(fs, d).Ok?
    requires SortedDesc(t) && multiset(t) == multiset(VolumeNamesOf(fs, d).value)
    ensures NewestFirst(fs, d) == t
  {
    ReverseSortedUnique(VolumeNamesOf(fs, d).value, t);
  }

  /** Within a volume the walk visits the studies newest first: the
      handles of the volume are those of any decreasing arrangement of its
      study names. */
  lemma VolumeRefsOrder(fs: FS, d: Db, name: string, t: seq<string>)
    requires VolumeGood(fs, d, name)
    requires SortedDesc(t) && multiset(t) == multiset(StudiesOf(fs, Volume(d, name)).value)
    ensures VolumeRefs(fs, d, name) == Scanner.RefsOf(Volume(d, name), t)
  {
    ReverseSortedUnique(StudiesOf(fs, Volume(d, name)).value, t);
  }

  /** The archive `/a` with one volume and no studies. */
  function OneEmptyVolume(): FS
  {
    FS(map["/a" := [Entry("VOL00001", true)], "/a/VOL00001" := []], {}, map[])
  }

  /** The archive `/a` lists its one volume. */
  lemma OneEmptyVolumeNames()
    ensures VolumeNamesOf(OneEmptyVolume(), Db("/a")) == Ok(["VOL00001"])
    ensures NewestFirst(OneEmptyVolume(), Db("/a")) == ["VOL00001"]
  {
    var fs := OneEmptyVolume();
    var es := [Entry("VOL00001", true)];
    assert HasPrefix("VOL00001", "VOL");
    assert DirNames(es[..0], "VOL") == [];
    assert DirNames(es, "VOL") == ["VOL00001"];
    assert "/a" in fs.dirs && fs.dirs["/a"] == es;
    assert ReadDir(fs, "/a") == Ok(es);
  }

  /** The one volume of `/a` opens, lists and holds no study. */
  lemma OneEmptyVolumeListing()
    ensures VolumeGood(OneEmptyVolume(), Db("/a"), "VOL00001")
    ensures Listing(OneEmptyVolume(), Db("/a"), ["VOL00001"]) == []
  {
    var fs := OneEmptyVolume();
    var d := Db("/a");
    var vols := ["VOL00001"];
    assert JoinPath("/a", "VOL00001") == "/a/VOL00001";
    assert StudiesOf(fs, Volume(d, "VOL00001")) == Ok([]);
    assert VolumeRefs(fs, d, "VOL00001") == [];
    assert vols[..0] == [];
  }

  /** A request with no parameters on an archive with one empty volume
      meets no error and asks for more studies than there are, so the
      handler as written crashes on it. */
  lemma OneEmptyVolumeCrashes(host: string, r: Response<seq<Option<StudyJson>>>)
    requires AsWritten(OneEmptyVolume(), Db("/a"), map[], StudyURLFactory(host), r)
    ensures r == Crash
  {
    OneEmptyVolumeNames();
    OneEmptyVolumeListing();
    assert Limit(map[]) == Ok(100) && Offset(map[]) == Ok(0);
  }

  /** The corrected handler answers the same request with 100 empty
      slots. */
  lemma OneEmptyVolumeAnswered(host: string, c: Response<seq<Option<StudyJson>>>)
    requires AsIntended(OneEmptyVolume(), Db("/a"), map[], StudyURLFactory(host), c)
    ensures c == Json(seq(100, _ => None))
  {
    OneEmptyVolumeNames();
    OneEmptyVolumeListing();
    assert Limit(map[]) == Ok(100) && Offset(map[]) == Ok(0);
    var fs := OneEmptyVolume();
    var vols := ["VOL00001"];
    assert !Broken(fs, Db("/a"), vols, 0, 100, StudyURLFactory(host));
    assert c.body == seq(100, _ => None) by {
      forall j | 0 <= j < 100
        ensures c.body[j] == None
      {
        assert Slot(fs, StudyURLFactory(host), [], 0, j) == None;
      }
    }
  }
}
