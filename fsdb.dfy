/** The read-only view of a DX-R ORconsoleDB folder: the database root, its
    `VOL…` volume directories, the study directories inside each volume and
    the `study.xml` descriptor of each study.

    Go keeps this in one package over three files: the database (`New`,
    `VolumeNames`, `OpenVolumeByName`, `OpenVolumeByIdx`, `ForEachVolume`),
    the volume (`Path`, `Index`, `CountStudies`, `Studies`,
    `OpenStudyByName`, `ForEachStudy`, `First`, `Last`) and the study handle
    (`Name`, `Path`, `Index`, `Load`, `Model`, `RealPath`). Database, volume
    and study reference are values here; the study handle, whose cached
    model `Load` overwrites, is a class. */
module Fsdb {

  import opened Wrappers
  import opened GoStrings
  import opened GoStrconv
  import opened Models
  import opened FileSystem

  /** An opened database: the path of the ORconsoleDB folder. */
  datatype Db = Db(rootPath: string)

  /** An opened volume of a database. */
  datatype Volume = Volume(db: Db, name: string)
  {
    function Path(): string
    {
      JoinPath(db.rootPath, name)
    }

    /** The number in a `VOLxxxxx` name: -1 for names shorter than eight
        characters, 0 when nothing but zeros follows the first three
        characters, -1 when what is left after trimming zeros from both ends
        is not a number. */
    function Index(): int
    {
      if |name| < 8 then -1
      else
        var paddedNum := Trim(name[3..], '0');
        if |paddedNum| == 0 then 0
        else
          match ParseInt(paddedNum)
          case Ok(i) => i
          case Err(_) => -1
    }

    /** `Index` with only the leading zeros trimmed (`strings.TrimLeft`),
        which keeps the zeros that end the number. */
    function IndexCorrected(): int
    {
      if |name| < 8 then -1
      else
        var paddedNum := TrimLeft(name[3..], EqualTo('0'));
        if |paddedNum| == 0 then 0
        else
          match ParseInt(paddedNum)
          case Ok(i) => i
          case Err(_) => -1
    }
  }

  /** The identity of a study handle: its volume and its directory name. */
  datatype StudyRef = StudyRef(vol: Volume, name: string)
  {
    function Path(): string
    {
      JoinPath(vol.Path(), name)
    }

    /** Where the study's descriptor lives. */
    function DescriptorPath(): string
    {
      JoinPath(Path(), "study.xml")
    }

    /** The number in a `<n>_<suffix>` study name, or -1 when the name does
        not split on `_` into exactly two parts or the first is not a
        number. */
    function Index(): int
    {
      var parts := Split(name, '_');
      if |parts| != 2 then -1
      else
        match ParseInt(parts[0])
        case Ok(i) => i
        case Err(_) => -1
    }

    /** Rewrites a path recorded by DX-R under `/dicompacs/orconsoledb/`
        (in any letter case) to the same path under the database root; any
        other path is returned unchanged. Slashes are the path separator, so
        `filepath.ToSlash` changes nothing. */
    function RealPath(p: string): string
    {
      var slashed := p;
      var lower := ToLower(slashed);
      if !HasPrefix(lower, ArchivePrefix) then slashed
      else JoinPath(vol.db.rootPath, slashed[|ArchivePrefix|..])
    }
  }

  /** The absolute prefix under which DX-R records image paths. */
  const ArchivePrefix: string := "/dicompacs/orconsoledb/"

  // ---------------------------------------------------------------------
  // Opening

  /** `fsdb.New`: the root must exist and be a directory. */
  function New(fs: FS, path: string): (r: Result<Db>)
    ensures r.Ok? <==> path in fs.dirs
    ensures r.Ok? ==> r.value == Db(path)
    ensures path !in fs.dirs && path in fs.files ==> r == Err(NotADirectory(path))
    ensures path !in fs.dirs && path !in fs.files ==> r == Err(NotFound(path))
  {
    match Stat(fs, path)
    case Err(e) => Err(e)
    case Ok(isDir) => if !isDir then Err(NotADirectory(path)) else Ok(Db(path))
  }

  /** `OpenVolumeByName`: any directory under the root opens, whatever its
      name; a missing path or a plain file fails. */
  function OpenVolumeByName(fs: FS, d: Db, name: string): (r: Result<Volume>)
    ensures r.Ok? <==> JoinPath(d.rootPath, name) in fs.dirs
    ensures r.Ok? ==> r.value == Volume(d, name)
  {
    var volPath := JoinPath(d.rootPath, name);
    match Stat(fs, volPath)
    case Err(e) => Err(e)
    case Ok(isDir) => if !isDir then Err(NotADirectory(volPath)) else Ok(Volume(d, name))
  }

  /** The directory name `fmt.Sprintf("VOL%05d", idx)`. */
  function VolumeName(idx: int): string
  {
    "VOL" + Format05d(idx)
  }

  /** `OpenVolumeByIdx`. */
  function OpenVolumeByIdx(fs: FS, d: Db, idx: int): (r: Result<Volume>)
    ensures r.Ok? <==> JoinPath(d.rootPath, VolumeName(idx)) in fs.dirs
    ensures r.Ok? ==> r.value == Volume(d, VolumeName(idx)) && r.value.name[..3] == "VOL"
  {
    OpenVolumeByName(fs, d, VolumeName(idx))
  }

  /** `OpenStudyByName`: a missing path or a plain file fails; on success the
      reference names the argument inside `v`. Go returns a fresh handle
      with nothing loaded, which is `new Study(ref)` here. */
  function OpenStudyByName(fs: FS, v: Volume, name: string): (r: Result<StudyRef>)
    ensures r.Ok? <==> JoinPath(v.Path(), name) in fs.dirs
    ensures r.Ok? ==> r.value == StudyRef(v, name) && r.value.Path() == JoinPath(v.Path(), name)
  {
    var studyPath := JoinPath(v.Path(), name);
    match Stat(fs, studyPath)
    case Err(e) => Err(e)
    case Ok(isDir) => if !isDir then Err(NotADirectory(studyPath)) else Ok(StudyRef(v, name))
  }

  // ---------------------------------------------------------------------
  // Listings

  /** The names of the directory entries of `es` that start with `prefix`,
      in listing order. */
  function DirNames(es: seq<Entry>, prefix: string): (names: seq<string>)
    ensures |names| <= |es|
    decreases |es|
  {
    if es == [] then []
    else
      var last := es[|es| - 1];
      DirNames(es[..|es| - 1], prefix) + (if last.isDir && HasPrefix(last.name, prefix) then [last.name] else [])
  }

  /** `DirNames` is an order-preserving filter: it distributes over
      concatenation of listings. */
  lemma {:induction false} DirNamesConcat(a: seq<Entry>, b: seq<Entry>, prefix: string)
    ensures DirNames(a + b, prefix) == DirNames(a, prefix) + DirNames(b, prefix)
    decreases |b|
  {
    if b == [] {
      assert a + b == a;
    } else {
      var b' := b[..|b| - 1];
      assert (a + b)[..|a + b| - 1] == a + b';
      DirNamesConcat(a, b', prefix);
    }
  }

  /** A name is kept exactly when some entry is a directory of that name
      with the prefix. */
  lemma {:induction false} DirNamesMembers(es: seq<Entry>, prefix: string, n: string)
    ensures n in DirNames(es, prefix) <==>
              exists k :: 0 <= k < |es| && es[k].isDir && es[k].name == n && HasPrefix(n, prefix)
    decreases |es|
  {
    if es != [] {
      var init := es[..|es| - 1];
      DirNamesMembers(init, prefix, n);
      if n in DirNames(es, prefix) && n !in DirNames(init, prefix) {
        assert es[|es| - 1].name == n;
      }
      if exists k :: 0 <= k < |es| && es[k].isDir && es[k].name == n && HasPrefix(n, prefix) {
        var k :| 0 <= k < |es| && es[k].isDir && es[k].name == n && HasPrefix(n, prefix);
        if k < |init| {
          assert init[k] == es[k];
        }
      }
    }
  }

  /** The listing a volume method works on: the names of the directory
      entries of the root (for the database) or of the volume. */
  function VolumeNamesOf(fs: FS, d: Db): Result<seq<string>>
  {
    match ReadDir(fs, d.rootPath)
    case Err(e) => Err(e)
    case Ok(es) => Ok(DirNames(es, "VOL"))
  }

  function StudiesOf(fs: FS, v: Volume): Result<seq<string>>
  {
    match ReadDir(fs, v.Path())
    case Err(e) => Err(e)
    case Ok(es) => Ok(DirNames(es, ""))
  }

  /** Every name has the empty prefix, so the study listing keeps every
      directory entry. */
  lemma StudiesAreDirectories(fs: FS, v: Volume, n: string)
    requires StudiesOf(fs, v).Ok?
    ensures n in StudiesOf(fs, v).value <==>
              exists k :: 0 <= k < |fs.dirs[v.Path()]| && fs.dirs[v.Path()][k].isDir
                          && fs.dirs[v.Path()][k].name == n
  {
    DirNamesMembers(fs.dirs[v.Path()], "", n);
  }

  /** `VolumeNames`: the directories of the root whose names start with
      `VOL`, in listing order; other directories are skipped (Go logs a
      warning) and so are plain files. */
  method VolumeNames(fs: FS, d: Db) returns (r: Result<seq<string>>)
    ensures r == VolumeNamesOf(fs, d)
  {
    var files := ReadDir(fs, d.rootPath);
    if files.Err? {
      return Err(files.error);
    }
    var es := files.value;
    var names: seq<string> := [];
    var i := 0;
    while i < |es|
      invariant 0 <= i <= |es|
      invariant names == DirNames(es[..i], "VOL")
    {
      assert es[..i + 1][..i] == es[..i];
      if es[i].isDir && HasPrefix(es[i].name, "VOL") {
        names := names + [es[i].name];
      }
      i := i + 1;
    }
    assert es[..|es|] == es;
    return Ok(names);
  }

  /** `Studies`: the directory entries of the volume, in listing order. */
  method Studies(fs: FS, v: Volume) returns (r: Result<seq<string>>)
    ensures r == StudiesOf(fs, v)
  {
    var files := ReadDir(fs, v.Path());
    if files.Err? {
      return Err(files.error);
    }
    var es := files.value;
    var names: seq<string> := [];
    var i := 0;
    while i < |es|
      invariant 0 <= i <= |es|
      invariant names == DirNames(es[..i], "")
    {
      assert es[..i + 1][..i] == es[..i];
      if es[i].isDir {
        names := names + [es[i].name];
      }
      i := i + 1;
    }
    assert es[..|es|] == es;
    return Ok(names);
  }

  /** `CountStudies`: the number of directory entries, the length of what
      `Studies` returns for the same listing. */
  method CountStudies(fs: FS, v: Volume) returns (r: Result<nat>)
    ensures r.Ok? <==> StudiesOf(fs, v).Ok?
    ensures r.Ok? ==> r.value == |StudiesOf(fs, v).value|
    ensures r.Err? ==> r.error == StudiesOf(fs, v).error
  {
    var count := 0;
    var files := ReadDir(fs, v.Path());
    if files.Err? {
      return Err(files.error);
    }
    var es := files.value;
    var i := 0;
    while i < |es|
      invariant 0 <= i <= |es|
      invariant count == |DirNames(es[..i], "")|
    {
      assert es[..i + 1][..i] == es[..i];
      if es[i].isDir {
        count := count + 1;
      }
      i := i + 1;
    }
    assert es[..|es|] == es;
    return Ok(count);
  }

  // ---------------------------------------------------------------------
  // Visitors

  /** Visits the volumes `names` in order with a state-passing callback,
      stopping at the first failure to open a volume or the first error the
      callback reports; that error is the result. */
  function VisitVolumes<S>(fs: FS, d: Db, names: seq<string>,
                           fn: (S, Volume) -> (S, Option<Error>), s: S): (S, Option<Error>)
    decreases |names|
  {
    if names == [] then (s, None)
    else
      match OpenVolumeByName(fs, d, names[0])
      case Err(e) => (s, Some(e))
      case Ok(vol) =>
        var (s', err) := fn(s, vol);
        if err.Some? then (s', err) else VisitVolumes(fs, d, names[1..], fn, s')
  }

  /** What `ForEachVolume` does: list the volumes, then visit them. */
  function ForEachVolumeOf<S>(fs: FS, d: Db, fn: (S, Volume) -> (S, Option<Error>), s: S): (S, Option<Error>)
  {
    match VolumeNamesOf(fs, d)
    case Err(e) => (s, Some(e))
    case Ok(names) => VisitVolumes(fs, d, names, fn, s)
  }

  /** Once a visit of `a` stops with an error, the volumes after `a` are
      never visited. */
  lemma {:induction false} VisitVolumesStops<S>(fs: FS, d: Db, a: seq<string>, b: seq<string>,
                                                fn: (S, Volume) -> (S, Option<Error>), s: S)
    requires VisitVolumes(fs, d, a, fn, s).1.Some?
    ensures VisitVolumes(fs, d, a + b, fn, s) == VisitVolumes(fs, d, a, fn, s)
    decreases |a|
  {
    assert a != [];
    assert (a + b)[0] == a[0] && (a + b)[1..] == a[1..] + b;
    match OpenVolumeByName(fs, d, a[0])
    case Err(_) =>
    case Ok(vol) =>
      var (s', err) := fn(s, vol);
      if err.None? {
        VisitVolumesStops(fs, d, a[1..], b, fn, s');
      }
  }

  /** A visit of `a` that ends without error hands its state on to the
      visit of what follows. */
  lemma {:induction false} VisitVolumesContinues<S>(fs: FS, d: Db, a: seq<string>, b: seq<string>,
                                                    fn: (S, Volume) -> (S, Option<Error>), s: S)
    requires VisitVolumes(fs, d, a, fn, s).1.None?
    ensures VisitVolumes(fs, d, a + b, fn, s) == VisitVolumes(fs, d, b, fn, VisitVolumes(fs, d, a, fn, s).0)
    decreases |a|
  {
    if a == [] {
      assert a + b == b;
    } else {
      assert (a + b)[0] == a[0] && (a + b)[1..] == a[1..] + b;
      var vol := OpenVolumeByName(fs, d, a[0]).value;
      var (s', err) := fn(s, vol);
      VisitVolumesContinues(fs, d, a[1..], b, fn, s');
    }
  }

  /** `ForEachVolume`: calls `fn` on each volume of `VolumeNames` in order
      and returns the first error, from listing, opening or `fn`. */
  method ForEachVolume<S>(fs: FS, d: Db, fn: (S, Volume) -> (S, Option<Error>), s0: S)
    returns (s: S, err: Option<Error>)
    ensures (s, err) == ForEachVolumeOf(fs, d, fn, s0)
  {
    var volumes := VolumeNames(fs, d);
    if volumes.Err? {
      return s0, Some(volumes.error);
    }
    var names := volumes.value;
    s := s0;
    var i := 0;
    while i < |names|
      invariant 0 <= i <= |names|
      invariant VisitVolumes(fs, d, names, fn, s0) == VisitVolumes(fs, d, names[i..], fn, s)
    {
      var vol := OpenVolumeByName(fs, d, names[i]);
      if vol.Err? {
        return s, Some(vol.error);
      }
      var step := fn(s, vol.value);
      s := step.0;
      if step.1.Some? {
        return s, step.1;
      }
      assert names[i..][1..] == names[i + 1..];
      i := i + 1;
    }
    return s, None;
  }

  /** Visits the studies `names` of `v` in order, as `VisitVolumes` does
      for volumes. */
  function VisitStudies<S>(fs: FS, v: Volume, names: seq<string>,
                           fn: (S, StudyRef) -> (S, Option<Error>), s: S): (S, Option<Error>)
    decreases |names|
  {
    if names == [] then (s, None)
    else
      match OpenStudyByName(fs, v, names[0])
      case Err(e) => (s, Some(e))
      case Ok(st) =>
        var (s', err) := fn(s, st);
        if err.Some? then (s', err) else VisitStudies(fs, v, names[1..], fn, s')
  }

  /** What `ForEachStudy` does: list the studies, then visit them. */
  function ForEachStudyOf<S>(fs: FS, v: Volume, fn: (S, StudyRef) -> (S, Option<Error>), s: S): (S, Option<Error>)
  {
    match StudiesOf(fs, v)
    case Err(e) => (s, Some(e))
    case Ok(names) => VisitStudies(fs, v, names, fn, s)
  }

  lemma {:induction false} VisitStudiesStops<S>(fs: FS, v: Volume, a: seq<string>, b: seq<string>,
                                                fn: (S, StudyRef) -> (S, Option<Error>), s: S)
    requires VisitStudies(fs, v, a, fn, s).1.Some?
    ensures VisitStudies(fs, v, a + b, fn, s) == VisitStudies(fs, v, a, fn, s)
    decreases |a|
  {
    assert a != [];
    assert (a + b)[0] == a[0] && (a + b)[1..] == a[1..] + b;
    match OpenStudyByName(fs, v, a[0])
    case Err(_) =>
    case Ok(st) =>
      var (s', err) := fn(s, st);
      if err.None? {
        VisitStudiesStops(fs, v, a[1..], b, fn, s');
      }
  }

  lemma {:induction false} VisitStudiesContinues<S>(fs: FS, v: Volume, a: seq<string>, b: seq<string>,
                                                    fn: (S, StudyRef) -> (S, Option<Error>), s: S)
    requires VisitStudies(fs, v, a, fn, s).1.None?
    ensures VisitStudies(fs, v, a + b, fn, s) == VisitStudies(fs, v, b, fn, VisitStudies(fs, v, a, fn, s).0)
    decreases |a|
  {
    if a == [] {
      assert a + b == b;
    } else {
      assert (a + b)[0] == a[0] && (a + b)[1..] == a[1..] + b;
      var st := OpenStudyByName(fs, v, a[0]).value;
      var (s', err) := fn(s, st);
      VisitStudiesContinues(fs, v, a[1..], b, fn, s');
    }
  }

  /** `ForEachStudy`: calls `fn` on each study of `Studies` in order and
      returns the first error, from listing, opening or `fn`. */
  method ForEachStudy<S>(fs: FS, v: Volume, fn: (S, StudyRef) -> (S, Option<Error>), s0: S)
    returns (s: S, err: Option<Error>)
    ensures (s, err) == ForEachStudyOf(fs, v, fn, s0)
  {
    var studies := Studies(fs, v);
    if studies.Err? {
      return s0, Some(studies.error);
    }
    var names := studies.value;
    s := s0;
    var i := 0;
    while i < |names|
      invariant 0 <= i <= |names|
      invariant VisitStudies(fs, v, names, fn, s0) == VisitStudies(fs, v, names[i..], fn, s)
    {
      var st := OpenStudyByName(fs, v, names[i]);
      if st.Err? {
        return s, Some(st.error);
      }
      var step := fn(s, st.value);
      s := step.0;
      if step.1.Some? {
        return s, step.1;
      }
      assert names[i..][1..] == names[i + 1..];
      i := i + 1;
    }
    return s, None;
  }

  /** `First`: nothing for an empty volume, otherwise the first name of
      `Studies` opened. */
  method First(fs: FS, v: Volume) returns (r: Result<Option<StudyRef>>)
    ensures StudiesOf(fs, v).Err? ==> r == Err(StudiesOf(fs, v).error)
    ensures StudiesOf(fs, v) == Ok([]) ==> r == Ok(None)
    ensures StudiesOf(fs, v).Ok? && StudiesOf(fs, v).value != [] ==>
              r == Lift(OpenStudyByName(fs, v, StudiesOf(fs, v).value[0]))
  {
    var all := Studies(fs, v);
    if all.Err? {
      return Err(all.error);
    }
    if |all.value| == 0 {
      return Ok(None);
    }
    return Lift(OpenStudyByName(fs, v, all.value[0]));
  }

  /** `Last`: nothing for an empty volume, otherwise the last name of
      `Studies` opened. */
  method Last(fs: FS, v: Volume) returns (r: Result<Option<StudyRef>>)
    ensures StudiesOf(fs, v).Err? ==> r == Err(StudiesOf(fs, v).error)
    ensures StudiesOf(fs, v) == Ok([]) ==> r == Ok(None)
    ensures StudiesOf(fs, v).Ok? && StudiesOf(fs, v).value != [] ==>
              r == Lift(OpenStudyByName(fs, v, StudiesOf(fs, v).value[|StudiesOf(fs, v).value| - 1]))
  {
    var all := Studies(fs, v);
    if all.Err? {
      return Err(all.error);
    }
    if |all.value| == 0 {
      return Ok(None);
    }
    return Lift(OpenStudyByName(fs, v, all.value[|all.value| - 1]));
  }

  /** A successful open as a present study. */
  function Lift(r: Result<StudyRef>): Result<Option<StudyRef>>
  {
    match r
    case Err(e) => Err(e)
    case Ok(st) => Ok(Some(st))
  }

  // ---------------------------------------------------------------------
  // The study handle

  /** A study handle: the reference it was opened with and the model its
      last successful `Load` decoded (Go's `*models.ImageList`, nil until
      then). */
  class Study {
    const ref: StudyRef
    var model: Option<ImageList>

    constructor (ref: StudyRef)
      ensures this.ref == ref && model == None
    {
      this.ref := ref;
      model := None;
    }

    /** `Model`: Go's zero `ImageList` and false while nothing is loaded,
        the cached model and true afterwards. It reads the handle and
        changes nothing. */
    function Model(): (r: (ImageList, bool))
      reads this
      ensures r.1 <==> model.Some?
      ensures r.1 ==> r.0 == model.value
      ensures !r.1 ==> r.0 == EmptyImageList
    {
      if model.None? then (EmptyImageList, false) else (model.value, true)
    }

    /** `Load`: reads and decodes `study.xml` every time, whether or not a
        model is cached. Success replaces the cached model with what the
        file holds now; failure leaves it as it was. */
    method Load(fs: FS) returns (err: Option<Error>)
      modifies this
      ensures err.None? <==> ref.DescriptorPath() in fs.descriptors
      ensures err.None? ==> model == Some(fs.descriptors[ref.DescriptorPath()])
      ensures err.Some? ==> model == old(model)
                            && err == Some(ReadDescriptor(fs, ref.DescriptorPath()).error)
    {
      var path := JoinPath(ref.Path(), "study.xml");
      var m := ReadDescriptor(fs, path);
      if m.Err? {
        return Some(m.error);
      }
      model := Some(m.value);
      return None;
    }

    /** `ensureLoaded`, which nothing calls: it reads the descriptor only
        when no model is cached. */
    method EnsureLoaded(fs: FS) returns (err: Option<Error>)
      modifies this
      ensures old(model).Some? ==> err.None? && model == old(model)
      ensures old(model).None? ==> (err.None? <==> ref.DescriptorPath() in fs.descriptors)
      ensures old(model).None? && err.None? ==> model == Some(fs.descriptors[ref.DescriptorPath()])
      ensures old(model).None? && err.Some? ==> model == None
    {
      if model.None? {
        err := Load(fs);
      } else {
        err := None;
      }
    }
  }

  // ---------------------------------------------------------------------
  // Properties of the naming schemes

  /** A study's path is its volume's path joined with its name. */
  lemma StudyPath(r: StudyRef)
    requires r.vol.db.rootPath != "" && r.vol.name != "" && r.name != ""
    ensures r.Path() == r.vol.db.rootPath + "/" + r.vol.name + "/" + r.name
  {
  }

  /** Names shorter than eight characters have index -1; names whose tail
      after the first three characters is all zeros have index 0. */
  lemma VolumeIndexEdges(v: Volume)
    ensures |v.name| < 8 ==> v.Index() == -1
    ensures |v.name| >= 8 && (forall k :: 3 <= k < |v.name| ==> v.name[k] == '0') ==> v.Index() == 0
  {
    if |v.name| >= 8 && (forall k :: 3 <= k < |v.name| ==> v.name[k] == '0') {
      var tail := v.name[3..];
      TrimLeftAll(tail, EqualTo('0'));
    }
  }

  /** For 0 <= idx <= 99999 the `VOL%05d` name has eight characters. */
  lemma VolumeNameLength(idx: int)
    requires 0 <= idx <= 99999
    ensures |VolumeName(idx)| == 8 && VolumeName(idx)[..3] == "VOL"
    ensures VolumeName(idx)[3..] == Format05d(idx)
  {
    Format05dSmall(idx);
  }

  /** Zero padding in front of a string that does not start with a zero
      is exactly what trimming zeros from the left removes. */
  lemma TrimPadding(t: string, width: nat)
    requires t != [] && t[0] != '0'
    ensures TrimLeft(PadZeros(t, width), EqualTo('0')) == t
  {
    if |t| < width {
      TrimLeftSkips(Zeros(width - |t|), t, EqualTo('0'));
    }
    TrimLeftStops(t, EqualTo('0'));
  }

  /** Trimming zeros from the right of a decimal form leaves a non-empty
      prefix, all of it exactly when the last digit is not zero. */
  lemma TrimDecimalRight(idx: nat)
    requires idx > 0
    ensures var t := TrimRight(Decimal(idx), EqualTo('0'));
            t != [] && |t| <= |Decimal(idx)| && t == Decimal(idx)[..|t|]
            && (idx % 10 != 0 <==> t == Decimal(idx))
  {
    var d := Decimal(idx);
    var cut := EqualTo('0');
    var t := TrimRight(d, cut);
    DecimalLast(idx);
    if idx % 10 != 0 {
      TrimRightStops(d, cut);
    } else {
      assert cut(d[|d| - 1]);
    }
  }

  /** Trimming zeros from the five-digit form of a positive number leaves
      its decimal form, less any trailing zeros. */
  lemma TrimPadded(idx: int)
    requires 0 < idx <= 99999
    ensures var t := Trim(Format05d(idx), '0');
            t != [] && |t| <= |Decimal(idx)| && t == Decimal(idx)[..|t|]
            && (idx % 10 != 0 <==> t == Decimal(idx))
  {
    assert Format05d(idx) == PadZeros(Decimal(idx), 5);
    TrimPadding(Decimal(idx), 5);
    TrimDecimalRight(idx);
  }

  /** Reading back the index of the volume named by `OpenVolumeByIdx` gives
      `idx` exactly when `idx` is 0 or does not end in a zero digit: the
      zeros `strings.Trim` strips from the right are part of the number. */
  lemma VolumeIndexRoundTrip(d: Db, idx: int)
    requires 0 <= idx <= 99999
    ensures Volume(d, VolumeName(idx)).Index() == idx <==> (idx == 0 || idx % 10 != 0)
  {
    var v := Volume(d, VolumeName(idx));
    VolumeNameLength(idx);
    Format05dSmall(idx);
    var t := Trim(Format05d(idx), '0');
    if idx == 0 {
      assert Format05d(0) == Zeros(4) + "0";
      TrimLeftAll(Format05d(0), EqualTo('0'));
    } else {
      TrimPadded(idx);
      var dd := Decimal(idx);
      if idx % 10 != 0 {
        ParseDigits(dd);
      } else {
        DecimalValuePrefix(dd, |t|);
        ParseDigits(t);
        assert v.Index() == DecimalValue(t) <= idx / 10 < idx;
      }
    }
  }

  /** `strings.Trim` strips the trailing zero of "VOL00010" too, so its
      index is 1, not 10. */
  lemma VolumeIndexTrailingZero(d: Db)
    ensures Volume(d, "VOL00010").Index() == 1
  {
    var cut := EqualTo('0');
    var t := "00010";
    assert "VOL00010"[3..] == t;
    assert t == "000" + "10";
    TrimLeftSkips("000", "10", cut);
    TrimLeftStops("10", cut);
    assert TrimLeft(t, cut) == "10";
    assert "10"[..1] == "1" && cut("10"[1]);
    TrimRightStops("1", cut);
    assert Trim(t, '0') == "1";
    ParseDigits("1");
    assert ParseInt("1") == Ok(1);
  }

  /** With only the leading zeros trimmed, every volume that
      `OpenVolumeByIdx` names reads back its own index. */
  lemma VolumeIndexCorrectedRoundTrip(d: Db, idx: int)
    requires 0 <= idx <= 99999
    ensures Volume(d, VolumeName(idx)).IndexCorrected() == idx
  {
    VolumeNameLength(idx);
    Format05dSmall(idx);
    if idx == 0 {
      assert Format05d(0) == Zeros(4) + "0";
      TrimLeftAll(Format05d(0), EqualTo('0'));
    } else {
      assert Format05d(idx) == PadZeros(Decimal(idx), 5);
      DecimalLength(idx);
      TrimPadding(Decimal(idx), 5);
      ParseDigits(Decimal(idx));
    }
  }

  /** The corrected index agrees with `Index` exactly on the names whose
      number is 0 or does not end in a zero digit. */
  lemma VolumeIndexCorrectedAgrees(d: Db, idx: int)
    requires 0 <= idx <= 99999
    ensures (idx == 0 || idx % 10 != 0) <==>
            Volume(d, VolumeName(idx)).Index() == Volume(d, VolumeName(idx)).IndexCorrected()
  {
    VolumeIndexRoundTrip(d, idx);
    VolumeIndexCorrectedRoundTrip(d, idx);
  }

  /** `Index` never looks at the first three characters. */
  lemma VolumeIndexIgnoresPrefix(d: Db, a: string, b: string)
    requires |a| == 3 && |b| == 3
    ensures forall tail :: Volume(d, a + tail).Index() == Volume(d, b + tail).Index()
  {
    forall tail ensures Volume(d, a + tail).Index() == Volume(d, b + tail).Index() {
      assert (a + tail)[3..] == tail && (b + tail)[3..] == tail;
    }
  }

  /** So a name without the `VOL` prefix still has an index. */
  lemma VolumeIndexNoPrefixCheck(d: Db)
    ensures Volume(d, "ABC00012").Index() == 12
  {
    var t := "00012";
    assert "ABC00012"[3..] == t;
    assert t == "000" + "12";
    TrimLeftSkips("000", "12", EqualTo('0'));
    TrimLeftStops("12", EqualTo('0'));
    TrimRightStops("12", EqualTo('0'));
    ParseDigits("12");
  }

  /** A study name with one underscore has the number before it as index,
      when that parses; any other name has index -1. */
  lemma StudyIndexSpec(r: StudyRef)
    ensures Count(r.name, '_') != 1 ==> r.Index() == -1
    ensures Count(r.name, '_') == 1 ==>
              '_' in r.name &&
              r.Index() == (match ParseInt(r.name[..IndexOf(r.name, '_')])
                            case Ok(i) => i
                            case Err(_) => -1)
  {
    SplitCount(r.name, '_');
    if Count(r.name, '_') == 1 {
      SplitOne(r.name, '_');
    }
  }

  /** The study index reads back the number a `<n>_<suffix>` name starts
      with, for every 64-bit `n` and every suffix without an underscore. */
  lemma StudyIndexRoundTrip(v: Volume, n: int, suffix: string)
    requires MinInt64 <= n <= MaxInt64 && '_' !in suffix
    ensures StudyRef(v, Itoa(n) + "_" + suffix).Index() == n
  {
    ItoaChars(n);
    assert '_' !in Itoa(n);
    assert Join([Itoa(n), suffix], '_') == Itoa(n) + "_" + suffix;
    SplitJoin([Itoa(n), suffix], '_');
    ParseItoa(n);
  }

  /** A number, an underscore and a suffix: the number. */
  lemma StudyIndexExampleNumbered(v: Volume)
    ensures StudyRef(v, "12_abc").Index() == 12
  {
    assert Itoa(12) == "12";
    assert "12_abc" == Itoa(12) + "_" + "abc";
    StudyIndexRoundTrip(v, 12, "abc");
  }

  /** Two underscores: -1. */
  lemma StudyIndexExampleTwoUnderscores(v: Volume)
    ensures StudyRef(v, "12_a_b").Index() == -1
  {
    assert multiset("12_a_b")['_'] == 2;
    StudyIndexSpec(StudyRef(v, "12_a_b"));
  }

  /** No underscore: -1. */
  lemma StudyIndexExampleNoUnderscore(v: Volume)
    ensures StudyRef(v, "abc").Index() == -1
  {
    assert multiset("abc")['_'] == 0;
    StudyIndexSpec(StudyRef(v, "abc"));
  }

  /** `RealPath` rewrites exactly the paths whose lower-cased form starts
      with the archive prefix, keeping the rest in its own letter case. */
  lemma RealPathSpec(r: StudyRef, p: string)
    ensures |p| >= |ArchivePrefix| && ToLower(p[..|ArchivePrefix|]) == ArchivePrefix ==>
              r.RealPath(p) == JoinPath(r.vol.db.rootPath, p[|ArchivePrefix|..])
    ensures !(|p| >= |ArchivePrefix| && ToLower(p[..|ArchivePrefix|]) == ArchivePrefix) ==>
              r.RealPath(p) == p
  {
    var n := |ArchivePrefix|;
    if |p| >= n {
      assert ToLower(p)[..n] == ToLower(p[..n]);
    }
  }

  /** The prefix test ignores letter case: two archive paths that differ
      only in the case of the prefix are rewritten to the same path. */
  lemma RealPathCaseInsensitive(r: StudyRef, p: string, q: string)
    requires |p| == |q| >= |ArchivePrefix|
    requires ToLower(p[..|ArchivePrefix|]) == ArchivePrefix == ToLower(q[..|ArchivePrefix|])
    requires p[|ArchivePrefix|..] == q[|ArchivePrefix|..]
    ensures r.RealPath(p) == r.RealPath(q)
  {
    RealPathSpec(r, p);
    RealPathSpec(r, q);
  }
}
