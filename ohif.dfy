/** The projection of a DX-R study descriptor into the study JSON the OHIF
    viewer reads: one series object per series and one instance map per
    image, in descriptor order.

    The DICOM files themselves are an oracle: `dicom` maps the path of each
    readable DICOM file to the tag names and values `setDCMTags` would copy
    out of it (already converted to lower camel case, `pixelSpacing`
    included); a path it does not hold is a file that fails to read. */
module Ohif {

  import opened Wrappers
  import opened GoStrconv
  import opened Models
  import opened FileSystem
  import opened Fsdb

  /** The viewer's instance URL for a study, series and instance UID. */
  type UrlFactory = (string, string, string) -> string

  /** The tags of each readable DICOM file, by path. */
  type DicomFiles = map<string, map<string, string>>

  /** A series of the viewer JSON. */
  datatype SeriesJson = SeriesJson(description: string, uid: string, number: string, modality: string,
                                   instances: seq<map<string, string>>)

  /** The study of the viewer JSON. */
  datatype StudyJson = StudyJson(uid: string, date: string, patientName: string, patientBirthDate: string,
                                 patientId: string, patientSex: string, animalRace: string,
                                 animalName: string, series: seq<SeriesJson>)

  /** What the projection depends on besides the descriptor: the study
      handle (for `RealPath`), the URL factory, whether DICOM tags are
      wanted, and the DICOM files. */
  datatype Env = Env(ref: StudyRef, url: UrlFactory, withTags: bool, dicom: DicomFiles)

  const ImageOrientation := "0\\0\\0\\0\\0\\0"
  const ImagePosition := "0\\0\\0"

  /** The keys of an instance map before any DICOM tag is added. */
  const InstanceKeys: set<string> :=
    {"instanceNumber", "sopInstanceUid", "url", "frameOfReferenceUID",
     "imageOrientationPatient", "imagePositionPatient"}

  /** The instance map of one image, before DICOM tags. */
  function BaseInstance(e: Env, studyUid: string, ser: Series, inst: Instance): map<string, string>
  {
    map["instanceNumber" := Itoa(inst.number),
        "sopInstanceUid" := inst.uid,
        "url" := e.url(studyUid, ser.uid, inst.uid),
        "frameOfReferenceUID" := ser.uid,
        "imageOrientationPatient" := ImageOrientation,
        "imagePositionPatient" := ImagePosition]
  }

  /** The base instance map has exactly the six keys, holding the instance
      number, the instance UID, its URL, the series UID as frame of
      reference and the two fixed orientation and position strings. */
  lemma BaseInstanceSpec(e: Env, studyUid: string, ser: Series, inst: Instance)
    ensures var im := BaseInstance(e, studyUid, ser, inst);
            im.Keys == InstanceKeys
            && im["instanceNumber"] == Itoa(inst.number) && im["sopInstanceUid"] == inst.uid
            && im["url"] == e.url(studyUid, ser.uid, inst.uid) && im["frameOfReferenceUID"] == ser.uid
            && im["imageOrientationPatient"] == ImageOrientation
            && im["imagePositionPatient"] == ImagePosition
  {
  }

  /** `setDCMTags`: a file that fails to read is reported and the map is
      left as it was; otherwise every tag of the file is written into the
      map, replacing a value under the same name. */
  function SetTags(dicom: DicomFiles, path: string, im: map<string, string>): (r: (map<string, string>, Option<Error>))
    ensures path !in dicom ==> r == (im, Some(DicomReadError(path)))
    ensures path in dicom ==> r.1 == None && r.0.Keys == im.Keys + dicom[path].Keys
    ensures path in dicom ==> forall k :: k in dicom[path] ==> r.0[k] == dicom[path][k]
    ensures path in dicom ==> forall k :: k in im && k !in dicom[path] ==> r.0[k] == im[k]
  {
    if path !in dicom then (im, Some(DicomReadError(path)))
    else (im + dicom[path], None)
  }

  /** The instance map of one image; the tags of its DICOM file (found
      through `RealPath`) are added when asked for, and a file that fails
      to read only leaves the map without them. */
  function InstanceJson(e: Env, studyUid: string, ser: Series, inst: Instance): map<string, string>
  {
    var im := BaseInstance(e, studyUid, ser, inst);
    if e.withTags then SetTags(e.dicom, e.ref.RealPath(inst.data.dicomPath), im).0 else im
  }

  /** The instance maps of `insts`, in order. */
  function InstancesOf(e: Env, studyUid: string, ser: Series, insts: seq<Instance>): seq<map<string, string>>
    decreases |insts|
  {
    if insts == [] then []
    else InstancesOf(e, studyUid, ser, insts[..|insts| - 1]) + [InstanceJson(e, studyUid, ser, insts[|insts| - 1])]
  }

  /** The viewer series of one descriptor series. */
  function SeriesJsonOf(e: Env, studyUid: string, ser: Series): SeriesJson
  {
    SeriesJson(ser.description, ser.uid, Itoa(ser.number), ser.modality,
               InstancesOf(e, studyUid, ser, ser.instances))
  }

  /** The viewer series of `series`, in order. */
  function SeriesOf(e: Env, studyUid: string, series: seq<Series>): seq<SeriesJson>
    decreases |series|
  {
    if series == [] then []
    else SeriesOf(e, studyUid, series[..|series| - 1]) + [SeriesJsonOf(e, studyUid, series[|series| - 1])]
  }

  /** The study fields, before any series is added. */
  function Header(m: ImageList): StudyJson
  {
    var p := m.patient;
    var st := p.visit.study;
    StudyJson(st.uid, st.date, p.OwnerName(), p.birth, p.id, p.sex, p.AnimalRace(), p.AnimalName(), [])
  }

  /** The viewer JSON of the descriptor `m`. */
  function Project(e: Env, m: ImageList): StudyJson
  {
    var st := m.patient.visit.study;
    Header(m).(series := SeriesOf(e, st.uid, st.series))
  }

  /** A sequence built by appending the image of the last element to the
      images of the others holds the image of each element at its index. */
  lemma AppendedIndex<A, B>(xs: seq<A>, prefix: seq<B>, whole: seq<B>, f: A -> B)
    requires xs != [] && whole == prefix + [f(xs[|xs| - 1])]
    requires |prefix| == |xs| - 1
    requires forall j :: 0 <= j < |xs| - 1 ==> prefix[j] == f(xs[..|xs| - 1][j])
    ensures |whole| == |xs|
    ensures forall j :: 0 <= j < |xs| ==> whole[j] == f(xs[j])
  {
    forall j | 0 <= j < |xs| ensures whole[j] == f(xs[j]) {
      if j < |xs| - 1 {
        assert whole[j] == prefix[j];
        assert xs[..|xs| - 1][j] == xs[j];
      }
    }
  }

  /** One map per instance: the `j`-th map is that of the `j`-th instance. */
  lemma {:induction false} InstancesOfIndex(e: Env, studyUid: string, ser: Series, insts: seq<Instance>)
    ensures |InstancesOf(e, studyUid, ser, insts)| == |insts|
    ensures forall j :: 0 <= j < |insts| ==>
              InstancesOf(e, studyUid, ser, insts)[j] == InstanceJson(e, studyUid, ser, insts[j])
    decreases |insts|
  {
    if insts != [] {
      var n := |insts| - 1;
      InstancesOfIndex(e, studyUid, ser, insts[..n]);
      AppendedIndex(insts, InstancesOf(e, studyUid, ser, insts[..n]), InstancesOf(e, studyUid, ser, insts), x => InstanceJson(e, studyUid, ser, x));
    }
  }

  /** One viewer series per series: the `i`-th is that of the `i`-th. */
  lemma {:induction false} SeriesOfIndex(e: Env, studyUid: string, series: seq<Series>)
    ensures |SeriesOf(e, studyUid, series)| == |series|
    ensures forall i :: 0 <= i < |series| ==>
              SeriesOf(e, studyUid, series)[i] == SeriesJsonOf(e, studyUid, series[i])
    decreases |series|
  {
    if series != [] {
      var n := |series| - 1;
      SeriesOfIndex(e, studyUid, series[..n]);
      AppendedIndex(series, SeriesOf(e, studyUid, series[..n]), SeriesOf(e, studyUid, series), x => SeriesJsonOf(e, studyUid, x));
    }
  }

  /** The study and patient fields come from the descriptor: UID and date
      of the study, the owner's name as patient name, birth, ID and sex
      copied, and the animal's name and race from the name field. Series
      come one per descriptor series, in order, numbered with `Itoa` and
      carrying the description, UID and modality, with one instance map
      per image. */
  lemma ProjectShape(e: Env, m: ImageList)
    ensures var p := Project(e, m);
            var st := m.patient.visit.study;
            p.uid == st.uid && p.date == st.date && p.patientName == m.patient.OwnerName()
            && p.patientBirthDate == m.patient.birth && p.patientId == m.patient.id
            && p.patientSex == m.patient.sex && p.animalName == m.patient.AnimalName()
            && p.animalRace == m.patient.AnimalRace()
            && |p.series| == |st.series|
            && forall i :: 0 <= i < |st.series| ==>
                 p.series[i].number == Itoa(st.series[i].number)
                 && p.series[i].description == st.series[i].description
                 && p.series[i].uid == st.series[i].uid
                 && p.series[i].modality == st.series[i].modality
                 && |p.series[i].instances| == |st.series[i].instances|
  {
    var st := m.patient.visit.study;
    SeriesOfIndex(e, st.uid, st.series);
    forall i | 0 <= i < |st.series|
      ensures |Project(e, m).series[i].instances| == |st.series[i].instances|
    {
      InstancesOfIndex(e, st.uid, st.series[i], st.series[i].instances);
    }
  }

  /** The instance map at series `i`, image `j`. */
  lemma ProjectInstance(e: Env, m: ImageList, i: nat, j: nat)
    requires i < |m.patient.visit.study.series| && j < |m.patient.visit.study.series[i].instances|
    ensures var st := m.patient.visit.study;
            |Project(e, m).series| == |st.series|
            && |Project(e, m).series[i].instances| == |st.series[i].instances|
            && Project(e, m).series[i].instances[j] == InstanceJson(e, st.uid, st.series[i], st.series[i].instances[j])
  {
    var st := m.patient.visit.study;
    SeriesOfIndex(e, st.uid, st.series);
    InstancesOfIndex(e, st.uid, st.series[i], st.series[i].instances);
  }

  /** Without tags, every instance map has exactly the six keys, with the
      instance number, the instance UID, the URL of study, series and
      instance, and the series UID as frame of reference. */
  lemma ProjectWithoutTags(e: Env, m: ImageList, i: nat, j: nat)
    requires !e.withTags
    requires i < |m.patient.visit.study.series| && j < |m.patient.visit.study.series[i].instances|
    ensures var st := m.patient.visit.study;
            var ser := st.series[i];
            var inst := ser.instances[j];
            var p := Project(e, m);
            i < |p.series| && j < |p.series[i].instances|
            && var im := p.series[i].instances[j];
            im.Keys == InstanceKeys && im["instanceNumber"] == Itoa(inst.number)
            && im["sopInstanceUid"] == inst.uid && im["url"] == e.url(st.uid, ser.uid, inst.uid)
            && im["frameOfReferenceUID"] == ser.uid
  {
    var st := m.patient.visit.study;
    ProjectInstance(e, m, i, j);
    BaseInstanceSpec(e, st.uid, st.series[i], st.series[i].instances[j]);
  }

  /** With tags the image is still there: its map holds the six keys and
      every tag its DICOM file yields; a file that fails to read leaves the
      map as it is without tags. */
  lemma ProjectWithTags(e: Env, m: ImageList, i: nat, j: nat)
    requires e.withTags
    requires i < |m.patient.visit.study.series| && j < |m.patient.visit.study.series[i].instances|
    ensures var st := m.patient.visit.study;
            var ser := st.series[i];
            var inst := ser.instances[j];
            var path := e.ref.RealPath(inst.data.dicomPath);
            var p := Project(e, m);
            i < |p.series| && j < |p.series[i].instances|
            && var im := p.series[i].instances[j];
            (path in e.dicom ==> im.Keys == InstanceKeys + e.dicom[path].Keys)
            && (path !in e.dicom ==> im == BaseInstance(e, st.uid, ser, inst))
  {
    var st := m.patient.visit.study;
    ProjectInstance(e, m, i, j);
    BaseInstanceSpec(e, st.uid, st.series[i], st.series[i].instances[j]);
  }

  /** The body of the inner loop of `JSONFromDXR`: the map of one
      instance, with the tags of its DICOM file merged in when asked for
      (a file that does not read leaves the map as it is). */
  method InstanceMap(ref: StudyRef, url: UrlFactory, withTags: bool, dicom: DicomFiles,
                     studyUid: string, ser: Series, inst: Instance)
    returns (im: map<string, string>)
    ensures im == InstanceJson(Env(ref, url, withTags, dicom), studyUid, ser, inst)
  {
    im := map["instanceNumber" := Itoa(inst.number),
              "sopInstanceUid" := inst.uid,
              "url" := url(studyUid, ser.uid, inst.uid),
              "frameOfReferenceUID" := ser.uid,
              "imageOrientationPatient" := ImageOrientation,
              "imagePositionPatient" := ImagePosition];
    if withTags {
      var path := ref.RealPath(inst.data.dicomPath);
      var tagged := SetTags(dicom, path, im);
      im := tagged.0;
    }
  }

  /** The inner loop of `JSONFromDXR`: the series object of `ser`, with
      one instance map appended per image. */
  method SeriesObject(ref: StudyRef, url: UrlFactory, withTags: bool, dicom: DicomFiles,
                      studyUid: string, ser: Series)
    returns (sm: SeriesJson)
    ensures sm == SeriesJsonOf(Env(ref, url, withTags, dicom), studyUid, ser)
  {
    ghost var e := Env(ref, url, withTags, dicom);
    sm := SeriesJson(ser.description, ser.uid, Itoa(ser.number), ser.modality, []);
    for j := 0 to |ser.instances|
      invariant sm == SeriesJson(ser.description, ser.uid, Itoa(ser.number), ser.modality,
                                 InstancesOf(e, studyUid, ser, ser.instances[..j]))
    {
      var im := InstanceMap(ref, url, withTags, dicom, studyUid, ser, ser.instances[j]);
      assert ser.instances[..j + 1][..j] == ser.instances[..j];
      sm := sm.(instances := sm.instances + [im]);
    }
    assert ser.instances[..|ser.instances|] == ser.instances;
  }

  /** `JSONFromDXR`: loads the descriptor (a failure is returned before
      anything is built) and projects it, appending one series object per
      series and one instance map per image. */
  method JSONFromDXR(fs: FS, s: Fsdb.Study, url: UrlFactory, withTags: bool, dicom: DicomFiles)
    returns (r: Result<StudyJson>)
    modifies s
    ensures r.Err? <==> s.ref.DescriptorPath() !in fs.descriptors
    ensures r.Err? ==> r.error == ReadDescriptor(fs, s.ref.DescriptorPath()).error && s.model == old(s.model)
    ensures r.Ok? ==> s.model == Some(fs.descriptors[s.ref.DescriptorPath()])
                      && r.value == Project(Env(s.ref, url, withTags, dicom), s.model.value)
  {
    var err := s.Load(fs);
    if err.Some? {
      return Err(err.value);
    }
    ghost var e := Env(s.ref, url, withTags, dicom);
    var (xml, _) := s.Model();
    var st := xml.patient.visit.study;
    var model := Header(xml);
    for i := 0 to |st.series|
      invariant model == Header(xml).(series := SeriesOf(e, st.uid, st.series[..i]))
      invariant s.model == Some(xml)
    {
      var sm := SeriesObject(s.ref, url, withTags, dicom, st.uid, st.series[i]);
      assert st.series[..i + 1][..i] == st.series[..i];
      model := model.(series := model.series + [sm]);
    }
    assert st.series[..|st.series|] == st.series;
    return Ok(model);
  }
}
