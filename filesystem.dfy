/** The part of the host filesystem the archive layer observes, as a value.

    A directory is known by its listing, a sequence of `(name, isDir)`
    entries in the order `ioutil.ReadDir` returns them (sorted by name); a
    plain file is known by its path. The decoded `study.xml` descriptors
    stand for Go's `models.FromFile`, whose XML and charset decoding is not
    part of this model: a descriptor path is either decoded to an
    `ImageList` or fails to decode. */
module FileSystem {

  import opened Wrappers
  import opened GoStrings
  import opened Models

  /** One entry of a directory listing. */
  datatype Entry = Entry(name: string, isDir: bool)

  datatype FS = FS(dirs: map<string, seq<Entry>>, files: set<string>,
                   descriptors: map<string, ImageList>)

  /** `filepath.Join(a, b)` for two elements: empty elements are dropped and
      the rest is joined with a slash. Cleaning of the joined path (removing
      `//`, `.` and `..`) is not modelled; every path the archive layer joins
      is taken to be clean already. */
  function JoinPath(a: string, b: string): (p: string)
    ensures a != "" && b != "" ==> p == a + "/" + b
    ensures a == "" ==> p == b
    ensures b == "" ==> p == a
  {
    if a == "" then b else if b == "" then a else a + "/" + b
  }

  /** `os.Stat(p).IsDir()`, or the error `os.Stat` reports. */
  function Stat(fs: FS, p: string): (r: Result<bool>)
    ensures r == Ok(true) <==> p in fs.dirs
    ensures r == Ok(false) <==> p !in fs.dirs && p in fs.files
    ensures r.Err? <==> p !in fs.dirs && p !in fs.files
  {
    if p in fs.dirs then Ok(true)
    else if p in fs.files then Ok(false)
    else Err(NotFound(p))
  }

  /** `ioutil.ReadDir(p)`. */
  function ReadDir(fs: FS, p: string): (r: Result<seq<Entry>>)
    ensures r.Ok? <==> p in fs.dirs
    ensures r.Ok? ==> r.value == fs.dirs[p]
  {
    if p in fs.dirs then Ok(fs.dirs[p])
    else if p in fs.files then Err(NotADirectory(p))
    else Err(NotFound(p))
  }

  /** `models.FromFile(p)`: a missing file fails to open, a present one that
      does not decode fails to parse. */
  function ReadDescriptor(fs: FS, p: string): (r: Result<ImageList>)
    ensures r.Ok? <==> p in fs.descriptors
    ensures r.Ok? ==> r.value == fs.descriptors[p]
  {
    if p in fs.descriptors then Ok(fs.descriptors[p])
    else if p in fs.files then Err(ParseError(p))
    else Err(NotFound(p))
  }

  /** A listing agrees with the tree: every entry that claims to be a
      directory is one, and every other entry is a plain file. */
  predicate Consistent(fs: FS)
  {
    forall p, k :: p in fs.dirs && 0 <= k < |fs.dirs[p]| ==>
      (fs.dirs[p][k].isDir ==> JoinPath(p, fs.dirs[p][k].name) in fs.dirs) &&
      (!fs.dirs[p][k].isDir ==> JoinPath(p, fs.dirs[p][k].name) in fs.files)
  }

  /** A directory entry of a consistent tree names a directory that can be
      listed. */
  lemma EntryIsDir(fs: FS, p: string, k: nat)
    requires Consistent(fs) && p in fs.dirs && k < |fs.dirs[p]| && fs.dirs[p][k].isDir
    ensures Stat(fs, JoinPath(p, fs.dirs[p][k].name)) == Ok(true)
    ensures ReadDir(fs, JoinPath(p, fs.dirs[p][k].name)).Ok?
  {
  }
}
