# dxray: a verified model of the DX-R archive indexer

`dxray` reads the ORconsoleDB folder that a DX-R radiography station writes, builds a full-text index over the studies in it, and serves them to the OHIF web viewer.

- The folder holds volume directories named `VOLxxxxx`.
- Each volume holds study directories named `<n>_<suffix>`.
- Each study holds a `study.xml` descriptor and the DICOM files that the descriptor names.

This project models the core of that program in Dafny and proves properties of the model:

- **The archive view** (`Fsdb`): opening the root, volumes and studies, listing them, visitor walks, volume and study indices, and rewriting recorded image paths.
- **The study handle** (`Fsdb.Study`): a class whose `model` field is filled by `Load`.
- **The patient-name decomposition** (`Models`).
- **The scanner** (`Scanner`): it hands every study of the archive to its consumer, one at a time, until cancelled.
- **The search index** (`Search`): a class holding the indexed documents, with insert-if-absent `Add`, key round trips and `Get`.
- **The indexer** (`Indexer`, `LegacyIndexer`): it drains the scanner into the index and counts new, known and failed studies.
- **The viewer projection** (`Ohif`).
- **The HTTP handlers**: list (`ApiList`), search (`ApiSearch`), WADO retrieval (`ApiWado`) and their helpers (`ApiUtils`). `LegacyApi` holds the older copies of these handlers in `cmd/dxray/api.go`.

The parts of Go's standard library that the core relies on are modelled in `GoStrings`, `GoStrconv`, `GoSort` and `FileSystem`. These are `strings.Split`, `Join`, `Trim`, `TrimSpace`, `ToLower` and `Replace(…, 1)`; `strconv.ParseInt`, `Itoa` and `%q`; `%05d`; the reverse string sort; and the file system calls.

## How the model is built

**The disk is a value.** The file system is the value `FS(dirs, files, descriptors)`.
- `dirs` maps each directory to its listing, in order.
- `descriptors` is what XML decoding of `study.xml` yields; a missing entry is a read or decode failure.
- The DICOM tag reader is a map from path to tags.
- The search engine is a function from query text to hit keys.
- Index store faults and the scanner's cancellation are given as functions of the step number, so every outcome of the real program is one choice of these inputs.

**A goroutine scan is a sequence.** The scanner's channel is the sequence of studies it sends. Cancellation is consulted once per send.

**A crashing handler has an outcome.** A handler's answer is a `Response`: `Json`, `File`, `Status(code)`, `NoResponse` (the handler returns without writing) or `Crash` (a Go runtime panic).

**Behaviour worth knowing** (the model follows the code):
- **Reloading:** `Load` reads the descriptor again on every call (`pkg/dxr/fsdb/study.go:88-115`). Only `ensureLoaded` skips a loaded study, and nothing calls it. It is modelled as `Fsdb.Study.EnsureLoaded`.
- **Volume names:** the comment at `pkg/dxr/fsdb/volume.go:71` describes them as `VOLxxxxx` with `x` a digit, but `VolumeNames` keeps every directory that starts with `VOL` (`internal/dxr/fsdb/fsdb.go:75`). Neither the length nor the digits are checked.
- **Scan errors:** `scan` drops the error that `ForEachVolume` returns (`internal/scan/scanner.go:73-75`). A listing failure ends the scan early without any error, and `FullScan` always returns `nil`.
- **A short page:** the list handler never answers a page that the archive cannot fill. It panics instead (see Findings).

## Model

| member | source | states |
|---|---|---|
| GoStrings.IndexOf | pkg/dxr/models/study.go:73 | the first position of the separator: it holds the separator and nothing before it does |
| GoStrings.Split | pkg/dxr/models/study.go:73 | `strings.Split` with a one-character separator yields at least one piece and no piece holds the separator |
| GoStrings.JoinSplit | pkg/dxr/models/study.go:106 | joining the pieces of a split with the same separator gives back the input |
| GoStrings.SplitJoin | pkg/dxr/models/study.go:106 | splitting the join of separator-free pieces gives back the pieces |
| GoStrings.IndexOfConcat | pkg/dxr/models/study.go:73 | the first separator of `a + b`, when `a` has none, is found in `b` at offset `|a|` |
| GoStrings.SplitCount | pkg/dxr/fsdb/study.go:67-70 | the number of pieces is the number of separators plus one |
| GoStrings.SplitOne | pkg/dxr/fsdb/study.go:67-72 | with exactly one separator the split is the text before it and the text after it |
| GoStrings.SplitNone | internal/search/search.go:151-154 | a string without the separator splits into itself |
| GoStrings.SplitHead | pkg/dxr/models/study.go:73-78 | with a separator present there are at least two pieces and the first is the text before the first separator |
| GoStrings.Trim | pkg/dxr/fsdb/volume.go:76 | `strings.Trim(s, cut)`: the definition, `TrimRight` of `TrimLeft`; its properties are stated by GoStrings.TrimBothSlice |
| GoStrings.TrimSpace | pkg/dxr/models/study.go:89 | `strings.TrimSpace`: the definition, `Trim` with the white space set; its properties are stated by GoStrings.TrimSpaceSlice and GoStrings.TrimSpaceNoEnds |
| GoStrings.TrimLeft | pkg/dxr/fsdb/volume.go:76 | what is kept is a suffix of the input that does not start in the cut set, and everything cut is in it |
| GoStrings.TrimRight | pkg/dxr/fsdb/volume.go:76 | what is kept is a prefix of the input that does not end in the cut set, and everything cut is in it |
| GoStrings.TrimLeftSkips | pkg/dxr/fsdb/volume.go:76 | leading characters from the cut set do not change what is kept |
| GoStrings.TrimLeftStops | pkg/dxr/fsdb/volume.go:76 | a string that does not start in the cut set is kept whole |
| GoStrings.TrimRightStops | pkg/dxr/fsdb/volume.go:76 | a string that does not end in the cut set is kept whole |
| GoStrings.TrimLeftAll | pkg/dxr/fsdb/volume.go:76-79 | a string made only of cut characters trims to nothing |
| GoStrings.TrimBothSlice | pkg/dxr/fsdb/volume.go:76 | trimming both ends keeps a slice of the input with no cut character at either end, and everything cut off is in the cut set |
| GoStrings.TrimSpaceSlice | pkg/dxr/models/study.go:89 | `strings.TrimSpace` keeps a slice with no white space at either end, and cuts off only white space |
| GoStrings.TrimSpaceNoEnds | pkg/dxr/models/study.go:89 | a string with no white space at either end is unchanged |
| GoStrings.ToLower | pkg/dxr/fsdb/study.go:127 | same length, and every character is lower-cased on its own |
| GoStrings.FindFrom | internal/api/wado_endpoint.go:53-54 | the first occurrence at or after a position, or none at or after it |
| GoStrings.ReplaceFirst | internal/api/wado_endpoint.go:53-54 | `strings.Replace(s, pat, repl, 1)`: the definition; its meaning is stated by GoStrings.ReplaceFirstSpec |
| GoStrings.ReplaceFirstSpec | internal/api/wado_endpoint.go:53-54 | `strings.Replace(s, pat, repl, 1)` replaces the first occurrence only, or returns `s` when there is none |
| GoStrconv.DigitChar | pkg/ohif/model.go:94 | the digit character of a value below ten is a digit whose value is that value |
| GoStrconv.Decimal | pkg/ohif/model.go:94 | the decimal form of a natural is digits only, has no leading zero and denotes the number |
| GoStrconv.Itoa | pkg/ohif/model.go:94 | `strconv.Itoa`: the definition, a minus sign for negatives then the decimal form; GoStrconv.ParseItoa and GoStrconv.ItoaChars state its properties |
| GoStrconv.Format05d | internal/dxr/fsdb/fsdb.go:107 | `fmt.Sprintf("%05d", n)`: the definition, zero padding to five digits; GoStrconv.Format05dSmall states its meaning |
| GoStrconv.ParseInt | internal/api/utils.go:74 | a successful `strconv.ParseInt(v, 10, 64)` result lies in the int64 range |
| GoStrconv.ParseItoa | pkg/dxr/fsdb/study.go:72 | parsing what `Itoa` writes gives back every int64 |
| GoStrconv.ParseSigned | internal/api/utils.go:74 | a sign followed by digits within range parses to the signed value |
| GoStrconv.ParseDigits | pkg/dxr/fsdb/volume.go:81 | a digit string within range parses to its value |
| GoStrconv.DecimalValueLeadingZeros | pkg/dxr/fsdb/volume.go:81 | leading zeros do not change the value of a digit string |
| GoStrconv.AllZeros | pkg/dxr/fsdb/volume.go:76-78 | a string of zeros is digits only and has value 0 |
| GoStrconv.Zeros | internal/dxr/fsdb/fsdb.go:107 | the padding of `%05d` has the requested length and holds only zeros |
| GoStrconv.Format05dSmall | internal/dxr/fsdb/fsdb.go:107 | below 100000, `%05d` writes five digits that denote the number |
| GoStrconv.DecimalLength | internal/dxr/fsdb/fsdb.go:107 | the length of the decimal form grows by one digit per factor of ten |
| GoStrconv.DecimalLast | pkg/dxr/fsdb/volume.go:76 | the last digit of the decimal form is `n % 10` and the rest is the form of `n / 10` |
| GoStrconv.DecimalValuePrefix | pkg/dxr/fsdb/volume.go:76-86 | a proper prefix of a digit string is at most a tenth of its value |
| GoStrconv.ItoaChars | pkg/ohif/model.go:94 | `Itoa` writes only digits and the minus sign |
| GoStrconv.DecimalTimesTen | pkg/dxr/fsdb/volume.go:76 | ten times a positive number is written as that number followed by one zero |
| GoStrconv.Quote | internal/api/utils.go:42 | `%q` of a string (`strconv.Quote`): the definition, quotes around the escaped characters; GoStrconv.QuoteRoundTrip and GoStrconv.QuoteSafeString state its properties |
| GoStrconv.Unquote | internal/api/utils.go:42 | the decoder of a double-quoted Go literal, used only as the inverse of `Quote`: the partner of GoStrconv.QuoteRoundTrip |
| GoStrconv.UnescapeOne | internal/api/utils.go:42 | undoing the `%q` escape of one character gives that character back in front of the rest |
| GoStrconv.UnescapeEscape | internal/api/utils.go:42 | undoing the `%q` escape of a string gives the string back |
| GoStrconv.QuoteRoundTrip | internal/api/utils.go:42 | the `%q` quoting of the UID query always unquotes to the UID |
| GoStrconv.QuoteSafeString | internal/api/utils.go:42 | a UID of printable ASCII characters other than quote and backslash is quoted by just adding quotes |
| GoStrconv.EscapeSafe | internal/api/utils.go:42 | a string of printable ASCII characters other than quote and backslash needs no escapes |
| GoSort.LexLeRefl | internal/api/list_endpoint.go:48 | the byte order of strings is reflexive |
| GoSort.LexLeTotal | internal/api/list_endpoint.go:48 | the order is total |
| GoSort.LexLeAntisym | internal/api/list_endpoint.go:48 | the order is antisymmetric |
| GoSort.LexLeTrans | internal/api/list_endpoint.go:48 | the order is transitive |
| GoSort.InsertPerm | internal/api/list_endpoint.go:48 | one insertion step adds exactly the inserted name to the multiset |
| GoSort.InsertSorted | internal/api/list_endpoint.go:48 | inserting into a decreasing list keeps it decreasing |
| GoSort.ReverseSortedSpec | internal/api/list_endpoint.go:48 | `sort.Sort(sort.Reverse(sort.StringSlice(xs)))` yields a decreasing permutation of `xs` |
| GoSort.HeadIsMax | internal/api/list_endpoint.go:48 | the head of a decreasing list is its largest element |
| GoSort.SortedTail | internal/api/list_endpoint.go:71 | the tail of a decreasing list is decreasing |
| GoSort.SameTail | internal/api/list_endpoint.go:71 | two permutations with the same head have tails that are permutations of each other |
| GoSort.SortedUnique | internal/api/list_endpoint.go:71 | two decreasing permutations of each other are equal |
| GoSort.ReverseSortedUnique | internal/api/list_endpoint.go:71 | every decreasing permutation of the input is the sorted result, so the order does not depend on the sort algorithm |
| FileSystem.JoinPath | pkg/dxr/fsdb/volume.go:64 | `filepath.Join` of two elements puts one slash between them, and an empty element drops out |
| FileSystem.Stat | internal/dxr/fsdb/fsdb.go:46-52 | a path is a directory, a file, or missing, and the result says which |
| FileSystem.ReadDir | internal/dxr/fsdb/fsdb.go:63-66 | listing succeeds exactly on directories and returns their entries in order; a plain file and a missing path are the two errors (a directory that cannot be read is not modelled) |
| FileSystem.ReadDescriptor | pkg/dxr/models/study.go:125-133 | decoding succeeds exactly where a descriptor is present, and returns it |
| FileSystem.EntryIsDir | pkg/dxr/fsdb/volume.go:110-119 | in a consistent archive, a directory entry opens as a directory that can be listed |
| Models.OwnerName | pkg/dxr/models/study.go:72-79 | `OwnerName`: the definition; its meaning is stated by Models.OwnerNameSpec |
| Models.AnimalName | pkg/dxr/models/study.go:83-91 | `AnimalName`: the definition; its meaning is stated by Models.AnimalNameSpec |
| Models.AnimalRace | pkg/dxr/models/study.go:95-108 | `AnimalRace`: the definition; its meaning is stated by Models.AnimalRaceSpec |
| Models.TwoParts | pkg/dxr/models/study.go:73-78 | the name splits on `^` into two parts exactly when it holds one caret, and the parts are the text around it |
| Models.OwnerNameSpec | pkg/dxr/models/study.go:72-79 | the owner is the text before the caret, or the whole name when there is not exactly one caret |
| Models.AnimalNameSpec | pkg/dxr/models/study.go:83-91 | "unknown" without exactly one caret; otherwise the first space-separated word of the trimmed remainder |
| Models.AnimalRaceSpec | pkg/dxr/models/study.go:95-108 | "unknown" without exactly one caret or without a space in the trimmed remainder; otherwise everything after the first space |
| Models.Reconstruction | pkg/dxr/models/study.go:89-106 | animal name, one space and race give back the trimmed remainder |
| Models.AnimalNameHasNoSpace | pkg/dxr/models/study.go:89-90 | the animal name never holds a space |
| Models.NameOnly | pkg/dxr/models/study.go:72-108 | the three name fields depend on the name field alone |
| Models.CaretAt | pkg/dxr/models/study.go:73 | `owner^rest` with caret-free parts has its one caret after the owner |
| Models.SpaceAt | pkg/dxr/models/study.go:89 | `animal race` with a space-free animal has its first space after the animal |
| Models.ComposedRemainder | pkg/dxr/models/study.go:89 | trimming the remainder of `owner^animal race` leaves `animal race` when neither end is white space |
| Models.Decompose | pkg/dxr/models/study.go:72-108 | `owner^animal race` decomposes back into owner, animal and race |
| Models.ExampleSmithRex | pkg/dxr/models/study.go:72-108 | "Smith^Rex Labrador" gives owner Smith, animal Rex, race Labrador |
| Models.ExampleNoCaret | pkg/dxr/models/study.go:72-108 | "NoCaretHere" gives itself as owner and "unknown" twice |
| Fsdb.New | internal/dxr/fsdb/fsdb.go:41-58 | the archive opens exactly on a directory; a plain file and a missing path are the two errors |
| Fsdb.OpenVolumeByName | internal/dxr/fsdb/fsdb.go:87-102 | a volume opens exactly when `root/name` is a directory, with no check of the name |
| Fsdb.OpenVolumeByIdx | internal/dxr/fsdb/fsdb.go:106-109 | the volume opened is the one named `VOL%05d` |
| Fsdb.OpenStudyByName | pkg/dxr/fsdb/volume.go:110-126 | a study opens exactly when its path is a directory, and its path is the volume path joined with its name |
| Fsdb.DirNames | internal/dxr/fsdb/fsdb.go:68-81 | the filtered names are never more than the entries |
| Fsdb.DirNamesConcat | internal/dxr/fsdb/fsdb.go:68-81 | the filter keeps the listing order: it distributes over concatenation |
| Fsdb.DirNamesMembers | internal/dxr/fsdb/fsdb.go:68-81 | a name is listed exactly when some directory entry of that name has the prefix |
| Fsdb.StudiesAreDirectories | pkg/dxr/fsdb/volume.go:136-145 | a study name is listed exactly when the volume has a directory entry of that name |
| Fsdb.VolumeNames | internal/dxr/fsdb/fsdb.go:62-83 | the loop yields the directories with the `VOL` prefix in listing order, or the listing error |
| Fsdb.Studies | pkg/dxr/fsdb/volume.go:130-148 | the loop yields the directory names of the volume in listing order, or the listing error |
| Fsdb.CountStudies | pkg/dxr/fsdb/volume.go:91-106 | the count is the number of studies that `Studies` lists, and the two fail together with the same error |
| Fsdb.VisitVolumesStops | internal/dxr/fsdb/fsdb.go:119-128 | once a visit fails, the volumes after it are not visited |
| Fsdb.VisitVolumesContinues | internal/dxr/fsdb/fsdb.go:119-128 | a visit that ends without error hands its state on to the rest |
| Fsdb.ForEachVolume | internal/dxr/fsdb/fsdb.go:113-130 | the loop lists the volumes and visits each in order until the first open or callback error |
| Fsdb.VisitStudiesStops | pkg/dxr/fsdb/volume.go:158-168 | once a visit fails, the studies after it are not visited |
| Fsdb.VisitStudiesContinues | pkg/dxr/fsdb/volume.go:158-168 | a visit that ends without error hands its state on to the rest |
| Fsdb.ForEachStudy | pkg/dxr/fsdb/volume.go:152-169 | the loop lists the studies and visits each in order until the first open or callback error |
| Fsdb.First | pkg/dxr/fsdb/volume.go:175-186 | a listing error, nothing for an empty volume, otherwise the open of the first listed study |
| Fsdb.Last | pkg/dxr/fsdb/volume.go:192-203 | a listing error, nothing for an empty volume, otherwise the open of the last listed study |
| Fsdb.Study.constructor | pkg/dxr/fsdb/volume.go:121-125 | a fresh handle keeps its study and has no model |
| Fsdb.Study.Model | pkg/dxr/fsdb/study.go:97-103 | the model and true once loaded, otherwise the zero descriptor and false |
| Fsdb.Study.Load | pkg/dxr/fsdb/study.go:88-115 | succeeds exactly when `study.xml` decodes, stores it then, and leaves the model alone on failure |
| Fsdb.Study.EnsureLoaded | pkg/dxr/fsdb/study.go:117-123 | a loaded handle is left as it is; otherwise it loads |
| Fsdb.StudyPath | pkg/dxr/fsdb/study.go:60-62 | a study path is `root/volume/study` |
| Fsdb.Volume.Index | pkg/dxr/fsdb/volume.go:70-87 | `Volume.Index` as written, with `strings.Trim(·, "0")`: the definition; Fsdb.VolumeIndexEdges, Fsdb.VolumeIndexRoundTrip and Fsdb.VolumeIndexTrailingZero state what it reads back |
| Fsdb.Volume.IndexCorrected | pkg/dxr/fsdb/volume.go:70-87 | `Volume.Index` with only the leading zeros trimmed: the corrected definition; Fsdb.VolumeIndexCorrectedRoundTrip states its round trip |
| Fsdb.VolumeIndexEdges | pkg/dxr/fsdb/volume.go:70-79 | names shorter than eight characters give -1, and names with only zeros after the first three characters give 0 |
| Fsdb.VolumeNameLength | internal/dxr/fsdb/fsdb.go:107 | `VOL%05d` of 0..99999 has eight characters and ends in the five-digit form |
| Fsdb.TrimPadding | pkg/dxr/fsdb/volume.go:76 | trimming zeros from the left removes exactly the zero padding |
| Fsdb.TrimDecimalRight | pkg/dxr/fsdb/volume.go:76 | trimming zeros from the right of a decimal form keeps all of it exactly when its last digit is not 0 |
| Fsdb.TrimPadded | pkg/dxr/fsdb/volume.go:76 | `strings.Trim(·, "0")` of the five-digit form is the decimal form less its trailing zeros |
| Fsdb.VolumeIndexRoundTrip | pkg/dxr/fsdb/volume.go:70-87 | the index of the volume `OpenVolumeByIdx(idx)` names is `idx` exactly when `idx` is 0 or does not end in 0 |
| Fsdb.VolumeIndexTrailingZero | pkg/dxr/fsdb/volume.go:76-86 | "VOL00010" has index 1 |
| Fsdb.VolumeIndexCorrectedRoundTrip | pkg/dxr/fsdb/volume.go:70-87 | with only leading zeros trimmed, every `VOL%05d` name reads back its index |
| Fsdb.VolumeIndexCorrectedAgrees | pkg/dxr/fsdb/volume.go:70-87 | the corrected and the written index agree exactly on the indices that are 0 or do not end in 0 |
| Fsdb.VolumeIndexIgnoresPrefix | pkg/dxr/fsdb/volume.go:72-76 | the index never looks at the first three characters |
| Fsdb.VolumeIndexNoPrefixCheck | pkg/dxr/fsdb/volume.go:70-87 | "ABC00012" has index 12 |
| Fsdb.StudyRef.Index | pkg/dxr/fsdb/study.go:66-78 | `Study.Index`: the definition; its meaning is stated by Fsdb.StudyIndexSpec and Fsdb.StudyIndexRoundTrip |
| Fsdb.StudyIndexSpec | pkg/dxr/fsdb/study.go:66-78 | -1 unless the name has exactly one underscore; otherwise the parse of the text before it, or -1 |
| Fsdb.StudyIndexRoundTrip | pkg/dxr/fsdb/study.go:66-78 | `<n>_<suffix>` with an underscore-free suffix has index `n` for every int64 `n` |
| Fsdb.StudyIndexExampleNumbered | pkg/dxr/fsdb/study.go:66-78 | "12_abc" has index 12 |
| Fsdb.StudyIndexExampleTwoUnderscores | pkg/dxr/fsdb/study.go:67-70 | "12_a_b" has index -1 |
| Fsdb.StudyIndexExampleNoUnderscore | pkg/dxr/fsdb/study.go:67-70 | "abc" has index -1 |
| Fsdb.StudyRef.RealPath | pkg/dxr/fsdb/study.go:125-134 | `Study.RealPath`: the definition; its meaning is stated by Fsdb.RealPathSpec and Fsdb.RealPathCaseInsensitive |
| Fsdb.RealPathSpec | pkg/dxr/fsdb/study.go:125-134 | a path whose lower-cased head is `/dicompacs/orconsoledb/` is moved under the root; every other path is unchanged |
| Fsdb.RealPathCaseInsensitive | pkg/dxr/fsdb/study.go:126-129 | two recorded paths that differ only in the case of the prefix resolve alike |
| Search.SeriesDescriptions | internal/search/search.go:132-136 | at most one line per series |
| Search.SeriesDescriptionsMembers | internal/search/search.go:132-136 | a line is there exactly when it is the non-empty description of some series |
| Search.DescriptionLinesMembers | internal/search/search.go:126-136 | a line is there exactly when it is the non-empty description of the study or of some series |
| Search.DescriptionRoundTrip | internal/search/search.go:145 | splitting the joined description on newlines gives back the lines when none holds a newline |
| Search.DocumentNames | internal/search/search.go:138-141 | the owner, patient and race of the document are those the name field composes |
| Search.LoadStudyOf | internal/search/search.go:119-147 | `LoadStudy` on values: the document built from the loaded descriptor, or the load error; Search.DescriptionLinesMembers and Search.DocumentNames state what it holds |
| Search.LoadStudy | internal/search/search.go:119-147 | loads the handle and builds the document, or returns the load error with the model unchanged |
| Search.Get | internal/search/search.go:150-167 | a study that opens lies in the archive that was asked |
| Search.GetRejects | internal/search/search.go:151-154 | a key is rejected as invalid exactly when it does not hold exactly one slash |
| Search.GetKey | internal/search/search.go:112-114 | `getKey`: the definition, `<volume>/<study>`; Search.GetKeyRoundTrip and Search.KeyGetRoundTrip pair it with `Get` |
| Search.GetKeyRoundTrip | internal/search/search.go:112-114 | the key of a study reopens that same study exactly when its volume and study directories exist |
| Search.KeyGetRoundTrip | internal/search/search.go:150-167 | a key that opens is the key of the study it opens |
| Search.AddSpec | internal/search/search.go:74-91 | `Add` on values, the insert-if-absent step; Search.AddGrowsByOne, Search.AddTwice and Search.AddKnownIgnoresArchive state its properties |
| Search.AddGrowsByOne | internal/search/search.go:74-91 | a successful new insert adds one document under the study's key; otherwise the documents are unchanged |
| Search.AddTwice | internal/search/search.go:74-91 | adding the same study twice reports new, then known, and the index grows by one |
| Search.AddKnownIgnoresArchive | internal/search/search.go:82-90 | a known key is reported as not new without reading the archive |
| Search.Index.constructor | internal/search/search.go:32-40 | a new index is empty |
| Search.Index.Count | internal/search/search.go:69-71 | the number of stored documents, or the store's error when it fails |
| Search.Index.Add | internal/search/search.go:74-91 | the documents and the result are those of the insert-if-absent step; a known key does not load the handle; the count rises by one exactly when the study was new and stored without error |
| Search.FaithfulHitCount | internal/api/utils.go:42-56 | on an engine that answers `uid:"…"` with exactly the documents of that UID, the hit count is the number of such documents |
| Scanner.RefsOf | internal/scan/scanner.go:78-88 | one handle per study name |
| Scanner.Sent | internal/scan/scanner.go:80-85 | no more studies are sent than offered |
| Scanner.SentPrefix | internal/scan/scanner.go:80-85 | what is sent is a prefix of what is offered |
| Scanner.SentStopsAtCancel | internal/scan/scanner.go:80-85 | every send happens before cancellation, and a short send stops at the first cancellation |
| Scanner.SentAll | internal/scan/scanner.go:80-85 | without cancellation everything offered is sent |
| Scanner.SentConcat | internal/scan/scanner.go:79-88 | sending two runs in a row stops inside the first when it is cut short, and otherwise goes on with the second |
| Scanner.ScanVolumeSends | internal/scan/scanner.go:78-89 | a volume scan sends a prefix of its studies: those sent before cancellation, or all of them without it |
| Scanner.ScanIsPrefix | internal/scan/scanner.go:70-76 | a scan sends a prefix of all studies of the archive, in volume order and then listing order |
| Scanner.ScanUntilCancelled | internal/scan/scanner.go:70-76 | in a consistent archive, the scan sends the studies up to the first cancellation |
| Scanner.ScanComplete | internal/scan/scanner.go:70-76 | in a consistent archive and without cancellation, the scan sends every study exactly once, in order |
| Scanner.ScanVolumeInto | internal/scan/scanner.go:78-89 | the visit of one volume appends what its callback sends |
| Scanner.Scan | internal/scan/scanner.go:30-36 | the channel carries the scan of the archive, and no error is ever returned |
| Scanner.ScanVolume | internal/scan/scanner.go:39-48 | the channel carries the scan of the volume, and no error is returned |
| Scanner.ScanVolumeName | internal/scan/scanner.go:51-58 | an open error when the volume directory is missing; otherwise the scan of that volume |
| Scanner.ScanVolumeID | internal/scan/scanner.go:61-68 | an open error when `VOL%05d` is missing; otherwise the scan of that volume |
| Indexer.IndexPathOf | internal/index/indexer.go:27-29 | an empty path becomes `index.bleve`; any other path is kept |
| Indexer.IndexRun | internal/index/indexer.go:87-103 | the loop of `FullScan` on values: the index and the tally after adding each scanned study in turn; Indexer.IndexRunTally, Indexer.IndexRunSize, Indexer.IndexRunKeys and Indexer.IndexRunCovers state its properties |
| Indexer.IndexRunStep | internal/index/indexer.go:87-103 | proof step, unfolding the definition by one element: one more study extends the run by its insert outcome and its tally |
| Indexer.IndexRunAt | internal/index/indexer.go:87-103 | proof step, unfolding the definition by one element: the run over the first `i + 1` studies is the run over the first `i` plus study `i` |
| Indexer.IndexRunTally | internal/index/indexer.go:88-103 | every study is counted once, as new, known or failed |
| Indexer.IndexRunGrows | internal/index/indexer.go:87-103 | no document is removed or changed by a run |
| Indexer.IndexRunSize | internal/index/indexer.go:87-103 | the index grows by exactly the number counted as new |
| Indexer.IndexRunKeys | internal/index/indexer.go:87-103 | the only keys added are those of the scanned studies |
| Indexer.IndexRunCovers | internal/index/indexer.go:87-103 | without store faults, every scanned study whose descriptor loads is in the index afterwards |
| Indexer.FullScanCovers | internal/index/indexer.go:69-130 | without cancellation or store faults, a full scan indexes every loadable study of a consistent archive and nothing else |
| Indexer.ProgressOf | internal/index/indexer.go:105-112 | the counts at which `FullScan` logs its progress; Indexer.ProgressSpec states which |
| Indexer.ProgressStep | internal/index/indexer.go:105-112 | proof step, unfolding the definition by one element: one more study adds a progress line exactly when the count is a multiple of 100 and the run is slow |
| Indexer.ProgressSpec | internal/index/indexer.go:105-112 | progress is logged at exactly the counts that are multiples of 100 reached while slow |
| Indexer.StudyIndexer.constructor | internal/index/indexer.go:31-35 | the indexer keeps its archive and path and starts with an empty index |
| Indexer.StudyIndexer.IndexOne | internal/index/indexer.go:89 | the index after one `Add` is that of the insert-if-absent step |
| Indexer.StudyIndexer.IndexStep | internal/index/indexer.go:88-112 | one loop round: the counters and progress lines of the run over one more study |
| Indexer.StudyIndexer.FullScan | internal/index/indexer.go:69-130 | the index ends as the run over the scanned studies; the counts are its tally; progress is logged at the right counts; no error is returned |
| Indexer.NewStudyIndexer | internal/index/indexer.go:26-52 | an index that cannot be opened is the error; otherwise a fresh indexer with an empty index |
| LegacyIndexer.NewAndInit | cmd/dxray/indexer.go:27-45 | a root that does not open is reported first, then an index that cannot be opened; otherwise an indexer at `index.bleve` on the opened archive |
| Ohif.BaseInstanceSpec | pkg/ohif/model.go:105-112 | an instance map has six keys with the number, UID, URL, frame of reference and the fixed orientation and position |
| Ohif.SetTags | pkg/ohif/model.go:114-121 | an unreadable file leaves the map unchanged and reports the error; otherwise its tags are merged in, so the map's keys are the six keys plus the tag names, tag values win, and the other keys are unchanged |
| Ohif.InstancesOfIndex | pkg/ohif/model.go:98-125 | one map per instance, in order |
| Ohif.SeriesOfIndex | pkg/ohif/model.go:90-128 | one series object per series, in order |
| Ohif.Project | pkg/ohif/model.go:79-128 | `JSONFromDXR` after the load, on values: the definition; Ohif.ProjectShape, Ohif.ProjectInstance, Ohif.ProjectWithoutTags and Ohif.ProjectWithTags state its content |
| Ohif.InstanceJson | pkg/ohif/model.go:105-122 | the instance map of one image: the definition; Ohif.BaseInstanceSpec and Ohif.SetTags state its keys and values |
| Ohif.ProjectShape | pkg/ohif/model.go:79-128 | the study fields come from the descriptor and the name decomposition, and every series keeps its fields, its number as `Itoa` and its instance count |
| Ohif.ProjectInstance | pkg/ohif/model.go:98-125 | map `j` of series `i` is that of instance `j` of series `i` |
| Ohif.ProjectWithoutTags | pkg/ohif/model.go:105-112 | without tags, every instance map has exactly the six keys with the instance's values |
| Ohif.ProjectWithTags | pkg/ohif/model.go:114-121 | with tags, a readable file adds its tags, and an unreadable one leaves the six-key map |
| Ohif.InstanceMap | pkg/ohif/model.go:105-122 | the loop body builds the map of its instance |
| Ohif.SeriesObject | pkg/ohif/model.go:91-125 | the inner loop builds the series object of its series |
| Ohif.JSONFromDXR | pkg/ohif/model.go:72-131 | fails exactly when the descriptor does not load, and then returns its error; otherwise the viewer JSON is the projection of the loaded descriptor |
| ApiUtils.InstanceURL | internal/api/utils.go:23-30 | the instance URL of a host and WADO path: the definition; ApiUtils.InstanceQueryFields and ApiUtils.InstanceURLPrefix state its form |
| ApiUtils.StudyURLFactory | internal/api/utils.go:20-32 | the URL factory of the current API, `InstanceURL` under `/api/dxray/v1/wado`; LegacyApi.LegacyURLDiffersInPath compares it with the older one |
| ApiUtils.InstanceQueryFields | internal/api/utils.go:23-30 | the query holds the four fields sorted by key |
| ApiUtils.FieldSafe | internal/api/utils.go:23-30 | a field of query-safe text holds no `&` |
| ApiUtils.FieldSplit | internal/api/utils.go:23-30 | a field splits on `=` into its key and value |
| ApiUtils.InstanceURLPrefix | internal/api/utils.go:30 | the URL is `dicomweb://<host>/api/dxray/v1/wado?` followed by the query |
| ApiUtils.GetNumberParam | internal/api/utils.go:69-83 | `getNumberParam`: the definition; ApiUtils.GetNumberParamSpec states its meaning |
| ApiUtils.GetNumberParamDefault | internal/api/utils.go:87-98 | `getNumberParamDefault`: the definition; ApiUtils.NumberParamRoundTrip states its meaning |
| ApiUtils.GetNumberParamSpec | internal/api/utils.go:69-83 | an absent parameter is (0, false); a present one is its int64 parse with true, or the parse error |
| ApiUtils.NumberParamRoundTrip | internal/api/utils.go:87-97 | `Itoa(n)` reads back as `n`, and an absent parameter gives the default |
| ApiUtils.GetStudyByUID | internal/api/utils.go:36-65 | `getStudyByUID`: the definition; ApiUtils.GetStudyByUIDFaithful and ApiUtils.GetStudyByUIDFound state its outcomes |
| ApiUtils.GetStudyByUIDFaithful | internal/api/utils.go:36-65 | on a faithful engine: 404 for no document with the UID, 400 for several, and for one, that document's study or 500 |
| ApiUtils.GetStudyByUIDFound | internal/api/utils.go:42-64 | a found study lies in the application's archive and is the engine's only hit |
| ApiWado.Refusal | internal/api/wado_endpoint.go:20-33 | a bad content type is 406 before anything else; a missing UID or a request type other than WADO is 400; otherwise nothing is refused |
| ApiWado.FirstInSpec | internal/api/wado_endpoint.go:48-63 | the instance found is the first with the object UID, or none has it |
| ApiWado.FirstMatchSpec | internal/api/wado_endpoint.go:46-65 | the instance found is the first match in series order, then instance order, over every series with the series UID; none means there is no match |
| ApiWado.FindInstance | internal/api/wado_endpoint.go:46-65 | the nested loops return the first match |
| ApiWado.FindFirst | internal/api/wado_endpoint.go:53-54 | the first occurrence is found at its position |
| ApiWado.ThumbnailPath | internal/api/wado_endpoint.go:53-54 | the two `strings.Replace` calls: the definition; ApiWado.ThumbnailOfImage and ApiWado.ThumbnailOfOther state its effect |
| ApiWado.ThumbnailOfImage | internal/api/wado_endpoint.go:53-54 | `…/I_<n>.dcm` becomes `…/S128_<n>.jpg` |
| ApiWado.ReplaceImagePrefix | internal/api/wado_endpoint.go:53 | the first `I_` is the one in front of the number |
| ApiWado.ReplaceDicomSuffix | internal/api/wado_endpoint.go:54 | the first `.dcm` is the extension |
| ApiWado.AbsentHead | internal/api/wado_endpoint.go:53-54 | a pattern whose first character is absent never occurs |
| ApiWado.ThumbnailOfOther | internal/api/wado_endpoint.go:53-54 | a path with neither `I_` nor `.dcm` is its own thumbnail path |
| ApiWado.ArchiveRealPath | internal/api/wado_endpoint.go:55-57 | a recorded archive path resolves under the root |
| ApiWado.ServedPath | internal/api/wado_endpoint.go:51-57 | the path handed to `ctx.File`: the definition; ApiWado.ServedThumbnail and ApiWado.ServedDicom state it for each content type |
| ApiWado.ServedThumbnail | internal/api/wado_endpoint.go:52-55 | for `image/jpeg`, the file served for `…/I_<n>.dcm` is `<root>/…/S128_<n>.jpg` |
| ApiWado.ServedDicom | internal/api/wado_endpoint.go:56-57 | with no content type or `application/dicom`, the served file is the recorded DICOM file under the root |
| ApiWado.ServedPathExample | internal/api/wado_endpoint.go:52-55 | `I_000123.dcm` is served as `S128_000123.jpg` |
| ApiWado.Serve | internal/api/wado_endpoint.go:35-67 | loads the study and answers with the first matching instance's file, 404, or the load failure |
| ApiWado.Wado | internal/api/wado_endpoint.go:12-69 | a refused request gets its status; otherwise the answer for the study looked up by UID |
| ApiWado.Answer | internal/api/wado_endpoint.go:35-67 | the answer after the lookup, on values: the definition; ApiWado.AnswerFile states its outcomes, and ApiWado.Serve and ApiWado.Wado are proved equal to it |
| ApiWado.AnswerFile | internal/api/wado_endpoint.go:46-67 | after a successful load: 404 exactly when no instance matches; a file answer serves the first match |
| ApiSearch.ProjectedAppend | internal/api/search_endpoint.go:35-55 | the views of two runs of hits are those of the first followed by those of the second |
| ApiSearch.ProjectedOne | internal/api/search_endpoint.go:36-54 | proof step, unfolding the definition by one element: one hit adds its view, or nothing when it has none |
| ApiSearch.ProjectedBounds | internal/api/search_endpoint.go:35-55 | at most one study per hit, exactly one per hit when all open and load, and only views of hits |
| ApiSearch.SearchWith | internal/api/search_endpoint.go:27-57 | a search error is 500; otherwise the views of the hits in hit order, skipping the ones that do not open or load |
| ApiSearch.SearchStudies | internal/api/search_endpoint.go:22-57 | no answer without an application context; otherwise the search on its engine and archive |
| ApiList.Listing | internal/api/list_endpoint.go:61-102 | the studies the walk visits, in order: the handles of each sorted volume in turn; ApiList.ListingPrefix, ApiList.VolumeSlice and ApiList.NewestFirstOrder state its order |
| ApiList.ListingStep | internal/api/list_endpoint.go:61-115 | proof step, unfolding the definition by one element: the walk over one more volume adds that volume's handles |
| ApiList.OpenedVolumeLists | internal/api/list_endpoint.go:53-68 | a volume that opens also lists, on every file system of the model, because a directory always lists there |
| ApiList.ListingPrefix | internal/api/list_endpoint.go:61-115 | the walk over fewer volumes is a prefix of the walk over more |
| ApiList.RefsAt | internal/api/list_endpoint.go:85 | handle `j` of a volume is study `j` of its sorted names |
| ApiList.VisitStudy | internal/api/list_endpoint.go:85-95 | opening and projecting one study yields its view or nothing |
| ApiList.WalkVolume | internal/api/list_endpoint.go:74-102 | the study loop writes the views from position `offset` on into the page, stops when the page is full, and fails at the first study without a view |
| ApiList.VisitVolume | internal/api/list_endpoint.go:63-102 | one volume's listing, sort and walk keep the page equal to the views seen so far |
| ApiList.PageWritten | internal/api/list_endpoint.go:50-117 | a page filled up to its end, or up to the end of the listing, is the page of the listing |
| ApiList.Round | internal/api/list_endpoint.go:63-106 | one outer round fails, fills the page, or goes on to the next volume |
| ApiList.Advance | internal/api/list_endpoint.go:104-114 | stepping past the last volume is detected as a short listing, and a volume that does not open fails the walk |
| ApiList.FillPage | internal/api/list_endpoint.go:50-115 | the walk fails exactly when a study it must show has no view; otherwise the page holds the views of the listing from `offset` on, and a short listing is told apart from a full page |
| ApiList.BrokenByVolume | internal/api/list_endpoint.go:110-114 | a volume that does not open breaks the walk |
| ApiList.BrokenByStudy | internal/api/list_endpoint.go:85-95 | a study that must be shown but has no view breaks the walk |
| ApiList.NotBrokenFull | internal/api/list_endpoint.go:75-77 | a page filled without failures means the walk is not broken |
| ApiList.NotBrokenPast | internal/api/list_endpoint.go:104-110 | a walk that reaches the end without failures is not broken |
| ApiList.VolumeSlice | internal/api/list_endpoint.go:64-101 | a volume's sorted studies sit in the listing right after those of the volumes before it |
| ApiList.VolumeStep | internal/api/list_endpoint.go:64-101 | proof step, unfolding the definition by one element: the listing up to a volume is the listing before it plus the volume's handles |
| ApiList.ListingPrefixAll | internal/api/list_endpoint.go:61-115 | the listing up to a volume is a prefix of the whole listing |
| ApiList.HandlesAfter | internal/api/list_endpoint.go:64-101 | the handles of a volume sit at consecutive positions of the listing |
| ApiList.NewestFirstLength | internal/api/list_endpoint.go:48 | sorting keeps the number of volumes |
| ApiList.AsWritten | internal/api/list_endpoint.go:24-117 | the outcome of the list handler as written, on values; ApiList.ListPage and ApiList.ListStudies are proved to meet it |
| ApiList.AsIntended | internal/api/list_endpoint.go:24-117 | the same outcome with the corrected guard; ApiList.CorrectionOnlyAnswersShortPages compares the two |
| ApiList.ListPage | internal/api/list_endpoint.go:24-117 | 500 for a bad parameter or an unlistable root; an empty array for no volumes; a crash for a negative limit; 500 for a broken walk; a crash when fewer than `offset+limit` studies exist; otherwise the page |
| ApiList.ListPageCorrected | internal/api/list_endpoint.go:24-117 | the same, but a short listing answers with its page |
| ApiList.ListStudies | internal/api/list_endpoint.go:17-119 | no answer without an application context; otherwise the behaviour as written |
| ApiList.ListStudiesCorrected | internal/api/list_endpoint.go:17-119 | the same with the corrected guard |
| ApiList.CorrectionOnlyAnswersShortPages | internal/api/list_endpoint.go:104-106 | the two versions differ only where the written one crashes on a short listing, and there the corrected one answers with the page |
| ApiList.NewestFirstOrder | internal/api/list_endpoint.go:48 | the volumes are visited in the one decreasing order of their names |
| ApiList.VolumeRefsOrder | internal/api/list_endpoint.go:71 | the studies of a volume are visited in the one decreasing order of their names |
| ApiList.OneEmptyVolumeNames | internal/dxr/fsdb/fsdb.go:62-83 | the example archive lists its one volume |
| ApiList.OneEmptyVolumeListing | internal/api/list_endpoint.go:64-81 | the volume of the example archive has no studies |
| ApiList.OneEmptyVolumeCrashes | internal/api/list_endpoint.go:104-110 | on one empty volume and no parameters, the handler as written crashes |
| ApiList.OneEmptyVolumeAnswered | internal/api/list_endpoint.go:50-117 | with the corrected guard, it answers with 100 empty slots |
| LegacyApi.LegacyURLDiffersInPath | cmd/dxray/api.go:60-72 | the older instance URL differs from the current one only in the `/wado` path |
| LegacyApi.LegacyGetStudyByUID | cmd/dxray/api.go:306-333 | the older lookup agrees with the current one on every input |
| LegacyApi.SearchStudies | cmd/dxray/api.go:74-113 | a search error is 500; otherwise the views of the hits with the older URLs |
| LegacyApi.WadoURI | cmd/dxray/api.go:146-203 | the same refusals, lookup and answer as the current WADO handler |
| LegacyApi.ListStudies | cmd/dxray/api.go:205-304 | the same behaviour as written as the current list handler, with the older URLs |

`cmd/dxray/api.go:335-362` holds the same `getNumberParam` code as `internal/api/utils.go:69-97`, so the `ApiUtils` lemmas cover both.

## Left out

- XML decoding of `study.xml` and its character-set detection are a parameter of the file system value (`descriptors`). Reading DICOM tags is a map from path to tags; how bleve and go-dicom compute their results is outside this model.
- The bleve index is modelled as a map from key to document, and search results as a parameter. Query parsing, relevance order and persistence are left out. Opening or creating the index on disk is one boolean (`openFails`).
- Goroutines, channels, the 1-slot hand-off and locks are modelled as sequential code. The scan is the sequence sent over the channel. Races between concurrent scans are not modelled.
- The periodic ticker of `init`/`Init` is not modelled, nor is the `Directive` config parser of `cmd/dxray/indexer.go`. The "slow" test of the progress line takes elapsed time as a parameter; durations and logging are left out.
- Gin request plumbing, `ctx.JSON`, `ctx.File` and `AbortRequest` are modelled as the `Response` they produce. `AbortRequest(ctx, 0, err)` for a WADO load failure is modelled as `Status(0)`, as written.
- `filepath.Join` is modelled without `Clean`: the model joins with one slash and drops empty elements. `filepath.ToSlash` is taken as the identity.
- `strings.ToLower` is modelled on ASCII letters only. Strings are sequences of characters, so the difference between bytes and runes is not modelled.
- `url.Values.Encode` percent-escaping is not modelled. URLs are stated for query-safe UIDs.
- `ohifStudyJSON` and the `ohif` endpoint, which wrap one projection with tags in `{"studies": […]}`, are not part of this model.
- The four-argument `JSONFromDXR(ctx, …)` called by `internal/api` is modelled by the three-argument one in `pkg/ohif/model.go`. The extra context argument only carries the request's logger.
- The studies and volumes sorts work on copies. The model specifies them by value, as sorted permutations; it does not model the in-place sort.
- Indexer.StudyIndexer.FullScan: the branch that returns the error of `Scan` cannot be taken, because `Scan` always returns `nil`.
- ApiList.ListPage: `i - offset` is not wrapped at 64 bits. `make` with a huge limit is not modelled as running out of memory. A negative limit, for which `make` panics, is modelled as a crash.
- LegacyApi: the older handlers ignore the error of `dxr.Open()` and type-assert the router's values. A nil archive and a failed assertion, both panics, are not modelled; the handlers are stated for an archive that opened.
- FileSystem.ReadDir: a directory in the model always lists. Permission and I/O errors on a directory that `os.Stat` accepts are not modelled. So after a successful open, the 500 for a volume whose studies do not list (`internal/api/list_endpoint.go:64-68`) cannot be reached. Neither can the listing errors of `CountStudies` and `Studies`, or a scan stopped by one.
- GoStrconv.Quote: non-ASCII characters that Go's `strconv.IsPrint` rejects (U+0085, U+00A0, U+2028, U+FEFF and others) are kept instead of being escaped as `\u…` or `\U…`, because the Unicode printability table is not modelled. This only changes the text handed to the search engine, and GoStrconv.QuoteSafeString and GoStrconv.EscapeSafe are stated for printable ASCII only.
- The viewer JSON fields that the code never sets (time, age, body part, series date and time) are left out of `StudyJson`.

## Findings

| source | as written | input that shows it | evidently intended | confidence | as-written member | corrected member |
|---|---|---|---|---|---|---|
| internal/api/list_endpoint.go:104-110 (and cmd/dxray/api.go:289-295) | `if volIdx+1 > len(volumes) { break L }` can never hold, because `volIdx < len(volumes)` there; after the last volume `volumes[volIdx]` is indexed out of range and the handler panics | one volume `VOL00001` with no studies and no query parameters: fewer than `offset + limit` = 100 studies exist | stop after the last volume (`volIdx+1 >= len(volumes)`) and answer with the page filled so far | high; not executed | ApiList.ListPage, ApiList.ListStudies, ApiList.OneEmptyVolumeCrashes | ApiList.ListPageCorrected, ApiList.ListStudiesCorrected, ApiList.OneEmptyVolumeAnswered, ApiList.CorrectionOnlyAnswersShortPages |
| pkg/dxr/fsdb/volume.go:76 | `strings.Trim(name[3:], "0")` strips the trailing zeros of the number as well as the padding | the volume `VOL00010` (opened by `OpenVolumeByIdx(10)`) has `Index() == 1` | trim only the leading zeros (`strings.TrimLeft`), so that `Index` reads back every index `OpenVolumeByIdx` writes | high; not executed | Fsdb.VolumeIndexTrailingZero, Fsdb.VolumeIndexRoundTrip | Fsdb.VolumeIndexCorrectedRoundTrip, Fsdb.VolumeIndexCorrectedAgrees |
