/** The `Stellar` dataset: it indexes a root folder holding one folder per
    identity. Each identity folder holds images, one attribute record per
    image (`<n>_attributes.json`) and a `prompt.json` with the prompts and,
    per prompt, the detectable attribute names. Every image is paired with
    every prompt of its folder, and a sample index `idx` names the pair
    (image `idx // n`, prompt `idx % n`) where `n` is the number of prompts.

    The file system is described by values: a folder listing is a sequence
    of `Entry` values, and the bytes of files are a map held by a `Disk`
    object that the mask cache writes to. */
module Dataset {
  import opened Wrappers
  import opened Text
  import opened Sorting
  import opened Dicts
  import opened Records

  type Bytes = seq<bv8>

  /** The parsed content of an identity's `prompt.json`. */
  datatype PromptFile = PromptFile(prompts: seq<string>, detectables: seq<seq<string>>)

  /** One child of the root folder. For a folder, `files` lists the names of
      its children, `records` holds the attribute files that parse, and
      `prompt` is `prompt.json` when it exists. */
  datatype Entry = Entry(
    name: string,
    isDir: bool,
    files: seq<string>,
    records: map<string, AttributeRecord>,
    prompt: Option<PromptFile>)

  /** A file inside an identity folder, relative to the root. */
  datatype ImagePath = ImagePath(folder: string, name: string)

  datatype DatasetError =
    | UnreadableAttributes(folder: string, file: string)  // json.loads fails
    | MissingPromptFile(folder: string)                   // prompt.json cannot be read
    | EmptyIdentity(folder: string)                       // IndexError: `detectables[0]`
    | DetectablesMismatch(folder: string)                 // the per-identity assert
    | NoDataset                                           // RuntimeError: no prompts at all
    | LengthMismatch                                      // the final assert on the four lists
    | ZeroDivision                                        // `idx // 0`
    | IndexOutOfRange                                     // IndexError on a list
    | FileNotFound(path: ImagePath)                       // opening an absent image

  /** The four parallel lists the dataset keeps. */
  datatype Columns = Columns(
    imagePaths: seq<ImagePath>,
    prompts: seq<seq<string>>,
    detectables: seq<seq<seq<string>>>,
    metadata: seq<AttributeRecord>)

  /** The whole index: the four lists and the number of prompts per image. */
  datatype Layout = Layout(columns: Columns, numPrompts: nat)

  const ImageExtensions: set<string> := {".png", ".jpg", ".jpeg"}

  // ---------------------------------------------------------------------
  // Which files of a folder count.

  /** An image, and not a cached background mask `<stem>_bg.<ext>`. */
  predicate IsImageName(name: string) {
    Suffix(name) in ImageExtensions && !EndsWith(Stem(name), "_bg")
  }

  predicate IsAttributesName(name: string) {
    Suffix(name) == ".json" && EndsWith(Stem(name), "_attributes")
  }

  function ByName(name: string): string { name }

  function ByStem(e: Entry): string { Stem(e.name) }

  predicate IsDirectory(e: Entry) { e.isDir }

  /** The images of a folder, ordered by name. */
  function ImageNames(d: Entry): seq<string> {
    SortBy(Filter(d.files, IsImageName), ByName, LexLe)
  }

  /** The attribute files of a folder, ordered by name. */
  function AttributeNames(d: Entry): seq<string> {
    SortBy(Filter(d.files, IsAttributesName), ByName, LexLe)
  }

  /** The identity folders of the root, in the order they are visited:
      every entry sorted by stem, then the ones that are not folders skipped. */
  function Identities(root: seq<Entry>): seq<Entry> {
    Filter(SortBy(root, ByStem, LexLe), IsDirectory)
  }

  /** The attribute records of the named files, read in order; the first
      file that does not parse stops the reading. */
  function ReadRecords(d: Entry, names: seq<string>): Result<seq<AttributeRecord>, DatasetError>
    decreases |names|
  {
    if |names| == 0 then Success([])
    else if names[0] !in d.records then Failure(UnreadableAttributes(d.name, names[0]))
    else
      var rest :- ReadRecords(d, names[1..]);
      Success([d.records[names[0]]] + rest)
  }

  /** Reading succeeds with the records of the named files, in order, when
      every file parses; otherwise it fails on the first file that does not. */
  lemma {:induction false} ReadRecordsMeaning(d: Entry, names: seq<string>)
    ensures var r := ReadRecords(d, names);
      && (r.Success? ==>
            && |r.value| == |names|
            && forall k :: 0 <= k < |names| ==> names[k] in d.records && r.value[k] == d.records[names[k]])
      && (r.Failure? ==>
            exists k :: (&& 0 <= k < |names| && names[k] !in d.records
                         && r.error == UnreadableAttributes(d.name, names[k])
                         && forall j :: 0 <= j < k ==> names[j] in d.records))
    decreases |names|
  {
    if |names| > 0 && names[0] in d.records {
      var tail := names[1..];
      ReadRecordsMeaning(d, tail);
      assert forall k :: 1 <= k < |names| ==> names[k] == tail[k - 1];
      var r := ReadRecords(d, names);
      if r.Failure? {
        var k :| (&& 0 <= k < |tail| && tail[k] !in d.records
                  && r.error == UnreadableAttributes(d.name, tail[k])
                  && forall j :: 0 <= j < k ==> tail[j] in d.records);
        assert names[k + 1] == tail[k];
      }
    }
  }

  /** What one pass of the loop body contributes for an identity folder: its
      images, a copy of the folder's prompts and detectables per image, and
      its attribute records. */
  function ScanIdentity(d: Entry): Result<Columns, DatasetError> {
    var images := ImageNames(d);
    var records :- ReadRecords(d, AttributeNames(d));
    if |images| > 0 && d.prompt.None? then Failure(MissingPromptFile(d.name))
    else if |images| == 0 then Failure(EmptyIdentity(d.name))
    else if |d.prompt.value.detectables| != |d.prompt.value.prompts| then Failure(DetectablesMismatch(d.name))
    else
      Success(Columns(
        PathsIn(d.name, images),
        Copies(d.prompt.value.prompts, |images|),
        Copies(d.prompt.value.detectables, |images|),
        records))
  }

  /** The paths of the named files of a folder. */
  function PathsIn(folder: string, names: seq<string>): seq<ImagePath>
    decreases |names|
  {
    if |names| == 0 then []
    else PathsIn(folder, names[..|names| - 1]) + [ImagePath(folder, names[|names| - 1])]
  }

  /** `[x for _ in range(n)]`. */
  function Copies<T>(x: T, n: nat): seq<T> {
    if n == 0 then [] else Copies(x, n - 1) + [x]
  }

  lemma {:induction false} PathsInAt(folder: string, names: seq<string>)
    ensures var r := PathsIn(folder, names);
      |r| == |names| && forall k :: 0 <= k < |names| ==> r[k] == ImagePath(folder, names[k])
    decreases |names|
  {
    if |names| > 0 {
      var init := names[..|names| - 1];
      PathsInAt(folder, init);
    }
  }

  lemma {:induction false} CopiesAt<T>(x: T, n: nat)
    ensures |Copies(x, n)| == n && forall k :: 0 <= k < n ==> Copies(x, n)[k] == x
  {
    if n > 0 {
      CopiesAt(x, n - 1);
    }
  }

  /** A folder that scans contributes one row per image file, each with the
      folder's own prompts and detectables, and as many attribute records as
      it has attribute files. */
  lemma ScanShape(d: Entry)
    requires ScanIdentity(d).Success?
    ensures var c := ScanIdentity(d).value;
      && d.prompt.Some?
      && |c.imagePaths| == |ImageNames(d)| > 0
      && ScanShaped(c)
      && |c.metadata| == |AttributeNames(d)|
      && (forall k :: 0 <= k < |c.imagePaths| ==>
            && c.imagePaths[k] == ImagePath(d.name, ImageNames(d)[k])
            && c.prompts[k] == d.prompt.value.prompts
            && c.detectables[k] == d.prompt.value.detectables)
  {
    var images := ImageNames(d);
    ReadRecordsMeaning(d, AttributeNames(d));
    PathsInAt(d.name, images);
    CopiesAt(d.prompt.value.prompts, |images|);
    CopiesAt(d.prompt.value.detectables, |images|);
  }

  /** Scanning the identities one after the other; the first failure stops
      the scan. */
  function ScanAll(ds: seq<Entry>): Result<seq<Columns>, DatasetError> {
    MapResult(ds, ScanIdentity)
  }

  /** A scan of all identities succeeds with one scan per identity, or fails
      with the error of the first identity that does not scan. */
  lemma ScanAllMeaning(ds: seq<Entry>)
    ensures ScanAll(ds).Success? ==>
      (&& |ScanAll(ds).value| == |ds|
       && forall k :: 0 <= k < |ds| ==> ScanIdentity(ds[k]) == Success(ScanAll(ds).value[k]))
    ensures ScanAll(ds).Failure? ==>
      exists k :: (&& 0 <= k < |ds| && ScanIdentity(ds[k]) == Failure(ScanAll(ds).error)
                   && forall j :: 0 <= j < k ==> ScanIdentity(ds[j]).Success?)
  {
    MapResultMeaning(ds, ScanIdentity);
  }

  function Concat(a: Columns, b: Columns): Columns {
    Columns(a.imagePaths + b.imagePaths, a.prompts + b.prompts,
            a.detectables + b.detectables, a.metadata + b.metadata)
  }

  /** The four lists after the `+=` of every scanned identity. */
  function Gather(scans: seq<Columns>): Columns
    decreases |scans|
  {
    if |scans| == 0 then Columns([], [], [], [])
    else Concat(Gather(scans[..|scans| - 1]), scans[|scans| - 1])
  }

  /** `Stellar.__init__`: the index of a root folder, or the error that
      construction raises. */
  function BuildIndex(root: seq<Entry>): Result<Layout, DatasetError> {
    IndexOf(Identities(root))
  }

  /** The loop over the identity folders `ids` and the checks after it. The
      number of prompts is taken from the last folder visited. */
  function IndexOf(ids: seq<Entry>): Result<Layout, DatasetError> {
    var scans :- ScanAll(ids);
    Finish(scans)
  }

  /** The checks after the loop, on what the loop gathered. */
  function Finish(scans: seq<Columns>): Result<Layout, DatasetError> {
    var c := Gather(scans);
    if |c.prompts| == 0 then Failure(NoDataset)
    else
      var n := NumPromptsOf(scans);
      if |c.imagePaths| == |c.detectables| == |c.prompts| == |c.metadata|
      then Success(Layout(c, n))
      else Failure(LengthMismatch)
  }

  /** `len(prompts[0])` for the `prompts` of the last scanned identity (0 if
      there was none; the index is not built then). */
  function NumPromptsOf(scans: seq<Columns>): nat {
    var last := LastPrompts(scans);
    if |last| == 0 then 0 else |last[0]|
  }

  /** The `prompts` list of the last scanned identity; the loop leaves it in
      the local variable `prompts`. */
  function LastPrompts(scans: seq<Columns>): seq<seq<string>> {
    if |scans| == 0 then [] else scans[|scans| - 1].prompts
  }

  // ---------------------------------------------------------------------
  // What a successful construction guarantees.

  /** The four lists have the same positive length, each image's
      detectables run parallel to its prompts, and the prompt count is that
      of the last image's folder. */
  predicate Consistent(l: Layout) {
    var c := l.columns;
    && |c.imagePaths| > 0
    && |c.imagePaths| == |c.prompts| == |c.detectables| == |c.metadata|
    && (forall k :: 0 <= k < |c.prompts| ==> |c.detectables[k]| == |c.prompts[k]|)
    && l.numPrompts == |c.prompts[|c.prompts| - 1]|
  }

  /** Every image has exactly `numPrompts` prompts. */
  predicate UniformPrompts(l: Layout) {
    forall k :: 0 <= k < |l.columns.prompts| ==> |l.columns.prompts[k]| == l.numPrompts
  }

  /** `len(dataset)`. */
  function SampleCount(l: Layout): int {
    |l.columns.imagePaths| * l.numPrompts
  }

  /** Each scanned identity's prompts and detectables run parallel to its
      images. */
  predicate ScanShaped(c: Columns) {
    && |c.prompts| == |c.detectables| == |c.imagePaths|
    && forall k :: 0 <= k < |c.prompts| ==> |c.detectables[k]| == |c.prompts[k]|
  }

  lemma {:induction false} GatherShaped(scans: seq<Columns>)
    requires forall s :: 0 <= s < |scans| ==> ScanShaped(scans[s])
    ensures ScanShaped(Gather(scans))
    decreases |scans|
  {
    if |scans| > 0 {
      GatherShaped(scans[..|scans| - 1]);
      var a := Gather(scans[..|scans| - 1]);
      var b := scans[|scans| - 1];
      forall k | 0 <= k < |a.prompts| + |b.prompts|
        ensures |(a.detectables + b.detectables)[k]| == |(a.prompts + b.prompts)[k]|
      {
        if k >= |a.prompts| {
          assert (a.detectables + b.detectables)[k] == b.detectables[k - |a.prompts|];
        }
      }
    }
  }

  /** Where a gathered row came from: row `j` of scan `s`. */
  lemma {:induction false} GatherRow(scans: seq<Columns>, i: nat) returns (s: nat, j: nat)
    requires forall s :: 0 <= s < |scans| ==> ScanShaped(scans[s])
    requires ScanShaped(Gather(scans))
    requires i < |Gather(scans).imagePaths|
    ensures s < |scans| && j < |scans[s].imagePaths|
    ensures j < |scans[s].prompts| && j < |scans[s].detectables|
    ensures Gather(scans).imagePaths[i] == scans[s].imagePaths[j]
    ensures Gather(scans).prompts[i] == scans[s].prompts[j]
    ensures Gather(scans).detectables[i] == scans[s].detectables[j]
    decreases |scans|
  {
    var init := scans[..|scans| - 1];
    GatherShaped(init);
    if i < |Gather(init).imagePaths| {
      s, j := GatherRow(init, i);
    } else {
      s, j := |scans| - 1, i - |Gather(init).imagePaths|;
    }
  }

  /** A gathered scan is at least as long as any one of its parts. */
  lemma {:induction false} GatherLength(scans: seq<Columns>, s: nat)
    requires s < |scans|
    ensures |Gather(scans).imagePaths| >= |scans[s].imagePaths|
    decreases |scans|
  {
    if s < |scans| - 1 {
      GatherLength(scans[..|scans| - 1], s);
    }
  }

  /** Scanning one folder fails only with an error about that folder. */
  lemma ScanErrors(d: Entry)
    requires ScanIdentity(d).Failure?
    ensures ScanIdentity(d).error in
      {MissingPromptFile(d.name), EmptyIdentity(d.name), DetectablesMismatch(d.name)}
      || ScanIdentity(d).error.UnreadableAttributes?
  {
    ReadRecordsMeaning(d, AttributeNames(d));
  }

  /** A successful scan is made of non-empty, well-shaped parts. */
  lemma ScansShaped(ids: seq<Entry>)
    requires ScanAll(ids).Success?
    ensures var scans := ScanAll(ids).value;
      && (forall s :: 0 <= s < |scans| ==> ScanShaped(scans[s]) && |scans[s].imagePaths| > 0)
      && ScanShaped(Gather(scans))
  {
    ScanAllMeaning(ids);
    var scans := ScanAll(ids).value;
    forall s | 0 <= s < |scans|
      ensures ScanShaped(scans[s]) && |scans[s].imagePaths| > 0
    {
      assert ScanIdentity(ids[s]) == Success(scans[s]);
      ScanShape(ids[s]);
    }
    GatherShaped(scans);
  }

  /** The last folder scanned contributes at least one prompt row. */
  lemma LastScan(ids: seq<Entry>)
    requires ScanAll(ids).Success?
    ensures var scans := ScanAll(ids).value;
      |Gather(scans).prompts| > 0 ==> |LastPrompts(scans)| > 0
  {
    ScanAllMeaning(ids);
    var scans := ScanAll(ids).value;
    if |scans| > 0 {
      var k := |scans| - 1;
      assert ScanIdentity(ids[k]) == Success(scans[k]);
      ScanShape(ids[k]);
    }
  }

  /** When the loop has visited every entry, what it gathered decides the
      index. */
  lemma LoopEnd(root: seq<Entry>, scans: seq<Columns>)
    requires ScanAll(Identities(root)) == Success(scans)
    ensures BuildIndex(root) == Finish(scans)
    ensures |Gather(scans).prompts| > 0 ==> |LastPrompts(scans)| > 0
  {
    LastScan(Identities(root));
  }

  /** After the loop and the checks succeed, the lists are consistent. */
  lemma IndexConsistent(ids: seq<Entry>)
    requires IndexOf(ids).Success?
    ensures Consistent(IndexOf(ids).value)
  {
    var scans := ScanAll(ids).value;
    ScanAllMeaning(ids);
    ScansShaped(ids);
    var last := scans[|scans| - 1];
    assert ScanIdentity(ids[|scans| - 1]) == Success(last);
    ScanShape(ids[|scans| - 1]);
    var c := Gather(scans);
    assert c.prompts[|c.prompts| - 1] == last.prompts[|last.prompts| - 1];
    assert last.prompts[0] == last.prompts[|last.prompts| - 1];
  }

  /** After `Stellar(root)` succeeds, the lists are consistent. */
  lemma BuildIndexConsistent(root: seq<Entry>)
    requires BuildIndex(root).Success?
    ensures Consistent(BuildIndex(root).value)
  {
    IndexConsistent(Identities(root));
  }

  /** Row `i` of the columns is an image file of folder `d`, with `d`'s
      prompts and detectables. */
  predicate RowOf(c: Columns, i: nat, d: Entry)
    requires i < |c.imagePaths| && i < |c.prompts| && i < |c.detectables|
  {
    && d.prompt.Some?
    && c.imagePaths[i].folder == d.name
    && c.imagePaths[i].name in d.files
    && IsImageName(c.imagePaths[i].name)
    && c.prompts[i] == d.prompt.value.prompts
    && c.detectables[i] == d.prompt.value.detectables
  }

  /** Row `j` of a folder's scan is an image file of that folder. */
  lemma ScanRow(d: Entry, j: nat)
    requires ScanIdentity(d).Success? && j < |ScanIdentity(d).value.imagePaths|
    ensures ScanShaped(ScanIdentity(d).value)
    ensures RowOf(ScanIdentity(d).value, j, d)
  {
    ScanShape(d);
    var name := ImageNames(d)[j];
    assert name in multiset(ImageNames(d));
    FilterMember(d.files, IsImageName, name);
  }

  lemma IndexRowSource(ids: seq<Entry>, i: nat) returns (d: Entry)
    requires IndexOf(ids).Success?
    requires i < |IndexOf(ids).value.columns.imagePaths|
    ensures Consistent(IndexOf(ids).value)
    ensures d in ids && RowOf(IndexOf(ids).value.columns, i, d)
  {
    IndexConsistent(ids);
    var scans := ScanAll(ids).value;
    ScanAllMeaning(ids);
    ScansShaped(ids);
    var s, j := GatherRow(scans, i);
    d := ids[s];
    assert ScanIdentity(d) == Success(scans[s]);
    ScanRow(d, j);
  }

  lemma RowSource(root: seq<Entry>, i: nat) returns (d: Entry)
    requires BuildIndex(root).Success?
    requires i < |BuildIndex(root).value.columns.imagePaths|
    ensures Consistent(BuildIndex(root).value)
    ensures d in root && d.isDir && RowOf(BuildIndex(root).value.columns, i, d)
  {
    d := IndexRowSource(Identities(root), i);
    IdentitiesAreFolders(root);
  }

  /** Every image of the index lies in an identity folder of the root, is
      an image file of that folder, and carries that folder's prompts and
      detectables. */
  lemma BuildIndexRows(root: seq<Entry>, i: nat)
    requires BuildIndex(root).Success?
    requires i < |BuildIndex(root).value.columns.imagePaths|
    ensures Consistent(BuildIndex(root).value)
    ensures exists d :: d in root && d.isDir && RowOf(BuildIndex(root).value.columns, i, d)
  {
    var d := RowSource(root, i);
  }

  /** The identity folders are exactly the folders of the root, each as often
      as it occurs there, in ascending order of stem. */
  lemma IdentitiesAreFolders(root: seq<Entry>)
    ensures multiset(Identities(root)) == multiset(Filter(root, IsDirectory))
    ensures forall e :: e in Identities(root) <==> e in root && e.isDir
    ensures SortedBy(Identities(root), ByStem, LexLe)
  {
    var sorted := SortBy(root, ByStem, LexLe);
    forall e
      ensures multiset(Identities(root))[e] == multiset(Filter(root, IsDirectory))[e]
    {
      FilterMultiset(sorted, IsDirectory, e);
      FilterMultiset(root, IsDirectory, e);
    }
    assert multiset(Identities(root)) == multiset(Filter(root, IsDirectory));
    forall e
      ensures e in Identities(root) <==> e in root && e.isDir
    {
      FilterMultiset(root, IsDirectory, e);
      assert e in Identities(root) <==> e in multiset(Identities(root));
      assert e in root <==> e in multiset(root);
    }
    StrOrderTotal();
    SortBySorted(root, ByStem, LexLe);
    FilterSorted(sorted, IsDirectory, ByStem, LexLe);
  }

  /** The images of a folder are exactly its image files, each as often as
      it is listed, in ascending order of name; the same holds for its
      attribute files. */
  lemma FolderFiles(d: Entry)
    ensures forall n :: n in ImageNames(d) <==> n in d.files && IsImageName(n)
    ensures forall n :: n in AttributeNames(d) <==> n in d.files && IsAttributesName(n)
    ensures SortedBy(ImageNames(d), ByName, LexLe)
    ensures SortedBy(AttributeNames(d), ByName, LexLe)
  {
    forall n
      ensures n in ImageNames(d) <==> n in d.files && IsImageName(n)
      ensures n in AttributeNames(d) <==> n in d.files && IsAttributesName(n)
    {
      FilterMultiset(d.files, IsImageName, n);
      FilterMultiset(d.files, IsAttributesName, n);
      assert n in ImageNames(d) <==> n in multiset(ImageNames(d));
      assert n in AttributeNames(d) <==> n in multiset(AttributeNames(d));
      assert n in d.files <==> n in multiset(d.files);
    }
    StrOrderTotal();
    SortBySorted(Filter(d.files, IsImageName), ByName, LexLe);
    SortBySorted(Filter(d.files, IsAttributesName), ByName, LexLe);
  }

  /** The lists of `xss` one after the other. */
  function Flatten<T>(xss: seq<seq<T>>): seq<T>
    decreases |xss|
  {
    if |xss| == 0 then [] else Flatten(xss[..|xss| - 1]) + xss[|xss| - 1]
  }

  lemma {:induction false} FlattenMember<T>(xss: seq<seq<T>>, k: nat, x: T)
    requires k < |xss| && x in xss[k]
    ensures x in Flatten(xss)
    decreases |xss|
  {
    if k < |xss| - 1 {
      FlattenMember(xss[..|xss| - 1], k, x);
    }
  }

  /** The image paths each scan contributes. */
  function ScanPaths(scans: seq<Columns>): (r: seq<seq<ImagePath>>)
    ensures |r| == |scans| && forall s :: 0 <= s < |scans| ==> r[s] == scans[s].imagePaths
  {
    seq(|scans|, s requires 0 <= s < |scans| => scans[s].imagePaths)
  }

  /** The attribute records each scan contributes. */
  function ScanRecords(scans: seq<Columns>): (r: seq<seq<AttributeRecord>>)
    ensures |r| == |scans| && forall s :: 0 <= s < |scans| ==> r[s] == scans[s].metadata
  {
    seq(|scans|, s requires 0 <= s < |scans| => scans[s].metadata)
  }

  /** The `+=` of the loop appends each scan's image paths and records to
      those of the scans before it. */
  lemma {:induction false} GatherFlattens(scans: seq<Columns>)
    ensures Gather(scans).imagePaths == Flatten(ScanPaths(scans))
    ensures Gather(scans).metadata == Flatten(ScanRecords(scans))
    decreases |scans|
  {
    if |scans| > 0 {
      var init := scans[..|scans| - 1];
      GatherFlattens(init);
      assert ScanPaths(scans)[..|scans| - 1] == ScanPaths(init);
      assert ScanRecords(scans)[..|scans| - 1] == ScanRecords(init);
    }
  }

  /** The image paths of each identity folder's image files. */
  function FolderPaths(ids: seq<Entry>): (r: seq<seq<ImagePath>>)
    ensures |r| == |ids| && forall k :: 0 <= k < |ids| ==> r[k] == PathsIn(ids[k].name, ImageNames(ids[k]))
  {
    seq(|ids|, k requires 0 <= k < |ids| => PathsIn(ids[k].name, ImageNames(ids[k])))
  }

  /** The attribute records of each identity folder (none where they do not
      read). */
  function FolderRecords(ids: seq<Entry>): (r: seq<seq<AttributeRecord>>)
    ensures |r| == |ids|
    ensures forall k :: 0 <= k < |ids| && ReadRecords(ids[k], AttributeNames(ids[k])).Success? ==>
      r[k] == ReadRecords(ids[k], AttributeNames(ids[k])).value
  {
    seq(|ids|, k requires 0 <= k < |ids| =>
      match ReadRecords(ids[k], AttributeNames(ids[k]))
      case Success(records) => records
      case Failure(_) => [])
  }

  /** What one identity folder that scans contributes: the paths of its
      image files and its attribute records, which all read. */
  lemma ScanContributes(d: Entry)
    requires ScanIdentity(d).Success?
    ensures ReadRecords(d, AttributeNames(d)).Success?
    ensures ScanIdentity(d).value.imagePaths == PathsIn(d.name, ImageNames(d))
    ensures ScanIdentity(d).value.metadata == ReadRecords(d, AttributeNames(d)).value
  {
  }

  /** An index built from the folders `ids` holds, folder by folder, the
      path of every image file and every attribute record of each. */
  lemma IndexOfComplete(ids: seq<Entry>)
    requires IndexOf(ids).Success?
    ensures forall k :: 0 <= k < |ids| ==> ReadRecords(ids[k], AttributeNames(ids[k])).Success?
    ensures IndexOf(ids).value.columns.imagePaths == Flatten(FolderPaths(ids))
    ensures IndexOf(ids).value.columns.metadata == Flatten(FolderRecords(ids))
  {
    var scans := ScanAll(ids).value;
    ScanAllMeaning(ids);
    GatherFlattens(scans);
    forall k | 0 <= k < |ids|
      ensures ReadRecords(ids[k], AttributeNames(ids[k])).Success?
      ensures scans[k].imagePaths == PathsIn(ids[k].name, ImageNames(ids[k]))
      ensures scans[k].metadata == ReadRecords(ids[k], AttributeNames(ids[k])).value
    {
      ScanContributes(ids[k]);
    }
    assert ScanPaths(scans) == FolderPaths(ids);
    assert ScanRecords(scans) == FolderRecords(ids);
  }

  /** A built index holds, folder by folder in the order they are visited,
      the path of every image file of every identity folder, and every
      attribute record of every identity folder, all of which read. */
  lemma BuildIndexComplete(root: seq<Entry>)
    requires BuildIndex(root).Success?
    ensures var ids := Identities(root);
      forall k :: 0 <= k < |ids| ==> ReadRecords(ids[k], AttributeNames(ids[k])).Success?
    ensures var ids := Identities(root);
      BuildIndex(root).value.columns.imagePaths == Flatten(FolderPaths(ids))
    ensures var ids := Identities(root);
      BuildIndex(root).value.columns.metadata == Flatten(FolderRecords(ids))
  {
    IndexOfComplete(Identities(root));
  }

  /** Every image file of every folder of the root is in a built index. */
  lemma BuildIndexCovers(root: seq<Entry>, d: Entry, name: string)
    requires BuildIndex(root).Success?
    requires d in root && d.isDir && name in d.files && IsImageName(name)
    ensures ImagePath(d.name, name) in BuildIndex(root).value.columns.imagePaths
  {
    var ids := Identities(root);
    BuildIndexComplete(root);
    IdentitiesAreFolders(root);
    FolderFiles(d);
    var k :| 0 <= k < |ids| && ids[k] == d;
    var j :| 0 <= j < |ImageNames(d)| && ImageNames(d)[j] == name;
    PathsInAt(d.name, ImageNames(d));
    assert PathsIn(d.name, ImageNames(d))[j] == ImagePath(d.name, name);
    FlattenMember(FolderPaths(ids), k, ImagePath(d.name, name));
  }

  /** The loop raises "no dataset" exactly when it visits no folder. */
  lemma IndexNoDataset(ids: seq<Entry>)
    ensures IndexOf(ids) == Failure(NoDataset) <==> |ids| == 0
  {
    var r := ScanAll(ids);
    ScanAllMeaning(ids);
    if |ids| > 0 {
      if r.Success? {
        ScansShaped(ids);
        GatherLength(r.value, 0);
      } else {
        var k :| 0 <= k < |ids| && ScanIdentity(ids[k]) == Failure(r.error);
        ScanErrors(ids[k]);
      }
    }
  }

  /** Construction raises "no dataset" exactly when the root holds no
      folder. */
  lemma NoDatasetIffNoFolders(root: seq<Entry>)
    ensures BuildIndex(root) == Failure(NoDataset) <==> forall e :: e in root ==> !e.isDir
  {
    IdentitiesAreFolders(root);
    var ids := Identities(root);
    IndexNoDataset(ids);
    if |ids| > 0 {
      assert ids[0] in ids;
    }
  }

  /** When every identity folder with a prompt file has the same number of
      prompts, so does every image of the index. */
  lemma UniformFolders(root: seq<Entry>)
    requires forall d, e ::
      d in root && e in root && d.isDir && e.isDir && d.prompt.Some? && e.prompt.Some? ==>
        |d.prompt.value.prompts| == |e.prompt.value.prompts|
    requires BuildIndex(root).Success?
    ensures UniformPrompts(BuildIndex(root).value)
  {
    var rows := BuildIndex(root).value.columns.prompts;
    var last := PromptSource(root, |rows| - 1);
    var count := |last.prompt.value.prompts|;
    forall k | 0 <= k < |rows|
      ensures |rows[k]| == count
    {
      var d := PromptSource(root, k);
      assert |d.prompt.value.prompts| == count;
    }
    RowsAgree(BuildIndex(root).value, count);
  }

  lemma RowsAgree(l: Layout, count: nat)
    requires Consistent(l)
    requires forall k :: 0 <= k < |l.columns.prompts| ==> |l.columns.prompts[k]| == count
    ensures UniformPrompts(l)
  {
  }

  /** The prompts of image `i` are those of a folder of the root. */
  lemma PromptSource(root: seq<Entry>, i: nat) returns (d: Entry)
    requires BuildIndex(root).Success?
    requires i < |BuildIndex(root).value.columns.prompts|
    ensures Consistent(BuildIndex(root).value)
    ensures d in root && d.isDir && d.prompt.Some?
    ensures BuildIndex(root).value.columns.prompts[i] == d.prompt.value.prompts
  {
    d := RowSource(root, i);
  }

  // ---------------------------------------------------------------------
  // Sample indices.

  /** `xs[i]` with Python's negative indices: `-1` is the last element. */
  function PyIndex<T>(xs: seq<T>, i: int): (r: Result<T, DatasetError>)
    ensures r.Success? <==> -|xs| <= i < |xs|
    ensures r.Failure? ==> r.error == IndexOutOfRange
  {
    if 0 <= i < |xs| then Success(xs[i])
    else if -|xs| <= i < 0 then Success(xs[i + |xs|])
    else Failure(IndexOutOfRange)
  }

  lemma {:induction false} MulNonnegative(d: nat, n: nat)
    ensures d * n >= 0
    decreases d
  {
    if d > 0 {
      MulNonnegative(d - 1, n);
      assert d * n == (d - 1) * n + n;
    }
  }

  lemma MulMonotone(a: int, b: int, n: nat)
    ensures a <= b ==> a * n <= b * n
  {
    if a <= b {
      MulNonnegative(b - a, n);
      assert b * n - a * n == (b - a) * n;
    }
  }

  /** Euclid's division, which is what Python's `//` and `%` compute for a
      positive divisor: a quotient and a remainder below the divisor are the
      only ones. */
  lemma DivModUnique(idx: int, n: nat, q: int, r: int)
    requires n > 0 && 0 <= r < n && idx == q * n + r
    ensures idx / n == q && idx % n == r
  {
    var q', r' := idx / n, idx % n;
    assert idx == q' * n + r';
    // Quotients that differ by one or more put the products at least `n`
    // apart, more than the remainders can make up.
    MulMonotone(q' + 1, q, n);
    MulMonotone(q + 1, q', n);
  }

  /** With `m` images and `n > 0` prompts, `idx // n` is a valid (possibly
      negative) image index exactly when `-m * n <= idx < m * n`. */
  lemma QuotientRange(idx: int, n: nat, m: int)
    requires n > 0 && m >= 0
    ensures -m <= idx / n < m <==> -(m * n) <= idx < m * n
    ensures 0 <= idx / n < m <==> 0 <= idx < m * n
  {
    var q, r := idx / n, idx % n;
    assert idx == q * n + r && 0 <= r < n;
    assert (q + 1) * n == q * n + n;
    assert (-m) * n == -(m * n);
    MulMonotone(m, q, n);
    MulMonotone(q + 1, m, n);
    MulMonotone(-m, q, n);
    MulMonotone(q + 1, -m, n);
    MulMonotone(0, q, n);
    MulMonotone(q + 1, 0, n);
  }

  /** Adding `m * n` to an index moves its quotient by `m` and keeps its
      remainder. */
  lemma ShiftQuotient(idx: int, n: nat, m: int)
    requires n > 0
    ensures (idx + m * n) / n == idx / n + m && (idx + m * n) % n == idx % n
  {
    var q, r := idx / n, idx % n;
    assert idx + m * n == (q + m) * n + r;
    DivModUnique(idx + m * n, n, q + m, r);
  }

  /** A valid sample index names an image and one of the prompts. */
  lemma SampleDecompose(l: Layout, idx: int)
    requires l.numPrompts > 0 && 0 <= idx < SampleCount(l)
    ensures 0 <= idx / l.numPrompts < |l.columns.imagePaths|
    ensures 0 <= idx % l.numPrompts < l.numPrompts
    ensures idx == (idx / l.numPrompts) * l.numPrompts + idx % l.numPrompts
  {
    QuotientRange(idx, l.numPrompts, |l.columns.imagePaths|);
  }

  /** Every (image, prompt) pair has its sample index, and decomposing that
      index gives the pair back; with SampleDecompose this makes the sample
      indices `0 .. len - 1` and the pairs correspond one to one. */
  lemma SampleCompose(l: Layout, i: int, p: int)
    requires 0 <= i < |l.columns.imagePaths| && 0 <= p < l.numPrompts
    ensures 0 <= i * l.numPrompts + p < SampleCount(l)
    ensures (i * l.numPrompts + p) / l.numPrompts == i
    ensures (i * l.numPrompts + p) % l.numPrompts == p
  {
    var n, m := l.numPrompts, |l.columns.imagePaths|;
    MulMonotone(i + 1, m, n);
    MulMonotone(0, i, n);
    assert (i + 1) * n == i * n + n;
    DivModUnique(i * n + p, n, i, p);
  }

  // ---------------------------------------------------------------------
  // `get_metadata`.

  /** The dictionary `get_metadata` returns, less its generation time. */
  datatype SampleMetadata = SampleMetadata(
    index: int,
    prompt: string,
    attributes: Dict<string, int>,
    detectables: seq<string>,
    imagePath: ImagePath,
    saveName: string)

  /** The name generated images are saved under:
      `<folder with / as _>-<image stem>-<prompt index, two digits>`. */
  function SaveName(path: ImagePath, p: nat): string {
    Join([ReplaceChar(path.folder, '/', '_'), Stem(path.name), ZeroPad(Digits(p), 2)], '-')
  }

  /** `self.image_paths[idx // self._num_prompts]`: the image of sample
      `idx`. */
  function ImageAt(l: Layout, idx: int): Result<ImagePath, DatasetError> {
    if l.numPrompts == 0 then Failure(ZeroDivision)
    else PyIndex(l.columns.imagePaths, idx / l.numPrompts)
  }

  /** `self.prompts[idx // n][idx % n]` with `n = self._num_prompts`: the
      prompt of sample `idx`. */
  function PromptAt(l: Layout, idx: int): Result<string, DatasetError> {
    if l.numPrompts == 0 then Failure(ZeroDivision)
    else
      var row :- PyIndex(l.columns.prompts, idx / l.numPrompts);
      PyIndex(row, idx % l.numPrompts)
  }

  /** `get_metadata(idx)`, with its lookups in the order they are made. */
  function Metadata(l: Layout, idx: int): Result<SampleMetadata, DatasetError> {
    var path :- ImageAt(l, idx);
    var text :- PromptAt(l, idx);
    var img, p := idx / l.numPrompts, idx % l.numPrompts;
    var record :- PyIndex(l.columns.metadata, img);
    var detectableRow :- PyIndex(l.columns.detectables, img);
    var detectables :- PyIndex(detectableRow, p);
    Success(SampleMetadata(idx, text, record.attributes, detectables, path, SaveName(path, p)))
  }

  /** On a consistent index in which every image has `numPrompts` prompts,
      `get_metadata` answers exactly the indices `-len .. len - 1`, and
      divides by zero when there are no prompts. */
  lemma MetadataDefined(l: Layout, idx: int)
    requires Consistent(l) && UniformPrompts(l)
    ensures l.numPrompts == 0 ==> Metadata(l, idx) == Failure(ZeroDivision)
    ensures l.numPrompts > 0 ==>
      (Metadata(l, idx).Success? <==> -SampleCount(l) <= idx < SampleCount(l))
    ensures l.numPrompts > 0 && !(-SampleCount(l) <= idx < SampleCount(l)) ==>
      Metadata(l, idx) == Failure(IndexOutOfRange)
  {
    if l.numPrompts > 0 {
      QuotientRange(idx, l.numPrompts, |l.columns.imagePaths|);
    }
  }

  /** For `0 <= idx < len`, `get_metadata` describes image `idx // n` with
      prompt `idx % n` of that image. */
  lemma MetadataFields(l: Layout, idx: int)
    requires Consistent(l) && UniformPrompts(l) && l.numPrompts > 0
    requires 0 <= idx < SampleCount(l)
    ensures var i, p := idx / l.numPrompts, idx % l.numPrompts;
      && 0 <= i < |l.columns.imagePaths| && 0 <= p < l.numPrompts
      && Metadata(l, idx) == Success(SampleMetadata(
           idx,
           l.columns.prompts[i][p],
           l.columns.metadata[i].attributes,
           l.columns.detectables[i][p],
           l.columns.imagePaths[i],
           SaveName(l.columns.imagePaths[i], p)))
  {
    SampleDecompose(l, idx);
  }

  /** A negative index names the same sample as the index `len` above it;
      only the `index` field differs. */
  lemma MetadataNegative(l: Layout, idx: int)
    requires Consistent(l) && UniformPrompts(l) && l.numPrompts > 0
    requires -SampleCount(l) <= idx < 0
    ensures Metadata(l, idx).Success? && Metadata(l, idx + SampleCount(l)).Success?
    ensures Metadata(l, idx).value == Metadata(l, idx + SampleCount(l)).value.(index := idx)
  {
    var c, n, m := l.columns, l.numPrompts, |l.columns.imagePaths|;
    var j := idx + m * n;
    MetadataFields(l, j);
    var q, r := j / n, j % n;
    ShiftQuotient(idx, n, m);
    assert PyIndex(c.imagePaths, q - m) == Success(c.imagePaths[q]);
    assert PyIndex(c.prompts, q - m) == Success(c.prompts[q]);
    assert PyIndex(c.metadata, q - m) == Success(c.metadata[q]);
    assert PyIndex(c.detectables, q - m) == Success(c.detectables[q]);
  }

  // ---------------------------------------------------------------------
  // Save names.

  lemma SaveNameParts(path: ImagePath, p: nat)
    requires '-' !in path.folder && '-' !in Stem(path.name)
    ensures Split(SaveName(path, p), '-') ==
      [ReplaceChar(path.folder, '/', '_'), Stem(path.name), ZeroPad(Digits(p), 2)]
    ensures ParseInt(ZeroPad(Digits(p), 2)) == Some(p) && |ZeroPad(Digits(p), 2)| >= 2
  {
    var pad := ZeroPad(Digits(p), 2);
    var parts := [ReplaceChar(path.folder, '/', '_'), Stem(path.name), pad];
    assert forall k :: 0 <= k < |parts| ==> '-' !in parts[k];
    SplitJoin(parts, '-');
    ZeroPadRoundTrip(p, 2);
  }

  /** Two samples share a save name only if they come from the same folder,
      from images with the same stem, and use the same prompt index (for
      folder and image stems free of `-` and of `/`). */
  lemma SaveNamesDistinct(a: ImagePath, p: nat, b: ImagePath, q: nat)
    requires '-' !in a.folder && '-' !in Stem(a.name) && '/' !in a.folder
    requires '-' !in b.folder && '-' !in Stem(b.name) && '/' !in b.folder
    requires SaveName(a, p) == SaveName(b, q)
    ensures a.folder == b.folder && Stem(a.name) == Stem(b.name) && p == q
  {
    SaveNameParts(a, p);
    SaveNameParts(b, q);
    ZeroPadInjective(p, q, 2);
  }

  /** The save name sees only the stem: two images of one folder that
      differ only in extension get the same save names. */
  lemma SaveNameIgnoresExtension()
    ensures IsImageName("0.jpg") && IsImageName("0.png")
    ensures SaveName(ImagePath("000", "0.jpg"), 0) == SaveName(ImagePath("000", "0.png"), 0)
  {
    NameParts("0", ".jpg");
    NameParts("0", ".png");
    assert "0" + ".jpg" == "0.jpg" && "0" + ".png" == "0.png";
  }

  // ---------------------------------------------------------------------
  // Loading a sample.

  /** `img_path.parent / (img_path.stem + "_bg.png")`: where the background
      mask of an image is cached. */
  function MaskPath(p: ImagePath): ImagePath {
    ImagePath(p.folder, Stem(p.name) + "_bg.png")
  }

  /** A mask is a `.png` whose stem is the image's stem with `_bg` added, so
      it is never taken for an image when an index is built, and it is never
      the image itself. */
  lemma MaskName(p: ImagePath)
    ensures Suffix(MaskPath(p).name) == ".png" && Stem(MaskPath(p).name) == Stem(p.name) + "_bg"
    ensures !IsImageName(MaskPath(p).name)
    ensures MaskPath(p) != p
  {
    var stem := Stem(p.name) + "_bg";
    assert Stem(p.name) + "_bg.png" == stem + ".png";
    NameParts(stem, ".png");
    assert stem[|stem| - 3..] == "_bg";
    assert |Stem(MaskPath(p).name)| == |Stem(p.name)| + 3;
  }

  /** Two images share a mask exactly when they lie in the same folder and
      have the same stem, as `0.jpg` and `0.png` do. */
  lemma MaskShared(a: ImagePath, b: ImagePath)
    ensures MaskPath(a) == MaskPath(b) <==> a.folder == b.folder && Stem(a.name) == Stem(b.name)
  {
    if MaskPath(a) == MaskPath(b) {
      var x, y := MaskPath(a).name, MaskPath(b).name;
      assert Stem(a.name) == x[..|x| - 7];
      assert Stem(b.name) == y[..|y| - 7];
    }
  }

  datatype Sample = Sample(image: Bytes, mask: Bytes, prompt: string, index: int)

  /** What one `__getitem__` does: its result, the files afterwards, and
      whether the background remover ran. */
  datatype Access = Access(result: Result<Sample, DatasetError>, files: map<ImagePath, Bytes>, removed: bool)

  /** `__getitem__(index)` on the index `l` over the files `files`. The
      background remover is the function `cutOut`, and `binarise` turns its
      output into the black-and-white mask that is saved. The mask is written
      before the prompt is looked up, so a bad prompt index still leaves the
      mask behind. */
  function Item(l: Layout, files: map<ImagePath, Bytes>, cutOut: Bytes -> Bytes, binarise: Bytes -> Bytes, index: int): Access {
    var found := ImageAt(l, index);
    if found.Failure? then Access(Failure(found.error), files, false)
    else
      var path := found.value;
      if path !in files then Access(Failure(FileNotFound(path)), files, false)
      else
        var mask := MaskPath(path);
        var removed := mask !in files;
        var after := if removed then files[mask := binarise(cutOut(files[path]))] else files;
        var text := PromptAt(l, index);
        if text.Failure? then Access(Failure(text.error), after, removed)
        else Access(Success(Sample(files[path], after[mask], text.value, index)), after, removed)
  }

  /** The files after a load: the old ones, plus the mask of the sample's
      image when the remover ran, which it does exactly when that image
      exists and has no mask yet. This unfolds the write-once guard of
      `Item`; ItemWritesOnlyMask and ItemRepeat derive its consequences
      from it. */
  lemma ItemFiles(l: Layout, files: map<ImagePath, Bytes>, cutOut: Bytes -> Bytes, binarise: Bytes -> Bytes, index: int)
    ensures var a := Item(l, files, cutOut, binarise, index);
      && (a.removed <==> ImageAt(l, index).Success? && ImageAt(l, index).value in files
                         && MaskPath(ImageAt(l, index).value) !in files)
      && (!a.removed ==> a.files == files)
      && (a.removed ==> var path := ImageAt(l, index).value;
            a.files == files[MaskPath(path) := binarise(cutOut(files[path]))])
  {
  }

  /** Loading a sample never changes a file that was there, and the only
      file it may add is the mask of the image it loads, which is not an
      image name; the remover runs exactly when that mask is added. */
  lemma ItemWritesOnlyMask(l: Layout, files: map<ImagePath, Bytes>, cutOut: Bytes -> Bytes, binarise: Bytes -> Bytes, index: int)
    ensures var a := Item(l, files, cutOut, binarise, index);
      && (forall q :: q in files ==> q in a.files && a.files[q] == files[q])
      && (forall q :: q in a.files && q !in files ==>
            && ImageAt(l, index).Success? && q == MaskPath(ImageAt(l, index).value)
            && !IsImageName(q.name))
      && (a.removed <==> a.files.Keys != files.Keys)
  {
    var a := Item(l, files, cutOut, binarise, index);
    ItemFiles(l, files, cutOut, binarise, index);
    if a.removed {
      var mask := MaskPath(ImageAt(l, index).value);
      MaskName(ImageAt(l, index).value);
      assert mask in a.files.Keys && mask !in files.Keys;
    }
  }

  /** Loading the same sample again, over the files the first load left,
      gives the same result and neither writes nor runs the remover. */
  lemma ItemRepeat(l: Layout, files: map<ImagePath, Bytes>, cutOut: Bytes -> Bytes, binarise: Bytes -> Bytes, index: int)
    ensures var a := Item(l, files, cutOut, binarise, index);
      Item(l, a.files, cutOut, binarise, index) == Access(a.result, a.files, false)
  {
    var found := ImageAt(l, index);
    if found.Success? {
      MaskName(found.value);
    }
  }

  /** The `__getitem__` counterpart of MetadataFields: for `0 <= index <
      len` on a uniform index, a load succeeds exactly when image `index //
      n` exists, and then returns its bytes, its mask (the cached one, or the
      binarised cut-out just written), the prompt `index % n` of that image,
      and `index`. When the image is absent, opening it fails. */
  lemma ItemLookups(l: Layout, files: map<ImagePath, Bytes>, cutOut: Bytes -> Bytes, binarise: Bytes -> Bytes, index: int)
    requires Consistent(l) && UniformPrompts(l) && l.numPrompts > 0
    requires 0 <= index < SampleCount(l)
    ensures var i, p := index / l.numPrompts, index % l.numPrompts;
      && 0 <= i < |l.columns.imagePaths| && 0 <= p < |l.columns.prompts[i]|
      && var path, a := l.columns.imagePaths[i], Item(l, files, cutOut, binarise, index);
      && (a.result.Success? <==> path in files)
      && (path !in files ==> a.result == Failure(FileNotFound(path)))
      && (path in files ==> a.result.value == Sample(
            files[path],
            if MaskPath(path) in files then files[MaskPath(path)] else binarise(cutOut(files[path])),
            l.columns.prompts[i][p],
            index))
  {
    SampleDecompose(l, index);
    var i, p := index / l.numPrompts, index % l.numPrompts;
    assert ImageAt(l, index) == Success(l.columns.imagePaths[i]);
    assert PyIndex(l.columns.prompts, i) == Success(l.columns.prompts[i]);
    assert PromptAt(l, index) == Success(l.columns.prompts[i][p]);
  }

  /** On a consistent index, `get_metadata` answers every index whose
      prompt exists, with that prompt and the image `__getitem__` opens. */
  lemma MetadataWherePrompt(l: Layout, idx: int)
    requires Consistent(l) && PromptAt(l, idx).Success?
    ensures Metadata(l, idx).Success?
    ensures ImageAt(l, idx).Success? && Metadata(l, idx).value.imagePath == ImageAt(l, idx).value
    ensures Metadata(l, idx).value.prompt == PromptAt(l, idx).value && Metadata(l, idx).value.index == idx
  {
    var c, n := l.columns, l.numPrompts;
    var img, p := idx / n, idx % n;
    var row := PyIndex(c.prompts, img).value;
    assert PyIndex(row, p).Success?;
    var k := if img < 0 then img + |c.prompts| else img;
    assert row == c.prompts[k];
    assert PyIndex(c.detectables, img) == Success(c.detectables[k]);
    assert |c.detectables[k]| == |row|;
  }

  /** On a consistent index, a sample that loads is the sample
      `get_metadata` describes: same prompt, and its image is the file at
      the image path `get_metadata` reports. */
  lemma ItemMatchesMetadata(l: Layout, files: map<ImagePath, Bytes>, cutOut: Bytes -> Bytes, binarise: Bytes -> Bytes, index: int)
    requires Consistent(l)
    requires Item(l, files, cutOut, binarise, index).result.Success?
    ensures Metadata(l, index).Success?
    ensures var m, s := Metadata(l, index).value, Item(l, files, cutOut, binarise, index).result.value;
      && m.prompt == s.prompt && m.index == s.index == index
      && m.imagePath in files && s.image == files[m.imagePath]
  {
    assert ImageAt(l, index).Success? && ImageAt(l, index).value in files;
    assert PromptAt(l, index).Success?;
    MetadataWherePrompt(l, index);
  }

  /** Two images, the first with one prompt and the second with two: the
      prompt count is taken from the second. */
  function UnevenLayout(): (l: Layout)
    ensures Consistent(l) && !UniformPrompts(l)
  {
    var row := AttributeRecord(Empty(), Empty(), 0, "0.jpg");
    var l := Layout(Columns(
      [ImagePath("a", "0.jpg"), ImagePath("b", "0.jpg")],
      [["x"], ["y", "z"]],
      [[[]], [[], []]],
      [row, row]), 2);
    assert |l.columns.prompts[0]| != l.numPrompts;
    l
  }

  /** The checks after the loop accept UnevenLayout: it is what a folder
      `a` with one image and the prompt `x`, followed by a folder `b` with
      one image and the prompts `y`, `z`, builds. */
  lemma UnevenAccepted()
    ensures var row := AttributeRecord(Empty(), Empty(), 0, "0.jpg");
      Finish([
        Columns([ImagePath("a", "0.jpg")], [["x"]], [[[]]], [row]),
        Columns([ImagePath("b", "0.jpg")], [["y", "z"]], [[[], []]], [row])]) == Success(UnevenLayout())
  {
    var row := AttributeRecord(Empty(), Empty(), 0, "0.jpg");
    var first := Columns([ImagePath("a", "0.jpg")], [["x"]], [[[]]], [row]);
    var second := Columns([ImagePath("b", "0.jpg")], [["y", "z"]], [[[], []]], [row]);
    var scans := [first, second];
    assert scans[..1] == [first] && [first][..0] == [];
    assert Gather([first]) == Concat(Columns([], [], [], []), first);
    assert Gather(scans) == Concat(Gather([first]), second);
    assert Gather(scans) == UnevenLayout().columns;
    assert NumPromptsOf(scans) == 2;
  }

  /** With prompt files of different lengths the length overcounts: the
      two images of UnevenLayout give a length of 4, and index 1 asks for
      the missing second prompt of the first image, so `get_metadata`
      fails on it. */
  lemma UnevenMetadata()
    ensures SampleCount(UnevenLayout()) == 4
    ensures Metadata(UnevenLayout(), 1) == Failure(IndexOutOfRange)
  {
    var l := UnevenLayout();
    assert ImageAt(l, 1) == Success(ImagePath("a", "0.jpg"));
    assert PromptAt(l, 1) == Failure(IndexOutOfRange);
  }

  /** `__getitem__(1)` on UnevenLayout fails as well, but only after it has
      run the remover and cached the first image's mask. */
  lemma UnevenItem(files: map<ImagePath, Bytes>, cutOut: Bytes -> Bytes, binarise: Bytes -> Bytes)
    requires ImagePath("a", "0.jpg") in files && ImagePath("a", "0_bg.png") !in files
    ensures var a := Item(UnevenLayout(), files, cutOut, binarise, 1);
      a.result == Failure(IndexOutOfRange) && a.removed && ImagePath("a", "0_bg.png") in a.files
  {
    var l := UnevenLayout();
    var path := ImagePath("a", "0.jpg");
    assert ImageAt(l, 1) == Success(path);
    assert PromptAt(l, 1) == Failure(IndexOutOfRange);
    MaskOfFirst();
  }

  lemma MaskOfFirst()
    ensures MaskPath(ImagePath("a", "0.jpg")) == ImagePath("a", "0_bg.png")
  {
    NameParts("0", ".jpg");
    assert "0" + ".jpg" == "0.jpg";
  }

  /** The length can undercount as well: a folder with one image and the
      prompts `x`, `y`, followed by a folder with one image and the prompt
      `z`, builds an index whose length is 2 although it holds three
      (image, prompt) pairs, and no index below that length reaches `y`. */
  lemma UnevenUndercount(p1: ImagePath, p2: ImagePath, r1: AttributeRecord, r2: AttributeRecord)
    ensures var first := Columns([p1], [["x", "y"]], [[[], []]], [r1]);
      var second := Columns([p2], [["z"]], [[[]]], [r2]);
      var r := Finish([first, second]);
      && r.Success? && SampleCount(r.value) == 2
      && |r.value.columns.prompts[0]| + |r.value.columns.prompts[1]| == 3
      && forall idx :: 0 <= idx < SampleCount(r.value) ==> PromptAt(r.value, idx) != Success("y")
  {
    var first := Columns([p1], [["x", "y"]], [[[], []]], [r1]);
    var second := Columns([p2], [["z"]], [[[]]], [r2]);
    var scans := [first, second];
    assert scans[..1] == [first] && [first][..0] == [];
    assert Gather([first]) == Concat(Columns([], [], [], []), first);
    assert Gather(scans) == Concat(Gather([first]), second);
    var c := Columns([p1, p2], [["x", "y"], ["z"]], [[[], []], [[]]], [r1, r2]);
    assert Gather(scans) == c;
    assert NumPromptsOf(scans) == 1;
    var l := Layout(c, 1);
    assert Finish(scans) == Success(l);
    assert PromptAt(l, 0) == Success("x");
    assert PromptAt(l, 1) == Success("z");
  }

  /** The lists are compared only in total after the loop: a folder with one
      image and two attribute files followed by a folder with one image and
      none builds an index, in which the second folder's image is described
      by the first folder's second record. */
  lemma CountsCheckedInTotal(p1: ImagePath, p2: ImagePath, r1: AttributeRecord, r2: AttributeRecord, prompt: PromptFile)
    ensures var first := Columns([p1], [prompt.prompts], [prompt.detectables], [r1, r2]);
      var second := Columns([p2], [prompt.prompts], [prompt.detectables], []);
      Finish([first, second]) == Success(Layout(Columns(
        [p1, p2], [prompt.prompts, prompt.prompts], [prompt.detectables, prompt.detectables], [r1, r2]),
        |prompt.prompts|))
  {
    var first := Columns([p1], [prompt.prompts], [prompt.detectables], [r1, r2]);
    var second := Columns([p2], [prompt.prompts], [prompt.detectables], []);
    var scans := [first, second];
    assert scans[..1] == [first] && [first][..0] == [];
    assert Gather([first]) == Concat(Columns([], [], [], []), first);
    assert Gather(scans) == Concat(Gather([first]), second);
    assert Gather(scans) == Columns(
      [p1, p2], [prompt.prompts, prompt.prompts], [prompt.detectables, prompt.detectables], [r1, r2]);
    assert NumPromptsOf(scans) == |prompt.prompts|;
  }

  // ---------------------------------------------------------------------
  // The dataset object.

  /** What the loop has accumulated after the scans `scans`: the four lists
      and the `prompts` local that the last folder left behind. */
  function Tally(scans: seq<Columns>): (Columns, seq<seq<string>>) {
    (Gather(scans), LastPrompts(scans))
  }

  lemma TallySnoc(scans: seq<Columns>, c: Columns)
    ensures Tally(scans + [c]) == (Concat(Tally(scans).0, c), c.prompts)
  {
    GatherSnoc(scans, c);
  }

  lemma GatherSnoc(scans: seq<Columns>, c: Columns)
    ensures Gather(scans + [c]) == Concat(Gather(scans), c)
  {
    assert (scans + [c])[..|scans|] == scans;
  }

  /** Visiting entry `i` of `entries` when it passes the filter `p` and `f`
      succeeds on it. */
  lemma VisitKept<A, B, E>(entries: seq<A>, i: nat, p: A -> bool, f: A -> Result<B, E>, done: seq<B>)
    requires i < |entries| && p(entries[i]) && f(entries[i]).Success?
    requires MapResult(Filter(entries[..i], p), f) == Success(done)
    ensures MapResult(Filter(entries[..i + 1], p), f) == Success(done + [f(entries[i]).value])
  {
    FilterPrefixStep(entries, i, p);
    MapResultSnoc(Filter(entries[..i], p), entries[i], f);
  }

  lemma WholePrefix<T>(s: seq<T>)
    ensures s[..|s|] == s
  {
  }

  /** Visiting entry `i` of `entries` when it fails the filter `p`. */
  lemma VisitSkipped<A>(entries: seq<A>, i: nat, p: A -> bool)
    requires i < |entries| && !p(entries[i])
    ensures Filter(entries[..i + 1], p) == Filter(entries[..i], p)
  {
    FilterPrefixStep(entries, i, p);
  }

  /** Visiting entry `i` of `entries` when it passes the filter `p` and `f`
      fails on it: mapping `f` over everything that passes fails the same
      way. */
  lemma VisitFailed<A, B, E>(entries: seq<A>, i: nat, p: A -> bool, f: A -> Result<B, E>)
    requires i < |entries| && p(entries[i]) && f(entries[i]).Failure?
    requires MapResult(Filter(entries[..i], p), f).Success?
    ensures MapResult(Filter(entries, p), f) == Failure(f(entries[i]).error)
  {
    FilterPrefixStep(entries, i, p);
    MapResultSnoc(Filter(entries[..i], p), entries[i], f);
    FailureSticks(entries, i + 1, p, f);
  }

  /** Once the entries visited so far fail, visiting the rest changes
      nothing. */
  lemma {:induction false} FailureSticks<A, B, E>(entries: seq<A>, j: nat, p: A -> bool, f: A -> Result<B, E>)
    requires j <= |entries|
    requires MapResult(Filter(entries[..j], p), f).Failure?
    ensures MapResult(Filter(entries, p), f) == MapResult(Filter(entries[..j], p), f)
    decreases |entries| - j
  {
    if j == |entries| {
      assert entries[..j] == entries;
    } else {
      FilterPrefixStep(entries, j, p);
      MapResultStops(Filter(entries[..j], p), if p(entries[j]) then [entries[j]] else [], f);
      FailureSticks(entries, j + 1, p, f);
    }
  }


  class Stellar {
    var imagePaths: seq<ImagePath>
    var prompts: seq<seq<string>>
    var detectables: seq<seq<seq<string>>>
    var metadata: seq<AttributeRecord>
    var numPrompts: nat

    function State(): Layout
      reads this
    {
      Layout(Columns(imagePaths, prompts, detectables, metadata), numPrompts)
    }

    constructor ()
      ensures State() == Layout(Columns([], [], [], []), 0)
    {
      imagePaths, prompts, detectables, metadata := [], [], [], [];
      numPrompts := 0;
    }

    /** One pass of the loop body for an identity folder `d`: scan it and
        append what it contributes, or report the error it raises. On success
        the folder's prompt rows are returned; the prompt count is read from
        the last of them after the loop. */
    method Visit(d: Entry, ghost scans: seq<Columns>) returns (r: Result<seq<seq<string>>, DatasetError>)
      requires State().columns == Gather(scans)
      modifies this
      ensures ScanIdentity(d).Failure? ==> r == Failure(ScanIdentity(d).error)
      ensures ScanIdentity(d).Success? ==>
        (&& r.Success?
         && (State().columns, r.value) == Tally(scans + [ScanIdentity(d).value])
         && numPrompts == old(numPrompts))
    {
      var scan := ScanIdentity(d);
      if scan.Failure? {
        return Failure(scan.error);
      }
      var c := scan.value;
      imagePaths := imagePaths + c.imagePaths;
      prompts := prompts + c.prompts;
      detectables := detectables + c.detectables;
      metadata := metadata + c.metadata;
      TallySnoc(scans, c);
      return Success(c.prompts);
    }

    /** The body of `__init__`: clear the lists, visit the root's entries
        in order of stem, then run the checks after the loop. */
    method Load(root: seq<Entry>) returns (err: Option<DatasetError>)
      modifies this
      ensures BuildIndex(root).Success? ==> err == None && State() == BuildIndex(root).value
      ensures BuildIndex(root).Failure? ==> err == Some(BuildIndex(root).error)
    {
      var entries := SortBy(root, ByStem, LexLe);
      imagePaths, prompts, detectables, metadata := [], [], [], [];
      var lastPrompts;
      ghost var scans;
      err, lastPrompts, scans := Collect(entries);
      if err.Some? {
        return;
      }
      LoopEnd(root, scans);
      err := Finalise(scans, lastPrompts);
    }

    /** The loop of `__init__`: every folder among `entries`, in order, is
        scanned and its contribution appended; the first folder that fails
        to scan stops the loop with its error. Also returns the last
        folder's prompt rows. */
    method Collect(entries: seq<Entry>) returns (err: Option<DatasetError>, lastPrompts: seq<seq<string>>, ghost scans: seq<Columns>)
      requires State().columns == Columns([], [], [], [])
      modifies this
      ensures err.Some? ==> ScanAll(Filter(entries, IsDirectory)) == Failure(err.value)
      ensures err.None? ==>
        (&& ScanAll(Filter(entries, IsDirectory)) == Success(scans)
         && (State().columns, lastPrompts) == Tally(scans))
    {
      scans := [];
      lastPrompts := [];
      err := None;
      var i := 0;
      while i < |entries| && err.None?
        invariant 0 <= i <= |entries|
        invariant err.None? ==> ScanAll(Filter(entries[..i], IsDirectory)) == Success(scans)
        invariant err.None? ==> (State().columns, lastPrompts) == Tally(scans)
        invariant err.Some? ==> ScanAll(Filter(entries, IsDirectory)) == Failure(err.value)
      {
        err, lastPrompts, scans := Step(entries, i, lastPrompts, scans);
        i := i + 1;
      }
      if err.None? {
        WholePrefix(entries);
      }
    }

    /** One pass of the loop for entry `i`: an entry that is not a folder is
        skipped; a folder is visited. */
    method Step(entries: seq<Entry>, i: nat, lastPrompts: seq<seq<string>>, ghost scans: seq<Columns>)
      returns (err: Option<DatasetError>, lastPrompts': seq<seq<string>>, ghost scans': seq<Columns>)
      requires i < |entries|
      requires ScanAll(Filter(entries[..i], IsDirectory)) == Success(scans)
      requires (State().columns, lastPrompts) == Tally(scans)
      modifies this
      ensures err.Some? ==> ScanAll(Filter(entries, IsDirectory)) == Failure(err.value)
      ensures err.None? ==>
        (&& ScanAll(Filter(entries[..i + 1], IsDirectory)) == Success(scans')
         && (State().columns, lastPrompts') == Tally(scans'))
    {
      var e := entries[i];
      if !e.isDir {
        VisitSkipped(entries, i, IsDirectory);
        return None, lastPrompts, scans;
      }
      var visited := Visit(e, scans);
      if visited.Failure? {
        VisitFailed(entries, i, IsDirectory, ScanIdentity);
        return Some(visited.error), lastPrompts, scans;
      }
      VisitKept(entries, i, IsDirectory, ScanIdentity, scans);
      return None, visited.value, scans + [ScanIdentity(e).value];
    }

    /** The checks after the loop: some image was found, the prompt count
        is read from the last folder's first prompt row, and the four lists
        have the same length. */
    method Finalise(ghost scans: seq<Columns>, lastPrompts: seq<seq<string>>) returns (err: Option<DatasetError>)
      requires (State().columns, lastPrompts) == Tally(scans)
      requires |Gather(scans).prompts| > 0 ==> |lastPrompts| > 0
      modifies this
      ensures Finish(scans).Success? ==> err == None && State() == Finish(scans).value
      ensures Finish(scans).Failure? ==> err == Some(Finish(scans).error)
    {
      if |prompts| == 0 {
        return Some(NoDataset);
      }
      numPrompts := |lastPrompts[0]|;
      if !(|imagePaths| == |detectables| == |prompts| == |metadata|) {
        return Some(LengthMismatch);
      }
      return None;
    }

    /** `len(self)`. */
    function Length(): int
      reads this
    {
      SampleCount(State())
    }

    /** `self[index]`: open the image, create and cache its background mask
        if there is none yet, then look up the prompt. The files are those
        of `disk`, the background remover is `remover`. */
    method GetItem(index: int, disk: Disk, remover: BackgroundRemover, binarise: Bytes -> Bytes)
      returns (r: Result<Sample, DatasetError>)
      modifies disk, remover
      ensures var a := Item(State(), old(disk.files), remover.cutOut, binarise, index);
        && r == a.result && disk.files == a.files
        && remover.calls == old(remover.calls) + (if a.removed then 1 else 0)
    {
      var found := if numPrompts == 0 then Failure(ZeroDivision) else PyIndex(imagePaths, index / numPrompts);
      if found.Failure? {
        r := Failure(found.error);
      } else {
        var path := found.value;
        var image := disk.Read(path);
        if image.Failure? {
          r := Failure(image.error);
        } else {
          var mask := CacheMask(path, disk, remover, binarise);
          var maskImage := disk.Read(mask);
          var text := PromptAt(State(), index);
          r := if text.Failure? then Failure(text.error)
               else Success(Sample(image.value, maskImage.value, text.value, index));
        }
      }
    }
  }

  /** The mask-caching block of `__getitem__`: unless the mask of the image
      at `path` exists, run the background remover on the image's bytes,
      write its output to the mask path, then overwrite it with its
      binarised form. Returns the mask path. */
  method CacheMask(path: ImagePath, disk: Disk, remover: BackgroundRemover, binarise: Bytes -> Bytes)
    returns (mask: ImagePath)
    requires path in disk.files
    modifies disk, remover
    ensures mask == MaskPath(path) && mask in disk.files
    ensures old(mask in disk.files) ==> disk.files == old(disk.files) && remover.calls == old(remover.calls)
    ensures old(mask !in disk.files) ==>
      && disk.files == old(disk.files)[mask := binarise(remover.cutOut(old(disk.files)[path]))]
      && remover.calls == old(remover.calls) + 1
  {
    mask := MaskPath(path);
    MaskName(path);
    var cached := disk.Exists(mask);
    if !cached {
      var input := disk.Read(path);
      var output := remover.Remove(input.value);
      disk.Write(mask, output);
      var written := disk.Read(mask);
      disk.Write(mask, binarise(written.value));
    }
  }

  /** The files under the data root, by path. */
  class Disk {
    var files: map<ImagePath, Bytes>

    constructor (files: map<ImagePath, Bytes>)
      ensures this.files == files
    {
      this.files := files;
    }

    /** `Path.exists()`. */
    method Exists(p: ImagePath) returns (b: bool)
      ensures b <==> p in files
    {
      b := p in files;
    }

    /** `Path.read_bytes()`, and what `Image.open` reads. */
    method Read(p: ImagePath) returns (r: Result<Bytes, DatasetError>)
      ensures p in files ==> r == Success(files[p])
      ensures p !in files ==> r == Failure(FileNotFound(p))
    {
      if p in files {
        return Success(files[p]);
      }
      return Failure(FileNotFound(p));
    }

    /** `Path.write_bytes()` and `Image.save()`. */
    method Write(p: ImagePath, data: Bytes)
      modifies this
      ensures files == old(files)[p := data]
    {
      files := files[p := data];
    }
  }

  /** `rembg.remove`: its output for an input is given by `cutOut`; `calls`
      counts how often it has run. */
  class BackgroundRemover {
    const cutOut: Bytes -> Bytes
    var calls: nat

    constructor (cutOut: Bytes -> Bytes)
      ensures this.cutOut == cutOut && calls == 0
    {
      this.cutOut := cutOut;
      calls := 0;
    }

    method Remove(image: Bytes) returns (r: Bytes)
      modifies this
      ensures r == cutOut(image) && calls == old(calls) + 1
    {
      calls := calls + 1;
      return cutOut(image);
    }
  }

  /** `Stellar(data_root)`: a fresh dataset object, or the error its
      construction raises. */
  method Open(root: seq<Entry>) returns (r: Result<Stellar, DatasetError>)
    ensures r.Success? ==> fresh(r.value) && BuildIndex(root) == Success(r.value.State())
    ensures r.Failure? ==> BuildIndex(root) == Failure(r.error)
  {
    var dataset := new Stellar();
    var err := dataset.Load(root);
    if err.Some? {
      return Failure(err.value);
    }
    return Success(dataset);
  }
}
