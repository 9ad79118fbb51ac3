/** How the layout the extraction script writes meets the expectations of
    the `Stellar` loader: which of the written files the loader takes for
    images, masks and attribute records, the order in which it visits the
    written folders, and the order in which it pairs images with records. */
module Agreement {
  import opened Wrappers
  import opened Text
  import opened Sorting
  import opened Dicts
  import opened Records
  import Dataset
  import Extract

  /** The loader takes the written `{i}.jpg` for an image and
      `{i}_attributes.json` for an attribute record, and neither for the
      other; the written `{i}_bg.png` is neither. */
  lemma WrittenNamesRecognised(i: nat)
    ensures Dataset.IsImageName(Extract.ImageName(i)) && !Dataset.IsAttributesName(Extract.ImageName(i))
    ensures Dataset.IsAttributesName(Extract.AnnotationName(i)) && !Dataset.IsImageName(Extract.AnnotationName(i))
    ensures !Dataset.IsImageName(Extract.MaskName(i)) && !Dataset.IsAttributesName(Extract.MaskName(i))
  {
    ImageNameParts(i);
    AnnotationNameParts(i);
    MaskNameParts(i);
  }

  lemma ImageNameParts(i: nat)
    ensures Suffix(Extract.ImageName(i)) == ".jpg" && !EndsWith(Stem(Extract.ImageName(i)), "_bg")
  {
    var d := Digits(i);
    NameParts(d, ".jpg");
    assert d[|d| - 1] != 'g';
  }

  lemma AnnotationNameParts(i: nat)
    ensures Suffix(Extract.AnnotationName(i)) == ".json"
    ensures EndsWith(Stem(Extract.AnnotationName(i)), "_attributes")
  {
    var d := Digits(i);
    var a := d + "_attributes";
    assert Extract.AnnotationName(i) == a + ".json";
    NameParts(a, ".json");
    assert a[|a| - 11..] == "_attributes";
  }

  lemma MaskNameParts(i: nat)
    ensures Suffix(Extract.MaskName(i)) == ".png"
    ensures EndsWith(Stem(Extract.MaskName(i)), "_bg") && !EndsWith(Stem(Extract.MaskName(i)), "_attributes")
  {
    var d := Digits(i);
    var b := d + "_bg";
    assert Extract.MaskName(i) == b + ".png";
    NameParts(b, ".png");
    assert b[|b| - 3..] == "_bg";
    assert b[|b| - 1] != 's';
  }

  /** The mask the loader looks for next to a written image is the mask the
      script wrote for it, so loading an extracted sample finds its mask in
      place and does not run the background remover. */
  lemma WrittenMaskIsCached(folder: string, i: nat)
    ensures Dataset.MaskPath(Dataset.ImagePath(folder, Extract.ImageName(i))) ==
      Dataset.ImagePath(folder, Extract.MaskName(i))
  {
    NameParts(Digits(i), ".jpg");
  }

  /** The three digits of a folder name below 1000. */
  lemma FolderNameDigits(n: nat)
    requires n < 1000
    ensures Extract.FolderName(n) == ThreeDigitString(n)
  {
    if n < 10 {
      OneDigit(n);
    } else if n < 100 {
      TwoDigits(n);
    } else {
      ThreeDigits(n);
    }
  }

  lemma OneDigit(n: nat)
    requires n < 10
    ensures Extract.FolderName(n) == [DigitChar(n / 100), DigitChar(n / 10 % 10), DigitChar(n % 10)]
  {
    assert Digits(n) == [DigitChar(n)];
    assert Zeros(2) == [DigitChar(0), DigitChar(0)];
  }

  lemma TwoDigits(n: nat)
    requires 10 <= n < 100
    ensures Extract.FolderName(n) == [DigitChar(n / 100), DigitChar(n / 10 % 10), DigitChar(n % 10)]
  {
    assert Digits(n / 10) == [DigitChar(n / 10)];
    assert Digits(n) == [DigitChar(n / 10), DigitChar(n % 10)];
    assert Zeros(1) == [DigitChar(0)];
  }

  lemma ThreeDigits(n: nat)
    requires 100 <= n < 1000
    ensures Extract.FolderName(n) == [DigitChar(n / 100), DigitChar(n / 10 % 10), DigitChar(n % 10)]
  {
    assert Digits(n / 100) == [DigitChar(n / 100)];
    assert Digits(n / 10) == [DigitChar(n / 100), DigitChar(n / 10 % 10)];
  }

  /** A name without a dot is its own stem. */
  lemma StemWithoutDot(s: string)
    requires '.' !in s
    ensures Stem(s) == s
  {
  }

  lemma DotFree(x: nat, y: nat, z: nat)
    requires x < 10 && y < 10 && z < 10
    ensures '.' !in [DigitChar(x), DigitChar(y), DigitChar(z)]
  {
  }

  /** Digit characters compare as the digits do. */
  lemma DigitCharOrder(x: nat, y: nat)
    requires x < 10 && y < 10
    ensures DigitChar(x) < DigitChar(y) <==> x < y
    ensures DigitChar(x) == DigitChar(y) <==> x == y
    ensures DigitChar(x) <= DigitChar(y) <==> x <= y
  {
  }

  /** Name order on strings of three characters. */
  lemma LexLeThree(a: string, b: string)
    requires |a| == 3 && |b| == 3
    ensures LexLe(a, b) <==> a[0] < b[0] || (a[0] == b[0] && (a[1] < b[1] || (a[1] == b[1] && a[2] <= b[2])))
  {
    assert LexLe(a[3..], b[3..]);
  }

  /** Numbers below 1000 compare as their three decimal digits do. */
  lemma ThreeDigitOrder(m: nat, n: nat)
    requires m < 1000 && n < 1000
    ensures m <= n <==>
      (m / 100 < n / 100 || (m / 100 == n / 100 &&
        (m / 10 % 10 < n / 10 % 10 || (m / 10 % 10 == n / 10 % 10 && m % 10 <= n % 10))))
  {
    assert m == 100 * (m / 100) + 10 * (m / 10 % 10) + m % 10;
    assert n == 100 * (n / 100) + 10 * (n / 10 % 10) + n % 10;
  }

  /** The three digits of a number below 1000, most significant first. */
  function ThreeDigitString(n: nat): (r: string)
    requires n < 1000
    ensures |r| == 3 && '.' !in r
  {
    DotFree(n / 100, n / 10 % 10, n % 10);
    [DigitChar(n / 100), DigitChar(n / 10 % 10), DigitChar(n % 10)]
  }

  lemma ThreeDigitStringOrder(m: nat, n: nat)
    requires m < 1000 && n < 1000
    ensures LexLe(ThreeDigitString(m), ThreeDigitString(n)) <==> m <= n
  {
    LexLeThree(ThreeDigitString(m), ThreeDigitString(n));
    DigitCharOrder(m / 100, n / 100);
    DigitCharOrder(m / 10 % 10, n / 10 % 10);
    DigitCharOrder(m % 10, n % 10);
    ThreeDigitOrder(m, n);
  }

  /** Folder names below 1000 have no suffix, and sort by name in the order
      of their numbers: the loader, which visits folders in order of their
      stems, visits the written folders in the order the script numbered
      them, that is by split and then by identity. */
  lemma FolderVisitOrder(m: nat, n: nat)
    requires m < 1000 && n < 1000
    ensures Stem(Extract.FolderName(n)) == Extract.FolderName(n)
    ensures LexLe(Extract.FolderName(m), Extract.FolderName(n)) <==> m <= n
  {
    FolderNameDigits(m);
    FolderNameDigits(n);
    StemWithoutDot(ThreeDigitString(n));
    ThreeDigitStringOrder(m, n);
  }

  /** Below ten, sorting by name orders the written image names and the
      written attribute record names alike: both by their number. */
  lemma PairingBelowTen(i: nat, j: nat)
    requires i < 10 && j < 10
    ensures LexLe(Extract.ImageName(i), Extract.ImageName(j)) <==> i <= j
    ensures LexLe(Extract.AnnotationName(i), Extract.AnnotationName(j)) <==> i <= j
  {
    var x, y := Extract.ImageName(i), Extract.ImageName(j);
    assert x[0] == DigitChar(i) && y[0] == DigitChar(j);
    if i == j {
      LexLeTotal(x, x);
      LexLeTotal(Extract.AnnotationName(i), Extract.AnnotationName(i));
    }
    var u, v := Extract.AnnotationName(i), Extract.AnnotationName(j);
    assert u[0] == DigitChar(i) && v[0] == DigitChar(j);
  }

  /** From eleven images on the two orders part: `1.jpg` sorts before
      `10.jpg`, since `.` comes before `0`, but `10_attributes.json` sorts
      before `1_attributes.json`, since `0` comes before `_`. */
  lemma PairingCrossesAtTen()
    ensures LexLt(Extract.ImageName(1), Extract.ImageName(10))
    ensures LexLt(Extract.AnnotationName(10), Extract.AnnotationName(1))
  {
    WrittenNamesAtTen();
    var x, y := "1.jpg", "10.jpg";
    assert x[1] < y[1] && x != y;
    assert LexLe(x[1..], y[1..]);
    var u, v := "10_attributes.json", "1_attributes.json";
    assert u[1] < v[1] && u != v;
    assert LexLe(u[1..], v[1..]);
  }

  lemma WrittenNamesAtTen()
    ensures Extract.ImageName(1) == "1.jpg" && Extract.ImageName(10) == "10.jpg"
    ensures Extract.AnnotationName(1) == "1_attributes.json" && Extract.AnnotationName(10) == "10_attributes.json"
  {
    DigitsAtTen();
  }

  lemma DigitsAtTen()
    ensures Digits(1) == "1" && Digits(10) == "10"
  {
    assert Digits(1) == [DigitChar(1)];
    assert Digits(10) == Digits(1) + [DigitChar(0)];
  }

  /** In a folder holding only `1.jpg`, `10.jpg` and their two attribute
      records, the loader pairs `1.jpg` with `10_attributes.json` and the
      other way round: the attributes reported for an image are those of
      another image of the same identity. */
  lemma PairingInFolder(d: Dataset.Entry, record1: AttributeRecord, record10: AttributeRecord)
    requires d.files == [Extract.ImageName(1), Extract.ImageName(10), Extract.AnnotationName(1), Extract.AnnotationName(10)]
    requires d.records == map[Extract.AnnotationName(1) := record1, Extract.AnnotationName(10) := record10]
    requires d.prompt.Some? && |d.prompt.value.detectables| == |d.prompt.value.prompts|
    ensures Dataset.ScanIdentity(d).Success?
    ensures Dataset.ScanIdentity(d).value.imagePaths ==
      [Dataset.ImagePath(d.name, Extract.ImageName(1)), Dataset.ImagePath(d.name, Extract.ImageName(10))]
    ensures Dataset.ScanIdentity(d).value.metadata == [record10, record1]
  {
    WrittenNamesRecognised(1);
    WrittenNamesRecognised(10);
    PairingCrossesAtTen();
    CrossedPairing(d, Extract.ImageName(1), Extract.ImageName(10), Extract.AnnotationName(1), Extract.AnnotationName(10), record1, record10);
  }

  /** In a folder holding images `a` before `b` and attribute files `u` and
      `v`, where `v` sorts before `u`, the loader reports `v`'s record for
      `a` and `u`'s for `b`, whatever the files were meant to pair. */
  lemma CrossedPairing(d: Dataset.Entry, a: string, b: string, u: string, v: string, ru: AttributeRecord, rv: AttributeRecord)
    requires d.files == [a, b, u, v] && d.records == map[u := ru, v := rv]
    requires Dataset.IsImageName(a) && Dataset.IsImageName(b) && !Dataset.IsImageName(u) && !Dataset.IsImageName(v)
    requires !Dataset.IsAttributesName(a) && !Dataset.IsAttributesName(b)
    requires Dataset.IsAttributesName(u) && Dataset.IsAttributesName(v)
    requires LexLt(a, b) && LexLt(v, u)
    requires d.prompt.Some? && |d.prompt.value.detectables| == |d.prompt.value.prompts|
    ensures Dataset.ScanIdentity(d).Success?
    ensures Dataset.ScanIdentity(d).value.imagePaths == [Dataset.ImagePath(d.name, a), Dataset.ImagePath(d.name, b)]
    ensures Dataset.ScanIdentity(d).value.metadata == [rv, ru]
  {
    NameOrders(d, a, b, u, v);
    assert v != u;
    ReadTwo(d, v, u, rv, ru);
    PathsTwo(d.name, a, b);
    ScanOf(d, [a, b], [rv, ru]);
  }

  lemma PathsTwo(folder: string, a: string, b: string)
    ensures Dataset.PathsIn(folder, [a, b]) == [Dataset.ImagePath(folder, a), Dataset.ImagePath(folder, b)]
  {
    assert [a, b][..1] == [a];
    assert [a][..0] == [];
    assert Dataset.PathsIn(folder, [a]) == [Dataset.ImagePath(folder, a)];
    assert Dataset.PathsIn(folder, [a, b]) == Dataset.PathsIn(folder, [a]) + [Dataset.ImagePath(folder, b)];
  }

  /** The order in which the loader lists such a folder's images and
      attribute files. */
  lemma NameOrders(d: Dataset.Entry, a: string, b: string, u: string, v: string)
    requires d.files == [a, b, u, v]
    requires Dataset.IsImageName(a) && Dataset.IsImageName(b) && !Dataset.IsImageName(u) && !Dataset.IsImageName(v)
    requires !Dataset.IsAttributesName(a) && !Dataset.IsAttributesName(b)
    requires Dataset.IsAttributesName(u) && Dataset.IsAttributesName(v)
    requires LexLt(a, b) && LexLt(v, u)
    ensures Dataset.ImageNames(d) == [a, b]
    ensures Dataset.AttributeNames(d) == [v, u]
  {
    ImageOrder(d, a, b, u, v);
    AttributeOrder(d, a, b, u, v);
  }

  lemma ImageOrder(d: Dataset.Entry, a: string, b: string, u: string, v: string)
    requires d.files == [a, b, u, v]
    requires Dataset.IsImageName(a) && Dataset.IsImageName(b) && !Dataset.IsImageName(u) && !Dataset.IsImageName(v)
    requires LexLt(a, b)
    ensures Dataset.ImageNames(d) == [a, b]
  {
    FilterFour(d.files, Dataset.IsImageName);
    SortedPair(Filter(d.files, Dataset.IsImageName), a, b);
  }

  lemma AttributeOrder(d: Dataset.Entry, a: string, b: string, u: string, v: string)
    requires d.files == [a, b, u, v]
    requires !Dataset.IsAttributesName(a) && !Dataset.IsAttributesName(b)
    requires Dataset.IsAttributesName(u) && Dataset.IsAttributesName(v)
    requires LexLt(v, u)
    ensures Dataset.AttributeNames(d) == [v, u]
  {
    FilterLastTwo(d.files, Dataset.IsAttributesName);
    SwappedPair(Filter(d.files, Dataset.IsAttributesName), v, u);
  }

  lemma SortedPair(s: seq<string>, x: string, y: string)
    requires s == [x, y] && LexLt(x, y)
    ensures SortBy(s, Dataset.ByName, LexLe) == [x, y]
  {
    SortTwo(x, y);
  }

  lemma SwappedPair(s: seq<string>, x: string, y: string)
    requires s == [y, x] && LexLt(x, y)
    ensures SortBy(s, Dataset.ByName, LexLe) == [x, y]
  {
    SortSwapped(x, y);
  }

  /** A folder's scan once its images and records are known. */
  lemma ScanOf(d: Dataset.Entry, images: seq<string>, records: seq<AttributeRecord>)
    requires Dataset.ImageNames(d) == images && |images| > 0
    requires Dataset.ReadRecords(d, Dataset.AttributeNames(d)) == Success(records)
    requires d.prompt.Some? && |d.prompt.value.detectables| == |d.prompt.value.prompts|
    ensures Dataset.ScanIdentity(d).Success?
    ensures Dataset.ScanIdentity(d).value.imagePaths == Dataset.PathsIn(d.name, images)
    ensures Dataset.ScanIdentity(d).value.metadata == records
  {
  }

  /** Reading two attribute files that both parse. */
  lemma ReadTwo(d: Dataset.Entry, x: string, y: string, rx: AttributeRecord, ry: AttributeRecord)
    requires x in d.records && y in d.records && d.records[x] == rx && d.records[y] == ry
    ensures Dataset.ReadRecords(d, [x, y]) == Success([rx, ry])
  {
    ReadOne(d, y, ry);
    assert [x, y][1..] == [y];
    var r := Dataset.ReadRecords(d, [x, y]);
    assert [x, y][0] in d.records;
    assert r.Success?;
    assert r.value == [rx, ry];
  }

  lemma ReadOne(d: Dataset.Entry, y: string, ry: AttributeRecord)
    requires y in d.records && d.records[y] == ry
    ensures Dataset.ReadRecords(d, [y]) == Success([ry])
  {
    assert [y][1..] == [];
    var r := Dataset.ReadRecords(d, [y]);
    assert Dataset.ReadRecords(d, [y][1..]) == Success([]);
    assert [y][0] in d.records;
    assert r.Success?;
    assert r.value == [ry];
  }

  /** Filtering four elements of which only the first two pass. */
  lemma FilterFour<T>(f: seq<T>, p: T -> bool)
    requires |f| == 4 && p(f[0]) && p(f[1]) && !p(f[2]) && !p(f[3])
    ensures Filter(f, p) == [f[0], f[1]]
  {
    FilterPrefixStep(f, 0, p);
    FilterPrefixStep(f, 1, p);
    FilterPrefixStep(f, 2, p);
    FilterPrefixStep(f, 3, p);
    assert f[..4] == f;
  }

  /** Filtering four elements of which only the last two pass. */
  lemma FilterLastTwo<T>(f: seq<T>, p: T -> bool)
    requires |f| == 4 && !p(f[0]) && !p(f[1]) && p(f[2]) && p(f[3])
    ensures Filter(f, p) == [f[2], f[3]]
  {
    FilterPrefixStep(f, 0, p);
    FilterPrefixStep(f, 1, p);
    FilterPrefixStep(f, 2, p);
    FilterPrefixStep(f, 3, p);
    assert f[..4] == f;
  }

  /** Sorting two names already in order keeps them. */
  lemma SortTwo(x: string, y: string)
    requires LexLt(x, y)
    ensures SortBy([x, y], Dataset.ByName, LexLe) == [x, y]
  {
    assert [x, y][1..] == [y];
    assert SortBy([y], Dataset.ByName, LexLe) == [y];
  }

  /** Sorting two names out of order swaps them. */
  lemma SortSwapped(x: string, y: string)
    requires LexLt(x, y)
    ensures SortBy([y, x], Dataset.ByName, LexLe) == [x, y]
  {
    assert [y, x][1..] == [x];
    assert SortBy([x], Dataset.ByName, LexLe) == [x];
    if LexLe(y, x) {
      LexLeAntisymmetric(x, y);
      assert false;
    }
    assert [x][1..] == [];
  }
}
