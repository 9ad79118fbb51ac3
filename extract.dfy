/** The part of the CelebAMask-HQ extraction script that decides how the
    extracted dataset is laid out (`parse_dataset` in
    scripts/extract_stellar_from_celebamaskhq.py): it reads the list of
    images with their splits and the three annotation files, groups the
    images by identity, orders the groups, and names the folder and the
    files every image and its annotation are moved or written to. The moves
    and writes themselves are not modelled: the result is the plan they
    carry out. */
module Extract {
  import opened Wrappers
  import opened Text
  import opened Dicts
  import opened Sorting
  import opened Records

  /** The exceptions the script can raise on its inputs: `ValueError` from
      `int()` on text that is not a number, `IndexError` from a row or a
      list that is too short, `KeyError` from a lookup of a missing image. */
  datatype ExtractError =
    | NotAnInteger(text: string)
    | IndexOutOfRange
    | MissingKey(key: int)

  // ---------------------------------------------------------------------
  // Reading text.

  /** `s.strip(c).split(c)`: the pieces of `s` between the separators `c`,
      without the empty pieces at either end. */
  function StripSplit(s: string, c: char): (r: seq<string>)
    ensures |r| >= 1
  {
    Split(Strip(s, {c}), c)
  }

  /** `text.strip("\n").split("\n")`: the lines of a file. */
  function Lines(text: string): (r: seq<string>)
    ensures |r| >= 1
  {
    StripSplit(text, '\n')
  }

  /** `int(text)`. */
  function Int(text: string): Result<int, ExtractError> {
    match ParseInt(text)
    case Some(v) => Success(v)
    case None => Failure(NotAnInteger(text))
  }

  /** `[f(x) for x in xs]` for an `f` that cannot raise. */
  function Map<A, B>(xs: seq<A>, f: A -> B): (r: seq<B>)
    ensures |r| == |xs| && forall k :: 0 <= k < |xs| ==> r[k] == f(xs[k])
  {
    seq(|xs|, k requires 0 <= k < |xs| => f(xs[k]))
  }

  lemma MapTail<A, B>(xs: seq<A>, f: A -> B)
    requires |xs| >= 1
    ensures Map(xs, f)[1..] == Map(xs[1..], f)
  {
  }

  /** `line.strip("\t").split("\t")`: the cells of a tab-separated row. */
  function TabFields(line: string): (r: seq<string>)
    ensures |r| >= 1
  {
    StripSplit(line, '\t')
  }

  // ---------------------------------------------------------------------
  // The split list: a header line, then one `<number>.<ext>,<split>` line
  // per image of the dataset.

  /** `[int(ln.split(",")[0].split(".")[0]), ln.split(",")[1]]`. The number
      is read before the second column is looked up. */
  function SplitEntry(line: string): Result<(int, string), ExtractError> {
    var columns := Split(line, ',');
    var image :- Int(Split(columns[0], '.')[0]);
    if |columns| < 2 then Failure(IndexOutOfRange) else Success((image, columns[1]))
  }

  /** `{image: split}` over every line but the first. */
  function SplitTable(text: string): (r: Result<Dict<int, string>, ExtractError>)
    ensures r.Success? ==> r.value.Valid()
  {
    var entries :- MapResult(Lines(text)[1..], SplitEntry);
    Success(FromPairs(entries))
  }

  /** The dictionary of the pairs that `f` makes of `xs`: its keys are
      the keys of those pairs, and a key's value is that of its last pair. */
  lemma MappedTable<A, K, V, E>(xs: seq<A>, f: A -> Result<(K, V), E>, k: K, i: nat)
    requires MapResult(xs, f).Success?
    ensures forall j :: 0 <= j < |xs| ==> f(xs[j]).Success?
    ensures k in FromPairs(MapResult(xs, f).value).values <==>
      exists j :: 0 <= j < |xs| && f(xs[j]).value.0 == k
    ensures i < |xs| && (forall j :: i < j < |xs| ==> f(xs[j]).value.0 != f(xs[i]).value.0) ==>
      var d := FromPairs(MapResult(xs, f).value);
      f(xs[i]).value.0 in d.values && d.values[f(xs[i]).value.0] == f(xs[i]).value.1
  {
    MapResultMeaning(xs, f);
    MappedKeys(xs, f, k);
    if i < |xs| && (forall j :: i < j < |xs| ==> f(xs[j]).value.0 != f(xs[i]).value.0) {
      MappedLast(xs, f, i);
    }
  }

  /** The keys half of `MappedTable`. */
  lemma MappedKeys<A, K, V, E>(xs: seq<A>, f: A -> Result<(K, V), E>, k: K)
    requires MapResult(xs, f).Success?
    requires forall j :: 0 <= j < |xs| ==> f(xs[j]).Success?
    ensures k in FromPairs(MapResult(xs, f).value).values <==>
      exists j :: 0 <= j < |xs| && f(xs[j]).value.0 == k
  {
    var pairs := MapResult(xs, f).value;
    MapResultMeaning(xs, f);
    FromPairsKeys(pairs, k);
    if exists j :: 0 <= j < |xs| && f(xs[j]).value.0 == k {
      var j :| 0 <= j < |xs| && f(xs[j]).value.0 == k;
      assert pairs[j].0 == k;
    }
    if exists j :: 0 <= j < |pairs| && pairs[j].0 == k {
      var j :| 0 <= j < |pairs| && pairs[j].0 == k;
      assert f(xs[j]).value.0 == k;
    }
  }

  /** The values half of `MappedTable`. */
  lemma MappedLast<A, K, V, E>(xs: seq<A>, f: A -> Result<(K, V), E>, i: nat)
    requires MapResult(xs, f).Success?
    requires forall j :: 0 <= j < |xs| ==> f(xs[j]).Success?
    requires i < |xs| && forall j :: i < j < |xs| ==> f(xs[j]).value.0 != f(xs[i]).value.0
    ensures var d := FromPairs(MapResult(xs, f).value);
      f(xs[i]).value.0 in d.values && d.values[f(xs[i]).value.0] == f(xs[i]).value.1
  {
    var pairs := MapResult(xs, f).value;
    MapResultMeaning(xs, f);
    assert pairs[i] == f(xs[i]).value;
    forall j | i < j < |pairs|
      ensures pairs[j].0 != pairs[i].0
    {
      assert pairs[j] == f(xs[j]).value;
    }
    FromPairsLast(pairs, i);
  }

  // ---------------------------------------------------------------------
  // The annotation files: rows whose first field is an image file name
  // such as `123.jpg`, kept only for the images of the split list.

  /** `int(row[0][:-4])`: the number of the image a row is about. */
  function RowKey(row: seq<string>): Result<int, ExtractError> {
    if |row| == 0 then Failure(IndexOutOfRange) else Int(DropLast(row[0], 4))
  }

  /** The pairs of `{key(r): value(r) for r in rows if key(r) in keep}`, in
      row order. The test comes first, so a row whose key raises raises
      whether or not it would be kept. */
  function KeptRows<V>(rows: seq<seq<string>>, keep: Dict<int, string>,
                       key: seq<string> -> Result<int, ExtractError>, value: seq<string> -> Result<V, ExtractError>)
    : Result<seq<(int, V)>, ExtractError>
    decreases |rows|
  {
    if |rows| == 0 then Success([])
    else
      var kept :- KeptRows(rows[..|rows| - 1], keep, key, value);
      var row := rows[|rows| - 1];
      var k :- key(row);
      if k !in keep.values then Success(kept)
      else
        var v :- value(row);
        Success(kept + [(k, v)])
  }

  /** Every row's key is read when the filter gets through. */
  lemma {:induction false} KeptRowsParse<V>(rows: seq<seq<string>>, keep: Dict<int, string>,
                                           key: seq<string> -> Result<int, ExtractError>,
                                           value: seq<string> -> Result<V, ExtractError>)
    requires KeptRows(rows, keep, key, value).Success?
    ensures forall i :: 0 <= i < |rows| ==> key(rows[i]).Success?
    decreases |rows|
  {
    if |rows| > 0 {
      var init := rows[..|rows| - 1];
      KeptRowsParse(init, keep, key, value);
      assert forall i :: 0 <= i < |init| ==> rows[i] == init[i];
    }
  }

  /** What survives the filter: a key is kept exactly when some row has it
      and the split list has it too. */
  lemma {:induction false} KeptRowsKeys<V>(rows: seq<seq<string>>, keep: Dict<int, string>,
                                          key: seq<string> -> Result<int, ExtractError>,
                                          value: seq<string> -> Result<V, ExtractError>, k: int)
    requires KeptRows(rows, keep, key, value).Success?
    ensures k in Firsts(KeptRows(rows, keep, key, value).value) <==>
      k in keep.values && Success(k) in Map(rows, key)
    decreases |rows|
  {
    if |rows| > 0 {
      var init := rows[..|rows| - 1];
      var row := rows[|rows| - 1];
      KeptRowsKeys(init, keep, key, value, k);
      var before := KeptRows(init, keep, key, value).value;
      var last := key(row).value;
      assert Map(rows, key) == Map(init, key) + [key(row)];
      if last in keep.values {
        var kept := before + [(last, value(row).value)];
        assert Firsts(kept) == Firsts(before) + [last];
      }
    }
  }

  /** The table built from the kept rows has only images of the split list,
      and all of those that some row names. */
  lemma KeptTableKeys<V>(rows: seq<seq<string>>, keep: Dict<int, string>,
                         key: seq<string> -> Result<int, ExtractError>,
                         value: seq<string> -> Result<V, ExtractError>, k: int)
    requires KeptRows(rows, keep, key, value).Success?
    ensures k in FromPairs(KeptRows(rows, keep, key, value).value).values <==>
      k in keep.values && Success(k) in Map(rows, key)
  {
    var kept := KeptRows(rows, keep, key, value).value;
    KeptRowsKeys(rows, keep, key, value, k);
    FromPairsKeys(kept, k);
    if k in Firsts(kept) {
      var j :| 0 <= j < |kept| && Firsts(kept)[j] == k;
    }
  }

  /** The filter gets through exactly when every row's key is read and
      every kept row's value is too. */
  lemma {:induction false} KeptRowsSucceeds<V>(rows: seq<seq<string>>, keep: Dict<int, string>,
                                              key: seq<string> -> Result<int, ExtractError>,
                                              value: seq<string> -> Result<V, ExtractError>)
    ensures KeptRows(rows, keep, key, value).Success? <==>
      forall i :: 0 <= i < |rows| ==>
        key(rows[i]).Success? && (key(rows[i]).value in keep.values ==> value(rows[i]).Success?)
    decreases |rows|
  {
    if |rows| > 0 {
      var init := rows[..|rows| - 1];
      KeptRowsSucceeds(init, keep, key, value);
      assert forall i :: 0 <= i < |init| ==> rows[i] == init[i];
    }
  }

  /** The table built from the kept rows maps a kept image to the value of
      the last row that names it. */
  lemma {:induction false} KeptRowsValues<V>(rows: seq<seq<string>>, keep: Dict<int, string>,
                                            key: seq<string> -> Result<int, ExtractError>,
                                            value: seq<string> -> Result<V, ExtractError>, i: nat, k: int)
    requires KeptRows(rows, keep, key, value).Success?
    requires i < |rows| && key(rows[i]) == Success(k) && k in keep.values
    requires forall j :: i < j < |rows| ==> key(rows[j]) != Success(k)
    ensures value(rows[i]).Success?
    ensures var d := FromPairs(KeptRows(rows, keep, key, value).value);
      k in d.values && d.values[k] == value(rows[i]).value
    decreases |rows|
  {
    var init := rows[..|rows| - 1];
    var row := rows[|rows| - 1];
    var before := KeptRows(init, keep, key, value).value;
    var last := key(row).value;
    if last in keep.values {
      var kept := before + [(last, value(row).value)];
      assert kept[..|kept| - 1] == before;
    }
    if i < |rows| - 1 {
      assert init[i] == rows[i];
      KeptRowsValues(init, keep, key, value, i, k);
    }
  }

  /** `row[1:]`. */
  function Rest(row: seq<string>): Result<seq<string>, ExtractError> {
    Success(if |row| == 0 then [] else row[1..])
  }

  /** `int(row[1])`. */
  function IdentityOf(row: seq<string>): Result<int, ExtractError> {
    if |row| < 2 then Failure(IndexOutOfRange) else Int(row[1])
  }

  /** A label row and the values of the kept images. */
  datatype Annotations = Annotations(labels: seq<string>, rows: Dict<int, seq<string>>)

  /** The attribute file: its first line (an image count) is dropped, the
      next one holds the labels, and every other line an image file name
      and its values, all split on whitespace. */
  function AttributeTable(text: string, keep: Dict<int, string>): (r: Result<Annotations, ExtractError>)
    ensures r.Success? <==> |Lines(text)| >= 2 && KeptRows(Map(Lines(text)[2..], Fields), keep, RowKey, Rest).Success?
    ensures r.Success? ==> r.value.labels == Fields(Lines(text)[1])
    ensures r.Success? ==> r.value.rows == FromPairs(KeptRows(Map(Lines(text)[2..], Fields), keep, RowKey, Rest).value)
  {
    var lines := Lines(text);
    var rows := Map(lines[1..], Fields);
    if |rows| == 0 then Failure(IndexOutOfRange)
    else
      MapTail(lines[1..], Fields);
      assert lines[1..][1..] == lines[2..];
      var kept :- KeptRows(rows[1..], keep, RowKey, Rest);
      Success(Annotations(rows[0], FromPairs(kept)))
  }

  /** The fine-grained attribute file: tab-separated, its first line holds
      a heading cell and then the labels, every other line an image file
      name and its values. */
  function FinegrainedTable(text: string, keep: Dict<int, string>): (r: Result<Annotations, ExtractError>)
    ensures r.Success? <==> KeptRows(Map(Lines(text)[1..], TabFields), keep, RowKey, Rest).Success?
    ensures r.Success? ==> r.value.labels == TabFields(Lines(text)[0])[1..]
    ensures r.Success? ==> r.value.rows == FromPairs(KeptRows(Map(Lines(text)[1..], TabFields), keep, RowKey, Rest).value)
  {
    var lines := Lines(text);
    var rows := Map(lines, TabFields);
    MapTail(lines, TabFields);
    var kept :- KeptRows(rows[1..], keep, RowKey, Rest);
    Success(Annotations(rows[0][1..], FromPairs(kept)))
  }

  /** The identity file: no header, every line an image file name and the
      number of the person in it, split on whitespace. */
  function IdentityTable(text: string, keep: Dict<int, string>): (r: Result<Dict<int, int>, ExtractError>)
    ensures r.Success? ==> r.value.Valid()
    ensures r.Success? <==> KeptRows(Map(Lines(text), Fields), keep, RowKey, IdentityOf).Success?
    ensures r.Success? ==> r == Success(FromPairs(KeptRows(Map(Lines(text), Fields), keep, RowKey, IdentityOf).value))
  {
    var kept :- KeptRows(Map(Lines(text), Fields), keep, RowKey, IdentityOf);
    Success(FromPairs(kept))
  }

  /** The identity table has only images of the split list. */
  lemma IdentityTableKeys(text: string, keep: Dict<int, string>)
    requires IdentityTable(text, keep).Success?
    ensures forall image :: image in IdentityTable(text, keep).value.values ==> image in keep.values
  {
    forall image | image in IdentityTable(text, keep).value.values
      ensures image in keep.values
    {
      KeptTableKeys(Map(Lines(text), Fields), keep, RowKey, IdentityOf, image);
    }
  }

  /** `KeptRowsSucceeds` for the rows split from the lines of a file, from
      line `from` on. */
  lemma KeptLinesSucceed<V>(lines: seq<string>, from: nat, f: string -> seq<string>, keep: Dict<int, string>,
                            key: seq<string> -> Result<int, ExtractError>,
                            value: seq<string> -> Result<V, ExtractError>)
    requires from <= |lines|
    ensures KeptRows(Map(lines[from..], f), keep, key, value).Success? <==>
      forall i :: from <= i < |lines| ==>
        key(f(lines[i])).Success? && (key(f(lines[i])).value in keep.values ==> value(f(lines[i])).Success?)
  {
    var rows := Map(lines[from..], f);
    KeptRowsSucceeds(rows, keep, key, value);
    forall i | from <= i < |lines|
      ensures rows[i - from] == f(lines[i])
    {
    }
    forall i | 0 <= i < |rows|
      ensures rows[i] == f(lines[i + from])
    {
    }
  }

  /** `KeptLinesSucceed` from the first line on. */
  lemma KeptAllLinesSucceed<V>(lines: seq<string>, f: string -> seq<string>, keep: Dict<int, string>,
                               key: seq<string> -> Result<int, ExtractError>,
                               value: seq<string> -> Result<V, ExtractError>)
    ensures KeptRows(Map(lines, f), keep, key, value).Success? <==>
      forall i :: 0 <= i < |lines| ==>
        key(f(lines[i])).Success? && (key(f(lines[i])).value in keep.values ==> value(f(lines[i])).Success?)
  {
    assert lines[0..] == lines;
    KeptLinesSucceed(lines, 0, f, keep, key, value);
  }

  /** `KeptRowsValues` for the rows split from the lines of a file, from
      line `from` on. */
  lemma KeptLinesValue<V>(lines: seq<string>, from: nat, f: string -> seq<string>, keep: Dict<int, string>,
                          key: seq<string> -> Result<int, ExtractError>,
                          value: seq<string> -> Result<V, ExtractError>, i: nat, k: int)
    requires from <= i < |lines|
    requires KeptRows(Map(lines[from..], f), keep, key, value).Success?
    requires key(f(lines[i])) == Success(k) && k in keep.values
    requires forall j :: i < j < |lines| ==> key(f(lines[j])) != Success(k)
    ensures value(f(lines[i])).Success?
    ensures var d := FromPairs(KeptRows(Map(lines[from..], f), keep, key, value).value);
      k in d.values && d.values[k] == value(f(lines[i])).value
  {
    var rows := Map(lines[from..], f);
    assert rows[i - from] == f(lines[i]);
    forall j | i - from < j < |rows|
      ensures key(rows[j]) != Success(k)
    {
      assert rows[j] == f(lines[j + from]);
    }
    KeptRowsValues(rows, keep, key, value, i - from, k);
  }

  /** The attribute file is read exactly when it has a label line and the
      image number of every later line parses (`row[1:]` cannot fail). */
  lemma AttributeTableSucceeds(text: string, keep: Dict<int, string>)
    ensures var lines := Lines(text);
      AttributeTable(text, keep).Success? <==>
        |lines| >= 2 && forall i :: 2 <= i < |lines| ==> RowKey(Fields(lines[i])).Success?
  {
    var lines := Lines(text);
    if |lines| >= 2 {
      KeptLinesSucceed(lines, 2, Fields, keep, RowKey, Rest);
    }
  }

  /** A kept image maps to the values of the last line that names it: the
      cells after its file name. */
  lemma AttributeTableValue(text: string, keep: Dict<int, string>, i: nat, image: int)
    requires AttributeTable(text, keep).Success?
    requires 2 <= i < |Lines(text)| && RowKey(Fields(Lines(text)[i])) == Success(image) && image in keep.values
    requires forall j :: i < j < |Lines(text)| ==> RowKey(Fields(Lines(text)[j])) != Success(image)
    ensures image in AttributeTable(text, keep).value.rows.values
    ensures AttributeTable(text, keep).value.rows.values[image] == Fields(Lines(text)[i])[1..]
  {
    KeptLinesValue(Lines(text), 2, Fields, keep, RowKey, Rest, i, image);
  }

  /** The fine-grained file is read exactly when the image number of every
      line after the label line parses. */
  lemma FinegrainedTableSucceeds(text: string, keep: Dict<int, string>)
    ensures var lines := Lines(text);
      FinegrainedTable(text, keep).Success? <==>
        forall i :: 1 <= i < |lines| ==> RowKey(TabFields(lines[i])).Success?
  {
    KeptLinesSucceed(Lines(text), 1, TabFields, keep, RowKey, Rest);
  }

  /** A kept image maps to the cells after the file name on the last line
      that names it. */
  lemma FinegrainedTableValue(text: string, keep: Dict<int, string>, i: nat, image: int)
    requires FinegrainedTable(text, keep).Success?
    requires 1 <= i < |Lines(text)| && RowKey(TabFields(Lines(text)[i])) == Success(image) && image in keep.values
    requires forall j :: i < j < |Lines(text)| ==> RowKey(TabFields(Lines(text)[j])) != Success(image)
    ensures image in FinegrainedTable(text, keep).value.rows.values
    ensures FinegrainedTable(text, keep).value.rows.values[image] == TabFields(Lines(text)[i])[1..]
  {
    KeptLinesValue(Lines(text), 1, TabFields, keep, RowKey, Rest, i, image);
  }

  /** The identity file is read exactly when the image number of every line
      parses and every line of a kept image has a second cell that parses
      (`IdentityOf`). */
  lemma IdentityTableSucceeds(text: string, keep: Dict<int, string>)
    ensures var lines := Lines(text);
      IdentityTable(text, keep).Success? <==>
        forall i :: 0 <= i < |lines| ==>
          && RowKey(Fields(lines[i])).Success?
          && (RowKey(Fields(lines[i])).value in keep.values ==> IdentityOf(Fields(lines[i])).Success?)
  {
    KeptAllLinesSucceed(Lines(text), Fields, keep, RowKey, IdentityOf);
  }

  /** A kept image maps to the number in the second cell of the last line
      that names it. */
  lemma IdentityTableValue(text: string, keep: Dict<int, string>, i: nat, image: int)
    requires IdentityTable(text, keep).Success?
    requires i < |Lines(text)| && RowKey(Fields(Lines(text)[i])) == Success(image) && image in keep.values
    requires forall j :: i < j < |Lines(text)| ==> RowKey(Fields(Lines(text)[j])) != Success(image)
    ensures |Fields(Lines(text)[i])| >= 2 && Int(Fields(Lines(text)[i])[1]).Success?
    ensures image in IdentityTable(text, keep).value.values
    ensures IdentityTable(text, keep).value.values[image] == Int(Fields(Lines(text)[i])[1]).value
  {
    var lines := Lines(text);
    assert lines[0..] == lines;
    KeptLinesValue(lines, 0, Fields, keep, RowKey, IdentityOf, i, image);
  }

  /** Everything the script reads, after filtering. */
  datatype Tables = Tables(
    splits: Dict<int, string>,
    attributes: Annotations,
    finegrained: Annotations,
    identities: Dict<int, int>)

  /** Lines 98-150: the four files, read in the order the script reads
      them; the first exception stops the reading. Every image with an
      identity is in the split list. */
  function ReadTables(splitText: string, attributeText: string, finegrainedText: string, identityText: string)
    : (r: Result<Tables, ExtractError>)
    ensures r.Success? ==>
      && r.value.splits.Valid() && r.value.identities.Valid()
      && forall image :: image in r.value.identities.values ==> image in r.value.splits.values
  {
    var splits :- SplitTable(splitText);
    var attributes :- AttributeTable(attributeText, splits);
    var finegrained :- FinegrainedTable(finegrainedText, splits);
    var identities :- IdentityTable(identityText, splits);
    IdentityTableKeys(identityText, splits);
    Success(Tables(splits, attributes, finegrained, identities))
  }

  // ---------------------------------------------------------------------
  // Grouping the images by identity (lines 153-155).

  /** `groups[identity].append(image)` on a `defaultdict(list)`: a new
      identity starts an empty group at the end. */
  function AddToGroup(groups: Dict<int, seq<int>>, identity: int, image: int): (r: Dict<int, seq<int>>)
    requires groups.Valid()
    ensures r.Valid()
  {
    Put(groups, identity, (if identity in groups.values then groups.values[identity] else []) + [image])
  }

  /** The groups the loop builds from the `(image, identity)` pairs. */
  function Grouped(pairs: seq<(int, int)>): (r: Dict<int, seq<int>>)
    ensures r.Valid()
    decreases |pairs|
  {
    if |pairs| == 0 then Empty()
    else AddToGroup(Grouped(pairs[..|pairs| - 1]), pairs[|pairs| - 1].1, pairs[|pairs| - 1].0)
  }

  /** The images of `pairs` that belong to `identity`, in order. */
  function ImagesOf(pairs: seq<(int, int)>, identity: int): seq<int>
    decreases |pairs|
  {
    if |pairs| == 0 then []
    else
      var last := pairs[|pairs| - 1];
      ImagesOf(pairs[..|pairs| - 1], identity) + (if last.1 == identity then [last.0] else [])
  }

  /** Every identity that occurs gets a group: its images, in the order
      they come. */
  lemma {:induction false} GroupedMeaning(pairs: seq<(int, int)>, identity: int)
    ensures identity in Grouped(pairs).values <==> |ImagesOf(pairs, identity)| > 0
    ensures identity in Grouped(pairs).values ==> Grouped(pairs).values[identity] == ImagesOf(pairs, identity)
    decreases |pairs|
  {
    if |pairs| > 0 {
      GroupedMeaning(pairs[..|pairs| - 1], identity);
    }
  }

  lemma {:induction false} ImagesOfMember(pairs: seq<(int, int)>, identity: int, image: int)
    ensures image in ImagesOf(pairs, identity) <==> (image, identity) in pairs
    decreases |pairs|
  {
    if |pairs| > 0 {
      var init := pairs[..|pairs| - 1];
      ImagesOfMember(init, identity, image);
      assert pairs == init + [pairs[|pairs| - 1]];
    }
  }

  /** With every image listed once, every group lists its images once. */
  lemma {:induction false} ImagesOfDistinct(pairs: seq<(int, int)>, identity: int)
    requires forall i, j :: 0 <= i < j < |pairs| ==> pairs[i].0 != pairs[j].0
    ensures var s := ImagesOf(pairs, identity); forall a, b :: 0 <= a < b < |s| ==> s[a] != s[b]
    decreases |pairs|
  {
    if |pairs| > 0 {
      var init := pairs[..|pairs| - 1];
      var last := pairs[|pairs| - 1];
      ImagesOfDistinct(init, identity);
      if last.1 == identity {
        ImagesOfMember(init, identity, last.0);
        assert (last.0, identity) !in init by {
          forall i | 0 <= i < |init|
            ensures init[i].0 != last.0
          {
            assert pairs[i] == init[i];
          }
        }
      }
    }
  }

  /** The grouping partitions the images: an image is in the group of its
      identity, in no other group, and no group lists an image twice. */
  lemma InvertPartition(identities: Dict<int, int>, image: int, other: int)
    requires identities.Valid() && image in identities.values
    ensures var groups := Grouped(Items(identities)).values;
      var mine := identities.values[image];
      && mine in groups && image in groups[mine]
      && (other in groups && other != mine ==> image !in groups[other])
      && (other in groups ==> forall a, b :: 0 <= a < b < |groups[other]| ==> groups[other][a] != groups[other][b])
  {
    var items := Items(identities);
    var mine := identities.values[image];
    ItemsMember(identities, image, mine);
    ItemsMember(identities, image, other);
    ImagesOfMember(items, mine, image);
    ImagesOfMember(items, other, image);
    GroupedMeaning(items, mine);
    GroupedMeaning(items, other);
    ImagesOfDistinct(items, other);
  }

  lemma GroupedPrefix(pairs: seq<(int, int)>, i: nat)
    requires i < |pairs|
    ensures Grouped(pairs[..i + 1]) == AddToGroup(Grouped(pairs[..i]), pairs[i].1, pairs[i].0)
  {
    assert pairs[..i + 1][..i] == pairs[..i];
  }

  /** The loop of lines 153-155: walk the identity table in order and
      append each image to the group of its identity. */
  method Invert(identities: Dict<int, int>) returns (groups: Dict<int, seq<int>>)
    requires identities.Valid()
    ensures groups == Grouped(Items(identities))
  {
    var items := Items(identities);
    groups := Empty();
    var i := 0;
    while i < |items|
      invariant 0 <= i <= |items|
      invariant groups == Grouped(items[..i])
    {
      var image, identity := items[i].0, items[i].1;
      GroupedPrefix(items, i);
      groups := AddToGroup(groups, identity, image);
      i := i + 1;
    }
    assert items[..i] == items;
  }

  // ---------------------------------------------------------------------
  // Tagging and ordering the groups (lines 157-166).

  /** An identity, its images, and the split of its first image. */
  datatype Group = Group(identity: int, images: seq<int>, split: string)

  /** `[images, splits[images[0]]]`. */
  function TagGroup(splits: Dict<int, string>, group: (int, seq<int>)): Result<Group, ExtractError> {
    var images := group.1;
    if |images| == 0 then Failure(IndexOutOfRange)
    else if images[0] !in splits.values then Failure(MissingKey(images[0]))
    else Success(Group(group.0, images, splits.values[images[0]]))
  }

  /** Each group with its split, in group order. */
  function Tag(groups: Dict<int, seq<int>>, splits: Dict<int, string>): Result<seq<Group>, ExtractError>
    requires groups.Valid()
  {
    MapResult(Items(groups), g => TagGroup(splits, g))
  }

  /** When every image with an identity is in the split list, tagging
      cannot fail: every group has a first image, and its split is known.
      Each identity keeps its images, and gets the split of the first. */
  lemma TagAll(identities: Dict<int, int>, splits: Dict<int, string>)
    requires identities.Valid()
    requires forall image :: image in identities.values ==> image in splits.values
    ensures var groups := Grouped(Items(identities)); var r := Tag(groups, splits);
      && r.Success? && |r.value| == |groups.keys|
      && forall i :: 0 <= i < |r.value| ==>
           && r.value[i].identity == groups.keys[i]
           && r.value[i].images == ImagesOf(Items(identities), groups.keys[i])
           && |r.value[i].images| > 0
           && r.value[i].images[0] in splits.values
           && r.value[i].split == splits.values[r.value[i].images[0]]
  {
    var groups := Grouped(Items(identities));
    var items := Items(groups);
    var f := g => TagGroup(splits, g);
    forall k | 0 <= k < |items|
      ensures TagGroup(splits, items[k]).Success?
      ensures TagGroup(splits, items[k]).value.identity == groups.keys[k]
      ensures TagGroup(splits, items[k]).value.images == ImagesOf(Items(identities), groups.keys[k])
    {
      TagOne(identities, splits, groups.keys[k]);
    }
    MapResultAll(items, f);
    MapResultMeaning(items, f);
  }

  /** The group of one identity gets tagged. */
  lemma TagOne(identities: Dict<int, int>, splits: Dict<int, string>, identity: int)
    requires identities.Valid()
    requires forall image :: image in identities.values ==> image in splits.values
    requires identity in Grouped(Items(identities)).values
    ensures var images := Grouped(Items(identities)).values[identity];
      && images == ImagesOf(Items(identities), identity) && |images| > 0 && images[0] in splits.values
      && TagGroup(splits, (identity, images)) == Success(Group(identity, images, splits.values[images[0]]))
  {
    var pairs := Items(identities);
    GroupedMeaning(pairs, identity);
    var first := ImagesOf(pairs, identity)[0];
    ImagesOfMember(pairs, identity, first);
    ItemsMember(identities, first, identity);
  }

  /** Groups are ordered by split name, then by identity number. */
  function SortKey(g: Group): (string, int) {
    (g.split, g.identity)
  }

  /** Python's `<=` on `(str, int)` tuples. */
  predicate KeyLe(a: (string, int), b: (string, int)) {
    LexLt(a.0, b.0) || (a.0 == b.0 && a.1 <= b.1)
  }

  lemma KeyOrderTotal()
    ensures TotalPreorder(KeyLe)
  {
    forall a: (string, int), b: (string, int)
      ensures KeyLe(a, b) || KeyLe(b, a)
    {
      LexLeTotal(a.0, b.0);
    }
    forall a: (string, int), b: (string, int), c: (string, int) | KeyLe(a, b) && KeyLe(b, c)
      ensures KeyLe(a, c)
    {
      LexLeTotal(a.0, a.0);
      LexLeTotal(b.0, b.0);
      LexLeTransitive(a.0, b.0, c.0);
      if a.0 == c.0 {
        LexLeAntisymmetric(a.0, b.0);
      }
    }
  }

  /** `sorted(groups, key=lambda x: (x[1][1], x[0]))`. */
  function SortGroups(groups: seq<Group>): seq<Group> {
    SortBy(groups, SortKey, KeyLe)
  }

  /** The sorted groups are the same groups, in ascending (split, identity)
      order. */
  lemma SortGroupsOrdered(groups: seq<Group>)
    ensures multiset(SortGroups(groups)) == multiset(groups)
    ensures SortedBy(SortGroups(groups), SortKey, KeyLe)
  {
    KeyOrderTotal();
    SortBySorted(groups, SortKey, KeyLe);
  }

  // ---------------------------------------------------------------------
  // Renumbering (lines 169-208): group `n` of the sorted order becomes
  // folder `%03d` of `n`, and image `i` of a group becomes `{i}.jpg`, its
  // mask `{i}_bg.png` and its annotation `{i}_attributes.json`.

  /** `enumerate(xs)`. */
  function Enumerate<T>(xs: seq<T>): (r: seq<(nat, T)>)
    ensures |r| == |xs| && forall k :: 0 <= k < |xs| ==> r[k] == (k as nat, xs[k])
  {
    seq(|xs|, k requires 0 <= k < |xs| => (k as nat, xs[k]))
  }

  /** `f"{n:03d}"`. */
  function FolderName(n: nat): string {
    ZeroPad(Digits(n), 3)
  }

  function ImageName(i: nat): string {
    Digits(i) + ".jpg"
  }

  function MaskName(i: nat): string {
    Digits(i) + "_bg.png"
  }

  function AnnotationName(i: nat): string {
    Digits(i) + "_attributes.json"
  }

  /** The pairs of `{label: convert(value) for label, value in zip(labels,
      values)}`: `zip` stops at the shorter of the two, and the first value
      that does not convert raises. */
  function Zip<V>(labels: seq<string>, values: seq<string>, convert: string -> Result<V, ExtractError>)
    : Result<seq<(string, V)>, ExtractError>
    decreases |labels|
  {
    var n := if |labels| < |values| then |labels| else |values|;
    if n == 0 then Success([])
    else
      var init :- Zip(labels[..n - 1], values[..n - 1], convert);
      var v :- convert(values[n - 1]);
      Success(init + [(labels[n - 1], v)])
  }

  /** The zipped pairs are the labels with their converted values, as many
      as the shorter sequence has; they exist exactly when all of those
      values convert. */
  lemma {:induction false} ZipMeaning<V>(labels: seq<string>, values: seq<string>, convert: string -> Result<V, ExtractError>)
    ensures var n := if |labels| < |values| then |labels| else |values|;
      && (Zip(labels, values, convert).Success? <==> forall j :: 0 <= j < n ==> convert(values[j]).Success?)
      && (Zip(labels, values, convert).Success? ==>
            && |Zip(labels, values, convert).value| == n
            && forall j :: 0 <= j < n ==> Zip(labels, values, convert).value[j] == (labels[j], convert(values[j]).value))
    decreases |labels|
  {
    var n := if |labels| < |values| then |labels| else |values|;
    if n > 0 {
      var ls, vs := labels[..n - 1], values[..n - 1];
      ZipMeaning(ls, vs, convert);
      assert forall j :: 0 <= j < n - 1 ==> ls[j] == labels[j] && vs[j] == values[j];
    }
  }

  /** Every value that `zip` pairs with a label converts. */
  predicate PairedConvert<V>(labels: seq<string>, values: seq<string>, convert: string -> Result<V, ExtractError>) {
    forall j :: 0 <= j < |labels| && j < |values| ==> convert(values[j]).Success?
  }

  /** `d` is `{label: convert(value) for label, value in zip(labels,
      values)}`: its keys are the labels `zip` pairs with a value, and a
      label maps to the converted last value paired with it. */
  ghost predicate LabelledValues<V>(d: Dict<string, V>, labels: seq<string>, values: seq<string>,
                                    convert: string -> Result<V, ExtractError>) {
    && (forall k :: k in d.values <==> exists j :: 0 <= j < |labels| && j < |values| && labels[j] == k)
    && (forall j ::
          (&& 0 <= j < |labels| && j < |values|
           && forall i :: j < i < |labels| && i < |values| ==> labels[i] != labels[j]) ==>
            && convert(values[j]).Success? && labels[j] in d.values
            && d.values[labels[j]] == convert(values[j]).value)
  }

  /** The dictionary built from the zipped pairs has the paired labels as
      its keys. */
  lemma ZipKeys<V>(labels: seq<string>, values: seq<string>, convert: string -> Result<V, ExtractError>, k: string)
    requires Zip(labels, values, convert).Success?
    ensures k in FromPairs(Zip(labels, values, convert).value).values <==>
      exists j :: 0 <= j < |labels| && j < |values| && labels[j] == k
  {
    var ps := Zip(labels, values, convert).value;
    ZipMeaning(labels, values, convert);
    FromPairsKeys(ps, k);
    if exists j :: 0 <= j < |labels| && j < |values| && labels[j] == k {
      var j :| 0 <= j < |labels| && j < |values| && labels[j] == k;
      assert ps[j].0 == k;
    }
  }

  /** The zipped pairs exist exactly when every paired value converts, and
      the dictionary built from them is then the comprehension. */
  lemma ZipDict<V>(labels: seq<string>, values: seq<string>, convert: string -> Result<V, ExtractError>)
    ensures Zip(labels, values, convert).Success? <==> PairedConvert(labels, values, convert)
    ensures Zip(labels, values, convert).Success? ==>
      LabelledValues(FromPairs(Zip(labels, values, convert).value), labels, values, convert)
  {
    ZipMeaning(labels, values, convert);
    if Zip(labels, values, convert).Success? {
      ZipDictValues(labels, values, convert);
    }
  }

  /** The values half of `ZipDict`. */
  lemma ZipDictValues<V>(labels: seq<string>, values: seq<string>, convert: string -> Result<V, ExtractError>)
    requires Zip(labels, values, convert).Success?
    ensures LabelledValues(FromPairs(Zip(labels, values, convert).value), labels, values, convert)
  {
    var ps := Zip(labels, values, convert).value;
    ZipMeaning(labels, values, convert);
    forall k
      ensures k in FromPairs(ps).values <==> exists j :: 0 <= j < |labels| && j < |values| && labels[j] == k
    {
      ZipKeys(labels, values, convert, k);
    }
    forall j | && 0 <= j < |labels| && j < |values|
               && forall i :: j < i < |labels| && i < |values| ==> labels[i] != labels[j]
      ensures convert(values[j]).Success? && labels[j] in FromPairs(ps).values
      ensures FromPairs(ps).values[labels[j]] == convert(values[j]).value
    {
      assert ps[j] == (labels[j], convert(values[j]).value);
      FromPairsLast(ps, j);
    }
  }

  /** The annotation of one image: its attributes and fine-grained
      attributes, each as a dictionary from label to number, the identity
      it was grouped under, and its original file name. The attribute row
      is looked up and converted before the fine-grained one. */
  function Annotate(t: Tables, identity: int, image: int): Result<AttributeRecord, ExtractError> {
    if image !in t.attributes.rows.values then Failure(MissingKey(image))
    else
      var attributes :- Zip(t.attributes.labels, t.attributes.rows.values[image], Int);
      if image !in t.finegrained.rows.values then Failure(MissingKey(image))
      else
        var finegrained :- Zip(t.finegrained.labels, t.finegrained.rows.values[image], Int);
        Success(AttributeRecord(FromPairs(attributes), FromPairs(finegrained), identity, IntToString(image) + ".jpg"))
  }

  /** Where one image goes: the files it is moved from (relative to the
      dataset directory), the names its image, mask and annotation get in
      its folder, and the annotation written. */
  datatype Placement = Placement(
    sourceImage: string,
    sourceMask: string,
    image: string,
    mask: string,
    annotation: string,
    record: AttributeRecord)

  datatype Folder = Folder(name: string, placements: seq<Placement>)

  /** Image number `image`, the `i`-th of the group of `identity`. */
  function Place(t: Tables, identity: int, numbered: (nat, int)): Result<Placement, ExtractError> {
    var (i, image) := numbered;
    var record :- Annotate(t, identity, image);
    Success(Placement(
      "images/" + IntToString(image) + ".jpg",
      "masks/" + IntToString(image) + ".png",
      ImageName(i), MaskName(i), AnnotationName(i),
      record))
  }

  function PlaceStep(t: Tables, identity: int): ((nat, int)) -> Result<Placement, ExtractError> {
    numbered => Place(t, identity, numbered)
  }

  /** The `n`-th group in sorted order. */
  function FolderOf(t: Tables, numbered: (nat, Group)): Result<Folder, ExtractError> {
    var (n, g) := numbered;
    var placements :- MapResult(Enumerate(g.images), PlaceStep(t, g.identity));
    Success(Folder(FolderName(n), placements))
  }

  function FolderStep(t: Tables): ((nat, Group)) -> Result<Folder, ExtractError> {
    numbered => FolderOf(t, numbered)
  }

  /** The folders of the sorted groups, in order; the first image whose
      annotation cannot be built stops the renumbering. */
  function Plan(groups: seq<Group>, t: Tables): Result<seq<Folder>, ExtractError> {
    MapResult(Enumerate(groups), FolderStep(t))
  }

  /** The inner loop of lines 179-206: place the images of one group. */
  method FillFolder(n: nat, g: Group, t: Tables) returns (r: Result<Folder, ExtractError>)
    ensures r == FolderOf(t, (n, g))
  {
    var numbered := Enumerate(g.images);
    var placements: seq<Placement> := [];
    var err: Option<ExtractError> := None;
    var i := 0;
    while i < |numbered| && err.None?
      invariant 0 <= i <= |numbered|
      invariant err.None? ==> MapResult(numbered[..i], PlaceStep(t, g.identity)) == Success(placements)
      invariant err.Some? ==> MapResult(numbered, PlaceStep(t, g.identity)) == Failure(err.value)
    {
      MapResultStep(numbered, i, PlaceStep(t, g.identity));
      var placed := Place(t, g.identity, numbered[i]);
      if placed.Failure? {
        err := Some(placed.error);
      } else {
        placements := placements + [placed.value];
      }
      i := i + 1;
    }
    if err.Some? {
      r := Failure(err.value);
    } else {
      assert numbered[..i] == numbered;
      r := Success(Folder(FolderName(n), placements));
    }
  }

  /** The outer loop of lines 169-208: one folder per group, in order. */
  method Renumber(groups: seq<Group>, t: Tables) returns (r: Result<seq<Folder>, ExtractError>)
    ensures r == Plan(groups, t)
  {
    var numbered := Enumerate(groups);
    var folders: seq<Folder> := [];
    var err: Option<ExtractError> := None;
    var n := 0;
    while n < |numbered| && err.None?
      invariant 0 <= n <= |numbered|
      invariant err.None? ==> MapResult(numbered[..n], FolderStep(t)) == Success(folders)
      invariant err.Some? ==> MapResult(numbered, FolderStep(t)) == Failure(err.value)
    {
      MapResultStep(numbered, n, FolderStep(t));
      var folder := FillFolder(n, groups[n], t);
      if folder.Failure? {
        err := Some(folder.error);
      } else {
        folders := folders + [folder.value];
      }
      n := n + 1;
    }
    if err.Some? {
      r := Failure(err.value);
    } else {
      assert numbered[..n] == numbered;
      r := Success(folders);
    }
  }

  /** A placed image is named by its position in the group, and its
      annotation records the identity and the original file name, which
      the script's own key reading turns back into the image number. */
  lemma PlaceMeaning(t: Tables, identity: int, i: nat, image: int)
    requires Place(t, identity, (i, image)).Success?
    ensures var p := Place(t, identity, (i, image)).value;
      && p.image == ImageName(i) && p.mask == MaskName(i) && p.annotation == AnnotationName(i)
      && p.sourceImage == "images/" + IntToString(image) + ".jpg"
      && p.sourceMask == "masks/" + IntToString(image) + ".png"
      && p.record.identity == identity
      && p.record.originalFilename == IntToString(image) + ".jpg"
      && RowKey([p.record.originalFilename]) == Success(image)
  {
    var p := Place(t, identity, (i, image)).value;
    assert p.record == Annotate(t, identity, image).value;
    AnnotateMeaning(t, identity, image);
    FilenameKey(image);
  }

  /** The key the script reads from `<n>.jpg` is `n`. */
  lemma FilenameKey(image: int)
    ensures RowKey([IntToString(image) + ".jpg"]) == Success(image)
  {
    var name := IntToString(image) + ".jpg";
    assert DropLast(name, 4) == IntToString(image);
    IntToStringRoundTrip(image);
  }

  /** An annotation exists exactly when the image has a row in both
      attribute tables and every value that `zip` pairs with a label in
      either is a number; it then holds the two label dictionaries, the
      identity it was grouped under and the image's original file name. */
  lemma AnnotateMeaning(t: Tables, identity: int, image: int)
    ensures Annotate(t, identity, image).Success? <==>
      && image in t.attributes.rows.values && image in t.finegrained.rows.values
      && PairedConvert(t.attributes.labels, t.attributes.rows.values[image], Int)
      && PairedConvert(t.finegrained.labels, t.finegrained.rows.values[image], Int)
    ensures Annotate(t, identity, image).Success? ==>
      var a := Annotate(t, identity, image).value;
      && a.identity == identity
      && a.originalFilename == IntToString(image) + ".jpg"
      && LabelledValues(a.attributes, t.attributes.labels, t.attributes.rows.values[image], Int)
      && LabelledValues(a.finegrained, t.finegrained.labels, t.finegrained.rows.values[image], Int)
  {
    if image in t.attributes.rows.values {
      ZipDict(t.attributes.labels, t.attributes.rows.values[image], Int);
    }
    if image in t.finegrained.rows.values {
      ZipDict(t.finegrained.labels, t.finegrained.rows.values[image], Int);
    }
  }

  /** A folder that is built holds one placement per image of its group, in
      the group's order. */
  lemma FolderOfMeaning(t: Tables, n: nat, g: Group)
    requires FolderOf(t, (n, g)).Success?
    ensures var f := FolderOf(t, (n, g)).value;
      && f.name == FolderName(n) && |f.placements| == |g.images|
      && forall i :: 0 <= i < |g.images| ==> Place(t, g.identity, (i, g.images[i])) == Success(f.placements[i])
  {
    MapResultMeaning(Enumerate(g.images), PlaceStep(t, g.identity));
  }

  /** A plan that is built has one folder per group, in order, named by its
      position. */
  lemma PlanMeaning(groups: seq<Group>, t: Tables)
    requires Plan(groups, t).Success?
    ensures var folders := Plan(groups, t).value;
      && |folders| == |groups|
      && forall n :: 0 <= n < |groups| ==> FolderOf(t, (n, groups[n])) == Success(folders[n])
  {
    MapResultMeaning(Enumerate(groups), FolderStep(t));
  }

  /** A failed plan fails with the error of the first folder that cannot
      be built: every folder before it is built. */
  lemma PlanFails(groups: seq<Group>, t: Tables)
    requires Plan(groups, t).Failure?
    ensures exists n :: && 0 <= n < |groups| && FolderOf(t, (n, groups[n])) == Failure(Plan(groups, t).error)
                        && forall m :: 0 <= m < n ==> FolderOf(t, (m, groups[m])).Success?
  {
    MapResultMeaning(Enumerate(groups), FolderStep(t));
    var n :| && 0 <= n < |groups| && FolderStep(t)(Enumerate(groups)[n]) == Failure(Plan(groups, t).error)
             && forall m :: 0 <= m < n ==> FolderStep(t)(Enumerate(groups)[m]).Success?;
    assert FolderOf(t, (n, groups[n])) == Failure(Plan(groups, t).error);
    forall m | 0 <= m < n
      ensures FolderOf(t, (m, groups[m])).Success?
    {
      assert FolderStep(t)(Enumerate(groups)[m]).Success?;
    }
  }

  /** `str(i)` is one-to-one. */
  lemma DigitsInjective(i: nat, j: nat)
    requires Digits(i) == Digits(j)
    ensures i == j
  {
    DigitsValueOfDigits(i);
    DigitsValueOfDigits(j);
  }

  /** Folder names read back as their numbers (so they are distinct), and
      have three characters up to 999. */
  lemma FolderNames(m: nat, n: nat)
    ensures ParseInt(FolderName(n)) == Some(n)
    ensures FolderName(m) == FolderName(n) ==> m == n
    ensures n < 1000 ==> |FolderName(n)| == 3
  {
    ZeroPadRoundTrip(n, 3);
    ZeroPadRoundTrip(m, 3);
    if n < 1000 {
      DigitsLength(n);
    }
  }

  lemma {:induction false} DigitsLength(n: nat)
    ensures n < 1000 ==> |Digits(n)| <= 3
  {
    if 10 <= n < 1000 {
      DigitsLength(n / 10);
      assert |Digits(n / 10)| <= 2 by {
        if n / 10 >= 10 {
          assert n / 100 < 10;
          assert Digits(n / 10) == Digits(n / 100) + [DigitChar(n / 10 % 10)];
        }
      }
    }
  }

  /** Within a folder, the `i`-th image, mask and annotation names differ
      from those of any other position, and from each other. */
  lemma FileNamesDistinct(i: nat, j: nat)
    ensures ImageName(i) == ImageName(j) ==> i == j
    ensures MaskName(i) == MaskName(j) ==> i == j
    ensures AnnotationName(i) == AnnotationName(j) ==> i == j
    ensures ImageName(i) != MaskName(j) && ImageName(i) != AnnotationName(j) && MaskName(i) != AnnotationName(j)
  {
    var a, b := Digits(i), Digits(j);
    if ImageName(i) == ImageName(j) {
      assert a == ImageName(i)[..|a|] && b == ImageName(j)[..|b|];
      DigitsInjective(i, j);
    }
    if MaskName(i) == MaskName(j) {
      assert a == MaskName(i)[..|a|] && b == MaskName(j)[..|b|];
      DigitsInjective(i, j);
    }
    if AnnotationName(i) == AnnotationName(j) {
      assert a == AnnotationName(i)[..|a|] && b == AnnotationName(j)[..|b|];
      DigitsInjective(i, j);
    }
    NameEnds(i, j);
  }

  /** The three names end differently: `.jpg`, `.png` and `.json`. */
  lemma NameEnds(i: nat, j: nat)
    ensures ImageName(i) != MaskName(j) && ImageName(i) != AnnotationName(j) && MaskName(i) != AnnotationName(j)
  {
    var x, y, z := ImageName(i), MaskName(j), AnnotationName(j);
    assert x[|x| - 1] == 'g' && y[|y| - 1] == 'g' && z[|z| - 1] == 'n';
    assert x[|x| - 3] == 'j' && y[|y| - 3] == 'p';
    var w := MaskName(i);
    assert w[|w| - 1] == 'g';
  }

  // ---------------------------------------------------------------------
  // The whole extraction.

  /** Lines 98-208: read the tables, group the images by identity, tag the
      groups with their splits, sort them, and place them. */
  function Extraction(splitText: string, attributeText: string, finegrainedText: string, identityText: string)
    : Result<seq<Folder>, ExtractError>
  {
    var t :- ReadTables(splitText, attributeText, finegrainedText, identityText);
    var tagged :- Tag(Grouped(Items(t.identities)), t.splits);
    Plan(SortGroups(tagged), t)
  }

  /** `parse_dataset`, less its file operations. */
  method ParseDataset(splitText: string, attributeText: string, finegrainedText: string, identityText: string)
    returns (r: Result<seq<Folder>, ExtractError>)
    ensures r == Extraction(splitText, attributeText, finegrainedText, identityText)
  {
    var read := ReadTables(splitText, attributeText, finegrainedText, identityText);
    if read.Failure? {
      r := Failure(read.error);
    } else {
      var t := read.value;
      var groups := Invert(t.identities);
      var tagged := Tag(groups, t.splits);
      if tagged.Failure? {
        r := Failure(tagged.error);
      } else {
        r := Renumber(SortGroups(tagged.value), t);
      }
    }
  }

  /** Once the tables are read nothing fails before the renumbering:
      every group has a first image and that image has a split. So the
      extraction fails only on the tables or on an annotation. */
  lemma ExtractionSteps(splitText: string, attributeText: string, finegrainedText: string, identityText: string)
    requires ReadTables(splitText, attributeText, finegrainedText, identityText).Success?
    ensures var t := ReadTables(splitText, attributeText, finegrainedText, identityText).value;
      var tagged := Tag(Grouped(Items(t.identities)), t.splits);
      && tagged.Success?
      && Extraction(splitText, attributeText, finegrainedText, identityText) == Plan(SortGroups(tagged.value), t)
  {
    var t := ReadTables(splitText, attributeText, finegrainedText, identityText).value;
    TagAll(t.identities, t.splits);
  }
}
