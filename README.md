# STELLAR dataset: loader and extraction, modelled in Dafny

STELLAR is a dataset of face identities for personalised text-to-image
generation. This project models and proves properties of its two central
pieces of code:

- **The extraction script** (`scripts/extract_stellar_from_celebamaskhq.py`,
  lines 90-209). It reads the CelebA-HQ split list and the CelebA-Dialog
  annotation tables, then keeps the images that belong to STELLAR. It groups
  them by identity, tags each group with the split of its first image, and
  sorts the groups by split and then identity. Each group is renumbered into
  a folder `%03d` holding `{i}.jpg`, `{i}_bg.png` and `{i}_attributes.json`
  per image.
- **The `Stellar` loader** (`src/stellar_dataset/dataset.py`). It indexes
  such a root folder. Every image is paired with every prompt of its folder,
  and sample `idx` is image `idx // n` with prompt `idx % n`, where `n` is
  the number of prompts. Loading a sample caches a background mask
  `<stem>_bg.png` next to the image.

Modules:

| file | module | what it holds |
|---|---|---|
| `wrappers.dfy` | `Wrappers` | `Option`, `Result` (the error path of every operation), `MapResult` for a `map` whose function may raise |
| `text.dfy` | `Text` | `str.split`, `strip`, whitespace `split()`, `rfind`, `PurePath.suffix`/`stem`, `int()`, `str()`, `zfill`, string order |
| `sorting.dfy` | `Sorting` | `sorted(key=...)` as a stable insertion sort, list comprehensions with `if` |
| `dicts.dfy` | `Dicts` | insertion-ordered `dict` (keys in order plus a map), dict comprehensions, `.items()` |
| `records.dfy` | `Records` | the content of an `{i}_attributes.json` record |
| `dataset.dfy` | `Dataset` | the `Stellar` class, its index as functions, the file store `Disk` and the background remover |
| `extract.dfy` | `Extract` | the extraction script as functions, plus the methods `Invert`, `FillFolder`, `Renumber` and `ParseDataset` for its loops |
| `agreement.dfy` | `Agreement` | how the extracted layout meets the loader's expectations |

The loader is imperative: construction, the folder loop, `__getitem__` and the
mask cache are methods of the class `Stellar`, or methods beside it, that
update fields. Each method is proved equal to a function, such as
`BuildIndex` or `Item`, and the properties are lemmas about those
functions. The extraction script's loops are the methods `Invert`,
`FillFolder` and `Renumber`, proved equal to `Grouped`, `FolderOf` and `Plan`.

### Behaviour of the code worth knowing

- The loader compares image and record counts only in total, after the
  loop (`dataset.py:70-76`), never per identity folder.
  `Dataset.CountsCheckedInTotal` shows that one folder with a missing record
  and another with a spare one build an index. The spare record then
  describes the other folder's image.
- The prompt count is read from the `prompts` variable the loop leaves
  behind (`dataset.py:69`), so it comes from the last identity folder.
  - With prompt files of unequal length, `len()` over- or under-counts.
    When the last folder has more prompts than an earlier one, some indices
    below `len()` name prompts that do not exist, and `get_metadata` raises
    `IndexError` on them (`Dataset.UnevenAccepted`, `Dataset.UnevenMetadata`).
    When it has fewer, no error is raised, but some (image, prompt) pairs
    are never served (`Dataset.UnevenUndercount`).
  - In the first case `__getitem__` fails with an `IndexError` after it has
    already run the background remover and written the mask
    (`Dataset.UnevenItem`).
  - The in-range lemmas therefore assume `UniformPrompts`.
    `Dataset.UniformFolders` shows that equal prompt files give exactly that.
- An identity folder without images raises `IndexError` at
  `detectables[0]` (`dataset.py:66`). The model reports it as `EmptyIdentity`.
- Two images with the same stem and different extensions share a save name
  (`Dataset.SaveNameIgnoresExtension`) and a mask (`Dataset.MaskShared`).
- Images and records are paired by position, each list sorted by file name.
  The extraction names them `{i}.jpg` and `{i}_attributes.json`, and these
  two lists sort alike as long as every `i` is below 10
  (`Agreement.PairingBelowTen`). From eleven images on the orders part:
  `1.jpg` sorts before `10.jpg`, but `10_attributes.json` sorts before
  `1_attributes.json` (`Agreement.PairingCrossesAtTen`). When two images sit
  beside records that sort the other way, the loader gives each image the
  other's record (`Agreement.CrossedPairing`). For example, in a folder
  holding only `1.jpg`, `10.jpg` and their two records, image 1 is described
  by record 10 and image 10 by record 1 (`Agreement.PairingInFolder`).

## Model

| member | source | states |
|---|---|---|
| Dataset.IsImageName | src/stellar_dataset/dataset.py:39 | Definition: an image extension and a stem not ending in `_bg`. Properties in `FolderFiles` and `MaskName`. |
| Dataset.IsAttributesName | src/stellar_dataset/dataset.py:49 | Definition: a `.json` file whose stem ends in `_attributes`. Properties in `FolderFiles`. |
| Dataset.ImageNames | src/stellar_dataset/dataset.py:35-42 | Definition. Properties in `FolderFiles`. |
| Dataset.AttributeNames | src/stellar_dataset/dataset.py:43-53 | Definition. Properties in `FolderFiles`. |
| Dataset.Identities | src/stellar_dataset/dataset.py:24-34 | Definition. Properties in `IdentitiesAreFolders`. |
| Dataset.ReadRecords | src/stellar_dataset/dataset.py:43-53 | Definition. Properties in `ReadRecordsMeaning`. |
| Dataset.ScanIdentity | src/stellar_dataset/dataset.py:35-66 | Definition of one pass of the loop body. Properties in `ScanShape` and `ScanErrors`. |
| Dataset.ScanAll | src/stellar_dataset/dataset.py:32-66 | Definition. Properties in `ScanAllMeaning`. |
| Dataset.Gather | src/stellar_dataset/dataset.py:62-65 | Definition: the four lists concatenated over the scans. Properties in `GatherFlattens`, `BuildIndexRows` and `BuildIndexComplete`. |
| Dataset.BuildIndex | src/stellar_dataset/dataset.py:19-76 | Definition of construction. Properties in `BuildIndexConsistent`, `BuildIndexRows` (every row comes from a folder), `BuildIndexComplete` and `BuildIndexCovers` (every image file and every record of every folder is in the index), `NoDatasetIffNoFolders` and `UniformFolders`; `Stellar.Load` is proved equal to it. |
| Dataset.Finish | src/stellar_dataset/dataset.py:67-76 | Definition of the checks after the loop. Properties in `CountsCheckedInTotal` and `UnevenUndercount`. |
| Dataset.NumPromptsOf | src/stellar_dataset/dataset.py:69 | Definition: the prompt count of the last folder. Properties in `UniformFolders` and `UnevenUndercount`. |
| Dataset.SampleCount | src/stellar_dataset/dataset.py:78-79 | Definition of `__len__`. Properties in `SampleDecompose` and `SampleCompose`. |
| Dataset.Stellar.Length | src/stellar_dataset/dataset.py:78-79 | Definition: `SampleCount` of the object's fields. |
| Dataset.ImageAt | src/stellar_dataset/dataset.py:83-85 | Definition. Properties in `MetadataFields` and `ItemLookups`. |
| Dataset.PromptAt | src/stellar_dataset/dataset.py:82-86 | Definition. Properties in `MetadataFields`, `ItemLookups` and `UnevenMetadata`. |
| Dataset.Metadata | src/stellar_dataset/dataset.py:81-110 | Definition of `get_metadata`. Properties in `MetadataDefined`, `MetadataFields` and `MetadataNegative`. |
| Dataset.SaveName | src/stellar_dataset/dataset.py:94-100 | Definition. Properties in `SaveNameParts`, `SaveNamesDistinct` and `SaveNameIgnoresExtension`. |
| Dataset.MaskPath | src/stellar_dataset/dataset.py:117 | Definition. Properties in `MaskName` and `MaskShared`. |
| Dataset.Item | src/stellar_dataset/dataset.py:112-135 | Definition of `__getitem__`. Properties in `ItemFiles`, `ItemWritesOnlyMask`, `ItemRepeat`, `ItemLookups` and `ItemMatchesMetadata`; `Stellar.GetItem` is proved equal to it. |
| Dataset.Disk.Exists | src/stellar_dataset/dataset.py:118 | `exists()` is true exactly for the paths present. |
| Dataset.Disk.Read | src/stellar_dataset/dataset.py:116-119 | Reading returns the stored bytes, or fails for an absent path. |
| Dataset.Disk.Write | src/stellar_dataset/dataset.py:121-125 | Writing sets exactly that path to the data, and nothing else changes. |
| Dataset.BackgroundRemover.Remove | src/stellar_dataset/dataset.py:120 | The remover returns the cut-out of its input and counts one more call. |
| Dataset.Open | src/stellar_dataset/dataset.py:19-76 | Constructing `Stellar(root)` yields a new object whose four lists and prompt count are exactly the index `BuildIndex(root)`, or fails with the error that construction raises. |
| Dataset.Stellar.constructor | src/stellar_dataset/dataset.py:26-29 | The four lists start empty. |
| Dataset.Stellar.Load | src/stellar_dataset/dataset.py:24-76 | After the loop and the checks, the fields equal the index of the root listing; otherwise the construction error is returned. |
| Dataset.Stellar.Collect | src/stellar_dataset/dataset.py:32-65 | The loop over the entries visits the directories in order. It fails with the first failing folder's error. Otherwise the fields are the concatenation of the folders' scans, and the last folder's prompt rows are kept. |
| Dataset.Stellar.Step | src/stellar_dataset/dataset.py:32-65 | One iteration skips a non-directory, or appends one folder's scan, or stops the whole loop with that folder's error. |
| Dataset.Stellar.Visit | src/stellar_dataset/dataset.py:35-66 | One folder's images, prompt rows, detectable rows and records are appended to the lists, and its prompt rows are returned. If the folder fails to scan, its error is returned. |
| Dataset.Stellar.Finalise | src/stellar_dataset/dataset.py:67-76 | `NoDataset` when no prompt row was collected; otherwise the prompt count comes from the last folder, and the result is `LengthMismatch` unless the four lists have equal length. |
| Dataset.ReadRecordsMeaning | src/stellar_dataset/dataset.py:43-53 | The records are read in the given order, one per file; the first file that does not parse is the error. |
| Dataset.FolderFiles | src/stellar_dataset/dataset.py:35-53 | A folder's images are exactly its files with an image extension whose stem does not end in `_bg`, sorted by name. Its attribute files are exactly its `.json` files whose stem ends in `_attributes`, sorted by name. |
| Dataset.ScanShape | src/stellar_dataset/dataset.py:35-65 | Row `k` of a folder's scan is its `k`-th image by name, with the folder's prompts and detectables. A successful scan has at least one image and one record per attribute file. |
| Dataset.ScanErrors | src/stellar_dataset/dataset.py:35-66 | A folder fails only with an unreadable attribute file, a missing `prompt.json`, no images, or detectables not parallel to prompts. |
| Dataset.ScanAllMeaning | src/stellar_dataset/dataset.py:32-65 | Either every folder scans, or the result is the error of the first folder that does not. |
| Dataset.IdentitiesAreFolders | src/stellar_dataset/dataset.py:24-34 | The folders visited are exactly the directories of the root, without loss or duplication, in order of their stems. |
| Dataset.BuildIndexConsistent | src/stellar_dataset/dataset.py:62-76 | A built index has four lists of the same positive length. Each image's detectables run parallel to its prompts, and the prompt count is that of the last image's folder. |
| Dataset.BuildIndexRows | src/stellar_dataset/dataset.py:32-65 | Every row of a built index is an image file of some directory of the root, carrying that directory's prompts and detectables. |
| Dataset.GatherFlattens | src/stellar_dataset/dataset.py:62-65 | After the `+=` of every scan, `image_paths` and `metadata` are the scans' image paths and records, one scan after the other. |
| Dataset.ScanContributes | src/stellar_dataset/dataset.py:35-53 | A folder that scans contributes the paths of its image files, sorted by name, and the records of its attribute files, which all read. |
| Dataset.IndexOfComplete | src/stellar_dataset/dataset.py:32-66 | An index built from a list of folders holds, folder by folder, the paths of all image files of each and all its attribute records, none of which fails to read. |
| Dataset.BuildIndexComplete | src/stellar_dataset/dataset.py:24-66 | For a built index, `image_paths` is the concatenation, over the identity folders in visit order, of each folder's image files sorted by name. `metadata` is likewise the concatenation of each folder's attribute records, all of which read. |
| Dataset.BuildIndexCovers | src/stellar_dataset/dataset.py:32-62 | Every image file of every directory of the root is in a built index: no image is missed. |
| Dataset.NoDatasetIffNoFolders | src/stellar_dataset/dataset.py:67-68 | Construction raises the "no dataset" error exactly when the root holds no directory. |
| Dataset.UniformFolders | src/stellar_dataset/dataset.py:69 | When all prompt files hold the same number of prompts, every image has exactly the prompt count. |
| Dataset.CountsCheckedInTotal | src/stellar_dataset/dataset.py:62-76 | Counts are only compared in total. A folder with two records, followed by one with none, builds an index in which the second folder's image carries the first folder's second record. |
| Dataset.UnevenLayout | src/stellar_dataset/dataset.py:69 | Consistency does not imply uniform prompts: this index is `Consistent`, yet its two images hold one and two prompts. |
| Dataset.UnevenAccepted | src/stellar_dataset/dataset.py:62-76 | The checks after the loop accept prompt files of different lengths: a folder with prompt `x` followed by one with prompts `y`, `z` builds exactly `UnevenLayout`, with prompt count 2. |
| Dataset.UnevenUndercount | src/stellar_dataset/dataset.py:69-79 | A folder with prompts `x`, `y` followed by one with prompt `z` builds an index of length 2 holding three (image, prompt) pairs; no index below the length reaches `y`. |
| Dataset.UnevenMetadata | src/stellar_dataset/dataset.py:78-86 | On such an index `len()` is 4, yet `get_metadata(1)` raises `IndexError`. |
| Dataset.PyIndex | src/stellar_dataset/dataset.py:85-86 | A Python list lookup succeeds exactly for `-len <= i < len`, and otherwise raises `IndexError`. |
| Dataset.SampleDecompose | src/stellar_dataset/dataset.py:78-84 | Every index below `len()` names an existing image and a prompt number below the prompt count. |
| Dataset.SampleCompose | src/stellar_dataset/dataset.py:78-84 | Every (image, prompt) pair is named by exactly one index below `len()`. |
| Dataset.MetadataDefined | src/stellar_dataset/dataset.py:81-86 | On a uniform index, `get_metadata` succeeds exactly for `-len <= idx < len`. Outside that range it raises `IndexError`, and with zero prompts it raises `ZeroDivisionError`. |
| Dataset.MetadataFields | src/stellar_dataset/dataset.py:81-110 | The metadata of sample `idx` holds `idx` and the prompt, attributes and detectables of image `idx // n` at prompt `idx % n`. It also holds the image path and the save name. |
| Dataset.MetadataNegative | src/stellar_dataset/dataset.py:82-86 | A negative index describes the same sample as `idx + len`; only the reported index differs. |
| Dataset.SaveNameParts | src/stellar_dataset/dataset.py:94-100 | The save name splits on `-` into the folder (with `/` as `_`), the image stem and the two-digit prompt number, and that number parses back. |
| Dataset.SaveNamesDistinct | src/stellar_dataset/dataset.py:94-100 | Save names are equal only for the same folder, stem and prompt number, when no part holds `-` or `/`. |
| Dataset.SaveNameIgnoresExtension | src/stellar_dataset/dataset.py:94-100 | `0.jpg` and `0.png` of one folder are both images and get the same save name. |
| Dataset.MaskName | src/stellar_dataset/dataset.py:117 | The mask is `<stem>_bg.png` beside the image. It is never taken for an image and never is the image itself. |
| Dataset.MaskShared | src/stellar_dataset/dataset.py:117 | Two images share a mask exactly when they share folder and stem. |
| Dataset.ItemFiles | src/stellar_dataset/dataset.py:116-125 | Loading a sample runs the remover exactly when its image exists and has no mask yet. It then adds only the mask, which holds the binarised cut-out of the image; otherwise the files stay unchanged. |
| Dataset.ItemWritesOnlyMask | src/stellar_dataset/dataset.py:118-125 | Loading never changes or removes an existing file. The only file it may add is the mask of the sample's image, and that file is not an image. |
| Dataset.ItemRepeat | src/stellar_dataset/dataset.py:118-125 | Loading the same sample again returns the same result, writes nothing and does not run the remover. |
| Dataset.ItemLookups | src/stellar_dataset/dataset.py:112-135 | On a uniform index, for every `0 <= index < len()`, `__getitem__` succeeds exactly when image `index // n` exists. It then returns that image's bytes, its mask (the cached one, or the binarised cut-out it has just written), prompt `index % n` of that image, and `index`. When the image is absent, it fails to open it. |
| Dataset.ItemMatchesMetadata | src/stellar_dataset/dataset.py:81-135 | `__getitem__` and `get_metadata` agree on the prompt, the index and the image of a sample. |
| Dataset.UnevenItem | src/stellar_dataset/dataset.py:113-127 | On the uneven index, `__getitem__(1)` raises `IndexError` only after it has run the remover and written the mask. |
| Dataset.Stellar.GetItem | src/stellar_dataset/dataset.py:112-135 | The method returns `Item`'s result and leaves `Item`'s files, and it runs the remover once exactly when `Item` does. |
| Dataset.CacheMask | src/stellar_dataset/dataset.py:117-126 | The mask path is `<stem>_bg.png`. If that path exists, nothing changes and the remover does not run. Otherwise the remover runs once, and exactly that path is written with the binarised cut-out. |
| Wrappers.MapResultMeaning | scripts/extract_stellar_from_celebamaskhq.py:98-106 | Mapping a raising function over a list gives one result per element, or the exception of the first element that raises. |
| Dicts.FromPairsLast | scripts/extract_stellar_from_celebamaskhq.py:107-109 | In a dict comprehension, the last pair with a key gives that key's value. |
| Dicts.FromPairsOrder | scripts/extract_stellar_from_celebamaskhq.py:107-109 | A comprehension's keys keep the order of their first occurrence. |
| Dicts.ItemsMember | scripts/extract_stellar_from_celebamaskhq.py:154 | `.items()` lists each key once with its value, and nothing else. |
| Sorting.SortBySorted | src/stellar_dataset/dataset.py:35-42 | `sorted` returns its input in ascending key order; that it is a permutation is `SortBy`'s own contract. |
| Sorting.FilterMember | src/stellar_dataset/dataset.py:36-40 | A comprehension with `if` keeps exactly the elements that pass. |
| Text.IntToStringRoundTrip | scripts/extract_stellar_from_celebamaskhq.py:204 | `int(str(i)) == i` for every integer. |
| Text.ZeroPadRoundTrip | scripts/extract_stellar_from_celebamaskhq.py:172 | A `%03d` folder name parses back to its number. |
| Text.SplitJoin | src/stellar_dataset/dataset.py:94-100 | Splitting a `-`-join of parts free of `-` gives back the parts. |
| Extract.SplitEntry | scripts/extract_stellar_from_celebamaskhq.py:100-103 | Definition of the lambda over one split-list line. Properties in `MappedTable`. |
| Extract.RowKey | scripts/extract_stellar_from_celebamaskhq.py:120-122 | Definition of `int(itm[0][:-4])`. Properties in `KeptRowsParse` and `KeptRowsSucceeds`. |
| Extract.KeptRows | scripts/extract_stellar_from_celebamaskhq.py:119-123 | Definition of the filtered dict comprehension. Properties in `KeptRowsParse`, `KeptRowsSucceeds`, `KeptTableKeys` and `KeptRowsValues`. |
| Extract.IdentityTable | scripts/extract_stellar_from_celebamaskhq.py:142-150 | The table is a well-formed dict. Further properties in `IdentityTableSucceeds`, `IdentityTableValue` and `IdentityTableKeys`. |
| Extract.AddToGroup | scripts/extract_stellar_from_celebamaskhq.py:155 | Definition of `identities_inv[v].append(k)`. |
| Extract.Grouped | scripts/extract_stellar_from_celebamaskhq.py:153-155 | Definition of the inverted dict. Properties in `GroupedMeaning`, `ImagesOfMember` and `InvertPartition`; `Invert` is proved equal to it. |
| Extract.TagGroup | scripts/extract_stellar_from_celebamaskhq.py:157-163 | Definition of `[images, splits[images[0]]]`. Properties in `TagAll`. |
| Extract.Tag | scripts/extract_stellar_from_celebamaskhq.py:157-163 | Definition. Properties in `TagAll`. |
| Extract.SortKey | scripts/extract_stellar_from_celebamaskhq.py:165 | Definition of the key `(split, identity)`. Properties in `KeyOrderTotal`. |
| Extract.SortGroups | scripts/extract_stellar_from_celebamaskhq.py:164-166 | Definition. Properties in `SortGroupsOrdered`. |
| Extract.FolderName | scripts/extract_stellar_from_celebamaskhq.py:172 | Definition of `f"{new_id:03d}"`. Properties in `FolderNames`. |
| Extract.ImageName | scripts/extract_stellar_from_celebamaskhq.py:182 | Definition of `f"{idx}.jpg"`. Properties in `FileNamesDistinct`. |
| Extract.MaskName | scripts/extract_stellar_from_celebamaskhq.py:186 | Definition of `f"{idx}_bg.png"`. Properties in `FileNamesDistinct`. |
| Extract.AnnotationName | scripts/extract_stellar_from_celebamaskhq.py:208 | Definition of `f"{idx}_attributes.json"`. Properties in `FileNamesDistinct`. |
| Extract.Zip | scripts/extract_stellar_from_celebamaskhq.py:189-202 | Definition of the dict comprehension over `zip`. Properties in `ZipMeaning`. |
| Extract.Annotate | scripts/extract_stellar_from_celebamaskhq.py:188-206 | Definition. Properties in `AnnotateMeaning`. |
| Extract.Place | scripts/extract_stellar_from_celebamaskhq.py:179-206 | Definition of one inner iteration. Properties in `PlaceMeaning`. |
| Extract.FolderOf | scripts/extract_stellar_from_celebamaskhq.py:169-206 | Definition of one outer iteration. Properties in `FolderOfMeaning`; `FillFolder` is proved equal to it. |
| Extract.Plan | scripts/extract_stellar_from_celebamaskhq.py:169-209 | Definition. Properties in `PlanMeaning`, `PlanFails`, `FolderNames` and `FileNamesDistinct`; `Renumber` is proved equal to it. |
| Extract.Extraction | scripts/extract_stellar_from_celebamaskhq.py:98-209 | Definition of the whole script body. Properties in `ExtractionSteps`; `ParseDataset` is proved equal to it. |
| Extract.SplitTable | scripts/extract_stellar_from_celebamaskhq.py:98-109 | The split list becomes a dict from image number to split name. |
| Extract.MappedTable | scripts/extract_stellar_from_celebamaskhq.py:98-109 | An image number is a key exactly when some line yields it, and the last such line gives its split. |
| Extract.AttributeTable | scripts/extract_stellar_from_celebamaskhq.py:115-123 | The table is read exactly when it has a label line and the filter over the later rows gets through (see `AttributeTableSucceeds`). The labels are the whitespace fields of the line after the count line. |
| Extract.FinegrainedTable | scripts/extract_stellar_from_celebamaskhq.py:126-139 | The table is read exactly when the filter over the rows after the label line gets through (see `FinegrainedTableSucceeds`). The labels are the tab fields of the first line without its first field. |
| Extract.KeptRowsParse | scripts/extract_stellar_from_celebamaskhq.py:119-123 | A table is read only if the image number of every row parses, including rows that are then dropped. |
| Extract.KeptRowsSucceeds | scripts/extract_stellar_from_celebamaskhq.py:119-123 | The filtered comprehension gets through exactly when every row's image number parses and every kept row's value does too. |
| Extract.KeptRowsValues | scripts/extract_stellar_from_celebamaskhq.py:119-123 | A kept image maps to the value of the last row that names it, as a later key overwrites an earlier one in a dict comprehension. |
| Extract.KeptLinesSucceed | scripts/extract_stellar_from_celebamaskhq.py:115-123 | The same condition stated over the lines of the file, from a given line on. |
| Extract.KeptLinesValue | scripts/extract_stellar_from_celebamaskhq.py:115-123 | The same value stated over the lines of the file: a kept image maps to the value of the last line that names it. |
| Extract.AttributeTableSucceeds | scripts/extract_stellar_from_celebamaskhq.py:115-123 | The attribute file is read exactly when it has a label line and the image number of every later line parses; `row[1:]` cannot fail. |
| Extract.AttributeTableValue | scripts/extract_stellar_from_celebamaskhq.py:118-122 | A kept image maps to `row[1:]` of the last line that names it: the whitespace fields after its file name. |
| Extract.FinegrainedTableSucceeds | scripts/extract_stellar_from_celebamaskhq.py:126-139 | The fine-grained file is read exactly when the image number of every line after the label line parses. |
| Extract.FinegrainedTableValue | scripts/extract_stellar_from_celebamaskhq.py:134-138 | A kept image maps to `fa[1:]` of the last line that names it: the tab fields after its file name. |
| Extract.IdentityTableSucceeds | scripts/extract_stellar_from_celebamaskhq.py:142-150 | The identity file is read exactly when the image number of every line parses and, for every kept line, `int(fa[1])` does too. |
| Extract.IdentityTableValue | scripts/extract_stellar_from_celebamaskhq.py:146-150 | A kept image maps to `int(fa[1])` of the last line that names it. |
| Extract.KeptTableKeys | scripts/extract_stellar_from_celebamaskhq.py:135-139 | An image is kept exactly when it is in the split list and some row names it. |
| Extract.IdentityTableKeys | scripts/extract_stellar_from_celebamaskhq.py:146-150 | Every image in the identity table is in the split list. |
| Extract.ReadTables | scripts/extract_stellar_from_celebamaskhq.py:98-150 | The split and identity tables are well-formed dicts, and every image with an identity has a split. |
| Extract.GroupedMeaning | scripts/extract_stellar_from_celebamaskhq.py:153-155 | An identity appears in the inverted dict exactly when it has images. Its list holds those images in the order of the identity table. |
| Extract.ImagesOfMember | scripts/extract_stellar_from_celebamaskhq.py:153-155 | An image is in an identity's list exactly when the identity table maps it to that identity. |
| Extract.InvertPartition | scripts/extract_stellar_from_celebamaskhq.py:153-155 | Every image is in the list of its own identity and in no other list, and no list holds an image twice. |
| Extract.Invert | scripts/extract_stellar_from_celebamaskhq.py:153-155 | The `defaultdict` loop builds exactly the inverted dict `Grouped`. |
| Extract.TagAll | scripts/extract_stellar_from_celebamaskhq.py:157-163 | Tagging never raises. Each identity keeps its images and gets the split of its first image. |
| Extract.KeyOrderTotal | scripts/extract_stellar_from_celebamaskhq.py:164-166 | The sort key `(split, identity)` is a total order. |
| Extract.SortGroupsOrdered | scripts/extract_stellar_from_celebamaskhq.py:164-166 | The sorted groups are a permutation of the tagged groups, ordered by split and then identity. |
| Extract.ZipMeaning | scripts/extract_stellar_from_celebamaskhq.py:189-202 | `zip` stops at the shorter list. The record is built exactly when every paired value is an integer, and then pairs each label with its value. |
| Extract.ZipKeys | scripts/extract_stellar_from_celebamaskhq.py:189-202 | The keys of the comprehension over `zip` are the labels paired with a value. |
| Extract.ZipDict | scripts/extract_stellar_from_celebamaskhq.py:189-202 | The comprehension over `zip` succeeds exactly when every paired value converts. Its keys are the paired labels, and each maps to the converted value of the last position that carries it. |
| Extract.AnnotateMeaning | scripts/extract_stellar_from_celebamaskhq.py:188-206 | An image's record is built exactly when both tables have a row for it and every value `zip` pairs with a label, in either table, is an integer. Both dicts then map each paired label to the integer at its last position. The identity is the group's, and `original_filename` is `<n>.jpg`. |
| Extract.PlaceMeaning | scripts/extract_stellar_from_celebamaskhq.py:179-206 | Image `i` of a group is moved from `images/<n>.jpg` and `masks/<n>.png` to `{i}.jpg` and `{i}_bg.png`. Its record is `{i}_attributes.json`, with the group's identity and an original filename that reads back to `n`. |
| Extract.FolderOfMeaning | scripts/extract_stellar_from_celebamaskhq.py:169-206 | Group `n` becomes folder `%03d` of `n`, with one placement per image, in order. |
| Extract.FillFolder | scripts/extract_stellar_from_celebamaskhq.py:178-206 | The inner loop builds exactly the folder `FolderOf`, or stops at the first missing or malformed annotation. |
| Extract.Renumber | scripts/extract_stellar_from_celebamaskhq.py:169-209 | The outer loop builds exactly the plan `Plan` for the sorted groups. |
| Extract.PlanMeaning | scripts/extract_stellar_from_celebamaskhq.py:169-209 | A plan has one folder per group, and folder `n` is that of group `n`. |
| Extract.PlanFails | scripts/extract_stellar_from_celebamaskhq.py:169-209 | A plan fails with the failure of the first folder that cannot be built; every folder before it is built. |
| Extract.FolderNames | scripts/extract_stellar_from_celebamaskhq.py:172 | Folder names parse back to their number, are distinct, and have three characters below 1000. |
| Extract.FileNamesDistinct | scripts/extract_stellar_from_celebamaskhq.py:180-208 | Within a folder, no two written files share a name. |
| Extract.ParseDataset | scripts/extract_stellar_from_celebamaskhq.py:90-209 | The script's steps compute exactly `Extraction`: read the tables, invert, tag, sort, renumber. |
| Extract.ExtractionSteps | scripts/extract_stellar_from_celebamaskhq.py:152-209 | Once the tables are read, tagging cannot fail, and the result is the plan of the sorted groups. |
| Agreement.WrittenNamesRecognised | src/stellar_dataset/dataset.py:35-53 | The loader takes each written `{i}.jpg` for an image and each `{i}_attributes.json` for a record, never the one for the other, and each `{i}_bg.png` for neither. |
| Agreement.WrittenMaskIsCached | src/stellar_dataset/dataset.py:117-118 | The mask the loader looks for beside a written image is the mask the script wrote, so the remover does not run on extracted data. |
| Agreement.FolderVisitOrder | src/stellar_dataset/dataset.py:24 | Written folder names below 1000 are their own stems, and they sort in numeric order. The loader therefore visits identities in the script's order, by split and then identity. |
| Agreement.PairingBelowTen | src/stellar_dataset/dataset.py:35-53 | In a folder of at most ten images (numbers 0 to 9), the image names and the record names both sort by their number. |
| Agreement.PairingCrossesAtTen | src/stellar_dataset/dataset.py:35-53 | `1.jpg` sorts before `10.jpg`, but `10_attributes.json` sorts before `1_attributes.json`. |
| Agreement.CrossedPairing | src/stellar_dataset/dataset.py:35-65 | If images `a < b` sit beside records `v < u`, the loader gives `a` the record of `v` and `b` the record of `u`. |
| Agreement.PairingInFolder | src/stellar_dataset/dataset.py:35-65 | In a folder holding only `1.jpg`, `10.jpg`, `1_attributes.json` and `10_attributes.json`, the loader describes image 1 by record 10 and image 10 by record 1. |

## Left out

- File system effects are values. A folder listing is a sequence of `Entry` values, and attribute files come already parsed, or marked unreadable. File bytes are a map held by `Disk`. `mkdir`, `os.renames`, the JSON dumps and the removal of temporary folders are not performed; the extraction yields the plan of moves and records instead.
- The extraction's partial output is not modelled. When an annotation is missing for an image of a later group, the script has already moved the files of earlier groups; the model reports only the error.
- The script's early `exit()` when the annotations folder is missing, the downloads, `argparse` and `__main__` are not part of this model.
- `scripts/place_prompts_with_dataset.py` is not part of this model.
- `Dataset.Stellar.GetItem`: images and masks are bytes. Decoding (`Image.open(...).convert("RGB")`), `sample_transform`, `orig_size` and the numpy binarisation are left out; the binarisation is the parameter `binarise`.
- `rembg.remove` is the function `cutOut` of a `BackgroundRemover`, which counts its calls. `Item` folds the write of the raw cut-out and the write of its binarised form into one write of the mask; `CacheMask` models both writes, in order.
- `Dataset.MetadataFields`: `generation_datetime` (the clock) is left out of the metadata record. The first dictionary built by `get_metadata`, holding `subject_name`, is discarded when `metadata` is rebound (`dataset.py:87-90`), so it is not modelled.
- JSON parsing and the `torch` base class are not modelled. `prompt.json` is given as its `prompts` and `detectables` lists.
- `Sorting.SortBy`: it is stable like Python's `sorted`, because an element is inserted before the equal-keyed elements that follow it in the input. Stability is not stated as a lemma; `SortBy` is proved to return a sorted permutation of its input.
- `Text.ParseInt` accepts an optional sign, ASCII digits and surrounding whitespace. Python's `int()` also accepts underscores between digits and non-ASCII digits; both are left out.
- `dict(sorted(...))` at `extract_stellar_from_celebamaskhq.py:164-166` is modelled as the sorted list of groups. The identities are distinct keys, so the dict holds the same items in the same order.
- The richer dataset layout with several prompt files per identity is not part of this model.
