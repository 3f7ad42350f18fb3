# Android device explorer core, in Dafny

This project models the core of `adb/prmp_adb.py`. That is the part of a desktop
file explorer for Android devices that:

- reads what the Android Debug Bridge (`adb`) prints about the connected devices;
- reads each device's properties (`getprop`) and mount table (`df`);
- builds the device's storage tree from the recursive listing `ls <path> -pRhs`;
- searches that tree by name.

The model's data and modules:

- **Texts.** Whatever a device command prints is a parameter: a `Bridge` maps a
  device serial number to the text of `getprop`, `df` and `ls`. The source runs
  these commands through `adb shell` without `-s <serial>` (adb/prmp_adb.py:308,
  396, 403), so every device queries adb's default device. A `Bridge` that gives
  the same text for every serial number models exactly that; the per-serial
  `Bridge` is the more general case.
- **Sizes** (`Sizes`): `float_size` and `format_size` on exact reals, and the
  two-decimal rendering as a sign, a whole number of hundredths and a unit.
- **Text and paths** (`Text`, `Paths`): the string and path helpers the source
  relies on (`split`, `splitlines`, `strip`, `lower`, `os.path.dirname` and
  `basename`, `Base.slash`).
- **Dictionaries** (`Dicts`): an insertion-ordered dictionary that stands for
  Python's `dict`.
- **The folder tree** (`Folders`, `Aggregates`):
  - `File`, `Folder` and `Root_Directory` as a table of folder records with
    the root at index 0;
  - the recursive counts and sizes;
  - `__len__`, `__getitem__`, `get_folder` and `__eq__`.
- **Loading a listing** (`Listing`, `RootDirectories`):
  - the line-by-line load of an `ls` listing;
  - a `RootDirectory` class whose methods update the tree in place, each
    proved equal to the function that computes its new state.
- **Mount tables** (`FileSystems`): `df` parsing and the choice of the mount
  points to load.
- **Devices** (`Devices`):
  - the `Device` class (`__init__`, `load`, `getprop`, `df`);
  - the `Registry` of loaded devices (`Devices.devices`, `list`,
    `add_device`, `create_devices`).
- **Search** (`Searches`): `search_path`, the search over a device's
  whole-tree indexes.

Where the code and the documented behaviour differ, the model follows the code:

- A type-2 `df` table (header `Filesystem Size Used Free Blksize`) has five
  columns, but `FileSystem.__init__` unpacks four, so every such row fails
  (`FileSystems.Type2RowWithBlockSize`).
- `Base.__eq__` compares `name`, and `name` includes the size rendered to two
  decimals. So folders of 1024 and 1025 bytes with the same base name and
  parent compare equal: both render as `1.00 K` (`Sizes.ShownCollides`). Only
  sizes more than a hundredth of the unit apart are sure to make two entries
  differ (`Aggregates.FolderEqSizesClose`, `Aggregates.FileEqClose`).
- When `create_devices` fails on a line, the devices registered before that line
  stay registered.

## Model

| member | source | states |
|---|---|---|
| Sizes.FormatSize | adb/prmp_adb.py:160-170 | the display is the size in the largest unit (B, K, M, G) that keeps the number at least 1, and the number times the unit's scale is the size |
| Sizes.RoundHalfEven | adb/prmp_adb.py:165-168 | `:.02f` rounds to the nearest whole number of hundredths, a tie to the even one |
| Sizes.RoundUnique | adb/prmp_adb.py:165-168 | that rounding is the only whole number within half a unit that breaks ties to even |
| Sizes.FormatShown | adb/prmp_adb.py:160-170 | the rendered size has `format_size`'s unit, the size's sign, and the number of hundredths nearest the shown value |
| Sizes.ShownClose | adb/prmp_adb.py:160-170 | two sizes that render alike have the same unit and sign and differ by at most a hundredth of that unit |
| Sizes.ShownCollides | adb/prmp_adb.py:160-170 | 1024 and 1025 bytes both render as `1.00 K` |
| Sizes.FormatUnique | adb/prmp_adb.py:160-170 | the unit choice of `format_size` is unique: any display meeting its three conditions is the one it returns |
| Sizes.FloatSizeSuffixed | adb/prmp_adb.py:144-158 | `nK`, `nM`, `nG` read as n times 1024, 1024², 1024³ bytes |
| Sizes.FloatSizeSuffixedDecimal | adb/prmp_adb.py:144-158 | a decimal with a K, M or G suffix reads as that fraction of the unit |
| Sizes.FloatSizeBlocks | adb/prmp_adb.py:144-158 | an unsuffixed number is a count of 512-byte blocks, and the empty size reads as 0 |
| Sizes.FloatSizeRejects | adb/prmp_adb.py:144-158 | a token with a character other than digits, dots and signs before its last character is refused |
| Sizes.ParseNat | adb/prmp_adb.py:155-156 | `float(str(n))` is n |
| Sizes.ParseDecimal | adb/prmp_adb.py:155-156 | `float("w.f")` is w plus f over a power of ten |
| Sizes.ParsedAlphabet | adb/prmp_adb.py:155-156 | `float` refuses any text with a character other than digits, dots and signs |
| Sizes.FormatOfParsed | adb/prmp_adb.py:144-170 | formatting the bytes read from `nK`, `nM` or `nG` (n in range) shows n in the same unit |
| Text.SplitWs | adb/prmp_adb.py:379 | `split()` yields non-empty tokens without whitespace |
| Text.SplitWsSkipsSpace | adb/prmp_adb.py:379 | `split()` ignores whitespace before the text |
| Text.SplitWsToken | adb/prmp_adb.py:379 | a token followed by any non-empty run of whitespace is one field, and splitting goes on after the run |
| Text.SplitWsColumns | adb/prmp_adb.py:350 | `split()` of a column-aligned row, with leading whitespace and runs of whitespace between the fields, gives exactly the fields, in order |
| Text.SplitWsJoin | adb/prmp_adb.py:379 | `split()` gives back the tokens that `' '.join` put together |
| Text.SplitLines | adb/prmp_adb.py:314 | `splitlines()` yields lines without any of Python's line boundaries, and none only for empty text |
| Text.SplitLinesJoin | adb/prmp_adb.py:314 | `splitlines()` gives back the lines a command printed one per line |
| Text.LStripSpaces | adb/prmp_adb.py:324 | `lstrip(' ')` drops exactly the leading spaces |
| Text.Strip | adb/prmp_adb.py:437 | `strip()` leaves no whitespace at either end, and its result is the slice of the text between a whitespace-only prefix and a whitespace-only suffix |
| Text.Find | adb/prmp_adb.py:325 | the index found is the first occurrence from the start position, and none means no occurrence |
| Text.SecondFieldOfPair | adb/prmp_adb.py:368 | the second field of `a + sep + b` is b when the separator's first character occurs in neither part |
| Paths.Basename | adb/prmp_adb.py:138 | the base name is the slash-free tail of the path |
| Paths.DirnameOfJoin | adb/prmp_adb.py:206 | `dirname(d + "/" + name)` is d (or `/` for an empty d), and `basename` of it is name |
| Paths.DirnameFixpoint | adb/prmp_adb.py:206 | only an empty or all-slash path is its own directory name |
| Paths.SlashTrims | adb/prmp_adb.py:132-135 | `slash` removes one surrounding pair of slashes and leaves a bare name unchanged |
| Dicts.Dict.Put | adb/prmp_adb.py:215 | `d[k] = v`: k maps to v, every other key is unchanged, a new key is listed last and an existing key keeps its place |
| Dicts.PutValues | adb/prmp_adb.py:238 | `values()` after a store: appended for a new key, replaced in place for an existing one |
| Folders.EmptyTree | adb/prmp_adb.py:279-284 | a root directory alone is well-formed with consistent (empty) indexes |
| Folders.AddFolderAt | adb/prmp_adb.py:213-216 | `add_folder` appends a new empty folder with the given path under this folder, stores it in this folder's folders under the lower-cased path, and changes no other folder, this folder's files or the whole-tree indexes |
| Folders.AddFileAt | adb/prmp_adb.py:218-221 | `add_file` fails exactly when the size does not parse; otherwise the new file has the given path, parent and parsed size, is stored in this folder's files under the lower-cased path, and no other folder changes |
| Folders.ParentFolder | adb/prmp_adb.py:202-211 | `get_parent_folder` returns this folder or one created after it |
| Folders.CreateFolderFrom | adb/prmp_adb.py:230-235 | `create_folder` adds exactly one folder with the given path |
| Folders.CreateFileFrom | adb/prmp_adb.py:223-228 | `create_file` fails exactly when the size does not parse, and otherwise adds a file with the given path to an existing folder |
| Folders.RootCreateFolder | adb/prmp_adb.py:300-303 | the root's `create_folder` adds exactly one folder with the given path |
| Folders.RootCreateFile | adb/prmp_adb.py:295-298 | the root's `create_file` fails exactly when the size does not parse |
| Folders.PlainCreateIsAdd | adb/prmp_adb.py:223-235 | creating from a folder that is the new entry's directory adds it there |
| Folders.RootCreateResolves | adb/prmp_adb.py:202-235 | creating from the root adds the entry to the indexed folder of its directory, or to the root |
| Folders.RootCreateFolderPlaces | adb/prmp_adb.py:300-303 | the new folder hangs under the folder of its directory, is stored in that folder and in `all_folders` under its lower-cased path, and nothing else changes |
| Folders.RootCreateFilePlaces | adb/prmp_adb.py:295-298 | the new file hangs under the folder of its directory, is stored there and in `all_files` under its lower-cased path, and nothing else changes |
| Folders.ChildrenAfterAddFile | adb/prmp_adb.py:218-221 | `folder[:]` lists a new file after every other child, and a file under an existing key in that key's place |
| Folders.ChildrenAfterAddFolder | adb/prmp_adb.py:213-216 | `folder[:]` lists a new folder after the other folders and before the files, and one under an existing key in that key's place |
| Folders.Len | adb/prmp_adb.py:109-111 | `len(folder)` is the number of child folders and files |
| Folders.GetFolder | adb/prmp_adb.py:250-252 | `get_folder` returns only a child of this folder |
| Folders.GetFolderFindsAdded | adb/prmp_adb.py:250-252 | a folder added as `<path>/<name>` is found by `get_folder(name)`, with or without surrounding slashes |
| Aggregates.Kids | adb/prmp_adb.py:238 | `folder_s` lists distinct children of the folder |
| Aggregates.FilesOf | adb/prmp_adb.py:244 | `file_s` lists files held by the folder |
| Aggregates.FoldersCountIsDescendants | adb/prmp_adb.py:254-258 | `folders_count` is the number of folders in the subtree |
| Aggregates.FilesCountIsFilesUnder | adb/prmp_adb.py:260-264 | `files_count` is the number of files in the subtree |
| Aggregates.FullSizeIsFilesUnder | adb/prmp_adb.py:266-270 | `full_size` is the total size of the files in the subtree |
| Aggregates.DescendantsBelow | adb/prmp_adb.py:254-258 | every folder counted lies below the folder |
| Aggregates.DescendantsDistinct | adb/prmp_adb.py:254-258 | no folder is counted twice |
| Aggregates.SiblingsDisjoint | adb/prmp_adb.py:254-258 | the subtrees of two children of one folder are disjoint |
| Aggregates.FolderName | adb/prmp_adb.py:122 | a folder's name carries the formatted full size |
| Aggregates.FolderEqReflexive | adb/prmp_adb.py:113-116 | every folder equals itself |
| Aggregates.FolderEqSymmetric | adb/prmp_adb.py:113-116 | folder equality is symmetric |
| Aggregates.FolderEqTransitive | adb/prmp_adb.py:113-116 | folder equality is transitive |
| Aggregates.NameChain | adb/prmp_adb.py:113-122 | the names of a folder and its ancestors start with the folder's own name and stop at the root |
| Aggregates.FolderEqNameChain | adb/prmp_adb.py:113-122 | two folders are equal exactly when they and all their ancestors have equal names, position by position |
| Aggregates.FileEqClose | adb/prmp_adb.py:113-122 | files with equal base names, sizes and equal parents are equal; equal files have equal base names, equal parents and sizes within a hundredth of their unit |
| Aggregates.FolderEqSizesClose | adb/prmp_adb.py:113-122 | equal folders have full sizes in the same unit and within a hundredth of it |
| Listing.ListedPath | adb/prmp_adb.py:306 | `/storage/emulated` is listed as `/sdcard`, any other path as itself |
| Listing.SplitEntry | adb/prmp_adb.py:325-326 | `split(' ', 1)` reversed: size and name around the first space, or all name with size "0" |
| Listing.LoadLine | adb/prmp_adb.py:318-334 | one listing line fails only when it is a file line whose size does not parse |
| Listing.LoadListing | adb/prmp_adb.py:309-314 | an empty listing is an error |
| Listing.HeaderLine | adb/prmp_adb.py:319-320 | a line `<dir>:` creates folder `<dir>` from the root and makes it current |
| Listing.IgnoredLine | adb/prmp_adb.py:318-322 | empty lines, `total ` lines and folder entries change nothing |
| Listing.FileLine | adb/prmp_adb.py:324-334 | a line `<size> <name>` creates the file `<current>/<name>` with that size from the root |
| Listing.LoadLineIndexed | adb/prmp_adb.py:317-334 | each line keeps the whole-tree indexes consistent |
| Listing.ReplayIndexed | adb/prmp_adb.py:317-334 | a whole listing keeps the whole-tree indexes consistent |
| Listing.ReplayStops | adb/prmp_adb.py:317-334 | once a line failed, no further line changes anything |
| FileSystems.ParseFileSystem | adb/prmp_adb.py:346-355 | a row fails exactly on a wrong field count or an unreadable used, available or total size; a row read has its fields in order, the sizes parsed, and a use% and mount point exactly in the six-column layout |
| FileSystems.DetectLayout | adb/prmp_adb.py:405-409 | the layout is 1 or 2 exactly when the header's words are those of that layout |
| FileSystems.DataRows | adb/prmp_adb.py:411-412 | the rows read are non-empty and not `Permission denied` |
| FileSystems.DfOutput | adb/prmp_adb.py:403-405 | empty `df` output is an error |
| FileSystems.DfScanParsesDataRows | adb/prmp_adb.py:411-414 | without error, the file systems are the parsed data rows, in order |
| FileSystems.DfScanFirstError | adb/prmp_adb.py:411-414 | an error is that of the first data row that fails, after the rows before it were kept |
| FileSystems.DfScanUnknownLayout | adb/prmp_adb.py:408-413 | with an unrecognised header, `df` fails exactly when there is a data row |
| FileSystems.ParseAlignedRow | adb/prmp_adb.py:346-355 | a `df` row padded with whitespace parses as its fields joined by single spaces |
| FileSystems.ParseType1Row | adb/prmp_adb.py:346-355 | a six-column row reads back as its fields and sizes |
| FileSystems.ParseType2Row | adb/prmp_adb.py:346-355 | a four-field type-2 row reads back as its path and parsed sizes, without use% or mount point |
| FileSystems.Type2RowWithBlockSize | adb/prmp_adb.py:353 | a row of the five-column type-2 table is refused by the four-field unpacking |
| FileSystems.MountsListed | adb/prmp_adb.py:286-290 | a missing mount point among the last two file systems fails; otherwise, when the first of them is not mounted on the default path only `/sdcard` is loaded, and when it is, the default path and then the last file system's mount point (or the default path alone for a single file system) |
| RootDirectories.LoadRoot | adb/prmp_adb.py:279-290 | a device without file systems gets an empty root directory |
| RootDirectories.LoadRootIndexed | adb/prmp_adb.py:279-290 | a loaded root directory has consistent whole-tree indexes |
| RootDirectories.LoadAllStops | adb/prmp_adb.py:290 | a failing mount point stops the loading of the rest |
| RootDirectories.RootDirectory.constructor | adb/prmp_adb.py:279-284 | a new root directory is the root folder with empty indexes |
| RootDirectories.RootDirectory.AddFolder | adb/prmp_adb.py:213-216 | the in-place `add_folder` produces the state `AddFolderAt` computes |
| RootDirectories.RootDirectory.AddFile | adb/prmp_adb.py:218-221 | the in-place `add_file` produces the state `AddFileAt` computes, and changes nothing on a bad size |
| RootDirectories.RootDirectory.CreateFolderFrom | adb/prmp_adb.py:230-235 | the in-place `Folder.create_folder` produces the state its function computes |
| RootDirectories.RootDirectory.CreateFileFrom | adb/prmp_adb.py:223-228 | the in-place `Folder.create_file` produces the state its function computes |
| RootDirectories.RootDirectory.CreateFolder | adb/prmp_adb.py:300-303 | the root's `create_folder` records the folder in `all_folders` and keeps the indexes consistent |
| RootDirectories.RootDirectory.CreateFile | adb/prmp_adb.py:295-298 | the root's `create_file` records the file in `all_files` and keeps the indexes consistent |
| RootDirectories.RootDirectory.Load | adb/prmp_adb.py:305-334 | `load` leaves the tree and error of the listing's line-by-line replay |
| RootDirectories.RootDirectory.LoadListingLine | adb/prmp_adb.py:317-334 | one listing line changes the tree, the current folder and the error as one step of the replay does |
| RootDirectories.RootDirectory.LoadMounts | adb/prmp_adb.py:286-290 | the mount points chosen are loaded in turn, and a missing mount point changes nothing |
| RootDirectories.RootDirectory.LoadEach | adb/prmp_adb.py:290 | loading stops at the first mount point that fails |
| RootDirectories.NewRootDirectory | adb/prmp_adb.py:279-290 | `Root_Directory(device)` is the loaded tree of the device's file systems, with consistent indexes |
| Devices.AfterColon | adb/prmp_adb.py:368 | `_split` fails only on a field without `:` |
| Devices.ParseDeviceLine | adb/prmp_adb.py:379-381 | a device line needs six fields; the serial is the first, and the others are the values after `:` |
| Devices.ParseAlignedDeviceLine | adb/prmp_adb.py:379-381 | a `devices -l` line padded with whitespace reads as its fields joined by single spaces |
| Devices.DeviceLineRoundTrip | adb/prmp_adb.py:379-381 | a line written from a device's identity reads back as that identity |
| Devices.PropLine | adb/prmp_adb.py:371 | `_split2` of `[key]: [value]` is value |
| Devices.PropScanLastWins | adb/prmp_adb.py:398-400 | brand and manufacturer are the values of the last lines that set them, or their earlier values |
| Devices.BrandLastWins | adb/prmp_adb.py:398-399 | when no line fails, the brand is the value of the last brand line, or the earlier brand when no line sets it |
| Devices.ManufacturerLastWins | adb/prmp_adb.py:398-400 | when no line fails, the manufacturer is the value of the last manufacturer line that is not also a brand line, or the earlier one |
| Devices.PropScanFails | adb/prmp_adb.py:398-400 | reading fails exactly on a brand or manufacturer line without `: [` |
| Devices.Device.constructor | adb/prmp_adb.py:375-384 | a device starts with its identity, no brand or manufacturer, no file systems and no root directory |
| Devices.Device.GetProp | adb/prmp_adb.py:395-400 | `getprop` sets brand and manufacturer as the line-by-line scan does |
| Devices.Device.Df | adb/prmp_adb.py:402-414 | `df` appends the parsed data rows up to the first failing one |
| Devices.Device.Load | adb/prmp_adb.py:388-393 | a placeholder is unchanged; otherwise brand and manufacturer are those of the `getprop` scan, the `df` rows are appended unless `getprop` failed, and without error a fresh root directory holds the tree loaded from those file systems |
| Devices.NewDevice | adb/prmp_adb.py:375-386 | `Device(data, dummy)` fails exactly when the line or, for a real device, the load fails; a real device is loaded from an empty start, a placeholder has no properties, file systems or root directory |
| Devices.Refusal | adb/prmp_adb.py:444-448 | an unauthorized line is refused first, then an offline one |
| Devices.CreateOutcome | adb/prmp_adb.py:437-441 | no output, or a title line alone, is an error |
| Devices.CreateScanPrefix | adb/prmp_adb.py:443-453 | the devices made are those of the leading lines, in order, and the error is that of the next line |
| Devices.CreateScanRefused | adb/prmp_adb.py:444-448 | one unauthorized or offline line makes the call fail |
| Devices.Registry.constructor | adb/prmp_adb.py:421 | the registry starts empty |
| Devices.Registry.List | adb/prmp_adb.py:424 | `list` gives the stored device objects, one per serial, in registration order, and every stored device is listed |
| Devices.Registry.AddDevice | adb/prmp_adb.py:427-431 | a placeholder is loaded from its current state and stops being one, any other device is unchanged; a device that loaded is registered under its serial |
| Devices.Registry.CreateDevices | adb/prmp_adb.py:434-455 | the devices of the lines before the first error are registered, or returned when they are placeholders; each serial holds the loaded device of its last line, and new serials are listed after the old ones in first-seen order |
| Devices.Registry.CreateEach | adb/prmp_adb.py:443-455 | the loop registers or keeps aside each device made, in order; registered serials hold the loaded device of their last line, new ones listed in first-seen order |
| Devices.Registry.RegisterEach | adb/prmp_adb.py:443-452 | for a real device, each device made is registered under its serial, each fresh, up to the first failing line, whose error is returned; each serial holds the loaded device of its last line, and the keys are the old ones followed by the new serials in first-seen order |
| Devices.Registry.Store | adb/prmp_adb.py:452 | storing a loaded device puts it under its serial and keeps what the registry holds for the other serials |
| Devices.Registry.RegisterLine | adb/prmp_adb.py:451-452 | one line's device is made, loaded and stored under its serial, or its error is returned and nothing changes |
| Devices.PutKeysShape | adb/prmp_adb.py:452 | storing serials keeps the old keys first and in order, and adds exactly the serials stored |
| Devices.MakePlaceholders | adb/prmp_adb.py:443-453 | for placeholders, the devices made are collected in line order up to the first failing line, whose error is returned |
| Searches.Query | adb/prmp_adb.py:853 | the query is kept as given in a case-sensitive search; otherwise it has no upper-case letter, and either way it lower-cases to the lower-cased query |
| Searches.FirstShared | adb/prmp_adb.py:856 | merging the two indexes fails exactly when they share a key |
| Searches.Search | adb/prmp_adb.py:847-868 | an empty query gives nothing, and a key shared by both indexes is an error |
| Searches.SearchPath | adb/prmp_adb.py:841-868 | the search over a root directory is `Search` of its tree |
| Searches.MatchAll | adb/prmp_adb.py:859-868 | the loop collects the matching entries, in index order |
| Searches.ScanHitsFolder | adb/prmp_adb.py:859-868 | a folder is a hit exactly when a key stands for it and matches |
| Searches.ScanHitsFile | adb/prmp_adb.py:859-868 | a file is a hit exactly when a key stands for it and matches |
| Searches.SearchFindsFolder | adb/prmp_adb.py:853-868 | a folder is found exactly when it is indexed and its last path component matches the query |
| Searches.SearchFindsFile | adb/prmp_adb.py:853-868 | a file is found exactly when it is indexed and its last path component matches the query |
| Searches.ExactFoldersFoundBySubstring | adb/prmp_adb.py:863-864 | every folder an exact search finds, the substring search finds too |
| Searches.CaseInsensitiveQuery | adb/prmp_adb.py:853 | a case-insensitive search gives the same hits for the query in any case |

## Left out

- Floating point: sizes are exact reals, not binary doubles. The division by the unit's scale and the rounding are exact.
- Sizes.FormatShown: rounds the exact quotient to hundredths, half to even. Python rounds the nearest binary double, which can differ on a tie that the double does not represent exactly. The text of the rendering (`"1.00 K"`) is modelled as its sign, hundredths and unit.
- `float()` is modelled for decimal numerals with an optional sign and dot only. Exponents, `inf`, `nan`, underscores and surrounding whitespace are refused.
- `str.lower`, `str.split` and `str.isspace` are modelled for ASCII text. `str.splitlines` breaks where Python's does: at `\r\n`, `\n`, `\r`, `\v`, `\f`, `\x1c`, `\x1d`, `\x1e`, `\x85`, U+2028 and U+2029.
- Running `adb` (`ADB.exec`, `Shell.exec`, `Pull`, `ADB.exec('root')`) is not modelled. What each command prints is a parameter, and its error stream is not read.
- The GUI (windows, views, tables, `FolderViews_Window`) is not modelled. `search_path` returns its hits instead of opening a window.
- Downloads, `pull`, threads, and saving or restoring the explorer's state are not modelled.
- `__hash__`, `__repr__`, `__str__`, `File.ext`, `get`, and comparing an entry with a string are not modelled.
- Folders are records in a table and are identified by index. The model does not capture Python object aliasing beyond that table; a folder's parent is an index, not a reference.
- A device's parent link from its root directory, and devices shared between lists, are not modelled beyond the `Device` objects themselves.
- Exceptions are the `Error` values the operations return. `Device.__init__`'s unpacking error, `df`'s unbound `type`, the missing `mounted_on` of a type-2 file system and `dict(**a, **b)`'s duplicate-key error each become an error value.
- Searches.Search: returns an error for a key present in both indexes. The source raises a `TypeError` there instead.
