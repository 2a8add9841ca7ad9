# FileInfoTool in Dafny

FileInfoTool is a command-line tool that snapshots a directory into an *info file*. The snapshot is a JSON document holding a tree of directory and regular-file records with their timestamps and sizes. The tool can later list such a snapshot. This project models the metadata core of the tool and proves properties of that model. The core covers:

- the snapshot records and their `Codable` key mapping;
- the saver that builds a tree from a live directory;
- the List walk of the loader;
- the attribute configuration;
- the mode parser;
- the hash loop with its throttled progress reports;
- the byte-unit display;
- the one-line progress printer;
- the two URL path helpers.

The file system, the clock and SHA-512 are inputs of the model:

- A live directory is an `FsEntry` tree. Each entry's attribute read either succeeds or fails, and so does each directory listing.
- A clock reading arrives as its ISO 8601 text plus seconds since 1970.
- The hash loop takes the sequence of chunk lengths that the reads return, the monotonic clock readings, and the digest bytes.
- A JSON document is the keyed-container view that `Codable` works on: a map from `CodingKeys` to values. The JSON text itself is not modelled.

Each Swift file of the core maps to a Dafny module:

- `Info/InfoAttribute.swift` → `InfoAttributes` (attributes.dfy)
- `Info/ConsoleArgsParser.swift` → `ConsoleArgs` (args.dfy)
- `Info/Errors.swift` → `Errors` (errors.dfy)
- `Models/FileInfoRecord.swift` and the record fields → `Records` (records.dfy). Tree counts are in `RecordTrees` (trees.dfy).
- `Models/RegularFileInfoRecord.swift` → `RegularFileCodec` (regular_file_codec.dfy)
- `Models/DirectoryInfoRecord.swift` → `DirectoryCodec` (directory_codec.dfy)
- `Models/InfoRecord.swift` → `InfoRecords` (info_record.dfy)
- `Info/InfoSaver.swift` → `Saver` (saver.dfy)
- `Info/InfoLoader.swift` → `Loader` (loader.dfy)
- `Managers/HashComputer.swift` → `HashComputer` (hash.dfy)
- `Extensions/NumberExtension.swift` → `ByteUnits` (numbers.dfy)
- `Managers/ProgressPrinter.swift` → `Progress` (progress.dfy)
- `Extensions/URLExtension.swift` → `Urls` (urls.dfy)

Two modules support the others:

- `Json` (json.dfy) models the keyed container and the decoder's `decode`/`decodeIfPresent` calls.
- `Wrappers` (wrappers.dfy) provides `Option` and `Result`, which stand for Swift optionals and `throws`.

The model takes the form of the source:

- `InfoSaver`, `InfoLoader`, `InfoRecord` and `ProgressPrinter` are classes, because their methods update fields in place. Each method is proved against a specification function:
  - `SavedDirectory` for the saver;
  - `ListOrder` and `Linked` for the loader;
  - `Run` for the hash loop;
  - the `Line` semantics of a terminal trace for the printer.
- The loops of the source are loops here: the saver's loops over files and subdirectories, the loader's traversal loops, the parent-chain walk of `relativePath`, the mode search of `parseArgs`, the unit loop of `byteWithUnitString` and the read loop of `computeSHA512`.
- The records and their codecs are datatypes and functions.

## Model

| member | source | states |
|---|---|---|
| InfoAttributes.NameString | FileInfoTool/Info/InfoAttribute.swift:48-63 | Every attribute kind has a non-empty label. |
| InfoAttributes.NameStringInjective | FileInfoTool/Info/InfoAttribute.swift:48-63 | Distinct kinds have distinct labels, so `nameString` is injective over the five kinds. |
| InfoAttributes.ValidLists | FileInfoTool/Info/InfoAttribute.swift:11-46 | There are five kinds, and `validFileAttributes` holds all of them. `validRestoreFileAttributes` and `validDirProperties` hold exactly the three timestamp kinds, so neither holds Size or Hash. |
| InfoAttributes.AllKindsValid | FileInfoTool/Info/InfoAttribute.swift:28-34 | Every kind is a valid file attribute. |
| InfoAttributes.Filter | FileInfoTool/Info/InfoSaver.swift:46-48 | `filter { valid.contains($0) }` keeps exactly the requested kinds that are valid, each with its requested multiplicity. It never lengthens the list. |
| InfoAttributes.FilterAppend | FileInfoTool/Info/InfoSaver.swift:46-48 | Filtering distributes over concatenation, so the request order is kept. |
| InfoAttributes.FilterAllValid | FileInfoTool/Info/InfoSaver.swift:46-48 | Filtering by `validFileAttributes` leaves any request unchanged. |
| InfoAttributes.FilterKeepsValid | FileInfoTool/Info/InfoSaver.swift:58-60 | A request whose kinds are all valid passes the filter unchanged, in order and with its repetitions. |
| InfoAttributes.FilterDropsInvalid | FileInfoTool/Info/InfoSaver.swift:58-60 | A request with no valid kind filters to the empty list. |
| InfoAttributes.FilterKeepsOrder | FileInfoTool/Info/InfoSaver.swift:58-60 | Valid kinds in front of a request keep their places. Invalid kinds after them vanish. |
| InfoAttributes.SelectionOf | FileInfoTool/Info/InfoSaver.swift:69-77 | Each save/load flag is true exactly when its kind is in the attribute list (`contains`). |
| ConsoleArgs.EqualIgnoringCase | FileInfoTool/Info/ConsoleArgsParser.swift:97 | The case-insensitive comparison of a raw value with the argument: equal texts compare the same, and texts that compare the same have the same length (Latin letters only, see Left out). |
| ConsoleArgs.FirstMatch | FileInfoTool/Info/ConsoleArgsParser.swift:96-101 | A found mode's raw value equals the argument ignoring case. Nothing is found exactly when no mode's raw value matches. |
| ConsoleArgs.ParseArgs | FileInfoTool/Info/ConsoleArgsParser.swift:89-108 | An absent first argument, or one starting with `-`, throws `missingMode`. Otherwise the first matching mode in declaration order yields the initial option: empty `dirPath` and `baseFile`, other optionals nil, flags false. No match throws `unknownMode` carrying the argument. |
| ConsoleArgs.RawValuesDistinctIgnoringCase | FileInfoTool/Info/ConsoleArgsParser.swift:10-32 | Two raw values are equal ignoring case exactly when the modes are equal. |
| ConsoleArgs.ParseRawValue | FileInfoTool/Info/ConsoleArgsParser.swift:10-32 | A mode's raw value in any letter case parses to that mode. |
| Json.Container | FileInfoTool/Models/RegularFileInfoRecord.swift:51-64 | The `encode`/`encodeIfPresent` sequence writes a key exactly when its field is present, holding that field's value. |
| Json.DecodeString | FileInfoTool/Models/RegularFileInfoRecord.swift:69 | `decode(String.self, forKey:)` succeeds exactly when the key holds a string, and yields it. An absent key throws keyNotFound. |
| Json.DecodeNumber | FileInfoTool/Models/InfoRecord.swift:16 | `decode(Double.self, forKey:)` succeeds exactly when the key holds a number, and yields it. An absent key throws keyNotFound. |
| Json.DecodeStringIfPresent | FileInfoTool/Models/RegularFileInfoRecord.swift:70 | An absent key gives nil and a string gives itself. It fails exactly when the key holds something that is neither null nor a string. |
| Json.DecodeNumberIfPresent | FileInfoTool/Models/RegularFileInfoRecord.swift:71 | An absent key gives nil and a number gives itself. It fails exactly when the key holds something that is neither null nor a number. |
| Json.DecodeIntIfPresent | FileInfoTool/Models/RegularFileInfoRecord.swift:77 | An absent key gives nil. A decoded `Int` is a whole number within the 64-bit range. Every whole number in range decodes to itself. |
| Wrappers.AllOk | FileInfoTool/Models/DirectoryInfoRecord.swift:82-83 | Decoding an array succeeds exactly when every element decodes, and then yields the elements' values in order. |
| Wrappers.AllOkFirstError | FileInfoTool/Models/DirectoryInfoRecord.swift:82-83 | The error reported is that of the first failing element. |
| Wrappers.AllOkValues | FileInfoTool/Models/DirectoryInfoRecord.swift:82-83 | When every element decodes, the array decodes to exactly their values. |
| Wrappers.AllOkPrefixError | FileInfoTool/Info/InfoSaver.swift:136-139 | A `try` that fails right after a run of successes aborts the loop with its own error. |
| Wrappers.AllOkPrefixSnoc | FileInfoTool/Info/InfoSaver.swift:136-139 | A success after a run of successes appends its value to the collected list. |
| Wrappers.AllOkIff | FileInfoTool/Info/InfoSaver.swift:146-149 | The loop succeeds exactly when every input satisfies the success condition of its own step. |
| Records.StringLess | FileInfoTool/Models/FileInfoRecord.swift:56 | The `<` on names: a name is never less than itself, and a proper prefix is less than the longer name; its order laws are the three lemmas below (character by character, see Left out). |
| Records.StringLessIrreflexive | FileInfoTool/Models/FileInfoRecord.swift:55-57 | No name is less than itself. |
| Records.StringLessTransitive | FileInfoTool/Models/FileInfoRecord.swift:55-57 | Name order is transitive. |
| Records.StringLessConnected | FileInfoTool/Models/FileInfoRecord.swift:55-57 | Of two distinct names, one is less than the other. |
| Records.CompareByName | FileInfoTool/Models/FileInfoRecord.swift:55-57 | `compareByName` never orders two records of the same name. `CompareByNameIsStrictOrder` shows it is a strict total order on distinct names. |
| Records.CompareByNameIsStrictOrder | FileInfoTool/Models/FileInfoRecord.swift:55-57 | `compareByName` is irreflexive, transitive, asymmetric and total on distinct names, so it is a valid `sort(by:)` predicate. |
| Records.InsertByName | FileInfoTool/Info/InfoSaver.swift:140 | Inserting into a name-sorted list keeps it sorted and adds exactly that element. |
| Records.SortByName | FileInfoTool/Info/InfoSaver.swift:140 | `sort(by: compareByName)` yields a list ordered by name that is a permutation of its input. |
| Records.Reverse | FileInfoTool/Models/FileInfoRecord.swift:46 | `reverse()` puts element i at position n-1-i. |
| Records.AppendComponentShape | FileInfoTool/Models/FileInfoRecord.swift:49-51 | `FilePath.append` of a component to the empty path gives the component alone. Appending to a non-empty path gives the path, one `/`, then the component. |
| Records.AppendComponent | FileInfoTool/Models/FileInfoRecord.swift:49-51 | `FilePath.append` of one component; its shape is `AppendComponentShape`. |
| Records.JoinComponents | FileInfoTool/Models/FileInfoRecord.swift:48-52 | The components appended one by one to an empty `FilePath`. `RelativePath` is proved to compute exactly this join. |
| Records.PathComponents | FileInfoTool/Models/FileInfoRecord.swift:33-46 | There is one component per ancestor, and below the root the last one is the record's own name. `PathComponentsShape` gives the whole list. |
| Records.RelativePath | FileInfoTool/Models/FileInfoRecord.swift:32-53 | The parent-chain loop, `removeLast`, `reverse` and the component appends produce the join of the record's name and its ancestors' names, reversed, with the topmost name dropped. |
| Records.RelativePathOfRoot | FileInfoTool/Models/FileInfoRecord.swift:35-52 | A record without a parent link has an empty relative path. |
| Records.RelativePathOfRootChild | FileInfoTool/Models/FileInfoRecord.swift:37-46 | A direct child of the root has its own name as relative path. |
| Records.PathComponentsShape | FileInfoTool/Models/FileInfoRecord.swift:33-52 | The components are the ancestors below the topmost one, top-down, then the record's own name. |
| RecordTrees.CountsOfSubtrees | FileInfoTool/Info/InfoSaver.swift:150 | The file and directory counts of a tree do not depend on the order of its subtrees, so sorting keeps them. |
| RecordTrees.SumPermutation | FileInfoTool/Info/InfoSaver.swift:150 | A sum does not depend on the order of its terms. |
| RecordTrees.MapPermutation | FileInfoTool/Info/InfoSaver.swift:140 | Mapping a permutation gives a permutation, as when taking names before and after a sort. |
| RecordTrees.ForestCountsAreSums | FileInfoTool/Info/InfoSaver.swift:143-152 | The counts of a list of trees are the sums of the trees' counts. |
| RegularFileCodec.EncodeRegularFile | FileInfoTool/Models/RegularFileInfoRecord.swift:51-64 | Only `CodingKeys` are written, and `name` always is. Every other key is present exactly when its field is present. The parent link and `computeHashFailed` are never written. |
| RegularFileCodec.DecodeRegularFile | FileInfoTool/Models/RegularFileInfoRecord.swift:66-79 | A decoded record has its name from the `name` key, no parent link, and `computeHashFailed` false. A container without `name` throws keyNotFound(name). |
| RegularFileCodec.RegularFileOf | FileInfoTool/Models/RegularFileInfoRecord.swift:69-78 | The keys are decoded in `init(from:)` order. A failing `name` is the error thrown, and success carries the decoded name. |
| RegularFileCodec.RegularFileRoundTrip | FileInfoTool/Models/RegularFileInfoRecord.swift:51-79 | Decoding an encoded record gives back the name, all six timestamp fields, the size and the hash. Only the parent link and the failure flag are reset. |
| RegularFileCodec.DecodeOnlyName | FileInfoTool/Models/RegularFileInfoRecord.swift:69-78 | Only `name` is required: a container holding just a name decodes to a record whose other fields are all absent. |
| RegularFileCodec.DecodeIgnoresUnknownKeys | FileInfoTool/Models/RegularFileInfoRecord.swift:81-91 | Keys outside `CodingKeys` do not affect decoding. |
| DirectoryCodec.EncodeDirectory | FileInfoTool/Models/DirectoryInfoRecord.swift:56-69 | Only the nine `CodingKeys` are written, and `name` always is. Timestamps, `files` and `directories` are present exactly when set. The parent link and `getFilesFailed` are never written. |
| DirectoryCodec.DecodeFilesIfPresent | FileInfoTool/Models/DirectoryInfoRecord.swift:82 | An absent `files` key decodes to nil. |
| DirectoryCodec.DecodeDirectoriesIfPresent | FileInfoTool/Models/DirectoryInfoRecord.swift:83 | Every decoded subdirectory tree is free of parent links and failure flags. |
| DirectoryCodec.DecodeDirectory | FileInfoTool/Models/DirectoryInfoRecord.swift:71-84 | A decoded tree takes its name from `name`. It has no parent link or failure flag anywhere. A container without `name` throws keyNotFound(name). |
| DirectoryCodec.DirectoryOf | FileInfoTool/Models/DirectoryInfoRecord.swift:74-83 | The keys are decoded in order. A failing `name` is the error thrown. Success carries the decoded name, files and directories, no parent link and `getFilesFailed` false. |
| DirectoryCodec.DirectoryRoundTrip | FileInfoTool/Models/DirectoryInfoRecord.swift:56-84 | Decoding an encoded tree reproduces the name, the six timestamp fields and, recursively, the file and directory lists. Only links and flags are reset. |
| DirectoryCodec.FilesRoundTrip | FileInfoTool/Models/DirectoryInfoRecord.swift:67-82 | The `files` array reads back as the persisted file list. |
| DirectoryCodec.DirectoriesRoundTrip | FileInfoTool/Models/DirectoryInfoRecord.swift:68-83 | The `directories` array reads back as the persisted subtrees. |
| DirectoryCodec.DecodeOnlyName | FileInfoTool/Models/DirectoryInfoRecord.swift:74-83 | Only `name` is required: a container holding just a name decodes to a directory with nothing else set. |
| InfoRecords.InfoRecord.constructor | FileInfoTool/Models/InfoRecord.swift:20-24 | The memberwise initialiser stores the three values. |
| InfoRecords.InfoRecord.Create | FileInfoTool/Models/InfoRecord.swift:30-35 | The new record holds exactly the given tree. Both time fields come from the single clock reading. |
| InfoRecords.InfoRecord.Update | FileInfoTool/Models/InfoRecord.swift:37-41 | Only the two time fields change, both from one reading. The tree is untouched. |
| InfoRecords.EncodeInfoRecord | FileInfoTool/Models/InfoRecord.swift:10-18 | The synthesised encoding writes exactly the three stored properties, with the tree encoded as a directory. |
| InfoRecords.DecodeInfoRecord | FileInfoTool/Models/InfoRecord.swift:10-18 | All three keys are required, and a missing `recordTimeUtc` throws keyNotFound. The decoded tree is free of parent links. |
| InfoRecords.InfoRecordRoundTrip | FileInfoTool/Models/InfoRecord.swift:10-18 | Reading back a written info file gives the same time stamp and the persisted tree. |
| Saver.SaveFileAttributes | FileInfoTool/Info/InfoSaver.swift:46-56 | With no request, files default to creation, modification, access and size. A requested list is kept as it is, since every kind is valid for a file. |
| Saver.SaveDirAttributes | FileInfoTool/Info/InfoSaver.swift:58-67 | With no request, directories default to the three timestamps. A requested list is `Filter`ed by `validDirProperties`, so it keeps exactly its timestamp kinds, in the requested order and with their repetitions. |
| Saver.SaveDirAttributesKeepsOrder | FileInfoTool/Info/InfoSaver.swift:58-67 | Timestamp kinds at the front of a request stay at the front, unchanged. Size and hash kinds after them are dropped, and the rest is filtered the same way. |
| Saver.FileRecordOf | FileInfoTool/Info/InfoSaver.swift:181-216 | A file record has the entry's name. A timestamp or the size is set exactly from the read values when selected, and absent otherwise. `sha512`, the intervals and the parent link are never set. |
| Saver.DirectoryRecordOf | FileInfoTool/Info/InfoSaver.swift:181-212 | A directory record has the entry's name and only its selected timestamps, taken from the read values. It has no lists yet and no flags. |
| Saver.InfoRecordOf | FileInfoTool/Info/InfoSaver.swift:157-220 | `saveInfoRecord` succeeds exactly when the attribute read does; otherwise it throws for that entry. The record is a directory exactly when the URL is one, and carries the entry's name. |
| Saver.RegularEntries | FileInfoTool/Info/InfoSaver.swift:134 | Exactly the entries without a directory path. |
| Saver.DirectoryEntries | FileInfoTool/Info/InfoSaver.swift:144 | Exactly the entries with a directory path. |
| Saver.EntriesPartition | FileInfoTool/Info/InfoSaver.swift:134-144 | The two filters split a listing: every entry lands in exactly one part. |
| Saver.FileResult | FileInfoTool/Info/InfoSaver.swift:137 | A file's record is built exactly when its attribute read succeeds. |
| Saver.SavedFiles | FileInfoTool/Info/InfoSaver.swift:134-139 | The file loop succeeds exactly when every regular entry's read succeeds, and then yields one record per entry. |
| Saver.SubdirectoryResults | FileInfoTool/Info/InfoSaver.swift:144-149 | There is one recursive save per subdirectory entry. |
| Saver.SavedDirectory | FileInfoTool/Info/InfoSaver.swift:121-155 | The tree of a directory carries the directory's name. |
| Saver.SavedDirectoryParts | FileInfoTool/Info/InfoSaver.swift:121-155 | A saved tree is the directory's own record with `getFilesFailed` set exactly when the listing fails. Its files are the regular entries' records sorted by name. Subtrees are assigned and sorted only when recursive; otherwise they stay nil. |
| Saver.SavedDirectoryFiles | FileInfoTool/Info/InfoSaver.swift:134-141 | `files` is always assigned: the regular entries' records sorted by name. |
| Saver.SavedFileRecords | FileInfoTool/Info/InfoSaver.swift:134-141 | Every file record of a saved directory was built from one of its regular entries whose read succeeded. |
| Saver.SavedSubtrees | FileInfoTool/Info/InfoSaver.swift:143-152 | Every subtree of a recursive save is the saved tree of one of the directory's subdirectory entries. |
| Saver.SavedTreeShape | FileInfoTool/Info/InfoSaver.swift:134-152 | At every level of a saved tree: no parent links, only selected timestamps, files assigned and name-sorted, no `sha512`. `directories` is assigned (and sorted) exactly when the save is recursive. |
| Saver.SavedDirectoryOk | FileInfoTool/Info/InfoSaver.swift:121-152 | A save yields a tree exactly when the directory's read, every file's read and, when recursive, every subtree succeed. |
| Saver.SaveSucceedsIff | FileInfoTool/Info/InfoSaver.swift:202 | A save yields a tree exactly when no attribute read anywhere in the walk fails. One failure aborts the whole save. |
| Saver.SavedTreeMirrorsListing | FileInfoTool/Info/InfoSaver.swift:125-152 | A saved directory has the entry's name and flags an unreadable listing. Its file names are the regular entries' names, as a multiset; when recursive, its subtree names are the subdirectory entries' names. |
| Saver.SavedFileNames | FileInfoTool/Info/InfoSaver.swift:134-141 | The saved file names are the regular entries' names, as a multiset. |
| Saver.SavedSubtreeNames | FileInfoTool/Info/InfoSaver.swift:144-151 | The saved subtree names are the subdirectory entries' names, as a multiset. |
| Saver.UnreadableListing | FileInfoTool/Info/InfoSaver.swift:125-132 | An unreadable listing sets `getFilesFailed` and leaves an empty file list, plus an empty subtree list when recursive. The save still succeeds. |
| Saver.NonRecursiveCounts | FileInfoTool/Info/InfoSaver.swift:143-152 | A non-recursive save records one directory and its regular files. |
| Saver.InfoSaver.constructor | FileInfoTool/Info/InfoSaver.swift:40-81 | The attribute lists are the filtered requests or the defaults. The flags are their `contains`, no size or hash flag is set for directories, and both counters start at 0. |
| Saver.InfoSaver.Save | FileInfoTool/Info/InfoSaver.swift:83-119 | A missing target directory throws `targetDirNotExists` first. Then an existing info file without `overwrite` throws `infoFileExists`. Neither changes the state. Otherwise a failed walk propagates its error. A tree is written with the one clock reading, and the counters equal its file and directory record counts, root included. |
| Saver.InfoSaver.SaveDirectory | FileInfoTool/Info/InfoSaver.swift:121-155 | The method builds exactly `SavedDirectory` and adds the tree's record counts to the counters. |
| Saver.InfoSaver.SaveRegularFiles | FileInfoTool/Info/InfoSaver.swift:134-139 | The file loop builds exactly `SavedFiles` and counts every file on success. |
| Saver.InfoSaver.SaveSubdirectories | FileInfoTool/Info/InfoSaver.swift:144-149 | The subdirectory loop yields the first failure or all the trees, in listing order, and counts their records. |
| Saver.InfoSaver.SaveSubdirectory | FileInfoTool/Info/InfoSaver.swift:147 | One turn saves the i-th subdirectory and adds its counts. |
| Saver.InfoSaver.SaveInfoRecord | FileInfoTool/Info/InfoSaver.swift:157-220 | The entry is counted by kind before its attributes are read, and the record built is `InfoRecordOf`. |
| Loader.LoadFileAttributes | FileInfoTool/Info/InfoLoader.swift:69-90 | Restore mode `Filter`s a request by `validRestoreFileAttributes`, keeping its timestamp kinds in order and with their repetitions, and defaults to creation and modification. Other modes keep a request as it is and default to creation, modification and size. |
| Loader.LoadDirAttributes | FileInfoTool/Info/InfoLoader.swift:92-99 | Directories `Filter` a request by `validDirProperties`, keeping its timestamp kinds in order and with their repetitions, and default to creation and modification. |
| Loader.LoadAttributesKeepOrder | FileInfoTool/Info/InfoLoader.swift:69-99 | In restore mode, and for directories, timestamp kinds at the front of a request stay at the front, unchanged. Size and hash kinds after them are dropped. |
| Loader.LinkFiles | FileInfoTool/Info/InfoLoader.swift:204-207 | The file loop links one record per stored file. |
| Loader.LinkFilesAt | FileInfoTool/Info/InfoLoader.swift:204-210 | Linking sets each file's parent to its directory and changes nothing else. |
| Loader.LinkedSubtrees | FileInfoTool/Info/InfoLoader.swift:194-201 | The subdirectory loop yields one walked subtree per stored subdirectory. |
| Loader.LinkedSubtreeAt | FileInfoTool/Info/InfoLoader.swift:195-201 | The k-th linked subtree is the k-th subtree after its own recursive walk. |
| Loader.FileLines | FileInfoTool/Info/InfoLoader.swift:204-210 | The file loop reports one line per stored file. |
| Loader.Linked | FileInfoTool/Info/InfoLoader.swift:193-212 | The walked tree keeps its name and takes the link its caller stored. Files and subdirectories stay present or absent as they were. `WalkLinksParents` and `WalkKeepsPersistedTree` show that only parent links change. |
| Loader.ListOrder | FileInfoTool/Info/InfoLoader.swift:193-212 | The lines in the walk's post-order. `ListOrderEnd`, `RecursiveWalkFileCount` and `RecursiveWalkDirectoryCount` show that it ends with the directory's files and then the directory, and that it reports every record once. |
| Loader.LineOf | FileInfoTool/Info/InfoLoader.swift:215-262 | The line reports the record's kind, name and parent link. It shows the file selection for a file, and for a directory the directory selection without size or hash. |
| Loader.FileLineAt | FileInfoTool/Info/InfoLoader.swift:204-210 | The i-th file line reports the i-th stored file, under its directory. |
| Loader.FileLinesCounts | FileInfoTool/Info/InfoLoader.swift:204-210 | The file loop reports one file line per file and no directory line. |
| Loader.FileRecordCount | FileInfoTool/Info/InfoLoader.swift:279-292 | The number of file records in a list is at most its length. |
| Loader.InfoLoader.constructor | FileInfoTool/Info/InfoLoader.swift:62-123 | The attribute lists are the mode-dependent filtered requests or defaults. The flags are their `contains`. All twelve counters start at 0 and nothing has been reported. |
| Loader.InfoLoader.Load | FileInfoTool/Info/InfoLoader.swift:125-191 | A missing info file throws `infoFileNotExists` first, and a decoding error propagates; neither changes the state. List mode adds the walk's lines and sets the loaded counters to the records visited. The other modes throw `targetDirNotExists` without the directory, and otherwise zero every comparison counter except `checkedFileCount`. |
| Loader.InfoLoader.LoadTree | FileInfoTool/Info/InfoLoader.swift:146-190 | The same split by mode, once the info file has been read. The comparison walk has an empty body, so the counters stay at their reset values. |
| Loader.InfoLoader.LoadList | FileInfoTool/Info/InfoLoader.swift:193-213 | The walk returns the tree with every parent link set (`Linked`). It reports the lines in post-order (`ListOrder`) and adds the files and directories visited to the loaded counters. No comparison counter changes. |
| Loader.InfoLoader.LoadSubdirectories | FileInfoTool/Info/InfoLoader.swift:194-202 | Each subdirectory is linked and walked in stored order, adding its lines and counts. |
| Loader.InfoLoader.LoadSubdirectory | FileInfoTool/Info/InfoLoader.swift:196-201 | One turn links and walks the i-th subdirectory. |
| Loader.InfoLoader.LoadFiles | FileInfoTool/Info/InfoLoader.swift:204-210 | Each file is linked and reported in stored order. One file is counted per file; the directory count is unchanged. |
| Loader.InfoLoader.PrintLoadedInfoRecord | FileInfoTool/Info/InfoLoader.swift:215-262 | A file counts as a loaded file and shows the file selection. A directory counts as a loaded directory and shows only its timestamp selection. Exactly one counter changes, and the path shown is the record's relative path. |
| Loader.InfoLoader.PrintComparedInfoRecord | FileInfoTool/Info/InfoLoader.swift:321-335 | Exactly one counter is incremented: changed or same, for the record's kind. |
| Loader.InfoLoader.PrintUnknownInfo | FileInfoTool/Info/InfoLoader.swift:269-277 | Exactly one counter is incremented: unknown directory or unknown file, by the URL's directory flag. |
| Loader.InfoLoader.PrintMissingInfoRecords | FileInfoTool/Info/InfoLoader.swift:279-292 | Each record adds one to the missing counter of its kind, and no other counter changes. |
| Loader.WalkLinksParents | FileInfoTool/Info/InfoLoader.swift:193-212 | After the walk every file points at its directory and, when recursive, every subdirectory does too, all the way down. The root keeps its own link. |
| Loader.WalkKeepsPersistedTree | FileInfoTool/Info/InfoLoader.swift:193-212 | The walk changes only parent links, which the info file does not keep. |
| Loader.RecursiveWalkFileCount | FileInfoTool/Info/InfoLoader.swift:221-228 | A recursive walk reports each file record of the tree once. |
| Loader.SubtreeOrdersFileCount | FileInfoTool/Info/InfoLoader.swift:194-201 | The walks of the first n subtrees report their file records. |
| Loader.RecursiveWalkDirectoryCount | FileInfoTool/Info/InfoLoader.swift:229-235 | A recursive walk reports each directory record once, root included. |
| Loader.SubtreeOrdersDirectoryCount | FileInfoTool/Info/InfoLoader.swift:194-201 | The walks of the first n subtrees report their directory records. |
| Loader.NonRecursiveWalkCounts | FileInfoTool/Info/InfoLoader.swift:147-149 | A non-recursive List reports the root's files and exactly one directory. |
| Loader.WalkCountsSplit | FileInfoTool/Info/InfoLoader.swift:193-212 | A walk visits the subtrees' records when recursive, then the directory's own files, then the directory itself. |
| Loader.ListOrderEnd | FileInfoTool/Info/InfoLoader.swift:204-212 | Every walk ends with its directory's files in stored order, then the directory itself. |
| Loader.RootWalkEnd | FileInfoTool/Info/InfoLoader.swift:193-212 | Walking a root ends with its files, each printed under its own name, then the root, printed with an empty path. |
| Loader.RootLines | FileInfoTool/Models/FileInfoRecord.swift:32-53 | Under a root, a file line shows its own name and the root's line shows an empty path. |
| HashComputer.FirstEmpty | FileInfoTool/Managers/HashComputer.swift:36-40 | The loop consumes exactly the chunks before the first empty read. |
| HashComputer.Step | FileInfoTool/Managers/HashComputer.swift:44-61 | A report is made exactly when the loop count reaches 2000, the bytes since the last report exceed 16 MiB and more than a second has passed. A report carries the file size, the running total, the bytes and the time since the last report, then resets both counters and moves the baseline to now. Otherwise only the counters grow. |
| HashComputer.Run | FileInfoTool/Managers/HashComputer.swift:36-63 | The time baseline never passes the latest clock reading. |
| HashComputer.ComputeSha512 | FileInfoTool/Managers/HashComputer.swift:23-72 | The loop reports exactly the reports of `Run` over the chunks before the first empty read, and returns the digest in hex. |
| HashComputer.TotalIsSum | FileInfoTool/Managers/HashComputer.swift:44 | `totalReadLength` is the sum of the chunks read. |
| HashComputer.RunAccounts | FileInfoTool/Managers/HashComputer.swift:44-45 | The bytes reported plus the unreported bytes equal the total read. |
| HashComputer.RunReports | FileInfoTool/Managers/HashComputer.swift:50-61 | Every report exceeded all three thresholds. Reports' cumulative lengths strictly increase, and each report's total does not count later bytes. |
| HashComputer.NoReportUpTo16MiB | FileInfoTool/Managers/HashComputer.swift:45-50 | A file of at most 16 MiB gets no progress report. |
| HashComputer.ReportedBeyondThreshold | FileInfoTool/Managers/HashComputer.swift:50 | A report's bytes alone exceed 16 MiB. |
| HashComputer.ReportsWithinTotal | FileInfoTool/Managers/HashComputer.swift:44-58 | The reported byte counts add up to at most the bytes read, and no report's total exceeds them. |
| HashComputer.Percentage | FileInfoTool/Managers/HashComputer.swift:80-88 | The percentage is 1 for an empty file, otherwise the ratio of bytes read so far to file size. It is never negative. |
| HashComputer.ReportsAtMostWhole | FileInfoTool/Managers/HashComputer.swift:80-88 | While the file is no longer than its measured size, no report shows more than 100%. |
| HashComputer.LengthPerSecondAsWritten | FileInfoTool/Managers/HashComputer.swift:90-97 | With `UInt64` arithmetic, the speed traps exactly when the elapsed time is non-zero and 10^9 times the byte count exceeds 2^64-1. Otherwise it equals `LengthPerSecond`. |
| HashComputer.LengthPerSecond | FileInfoTool/Managers/HashComputer.swift:90-97 | The speed is the byte count when no time has elapsed. Otherwise it is the floor of bytes per second, and at most the byte count once a second has passed. |
| HashComputer.RateBounds | FileInfoTool/Managers/HashComputer.swift:95 | Integer division gives the floor of the rate. Over at least a second, the rate is at most the bytes. |
| HashComputer.LengthPerSecondTraps | FileInfoTool/Managers/HashComputer.swift:95 | 18_446_744_074 bytes over two seconds make the written product overflow. The intended speed is 9_223_372_037. |
| HashComputer.HexByte | FileInfoTool/Managers/HashComputer.swift:70 | `%02x` gives two lower-case hex digits. |
| HashComputer.Hex | FileInfoTool/Managers/HashComputer.swift:70 | The hash text has two lower-case hex digits per digest byte. |
| HashComputer.Unhex | FileInfoTool/Managers/HashComputer.swift:70 | Reading hex text back gives one byte per two digits. |
| HashComputer.UnhexFirstByte | FileInfoTool/Managers/HashComputer.swift:70 | The two `%02x` digits of a byte read back as that byte. |
| HashComputer.HexRoundTrip | FileInfoTool/Managers/HashComputer.swift:70 | The hex text loses nothing: reading it back gives the digest. |
| HashComputer.UnhexRoundTrip | FileInfoTool/Managers/HashComputer.swift:70 | Every even-length lower-case hex text is the hex form of the bytes it reads as. |
| HashComputer.HexInjective | FileInfoTool/Managers/HashComputer.swift:70 | Distinct digests have distinct hex texts. |
| ByteUnits.Scale | FileInfoTool/Extensions/NumberExtension.swift:12 | The divisor 1000^k is positive, and at least 1000 for every unit past B. |
| ByteUnits.UnitIndexFrom | FileInfoTool/Extensions/NumberExtension.swift:25-31 | The loop stops at a unit no earlier than where it is and no later than TB. |
| ByteUnits.UnitIndexIsLeast | FileInfoTool/Extensions/NumberExtension.swift:25-31 | The unit chosen is the least k ≤ 3 with n / 1000^k < 1000, or TB when there is none. |
| ByteUnits.UnitIndexFromIsLeast | FileInfoTool/Extensions/NumberExtension.swift:25-31 | From any unit on, the loop passes exactly the units whose next power of 1000 the amount reaches. |
| ByteUnits.ScaledBelowKilo | FileInfoTool/Extensions/NumberExtension.swift:26 | The scaled amount is below 1000 exactly when the amount is below the next power of 1000. |
| ByteUnits.BelowKiloUnscaled | FileInfoTool/Extensions/NumberExtension.swift:24-28 | An amount below 1000 is shown unscaled, in B. |
| ByteUnits.TeraForLargeAmounts | FileInfoTool/Extensions/NumberExtension.swift:21-32 | From 1000^4 bytes on, the amount is shown in TB, divided by 1000^4. |
| ByteUnits.ByteWithUnit | FileInfoTool/Extensions/NumberExtension.swift:23-33 | The loop divides by exactly 1000 per unit passed and stops at the chosen unit, with the amount scaled by 1000^k. |
| ByteUnits.ByteWithUnitString | FileInfoTool/Extensions/NumberExtension.swift:23-33 | Below 1000 the amount is shown unscaled in B. From 1000^4 on it is shown divided by 1000^4, in TB. `ByteWithUnit` proves the loop computes this amount and unit. |
| ByteUnits.DivideOnceMore | FileInfoTool/Extensions/NumberExtension.swift:29 | One more division by 1000 scales by the next power of 1000. |
| ByteUnits.IntByteWithUnitString | FileInfoTool/Extensions/NumberExtension.swift:61-63 | The `Int` overload is defined for non-negative values only. Below 1000 it shows the digits and B. |
| ByteUnits.ByteDetailString | FileInfoTool/Extensions/NumberExtension.swift:43-45 | The detail text is the unit text, then ` (`, the grouped digits, then ` bytes)`. |
| Progress.Spaces | FileInfoTool/Managers/ProgressPrinter.swift:38 | The text has n spaces. |
| Progress.EraseLine | FileInfoTool/Managers/ProgressPrinter.swift:35-40 | A carriage return and then a full terminal width of spaces. `EraseBlanks` shows it blanks any line no wider than the terminal. |
| Progress.FormatProgressAsWritten | FileInfoTool/Managers/ProgressPrinter.swift:49-57 | Text no longer than 100 is unchanged. Longer text is cut to its first 101 characters, because `...index` includes the character at the width. |
| Progress.FormatProgress | FileInfoTool/Managers/ProgressPrinter.swift:49-57 | The corrected cut keeps the longest prefix that fits 100 columns. |
| Progress.Apply | FileInfoTool/Managers/ProgressPrinter.swift:24-33 | A write leaves the cursor within the line. |
| Progress.ProgressPrinter.constructor | FileInfoTool/Managers/ProgressPrinter.swift:14-22 | The printer is not started or ended, and nothing has been written. |
| Progress.ProgressPrinter.Start | FileInfoTool/Managers/ProgressPrinter.swift:59-66 | `start` sets `started`, prints the truncated text and records its length. |
| Progress.ProgressPrinter.Update | FileInfoTool/Managers/ProgressPrinter.swift:68-86 | Once ended, nothing changes. Before a start it behaves exactly like `start`. Afterwards it erases only when the new text is shorter, moves to the head and prints. A line that showed the last text then shows exactly the new one. |
| Progress.ProgressPrinter.End | FileInfoTool/Managers/ProgressPrinter.swift:88-95 | `ended` is always set. A started printer erases and returns to the head, which leaves a line that showed a text blank. |
| Progress.ApplyAllAppend | FileInfoTool/Managers/ProgressPrinter.swift:24-33 | Writing two traces in turn is writing their concatenation. |
| Progress.EraseBlanks | FileInfoTool/Managers/ProgressPrinter.swift:35-40 | Erasing a line no wider than the terminal blanks all of it. |
| Progress.PrintAtHead | FileInfoTool/Managers/ProgressPrinter.swift:28-33 | Text printed at the head overwrites the line's beginning. |
| Progress.StartShows | FileInfoTool/Managers/ProgressPrinter.swift:59-66 | A fresh printer's first text is shown alone. |
| Progress.RedrawShows | FileInfoTool/Managers/ProgressPrinter.swift:73-82 | A redraw leaves exactly the new text on the line. When the new text is shorter, the erase clears what the old one left. |
| Progress.EndBlanks | FileInfoTool/Managers/ProgressPrinter.swift:88-95 | Ending a printer whose line shows a text leaves the line blank. |
| Progress.AsWrittenEndLeavesCharacter | FileInfoTool/Managers/ProgressPrinter.swift:52-54 | With the written cut, a text longer than 100 leaves its 101st character on the line after `end()`. |
| Urls.StandardPath | FileInfoTool/Extensions/URLExtension.swift:65-75 | In the branch before macOS 13, the path gets a trailing `/` exactly when the URL is a directory. |
| Urls.RemoveAll | FileInfoTool/Extensions/URLExtension.swift:54 | Removing occurrences never lengthens the path. |
| Urls.RelativePath | FileInfoTool/Extensions/URLExtension.swift:53-55 | `relativePath(baseUrl:)` is never longer than the standard path, and equals it exactly when the base path is empty or does not occur in it. |
| Urls.RemoveAllChangesIffOccurs | FileInfoTool/Extensions/URLExtension.swift:54 | A non-empty base path changes the text exactly when it occurs in it, and then the text gets shorter. |
| Urls.RelativePathBelowBase | FileInfoTool/Extensions/URLExtension.swift:53-55 | A URL below the base whose rest never repeats the base path gets exactly that rest. |
| Urls.RemovesInnerOccurrences | FileInfoTool/Extensions/URLExtension.swift:54 | An occurrence of the base path after a leading one is removed as well, not only a leading prefix. |

## Left out

- The comparison walk `load(dirUrl:dirInfoRecord:recursive:restore:)` has an empty body and the two count helpers return `(0, 0)`. The model has no comparator: the counter helpers are modelled and nothing calls them.
- All console output. The saver's and loader's `print` calls are not modelled. The loader's reports become `LoadedLine`s, which hold the record's kind, name, parent link and which attributes are shown rather than the printed text. The progress printer's output is a trace of terminal writes.
- `InfoSerializer` (JSON text, pretty printing, file reads and writes) is not part of this model. The saver returns the keyed container it would write, and the loader takes one as input.
- `FileManager`, `contentsOfDirectory` and `resourceValues` are inputs (`FsEntry`, `Listing`, `ResourceValues`). `ISO8601Format()` and `Date()` are one clock reading passed in. The `*Interval` fields are uninterpreted numbers.
- SHA-512 itself, the `FileHandle` and its `defer` close, and `DispatchTime`: the digest bytes, chunk lengths and clock readings are inputs.
- HashComputer.ComputeSha512: `totalReadLength` and the other `UInt64` counters are unbounded naturals, so their wrap-around is not modelled. A read longer than `chunkLength` is not excluded.
- `NumberFormatter` (`byteDigitString`, `groupString`, `percentageString`) and `String(format:)`: the digits, grouped digits and formatted progress text are inputs.
- ByteUnits.ByteWithUnitString: amounts are any natural number rather than `UInt64`, and `Decimal` division is exact real division.
- The `format` field of `ProgressPrinter`: the text arrives already formatted.
- Progress.ProgressPrinter.Start, Progress.ProgressPrinter.Update: these print the corrected truncation `FormatProgress` (at most 100 characters), where the source prints 101 characters of a longer text. The truncation as written is `FormatProgressAsWritten`, kept beside it (see Findings).
- URL constructors, the `appending` overloads, `purePath`/`FilePath` normalisation and the macOS 13 branch of `standardPath`: a URL is a path plus a directory flag, and the base path is a string input.
- Loader.InfoLoader.PrintLoadedInfoRecord, Loader.RootWalkEnd, Loader.RootLines: for a directory, `DirectoryInfoRecord.relativePath` (DirectoryInfoRecord.swift:51-54) prints the `relativePath` of `URL(fileURLWithPath:isDirectory: true)` built from the protocol path, root included (protocol path ""). The model reports the protocol path itself, so the directory lines these members state, the root's "" among them, are not the text the source prints.
- ConsoleArgs.ParseArgs: `StartsWithDash` tests the first Unicode scalar, while `starts(with: "-")` (ConsoleArgsParser.swift:90) compares the first Character (grapheme cluster). For the argument "-" followed by U+0301 (combining acute) the source throws `unknownMode`, but the model gives `MissingMode`.
- Progress.FormatProgressAsWritten, Progress.FormatProgress: strings are sequences of Unicode scalars, while `count` and `index(offsetBy:)` (ProgressPrinter.swift:52-53) count Characters. A text of 100 × "e" + U+0301 is 100 Characters and 200 scalars: the source prints it whole, but `FormatProgress` cuts it to 100 scalars and `FormatProgressAsWritten` to 101.
- Progress.ProgressPrinter.Start, Progress.ProgressPrinter.Update: for the same reason, the stored last length and Update's shorter-than test (ProgressPrinter.swift:65, 75, 82) count scalars rather than Characters. The text of 100 × "e" + U+0301 is recorded as 200 wide where the source records 100.
- Urls.RemoveAll: the model removes literal, scalar-for-scalar matches. `replacingOccurrences(of:with:)` without `.literal` (URLExtension.swift:54) also matches canonically equivalent spellings. For the path "/café/a" with precomposed é and the base "/cafe" + U+0301, the source removes the base, but the model leaves the path unchanged.
- ConsoleArgs.EqualIgnoringCase: the model folds only A–Z. Foundation's `caseInsensitiveCompare` applies full Unicode case folding. An argument such as "ſave" (with U+017F, long s) selects Save in the source but gives `unknownMode` in the model. Only such non-ASCII spellings of the mode names differ.
- Records.StringLess: the model compares names character by character. Swift's `String <` compares canonically equivalent (NFC-normalised) text. A decomposed "e\u{301}", as HFS+ returns names, sorts after "f" in Swift but before "f" in the model. The two spellings of é are equal in Swift but distinct in the model. So `SortByName` can order such names differently from `sort(by: compareByName)`.
- Records.RelativePath: `FilePath.Component(stringLiteral:)` (FileInfoRecord.swift:50) stops the program on an empty name or one containing "/". Such a name can reach List mode from an edited info file. The model joins such a name without trapping: "a/b" under "x" gives "x/a/b".
- Records are values. The in-place updates of record fields by the saver and loader are modelled by returning updated values, so aliasing between records is not captured.
- `restore` and other launch options besides the mode are parsed nowhere in the source; `parseArgs` leaves them at their initial values, as the model does.
- `InfoLauncher`, `main.swift` and `StringExtension` are not part of this model.
- InfoAttributes.NameString: states only that every label is non-empty. The label texts are in its body, and their distinctness is `NameStringInjective`.
- DirectoryCodec.DecodeFilesIfPresent: states only the absent-key case. What it reads from a written `files` array is `FilesRoundTrip`.
- DirectoryCodec.DecodeDirectoriesIfPresent: states only that decoded subtrees are unlinked. What it reads from a written `directories` array is `DirectoriesRoundTrip`.
- HashComputer.Run: its own contract bounds only the time baseline. Its totals and reports are stated by `TotalIsSum`, `RunAccounts` and `RunReports`.

## Findings

| source | as written | input that shows it | evidently intended | confidence | as-written member | corrected member |
|---|---|---|---|---|---|---|
| FileInfoTool/Managers/ProgressPrinter.swift:52-54 | `progress[...index]` with `index` = start + width keeps width + 1 characters | any progress text of 101 or more characters: 101 are printed, and the 101st stays on screen after `end()` erases 100 columns | keep at most width characters (`..<index`), so the erase clears the line | medium, not executed | Progress.AsWrittenEndLeavesCharacter | Progress.EndBlanks |
| FileInfoTool/Managers/HashComputer.swift:95 | `1_000_000_000 * updatedLength` is a `UInt64` product, which traps on overflow | a report of 18_446_744_074 bytes over 2_000_000_000 ns | bytes per second without overflow: 9_223_372_037 | low (a report is made at the first read after just over a second once 16 MiB and 2000 reads have passed, so one report of 18_446_744_074 bytes needs about 18 GB hashed within a single window of just over a second), not executed | HashComputer.LengthPerSecondTraps | HashComputer.LengthPerSecond |
