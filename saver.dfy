/** `InfoSaver` (Info/InfoSaver.swift): builds a snapshot tree of a directory
    and writes it, stamped with the current time, as the info file.

    The live file system is an input: an `FsEntry` is what a `URL` of the walk
    leads to, with the outcome of its attribute read (`resourceValues`) and, for
    a directory, of its listing (`contentsOfDirectory`). Dates arrive already in
    their ISO 8601 form. */
module Saver {
  import opened Wrappers
  import opened Json
  import opened Errors
  import opened InfoAttributes
  import opened Records
  import opened RecordTrees
  import opened InfoRecords

  /** The attribute values `resourceValues(forKeys:)` returns. */
  datatype ResourceValues = ResourceValues(
    creationDate: Option<string>,
    contentModificationDate: Option<string>,
    contentAccessDate: Option<string>,
    fileSize: Option<Int64>)

  /** An entry of the file system under the target directory. `resources` is
      `None` when reading its attributes throws. */
  datatype FsEntry = FsEntry(
    name: string,
    hasDirectoryPath: bool,
    resources: Option<ResourceValues>,
    contents: Listing)

  /** The outcome of listing an entry's contents. */
  datatype Listing = Unreadable | Listed(entries: seq<FsEntry>)

  // ---------------------------------------------------------------------------
  // Attribute configuration (`init`)

  /** The file attributes a saver records: the requested ones, or creation,
      modification, access and size by default. Every kind is valid for a
      file, so a requested list is kept as it is. */
  function SaveFileAttributes(requested: Option<seq<InfoAttribute>>): (r: seq<InfoAttribute>)
    ensures requested.None? ==> r == [CreationDate, ModificationDate, AccessDate, Size]
    ensures requested.Some? ==> r == requested.value
  {
    if requested.Some? then
      FilterAllValid(requested.value);
      Filter(requested.value, ValidFileAttributes)
    else [CreationDate, ModificationDate, AccessDate, Size]
  }

  /** The directory attributes a saver records: the timestamp kinds among the
      requested ones, in the requested order, or all three by default. */
  function SaveDirAttributes(requested: Option<seq<InfoAttribute>>): (r: seq<InfoAttribute>)
    ensures requested.None? ==> r == [CreationDate, ModificationDate, AccessDate]
    ensures requested.Some? ==> r == Filter(requested.value, ValidDirProperties)
    ensures requested.Some? ==> forall a :: a in r <==> a in requested.value && IsTimestamp(a)
    ensures forall a :: a in r ==> IsTimestamp(a)
  {
    if requested.Some? then Filter(requested.value, ValidDirProperties)
    else [CreationDate, ModificationDate, AccessDate]
  }

  /** A requested directory list keeps its timestamp kinds in the requested
      order and with their repetitions, and drops the size and hash kinds
      wherever they stand. */
  lemma SaveDirAttributesKeepsOrder(xs: seq<InfoAttribute>, ys: seq<InfoAttribute>, zs: seq<InfoAttribute>)
    requires forall a :: a in xs ==> IsTimestamp(a)
    requires forall a :: a in ys ==> !IsTimestamp(a)
    ensures SaveDirAttributes(Some(xs + ys + zs)) == xs + SaveDirAttributes(Some(zs))
  {
    ValidLists();
    FilterKeepsOrder(xs, ys, zs, ValidDirProperties);
  }

  // ---------------------------------------------------------------------------
  // The records the walk builds

  /** The record of a regular file whose attributes were read as `rv`. */
  function FileRecordOf(name: string, rv: ResourceValues, sel: Selection): (f: RegularFileInfoRecord)
    ensures f.name == name && f.directory == None && !f.computeHashFailed
    ensures f.sha512 == None
    ensures f.creationDateUtcInterval == None && f.modificationDateUtcInterval == None && f.accessDateUtcInterval == None
    ensures f.creationDateUtc.Some? ==> sel.creationDate
    ensures f.modificationDateUtc.Some? ==> sel.modificationDate
    ensures f.accessDateUtc.Some? ==> sel.accessDate
    ensures f.size.Some? ==> sel.size
    ensures sel.creationDate ==> f.creationDateUtc == rv.creationDate
    ensures sel.modificationDate ==> f.modificationDateUtc == rv.contentModificationDate
    ensures sel.accessDate ==> f.accessDateUtc == rv.contentAccessDate
    ensures sel.size ==> f.size == rv.fileSize
  {
    NewRegularFile(name).(
      creationDateUtc := if sel.creationDate then rv.creationDate else None,
      modificationDateUtc := if sel.modificationDate then rv.contentModificationDate else None,
      accessDateUtc := if sel.accessDate then rv.contentAccessDate else None,
      size := if sel.size then rv.fileSize else None)
  }

  /** The record of a directory whose attributes were read as `rv`. */
  function DirectoryRecordOf(name: string, rv: ResourceValues, sel: Selection): (d: DirectoryInfoRecord)
    ensures d.name == name && d.directory == None && !d.getFilesFailed
    ensures d.files == None && d.directories == NotAssigned
    ensures d.creationDateUtcInterval == None && d.modificationDateUtcInterval == None && d.accessDateUtcInterval == None
    ensures d.creationDateUtc.Some? ==> sel.creationDate
    ensures d.modificationDateUtc.Some? ==> sel.modificationDate
    ensures d.accessDateUtc.Some? ==> sel.accessDate
    ensures sel.creationDate ==> d.creationDateUtc == rv.creationDate
    ensures sel.modificationDate ==> d.modificationDateUtc == rv.contentModificationDate
    ensures sel.accessDate ==> d.accessDateUtc == rv.contentAccessDate
  {
    NewDirectory(name).(
      creationDateUtc := if sel.creationDate then rv.creationDate else None,
      modificationDateUtc := if sel.modificationDate then rv.contentModificationDate else None,
      accessDateUtc := if sel.accessDate then rv.contentAccessDate else None)
  }

  /** What `saveInfoRecord(url:)` yields for an entry: a directory record for a
      directory URL and a file record otherwise, or the attribute-read failure. */
  function InfoRecordOf(url: FsEntry, fileSel: Selection, dirSel: Selection): (r: Result<InfoRecordRef, Failure>)
    ensures r.Ok? <==> url.resources.Some?
    ensures r.Err? ==> r.error == ResourceReadFailed(url.name)
    ensures r.Ok? ==> r.value.Name() == url.name && (r.value.Directory? <==> url.hasDirectoryPath)
  {
    if url.resources.None? then Err(ResourceReadFailed(url.name))
    else if url.hasDirectoryPath then Ok(Directory(DirectoryRecordOf(url.name, url.resources.value, dirSel)))
    else Ok(RegularFile(FileRecordOf(url.name, url.resources.value, fileSel)))
  }

  /** The entries of a listing; an unreadable one counts as empty. */
  function EntriesOf(url: FsEntry): seq<FsEntry> {
    if url.contents.Listed? then url.contents.entries else []
  }

  /** `filter { !$0.hasDirectoryPath }`. */
  function RegularEntries(es: seq<FsEntry>): (r: seq<FsEntry>)
    ensures forall e :: e in r <==> e in es && !e.hasDirectoryPath
  {
    if es == [] then []
    else (if es[0].hasDirectoryPath then [] else [es[0]]) + RegularEntries(es[1..])
  }

  /** `filter { $0.hasDirectoryPath }`. */
  function DirectoryEntries(es: seq<FsEntry>): (r: seq<FsEntry>)
    ensures forall e :: e in r <==> e in es && e.hasDirectoryPath
  {
    if es == [] then []
    else (if es[0].hasDirectoryPath then [es[0]] else []) + DirectoryEntries(es[1..])
  }

  /** A subdirectory of a listing is an entry of it, hence smaller. */
  lemma SubdirectoryEntry(url: FsEntry, i: nat)
    requires i < |DirectoryEntries(EntriesOf(url))|
    ensures url.contents.Listed? && DirectoryEntries(EntriesOf(url))[i] in url.contents.entries
    ensures DirectoryEntries(EntriesOf(url))[i].hasDirectoryPath
  {
    var subs := DirectoryEntries(EntriesOf(url));
    assert subs[i] in subs;
  }

  /** The two filters split a listing: every entry lands in exactly one part. */
  lemma {:induction false} EntriesPartition(es: seq<FsEntry>)
    ensures multiset(RegularEntries(es)) + multiset(DirectoryEntries(es)) == multiset(es)
  {
    if es != [] {
      EntriesPartition(es[1..]);
      assert es == [es[0]] + es[1..];
    }
  }

  /** The outcome of `saveInfoRecord(url:)` for a regular file. */
  function FileResult(e: FsEntry, fileSel: Selection): (r: Result<RegularFileInfoRecord, Failure>)
    ensures r.Ok? <==> e.resources.Some?
  {
    if e.resources.None? then Err(ResourceReadFailed(e.name))
    else Ok(FileRecordOf(e.name, e.resources.value, fileSel))
  }

  function FileResults(regular: seq<FsEntry>, fileSel: Selection): (rs: seq<Result<RegularFileInfoRecord, Failure>>)
    ensures |rs| == |regular| && forall i :: 0 <= i < |regular| ==> rs[i] == FileResult(regular[i], fileSel)
  {
    seq(|regular|, i requires 0 <= i < |regular| => FileResult(regular[i], fileSel))
  }

  /** The records of the regular files of a listing, in listing order, or the
      first attribute-read failure. */
  function SavedFiles(regular: seq<FsEntry>, fileSel: Selection): (r: Result<seq<RegularFileInfoRecord>, Failure>)
    ensures r.Ok? <==> forall e :: e in regular ==> e.resources.Some?
    ensures r.Ok? ==> |r.value| == |regular|
  {
    AllOk(FileResults(regular, fileSel))
  }

  /** The trees of the subdirectories of a listing, in listing order. */
  function SubdirectoryResults(url: FsEntry, recursive: bool, fileSel: Selection, dirSel: Selection)
    : (rs: seq<Result<DirectoryInfoRecord, Failure>>)
    ensures |rs| == |DirectoryEntries(EntriesOf(url))|
    decreases url, 0
  {
    var subs := DirectoryEntries(EntriesOf(url));
    seq(|subs|, i requires 0 <= i < |subs| =>
      assert subs[i] in url.contents.entries;
      SavedDirectory(subs[i], recursive, fileSel, dirSel))
  }

  /** The tree `save(dirUrl:recursive:)` builds for a directory URL, or the
      first attribute-read failure met on the way. */
  function SavedDirectory(url: FsEntry, recursive: bool, fileSel: Selection, dirSel: Selection): (r: Result<DirectoryInfoRecord, Failure>)
    requires url.hasDirectoryPath
    ensures r.Ok? ==> r.value.name == url.name
    decreases url, 1
  {
    if url.resources.None? then Err(ResourceReadFailed(url.name))
    else
      var d := DirectoryRecordOf(url.name, url.resources.value, dirSel).(getFilesFailed := url.contents.Unreadable?);
      var files :- SavedFiles(RegularEntries(EntriesOf(url)), fileSel);
      var d := d.(files := Some(SortByName(files, FileName)));
      if recursive then
        var dirs :- AllOk(SubdirectoryResults(url, recursive, fileSel, dirSel));
        Ok(d.(directories := Assigned(SortByName(dirs, DirectoryName))))
      else Ok(d)
  }

  // ---------------------------------------------------------------------------
  // Properties of the saved tree

  /** Timestamps (and, for a file, the size) appear only when selected. */
  predicate FileRespects(f: RegularFileInfoRecord, sel: Selection) {
    && (f.creationDateUtc.Some? ==> sel.creationDate)
    && (f.modificationDateUtc.Some? ==> sel.modificationDate)
    && (f.accessDateUtc.Some? ==> sel.accessDate)
    && (f.size.Some? ==> sel.size)
  }

  predicate DirectoryRespects(d: DirectoryInfoRecord, sel: Selection) {
    && (d.creationDateUtc.Some? ==> sel.creationDate)
    && (d.modificationDateUtc.Some? ==> sel.modificationDate)
    && (d.accessDateUtc.Some? ==> sel.accessDate)
  }

  /** The shape of every tree the saver builds: `files` assigned and sorted by
      name, `directories` assigned (and sorted) exactly when recursive, only
      selected attributes present, no hash and no parent link anywhere. */
  ghost predicate SavedShape(d: DirectoryInfoRecord, recursive: bool, fileSel: Selection, dirSel: Selection)
    decreases d
  {
    && d.directory == None
    && DirectoryRespects(d, dirSel)
    && d.files.Some? && SortedBy(d.files.value, FileName)
    && (forall f :: f in d.files.value ==>
          f.directory == None && f.sha512 == None && !f.computeHashFailed && FileRespects(f, fileSel))
    && (recursive <==> d.directories.Assigned?)
    && (d.directories.Assigned? ==>
          && SortedBy(d.directories.items, DirectoryName)
          && forall s :: s in d.directories.items ==> SavedShape(s, recursive, fileSel, dirSel))
  }

  /** A saved tree, taken apart: the directory's own record, its sorted file
      records and, when recursive, its sorted subtrees. */
  lemma SavedDirectoryParts(url: FsEntry, recursive: bool, fileSel: Selection, dirSel: Selection)
    requires url.hasDirectoryPath
    requires SavedDirectory(url, recursive, fileSel, dirSel).Ok?
    ensures var d := SavedDirectory(url, recursive, fileSel, dirSel).value;
      var files := SavedFiles(RegularEntries(EntriesOf(url)), fileSel);
      var dirs := AllOk(SubdirectoryResults(url, recursive, fileSel, dirSel));
      && url.resources.Some?
      && d.(files := None, directories := NotAssigned, getFilesFailed := false)
         == DirectoryRecordOf(url.name, url.resources.value, dirSel)
      && (d.getFilesFailed <==> url.contents.Unreadable?)
      && files.Ok? && d.files == Some(SortByName(files.value, FileName))
      && (recursive ==> dirs.Ok? && d.directories == Assigned(SortByName(dirs.value, DirectoryName)))
      && (!recursive ==> d.directories == NotAssigned)
  {
  }

  /** The file records of a saved directory are its regular entries' records,
      sorted by name. */
  lemma SavedDirectoryFiles(url: FsEntry, recursive: bool, fileSel: Selection, dirSel: Selection)
    requires url.hasDirectoryPath
    requires SavedDirectory(url, recursive, fileSel, dirSel).Ok?
    ensures var files := SavedFiles(RegularEntries(EntriesOf(url)), fileSel);
      && files.Ok?
      && SavedDirectory(url, recursive, fileSel, dirSel).value.files == Some(SortByName(files.value, FileName))
  {
  }

  /** Every file record of a saved directory was built from one of its
      regular entries. */
  lemma SavedFileRecords(url: FsEntry, recursive: bool, fileSel: Selection, dirSel: Selection, f: RegularFileInfoRecord)
    requires url.hasDirectoryPath
    requires SavedDirectory(url, recursive, fileSel, dirSel).Ok?
    requires f in Files(SavedDirectory(url, recursive, fileSel, dirSel).value)
    ensures exists e :: e in RegularEntries(EntriesOf(url)) && e.resources.Some? &&
                        f == FileRecordOf(e.name, e.resources.value, fileSel)
  {
    SavedDirectoryFiles(url, recursive, fileSel, dirSel);
    var regular := RegularEntries(EntriesOf(url));
    var files := SavedFiles(regular, fileSel).value;
    assert f in multiset(files);
    var k :| 0 <= k < |files| && files[k] == f;
    assert FileResults(regular, fileSel)[k] == Ok(f);
    assert regular[k] in regular;
  }

  /** Every subtree of a recursively saved directory is the saved tree of one
      of its subdirectory entries. */
  lemma SavedSubtrees(url: FsEntry, fileSel: Selection, dirSel: Selection, s: DirectoryInfoRecord)
    requires url.hasDirectoryPath
    requires SavedDirectory(url, true, fileSel, dirSel).Ok?
    requires s in Subtrees(SavedDirectory(url, true, fileSel, dirSel).value)
    ensures exists e :: e in DirectoryEntries(EntriesOf(url)) && e < url &&
                        SavedDirectory(e, true, fileSel, dirSel) == Ok(s)
  {
    SavedDirectoryParts(url, true, fileSel, dirSel);
    var subs := DirectoryEntries(EntriesOf(url));
    var rs := SubdirectoryResults(url, true, fileSel, dirSel);
    var dirs := AllOk(rs).value;
    assert s in multiset(dirs);
    var k :| 0 <= k < |dirs| && dirs[k] == s;
    SubdirectoryEntry(url, k);
    assert rs[k] == SavedDirectory(subs[k], true, fileSel, dirSel);
    assert subs[k] in subs;
  }

  lemma {:induction false} SavedTreeShape(url: FsEntry, recursive: bool, fileSel: Selection, dirSel: Selection)
    requires url.hasDirectoryPath
    requires SavedDirectory(url, recursive, fileSel, dirSel).Ok?
    ensures SavedShape(SavedDirectory(url, recursive, fileSel, dirSel).value, recursive, fileSel, dirSel)
    decreases url
  {
    var d := SavedDirectory(url, recursive, fileSel, dirSel).value;
    SavedDirectoryParts(url, recursive, fileSel, dirSel);
    forall f | f in d.files.value
      ensures f.directory == None && f.sha512 == None && !f.computeHashFailed && FileRespects(f, fileSel)
    {
      SavedFileRecords(url, recursive, fileSel, dirSel, f);
    }
    if recursive {
      forall s | s in d.directories.items ensures SavedShape(s, recursive, fileSel, dirSel) {
        SavedSubtrees(url, fileSel, dirSel, s);
        var e :| e in DirectoryEntries(EntriesOf(url)) && e < url && SavedDirectory(e, true, fileSel, dirSel) == Ok(s);
        SavedTreeShape(e, recursive, fileSel, dirSel);
      }
    }
  }

  /** Every attribute read the walk performs succeeds: that of the directory,
      of its regular files and, when recursive, of every subdirectory tree. */
  ghost predicate AllReadable(url: FsEntry, recursive: bool)
    decreases url
  {
    && url.resources.Some?
    && match url.contents
       case Unreadable => true
       case Listed(es) =>
         && (forall e :: e in es && !e.hasDirectoryPath ==> e.resources.Some?)
         && (recursive ==> forall e :: e in es && e.hasDirectoryPath ==> AllReadable(e, recursive))
  }

  /** When a save yields a tree: the directory's attributes, every regular
      file's attributes and, when recursive, every subtree could be read. */
  lemma SavedDirectoryOk(url: FsEntry, recursive: bool, fileSel: Selection, dirSel: Selection)
    requires url.hasDirectoryPath
    ensures SavedDirectory(url, recursive, fileSel, dirSel).Ok? <==>
      && url.resources.Some?
      && SavedFiles(RegularEntries(EntriesOf(url)), fileSel).Ok?
      && (recursive ==> AllOk(SubdirectoryResults(url, recursive, fileSel, dirSel)).Ok?)
  {
  }

  /** A save yields a tree exactly when no attribute read fails: one failed
      read anywhere aborts the whole walk. */
  lemma {:induction false} SaveSucceedsIff(url: FsEntry, recursive: bool, fileSel: Selection, dirSel: Selection)
    requires url.hasDirectoryPath
    ensures SavedDirectory(url, recursive, fileSel, dirSel).Ok? <==> AllReadable(url, recursive)
    decreases url
  {
    SavedDirectoryOk(url, recursive, fileSel, dirSel);
    var es := EntriesOf(url);
    var regular := RegularEntries(es);
    assert SavedFiles(regular, fileSel).Ok? <==> forall e :: e in es && !e.hasDirectoryPath ==> e.resources.Some?;
    if url.resources.Some? && url.contents.Listed? && recursive {
      var subs := DirectoryEntries(es);
      var rs := SubdirectoryResults(url, recursive, fileSel, dirSel);
      forall k | 0 <= k < |subs| ensures rs[k].Ok? <==> AllReadable(subs[k], recursive) {
        SubdirectoryEntry(url, k);
        SaveSucceedsIff(subs[k], recursive, fileSel, dirSel);
      }
      AllOkIff(rs, subs, e => AllReadable(e, recursive));
    }
  }

  function EntryName(e: FsEntry): string { e.name }

  /** The saved tree mirrors the listing: the record of a directory carries its
      name, flags an unreadable listing, and holds one file record per regular
      file and, when recursive, one tree per subdirectory, with the same names. */
  lemma SavedTreeMirrorsListing(url: FsEntry, recursive: bool, fileSel: Selection, dirSel: Selection)
    requires url.hasDirectoryPath
    requires SavedDirectory(url, recursive, fileSel, dirSel).Ok?
    ensures var d := SavedDirectory(url, recursive, fileSel, dirSel).value;
      && d.name == url.name
      && (d.getFilesFailed <==> url.contents.Unreadable?)
      && multiset(Map(Files(d), FileName)) == multiset(Map(RegularEntries(EntriesOf(url)), EntryName))
      && (recursive ==>
            multiset(Map(Subtrees(d), DirectoryName)) == multiset(Map(DirectoryEntries(EntriesOf(url)), EntryName)))
  {
    SavedDirectoryParts(url, recursive, fileSel, dirSel);
    SavedFileNames(url, recursive, fileSel, dirSel);
    if recursive {
      SavedSubtreeNames(url, fileSel, dirSel);
    }
  }

  lemma SavedFileNames(url: FsEntry, recursive: bool, fileSel: Selection, dirSel: Selection)
    requires url.hasDirectoryPath
    requires SavedDirectory(url, recursive, fileSel, dirSel).Ok?
    ensures multiset(Map(Files(SavedDirectory(url, recursive, fileSel, dirSel).value), FileName))
         == multiset(Map(RegularEntries(EntriesOf(url)), EntryName))
  {
    SavedDirectoryParts(url, recursive, fileSel, dirSel);
    var d := SavedDirectory(url, recursive, fileSel, dirSel).value;
    var regular := RegularEntries(EntriesOf(url));
    var files := SavedFiles(regular, fileSel).value;
    forall k | 0 <= k < |files| ensures files[k].name == regular[k].name {
      assert FileResults(regular, fileSel)[k] == Ok(files[k]);
    }
    assert Map(files, FileName) == Map(regular, EntryName);
    MapPermutation(Files(d), files, FileName);
  }

  lemma SavedSubtreeNames(url: FsEntry, fileSel: Selection, dirSel: Selection)
    requires url.hasDirectoryPath
    requires SavedDirectory(url, true, fileSel, dirSel).Ok?
    ensures multiset(Map(Subtrees(SavedDirectory(url, true, fileSel, dirSel).value), DirectoryName))
         == multiset(Map(DirectoryEntries(EntriesOf(url)), EntryName))
  {
    SavedDirectoryParts(url, true, fileSel, dirSel);
    var d := SavedDirectory(url, true, fileSel, dirSel).value;
    var subs := DirectoryEntries(EntriesOf(url));
    var rs := SubdirectoryResults(url, true, fileSel, dirSel);
    var dirs := AllOk(rs).value;
    forall k | 0 <= k < |dirs| ensures dirs[k].name == subs[k].name {
      SubdirectoryEntry(url, k);
      assert rs[k] == SavedDirectory(subs[k], true, fileSel, dirSel);
    }
    assert Map(dirs, DirectoryName) == Map(subs, EntryName);
    MapPermutation(Subtrees(d), dirs, DirectoryName);
  }

  /** A listing that cannot be read leaves the directory flagged and empty, and
      the walk goes on. */
  lemma UnreadableListing(url: FsEntry, recursive: bool, fileSel: Selection, dirSel: Selection)
    requires url.hasDirectoryPath && url.resources.Some? && url.contents.Unreadable?
    ensures var r := SavedDirectory(url, recursive, fileSel, dirSel);
      && r.Ok? && r.value.getFilesFailed && r.value.files == Some([])
      && (recursive ==> r.value.directories == Assigned([]))
      && (!recursive ==> r.value.directories == NotAssigned)
  {
  }

  /** A non-recursive save records the directory and its regular files only. */
  lemma NonRecursiveCounts(url: FsEntry, fileSel: Selection, dirSel: Selection)
    requires url.hasDirectoryPath
    requires SavedDirectory(url, false, fileSel, dirSel).Ok?
    ensures var d := SavedDirectory(url, false, fileSel, dirSel).value;
      DirectoryCount(d) == 1 && FileCount(d) == |RegularEntries(EntriesOf(url))|
  {
  }

  // ---------------------------------------------------------------------------
  // The saver

  class InfoSaver {
    const dirPath: string
    const infoFilePath: string
    const fileAttributes: seq<InfoAttribute>
    const dirAttributes: seq<InfoAttribute>
    /** `saveFileCreationDate` … `saveFileHash`. */
    const fileSelection: Selection
    /** `saveDirCreationDate`, `saveDirModificationDate`, `saveDirAccessDate`. */
    const dirSelection: Selection
    var savedFileCount: nat
    var savedDirectoryCount: nat

    constructor (dirPath: string, infoFilePath: string,
                 fileAttributes: Option<seq<InfoAttribute>>, dirAttributes: Option<seq<InfoAttribute>>)
      ensures this.dirPath == dirPath && this.infoFilePath == infoFilePath
      ensures this.fileAttributes == SaveFileAttributes(fileAttributes)
      ensures this.dirAttributes == SaveDirAttributes(dirAttributes)
      ensures fileSelection == SelectionOf(this.fileAttributes)
      ensures dirSelection == SelectionOf(this.dirAttributes)
      ensures !dirSelection.size && !dirSelection.hash
      ensures savedFileCount == 0 && savedDirectoryCount == 0
    {
      this.dirPath := dirPath;
      this.infoFilePath := infoFilePath;
      var files := SaveFileAttributes(fileAttributes);
      var dirs := SaveDirAttributes(dirAttributes);
      this.fileAttributes := files;
      this.dirAttributes := dirs;
      fileSelection := SelectionOf(files);
      dirSelection := SelectionOf(dirs);
      savedFileCount := 0;
      savedDirectoryCount := 0;
    }

    /** `save(recursive:overwrite:)`. `dirExists` and `infoFileExists` are what
        `fileExists(atPath:)` answers for the two paths, `root` is the entry at
        `dirPath` and `now` the clock reading taken for the record. The result
        is the document written to `infoFilePath`. */
    method Save(recursive: bool, overwrite: bool, dirExists: bool, infoFileExists: bool, root: FsEntry, now: Date)
      returns (r: Result<JsonValue, Failure>)
      modifies this
      ensures !dirExists ==> r == Err(Runtime(TargetDirNotExists(dirPath))) && unchanged(this)
      ensures dirExists && infoFileExists && !overwrite ==>
        r == Err(Runtime(InfoFileExists(infoFilePath))) && unchanged(this)
      ensures dirExists && (!infoFileExists || overwrite) ==>
        var tree := SavedDirectory(root.(hasDirectoryPath := true), recursive, fileSelection, dirSelection);
        && (tree.Err? ==> r == Err(tree.error))
        && (tree.Ok? ==>
              && r == Ok(EncodeInfoRecord(InfoRecordValue(now.iso8601, now.timeIntervalSince1970, tree.value)))
              && savedFileCount == FileCount(tree.value)
              && savedDirectoryCount == DirectoryCount(tree.value))
    {
      if !dirExists {
        return Err(Runtime(TargetDirNotExists(dirPath)));
      }
      if infoFileExists && !overwrite {
        return Err(Runtime(InfoFileExists(infoFilePath)));
      }
      savedFileCount := 0;
      savedDirectoryCount := 0;
      var dirUrl := root.(hasDirectoryPath := true);
      var dirInfoRecord := SaveDirectory(dirUrl, recursive);
      if dirInfoRecord.Err? {
        return Err(dirInfoRecord.error);
      }
      var infoRecord := InfoRecord.Create(dirInfoRecord.value, now);
      r := Ok(EncodeInfoRecord(infoRecord.Value()));
    }

    /** `save(dirUrl:recursive:)`: the record of the directory, then those of
        its regular files, sorted by name, then, when `recursive`, the trees of
        its subdirectories, sorted by name. */
    method SaveDirectory(dirUrl: FsEntry, recursive: bool) returns (r: Result<DirectoryInfoRecord, Failure>)
      requires dirUrl.hasDirectoryPath
      modifies this
      ensures r == SavedDirectory(dirUrl, recursive, fileSelection, dirSelection)
      ensures r.Ok? ==> savedFileCount == old(savedFileCount) + FileCount(r.value)
      ensures r.Ok? ==> savedDirectoryCount == old(savedDirectoryCount) + DirectoryCount(r.value)
      decreases dirUrl, 2
    {
      var infoRecord := SaveInfoRecord(dirUrl);
      if infoRecord.Err? {
        return Err(infoRecord.error);
      }
      var dirInfoRecord := infoRecord.value.dir;
      var fileUrls: seq<FsEntry>;
      match dirUrl.contents {
        case Unreadable =>
          dirInfoRecord := dirInfoRecord.(getFilesFailed := true);
          fileUrls := [];
        case Listed(entries) =>
          fileUrls := entries;
      }

      var regularFileInfoRecords := SaveRegularFiles(RegularEntries(fileUrls));
      if regularFileInfoRecords.Err? {
        return Err(regularFileInfoRecords.error);
      }
      var files := SortByName(regularFileInfoRecords.value, FileName);
      dirInfoRecord := dirInfoRecord.(files := Some(files));

      if recursive {
        var subDirInfoRecords := SaveSubdirectories(dirUrl, recursive);
        if subDirInfoRecords.Err? {
          return Err(subDirInfoRecords.error);
        }
        dirInfoRecord := dirInfoRecord.(directories := Assigned(SortByName(subDirInfoRecords.value, DirectoryName)));
        CountsOfSubtrees(dirInfoRecord, subDirInfoRecords.value);
      } else {
        CountsOfSubtrees(dirInfoRecord, []);
      }
      return Ok(dirInfoRecord);
    }

    /** The loop of `save(dirUrl:recursive:)` over the regular files: one
        record each, in listing order, stopping at the first failure. */
    method SaveRegularFiles(regularFileUrls: seq<FsEntry>) returns (r: Result<seq<RegularFileInfoRecord>, Failure>)
      requires forall e :: e in regularFileUrls ==> !e.hasDirectoryPath
      modifies this
      ensures r == SavedFiles(regularFileUrls, fileSelection)
      ensures r.Ok? ==> savedFileCount == old(savedFileCount) + |regularFileUrls|
      ensures savedDirectoryCount == old(savedDirectoryCount)
    {
      ghost var fileResults := FileResults(regularFileUrls, fileSelection);
      var regularFileInfoRecords: seq<RegularFileInfoRecord> := [];
      for i := 0 to |regularFileUrls|
        invariant |regularFileInfoRecords| == i
        invariant forall k :: 0 <= k < i ==> fileResults[k] == Ok(regularFileInfoRecords[k])
        invariant savedFileCount == old(savedFileCount) + i
        invariant savedDirectoryCount == old(savedDirectoryCount)
      {
        var fileRecord := SaveInfoRecord(regularFileUrls[i]);
        if fileRecord.Err? {
          AllOkFirstError(fileResults, i);
          return Err(fileRecord.error);
        }
        regularFileInfoRecords := regularFileInfoRecords + [fileRecord.value.file];
      }
      AllOkValues(fileResults, regularFileInfoRecords);
      return Ok(regularFileInfoRecords);
    }

    /** The loop of `save(dirUrl:recursive:)` over the subdirectories: one
        tree each, in listing order, stopping at the first failure. */
    method SaveSubdirectories(dirUrl: FsEntry, recursive: bool) returns (r: Result<seq<DirectoryInfoRecord>, Failure>)
      modifies this
      ensures r == AllOk(SubdirectoryResults(dirUrl, recursive, fileSelection, dirSelection))
      ensures r.Ok? ==> savedFileCount == old(savedFileCount) + ForestFileCount(r.value)
      ensures r.Ok? ==> savedDirectoryCount == old(savedDirectoryCount) + ForestDirectoryCount(r.value)
      decreases dirUrl, 1
    {
      var subDirUrls := DirectoryEntries(EntriesOf(dirUrl));
      ghost var dirResults := SubdirectoryResults(dirUrl, recursive, fileSelection, dirSelection);
      var subDirInfoRecords: seq<DirectoryInfoRecord> := [];
      for i := 0 to |subDirUrls|
        invariant AllOk(dirResults[..i]) == Ok(subDirInfoRecords)
        invariant savedFileCount == old(savedFileCount) + ForestFileCount(subDirInfoRecords)
        invariant savedDirectoryCount == old(savedDirectoryCount) + ForestDirectoryCount(subDirInfoRecords)
      {
        var subDirInfoRecord := SaveSubdirectory(dirUrl, recursive, i);
        if subDirInfoRecord.Err? {
          AllOkPrefixError(dirResults, i);
          return Err(subDirInfoRecord.error);
        }
        var tree := subDirInfoRecord.value;
        AllOkPrefixSnoc(dirResults, i);
        ForestCountsSnoc(subDirInfoRecords, tree);
        subDirInfoRecords := subDirInfoRecords + [tree];
      }
      assert dirResults[..|subDirUrls|] == dirResults;
      return Ok(subDirInfoRecords);
    }

    /** One turn of the loop over the subdirectories: the tree of the `i`-th
        one. */
    method SaveSubdirectory(dirUrl: FsEntry, recursive: bool, i: nat) returns (r: Result<DirectoryInfoRecord, Failure>)
      requires i < |DirectoryEntries(EntriesOf(dirUrl))|
      modifies this
      ensures r == SubdirectoryResults(dirUrl, recursive, fileSelection, dirSelection)[i]
      ensures r.Ok? ==> savedFileCount == old(savedFileCount) + FileCount(r.value)
      ensures r.Ok? ==> savedDirectoryCount == old(savedDirectoryCount) + DirectoryCount(r.value)
      decreases dirUrl, 0
    {
      var subDirUrls := DirectoryEntries(EntriesOf(dirUrl));
      SubdirectoryEntry(dirUrl, i);
      r := SaveDirectory(subDirUrls[i], recursive);
    }

    /** `saveInfoRecord(url:)`: counts the entry by kind, then reads the
        selected attributes, which may throw. */
    method SaveInfoRecord(url: FsEntry) returns (r: Result<InfoRecordRef, Failure>)
      modifies this
      ensures r == InfoRecordOf(url, fileSelection, dirSelection)
      ensures url.hasDirectoryPath ==>
        savedDirectoryCount == old(savedDirectoryCount) + 1 && savedFileCount == old(savedFileCount)
      ensures !url.hasDirectoryPath ==>
        savedFileCount == old(savedFileCount) + 1 && savedDirectoryCount == old(savedDirectoryCount)
    {
      var sel: Selection;
      if url.hasDirectoryPath {
        savedDirectoryCount := savedDirectoryCount + 1;
        sel := Selection(dirSelection.creationDate, dirSelection.modificationDate, dirSelection.accessDate, false, false);
      } else {
        savedFileCount := savedFileCount + 1;
        sel := fileSelection;
      }
      if url.resources.None? {
        return Err(ResourceReadFailed(url.name));
      }
      var resourceValues := url.resources.value;
      if url.hasDirectoryPath {
        var infoRecord := NewDirectory(url.name);
        if sel.creationDate {
          infoRecord := infoRecord.(creationDateUtc := resourceValues.creationDate);
        }
        if sel.modificationDate {
          infoRecord := infoRecord.(modificationDateUtc := resourceValues.contentModificationDate);
        }
        if sel.accessDate {
          infoRecord := infoRecord.(accessDateUtc := resourceValues.contentAccessDate);
        }
        r := Ok(Directory(infoRecord));
      } else {
        var infoRecord := NewRegularFile(url.name);
        if sel.creationDate {
          infoRecord := infoRecord.(creationDateUtc := resourceValues.creationDate);
        }
        if sel.modificationDate {
          infoRecord := infoRecord.(modificationDateUtc := resourceValues.contentModificationDate);
        }
        if sel.accessDate {
          infoRecord := infoRecord.(accessDateUtc := resourceValues.contentAccessDate);
        }
        if sel.size {
          infoRecord := infoRecord.(size := resourceValues.fileSize);
        }
        r := Ok(RegularFile(infoRecord));
      }
    }
  }
}
