/** `InfoLoader` (Info/InfoLoader.swift): reads an info file back. In List
    mode it walks the stored tree in post-order, restoring the parent links the
    file does not keep and counting what it shows; the other modes reset their
    comparison counters and run a comparison walk that does nothing. */
module Loader {
  import opened Wrappers
  import opened Json
  import opened Errors
  import opened InfoAttributes
  import opened Records
  import opened RecordTrees
  import opened InfoRecords
  import opened RegularFileCodec
  import opened DirectoryCodec
  import ConsoleArgs
  import Urls

  // ---------------------------------------------------------------------------
  // Attribute configuration (`init`)

  /** The file attributes a loader shows. Restore mode keeps only the
      timestamps of a requested list and defaults to creation and modification
      dates; the other modes keep a requested list as it is (every kind is
      valid for a file) and default to creation date, modification date and
      size. */
  function LoadFileAttributes(mode: ConsoleArgs.Mode, requested: Option<seq<InfoAttribute>>): (r: seq<InfoAttribute>)
    ensures requested.None? && mode == ConsoleArgs.Restore ==> r == [CreationDate, ModificationDate]
    ensures requested.None? && mode != ConsoleArgs.Restore ==> r == [CreationDate, ModificationDate, Size]
    ensures requested.Some? && mode != ConsoleArgs.Restore ==> r == requested.value
    ensures requested.Some? && mode == ConsoleArgs.Restore ==> r == Filter(requested.value, ValidRestoreFileAttributes)
    ensures requested.Some? && mode == ConsoleArgs.Restore ==>
      forall a :: a in r <==> a in requested.value && IsTimestamp(a)
    ensures mode == ConsoleArgs.Restore ==> forall a :: a in r ==> IsTimestamp(a)
  {
    if requested.Some? then
      if mode == ConsoleArgs.Restore then Filter(requested.value, ValidRestoreFileAttributes)
      else
        FilterAllValid(requested.value);
        Filter(requested.value, ValidFileAttributes)
    else if mode == ConsoleArgs.Restore then [CreationDate, ModificationDate]
    else [CreationDate, ModificationDate, Size]
  }

  /** The directory attributes a loader shows: the timestamps of a requested
      list, or creation and modification dates by default. */
  function LoadDirAttributes(requested: Option<seq<InfoAttribute>>): (r: seq<InfoAttribute>)
    ensures requested.None? ==> r == [CreationDate, ModificationDate]
    ensures requested.Some? ==> r == Filter(requested.value, ValidDirProperties)
    ensures requested.Some? ==> forall a :: a in r <==> a in requested.value && IsTimestamp(a)
    ensures forall a :: a in r ==> IsTimestamp(a)
  {
    if requested.Some? then Filter(requested.value, ValidDirProperties)
    else [CreationDate, ModificationDate]
  }

  /** In restore mode, and for directories in every mode, a requested list
      keeps its timestamp kinds in the requested order and with their
      repetitions, and drops the size and hash kinds wherever they stand. */
  lemma LoadAttributesKeepOrder(xs: seq<InfoAttribute>, ys: seq<InfoAttribute>, zs: seq<InfoAttribute>)
    requires forall a :: a in xs ==> IsTimestamp(a)
    requires forall a :: a in ys ==> !IsTimestamp(a)
    ensures LoadFileAttributes(ConsoleArgs.Restore, Some(xs + ys + zs))
      == xs + LoadFileAttributes(ConsoleArgs.Restore, Some(zs))
    ensures LoadDirAttributes(Some(xs + ys + zs)) == xs + LoadDirAttributes(Some(zs))
  {
    ValidLists();
    FilterKeepsOrder(xs, ys, zs, ValidRestoreFileAttributes);
    FilterKeepsOrder(xs, ys, zs, ValidDirProperties);
  }

  // ---------------------------------------------------------------------------
  // The List walk (`load(dirInfoRecord:recursive:)`)

  /** What `printLoadedInfoRecord(infoRecord:)` reports about a record: its
      kind, the record it names (by name and parent link, from which the
      printed relative path follows) and which attributes it shows. */
  datatype LoadedLine = LoadedLine(isFile: bool, name: string, parent: Option<ParentLink>, shown: Selection) {
    /** The relative path the line prints. */
    function RelativePath(): string {
      JoinComponents(PathComponents(name, parent))
    }
  }

  /** The line for a file: it shows the file selection. */
  function FileLine(name: string, parent: Option<ParentLink>, fileSel: Selection): LoadedLine {
    LoadedLine(true, name, parent, fileSel)
  }

  /** The line for a directory: it shows the timestamps of the directory
      selection and never size or hash. */
  function DirectoryLine(name: string, parent: Option<ParentLink>, dirSel: Selection): LoadedLine {
    LoadedLine(false, name, parent, dirSel.(size := false, hash := false))
  }

  /** The line `printLoadedInfoRecord(infoRecord:)` writes for `r`. */
  function LineOf(r: InfoRecordRef, fileSel: Selection, dirSel: Selection): (line: LoadedLine)
    ensures line.isFile <==> r.RegularFile?
    ensures line.name == r.Name() && line.parent == r.Parent()
    ensures r.RegularFile? ==> line.shown == fileSel
    ensures r.Directory? ==> line.shown == dirSel.(size := false, hash := false)
  {
    if r.RegularFile? then FileLine(r.Name(), r.Parent(), fileSel) else DirectoryLine(r.Name(), r.Parent(), dirSel)
  }

  /** The files of a directory once each points at it. */
  function LinkFiles(fs: seq<RegularFileInfoRecord>, up: Option<ParentLink>): (r: seq<RegularFileInfoRecord>)
    ensures |r| == |fs|
  {
    if fs == [] then [] else LinkFiles(fs[..|fs| - 1], up) + [fs[|fs| - 1].(directory := up)]
  }

  /** Linking changes each file's parent link and nothing else. */
  lemma {:induction false} LinkFilesAt(fs: seq<RegularFileInfoRecord>, up: Option<ParentLink>)
    ensures forall i :: 0 <= i < |fs| ==> LinkFiles(fs, up)[i] == fs[i].(directory := up)
    decreases |fs|
  {
    if fs != [] {
      LinkFilesAt(fs[..|fs| - 1], up);
    }
  }

  /** The tree `d` after the walk, `link` being what its caller stored in its
      `directory` beforehand: every file points at its directory and, when the
      walk is recursive, so does every subdirectory, all the way down. */
  function Linked(d: DirectoryInfoRecord, link: Option<ParentLink>, recursive: bool): (r: DirectoryInfoRecord)
    ensures r.name == d.name && r.directory == link
    ensures r.files.Some? <==> d.files.Some?
    ensures r.directories.Assigned? <==> d.directories.Assigned?
    decreases d, 1, 0
  {
    var up := Some(ParentLink(d.name, link));
    d.(directory := link,
       files := if d.files.Some? then Some(LinkFiles(d.files.value, up)) else None,
       directories :=
         if recursive && d.directories.Assigned? then Assigned(LinkedSubtrees(d, up, |Subtrees(d)|))
         else d.directories)
  }

  /** The first `n` subdirectories of `d`, each linked to `up` by a recursive
      walk. */
  function LinkedSubtrees(d: DirectoryInfoRecord, up: Option<ParentLink>, n: nat): (r: seq<DirectoryInfoRecord>)
    requires n <= |Subtrees(d)|
    ensures |r| == n
    decreases d, 0, n
  {
    if n == 0 then [] else LinkedSubtrees(d, up, n - 1) + [Linked(d.directories.items[n - 1], up, true)]
  }

  /** The `k`-th linked subtree is the `k`-th subtree after its walk. */
  lemma {:induction false} LinkedSubtreeAt(d: DirectoryInfoRecord, up: Option<ParentLink>, n: nat, k: nat)
    requires k < n <= |Subtrees(d)|
    ensures LinkedSubtrees(d, up, n)[k] == Linked(Subtrees(d)[k], up, true)
    decreases n
  {
    if k < n - 1 {
      LinkedSubtreeAt(d, up, n - 1, k);
    }
  }

  /** The lines for the files of a directory, in stored order. */
  function FileLines(fs: seq<RegularFileInfoRecord>, up: Option<ParentLink>, fileSel: Selection): (r: seq<LoadedLine>)
    ensures |r| == |fs|
  {
    if fs == [] then [] else FileLines(fs[..|fs| - 1], up, fileSel) + [FileLine(fs[|fs| - 1].name, up, fileSel)]
  }

  /** The `i`-th file line is the line of the `i`-th file. */
  lemma {:induction false} FileLineAt(fs: seq<RegularFileInfoRecord>, up: Option<ParentLink>, fileSel: Selection, i: nat)
    requires i < |fs|
    ensures FileLines(fs, up, fileSel)[i] == FileLine(fs[i].name, up, fileSel)
    decreases |fs|
  {
    if i < |fs| - 1 {
      FileLineAt(fs[..|fs| - 1], up, fileSel, i);
    }
  }

  /** The lines the walk over `d` reports, in post-order: its subtrees (only
      when recursive), then its files, then `d` itself. */
  function ListOrder(d: DirectoryInfoRecord, link: Option<ParentLink>, recursive: bool, fileSel: Selection, dirSel: Selection)
    : seq<LoadedLine>
    decreases d, 1, 0
  {
    var up := Some(ParentLink(d.name, link));
    (if recursive then SubtreeOrders(d, up, |Subtrees(d)|, fileSel, dirSel) else [])
    + FileLines(Files(d), up, fileSel)
    + [DirectoryLine(d.name, link, dirSel)]
  }

  /** The lines of the recursive walks over the first `n` subdirectories of
      `d`, all linked to `up`. */
  function SubtreeOrders(d: DirectoryInfoRecord, up: Option<ParentLink>, n: nat, fileSel: Selection, dirSel: Selection)
    : seq<LoadedLine>
    requires n <= |Subtrees(d)|
    decreases d, 0, n
  {
    if n == 0 then []
    else
      SubtreeOrders(d, up, n - 1, fileSel, dirSel)
      + ListOrder(d.directories.items[n - 1], up, true, fileSel, dirSel)
  }

  /** The files a walk over `d` visits. */
  function WalkFileCount(d: DirectoryInfoRecord, recursive: bool): nat {
    if recursive then FileCount(d) else |Files(d)|
  }

  /** The directories a walk over `d` visits, `d` included. */
  function WalkDirectoryCount(d: DirectoryInfoRecord, recursive: bool): nat {
    if recursive then DirectoryCount(d) else 1
  }

  /** A walk counts the subtrees' records when recursive, then the
      directory's own files and the directory itself. */
  lemma WalkCountsSplit(d: DirectoryInfoRecord, recursive: bool)
    ensures WalkFileCount(d, recursive) == (if recursive then ForestFileCount(Subtrees(d)) else 0) + |Files(d)|
    ensures WalkDirectoryCount(d, recursive) == (if recursive then ForestDirectoryCount(Subtrees(d)) else 0) + 1
  {
    if recursive {
      CountsOfSubtrees(d, Subtrees(d));
    }
  }

  /** Number of file lines. */
  function FileLineCount(lines: seq<LoadedLine>): nat {
    if lines == [] then 0
    else FileLineCount(lines[..|lines| - 1]) + (if lines[|lines| - 1].isFile then 1 else 0)
  }

  /** Number of directory lines. */
  function DirectoryLineCount(lines: seq<LoadedLine>): nat {
    if lines == [] then 0
    else DirectoryLineCount(lines[..|lines| - 1]) + (if lines[|lines| - 1].isFile then 0 else 1)
  }

  /** The twelve counters of a loader, in declaration order. */
  datatype Counters = Counters(
    loadedFile: nat, loadedDirectory: nat,
    checkedFile: nat, checkedDirectory: nat,
    sameFile: nat, sameDirectory: nat,
    changedFile: nat, changedDirectory: nat,
    missingFile: nat, missingDirectory: nat,
    unknownFile: nat, unknownDirectory: nat)

  class InfoLoader {
    const dirPath: string
    const infoFilePath: string
    const mode: ConsoleArgs.Mode
    const fileAttributes: seq<InfoAttribute>
    const dirAttributes: seq<InfoAttribute>
    /** `loadFileCreationDate` … `loadFileHash`. */
    const fileSelection: Selection
    /** `loadDirCreationDate`, `loadDirModificationDate`, `loadDirAccessDate`. */
    const dirSelection: Selection
    var loadedFileCount: nat
    var loadedDirectoryCount: nat
    var checkedFileCount: nat
    var checkedDirectoryCount: nat
    var sameFileCount: nat
    var sameDirectoryCount: nat
    var changedFileCount: nat
    var changedDirectoryCount: nat
    var missingFileCount: nat
    var missingDirectoryCount: nat
    var unknownFileCount: nat
    var unknownDirectoryCount: nat
    /** The lines reported so far by `printLoadedInfoRecord(infoRecord:)`. */
    var loaded: seq<LoadedLine>

    function Counts(): Counters
      reads this
    {
      Counters(loadedFileCount, loadedDirectoryCount, checkedFileCount, checkedDirectoryCount,
        sameFileCount, sameDirectoryCount, changedFileCount, changedDirectoryCount,
        missingFileCount, missingDirectoryCount, unknownFileCount, unknownDirectoryCount)
    }

    /** The counters other than the two loaded ones. */
    function Comparison(): Counters
      reads this
    {
      Counts().(loadedFile := 0, loadedDirectory := 0)
    }

    constructor (dirPath: string, infoFilePath: string, mode: ConsoleArgs.Mode,
                 fileAttributes: Option<seq<InfoAttribute>>, dirAttributes: Option<seq<InfoAttribute>>)
      ensures this.dirPath == dirPath && this.infoFilePath == infoFilePath && this.mode == mode
      ensures this.fileAttributes == LoadFileAttributes(mode, fileAttributes)
      ensures this.dirAttributes == LoadDirAttributes(dirAttributes)
      ensures fileSelection == SelectionOf(this.fileAttributes)
      ensures dirSelection == SelectionOf(this.dirAttributes)
      ensures !dirSelection.size && !dirSelection.hash
      ensures Counts() == Counters(0, 0, 0, 0, 0, 0, 0, 0, 0, 0, 0, 0)
      ensures loaded == []
    {
      this.dirPath := dirPath;
      this.infoFilePath := infoFilePath;
      this.mode := mode;
      var files := LoadFileAttributes(mode, fileAttributes);
      var dirs := LoadDirAttributes(dirAttributes);
      this.fileAttributes := files;
      this.dirAttributes := dirs;
      fileSelection := SelectionOf(files);
      dirSelection := SelectionOf(dirs);
      loadedFileCount := 0;
      loadedDirectoryCount := 0;
      checkedFileCount := 0;
      checkedDirectoryCount := 0;
      sameFileCount := 0;
      sameDirectoryCount := 0;
      changedFileCount := 0;
      changedDirectoryCount := 0;
      missingFileCount := 0;
      missingDirectoryCount := 0;
      unknownFileCount := 0;
      unknownDirectoryCount := 0;
      loaded := [];
    }

    /** `load(recursive:)`. `infoFileExists` and `dirExists` are what
        `fileExists(atPath:)` answers for the two paths and `document` is the
        content of the info file. The result is the error thrown, if any. */
    method Load(recursive: bool, infoFileExists: bool, document: JsonValue, dirExists: bool)
      returns (err: Option<Failure>)
      modifies this
      ensures !infoFileExists ==> err == Some(Runtime(InfoFileNotExists(infoFilePath))) && unchanged(this)
      ensures infoFileExists && DecodeInfoRecord(document).Err? ==>
        err == Some(Decoding(DecodeInfoRecord(document).error)) && unchanged(this)
      ensures infoFileExists && DecodeInfoRecord(document).Ok? ==>
        var tree := DecodeInfoRecord(document).value.directory;
        && (mode == ConsoleArgs.List ==> ListLoaded(old(loaded), old(Counts()), tree, recursive, err))
        && (mode != ConsoleArgs.List ==> Compared(old(loaded), old(Counts()), dirExists, err))
    {
      if !infoFileExists {
        return Some(Runtime(InfoFileNotExists(infoFilePath)));
      }
      var decoded := DecodeInfoRecord(document);
      if decoded.Err? {
        return Some(Decoding(decoded.error));
      }
      var infoRecord := decoded.value;
      err := LoadTree(recursive, infoRecord.directory, dirExists);
    }

    /** The state after a List-mode `load(recursive:)` of the stored tree
        `tree`, from the lines `before` and the counters `counts`: the walk's
        lines are added and the loaded counters hold what the walk visited. */
    ghost predicate ListLoaded(before: seq<LoadedLine>, counts: Counters, tree: DirectoryInfoRecord, recursive: bool,
                               err: Option<Failure>)
      reads this
    {
      && err == None
      && loaded == before + ListOrder(tree, tree.directory, recursive, fileSelection, dirSelection)
      && Counts() == counts.(loadedFile := WalkFileCount(tree, recursive),
                          loadedDirectory := WalkDirectoryCount(tree, recursive))
    }

    /** The state after a `load(recursive:)` in another mode, from the lines
        `before` and the counters `counts`: without the target directory nothing
        changes; otherwise the comparison counters are reset, except
        `checkedFileCount`, which is left as it was. */
    ghost predicate Compared(before: seq<LoadedLine>, counts: Counters, dirExists: bool, err: Option<Failure>)
      reads this
    {
      if !dirExists then err == Some(Runtime(TargetDirNotExists(dirPath))) && loaded == before && Counts() == counts
      else
        && err == None
        && loaded == before
        && Counts() == Counters(counts.loadedFile, counts.loadedDirectory, counts.checkedFile, 0, 0, 0, 0, 0, 0, 0, 0, 0)
    }

    /** The part of `load(recursive:)` after the info file has been read:
        `tree` is the stored root directory. */
    method LoadTree(recursive: bool, tree: DirectoryInfoRecord, dirExists: bool) returns (err: Option<Failure>)
      modifies this
      ensures mode == ConsoleArgs.List ==> ListLoaded(old(loaded), old(Counts()), tree, recursive, err)
      ensures mode != ConsoleArgs.List ==> Compared(old(loaded), old(Counts()), dirExists, err)
    {
      if mode == ConsoleArgs.List {
        loadedFileCount := 0;
        loadedDirectoryCount := 0;
        var _ := LoadList(tree, tree.directory, recursive);
      } else {
        if !dirExists {
          return Some(Runtime(TargetDirNotExists(dirPath)));
        }
        changedFileCount := 0;
        checkedDirectoryCount := 0;
        changedFileCount := 0;
        changedDirectoryCount := 0;
        sameFileCount := 0;
        sameDirectoryCount := 0;
        missingFileCount := 0;
        missingDirectoryCount := 0;
        unknownFileCount := 0;
        unknownDirectoryCount := 0;
        // The comparison walk `load(dirUrl:dirInfoRecord:recursive:restore:)`
        // has an empty body.
      }
      return None;
    }

    /** `load(dirInfoRecord:recursive:)`. `link` is what the caller has just
        stored in the record's `directory`; the result is the record after the
        walk has set the links below it. */
    method LoadList(dir: DirectoryInfoRecord, link: Option<ParentLink>, recursive: bool)
      returns (linked: DirectoryInfoRecord)
      modifies this
      decreases dir, 2
      ensures linked == Linked(dir, link, recursive)
      ensures loaded == old(loaded) + ListOrder(dir, link, recursive, fileSelection, dirSelection)
      ensures loadedFileCount == old(loadedFileCount) + WalkFileCount(dir, recursive)
      ensures loadedDirectoryCount == old(loadedDirectoryCount) + WalkDirectoryCount(dir, recursive)
      ensures Comparison() == old(Comparison())
    {
      var self := dir.(directory := link);
      var up := Some(LinkTo(self));
      assert up == Some(ParentLink(dir.name, link));
      ghost var subLines: seq<LoadedLine> := [];
      ghost var subFiles, subDirs := 0, 0;
      ghost var fileLines := FileLines(Files(dir), up, fileSelection);
      ghost var own := DirectoryLine(dir.name, link, dirSelection);
      assert ListOrder(dir, link, recursive, fileSelection, dirSelection)
          == (if recursive then SubtreeOrders(dir, up, |Subtrees(dir)|, fileSelection, dirSelection) else [])
             + fileLines + [own];
      var directories := dir.directories;
      if recursive {
        var linkedSubs := LoadSubdirectories(dir, up);
        if dir.directories.Assigned? {
          directories := Assigned(linkedSubs);
        }
        subLines := SubtreeOrders(dir, up, |Subtrees(dir)|, fileSelection, dirSelection);
        subFiles, subDirs := ForestFileCount(Subtrees(dir)), ForestDirectoryCount(Subtrees(dir));
      }
      WalkCountsSplit(dir, recursive);
      assert WalkFileCount(dir, recursive) == subFiles + |Files(dir)|;
      assert WalkDirectoryCount(dir, recursive) == subDirs + 1;
      assert loaded == old(loaded) + subLines;
      assert loadedFileCount == old(loadedFileCount) + subFiles;
      assert loadedDirectoryCount == old(loadedDirectoryCount) + subDirs;
      assert ListOrder(dir, link, recursive, fileSelection, dirSelection) == subLines + fileLines + [own];
      ghost var afterSubs := loaded;
      var linkedFiles := LoadFiles(Files(dir), up);
      assert loaded == afterSubs + fileLines;
      var files := if dir.files.Some? then Some(linkedFiles) else None;
      LinkedOf(dir, link, recursive, files, directories);
      linked := dir.(directory := link, files := files, directories := directories);
      ghost var afterFiles := loaded;
      var _ := PrintLoadedInfoRecord(Directory(linked));
      assert LineOf(Directory(linked), fileSelection, dirSelection) == own;
      assert loaded == afterFiles + [own];
      AppendAssociative(old(loaded), subLines, fileLines);
      AppendAssociative(old(loaded) + subLines, fileLines, [own]);
      AppendAssociative(old(loaded), subLines + fileLines, [own]);
    }

    /** The loop over the subdirectories of `load(dirInfoRecord:recursive:)`
        in a recursive walk: each is linked to `up` and walked in turn. */
    method LoadSubdirectories(dir: DirectoryInfoRecord, up: Option<ParentLink>)
      returns (linkedSubs: seq<DirectoryInfoRecord>)
      modifies this
      decreases dir, 1
      ensures linkedSubs == LinkedSubtrees(dir, up, |Subtrees(dir)|)
      ensures loaded == old(loaded) + SubtreeOrders(dir, up, |Subtrees(dir)|, fileSelection, dirSelection)
      ensures loadedFileCount == old(loadedFileCount) + ForestFileCount(Subtrees(dir))
      ensures loadedDirectoryCount == old(loadedDirectoryCount) + ForestDirectoryCount(Subtrees(dir))
      ensures Comparison() == old(Comparison())
    {
      linkedSubs := [];
      if dir.directories.NotAssigned? {
        return;
      }
      var subs := dir.directories.items;
      for i := 0 to |subs|
        invariant linkedSubs == LinkedSubtrees(dir, up, i)
        invariant loaded == old(loaded) + SubtreeOrders(dir, up, i, fileSelection, dirSelection)
        invariant loadedFileCount == old(loadedFileCount) + ForestFileCount(subs[..i])
        invariant loadedDirectoryCount == old(loadedDirectoryCount) + ForestDirectoryCount(subs[..i])
        invariant Comparison() == old(Comparison())
      {
        var c := LoadSubdirectory(dir, up, i, old(loaded), old(loadedFileCount), old(loadedDirectoryCount));
        assert LinkedSubtrees(dir, up, i + 1) == LinkedSubtrees(dir, up, i) + [c];
        linkedSubs := linkedSubs + [c];
      }
      assert subs[..|subs|] == subs;
    }

    /** One turn of the loop over the subdirectories: the `i`-th one is linked
        to `up` and walked, extending the lines and counts of the turns before. */
    method LoadSubdirectory(dir: DirectoryInfoRecord, up: Option<ParentLink>, i: nat,
                            ghost before: seq<LoadedLine>, ghost files: nat, ghost dirs: nat)
      returns (c: DirectoryInfoRecord)
      requires dir.directories.Assigned? && i < |dir.directories.items|
      requires loaded == before + SubtreeOrders(dir, up, i, fileSelection, dirSelection)
      requires loadedFileCount == files + ForestFileCount(dir.directories.items[..i])
      requires loadedDirectoryCount == dirs + ForestDirectoryCount(dir.directories.items[..i])
      modifies this
      decreases dir, 0
      ensures c == Linked(dir.directories.items[i], up, true)
      ensures loaded == before + SubtreeOrders(dir, up, i + 1, fileSelection, dirSelection)
      ensures loadedFileCount == files + ForestFileCount(dir.directories.items[..i + 1])
      ensures loadedDirectoryCount == dirs + ForestDirectoryCount(dir.directories.items[..i + 1])
      ensures Comparison() == old(Comparison())
    {
      var subs := dir.directories.items;
      ghost var done := SubtreeOrders(dir, up, i, fileSelection, dirSelection);
      ghost var next := ListOrder(subs[i], up, true, fileSelection, dirSelection);
      c := LoadList(subs[i], up, true);
      assert SubtreeOrders(dir, up, i + 1, fileSelection, dirSelection) == done + next;
      AppendAssociative(before, done, next);
      ForestCountsTake(subs, i + 1);
    }

    /** The loop over the files of `load(dirInfoRecord:recursive:)`: each is
        linked to `up` and reported in stored order. */
    method LoadFiles(files: seq<RegularFileInfoRecord>, up: Option<ParentLink>)
      returns (linkedFiles: seq<RegularFileInfoRecord>)
      modifies this
      ensures linkedFiles == LinkFiles(files, up)
      ensures loaded == old(loaded) + FileLines(files, up, fileSelection)
      ensures loadedFileCount == old(loadedFileCount) + |files|
      ensures loadedDirectoryCount == old(loadedDirectoryCount)
      ensures Comparison() == old(Comparison())
    {
      linkedFiles := [];
      for i := 0 to |files|
        invariant linkedFiles == LinkFiles(files[..i], up)
        invariant loaded == old(loaded) + FileLines(files[..i], up, fileSelection)
        invariant loadedFileCount == old(loadedFileCount) + i
        invariant loadedDirectoryCount == old(loadedDirectoryCount)
        invariant Comparison() == old(Comparison())
      {
        var f := files[i].(directory := up);
        linkedFiles := linkedFiles + [f];
        var _ := PrintLoadedInfoRecord(RegularFile(f));
        assert files[..i + 1][..i] == files[..i];
      }
      assert files[..|files|] == files;
    }

    /** `printLoadedInfoRecord(infoRecord:)`: reports the record and counts it
        as a loaded file or directory. `path` is the relative path printed. */
    method PrintLoadedInfoRecord(r: InfoRecordRef) returns (path: string)
      modifies this
      ensures loaded == old(loaded) + [LineOf(r, fileSelection, dirSelection)]
      ensures path == LineOf(r, fileSelection, dirSelection).RelativePath()
      ensures r.RegularFile? ==> Counts() == old(Counts()).(loadedFile := old(loadedFileCount) + 1)
      ensures r.Directory? ==> Counts() == old(Counts()).(loadedDirectory := old(loadedDirectoryCount) + 1)
    {
      var shown := Selection(false, false, false, false, false);
      if r.RegularFile? {
        shown := fileSelection;
        loadedFileCount := loadedFileCount + 1;
      } else {
        shown := Selection(dirSelection.creationDate, dirSelection.modificationDate, dirSelection.accessDate, false, false);
        loadedDirectoryCount := loadedDirectoryCount + 1;
      }
      path := RelativePath(r);
      loaded := loaded + [LoadedLine(r.RegularFile?, r.Name(), r.Parent(), shown)];
    }

    /** The counting part of `printLoadedInfoRecord(url:infoRecord:…)`: a
        changed record counts as changed, any other as the same, for its kind. */
    method PrintComparedInfoRecord(r: InfoRecordRef, isChanged: bool)
      modifies this
      ensures loaded == old(loaded)
      ensures r.RegularFile? && isChanged ==> Counts() == old(Counts()).(changedFile := old(changedFileCount) + 1)
      ensures r.RegularFile? && !isChanged ==> Counts() == old(Counts()).(sameFile := old(sameFileCount) + 1)
      ensures r.Directory? && isChanged ==> Counts() == old(Counts()).(changedDirectory := old(changedDirectoryCount) + 1)
      ensures r.Directory? && !isChanged ==> Counts() == old(Counts()).(sameDirectory := old(sameDirectoryCount) + 1)
    {
      if r.RegularFile? {
        if isChanged {
          changedFileCount := changedFileCount + 1;
        } else {
          sameFileCount := sameFileCount + 1;
        }
      } else {
        if isChanged {
          changedDirectoryCount := changedDirectoryCount + 1;
        } else {
          sameDirectoryCount := sameDirectoryCount + 1;
        }
      }
    }

    /** `printUnknownInfo(url:)`: an entry with no record counts as an unknown
        directory or file according to its URL. */
    method PrintUnknownInfo(url: Urls.Url)
      modifies this
      ensures loaded == old(loaded)
      ensures url.hasDirectoryPath ==> Counts() == old(Counts()).(unknownDirectory := old(unknownDirectoryCount) + 1)
      ensures !url.hasDirectoryPath ==> Counts() == old(Counts()).(unknownFile := old(unknownFileCount) + 1)
    {
      if url.hasDirectoryPath {
        unknownDirectoryCount := unknownDirectoryCount + 1;
      } else {
        unknownFileCount := unknownFileCount + 1;
      }
    }

    /** `printMissingInfoRecords(dirUrl:infoRecords:)`: every record with no
        entry counts as a missing file or directory, by kind. */
    method PrintMissingInfoRecords(dirUrl: Urls.Url, records: seq<InfoRecordRef>)
      modifies this
      ensures loaded == old(loaded)
      ensures Counts() == old(Counts()).(
        missingFile := old(missingFileCount) + FileRecordCount(records),
        missingDirectory := old(missingDirectoryCount) + |records| - FileRecordCount(records))
    {
      for i := 0 to |records|
        invariant loaded == old(loaded)
        invariant Counts() == old(Counts()).(
          missingFile := old(missingFileCount) + FileRecordCount(records[..i]),
          missingDirectory := old(missingDirectoryCount) + i - FileRecordCount(records[..i]))
      {
        assert records[..i + 1][..i] == records[..i];
        if records[i].RegularFile? {
          missingFileCount := missingFileCount + 1;
        } else {
          missingDirectoryCount := missingDirectoryCount + 1;
        }
      }
      assert records[..|records|] == records;
    }
  }

  /** Number of file records in a list of records. */
  function FileRecordCount(records: seq<InfoRecordRef>): (n: nat)
    ensures n <= |records|
  {
    if records == [] then 0
    else FileRecordCount(records[..|records| - 1]) + (if records[|records| - 1].RegularFile? then 1 else 0)
  }

  // ---------------------------------------------------------------------------
  // Properties of the List walk

  /** `Linked` from its parts: the files linked to `d`, and the subdirectories
      each linked and walked when the walk is recursive. */
  lemma LinkedOf(d: DirectoryInfoRecord, link: Option<ParentLink>, recursive: bool,
                 files: Option<seq<RegularFileInfoRecord>>, dirs: Subdirectories)
    requires var up := Some(ParentLink(d.name, link));
      files == if d.files.Some? then Some(LinkFiles(d.files.value, up)) else None
    requires var up := Some(ParentLink(d.name, link));
      if recursive && d.directories.Assigned? then dirs == Assigned(LinkedSubtrees(d, up, |Subtrees(d)|))
      else dirs == d.directories
    ensures Linked(d, link, recursive) == d.(directory := link, files := files, directories := dirs)
  {
  }

  lemma OneDirectoryLine(own: LoadedLine)
    requires !own.isFile
    ensures FileLineCount([own]) == 0 && DirectoryLineCount([own]) == 1
  {
    assert [own][..0] == [];
  }

  /** Taking one more tree adds its counts. */
  lemma ForestCountsTake(s: seq<DirectoryInfoRecord>, n: nat)
    requires 0 < n <= |s|
    ensures ForestFileCount(s[..n]) == ForestFileCount(s[..n - 1]) + FileCount(s[n - 1])
    ensures ForestDirectoryCount(s[..n]) == ForestDirectoryCount(s[..n - 1]) + DirectoryCount(s[n - 1])
  {
    assert s[..n][..n - 1] == s[..n - 1];
  }

  lemma AppendAssociative<T>(a: seq<T>, b: seq<T>, c: seq<T>)
    ensures (a + b) + c == a + (b + c)
  {
  }

  /** The lines of a directory's files are all file lines. */
  lemma {:induction false} FileLinesCounts(fs: seq<RegularFileInfoRecord>, up: Option<ParentLink>, fileSel: Selection)
    ensures FileLineCount(FileLines(fs, up, fileSel)) == |fs|
    ensures DirectoryLineCount(FileLines(fs, up, fileSel)) == 0
    decreases |fs|
  {
    if fs != [] {
      var init := fs[..|fs| - 1];
      FileLinesCounts(init, up, fileSel);
      LineCountsOfAppend(FileLines(init, up, fileSel), [FileLine(fs[|fs| - 1].name, up, fileSel)]);
    }
  }

  lemma {:induction false} LineCountsOfAppend(a: seq<LoadedLine>, b: seq<LoadedLine>)
    ensures FileLineCount(a + b) == FileLineCount(a) + FileLineCount(b)
    ensures DirectoryLineCount(a + b) == DirectoryLineCount(a) + DirectoryLineCount(b)
    decreases |b|
  {
    if b == [] {
      assert a + b == a;
    } else {
      LineCountsOfAppend(a, b[..|b| - 1]);
      assert (a + b)[..|a + b| - 1] == a + b[..|b| - 1];
    }
  }
  /** Every file of a directory points at it and, for a recursive walk, so does
      every subdirectory, all the way down. */
  ghost predicate ParentsLinked(d: DirectoryInfoRecord, recursive: bool)
    decreases d
  {
    && (forall f :: f in Files(d) ==> f.directory == Some(LinkTo(d)))
    && (recursive && d.directories.Assigned? ==>
          forall s :: s in d.directories.items ==> s.directory == Some(LinkTo(d)) && ParentsLinked(s, recursive))
  }

  /** After the walk every visited record points at the directory holding it,
      while the walked directory keeps the link its caller gave it, so the
      root's own link is left as it was. */
  lemma {:induction false} WalkLinksParents(d: DirectoryInfoRecord, link: Option<ParentLink>, recursive: bool)
    ensures Linked(d, link, recursive).name == d.name
    ensures Linked(d, link, recursive).directory == link
    ensures ParentsLinked(Linked(d, link, recursive), recursive)
    decreases d
  {
    var l := Linked(d, link, recursive);
    var up := Some(ParentLink(d.name, link));
    assert Some(LinkTo(l)) == up;
    if d.files.Some? {
      LinkFilesAt(d.files.value, up);
    }
    if recursive && d.directories.Assigned? {
      var ds := d.directories.items;
      var items := l.directories.items;
      forall s | s in items
        ensures s.directory == Some(LinkTo(l)) && ParentsLinked(s, recursive)
      {
        var k :| 0 <= k < |items| && items[k] == s;
        LinkedSubtreeAt(d, up, |ds|, k);
        assert s == Linked(ds[k], up, recursive);
        WalkLinksParents(ds[k], up, recursive);
      }
    }
  }

  /** The links the walk sets are not part of what the info file keeps. */
  lemma {:induction false} WalkKeepsPersistedTree(d: DirectoryInfoRecord, link: Option<ParentLink>, recursive: bool)
    ensures PersistedDirectory(Linked(d, link, recursive)) == PersistedDirectory(d)
    decreases d
  {
    var l := Linked(d, link, recursive);
    var up := Some(ParentLink(d.name, link));
    if d.files.Some? {
      var fs := d.files.value;
      var lfs := l.files.value;
      LinkFilesAt(fs, up);
      assert seq(|lfs|, i requires 0 <= i < |lfs| => PersistedRegularFile(lfs[i]))
          == seq(|fs|, i requires 0 <= i < |fs| => PersistedRegularFile(fs[i]));
    }
    if recursive && d.directories.Assigned? {
      var ds := d.directories.items;
      var lds := l.directories.items;
      forall k | 0 <= k < |ds|
        ensures PersistedDirectory(lds[k]) == PersistedDirectory(ds[k])
      {
        LinkedSubtreeAt(d, up, |ds|, k);
        WalkKeepsPersistedTree(ds[k], up, recursive);
      }
      assert seq(|lds|, i requires 0 <= i < |lds| => PersistedDirectory(lds[i]))
          == seq(|ds|, i requires 0 <= i < |ds| => PersistedDirectory(ds[i]));
    }
  }

  /** A recursive walk reports every file record of the tree once. */
  lemma {:induction false} RecursiveWalkFileCount(d: DirectoryInfoRecord, link: Option<ParentLink>, fileSel: Selection, dirSel: Selection)
    ensures FileLineCount(ListOrder(d, link, true, fileSel, dirSel)) == FileCount(d)
    decreases d, 1, 0
  {
    var up := Some(ParentLink(d.name, link));
    var sub := SubtreeOrders(d, up, |Subtrees(d)|, fileSel, dirSel);
    var files := FileLines(Files(d), up, fileSel);
    var own := DirectoryLine(d.name, link, dirSel);
    assert ListOrder(d, link, true, fileSel, dirSel) == sub + files + [own];
    SubtreeOrdersFileCount(d, up, |Subtrees(d)|, fileSel, dirSel);
    assert Subtrees(d)[..|Subtrees(d)|] == Subtrees(d);
    CountsOfSubtrees(d, Subtrees(d));
    FileLinesCounts(Files(d), up, fileSel);
    LineCountsOfAppend(sub, files);
    LineCountsOfAppend(sub + files, [own]);
    OneDirectoryLine(own);
  }

  lemma {:induction false} SubtreeOrdersFileCount(d: DirectoryInfoRecord, up: Option<ParentLink>, n: nat, fileSel: Selection, dirSel: Selection)
    requires n <= |Subtrees(d)|
    ensures FileLineCount(SubtreeOrders(d, up, n, fileSel, dirSel)) == ForestFileCount(Subtrees(d)[..n])
    decreases d, 0, n
  {
    if n > 0 {
      var subs := Subtrees(d);
      var child := subs[n - 1];
      assert child == d.directories.items[n - 1];
      var before := SubtreeOrders(d, up, n - 1, fileSel, dirSel);
      var walk := ListOrder(child, up, true, fileSel, dirSel);
      assert SubtreeOrders(d, up, n, fileSel, dirSel) == before + walk;
      SubtreeOrdersFileCount(d, up, n - 1, fileSel, dirSel);
      RecursiveWalkFileCount(child, up, fileSel, dirSel);
      LineCountsOfAppend(before, walk);
      ForestCountsTake(subs, n);
    } else {
      assert Subtrees(d)[..0] == [];
    }
  }

  /** A recursive walk reports every directory record of the tree once, the
      root included. */
  lemma {:induction false} RecursiveWalkDirectoryCount(d: DirectoryInfoRecord, link: Option<ParentLink>, fileSel: Selection, dirSel: Selection)
    ensures DirectoryLineCount(ListOrder(d, link, true, fileSel, dirSel)) == DirectoryCount(d)
    decreases d, 1, 0
  {
    var up := Some(ParentLink(d.name, link));
    var sub := SubtreeOrders(d, up, |Subtrees(d)|, fileSel, dirSel);
    var files := FileLines(Files(d), up, fileSel);
    var own := DirectoryLine(d.name, link, dirSel);
    assert ListOrder(d, link, true, fileSel, dirSel) == sub + files + [own];
    SubtreeOrdersDirectoryCount(d, up, |Subtrees(d)|, fileSel, dirSel);
    assert Subtrees(d)[..|Subtrees(d)|] == Subtrees(d);
    CountsOfSubtrees(d, Subtrees(d));
    FileLinesCounts(Files(d), up, fileSel);
    LineCountsOfAppend(sub, files);
    LineCountsOfAppend(sub + files, [own]);
    OneDirectoryLine(own);
  }

  lemma {:induction false} SubtreeOrdersDirectoryCount(d: DirectoryInfoRecord, up: Option<ParentLink>, n: nat, fileSel: Selection, dirSel: Selection)
    requires n <= |Subtrees(d)|
    ensures DirectoryLineCount(SubtreeOrders(d, up, n, fileSel, dirSel)) == ForestDirectoryCount(Subtrees(d)[..n])
    decreases d, 0, n
  {
    if n > 0 {
      var subs := Subtrees(d);
      var child := subs[n - 1];
      assert child == d.directories.items[n - 1];
      var before := SubtreeOrders(d, up, n - 1, fileSel, dirSel);
      var walk := ListOrder(child, up, true, fileSel, dirSel);
      assert SubtreeOrders(d, up, n, fileSel, dirSel) == before + walk;
      SubtreeOrdersDirectoryCount(d, up, n - 1, fileSel, dirSel);
      RecursiveWalkDirectoryCount(child, up, fileSel, dirSel);
      LineCountsOfAppend(before, walk);
      ForestCountsTake(subs, n);
    } else {
      assert Subtrees(d)[..0] == [];
    }
  }

  /** A walk that is not recursive reports the directory's own files and the
      directory itself, and nothing below. */
  lemma NonRecursiveWalkCounts(d: DirectoryInfoRecord, link: Option<ParentLink>, fileSel: Selection, dirSel: Selection)
    ensures FileLineCount(ListOrder(d, link, false, fileSel, dirSel)) == |Files(d)|
    ensures DirectoryLineCount(ListOrder(d, link, false, fileSel, dirSel)) == 1
  {
    var up := Some(ParentLink(d.name, link));
    var files := FileLines(Files(d), up, fileSel);
    var own := DirectoryLine(d.name, link, dirSel);
    assert ListOrder(d, link, false, fileSel, dirSel) == files + [own];
    FileLinesCounts(Files(d), up, fileSel);
    LineCountsOfAppend(files, [own]);
    OneDirectoryLine(own);
  }

  /** Every walk ends with the lines of the walked directory's files, in
      stored order, and then the line of the directory itself. */
  lemma ListOrderEnd(d: DirectoryInfoRecord, link: Option<ParentLink>, recursive: bool, fileSel: Selection, dirSel: Selection)
    ensures var lines := ListOrder(d, link, recursive, fileSel, dirSel);
      && |lines| >= |Files(d)| + 1
      && lines[|lines| - 1 - |Files(d)|..]
         == FileLines(Files(d), Some(ParentLink(d.name, link)), fileSel) + [DirectoryLine(d.name, link, dirSel)]
  {
    var up := Some(ParentLink(d.name, link));
    var sub := if recursive then SubtreeOrders(d, up, |Subtrees(d)|, fileSel, dirSel) else [];
    var tail := FileLines(Files(d), up, fileSel) + [DirectoryLine(d.name, link, dirSel)];
    AppendAssociative(sub, FileLines(Files(d), up, fileSel), [DirectoryLine(d.name, link, dirSel)]);
    assert ListOrder(d, link, recursive, fileSel, dirSel) == sub + tail;
    assert (sub + tail)[|sub|..] == tail;
  }

  /** A file line for the record `name` whose printed relative path is
      `name` itself. */
  predicate IsFileLineShowing(line: LoadedLine, name: string) {
    line.isFile && line.name == name && line.RelativePath() == name
  }

  /** Walking a root record (one with no parent link) ends with the root's
      files in stored order, each printed as its own name, and then the root
      itself, printed with an empty relative path. */
  lemma RootWalkEnd(d: DirectoryInfoRecord, recursive: bool, fileSel: Selection, dirSel: Selection)
    ensures EndsRootWalk(ListOrder(d, None, recursive, fileSel, dirSel), Files(d))
  {
    ListOrderEnd(d, None, recursive, fileSel, dirSel);
    RootLines(ListOrder(d, None, recursive, fileSel, dirSel), Files(d), d.name, fileSel, dirSel);
  }

  /** `lines` end with one line per file of `fs`, each showing the file's
      own name as its path, and then a directory line with an empty path. */
  predicate EndsRootWalk(lines: seq<LoadedLine>, fs: seq<RegularFileInfoRecord>) {
    && |lines| >= |fs| + 1
    && !lines[|lines| - 1].isFile && lines[|lines| - 1].RelativePath() == ""
    && forall i :: 0 <= i < |fs| ==> IsFileLineShowing(lines[|lines| - 1 - |fs| + i], fs[i].name)
  }

  /** The lines ending a root's walk: its files, each shown as its own name,
      then the root, shown with an empty path. */
  lemma RootLines(lines: seq<LoadedLine>, fs: seq<RegularFileInfoRecord>, rootName: string, fileSel: Selection,
                  dirSel: Selection)
    requires |lines| >= |fs| + 1
    requires lines[|lines| - 1 - |fs|..] ==
      FileLines(fs, Some(ParentLink(rootName, None)), fileSel) + [DirectoryLine(rootName, None, dirSel)]
    ensures EndsRootWalk(lines, fs)
  {
    var up := Some(ParentLink(rootName, None));
    var files := FileLines(fs, up, fileSel);
    var tail := lines[|lines| - 1 - |fs|..];
    assert lines[|lines| - 1] == tail[|fs|] == DirectoryLine(rootName, None, dirSel);
    RelativePathOfRoot(rootName);
    forall i | 0 <= i < |fs|
      ensures IsFileLineShowing(lines[|lines| - 1 - |fs| + i], fs[i].name)
    {
      var line := lines[|lines| - 1 - |fs| + i];
      assert line == tail[i] == files[i];
      FileLineAt(fs, up, fileSel, i);
      RelativePathOfRootChild(fs[i].name, rootName);
    }
  }
}
