/** The snapshot tree (Models/FileInfoRecord.swift, DirectoryInfoRecord.swift,
    RegularFileInfoRecord.swift): the two record kinds, the name order used to
    sort children, and the parent-chain walk that rebuilds a record's path. */
module Records {
  import opened Wrappers

  const MinInt64: int := -0x8000_0000_0000_0000
  const MaxInt64: int := 0x7fff_ffff_ffff_ffff

  /** Swift's `Int` on a 64-bit platform. */
  type Int64 = x: int | MinInt64 <= x <= MaxInt64

  /** The `*Interval` fields are `Double`s that nothing in the core computes;
      they are carried as uninterpreted numbers. */
  type Interval = real

  /** The transient back-reference `directory`. Only the parent's name and its own
      parent are ever read through it, so the link is the chain of those pairs.
      A chain of values is finite, which is what makes the walk terminate. */
  datatype ParentLink = ParentLink(name: string, directory: Option<ParentLink>)

  datatype RegularFileInfoRecord = RegularFileInfoRecord(
    name: string,
    directory: Option<ParentLink>,
    creationDateUtc: Option<string>,
    creationDateUtcInterval: Option<Interval>,
    modificationDateUtc: Option<string>,
    modificationDateUtcInterval: Option<Interval>,
    accessDateUtc: Option<string>,
    accessDateUtcInterval: Option<Interval>,
    size: Option<Int64>,
    sha512: Option<string>,
    computeHashFailed: bool)

  datatype DirectoryInfoRecord = DirectoryInfoRecord(
    name: string,
    directory: Option<ParentLink>,
    creationDateUtc: Option<string>,
    creationDateUtcInterval: Option<Interval>,
    modificationDateUtc: Option<string>,
    modificationDateUtcInterval: Option<Interval>,
    accessDateUtc: Option<string>,
    accessDateUtcInterval: Option<Interval>,
    files: Option<seq<RegularFileInfoRecord>>,
    directories: Subdirectories,
    getFilesFailed: bool)

  /** The optional `directories` list (`[DirectoryInfoRecord]?`): nil, or an
      assigned, possibly empty, list. A dedicated type rather than `Option` so
      that recursion over the tree is seen to terminate. */
  datatype Subdirectories = NotAssigned | Assigned(items: seq<DirectoryInfoRecord>)

  /** `RegularFileInfoRecord(name:)`: every other field at its default. */
  function NewRegularFile(name: string): RegularFileInfoRecord {
    RegularFileInfoRecord(name, None, None, None, None, None, None, None, None, None, false)
  }

  /** `DirectoryInfoRecord(name:)`: every other field at its default. */
  function NewDirectory(name: string): DirectoryInfoRecord {
    DirectoryInfoRecord(name, None, None, None, None, None, None, None, None, NotAssigned, false)
  }

  /** A value of the `FileInfoRecord` protocol: one of the two record kinds. */
  datatype InfoRecordRef = RegularFile(file: RegularFileInfoRecord) | Directory(dir: DirectoryInfoRecord) {

    function Name(): string {
      match this
      case RegularFile(f) => f.name
      case Directory(d) => d.name
    }

    function Parent(): Option<ParentLink> {
      match this
      case RegularFile(f) => f.directory
      case Directory(d) => d.directory
    }
  }

  /** The link a child of `d` stores: `child.directory = d`. */
  function LinkTo(d: DirectoryInfoRecord): ParentLink {
    ParentLink(d.name, d.directory)
  }

  // ---------------------------------------------------------------------------
  // Name order

  /** Swift's `String <`, taken as lexicographic order on characters. */
  predicate StringLess(a: string, b: string): (less: bool)
    ensures less ==> a != b
    ensures a < b ==> less
  {
    if |a| == 0 then |b| > 0
    else if |b| == 0 then false
    else if a[0] != b[0] then a[0] < b[0]
    else StringLess(a[1..], b[1..])
  }

  /** `compareByName`: strict less-than on names. */
  predicate CompareByName(l: InfoRecordRef, r: InfoRecordRef): (less: bool)
    ensures less ==> l.Name() != r.Name()
  {
    StringLessIrreflexive(l.Name());
    StringLess(l.Name(), r.Name())
  }

  lemma {:induction false} StringLessIrreflexive(a: string)
    ensures !StringLess(a, a)
  {
    if |a| > 0 {
      StringLessIrreflexive(a[1..]);
    }
  }

  lemma {:induction false} StringLessTransitive(a: string, b: string, c: string)
    requires StringLess(a, b) && StringLess(b, c)
    ensures StringLess(a, c)
  {
    if |a| > 0 && |b| > 0 && |c| > 0 && a[0] == b[0] && b[0] == c[0] {
      StringLessTransitive(a[1..], b[1..], c[1..]);
    }
  }

  lemma {:induction false} StringLessConnected(a: string, b: string)
    requires a != b
    ensures StringLess(a, b) || StringLess(b, a)
  {
    if |a| > 0 && |b| > 0 && a[0] == b[0] {
      assert a == [a[0]] + a[1..] && b == [b[0]] + b[1..];
      StringLessConnected(a[1..], b[1..]);
    }
  }

  /** `compareByName` is a strict order on the records' names, so it is a valid
      `sort(by:)` predicate. */
  lemma CompareByNameIsStrictOrder(x: InfoRecordRef, y: InfoRecordRef, z: InfoRecordRef)
    ensures !CompareByName(x, x)
    ensures CompareByName(x, y) && CompareByName(y, z) ==> CompareByName(x, z)
    ensures CompareByName(x, y) ==> !CompareByName(y, x)
    ensures x.Name() != y.Name() ==> CompareByName(x, y) || CompareByName(y, x)
  {
    StringLessIrreflexive(x.Name());
    if CompareByName(x, y) && CompareByName(y, z) {
      StringLessTransitive(x.Name(), y.Name(), z.Name());
    }
    if CompareByName(x, y) && CompareByName(y, x) {
      StringLessTransitive(x.Name(), y.Name(), x.Name());
    }
    if x.Name() != y.Name() {
      StringLessConnected(x.Name(), y.Name());
    }
  }

  // ---------------------------------------------------------------------------
  // Sorting by name (`sort(by: compareByName)`)

  /** No element is named before an element to its left. */
  ghost predicate SortedBy<T>(s: seq<T>, name: T -> string) {
    forall i, j :: 0 <= i < j < |s| ==> !StringLess(name(s[j]), name(s[i]))
  }

  function InsertByName<T>(x: T, s: seq<T>, name: T -> string): (r: seq<T>)
    requires SortedBy(s, name)
    ensures SortedBy(r, name)
    ensures multiset(r) == multiset(s) + multiset{x}
    ensures |r| == |s| + 1
  {
    if s == [] then [x]
    else if StringLess(name(x), name(s[0])) then
      InsertBeforeSorted(x, s, name);
      [x] + s
    else
      var rest := InsertByName(x, s[1..], name);
      assert s == [s[0]] + s[1..];
      InsertAfterHead(x, s, rest, name);
      [s[0]] + rest
  }

  lemma InsertBeforeSorted<T>(x: T, s: seq<T>, name: T -> string)
    requires SortedBy(s, name) && s != [] && StringLess(name(x), name(s[0]))
    ensures SortedBy([x] + s, name)
  {
    var r := [x] + s;
    forall i, j | 0 <= i < j < |r| ensures !StringLess(name(r[j]), name(r[i])) {
      if i == 0 {
        StringLessIrreflexive(name(s[0]));
        if StringLess(name(s[j - 1]), name(x)) {
          StringLessTransitive(name(s[j - 1]), name(x), name(s[0]));
        }
      }
    }
  }

  lemma InsertAfterHead<T>(x: T, s: seq<T>, rest: seq<T>, name: T -> string)
    requires SortedBy(s, name) && s != [] && !StringLess(name(x), name(s[0]))
    requires SortedBy(rest, name) && multiset(rest) == multiset(s[1..]) + multiset{x}
    ensures SortedBy([s[0]] + rest, name)
  {
    var r := [s[0]] + rest;
    forall j | 1 <= j < |r| ensures !StringLess(name(r[j]), name(s[0])) {
      assert r[j] in multiset(rest);
      if r[j] != x {
        assert r[j] in multiset(s[1..]);
        var k :| 0 <= k < |s[1..]| && s[1..][k] == r[j];
        assert s[k + 1] == r[j];
      }
    }
  }

  /** Insertion sort by name: the result is ordered by name and is a
      permutation of the input. */
  function SortByName<T>(s: seq<T>, name: T -> string): (r: seq<T>)
    ensures SortedBy(r, name)
    ensures multiset(r) == multiset(s)
    ensures |r| == |s|
  {
    if s == [] then []
    else
      var init := s[..|s| - 1];
      assert s == init + [s[|s| - 1]];
      InsertByName(s[|s| - 1], SortByName(init, name), name)
  }

  function FileName(f: RegularFileInfoRecord): string { f.name }

  function DirectoryName(d: DirectoryInfoRecord): string { d.name }

  // ---------------------------------------------------------------------------
  // relativePath (the protocol-extension walk over `directory` links)

  /** Names met walking the parent chain, nearest parent first. */
  function AncestorNames(p: Option<ParentLink>): (r: seq<string>)
    decreases p
  {
    match p
    case None => []
    case Some(link) => [link.name] + AncestorNames(link.directory)
  }

  function Reverse<T>(s: seq<T>): (r: seq<T>)
    ensures |r| == |s|
    ensures forall i :: 0 <= i < |s| ==> r[i] == s[|s| - 1 - i]
  {
    if s == [] then [] else Reverse(s[1..]) + [s[0]]
  }

  /** `FilePath.append` of one component. */
  function AppendComponent(path: string, component: string): string {
    if path == "" then component else path + "/" + component
  }

  /** Appending a component to a non-empty path puts one separator between
      them; appending to the empty path gives the component alone. */
  lemma AppendComponentShape(path: string, component: string)
    ensures var r := AppendComponent(path, component);
      |r| >= |component| && r[|r| - |component|..] == component
    ensures path == "" ==> AppendComponent(path, component) == component
    ensures path != "" ==> var r := AppendComponent(path, component);
      |r| == |path| + 1 + |component| && r[..|path|] == path && r[|path|] == '/'
  {
  }

  /** The path made of `components`, appended one by one to an empty path. */
  function JoinComponents(components: seq<string>): string
    decreases |components|
  {
    if components == [] then ""
    else AppendComponent(JoinComponents(components[..|components| - 1]), components[|components| - 1])
  }

  /** The components of `relativePath`: own name and ancestor names, last
      (topmost) entry removed, reversed. */
  function PathComponents(name: string, directory: Option<ParentLink>): (r: seq<string>)
    ensures |r| == |AncestorNames(directory)|
    ensures directory.Some? ==> r[|r| - 1] == name
  {
    var pathNames := [name] + AncestorNames(directory);
    Reverse(pathNames[..|pathNames| - 1])
  }

  /** `relativePath` as the source computes it: collect names up the chain,
      drop the last, reverse, and append them to an empty path. */
  method RelativePath(r: InfoRecordRef) returns (path: string)
    ensures path == JoinComponents(PathComponents(r.Name(), r.Parent()))
  {
    var pathNames := [r.Name()];
    var parent := r.Parent();
    while parent.Some?
      invariant |pathNames| >= 1
      invariant pathNames + AncestorNames(parent) == [r.Name()] + AncestorNames(r.Parent())
      decreases parent
    {
      pathNames := pathNames + [parent.value.name];
      parent := parent.value.directory;
    }
    assert AncestorNames(parent) == [];
    assert pathNames == [r.Name()] + AncestorNames(r.Parent());
    pathNames := pathNames[..|pathNames| - 1];
    pathNames := Reverse(pathNames);
    assert pathNames == PathComponents(r.Name(), r.Parent());
    path := "";
    for i := 0 to |pathNames|
      invariant path == JoinComponents(pathNames[..i])
    {
      assert pathNames[..i + 1][..i] == pathNames[..i];
      path := AppendComponent(path, pathNames[i]);
    }
    assert pathNames[..|pathNames|] == pathNames;
  }

  /** A record without a parent link has an empty relative path. */
  lemma RelativePathOfRoot(name: string)
    ensures PathComponents(name, None) == []
    ensures JoinComponents(PathComponents(name, None)) == ""
  {
  }

  /** A direct child of the root has its own name as relative path. */
  lemma RelativePathOfRootChild(name: string, rootName: string)
    ensures PathComponents(name, Some(ParentLink(rootName, None))) == [name]
    ensures JoinComponents(PathComponents(name, Some(ParentLink(rootName, None)))) == name
  {
    assert AncestorNames(Some(ParentLink(rootName, None))) == [rootName] + AncestorNames(None);
    var pathNames := [name] + AncestorNames(Some(ParentLink(rootName, None)));
    assert pathNames == [name, rootName];
    assert pathNames[..1] == [name];
  }

  /** In general the components are the ancestors strictly below the topmost
      one, top-down, then the record's own name: the topmost name is dropped. */
  lemma {:induction false} PathComponentsShape(name: string, directory: Option<ParentLink>)
    requires directory.Some?
    ensures var a := AncestorNames(directory);
      |a| >= 1 &&
      PathComponents(name, directory) == Reverse(a[..|a| - 1]) + [name]
  {
    var a := AncestorNames(directory);
    var pathNames := [name] + a;
    assert pathNames[..|pathNames| - 1] == [name] + a[..|a| - 1];
    ReverseAppend([name], a[..|a| - 1]);
  }

  lemma {:induction false} ReverseAppend<T>(xs: seq<T>, ys: seq<T>)
    ensures Reverse(xs + ys) == Reverse(ys) + Reverse(xs)
  {
  }
}
