/** The attribute kinds a snapshot can record (Info/InfoAttribute.swift), the
    valid subsets and the order-preserving filter the saver and loader apply. */
module InfoAttributes {

  datatype InfoAttribute = CreationDate | ModificationDate | AccessDate | Size | Hash

  /** `InfoAttribute.allCases`, in declaration order. */
  const AllAttributes: seq<InfoAttribute> := [CreationDate, ModificationDate, AccessDate, Size, Hash]

  const ValidFileAttributes: seq<InfoAttribute> := [CreationDate, ModificationDate, AccessDate, Size, Hash]

  const ValidRestoreFileAttributes: seq<InfoAttribute> := [CreationDate, ModificationDate, AccessDate]

  const ValidDirProperties: seq<InfoAttribute> := [CreationDate, ModificationDate, AccessDate]

  /** The three timestamp kinds. */
  predicate IsTimestamp(a: InfoAttribute) {
    a == CreationDate || a == ModificationDate || a == AccessDate
  }

  /** The label shown for an attribute. */
  function NameString(a: InfoAttribute): (s: string)
    ensures |s| > 0
  {
    match a
    case CreationDate => "Date created"
    case ModificationDate => "Date modified"
    case AccessDate => "Date accessed"
    case Size => "Size"
    case Hash => "Hash"
  }

  /** `requested.filter { valid.contains($0) }`: keeps order and repetitions. */
  function Filter(requested: seq<InfoAttribute>, valid: seq<InfoAttribute>): (r: seq<InfoAttribute>)
    ensures |r| <= |requested|
    ensures forall a :: a in r <==> a in requested && a in valid
    ensures forall a :: multiset(r)[a] == if a in valid then multiset(requested)[a] else 0
  {
    if requested == [] then []
    else
      var rest := Filter(requested[1..], valid);
      assert requested == [requested[0]] + requested[1..];
      if requested[0] in valid then [requested[0]] + rest else rest
  }

  /** Filtering distributes over concatenation, so it keeps the requested order. */
  lemma {:induction false} FilterAppend(xs: seq<InfoAttribute>, ys: seq<InfoAttribute>, valid: seq<InfoAttribute>)
    ensures Filter(xs + ys, valid) == Filter(xs, valid) + Filter(ys, valid)
  {
    if xs == [] {
      assert xs + ys == ys;
    } else {
      var zs := xs + ys;
      assert zs[0] == xs[0] && zs[1..] == xs[1..] + ys;
      FilterAppend(xs[1..], ys, valid);
    }
  }

  /** Filtering by the full list of kinds keeps a request unchanged. */
  lemma {:induction false} FilterAllValid(requested: seq<InfoAttribute>)
    ensures Filter(requested, ValidFileAttributes) == requested
  {
    if requested != [] {
      FilterAllValid(requested[1..]);
      assert requested[0] in ValidFileAttributes by { AllKindsValid(requested[0]); }
      assert requested == [requested[0]] + requested[1..];
    }
  }

  /** A request whose kinds are all valid passes the filter unchanged, in
      its order and with its repetitions. */
  lemma {:induction false} FilterKeepsValid(requested: seq<InfoAttribute>, valid: seq<InfoAttribute>)
    requires forall a :: a in requested ==> a in valid
    ensures Filter(requested, valid) == requested
  {
    if requested != [] {
      FilterKeepsValid(requested[1..], valid);
      assert requested == [requested[0]] + requested[1..];
    }
  }

  /** A request of which no kind is valid filters to nothing. */
  lemma {:induction false} FilterDropsInvalid(requested: seq<InfoAttribute>, valid: seq<InfoAttribute>)
    requires forall a :: a in requested ==> a !in valid
    ensures Filter(requested, valid) == []
  {
    if requested != [] {
      FilterDropsInvalid(requested[1..], valid);
      assert requested == [requested[0]] + requested[1..];
    }
  }

  /** Valid kinds in front keep their place; invalid ones after them go. */
  lemma FilterKeepsOrder(xs: seq<InfoAttribute>, ys: seq<InfoAttribute>, zs: seq<InfoAttribute>, valid: seq<InfoAttribute>)
    requires forall a :: a in xs ==> a in valid
    requires forall a :: a in ys ==> a !in valid
    ensures Filter(xs + ys + zs, valid) == xs + Filter(zs, valid)
  {
    var front := xs + ys;
    FilterAppend(front, zs, valid);
    FilterAppend(xs, ys, valid);
    FilterKeepsValid(xs, valid);
    FilterDropsInvalid(ys, valid);
    assert xs + [] == xs;
  }

  /** The facts the saver and loader rely on about the constant lists. */
  lemma ValidLists()
    ensures |AllAttributes| == 5
    ensures forall a :: a in AllAttributes && a in ValidFileAttributes
    ensures AllAttributes == ValidFileAttributes
    ensures forall a :: a in ValidRestoreFileAttributes <==> IsTimestamp(a)
    ensures forall a :: a in ValidDirProperties <==> IsTimestamp(a)
    ensures Size !in ValidDirProperties && Hash !in ValidDirProperties
    ensures Size !in ValidRestoreFileAttributes && Hash !in ValidRestoreFileAttributes
  {
    forall a ensures a in AllAttributes && a in ValidFileAttributes {
      AllKindsValid(a);
    }
  }

  /** Every kind is a valid file attribute. */
  lemma AllKindsValid(a: InfoAttribute)
    ensures a in AllAttributes && a in ValidFileAttributes
  {
    match a
    case CreationDate => assert ValidFileAttributes[0] == a;
    case ModificationDate => assert ValidFileAttributes[1] == a;
    case AccessDate => assert ValidFileAttributes[2] == a;
    case Size => assert ValidFileAttributes[3] == a;
    case Hash => assert ValidFileAttributes[4] == a;
  }

  /** Distinct kinds have distinct labels. */
  lemma NameStringInjective(a: InfoAttribute, b: InfoAttribute)
    ensures NameString(a) == NameString(b) ==> a == b
  {
    if a != b {
      assert NameString(a)[..4] != NameString(b)[..4] || NameString(a) != NameString(b);
    }
  }

  /** Which attributes are handled for one kind of record: the flags the saver
      (`saveFileCreationDate` …) and the loader (`loadFileCreationDate` …)
      derive from their attribute lists with `contains`. */
  datatype Selection = Selection(creationDate: bool, modificationDate: bool, accessDate: bool, size: bool, hash: bool)

  function SelectionOf(attributes: seq<InfoAttribute>): (s: Selection)
    ensures s.creationDate <==> CreationDate in attributes
    ensures s.modificationDate <==> ModificationDate in attributes
    ensures s.accessDate <==> AccessDate in attributes
    ensures s.size <==> Size in attributes
    ensures s.hash <==> Hash in attributes
  {
    Selection(CreationDate in attributes, ModificationDate in attributes, AccessDate in attributes,
      Size in attributes, Hash in attributes)
  }
}
