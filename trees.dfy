/** Counting the records of a snapshot tree, and the facts about sums and
    permutations that relate counts before and after sorting. */
module RecordTrees {
  import opened Records

  function Map<T, U>(s: seq<T>, f: T -> U): (r: seq<U>)
    ensures |r| == |s| && forall i :: 0 <= i < |s| ==> r[i] == f(s[i])
  {
    seq(|s|, i requires 0 <= i < |s| => f(s[i]))
  }

  function Sum(s: seq<nat>): nat {
    if s == [] then 0 else s[0] + Sum(s[1..])
  }

  lemma {:induction false} SumAppend(a: seq<nat>, b: seq<nat>)
    ensures Sum(a + b) == Sum(a) + Sum(b)
  {
    if a == [] {
      assert a + b == b;
    } else {
      assert (a + b)[1..] == a[1..] + b;
      SumAppend(a[1..], b);
    }
  }

  /** Extending a sequence adds the new element's term to the sum. */
  lemma SumMapSnoc<T>(xs: seq<T>, x: T, f: T -> nat)
    ensures Sum(Map(xs + [x], f)) == Sum(Map(xs, f)) + f(x)
  {
    assert Map(xs + [x], f) == Map(xs, f) + [f(x)];
    SumAppend(Map(xs, f), [f(x)]);
  }

  /** Removing the element at `k` keeps the rest of the multiset. */
  lemma RemoveAt<T>(t: seq<T>, k: nat)
    requires k < |t|
    ensures multiset(t[..k] + t[k + 1..]) == multiset(t) - multiset{t[k]}
  {
    assert t == t[..k] + [t[k]] + t[k + 1..];
  }

  /** Taking out the term at `k` takes its value off the sum. */
  lemma {:induction false} SumRemove(t: seq<nat>, k: nat)
    requires k < |t|
    ensures Sum(t) == t[k] + Sum(t[..k] + t[k + 1..])
  {
    if k == 0 {
      assert t[..0] + t[1..] == t[1..];
    } else {
      SumRemove(t[1..], k - 1);
      assert t[..k] + t[k + 1..] == [t[0]] + (t[1..][..k - 1] + t[1..][k..]);
    }
  }

  /** The head of a sequence sits at some index `k` of any permutation of it,
      and the rest of the two sequences are permutations of each other. */
  lemma PermutationHead<T>(s: seq<T>, t: seq<T>) returns (k: nat)
    requires multiset(s) == multiset(t) && s != []
    ensures k < |t| && t[k] == s[0]
    ensures multiset(s[1..]) == multiset(t[..k] + t[k + 1..])
  {
    assert s[0] in multiset(t);
    k :| 0 <= k < |t| && t[k] == s[0];
    assert s == [s[0]] + s[1..];
    RemoveAt(t, k);
  }

  /** A sum does not depend on the order of its terms. */
  lemma {:induction false} SumPermutation(s: seq<nat>, t: seq<nat>)
    requires multiset(s) == multiset(t)
    ensures Sum(s) == Sum(t)
    decreases |s|
  {
    if s == [] {
      assert |t| == |multiset(t)| == 0;
    } else {
      var k := PermutationHead(s, t);
      SumPermutation(s[1..], t[..k] + t[k + 1..]);
      SumRemove(t, k);
    }
  }

  /** Mapping a sequence with one element taken out. */
  lemma MapRemove<T, U>(t: seq<T>, k: nat, f: T -> U)
    requires k < |t|
    ensures multiset(Map(t, f)) == multiset(Map(t[..k] + t[k + 1..], f)) + multiset{f(t[k])}
  {
    var mt := Map(t, f);
    assert Map(t[..k] + t[k + 1..], f) == mt[..k] + mt[k + 1..];
    assert mt == mt[..k] + [mt[k]] + mt[k + 1..];
  }

  /** Mapping a permutation gives a permutation. */
  lemma {:induction false} MapPermutation<T, U>(s: seq<T>, t: seq<T>, f: T -> U)
    requires multiset(s) == multiset(t)
    ensures multiset(Map(s, f)) == multiset(Map(t, f))
    decreases |s|
  {
    if s == [] {
      assert |t| == |multiset(t)| == 0;
    } else {
      var k := PermutationHead(s, t);
      MapPermutation(s[1..], t[..k] + t[k + 1..], f);
      MapRemove(t, k, f);
      assert Map(s, f) == [f(s[0])] + Map(s[1..], f);
    }
  }

  /** The file records of a directory record (none when `files` is nil). */
  function Files(d: DirectoryInfoRecord): seq<RegularFileInfoRecord> {
    if d.files.Some? then d.files.value else []
  }

  /** The subdirectory records of a directory record (none when unassigned). */
  function Subtrees(d: DirectoryInfoRecord): seq<DirectoryInfoRecord> {
    if d.directories.Assigned? then d.directories.items else []
  }

  /** Number of file records in the tree. */
  function FileCount(d: DirectoryInfoRecord): nat
    decreases d, 1
  {
    |Files(d)| + (if d.directories.Assigned? then ForestFileCount(d.directories.items) else 0)
  }

  /** Number of directory records in the tree, the root included. */
  function DirectoryCount(d: DirectoryInfoRecord): nat
    decreases d, 1
  {
    1 + (if d.directories.Assigned? then ForestDirectoryCount(d.directories.items) else 0)
  }

  /** Number of file records in a list of trees. */
  function ForestFileCount(ds: seq<DirectoryInfoRecord>): nat
    decreases ds, 0
  {
    if ds == [] then 0 else ForestFileCount(ds[..|ds| - 1]) + FileCount(ds[|ds| - 1])
  }

  /** Number of directory records in a list of trees. */
  function ForestDirectoryCount(ds: seq<DirectoryInfoRecord>): nat
    decreases ds, 0
  {
    if ds == [] then 0 else ForestDirectoryCount(ds[..|ds| - 1]) + DirectoryCount(ds[|ds| - 1])
  }

  /** Extending a list of trees adds the new tree's counts. */
  lemma ForestCountsSnoc(ds: seq<DirectoryInfoRecord>, d: DirectoryInfoRecord)
    ensures ForestFileCount(ds + [d]) == ForestFileCount(ds) + FileCount(d)
    ensures ForestDirectoryCount(ds + [d]) == ForestDirectoryCount(ds) + DirectoryCount(d)
  {
    assert (ds + [d])[..|ds|] == ds;
  }

  /** The forest counts are the sums of the tree counts. */
  lemma {:induction false} ForestCountsAreSums(ds: seq<DirectoryInfoRecord>)
    ensures ForestFileCount(ds) == Sum(Map(ds, FileCount))
    ensures ForestDirectoryCount(ds) == Sum(Map(ds, DirectoryCount))
    decreases |ds|
  {
    if ds != [] {
      var init := ds[..|ds| - 1];
      ForestCountsAreSums(init);
      assert ds == init + [ds[|ds| - 1]];
      SumMapSnoc(init, ds[|ds| - 1], FileCount);
      SumMapSnoc(init, ds[|ds| - 1], DirectoryCount);
    }
  }

  /** The counts of a tree are its own files plus the counts of its subtrees,
      whichever order the subtrees are in. */
  lemma CountsOfSubtrees(d: DirectoryInfoRecord, ds: seq<DirectoryInfoRecord>)
    requires multiset(ds) == multiset(Subtrees(d))
    ensures FileCount(d) == |Files(d)| + ForestFileCount(ds)
    ensures DirectoryCount(d) == 1 + ForestDirectoryCount(ds)
  {
    var sub := Subtrees(d);
    ForestCountsAreSums(sub);
    MapPermutation(ds, sub, FileCount);
    SumPermutation(Map(ds, FileCount), Map(sub, FileCount));
    MapPermutation(ds, sub, DirectoryCount);
    SumPermutation(Map(ds, DirectoryCount), Map(sub, DirectoryCount));
    ForestCountsAreSums(ds);
  }
}
