/** The checksum of a directory: which files are found, in which order they are hashed,
    and that it does not depend on the order in which directories list their entries. */
module SourceTree {
  import opened Sha256Standard
  import opened Sha256

  /** An entry of a directory. What a regular file holds arrives in pieces. */
  datatype Entry =
    | Regular(name: Bytes, pieces: seq<Bytes>)
    | Directory(name: Bytes, entries: seq<Entry>)
    | SymbolicLink(name: Bytes)
    | Special(name: Bytes)

  /** A file with the parts of its path below the root. */
  datatype Found = Found(path: seq<Bytes>, pieces: seq<Bytes>)

  datatype Checksum = Checksum(text: string) | LinkRefused

  function Ascii(s: string): Bytes {
    seq(|s|, i requires 0 <= i < |s| => s[i] as int % 256)
  }

  predicate Skipped(name: Bytes) {
    name == Ascii("target") || name == Ascii(".git") || name == Ascii("Rexy.lock") || name == Ascii(".rxy_extracted")
  }

  // ---- what is found ----

  function Walk(dir: seq<Bytes>, entries: seq<Entry>): seq<Found>
    decreases entries, 0
  {
    if entries == [] then [] else Visit(dir, entries[0]) + Walk(dir, entries[1..])
  }

  function Visit(dir: seq<Bytes>, e: Entry): seq<Found>
    decreases e, 1
  {
    if Skipped(e.name) then [] else
    match e
    case Regular(name, pieces) => [Found(dir + [name], pieces)]
    case Directory(name, entries) => Walk(dir + [name], entries)
    case _ => []
  }

  predicate HasLink(entries: seq<Entry>)
    decreases entries, 0
  {
    entries != [] && (IsLink(entries[0]) || HasLink(entries[1..]))
  }

  predicate IsLink(e: Entry)
    decreases e, 1
  {
    !Skipped(e.name) && (e.SymbolicLink? || (e.Directory? && HasLink(e.entries)))
  }

  // ---- order ----

  predicate NameBefore(a: Bytes, b: Bytes) {
    if b == [] then false
    else if a == [] then true
    else a[0] < b[0] || (a[0] == b[0] && NameBefore(a[1..], b[1..]))
  }

  /** Paths are compared part by part. */
  predicate PathBefore(p: seq<Bytes>, q: seq<Bytes>) {
    if q == [] then false
    else if p == [] then true
    else NameBefore(p[0], q[0]) || (p[0] == q[0] && PathBefore(p[1..], q[1..]))
  }

  lemma {:induction false} NameOrder(a: Bytes, b: Bytes, c: Bytes)
    ensures !NameBefore(a, a) && (NameBefore(a, b) || NameBefore(b, a) || a == b)
    ensures NameBefore(a, b) && NameBefore(b, c) ==> NameBefore(a, c)
    decreases |a| + |b| + |c|
  {
    if a != [] && b != [] && a[0] == b[0] && a[1..] == b[1..] { assert a == [a[0]] + a[1..] && b == [b[0]] + b[1..]; }
    if a != [] || b != [] || c != [] {
      NameOrder(if a == [] then a else a[1..], if b == [] then b else b[1..], if c == [] then c else c[1..]);
    }
  }

  lemma {:induction false} PathOrder(p: seq<Bytes>, q: seq<Bytes>, r: seq<Bytes>)
    ensures !PathBefore(p, p) && (PathBefore(p, q) || PathBefore(q, p) || p == q)
    ensures PathBefore(p, q) && PathBefore(q, r) ==> PathBefore(p, r)
    decreases |p| + |q| + |r|
  {
    hide NameBefore;
    if p != [] && q != [] && r != [] { NameOrder(p[0], q[0], r[0]); }
    if p != [] && q != [] {
      NameOrder(p[0], q[0], p[0]);
      if p[0] == q[0] && p[1..] == q[1..] { assert p == [p[0]] + p[1..] && q == [q[0]] + q[1..]; }
    } else if p != [] {
      NameOrder(p[0], p[0], p[0]);
    }
    if p != [] || q != [] || r != [] {
      PathOrder(if p == [] then p else p[1..], if q == [] then q else q[1..], if r == [] then r else r[1..]);
    }
  }

  predicate Sorted(list: seq<Found>) {
    forall i, j :: 0 <= i < j < |list| ==> !PathBefore(list[j].path, list[i].path)
  }

  function Insert(f: Found, list: seq<Found>): seq<Found> {
    if list == [] || PathBefore(f.path, list[0].path) then [f] + list else [list[0]] + Insert(f, list[1..])
  }

  function Sort(list: seq<Found>): seq<Found> {
    if list == [] then [] else Insert(list[|list| - 1], Sort(list[..|list| - 1]))
  }

  lemma {:induction false} InsertSorts(f: Found, list: seq<Found>)
    requires Sorted(list)
    ensures Sorted(Insert(f, list)) && multiset(Insert(f, list)) == multiset(list) + multiset{f}
    decreases |list|
  {
    hide PathBefore, Sorted;
    if list == [] || PathBefore(f.path, list[0].path) {
      SortedInFront(f, list);
    } else {
      TailSorted(list);
      InsertSorts(f, list[1..]);
      assert list == [list[0]] + list[1..];
      SortedBehind(f, list, Insert(f, list[1..]));
    }
  }

  lemma TailSorted(list: seq<Found>)
    requires Sorted(list) && list != []
    ensures Sorted(list[1..])
  {
    hide PathBefore;
  }

  lemma SortedInFront(f: Found, list: seq<Found>)
    requires Sorted(list) && (list == [] || PathBefore(f.path, list[0].path))
    ensures Sorted([f] + list)
  {
    hide PathBefore;
    forall j | 0 <= j < |list| ensures !PathBefore(list[j].path, f.path) {
      PathOrder(list[j].path, f.path, list[0].path);
      PathOrder(f.path, list[0].path, f.path);
    }
  }

  lemma SortedBehind(f: Found, list: seq<Found>, rest: seq<Found>)
    requires Sorted(list) && list != [] && !PathBefore(f.path, list[0].path)
    requires Sorted(rest) && multiset(rest) == multiset(list[1..]) + multiset{f}
    ensures Sorted([list[0]] + rest)
  {
    hide PathBefore;
    forall j | 0 <= j < |rest| ensures !PathBefore(rest[j].path, list[0].path) {
      assert rest[j] in multiset(rest);
      if rest[j] != f { assert rest[j] in list[1..]; }
    }
  }

  /** Sorting arranges the same files by their paths. */
  lemma {:induction false} SortSorts(list: seq<Found>)
    ensures Sorted(Sort(list)) && multiset(Sort(list)) == multiset(list)
    decreases |list|
  {
    if list != [] {
      var k := |list| - 1;
      SortSorts(list[..k]);
      InsertSorts(list[k], Sort(list[..k]));
      assert list == list[..k] + [list[k]];
    }
  }

  predicate DistinctPaths(list: seq<Found>) {
    forall i, j :: 0 <= i < j < |list| ==> list[i].path != list[j].path
  }

  lemma FirstBefore(list: seq<Found>, f: Found)
    requires Sorted(list) && DistinctPaths(list) && f in list
    ensures f == list[0] || PathBefore(list[0].path, f.path)
  {
    hide PathBefore;
    var i :| 0 <= i < |list| && list[i] == f;
    PathOrder(list[0].path, f.path, f.path);
  }

  /** There is one way to arrange files with distinct paths. */
  lemma {:induction false} SortedOnce(a: seq<Found>, b: seq<Found>)
    requires Sorted(a) && Sorted(b) && multiset(a) == multiset(b) && DistinctPaths(a) && DistinctPaths(b)
    ensures a == b
    decreases |a|
  {
    hide PathBefore;
    assert |a| == |multiset(a)| == |multiset(b)| == |b|;
    if a != [] {
      var x, y := a[0], b[0];
      assert x in multiset(b) && y in multiset(a);
      FirstBefore(b, x);
      FirstBefore(a, y);
      PathOrder(x.path, y.path, x.path);
      assert x == y;
      TailSorted(a);
      TailSorted(b);
      TailCounts(a);
      TailCounts(b);
      SortedOnce(a[1..], b[1..]);
    }
  }

  lemma TailCounts(a: seq<Found>)
    requires a != []
    ensures multiset(a[1..]) == multiset(a) - multiset{a[0]} && a == [a[0]] + a[1..]
  {
    assert a == [a[0]] + a[1..];
  }

  // ---- listings in another order ----

  predicate UniqueNames(entries: seq<Entry>)
    decreases entries, 0
  {
    entries == [] ||
    ((forall i :: 0 < i < |entries| ==> entries[i].name != entries[0].name) && Unique(entries[0])
     && UniqueNames(entries[1..]))
  }

  predicate Unique(e: Entry)
    decreases e, 1
  {
    e.Directory? ==> UniqueNames(e.entries)
  }

  /** The files below a directory have distinct paths, which begin with its own. */
  lemma {:induction false} WalkDistinct(dir: seq<Bytes>, entries: seq<Entry>)
    requires UniqueNames(entries)
    ensures DistinctPaths(Walk(dir, entries))
    ensures forall f :: f in Walk(dir, entries) ==>
      |f.path| > |dir| && f.path[..|dir|] == dir && exists i :: 0 <= i < |entries| && entries[i].name == f.path[|dir|]
    decreases entries, 0
  {
    if entries != [] {
      var a, b := Visit(dir, entries[0]), Walk(dir, entries[1..]);
      VisitDistinct(dir, entries[0]);
      WalkDistinct(dir, entries[1..]);
      forall f | f in b
        ensures f.path[|dir|] != entries[0].name && exists i :: 0 <= i < |entries| && entries[i].name == f.path[|dir|]
      {
        var i :| 0 <= i < |entries[1..]| && entries[1..][i].name == f.path[|dir|];
        assert entries[i + 1].name == f.path[|dir|];
      }
      forall i, j | 0 <= i < |a| && 0 <= j < |b| ensures a[i].path != b[j].path {
        assert a[i] in a && b[j] in b;
      }
    }
  }

  lemma VisitDistinct(dir: seq<Bytes>, e: Entry)
    requires Unique(e)
    ensures DistinctPaths(Visit(dir, e))
    ensures forall f :: f in Visit(dir, e) ==>
      |f.path| > |dir| && f.path[..|dir|] == dir && f.path[|dir|] == e.name
    decreases e, 1
  {
    if e.Directory? && !Skipped(e.name) {
      var inner := dir + [e.name];
      WalkDistinct(inner, e.entries);
      forall f | f in Visit(dir, e) ensures f.path[..|dir|] == dir && f.path[|dir|] == e.name {
        assert f.path[..|inner|] == inner;
        assert f.path[..|dir|] == inner[..|dir|] && f.path[|dir|] == inner[|dir|];
      }
    }
  }

  lemma {:induction false} SameFiles(a: seq<Found>, b: seq<Found>)
    requires DistinctPaths(a) && DistinctPaths(b) && forall f :: f in a <==> f in b
    ensures multiset(a) == multiset(b)
  {
    OnceEach(a);
    OnceEach(b);
    forall f ensures multiset(a)[f] == multiset(b)[f] {
      if f in a { assert f in b; }
    }
  }

  lemma {:induction false} OnceEach(a: seq<Found>)
    requires DistinctPaths(a)
    ensures forall f :: f in a ==> multiset(a)[f] == 1
    decreases |a|
  {
    if a != [] {
      OnceEach(a[1..]);
      assert a == [a[0]] + a[1..];
      assert a[0] !in a[1..];
    }
  }

  /** The text of a path. */
  function Joined(path: seq<Bytes>): Bytes {
    if path == [] then [] else if |path| == 1 then path[0] else path[0] + (Ascii("/") + Joined(path[1..]))
  }

  function Files(list: seq<Found>): (files: seq<File>)
    ensures |files| == |list|
  {
    seq(|list|, i requires 0 <= i < |list| => File(Joined(list[i].path), list[i].pieces))
  }

  /** What is hashed. */
  function Hashed(entries: seq<Entry>): Bytes {
    TreeBytes(Files(Sort(Walk([], entries))))
  }

  /** Two listings with the same files hash the same bytes, however their directories are
      ordered. */
  lemma OrderIsLost(a: seq<Entry>, b: seq<Entry>)
    requires UniqueNames(a) && UniqueNames(b) && forall f :: f in Walk([], a) <==> f in Walk([], b)
    ensures Hashed(a) == Hashed(b)
  {
    var x, y := Walk([], a), Walk([], b);
    WalkDistinct([], a);
    WalkDistinct([], b);
    SameFiles(x, y);
    SortSorts(x);
    SortSorts(y);
    StillDistinct(x, Sort(x));
    StillDistinct(y, Sort(y));
    SortedOnce(Sort(x), Sort(y));
  }

  lemma StillDistinct(a: seq<Found>, b: seq<Found>)
    requires DistinctPaths(a) && multiset(a) == multiset(b)
    ensures DistinctPaths(b)
  {
    OnceEach(a);
    forall i, j | 0 <= i < j < |b| ensures b[i].path != b[j].path {
      assert b[i] in multiset(a) && b[j] in multiset(a);
      var k :| 0 <= k < |a| && a[k] == b[i];
      var l :| 0 <= l < |a| && a[l] == b[j];
      Counted(b, i, j);
    }
  }

  lemma Counted(b: seq<Found>, i: nat, j: nat)
    requires i < j < |b|
    ensures multiset(b)[b[i]] == 1 ==> b[i] != b[j]
  {
    var rest := b[..j] + b[j + 1..];
    assert b == b[..j] + [b[j]] + b[j + 1..];
    assert multiset(b) == multiset(rest) + multiset{b[j]};
    assert rest[i] == b[i] && multiset(rest)[rest[i]] >= 1;
  }

  // ---- the walk and the sort ----

  method SortFiles(list: seq<Found>) returns (sorted: seq<Found>)
    ensures sorted == Sort(list)
  {
    sorted := [];
    for i := 0 to |list|
      invariant sorted == Sort(list[..i])
    {
      assert list[..i + 1][..i] == list[..i];
      sorted := InsertFile(list[i], sorted);
    }
    assert list[..|list|] == list;
  }

  method InsertFile(f: Found, list: seq<Found>) returns (r: seq<Found>)
    ensures r == Insert(f, list)
  {
    hide PathBefore, Insert;
    var k := 0;
    assert list[..0] == [] && list[0..] == list;
    while k < |list| && !PathBefore(f.path, list[k].path)
      invariant 0 <= k <= |list| && list[..k] + Insert(f, list[k..]) == Insert(f, list)
    {
      InsertNext(f, list, k);
      k := k + 1;
    }
    InsertHere(f, list[k..]);
    assert list[..k] + ([f] + list[k..]) == list[..k] + [f] + list[k..];
    return list[..k] + [f] + list[k..];
  }

  lemma InsertHere(f: Found, list: seq<Found>)
    requires list == [] || PathBefore(f.path, list[0].path)
    ensures Insert(f, list) == [f] + list
  {
  }

  lemma InsertNext(f: Found, list: seq<Found>, k: nat)
    requires k < |list| && !PathBefore(f.path, list[k].path)
    ensures list[..k] + Insert(f, list[k..]) == list[..k + 1] + Insert(f, list[k + 1..])
  {
    hide PathBefore;
    var tail := list[k..];
    assert tail[0] == list[k] && tail[1..] == list[k + 1..] && list[..k + 1] == list[..k] + [list[k]];
    assert Insert(f, tail) == [list[k]] + Insert(f, list[k + 1..]);
  }

  /** Visits a directory; a symbolic link ends the walk. */
  method Collect(dir: seq<Bytes>, entries: seq<Entry>) returns (files: seq<Found>, refused: bool)
    ensures refused <==> HasLink(entries)
    ensures !refused ==> files == Walk(dir, entries)
    decreases entries
  {
    files, refused := [], false;
    assert entries[0..] == entries;
    for i := 0 to |entries|
      invariant HasLink(entries) <==> HasLink(entries[i..])
      invariant files + Walk(dir, entries[i..]) == Walk(dir, entries)
    {
      var e := entries[i];
      assert entries[i..][1..] == entries[i + 1..] && entries[i..][0] == e;
      if Skipped(e.name) {
        continue;
      }
      if e.SymbolicLink? { return [], true; }
      if e.Regular? { files := files + [Found(dir + [e.name], e.pieces)]; }
      if e.Directory? {
        var inner, refusedBelow := Collect(dir + [e.name], e.entries);
        if refusedBelow { return [], true; }
        files := files + inner;
      }
    }
    assert entries[|entries|..] == [];
  }

  /** The checksum of a directory is that of its files in the order of their paths, and
      there is none if a symbolic link is among them. What is no directory counts as
      empty. */
  method Sha256DirTree(isDirectory: bool, entries: seq<Entry>) returns (r: Checksum)
    requires 8 * |Hashed(entries)| < TWO64
    ensures r == if !isDirectory then Checksum("sha256:" + Hex(Digest([])))
                 else if HasLink(entries) then LinkRefused
                 else Checksum("sha256:" + Hex(Digest(Hashed(entries))))
  {
    hide Digest, Hex, HasLink, Walk, Sort;
    if !isDirectory {
      var s := Sha256Hex([]);
      return Checksum(s);
    }
    var files, refused := Collect([], entries);
    if refused { return LinkRefused; }
    files := SortFiles(files);
    var s := HashFiles(Files(files));
    return Checksum(s);
  }
}
