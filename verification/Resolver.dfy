/** Dependency resolution: a breadth-first worklist over package names. */
module Resolver {
  /** The direct dependencies of every package that can be resolved. */
  type Registry = map<string, seq<string>>

  /** There is a chain of `k` dependencies from the root to `name`. */
  ghost predicate Walk(rootDeps: seq<string>, reg: Registry, name: string, k: nat)
    decreases k
  {
    if k == 0 then false
    else if k == 1 then name in rootDeps
    else exists m :: Walk(rootDeps, reg, m, k - 1) && m in reg && name in reg[m]
  }

  ghost predicate Reachable(rootDeps: seq<string>, reg: Registry, name: string) {
    exists k: nat :: Walk(rootDeps, reg, name, k)
  }

  datatype Pending = Pending(name: string, requestedBy: string)

  datatype Resolution =
    | Resolved(packages: seq<string>, depEdges: map<string, seq<string>>)
    | Failed(name: string, requestedBy: string)

  predicate Sorted(levels: seq<nat>) {
    forall i, j :: 0 <= i < j < |levels| ==> levels[i] <= levels[j]
  }

  /** The state of the search: what has been resolved and what is waiting, with the
      length of the chain over which each name was found. */
  datatype Search = Search(packages: seq<string>, levels: seq<nat>, queue: seq<Pending>, queued: seq<nat>)

  /** The name was found over a chain of at most `k`. */
  predicate Seen(s: Search, name: string, k: nat) {
    || (exists i :: 0 <= i < |s.packages| && i < |s.levels| && s.packages[i] == name && s.levels[i] <= k)
    || (exists i :: 0 <= i < |s.queue| && i < |s.queued| && s.queue[i].name == name && s.queued[i] <= k)
  }

  predicate AllSeen(s: Search, names: seq<string>, k: nat) {
    forall i :: 0 <= i < |names| ==> Seen(s, names[i], k)
  }

  /** Levels never fall from the first package to the last waiting name, rise by at
      most one within the queue, and are lengths of real chains. */
  ghost predicate Levels(s: Search, rootDeps: seq<string>, reg: Registry) {
    && |s.levels| == |s.packages| && |s.queued| == |s.queue|
    && Sorted(s.levels + s.queued)
    && (forall i :: 0 <= i < |s.queued| ==> s.queued[i] <= s.queued[0] + 1)
    && (forall i :: 0 <= i < |s.packages| ==> s.packages[i] in reg && Walk(rootDeps, reg, s.packages[i], s.levels[i]))
    && (forall i :: 0 <= i < |s.queue| ==> Walk(rootDeps, reg, s.queue[i].name, s.queued[i]))
  }

  /** The direct dependencies of the root and of the first `n` packages have been
      found in time. */
  predicate Closed(s: Search, rootDeps: seq<string>, reg: Registry, n: nat)
    requires n <= |s.packages| && |s.levels| == |s.packages|
  {
    && AllSeen(s, rootDeps, 1)
    && forall i :: 0 <= i < n && s.packages[i] in reg ==> AllSeen(s, reg[s.packages[i]], s.levels[i] + 1)
  }

  predicate Distinct(names: seq<string>) {
    forall i, j :: 0 <= i < j < |names| ==> names[i] != names[j]
  }

  /** No shorter chain leads to the name. */
  ghost predicate Nearest(rootDeps: seq<string>, reg: Registry, name: string, k: nat) {
    Walk(rootDeps, reg, name, k) && forall j: nat :: Walk(rootDeps, reg, name, j) ==> k <= j
  }

  function Pop(s: Search): Search
    requires s.queue != [] && s.queued != []
  {
    s.(queue := s.queue[1..], queued := s.queued[1..])
  }

  lemma SortedParts(s: Search, i: nat, j: nat)
    requires Sorted(s.levels + s.queued) && i < |s.levels| && j < |s.queued|
    ensures s.levels[i] <= s.queued[j]
  {
    assert (s.levels + s.queued)[i] == s.levels[i] && (s.levels + s.queued)[|s.levels| + j] == s.queued[j];
  }

  lemma SortedPop(levels: seq<nat>, queued: seq<nat>)
    requires Sorted(levels + queued) && queued != []
    ensures Sorted(levels + queued[1..]) && Sorted((levels + [queued[0]]) + queued[1..])
  {
    var all, less := levels + queued, levels + queued[1..];
    assert (levels + [queued[0]]) + queued[1..] == all;
    forall i, j | 0 <= i < j < |less| ensures less[i] <= less[j] {
      assert less[i] == all[if i < |levels| then i else i + 1] && less[j] == all[if j < |levels| then j else j + 1];
    }
  }

  lemma LevelsPop(s: Search, rootDeps: seq<string>, reg: Registry)
    requires Levels(s, rootDeps, reg) && s.queue != []
    ensures Levels(Pop(s), rootDeps, reg)
  {
    hide Walk;
    SortedPop(s.levels, s.queued);
    var t := Pop(s);
    forall i | 0 <= i < |t.queued| ensures t.queued[i] <= t.queued[0] + 1 {
      assert (s.levels + s.queued)[|s.levels|] <= (s.levels + s.queued)[|s.levels| + 1];
    }
  }

  /** A waiting name that has been resolved meanwhile can be dropped. */
  lemma SeenPop(s: Search, name: string, k: nat)
    requires |s.levels| == |s.packages| && |s.queued| == |s.queue| && Sorted(s.levels + s.queued)
    requires s.queue != [] && s.queue[0].name in s.packages && Seen(s, name, k)
    ensures Seen(Pop(s), name, k)
  {
    var t := Pop(s);
    if j :| 0 <= j < |s.queue| && s.queue[j].name == name && s.queued[j] <= k {
      if j == 0 {
        var i :| 0 <= i < |s.packages| && s.packages[i] == name;
        SortedParts(s, i, 0);
      } else {
        assert t.queue[j - 1] == s.queue[j] && t.queued[j - 1] == s.queued[j];
      }
    }
  }

  lemma PopKnown(s: Search, rootDeps: seq<string>, reg: Registry)
    requires Levels(s, rootDeps, reg) && Closed(s, rootDeps, reg, |s.packages|)
    requires s.queue != [] && s.queue[0].name in s.packages
    ensures Levels(Pop(s), rootDeps, reg) && Closed(Pop(s), rootDeps, reg, |s.packages|)
  {
    hide Walk, Seen;
    LevelsPop(s, rootDeps, reg);
    forall i | 0 <= i < |rootDeps| ensures Seen(Pop(s), rootDeps[i], 1) { SeenPop(s, rootDeps[i], 1); }
    forall i | 0 <= i < |s.packages| ensures AllSeen(Pop(s), reg[s.packages[i]], s.levels[i] + 1) {
      assert AllSeen(s, reg[s.packages[i]], s.levels[i] + 1);
      forall d | 0 <= d < |reg[s.packages[i]]| ensures Seen(Pop(s), reg[s.packages[i]][d], s.levels[i] + 1) {
        SeenPop(s, reg[s.packages[i]][d], s.levels[i] + 1);
      }
    }
  }

  /** The first waiting name becomes a package. */
  function Take(s: Search): Search
    requires s.queue != [] && s.queued != []
  {
    Search(s.packages + [s.queue[0].name], s.levels + [s.queued[0]], s.queue[1..], s.queued[1..])
  }

  lemma SeenTake(s: Search, name: string, k: nat)
    requires |s.levels| == |s.packages| && |s.queued| == |s.queue| && s.queue != [] && Seen(s, name, k)
    ensures Seen(Take(s), name, k)
  {
    var t := Take(s);
    if i :| 0 <= i < |s.packages| && s.packages[i] == name && s.levels[i] <= k {
      assert t.packages[i] == name && t.levels[i] <= k;
    } else {
      var j :| 0 <= j < |s.queue| && s.queue[j].name == name && s.queued[j] <= k;
      if j == 0 {
        assert t.packages[|s.packages|] == name && t.levels[|s.packages|] <= k;
      } else {
        assert t.queue[j - 1] == s.queue[j] && t.queued[j - 1] == s.queued[j];
      }
    }
  }

  lemma PopNew(s: Search, rootDeps: seq<string>, reg: Registry)
    requires Levels(s, rootDeps, reg) && Closed(s, rootDeps, reg, |s.packages|)
    requires s.queue != [] && s.queue[0].name in reg
    ensures Levels(Take(s), rootDeps, reg) && Closed(Take(s), rootDeps, reg, |s.packages|)
  {
    hide Walk, Seen;
    var t := Take(s);
    LevelsPop(s, rootDeps, reg);
    SortedPop(s.levels, s.queued);
    forall i | 0 <= i < |rootDeps| ensures Seen(t, rootDeps[i], 1) { SeenTake(s, rootDeps[i], 1); }
    forall i | 0 <= i < |s.packages| ensures AllSeen(t, reg[t.packages[i]], t.levels[i] + 1) {
      assert AllSeen(s, reg[s.packages[i]], s.levels[i] + 1);
      forall d | 0 <= d < |reg[s.packages[i]]| ensures Seen(t, reg[s.packages[i]][d], s.levels[i] + 1) {
        SeenTake(s, reg[s.packages[i]][d], s.levels[i] + 1);
      }
    }
  }

  function Push(s: Search, p: Pending, k: nat): Search {
    s.(queue := s.queue + [p], queued := s.queued + [k])
  }

  lemma SeenPush(s: Search, p: Pending, k: nat, name: string, l: nat)
    requires |s.queued| == |s.queue|
    ensures Seen(s, name, l) ==> Seen(Push(s, p, k), name, l)
    ensures Seen(Push(s, p, k), p.name, k)
  {
    var t := Push(s, p, k);
    assert t.queue[|s.queue|] == p && t.queued[|s.queue|] == k;
    if j :| 0 <= j < |s.queue| && s.queue[j].name == name && s.queued[j] <= l {
      assert t.queue[j] == s.queue[j] && t.queued[j] == s.queued[j];
    }
  }

  /** A dependency of the package resolved last goes to the end of the queue. */
  lemma PushLevels(s: Search, rootDeps: seq<string>, reg: Registry, p: Pending)
    requires Levels(s, rootDeps, reg) && s.packages != []
    requires var last := |s.packages| - 1; p.name in reg[s.packages[last]] && Bounded(s)
    ensures Levels(Push(s, p, s.levels[|s.packages| - 1] + 1), rootDeps, reg)
    ensures Bounded(Push(s, p, s.levels[|s.packages| - 1] + 1))
  {
    var last := |s.packages| - 1;
    var k := s.levels[last] + 1;
    var t := Push(s, p, k);
    assert k != 1 by { assert Walk(rootDeps, reg, s.packages[last], s.levels[last]); }
    assert Walk(rootDeps, reg, p.name, k);
    hide Walk;
    var all := s.levels + s.queued;
    assert t.levels + t.queued == all + [k];
    forall i | 0 <= i < |all| ensures all[i] <= k {
      if i < |s.levels| { assert all[i] <= all[last] || i == last; }
    }
    if s.queued != [] { SortedParts(s, last, 0); }
  }

  /** Nothing waits at a level higher than that of the dependencies of the package
      resolved last. */
  predicate Bounded(s: Search)
    requires |s.levels| == |s.packages|
  {
    s.packages != [] && forall i :: 0 <= i < |s.queued| ==> s.queued[i] <= s.levels[|s.packages| - 1] + 1
  }

  lemma ClosedPush(s: Search, rootDeps: seq<string>, reg: Registry, n: nat, p: Pending, k: nat)
    requires n <= |s.packages| && |s.levels| == |s.packages| && |s.queued| == |s.queue| && Closed(s, rootDeps, reg, n)
    ensures Closed(Push(s, p, k), rootDeps, reg, n)
  {
    hide Seen;
    var t := Push(s, p, k);
    forall i | 0 <= i < |rootDeps| ensures Seen(t, rootDeps[i], 1) { SeenPush(s, p, k, rootDeps[i], 1); }
    forall i | 0 <= i < n && s.packages[i] in reg ensures AllSeen(t, reg[s.packages[i]], s.levels[i] + 1) {
      AllSeenPush(s, reg[s.packages[i]], s.levels[i] + 1, p, k);
    }
  }

  lemma AllSeenPush(s: Search, names: seq<string>, l: nat, p: Pending, k: nat)
    requires |s.queued| == |s.queue| && AllSeen(s, names, l)
    ensures AllSeen(Push(s, p, k), names, l)
  {
    hide Seen;
    forall i | 0 <= i < |names| ensures Seen(Push(s, p, k), names[i], l) { SeenPush(s, p, k, names[i], l); }
  }

  /** When nothing waits, every chain ends at a package found over no longer one. */
  lemma {:induction false} WalksEnd(s: Search, rootDeps: seq<string>, reg: Registry, name: string, k: nat)
    requires Levels(s, rootDeps, reg) && Closed(s, rootDeps, reg, |s.packages|) && s.queue == []
    requires Walk(rootDeps, reg, name, k)
    ensures exists i :: 0 <= i < |s.packages| && s.packages[i] == name && s.levels[i] <= k
    decreases k
  {
    if k == 1 {
      var i :| 0 <= i < |rootDeps| && rootDeps[i] == name;
      assert Seen(s, rootDeps[i], 1);
    } else {
      var m :| Walk(rootDeps, reg, m, k - 1) && m in reg && name in reg[m];
      WalksEnd(s, rootDeps, reg, m, k - 1);
      var i :| 0 <= i < |s.packages| && s.packages[i] == m && s.levels[i] <= k - 1;
      assert AllSeen(s, reg[m], s.levels[i] + 1);
      var d :| 0 <= d < |reg[m]| && reg[m][d] == name;
      assert Seen(s, reg[m][d], s.levels[i] + 1);
    }
  }

  lemma AllNearest(s: Search, rootDeps: seq<string>, reg: Registry)
    requires Levels(s, rootDeps, reg) && Closed(s, rootDeps, reg, |s.packages|) && s.queue == [] && Distinct(s.packages)
    ensures forall i :: 0 <= i < |s.packages| ==> Nearest(rootDeps, reg, s.packages[i], s.levels[i])
    ensures forall n :: n in s.packages <==> Reachable(rootDeps, reg, n)
    ensures Sorted(s.levels)
  {
    hide Walk;
    assert s.levels + s.queued == s.levels;
    forall i | 0 <= i < |s.packages| ensures Nearest(rootDeps, reg, s.packages[i], s.levels[i]) {
      forall j: nat | Walk(rootDeps, reg, s.packages[i], j) ensures s.levels[i] <= j {
        WalksEnd(s, rootDeps, reg, s.packages[i], j);
      }
    }
    forall n | Reachable(rootDeps, reg, n) ensures n in s.packages {
      var k: nat :| Walk(rootDeps, reg, n, k);
      WalksEnd(s, rootDeps, reg, n, k);
    }
  }

  /** What the edges say: the dependencies of every package, and of the root. */
  predicate Edges(edges: map<string, seq<string>>, packages: seq<string>, root: string, rootDeps: seq<string>,
                  reg: Registry) {
    && (forall n :: n in packages ==> n in reg && n in edges && edges[n] == reg[n])
    && (root !in packages ==> root in edges && edges[root] == rootDeps)
    && edges.Keys == (set n | n in packages) + {root}
  }

  method ResolveGraph(root: string, rootDeps: seq<string>, reg: Registry)
    returns (r: Resolution, ghost distances: seq<nat>)
    ensures r.Resolved? ==>
      && |distances| == |r.packages| && Sorted(distances) && Distinct(r.packages)
      && (forall i :: 0 <= i < |r.packages| ==> Nearest(rootDeps, reg, r.packages[i], distances[i]))
      && (forall n :: n in r.packages <==> Reachable(rootDeps, reg, n))
      && Edges(r.depEdges, r.packages, root, rootDeps, reg)
    ensures r.Failed? ==> Reachable(rootDeps, reg, r.name) && r.name !in reg
    ensures r.Failed? <==> exists n :: Reachable(rootDeps, reg, n) && n !in reg
  {
    hide *;
    var packages: seq<string> := [];
    var depEdges := map[root := rootDeps];
    var resolved: set<string> := {};
    var queue := QueueAll(rootDeps, root);
    ghost var s := Search([], [], queue, seq(|queue|, i => 1));
    StartSearch(s, rootDeps, reg);
    NoPackages(root, rootDeps, reg);
    while queue != []
      invariant s.packages == packages && s.queue == queue && |s.levels| == |packages| && |s.queued| == |queue|
      invariant Levels(s, rootDeps, reg) && Closed(s, rootDeps, reg, |packages|)
      invariant Recorded(packages, resolved, depEdges, root, rootDeps, reg)
      decreases |reg.Keys - resolved|, |queue|
    {
      InPackages(packages, resolved, depEdges, root, rootDeps, reg, queue[0].name);
      var p := queue[0];
      queue := queue[1..];
      if p.name in resolved {
        PopKnown(s, rootDeps, reg);
        s := PopStep(s);
        continue;
      }
      if p.name !in reg {
        FirstReachable(s, rootDeps, reg);
        return Failed(p.name, p.requestedBy), [];
      }
      PopNew(s, rootDeps, reg);
      Shrinks(reg.Keys, resolved, p.name);
      OneMore(packages, p.name, resolved, depEdges, root, rootDeps, reg);
      s := TakeStep(s, rootDeps, reg);
      packages := packages + [p.name];
      resolved := resolved + {p.name};
      depEdges := depEdges[p.name := reg[p.name]];
      queue, s := PushDependencies(p.name, rootDeps, reg, resolved, queue, s);
    }
    InPackages(packages, resolved, depEdges, root, rootDeps, reg, root);
    AllNearest(s, rootDeps, reg);
    AllResolved(packages, resolved, depEdges, root, rootDeps, reg);
    return Resolved(packages, depEdges), s.levels;
  }

  /** What has been written down about the packages found so far. */
  ghost predicate Recorded(packages: seq<string>, resolved: set<string>, edges: map<string, seq<string>>, root: string,
                           rootDeps: seq<string>, reg: Registry) {
    && (forall n :: n in resolved <==> n in packages) && resolved <= reg.Keys
    && Distinct(packages) && Edges(edges, packages, root, rootDeps, reg)
  }

  lemma PopStep(s: Search) returns (t: Search)
    requires s.queue != [] && |s.queued| == |s.queue|
    ensures t == Pop(s) && t.packages == s.packages && t.levels == s.levels && t.queue == s.queue[1..]
    ensures |t.queued| == |t.queue|
  {
    t := Pop(s);
  }

  lemma TakeStep(s: Search, rootDeps: seq<string>, reg: Registry) returns (t: Search)
    requires Levels(s, rootDeps, reg) && s.queue != []
    ensures |s.queued| == |s.queue| && t == Take(s) && t.packages == s.packages + [s.queue[0].name]
    ensures t.queue == s.queue[1..]
    ensures |t.levels| == |t.packages| && |t.queued| == |t.queue| && Bounded(t)
  {
    t := Take(s);
  }

  lemma InPackages(packages: seq<string>, resolved: set<string>, edges: map<string, seq<string>>, root: string,
                   rootDeps: seq<string>, reg: Registry, name: string)
    requires Recorded(packages, resolved, edges, root, rootDeps, reg)
    ensures name in resolved <==> name in packages
    ensures Distinct(packages)
  {
  }

  method QueueAll(names: seq<string>, requestedBy: string) returns (queue: seq<Pending>)
    ensures |queue| == |names| && forall i :: 0 <= i < |names| ==> queue[i].name == names[i]
  {
    queue := [];
    for i := 0 to |names|
      invariant |queue| == i && forall j :: 0 <= j < i ==> queue[j].name == names[j]
    {
      queue := queue + [Pending(names[i], requestedBy)];
    }
  }

  lemma Shrinks(all: set<string>, some: set<string>, x: string)
    requires x in all && x !in some
    ensures |all - (some + {x})| < |all - some|
  {
    assert all - some == (all - (some + {x})) + {x};
  }

  lemma NoPackages(root: string, rootDeps: seq<string>, reg: Registry)
    ensures Recorded([], {}, map[root := rootDeps], root, rootDeps, reg)
  {
  }

  lemma OneMore(packages: seq<string>, name: string, resolved: set<string>, edges: map<string, seq<string>>,
                root: string, rootDeps: seq<string>, reg: Registry)
    requires Recorded(packages, resolved, edges, root, rootDeps, reg) && name !in resolved && name in reg
    ensures Recorded(packages + [name], resolved + {name}, edges[name := reg[name]], root, rootDeps, reg)
  {
  }

  lemma AllResolved(packages: seq<string>, resolved: set<string>, edges: map<string, seq<string>>, root: string,
                    rootDeps: seq<string>, reg: Registry)
    requires forall n :: n in packages <==> Reachable(rootDeps, reg, n)
    requires Recorded(packages, resolved, edges, root, rootDeps, reg)
    ensures forall n :: Reachable(rootDeps, reg, n) ==> n in reg
    ensures Distinct(packages) && Edges(edges, packages, root, rootDeps, reg)
  {
    hide Reachable, Edges, Distinct;
  }

  lemma FirstReachable(s: Search, rootDeps: seq<string>, reg: Registry)
    requires Levels(s, rootDeps, reg) && s.queue != []
    ensures Reachable(rootDeps, reg, s.queue[0].name)
    ensures |s.queued| == |s.queue|
  {
  }

  lemma StartSearch(s: Search, rootDeps: seq<string>, reg: Registry)
    requires s.packages == [] && s.levels == [] && |s.queue| == |s.queued| == |rootDeps|
    requires forall i :: 0 <= i < |rootDeps| ==> s.queue[i].name == rootDeps[i] && s.queued[i] == 1
    ensures Levels(s, rootDeps, reg) && Closed(s, rootDeps, reg, 0)
  {
    forall i | 0 <= i < |rootDeps| ensures Seen(s, rootDeps[i], 1) { assert s.queue[i].name == rootDeps[i]; }
    forall i | 0 <= i < |s.queue| ensures Walk(rootDeps, reg, s.queue[i].name, 1) {}
  }

  /** Queues the dependencies that have not been resolved yet. */
  method PushDependencies(name: string, rootDeps: seq<string>, reg: Registry, resolved: set<string>,
                          queue: seq<Pending>, ghost s: Search)
      returns (queue': seq<Pending>, ghost s': Search)
    requires name in reg && s.packages != [] && s.packages[|s.packages| - 1] == name && s.queue == queue
    requires forall n :: n in resolved <==> n in s.packages
    requires Levels(s, rootDeps, reg) && Closed(s, rootDeps, reg, |s.packages| - 1)
    requires |s.levels| == |s.packages| && |s.queued| == |s.queue| && Bounded(s)
    ensures s'.packages == s.packages && s'.levels == s.levels && s'.queue == queue' && |s'.queued| == |queue'|
    ensures Levels(s', rootDeps, reg) && Closed(s', rootDeps, reg, |s.packages|)
  {
    hide Walk, Seen, Levels, Closed;
    queue', s' := queue, s;
    ghost var last := |s.packages| - 1;
    ghost var k := s.levels[last] + 1;
    for i := 0 to |reg[name]|
      invariant s'.packages == s.packages && s'.levels == s.levels && s'.queue == queue' && |s'.queued| == |queue'|
      invariant Levels(s', rootDeps, reg) && Closed(s', rootDeps, reg, last) && Bounded(s')
      invariant AllSeen(s', reg[name][..i], k)
    {
      var sub := reg[name][i];
      assert reg[name][..i + 1] == reg[name][..i] + [sub];
      if sub !in resolved {
        ghost var p := Pending(sub, name);
        PushLevels(s', rootDeps, reg, p);
        ClosedPush(s', rootDeps, reg, last, p, k);
        AllSeenPush(s', reg[name][..i], k, p, k);
        SeenPush(s', p, k, sub, k);
        s' := Push(s', p, k);
        queue' := queue' + [Pending(sub, name)];
      } else {
        AlreadySeen(s', rootDeps, reg, sub, k);
      }
    }
    assert reg[name][..|reg[name]|] == reg[name];
    CloseLast(s', rootDeps, reg, last);
  }

  lemma AlreadySeen(s: Search, rootDeps: seq<string>, reg: Registry, name: string, k: nat)
    requires Levels(s, rootDeps, reg) && name in s.packages && k == s.levels[|s.packages| - 1] + 1
    ensures Seen(s, name, k)
  {
    hide Walk;
    var i :| 0 <= i < |s.packages| && s.packages[i] == name;
    var all, last := s.levels + s.queued, |s.packages| - 1;
    assert all[i] == s.levels[i] && all[last] == s.levels[last];
    assert s.levels[i] <= k;
  }

  lemma CloseLast(s: Search, rootDeps: seq<string>, reg: Registry, last: nat)
    requires last + 1 == |s.packages| == |s.levels| && Closed(s, rootDeps, reg, last)
    requires s.packages[last] in reg && AllSeen(s, reg[s.packages[last]], s.levels[last] + 1)
    ensures Closed(s, rootDeps, reg, |s.packages|)
  {
    hide AllSeen;
  }
}
