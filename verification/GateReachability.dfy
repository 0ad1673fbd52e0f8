/**
 Which gates something runs (scripts/check-gate-integrity.py, `reachability`): from the Makefiles and
 workflows a person or a runner enters, through the scripts they invoke by name.

 A file is named by its place in the scan. Call sites are an input: the scan that finds them in the
 text is not modelled.
 */
module GateReachability {
  import opened Wrappers

  /** One invocation: the last segment of the path it names, and whether it names captured evidence. */
  datatype Call = Call(base: string, evidence: bool, token: string)

  /** `calls` is None for a file of no kind that can invoke anything. */
  datatype File = File(base: string, calls: Option<seq<Call>>, root: bool)

  predicate IsRoot(files: seq<File>, p: nat) {
    p < |files| && files[p].root && files[p].calls.Some?
  }

  function Calls(files: seq<File>, p: nat): seq<Call> {
    if p < |files| && files[p].calls.Some? then files[p].calls.value else []
  }

  /** p invokes q: by name, so every file of that name is meant. */
  predicate Invokes(files: seq<File>, p: nat, q: nat) {
    q < |files| && exists c <- Calls(files, p) :: c.base == files[q].base
  }

  ghost predicate IsPath(files: seq<File>, path: seq<nat>) {
    && path != []
    && IsRoot(files, path[0])
    && forall i :: 0 <= i < |path| - 1 ==> Invokes(files, path[i], path[i + 1])
  }

  /** Some chain of invocations from a root ends at p. */
  ghost predicate Reachable(files: seq<File>, p: nat) {
    exists path :: IsPath(files, path) && path[|path| - 1] == p
  }

  ghost predicate Closed(files: seq<File>, s: set<nat>) {
    && (forall p :: IsRoot(files, p) ==> p in s)
    && (forall p, q :: p in s && Invokes(files, p, q) ==> q in s)
  }

  lemma RootIsReachable(files: seq<File>, p: nat)
    requires IsRoot(files, p)
    ensures Reachable(files, p)
  {
    assert IsPath(files, [p]);
  }

  lemma InvokedIsReachable(files: seq<File>, p: nat, q: nat)
    requires Reachable(files, p) && Invokes(files, p, q)
    ensures Reachable(files, q)
  {
    var path :| IsPath(files, path) && path[|path| - 1] == p;
    var longer := path + [q];
    assert IsPath(files, longer);
  }

  lemma {:induction false} PathStaysInside(files: seq<File>, s: set<nat>, path: seq<nat>)
    requires Closed(files, s) && IsPath(files, path)
    ensures path[|path| - 1] in s
    decreases |path|
  {
    if |path| > 1 {
      var shorter := path[..|path| - 1];
      PathStaysInside(files, s, shorter);
      assert Invokes(files, path[|path| - 2], path[|path| - 1]);
    }
  }

  /** The reachable files are the least set that holds the roots and what its members invoke. */
  lemma ReachableIsLeast(files: seq<File>, s: set<nat>, p: nat)
    requires Closed(files, s) && Reachable(files, p)
    ensures p in s
  {
    var path :| IsPath(files, path) && path[|path| - 1] == p;
    PathStaysInside(files, s, path);
  }

  // ---- The files of a name ----

  function Named(files: seq<File>, base: string, n: nat): seq<nat>
    requires n <= |files|
  {
    if n == 0 then []
    else Named(files, base, n - 1) + if files[n - 1].base == base then [n - 1] else []
  }

  lemma {:induction false} NamedIff(files: seq<File>, base: string, n: nat, q: nat)
    requires n <= |files|
    ensures q in Named(files, base, n) <==> q < n && files[q].base == base
  {
    if n > 0 {
      NamedIff(files, base, n - 1, q);
    }
  }

  function Lookup(byBase: map<string, seq<nat>>, base: string): seq<nat> {
    if base in byBase then byBase[base] else []
  }

  function IndexOf(files: seq<File>, n: nat): map<string, seq<nat>>
    requires n <= |files|
  {
    if n == 0 then map[]
    else
      var before, base := IndexOf(files, n - 1), files[n - 1].base;
      before[base := Lookup(before, base) + [n - 1]]
  }

  lemma {:induction false} IndexIs(files: seq<File>, n: nat, base: string)
    requires n <= |files|
    ensures Lookup(IndexOf(files, n), base) == Named(files, base, n)
  {
    if n > 0 {
      IndexIs(files, n - 1, base);
    }
  }

  function Roots(files: seq<File>, n: nat): seq<nat>
    requires n <= |files|
  {
    if n == 0 then [] else Roots(files, n - 1) + if IsRoot(files, n - 1) then [n - 1] else []
  }

  lemma {:induction false} RootsIff(files: seq<File>, n: nat, p: nat)
    requires n <= |files|
    ensures p in Roots(files, n) <==> p < n && IsRoot(files, p)
  {
    if n > 0 {
      RootsIff(files, n - 1, p);
    }
  }

  lemma {:induction false} RootsAreDistinct(files: seq<File>, n: nat)
    requires n <= |files|
    ensures Distinct(Roots(files, n))
  {
    if n > 0 {
      RootsAreDistinct(files, n - 1);
      RootsIff(files, n - 1, n - 1);
    }
  }

  predicate Distinct(s: seq<nat>) {
    forall i, j :: 0 <= i < j < |s| ==> s[i] != s[j]
  }

  method Index(files: seq<File>) returns (byBase: map<string, seq<nat>>, roots: seq<nat>)
    ensures byBase == IndexOf(files, |files|)
    ensures roots == Roots(files, |files|)
  {
    byBase, roots := map[], [];
    for n := 0 to |files|
      invariant byBase == IndexOf(files, n)
      invariant roots == Roots(files, n)
    {
      var base := files[n].base;
      byBase := byBase[base := Lookup(byBase, base) + [n]];
      if files[n].calls.Some? && files[n].root {
        roots := roots + [n];
      }
    }
  }

  // ---- The worklist ----

  /** Adds what one call names, where it was not seen. */
  method Enqueue(targets: seq<nat>, queue: seq<nat>, seen: set<nat>) returns (queue': seq<nat>, seen': set<nat>)
    requires Distinct(queue) && forall p <- queue :: p in seen
    ensures seen' == seen + set q | q in targets
    ensures forall p :: p in queue' <==> p in queue || (p in targets && p !in seen)
    ensures Distinct(queue')
  {
    queue', seen' := queue, seen;
    for i := 0 to |targets|
      invariant seen' == seen + set q | q in targets[..i]
      invariant forall p :: p in queue' <==> p in queue || (p in targets[..i] && p !in seen)
      invariant Distinct(queue')
    {
      assert targets[..i + 1] == targets[..i] + [targets[i]];
      if targets[i] !in seen' {
        assert targets[i] !in queue';
        seen' := seen' + {targets[i]};
        queue' := queue' + [targets[i]];
      }
    }
    assert targets[..|targets|] == targets;
  }

  /** What the first n calls of a file name. */
  predicate NamedByFirst(files: seq<File>, calls: seq<Call>, n: nat, q: nat)
    requires n <= |calls|
  {
    q < |files| && exists i :: 0 <= i < n && calls[i].base == files[q].base
  }

  lemma NamedByNext(files: seq<File>, calls: seq<Call>, n: nat, q: nat)
    requires n < |calls|
    ensures NamedByFirst(files, calls, n + 1, q)
       <==> NamedByFirst(files, calls, n, q) || q in Named(files, calls[n].base, |files|)
  {
    NamedIff(files, calls[n].base, |files|, q);
  }

  function Bases(calls: seq<Call>, n: nat): set<string>
    requires n <= |calls|
  {
    if n == 0 then {} else Bases(calls, n - 1) + {calls[n - 1].base}
  }

  function EvidenceCalls(node: nat, calls: seq<Call>, n: nat): seq<(nat, Call)>
    requires n <= |calls|
  {
    if n == 0 then []
    else EvidenceCalls(node, calls, n - 1) + if calls[n - 1].evidence then [(node, calls[n - 1])] else []
  }

  /** One round of the worklist: every call of a file, in order. */
  method Visit(files: seq<File>, byBase: map<string, seq<nat>>, node: nat, queue: seq<nat>, seen: set<nat>)
    returns (queue': seq<nat>, seen': set<nat>, bases: set<string>, evidence: seq<(nat, Call)>)
    requires byBase == IndexOf(files, |files|)
    requires Distinct(queue) && forall p <- queue :: p in seen
    ensures forall q :: q in seen' <==> q in seen || NamedByFirst(files, Calls(files, node), |Calls(files, node)|, q)
    ensures forall q :: q in queue' <==> q in queue || (q in seen' && q !in seen)
    ensures Distinct(queue')
    ensures bases == Bases(Calls(files, node), |Calls(files, node)|)
    ensures evidence == EvidenceCalls(node, Calls(files, node), |Calls(files, node)|)
  {
    var calls := Calls(files, node);
    queue', seen', bases, evidence := queue, seen, {}, [];
    for i := 0 to |calls|
      invariant forall q :: q in seen' <==> q in seen || NamedByFirst(files, calls, i, q)
      invariant forall q :: q in queue' <==> q in queue || (q in seen' && q !in seen)
      invariant Distinct(queue')
      invariant bases == Bases(calls, i)
      invariant evidence == EvidenceCalls(node, calls, i)
    {
      bases := bases + {calls[i].base};
      if calls[i].evidence {
        evidence := evidence + [(node, calls[i])];
      }
      forall q: nat
        ensures NamedByFirst(files, calls, i + 1, q)
           <==> NamedByFirst(files, calls, i, q) || q in Lookup(byBase, calls[i].base)
      {
        IndexIs(files, |files|, calls[i].base);
        NamedByNext(files, calls, i, q);
      }
      queue', seen' := Enqueue(Lookup(byBase, calls[i].base), queue', seen');
    }
  }

  lemma {:induction false} BasesIff(calls: seq<Call>, n: nat, b: string)
    requires n <= |calls|
    ensures b in Bases(calls, n) <==> exists i :: 0 <= i < n && calls[i].base == b
  {
    if n > 0 {
      BasesIff(calls, n - 1, b);
    }
  }

  lemma {:induction false} EvidenceIff(node: nat, calls: seq<Call>, n: nat, p: nat, c: Call)
    requires n <= |calls|
    ensures (p, c) in EvidenceCalls(node, calls, n) <==> p == node && c.evidence && c in calls[..n]
  {
    if n > 0 {
      EvidenceIff(node, calls, n - 1, p, c);
      assert calls[..n] == calls[..n - 1] + [calls[n - 1]];
    }
  }

  // ---- What the files of a list invoke ----

  function AllBases(files: seq<File>, order: seq<nat>): set<string> {
    if order == [] then {}
    else
      var calls := Calls(files, order[|order| - 1]);
      AllBases(files, order[..|order| - 1]) + Bases(calls, |calls|)
  }

  function AllEvidence(files: seq<File>, order: seq<nat>): seq<(nat, Call)> {
    if order == [] then []
    else
      var node := order[|order| - 1];
      AllEvidence(files, order[..|order| - 1]) + EvidenceCalls(node, Calls(files, node), |Calls(files, node)|)
  }

  lemma {:induction false} AllBasesIff(files: seq<File>, order: seq<nat>, b: string)
    ensures b in AllBases(files, order) <==> exists p, c :: p in order && c in Calls(files, p) && c.base == b
  {
    if order != [] {
      var node := order[|order| - 1];
      var calls := Calls(files, node);
      AllBasesIff(files, order[..|order| - 1], b);
      BasesIff(calls, |calls|, b);
      assert order == order[..|order| - 1] + [node];
      if i :| 0 <= i < |calls| && calls[i].base == b {
        assert node in order && calls[i] in Calls(files, node);
      }
      if p, c :| p in order && c in Calls(files, p) && c.base == b && p == node {
        var i :| 0 <= i < |calls| && calls[i] == c;
      }
    }
  }

  lemma {:induction false} AllEvidenceIff(files: seq<File>, order: seq<nat>, p: nat, c: Call)
    ensures (p, c) in AllEvidence(files, order) <==> p in order && c in Calls(files, p) && c.evidence
  {
    if order != [] {
      var node := order[|order| - 1];
      var calls := Calls(files, node);
      AllEvidenceIff(files, order[..|order| - 1], p, c);
      EvidenceIff(node, calls, |calls|, p, c);
      assert order == order[..|order| - 1] + [node];
      assert calls[..|calls|] == calls;
    }
  }

  /** Between rounds: what was seen is reachable, and what was visited has nothing left to show. */
  ghost predicate Progress(files: seq<File>, queue: seq<nat>, seen: set<nat>, order: seq<nat>) {
    && (forall p :: IsRoot(files, p) ==> p in seen)
    && (forall p <- seen :: p < |files| && Reachable(files, p))
    && (forall p :: p in seen <==> p in queue || p in order)
    && (forall p <- queue :: p !in order)
    && Distinct(queue) && Distinct(order)
    && (forall p, q :: p in order && Invokes(files, p, q) ==> q in seen)
  }

  function Places(n: nat): (s: set<nat>)
    ensures forall p: nat :: p in s <==> p < n
  {
    if n == 0 then {} else Places(n - 1) + {n - 1}
  }

  lemma Starts(files: seq<File>, roots: seq<nat>)
    requires roots == Roots(files, |files|)
    ensures Progress(files, roots, set p | p in roots, [])
  {
    RootsAreDistinct(files, |files|);
    forall p: nat
      ensures p in roots <==> IsRoot(files, p)
    {
      RootsIff(files, |files|, p);
    }
    forall p | p in roots
      ensures Reachable(files, p)
    {
      RootIsReachable(files, p);
    }
  }

  lemma InvokesIff(files: seq<File>, p: nat, q: nat)
    ensures Invokes(files, p, q) <==> NamedByFirst(files, Calls(files, p), |Calls(files, p)|, q)
  {
  }

  lemma Advances(files: seq<File>, queue: seq<nat>, seen: set<nat>, order: seq<nat>, queue': seq<nat>, seen': set<nat>)
    requires Progress(files, queue, seen, order) && queue != []
    requires var node := queue[|queue| - 1];
      && (forall q :: q in seen' <==> q in seen || NamedByFirst(files, Calls(files, node), |Calls(files, node)|, q))
      && (forall q :: q in queue' <==> q in queue[..|queue| - 1] || (q in seen' && q !in seen))
    requires Distinct(queue')
    ensures Progress(files, queue', seen', order + [queue[|queue| - 1]])
  {
    var node := queue[|queue| - 1];
    assert queue == queue[..|queue| - 1] + [node];
    forall q: nat
      ensures q in seen' <==> q in seen || Invokes(files, node, q)
    {
      InvokesIff(files, node, q);
    }
    forall q | q in seen'
      ensures q < |files| && Reachable(files, q)
    {
      if q !in seen {
        InvokedIsReachable(files, node, q);
      }
    }
    assert node !in queue[..|queue| - 1];
    assert node !in queue' && node !in order;
    Appended(order, node);
  }

  lemma Appended(order: seq<nat>, node: nat)
    requires Distinct(order) && node !in order
    ensures Distinct(order + [node])
  {
  }

  lemma Finishes(files: seq<File>, seen: set<nat>, order: seq<nat>, p: nat)
    requires Progress(files, [], seen, order)
    ensures p in order <==> Reachable(files, p)
  {
    if Reachable(files, p) {
      assert Closed(files, seen);
      ReachableIsLeast(files, seen, p);
    }
  }

  ghost function Unvisited(files: seq<File>, order: seq<nat>): set<nat> {
    Places(|files|) - set p | p in order
  }

  lemma VisitShrinks(files: seq<File>, order: seq<nat>, node: nat)
    requires node < |files| && node !in order
    ensures Unvisited(files, order + [node]) < Unvisited(files, order)
  {
    assert node in Unvisited(files, order);
  }

  lemma VisitAdds(files: seq<File>, order: seq<nat>, node: nat)
    ensures AllBases(files, order + [node]) == AllBases(files, order) + Bases(Calls(files, node), |Calls(files, node)|)
    ensures AllEvidence(files, order + [node])
         == AllEvidence(files, order) + EvidenceCalls(node, Calls(files, node), |Calls(files, node)|)
  {
  }

  /** The worklist: every file is visited at most once, so it ends on any call graph. */
  method Walk(files: seq<File>)
    returns (reached: set<string>, evidence: seq<(nat, Call)>, ghost seen: set<nat>, ghost order: seq<nat>)
    ensures Progress(files, [], seen, order)
    ensures reached == AllBases(files, order) && evidence == AllEvidence(files, order)
  {
    var byBase, roots := Index(files);
    var queue, found := roots, set p | p in roots;
    reached, evidence, order := {}, [], [];
    Starts(files, roots);
    while queue != []
      invariant Progress(files, queue, found, order)
      invariant reached == AllBases(files, order) && evidence == AllEvidence(files, order)
      decreases Unvisited(files, order)
    {
      var node := queue[|queue| - 1];
      var queue', found', bases, more := Visit(files, byBase, node, queue[..|queue| - 1], found);
      assert node in queue && node in found;
      VisitAdds(files, order, node);
      VisitShrinks(files, order, node);
      Advances(files, queue, found, order, queue', found');
      queue, found := queue', found';
      reached, evidence, order := reached + bases, evidence + more, order + [node];
    }
    seen := found;
  }

  /** The names invoked, and the invocations of evidence, by exactly the reachable files, each visited once. */
  method Reachability(files: seq<File>)
    returns (reached: set<string>, evidence: seq<(nat, Call)>, ghost order: seq<nat>)
    ensures Distinct(order) && forall p :: p in order <==> Reachable(files, p)
    ensures evidence == AllEvidence(files, order)
    ensures forall b :: b in reached <==> exists p, c :: Reachable(files, p) && c in Calls(files, p) && c.base == b
    ensures forall p: nat, c: Call :: (p, c) in evidence <==> Reachable(files, p) && c in Calls(files, p) && c.evidence
  {
    ghost var seen;
    reached, evidence, seen, order := Walk(files);
    forall p: nat
      ensures p in order <==> Reachable(files, p)
    {
      Finishes(files, seen, order, p);
    }
    forall b: string
      ensures b in reached <==> exists p, c :: Reachable(files, p) && c in Calls(files, p) && c.base == b
    {
      AllBasesIff(files, order, b);
    }
    forall p: nat, c: Call
      ensures (p, c) in evidence <==> Reachable(files, p) && c in Calls(files, p) && c.evidence
    {
      AllEvidenceIff(files, order, p, c);
    }
  }
}
