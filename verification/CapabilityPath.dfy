/** `CapabilityGraph::path`: breadth-first search over the edges whose targets a
    profile allows, and the trace back from the goal. */
module CapabilityPath {

  import opened Text

  datatype Edge = Edge(from: string, to: string, functionPath: string)

  datatype Graph = Graph(edges: seq<Edge>, allowed: string -> bool)

  // ----- walks -----

  predicate Usable(g: Graph, e: Edge) { e in g.edges && g.allowed(e.to) }

  /** `w` leads from `a` to `b` over edges into allowed nodes. */
  predicate IsWalk(g: Graph, a: string, w: seq<Edge>, b: string) {
    if w == [] then a == b
    else
      var n := |w| - 1;
      Usable(g, w[n]) && w[n].to == b && IsWalk(g, a, w[..n], w[n].from)
  }

  function Names(w: seq<Edge>): (r: seq<string>)
    ensures |r| == |w|
  {
    if w == [] then [] else Names(w[..|w| - 1]) + [w[|w| - 1].functionPath]
  }

  ghost predicate Reachable(g: Graph, a: string, b: string) { exists w :: IsWalk(g, a, w, b) }

  ghost predicate Shortest(g: Graph, a: string, w: seq<Edge>, b: string) {
    IsWalk(g, a, w, b) && forall w' :: IsWalk(g, a, w', b) ==> |w| <= |w'|
  }

  lemma WalkOn(g: Graph, a: string, w: seq<Edge>, e: Edge)
    requires IsWalk(g, a, w, e.from) && Usable(g, e)
    ensures IsWalk(g, a, w + [e], e.to)
    ensures Names(w + [e]) == Names(w) + [e.functionPath]
  {
    assert (w + [e])[..|w|] == w;
  }

  // ----- the search's state -----

  /** Every known node has its walk, which extends its parent's by one edge. */
  ghost predicate Tree(g: Graph, from: string, prev: map<string, string>, via: map<string, string>,
                       walks: map<string, seq<Edge>>) {
    && walks.Keys == prev.Keys && from in walks && walks[from] == [] && prev[from] == ""
    && forall v :: v in walks ==>
         IsWalk(g, from, walks[v], v) && (v == from || Branch(prev, via, walks, v))
  }

  ghost predicate Branch(prev: map<string, string>, via: map<string, string>, walks: map<string, seq<Edge>>, v: string)
    requires walks.Keys == prev.Keys && v in walks
  {
    && prev[v] in walks && v in via && walks[v] != []
    && var n := |walks[v]| - 1;
       walks[v][..n] == walks[prev[v]] && walks[v][n].from == prev[v] && walks[v][n].functionPath == via[v]
  }

  /** Every edge out of a finished node leads to a known node at most one further. */
  ghost predicate Explored(g: Graph, walks: map<string, seq<Edge>>, done: set<string>) {
    && done <= walks.Keys
    && forall e :: Usable(g, e) && e.from in done ==>
         e.to in walks && |walks[e.to]| <= |walks[e.from]| + 1
  }

  /** The queue holds each known, unfinished node once, nearest first. */
  ghost predicate Queued(queue: seq<string>, walks: map<string, seq<Edge>>, done: set<string>) {
    && (forall i :: 0 <= i < |queue| ==> queue[i] in walks && queue[i] !in done)
    && (forall i, j :: 0 <= i < j < |queue| ==> queue[i] != queue[j])
    && (forall v :: v in walks ==> v in done || v in queue)
    && (forall i, j :: 0 <= i < j < |queue| && queue[i] in walks && queue[j] in walks ==>
          |walks[queue[i]]| <= |walks[queue[j]]|)
  }

  /** No known node is more than one step past `d`; finished ones are not past it. */
  ghost predicate Level(walks: map<string, seq<Edge>>, done: set<string>, d: nat) {
    forall v :: v in walks ==> |walks[v]| <= d + 1 && (v in done ==> |walks[v]| <= d)
  }

  // ----- why it is shortest -----

  /** Any walk shorter than every unfinished node's distance ends at a known node
      at most its own length away. */
  lemma {:induction false} KnownWithin(g: Graph, from: string, walks: map<string, seq<Edge>>, done: set<string>,
                                       d: nat, w: seq<Edge>, b: string)
    requires from in walks && walks[from] == [] && Explored(g, walks, done)
    requires forall v :: v in walks && v !in done ==> |walks[v]| >= d
    requires IsWalk(g, from, w, b) && |w| <= d
    ensures b in walks && |walks[b]| <= |w|
    decreases |w|
  {
    if w != [] {
      var n := |w| - 1;
      KnownWithin(g, from, walks, done, d, w[..n], w[n].from);
    }
  }

  lemma {:induction false} ShortestAtFront(g: Graph, from: string, prev: map<string, string>, via: map<string, string>,
                                           walks: map<string, seq<Edge>>, done: set<string>, queue: seq<string>)
    requires Tree(g, from, prev, via, walks) && Explored(g, walks, done) && Queued(queue, walks, done) && queue != []
    ensures Shortest(g, from, walks[queue[0]], queue[0])
  {
    var b := queue[0];
    var d := |walks[b]|;
    forall v | v in walks && v !in done ensures |walks[v]| >= d {
      assert v in queue;
    }
    forall w | IsWalk(g, from, w, b) ensures d <= |w| {
      if |w| <= d {
        KnownWithin(g, from, walks, done, d, w, b);
      }
    }
  }

  lemma {:induction false} ReachesOnlyDone(g: Graph, from: string, walks: map<string, seq<Edge>>, done: set<string>,
                                           w: seq<Edge>, b: string)
    requires from in walks && walks[from] == [] && Explored(g, walks, done) && Queued([], walks, done)
    requires IsWalk(g, from, w, b)
    ensures b in done
  {
    KnownWithin(g, from, walks, done, |w|, w, b);
  }

  // ----- the trace back -----

  function Reversed(s: seq<string>): seq<string> { if s == [] then [] else Reversed(s[1..]) + [s[0]] }

  lemma {:induction false} ReversedPush(s: seq<string>, x: string)
    ensures Reversed(s + [x]) == [x] + Reversed(s)
  {
    if s != [] {
      assert (s + [x])[1..] == s[1..] + [x];
      ReversedPush(s[1..], x);
    }
  }

  /** What the trace gives for a walk: it takes an empty parent name for the start,
      so only the part after the last edge out of an unnamed node is kept. */
  function Traced(w: seq<Edge>): seq<string> {
    if w == [] || w[|w| - 1].from == "" then [] else Traced(w[..|w| - 1]) + [w[|w| - 1].functionPath]
  }

  /** The trace spells the whole walk exactly when no edge of it leaves an unnamed
      node. */
  lemma {:induction false} TracedWhole(w: seq<Edge>)
    ensures |Traced(w)| <= |w|
    ensures Traced(w) == Names(w) <==> forall i :: 0 <= i < |w| ==> w[i].from != ""
  {
    if w != [] {
      var n := |w| - 1;
      TracedWhole(w[..n]);
      if w[n].from == "" {
        assert |Traced(w)| != |Names(w)|;
      } else {
        assert Traced(w)[..|Traced(w[..n])|] == Traced(w[..n]) && Names(w)[..n] == Names(w[..n]);
      }
    }
  }

  ghost predicate NamedNodes(g: Graph) { forall e :: e in g.edges ==> e.from != "" }

  /** In a graph whose nodes all have names every walk is spelled out. */
  lemma {:induction false} NamedWalk(g: Graph, a: string, w: seq<Edge>, b: string)
    requires NamedNodes(g) && IsWalk(g, a, w, b)
    ensures Traced(w) == Names(w)
  {
    if w != [] {
      NamedWalk(g, a, w[..|w| - 1], w[|w| - 1].from);
    }
  }

  /** The unnamed node is closed to the search, or leads at most to itself. */
  predicate Traceable(g: Graph) {
    !g.allowed("") || forall e :: e in g.edges && e.from == "" && g.allowed(e.to) ==> e.to == ""
  }

  /** What a query may answer: the trace of some shortest walk. */
  ghost predicate Answer(g: Graph, a: string, b: string, names: seq<string>) {
    exists w :: Shortest(g, a, w, b) && names == Traced(w)
  }

  /** The answer names every edge of some shortest walk. */
  ghost predicate Spelled(g: Graph, a: string, b: string, names: seq<string>) {
    exists w :: Shortest(g, a, w, b) && names == Names(w)
  }

  /** Every answer to every query between allowed nodes is a whole walk. */
  ghost predicate AlwaysSpelled(g: Graph) {
    forall a, b, names :: g.allowed(a) && g.allowed(b) && Answer(g, a, b, names) ==> Spelled(g, a, b, names)
  }

  /** A walk without one of its edges that lead from a node to itself. */
  lemma {:induction false} WithoutLoop(g: Graph, a: string, w: seq<Edge>, b: string, i: nat)
    requires IsWalk(g, a, w, b) && i < |w| && w[i].from == w[i].to
    ensures IsWalk(g, a, w[..i] + w[i + 1..], b)
  {
    var n := |w| - 1;
    if i == n {
      assert w[..i] + w[i + 1..] == w[..n];
    } else {
      WithoutLoop(g, a, w[..n], w[n].from, i);
      var rest := w[..i] + w[i + 1..];
      assert rest[..|rest| - 1] == w[..n][..i] + w[..n][i + 1..] && rest[|rest| - 1] == w[n];
    }
  }

  /** Every edge of a walk from an allowed node is usable and starts at an allowed
      node. */
  lemma {:induction false} WalkAllowed(g: Graph, a: string, w: seq<Edge>, b: string)
    requires IsWalk(g, a, w, b) && g.allowed(a)
    ensures g.allowed(b) && forall i :: 0 <= i < |w| ==> Usable(g, w[i]) && g.allowed(w[i].from)
  {
    if w != [] {
      var n := |w| - 1;
      WalkAllowed(g, a, w[..n], w[n].from);
      forall i | 0 <= i < |w| ensures Usable(g, w[i]) && g.allowed(w[i].from) {
        assert i < n ==> w[..n][i] == w[i];
      }
    }
  }

  /** In a traceable graph a shortest walk from an allowed node is spelled whole. */
  lemma {:induction false} TraceableWalk(g: Graph, a: string, w: seq<Edge>, b: string)
    requires Traceable(g) && g.allowed(a) && Shortest(g, a, w, b)
    ensures Traced(w) == Names(w)
  {
    hide Traced, Names, Usable;
    WalkAllowed(g, a, w, b);
    forall i | 0 <= i < |w| ensures w[i].from != "" {
      if w[i].from == "" {
        assert w[i].to == "" by { UsableIs(g, w[i]); }
        WithoutLoop(g, a, w, b, i);
      }
    }
    TracedWhole(w);
  }

  lemma UsableIs(g: Graph, e: Edge)
    requires Usable(g, e)
    ensures e in g.edges && g.allowed(e.to)
  {
  }

  /** An edge out of an open unnamed node to another node is the whole of a shortest
      walk, and no answer to that query names it. */
  lemma {:induction false} UnnamedCut(g: Graph, e: Edge)
    requires e in g.edges && e.from == "" && g.allowed("") && g.allowed(e.to) && e.to != ""
    ensures Answer(g, "", e.to, []) && !Spelled(g, "", e.to, [])
    ensures forall names :: Answer(g, "", e.to, names) ==> names == []
  {
    assert [e][..0] == [];
    assert IsWalk(g, "", [], "");
    assert IsWalk(g, "", [e], e.to);
    forall w | IsWalk(g, "", w, e.to) ensures 1 <= |w| {
    }
    assert Shortest(g, "", [e], e.to);
    forall w: seq<Edge> | Shortest(g, "", w, e.to) ensures Names(w) != [] && Traced(w) == [] {
      assert |w| == 1;
      assert w[..0] == [] && IsWalk(g, "", w[..0], w[0].from);
    }
  }

  /** Every answer is a whole shortest walk exactly when the unnamed node is closed
      or leads at most to itself. */
  lemma {:induction false} SpelledExactly(g: Graph)
    ensures AlwaysSpelled(g) <==> Traceable(g)
  {
    hide Answer, Spelled, Traced, Names, Shortest;
    if !Traceable(g) {
      var e :| e in g.edges && e.from == "" && g.allowed(e.to) && e.to != "";
      UnnamedCut(g, e);
      assert !AlwaysSpelled(g);
    } else {
      forall a, b, names | g.allowed(a) && g.allowed(b) && Answer(g, a, b, names) ensures Spelled(g, a, b, names) {
        AnswerSpelled(g, a, b, names);
      }
    }
  }

  lemma {:induction false} AnswerSpelled(g: Graph, a: string, b: string, names: seq<string>)
    requires Traceable(g) && g.allowed(a) && Answer(g, a, b, names)
    ensures Spelled(g, a, b, names)
  {
    hide Traced, Names, Shortest, Traceable;
    var w :| Shortest(g, a, w, b) && names == Traced(w);
    TraceableWalk(g, a, w, b);
  }

  /** One edge out of an unnamed node: the search finds it and the answer is empty. */
  lemma UnnamedWitness()
    ensures var g := Graph([Edge("", "sp3", "load")], (node: string) => true);
      && !Traceable(g) && Answer(g, "", "sp3", []) && !Spelled(g, "", "sp3", [])
      && forall names :: Answer(g, "", "sp3", names) ==> names == []
  {
    var g := Graph([Edge("", "sp3", "load")], (node: string) => true);
    assert g.edges[0] in g.edges;
    UnnamedCut(g, g.edges[0]);
  }

  lemma ParentStep(g: Graph, from: string, prev: map<string, string>, via: map<string, string>,
                   walks: map<string, seq<Edge>>, v: string)
    requires Tree(g, from, prev, via, walks) && v in prev && v != from
    ensures prev[v] in prev && v in via && prev[v] in walks && |walks[prev[v]]| < |walks[v]|
    ensures Traced(walks[v]) == if prev[v] == "" then [] else Traced(walks[prev[v]]) + [via[v]]
  {
    assert IsWalk(g, from, walks[v], v) && Branch(prev, via, walks, v);
  }

  lemma TraceStep(names: seq<string>, parent: seq<string>, out: seq<string>, x: string, whole: seq<string>)
    requires names == parent + [x] && names + Reversed(out) == whole
    ensures parent + Reversed(out + [x]) == whole
  {
    ReversedPush(out, x);
    assert parent + ([x] + Reversed(out)) == parent + [x] + Reversed(out);
  }

  /** Follows parents until the empty name that marks the start. */
  method TraceBack(g: Graph, from: string, to: string, prev: map<string, string>, via: map<string, string>,
                   ghost walks: map<string, seq<Edge>>) returns (out: seq<string>)
    requires Tree(g, from, prev, via, walks) && to in prev
    ensures Reversed(out) == Traced(walks[to])
  {
    assert walks.Keys == prev.Keys && walks[from] == [] && prev[from] == "";
    hide Tree, Traced, Reversed;
    out := [];
    var cursor := to;
    NothingTraced(Traced(walks[to]));
    while prev[cursor] != ""
      invariant cursor in prev
      invariant Traced(walks[cursor]) + Reversed(out) == Traced(walks[to])
      decreases |walks[cursor]|
    {
      ParentStep(g, from, prev, via, walks, cursor);
      TraceStep(Traced(walks[cursor]), Traced(walks[prev[cursor]]), out, via[cursor], Traced(walks[to]));
      out := out + [via[cursor]];
      cursor := prev[cursor];
    }
    if cursor != from {
      ParentStep(g, from, prev, via, walks, cursor);
    }
    StartTraced(Reversed(out));
  }

  lemma NothingTraced(names: seq<string>)
    ensures names + Reversed([]) == names
  {
  }

  lemma StartTraced(names: seq<string>)
    ensures Traced([]) == [] && [] + names == names
  {
  }

  // ----- the search -----

  /** Everything the search keeps, between two nodes. */
  ghost predicate Searching(g: Graph, from: string, prev: map<string, string>, via: map<string, string>,
                            walks: map<string, seq<Edge>>, done: set<string>, queue: seq<string>) {
    && Tree(g, from, prev, via, walks) && Explored(g, walks, done) && Queued(queue, walks, done)
    && (queue != [] && queue[0] in walks ==> Level(walks, done, |walks[queue[0]]|))
  }

  /** Everything it keeps while the edges out of `u`, up to the `k`-th, are followed. */
  ghost predicate Scanning(g: Graph, from: string, prev: map<string, string>, via: map<string, string>,
                           walks: map<string, seq<Edge>>, done: set<string>, queue: seq<string>, u: string, k: nat) {
    && k <= |g.edges|
    && Tree(g, from, prev, via, walks) && Explored(g, walks, done) && Queued(queue, walks, done + {u})
    && u in walks && u !in done
    && Level(walks, done, |walks[u]|)
    && (forall v :: v in walks && v in queue ==> |walks[v]| >= |walks[u]|)
    && forall i :: 0 <= i < k && g.edges[i].from == u && g.allowed(g.edges[i].to) ==> g.edges[i].to in walks
  }

  lemma StartSearch(g: Graph, from: string)
    ensures Searching(g, from, map[from := ""], map[], map[from := []], {}, [from])
  {
  }

  lemma PopFront(g: Graph, from: string, prev: map<string, string>, via: map<string, string>,
                 walks: map<string, seq<Edge>>, done: set<string>, queue: seq<string>)
    requires Searching(g, from, prev, via, walks, done, queue) && queue != []
    ensures queue[0] in walks && queue[0] !in done
    ensures Scanning(g, from, prev, via, walks, done, queue[1..], queue[0], 0)
  {
    hide Tree, Explored, Level, Queued;
    PopQueued(queue, walks, done);
  }

  lemma PopQueued(queue: seq<string>, walks: map<string, seq<Edge>>, done: set<string>)
    requires Queued(queue, walks, done) && queue != []
    ensures queue[0] in walks && queue[0] !in done
    ensures Queued(queue[1..], walks, done + {queue[0]})
    ensures forall v :: v in walks && v in queue[1..] ==> |walks[v]| >= |walks[queue[0]]|
  {
    var rest, u := queue[1..], queue[0];
    forall v | v in walks ensures v in done + {u} || v in rest {
      if v in queue && v != u {
        var i :| 0 <= i < |queue| && queue[i] == v;
        assert rest[i - 1] == v;
      }
    }
    forall v | v in walks && v in rest ensures |walks[v]| >= |walks[u]| {
      var i :| 0 <= i < |rest| && rest[i] == v;
      assert queue[i + 1] == v;
    }
  }

  /** A node met for the first time joins the tree and the end of the queue. */
  lemma Discover(g: Graph, from: string, prev: map<string, string>, via: map<string, string>,
                 walks: map<string, seq<Edge>>, done: set<string>, queue: seq<string>, u: string, k: nat)
    requires Scanning(g, from, prev, via, walks, done, queue, u, k) && k < |g.edges|
    requires var e := g.edges[k]; e.from == u && g.allowed(e.to) && e.to !in prev
    ensures var e := g.edges[k];
      Scanning(g, from, prev[e.to := u], via[e.to := e.functionPath], walks[e.to := walks[u] + [e]], done,
               queue + [e.to], u, k + 1)
  {
    var e := g.edges[k];
    assert Usable(g, e);
    assert walks.Keys == prev.Keys && done <= walks.Keys;
    hide Tree, Explored, Queued, Level, Usable;
    DiscoverTree(g, from, prev, via, walks, u, e);
    DiscoverExplored(g, walks, done, u, e);
    DiscoverQueued(walks, done, queue, u, e);
    DiscoverLevel(walks, done, u, e);
  }

  lemma DiscoverTree(g: Graph, from: string, prev: map<string, string>, via: map<string, string>,
                     walks: map<string, seq<Edge>>, u: string, e: Edge)
    requires Tree(g, from, prev, via, walks) && u in walks && Usable(g, e) && e.from == u && e.to !in walks
    ensures Tree(g, from, prev[e.to := u], via[e.to := e.functionPath], walks[e.to := walks[u] + [e]])
  {
    hide Names;
    WalkOn(g, from, walks[u], e);
    hide IsWalk, Branch, Usable;
    var prev', via', walks' := prev[e.to := u], via[e.to := e.functionPath], walks[e.to := walks[u] + [e]];
    NewBranch(prev, via, walks, u, e);
    forall v | v in walks' && v != e.to && v != from ensures Branch(prev', via', walks', v) {
      OldBranch(prev, via, walks, u, e, v);
    }
  }

  lemma NewBranch(prev: map<string, string>, via: map<string, string>, walks: map<string, seq<Edge>>, u: string, e: Edge)
    requires walks.Keys == prev.Keys && u in walks && e.from == u && e.to !in walks
    ensures Branch(prev[e.to := u], via[e.to := e.functionPath], walks[e.to := walks[u] + [e]], e.to)
  {
    assert (walks[u] + [e])[..|walks[u]|] == walks[u];
  }

  lemma OldBranch(prev: map<string, string>, via: map<string, string>, walks: map<string, seq<Edge>>, u: string, e: Edge,
                  v: string)
    requires walks.Keys == prev.Keys && e.to !in walks && v in walks && Branch(prev, via, walks, v)
    ensures Branch(prev[e.to := u], via[e.to := e.functionPath], walks[e.to := walks[u] + [e]], v)
    requires u in walks
  {
  }

  lemma DiscoverLevel(walks: map<string, seq<Edge>>, done: set<string>, u: string, e: Edge)
    requires u in walks && Level(walks, done, |walks[u]|) && e.to !in walks && done <= walks.Keys
    ensures Level(walks[e.to := walks[u] + [e]], done, |walks[u]|)
  {
  }

  lemma DiscoverExplored(g: Graph, walks: map<string, seq<Edge>>, done: set<string>, u: string, e: Edge)
    requires Explored(g, walks, done) && u in walks && e.to !in walks
    ensures Explored(g, walks[e.to := walks[u] + [e]], done)
  {
  }

  lemma DiscoverQueued(walks: map<string, seq<Edge>>, done: set<string>, queue: seq<string>, u: string, e: Edge)
    requires Queued(queue, walks, done + {u}) && u in walks && e.to !in walks && Level(walks, done, |walks[u]|)
    requires done <= walks.Keys
    ensures Queued(queue + [e.to], walks[e.to := walks[u] + [e]], done + {u})
  {
  }

  /** Once every edge has been looked at, the node is finished. */
  lemma FinishNode(g: Graph, from: string, prev: map<string, string>, via: map<string, string>,
                   walks: map<string, seq<Edge>>, done: set<string>, queue: seq<string>, u: string)
    requires Scanning(g, from, prev, via, walks, done, queue, u, |g.edges|)
    ensures Searching(g, from, prev, via, walks, done + {u}, queue)
  {
    hide Tree, Queued, IsWalk;
    forall e | Usable(g, e) && e.from in done + {u} ensures e.to in walks && |walks[e.to]| <= |walks[e.from]| + 1 {
      if e.from == u {
        var i :| 0 <= i < |g.edges| && g.edges[i] == e;
      }
    }
    if queue != [] && queue[0] in walks {
      assert queue[0] in queue;
    }
  }

  /** The nodes the search can ever meet. */
  function Nodes(g: Graph, from: string): set<string> { {from} + set e | e in g.edges :: e.to }

  lemma KnownNodes(g: Graph, from: string, prev: map<string, string>, via: map<string, string>,
                   walks: map<string, seq<Edge>>, v: string)
    requires Tree(g, from, prev, via, walks) && v in walks
    ensures v in Nodes(g, from)
  {
    assert IsWalk(g, from, walks[v], v);
  }

  /** The trace of a shortest walk between two allowed nodes; none exactly when an
      end is not allowed or no walk exists. */
  method Path(g: Graph, from: string, to: string) returns (r: Option<seq<string>>)
    ensures r.Some? <==> g.allowed(from) && g.allowed(to) && Reachable(g, from, to)
    ensures r.Some? ==> Answer(g, from, to, r.value)
    ensures r.Some? && Traceable(g) ==> Spelled(g, from, to, r.value)
  {
    hide Searching, Scanning, Tree, IsWalk, Traced, Shortest, Nodes, Spelled, Traceable;
    if !g.allowed(from) || !g.allowed(to) { return None; }
    var queue, prev, via := [from], map[from := ""], map[];
    ghost var walks: map<string, seq<Edge>>, done: set<string> := map[from := []], {};
    StartSearch(g, from);
    while queue != []
      invariant Searching(g, from, prev, via, walks, done, queue) && to !in done
      decreases Nodes(g, from) - done
    {
      PopFront(g, from, prev, via, walks, done, queue);
      var current := queue[0];
      FrontFacts(g, from, prev, via, walks, done, queue);
      if current == to {
        var out := TraceBack(g, from, to, prev, via, walks);
        assert Answer(g, from, to, Reversed(out));
        if Traceable(g) {
          AnswerSpelled(g, from, to, Reversed(out));
        }
        return Some(Reversed(out));
      }
      queue := queue[1..];
      var k := 0;
      while k < |g.edges|
        invariant k <= |g.edges| && Scanning(g, from, prev, via, walks, done, queue, current, k)
      {
        var edge := g.edges[k];
        ScanFacts(g, from, prev, via, walks, done, queue, current, k);
        if edge.from == current && g.allowed(edge.to) && edge.to !in prev {
          Discover(g, from, prev, via, walks, done, queue, current, k);
          walks := walks[edge.to := walks[current] + [edge]];
          prev := prev[edge.to := current];
          via := via[edge.to := edge.functionPath];
          queue := queue + [edge.to];
        } else {
          PassBy(g, from, prev, via, walks, done, queue, current, k);
        }
        k := k + 1;
      }
      FinishNode(g, from, prev, via, walks, done, queue, current);
      done := done + {current};
    }
    NoneLeft(g, from, prev, via, walks, done, to);
    return None;
  }

  /** An edge that leads nowhere new changes nothing. */
  lemma PassBy(g: Graph, from: string, prev: map<string, string>, via: map<string, string>,
               walks: map<string, seq<Edge>>, done: set<string>, queue: seq<string>, u: string, k: nat)
    requires Scanning(g, from, prev, via, walks, done, queue, u, k) && k < |g.edges|
    requires var e := g.edges[k]; !(e.from == u && g.allowed(e.to) && e.to !in prev)
    ensures Scanning(g, from, prev, via, walks, done, queue, u, k + 1)
  {
    assert walks.Keys == prev.Keys;
    hide Tree, Explored, Queued, Level;
  }

  lemma ScanFacts(g: Graph, from: string, prev: map<string, string>, via: map<string, string>,
                  walks: map<string, seq<Edge>>, done: set<string>, queue: seq<string>, u: string, k: nat)
    requires Scanning(g, from, prev, via, walks, done, queue, u, k)
    ensures u in walks && walks.Keys == prev.Keys
  {
  }

  lemma FrontFacts(g: Graph, from: string, prev: map<string, string>, via: map<string, string>,
                   walks: map<string, seq<Edge>>, done: set<string>, queue: seq<string>)
    requires Searching(g, from, prev, via, walks, done, queue) && queue != []
    ensures Tree(g, from, prev, via, walks) && queue[0] in prev && queue[0] in walks && queue[0] in Nodes(g, from)
    ensures Shortest(g, from, walks[queue[0]], queue[0]) && Reachable(g, from, queue[0])
  {
    ShortestAtFront(g, from, prev, via, walks, done, queue);
    KnownNodes(g, from, prev, via, walks, queue[0]);
  }

  lemma NoneLeft(g: Graph, from: string, prev: map<string, string>, via: map<string, string>,
                 walks: map<string, seq<Edge>>, done: set<string>, to: string)
    requires Searching(g, from, prev, via, walks, done, []) && to !in done
    ensures !Reachable(g, from, to)
  {
    hide IsWalk;
    if Reachable(g, from, to) {
      var w :| IsWalk(g, from, w, to);
      ReachesOnlyDone(g, from, walks, done, w, to);
    }
  }
}
