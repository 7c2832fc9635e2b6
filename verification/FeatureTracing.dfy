/**
 * DeterministicTracer.trace_feature (backend/intelligence/feature_tracing.py): a
 * staged expansion of seed entities over DEPENDS_ON and CALLS relationships.
 * Python iterates over its sets in no particular order; so do the methods here.
 */
module FeatureTracing {
  import opened Basics
  import Q = QueryLayer

  type Rels = seq<Q.Relationship>

  /** An emitted edge and its label. */
  datatype Edge = Edge(kind: Q.RelType, source: string, target: string)

  /** The fields of an entity that tracing reads: `fileId` is its file_id entry or its path. */
  datatype Info = Info(name: string, fileId: string)

  // -------------------------------------------------------------- adjacency

  type Lists = map<string, seq<string>>

  ghost predicate OutOk(lists: Lists, rs: Rels, n: nat, kind: Q.RelType)
    requires n <= |rs|
  {
    forall id :: Q.Get(lists, id) == Q.Forward(rs, n, kind, id)
  }

  ghost predicate InOk(lists: Lists, rs: Rels, n: nat, kind: Q.RelType)
    requires n <= |rs|
  {
    forall id :: Q.Get(lists, id) == Q.Backward(rs, n, kind, id)
  }

  function AddOut(lists: Lists, r: Q.Relationship, kind: Q.RelType): Lists {
    if r.kind == kind then lists[r.source := Q.Get(lists, r.source) + [r.target]] else lists
  }

  function AddIn(lists: Lists, r: Q.Relationship, kind: Q.RelType): Lists {
    if r.kind == kind then lists[r.target := Q.Get(lists, r.target) + [r.source]] else lists
  }

  lemma AddOutOk(lists: Lists, rs: Rels, n: nat, kind: Q.RelType)
    requires n < |rs| && OutOk(lists, rs, n, kind)
    ensures OutOk(AddOut(lists, rs[n], kind), rs, n + 1, kind)
  {
    var after := AddOut(lists, rs[n], kind);
    forall id ensures Q.Get(after, id) == Q.Forward(rs, n + 1, kind, id) {
      assert Q.Get(lists, id) == Q.Forward(rs, n, kind, id);
      assert Q.Forward(rs, n, kind, id) + [] == Q.Forward(rs, n, kind, id);
    }
  }

  lemma AddInOk(lists: Lists, rs: Rels, n: nat, kind: Q.RelType)
    requires n < |rs| && InOk(lists, rs, n, kind)
    ensures InOk(AddIn(lists, rs[n], kind), rs, n + 1, kind)
  {
    var after := AddIn(lists, rs[n], kind);
    forall id ensures Q.Get(after, id) == Q.Backward(rs, n + 1, kind, id) {
      assert Q.Get(lists, id) == Q.Backward(rs, n, kind, id);
      assert Q.Backward(rs, n, kind, id) + [] == Q.Backward(rs, n, kind, id);
    }
  }

  /** The five lookup maps, filled in one pass. */
  datatype Adjacency = Adjacency(callsOut: Lists, callsIn: Lists, importsOut: Lists, dependsOut: Lists, dependsIn: Lists)

  ghost predicate AdjacencyOk(a: Adjacency, rs: Rels, n: nat)
    requires n <= |rs|
  {
    && OutOk(a.callsOut, rs, n, Q.Calls) && InOk(a.callsIn, rs, n, Q.Calls)
    && OutOk(a.importsOut, rs, n, Q.Imports)
    && OutOk(a.dependsOut, rs, n, Q.DependsOn) && InOk(a.dependsIn, rs, n, Q.DependsOn)
  }

  method BuildAdjacency(rs: Rels) returns (a: Adjacency)
    ensures AdjacencyOk(a, rs, |rs|)
  {
    a := Adjacency(map[], map[], map[], map[], map[]);
    for n := 0 to |rs|
      invariant AdjacencyOk(a, rs, n)
    {
      AddOutOk(a.callsOut, rs, n, Q.Calls);
      AddInOk(a.callsIn, rs, n, Q.Calls);
      AddOutOk(a.importsOut, rs, n, Q.Imports);
      AddOutOk(a.dependsOut, rs, n, Q.DependsOn);
      AddInOk(a.dependsIn, rs, n, Q.DependsOn);
      a := Adjacency(AddOut(a.callsOut, rs[n], Q.Calls), AddIn(a.callsIn, rs[n], Q.Calls),
                     AddOut(a.importsOut, rs[n], Q.Imports),
                     AddOut(a.dependsOut, rs[n], Q.DependsOn), AddIn(a.dependsIn, rs[n], Q.DependsOn));
    }
  }

  // -------------------------------------------------------------- expansion

  /** How many model relationships of this kind join the two ends. */
  function Mult(rs: Rels, kind: Q.RelType, source: string, target: string): nat {
    Count(rs, Q.Relationship(kind, source, target))
  }

  function Bit(b: bool): nat { if b then 1 else 0 }

  /** `m` once for each condition that holds. */
  function Times(m: nat, a: bool, b: bool): nat {
    (if a then m else 0) + (if b then m else 0)
  }

  /** Ids one relationship away from a member of `ids`, in either direction. */
  ghost predicate Neighbour(rs: Rels, kind: Q.RelType, ids: set<string>, x: string) {
    exists y :: y in ids && (Q.Relationship(kind, y, x) in rs || Q.Relationship(kind, x, y) in rs)
  }

  /** Once per endpoint in `ids`, each relationship of the kind is in `edges`, and nothing else is. */
  ghost predicate EmittedFor(edges: seq<Edge>, rs: Rels, kind: Q.RelType, ids: set<string>) {
    forall e: Edge :: Count(edges, e) == Expected(rs, kind, ids, e)
  }

  ghost function Expected(rs: Rels, kind: Q.RelType, ids: set<string>, e: Edge): nat {
    if e.kind == kind then Times(Mult(rs, kind, e.source, e.target), e.source in ids, e.target in ids) else 0
  }

  function OutEdges(kind: Q.RelType, source: string, targets: seq<string>): seq<Edge> {
    if targets == [] then []
    else OutEdges(kind, source, targets[..|targets| - 1]) + [Edge(kind, source, targets[|targets| - 1])]
  }

  function InEdges(kind: Q.RelType, target: string, sources: seq<string>): seq<Edge> {
    if sources == [] then []
    else InEdges(kind, target, sources[..|sources| - 1]) + [Edge(kind, sources[|sources| - 1], target)]
  }

  lemma {:induction false} CountOutEdges(kind: Q.RelType, source: string, targets: seq<string>, e: Edge)
    ensures Count(OutEdges(kind, source, targets), e)
            == if e.kind == kind && e.source == source then Count(targets, e.target) else 0
  {
    if targets != [] {
      var init, last := targets[..|targets| - 1], targets[|targets| - 1];
      CountOutEdges(kind, source, init, e);
      CountAppend(OutEdges(kind, source, init), Edge(kind, source, last), e);
    }
  }

  lemma {:induction false} CountInEdges(kind: Q.RelType, target: string, sources: seq<string>, e: Edge)
    ensures Count(InEdges(kind, target, sources), e)
            == if e.kind == kind && e.target == target then Count(sources, e.source) else 0
  {
    if sources != [] {
      var init, last := sources[..|sources| - 1], sources[|sources| - 1];
      CountInEdges(kind, target, init, e);
      CountAppend(InEdges(kind, target, init), Edge(kind, last, target), e);
    }
  }

  function EdgesOf(rs: Rels, kind: Q.RelType, id: string): seq<Edge> {
    OutEdges(kind, id, Q.Forward(rs, |rs|, kind, id)) + InEdges(kind, id, Q.Backward(rs, |rs|, kind, id))
  }

  lemma CountEdgesOf(rs: Rels, kind: Q.RelType, id: string, e: Edge)
    ensures Count(EdgesOf(rs, kind, id), e) == Expected(rs, kind, {id}, e)
  {
    var outs, ins := Q.Forward(rs, |rs|, kind, id), Q.Backward(rs, |rs|, kind, id);
    CountConcat(OutEdges(kind, id, outs), InEdges(kind, id, ins), e);
    CountOutEdges(kind, id, outs, e);
    CountInEdges(kind, id, ins, e);
    Q.ForwardBackwardDual(rs, kind, id, e.target);
    Q.ForwardBackwardDual(rs, kind, e.source, id);
  }

  /** Handling one more id of the frontier emits what EmittedFor asks for. */
  lemma OneMoreId(edges: seq<Edge>, rs: Rels, kind: Q.RelType, ids: set<string>, id: string)
    requires EmittedFor(edges, rs, kind, ids) && id !in ids
    ensures EmittedFor(edges + EdgesOf(rs, kind, id), rs, kind, ids + {id})
  {
    forall e: Edge ensures Count(edges + EdgesOf(rs, kind, id), e) == Expected(rs, kind, ids + {id}, e) {
      CountConcat(edges, EdgesOf(rs, kind, id), e);
      CountEdgesOf(rs, kind, id, e);
      assert Count(edges, e) == Expected(rs, kind, ids, e);
    }
  }

  /** The forward and backward lists of an id are its neighbours. */
  lemma ListsAreNeighbours(rs: Rels, kind: Q.RelType, id: string, x: string)
    ensures x in Q.Forward(rs, |rs|, kind, id) <==> Q.Relationship(kind, id, x) in rs
    ensures x in Q.Backward(rs, |rs|, kind, id) <==> Q.Relationship(kind, x, id) in rs
  {
    Q.ForwardBackwardDual(rs, kind, id, x);
    Q.ForwardBackwardDual(rs, kind, x, id);
    CountIn(Q.Forward(rs, |rs|, kind, id), x);
    CountIn(Q.Backward(rs, |rs|, kind, id), x);
    CountIn(rs, Q.Relationship(kind, id, x));
    CountIn(rs, Q.Relationship(kind, x, id));
  }

  /** add_node: entities of the model, once each, in the order they are met. */
  function AddNode(nodes: seq<string>, known: map<string, Info>, id: string): (r: seq<string>)
    ensures NoRepeats(nodes) ==> NoRepeats(r)
    ensures forall x :: x in r <==> x in nodes || (x == id && id in known)
  {
    if id in nodes || id !in known then nodes else nodes + [id]
  }

  method AddNodes(nodes0: seq<string>, known: map<string, Info>, ids: seq<string>) returns (nodes: seq<string>)
    requires NoRepeats(nodes0)
    ensures NoRepeats(nodes)
    ensures forall x :: x in nodes <==> x in nodes0 || (x in ids && x in known)
  {
    nodes := nodes0;
    for k := 0 to |ids|
      invariant NoRepeats(nodes)
      invariant forall x :: x in nodes <==> x in nodes0 || (x in ids[..k] && x in known)
    {
      assert ids[..k + 1] == ids[..k] + [ids[k]];
      nodes := AddNode(nodes, known, ids[k]);
    }
    assert ids[..|ids|] == ids;
  }

  /** Where a stage stands when the ids in `done` have been handled. */
  ghost predicate Progress(rs: Rels, kind: Q.RelType, known: map<string, Info>, nodes0: seq<string>, done: set<string>,
                           nodes: seq<string>, edges: seq<Edge>, found: set<string>) {
    && EmittedFor(edges, rs, kind, done)
    && (forall x :: x in found <==> Neighbour(rs, kind, done, x))
    && NoRepeats(nodes)
    && forall x :: x in nodes <==> x in nodes0 || (x in found && x in known)
  }

  lemma ProgressStarts(rs: Rels, kind: Q.RelType, known: map<string, Info>, nodes0: seq<string>)
    requires NoRepeats(nodes0)
    ensures Progress(rs, kind, known, nodes0, {}, nodes0, [], {})
  {
    forall e: Edge ensures Count([], e) == Expected(rs, kind, {}, e) {}
  }

  lemma ProgressStep(rs: Rels, kind: Q.RelType, known: map<string, Info>, nodes0: seq<string>, done: set<string>,
                     nodes: seq<string>, edges: seq<Edge>, found: set<string>,
                     id: string, outs: seq<string>, ins: seq<string>, nodes': seq<string>)
    requires Progress(rs, kind, known, nodes0, done, nodes, edges, found) && id !in done && NoRepeats(nodes')
    requires outs == Q.Forward(rs, |rs|, kind, id) && ins == Q.Backward(rs, |rs|, kind, id)
    requires forall x :: x in nodes' <==> x in nodes || ((x in outs || x in ins) && x in known)
    ensures Progress(rs, kind, known, nodes0, done + {id}, nodes',
                     edges + (OutEdges(kind, id, outs) + InEdges(kind, id, ins)), found + Members(outs) + Members(ins))
  {
    OneMoreId(edges, rs, kind, done, id);
    FoundStep(rs, kind, done, id, found);
  }

  /** Stages 2 and 3: emit the edges of every frontier id, add its neighbours as nodes, collect them. */
  method Expand(rs: Rels, kind: Q.RelType, frontier: set<string>, outs: Lists, ins: Lists,
                known: map<string, Info>, nodes0: seq<string>)
      returns (nodes: seq<string>, edges: seq<Edge>, found: set<string>)
    requires OutOk(outs, rs, |rs|, kind) && InOk(ins, rs, |rs|, kind) && NoRepeats(nodes0)
    ensures EmittedFor(edges, rs, kind, frontier)
    ensures forall x :: x in found <==> Neighbour(rs, kind, frontier, x)
    ensures NoRepeats(nodes)
    ensures forall x :: x in nodes <==> x in nodes0 || (x in found && x in known)
  {
    nodes, edges, found := nodes0, [], {};
    var left := frontier;
    ghost var done: set<string> := {};
    ProgressStarts(rs, kind, known, nodes0);
    while left != {}
      invariant done + left == frontier && done !! left
      invariant Progress(rs, kind, known, nodes0, done, nodes, edges, found)
      decreases |left|
    {
      var id :| id in left;
      var targets, sources := Q.Get(outs, id), Q.Get(ins, id);
      var nodes', edges', found' := ExpandId(kind, id, targets, sources, known, nodes, edges, found);
      ProgressStep(rs, kind, known, nodes0, done, nodes, edges, found, id, targets, sources, nodes');
      nodes, edges, found := nodes', edges', found';
      left, done := left - {id}, done + {id};
    }
    assert done == frontier;
  }

  /** The body of the loop of a stage. */
  method ExpandId(kind: Q.RelType, id: string, targets: seq<string>, sources: seq<string>, known: map<string, Info>,
                  nodes0: seq<string>, edges0: seq<Edge>, found0: set<string>)
      returns (nodes: seq<string>, edges: seq<Edge>, found: set<string>)
    requires NoRepeats(nodes0)
    ensures NoRepeats(nodes)
    ensures forall x :: x in nodes <==> x in nodes0 || ((x in targets || x in sources) && x in known)
    ensures edges == edges0 + (OutEdges(kind, id, targets) + InEdges(kind, id, sources))
    ensures found == found0 + Members(targets) + Members(sources)
  {
    nodes := AddNodes(nodes0, known, targets);
    nodes := AddNodes(nodes, known, sources);
    edges := edges0 + (OutEdges(kind, id, targets) + InEdges(kind, id, sources));
    found := found0 + Members(targets) + Members(sources);
  }

  lemma FoundStep(rs: Rels, kind: Q.RelType, done: set<string>, id: string, found: set<string>)
    requires forall x :: x in found <==> Neighbour(rs, kind, done, x)
    ensures var after := found + Members(Q.Forward(rs, |rs|, kind, id)) + Members(Q.Backward(rs, |rs|, kind, id));
            forall x :: x in after <==> Neighbour(rs, kind, done + {id}, x)
  {
    forall x ensures x in found + Members(Q.Forward(rs, |rs|, kind, id)) + Members(Q.Backward(rs, |rs|, kind, id))
                     <==> Neighbour(rs, kind, done + {id}, x)
    {
      ListsAreNeighbours(rs, kind, id, x);
      NeighbourStep(rs, kind, done, id, x);
    }
  }

  lemma NeighbourStep(rs: Rels, kind: Q.RelType, ids: set<string>, id: string, x: string)
    ensures Neighbour(rs, kind, ids + {id}, x) <==>
              Neighbour(rs, kind, ids, x) || Q.Relationship(kind, id, x) in rs || Q.Relationship(kind, x, id) in rs
  {
    if Neighbour(rs, kind, ids + {id}, x) {
      var y :| y in ids + {id} && (Q.Relationship(kind, y, x) in rs || Q.Relationship(kind, x, y) in rs);
      assert y == id || y in ids;
    }
  }

  // ----------------------------------------------------------- import edges

  /** The import edges of Stage 4 between two nodes: one per import between their files. */
  function ImportMult(rs: Rels, known: map<string, Info>, s: string, t: string): nat
    requires s in known && t in known
  {
    if known[s].fileId == "" then 0 else Mult(rs, Q.Imports, known[s].fileId, known[t].fileId)
  }

  /** The edges of one source towards the members of `active` that live in one imported file. */
  method EdgesInto(known: map<string, Info>, source: string, file: string, active: set<string>) returns (edges: seq<Edge>)
    requires active <= known.Keys
    ensures forall e: Edge :: Count(edges, e) ==
              Bit(e.kind == Q.Imports && e.source == source && e.target in active && known[e.target].fileId == file)
  {
    edges := [];
    var left := active;
    while left != {}
      invariant left <= active
      invariant forall e: Edge :: Count(edges, e) ==
                  Bit(e.kind == Q.Imports && e.source == source && e.target in active && e.target !in left
                      && known[e.target].fileId == file)
      decreases |left|
    {
      var id :| id in left;
      left := left - {id};
      ghost var before := edges;
      if known[id].fileId == file {
        edges := edges + [Edge(Q.Imports, source, id)];
        forall e: Edge ensures Count(edges, e) == Count(before, e) + Bit(e == Edge(Q.Imports, source, id)) {
          CountAppend(before, Edge(Q.Imports, source, id), e);
        }
      }
    }
  }

  /** The import edges that start at one node. */
  method EdgesFrom(known: map<string, Info>, source: string, files: seq<string>, active: set<string>) returns (edges: seq<Edge>)
    requires active <= known.Keys
    ensures forall e: Edge :: Count(edges, e) ==
              if e.kind == Q.Imports && e.source == source && e.target in active
              then Count(files, known[e.target].fileId) else 0
  {
    edges := [];
    assert files[..0] == [];
    for k := 0 to |files|
      invariant forall e: Edge :: Count(edges, e) ==
                  if e.kind == Q.Imports && e.source == source && e.target in active
                  then Count(files[..k], known[e.target].fileId) else 0
    {
      var more := EdgesInto(known, source, files[k], active);
      ghost var before := edges;
      edges := edges + more;
      forall e: Edge ensures Count(edges, e) ==
          if e.kind == Q.Imports && e.source == source && e.target in active
          then Count(files[..k + 1], known[e.target].fileId) else 0
      {
        CountConcat(before, more, e);
        assert files[..k + 1] == files[..k] + [files[k]];
        if e.target in active {
          CountAppend(files[..k], files[k], known[e.target].fileId);
        }
      }
    }
    assert files[..|files|] == files;
  }

  /** Stage 4 between the nodes `active`. */
  method ImportEdges(rs: Rels, known: map<string, Info>, importsOut: Lists, active: set<string>) returns (edges: seq<Edge>)
    requires active <= known.Keys && OutOk(importsOut, rs, |rs|, Q.Imports)
    ensures forall e: Edge :: Count(edges, e) ==
              if e.kind == Q.Imports && e.source in active && e.target in active
              then ImportMult(rs, known, e.source, e.target) else 0
  {
    edges := [];
    var left := active;
    while left != {}
      invariant left <= active
      invariant forall e: Edge :: Count(edges, e) ==
                  if e.kind == Q.Imports && e.source in active && e.source !in left && e.target in active
                  then ImportMult(rs, known, e.source, e.target) else 0
      decreases |left|
    {
      var id :| id in left;
      ghost var before, leftBefore := edges, left;
      left := left - {id};
      var file := known[id].fileId;
      if file != "" {
        var files := Q.Get(importsOut, file);
        var more := EdgesFrom(known, id, files, active);
        edges := edges + more;
        forall e: Edge ensures Count(edges, e) == Count(before, e) +
            if e.kind == Q.Imports && e.source == id && e.target in active
            then ImportMult(rs, known, id, e.target) else 0
        {
          CountConcat(before, more, e);
          if e.target in active {
            Q.ForwardBackwardDual(rs, Q.Imports, file, known[e.target].fileId);
          }
        }
      }
    }
  }

  // ------------------------------------------------------------------- flow

  const LAYERS: seq<(string, int)> := [
    ("route", 1), ("router", 1), ("api", 1), ("endpoint", 1), ("controller", 2), ("service", 3), ("handler", 3),
    ("manager", 4), ("processor", 4), ("repository", 5), ("dao", 5), ("store", 5), ("db", 6), ("database", 6),
    ("sql", 6), ("model", 7), ("entity", 7), ("schema", 7), ("response", 8), ("serializer", 8), ("dto", 8)]

  /** get_layer from entry `k` on; `mentions` is "the keyword occurs in the node's name or file". */
  function LayerFrom(mentions: string -> bool, k: nat): int
    requires k <= |LAYERS|
    decreases |LAYERS| - k
  {
    if k == |LAYERS| then 99
    else if mentions(LAYERS[k].0) then LAYERS[k].1
    else LayerFrom(mentions, k + 1)
  }

  function Layer(mentions: string -> bool): int {
    LayerFrom(mentions, 0)
  }

  lemma LayersAscend()
    ensures forall i, j :: 0 <= i < j < |LAYERS| ==> LAYERS[i].1 <= LAYERS[j].1 < 99
    ensures LAYERS[0].1 < 99
  {}

  lemma {:induction false} LayerFromIsLeast(mentions: string -> bool, k: nat)
    requires k <= |LAYERS|
    ensures forall j :: k <= j < |LAYERS| && mentions(LAYERS[j].0) ==> LayerFrom(mentions, k) <= LAYERS[j].1
    ensures LayerFrom(mentions, k) != 99 <==> exists j :: k <= j < |LAYERS| && mentions(LAYERS[j].0)
    ensures LayerFrom(mentions, k) != 99 ==>
              exists j :: k <= j < |LAYERS| && mentions(LAYERS[j].0) && LAYERS[j].1 == LayerFrom(mentions, k)
    decreases |LAYERS| - k
  {
    LayersAscend();
    if k < |LAYERS| && !mentions(LAYERS[k].0) {
      LayerFromIsLeast(mentions, k + 1);
    } else if k < |LAYERS| {
      assert LayerFrom(mentions, k) == LAYERS[k].1;
    }
  }

  /** Taking the first keyword of the sorted table gives the least layer of all keywords a node mentions. */
  lemma LayerIsLeast(mentions: string -> bool)
    ensures forall j :: 0 <= j < |LAYERS| && mentions(LAYERS[j].0) ==> Layer(mentions) <= LAYERS[j].1
    ensures Layer(mentions) != 99 <==> exists j :: 0 <= j < |LAYERS| && mentions(LAYERS[j].0)
  {
    LayerFromIsLeast(mentions, 0);
  }

  /** Which keywords put a node into a layer or an earlier one. */
  lemma LayerMeans(m: string -> bool)
    ensures Layer(m) >= 1
    ensures Layer(m) <= 1 <==> m("route") || m("router") || m("api") || m("endpoint")
    ensures Layer(m) <= 2 <==> Layer(m) <= 1 || m("controller")
    ensures Layer(m) <= 3 <==> Layer(m) <= 2 || m("service") || m("handler")
    ensures Layer(m) <= 4 <==> Layer(m) <= 3 || m("manager") || m("processor")
    ensures Layer(m) <= 5 <==> Layer(m) <= 4 || m("repository") || m("dao") || m("store")
    ensures Layer(m) <= 6 <==> Layer(m) <= 5 || m("db") || m("database") || m("sql")
    ensures Layer(m) <= 7 <==> Layer(m) <= 6 || m("model") || m("entity") || m("schema")
    ensures Layer(m) <= 8 <==> Layer(m) <= 7 || m("response") || m("serializer") || m("dto")
    ensures Layer(m) > 8 ==> Layer(m) == 99
  {
    FirstLayers(m);
    NextLayers(m);
    MiddleLayers(m);
    LastLayers(m);
  }

  /** Three entries of the table at a time. */
  lemma LayerUnfolds(m: string -> bool, k: nat)
    requires k + 3 <= |LAYERS|
    ensures LayerFrom(m, k) ==
            if m(LAYERS[k].0) then LAYERS[k].1
            else if m(LAYERS[k + 1].0) then LAYERS[k + 1].1
            else if m(LAYERS[k + 2].0) then LAYERS[k + 2].1
            else LayerFrom(m, k + 3)
  {
    assert LayerFrom(m, k + 1) == if m(LAYERS[k + 1].0) then LAYERS[k + 1].1 else LayerFrom(m, k + 2);
  }

  lemma FirstLayers(m: string -> bool)
    ensures Layer(m) ==
            if m("route") || m("router") || m("api") || m("endpoint") then 1
            else if m("controller") then 2
            else if m("service") then 3
            else LayerFrom(m, 6)
  {
    LayerUnfolds(m, 0);
    MoreLayers(m);
  }

  lemma MoreLayers(m: string -> bool)
    ensures LayerFrom(m, 3) ==
            if m("endpoint") then 1 else if m("controller") then 2 else if m("service") then 3 else LayerFrom(m, 6)
  {
    LayerUnfolds(m, 3);
  }

  lemma NextLayers(m: string -> bool)
    ensures LayerFrom(m, 6) == if m("handler") then 3 else if m("manager") || m("processor") then 4 else LayerFrom(m, 9)
  {
    LayerUnfolds(m, 6);
  }

  lemma MiddleLayers(m: string -> bool)
    ensures LayerFrom(m, 9) ==
            if m("repository") || m("dao") || m("store") then 5
            else if m("db") || m("database") || m("sql") then 6
            else LayerFrom(m, 15)
  {
    LayerUnfolds(m, 9);
    LayerUnfolds(m, 12);
  }

  lemma LastLayers(m: string -> bool)
    ensures LayerFrom(m, 15) ==
            if m("model") || m("entity") || m("schema") then 7
            else if m("response") || m("serializer") || m("dto") then 8
            else 99
  {
    LayerUnfolds(m, 15);
    LayerUnfolds(m, 18);
  }

  /** list.sort(key=...): ascending and stable. */
  function InsertBy(s: seq<string>, x: string, key: string -> int): seq<string> {
    if s == [] || key(s[|s| - 1]) <= key(x) then s + [x]
    else InsertBy(s[..|s| - 1], x, key) + [s[|s| - 1]]
  }

  function SortBy(s: seq<string>, key: string -> int): seq<string> {
    if s == [] then [] else InsertBy(SortBy(s[..|s| - 1], key), s[|s| - 1], key)
  }

  predicate Ascending(s: seq<string>, key: string -> int) {
    forall i, j :: 0 <= i < j < |s| ==> key(s[i]) <= key(s[j])
  }

  lemma {:induction false} InsertByMembers(s: seq<string>, x: string, key: string -> int)
    ensures |InsertBy(s, x, key)| == |s| + 1
    ensures forall y :: y in InsertBy(s, x, key) <==> y in s || y == x
    ensures NoRepeats(s) && x !in s ==> NoRepeats(InsertBy(s, x, key))
  {
    if s != [] && key(s[|s| - 1]) > key(x) {
      var init, last := s[..|s| - 1], s[|s| - 1];
      InsertByMembers(init, x, key);
      assert s == init + [last];
      if NoRepeats(s) && x !in s {
        LastIsNew(s);
        NoRepeatsConcat(InsertBy(init, x, key), [last]);
      }
    }
  }

  lemma LastIsNew(s: seq<string>)
    requires s != [] && NoRepeats(s)
    ensures NoRepeats(s[..|s| - 1]) && s[|s| - 1] !in s[..|s| - 1]
  {
    var init := s[..|s| - 1];
    forall i | 0 <= i < |init| ensures init[i] != s[|s| - 1] {
      assert init[i] == s[i];
    }
  }

  lemma AscendingAppend(s: seq<string>, last: string, key: string -> int)
    requires Ascending(s, key) && forall y :: y in s ==> key(y) <= key(last)
    ensures Ascending(s + [last], key)
  {}

  lemma {:induction false} InsertByAscends(s: seq<string>, x: string, key: string -> int)
    requires Ascending(s, key)
    ensures Ascending(InsertBy(s, x, key), key)
  {
    if s != [] && key(s[|s| - 1]) > key(x) {
      var init, last := s[..|s| - 1], s[|s| - 1];
      InsertByAscends(init, x, key);
      InsertByMembers(init, x, key);
      var r := InsertBy(init, x, key);
      forall y | y in r ensures key(y) <= key(last) {
        if y != x {
          var i :| 0 <= i < |init| && init[i] == y;
          assert s[i] == y;
        }
      }
      AscendingAppend(r, last, key);
    }
  }

  lemma {:induction false} SortByOk(s: seq<string>, key: string -> int)
    ensures Ascending(SortBy(s, key), key) && |SortBy(s, key)| == |s|
    ensures forall y :: y in SortBy(s, key) <==> y in s
    ensures NoRepeats(s) ==> NoRepeats(SortBy(s, key))
  {
    if s != [] {
      var init, last := s[..|s| - 1], s[|s| - 1];
      assert s == init + [last];
      SortByOk(init, key);
      InsertByMembers(SortBy(init, key), last, key);
      InsertByAscends(SortBy(init, key), last, key);
    }
  }

  function Layered(s: seq<string>, layer: string -> int): seq<string> {
    if s == [] then []
    else Layered(s[..|s| - 1], layer) + (if layer(s[|s| - 1]) != 99 then [s[|s| - 1]] else [])
  }

  lemma {:induction false} LayeredMembers(s: seq<string>, layer: string -> int)
    requires NoRepeats(s)
    ensures NoRepeats(Layered(s, layer))
    ensures forall x :: x in Layered(s, layer) <==> x in s && layer(x) != 99
  {
    if s != [] {
      var init, last := s[..|s| - 1], s[|s| - 1];
      LastIsNew(s);
      LayeredMembers(init, layer);
      assert s == init + [last];
      NoRepeatsConcat(Layered(init, layer), if layer(last) != 99 then [last] else []);
    }
  }

  lemma {:induction false} LayeredAscends(s: seq<string>, layer: string -> int)
    requires Ascending(s, layer) && NoRepeats(s)
    ensures Ascending(Layered(s, layer), layer)
  {
    if s != [] {
      var init, last := s[..|s| - 1], s[|s| - 1];
      LastIsNew(s);
      LayeredAscends(init, layer);
      LayeredMembers(init, layer);
      var r := Layered(init, layer);
      forall i | 0 <= i < |r| ensures layer(r[i]) <= layer(last) {
        assert r[i] in init;
        var j :| 0 <= j < |init| && init[j] == r[i];
        assert s[j] == init[j];
      }
    }
  }

  function Degree(edges: seq<Edge>, id: string): nat {
    if edges == [] then 0
    else Degree(edges[..|edges| - 1], id) + Bit(edges[|edges| - 1].source == id) + Bit(edges[|edges| - 1].target == id)
  }

  /** The degree of a node: the edges that leave it, and the edges that enter it. */
  lemma DegreeMeans(edges: seq<Edge>, id: string)
    ensures Degree(edges, id) ==
            |set i: nat | i < |edges| && edges[i].source == id| + |set i: nat | i < |edges| && edges[i].target == id|
  {
    OutDegreeCounts(edges, id);
    InDegreeCounts(edges, id);
    DegreeSplits(edges, |edges|, id);
    assert edges[..|edges|] == edges;
  }

  lemma OutDegreeCounts(edges: seq<Edge>, id: string)
    ensures OutDegree(edges, |edges|, id) == |set i: nat | i < |edges| && edges[i].source == id|
  {
    var p := (i: nat) => i < |edges| && edges[i].source == id;
    CounterCounts(p, (n: nat) => if n <= |edges| then OutDegree(edges, n, id) else 0, |edges|);
    assert (set i: nat | i < |edges| && p(i)) == set i: nat | i < |edges| && edges[i].source == id;
  }

  lemma InDegreeCounts(edges: seq<Edge>, id: string)
    ensures InDegree(edges, |edges|, id) == |set i: nat | i < |edges| && edges[i].target == id|
  {
    var p := (i: nat) => i < |edges| && edges[i].target == id;
    CounterCounts(p, (n: nat) => if n <= |edges| then InDegree(edges, n, id) else 0, |edges|);
    assert (set i: nat | i < |edges| && p(i)) == set i: nat | i < |edges| && edges[i].target == id;
  }

  function OutDegree(edges: seq<Edge>, n: nat, id: string): nat
    requires n <= |edges|
  {
    if n == 0 then 0 else OutDegree(edges, n - 1, id) + if edges[n - 1].source == id then 1 else 0
  }

  function InDegree(edges: seq<Edge>, n: nat, id: string): nat
    requires n <= |edges|
  {
    if n == 0 then 0 else InDegree(edges, n - 1, id) + if edges[n - 1].target == id then 1 else 0
  }

  lemma {:induction false} DegreeSplits(edges: seq<Edge>, n: nat, id: string)
    requires n <= |edges|
    ensures Degree(edges[..n], id) == OutDegree(edges, n, id) + InDegree(edges, n, id)
  {
    if n > 0 {
      DegreeSplits(edges, n - 1, id);
      assert edges[..n][..n - 1] == edges[..n - 1];
    }
  }

  /** The layered nodes, once each, by layer. */
  ghost predicate IsLayeredFlow(flow: seq<string>, nodes: seq<string>, layer: string -> int) {
    Ascending(flow, layer) && NoRepeats(flow) && forall id :: id in flow <==> id in nodes && layer(id) != 99
  }

  /** The ten nodes with most edges, by degree. */
  ghost predicate IsDegreeFlow(flow: seq<string>, nodes: seq<string>, edges: seq<Edge>) {
    && |flow| == (if |nodes| < 10 then |nodes| else 10) && NoRepeats(flow)
    && (forall id :: id in flow ==> id in nodes)
    && (forall i, j :: 0 <= i < j < |flow| ==> Degree(edges, flow[i]) >= Degree(edges, flow[j]))
    && forall a, b :: a in flow && b in nodes && b !in flow ==> Degree(edges, a) >= Degree(edges, b)
  }

  /** What the flow promises about the nodes. */
  ghost predicate IsFlow(flow: seq<string>, nodes: seq<string>, edges: seq<Edge>, layer: string -> int) {
    if exists id :: id in nodes && layer(id) != 99 then IsLayeredFlow(flow, nodes, layer)
    else IsDegreeFlow(flow, nodes, edges)
  }

  /** Stage 5. The last fallback of the source is never taken: an empty flow means there are no nodes. */
  method BuildFlow(nodes: seq<string>, edges: seq<Edge>, layer: string -> int) returns (flow: seq<string>)
    requires NoRepeats(nodes)
    ensures IsFlow(flow, nodes, edges, layer)
    ensures flow == [] <==> nodes == []
  {
    var ordered := SortBy(nodes, layer);
    SortByOk(nodes, layer);
    LayeredMembers(ordered, layer);
    LayeredAscends(ordered, layer);
    flow := Layered(ordered, layer);
    if flow == [] {
      assert forall id :: id in nodes ==> layer(id) == 99;
      flow := MostConnected(nodes, ordered, edges);
    } else {
      assert flow[0] in flow;
    }
  }

  method MostConnected(nodes: seq<string>, ordered0: seq<string>, edges: seq<Edge>) returns (flow: seq<string>)
    requires NoRepeats(ordered0) && |ordered0| == |nodes| && forall id :: id in ordered0 <==> id in nodes
    ensures IsDegreeFlow(flow, nodes, edges)
  {
    var key := (id: string) => -(Degree(edges, id) as int);
    SortByOk(ordered0, key);
    var ordered := SortBy(ordered0, key);
    var n := if |ordered| < 10 then |ordered| else 10;
    flow := ordered[..n];
    HeadIsLeast(ordered, n, key);
    assert forall a, b :: a in flow && b in nodes && b !in flow ==> key(a) <= key(b);
    assert forall i, j :: 0 <= i < j < |flow| ==> key(flow[i]) <= key(flow[j]);
  }

  lemma HeadIsLeast(s: seq<string>, n: nat, key: string -> int)
    requires Ascending(s, key) && n <= |s| && NoRepeats(s)
    ensures NoRepeats(s[..n]) && Ascending(s[..n], key)
    ensures forall a :: a in s[..n] ==> a in s
    ensures forall a, b :: a in s[..n] && b in s && b !in s[..n] ==> key(a) <= key(b)
  {
    var head := s[..n];
    assert forall i :: 0 <= i < n ==> head[i] == s[i] && s[i] in head;
    forall a, b | a in head && b in s && b !in head ensures key(a) <= key(b) {
      var i :| 0 <= i < n && head[i] == a;
      var j :| 0 <= j < |s| && s[j] == b;
      assert j >= n;
      assert key(s[i]) <= key(s[j]);
    }
  }

  // ------------------------------------------------------------------ trace

  /** trace_feature. `layer` is get_layer of a node. */
  method TraceFeature(rs: Rels, known: map<string, Info>, seeds: set<string>, layer: string -> int)
      returns (flow: seq<string>, nodes: seq<string>, edges: seq<Edge>, ghost afterDepends: set<string>)
    // after Stage 2: the seeds, and what is one DEPENDS_ON relationship away from one, in either direction
    ensures forall x :: x in afterDepends <==>
              || x in seeds
              || exists y :: y in seeds && (Q.Relationship(Q.DependsOn, y, x) in rs || Q.Relationship(Q.DependsOn, x, y) in rs)
    // the nodes: those, and what is one CALLS relationship away from one of them, as far as the model has them
    ensures NoRepeats(nodes)
    ensures forall x :: x in nodes <==>
              && x in known
              && (|| x in afterDepends
                  || exists y :: y in afterDepends && (Q.Relationship(Q.Calls, y, x) in rs || Q.Relationship(Q.Calls, x, y) in rs))
    // every edge is a model relationship, once per endpoint in the frontier of its stage
    ensures forall e: Edge :: multiset(edges)[e] ==
              match e.kind
              case DependsOn =>
                multiset(rs)[Q.Relationship(Q.DependsOn, e.source, e.target)]
                * ((if e.source in seeds then 1 else 0) + (if e.target in seeds then 1 else 0))
              case Calls =>
                multiset(rs)[Q.Relationship(Q.Calls, e.source, e.target)]
                * ((if e.source in afterDepends then 1 else 0) + (if e.target in afterDepends then 1 else 0))
              case Imports =>
                if e.source in nodes && e.target in nodes && known[e.source].fileId != ""
                then multiset(rs)[Q.Relationship(Q.Imports, known[e.source].fileId, known[e.target].fileId)] else 0
              case _ => 0
    // the flow: the layered nodes by layer, if there are any
    ensures NoRepeats(flow)
    ensures (exists id :: id in nodes && layer(id) != 99) ==>
              && (forall id :: id in flow <==> id in nodes && layer(id) != 99)
              && forall i, j :: 0 <= i < j < |flow| ==> layer(flow[i]) <= layer(flow[j])
    // else ten nodes, by their number of edges, that none of the others exceeds
    ensures (forall id :: id in nodes ==> layer(id) == 99) ==>
              && |flow| == (if |nodes| < 10 then |nodes| else 10) && (forall id :: id in flow ==> id in nodes)
              && (forall i, j :: 0 <= i < j < |flow| ==> Degree(edges, flow[i]) >= Degree(edges, flow[j]))
              && forall a, b :: a in flow && b in nodes && b !in flow ==> Degree(edges, a) >= Degree(edges, b)
  {
    flow, nodes, edges, afterDepends := TraceStages(rs, known, seeds, layer);
    forall e: Edge ensures multiset(edges)[e] == Emitted(rs, known, seeds, afterDepends, nodes, e) {
      CountIsMultiset(edges, e);
    }
    forall r: Q.Relationship ensures multiset(rs)[r] == Count(rs, r) {
      CountIsMultiset(rs, r);
    }
  }

  /** The edges of the stages, by multiplicity. */
  ghost function Emitted(rs: Rels, known: map<string, Info>, seeds: set<string>, afterDepends: set<string>, nodes: seq<string>,
                         e: Edge): nat
    requires forall x :: x in nodes ==> x in known
  {
    match e.kind
    case DependsOn => Times(Mult(rs, Q.DependsOn, e.source, e.target), e.source in seeds, e.target in seeds)
    case Calls => Times(Mult(rs, Q.Calls, e.source, e.target), e.source in afterDepends, e.target in afterDepends)
    case Imports => if e.source in nodes && e.target in nodes then ImportMult(rs, known, e.source, e.target) else 0
    case _ => 0
  }

  method TraceStages(rs: Rels, known: map<string, Info>, seeds: set<string>, layer: string -> int)
      returns (flow: seq<string>, nodes: seq<string>, edges: seq<Edge>, ghost afterDepends: set<string>)
    ensures forall x :: x in afterDepends <==> x in seeds || Neighbour(rs, Q.DependsOn, seeds, x)
    ensures NoRepeats(nodes)
    ensures forall x :: x in nodes <==> x in known && (x in afterDepends || Neighbour(rs, Q.Calls, afterDepends, x))
    ensures forall e: Edge :: Count(edges, e) == Emitted(rs, known, seeds, afterDepends, nodes, e)
    ensures IsFlow(flow, nodes, edges, layer)
  {
    var a := BuildAdjacency(rs);
    var active := seeds;
    nodes := [];
    var left := active;
    while left != {}
      invariant left <= seeds && NoRepeats(nodes)
      invariant forall x :: x in nodes <==> x in seeds && x !in left && x in known
      decreases |left|
    {
      var id :| id in left;
      nodes := AddNode(nodes, known, id);
      left := left - {id};
    }
    var dependEdges, callEdges, found;
    nodes, dependEdges, found := Expand(rs, Q.DependsOn, active, a.dependsOut, a.dependsIn, known, nodes);
    active := active + found;
    afterDepends := active;
    nodes, callEdges, found := Expand(rs, Q.Calls, active, a.callsOut, a.callsIn, known, nodes);
    active := active + found;
    var present := set id | id in active && id in known;
    assert forall x :: x in nodes <==> x in present;
    var importEdges := ImportEdges(rs, known, a.importsOut, present);
    edges := dependEdges + callEdges + importEdges;
    forall e: Edge ensures Count(edges, e)
        == Count(dependEdges, e) + Count(callEdges, e) + Count(importEdges, e)
    {
      CountConcat(dependEdges + callEdges, importEdges, e);
      CountConcat(dependEdges, callEdges, e);
    }
    flow := BuildFlow(nodes, edges, layer);
  }
}
