/** find_path: Dijkstra's algorithm with a lazily cleaned heap (src/traversal.rs:115-260), over exact reals. */
module PathSearch {
  import opened Types
  import opened Seqs
  import opened Overlay
  import opened Perms

  // ---------------------------------------------------------------------
  // Costs and paths
  // ---------------------------------------------------------------------

  const FLOOR: real := 0.001

  /** The cost of stepping onto a node: cheap for high scores, and never free. */
  function StepCost(g: GraphView, ctx: Context, name: string): (c: real)
    ensures 0.0 < c <= 1000.0
  {
    var r := Resolve(g, ctx, name);
    var score := if r.Some? then ctx.score(r.value) else FLOOR;
    var floored := if score > FLOOR then score else FLOOR;
    1.0 / floored
  }

  /** The search sees the graph only as a neighbour list and a cost per node. */
  datatype Net = Net(next: string -> seq<NeighborEntry>, cost: string -> real)

  ghost predicate Positive(net: Net) { forall n :: net.cost(n) > 0.0 }

  function NetOf(g: GraphView, ctx: Context): (net: Net)
    ensures Positive(net)
  {
    Net(n => Neighbors(g, ctx, n), n => StepCost(g, ctx, n))
  }

  predicate Linked(net: Net, a: string, b: string) {
    exists e :: e in net.next(a) && e.name == b
  }

  ghost predicate IsPath(net: Net, p: seq<string>) {
    p != [] && forall i :: 0 < i < |p| ==> Linked(net, p[i - 1], p[i])
  }

  function PathCost(net: Net, p: seq<string>): real
    requires p != []
  {
    if |p| == 1 then 0.0 else PathCost(net, p[..|p| - 1]) + net.cost(p[|p| - 1])
  }

  ghost predicate PathFromTo(net: Net, p: seq<string>, start: string, end: string) {
    IsPath(net, p) && p[0] == start && p[|p| - 1] == end
  }

  datatype PathStep = PathStep(node: string, edgeKind: string, fieldName: string, direction: string)

  function Origin(start: string): PathStep { PathStep(start, "", "", "") }

  function StepAlong(e: NeighborEntry): PathStep {
    PathStep(e.name, e.kind, if e.fieldName.Some? then e.fieldName.value else "", "outgoing")
  }

  ghost predicate StepOk(net: Net, from: string, step: PathStep) {
    exists e :: e in net.next(from) && step == StepAlong(e)
  }

  /** Each step is a real neighbour edge of the node before it, the first of them leaving `from`. */
  ghost predicate RouteFrom(net: Net, from: string, steps: seq<PathStep>)
    decreases |steps|
  {
    steps == [] || (StepOk(net, from, steps[0]) && RouteFrom(net, steps[0].node, steps[1..]))
  }

  function StepsCost(net: Net, steps: seq<PathStep>): real {
    if steps == [] then 0.0 else net.cost(steps[0].node) + StepsCost(net, steps[1..])
  }

  function EndOf(from: string, steps: seq<PathStep>): string {
    if steps == [] then from else steps[|steps| - 1].node
  }

  /** What find_path returns: the origin, then the steps of a route. */
  ghost predicate IsRoute(net: Net, route: seq<PathStep>, start: string, end: string) {
    route != [] && route[0] == Origin(start) && RouteFrom(net, start, route[1..]) && EndOf(start, route[1..]) == end
  }

  function RouteCost(net: Net, route: seq<PathStep>): real
    requires route != []
  {
    StepsCost(net, route[1..])
  }

  // ---------------------------------------------------------------------
  // The state of the search
  // ---------------------------------------------------------------------

  datatype Entry = Entry(cost: real, node: string)

  datatype ParentInfo = ParentInfo(from: string, kind: string, fieldName: Option<string>)

  /** `settled` numbers the nodes already expanded in the order of their expansion. */
  datatype Search = Search(
    dist: map<string, real>,
    parent: map<string, ParentInfo>,
    heap: multiset<Entry>,
    settled: map<string, nat>)

  ghost predicate ParentOk(net: Net, s: Search, n: string)
    requires n in s.dist
  {
    && n in s.parent
    && var info := s.parent[n];
    && info.from in s.settled && info.from in s.dist
    && s.dist[n] == s.dist[info.from] + net.cost(n)
    && StepOk(net, info.from, StepTo(n, info))
    && (n in s.settled ==> s.settled[info.from] < s.settled[n])
  }

  /** Every known distance is that of the path its parents spell out. */
  ghost predicate TreeOk(net: Net, s: Search, start: string) {
    && start in s.dist && s.dist[start] == 0.0
    && (forall n :: n in s.dist ==> s.dist[n] >= 0.0)
    && (forall n :: n in s.dist && n != start ==> ParentOk(net, s, n))
    && (forall n :: n in s.settled ==> n in s.dist && s.settled[n] < |s.settled|)
  }

  /** No neighbour of m, among those listed, is further than through m. */
  ghost predicate RelaxedFrom(net: Net, s: Search, m: string, entries: seq<NeighborEntry>)
    requires m in s.dist
  {
    forall e :: e in entries ==> e.name in s.dist && s.dist[e.name] <= s.dist[m] + net.cost(e.name)
  }

  /** Stale entries only ever overstate; those of expanded nodes are all stale. */
  ghost predicate EntriesOk(s: Search) {
    forall e :: e in s.heap ==>
      && e.node in s.dist && e.cost >= s.dist[e.node]
      && (e.node in s.settled ==> e.cost > s.dist[e.node])
  }

  /** Every open node has an exact entry. */
  ghost predicate OpenOk(s: Search) {
    forall n :: n in s.dist && n !in s.settled ==> Entry(s.dist[n], n) in s.heap
  }

  /** No node has two exact entries. */
  ghost predicate UniqueOk(s: Search) {
    forall n :: n in s.dist ==> s.heap[Entry(s.dist[n], n)] <= 1
  }

  ghost predicate HeapOk(s: Search) {
    EntriesOk(s) && OpenOk(s) && UniqueOk(s)
  }

  /** Expanded nodes are no further than anything still in the heap. */
  ghost predicate FrontierOk(s: Search) {
    forall m, e :: m in s.settled && m in s.dist && e in s.heap ==> s.dist[m] <= e.cost
  }

  ghost predicate SearchInv(net: Net, s: Search, start: string) {
    && TreeOk(net, s, start)
    && HeapOk(s)
    && FrontierOk(s)
    && (forall m :: m in s.settled ==> RelaxedFrom(net, s, m, net.next(m)))
  }

  /** While the neighbours of `node` are being relaxed, with the first `done` of them finished. */
  ghost predicate Relaxing(net: Net, s: Search, start: string, node: string, done: nat) {
    && TreeOk(net, s, start)
    && HeapOk(s)
    && FrontierOk(s)
    && node in s.settled
    && done <= |net.next(node)|
    && (forall m :: m in s.settled ==> s.dist[m] <= s.dist[node])
    && (forall m :: m in s.settled && m != node ==> RelaxedFrom(net, s, m, net.next(m)))
    && RelaxedFrom(net, s, node, net.next(node)[..done])
  }

  function Initial(start: string): Search {
    Search(map[start := 0.0], map[], multiset{Entry(0.0, start)}, map[])
  }

  function Popped(s: Search, e: Entry): Search { s.(heap := s.heap - multiset{e}) }

  function Settle(s: Search, node: string): Search { s.(settled := s.settled[node := |s.settled|]) }

  /** Recording a shorter way to `e.name` through `node`. */
  function Improve(net: Net, s: Search, node: string, cost: real, e: NeighborEntry): Search {
    var newCost := cost + net.cost(e.name);
    s.(dist := s.dist[e.name := newCost],
       parent := s.parent[e.name := ParentInfo(node, e.kind, e.fieldName)],
       heap := s.heap + multiset{Entry(newCost, e.name)})
  }

  // ---------------------------------------------------------------------
  // Each step keeps the invariant
  // ---------------------------------------------------------------------

  lemma InitialInv(net: Net, start: string)
    ensures SearchInv(net, Initial(start), start)
  {
  }

  lemma PoppedStaleHeap(s: Search, e: Entry)
    requires HeapOk(s) && e in s.heap && e.node in s.dist && e.cost > s.dist[e.node]
    ensures HeapOk(Popped(s, e))
  {
    var t := Popped(s, e);
    forall n | n in t.dist && n !in t.settled ensures Entry(t.dist[n], n) in t.heap {
      assert Entry(s.dist[n], n) in s.heap;
    }
  }

  /** The tree does not look at the heap. */
  lemma PoppedTree(net: Net, s: Search, start: string, e: Entry)
    requires TreeOk(net, s, start)
    ensures TreeOk(net, Popped(s, e), start)
  {
    var t := Popped(s, e);
    forall n | n in t.dist && n != start ensures ParentOk(net, t, n) {
      assert ParentOk(net, s, n);
    }
  }

  lemma PoppedStale(net: Net, s: Search, start: string, e: Entry)
    requires SearchInv(net, s, start) && e in s.heap && e.cost > s.dist[e.node]
    ensures SearchInv(net, Popped(s, e), start)
  {
    var t := Popped(s, e);
    PoppedStaleHeap(s, e);
    PoppedTree(net, s, start, e);
    forall m | m in t.settled ensures RelaxedFrom(net, t, m, net.next(m)) {
      assert RelaxedFrom(net, s, m, net.next(m));
    }
  }

  /** The least entry of a node is exact until the node is expanded. */
  lemma LeastEntryIsExact(net: Net, s: Search, start: string, e: Entry)
    requires SearchInv(net, s, start) && e in s.heap
    requires forall f :: f in s.heap ==> e.cost <= f.cost
    ensures e.node !in s.settled ==> e.cost == s.dist[e.node]
    ensures e.cost == s.dist[e.node] ==> e.node !in s.settled
  {
    if e.node !in s.settled {
      assert Entry(s.dist[e.node], e.node) in s.heap;
    }
  }

  lemma SettleParent(net: Net, s: Search, start: string, node: string, n: string)
    requires TreeOk(net, s, start) && n in s.dist && n != start && node !in s.settled
    ensures ParentOk(net, Settle(s, node), n)
  {
    assert ParentOk(net, s, n);
  }

  lemma SettleTree(net: Net, s: Search, start: string, node: string)
    requires TreeOk(net, s, start) && node in s.dist && node !in s.settled
    ensures TreeOk(net, Settle(s, node), start)
  {
    var t := Settle(s, node);
    OneMoreKey(s.settled, node, |s.settled|);
    forall n | n in t.dist && n != start ensures ParentOk(net, t, n) {
      SettleParent(net, s, start, node, n);
    }
  }

  lemma OneMoreKey(m: map<string, nat>, x: string, v: nat)
    requires x !in m
    ensures |m[x := v]| == |m| + 1
  {
    assert m[x := v].Keys == m.Keys + {x};
    assert |m[x := v].Keys| == |m.Keys| + 1;
  }

  lemma SettleEntries(s: Search, e: Entry)
    requires HeapOk(s) && e in s.heap && e.cost == s.dist[e.node]
    ensures EntriesOk(Settle(Popped(s, e), e.node))
  {
    var t := Settle(Popped(s, e), e.node);
    assert s.heap[Entry(s.dist[e.node], e.node)] <= 1;
    forall f | f in t.heap ensures f in s.heap && f != e {
    }
  }

  lemma SettleOpen(s: Search, e: Entry)
    requires HeapOk(s) && e in s.heap && e.cost == s.dist[e.node]
    ensures OpenOk(Settle(Popped(s, e), e.node)) && UniqueOk(Settle(Popped(s, e), e.node))
  {
    var t := Settle(Popped(s, e), e.node);
    forall n | n in t.dist && n !in t.settled ensures Entry(t.dist[n], n) in t.heap {
      assert Entry(s.dist[n], n) in s.heap;
    }
    forall n | n in t.dist ensures t.heap[Entry(t.dist[n], n)] <= 1 {
      assert s.heap[Entry(s.dist[n], n)] <= 1;
    }
  }

  lemma SettleFrontier(s: Search, e: Entry)
    requires HeapOk(s) && FrontierOk(s) && e in s.heap && e.cost == s.dist[e.node]
    requires forall f :: f in s.heap ==> e.cost <= f.cost
    ensures FrontierOk(Settle(Popped(s, e), e.node))
  {
    var t := Settle(Popped(s, e), e.node);
    forall f | f in t.heap ensures f in s.heap {
    }
  }

  lemma SettleKeeps(net: Net, s: Search, start: string, e: Entry)
    requires SearchInv(net, s, start) && e in s.heap && e.cost <= s.dist[e.node]
    requires forall f :: f in s.heap ==> e.cost <= f.cost
    ensures e.cost == s.dist[e.node]
    ensures Relaxing(net, Settle(Popped(s, e), e.node), start, e.node, 0)
  {
    LeastEntryIsExact(net, s, start, e);
    PoppedTree(net, s, start, e);
    SettleTree(net, Popped(s, e), start, e.node);
    SettleEntries(s, e);
    SettleOpen(s, e);
    SettleFrontier(s, e);
    var t := Settle(Popped(s, e), e.node);
    forall m | m in t.settled && m != e.node ensures RelaxedFrom(net, t, m, net.next(m)) {
      assert RelaxedFrom(net, s, m, net.next(m));
    }
  }

  /** Only an open node can be improved. */
  lemma ImprovedIsOpen(net: Net, s: Search, start: string, node: string, done: nat, e: NeighborEntry)
    requires Relaxing(net, s, start, node, done)
    requires Positive(net)
    requires e.name !in s.dist || s.dist[node] + net.cost(e.name) < s.dist[e.name]
    ensures e.name !in s.settled && e.name != start
  {
  }

  lemma ImproveParent(net: Net, s: Search, start: string, node: string, done: nat, e: NeighborEntry, n: string)
    requires Relaxing(net, s, start, node, done)
    requires e in net.next(node)
    requires e.name !in s.settled && e.name != start
    requires n == e.name || (n in s.dist && n != start)
    ensures ParentOk(net, Improve(net, s, node, s.dist[node], e), n)
  {
    if n != e.name {
      assert ParentOk(net, s, n);
    } else {
      assert StepAlong(e) == StepTo(n, ParentInfo(node, e.kind, e.fieldName));
    }
  }

  lemma ImproveTree(net: Net, s: Search, start: string, node: string, done: nat, e: NeighborEntry)
    requires Relaxing(net, s, start, node, done)
    requires e in net.next(node)
    requires Positive(net)
    requires e.name !in s.dist || s.dist[node] + net.cost(e.name) < s.dist[e.name]
    ensures TreeOk(net, Improve(net, s, node, s.dist[node], e), start)
  {
    ImprovedIsOpen(net, s, start, node, done, e);
    var t := Improve(net, s, node, s.dist[node], e);
    forall n | n in t.dist && n != start ensures ParentOk(net, t, n) {
      ImproveParent(net, s, start, node, done, e, n);
    }
  }

  /** The new entry undercuts every older entry of the same node. */
  lemma NewEntry(net: Net, s: Search, start: string, node: string, done: nat, e: NeighborEntry)
    requires Relaxing(net, s, start, node, done)
    requires Positive(net)
    requires e.name !in s.dist || s.dist[node] + net.cost(e.name) < s.dist[e.name]
    ensures Entry(s.dist[node] + net.cost(e.name), e.name) !in s.heap
    ensures forall f :: f in s.heap && f.node == e.name ==> f.cost > s.dist[node] + net.cost(e.name)
  {
  }

  lemma ImproveEntries(net: Net, s: Search, start: string, node: string, done: nat, e: NeighborEntry)
    requires Relaxing(net, s, start, node, done)
    requires Positive(net)
    requires e.name !in s.dist || s.dist[node] + net.cost(e.name) < s.dist[e.name]
    ensures EntriesOk(Improve(net, s, node, s.dist[node], e))
  {
    ImprovedIsOpen(net, s, start, node, done, e);
    NewEntry(net, s, start, node, done, e);
    var t := Improve(net, s, node, s.dist[node], e);
    forall f | f in t.heap ensures f in s.heap || f == Entry(t.dist[e.name], e.name) {
    }
  }

  lemma ImproveOpen(net: Net, s: Search, node: string, e: NeighborEntry)
    requires OpenOk(s) && node in s.dist
    ensures OpenOk(Improve(net, s, node, s.dist[node], e))
  {
    var t := Improve(net, s, node, s.dist[node], e);
    forall n | n in t.dist && n !in t.settled ensures Entry(t.dist[n], n) in t.heap {
      assert n != e.name ==> Entry(s.dist[n], n) in s.heap;
    }
  }

  lemma ImproveUnique(net: Net, s: Search, node: string, e: NeighborEntry)
    requires UniqueOk(s) && node in s.dist
    requires Entry(s.dist[node] + net.cost(e.name), e.name) !in s.heap
    ensures UniqueOk(Improve(net, s, node, s.dist[node], e))
  {
    var t := Improve(net, s, node, s.dist[node], e);
    forall n | n in t.dist ensures t.heap[Entry(t.dist[n], n)] <= 1 {
      assert n != e.name ==> s.heap[Entry(s.dist[n], n)] <= 1;
    }
  }

  lemma ImproveFrontier(net: Net, s: Search, start: string, node: string, done: nat, e: NeighborEntry)
    requires Relaxing(net, s, start, node, done)
    requires Positive(net)
    requires e.name !in s.dist || s.dist[node] + net.cost(e.name) < s.dist[e.name]
    ensures var t := Improve(net, s, node, s.dist[node], e);
      && FrontierOk(t)
      && (forall m :: m in t.settled ==> t.dist[m] == s.dist[m])
  {
    ImprovedIsOpen(net, s, start, node, done, e);
    var t := Improve(net, s, node, s.dist[node], e);
    forall f | f in t.heap ensures f in s.heap || f.cost >= s.dist[node] {
    }
  }

  /** What was relaxed stays relaxed when some distance shrinks. */
  lemma ImproveRelaxed(net: Net, s: Search, node: string, e: NeighborEntry, m: string, entries: seq<NeighborEntry>)
    requires node in s.dist && m in s.dist && m != e.name
    requires e.name !in s.dist || s.dist[node] + net.cost(e.name) < s.dist[e.name]
    requires RelaxedFrom(net, s, m, entries)
    ensures RelaxedFrom(net, Improve(net, s, node, s.dist[node], e), m, entries)
  {
  }

  lemma RelaxedSnoc(net: Net, s: Search, m: string, entries: seq<NeighborEntry>, done: nat)
    requires m in s.dist && done < |entries|
    requires RelaxedFrom(net, s, m, entries[..done])
    requires entries[done].name in s.dist && s.dist[entries[done].name] <= s.dist[m] + net.cost(entries[done].name)
    ensures RelaxedFrom(net, s, m, entries[..done + 1])
  {
    assert entries[..done + 1] == entries[..done] + [entries[done]];
  }

  lemma ImproveKeeps(net: Net, s: Search, start: string, node: string, done: nat)
    requires Positive(net)
    requires Relaxing(net, s, start, node, done) && done < |net.next(node)|
    requires var e := net.next(node)[done]; e.name !in s.dist || s.dist[node] + net.cost(e.name) < s.dist[e.name]
    ensures Relaxing(net, Improve(net, s, node, s.dist[node], net.next(node)[done]), start, node, done + 1)
  {
    var e := net.next(node)[done];
    var t := Improve(net, s, node, s.dist[node], e);
    ImprovedIsOpen(net, s, start, node, done, e);
    ImproveTree(net, s, start, node, done, e);
    ImproveEntries(net, s, start, node, done, e);
    NewEntry(net, s, start, node, done, e);
    ImproveOpen(net, s, node, e);
    ImproveUnique(net, s, node, e);
    ImproveFrontier(net, s, start, node, done, e);
    forall m | m in t.settled && m != node ensures RelaxedFrom(net, t, m, net.next(m)) {
      ImproveRelaxed(net, s, node, e, m, net.next(m));
    }
    ImproveRelaxed(net, s, node, e, node, net.next(node)[..done]);
    RelaxedSnoc(net, t, node, net.next(node), done);
  }

  lemma SkipKeeps(net: Net, s: Search, start: string, node: string, done: nat)
    requires Relaxing(net, s, start, node, done) && done < |net.next(node)|
    requires var e := net.next(node)[done]; e.name in s.dist && s.dist[e.name] <= s.dist[node] + net.cost(e.name)
    ensures Relaxing(net, s, start, node, done + 1)
  {
    RelaxedSnoc(net, s, node, net.next(node), done);
  }

  // ---------------------------------------------------------------------
  // Optimality
  // ---------------------------------------------------------------------

  /** A path ends at an expanded node whose distance it cannot beat, or costs at least the least entry. */
  lemma {:induction false} PathsAreBounded(net: Net, s: Search, start: string, p: seq<string>, least: real)
    requires Positive(net)
    requires SearchInv(net, s, start) && IsPath(net, p) && p[0] == start
    requires forall f :: f in s.heap ==> least <= f.cost
    ensures (p[|p| - 1] in s.settled && s.dist[p[|p| - 1]] <= PathCost(net, p))
      || (s.heap != multiset{} && least <= PathCost(net, p))
    decreases |p|
  {
    var last := p[|p| - 1];
    if |p| == 1 {
      if start !in s.settled {
        assert Entry(0.0, start) in s.heap;
      }
    } else {
      var init := p[..|p| - 1];
      assert IsPath(net, init);
      PathsAreBounded(net, s, start, init, least);
      var q := init[|init| - 1];
      if q in s.settled && s.dist[q] <= PathCost(net, init) {
        assert Linked(net, p[|p| - 2], p[|p| - 1]);
        assert RelaxedFrom(net, s, q, net.next(q));
        if last !in s.settled {
          assert Entry(s.dist[last], last) in s.heap;
        }
      }
    }
  }

  // ---------------------------------------------------------------------
  // Termination: each expansion settles a new node of a finite universe
  // ---------------------------------------------------------------------

  ghost predicate Bounds(universe: set<string>, net: Net) {
    forall n, e :: e in net.next(n) ==> e.name in universe
  }

  lemma SettledBelow(settled: set<string>, bound: set<string>)
    requires settled <= bound
    ensures |settled| <= |bound|
  {
    assert bound == settled + (bound - settled);
  }

  // ---------------------------------------------------------------------
  // The heap
  // ---------------------------------------------------------------------

  ghost predicate IsLeast(e: Entry, heap: multiset<Entry>) {
    e in heap && forall f :: f in heap ==> e.cost <= f.cost
  }

  /**
   A heap kept in an array: what push and pop make of the array, and which arrays
   are heaps. Entries are compared by cost alone, so it is the heap that breaks ties.
   */
  datatype Queue = Queue(
    push: (seq<Entry>, Entry) -> seq<Entry>,
    pop: seq<Entry> -> (Entry, seq<Entry>),
    isHeap: seq<Entry> -> bool)

  ghost predicate PushOk(q: Queue, heap: seq<Entry>, e: Entry) {
    q.isHeap(q.push(heap, e)) && multiset(q.push(heap, e)) == multiset(heap) + multiset{e}
  }

  ghost predicate PopOk(q: Queue, heap: seq<Entry>) {
    && q.isHeap(q.pop(heap).1)
    && IsLeast(q.pop(heap).0, multiset(heap))
    && multiset(q.pop(heap).1) == multiset(heap) - multiset{q.pop(heap).0}
  }

  ghost predicate IsQueue(q: Queue) {
    && q.isHeap([])
    && (forall heap, e {:trigger PushOk(q, heap, e)} :: q.isHeap(heap) ==> PushOk(q, heap, e))
    && (forall heap {:trigger PopOk(q, heap)} :: q.isHeap(heap) && heap != [] ==> PopOk(q, heap))
  }

  function ByCost(): (Entry, Entry) -> bool { (a: Entry, b: Entry) => a.cost <= b.cost }

  ghost function SortedList(): Queue {
    Queue(
      (heap: seq<Entry>, e: Entry) => InsertBy(heap, e, ByCost()),
      (heap: seq<Entry>) => if heap == [] then (Entry(0.0, ""), []) else (heap[0], heap[1..]),
      (heap: seq<Entry>) => SortedBy(heap, ByCost()))
  }

  /** The simplest queue: a sorted list. */
  lemma SortedListIsQueue()
    ensures IsQueue(SortedList())
  {
    var q := SortedList();
    forall heap, e | q.isHeap(heap) ensures PushOk(q, heap, e) {
      InsertAdds(heap, e, ByCost());
      InsertSorts(heap, e, ByCost());
    }
    forall heap | q.isHeap(heap) && heap != [] ensures PopOk(q, heap) {
      assert heap == [heap[0]] + heap[1..];
    }
  }

  /** heap.pop() */
  method Pop(q: Queue, heap: seq<Entry>) returns (e: Entry, rest: seq<Entry>)
    requires IsQueue(q) && q.isHeap(heap) && heap != []
    ensures (e, rest) == q.pop(heap) && q.isHeap(rest)
    ensures IsLeast(e, multiset(heap)) && multiset(rest) == multiset(heap) - multiset{e} && |rest| < |heap|
  {
    assert PopOk(q, heap);
    var popped := q.pop(heap);
    e, rest := popped.0, popped.1;
    assert |multiset(rest)| == |rest| && |multiset(heap)| == |heap|;
  }

  // ---------------------------------------------------------------------
  // reconstruct_path
  // ---------------------------------------------------------------------

  function Reverse<T>(s: seq<T>): (r: seq<T>)
    ensures |r| == |s|
  {
    if s == [] then [] else Reverse(s[1..]) + [s[0]]
  }

  lemma {:induction false} ReverseSnoc<T>(s: seq<T>, x: T)
    ensures Reverse(s + [x]) == [x] + Reverse(s)
  {
    if s == [] {
      assert [x][1..] == [];
    } else {
      assert (s + [x])[1..] == s[1..] + [x];
      ReverseSnoc(s[1..], x);
    }
  }

  /** A route grows at its front by one real edge. */
  lemma RoutePrepend(net: Net, from: string, step: PathStep, rest: seq<PathStep>)
    requires RouteFrom(net, step.node, rest) && StepOk(net, from, step)
    ensures RouteFrom(net, from, [step] + rest)
    ensures StepsCost(net, [step] + rest) == net.cost(step.node) + StepsCost(net, rest)
    ensures EndOf(from, [step] + rest) == EndOf(step.node, rest)
  {
    assert ([step] + rest)[1..] == rest;
  }

  function StepTo(n: string, info: ParentInfo): PathStep {
    PathStep(n, info.kind, if info.fieldName.Some? then info.fieldName.value else "", "outgoing")
  }

  /** The route spelled out by following parents back from `end`. */
  ghost predicate Traces(parent: map<string, ParentInfo>, start: string, end: string, route: seq<PathStep>)
    decreases |route|
  {
    if end == start then route == [Origin(start)]
    else
      && |route| > 1 && end in parent
      && route[|route| - 1] == StepTo(end, parent[end])
      && Traces(parent, start, parent[end].from, route[..|route| - 1])
  }

  lemma {:induction false} TracesUnique(parent: map<string, ParentInfo>, start: string, end: string, a: seq<PathStep>, b: seq<PathStep>)
    requires Traces(parent, start, end, a) && Traces(parent, start, end, b)
    ensures a == b
    decreases |a|
  {
    if end != start {
      TracesUnique(parent, start, parent[end].from, a[..|a| - 1], b[..|b| - 1]);
      assert a == a[..|a| - 1] + [a[|a| - 1]] && b == b[..|b| - 1] + [b[|b| - 1]];
    }
  }

  /** Putting `rest` after a route to `middle` gives the route to `end`. */
  ghost predicate Completes(parent: map<string, ParentInfo>, start: string, middle: string, end: string, rest: seq<PathStep>) {
    forall route :: Traces(parent, start, middle, route) ==> Traces(parent, start, end, route + rest)
  }

  lemma CompletesEarlier(parent: map<string, ParentInfo>, start: string, current: string, end: string, rest: seq<PathStep>)
    requires current != start && current in parent && Completes(parent, start, current, end, rest)
    ensures Completes(parent, start, parent[current].from, end, [StepTo(current, parent[current])] + rest)
  {
    var step := StepTo(current, parent[current]);
    forall route | Traces(parent, start, parent[current].from, route) ensures Traces(parent, start, end, route + ([step] + rest)) {
      assert (route + [step])[..|route|] == route;
      assert Traces(parent, start, current, route + [step]);
      assert route + ([step] + rest) == (route + [step]) + rest;
    }
  }

  method ReconstructPath(net: Net, start: string, end: string, parent: map<string, ParentInfo>, ghost s: Search)
    returns (path: seq<PathStep>)
    requires TreeOk(net, s, start) && s.parent == parent
    requires end in s.dist && end !in s.settled
    ensures IsRoute(net, path, start, end)
    ensures RouteCost(net, path) == s.dist[end]
    ensures Traces(parent, start, end, path)
  {
    path := [];
    var current := end;
    assert forall route: seq<PathStep> :: route + Reverse(path) == route;
    while current != start
      invariant current in s.dist && (current == end || current in s.settled)
      invariant RouteFrom(net, current, Reverse(path))
      invariant s.dist[end] == s.dist[current] + StepsCost(net, Reverse(path))
      invariant EndOf(current, Reverse(path)) == end
      invariant Completes(parent, start, current, end, Reverse(path))
      decreases if current in s.settled then s.settled[current] else |s.settled|
    {
      assert ParentOk(net, s, current);
      var info := parent[current];
      var step := StepTo(current, info);
      RoutePrepend(net, info.from, step, Reverse(path));
      CompletesEarlier(parent, start, current, end, Reverse(path));
      ReverseSnoc(path, step);
      path := path + [step];
      current := info.from;
    }
    ReverseSnoc(path, Origin(start));
    assert ([Origin(start)] + Reverse(path))[1..] == Reverse(path);
    assert Traces(parent, start, start, [Origin(start)]);
    path := Reverse(path + [Origin(start)]);
  }

  // ---------------------------------------------------------------------
  // find_path
  // ---------------------------------------------------------------------

  /** Relaxing, to be looked into only by hand. */
  ghost predicate Held(net: Net, s: Search, start: string, node: string, cost: real, done: nat) {
    forall i {:trigger Sealed(i)} :: Sealed(i) ==>
      Relaxing(net, s, start, node, done) && node in s.dist && s.dist[node] == cost
  }

  /** Whether going through the node being expanded beats what is known. */
  predicate Better(dist: map<string, real>, name: string, newCost: real) {
    name !in dist || newCost < dist[name]
  }

  // ---------------------------------------------------------------------
  // The search as a deterministic machine
  // ---------------------------------------------------------------------

  /** The variables of the main loop. */
  datatype Open = Open(dist: map<string, real>, parent: map<string, ParentInfo>, heap: seq<Entry>)

  datatype Stage = Running(open: Open) | Found(parent: map<string, ParentInfo>) | Exhausted

  function RelaxOne(net: Net, q: Queue, top: Entry, o: Open, e: NeighborEntry): Open {
    var newCost := top.cost + net.cost(e.name);
    if Better(o.dist, e.name, newCost) then
      Open(o.dist[e.name := newCost], o.parent[e.name := ParentInfo(top.node, e.kind, e.fieldName)],
        q.push(o.heap, Entry(newCost, e.name)))
    else o
  }

  function RelaxEach(net: Net, q: Queue, top: Entry, o: Open, entries: seq<NeighborEntry>): Open {
    if entries == [] then o
    else RelaxOne(net, q, top, RelaxEach(net, q, top, o, entries[..|entries| - 1]), entries[|entries| - 1])
  }

  /** One turn of the main loop. */
  function Turn(net: Net, q: Queue, end: string, stage: Stage): Stage {
    match stage
    case Running(o) =>
      if o.heap == [] then Exhausted else
      var (top, rest) := q.pop(o.heap);
      if top.node == end then Found(o.parent)
      else if top.node in o.dist && top.cost > o.dist[top.node] then Running(o.(heap := rest))
      else Running(RelaxEach(net, q, top, o.(heap := rest), net.next(top.node)))
    case _ => stage
  }

  function Turns(net: Net, q: Queue, start: string, end: string, n: nat): Stage {
    if n == 0 then Running(Open(map[start := 0.0], map[], q.push([], Entry(0.0, start))))
    else Turn(net, q, end, Turns(net, q, start, end, n - 1))
  }

  ghost predicate Ends(stage: Stage, start: string, end: string, r: Option<seq<PathStep>>) {
    match stage
    case Running(_) => false
    case Found(parent) => r.Some? && Traces(parent, start, end, r.value)
    case Exhausted => r.None?
  }

  /** What the search returns with this heap. */
  ghost predicate Finds(net: Net, q: Queue, start: string, end: string, r: Option<seq<PathStep>>) {
    if start == end then r == Some([Origin(start)])
    else exists n: nat :: Ends(Turns(net, q, start, end, n), start, end, r)
  }

  lemma {:induction false} TurnsStop(net: Net, q: Queue, start: string, end: string, m: nat, n: nat)
    requires m <= n && !Turns(net, q, start, end, m).Running?
    ensures Turns(net, q, start, end, n) == Turns(net, q, start, end, m)
    decreases n
  {
    if m < n {
      TurnsStop(net, q, start, end, m, n - 1);
    }
  }

  /** Graph, request and heap determine the route returned. */
  lemma FindsOne(net: Net, q: Queue, start: string, end: string, a: Option<seq<PathStep>>, b: Option<seq<PathStep>>)
    requires Finds(net, q, start, end, a) && Finds(net, q, start, end, b)
    ensures a == b
  {
    if start != end {
      var m: nat :| Ends(Turns(net, q, start, end, m), start, end, a);
      var n: nat :| Ends(Turns(net, q, start, end, n), start, end, b);
      if m <= n {
        TurnsStop(net, q, start, end, m, n);
      } else {
        TurnsStop(net, q, start, end, n, m);
      }
      var stage := Turns(net, q, start, end, m);
      if stage.Found? {
        TracesUnique(stage.parent, start, end, a.value, b.value);
      }
    }
  }

  /** The first `turns` turns lead to o. Looked into only by hand. */
  ghost predicate At(net: Net, q: Queue, start: string, end: string, turns: nat, o: Open) {
    forall i {:trigger Sealed(i)} :: Sealed(i) ==> Turns(net, q, start, end, turns) == Running(o)
  }

  lemma RelaxStep(net: Net, s: Search, start: string, node: string, cost: real, done: nat)
    requires Positive(net) && done < |net.next(node)|
    requires Held(net, s, start, node, cost, done)
    ensures var e := net.next(node)[done];
      if Better(s.dist, e.name, cost + net.cost(e.name))
      then Held(net, Improve(net, s, node, cost, e), start, node, cost, done + 1)
      else Held(net, s, start, node, cost, done + 1)
  {
    assert Sealed(0);
    var e := net.next(node)[done];
    if Better(s.dist, e.name, cost + net.cost(e.name)) {
      ImproveKeeps(net, s, start, node, done);
      ImprovedIsOpen(net, s, start, node, done, e);
    } else {
      SkipKeeps(net, s, start, node, done);
    }
  }

  function SearchOf(o: Open, settled: map<string, nat>): Search { Search(o.dist, o.parent, multiset(o.heap), settled) }

  /** With the first `done` neighbours of the node just expanded relaxed. */
  ghost predicate Relaxed(net: Net, q: Queue, start: string, top: Entry, settled: map<string, nat>, before: Open, o: Open, done: nat) {
    && done <= |net.next(top.node)| && q.isHeap(o.heap)
    && Held(net, SearchOf(o, settled), start, top.node, top.cost, done)
    && o == RelaxEach(net, q, top, before, net.next(top.node)[..done])
  }

  lemma PushImproves(net: Net, q: Queue, settled: map<string, nat>, top: Entry, o: Open, e: NeighborEntry)
    requires IsQueue(q) && q.isHeap(o.heap)
    ensures q.isHeap(RelaxOne(net, q, top, o, e).heap)
    ensures SearchOf(RelaxOne(net, q, top, o, e), settled)
      == if Better(o.dist, e.name, top.cost + net.cost(e.name)) then Improve(net, SearchOf(o, settled), top.node, top.cost, e)
         else SearchOf(o, settled)
  {
    assert PushOk(q, o.heap, Entry(top.cost + net.cost(e.name), e.name));
  }

  lemma RelaxedNext(net: Net, q: Queue, start: string, top: Entry, settled: map<string, nat>, before: Open, o: Open, done: nat)
    requires Positive(net) && IsQueue(q) && done < |net.next(top.node)|
    requires Relaxed(net, q, start, top, settled, before, o, done)
    ensures Relaxed(net, q, start, top, settled, before, RelaxOne(net, q, top, o, net.next(top.node)[done]), done + 1)
  {
    var all := net.next(top.node);
    assert all[..done + 1][..done] == all[..done];
    RelaxStep(net, SearchOf(o, settled), start, top.node, top.cost, done);
    PushImproves(net, q, settled, top, o, all[done]);
  }

  /** The inner loop: relax every neighbour of the node just expanded. */
  method RelaxAll(net: Net, q: Queue, neighbors: seq<NeighborEntry>, top: Entry,
      dist0: map<string, real>, parent0: map<string, ParentInfo>, heap0: seq<Entry>,
      ghost settled: map<string, nat>, ghost start: string, ghost universe: set<string>)
    returns (dist: map<string, real>, parent: map<string, ParentInfo>, heap: seq<Entry>)
    requires Positive(net) && Bounds(universe, net) && neighbors == net.next(top.node)
    requires IsQueue(q) && dist0.Keys <= universe
    requires Relaxed(net, q, start, top, settled, Open(dist0, parent0, heap0), Open(dist0, parent0, heap0), 0)
    ensures dist.Keys <= universe
    ensures Relaxed(net, q, start, top, settled, Open(dist0, parent0, heap0), Open(dist, parent, heap), |neighbors|)
  {
    dist, parent, heap := dist0, parent0, heap0;
    for i := 0 to |neighbors|
      invariant dist.Keys <= universe
      invariant Relaxed(net, q, start, top, settled, Open(dist0, parent0, heap0), Open(dist, parent, heap), i)
    {
      var e := neighbors[i];
      assert e in net.next(top.node);
      RelaxedNext(net, q, start, top, settled, Open(dist0, parent0, heap0), Open(dist, parent, heap), i);
      var newCost := top.cost + net.cost(e.name);
      if Better(dist, e.name, newCost) {
        dist := dist[e.name := newCost];
        parent := parent[e.name := ParentInfo(top.node, e.kind, e.fieldName)];
        heap := q.push(heap, Entry(newCost, e.name));
      }
    }
  }

  lemma RelaxedFirst(net: Net, q: Queue, start: string, top: Entry, settled: map<string, nat>, o: Open)
    requires q.isHeap(o.heap) && Held(net, SearchOf(o, settled), start, top.node, top.cost, 0)
    ensures Relaxed(net, q, start, top, settled, o, o, 0)
  {
  }

  lemma RelaxedAll(net: Net, q: Queue, start: string, top: Entry, settled: map<string, nat>, before: Open, o: Open)
    requires Relaxed(net, q, start, top, settled, before, o, |net.next(top.node)|)
    ensures q.isHeap(o.heap) && SearchInv(net, SearchOf(o, settled), start)
    ensures o == RelaxEach(net, q, top, before, net.next(top.node))
  {
    assert Sealed(0);
    assert net.next(top.node)[..|net.next(top.node)|] == net.next(top.node);
  }

  /** `net` presents the neighbours of g under ctx. Looked into only by hand. */
  ghost predicate Presents(net: Net, g: GraphView, ctx: Context) {
    forall i {:trigger Sealed(i)} :: Sealed(i) ==> forall n :: net.next(n) == Neighbors(g, ctx, n)
  }

  method Expand(g: GraphView, ctx: Context, index: OverlayIndex, net: Net, node: string) returns (neighbors: seq<NeighborEntry>)
    requires Indexes(index, ctx) && Presents(net, g, ctx)
    ensures neighbors == net.next(node)
  {
    neighbors := NeighborsIndexed(g, ctx, index, node);
    assert Sealed(0);
  }

  /** The least entry of the end is its distance, and no path undercuts it. */
  lemma EndIsOptimal(net: Net, s: Search, start: string, end: string, top: Entry)
    requires Positive(net)
    requires SearchInv(net, s, start) && end !in s.settled
    requires top in s.heap && top.node == end
    requires forall f :: f in s.heap ==> top.cost <= f.cost
    ensures forall p :: PathFromTo(net, p, start, end) ==> s.dist[end] <= PathCost(net, p)
  {
    LeastEntryIsExact(net, s, start, top);
    forall p | PathFromTo(net, p, start, end) ensures s.dist[end] <= PathCost(net, p) {
      PathsAreBounded(net, s, start, p, top.cost);
    }
  }

  lemma ExhaustedIsUnreachable(net: Net, s: Search, start: string, end: string)
    requires Positive(net)
    requires SearchInv(net, s, start) && end !in s.settled && s.heap == multiset{}
    ensures !exists p :: PathFromTo(net, p, start, end)
  {
    forall p | IsPath(net, p) && p[0] == start ensures p[|p| - 1] in s.settled {
      PathsAreBounded(net, s, start, p, 0.0);
    }
  }

  /** r is a route from start to end that no path undercuts. */
  ghost predicate Shortest(net: Net, r: seq<PathStep>, start: string, end: string) {
    && IsRoute(net, r, start, end)
    && (forall p :: PathFromTo(net, p, start, end) ==> RouteCost(net, r) <= PathCost(net, p))
  }

  lemma AtStart(net: Net, q: Queue, start: string, end: string)
    ensures At(net, q, start, end, 0, Open(map[start := 0.0], map[], q.push([], Entry(0.0, start))))
  {
  }

  /** The loop body, on an entry that is not the end's. */
  lemma AtNext(net: Net, q: Queue, start: string, end: string, turns: nat, o: Open, top: Entry, rest: seq<Entry>)
    requires At(net, q, start, end, turns, o) && o.heap != [] && q.pop(o.heap) == (top, rest)
    requires top.node != end && top.node in o.dist
    ensures At(net, q, start, end, turns + 1,
      if top.cost > o.dist[top.node] then o.(heap := rest)
      else RelaxEach(net, q, top, o.(heap := rest), net.next(top.node)))
  {
    assert Sealed(0);
  }

  lemma AtEnd(net: Net, q: Queue, start: string, end: string, turns: nat, o: Open, r: Option<seq<PathStep>>)
    requires At(net, q, start, end, turns, o) && start != end
    requires if o.heap == [] then r.None? else q.pop(o.heap).0.node == end && r.Some? && Traces(o.parent, start, end, r.value)
    ensures Finds(net, q, start, end, r)
  {
    assert Sealed(0);
    assert Ends(Turns(net, q, start, end, turns + 1), start, end, r);
  }

  /** The main loop, for distinct start and end. */
  method SearchPath(g: GraphView, ctx: Context, index: OverlayIndex, net: Net, q: Queue,
      start: string, end: string, ghost universe: set<string>)
    returns (r: Option<seq<PathStep>>)
    requires Indexes(index, ctx) && Presents(net, g, ctx) && IsQueue(q)
    requires Positive(net) && Bounds(universe, net) && start in universe && start != end
    ensures r.None? ==> !exists p :: PathFromTo(net, p, start, end)
    ensures r.Some? ==> Shortest(net, r.value, start, end)
    ensures Finds(net, q, start, end, r)
  {
    var dist: map<string, real> := map[start := 0.0];
    var parent: map<string, ParentInfo> := map[];
    assert PushOk(q, [], Entry(0.0, start));
    var heap := q.push([], Entry(0.0, start));
    ghost var settled: map<string, nat> := map[];
    ghost var turns: nat := 0;
    InitialInv(net, start);
    AtStart(net, q, start, end);
    while heap != []
      invariant q.isHeap(heap) && SearchInv(net, Search(dist, parent, multiset(heap), settled), start)
      invariant At(net, q, start, end, turns, Open(dist, parent, heap))
      invariant end !in settled
      invariant dist.Keys <= universe
      decreases |universe| - |settled|, |heap|
    {
      ghost var s := Search(dist, parent, multiset(heap), settled);
      var top, rest := Pop(q, heap);
      if top.node == end {
        EndIsOptimal(net, s, start, end, top);
        var path := ReconstructPath(net, start, end, parent, s);
        AtEnd(net, q, start, end, turns, Open(dist, parent, heap), Some(path));
        return Some(path);
      }
      AtNext(net, q, start, end, turns, Open(dist, parent, heap), top, rest);
      turns := turns + 1;
      heap := rest;
      if top.cost > dist[top.node] {
        PoppedStale(net, s, start, top);
        continue;
      }
      SettleHeld(net, s, start, top);
      ghost var grown := settled[top.node := |settled|];
      MoreSettled(net, s, start, top, universe);
      var neighbors := Expand(g, ctx, index, net, top.node);
      ghost var before := Open(dist, parent, heap);
      RelaxedFirst(net, q, start, top, grown, before);
      dist, parent, heap := RelaxAll(net, q, neighbors, top, dist, parent, heap, grown, start, universe);
      settled := grown;
      RelaxedAll(net, q, start, top, grown, before, Open(dist, parent, heap));
    }
    ExhaustedIsUnreachable(net, Search(dist, parent, multiset(heap), settled), start, end);
    AtEnd(net, q, start, end, turns, Open(dist, parent, heap), None);
    return None;
  }

  lemma SettleHeld(net: Net, s: Search, start: string, e: Entry)
    requires SearchInv(net, s, start) && e in s.heap && e.cost <= s.dist[e.node]
    requires forall f :: f in s.heap ==> e.cost <= f.cost
    ensures Held(net, Settle(Popped(s, e), e.node), start, e.node, e.cost, 0)
  {
    SettleKeeps(net, s, start, e);
  }

  /** An expansion settles one more node of the universe. */
  lemma MoreSettled(net: Net, s: Search, start: string, top: Entry, universe: set<string>)
    requires SearchInv(net, s, start) && top in s.heap && top.cost <= s.dist[top.node]
    requires s.dist.Keys <= universe
    ensures |s.settled[top.node := |s.settled|]| == |s.settled| + 1 <= |universe|
  {
    OneMoreKey(s.settled, top.node, |s.settled|);
    assert top.node in s.dist.Keys && s.settled.Keys <= s.dist.Keys;
    SettledFits(s.settled, top.node, |s.settled|, universe);
  }

  lemma SettledFits(m: map<string, nat>, x: string, v: nat, universe: set<string>)
    requires m.Keys <= universe && x in universe
    ensures |m[x := v]| <= |universe|
  {
    SettledBelow(m[x := v].Keys, universe);
  }

  /** Every name an edge can lead to. */
  function Universe(g: GraphView, ctx: Context): set<string> {
    (set k, i | k in g.out && 0 <= i < |g.out[k]| :: g.out[k][i].target) +
    (set i | 0 <= i < |ctx.overlayEdges| :: ctx.overlayEdges[i].to)
  }

  lemma NeighborsInUniverse(g: GraphView, ctx: Context, name: string)
    ensures forall e :: e in Neighbors(g, ctx, name) ==> e.name in Universe(g, ctx)
  {
    forall e | e in Neighbors(g, ctx, name) ensures e.name in Universe(g, ctx) {
      assert e in Unfiltered(g, ctx, name);
      if e in BaseEntries(g, ctx, name) {
        var i :| 0 <= i < |g.Outgoing(name)| && BaseEntries(g, ctx, name)[i] == e;
        assert e.name == g.out[name][i].target;
      } else {
        var mine := OverlayFrom(ctx, name);
        var i :| 0 <= i < |mine| && Map(mine, FromOverlay)[i] == e;
        assert mine[i] in ctx.overlayEdges;
        var j :| 0 <= j < |ctx.overlayEdges| && ctx.overlayEdges[j] == mine[i];
      }
    }
  }

  lemma NetIsBounded(g: GraphView, ctx: Context, start: string)
    ensures Bounds(Universe(g, ctx) + {start}, NetOf(g, ctx)) && Presents(NetOf(g, ctx), g, ctx)
  {
    forall n, e | e in NetOf(g, ctx).next(n) ensures e.name in Universe(g, ctx) {
      NeighborsInUniverse(g, ctx, n);
    }
  }

  // ---------------------------------------------------------------------
  // What a route costs, in terms of scores
  // ---------------------------------------------------------------------

  /** The cost of a node is one over its score; below 0.001 the score no longer counts. */
  lemma CostIsInverse(g: GraphView, ctx: Context, name: string, nd: NodeData)
    requires StandsFor(g, ctx, name, nd)
    ensures ctx.score(nd) >= 0.001 ==> StepCost(g, ctx, name) * ctx.score(nd) == 1.0
    ensures ctx.score(nd) < 0.001 ==> StepCost(g, ctx, name) == 1000.0
  {
    ResolveIs(g, ctx, name);
    InverseTimes(ctx.score(nd));
  }

  lemma InverseTimes(w: real)
    ensures w >= 0.001 ==> (1.0 / w) * w == 1.0
  {
  }

  lemma CostOfUnknown(g: GraphView, ctx: Context, name: string)
    requires Unknown(g, ctx, name)
    ensures StepCost(g, ctx, name) == 1000.0
  {
    ResolveIs(g, ctx, name);
  }

  /** w is the score that counts for a name. */
  ghost predicate Counts(g: GraphView, ctx: Context, name: string, w: real) {
    || (exists nd :: StandsFor(g, ctx, name, nd) && w == if ctx.score(nd) >= 0.001 then ctx.score(nd) else 0.001)
    || (Unknown(g, ctx, name) && w == 0.001)
  }

  /** The scores that count of the names listed. */
  ghost predicate ScoresOf(g: GraphView, ctx: Context, names: seq<string>, ws: seq<real>) {
    |ws| == |names| && forall i :: 0 <= i < |ws| ==> ws[i] >= 0.001 && Counts(g, ctx, names[i], ws[i])
  }

  function SumOfInverses(ws: seq<real>): real
    requires forall i :: 0 <= i < |ws| ==> ws[i] >= 0.001
  {
    if ws == [] then 0.0 else 1.0 / ws[0] + SumOfInverses(ws[1..])
  }

  /** What is paid for entering the names listed. */
  function Toll(net: Net, names: seq<string>): real {
    if names == [] then 0.0 else net.cost(names[0]) + Toll(net, names[1..])
  }

  lemma {:induction false} TollOfSum(net: Net, a: seq<string>, b: seq<string>)
    ensures Toll(net, a + b) == Toll(net, a) + Toll(net, b)
  {
    if a == [] {
      assert a + b == b;
    } else {
      assert (a + b)[1..] == a[1..] + b;
      TollOfSum(net, a[1..], b);
    }
  }

  /** A path costs the toll of all its nodes but the first. */
  lemma {:induction false} PathCostIsToll(net: Net, p: seq<string>)
    requires p != []
    ensures PathCost(net, p) == Toll(net, p[1..])
  {
    if |p| > 1 {
      var init, last := p[..|p| - 1], p[|p| - 1];
      PathCostIsToll(net, init);
      assert p[1..] == init[1..] + [last];
      TollOfSum(net, init[1..], [last]);
    }
  }

  function NodeOf(step: PathStep): string { step.node }

  lemma {:induction false} StepsCostIsToll(net: Net, steps: seq<PathStep>)
    ensures StepsCost(net, steps) == Toll(net, Map(steps, NodeOf))
  {
    if steps != [] {
      StepsCostIsToll(net, steps[1..]);
      assert Map(steps, NodeOf)[1..] == Map(steps[1..], NodeOf);
    }
  }

  lemma CountsOnce(g: GraphView, ctx: Context, name: string, w: real)
    requires Counts(g, ctx, name, w)
    ensures StepCost(g, ctx, name) == 1.0 / w
  {
    if nd :| StandsFor(g, ctx, name, nd) && w == if ctx.score(nd) >= 0.001 then ctx.score(nd) else 0.001 {
      ResolveIs(g, ctx, name);
    } else {
      CostOfUnknown(g, ctx, name);
    }
  }

  lemma {:induction false} TollIsSum(g: GraphView, ctx: Context, names: seq<string>, ws: seq<real>)
    requires ScoresOf(g, ctx, names, ws)
    ensures Toll(NetOf(g, ctx), names) == SumOfInverses(ws)
  {
    if names != [] {
      CountsOnce(g, ctx, names[0], ws[0]);
      TollIsSum(g, ctx, names[1..], ws[1..]);
    }
  }

  /** Of all paths with the same ends, the inverse scores of the nodes entered sum up to least along the route. */
  ghost predicate LeastByScore(g: GraphView, ctx: Context, route: seq<PathStep>, start: string, end: string)
    requires route != []
  {
    forall p, mine, theirs | PathFromTo(NetOf(g, ctx), p, start, end)
        && ScoresOf(g, ctx, Map(route[1..], NodeOf), mine) && ScoresOf(g, ctx, p[1..], theirs) ::
      SumOfInverses(mine) <= SumOfInverses(theirs)
  }

  lemma ShortestByScore(g: GraphView, ctx: Context, route: seq<PathStep>, start: string, end: string)
    requires Shortest(NetOf(g, ctx), route, start, end)
    ensures LeastByScore(g, ctx, route, start, end)
  {
    var net := NetOf(g, ctx);
    forall p, mine, theirs | PathFromTo(net, p, start, end)
        && ScoresOf(g, ctx, Map(route[1..], NodeOf), mine) && ScoresOf(g, ctx, p[1..], theirs)
      ensures SumOfInverses(mine) <= SumOfInverses(theirs)
    {
      StepsCostIsToll(net, route[1..]);
      PathCostIsToll(net, p);
      TollIsSum(g, ctx, Map(route[1..], NodeOf), mine);
      TollIsSum(g, ctx, p[1..], theirs);
    }
  }

  /** Every name has a score that counts, so every path has such a sum. */
  lemma {:induction false} ScoresExist(g: GraphView, ctx: Context, names: seq<string>) returns (ws: seq<real>)
    ensures ScoresOf(g, ctx, names, ws)
  {
    if names == [] {
      ws := [];
    } else {
      var rest := ScoresExist(g, ctx, names[1..]);
      var r := Resolve(g, ctx, names[0]);
      ResolveIs(g, ctx, names[0]);
      if r.Some? {
        assert StandsFor(g, ctx, names[0], r.value);
      }
      var w := if r.Some? && ctx.score(r.value) >= 0.001 then ctx.score(r.value) else 0.001;
      assert Counts(g, ctx, names[0], w);
      ws := [w] + rest;
    }
  }

  // ---------------------------------------------------------------------
  // Raising a score
  // ---------------------------------------------------------------------

  /** The same net, but for node x, which costs no more. */
  ghost predicate Cheapens(net: Net, better: Net, x: string) {
    && (forall n :: better.next(n) == net.next(n))
    && (forall n :: n != x ==> better.cost(n) == net.cost(n))
    && better.cost(x) <= net.cost(x)
  }

  lemma {:induction false} TollFalls(net: Net, better: Net, x: string, names: seq<string>)
    requires Cheapens(net, better, x)
    ensures Toll(better, names) <= Toll(net, names)
    ensures x in names ==> Toll(better, names) <= Toll(net, names) - (net.cost(x) - better.cost(x))
    ensures x !in names ==> Toll(better, names) == Toll(net, names)
    ensures (forall i, j :: 0 <= i < j < |names| ==> !(names[i] == x == names[j])) ==>
      Toll(better, names) >= Toll(net, names) - (net.cost(x) - better.cost(x))
  {
    if names != [] {
      TollFalls(net, better, x, names[1..]);
      if names[0] == x && x in names[1..] {
        var j :| 0 <= j < |names[1..]| && names[1..][j] == x;
        assert names[0] == x == names[j + 1];
      }
    }
  }

  lemma {:induction false} TollNonNegative(net: Net, names: seq<string>)
    requires Positive(net)
    ensures Toll(net, names) >= 0.0
  {
    if names != [] {
      TollNonNegative(net, names[1..]);
    }
  }

  /** p without what comes after i, up to and including j. */
  function Without(p: seq<string>, i: nat, j: nat): seq<string>
    requires i < j < |p|
  {
    p[..i + 1] + p[j + 1..]
  }

  lemma WithoutLinks(net: Net, p: seq<string>, i: nat, j: nat, k: nat)
    requires IsPath(net, p) && i < j < |p| && p[i] == p[j] && 0 < k < |Without(p, i, j)|
    ensures Linked(net, Without(p, i, j)[k - 1], Without(p, i, j)[k])
  {
    var m := if k <= i then k else k - i + j;
    assert Without(p, i, j)[k] == p[m] && Without(p, i, j)[k - 1] == p[m - 1];
    assert Linked(net, p[m - 1], p[m]);
  }

  lemma WithoutIsPath(net: Net, p: seq<string>, start: string, end: string, i: nat, j: nat)
    requires PathFromTo(net, p, start, end) && i < j < |p| && p[i] == p[j]
    ensures PathFromTo(net, Without(p, i, j), start, end)
  {
    var q := Without(p, i, j);
    forall k | 0 < k < |q| ensures Linked(net, q[k - 1], q[k]) {
      WithoutLinks(net, p, i, j, k);
    }
  }

  lemma TollOfParts(net: Net, a: seq<string>, b: seq<string>, c: seq<string>)
    requires Positive(net)
    ensures Toll(net, a + c) <= Toll(net, a + (b + c))
  {
    TollOfSum(net, a, b + c);
    TollOfSum(net, b, c);
    TollOfSum(net, a, c);
    TollNonNegative(net, b);
  }

  /** Leaving out a detour from a node back to itself. */
  lemma Shortcut(net: Net, p: seq<string>, start: string, end: string, i: nat, j: nat) returns (q: seq<string>)
    requires Positive(net) && PathFromTo(net, p, start, end) && i < j < |p| && p[i] == p[j]
    ensures PathFromTo(net, q, start, end) && |q| < |p| && PathCost(net, q) <= PathCost(net, p)
  {
    q := Without(p, i, j);
    WithoutIsPath(net, p, start, end, i, j);
    PathCostIsToll(net, p);
    PathCostIsToll(net, q);
    var a, b, c := p[1..i + 1], p[i + 1..j + 1], p[j + 1..];
    assert p[1..] == a + (b + c) && q[1..] == a + c;
    TollOfParts(net, a, b, c);
  }

  lemma SamePaths(net: Net, better: Net, x: string, p: seq<string>, start: string, end: string)
    requires Cheapens(net, better, x)
    ensures PathFromTo(better, p, start, end) <==> PathFromTo(net, p, start, end)
  {
    forall a, b ensures Linked(better, a, b) <==> Linked(net, a, b) {
      assert better.next(a) == net.next(a);
    }
  }

  /** A cheapest path through x stays cheapest when x gets cheaper, even against paths that pass x again and again. */
  lemma {:induction false} StaysCheapest(net: Net, better: Net, x: string, p: seq<string>, q: seq<string>, start: string, end: string)
    requires Positive(better) && Cheapens(net, better, x)
    requires p != [] && x in p[1..] && PathFromTo(net, q, start, end)
    requires forall o :: PathFromTo(net, o, start, end) ==> PathCost(net, p) <= PathCost(net, o)
    ensures PathCost(better, p) <= PathCost(better, q)
    decreases |q|
  {
    if i, j :| 0 < i < j < |q| && q[i] == x == q[j] {
      SamePaths(net, better, x, q, start, end);
      var shorter := Shortcut(better, q, start, end, i, j);
      SamePaths(net, better, x, shorter, start, end);
      StaysCheapest(net, better, x, p, shorter, start, end);
    } else {
      forall i, j | 0 <= i < j < |q[1..]| ensures !(q[1..][i] == x == q[1..][j]) {
        assert !(0 < i + 1 < j + 1 < |q| && q[i + 1] == x == q[j + 1]);
      }
      PathCostIsToll(net, p);
      PathCostIsToll(better, p);
      PathCostIsToll(net, q);
      PathCostIsToll(better, q);
      TollFalls(net, better, x, p[1..]);
      TollFalls(net, better, x, q[1..]);
    }
  }

  /** The same request, but for the score of what x stands for, which is no lower. */
  ghost predicate Raises(g: GraphView, ctx: Context, better: Context, x: string) {
    && better == ctx.(score := better.score)
    && forall n, nd :: StandsFor(g, ctx, n, nd) ==>
         if n == x then better.score(nd) >= ctx.score(nd) else better.score(nd) == ctx.score(nd)
  }

  /** Scores do not decide what is expanded. */
  lemma SameNeighbors(g: GraphView, ctx: Context, score: NodeData -> real, n: string)
    ensures Neighbors(g, ctx.(score := score), n) == Neighbors(g, ctx, n)
  {
    var other := ctx.(score := score);
    assert Unfiltered(g, other, n) == Unfiltered(g, ctx, n);
    FilterSame(Unfiltered(g, ctx, n), (e: NeighborEntry) => EntryVisible(other, e), (e: NeighborEntry) => EntryVisible(ctx, e));
  }

  lemma RaisedCost(g: GraphView, ctx: Context, better: Context, x: string, n: string)
    requires Raises(g, ctx, better, x)
    ensures StepCost(g, better, n) <= StepCost(g, ctx, n)
    ensures n != x ==> StepCost(g, better, n) == StepCost(g, ctx, n)
  {
    ResolveIs(g, ctx, n);
    var r := Resolve(g, ctx, n);
    if r.Some? {
      assert StandsFor(g, ctx, n, r.value);
      if n == x {
        Inverses(ctx.score(r.value), better.score(r.value));
      }
    }
  }

  /** The cost of a node of score w. */
  function CostOf(w: real): real { 1.0 / (if w > FLOOR then w else FLOOR) }

  lemma Inverses(a: real, b: real)
    requires a <= b
    ensures CostOf(b) <= CostOf(a)
  {
    InverseFalls(if a > FLOOR then a else FLOOR, if b > FLOOR then b else FLOOR);
  }

  lemma InverseFalls(a: real, b: real)
    requires 0.0 < a <= b
    ensures 1.0 / b <= 1.0 / a
  {
    var x, y := 1.0 / a, 1.0 / b;
    assert x * a == 1.0 && y * b == 1.0;
    if y > x {
      LargerProduct(x, y, a, b);
    }
  }

  lemma LargerProduct(x: real, y: real, a: real, b: real)
    requires 0.0 < x < y && 0.0 < a <= b
    ensures x * a < y * b
  {
    assert x * a <= x * b < y * b;
  }

  lemma RaisedCheapens(g: GraphView, ctx: Context, better: Context, x: string)
    requires Raises(g, ctx, better, x)
    ensures Cheapens(NetOf(g, ctx), NetOf(g, better), x)
  {
    forall n ensures NetOf(g, better).next(n) == NetOf(g, ctx).next(n) {
      SameNeighbors(g, ctx, better.score, n);
    }
    forall n ensures n != x ==> NetOf(g, better).cost(n) == NetOf(g, ctx).cost(n) {
      RaisedCost(g, ctx, better, x, n);
    }
    RaisedCost(g, ctx, better, x, x);
  }

  /** Higher scores are closer: raising the score of a node on a cheapest route keeps that route cheapest. */
  lemma RaisingKeepsRoute(g: GraphView, ctx: Context, better: Context, x: string, route: seq<PathStep>, start: string, end: string)
    requires Shortest(NetOf(g, ctx), route, start, end) && Raises(g, ctx, better, x)
    requires exists step :: step in route[1..] && step.node == x
    ensures forall p :: PathFromTo(NetOf(g, better), p, start, end) ==>
      RouteCost(NetOf(g, better), route) <= PathCost(NetOf(g, better), p)
    ensures RouteCost(NetOf(g, better), route) <= RouteCost(NetOf(g, ctx), route)
  {
    var net, net' := NetOf(g, ctx), NetOf(g, better);
    RaisedCheapens(g, ctx, better, x);
    var names := Map(route[1..], NodeOf);
    var path := [start] + names;
    var step :| step in route[1..] && step.node == x;
    var k :| 0 <= k < |route[1..]| && route[1..][k] == step;
    assert names[k] == x && path[1..] == names;
    StepsCostIsToll(net, route[1..]);
    StepsCostIsToll(net', route[1..]);
    PathCostIsToll(net, path);
    PathCostIsToll(net', path);
    TollFalls(net, net', x, names);
    forall p | PathFromTo(net', p, start, end) ensures RouteCost(net', route) <= PathCost(net', p) {
      SamePaths(net, net', x, p, start, end);
      StaysCheapest(net, net', x, path, p, start, end);
    }
  }

  // ---------------------------------------------------------------------
  // What a route looks like
  // ---------------------------------------------------------------------

  /** Step i of a route, field by field: an edge that the node before it really has. */
  ghost predicate Stepped(g: GraphView, ctx: Context, from: string, step: PathStep) {
    exists e :: e in Neighbors(g, ctx, from)
      && step.node == e.name && step.edgeKind == e.kind && step.direction == "outgoing"
      && step.fieldName == if e.fieldName.Some? then e.fieldName.value else ""
  }

  ghost predicate SpelledOut(g: GraphView, ctx: Context, route: seq<PathStep>, start: string, end: string) {
    && route != [] && route[0] == PathStep(start, "", "", "") && route[|route| - 1].node == end
    && forall i :: 0 < i < |route| ==> Stepped(g, ctx, route[i - 1].node, route[i])
  }

  lemma {:induction false} StepsAreEdges(net: Net, from: string, steps: seq<PathStep>, i: nat)
    requires RouteFrom(net, from, steps) && i < |steps|
    ensures StepOk(net, if i == 0 then from else steps[i - 1].node, steps[i])
    decreases |steps|
  {
    if i > 0 {
      StepsAreEdges(net, steps[0].node, steps[1..], i - 1);
    }
  }

  lemma StepIsEdge(g: GraphView, ctx: Context, from: string, step: PathStep)
    requires StepOk(NetOf(g, ctx), from, step)
    ensures Stepped(g, ctx, from, step)
  {
    var e :| e in NetOf(g, ctx).next(from) && step == StepAlong(e);
    assert e in Neighbors(g, ctx, from);
  }

  lemma RouteSpelledOut(g: GraphView, ctx: Context, route: seq<PathStep>, start: string, end: string)
    requires IsRoute(NetOf(g, ctx), route, start, end)
    ensures SpelledOut(g, ctx, route, start, end)
  {
    forall i | 0 < i < |route| ensures Stepped(g, ctx, route[i - 1].node, route[i]) {
      StepsAreEdges(NetOf(g, ctx), start, route[1..], i - 1);
      StepIsEdge(g, ctx, route[i - 1].node, route[i]);
    }
  }

  /**
   find_path returns None exactly when the end cannot be reached; otherwise a
   route of real neighbour edges from start to end that no path undercuts. Among
   several such routes the heap decides, and nothing else.
   */
  method FindPath(g: GraphView, ctx: Context, q: Queue, start: string, end: string) returns (r: Option<seq<PathStep>>)
    requires IsQueue(q)
    ensures r.Some? <==> exists p :: PathFromTo(NetOf(g, ctx), p, start, end)
    ensures r.Some? ==> Shortest(NetOf(g, ctx), r.value, start, end)
    ensures Finds(NetOf(g, ctx), q, start, end, r)
    ensures r.Some? ==> SpelledOut(g, ctx, r.value, start, end) && LeastByScore(g, ctx, r.value, start, end)
  {
    var index := BuildIndex(ctx);
    var net := NetOf(g, ctx);
    if start == end {
      TrivialRoute(net, start);
      r := Some([Origin(start)]);
    } else {
      NetIsBounded(g, ctx, start);
      r := SearchPath(g, ctx, index, net, q, start, end, Universe(g, ctx) + {start});
    }
    if r.Some? {
      ghost var p := RouteIsPath(net, start, r.value[1..], [start]);
      assert PathFromTo(net, p, start, end);
      RouteSpelledOut(g, ctx, r.value, start, end);
      ShortestByScore(g, ctx, r.value, start, end);
    }
  }

  lemma TrivialRoute(net: Net, start: string)
    requires Positive(net)
    ensures Shortest(net, [Origin(start)], start, start)
  {
    assert [Origin(start)][1..] == [];
    forall p | PathFromTo(net, p, start, start) ensures 0.0 <= PathCost(net, p) { CostNonNegative(net, p); }
  }

  lemma {:induction false} CostNonNegative(net: Net, p: seq<string>)
    requires Positive(net) && p != []
    ensures 0.0 <= PathCost(net, p)
  {
    if |p| > 1 {
      CostNonNegative(net, p[..|p| - 1]);
    }
  }

  /** The nodes of a route form a path of the same cost. */
  lemma {:induction false} RouteIsPath(net: Net, from: string, steps: seq<PathStep>, p: seq<string>) returns (q: seq<string>)
    requires RouteFrom(net, from, steps)
    requires IsPath(net, p) && p[|p| - 1] == from
    ensures IsPath(net, q) && q[0] == p[0] && q[|q| - 1] == EndOf(from, steps)
    ensures PathCost(net, q) == PathCost(net, p) + StepsCost(net, steps)
    decreases |steps|
  {
    if steps == [] {
      q := p;
    } else {
      var n := steps[0].node;
      var e :| e in net.next(from) && steps[0] == StepAlong(e);
      assert Linked(net, from, n);
      assert (p + [n])[..|p|] == p;
      q := RouteIsPath(net, n, steps[1..], p + [n]);
    }
  }
}
