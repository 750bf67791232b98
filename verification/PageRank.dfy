/** PageRank by power iteration, over exact reals (src/builder.rs:203-270). */
module PageRank {
  import opened Seqs
  import opened Csr

  /** The machine epsilon of single precision, 2 to the -23. */
  const EPSILON: real := 1.0 / 8388608.0

  // ---------------------------------------------------------------------
  // Sums
  // ---------------------------------------------------------------------

  /** f(0) + ... + f(n - 1). */
  function SumTo(n: nat, f: nat -> real): real {
    if n == 0 then 0.0 else SumTo(n - 1, f) + f(n - 1)
  }

  lemma {:induction false} SumSame(n: nat, f: nat -> real, g: nat -> real)
    requires forall i :: 0 <= i < n ==> f(i) == g(i)
    ensures SumTo(n, f) == SumTo(n, g)
  {
    if n > 0 {
      SumSame(n - 1, f, g);
    }
  }

  lemma {:induction false} SumAdds(n: nat, f: nat -> real, g: nat -> real, h: nat -> real)
    requires forall i :: 0 <= i < n ==> h(i) == f(i) + g(i)
    ensures SumTo(n, h) == SumTo(n, f) + SumTo(n, g)
  {
    if n > 0 {
      SumAdds(n - 1, f, g, h);
    }
  }

  lemma {:induction false} SumScales(n: nat, c: real, f: nat -> real, h: nat -> real)
    requires forall i :: 0 <= i < n ==> h(i) == c * f(i)
    ensures SumTo(n, h) == c * SumTo(n, f)
  {
    if n > 0 {
      SumScales(n - 1, c, f, h);
    }
  }

  lemma {:induction false} SumConst(n: nat, c: real, f: nat -> real)
    requires forall i :: 0 <= i < n ==> f(i) == c
    ensures SumTo(n, f) == n as real * c
  {
    if n > 0 {
      SumConst(n - 1, c, f);
    }
  }

  /** One cell raised. */
  lemma {:induction false} SumBump(n: nat, at: nat, c: real, f: nat -> real, h: nat -> real)
    requires at < n && forall i :: 0 <= i < n ==> h(i) == f(i) + (if i == at then c else 0.0)
    ensures SumTo(n, h) == SumTo(n, f) + c
  {
    if at == n - 1 {
      SumSame(n - 1, f, h);
    } else {
      SumBump(n - 1, at, c, f, h);
    }
  }

  lemma {:induction false} SumNonNegative(n: nat, f: nat -> real)
    requires forall i :: 0 <= i < n ==> f(i) >= 0.0
    ensures SumTo(n, f) >= 0.0
    ensures forall i :: 0 <= i < n ==> f(i) <= SumTo(n, f)
  {
    if n > 0 {
      SumNonNegative(n - 1, f);
    }
  }

  /** The largest term is at least the mean. */
  lemma {:induction false} SumAtMost(n: nat, c: real, f: nat -> real)
    requires forall i :: 0 <= i < n ==> f(i) <= c
    ensures SumTo(n, f) <= n as real * c
  {
    if n > 0 {
      SumAtMost(n - 1, c, f);
    }
  }

  // ---------------------------------------------------------------------
  // One iteration
  // ---------------------------------------------------------------------

  function At(s: seq<real>): nat -> real { (i: nat) => if i < |s| then s[i] else 0.0 }

  function Total(s: seq<real>): real { SumTo(|s|, At(s)) }

  /** Parallel edges count once each. */
  function OutDegree(edges: seq<IndexedEdge>, i: nat): nat { Count(edges, HasKey(SourceOf, i)) }

  /** What each node passes along each of its edges. */
  function Share(od: nat -> nat, damping: real, s: seq<real>): nat -> real {
    (i: nat) => if od(i) == 0 then 0.0 else damping * At(s)(i) / od(i) as real
  }

  /** What the edges bring to node j. */
  function Inflow(edges: seq<IndexedEdge>, share: nat -> real, j: nat): real {
    if edges == [] then 0.0
    else
      var e := edges[|edges| - 1];
      Inflow(edges[..|edges| - 1], share, j) + (if e.to == j then share(e.from) else 0.0)
  }

  function Dangling(od: nat -> nat, s: seq<real>): nat -> real { (i: nat) => if od(i) == 0 then At(s)(i) else 0.0 }

  /** The score every node starts an iteration from: teleport, and an equal part of the dangling mass. */
  function Base(od: nat -> nat, damping: real, s: seq<real>): real
    requires |s| > 0
  {
    (1.0 - damping) / |s| as real + damping * SumTo(|s|, Dangling(od, s)) / |s| as real
  }

  function Degrees(edges: seq<IndexedEdge>): nat -> nat { (i: nat) => OutDegree(edges, i) }

  /** base plus inflow, for each of n nodes. */
  function Raised(edges: seq<IndexedEdge>, n: nat, base: real, share: nat -> real): (r: seq<real>)
    ensures |r| == n && forall j :: 0 <= j < n ==> r[j] == base + Inflow(edges, share, j)
  {
    seq(n, j requires 0 <= j < n => base + Inflow(edges, share, j))
  }

  function Step(edges: seq<IndexedEdge>, damping: real, s: seq<real>): (r: seq<real>)
    requires |s| > 0
    ensures |r| == |s|
  {
    var od := Degrees(edges);
    Raised(edges, |s|, Base(od, damping, s), Share(od, damping, s))
  }

  function Scores(edges: seq<IndexedEdge>, n: nat, damping: real, iterations: nat): (r: seq<real>)
    requires n > 0
    ensures |r| == n
  {
    if iterations == 0 then seq(n, _ => 1.0 / n as real)
    else Step(edges, damping, Scores(edges, n, damping, iterations - 1))
  }

  // ---------------------------------------------------------------------
  // Conservation
  // ---------------------------------------------------------------------

  function InflowAt(edges: seq<IndexedEdge>, share: nat -> real): nat -> real { (j: nat) => Inflow(edges, share, j) }

  /** What the nodes send along the edges listed. */
  function Sent(edges: seq<IndexedEdge>, share: nat -> real): nat -> real {
    (i: nat) => OutDegree(edges, i) as real * share(i)
  }

  /** What arrives is what was sent: each edge carries its source's share to one target. */
  lemma {:induction false} ArrivedIsSent(edges: seq<IndexedEdge>, n: nat, share: nat -> real)
    requires EndpointsOk(edges, n)
    ensures SumTo(n, InflowAt(edges, share)) == SumTo(n, Sent(edges, share))
  {
    if edges == [] {
      forall i: nat | i < n ensures Sent(edges, share)(i) == 0.0 { OneMore(0, 0, share(i)); }
      SumSame(n, InflowAt(edges, share), Sent(edges, share));
    } else {
      var init, e := edges[..|edges| - 1], edges[|edges| - 1];
      assert edges == init + [e];
      ArrivedIsSent(init, n, share);
      SumBump(n, e.to, share(e.from), InflowAt(init, share), InflowAt(edges, share));
      forall i: nat | i < n
        ensures Sent(edges, share)(i) == Sent(init, share)(i) + (if i == e.from then share(e.from) else 0.0)
      {
        SentGrows(init, e, share, i);
      }
      SumBump(n, e.from, share(e.from), Sent(init, share), Sent(edges, share));
    }
  }

  lemma OutDegreeGrows(init: seq<IndexedEdge>, e: IndexedEdge, i: nat)
    ensures OutDegree(init + [e], i) == OutDegree(init, i) + (if e.from == i then 1 else 0)
  {
    FilterSnoc(init, e, HasKey(SourceOf, i));
  }

  lemma SentGrows(init: seq<IndexedEdge>, e: IndexedEdge, share: nat -> real, i: nat)
    ensures Sent(init + [e], share)(i) == Sent(init, share)(i) + (if i == e.from then share(e.from) else 0.0)
  {
    OutDegreeGrows(init, e, i);
    OneMore(OutDegree(init, i), OutDegree(init + [e], i), share(i));
  }

  lemma OneMore(a: nat, b: nat, c: real)
    ensures 0 as real * c == 0.0
    ensures b == a + 1 ==> b as real * c == a as real * c + c
    ensures b == a ==> b as real * c == a as real * c
  {
  }

  function Passed(od: nat -> nat, damping: real, s: seq<real>): nat -> real {
    (i: nat) => if od(i) == 0 then 0.0 else damping * At(s)(i)
  }

  /** A node with edges passes on exactly its damped score, however many parallel edges it has. */
  lemma SentIsPassed(edges: seq<IndexedEdge>, damping: real, s: seq<real>)
    ensures SumTo(|s|, Sent(edges, Share(Degrees(edges), damping, s))) == SumTo(|s|, Passed(Degrees(edges), damping, s))
  {
    var od := Degrees(edges);
    forall i: nat | i < |s| ensures Sent(edges, Share(od, damping, s))(i) == Passed(od, damping, s)(i) {
      SentIsPassedAt(edges, damping, s, i);
    }
    SumSame(|s|, Sent(edges, Share(od, damping, s)), Passed(od, damping, s));
  }

  lemma SentIsPassedAt(edges: seq<IndexedEdge>, damping: real, s: seq<real>, i: nat)
    ensures Sent(edges, Share(Degrees(edges), damping, s))(i) == Passed(Degrees(edges), damping, s)(i)
  {
    var od, x := OutDegree(edges, i), damping * At(s)(i);
    if od == 0 {
      OneMore(0, 0, 0.0);
    } else {
      DivideBack(od as real, x);
    }
  }

  lemma DivideBack(a: real, b: real)
    requires a != 0.0
    ensures a * (b / a) == b
  {
  }

  function Times(c: real, f: nat -> real): nat -> real { (i: nat) => c * f(i) }

  lemma PassedOrDangling(od: nat -> nat, damping: real, s: seq<real>, i: nat)
    ensures Times(damping, At(s))(i) == Passed(od, damping, s)(i) + Times(damping, Dangling(od, s))(i)
  {
    assert damping * 0.0 == 0.0;
  }

  lemma TimesSum(n: nat, c: real, f: nat -> real)
    ensures SumTo(n, Times(c, f)) == c * SumTo(n, f)
  {
    SumScales(n, c, f, Times(c, f));
  }

  /** Damped mass is either passed along edges or dangling. */
  lemma PassedAndDangling(od: nat -> nat, damping: real, s: seq<real>)
    ensures SumTo(|s|, Passed(od, damping, s)) + SumTo(|s|, Times(damping, Dangling(od, s))) == SumTo(|s|, Times(damping, At(s)))
  {
    forall i: nat | i < |s|
      ensures Times(damping, At(s))(i) == Passed(od, damping, s)(i) + Times(damping, Dangling(od, s))(i)
    {
      PassedOrDangling(od, damping, s, i);
    }
    SumAdds(|s|, Passed(od, damping, s), Times(damping, Dangling(od, s)), Times(damping, At(s)));
  }

  function Flat(c: real): nat -> real { (i: nat) => c }

  lemma RaisedSum(edges: seq<IndexedEdge>, n: nat, base: real, share: nat -> real)
    ensures Total(Raised(edges, n, base, share)) == n as real * base + SumTo(n, InflowAt(edges, share))
  {
    SumConst(n, base, Flat(base));
    SumAdds(n, Flat(base), InflowAt(edges, share), At(Raised(edges, n, base, share)));
  }

  /** The mass after raising: n times the base, and what was sent. */
  lemma RaisedIsSent(edges: seq<IndexedEdge>, n: nat, base: real, share: nat -> real)
    requires EndpointsOk(edges, n)
    ensures Total(Raised(edges, n, base, share)) == n as real * base + SumTo(n, Sent(edges, share))
  {
    RaisedSum(edges, n, base, share);
    ArrivedIsSent(edges, n, share);
  }

  /** One iteration conserves the total mass 1. */
  lemma StepConserves(edges: seq<IndexedEdge>, damping: real, s: seq<real>)
    requires |s| > 0 && EndpointsOk(edges, |s|) && Total(s) == 1.0
    ensures Total(Step(edges, damping, s)) == 1.0
  {
    var od := Degrees(edges);
    RaisedIsSent(edges, |s|, Base(od, damping, s), Share(od, damping, s));
    SentIsPassed(edges, damping, s);
    BaseAndPassed(od, damping, s);
  }

  lemma BaseAndPassed(od: nat -> nat, damping: real, s: seq<real>)
    requires |s| > 0 && Total(s) == 1.0
    ensures |s| as real * Base(od, damping, s) + SumTo(|s|, Passed(od, damping, s)) == 1.0
  {
    PassedIsRest(od, damping, s);
    MassAdds(|s| as real, damping, SumTo(|s|, Dangling(od, s)), SumTo(|s|, Passed(od, damping, s)), Base(od, damping, s));
  }

  lemma PassedIsRest(od: nat -> nat, damping: real, s: seq<real>)
    requires Total(s) == 1.0
    ensures SumTo(|s|, Passed(od, damping, s)) + damping * SumTo(|s|, Dangling(od, s)) == damping
  {
    PassedAndDangling(od, damping, s);
    TimesSum(|s|, damping, Dangling(od, s));
    TimesSum(|s|, damping, At(s));
  }

  lemma MassAdds(n: real, damping: real, dangling: real, passed: real, base: real)
    requires n != 0.0 && base == (1.0 - damping) / n + damping * dangling / n
    requires passed + damping * dangling == damping
    ensures n * base + passed == 1.0
  {
    DivideBack(n, 1.0 - damping);
    DivideBack(n, damping * dangling);
  }

  ghost predicate NonNegative(s: seq<real>) { forall i :: 0 <= i < |s| ==> s[i] >= 0.0 }

  lemma {:induction false} InflowNonNegative(edges: seq<IndexedEdge>, share: nat -> real, j: nat)
    requires forall i :: share(i) >= 0.0
    ensures Inflow(edges, share, j) >= 0.0
  {
    if edges != [] {
      InflowNonNegative(edges[..|edges| - 1], share, j);
    }
  }

  lemma ShareNonNegative(od: nat -> nat, damping: real, s: seq<real>, i: nat)
    requires damping >= 0.0 && NonNegative(s)
    ensures Share(od, damping, s)(i) >= 0.0
  {
    var x := At(s)(i);
    assert x >= 0.0;
    ProductNonNegative(damping, x);
    if od(i) != 0 { QuotientNonNegative(damping * x, od(i) as real); }
  }

  lemma ProductNonNegative(a: real, b: real)
    requires a >= 0.0 && b >= 0.0
    ensures a * b >= 0.0
  {
  }

  lemma QuotientNonNegative(a: real, b: real)
    requires a >= 0.0 && b > 0.0
    ensures a / b >= 0.0
  {
  }

  lemma DanglingNonNegative(od: nat -> nat, s: seq<real>)
    requires NonNegative(s)
    ensures SumTo(|s|, Dangling(od, s)) >= 0.0
  {
    forall i: nat | i < |s| ensures Dangling(od, s)(i) >= 0.0 {
      assert At(s)(i) == s[i] >= 0.0;
    }
    SumNonNegative(|s|, Dangling(od, s));
  }

  lemma BaseAtLeast(damping: real, dangling: real, n: real)
    requires 0.0 <= damping <= 1.0 && dangling >= 0.0 && n > 0.0
    ensures (1.0 - damping) / n + damping * dangling / n >= (1.0 - damping) / n >= 0.0
  {
    ProductNonNegative(damping, dangling);
    QuotientNonNegative(damping * dangling, n);
    QuotientNonNegative(1.0 - damping, n);
  }

  lemma BaseIsTeleportOrMore(od: nat -> nat, damping: real, s: seq<real>)
    requires |s| > 0 && NonNegative(s) && 0.0 <= damping <= 1.0
    ensures Base(od, damping, s) >= (1.0 - damping) / |s| as real >= 0.0
  {
    DanglingNonNegative(od, s);
    BaseAtLeast(damping, SumTo(|s|, Dangling(od, s)), |s| as real);
  }

  /** Every score is at least the teleport part. */
  lemma StepKeepsTeleport(edges: seq<IndexedEdge>, damping: real, s: seq<real>)
    requires |s| > 0 && NonNegative(s) && 0.0 <= damping <= 1.0
    ensures forall j :: 0 <= j < |s| ==> Step(edges, damping, s)[j] >= (1.0 - damping) / |s| as real >= 0.0
  {
    var od := Degrees(edges);
    BaseIsTeleportOrMore(od, damping, s);
    forall i ensures Share(od, damping, s)(i) >= 0.0 { ShareNonNegative(od, damping, s, i); }
    RaisedAtLeast(edges, |s|, Base(od, damping, s), Share(od, damping, s));
  }

  lemma RaisedAtLeast(edges: seq<IndexedEdge>, n: nat, base: real, share: nat -> real)
    requires forall i :: share(i) >= 0.0
    ensures forall j :: 0 <= j < n ==> Raised(edges, n, base, share)[j] >= base
  {
    forall j | 0 <= j < n ensures Raised(edges, n, base, share)[j] >= base {
      InflowNonNegative(edges, share, j);
    }
  }

  /** After any number of iterations: mass 1, and no score below the teleport part. */
  lemma {:induction false} ScoresConserved(edges: seq<IndexedEdge>, n: nat, damping: real, iterations: nat)
    requires n > 0 && EndpointsOk(edges, n) && 0.0 <= damping <= 1.0
    ensures var s := Scores(edges, n, damping, iterations);
      Total(s) == 1.0 && forall j :: 0 <= j < n ==> s[j] >= (1.0 - damping) / n as real >= 0.0
    decreases iterations
  {
    QuotientNonNegative(1.0 - damping, n as real);
    if iterations == 0 {
      var s := Scores(edges, n, damping, 0);
      SumConst(n, 1.0 / n as real, At(s));
      DivideBack(n as real, 1.0);
      SmallerQuotient(1.0 - damping, 1.0, n as real);
    } else {
      ScoresConserved(edges, n, damping, iterations - 1);
      var s := Scores(edges, n, damping, iterations - 1);
      StepConserves(edges, damping, s);
      StepKeepsTeleport(edges, damping, s);
    }
  }

  lemma SmallerQuotient(a: real, b: real, n: real)
    requires a <= b && n > 0.0
    ensures a / n <= b / n
  {
  }

  // ---------------------------------------------------------------------
  // compute_pagerank
  // ---------------------------------------------------------------------

  /** The edges whose source comes before node i. */
  function FromBelow(i: nat): IndexedEdge -> bool { (e: IndexedEdge) => e.from < i }

  lemma {:induction false} InflowSplits(edges: seq<IndexedEdge>, share: nat -> real, i: nat, j: nat)
    ensures Inflow(Filter(edges, FromBelow(i + 1)), share, j)
      == Inflow(Filter(edges, FromBelow(i)), share, j) + Inflow(Filter(edges, HasKey(SourceOf, i)), share, j)
  {
    if edges != [] {
      var init, e := edges[..|edges| - 1], edges[|edges| - 1];
      assert edges == init + [e];
      InflowSplits(init, share, i, j);
      FilterSnoc(init, e, FromBelow(i + 1));
      FilterSnoc(init, e, FromBelow(i));
      FilterSnoc(init, e, HasKey(SourceOf, i));
      InflowSnoc(Filter(init, FromBelow(i + 1)), e, share, j);
      InflowSnoc(Filter(init, FromBelow(i)), e, share, j);
      InflowSnoc(Filter(init, HasKey(SourceOf, i)), e, share, j);
    }
  }

  lemma InflowSnoc(edges: seq<IndexedEdge>, e: IndexedEdge, share: nat -> real, j: nat)
    ensures Inflow(edges + [e], share, j) == Inflow(edges, share, j) + (if e.to == j then share(e.from) else 0.0)
  {
    assert (edges + [e])[..|edges|] == edges;
  }

  /** Sum of the scores of the nodes without edges. */
  method DanglingSum(od: nat -> nat, s: seq<real>) returns (sum: real)
    ensures sum == SumTo(|s|, Dangling(od, s))
  {
    sum := 0.0;
    for i := 0 to |s|
      invariant sum == SumTo(i, Dangling(od, s))
    {
      if od(i) == 0 {
        sum := sum + s[i];
      }
    }
  }

  /** Adds one node's share to the target of each of its edges. */
  method PassOn(mine: seq<IndexedEdge>, share: real, next: array<real>, ghost shares: nat -> real)
    requires EndpointsOk(mine, next.Length) && forall k :: 0 <= k < |mine| ==> shares(mine[k].from) == share
    modifies next
    ensures forall j :: 0 <= j < next.Length ==> next[j] == old(next[j]) + Inflow(mine, shares, j)
  {
    for k := 0 to |mine|
      invariant forall j :: 0 <= j < next.Length ==> next[j] == old(next[j]) + Inflow(mine[..k], shares, j)
    {
      forall j: nat | j < next.Length
        ensures Inflow(mine[..k + 1], shares, j) == Inflow(mine[..k], shares, j) + (if mine[k].to == j then share else 0.0)
      {
        assert mine[..k + 1] == mine[..k] + [mine[k]];
        InflowSnoc(mine[..k], mine[k], shares, j);
      }
      next[mine[k].to] := next[mine[k].to] + share;
    }
    assert mine[..|mine|] == mine;
  }

  /** The edges of source i. */
  lemma EdgesOfSource(edges: seq<IndexedEdge>, n: nat, i: nat)
    requires EndpointsOk(edges, n)
    ensures var mine := Filter(edges, HasKey(SourceOf, i));
      EndpointsOk(mine, n) && forall k :: 0 <= k < |mine| ==> mine[k].from == i
  {
    var mine := Filter(edges, HasKey(SourceOf, i));
    forall k | 0 <= k < |mine| ensures mine[k].from == i && mine[k].from < n && mine[k].to < n {
      assert mine[k] in mine;
      assert HasKey(SourceOf, i)(mine[k]);
      assert SourceOf(mine[k]) == i;
      var j :| 0 <= j < |edges| && edges[j] == mine[k];
    }
  }

  /** Adding what source i sends makes up for the sources below i + 1. */
  lemma OneMoreSource(edges: seq<IndexedEdge>, share: nat -> real, i: nat)
    ensures forall j: nat ::
      Inflow(Filter(edges, FromBelow(i + 1)), share, j)
        == Inflow(Filter(edges, FromBelow(i)), share, j) + Inflow(Filter(edges, HasKey(SourceOf, i)), share, j)
  {
    forall j: nat ensures Inflow(Filter(edges, FromBelow(i + 1)), share, j)
      == Inflow(Filter(edges, FromBelow(i)), share, j) + Inflow(Filter(edges, HasKey(SourceOf, i)), share, j)
    {
      InflowSplits(edges, share, i, j);
    }
  }

  /** The base everywhere, then each node's share along its edges, source by source. */
  method Distribute(edges: seq<IndexedEdge>, n: nat, base: real, share: nat -> real) returns (next: array<real>)
    requires EndpointsOk(edges, n)
    ensures fresh(next) && next[..] == Raised(edges, n, base, share)
  {
    next := new real[n](_ => base);
    FilterNone(edges, FromBelow(0));
    for i := 0 to n
      invariant forall j :: 0 <= j < n ==> next[j] == base + Inflow(Filter(edges, FromBelow(i)), share, j)
    {
      OneMoreSource(edges, share, i);
      var mine := Filter(edges, HasKey(SourceOf, i));
      if |mine| == 0 {
        continue;
      }
      EdgesOfSource(edges, n, i);
      PassOn(mine, share(i), next, share);
    }
    FilterAll(edges, FromBelow(n));
  }

  /** One iteration. */
  method Iterate(edges: seq<IndexedEdge>, damping: real, s: seq<real>) returns (r: seq<real>)
    requires |s| > 0 && EndpointsOk(edges, |s|)
    ensures r == Step(edges, damping, s)
  {
    var od := Degrees(edges);
    var dangling := DanglingSum(od, s);
    var base := (1.0 - damping) / |s| as real + damping * dangling / |s| as real;
    var next := Distribute(edges, |s|, base, Share(od, damping, s));
    assert base == Base(od, damping, s);
    assert next[..] == Raised(edges, |s|, base, Share(od, damping, s));
    return next[..];
  }

  // ---------------------------------------------------------------------
  // Normalization
  // ---------------------------------------------------------------------

  /** The largest score, or 0 if none is positive. */
  function MaxScore(s: seq<real>): (m: real)
    ensures m >= 0.0 && forall i :: 0 <= i < |s| ==> s[i] <= m
    ensures m > 0.0 ==> m in s
  {
    if s == [] then 0.0
    else
      var rest := MaxScore(s[..|s| - 1]);
      if s[|s| - 1] > rest then s[|s| - 1] else rest
  }

  /** The divisor of the last pass: the maximum, unless it is too small to divide by. */
  function Norm(s: seq<real>): (r: real)
    ensures r > 0.0
  {
    if MaxScore(s) > EPSILON then MaxScore(s) else 1.0
  }

  function Normalized(s: seq<real>): (r: seq<real>)
    ensures |r| == |s| && forall i :: 0 <= i < |s| ==> r[i] == s[i] / Norm(s)
  {
    seq(|s|, i requires 0 <= i < |s| => s[i] / Norm(s))
  }

  /** The weights stored in the nodes. */
  function Weights(edges: seq<IndexedEdge>, n: nat, damping: real, iterations: nat): (w: seq<real>)
    ensures |w| == n
  {
    if n == 0 then [] else Normalized(Scores(edges, n, damping, iterations))
  }

  method ComputePageRank(edges: seq<IndexedEdge>, n: nat, damping: real, iterations: nat) returns (w: seq<real>)
    requires EndpointsOk(edges, n)
    ensures w == Weights(edges, n, damping, iterations)
    ensures 0.0 < damping < 1.0 && iterations > 0 ==> Outranks(edges, w)
  {
    if n == 0 {
      return [];
    }
    var scores := seq(n, _ => 1.0 / n as real);
    for k := 0 to iterations
      invariant scores == Scores(edges, n, damping, k)
    {
      scores := Iterate(edges, damping, scores);
    }
    var max := 0.0;
    for i := 0 to n
      invariant max == MaxScore(scores[..i])
    {
      assert scores[..i + 1][..i] == scores[..i];
      if scores[i] > max {
        max := scores[i];
      }
    }
    assert scores[..n] == scores;
    var norm := if max > EPSILON then max else 1.0;
    w := seq(n, i requires 0 <= i < n => scores[i] / norm);
    assert w == Normalized(scores);
    if 0.0 < damping < 1.0 && iterations > 0 {
      WeightsOutrank(edges, n, damping, iterations);
    }
  }

  /** Every node that some edge enters weighs more than any node that none enters. */
  ghost predicate Outranks(edges: seq<IndexedEdge>, w: seq<real>) {
    forall i, j :: 0 <= i < |w| && 0 <= j < |w| && Enters(edges, i) && !Enters(edges, j) ==> w[j] < w[i]
  }

  lemma WeightsOutrank(edges: seq<IndexedEdge>, n: nat, damping: real, iterations: nat)
    requires EndpointsOk(edges, n) && 0.0 < damping < 1.0 && iterations > 0
    ensures Outranks(edges, Weights(edges, n, damping, iterations))
  {
    var w := Weights(edges, n, damping, iterations);
    forall i, j | 0 <= i < n && 0 <= j < n && Enters(edges, i) && !Enters(edges, j) ensures w[j] < w[i] {
      WeightsFollowEdges(edges, n, damping, iterations, i, j);
    }
  }

  lemma UnitQuotient(a: real, b: real)
    requires 0.0 < a <= b
    ensures 0.0 < a / b <= 1.0 && (a == b ==> a / b == 1.0)
  {
  }

  /** Positive scores of total 1 normalize into (0,1]; the best one to exactly 1 unless there are 1/EPSILON nodes. */
  lemma NormalizedInUnit(s: seq<real>)
    requires |s| > 0 && Total(s) == 1.0 && forall i :: 0 <= i < |s| ==> s[i] > 0.0
    ensures forall i :: 0 <= i < |s| ==> 0.0 < Normalized(s)[i] <= 1.0
    ensures |s| as real * EPSILON < 1.0 ==> 1.0 in Normalized(s)
  {
    forall i: nat | i < |s| ensures 0.0 <= At(s)(i) <= MaxScore(s) { assert At(s)(i) == s[i]; }
    SumNonNegative(|s|, At(s));
    SumAtMost(|s|, MaxScore(s), At(s));
    forall i | 0 <= i < |s| ensures 0.0 < Normalized(s)[i] <= 1.0 {
      assert At(s)(i) == s[i];
      UnitQuotient(s[i], Norm(s));
    }
    if |s| as real * EPSILON < 1.0 {
      LargeEnough(|s| as real, MaxScore(s));
      var best :| 0 <= best < |s| && s[best] == MaxScore(s);
      UnitQuotient(s[best], Norm(s));
      assert Normalized(s)[best] == 1.0;
    }
  }

  lemma LargeEnough(n: real, max: real)
    requires n > 0.0 && n * max >= 1.0 && n * EPSILON < 1.0
    ensures max > EPSILON
  {
    if max <= EPSILON { TimesMonotone(n, max, EPSILON); }
  }

  lemma TimesMonotone(n: real, a: real, b: real)
    requires n > 0.0 && a <= b
    ensures n * a <= n * b
  {
  }

  /** The stored weights, for every graph, damping below 1 and number of iterations. */
  lemma WeightsInUnit(edges: seq<IndexedEdge>, n: nat, damping: real, iterations: nat)
    requires n > 0 && EndpointsOk(edges, n) && 0.0 <= damping < 1.0
    ensures var w := Weights(edges, n, damping, iterations);
      && (forall i :: 0 <= i < n ==> 0.0 < w[i] <= 1.0)
      && (n as real * EPSILON < 1.0 ==> 1.0 in w)
  {
    ScoresConserved(edges, n, damping, iterations);
    PositiveQuotient(1.0 - damping, n as real);
    NormalizedInUnit(Scores(edges, n, damping, iterations));
  }

  lemma PositiveQuotient(a: real, b: real)
    requires a > 0.0 && b > 0.0
    ensures a / b > 0.0
  {
  }

  // ---------------------------------------------------------------------
  // Rank follows the edges
  // ---------------------------------------------------------------------

  /** The positions of the edges that leave i. */
  ghost function Leaving(edges: seq<IndexedEdge>, i: nat): set<nat> {
    set k: nat | k < |edges| && edges[k].from == i
  }

  ghost predicate Enters(edges: seq<IndexedEdge>, j: nat) { exists k :: 0 <= k < |edges| && edges[k].to == j }

  lemma {:induction false} OutDegreeIs(edges: seq<IndexedEdge>, i: nat)
    ensures OutDegree(edges, i) == |Leaving(edges, i)|
  {
    if edges != [] {
      var n := |edges| - 1;
      var init, e := edges[..n], edges[n];
      assert edges == init + [e];
      OutDegreeIs(init, i);
      OutDegreeGrows(init, e, i);
      assert Leaving(edges, i) == if e.from == i then Leaving(init, i) + {n} else Leaving(init, i);
    } else {
      assert Leaving(edges, i) == {};
    }
  }

  /** What edge k brings to node j: its source's damped score, split evenly over all edges that leave the source. */
  ghost function Gift(edges: seq<IndexedEdge>, damping: real, s: seq<real>, j: nat): nat -> real {
    (k: nat) =>
      if k < |edges| && edges[k].to == j && edges[k].from < |s| && Leaving(edges, edges[k].from) != {}
      then damping * s[edges[k].from] / |Leaving(edges, edges[k].from)| as real else 0.0
  }

  /** The scores of the nodes that no edge leaves. */
  ghost function Stuck(edges: seq<IndexedEdge>, s: seq<real>): nat -> real {
    (i: nat) => if i < |s| && Leaving(edges, i) == {} then s[i] else 0.0
  }

  lemma GiftIsShare(edges: seq<IndexedEdge>, damping: real, s: seq<real>, j: nat, k: nat)
    requires EndpointsOk(edges, |s|) && k < |edges|
    ensures Gift(edges, damping, s, j)(k)
      == if edges[k].to == j then Share(Degrees(edges), damping, s)(edges[k].from) else 0.0
  {
    var i := edges[k].from;
    OutDegreeIs(edges, i);
    assert k in Leaving(edges, i);
    assert Degrees(edges)(i) == |Leaving(edges, i)| > 0 && At(s)(i) == s[i];
  }

  lemma {:induction false} InflowIsSum(edges: seq<IndexedEdge>, n: nat, share: nat -> real, j: nat, gift: nat -> real)
    requires n <= |edges|
    requires forall k :: 0 <= k < n ==> gift(k) == if edges[k].to == j then share(edges[k].from) else 0.0
    ensures Inflow(edges[..n], share, j) == SumTo(n, gift)
  {
    if n > 0 {
      InflowIsSum(edges, n - 1, share, j, gift);
      assert edges[..n] == edges[..n - 1] + [edges[n - 1]];
      InflowSnoc(edges[..n - 1], edges[n - 1], share, j);
    }
  }

  lemma InflowWrittenOut(edges: seq<IndexedEdge>, damping: real, s: seq<real>, j: nat)
    requires EndpointsOk(edges, |s|)
    ensures Inflow(edges, Share(Degrees(edges), damping, s), j) == SumTo(|edges|, Gift(edges, damping, s, j))
  {
    var share, gift := Share(Degrees(edges), damping, s), Gift(edges, damping, s, j);
    forall k | 0 <= k < |edges| ensures gift(k) == if edges[k].to == j then share(edges[k].from) else 0.0 {
      GiftIsShare(edges, damping, s, j, k);
    }
    InflowIsSum(edges, |edges|, share, j, gift);
    assert edges[..|edges|] == edges;
  }

  lemma StuckIsDangling(edges: seq<IndexedEdge>, s: seq<real>)
    ensures SumTo(|s|, Dangling(Degrees(edges), s)) == SumTo(|s|, Stuck(edges, s))
  {
    forall i: nat | i < |s| ensures Dangling(Degrees(edges), s)(i) == Stuck(edges, s)(i) {
      StuckAt(edges, s, i);
    }
    SumSame(|s|, Dangling(Degrees(edges), s), Stuck(edges, s));
  }

  lemma StuckAt(edges: seq<IndexedEdge>, s: seq<real>, i: nat)
    requires i < |s|
    ensures Dangling(Degrees(edges), s)(i) == Stuck(edges, s)(i)
  {
    OutDegreeIs(edges, i);
    assert Degrees(edges)(i) == |Leaving(edges, i)| && At(s)(i) == s[i];
    if Leaving(edges, i) != {} {
      assert |Leaving(edges, i)| > 0;
    }
  }

  /** Teleport, and an equal part of the mass that is stuck. */
  function Start(n: real, damping: real, stuck: real): real
    requires n != 0.0
  {
    (1.0 - damping) / n + damping * stuck / n
  }

  lemma BaseIsStart(od: nat -> nat, damping: real, s: seq<real>, stuck: real)
    requires |s| > 0 && SumTo(|s|, Dangling(od, s)) == stuck
    ensures Base(od, damping, s) == Start(|s| as real, damping, stuck)
  {
  }

  /** The next score of a node: teleport, an equal part of what is stuck, and what the edges into it bring. */
  lemma StepWrittenOut(edges: seq<IndexedEdge>, damping: real, s: seq<real>, j: nat)
    requires EndpointsOk(edges, |s|) && j < |s|
    ensures Step(edges, damping, s)[j]
      == Start(|s| as real, damping, SumTo(|s|, Stuck(edges, s))) + SumTo(|edges|, Gift(edges, damping, s, j))
  {
    InflowWrittenOut(edges, damping, s, j);
    StuckIsDangling(edges, s);
    BaseIsStart(Degrees(edges), damping, s, SumTo(|s|, Stuck(edges, s)));
  }

  lemma GiftNonNegative(edges: seq<IndexedEdge>, damping: real, s: seq<real>, j: nat, k: nat)
    requires EndpointsOk(edges, |s|) && k < |edges| && damping >= 0.0 && NonNegative(s)
    ensures Gift(edges, damping, s, j)(k) >= 0.0
    ensures damping > 0.0 && edges[k].to == j && s[edges[k].from] > 0.0 ==> Gift(edges, damping, s, j)(k) > 0.0
  {
    if edges[k].to == j {
      var x, out := s[edges[k].from], |Leaving(edges, edges[k].from)|;
      assert k in Leaving(edges, edges[k].from);
      ProductNonNegative(damping, x);
      QuotientNonNegative(damping * x, out as real);
      if damping > 0.0 && x > 0.0 {
        PositiveQuotient(damping * x, out as real);
      }
    }
  }

  /** What all the edges bring a node: nothing if none enters it, and something if one does from a node of positive score. */
  lemma GiftsReceived(edges: seq<IndexedEdge>, damping: real, s: seq<real>, j: nat)
    requires EndpointsOk(edges, |s|) && damping >= 0.0 && NonNegative(s)
    ensures SumTo(|edges|, Gift(edges, damping, s, j)) >= 0.0
    ensures !Enters(edges, j) ==> SumTo(|edges|, Gift(edges, damping, s, j)) == 0.0
    ensures forall k :: damping > 0.0 && 0 <= k < |edges| && edges[k].to == j && s[edges[k].from] > 0.0 ==>
      SumTo(|edges|, Gift(edges, damping, s, j)) > 0.0
  {
    var gift := Gift(edges, damping, s, j);
    forall k: nat | k < |edges|
      ensures gift(k) >= 0.0
      ensures damping > 0.0 && edges[k].to == j && s[edges[k].from] > 0.0 ==> gift(k) > 0.0
    {
      GiftNonNegative(edges, damping, s, j, k);
    }
    SumNonNegative(|edges|, gift);
    if !Enters(edges, j) {
      SumConst(|edges|, 0.0, gift);
    }
    forall k | damping > 0.0 && 0 <= k < |edges| && edges[k].to == j && s[edges[k].from] > 0.0
      ensures SumTo(|edges|, gift) > 0.0
    {
      assert 0.0 < gift(k) <= SumTo(|edges|, gift);
    }
  }

  /** After an iteration no node scores less than one that nothing enters, and one entered from a positive score scores more. */
  lemma EnteredScoresMore(edges: seq<IndexedEdge>, damping: real, s: seq<real>, i: nat, j: nat)
    requires EndpointsOk(edges, |s|) && damping >= 0.0 && NonNegative(s) && i < |s| && j < |s| && !Enters(edges, j)
    ensures Step(edges, damping, s)[j] <= Step(edges, damping, s)[i]
    ensures forall k :: damping > 0.0 && 0 <= k < |edges| && edges[k].to == i && s[edges[k].from] > 0.0 ==>
      Step(edges, damping, s)[j] < Step(edges, damping, s)[i]
  {
    StepWrittenOut(edges, damping, s, i);
    StepWrittenOut(edges, damping, s, j);
    GiftsReceived(edges, damping, s, i);
    GiftsReceived(edges, damping, s, j);
  }

  /** The stored weights: a node that some edge enters outranks every node that none enters. */
  lemma WeightsFollowEdges(edges: seq<IndexedEdge>, n: nat, damping: real, iterations: nat, i: nat, j: nat)
    requires EndpointsOk(edges, n) && 0.0 < damping < 1.0 && iterations > 0 && i < n && j < n
    requires Enters(edges, i) && !Enters(edges, j)
    ensures Weights(edges, n, damping, iterations)[j] < Weights(edges, n, damping, iterations)[i]
  {
    ScoresFollowEdges(edges, n, damping, iterations, i, j);
    NormalizedOrder(Scores(edges, n, damping, iterations), i, j);
  }

  /** Normalizing keeps the order of scores. */
  lemma NormalizedOrder(s: seq<real>, i: nat, j: nat)
    requires i < |s| && j < |s| && s[j] < s[i]
    ensures Normalized(s)[j] < Normalized(s)[i]
  {
    var low, high, n := s[j], s[i], Norm(s);
    StrictQuotient(low, high, n);
  }

  /** And their proportions: one factor for all. */
  lemma NormalizedScales(s: seq<real>, i: nat)
    requires i < |s|
    ensures Norm(s) * Normalized(s)[i] == s[i]
  {
    DivideBack(Norm(s), s[i]);
  }

  lemma ScoresFollowEdges(edges: seq<IndexedEdge>, n: nat, damping: real, iterations: nat, i: nat, j: nat)
    requires EndpointsOk(edges, n) && 0.0 < damping < 1.0 && iterations > 0 && i < n && j < n
    requires Enters(edges, i) && !Enters(edges, j)
    ensures Scores(edges, n, damping, iterations)[j] < Scores(edges, n, damping, iterations)[i]
  {
    var before := Scores(edges, n, damping, iterations - 1);
    AllPositive(edges, n, damping, iterations - 1);
    EnteredScoresMore(edges, damping, before, i, j);
    var k :| 0 <= k < |edges| && edges[k].to == i;
    assert before[edges[k].from] > 0.0;
  }

  lemma AllPositive(edges: seq<IndexedEdge>, n: nat, damping: real, iterations: nat)
    requires EndpointsOk(edges, n) && 0.0 <= damping < 1.0 && n > 0
    ensures forall i :: 0 <= i < n ==> Scores(edges, n, damping, iterations)[i] > 0.0
  {
    ScoresConserved(edges, n, damping, iterations);
    PositiveQuotient(1.0 - damping, n as real);
  }

  lemma StrictQuotient(a: real, b: real, n: real)
    requires a < b && n > 0.0
    ensures a / n < b / n
  {
  }

  /** Two nodes and one edge: the mass at the start moves to the end. */
  lemma OneEdge(e: IndexedEdge)
    requires e.from == 0 && e.to == 1
    ensures Scores([e], 2, 0.85, 1) == [0.2875, 0.7125]
  {
    var s := Scores([e], 2, 0.85, 0);
    assert s == [0.5, 0.5];
    var stuck := Stuck([e], s);
    assert 0 in Leaving([e], 0) && Leaving([e], 1) == {};
    assert SumTo(2, stuck) == SumTo(1, stuck) + stuck(1) == SumTo(0, stuck) + stuck(0) + stuck(1) == 0.5;
    assert Leaving([e], 0) == {0};
    forall j: nat | j < 2 ensures SumTo(1, Gift([e], 0.85, s, j)) == if j == 1 then 0.425 else 0.0 {
      var gift := Gift([e], 0.85, s, j);
      assert SumTo(1, gift) == SumTo(0, gift) + gift(0);
    }
    StepWrittenOut([e], 0.85, s, 0);
    StepWrittenOut([e], 0.85, s, 1);
  }
}
