/** The root cause of an exception, searched on a graph of exceptions that may have cycles. */
module Diagnostics {
  import opened Wrappers

  /** What a failed status says about its exception; only an exception counts. */
  datatype StatusArg =
    | NoArgs
    | NoException
    | Attribute(inner: Option<nat>)
    | Method(inner: Option<nat>)
    | MethodRaises

  datatype Exc = Exc(typeName: string, status: StatusArg, cause: Option<nat>, context: Option<nat>, suppress: bool)

  /** Exceptions by identity. */
  type Graph = map<nat, Exc>

  ghost predicate Closed(g: Graph) {
    forall e <- g :: forall n :: Reference(g, e, n) ==> n in g
  }

  ghost predicate Reference(g: Graph, e: nat, n: nat)
    requires e in g
  {
    var x := g[e];
    || x.cause == Some(n)
    || x.context == Some(n)
    || ((x.status.Attribute? || x.status.Method?) && x.status.inner == Some(n))
  }

  function StatusException(g: Graph, e: nat): Option<nat>
    requires e in g
  {
    var x := g[e];
    if x.typeName != "FailedStatus" then None
    else match x.status
      case Attribute(inner) => inner
      case Method(inner) => inner
      case _ => None
  }

  /** The exception this one was raised from or, unless suppressed, in whose handling. */
  function Origin(g: Graph, e: nat): Option<nat>
    requires e in g
  {
    if g[e].cause.Some? then g[e].cause else if g[e].suppress then None else g[e].context
  }

  /** Where the search goes from an exception; None at a dead end. */
  function Inner(g: Graph, e: nat): Option<nat>
    requires e in g
  {
    var s := StatusException(g, e);
    if s.Some? && s.value != e then s
    else
      var n := Origin(g, e);
      if n == Some(e) then None else n
  }

  lemma InnerStays(g: Graph, e: nat)
    requires Closed(g) && e in g
    ensures Inner(g, e).Some? ==> Inner(g, e).value in g
    ensures Origin(g, e).Some? ==> Origin(g, e).value in g
  {
    if Inner(g, e).Some? {
      assert Reference(g, e, Inner(g, e).value);
    }
    if Origin(g, e).Some? {
      assert Reference(g, e, Origin(g, e).value);
    }
  }

  // ---- where an exception leads, field by field ---------------------------------------------

  /** The status of a failed status gives an exception, and another one than itself. */
  ghost predicate StatusGivesOther(g: Graph, e: nat)
    requires e in g
  {
    var x := g[e];
    x.typeName == "FailedStatus" && (x.status.Attribute? || x.status.Method?) && x.status.inner.Some?
    && x.status.inner.value != e
  }

  /** `n` is what `e` was raised from or, without that and unless suppressed, in whose handling. */
  ghost predicate RaisedFrom(g: Graph, e: nat, n: nat)
    requires e in g
  {
    g[e].cause == Some(n) || (g[e].cause.None? && !g[e].suppress && g[e].context == Some(n))
  }

  /** The way inwards from `e` goes to `n`: to the exception of a failed status, by attribute or by
      method, else to the origin, and never to `e` itself. */
  ghost predicate Leads(g: Graph, e: nat, n: nat)
    requires e in g
  {
    n != e && if StatusGivesOther(g, e) then g[e].status.inner == Some(n) else RaisedFrom(g, e, n)
  }

  /** The search goes exactly where the fields lead, and nowhere exactly where they lead nowhere. */
  lemma InnerLeads(g: Graph, e: nat)
    requires e in g
    ensures forall n: nat :: Leads(g, e, n) <==> Inner(g, e) == Some(n)
    ensures forall n: nat :: RaisedFrom(g, e, n) <==> Origin(g, e) == Some(n)
  {
  }

  // ---- walks ----------------------------------------------------------------------------------

  ghost predicate Distinct(p: seq<nat>) {
    forall i, j :: 0 <= i < j < |p| ==> p[i] != p[j]
  }

  /** A walk inwards that meets no exception twice. */
  ghost predicate IsTrail(g: Graph, p: seq<nat>) {
    && p != []
    && (forall e <- p :: e in g)
    && (forall i :: 0 <= i < |p| - 1 ==> Leads(g, p[i], p[i + 1]))
    && Distinct(p)
  }

  /** A trail that cannot be made longer: it ends at a dead end, or before one of its own. */
  ghost predicate IsWholeTrail(g: Graph, p: seq<nat>) {
    && IsTrail(g, p)
    && forall n :: Leads(g, p[|p| - 1], n) ==> n in p
  }

  /** The dead end of a whole trail, or the exception on it that is met again first. */
  ghost predicate IsTrailRoot(g: Graph, p: seq<nat>, root: nat)
    requires IsWholeTrail(g, p)
  {
    var last := p[|p| - 1];
    Leads(g, last, root) || (root == last && forall n :: !Leads(g, last, n))
  }

  /** The same, as the search finds it. */
  ghost function TrailRoot(g: Graph, p: seq<nat>): nat
    requires IsWholeTrail(g, p)
  {
    var last := p[|p| - 1];
    if Inner(g, last).None? then last else Inner(g, last).value
  }

  function Unseen(g: Graph, seen: seq<nat>): set<nat> {
    set e <- g.Keys | e !in seen
  }

  lemma OneLessUnseen(g: Graph, seen: seq<nat>, current: nat)
    requires current in g && current !in seen
    ensures Unseen(g, seen + [current]) < Unseen(g, seen)
  {
    assert current in Unseen(g, seen);
    assert current !in Unseen(g, seen + [current]);
  }

  /** The search, with the exceptions seen so far; the trail it takes and the root it finds. */
  function Search(g: Graph, seen: seq<nat>, current: nat): (nat, seq<nat>)
    requires Closed(g) && current in g
    decreases Unseen(g, seen)
  {
    if current in seen then (current, seen)
    else
      InnerStays(g, current);
      OneLessUnseen(g, seen, current);
      var n := Inner(g, current);
      if n.None? then (current, seen + [current]) else Search(g, seen + [current], n.value)
  }

  function RootOf(g: Graph, e: nat): nat
    requires Closed(g) && e in g
  {
    Search(g, [], e).0
  }

  function TrailOf(g: Graph, e: nat): seq<nat>
    requires Closed(g) && e in g
  {
    Search(g, [], e).1
  }

  /** `root_cause`: ends on every graph, cycles included. */
  method RootCause(g: Graph, e: nat) returns (current: nat)
    requires Closed(g) && e in g
    ensures current == RootOf(g, e)
    ensures exists p :: IsWholeTrail(g, p) && p[0] == e && IsTrailRoot(g, p, current)
  {
    current := e;
    var seen: set<nat> := {};
    ghost var path: seq<nat> := [];
    while current !in seen
      invariant current in g
      invariant seen == set x | x in path
      invariant Search(g, path, current) == Search(g, [], e)
      decreases g.Keys - seen
    {
      InnerStays(g, current);
      seen := seen + {current};
      path := path + [current];
      var status := StatusException(g, current);
      if status.Some? && status.value != current {
        current := status.value;
        continue;
      }
      var next := if g[current].cause.Some? then g[current].cause
                  else if g[current].suppress then None else g[current].context;
      if next.None? || next.value == current {
        break;
      }
      current := next.value;
    }
    RootOfTrail(g, e);
  }

  // ---- what the search finds --------------------------------------------------------------------

  lemma {:induction false} SearchExtends(g: Graph, seen: seq<nat>, current: nat)
    requires Closed(g) && current in g
    requires seen == [] || (IsTrail(g, seen) && Inner(g, seen[|seen| - 1]) == Some(current))
    ensures var (root, p) := Search(g, seen, current);
      IsWholeTrail(g, p) && root == TrailRoot(g, p) && p[0] == (seen + [current])[0]
    decreases Unseen(g, seen)
  {
    if current !in seen {
      InnerStays(g, current);
      OneLessUnseen(g, seen, current);
      TrailGrows(g, seen, current);
      if Inner(g, current).Some? {
        SearchExtends(g, seen + [current], Inner(g, current).value);
      }
    }
  }

  lemma TrailGrows(g: Graph, seen: seq<nat>, current: nat)
    requires current in g && current !in seen
    requires seen == [] || (IsTrail(g, seen) && Inner(g, seen[|seen| - 1]) == Some(current))
    ensures IsTrail(g, seen + [current])
  {
  }

  /** The trail from an exception is the only one there is. */
  lemma OneWholeTrail(g: Graph, p: seq<nat>, q: seq<nat>)
    requires IsWholeTrail(g, p) && IsWholeTrail(g, q) && p[0] == q[0]
    ensures p == q
  {
    if |p| <= |q| {
      NotLonger(g, p, q);
    } else {
      NotLonger(g, q, p);
    }
  }

  lemma NotLonger(g: Graph, p: seq<nat>, q: seq<nat>)
    requires IsWholeTrail(g, p) && IsWholeTrail(g, q) && p[0] == q[0] && |p| <= |q|
    ensures p == q
  {
    var n := |p|;
    Agree(g, p, q, n);
    assert p == q[..n];
    assert p[n - 1] == q[n - 1];
    assert n < |q| ==> Leads(g, q[n - 1], q[n]);
    LaterIsNew(q, n);
  }

  lemma {:induction false} Agree(g: Graph, p: seq<nat>, q: seq<nat>, n: nat)
    requires IsTrail(g, p) && IsTrail(g, q) && p[0] == q[0] && n <= |p| && n <= |q|
    ensures forall i :: 0 <= i < n ==> p[i] == q[i]
  {
    if n > 1 {
      Agree(g, p, q, n - 1);
      assert Leads(g, p[n - 2], p[n - 1]) && Leads(g, q[n - 2], q[n - 1]);
    }
  }

  /** The search returns an exception reached from the first one that is either a dead end or the
      first one to be met again, at the end of a walk without repetition; and it is found from
      nowhere on that walk but the part up to and with the root itself: behind it, on a cycle,
      every exception is its own root. */
  lemma RootOfTrail(g: Graph, e: nat)
    requires Closed(g) && e in g
    ensures var p, root := TrailOf(g, e), RootOf(g, e);
      && IsWholeTrail(g, p) && p[0] == e && IsTrailRoot(g, p, root) && root in p
      && forall m, i :: 0 <= m < |p| && p[m] == root && 0 <= i < |p| ==>
           (RootOf(g, p[i]) == root <==> i <= m)
           && (m < i ==> RootOf(g, p[i]) == p[i])
  {
    SearchExtends(g, [], e);
    var p, root := TrailOf(g, e), RootOf(g, e);
    InnerLeads(g, p[|p| - 1]);
    forall m, i | 0 <= m < |p| && p[m] == root && 0 <= i < |p|
      ensures RootOf(g, p[i]) == if i <= m then root else p[i]
    {
      if i <= m {
        RootFromTail(g, p, m, i);
      } else {
        RootOnCycle(g, p, m, i);
      }
    }
  }

  lemma RootFromTail(g: Graph, p: seq<nat>, m: nat, i: nat)
    requires Closed(g) && IsWholeTrail(g, p) && i <= m < |p| && p[m] == TrailRoot(g, p)
    ensures RootOf(g, p[i]) == p[m]
  {
    var q := p[i..];
    assert forall k :: 0 <= k < |q| ==> q[k] == p[i + k];
    assert q[m - i] == p[m];
    SearchExtends(g, [], p[i]);
    OneWholeTrail(g, TrailOf(g, p[i]), q);
  }

  /** The trail from behind the root on, round the cycle. */
  ghost function Round(p: seq<nat>, m: nat, i: nat): (q: seq<nat>)
    requires m < i < |p|
    ensures |q| == |p| - m
    ensures forall k :: 0 <= k < |q| ==> q[k] == if k < |p| - i then p[i + k] else p[m + k - (|p| - i)]
  {
    p[i..] + p[m..i]
  }

  lemma RoundIsDistinct(p: seq<nat>, m: nat, i: nat)
    requires Distinct(p) && m < i < |p|
    ensures Distinct(Round(p, m, i))
  {
  }

  lemma RoundIsLinked(g: Graph, p: seq<nat>, m: nat, i: nat, k: nat)
    requires IsWholeTrail(g, p) && m < i < |p| && p[m] == TrailRoot(g, p) && k < |p| - m - 1
    ensures var q := Round(p, m, i); q[k] in g && Leads(g, q[k], q[k + 1])
  {
    var q, a := Round(p, m, i), |p| - i;
    if k < a - 1 {
      assert Leads(g, p[i + k], p[i + k + 1]);
    } else if k >= a {
      assert Leads(g, p[m + k - a], p[m + k - a + 1]);
    }
  }

  /** From behind the root a whole trail goes round the cycle. */
  lemma TrailRoundCycle(g: Graph, p: seq<nat>, m: nat, i: nat)
    requires IsWholeTrail(g, p) && m < i < |p| && p[m] == TrailRoot(g, p)
    ensures var q := Round(p, m, i); IsWholeTrail(g, q) && q[0] == p[i] && TrailRoot(g, q) == p[i]
  {
    var q := Round(p, m, i);
    RoundIsDistinct(p, m, i);
    forall k | 0 <= k < |q| - 1
      ensures Leads(g, q[k], q[k + 1])
    {
      RoundIsLinked(g, p, m, i, k);
    }
    assert Leads(g, p[i - 1], p[i]) && q[|q| - 1] == p[i - 1] && q[0] == p[i];
  }

  lemma RootOnCycle(g: Graph, p: seq<nat>, m: nat, i: nat)
    requires Closed(g) && IsWholeTrail(g, p) && m < i < |p| && p[m] == TrailRoot(g, p)
    ensures RootOf(g, p[i]) == p[i]
  {
    TrailRoundCycle(g, p, m, i);
    SearchExtends(g, [], p[i]);
    OneWholeTrail(g, TrailOf(g, p[i]), Round(p, m, i));
  }

  /** Searching from the root again finds the root. */
  lemma RootIsItsOwn(g: Graph, e: nat)
    requires Closed(g) && e in g
    ensures RootOf(g, e) in g && RootOf(g, RootOf(g, e)) == RootOf(g, e)
  {
    RootOfTrail(g, e);
    var p, root := TrailOf(g, e), RootOf(g, e);
    var m :| 0 <= m < |p| && p[m] == root;
    assert RootOf(g, p[m]) == root;
  }

  // ---- the chain a headline looks for frames in -----------------------------------------------------

  /** The root, then the exceptions from the first one along their origins, none of them twice,
      as far as there is one that is not in the chain yet. */
  ghost predicate IsChain(g: Graph, e: nat, chain: seq<nat>)
    requires Closed(g) && e in g
  {
    && chain != [] && chain[0] == RootOf(g, e)
    && (forall x <- chain :: x in g)
    && Distinct(chain)
    && (e in chain && (|chain| > 1 ==> chain[1] == e))
    && (forall i :: 1 <= i < |chain| - 1 ==> RaisedFrom(g, chain[i], chain[i + 1]))
    && (|chain| > 1 ==> forall n :: RaisedFrom(g, chain[|chain| - 1], n) ==> n in chain)
  }

  /** `_chain`. */
  method Chain(g: Graph, e: nat) returns (chain: seq<nat>)
    requires Closed(g) && e in g
    ensures IsChain(g, e, chain)
  {
    RootIsItsOwn(g, e);
    var root := RootCause(g, e);
    chain := [root];
    var seen := {root};
    var outer := Some(e);
    while outer.Some? && outer.value !in seen
      invariant chain != [] && chain[0] == root && Distinct(chain)
      invariant forall x <- chain :: x in g
      invariant seen == set x | x in chain
      invariant outer.Some? ==> outer.value in g
      invariant |chain| == 1 ==> outer == Some(e)
      invariant |chain| > 1 ==> chain[1] == e && outer == Origin(g, chain[|chain| - 1])
      invariant forall i :: 1 <= i < |chain| - 1 ==> RaisedFrom(g, chain[i], chain[i + 1])
      decreases g.Keys - seen
    {
      var current := outer.value;
      InnerStays(g, current);
      seen := seen + {current};
      chain := chain + [current];
      outer := if g[current].cause.Some? then g[current].cause
               else if g[current].suppress then None else g[current].context;
    }
    assert |chain| > 1 ==> chain[1] in chain;
    assert chain[0] in chain;
  }

  /** The contract leaves no choice: there is only one such chain. */
  lemma OneChain(g: Graph, e: nat, a: seq<nat>, b: seq<nat>)
    requires Closed(g) && e in g && IsChain(g, e, a) && IsChain(g, e, b)
    ensures a == b
  {
    if |a| <= |b| {
      ChainNotLonger(g, e, a, b);
    } else {
      ChainNotLonger(g, e, b, a);
    }
  }

  lemma ChainNotLonger(g: Graph, e: nat, a: seq<nat>, b: seq<nat>)
    requires Closed(g) && e in g && IsChain(g, e, a) && IsChain(g, e, b) && |a| <= |b|
    ensures a == b
  {
    AgreeOutwards(g, e, a, b, |a|);
    assert a == b[..|a|];
    LaterIsNew(b, |a|);
  }

  lemma LaterIsNew(p: seq<nat>, n: nat)
    requires Distinct(p)
    ensures n < |p| ==> p[n] !in p[..n]
  {
  }

  lemma {:induction false} AgreeOutwards(g: Graph, e: nat, a: seq<nat>, b: seq<nat>, n: nat)
    requires Closed(g) && e in g && IsChain(g, e, a) && IsChain(g, e, b) && n <= |a| <= |b|
    ensures forall i :: 0 <= i < n ==> a[i] == b[i]
  {
    if n > 2 {
      AgreeOutwards(g, e, a, b, n - 1);
      assert RaisedFrom(g, a[n - 2], a[n - 1]) && RaisedFrom(g, b[n - 2], b[n - 1]);
    }
  }

  /** The comment in the source, "innermost first, then outwards": behind the root every exception has
      the one before it as its origin. */
  ghost predicate GoesOutwards(g: Graph, chain: seq<nat>)
    requires forall x <- chain :: x in g
  {
    forall i :: 1 <= i < |chain| - 1 ==> RaisedFrom(g, chain[i + 1], chain[i])
  }

  /** The exception is the root, or its origin adds nothing to the chain, or the two are each other's
      origins. */
  ghost predicate OriginGoesNoFurther(g: Graph, e: nat)
    requires Closed(g) && e in g
  {
    e == RootOf(g, e) || forall o :: RaisedFrom(g, e, o) ==> o == e || o == RootOf(g, e) || MutuallyRaised(g, e, o)
  }

  ghost predicate MutuallyRaised(g: Graph, e: nat, o: nat) {
    o in g && RaisedFrom(g, o, e)
  }

  /** The chain goes outwards only where it has hardly a way to go; otherwise it goes from the outermost
      exception inwards. */
  lemma GoesOutwardsExactlyWhen(g: Graph, e: nat, chain: seq<nat>)
    requires Closed(g) && e in g && IsChain(g, e, chain)
    ensures GoesOutwards(g, chain) <==> OriginGoesNoFurther(g, e)
  {
    InnerStays(g, e);
    if |chain| > 2 {
      assert RaisedFrom(g, chain[1], chain[2]);
      assert chain[2] != chain[0] && chain[2] != chain[1];
      assert |chain| > 3 ==> RaisedFrom(g, chain[2], chain[3]) && chain[3] != chain[1];
      assert forall o: nat :: RaisedFrom(g, e, o) ==> o == chain[2];
      assert MutuallyRaised(g, e, chain[2]) <==> RaisedFrom(g, chain[2], e);
    } else {
      assert |chain| == 2 ==> forall o: nat :: RaisedFrom(g, chain[1], o) ==> o in chain;
    }
  }

  function Raised(cause: Option<nat>): Exc {
    Exc("Error", NoArgs, cause, None, false)
  }

  /** An exception raised from a second one that was raised from a third: the chain is the third, the
      first, the second. */
  lemma ChainGoesInwards(g: Graph)
    requires g == map[0 := Raised(Some(1)), 1 := Raised(Some(2)), 2 := Raised(None)]
    ensures Closed(g) && IsChain(g, 0, [2, 0, 1]) && !GoesOutwards(g, [2, 0, 1])
  {
    assert Closed(g);
    assert Leads(g, 0, 1) && Leads(g, 1, 2) && forall n :: !Leads(g, 2, n);
    var p := [0, 1, 2];
    assert IsWholeTrail(g, p);
    SearchExtends(g, [], 0);
    OneWholeTrail(g, TrailOf(g, 0), p);
    assert RaisedFrom(g, 0, 1) && RaisedFrom(g, 1, 2);
    var chain := [2, 0, 1];
    assert !RaisedFrom(g, chain[1 + 1], chain[1]);
  }
}
