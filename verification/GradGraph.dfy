/** Derivatives over a graph with sharing: forward by the chain rule, and backward by a sweep. */
module GradGraph {

  /** A value by the numbers of its children and its local derivative by each of them. */
  datatype Node = Node(children: seq<nat>, locals: seq<real>)

  /** Values are numbered in the order of their creation, so children come first. */
  predicate Acyclic(g: seq<Node>) {
    forall i :: 0 <= i < |g| ==>
      |g[i].children| == |g[i].locals| && forall k :: 0 <= k < |g[i].children| ==> g[i].children[k] < i
  }

  function Times(a: real, b: real): real {
    a * b
  }

  // Forward: the derivative of value `v` by value `y`, with `y` taken as a variable.

  function D(g: seq<Node>, v: nat, y: nat): real
    requires Acyclic(g) && v < |g|
    decreases v, 1, 0
  {
    if v == y then 1.0 else Chain(g, v, |g[v].children|, y)
  }

  lemma DSelf(g: seq<Node>, v: nat)
    requires Acyclic(g) && v < |g|
    ensures D(g, v, v) == 1.0
  {
  }

  /** The chain rule over the first `n` children. */
  function Chain(g: seq<Node>, v: nat, n: nat, y: nat): real
    requires Acyclic(g) && v < |g| && n <= |g[v].children|
    decreases v, 0, n
  {
    if n == 0 then 0.0
    else Chain(g, v, n - 1, y) + Times(g[v].locals[n - 1], D(g, g[v].children[n - 1], y))
  }

  ghost predicate Reaches(g: seq<Node>, v: nat, y: nat)
    requires Acyclic(g) && v < |g|
    decreases v
  {
    v == y || exists k :: 0 <= k < |g[v].children| && Reaches(g, g[v].children[k], y)
  }

  /** The chain rule for one and for two children. */
  lemma ChainOne(g: seq<Node>, v: nat, y: nat)
    requires Acyclic(g) && v < |g| && v != y && |g[v].children| == 1
    ensures D(g, v, y) == Times(g[v].locals[0], D(g, g[v].children[0], y))
  {
    assert Chain(g, v, 0, y) == 0.0;
  }

  lemma ChainTwo(g: seq<Node>, v: nat, y: nat)
    requires Acyclic(g) && v < |g| && v != y && |g[v].children| == 2
    ensures D(g, v, y) == Times(g[v].locals[0], D(g, g[v].children[0], y))
                        + Times(g[v].locals[1], D(g, g[v].children[1], y))
  {
    assert Chain(g, v, 1, y) == Chain(g, v, 0, y) + Times(g[v].locals[0], D(g, g[v].children[0], y));
  }

  /** Later values do not change what an earlier one depends on. */
  lemma {:induction false} Prefix(g: seq<Node>, h: seq<Node>, v: nat, y: nat)
    requires Acyclic(g) && Acyclic(h) && v < |g| <= |h| && forall i :: 0 <= i < |g| ==> h[i] == g[i]
    ensures D(h, v, y) == D(g, v, y)
    decreases v, 1, 0
  {
    if v != y {
      PrefixChain(g, h, v, |g[v].children|, y);
    }
  }

  lemma {:induction false} PrefixChain(g: seq<Node>, h: seq<Node>, v: nat, n: nat, y: nat)
    requires Acyclic(g) && Acyclic(h) && v < |g| <= |h| && forall i :: 0 <= i < |g| ==> h[i] == g[i]
    requires n <= |g[v].children|
    ensures Chain(h, v, n, y) == Chain(g, v, n, y)
    decreases v, 0, n
  {
    hide Times;
    if n > 0 {
      Prefix(g, h, g[v].children[n - 1], y);
      PrefixChain(g, h, v, n - 1, y);
    }
  }

  // Depth-first search.

  /** The values seen so far, and those finished, in the order they were finished. */
  datatype Search = Search(seen: set<nat>, order: seq<nat>)

  function Visit(g: seq<Node>, v: nat, s: Search): Search
    requires Acyclic(g) && v < |g|
    decreases v, 1, 0
  {
    if v in s.seen then s
    else
      var r := VisitChildren(g, v, |g[v].children|, Search(s.seen + {v}, s.order));
      Search(r.seen, r.order + [v])
  }

  /** Visits the first `n` children of `v`. */
  function VisitChildren(g: seq<Node>, v: nat, n: nat, s: Search): Search
    requires Acyclic(g) && v < |g| && n <= |g[v].children|
    decreases v, 0, n
  {
    if n == 0 then s else Visit(g, g[v].children[n - 1], VisitChildren(g, v, n - 1, s))
  }

  /** A visit to a new value of at most two children. */
  lemma VisitIs(g: seq<Node>, v: nat, s: Search)
    requires Acyclic(g) && v < |g| && v !in s.seen && |g[v].children| <= 2
    ensures var s1 := Search(s.seen + {v}, s.order);
            var cs := g[v].children;
            var r := if cs == [] then s1
                     else if |cs| == 1 then Visit(g, cs[0], s1) else Visit(g, cs[1], Visit(g, cs[0], s1));
            Visit(g, v, s) == Search(r.seen, r.order + [v])
  {
    var s1 := Search(s.seen + {v}, s.order);
    if |g[v].children| >= 1 {
      assert VisitChildren(g, v, 1, s1) == Visit(g, g[v].children[0], VisitChildren(g, v, 0, s1));
    }
  }

  predicate Before(t: seq<nat>, i: nat, c: nat) {
    exists j :: 0 <= j < i && j < |t| && t[j] == c
  }

  /** No value twice, and each after all its children. */
  predicate Order(g: seq<Node>, t: seq<nat>) {
    && (forall i :: 0 <= i < |t| ==> t[i] < |g|)
    && (forall i, j :: 0 <= i < j < |t| ==> t[i] != t[j])
    && (forall i, k :: 0 <= i < |t| && 0 <= k < |g[t[i]].children| ==> Before(t, i, g[t[i]].children[k]))
  }

  /** A search in progress below `v`: what is seen is finished or still open above `v`. */
  ghost predicate Below(g: seq<Node>, v: nat, s: Search) {
    && Order(g, s.order)
    && (forall u :: u in s.order ==> u in s.seen)
    && (forall u :: u in s.seen ==> u in s.order || u >= v)
  }

  /** How a search goes on: everything new is finished, and was reached from `v`. */
  ghost predicate Grows(g: seq<Node>, v: nat, s: Search, r: Search)
    requires Acyclic(g) && v < |g|
  {
    && |s.order| <= |r.order| && (forall i :: 0 <= i < |s.order| ==> r.order[i] == s.order[i])
    && (forall u :: u in r.seen <==> u in s.seen || u in r.order)
    && (forall u :: u in r.order ==> u in s.order || Reaches(g, v, u))
  }

  lemma OrderSnoc(g: seq<Node>, t: seq<nat>, v: nat)
    requires Order(g, t) && v < |g| && v !in t && forall k :: 0 <= k < |g[v].children| ==> g[v].children[k] in t
    ensures Order(g, t + [v])
  {
    var u := t + [v];
    forall i, k | 0 <= i < |u| && 0 <= k < |g[u[i]].children|
      ensures Before(u, i, g[u[i]].children[k])
    {
      if i < |t| {
        assert Before(t, i, g[t[i]].children[k]);
        var j :| 0 <= j < i && t[j] == g[t[i]].children[k];
        assert u[j] == t[j];
      } else {
        var j :| 0 <= j < |t| && t[j] == g[v].children[k];
        assert u[j] == t[j];
      }
    }
  }

  lemma {:induction false} VisitOrders(g: seq<Node>, v: nat, s: Search)
    requires Acyclic(g) && v < |g| && Below(g, v + 1, s)
    ensures Below(g, v + 1, Visit(g, v, s)) && Grows(g, v, s, Visit(g, v, s)) && v in Visit(g, v, s).order
    decreases v, 1, 0
  {
    hide Order, Acyclic, Below, Grows;
    if v in s.seen {
      SeenBefore(g, v, s);
    } else {
      var s1 := Search(s.seen + {v}, s.order);
      Opened(g, v, s);
      ChildrenOrder(g, v, |g[v].children|, s1);
      Closed(g, v, s, VisitChildren(g, v, |g[v].children|, s1));
    }
  }

  lemma SeenBefore(g: seq<Node>, v: nat, s: Search)
    requires Acyclic(g) && v < |g| && Below(g, v + 1, s) && v in s.seen
    ensures Grows(g, v, s, s) && v in s.order
  {
  }

  lemma Opened(g: seq<Node>, v: nat, s: Search)
    requires Below(g, v + 1, s) && v !in s.seen
    ensures Below(g, v, Search(s.seen + {v}, s.order)) && v !in s.order
  {
    hide Order;
  }

  /** A value is finished when all its children are. */
  lemma Closed(g: seq<Node>, v: nat, s: Search, r: Search)
    requires Acyclic(g) && v < |g| && Below(g, v, r) && Grows(g, v, Search(s.seen + {v}, s.order), r)
    requires v !in r.order && forall k :: 0 <= k < |g[v].children| ==> g[v].children[k] in r.order
    ensures Below(g, v + 1, Search(r.seen, r.order + [v])) && Grows(g, v, s, Search(r.seen, r.order + [v]))
  {
    hide Order;
    OrderSnoc(g, r.order, v);
    forall u | u in r.seen ensures u in s.seen || u in r.order + [v] {
      assert u in s.seen + {v} || u in r.order;
    }
  }

  lemma {:induction false} ChildrenOrder(g: seq<Node>, v: nat, n: nat, s: Search)
    requires Acyclic(g) && v < |g| && n <= |g[v].children| && Below(g, v, s) && v in s.seen && v !in s.order
    ensures var r := VisitChildren(g, v, n, s);
            && Below(g, v, r) && Grows(g, v, s, r) && v !in r.order
            && forall k :: 0 <= k < n ==> g[v].children[k] in r.order
    decreases v, 0, n
  {
    hide Order, Before, Below, Grows, Visit;
    if n > 0 {
      var c := g[v].children[n - 1];
      ChildrenOrder(g, v, n - 1, s);
      var q := VisitChildren(g, v, n - 1, s);
      BelowChild(g, v, c, q);
      StillSeen(g, v, s, q, v);
      VisitOrders(g, c, q);
      var r := Visit(g, c, q);
      assert r == VisitChildren(g, v, n, s);
      ChildSeen(g, v, n - 1, q, r);
      GrowsOn(g, v, s, q, r);
      forall k | 0 <= k < n ensures g[v].children[k] in r.order {
        if k < n - 1 {
          StillIn(g, v, q, r, g[v].children[k]);
        }
      }
    } else {
      GrowsNone(g, v, s);
    }
  }

  lemma GrowsNone(g: seq<Node>, v: nat, s: Search)
    requires Acyclic(g) && v < |g| && Below(g, v, s)
    ensures Grows(g, v, s, s)
  {
  }

  lemma BelowChild(g: seq<Node>, v: nat, c: nat, s: Search)
    requires Below(g, v, s) && c < v
    ensures Below(g, c + 1, s)
  {
    hide Order;
  }

  lemma StillIn(g: seq<Node>, v: nat, s: Search, r: Search, u: nat)
    requires Acyclic(g) && v < |g| && Grows(g, v, s, r) && u in s.order
    ensures u in r.order
  {
    var i :| 0 <= i < |s.order| && s.order[i] == u;
    assert r.order[i] == u;
  }

  lemma StillSeen(g: seq<Node>, v: nat, s: Search, r: Search, u: nat)
    requires Acyclic(g) && v < |g| && Grows(g, v, s, r) && u in s.seen
    ensures u in r.seen
  {
  }

  /** A search of a child, seen from its parent. */
  lemma ChildSeen(g: seq<Node>, v: nat, k: nat, s: Search, r: Search)
    requires Acyclic(g) && v < |g| && k < |g[v].children| && Below(g, v, s) && v in s.seen && v !in s.order
    requires Below(g, g[v].children[k] + 1, r) && Grows(g, g[v].children[k], s, r)
    ensures Below(g, v, r) && Grows(g, v, s, r) && v !in r.order
  {
    hide Order, Reaches;
    var c := g[v].children[k];
    ReachesUp(g, v, k);
    forall u: nat | Reaches(g, c, u) ensures u < v {
      ReachesDown(g, c, u);
    }
  }

  lemma GrowsOn(g: seq<Node>, v: nat, s: Search, q: Search, r: Search)
    requires Acyclic(g) && v < |g| && Grows(g, v, s, q) && Grows(g, v, q, r)
    ensures Grows(g, v, s, r)
  {
    hide Reaches;
    forall u | u in s.seen ensures u in r.seen {
      assert u in q.seen;
    }
  }

  lemma {:induction false} ReachesDown(g: seq<Node>, v: nat, u: nat)
    requires Acyclic(g) && v < |g| && Reaches(g, v, u)
    ensures u <= v
    decreases v
  {
    if u != v {
      var k :| 0 <= k < |g[v].children| && Reaches(g, g[v].children[k], u);
      ReachesDown(g, g[v].children[k], u);
    }
  }

  lemma ReachesUp(g: seq<Node>, v: nat, k: nat)
    requires Acyclic(g) && v < |g| && k < |g[v].children|
    ensures forall u :: Reaches(g, g[v].children[k], u) ==> Reaches(g, v, u)
  {
  }

  /** A search from `root` alone. */
  function Topo(g: seq<Node>, root: nat): seq<nat>
    requires Acyclic(g) && root < |g|
  {
    Visit(g, root, Search({}, [])).order
  }

  lemma {:induction false} ReachedIn(g: seq<Node>, t: seq<nat>, v: nat, u: nat)
    requires Acyclic(g) && v < |g| && Order(g, t) && v in t && Reaches(g, v, u)
    ensures u in t
    decreases v
  {
    if u != v {
      var i :| 0 <= i < |t| && t[i] == v;
      var k :| 0 <= k < |g[v].children| && Reaches(g, g[v].children[k], u);
      assert Before(t, i, g[t[i]].children[k]);
      ReachedIn(g, t, g[v].children[k], u);
    }
  }

  /** The search lists what the root reaches, each value once and after its children, the root last. */
  lemma TopoIs(g: seq<Node>, root: nat)
    requires Acyclic(g) && root < |g|
    ensures var t := Topo(g, root);
            && Order(g, t) && (forall u :: u in t <==> Reaches(g, root, u))
            && |t| > 0 && t[|t| - 1] == root
  {
    var s := Search({}, []);
    VisitOrders(g, root, s);
    var t := Topo(g, root);
    forall u ensures u in t <==> Reaches(g, root, u) {
      if Reaches(g, root, u) {
        ReachedIn(g, t, root, u);
      }
    }
  }

  // Backward.

  /** Adds to the first `n` children of `v` their share of its gradient. */
  function Push(g: seq<Node>, v: nat, n: nat, grads: seq<real>): (r: seq<real>)
    requires Acyclic(g) && v < |g| == |grads| && n <= |g[v].children|
    ensures |r| == |grads|
  {
    if n == 0 then grads
    else
      var h := Push(g, v, n - 1, grads);
      var c := g[v].children[n - 1];
      h[c := h[c] + Times(g[v].locals[n - 1], h[v])]
  }

  /** A push to at most two children. */
  lemma PushIs(g: seq<Node>, v: nat, grads: seq<real>)
    requires Acyclic(g) && v < |g| == |grads| && |g[v].children| <= 2
    ensures var cs, ls := g[v].children, g[v].locals;
            var h := if cs == [] then grads else grads[cs[0] := grads[cs[0]] + Times(ls[0], grads[v])];
            Push(g, v, |cs|, grads) == if |cs| < 2 then h else h[cs[1] := h[cs[1]] + Times(ls[1], grads[v])]
  {
    if |g[v].children| >= 1 {
      assert Push(g, v, 0, grads) == grads;
      PushKeeps(g, v, 1, grads, v);
    }
  }

  /** The gradients after the sweep came down to position `i` of the order. */
  function Sweep(g: seq<Node>, t: seq<nat>, i: nat, grads: seq<real>): (r: seq<real>)
    requires Acyclic(g) && Order(g, t) && i <= |t| && |grads| == |g|
    ensures |r| == |grads|
    decreases |t| - i
  {
    if i == |t| then grads else Push(g, t[i], |g[t[i]].children|, Sweep(g, t, i + 1, grads))
  }

  /** What the first `i` values of the order still owe `y`. */
  function Owed(g: seq<Node>, t: seq<nat>, i: nat, grads: seq<real>, y: nat): real
    requires Acyclic(g) && Order(g, t) && i <= |t| && |grads| == |g|
  {
    if i == 0 then 0.0 else Owed(g, t, i - 1, grads, y) + Times(grads[t[i - 1]], D(g, t[i - 1], y))
  }

  lemma Distribute(a: real, b: real, c: real)
    ensures Times(a + b, c) == Times(a, c) + Times(b, c) && Times(c, a + b) == Times(c, a) + Times(c, b)
  {
  }

  lemma Regroup(a: real, b: real, c: real)
    ensures Times(Times(a, b), c) == Times(b, Times(a, c))
  {
  }

  lemma Zero(a: real)
    ensures Times(a, 0.0) == 0.0 && Times(0.0, a) == 0.0 && Times(1.0, a) == a && Times(a, 1.0) == a
  {
  }

  lemma Units()
    ensures forall a: real :: Times(1.0, a) == a
    ensures forall a: real :: Times(0.0, a) == 0.0
  {
  }

  lemma Negate(a: real)
    ensures Times(-1.0, a) == -a
  {
  }

  /** Adding to the gradient of a value in the order adds its derivative so many times. */
  lemma {:induction false} OwedMore(g: seq<Node>, t: seq<nat>, i: nat, grads: seq<real>, y: nat, c: nat, d: real)
    requires Acyclic(g) && Order(g, t) && i <= |t| && |grads| == |g| && c < |g|
    ensures Owed(g, t, i, grads[c := grads[c] + d], y)
         == Owed(g, t, i, grads, y) + (if Before(t, i, c) then Times(d, D(g, c, y)) else 0.0)
  {
    hide Times;
    if i > 0 {
      OwedMore(g, t, i - 1, grads, y, c, d);
      if t[i - 1] == c {
        assert !Before(t, i - 1, c) && Before(t, i, c);
        Distribute(grads[c], d, D(g, c, y));
      } else {
        assert Before(t, i - 1, c) <==> Before(t, i, c);
      }
    }
  }

  lemma {:induction false} PushKeeps(g: seq<Node>, v: nat, n: nat, grads: seq<real>, u: nat)
    requires Acyclic(g) && v < |g| == |grads| && n <= |g[v].children| && u < |g|
    requires forall k :: 0 <= k < n ==> g[v].children[k] != u
    ensures Push(g, v, n, grads)[u] == grads[u]
  {
    if n > 0 {
      PushKeeps(g, v, n - 1, grads, u);
    }
  }

  /** What a value owes through its children is owed by them once it has pushed. */
  lemma {:induction false} PushOwes(g: seq<Node>, t: seq<nat>, i: nat, n: nat, grads: seq<real>, y: nat)
    requires Acyclic(g) && Order(g, t) && i < |t| && |grads| == |g| && n <= |g[t[i]].children|
    ensures Owed(g, t, i, Push(g, t[i], n, grads), y)
         == Owed(g, t, i, grads, y) + Times(grads[t[i]], Chain(g, t[i], n, y))
  {
    hide Times;
    var v := t[i];
    if n > 0 {
      var h := Push(g, v, n - 1, grads);
      var c := g[v].children[n - 1];
      var l, d := g[v].locals[n - 1], D(g, c, y);
      PushOwes(g, t, i, n - 1, grads, y);
      PushKeeps(g, v, n - 1, grads, v);
      assert Before(t, i, c);
      OwedMore(g, t, i, h, y, c, Times(l, h[v]));
      Regroup(l, h[v], d);
      Distribute(Chain(g, v, n - 1, y), Times(l, d), h[v]);
    } else {
      Zero(grads[v]);
    }
  }

  /** The derivative of the root by a value the root does not come after is zero. */
  lemma {:induction false} NoEffect(g: seq<Node>, v: nat, y: nat)
    requires Acyclic(g) && v < |g| && !Reaches(g, v, y)
    ensures D(g, v, y) == 0.0
    decreases v, 1, 0
  {
    NoEffectChain(g, v, |g[v].children|, y);
  }

  lemma {:induction false} NoEffectChain(g: seq<Node>, v: nat, n: nat, y: nat)
    requires Acyclic(g) && v < |g| && n <= |g[v].children| && !Reaches(g, v, y)
    ensures Chain(g, v, n, y) == 0.0
    decreases v, 0, n
  {
    if n > 0 {
      NoEffect(g, g[v].children[n - 1], y);
      NoEffectChain(g, v, n - 1, y);
      Zero(g[v].locals[n - 1]);
    }
  }

  /** No value before position `m` of the order owes anything to the value there. */
  lemma {:induction false} OwesNothing(g: seq<Node>, t: seq<nat>, i: nat, m: nat, grads: seq<real>)
    requires Acyclic(g) && Order(g, t) && i <= m < |t| && |grads| == |g|
    ensures Owed(g, t, i, grads, t[m]) == 0.0
  {
    if i > 0 {
      OwesNothing(g, t, i - 1, m, grads);
      if Reaches(g, t[i - 1], t[m]) {
        ReachedBefore(g, t, i - 1, t[m]);
      }
      NoEffect(g, t[i - 1], t[m]);
      Zero(grads[t[i - 1]]);
    }
  }

  lemma {:induction false} ReachedBefore(g: seq<Node>, t: seq<nat>, i: nat, u: nat)
    requires Acyclic(g) && Order(g, t) && i < |t| && Reaches(g, t[i], u)
    ensures Before(t, i + 1, u)
    decreases t[i]
  {
    if u != t[i] {
      var k :| 0 <= k < |g[t[i]].children| && Reaches(g, g[t[i]].children[k], u);
      assert Before(t, i, g[t[i]].children[k]);
      var j: nat :| j < i && t[j] == g[t[i]].children[k];
      ReachedBefore(g, t, j, u);
    }
  }

  /** Gradients are zero but for that of the root, the last of the order. */
  predicate Seeded(t: seq<nat>, grads: seq<real>) {
    && |t| > 0 && (forall i :: 0 <= i < |t| ==> t[i] < |grads|)
    && grads[t[|t| - 1]] == 1.0
    && forall i :: 0 <= i < |t| - 1 ==> grads[t[i]] == 0.0
  }

  lemma {:induction false} NothingOwed(g: seq<Node>, t: seq<nat>, i: nat, grads: seq<real>, y: nat)
    requires Acyclic(g) && Order(g, t) && Seeded(t, grads) && i < |t| && |grads| == |g|
    ensures Owed(g, t, i, grads, y) == 0.0
  {
    if i > 0 {
      NothingOwed(g, t, i - 1, grads, y);
      Zero(D(g, t[i - 1], y));
    }
  }

  /**
   * While the sweep comes down the order, a value it has passed has its final gradient, and to
   * every other value the rest of the order owes all of its derivative.
   */
  lemma {:induction false} SweepInvariant(g: seq<Node>, t: seq<nat>, i: nat, grads: seq<real>, m: nat)
    requires Acyclic(g) && Order(g, t) && Seeded(t, grads) && |grads| == |g| && i <= |t| && m < |t|
    ensures var r := Sweep(g, t, i, grads); var root := t[|t| - 1];
            if m < i then Owed(g, t, i, r, t[m]) == D(g, root, t[m]) else r[t[m]] == D(g, root, t[m])
    decreases |t| - i
  {
    hide Times, Push;
    var root := t[|t| - 1];
    if i == |t| {
      NothingOwed(g, t, i - 1, grads, t[m]);
      Zero(D(g, root, t[m]));
    } else {
      SweepInvariant(g, t, i + 1, grads, m);
      var v := t[i];
      var n := |g[v].children|;
      var h := Sweep(g, t, i + 1, grads);
      if m < i {
        PushOwes(g, t, i, n, h, t[m]);
      } else {
        forall k | 0 <= k < n ensures g[v].children[k] != t[m] {
          assert Before(t, i, g[v].children[k]);
        }
        PushKeeps(g, v, n, h, t[m]);
        if m == i {
          OwesNothing(g, t, i, i, h);
          Zero(h[v]);
        }
      }
    }
  }

  /** The sweep leaves in every value the root reaches its derivative, and leaves the others alone. */
  lemma SweepIsDerivative(g: seq<Node>, root: nat, grads: seq<real>, y: nat)
    requires Acyclic(g) && root < |g| == |grads| && y < |g|
    requires Order(g, Topo(g, root)) && Seeded(Topo(g, root), grads)
    ensures Sweep(g, Topo(g, root), 0, grads)[y] == if Reaches(g, root, y) then D(g, root, y) else grads[y]
  {
    var t := Topo(g, root);
    TopoIs(g, root);
    if Reaches(g, root, y) {
      var m :| 0 <= m < |t| && t[m] == y;
      SweepInvariant(g, t, 0, grads, m);
    } else {
      SweepKeeps(g, t, 0, grads, y);
    }
  }

  lemma {:induction false} SweepKeeps(g: seq<Node>, t: seq<nat>, i: nat, grads: seq<real>, y: nat)
    requires Acyclic(g) && Order(g, t) && i <= |t| && |grads| == |g| && y < |g| && y !in t
    ensures Sweep(g, t, i, grads)[y] == grads[y]
    decreases |t| - i
  {
    if i < |t| {
      SweepKeeps(g, t, i + 1, grads, y);
      forall k | 0 <= k < |g[t[i]].children| ensures g[t[i]].children[k] != y {
        assert Before(t, i, g[t[i]].children[k]);
      }
      PushKeeps(g, t[i], |g[t[i]].children|, Sweep(g, t, i + 1, grads), y);
    }
  }

  /** The same, seen from the gradients before the root got its own. */
  lemma SweepMeans(g: seq<Node>, root: nat, before: seq<real>, start: seq<real>)
    requires Acyclic(g) && root < |g| == |before| && start == before[root := 1.0]
    requires Order(g, Topo(g, root)) && Seeded(Topo(g, root), start)
    ensures forall y :: 0 <= y < |g| ==>
      Sweep(g, Topo(g, root), 0, start)[y] == if Reaches(g, root, y) then D(g, root, y) else before[y]
  {
    forall y: nat | y < |g|
      ensures Sweep(g, Topo(g, root), 0, start)[y] == if Reaches(g, root, y) then D(g, root, y) else before[y]
    {
      SweepIsDerivative(g, root, start, y);
    }
  }
}
