/** Simulating a graph on sets of states: closures, steps, and what the simulation decides. */
module Simulation {
  import opened RegexSyntax
  import opened NfaGraph

  /** `q` is reached from `s` by at most `n` unlabeled arrows. */
  ghost predicate ReachesIn(g: Graph, s: State, q: State, n: nat)
    decreases n
  {
    && s in g
    && (s == q ||
        (n > 0 && g[s].c == SPLIT &&
         ((g[s].out.ToState? && ReachesIn(g, g[s].out.s, q, n - 1)) ||
          (g[s].out1.ToState? && ReachesIn(g, g[s].out1.s, q, n - 1)))))
  }

  ghost predicate Reaches(g: Graph, s: State, q: State) {
    exists n: nat :: ReachesIn(g, s, q, n)
  }

  /** The labeled and matching states reached from `from` by unlabeled arrows. */
  ghost function Closure(g: Graph, from: set<State>): set<State> {
    set q | q in g && g[q].c != SPLIT && ReachedSome(g, from, q)
  }

  /** Where the arrows labeled `c` lead from `cur`. */
  ghost function Targets(g: Graph, cur: set<State>, c: int): set<State> {
    set p | p in cur && p in g && g[p].c == c && g[p].out.ToState? :: g[p].out.s
  }

  ghost function StepSet(g: Graph, cur: set<State>, c: int): set<State> {
    Closure(g, Targets(g, cur, c))
  }

  /** The set of states after reading `w`. */
  ghost function Sim(g: Graph, start: State, w: CString): set<State> {
    if w == [] then Closure(g, {start})
    else StepSet(g, Sim(g, start, w[..|w| - 1]), w[|w| - 1] as int)
  }

  lemma SimInGraph(g: Graph, start: State, w: CString)
    ensures Sim(g, start, w) <= g.Keys
  {
  }

  lemma StepInGraph(g: Graph, cur: set<State>, c: int)
    ensures StepSet(g, cur, c) <= g.Keys
  {
  }

  lemma SimNext(g: Graph, start: State, w: CString, i: nat)
    requires i < |w|
    ensures Sim(g, start, w[..i + 1]) == StepSet(g, Sim(g, start, w[..i]), w[i] as int)
  {
    assert w[..i + 1][..i] == w[..i];
  }

  lemma ReachesVia(g: Graph, s: State, t: State, q: State)
    requires s in g && g[s].c == SPLIT && (g[s].out == ToState(t) || g[s].out1 == ToState(t)) && Reaches(g, t, q)
    ensures Reaches(g, s, q)
  {
    var n: nat :| ReachesIn(g, t, q, n);
    assert ReachesIn(g, s, q, n + 1);
  }

  // ---------------------------------------------------------------- Marking computes closures

  ghost predicate ClosedUnderSplits(g: Graph, marked: set<State>) {
    forall x {:trigger g[x]} :: x in marked && x in g && g[x].c == SPLIT ==>
      && (g[x].out.ToState? ==> g[x].out.s in marked)
      && (g[x].out1.ToState? ==> g[x].out1.s in marked)
  }

  ghost predicate ReachedSome(g: Graph, from: set<State>, x: State) {
    exists p :: p in from && Reaches(g, p, x)
  }

  ghost predicate ReachedFrom(g: Graph, from: set<State>, marked: set<State>) {
    forall x {:trigger ReachedSome(g, from, x)} :: x in marked ==> ReachedSome(g, from, x)
  }

  ghost function Labeled(g: Graph, marked: set<State>): set<State> {
    set x | x in marked && x in g && g[x].c != SPLIT
  }

  lemma {:induction false} ReachStays(g: Graph, marked: set<State>, p: State, q: State, n: nat)
    requires ClosedUnderSplits(g, marked) && p in marked && ReachesIn(g, p, q, n)
    ensures q in marked
    decreases n
  {
    if p != q {
      if g[p].out.ToState? && ReachesIn(g, g[p].out.s, q, n - 1) {
        ReachStays(g, marked, g[p].out.s, q, n - 1);
      } else {
        ReachStays(g, marked, g[p].out1.s, q, n - 1);
      }
    }
  }

  lemma ClosureIsMarked(g: Graph, from: set<State>, marked: set<State>, q: State)
    requires ClosedUnderSplits(g, marked) && from <= marked && q in Closure(g, from)
    ensures q in Labeled(g, marked)
  {
    var p :| p in from && Reaches(g, p, q);
    var n: nat :| ReachesIn(g, p, q, n);
    ReachStays(g, marked, p, q, n);
  }

  lemma MarkedIsReached(g: Graph, from: set<State>, marked: set<State>)
    requires marked <= g.Keys && ReachedFrom(g, from, marked)
    ensures Labeled(g, marked) <= Closure(g, from)
  {
    forall x | x in Labeled(g, marked)
      ensures x in Closure(g, from)
    {
      assert ReachedSome(g, from, x);
    }
  }

  /** A marking that is closed, contains `from` and nothing unreachable, marks exactly the closure. */
  lemma MarkedIsClosure(g: Graph, from: set<State>, marked: set<State>)
    requires ClosedUnderSplits(g, marked) && from <= marked <= g.Keys && ReachedFrom(g, from, marked)
    ensures Labeled(g, marked) == Closure(g, from)
  {
    MarkedIsReached(g, from, marked);
    assert Closure(g, from) <= Labeled(g, marked) by {
      forall q | q in Closure(g, from)
        ensures q in Labeled(g, marked)
      {
        ClosureIsMarked(g, from, marked, q);
      }
    }
  }

  // ---------------------------------------------------------------- The simulation decides acceptance

  lemma {:induction false} ReachAccepts(g: Graph, p: State, q: State, n: nat, w: CString, m: nat) returns (k: nat)
    requires ReachesIn(g, p, q, n) && AcceptsIn(g, q, w, m)
    ensures AcceptsIn(g, p, w, k)
    decreases n
  {
    if p == q {
      k := m;
    } else if g[p].out.ToState? && ReachesIn(g, g[p].out.s, q, n - 1) {
      k := ReachAccepts(g, g[p].out.s, q, n - 1, w, m);
      k := k + 1;
    } else {
      k := ReachAccepts(g, g[p].out1.s, q, n - 1, w, m);
      k := k + 1;
    }
  }

  /** An accepting run from `p` soon leaves the unlabeled arrows. */
  lemma {:induction false} AcceptsThrough(g: Graph, p: State, w: CString, n: nat) returns (q: State, m: nat)
    requires AcceptsIn(g, p, w, n)
    ensures m <= n && q in g && g[q].c != SPLIT && Reaches(g, p, q) && AcceptsIn(g, q, w, m)
    decreases n
  {
    if g[p].c != SPLIT {
      q, m := p, n;
      assert ReachesIn(g, p, q, 0);
    } else if g[p].out.ToState? && AcceptsIn(g, g[p].out.s, w, n - 1) {
      q, m := AcceptsThrough(g, g[p].out.s, w, n - 1);
      ReachesVia(g, p, g[p].out.s, q);
    } else {
      q, m := AcceptsThrough(g, g[p].out1.s, w, n - 1);
      ReachesVia(g, p, g[p].out1.s, q);
    }
  }

  ghost predicate SomeAccepts(g: Graph, cur: set<State>, w: CString) {
    exists q :: q in cur && Accepts(g, q, w)
  }

  lemma ClosureAccepts(g: Graph, from: set<State>, w: CString)
    ensures SomeAccepts(g, Closure(g, from), w) <==> SomeAccepts(g, from, w)
  {
    if SomeAccepts(g, Closure(g, from), w) {
      var q :| q in Closure(g, from) && Accepts(g, q, w);
      var p :| p in from && Reaches(g, p, q);
      var n: nat :| ReachesIn(g, p, q, n);
      var m: nat :| AcceptsIn(g, q, w, m);
      var _ := ReachAccepts(g, p, q, n, w, m);
    }
    if SomeAccepts(g, from, w) {
      var p :| p in from && Accepts(g, p, w);
      var n: nat :| AcceptsIn(g, p, w, n);
      var q, m := AcceptsThrough(g, p, w, n);
      assert q in Closure(g, from);
    }
  }

  /** Reading a byte: a set of labeled states accepts `w` exactly if the next set accepts the rest. */
  lemma StepAccepts(g: Graph, cur: set<State>, w: CString)
    requires w != [] && forall q :: q in cur && q in g ==> g[q].c != SPLIT
    ensures SomeAccepts(g, cur, w) <==> SomeAccepts(g, StepSet(g, cur, w[0] as int), w[1..])
  {
    var c := w[0] as int;
    ClosureAccepts(g, Targets(g, cur, c), w[1..]);
    if SomeAccepts(g, cur, w) {
      var q :| q in cur && Accepts(g, q, w);
      var n: nat :| AcceptsIn(g, q, w, n);
      assert g[q].out.s in Targets(g, cur, c) && AcceptsIn(g, g[q].out.s, w[1..], n - 1);
    }
    if SomeAccepts(g, Targets(g, cur, c), w[1..]) {
      var t :| t in Targets(g, cur, c) && Accepts(g, t, w[1..]);
      var q :| q in cur && q in g && g[q].c == c && g[q].out == ToState(t);
      var n: nat :| AcceptsIn(g, t, w[1..], n);
      assert AcceptsIn(g, q, w, n + 1);
    }
  }

  lemma {:induction false} SimAccepts(g: Graph, start: State, u: CString, v: CString)
    ensures SomeAccepts(g, Sim(g, start, u), v) <==> Accepts(g, start, u + v)
    decreases u
  {
    if u == [] {
      ClosureAccepts(g, {start}, v);
      assert u + v == v;
      assert start in {start};
    } else {
      var n := |u| - 1;
      var v' := [u[n]] + v;
      SimAccepts(g, start, u[..n], v');
      assert u[..n] + v' == u + v && v'[1..] == v;
      StepAccepts(g, Sim(g, start, u[..n]), v');
    }
  }

  /** The matching state is in the set after `w` exactly if the graph accepts `w`. */
  lemma SimDecides(g: Graph, start: State, k: State, w: CString)
    requires k in g && forall s :: s in g ==> (g[s].c == MATCH <==> s == k)
    ensures k in Sim(g, start, w) <==> Accepts(g, start, w)
  {
    SimAccepts(g, start, w, []);
    assert w + [] == w;
    if k in Sim(g, start, w) {
      assert AcceptsIn(g, k, [], 0);
    }
    if SomeAccepts(g, Sim(g, start, w), []) {
      var q :| q in Sim(g, start, w) && Accepts(g, q, []);
      assert q in g && g[q].c != SPLIT;
    }
  }

  /** `out` says of each string whether the graph accepts it. */
  ghost predicate Decided(g: Graph, start: State, args: seq<CString>, out: seq<bool>) {
    |out| == |args| && forall i :: 0 <= i < |args| ==> (out[i] <==> Accepts(g, start, args[i]))
  }

  lemma DecidedSnoc(g: Graph, start: State, args: seq<CString>, i: nat, out: seq<bool>, b: bool)
    requires i < |args| && Decided(g, start, args[..i], out) && (b <==> Accepts(g, start, args[i]))
    ensures Decided(g, start, args[..i + 1], out + [b])
  {
    assert args[..i + 1] == args[..i] + [args[i]];
  }

  // ---------------------------------------------------------------- Room in the state lists

  ghost predicate HasSplit(g: Graph) {
    exists s :: s in g && g[s].c == SPLIT
  }

  predicate NoRepeats<T(==)>(l: seq<T>) {
    forall i, j :: 0 <= i < j < |l| ==> l[i] != l[j]
  }

  ghost function Elements<T>(l: seq<T>): set<T> {
    set x | x in l
  }

  lemma {:induction false} ElementCount<T>(l: seq<T>)
    requires NoRepeats(l)
    ensures |Elements(l)| == |l|
  {
    if l != [] {
      var n := |l| - 1;
      ElementCount(l[..n]);
      assert Elements(l) == Elements(l[..n]) + {l[n]};
    }
  }

  /** A list of labeled states has room for all but one of the states of the graph, provided some
      state is a split. */
  lemma ListRoom(g: Graph, l: seq<State>)
    requires NoRepeats(l) && HasSplit(g) && Elements(l) <= g.Keys && forall x :: x in l ==> g[x].c != SPLIT
    ensures |l| < |g.Keys|
  {
    ElementCount(l);
    var s :| s in g && g[s].c == SPLIT;
    var rest := g.Keys - {s};
    assert Elements(l) <= rest;
    SubsetCount(Elements(l), rest);
  }

  lemma SubsetCount(a: set<State>, b: set<State>)
    requires a <= b
    ensures |a| <= |b|
  {
    assert b == a + (b - a);
  }

  /** Without splits no list ever holds two states. */
  lemma {:induction false} NoSplitSingle(g: Graph, start: State, w: CString)
    requires !HasSplit(g)
    ensures forall p, q :: p in Sim(g, start, w) && q in Sim(g, start, w) ==> p == q
    decreases w
  {
    if w != [] {
      NoSplitSingle(g, start, w[..|w| - 1]);
    }
    forall p, q | p in Sim(g, start, w) && q in Sim(g, start, w)
      ensures p == q
    {
      if w == [] {
        NoSplitReach(g, start, p);
        NoSplitReach(g, start, q);
      } else {
        var cur := Targets(g, Sim(g, start, w[..|w| - 1]), w[|w| - 1] as int);
        var a :| a in cur && Reaches(g, a, p);
        var b :| b in cur && Reaches(g, b, q);
        NoSplitReach(g, a, p);
        NoSplitReach(g, b, q);
      }
    }
  }

  lemma NoSplitReach(g: Graph, p: State, q: State)
    requires !HasSplit(g) && Reaches(g, p, q)
    ensures p == q
  {
    var n: nat :| ReachesIn(g, p, q, n);
  }

  /** `l` holds, once each, the labeled states among `marked`. */
  ghost predicate ListOf(g: Graph, marked: set<State>, l: seq<State>) {
    NoRepeats(l) && Elements(l) == Labeled(g, marked)
  }

  /** A newly marked labeled state fits in the list. */
  lemma ListOneMore(g: Graph, marked: set<State>, l: seq<State>, s: State)
    requires ListOf(g, marked, l) && s in g && g[s].c != SPLIT && s !in marked
    requires l == [] || HasSplit(g)
    ensures ListOf(g, marked + {s}, l + [s])
    ensures l == [] || |l| + 1 < |g.Keys|
  {
    assert forall x :: x in l ==> x in Elements(l);
    assert Elements(l + [s]) == Elements(l) + {s};
    assert Labeled(g, marked + {s}) == Labeled(g, marked) + {s};
    if l != [] {
      ListRoom(g, l + [s]);
    }
  }

  lemma ListUnchanged(g: Graph, marked: set<State>, l: seq<State>, s: State)
    requires ListOf(g, marked, l) && s in g && g[s].c == SPLIT
    ensures ListOf(g, marked + {s}, l)
  {
    assert Labeled(g, marked + {s}) == Labeled(g, marked);
  }

  // ---------------------------------------------------------------- Exploring with marks

  /** Exploring from `s` turned the marks `before` into `after`: only states reached from `s` were
      added, and the arrows of every added split have been followed. */
  ghost predicate Explored(g: Graph, s: State?, before: set<State>, after: set<State>) {
    && before <= after <= g.Keys
    && (s != null ==> s in after)
    && (forall x {:trigger Reaches(g, s, x)} :: x in after && x !in before ==> s != null && Reaches(g, s, x))
    && (forall x {:trigger g[x]} :: x in after && x !in before && g[x].c == SPLIT ==>
          && g[x].out.ToState? && g[x].out.s in after
          && g[x].out1.ToState? && g[x].out1.s in after)
  }

  lemma ExploredNone(g: Graph, s: State?, before: set<State>)
    requires before <= g.Keys && (s != null ==> s in before)
    ensures Explored(g, s, before, before)
  {
  }

  lemma ExploredLeaf(g: Graph, s: State, before: set<State>)
    requires s in g && g[s].c != SPLIT && before <= g.Keys
    ensures Explored(g, s, before, before + {s})
  {
    assert ReachesIn(g, s, s, 0);
  }

  lemma ExploredSplit(g: Graph, s: State, before: set<State>, mid: set<State>, after: set<State>)
    requires s in g && g[s].c == SPLIT && g[s].out.ToState? && g[s].out1.ToState?
    requires Explored(g, g[s].out.s, before + {s}, mid) && Explored(g, g[s].out1.s, mid, after)
    ensures Explored(g, s, before, after)
  {
    forall x | x in after && x !in before
      ensures Reaches(g, s, x)
    {
      if x == s {
        assert ReachesIn(g, s, s, 0);
      } else if x in mid {
        assert Reaches(g, g[s].out.s, x);
        ReachesVia(g, s, g[s].out.s, x);
      } else {
        assert Reaches(g, g[s].out1.s, x);
        ReachesVia(g, s, g[s].out1.s, x);
      }
    }
  }

  /** Exploring from `s` after `from` has been explored. */
  lemma ExploredMore(g: Graph, from: set<State>, s: State, before: set<State>, after: set<State>)
    requires ClosedUnderSplits(g, before) && from <= before && ReachedFrom(g, from, before)
    requires Explored(g, s, before, after)
    ensures ClosedUnderSplits(g, after) && from + {s} <= after && ReachedFrom(g, from + {s}, after)
  {
    forall x | x in after
      ensures ReachedSome(g, from + {s}, x)
    {
      if x in before {
        assert ReachedSome(g, from, x);
        var p :| p in from && Reaches(g, p, x);
        assert p in from + {s};
      } else {
        assert Reaches(g, s, x);
        assert s in from + {s};
      }
    }
  }

  lemma TargetsSnoc(g: Graph, l: seq<State>, i: nat, c: int)
    requires i < |l| && l[i] in g && (g[l[i]].c == c ==> g[l[i]].out.ToState?)
    ensures Targets(g, Elements(l[..i + 1]), c) ==
            Targets(g, Elements(l[..i]), c) + if g[l[i]].c == c then {g[l[i]].out.s} else {}
  {
    assert l[..i + 1] == l[..i] + [l[i]];
    assert Elements(l[..i + 1]) == Elements(l[..i]) + {l[i]};
  }

  /** Without splits a list of the simulation has at most one member. */
  lemma NoSplitList(g: Graph, start: State, w: CString, l: seq<State>)
    requires NoRepeats(l) && Elements(l) == Sim(g, start, w)
    ensures HasSplit(g) || |l| <= 1
  {
    if |l| > 1 {
      assert l[0] in Elements(l) && l[1] in Elements(l);
      if !HasSplit(g) {
        NoSplitSingle(g, start, w);
      }
    }
  }

  /** Without splits a step from at most one state leads to at most one. */
  lemma SingleStep(g: Graph, l: seq<State>, c: int, p: State, q: State)
    requires !HasSplit(g) && |l| <= 1 && p in StepSet(g, Elements(l), c) && q in StepSet(g, Elements(l), c)
    ensures p == q
  {
    var from := Targets(g, Elements(l), c);
    assert ReachedSome(g, from, p) && ReachedSome(g, from, q);
    var a :| a in from && Reaches(g, a, p);
    var b :| b in from && Reaches(g, b, q);
    NoSplitReach(g, a, p);
    NoSplitReach(g, b, q);
  }

  lemma NoSplitStep(g: Graph, l: seq<State>, c: int, l': seq<State>)
    requires |l| <= 1 && NoRepeats(l') && Elements(l') == StepSet(g, Elements(l), c)
    ensures HasSplit(g) || |l'| <= 1
  {
    if |l'| > 1 {
      assert l'[0] in Elements(l') && l'[1] in Elements(l');
      if !HasSplit(g) {
        SingleStep(g, l, c, l'[0], l'[1]);
      }
    }
  }
}
