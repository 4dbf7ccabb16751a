/** The order in which the simulation lists states, and rearrangements of a list that its length decides. */
module StateOrder {
  import opened NfaGraph
  import opened Simulation

  /** The state an arrow points to, or NULL. */
  function Target(w: Word): State? {
    if w.ToState? then w.s else null
  }

  /** The states visited so far, and the labeled ones among them in the order they were met. */
  datatype Visited = Visited(marked: set<State>, list: seq<State>)

  const Nothing := Visited({}, [])

  /** Following the unlabeled arrows from `s`, the first arrow of a split before the second. */
  ghost function Follow(g: Graph, s: State?, v: Visited): (r: Visited)
    ensures v.marked <= r.marked
    decreases g.Keys - v.marked
  {
    if s == null || s in v.marked || s !in g then v
    else if g[s].c == SPLIT then
      Follow(g, Target(g[s].out1), Follow(g, Target(g[s].out), Visited(v.marked + {s}, v.list)))
    else Visited(v.marked + {s}, v.list + [s])
  }

  lemma FollowIs(g: Graph, s: State?, v: Visited)
    ensures s == null || s in v.marked ==> Follow(g, s, v) == v
    ensures s in g && s !in v.marked ==>
              Follow(g, s, v) == if g[s].c != SPLIT then Visited(v.marked + {s}, v.list + [s])
                                 else Follow(g, Target(g[s].out1),
                                             Follow(g, Target(g[s].out), Visited(v.marked + {s}, v.list)))
  {
  }

  /** The list that the simulation starts with. */
  ghost function StartOrder(g: Graph, start: State): seq<State> {
    Follow(g, start, Nothing).list
  }

  /** Following the arrows labeled `c` out of the first `i` states of `l`. */
  ghost function FollowAll(g: Graph, l: seq<State>, c: int, i: nat): Visited
    requires i <= |l|
  {
    if i == 0 then Nothing
    else
      var v := FollowAll(g, l, c, i - 1);
      if l[i - 1] in g && g[l[i - 1]].c == c then Follow(g, Target(g[l[i - 1]].out), v) else v
  }

  /** The list that a step past `c` leaves. */
  ghost function StepOrder(g: Graph, l: seq<State>, c: int): seq<State> {
    FollowAll(g, l, c, |l|).list
  }

  // ---------------------------------------------------------------- Rearranging by position

  /** `p` has each of the positions 0 to `n - 1` once. */
  predicate Permutes(p: seq<nat>, n: nat) {
    && |p| == n
    && (forall i :: 0 <= i < n ==> p[i] < n)
    && (forall i, j :: 0 <= i < j < n ==> p[i] != p[j])
    && (forall k :: 0 <= k < n ==> k in p)
  }

  /** For each length one rearrangement. */
  ghost predicate IsOrder(order: nat -> seq<nat>) {
    forall n: nat :: Permutes(order(n), n)
  }

  /** What a sort makes of `l` if it only looks at positions. */
  function Arrange(order: nat -> seq<nat>, l: seq<State>): seq<State>
    requires Permutes(order(|l|), |l|)
  {
    seq(|l|, i requires 0 <= i < |l| => l[order(|l|)[i]])
  }

  lemma ArrangeKeeps(order: nat -> seq<nat>, l: seq<State>)
    requires Permutes(order(|l|), |l|)
    ensures Elements(Arrange(order, l)) == Elements(l)
    ensures NoRepeats(l) ==> NoRepeats(Arrange(order, l))
  {
    var p, r := order(|l|), Arrange(order, l);
    forall s | s in Elements(l) ensures s in Elements(r) {
      var k :| 0 <= k < |l| && l[k] == s;
      assert k in p;
      var i :| 0 <= i < |p| && p[i] == k;
      assert r[i] == s;
    }
  }

  /** Different lists stay different. */
  lemma ArrangeApart(order: nat -> seq<nat>, a: seq<State>, b: seq<State>)
    requires Permutes(order(|a|), |a|) && Permutes(order(|b|), |b|)
    ensures Arrange(order, a) == Arrange(order, b) <==> a == b
  {
    if Arrange(order, a) == Arrange(order, b) {
      assert |Arrange(order, a)| == |a| == |b|;
      var p := order(|a|);
      forall k | 0 <= k < |a| ensures a[k] == b[k] {
        assert k in p;
        var i :| 0 <= i < |p| && p[i] == k;
        assert Arrange(order, a)[i] == a[k] && Arrange(order, b)[i] == b[k];
      }
    }
  }
}
