/** An expression whose matcher meets one set of states in two orders. */
module TwoOrders {
  import opened RegexSyntax
  import opened NfaGraph
  import opened Simulation
  import opened StateOrder

  /** `(a?b?)*` */
  const LOOP: Re := Star(Cat(Opt(Lit('a')), Opt(Lit('b'))))

  /** The states of an automaton of that expression: three splits and two letters, in front of `k`. */
  datatype Parts = Parts(s: State, s1: State, m: State, a: State, b: State, k: State)

  ghost predicate IsLoop(g: Graph, x: Parts) {
    && {x.s, x.s1, x.m, x.a, x.b, x.k} <= g.Keys
    && g[x.s].c == SPLIT && g[x.s].out == ToState(x.s1) && g[x.s].out1 == ToState(x.k)
    && g[x.s1].c == SPLIT && g[x.s1].out == ToState(x.a) && g[x.s1].out1 == ToState(x.m)
    && g[x.m].c == SPLIT && g[x.m].out == ToState(x.b) && g[x.m].out1 == ToState(x.s)
    && g[x.a].c == 'a' as int && g[x.a].out == ToState(x.m)
    && g[x.b].c == 'b' as int && g[x.b].out == ToState(x.s)
    && g[x.k].c == MATCH
  }

  lemma LoopParts(g: Graph, s: State, k: State) returns (x: Parts)
    requires Compiled(g, LOOP, s, k) && k in g && g[k].c == MATCH
    ensures IsLoop(g, x) && x.s == s && x.k == k
  {
    var s1 := g[s].out.s;
    assert Compiled(g, LOOP.e, s1, s);
    var m :| m in g && Compiled(g, LOOP.e.l, s1, m) && Compiled(g, LOOP.e.r, m, s);
    assert LOOP.e.l == Opt(Lit('a')) && LOOP.e.r == Opt(Lit('b'));
    var a, b := g[s1].out.s, g[m].out.s;
    assert Compiled(g, Lit('a'), a, m) && Compiled(g, Lit('b'), b, s);
    x := Parts(s, s1, m, a, b, k);
  }

  /** The splits and the letters are different states. */
  lemma PartsDiffer(g: Graph, x: Parts)
    requires IsLoop(g, x)
    ensures x.a != x.b && x.a != x.k && x.b != x.k
    ensures x.s != x.s1 && x.s1 != x.m && x.s != x.m
    ensures {x.s, x.s1, x.m} !! {x.a, x.b, x.k}
  {
  }

  /** At the start the letters are met in the order of the expression. */
  lemma StartsInOrder(g: Graph, x: Parts)
    requires IsLoop(g, x)
    ensures StartOrder(g, x.s) == [x.a, x.b, x.k]
  {
    PartsDiffer(g, x);
    var v2 := Visited({x.s, x.s1}, []);
    var v3 := Visited({x.s, x.s1, x.a}, [x.a]);
    var v4 := Visited({x.s, x.s1, x.a, x.m}, [x.a]);
    var v5 := Visited({x.s, x.s1, x.a, x.m, x.b}, [x.a, x.b]);
    assert {x.s} + {x.s1} == v2.marked && v2.marked + {x.a} == v3.marked && [] + [x.a] == v3.list;
    assert Follow(g, x.a, v2) == v3;
    assert v3.marked + {x.m} == v4.marked && v4.marked + {x.b} == v5.marked;
    assert Follow(g, x.b, v4) == v5 && Follow(g, x.s, v5) == v5;
    assert Follow(g, x.m, v3) == v5;
    assert Follow(g, x.s1, Visited({x.s}, [])) == v5;
    assert Follow(g, x.k, v5).list == [x.a, x.b, x.k];
    assert Nothing.marked + {x.s} == {x.s};
  }

  /** After an `a` the second letter is met first. */
  lemma GoesOnInOrder(g: Graph, x: Parts)
    requires IsLoop(g, x)
    ensures Follow(g, x.m, Nothing).list == [x.b, x.a, x.k]
  {
    PartsDiffer(g, x);
    var v2 := Visited({x.m, x.b}, [x.b]);
    var v3 := Visited({x.m, x.b, x.s}, [x.b]);
    var v4 := Visited({x.m, x.b, x.s, x.s1}, [x.b]);
    var v5 := Visited({x.m, x.b, x.s, x.s1, x.a}, [x.b, x.a]);
    assert Nothing.marked + {x.m} == {x.m} && {x.m} + {x.b} == v2.marked && [] + [x.b] == v2.list;
    assert Follow(g, x.b, Visited({x.m}, [])) == v2;
    assert v2.marked + {x.s} == v3.marked && v3.marked + {x.s1} == v4.marked && v4.marked + {x.a} == v5.marked;
    assert Follow(g, x.a, v4) == v5 && Follow(g, x.m, v5) == v5;
    assert Follow(g, x.s1, v3) == v5;
    assert Follow(g, x.k, v5).list == [x.b, x.a, x.k];
    assert Follow(g, x.s, v2).list == [x.b, x.a, x.k];
  }

  /** A step past a letter that only one state of the list has follows that state's arrow. */
  lemma {:induction false} OnlyOne(g: Graph, l: seq<State>, c: int, i: nat, n: nat)
    requires i < |l| && n <= |l| && l[i] in g && g[l[i]].c == c
    requires forall j :: 0 <= j < |l| && j != i ==> l[j] in g && g[l[j]].c != c
    ensures FollowAll(g, l, c, n) == if n <= i then Nothing else Follow(g, Target(g[l[i]].out), Nothing)
  {
    if n > 0 {
      OnlyOne(g, l, c, i, n - 1);
    }
  }

  /** Whatever the sort made of the first list, a step past `a` leaves its states in another order. */
  lemma StepsInOtherOrder(g: Graph, x: Parts, order: nat -> seq<nat>)
    requires IsLoop(g, x) && Permutes(order(3), 3)
    ensures StepOrder(g, Arrange(order, [x.a, x.b, x.k]), 'a' as int) == [x.b, x.a, x.k]
  {
    PartsDiffer(g, x);
    var l, p := [x.a, x.b, x.k], order(3);
    var r := Arrange(order, l);
    assert 0 in p;
    var i :| 0 <= i < |p| && p[i] == 0;
    forall j | 0 <= j < 3 && j != i ensures r[j] in g && g[r[j]].c != 'a' as int {
      assert p[j] != p[i];
    }
    OnlyOne(g, r, 'a' as int, i, 3);
    GoesOnInOrder(g, x);
  }

  /** So the start and the step give one set of states, but two lists. */
  lemma TwoLists(g: Graph, s: State, k: State, order: nat -> seq<nat>)
    requires Compiled(g, LOOP, s, k) && k in g && g[k].c == MATCH && Permutes(order(3), 3)
    ensures var l := StartOrder(g, s);
            && |l| == 3
            && StepOrder(g, Arrange(order, l), 'a' as int) != l
            && |StepOrder(g, Arrange(order, l), 'a' as int)| == 3
            && Elements(StepOrder(g, Arrange(order, l), 'a' as int)) == Elements(l)
  {
    var x := LoopParts(g, s, k);
    PartsDiffer(g, x);
    StartsInOrder(g, x);
    StepsInOtherOrder(g, x, order);
    assert Elements([x.a, x.b, x.k]) == {x.a, x.b, x.k} == Elements([x.b, x.a, x.k]);
    assert [x.a, x.b, x.k][0] != [x.b, x.a, x.k][0];
  }
}
