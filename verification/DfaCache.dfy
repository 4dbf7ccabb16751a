/** The lazily built DFA with a bounded cache that can be thrown away in the middle of a match. */
module DfaCache {
  import opened RegexSyntax
  import opened NfaGraph
  import opened Fragments
  import opened Simulation
  import opened StateOrder
  import opened Nfa
  import opened CacheTree

  /** Compares lists: first by length, then by members. */
  method ListCmp(l1: seq<State>, l2: seq<State>) returns (r: int)
    ensures r == Cmp(l1, l2)
  {
    if |l1| < |l2| {
      return -1;
    }
    if |l1| > |l2| {
      return 1;
    }
    assert l1[0..] == l1 && l2[0..] == l2;
    for i := 0 to |l1|
      invariant CmpMembers(l1[i..], l2[i..]) == CmpMembers(l1, l2)
    {
      if l1[i].addr < l2[i].addr {
        return -1;
      } else if l1[i].addr > l2[i].addr {
        return 1;
      }
      assert l1[i..][1..] == l1[i + 1..] && l2[i..][1..] == l2[i + 1..];
    }
    return 0;
  }

  /** A list of NFA states that the simulation can be in, none twice, no longer than its buffer. */
  ghost predicate KeyOk(g: Graph, room: nat, l: seq<State>) {
    && NoRepeats(l) && Elements(l) <= g.Keys
    && (HasSplit(g) || |l| <= 1)
    && |l| <= room
  }

  /** A cached edge leads to the list that a step leaves and the sort rearranges: the closed step of its source. */
  ghost predicate IsStep(g: Graph, order: nat -> seq<nat>, l: seq<State>, c: int, l': seq<State>) {
    && Elements(l') == StepSet(g, Elements(l), c)
    && Permutes(order(|StepOrder(g, l, c)|), |StepOrder(g, l, c)|)
    && l' == Arrange(order, StepOrder(g, l, c))
  }

  /** The specification of the cache of graph `g`. */
  ghost function SpecOf(g: Graph, order: nat -> seq<nat>, room: nat): Spec {
    Spec(l => KeyOk(g, room, l), (l, c, l') => IsStep(g, order, l, c, l'))
  }

  lemma KeyMeans(g: Graph, order: nat -> seq<nat>, room: nat, l: seq<State>)
    ensures SpecOf(g, order, room).key(l) <==> KeyOk(g, room, l)
  {
  }

  lemma EdgeMeans(g: Graph, order: nat -> seq<nat>, room: nat, l: seq<State>, c: int, l': seq<State>)
    ensures SpecOf(g, order, room).edge(l, c, l') <==> IsStep(g, order, l, c, l')
  {
  }

  lemma KeysInGraph(g: Graph, order: nat -> seq<nat>, room: nat)
    ensures forall l :: SpecOf(g, order, room).key(l) ==> Elements(l) <= g.Keys
  {
  }

  /** A list the simulation computed is a key however it is rearranged. */
  lemma ArrangedKey(g: Graph, order: nat -> seq<nat>, room: nat, l: seq<State>)
    requires NoRepeats(l) && Elements(l) <= g.Keys && (HasSplit(g) || |l| <= 1) && |l| <= room
    requires Permutes(order(|l|), |l|)
    ensures SpecOf(g, order, room).key(Arrange(order, l)) && Elements(Arrange(order, l)) == Elements(l)
  {
    ArrangeKeeps(order, l);
  }

  lemma NoLabels(sp: Spec, h: Nodes)
    ensures LabelsOk(sp, h, Leaf)
  {
  }

  class Cache {
    const nfa: Nfa
    const l1: List
    const maxstates: nat
    const order: nat -> seq<nat>  // what the sort does to a list of each length
    var alldstates: DState?
    var freelist: DState?
    var nstates: nat
    ghost const g: Graph         // the graph the cache is for
    ghost const sp: Spec         // what the cache keeps true of its lists and edges
    ghost var pool: set<DState>  // every node ever allocated
    ghost var tree: StateTree
    ghost var free: seq<DState>

    ghost function Nodes(): Nodes
      reads `pool, pool
    {
      NodesOf(pool)
    }

    lemma NodesKeys()
      ensures Nodes().Keys == pool
    {
    }

    lemma TreePooled()
      requires Pooled()
      ensures Members(tree) <= pool
    {
    }

    /** The NFA is ready to run on its graph, and `l1` is as long as the program makes it. */
    ghost predicate Ready()
      reads nfa, nfa.all, l1
    {
      && nfa.Valid() && nfa.Graph() == g && Complete(g)
      && l1.s.Length == nfa.nstate >= 1 && sp == SpecOf(g, order, l1.s.Length) && IsOrder(order)
    }

    /** Tree and free list share out the nodes, of which there are never too many. */
    ghost predicate Pooled()
      reads this, pool
    {
      && PoolOk(Nodes(), tree, alldstates, free, freelist)
      && nstates == Size(tree) && Size(tree) + |free| <= maxstates && maxstates >= 1
    }

    ghost predicate Valid()
      reads this, pool, nfa, nfa.all, l1
    {
      Ready() && Pooled() && LabelsOk(sp, Nodes(), tree)
    }

    constructor (nfa: Nfa, order: nat -> seq<nat>, maxstates: nat)
      requires nfa.Valid() && Complete(nfa.Graph()) && nfa.nstate >= 1 && maxstates >= 1 && IsOrder(order)
      ensures Valid() && this.nfa == nfa && g == nfa.Graph() && this.maxstates == maxstates && this.order == order
      ensures fresh(l1) && fresh(l1.s) && fresh(pool) && nstates == 0
    {
      this.nfa, this.maxstates, this.order := nfa, maxstates, order;
      g, sp := nfa.Graph(), SpecOf(nfa.Graph(), order, nfa.nstate);
      l1 := new List(nfa.nstate, nfa.matchstate);
      alldstates, freelist, nstates := null, null, 0;
      pool, tree, free := {}, Leaf, [];
    }

    /** Takes a node off the free list, or allocates one; its links are cleared. */
    method AllocDState() returns (d: DState)
      requires FreeChain(Nodes(), freelist, free) && NoRepeats(free) && Elements(free) <= pool
      modifies this`freelist, this`free, this`pool, Elements(free)
      ensures d.next == NoEdges() && d.left == null && d.right == null
      ensures if old(free) == [] then fresh(d) && free == [] && pool == old(pool) + {d}
              else d == old(free)[0] && free == old(free)[1..] && pool == old(pool)
      ensures d in Nodes() && Nodes() == old(Nodes())[d := Nodes()[d]]
      ensures FreeChain(Nodes(), freelist, free)
    {
      ghost var h := Nodes();
      if freelist != null {
        d := freelist;
        freelist := d.left;
        free := free[1..];
        d.left, d.right := null, null;
        d.next := NoEdges();
      } else {
        d := new DState([]);
        pool := pool + {d};
      }
      FreeChainKept(h, Nodes(), freelist, free);
    }

    /** Puts one node on the free list. */
    method FreeOne(d: DState)
      requires FreeChain(Nodes(), freelist, free) && d in pool && d !in Elements(free)
      modifies this`freelist, this`free, d`left
      ensures free == [d] + old(free) && FreeChain(Nodes(), freelist, free)
      ensures Elements(free) == {d} + Elements(old(free))
    {
      ghost var h := Nodes();
      d.left := freelist;
      FreeChainKept(h, Nodes(), freelist, free);
      freelist := d;
      ElementsJoin([d], free);
      assert Elements([d]) == {d} && ([d] + free)[1..] == free;
      free := [d] + free;
    }

    /** Frees the tree of states rooted at `d`. */
    method FreeStates(d: DState?, ghost t: StateTree)
      requires Shape(Nodes(), t, d) && Proper(t) && Members(t) <= pool
      requires FreeChain(Nodes(), freelist, free) && Members(t) !! Elements(free)
      modifies this`freelist, this`free, Members(t)`left
      ensures free == FreeOrder(t) + old(free) && FreeChain(Nodes(), freelist, free)
      ensures Elements(free) == Members(t) + Elements(old(free))
      decreases t
    {
      hide FreeChain, NoRepeats;
      if d == null {
        return;
      }
      ghost var h, free0 := Nodes(), free;
      FreeStates(d.left, t.l);
      ShapeKept(h, Nodes(), t.r, d.right);
      FreeStates(d.right, t.r);
      FreeOne(d);
      FreeOrderShape(t, free0);
    }

    /** Throws the cache away: every node of the tree goes to the free list. */
    method FreeCache()
      requires Pooled()
      modifies this`alldstates, this`freelist, this`nstates, this`tree, this`free, pool`left
      ensures Pooled() && tree == Leaf && nstates == 0
      ensures old(nstates) > 0 ==> free != []
    {
      hide FreeOrder, FreeChain, Shape, Proper, NoRepeats, NodesOf;
      ghost var h, t, root, free0, freelist0 := Nodes(), tree, alldstates, free, freelist;
      NodesKeys();
      FreeStates(alldstates, tree);
      ghost var h' := Nodes();
      NodesKeys();
      Flushed(h, h', t, root, free0, freelist0, free, freelist);
      alldstates := null;
      nstates := 0;
      tree := Leaf;
    }

    /** Walks down the tree comparing lists.  Ends at the node for `key`, or at the pointer where
        it belongs. */
    method Locate(key: seq<State>, ghost all: set<State>)
      returns (d: DState?, parent: DState?, right: bool, ghost c: Ctx)
      requires Pooled() && Ordered(Nodes(), tree)
      requires AddressesDiffer(all) && Elements(key) <= all && forall e :: e in Members(tree) ==> Elements(e.l) <= all
      ensures d != null ==> d in Members(tree) && d.l == key
      ensures d == null ==>
                && (forall e :: e in Members(tree) ==> e.l != key)
                && tree == Plug(c, Leaf) && Around(c) <= pool && Fits(Nodes(), c, key) && PointsAt(c, parent, right)
    {
      hide FreeChain, NoRepeats;
      ghost var h, t := Nodes(), tree;
      d, parent, right, c := alldstates, null, false, Top;
      while d != null
        invariant Plug(c, t) == tree && Around(c) <= pool && Fits(h, c, key)
        invariant PointsAt(c, parent, right) && Shape(h, t, d)
        decreases t
      {
        PlugMembers(c, t);
        var i := ListCmp(key, d.l);
        if i < 0 {
          c, t := InLeft(c, d, t.r), t.l;
          parent, right, d := d, false, d.left;
        } else if i > 0 {
          c, t := InRight(t.l, d, c), t.r;
          parent, right, d := d, true, d.right;
        } else {
          CmpEqual(all, key, d.l);
          return;
        }
      }
      NotInHole(h, c, key);
    }

    /**
     * The call of the library's qsort.  Its comparison looks at the places of two members in the
     * array and not at the members, so what it does depends on the length alone.
     */
    method SortList(l: List)
      requires l.Valid() && IsOrder(order)
      modifies l.s
      ensures l.Valid() && l.Contents() == Arrange(order, old(l.Contents()))
    {
      var sorted := Arrange(order, l.s[..l.n]);
      for i := 0 to l.n
        invariant l.s[..i] == sorted[..i]
      {
        l.s[i] := sorted[i];
      }
    }

    /** `*dp = d` */
    method Install(d: DState, parent: DState?, right: bool, ghost c: Ctx)
      requires PointsAt(c, parent, right) && Around(c) <= pool && d !in Around(c)
      modifies this`alldstates, Around(c)`left, Around(c)`right
      ensures Refilled(old(Nodes()), Nodes(), c, old(alldstates), alldstates, d)
      ensures OnlyHole(old(Nodes()), Nodes(), c, d)
    {
      if parent == null {
        alldstates := d;
      } else if right {
        parent.right := d;
      } else {
        parent.left := d;
      }
    }

    /** Copies the list into a node. */
    method SetList(d: DState, key: seq<State>)
      requires d in pool && FreeChain(Nodes(), freelist, free)
      modifies d`l
      ensures d in old(Nodes()) && Nodes() == old(Nodes())[d := old(Nodes()[d]).(l := key)]
      ensures FreeChain(Nodes(), freelist, free)
    {
      hide FreeChain;
      ghost var h := Nodes();
      d.l := key;
      FreeChainKept(h, Nodes(), freelist, free);
    }

    /** Takes a node and copies the list into it. */
    method FillDState(key: seq<State>) returns (d: DState)
      requires FreeChain(Nodes(), freelist, free) && NoRepeats(free) && Elements(free) <= pool
      modifies this`freelist, this`free, this`pool, Elements(free)
      ensures if old(free) == [] then fresh(d) && free == [] && pool == old(pool) + {d}
              else d == old(free)[0] && free == old(free)[1..] && pool == old(pool)
      ensures Nodes() == old(Nodes())[d := DNode(key, NoEdges(), null, null)]
      ensures FreeChain(Nodes(), freelist, free)
    {
      hide FreeChain, NoRepeats;
      d := AllocDState();
      SetList(d, key);
    }

    /** Takes a node, fills it and hangs it where the walk ended. */
    method Hang(key: seq<State>, parent: DState?, right: bool, ghost c: Ctx) returns (d: DState, ghost h1: Nodes)
      requires FreeChain(Nodes(), freelist, free) && NoRepeats(free) && Elements(free) <= pool
      requires Around(c) <= pool && Around(c) !! Elements(free) && PointsAt(c, parent, right)
      modifies this`alldstates, this`freelist, this`nstates, this`free, this`pool, pool
      ensures if old(free) == [] then fresh(d) && free == [] && pool == old(pool) + {d}
              else d == old(free)[0] && free == old(free)[1..] && pool == old(pool)
      ensures h1 == old(Nodes())[d := DNode(key, NoEdges(), null, null)] && FreeChain(h1, freelist, free)
      ensures OnlyHole(h1, Nodes(), c, d) && Refilled(h1, Nodes(), c, old(alldstates), alldstates, d)
      ensures nstates == old(nstates) + 1
    {
      hide Refilled, OnlyHole, FreeChain, NoRepeats, NodesOf, PointsAt;
      d := FillDState(key);
      h1 := Nodes();
      assert d !in Around(c);
      Install(d, parent, right, c);
      nstates := nstates + 1;
    }

    /** Enters a node that has been hung into the hole of `c` in the books. */
    ghost method Adopt(sp: Spec, h: Nodes, h1: Nodes, c: Ctx, root: DState?, free0: seq<DState>, freelist0: DState?,
                       d: DState, key: seq<State>)
      requires PoolOk(h, Plug(c, Leaf), root, free0, freelist0) && LabelsOk(sp, h, Plug(c, Leaf))
      requires Around(c) <= h.Keys && Fits(h, c, key) && sp.key(key)
      requires if free0 == [] then d !in h && free == [] else d == free0[0] && free == free0[1..]
      requires h1 == h[d := DNode(key, NoEdges(), null, null)] && FreeChain(h1, freelist, free)
      requires OnlyHole(h1, Nodes(), c, d) && Refilled(h1, Nodes(), c, root, alldstates, d)
      requires nstates == Size(Plug(c, Leaf)) + 1 && nstates + |free| <= maxstates
      modifies this`tree
      ensures Pooled() && LabelsOk(sp, Nodes(), tree)
      ensures Members(tree) == Members(Plug(c, Leaf)) + {d} && d in Nodes() && d.l == key && d.next == NoEdges()
      ensures forall x :: x in Members(Plug(c, Leaf)) ==> x != d && x.l == h[x].l && x.next == h[x].next
    {
      var h2 := Nodes();
      PlugMembers(c, Leaf);
      PlugSize(c, d);
      NodeAdded(sp, h, h1, h2, c, root, alldstates, free0, freelist0, free, freelist, d, key);
      tree := Plug(c, Branch(Leaf, d, Leaf));
      assert Nodes() == h2;
    }

    /** Adds a node for `key` to the tree. */
    method AddNode(key: seq<State>, parent: DState?, right: bool, ghost c: Ctx, ghost sp: Spec) returns (d: DState)
      requires Pooled() && LabelsOk(sp, Nodes(), tree) && nstates < maxstates && sp.key(key)
      requires tree == Plug(c, Leaf) && Around(c) <= pool && Fits(Nodes(), c, key) && PointsAt(c, parent, right)
      modifies this`alldstates, this`freelist, this`nstates, this`tree, this`free, this`pool, pool
      ensures Pooled() && LabelsOk(sp, Nodes(), tree) && (forall x :: x in pool ==> x in old(pool) || fresh(x))
      ensures Members(tree) == Members(old(tree)) + {d} && d.l == key
      ensures nstates == old(nstates) + 1 && d.next == NoEdges()
      ensures forall x :: x in Members(old(tree)) ==> x != d && x.l == old(x.l) && x.next == old(x.next)
    {
      hide Refilled, OnlyHole, FreeChain, PointsAt, Fits, Shape, Proper, LabelsOk;
      ghost var h, root, free0, freelist0 := Nodes(), alldstates, free, freelist;
      PlugMembers(c, Leaf);
      ghost var h1;
      d, h1 := Hang(key, parent, right, c);
      Adopt(sp, h, h1, c, root, free0, freelist0, d, key);
    }

    /** `*nextp = d`, where `nextp` is the edge of `from` for character `ch`. */
    method SetEdge(from: DState, ch: nat, d: DState)
      requires from in pool && ch < |from.next|
      modifies from`next
      ensures from in old(Nodes()) && from.next == old(from.next)[ch := d]
      ensures Nodes() == old(Nodes())[from := old(Nodes()[from]).(next := from.next)]
    {
      from.next := from.next[ch := d];
    }

    /** The same with the invariant. */
    method RecordEdge(from: DState, ch: nat, d: DState, ghost sp: Spec)
      requires Pooled() && LabelsOk(sp, Nodes(), tree) && from in Members(tree) && d in Members(tree)
      requires ch < CHARS && sp.edge(from.l, ch, d.l)
      modifies from`next
      ensures Pooled() && LabelsOk(sp, Nodes(), tree) && from.next == old(from.next)[ch := d]
    {
      hide FreeChain, NoRepeats, Shape, Proper, Ordered, EdgeOk;
      ghost var h := Nodes();
      assert NodeOk(sp, h, Members(tree), from);
      SetEdge(from, ch, d);
      PoolLink(h, Nodes(), tree, alldstates, free, freelist);
      TreeLink(sp, h, Nodes(), tree, alldstates, from, ch, d);
    }

    /** With the cache full: it is thrown away first, and no edge is recorded. */
    method CreateFull(key: seq<State>, ghost sp: Spec) returns (d: DState)
      requires Pooled() && LabelsOk(sp, Nodes(), tree) && sp.key(key)
      modifies this`alldstates, this`freelist, this`nstates, this`tree, this`free, this`pool, pool
      ensures Pooled() && LabelsOk(sp, Nodes(), tree) && (forall x :: x in pool ==> x in old(pool) || fresh(x))
      ensures nstates == 1 && Members(tree) == {d} && d.l == key && d.next == NoEdges()
    {
      hide LabelsOk, PoolOk;
      FreeCache();
      NoLabels(sp, Nodes());
      d := AddNode(key, null, false, Top, sp);
    }

    /** With room left: the new node joins the others, and the edge to it is recorded. */
    method CreateBelow(key: seq<State>, p: DState?, r: bool, ghost c: Ctx, from: DState?, ch: nat, ghost sp: Spec)
      returns (d: DState)
      requires Pooled() && LabelsOk(sp, Nodes(), tree) && sp.key(key) && nstates < maxstates
      requires tree == Plug(c, Leaf) && Around(c) <= pool && Fits(Nodes(), c, key) && PointsAt(c, p, r)
      requires from != null ==> from in Members(tree) && |from.next| == CHARS && ch < CHARS && sp.edge(from.l, ch, key)
      modifies this`alldstates, this`freelist, this`nstates, this`tree, this`free, this`pool, pool
      ensures Pooled() && LabelsOk(sp, Nodes(), tree) && (forall x :: x in pool ==> x in old(pool) || fresh(x))
      ensures nstates == old(nstates) + 1 && Members(tree) == Members(old(tree)) + {d} && d.l == key
      ensures forall x :: x in Members(old(tree)) ==> x != d && x.l == old(x.l)
      ensures forall x :: x in Members(old(tree)) && x != from ==> x.next == old(x.next)
      ensures from != null ==> from.next == old(from.next)[ch := d]
    {
      hide LabelsOk, PoolOk, Pooled, Fits, Plug;
      TreePooled();
      d := AddNode(key, p, r, c, sp);
      if from != null {
        RecordEdge(from, ch, d, sp);
      }
    }

    /** Creates the node for a list that is not in the tree, whose place the walk has found. */
    method Create(key: seq<State>, p: DState?, r: bool, ghost c: Ctx, from: DState?, ch: nat, ghost sp: Spec)
      returns (d: DState)
      requires Pooled() && LabelsOk(sp, Nodes(), tree) && sp.key(key)
      requires tree == Plug(c, Leaf) && Around(c) <= pool && Fits(Nodes(), c, key) && PointsAt(c, p, r)
      requires from != null ==> from in Members(tree) && |from.next| == CHARS && ch < CHARS && sp.edge(from.l, ch, key)
      modifies this`alldstates, this`freelist, this`nstates, this`tree, this`free, this`pool, pool
      ensures Pooled() && LabelsOk(sp, Nodes(), tree) && (forall x :: x in pool ==> x in old(pool) || fresh(x))
      ensures d in Members(tree) && d.l == key
      ensures old(nstates) < maxstates ==>
        && nstates == old(nstates) + 1 && Members(tree) == Members(old(tree)) + {d}
        && (forall x :: x in Members(old(tree)) ==> x != d && x.l == old(x.l))
        && (forall x :: x in Members(old(tree)) && x != from ==> x.next == old(x.next))
        && (from != null ==> from.next == old(from.next)[ch := d])
      ensures old(nstates) >= maxstates ==> nstates == 1 && Members(tree) == {d} && d.next == NoEdges()
    {
      hide LabelsOk, PoolOk, Pooled, Fits, Plug;
      if nstates >= maxstates {
        d := CreateFull(key, sp);
      } else {
        d := CreateBelow(key, p, r, c, from, ch, sp);
      }
    }

    /** The node holds the list `l` as the sort leaves it. */
    ghost predicate Arranged(d: DState, l: seq<State>)
      reads this, d
    {
      Permutes(order(|l|), |l|) && d.l == Arrange(order, l)
    }

    /** What the sort makes of a list. */
    ghost function Key(l: seq<State>): seq<State> {
      if Permutes(order(|l|), |l|) then Arrange(order, l) else l
    }

    /** The tree has a node for the list. */
    ghost predicate HasNode(key: seq<State>)
      reads this, pool
    {
      exists x :: x in pool && x in Members(tree) && x.l == key
    }

    /** The nodes still needed to hold the list. */
    ghost function Missing(key: seq<State>): nat
      reads this, pool
    {
      if HasNode(key) then 0 else 1
    }

    /** If there is a node for the list, or room for one, the nodes that were there stay, with their lists. */
    twostate predicate Stays(key: seq<State>)
      reads this, pool
    {
      old(nstates + Missing(key)) <= maxstates ==>
        && nstates == old(nstates + Missing(key))
        && Members(old(tree)) <= Members(tree) <= pool && Members(old(tree)) <= old(pool)
        && forall x :: x in Members(old(tree)) ==> x.l == old(x.l)
    }

    /** What the walk needs to know of the nodes in the tree. */
    lemma Labels(sp: Spec, all: set<State>)
      requires Pooled() && LabelsOk(sp, Nodes(), tree) && forall l :: sp.key(l) ==> Elements(l) <= all
      ensures Ordered(Nodes(), tree)
      ensures forall e :: e in Members(tree) ==> Elements(e.l) <= all && |e.next| == CHARS
    {
      assert forall e :: e in Members(tree) ==> NodeOk(sp, Nodes(), Members(tree), e);
    }

    lemma NoNode(key: seq<State>)
      requires Pooled() && forall x :: x in Members(tree) ==> x.l != key
      ensures Missing(key) == 1
    {
    }

    lemma NodeThere(key: seq<State>, d: DState)
      requires Pooled() && d in Members(tree) && d.l == key
      ensures Missing(key) == 0
    {
    }

    /** The cached node for the list in `l1`; a missing node is created. */
    method DStateOf(from: DState?, ch: nat, ghost sp: Spec, ghost all: set<State>) returns (d: DState)
      requires Pooled() && LabelsOk(sp, Nodes(), tree) && l1.Valid()
      requires AddressesDiffer(all) && forall l :: sp.key(l) ==> Elements(l) <= all
      requires sp.key(l1.Contents())
      requires from != null ==> from in Members(tree) && ch < CHARS && sp.edge(from.l, ch, l1.Contents())
      modifies this`alldstates, this`freelist, this`nstates, this`tree, this`free, this`pool, pool
      ensures Pooled() && LabelsOk(sp, Nodes(), tree) && (forall x :: x in pool ==> x in old(pool) || fresh(x))
      ensures d in Members(tree) && d.l == l1.Contents() && Stays(old(l1.Contents()))
    {
      hide LabelsOk, PoolOk, HasNode, Missing;
      var key := l1.s[..l1.n];
      TreePooled();
      Labels(sp, all);
      var found, parent, right;
      ghost var c;
      found, parent, right, c := Locate(key, all);
      if found != null {
        NodeThere(key, found);
        return found;
      }
      NoNode(key);
      d := Create(key, parent, right, c, from, ch, sp);
      TreePooled();
    }

    /** The node for the list that the simulation left in `l1`, rearranged. */
    method DStateFor(from: DState?, ch: nat, ghost cur: set<State>) returns (d: DState)
      requires Valid() && nfa.Holds(l1, cur) && cur <= g.Keys && (HasSplit(g) || l1.n <= 1)
      requires from != null ==> from in Members(tree) && ch < CHARS && cur == StepSet(g, Elements(from.l), ch)
      requires from != null ==> l1.Contents() == StepOrder(g, from.l, ch)
      modifies this`alldstates, this`freelist, this`nstates, this`tree, this`free, this`pool, pool, l1.s
      ensures Valid() && (forall x :: x in pool ==> x in old(pool) || fresh(x))
      ensures d in Members(tree) && Elements(d.l) == cur && Stays(old(Key(l1.Contents())))
      ensures Arranged(d, old(l1.Contents()))
    {
      hide LabelsOk, Pooled, StepSet, KeyOk, SpecOf, PoolOk, Elements, HasSplit, StepOrder, Arrange, Permutes;
      hide NodesOf, Complete, HasNode, Missing;
      ghost var h, l := Nodes(), l1.Contents();
      SortList(l1);
      assert Nodes() == h;
      KeysInGraph(g, order, l1.s.Length);
      ArrangedKey(g, order, l1.s.Length, l);
      if from != null {
        EdgeMeans(g, order, l1.s.Length, from.l, ch, l1.Contents());
      }
      d := DStateOf(from, ch, sp, g.Keys);
    }

    method StartDState(start: State) returns (d: DState)
      requires Valid() && start in nfa.all
      modifies this`alldstates, this`freelist, this`nstates, this`tree, this`free, this`pool, pool
      modifies l1`n, l1.s, nfa`listid, nfa.all`lastlist
      ensures Valid() && (forall x :: x in pool ==> x in old(pool) || fresh(x))
      ensures d in Members(tree) && Elements(d.l) == Sim(g, start, []) && Stays(Key(StartOrder(g, start)))
      ensures Arranged(d, StartOrder(g, start))
    {
      hide LabelsOk, Pooled, PoolOk, SpecOf, KeyOk, Elements, HasSplit, StepOrder, StartOrder, Arrange, Permutes;
      hide NodesOf, Key, HasNode, Missing;
      ghost var h := Nodes();
      nfa.StartList(start, l1);
      assert Nodes() == h;
      NoSplitList(g, start, [], l1.Contents());
      SimInGraph(g, start, []);
      d := DStateFor(null, 0, Sim(g, start, []));
    }

    /** What the invariant says of one node. */
    lemma NodeMeans(d: DState)
      requires Valid() && d in Members(tree)
      ensures KeyOk(g, l1.s.Length, d.l) && |d.next| == CHARS
      ensures forall c :: 0 <= c < CHARS && d.next[c] != null ==>
                d.next[c] in Members(tree) && Elements(d.next[c].l) == StepSet(g, Elements(d.l), c)
                && Arranged(d.next[c], StepOrder(g, d.l, c))
    {
      assert NodeOk(sp, Nodes(), Members(tree), d);
      KeyMeans(g, order, l1.s.Length, d.l);
      forall c | 0 <= c < CHARS && d.next[c] != null
        ensures d.next[c] in Members(tree) && Elements(d.next[c].l) == StepSet(g, Elements(d.l), c)
        ensures Arranged(d.next[c], StepOrder(g, d.l, c))
      {
        assert EdgeOk(sp, Nodes(), Members(tree), d, c);
        EdgeMeans(g, order, l1.s.Length, d.l, c, d.next[c].l);
      }
    }

    /** No two cached nodes hold the same list; nor the same set, if their lists are in address order. */
    lemma OneNodePerList(d: DState, e: DState)
      requires Valid() && d in Members(tree) && e in Members(tree)
      ensures d.l == e.l ==> d == e
      ensures Sorted(d.l) && Sorted(e.l) && Elements(d.l) == Elements(e.l) ==> d == e
    {
      if d.l == e.l {
        KeyOnce(Nodes(), tree, d, e);
      }
      if Sorted(d.l) && Sorted(e.l) && Elements(d.l) == Elements(e.l) {
        OneNodePerSet(sp, Nodes(), tree, alldstates, d, e);
      }
    }

    /**
     * Two nodes for lists the simulation left, both still in the tree, are the same node if and only
     * if the lists were equal: a set of states met in two orders has two nodes.
     */
    lemma SameNodeExactly(d: DState, e: DState, a: seq<State>, b: seq<State>)
      requires Valid() && d in Members(tree) && e in Members(tree) && Arranged(d, a) && Arranged(e, b)
      ensures d == e <==> a == b
      ensures Elements(d.l) == Elements(e.l) <==> Elements(a) == Elements(b)
    {
      ArrangeApart(order, a, b);
      ArrangeKeeps(order, a);
      ArrangeKeeps(order, b);
      OneNodePerList(d, e);
    }

    /** The nodes ever allocated, in use or free, never exceed the limit. */
    lemma AllocationBound()
      requires Valid()
      ensures |pool| <= maxstates
    {
      PoolCount(Nodes(), tree, alldstates, free, freelist);
      assert Nodes().Keys == pool;
    }

    /** Steps past `c` into `l1`. */
    method StepInto(d: DState, c: nat, ghost cur: set<State>)
      requires Valid() && d in Members(tree) && Elements(d.l) == cur && 0 < c < CHARS
      modifies l1`n, l1.s, nfa`listid, nfa.all`lastlist
      ensures Valid() && nfa.Holds(l1, StepSet(g, cur, c)) && l1.Contents() == StepOrder(g, d.l, c)
      ensures HasSplit(g) || l1.n <= 1
    {
      hide LabelsOk, Pooled, PoolOk, SpecOf, StepSet, Elements, HasSplit, StepOrder, Arrange, Permutes, NodesOf;
      ghost var l := d.l;
      NodeMeans(d);
      nfa.Step(d.l, c, l1);
      if |l| <= 1 {
        NoSplitStep(g, l, c, l1.Contents());
      }
    }

    method NextState(d: DState, c: nat, ghost cur: set<State>) returns (next: DState)
      requires Valid() && d in Members(tree) && Elements(d.l) == cur && 0 < c < CHARS
      modifies this`alldstates, this`freelist, this`nstates, this`tree, this`free, this`pool, pool
      modifies l1`n, l1.s, nfa`listid, nfa.all`lastlist
      ensures Valid() && (forall x :: x in pool ==> x in old(pool) || fresh(x))
      ensures next in Members(tree) && Elements(next.l) == StepSet(g, cur, c) && Stays(old(Key(StepOrder(g, d.l, c))))
      ensures Arranged(next, StepOrder(g, old(d.l), c))
    {
      hide Valid, StepSet, Elements, HasSplit, StepOrder, Arrange, Permutes, Key, HasNode, Missing;
      StepInto(d, c, cur);
      StepInGraph(g, cur, c);
      OrderPermutes(l1.Contents());
      next := DStateFor(d, c, StepSet(g, cur, c));
    }

    /**
     * Two steps that between them throw nothing away, because each finds its node or has room for it:
     * they end in the same node if and only if they leave the same list, order included.
     */
    method StepTwice(d: DState, b: nat, e: DState, c: nat) returns (x: DState, y: DState)
      requires Valid() && d in Members(tree) && e in Members(tree) && 0 < b < CHARS && 0 < c < CHARS
      requires var k, l := Key(StepOrder(g, d.l, b)), Key(StepOrder(g, e.l, c));
               nstates + Missing(k) + (if k == l then 0 else Missing(l)) <= maxstates
      modifies this`alldstates, this`freelist, this`nstates, this`tree, this`free, this`pool, pool
      modifies l1`n, l1.s, nfa`listid, nfa.all`lastlist
      ensures Valid() && x in Members(tree) && y in Members(tree)
      ensures x == y <==> StepOrder(g, old(d.l), b) == StepOrder(g, old(e.l), c)
    {
      hide Valid, StepSet, Elements, StepOrder;
      ghost var k, l := d.l, e.l;
      x := NextState(d, b, Elements(k));
      ghost var xl := x.l;
      assert e in Members(tree) && e.l == l;
      y := NextState(e, c, Elements(l));
      assert x in Members(tree) && x.l == xl;
      SameNodeExactly(x, y, StepOrder(g, k, b), StepOrder(g, l, c));
    }

    /** The start and one step, with room for both. */
    method StartAndStep(start: State, c: nat) returns (d: DState, e: DState)
      requires Valid() && start in nfa.all && 0 < c < CHARS && nstates + 1 < maxstates
      modifies this`alldstates, this`freelist, this`nstates, this`tree, this`free, this`pool, pool
      modifies l1`n, l1.s, nfa`listid, nfa.all`lastlist
      ensures Valid() && d in Members(tree) && e in Members(tree)
      ensures Arranged(d, StartOrder(g, start)) && Arranged(e, StepOrder(g, d.l, c))
    {
      hide Valid, StepSet, Elements, StepOrder, StartOrder, Key, HasNode;
      d := StartDState(start);
      ghost var l := d.l;
      e := NextState(d, c, Elements(l));
      assert d.l == l;
    }

    lemma OrderPermutes(l: seq<State>)
      requires Valid()
      ensures Permutes(order(|l|), |l|)
    {
    }

    /** The node after `d`: along the cached edge if there is one. */
    method FollowEdge(d: DState, c: nat, ghost cur: set<State>) returns (next: DState)
      requires Valid() && d in Members(tree) && Elements(d.l) == cur && 0 < c < CHARS
      modifies this`alldstates, this`freelist, this`nstates, this`tree, this`free, this`pool, pool
      modifies l1`n, l1.s, nfa`listid, nfa.all`lastlist
      ensures Valid() && (forall x :: x in pool ==> x in old(pool) || fresh(x))
      ensures next in Members(tree) && Elements(next.l) == StepSet(g, cur, c)
    {
      hide Valid, StepSet, Elements, StepOrder, Arranged, Stays, KeyOk;
      NodeMeans(d);
      if d.next[c] != null {
        return d.next[c];
      }
      next := NextState(d, c, cur);
    }

    /** Follows cached edges, computing the missing ones.  The node it stands at may be recycled
        under its feet whenever the cache is flushed. */
    method Match(start: DState, w: CString, ghost s: State) returns (r: bool)
      requires Valid() && start in Members(tree) && s in nfa.all && Elements(start.l) == Sim(g, s, [])
      modifies this`alldstates, this`freelist, this`nstates, this`tree, this`free, this`pool, pool
      modifies l1`n, l1.s, nfa`listid, nfa.all`lastlist
      ensures Valid() && (forall x :: x in pool ==> x in old(pool) || fresh(x))
      ensures r <==> Accepts(g, s, w)
    {
      hide LabelsOk, Pooled, StepSet, StepOrder, Arranged, Stays, KeyOk, SpecOf;
      var d := start;
      for i := 0 to |w|
        invariant Valid() && (forall x :: x in pool ==> x in old(pool) || fresh(x))
        invariant d in Members(tree) && Elements(d.l) == Sim(g, s, w[..i])
      {
        SimNext(g, s, w, i);
        d := FollowEdge(d, w[i] as int, Sim(g, s, w[..i]));
      }
      assert w[..|w|] == w;
      r := nfa.IsMatch(d.l);
      SimDecides(g, s, nfa.matchstate, w);
    }

    /** One query of the program. */
    method Query(start: State, w: CString) returns (r: bool)
      requires Valid() && start in nfa.all
      modifies this`alldstates, this`freelist, this`nstates, this`tree, this`free, this`pool, pool
      modifies l1`n, l1.s, nfa`listid, nfa.all`lastlist
      ensures Valid() && (forall x :: x in pool ==> x in old(pool) || fresh(x))
      ensures r <==> Accepts(g, start, w)
    {
      var d := StartDState(start);
      r := Match(d, w, start);
    }

    /** One query after another, on the same cache. */
    method QueryAll(start: State, args: seq<CString>) returns (out: seq<bool>)
      requires Valid() && start in nfa.all
      modifies this`alldstates, this`freelist, this`nstates, this`tree, this`free, this`pool, pool
      modifies l1`n, l1.s, nfa`listid, nfa.all`lastlist
      ensures Valid() && (forall x :: x in pool ==> x in old(pool) || fresh(x))
      ensures Decided(g, start, args, out)
    {
      out := [];
      for i := 0 to |args|
        invariant Valid() && (forall x :: x in pool ==> x in old(pool) || fresh(x))
        invariant Decided(g, start, args[..i], out)
      {
        var b := Query(start, args[i]);
        DecidedSnoc(g, start, args, i, out, b);
        out := out + [b];
      }
      assert args[..|args|] == args;
    }
  }
}
