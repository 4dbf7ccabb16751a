/** The cache of DFA states: a search tree and a free list threaded through the same nodes. */
module CacheTree {
  import opened NfaGraph
  import opened Simulation

  /** A cached list of NFA states.  `next` is indexed by character. */
  class DState {
    var l: seq<State>
    var next: seq<DState?>
    var left: DState?
    var right: DState?

    constructor (l: seq<State>)
      ensures this.l == l && next == NoEdges() && left == null && right == null
    {
      this.l, next, left, right := l, NoEdges(), null, null;
    }
  }

  const CHARS := 256

  function NoEdges(): (next: seq<DState?>)
    ensures |next| == CHARS && forall c :: 0 <= c < CHARS ==> next[c] == null
  {
    seq(CHARS, _ => null)
  }

  datatype DNode = DNode(l: seq<State>, next: seq<DState?>, left: DState?, right: DState?)

  /** The unchanging view of the nodes. */
  type Nodes = map<DState, DNode>

  ghost function NodesOf(pool: set<DState>): Nodes
    reads pool
  {
    map d | d in pool :: DNode(d.l, d.next, d.left, d.right)
  }

  // ---------------------------------------------------------------- The order of lists

  /** Compares members by address, from the left. */
  function CmpMembers(a: seq<State>, b: seq<State>): int
    requires |a| == |b|
  {
    if a == [] then 0
    else if a[0].addr < b[0].addr then -1
    else if a[0].addr > b[0].addr then 1
    else CmpMembers(a[1..], b[1..])
  }

  /** Compares first by length, then by members. */
  function Cmp(a: seq<State>, b: seq<State>): int {
    if |a| < |b| then -1 else if |a| > |b| then 1 else CmpMembers(a, b)
  }

  lemma {:induction false} CmpMembersFlip(a: seq<State>, b: seq<State>)
    requires |a| == |b|
    ensures CmpMembers(a, b) == -CmpMembers(b, a)
    decreases a
  {
    if a != [] {
      CmpMembersFlip(a[1..], b[1..]);
    }
  }

  lemma CmpFlip(a: seq<State>, b: seq<State>)
    ensures Cmp(a, b) == -Cmp(b, a)
  {
    if |a| == |b| {
      CmpMembersFlip(a, b);
    }
  }

  ghost predicate AddressesDiffer(all: set<State>) {
    forall s, t :: s in all && t in all && s.addr == t.addr ==> s == t
  }

  lemma {:induction false} CmpMembersEqual(all: set<State>, a: seq<State>, b: seq<State>)
    requires |a| == |b| && AddressesDiffer(all) && Elements(a) <= all && Elements(b) <= all
    ensures CmpMembers(a, b) == 0 <==> a == b
    decreases a
  {
    if a != [] {
      assert a[0] in Elements(a) && b[0] in Elements(b);
      assert Elements(a[1..]) <= Elements(a) && Elements(b[1..]) <= Elements(b);
      assert a == [a[0]] + a[1..] && b == [b[0]] + b[1..];
      CmpMembersEqual(all, a[1..], b[1..]);
    }
  }

  /** Lists compare equal only if they are equal. */
  lemma CmpEqual(all: set<State>, a: seq<State>, b: seq<State>)
    requires AddressesDiffer(all) && Elements(a) <= all && Elements(b) <= all
    ensures Cmp(a, b) == 0 <==> a == b
  {
    if |a| == |b| {
      CmpMembersEqual(all, a, b);
    }
  }

  // ---------------------------------------------------------------- Sorted lists

  predicate Sorted(l: seq<State>) {
    forall i, j :: 0 <= i < j < |l| ==> l[i].addr < l[j].addr
  }

  lemma NoElements(l: seq<State>)
    ensures Elements(l) == {} ==> l == []
  {
    if l != [] {
      assert l[0] in Elements(l);
    }
  }

  /** A sorted list is determined by its members. */
  lemma {:induction false} SortedUnique(a: seq<State>, b: seq<State>)
    requires Sorted(a) && Sorted(b) && Elements(a) == Elements(b)
    ensures a == b
  {
    if a == [] {
      NoElements(b);
    } else {
      assert a[0] in Elements(b);
      assert b[0] in Elements(a);
      assert a[0] == b[0];
      assert Elements(a[1..]) == Elements(a) - {a[0]};
      assert Elements(b[1..]) == Elements(b) - {b[0]};
      SortedUnique(a[1..], b[1..]);
      assert a == [a[0]] + a[1..] && b == [b[0]] + b[1..];
    }
  }

  // ---------------------------------------------------------------- Trees

  /** The shape of the tree, kept for the proof. */
  datatype StateTree = Leaf | Branch(l: StateTree, d: DState, r: StateTree)

  ghost function Members(t: StateTree): set<DState> {
    match t
    case Leaf => {}
    case Branch(l, d, r) => Members(l) + {d} + Members(r)
  }

  function Size(t: StateTree): nat {
    match t
    case Leaf => 0
    case Branch(l, _, r) => Size(l) + 1 + Size(r)
  }

  /** The node at `p` is the root of `t`. */
  ghost predicate Shape(h: Nodes, t: StateTree, p: DState?) {
    match t
    case Leaf => p == null
    case Branch(l, d, r) => p == d && d in h && Shape(h, l, h[d].left) && Shape(h, r, h[d].right)
  }

  /** No node occurs twice. */
  ghost predicate Proper(t: StateTree) {
    match t
    case Leaf => true
    case Branch(l, d, r) =>
      && Proper(l) && Proper(r)
      && d !in Members(l) && d !in Members(r) && Members(l) !! Members(r)
  }

  /** Smaller lists are on the left, larger ones on the right. */
  ghost predicate Ordered(h: Nodes, t: StateTree)
    requires Members(t) <= h.Keys
  {
    match t
    case Leaf => true
    case Branch(l, d, r) =>
      && Ordered(h, l) && Ordered(h, r)
      && (forall x :: x in Members(l) ==> Cmp(h[x].l, h[d].l) < 0)
      && (forall x :: x in Members(r) ==> Cmp(h[x].l, h[d].l) > 0)
  }

  lemma {:induction false} ShapeKept(h: Nodes, h': Nodes, t: StateTree, p: DState?)
    requires Shape(h, t, p)
    requires forall d :: d in Members(t) && d in h ==> d in h' && h'[d].left == h[d].left && h'[d].right == h[d].right
    ensures Shape(h', t, p)
  {
    match t
    case Leaf =>
    case Branch(l, d, r) =>
      ShapeKept(h, h', l, h[d].left);
      ShapeKept(h, h', r, h[d].right);
  }

  lemma {:induction false} OrderedKept(h: Nodes, h': Nodes, t: StateTree)
    requires Members(t) <= h.Keys && Members(t) <= h'.Keys && Ordered(h, t)
    requires forall d :: d in Members(t) ==> h'[d].l == h[d].l
    ensures Ordered(h', t)
  {
    match t
    case Leaf =>
    case Branch(l, d, r) =>
      OrderedKept(h, h', l);
      OrderedKept(h, h', r);
  }

  // ---------------------------------------------------------------- Walking down

  /** A tree with a hole: where the walk stands. */
  datatype Ctx = Top | InLeft(up: Ctx, d: DState, r: StateTree) | InRight(l: StateTree, d: DState, up: Ctx)

  ghost function Plug(c: Ctx, t: StateTree): StateTree {
    match c
    case Top => t
    case InLeft(up, d, r) => Plug(up, Branch(t, d, r))
    case InRight(l, d, up) => Plug(up, Branch(l, d, t))
  }

  ghost function Around(c: Ctx): set<DState> {
    match c
    case Top => {}
    case InLeft(up, d, r) => Around(up) + {d} + Members(r)
    case InRight(l, d, up) => Around(up) + {d} + Members(l)
  }

  /** The pointer in the hole. */
  ghost function Hole(h: Nodes, c: Ctx, root: DState?): DState?
    requires c.Top? || c.d in h
  {
    match c
    case Top => root
    case InLeft(_, d, _) => h[d].left
    case InRight(_, d, _) => h[d].right
  }

  lemma {:induction false} PlugMembers(c: Ctx, t: StateTree)
    ensures Members(Plug(c, t)) == Around(c) + Members(t)
    decreases c
  {
    match c
    case Top =>
    case InLeft(up, d, r) => PlugMembers(up, Branch(t, d, r));
    case InRight(l, d, up) => PlugMembers(up, Branch(l, d, t));
  }

  lemma {:induction false} PlugProper(c: Ctx, t: StateTree)
    requires Proper(Plug(c, t))
    ensures Proper(t) && Around(c) !! Members(t)
    decreases c
  {
    match c
    case Top =>
    case InLeft(up, d, r) => PlugProper(up, Branch(t, d, r));
    case InRight(l, d, up) => PlugProper(up, Branch(l, d, t));
  }

  /** Filling the hole with other nodes. */
  lemma {:induction false} RefillProper(c: Ctx, t: StateTree, t': StateTree)
    requires Proper(Plug(c, t)) && Proper(t') && Around(c) !! Members(t')
    ensures Proper(Plug(c, t'))
    decreases c
  {
    PlugProper(c, t);
    match c
    case Top =>
    case InLeft(up, d, r) =>
      PlugProper(up, Branch(t, d, r));
      RefillProper(up, Branch(t, d, r), Branch(t', d, r));
    case InRight(l, d, up) =>
      PlugProper(up, Branch(l, d, t));
      RefillProper(up, Branch(l, d, t), Branch(l, d, t'));
  }

  lemma {:induction false} HoleShape(h: Nodes, c: Ctx, t: StateTree, root: DState?)
    requires Shape(h, Plug(c, t), root)
    ensures (c.Top? || c.d in h) && Shape(h, t, Hole(h, c, root))
    decreases c
  {
    match c
    case Top =>
    case InLeft(up, d, r) => HoleShape(h, up, Branch(t, d, r), root);
    case InRight(l, d, up) => HoleShape(h, up, Branch(l, d, t), root);
  }

  /** Writing `p` into the hole. */
  ghost predicate Refilled(h: Nodes, h': Nodes, c: Ctx, root: DState?, root': DState?, p: DState?) {
    && (c.Top? || c.d in h)
    && (forall d :: d in Around(c) && d in h ==>
          (&& d in h' && h'[d].l == h[d].l
           && (!(c.InLeft? && c.d == d) ==> h'[d].left == h[d].left)
           && (!(c.InRight? && c.d == d) ==> h'[d].right == h[d].right)))
    && (if c.Top? then root' == p else root' == root && c.d in h' && Hole(h', c, root') == p)
  }

  lemma {:induction false} RefillShape(h: Nodes, h': Nodes, c: Ctx, t: StateTree, t': StateTree,
                                       root: DState?, root': DState?, p: DState?)
    requires Shape(h, Plug(c, t), root) && Proper(Plug(c, t))
    requires Refilled(h, h', c, root, root', p) && Shape(h', t', p)
    ensures Shape(h', Plug(c, t'), root')
    decreases c
  {
    HoleShape(h, c, t, root);
    match c
    case Top =>
    case InLeft(up, d, r) =>
      HoleShape(h, up, Branch(t, d, r), root);
      PlugProper(up, Branch(t, d, r));
      ShapeKept(h, h', r, h[d].right);
      RefillShape(h, h', up, Branch(t, d, r), Branch(t', d, r), root, root', d);
    case InRight(l, d, up) =>
      HoleShape(h, up, Branch(l, d, t), root);
      PlugProper(up, Branch(l, d, t));
      ShapeKept(h, h', l, h[d].left);
      RefillShape(h, h', up, Branch(l, d, t), Branch(l, d, t'), root, root', d);
  }

  /** The walk that led to the hole is the one a search for `key` takes. */
  ghost predicate Fits(h: Nodes, c: Ctx, key: seq<State>)
    requires Around(c) <= h.Keys
    decreases c
  {
    match c
    case Top => true
    case InLeft(up, d, _) => Cmp(key, h[d].l) < 0 && Fits(h, up, key)
    case InRight(_, d, up) => Cmp(key, h[d].l) > 0 && Fits(h, up, key)
  }

  /** If `key` is in the tree at all, it is below the hole. */
  lemma {:induction false} SearchComplete(h: Nodes, c: Ctx, t: StateTree, key: seq<State>, e: DState)
    requires Members(Plug(c, t)) <= h.Keys && Around(c) <= h.Keys && Ordered(h, Plug(c, t)) && Fits(h, c, key)
    requires e in Members(Plug(c, t)) && h[e].l == key
    ensures e in Members(t)
    decreases c
  {
    OrderedBelow(h, c, t);
    PlugMembers(c, t);
    match c
    case Top =>
    case InLeft(up, d, r) =>
      OrderedBelow(h, up, Branch(t, d, r));
      SearchComplete(h, up, Branch(t, d, r), key, e);
      CmpFlip(key, key);
    case InRight(l, d, up) =>
      OrderedBelow(h, up, Branch(l, d, t));
      SearchComplete(h, up, Branch(l, d, t), key, e);
      CmpFlip(key, key);
  }

  lemma {:induction false} OrderedBelow(h: Nodes, c: Ctx, t: StateTree)
    requires Members(Plug(c, t)) <= h.Keys && Ordered(h, Plug(c, t))
    ensures Members(t) <= h.Keys && Ordered(h, t)
    decreases c
  {
    PlugMembers(c, t);
    match c
    case Top =>
    case InLeft(up, d, r) =>
      PlugMembers(up, Branch(t, d, r));
      OrderedBelow(h, up, Branch(t, d, r));
    case InRight(l, d, up) =>
      PlugMembers(up, Branch(l, d, t));
      OrderedBelow(h, up, Branch(l, d, t));
  }

  /** Filling the hole with a tree whose members compare to every node above like `key` does. */
  lemma {:induction false} RefillOrdered(h: Nodes, c: Ctx, t: StateTree, t': StateTree, key: seq<State>)
    requires Members(Plug(c, t)) <= h.Keys && Around(c) <= h.Keys && Ordered(h, Plug(c, t)) && Fits(h, c, key)
    requires Members(t') <= h.Keys && Ordered(h, t')
    requires forall x :: x in Members(t') ==> x in Members(t) || h[x].l == key
    ensures Members(Plug(c, t')) <= h.Keys && Ordered(h, Plug(c, t'))
    decreases c
  {
    PlugMembers(c, t);
    PlugMembers(c, t');
    match c
    case Top =>
    case InLeft(up, d, r) =>
      PlugMembers(up, Branch(t, d, r));
      OrderedBelow(h, up, Branch(t, d, r));
      RefillOrdered(h, up, Branch(t, d, r), Branch(t', d, r), key);
    case InRight(l, d, up) =>
      PlugMembers(up, Branch(l, d, t));
      OrderedBelow(h, up, Branch(l, d, t));
      RefillOrdered(h, up, Branch(l, d, t), Branch(l, d, t'), key);
  }

  // ---------------------------------------------------------------- The free list

  /** `p` heads the list `f`, threaded through the left pointers. */
  ghost predicate FreeChain(h: Nodes, p: DState?, f: seq<DState>) {
    if f == [] then p == null
    else p == f[0] && f[0] in h && FreeChain(h, h[f[0]].left, f[1..])
  }

  lemma {:induction false} FreeChainKept(h: Nodes, h': Nodes, p: DState?, f: seq<DState>)
    requires FreeChain(h, p, f)
    requires forall d :: d in f && d in h ==> d in h' && h'[d].left == h[d].left
    ensures FreeChain(h', p, f)
  {
    if f != [] {
      FreeChainKept(h, h', h[f[0]].left, f[1..]);
    }
  }

  /** The order in which the nodes of a tree end up on the free list. */
  ghost function FreeOrder(t: StateTree): seq<DState> {
    match t
    case Leaf => []
    case Branch(l, d, r) => [d] + (FreeOrder(r) + FreeOrder(l))
  }

  lemma {:induction false} FreeOrderLength(t: StateTree)
    ensures |FreeOrder(t)| == Size(t)
  {
    match t
    case Leaf =>
    case Branch(l, _, r) =>
      FreeOrderLength(l);
      FreeOrderLength(r);
  }

  lemma {:induction false} PlugSize(c: Ctx, d: DState)
    ensures Size(Plug(c, Branch(Leaf, d, Leaf))) == Size(Plug(c, Leaf)) + 1
  {
    PlugSizes(c, Branch(Leaf, d, Leaf), Leaf);
  }

  lemma {:induction false} PlugSizes(c: Ctx, t: StateTree, t': StateTree)
    ensures Size(Plug(c, t)) - Size(t) == Size(Plug(c, t')) - Size(t')
    decreases c
  {
    match c
    case Top =>
    case InLeft(up, d, r) => PlugSizes(up, Branch(t, d, r), Branch(t', d, r));
    case InRight(l, d, up) => PlugSizes(up, Branch(l, d, t), Branch(l, d, t'));
  }

  lemma FreeOrderShape(t: StateTree, f: seq<DState>)
    requires t.Branch?
    ensures FreeOrder(t) + f == [t.d] + (FreeOrder(t.r) + (FreeOrder(t.l) + f))
  {
  }

  lemma {:induction false} FreeOrderMembers(t: StateTree)
    ensures Elements(FreeOrder(t)) == Members(t)
  {
    match t
    case Leaf =>
    case Branch(l, d, r) =>
      FreeOrderMembers(l);
      FreeOrderMembers(r);
      ElementsJoin(FreeOrder(r), FreeOrder(l));
      ElementsJoin([d], FreeOrder(r) + FreeOrder(l));
      assert Elements([d]) == {d};
  }

  lemma ElementsJoin(a: seq<DState>, b: seq<DState>)
    ensures Elements(a + b) == Elements(a) + Elements(b)
  {
  }

  /** Freeing a tree puts every node on the list once. */
  lemma {:induction false} FreeOrderOnce(t: StateTree)
    requires Proper(t)
    ensures NoRepeats(FreeOrder(t))
  {
    match t
    case Leaf =>
    case Branch(l, d, r) =>
      FreeOrderOnce(l);
      FreeOrderOnce(r);
      FreeOrderMembers(l);
      FreeOrderMembers(r);
      var rest := FreeOrder(r) + FreeOrder(l);
      ElementsJoin(FreeOrder(r), FreeOrder(l));
      assert Elements([d]) == {d};
      NoRepeatsJoin(FreeOrder(r), FreeOrder(l));
      NoRepeatsJoin([d], rest);
  }

  lemma NoRepeatsJoin(a: seq<DState>, b: seq<DState>)
    requires NoRepeats(a) && NoRepeats(b) && Elements(a) !! Elements(b)
    ensures NoRepeats(a + b)
  {
    forall i, j | 0 <= i < j < |a + b|
      ensures (a + b)[i] != (a + b)[j]
    {
      if i < |a| <= j {
        assert a[i] in Elements(a) && b[j - |a|] in Elements(b);
      }
    }
  }

  // ---------------------------------------------------------------- The cache invariant

  /** What the cache is to keep true of its lists, and of the lists at both ends of an edge. */
  datatype Spec = Spec(key: seq<State> -> bool, edge: (seq<State>, int, seq<State>) -> bool)

  /** A cached edge stays inside the tree and meets the specification. */
  ghost predicate EdgeOk(sp: Spec, h: Nodes, m: set<DState>, d: DState, c: int)
    requires d in h && m <= h.Keys && 0 <= c < |h[d].next|
  {
    var e := h[d].next[c];
    e != null ==> e in m && sp.edge(h[d].l, c, h[e].l)
  }

  ghost predicate NodeOk(sp: Spec, h: Nodes, m: set<DState>, d: DState)
    requires d in h && m <= h.Keys
  {
    && sp.key(h[d].l) && |h[d].next| == CHARS
    && forall c :: 0 <= c < CHARS ==> EdgeOk(sp, h, m, d, c)
  }

  /** The lists and edges of the tree. */
  ghost predicate LabelsOk(sp: Spec, h: Nodes, t: StateTree) {
    && Members(t) <= h.Keys && Ordered(h, t)
    && forall d :: d in Members(t) ==> NodeOk(sp, h, Members(t), d)
  }

  ghost predicate TreeOk(sp: Spec, h: Nodes, t: StateTree, root: DState?) {
    Shape(h, t, root) && Proper(t) && LabelsOk(sp, h, t)
  }

  /** Tree and free list are well formed and share out the nodes. */
  ghost predicate PoolOk(h: Nodes, t: StateTree, root: DState?, free: seq<DState>, freelist: DState?) {
    && Shape(h, t, root) && Proper(t)
    && FreeChain(h, freelist, free) && NoRepeats(free)
    && Members(t) !! Elements(free)
    && Members(t) + Elements(free) == h.Keys
  }

  /** Of lists in address order no two stand for the same set of NFA states. */
  lemma OneNodePerSet(sp: Spec, h: Nodes, t: StateTree, root: DState?, d: DState, e: DState)
    requires TreeOk(sp, h, t, root) && d in Members(t) && e in Members(t)
    requires Sorted(h[d].l) && Sorted(h[e].l) && Elements(h[d].l) == Elements(h[e].l)
    ensures d == e
  {
    SortedUnique(h[d].l, h[e].l);
    KeyOnce(h, t, d, e);
  }

  lemma {:induction false} KeyOnce(h: Nodes, t: StateTree, d: DState, e: DState)
    requires Members(t) <= h.Keys && Ordered(h, t) && d in Members(t) && e in Members(t) && h[d].l == h[e].l
    ensures d == e
  {
    match t
    case Leaf =>
    case Branch(l, x, r) =>
      CmpFlip(h[d].l, h[d].l);
      CmpFlip(h[d].l, h[x].l);
      if d in Members(l) && e in Members(l) {
        KeyOnce(h, l, d, e);
      } else if d in Members(r) && e in Members(r) {
        KeyOnce(h, r, d, e);
      }
  }

  /** A key whose search ends in a hole is in no node. */
  lemma NotInHole(h: Nodes, c: Ctx, key: seq<State>)
    requires Members(Plug(c, Leaf)) <= h.Keys && Around(c) <= h.Keys && Ordered(h, Plug(c, Leaf)) && Fits(h, c, key)
    ensures forall e :: e in Members(Plug(c, Leaf)) ==> h[e].l != key
  {
    hide Ordered, Fits, Plug;
    forall e | e in Members(Plug(c, Leaf)) ensures h[e].l != key {
      if h[e].l == key {
        SearchComplete(h, c, Leaf, key, e);
      }
    }
  }

  /** Hanging a new node into the hole a failed search ends in. */
  lemma TreeInsert(sp: Spec, h: Nodes, h': Nodes, c: Ctx, root: DState?, root': DState?, d: DState, key: seq<State>)
    requires TreeOk(sp, h, Plug(c, Leaf), root) && Around(c) <= h.Keys && Fits(h, c, key) && sp.key(key)
    requires d !in Members(Plug(c, Leaf)) && d in h' && h'[d] == DNode(key, NoEdges(), null, null)
    requires forall x :: x in Members(Plug(c, Leaf)) ==> x in h' && h'[x].l == h[x].l && h'[x].next == h[x].next
    requires Refilled(h, h', c, root, root', d)
    ensures TreeOk(sp, h', Plug(c, Branch(Leaf, d, Leaf)), root')
    ensures Members(Plug(c, Branch(Leaf, d, Leaf))) == Members(Plug(c, Leaf)) + {d}
  {
    var t, t', b := Plug(c, Leaf), Plug(c, Branch(Leaf, d, Leaf)), Branch(Leaf, d, Leaf);
    PlugMembers(c, Leaf);
    PlugMembers(c, b);
    RefillShape(h, h', c, Leaf, b, root, root', d);
    RefillProper(c, Leaf, b);
    OrderedKept(h, h', t);
    FitsKept(h, h', c, key);
    RefillOrdered(h', c, Leaf, b, key);
    forall x | x in Members(t')
      ensures NodeOk(sp, h', Members(t'), x)
    {
      if x != d {
        assert NodeOk(sp, h, Members(t), x);
        forall a | 0 <= a < CHARS
          ensures EdgeOk(sp, h', Members(t'), x, a)
        {
          assert EdgeOk(sp, h, Members(t), x, a);
        }
      }
    }
  }

  lemma {:induction false} FitsKept(h: Nodes, h': Nodes, c: Ctx, key: seq<State>)
    requires Around(c) <= h.Keys && Around(c) <= h'.Keys && Fits(h, c, key)
    requires forall x :: x in Around(c) ==> h'[x].l == h[x].l
    ensures Fits(h', c, key)
    decreases c
  {
    match c
    case Top =>
    case InLeft(up, _, _) => FitsKept(h, h', up, key);
    case InRight(_, _, up) => FitsKept(h, h', up, key);
  }

  /** Recording an edge between two nodes of the tree. */
  lemma TreeLink(sp: Spec, h: Nodes, h': Nodes, t: StateTree, root: DState?, from: DState, c: nat, d: DState)
    requires TreeOk(sp, h, t, root) && from in Members(t) && d in Members(t) && c < CHARS
    requires sp.edge(h[from].l, c, h[d].l)
    requires |h[from].next| == CHARS && h' == h[from := h[from].(next := h[from].next[c := d])]
    ensures TreeOk(sp, h', t, root)
  {
    ShapeKept(h, h', t, root);
    OrderedKept(h, h', t);
    forall x | x in Members(t)
      ensures NodeOk(sp, h', Members(t), x)
    {
      assert NodeOk(sp, h, Members(t), x);
      forall a | 0 <= a < CHARS
        ensures EdgeOk(sp, h', Members(t), x, a)
      {
        assert EdgeOk(sp, h, Members(t), x, a);
      }
    }
  }

  /** The free list after a flush. */
  lemma Flushed(h: Nodes, h': Nodes, t: StateTree, root: DState?, free: seq<DState>, freelist: DState?,
                free': seq<DState>, freelist': DState?)
    requires PoolOk(h, t, root, free, freelist) && h'.Keys == h.Keys
    requires free' == FreeOrder(t) + free && FreeChain(h', freelist', free')
    ensures PoolOk(h', Leaf, null, free', freelist') && |free'| == Size(t) + |free|
  {
    FreeOrderLength(t);
    FreeOrderMembers(t);
    FreeOrderOnce(t);
    NoRepeatsJoin(FreeOrder(t), free);
    ElementsJoin(FreeOrder(t), free);
  }

  /** The pool after a node has moved from the free list, or from the allocator, into the tree. */
  lemma PoolGrows(h: Nodes, h1: Nodes, h': Nodes, t: StateTree, root: DState?, free: seq<DState>, freelist: DState?,
                  d: DState, t': StateTree, root': DState?, free': seq<DState>, freelist': DState?)
    requires PoolOk(h, t, root, free, freelist) && h1.Keys == h'.Keys == h.Keys + {d}
    requires if free == [] then d !in h && free' == [] else d == free[0] && free' == free[1..]
    requires Shape(h', t', root') && Proper(t') && Members(t') == Members(t) + {d}
    requires FreeChain(h1, freelist', free') && forall x :: x in free' ==> h'[x] == h1[x]
    ensures PoolOk(h', t', root', free', freelist')
  {
    FreeChainKept(h1, h', freelist', free');
    if free != [] {
      assert free == [d] + free';
      ElementsJoin([d], free');
      assert Elements([d]) == {d};
      assert d !in Elements(free');
    }
  }

  /** The number of nodes is that of the tree plus that of the free list. */
  lemma PoolCount(h: Nodes, t: StateTree, root: DState?, free: seq<DState>, freelist: DState?)
    requires PoolOk(h, t, root, free, freelist)
    ensures |h.Keys| == Size(t) + |free|
  {
    FreeOrderMembers(t);
    FreeOrderOnce(t);
    FreeOrderLength(t);
    ElementCount(FreeOrder(t));
    ElementCount(free);
    assert |Members(t) + Elements(free)| == |Members(t)| + |Elements(free)|;
  }

  /** Which pointer the walk stands at: the root's, or that of a parent. */
  ghost predicate PointsAt(c: Ctx, parent: DState?, right: bool) {
    match c
    case Top => parent == null
    case InLeft(_, d, _) => parent == d && !right
    case InRight(_, d, _) => parent == d && right
  }

  /** Writing the hole of `c` to `d` changed nothing else. */
  ghost predicate OnlyHole(h: Nodes, h': Nodes, c: Ctx, d: DState) {
    && h'.Keys == h.Keys
    && forall x :: x in h ==>
         (&& h'[x].l == h[x].l && h'[x].next == h[x].next
          && (x == d || x !in Around(c) ==> h'[x] == h[x]))
  }

  /** Filling the hole does not depend on what the new node held. */
  lemma RefilledOver(h: Nodes, h1: Nodes, h2: Nodes, c: Ctx, root: DState?, root': DState?, d: DState, n: DNode)
    requires Around(c) <= h.Keys && d !in Around(c) && h1 == h[d := n] && Refilled(h1, h2, c, root, root', d)
    ensures Refilled(h, h2, c, root, root', d)
  {
  }

  /** The tree after a node has been hung into its hole. */
  lemma TreeAdded(sp: Spec, h: Nodes, h1: Nodes, h2: Nodes, c: Ctx, root: DState?, root': DState?, d: DState,
                  key: seq<State>)
    requires TreeOk(sp, h, Plug(c, Leaf), root) && Around(c) <= h.Keys && Fits(h, c, key) && sp.key(key)
    requires d !in Members(Plug(c, Leaf)) && h1 == h[d := DNode(key, NoEdges(), null, null)]
    requires OnlyHole(h1, h2, c, d) && Refilled(h1, h2, c, root, root', d)
    ensures TreeOk(sp, h2, Plug(c, Branch(Leaf, d, Leaf)), root')
    ensures Members(Plug(c, Branch(Leaf, d, Leaf))) == Members(Plug(c, Leaf)) + {d} && d in h2 && h2[d].l == key
    ensures forall x :: x in Members(Plug(c, Leaf)) ==>
              x in h && x in h2 && h2[x].l == h[x].l && h2[x].next == h[x].next
  {
    hide Fits, Refilled, TreeOk;
    PlugMembers(c, Leaf);
    RefilledOver(h, h1, h2, c, root, root', d, h1[d]);
    TreeInsert(sp, h, h2, c, root, root', d, key);
  }

  /** A node taken from the free list or the allocator, filled in, and hung into the hole. */
  lemma NodeAdded(sp: Spec, h: Nodes, h1: Nodes, h2: Nodes, c: Ctx, root: DState?, root': DState?, free: seq<DState>,
                  freelist: DState?, free': seq<DState>, freelist': DState?, d: DState, key: seq<State>)
    requires PoolOk(h, Plug(c, Leaf), root, free, freelist) && LabelsOk(sp, h, Plug(c, Leaf))
    requires Around(c) <= h.Keys && Fits(h, c, key) && sp.key(key)
    requires if free == [] then d !in h && free' == [] else d == free[0] && free' == free[1..]
    requires h1 == h[d := DNode(key, NoEdges(), null, null)] && FreeChain(h1, freelist', free')
    requires OnlyHole(h1, h2, c, d) && Refilled(h1, h2, c, root, root', d)
    ensures var t' := Plug(c, Branch(Leaf, d, Leaf));
            && PoolOk(h2, t', root', free', freelist') && LabelsOk(sp, h2, t')
            && Members(t') == Members(Plug(c, Leaf)) + {d} && d !in Members(Plug(c, Leaf)) && d in h2 && h2[d].l == key
    ensures forall x :: x in Members(Plug(c, Leaf)) ==>
              x in h && x in h2 && h2[x].l == h[x].l && h2[x].next == h[x].next
  {
    hide Fits, Proper, Shape, LabelsOk, FreeChain, Refilled, Around;
    var t := Plug(c, Leaf);
    PlugMembers(c, Leaf);
    NotInTree(h, t, root, free, freelist, d);
    TreeAdded(sp, h, h1, h2, c, root, root', d, key);
    assert forall x :: x in free' ==> x !in Around(c);
    PoolGrows(h, h1, h2, t, root, free, freelist, d, Plug(c, Branch(Leaf, d, Leaf)), root', free', freelist');
  }

  lemma NotInTree(h: Nodes, t: StateTree, root: DState?, free: seq<DState>, freelist: DState?, d: DState)
    requires PoolOk(h, t, root, free, freelist) && if free == [] then d !in h else d == free[0]
    ensures d !in Members(t)
  {
  }

  /** Recording an edge touches neither the tree nor the free list. */
  lemma PoolLink(h: Nodes, h': Nodes, t: StateTree, root: DState?, free: seq<DState>, freelist: DState?)
    requires PoolOk(h, t, root, free, freelist) && h'.Keys == h.Keys
    requires forall x :: x in h ==> h'[x].left == h[x].left && h'[x].right == h[x].right
    ensures PoolOk(h', t, root, free, freelist)
  {
    ShapeKept(h, h', t, root);
    FreeChainKept(h, h', freelist, free);
  }
}
