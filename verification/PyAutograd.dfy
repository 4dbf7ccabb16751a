/** The values of microgpt.py, which keep their local derivatives, and their backward pass. */
module PyAutograd {
  import opened GradGraph

  class Value {
    const data: real
    var grad: real
    const children: seq<Value>
    const locals: seq<real>
    /** Its number in the order of creation. */
    ghost const id: nat

    constructor (data: real, children: seq<Value>, locals: seq<real>, ghost id: nat)
      ensures this.data == data && grad == 0.0 && this.children == children && this.locals == locals && this.id == id
    {
      this.data, grad, this.children, this.locals, this.id := data, 0.0, children, locals, id;
    }
  }

  /** The values made so far are numbered, and have their children among those before them. */
  ghost predicate Numbered(nodes: seq<Value>) {
    forall i :: 0 <= i < |nodes| ==> nodes[i].id == i && HasChildren(nodes, i)
  }

  ghost predicate HasChildren(nodes: seq<Value>, i: nat)
    requires i < |nodes|
  {
    && |nodes[i].children| == |nodes[i].locals|
    && forall k :: 0 <= k < |nodes[i].children| ==> Child(nodes, i, nodes[i].children[k])
  }

  ghost predicate Child(nodes: seq<Value>, i: nat, c: Value)
    requires i < |nodes|
  {
    c.id < i && nodes[c.id] == c
  }

  ghost function Ids(vs: seq<Value>): (r: seq<nat>)
    ensures |r| == |vs| && forall i :: 0 <= i < |vs| ==> r[i] == vs[i].id
  {
    seq(|vs|, i requires 0 <= i < |vs| => vs[i].id)
  }

  ghost function Graph(nodes: seq<Value>): (g: seq<Node>)
    requires Numbered(nodes)
    ensures |g| == |nodes| && Acyclic(g)
    ensures forall i :: 0 <= i < |g| ==> g[i] == Node(Ids(nodes[i].children), nodes[i].locals)
  {
    var g := seq(|nodes|, i requires 0 <= i < |nodes| => Node(Ids(nodes[i].children), nodes[i].locals));
    assert forall i :: 0 <= i < |g| ==> HasChildren(nodes, i);
    assert forall i, k :: 0 <= i < |g| && 0 <= k < |g[i].children| ==> Child(nodes, i, nodes[i].children[k]);
    g
  }

  ghost function GradsTo(nodes: seq<Value>, n: nat): (r: seq<real>)
    requires n <= |nodes|
    reads nodes
    ensures |r| == n && forall i :: 0 <= i < n ==> r[i] == nodes[i].grad
  {
    if n == 0 then [] else GradsTo(nodes, n - 1) + [nodes[n - 1].grad]
  }

  ghost predicate Knows(nodes: seq<Value>, v: Value) {
    v.id < |nodes| && nodes[v.id] == v
  }

  /** One run of the method `backward`: its two local variables. */
  class Pass {
    var topo: seq<Value>
    var visited: set<Value>

    constructor ()
      ensures topo == [] && visited == {} && Searched() == Search({}, [])
    {
      topo, visited := [], {};
    }

    ghost predicate Valid(nodes: seq<Value>)
      reads this
    {
      && (forall i :: 0 <= i < |topo| ==> Knows(nodes, topo[i]))
      && (forall v :: v in visited ==> Knows(nodes, v))
    }

    ghost function Searched(): Search
      reads this
    {
      Search((set v | v in visited :: v.id), Ids(topo))
    }

    method BuildTopo(ghost nodes: seq<Value>, v: Value)
      requires Numbered(nodes) && Valid(nodes) && Knows(nodes, v)
      modifies this
      ensures Valid(nodes) && Searched() == Visit(Graph(nodes), v.id, old(Searched()))
      decreases v.id
    {
      hide Graph, Visit, VisitChildren, Numbered, Ids;
      ghost var g, s := Graph(nodes), Searched();
      SeenIs(nodes, v);
      Unfold(g, v.id, s);
      if v !in visited {
        Mark(nodes, v);
        ghost var s1 := Searched();
        for k := 0 to |v.children|
          invariant Valid(nodes) && Searched() == VisitChildren(g, v.id, k, s1)
        {
          ChildIs(nodes, v, k);
          UnfoldChildren(g, v.id, k, s1);
          BuildTopo(nodes, v.children[k]);
        }
        Finish(nodes, v);
      }
    }

    lemma SeenIs(nodes: seq<Value>, v: Value)
      requires Numbered(nodes) && Valid(nodes) && Knows(nodes, v)
      ensures v.id in Searched().seen <==> v in visited
      ensures |Graph(nodes)[v.id].children| == |v.children|
    {
    }

    method Mark(ghost nodes: seq<Value>, v: Value)
      requires Valid(nodes) && Knows(nodes, v)
      modifies `visited
      ensures Valid(nodes) && Searched() == Search(old(Searched().seen) + {v.id}, old(Searched().order))
    {
      visited := visited + {v};
    }

    method Finish(ghost nodes: seq<Value>, v: Value)
      requires Valid(nodes) && Knows(nodes, v)
      modifies `topo
      ensures Valid(nodes) && Searched() == Search(old(Searched().seen), old(Searched().order) + [v.id])
    {
      topo := topo + [v];
    }
  }

  lemma ChildIs(nodes: seq<Value>, v: Value, k: nat)
    requires Numbered(nodes) && Knows(nodes, v) && k < |v.children|
    ensures Knows(nodes, v.children[k]) && v.children[k].id < v.id
    ensures |Graph(nodes)[v.id].children| == |v.children| == |v.locals|
    ensures Graph(nodes)[v.id].children[k] == v.children[k].id && Graph(nodes)[v.id].locals[k] == v.locals[k]
  {
    assert HasChildren(nodes, v.id);
    assert Child(nodes, v.id, v.children[k]);
  }

  lemma Unfold(g: seq<Node>, v: nat, s: Search)
    requires Acyclic(g) && v < |g|
    ensures v in s.seen ==> Visit(g, v, s) == s
    ensures v !in s.seen ==>
      var r := VisitChildren(g, v, |g[v].children|, Search(s.seen + {v}, s.order));
      Visit(g, v, s) == Search(r.seen, r.order + [v])
    ensures VisitChildren(g, v, 0, Search(s.seen + {v}, s.order)) == Search(s.seen + {v}, s.order)
  {
  }

  lemma UnfoldChildren(g: seq<Node>, v: nat, k: nat, s: Search)
    requires Acyclic(g) && v < |g| && k < |g[v].children|
    ensures VisitChildren(g, v, k + 1, s) == Visit(g, g[v].children[k], VisitChildren(g, v, k, s))
  {
  }

  // The sweep.

  ghost function Grads(nodes: seq<Value>): (r: seq<real>)
    reads nodes
    ensures |r| == |nodes| && forall i :: 0 <= i < |nodes| ==> r[i] == nodes[i].grad
  {
    GradsTo(nodes, |nodes|)
  }

  method SetGrad(ghost nodes: seq<Value>, v: Value, d: real)
    requires Numbered(nodes) && Knows(nodes, v)
    modifies v
    ensures Grads(nodes) == old(Grads(nodes))[v.id := d]
  {
    v.grad := d;
  }

  /** The inner loop: hands the gradient of `v` on to its children. */
  method Propagate(ghost nodes: seq<Value>, v: Value)
    requires Numbered(nodes) && Knows(nodes, v)
    modifies nodes
    ensures Grads(nodes) == Push(Graph(nodes), v.id, |v.children|, old(Grads(nodes)))
    ensures |Graph(nodes)[v.id].children| == |v.children|
  {
    hide Numbered, Graph, Push, Times, Acyclic;
    ghost var g := Graph(nodes);
    Degree(nodes, v);
    PushNone(g, v.id, Grads(nodes));
    for k := 0 to |v.children|
      invariant Grads(nodes) == Push(g, v.id, k, old(Grads(nodes)))
    {
      ChildIs(nodes, v, k);
      PushNext(g, v.id, k, old(Grads(nodes)));
      var c := v.children[k];
      SetGrad(nodes, c, c.grad + Times(v.locals[k], v.grad));
    }
  }

  lemma Degree(nodes: seq<Value>, v: Value)
    requires Numbered(nodes) && Knows(nodes, v)
    ensures |Graph(nodes)[v.id].children| == |v.children| == |v.locals|
  {
    assert HasChildren(nodes, v.id);
  }

  lemma PushNone(g: seq<Node>, v: nat, grads: seq<real>)
    requires Acyclic(g) && v < |g| == |grads|
    ensures Push(g, v, 0, grads) == grads
  {
  }

  lemma PushNext(g: seq<Node>, v: nat, k: nat, grads: seq<real>)
    requires Acyclic(g) && v < |g| == |grads| && k < |g[v].children|
    ensures var h := Push(g, v, k, grads); var c := g[v].children[k];
            Push(g, v, k + 1, grads) == h[c := h[c] + Times(g[v].locals[k], h[v])]
  {
  }

  method SweepDown(ghost nodes: seq<Value>, topo: seq<Value>)
    requires Numbered(nodes) && forall i :: 0 <= i < |topo| ==> Knows(nodes, topo[i])
    requires Order(Graph(nodes), Ids(topo))
    modifies nodes
    ensures Grads(nodes) == Sweep(Graph(nodes), Ids(topo), 0, old(Grads(nodes)))
  {
    hide Numbered, Graph, Push, Order, Acyclic;
    ghost var g, t := Graph(nodes), Ids(topo);
    var i := |topo|;
    while i > 0
      invariant 0 <= i <= |topo|
      invariant Grads(nodes) == Sweep(g, t, i, old(Grads(nodes)))
    {
      i := i - 1;
      Propagate(nodes, topo[i]);
    }
  }

  /** The same derivatives as the C program leaves. */
  method Backward(ghost nodes: seq<Value>, root: Value)
    requires Numbered(nodes) && Knows(nodes, root)
    requires forall y :: 0 <= y < |nodes| && y != root.id && Reaches(Graph(nodes), root.id, y) ==> nodes[y].grad == 0.0
    modifies nodes
    ensures forall y :: 0 <= y < |nodes| ==>
      nodes[y].grad == if Reaches(Graph(nodes), root.id, y) then D(Graph(nodes), root.id, y) else old(nodes[y].grad)
  {
    hide Visit, Reaches, D, Graph, Acyclic, Order, Sweep, Numbered;
    ghost var g, before := Graph(nodes), Grads(nodes);
    var pass := new Pass();
    pass.BuildTopo(nodes, root);
    var topo := pass.topo;
    ghost var t := Ids(topo);
    assert t == Topo(g, root.id);
    TopoIs(g, root.id);
    SetGrad(nodes, root, 1.0);
    ghost var start := Grads(nodes);
    SeedIs(g, root.id, before, start);
    SweepDown(nodes, topo);
    SweepMeans(g, root.id, before, start);
    assert forall y :: 0 <= y < |nodes| ==> Grads(nodes)[y] == nodes[y].grad;
  }

  lemma SeedIs(g: seq<Node>, root: nat, before: seq<real>, start: seq<real>)
    requires Acyclic(g) && root < |g| == |before| && start == before[root := 1.0]
    requires forall y :: 0 <= y < |g| && y != root && Reaches(g, root, y) ==> before[y] == 0.0
    ensures Order(g, Topo(g, root)) && Seeded(Topo(g, root), start)
  {
    hide Visit, Reaches, D;
    TopoIs(g, root);
    var t := Topo(g, root);
    assert forall i :: 0 <= i < |t| ==> Reaches(g, root, t[i]);
  }
}
