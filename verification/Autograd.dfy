/** The values of microgpt.c, the search over them, and the backward pass. */
module Autograd {
  import opened GradGraph

  datatype Op = OpConst | OpAdd | OpMul | OpPow | OpLog | OpExp | OpRelu

  /** The library functions, on reals; `inverse` is one divided by its argument. */
  datatype Maths = Maths(pow: (real, real) -> real, log: real -> real, exp: real -> real, inverse: real -> real)

  class Value {
    var data: real
    var grad: real
    var prev0: Value?
    var prev1: Value?
    var op: Op
    var aux: real
    var visited: bool
    ghost var id: nat

    /** A fresh value in the arena: a constant until an operation says otherwise. */
    constructor (data: real)
      ensures this.data == data && grad == 0.0 && prev0 == null && prev1 == null
      ensures op == OpConst && !visited
    {
      this.data, grad, prev0, prev1, op, visited := data, 0.0, null, null, OpConst, false;
    }
  }

  class Tape {
    const maths: Maths
    var params: seq<Value>
    var topo: seq<Value>
    /** Every value, numbered so that the arguments of an operation come before it. */
    ghost var nodes: seq<Value>

    constructor (maths: Maths)
      ensures Valid() && nodes == [] && params == [] && this.maths == maths
    {
      this.maths := maths;
      params, topo, nodes := [], [], [];
    }

    ghost predicate Has(v: Value?)
      reads `nodes, nodes`id
    {
      v != null && v in nodes && v.id < |nodes| && nodes[v.id] == v
    }

    /** Value `v` of number `i` has the arguments its operation needs. */
    ghost predicate WellFormed(v: Value, i: nat)
      reads `nodes, nodes`id, v`id, v`op, v`prev0, v`prev1
    {
      && v.id == i
      && (v.prev0 != null ==> Has(v.prev0) && v.prev0.id < i)
      && (v.prev1 != null ==> Has(v.prev1) && v.prev1.id < i)
      && (v.prev0 == null <==> v.op == OpConst)
      && (v.op == OpAdd ==> v.prev1 != null)
      && (v.prev1 != null ==> v.op == OpAdd || v.op == OpMul)
    }

    ghost predicate Valid()
      reads `nodes, nodes`id, nodes`op, nodes`prev0, nodes`prev1
    {
      forall i :: 0 <= i < |nodes| ==> WellFormed(nodes[i], i)
    }

    /** The weights are different constants. */
    ghost predicate ParamsOk()
      reads `nodes, `params, params`op, params`prev0, params`prev1
    {
      && (forall p :: p in params ==> p in nodes && p.op == OpConst && p.prev0 == null && p.prev1 == null)
      && forall i, j :: 0 <= i < j < |params| ==> params[i] != params[j]
    }

    /** No pass has touched a value since the tape was cleared, weights apart. */
    ghost predicate Unused()
      reads `nodes, `params, nodes`visited, nodes`grad
    {
      forall v :: v in nodes ==> v in params || (!v.visited && v.grad == 0.0)
    }

    ghost predicate Usable()
      reads `nodes, `params, params`op, params`prev0, params`prev1, nodes`visited, nodes`grad
    {
      ParamsOk() && Unused()
    }

    /** The local derivatives that the backward pass uses. */
    ghost function NodeOf(v: Value): (n: Node)
      requires Valid() && v in nodes
      reads `nodes, nodes`id, nodes`op, nodes`prev0, nodes`prev1, nodes`data, nodes`aux
      ensures |n.children| == |n.locals| && forall k :: 0 <= k < |n.children| ==> n.children[k] < v.id
    {
      match v.op
      case OpConst => Node([], [])
      case OpAdd => Node([v.prev0.id, v.prev1.id], [1.0, 1.0])
      case OpMul =>
        if v.prev1 != null then Node([v.prev0.id, v.prev1.id], [v.prev1.data, v.prev0.data])
        else Node([v.prev0.id], [v.aux])
      case OpPow => Node([v.prev0.id], [Times(v.aux, maths.pow(v.prev0.data, v.aux - 1.0))])
      case OpLog => Node([v.prev0.id], [maths.inverse(v.prev0.data)])
      case OpExp => Node([v.prev0.id], [v.data])
      case OpRelu => Node([v.prev0.id], [if v.data > 0.0 then 1.0 else 0.0])
    }

    ghost function GraphTo(n: nat): (g: seq<Node>)
      requires Valid() && n <= |nodes|
      reads `nodes, nodes`id, nodes`op, nodes`prev0, nodes`prev1, nodes`data, nodes`aux
      ensures |g| == n && forall i :: 0 <= i < n ==> g[i] == NodeOf(nodes[i])
    {
      if n == 0 then [] else GraphTo(n - 1) + [NodeOf(nodes[n - 1])]
    }

    ghost function Graph(): (g: seq<Node>)
      requires Valid()
      reads `nodes, nodes`id, nodes`op, nodes`prev0, nodes`prev1, nodes`data, nodes`aux
      ensures |g| == |nodes| && Acyclic(g) && forall i :: 0 <= i < |g| ==> g[i] == NodeOf(nodes[i])
    {
      GraphTo(|nodes|)
    }

    ghost function GradsTo(n: nat): (r: seq<real>)
      requires n <= |nodes|
      reads `nodes, nodes`grad
      ensures |r| == n && forall i :: 0 <= i < n ==> r[i] == nodes[i].grad
    {
      if n == 0 then [] else GradsTo(n - 1) + [nodes[n - 1].grad]
    }

    ghost function Grads(): (r: seq<real>)
      reads `nodes, nodes`grad
      ensures |r| == |nodes| && forall i :: 0 <= i < |r| ==> r[i] == nodes[i].grad
    {
      GradsTo(|nodes|)
    }

    // The operations.

    /** Numbers a value whose arguments are numbered. */
    ghost method Register(v: Value)
      requires Valid() && v !in nodes
      requires v.prev0 != null ==> v.prev0 in nodes
      requires v.prev1 != null ==> v.prev1 in nodes
      requires v.prev0 == null <==> v.op == OpConst
      requires v.op == OpAdd ==> v.prev1 != null
      requires v.prev1 != null ==> v.op == OpAdd || v.op == OpMul
      modifies `nodes, v`id
      ensures Valid() && nodes == old(nodes) + [v] && v.id == |old(nodes)|
      ensures forall i :: 0 <= i < |old(nodes)| ==> Graph()[i] == old(Graph()[i])
      ensures old(Usable()) && !v.visited && v.grad == 0.0 ==> Usable()
    {
      hide Graph, NodeOf, Usable;
      v.id := |nodes|;
      nodes := nodes + [v];
      StillValid(v);
      SameNodes(v);
      StillUsable(v);
    }

    twostate lemma StillValid(v: Value)
      requires old(Valid()) && nodes == old(nodes) + [v] && v !in old(nodes) && v.id == |old(nodes)|
      requires forall x :: x in old(nodes) ==> unchanged(x)
      requires v.prev0 != null ==> v.prev0 in old(nodes)
      requires v.prev1 != null ==> v.prev1 in old(nodes)
      requires v.prev0 == null <==> v.op == OpConst
      requires v.op == OpAdd ==> v.prev1 != null
      requires v.prev1 != null ==> v.op == OpAdd || v.op == OpMul
      ensures Valid()
    {
      forall i | 0 <= i < |nodes| ensures WellFormed(nodes[i], i) {
        if i < |old(nodes)| {
          assert old(WellFormed(nodes[i], i)) && nodes[i] == old(nodes[i]) && nodes[i] in old(nodes);
        }
      }
    }

    twostate lemma StillUsable(v: Value)
      requires nodes == old(nodes) + [v] && params == old(params)
      requires forall x :: x in old(nodes) ==> unchanged(x)
      ensures old(Usable()) && !v.visited && v.grad == 0.0 ==> Usable()
    {
      if old(Usable()) && !v.visited && v.grad == 0.0 {
        forall p | p in params ensures p in nodes && p.op == OpConst && p.prev0 == null && p.prev1 == null {
          assert p in old(params) && p in old(nodes);
        }
        forall x | x in nodes ensures x in params || (!x.visited && x.grad == 0.0) {
          assert x in old(nodes) || x == v;
        }
      }
    }

    /** The nodes of the older values stay as they were. */
    twostate lemma SameNodes(v: Value)
      requires old(Valid()) && Valid() && nodes == old(nodes) + [v]
      requires forall x :: x in old(nodes) ==> unchanged(x)
      ensures forall i :: 0 <= i < |old(nodes)| ==> Graph()[i] == old(Graph()[i])
    {
      forall i | 0 <= i < |old(nodes)| ensures Graph()[i] == old(Graph()[i]) {
        var n := nodes[i];
        assert n == old(nodes[i]) && n in old(nodes);
        assert n.prev0 != null ==> n.prev0 in old(nodes);
        assert n.prev1 != null ==> n.prev1 in old(nodes);
        assert NodeOf(n) == old(NodeOf(n));
      }
    }

    /** Numbers a constant, and then a product with it. */
    ghost method RegisterBoth(k: Value, v: Value)
      requires Valid() && k !in nodes && v !in nodes && k != v
      requires k.op == OpConst && k.prev0 == null && k.prev1 == null
      requires v.op == OpMul && v.prev0 != null && v.prev0 in nodes && v.prev1 == k
      modifies `nodes, k`id, v`id
      ensures Valid() && nodes == old(nodes) + [k] + [v] && k.id == |old(nodes)| && v.id == |old(nodes)| + 1
      ensures forall i :: 0 <= i < |old(nodes)| ==> Graph()[i] == old(Graph()[i])
      ensures old(Usable()) && !k.visited && k.grad == 0.0 && !v.visited && v.grad == 0.0 ==> Usable()
    {
      hide Valid, Graph, Usable;
      Register(k);
      Register(v);
    }

    /** The chain rule at one operation. */
    lemma RuleOne(v: Value)
      requires Valid() && v in nodes && v.prev0 != null && v.prev1 == null
      ensures v.id < |nodes| && v.prev0.id < |nodes| && |NodeOf(v).locals| == 1
      ensures forall y: nat :: y < |nodes| && y != v.id ==>
        D(Graph(), v.id, y) == Times(NodeOf(v).locals[0], D(Graph(), v.prev0.id, y))
    {
      hide D, Times;
      forall y: nat | y < |nodes| && y != v.id
        ensures D(Graph(), v.id, y) == Times(NodeOf(v).locals[0], D(Graph(), v.prev0.id, y))
      {
        ChainOne(Graph(), v.id, y);
      }
    }

    lemma RuleTwo(v: Value)
      requires Valid() && v in nodes && v.prev1 != null
      ensures v.id < |nodes| && v.prev0 != null && v.prev0.id < |nodes| && v.prev1.id < |nodes|
      ensures |NodeOf(v).locals| == 2
      ensures forall y: nat :: y < |nodes| && y != v.id ==>
        D(Graph(), v.id, y) == Times(NodeOf(v).locals[0], D(Graph(), v.prev0.id, y))
                             + Times(NodeOf(v).locals[1], D(Graph(), v.prev1.id, y))
    {
      hide D, Times;
      forall y: nat | y < |nodes| && y != v.id
        ensures D(Graph(), v.id, y) ==
          Times(NodeOf(v).locals[0], D(Graph(), v.prev0.id, y)) + Times(NodeOf(v).locals[1], D(Graph(), v.prev1.id, y))
      {
        ChainTwo(Graph(), v.id, y);
      }
    }

    /** A constant. */
    method Const(data: real) returns (v: Value)
      requires Valid()
      modifies `nodes
      ensures Valid() && fresh(v) && nodes == old(nodes) + [v] && v.id == |old(nodes)|
      ensures v.op == OpConst && v.prev0 == null && v.prev1 == null
      ensures v.data == data && v.grad == 0.0 && !v.visited
      ensures old(Usable()) ==> Usable()
      ensures forall i :: 0 <= i < |old(nodes)| ==> Graph()[i] == old(Graph()[i])
    {
      v := new Value(data);
      Register(v);
    }

    /** A weight: a constant whose flag every backward pass clears. */
    method Param(data: real) returns (v: Value)
      requires Valid() && ParamsOk()
      modifies `nodes, `params
      ensures Valid() && ParamsOk() && fresh(v) && nodes == old(nodes) + [v] && v.id == |old(nodes)|
      ensures v.data == data && v.grad == 0.0 && params == old(params) + [v]
      ensures old(Usable()) ==> Usable()
      ensures forall i :: 0 <= i < |old(nodes)| ==> Graph()[i] == old(Graph()[i])
    {
      hide Valid, Graph;
      v := Const(data);
      params := params + [v];
    }

    /** Derivative of a sum. */
    method Add(a: Value, b: Value) returns (v: Value)
      requires Valid() && a in nodes && b in nodes
      modifies `nodes
      ensures Valid() && fresh(v) && nodes == old(nodes) + [v] && v.id == |old(nodes)|
      ensures v.data == a.data + b.data && v.grad == 0.0 && !v.visited
      ensures old(Usable()) ==> Usable()
      ensures forall i :: 0 <= i < |old(nodes)| ==> Graph()[i] == old(Graph()[i])
      ensures forall y: nat :: y < |old(nodes)| ==>
        D(Graph(), v.id, y) == D(Graph(), a.id, y) + D(Graph(), b.id, y)
    {
      hide D, Times, Valid, Acyclic, Graph, Usable;
      v := new Value(a.data + b.data);
      v.prev0, v.prev1, v.op := a, b, OpAdd;
      Register(v);
      assert NodeOf(v).locals == [1.0, 1.0];
      RuleTwo(v);
      Units();
    }

    /** Derivative of a product. */
    method Mul(a: Value, b: Value) returns (v: Value)
      requires Valid() && a in nodes && b in nodes
      modifies `nodes
      ensures Valid() && fresh(v) && nodes == old(nodes) + [v] && v.id == |old(nodes)|
      ensures v.data == Times(a.data, b.data) && v.grad == 0.0 && !v.visited
      ensures old(Usable()) ==> Usable()
      ensures forall i :: 0 <= i < |old(nodes)| ==> Graph()[i] == old(Graph()[i])
      ensures forall y: nat :: y < |old(nodes)| ==>
        D(Graph(), v.id, y) == Times(b.data, D(Graph(), a.id, y)) + Times(a.data, D(Graph(), b.id, y))
    {
      hide D, Times, Valid, Acyclic, Graph, Usable;
      v := new Value(Times(a.data, b.data));
      v.prev0, v.prev1, v.op := a, b, OpMul;
      Register(v);
      assert NodeOf(v).locals == [b.data, a.data];
      RuleTwo(v);
    }

    /** Derivative of a power with a constant exponent. */
    method Power(a: Value, e: real) returns (v: Value)
      requires Valid() && a in nodes
      modifies `nodes
      ensures Valid() && fresh(v) && nodes == old(nodes) + [v] && v.id == |old(nodes)|
      ensures v.data == maths.pow(a.data, e) && v.grad == 0.0 && !v.visited
      ensures old(Usable()) ==> Usable()
      ensures forall i :: 0 <= i < |old(nodes)| ==> Graph()[i] == old(Graph()[i])
      ensures forall y: nat :: y < |old(nodes)| ==>
        D(Graph(), v.id, y) == Times(Times(e, maths.pow(a.data, e - 1.0)), D(Graph(), a.id, y))
    {
      hide D, Times, Valid, Acyclic, Graph, Usable;
      v := new Value(maths.pow(a.data, e));
      v.prev0, v.op, v.aux := a, OpPow, e;
      Register(v);
      assert NodeOf(v).locals == [Times(e, maths.pow(a.data, e - 1.0))];
      RuleOne(v);
    }

    /** Derivative of a logarithm. */
    method VLog(a: Value) returns (v: Value)
      requires Valid() && a in nodes
      modifies `nodes
      ensures Valid() && fresh(v) && nodes == old(nodes) + [v] && v.id == |old(nodes)|
      ensures v.data == maths.log(a.data) && v.grad == 0.0 && !v.visited
      ensures old(Usable()) ==> Usable()
      ensures forall i :: 0 <= i < |old(nodes)| ==> Graph()[i] == old(Graph()[i])
      ensures forall y: nat :: y < |old(nodes)| ==>
        D(Graph(), v.id, y) == Times(maths.inverse(a.data), D(Graph(), a.id, y))
    {
      hide D, Times, Valid, Acyclic, Graph, Usable;
      v := new Value(maths.log(a.data));
      v.prev0, v.op := a, OpLog;
      Register(v);
      assert NodeOf(v).locals == [maths.inverse(a.data)];
      RuleOne(v);
    }

    /** Derivative of an exponential. */
    method VExp(a: Value) returns (v: Value)
      requires Valid() && a in nodes
      modifies `nodes
      ensures Valid() && fresh(v) && nodes == old(nodes) + [v] && v.id == |old(nodes)|
      ensures v.data == maths.exp(a.data) && v.grad == 0.0 && !v.visited
      ensures old(Usable()) ==> Usable()
      ensures forall i :: 0 <= i < |old(nodes)| ==> Graph()[i] == old(Graph()[i])
      ensures forall y: nat :: y < |old(nodes)| ==>
        D(Graph(), v.id, y) == Times(maths.exp(a.data), D(Graph(), a.id, y))
    {
      hide D, Times, Valid, Acyclic, Graph, Usable;
      v := new Value(maths.exp(a.data));
      v.prev0, v.op := a, OpExp;
      Register(v);
      assert NodeOf(v).locals == [maths.exp(a.data)];
      RuleOne(v);
    }

    /** Derivative of a rectified value, zero where it is not positive. */
    method Relu(a: Value) returns (v: Value)
      requires Valid() && a in nodes
      modifies `nodes
      ensures Valid() && fresh(v) && nodes == old(nodes) + [v] && v.id == |old(nodes)|
      ensures v.data == (if a.data > 0.0 then a.data else 0.0) && v.grad == 0.0 && !v.visited
      ensures old(Usable()) ==> Usable()
      ensures forall i :: 0 <= i < |old(nodes)| ==> Graph()[i] == old(Graph()[i])
      ensures forall y: nat :: y < |old(nodes)| ==>
        D(Graph(), v.id, y) == if a.data > 0.0 then D(Graph(), a.id, y) else 0.0
    {
      hide D, Times, Valid, Acyclic, Graph, Usable;
      v := new Value(if a.data > 0.0 then a.data else 0.0);
      v.prev0, v.op := a, OpRelu;
      Register(v);
      assert NodeOf(v).locals == [if a.data > 0.0 then 1.0 else 0.0];
      RuleOne(v);
      Units();
    }

    /** A value negated by a product with a constant that is kept in the value itself. */
    method Negated(b: Value) returns (n: Value)
      requires Valid() && b in nodes
      modifies `nodes
      ensures Valid() && fresh(n) && nodes == old(nodes) + [n] && n.id == |old(nodes)|
      ensures n.data == -b.data && n.grad == 0.0 && !n.visited
      ensures old(Usable()) ==> Usable()
      ensures forall i :: 0 <= i < |old(nodes)| ==> Graph()[i] == old(Graph()[i])
      ensures forall y: nat :: y < |old(nodes)| ==> D(Graph(), n.id, y) == -D(Graph(), b.id, y)
    {
      hide D, Times, Valid, Acyclic, Graph, Usable;
      n := new Value(-b.data);
      n.prev0, n.op, n.aux := b, OpMul, -1.0;
      Register(n);
      RuleOne(n);
      forall y: nat | y < |old(nodes)| ensures D(Graph(), n.id, y) == -D(Graph(), b.id, y) {
        Negate(D(Graph(), b.id, y));
      }
    }

    /** A difference is a sum with a negated value, of which the arena holds one more. */
    method Sub(a: Value, b: Value) returns (v: Value)
      requires Valid() && a in nodes && b in nodes
      modifies `nodes
      ensures Valid() && fresh(v) && |nodes| == |old(nodes)| + 2 && nodes[..|old(nodes)|] == old(nodes)
      ensures v.id == |old(nodes)| + 1 && nodes[v.id] == v
      ensures v.data == a.data - b.data && v.grad == 0.0 && !v.visited
      ensures old(Usable()) ==> Usable()
      ensures forall i :: 0 <= i < |old(nodes)| ==> Graph()[i] == old(Graph()[i])
      ensures forall y: nat :: y < |old(nodes)| ==>
        D(Graph(), v.id, y) == D(Graph(), a.id, y) - D(Graph(), b.id, y)
    {
      hide D, Times, Valid, Acyclic, Graph, Usable;
      Locals(a);
      Locals(b);
      var n := Negated(b);
      ghost var g1 := Graph();
      v := Add(a, n);
      forall y: nat | y < |old(nodes)|
        ensures D(Graph(), v.id, y) == D(Graph(), a.id, y) - D(Graph(), b.id, y)
      {
        Prefix(g1, Graph(), n.id, y);
        Prefix(g1, Graph(), b.id, y);
      }
    }

    /** A product with a constant, which the arena holds too. */
    method MulConst(a: Value, c: real) returns (v: Value)
      requires Valid() && a in nodes
      modifies `nodes
      ensures Valid() && fresh(v) && |nodes| == |old(nodes)| + 2 && nodes[..|old(nodes)|] == old(nodes)
      ensures v.id == |old(nodes)| + 1 && nodes[v.id] == v
      ensures v.data == Times(a.data, c) && v.grad == 0.0 && !v.visited
      ensures old(Usable()) ==> Usable()
      ensures forall i :: 0 <= i < |old(nodes)| ==> Graph()[i] == old(Graph()[i])
      ensures forall y: nat :: y < |old(nodes)| ==> D(Graph(), v.id, y) == Times(c, D(Graph(), a.id, y))
    {
      hide D, Times, Valid, Acyclic, Graph, Usable;
      v := new Value(Times(a.data, c));
      v.prev0, v.op := a, OpMul;
      var k := new Value(c);
      v.prev1 := k;
      RegisterBoth(k, v);
      ProductRule(v);
    }

    /** A product with a constant beside it. */
    lemma ProductRule(v: Value)
      requires Valid() && v in nodes && v.op == OpMul && v.prev1 != null && v.prev1.op == OpConst
      ensures v.id < |nodes| && v.prev0 != null && v.prev0.id < |nodes|
      ensures forall y: nat :: y < |nodes| && y != v.id && y != v.prev1.id ==>
        D(Graph(), v.id, y) == Times(v.prev1.data, D(Graph(), v.prev0.id, y))
    {
      hide D, Times, Acyclic, Graph;
      RuleTwo(v);
      Zero(v.prev0.data);
      forall y: nat | y < |nodes| && y != v.id && y != v.prev1.id
        ensures D(Graph(), v.id, y) == Times(v.prev1.data, D(Graph(), v.prev0.id, y))
      {
        ConstRule(v.prev1, y);
      }
    }

    lemma ConstRule(v: Value, y: nat)
      requires Valid() && v in nodes && v.op == OpConst && y != v.id
      ensures v.id < |nodes| && D(Graph(), v.id, y) == 0.0
    {
    }

    // The backward pass.

    ghost predicate TopoOk()
      requires Valid()
      reads `nodes, nodes`id, nodes`op, nodes`prev0, nodes`prev1, `topo
    {
      forall i :: 0 <= i < |topo| ==> topo[i] in nodes
    }

    ghost function TopoIds(n: nat): (r: seq<nat>)
      requires n <= |topo|
      reads `topo, topo`id
      ensures |r| == n && forall i :: 0 <= i < n ==> r[i] == topo[i].id
    {
      if n == 0 then [] else TopoIds(n - 1) + [topo[n - 1].id]
    }

    /** The search as its flags and its list show it. */
    ghost function Searched(): Search
      reads `nodes, nodes`visited, `topo, topo`id
    {
      Search((set i | 0 <= i < |nodes| && nodes[i].visited :: i), TopoIds(|topo|))
    }

    /** The arguments of a value are its children in the graph. */
    lemma Arguments(v: Value)
      requires Valid() && v in nodes
      ensures v.id < |nodes| && nodes[v.id] == v && |Graph()[v.id].children| <= 2
      ensures Graph()[v.id].children ==
        if v.prev0 == null then [] else if v.prev1 == null then [v.prev0.id] else [v.prev0.id, v.prev1.id]
      ensures v.prev0 != null ==> v.prev0 in nodes && v.prev0.id < v.id
      ensures v.prev1 != null ==> v.prev0 != null && v.prev1 in nodes && v.prev1.id < v.id
    {
    }

    /** The search after an argument that may be missing. */
    ghost function VisitArgument(g: seq<Node>, c: Value?, s: Search): Search
      requires Acyclic(g)
      reads (if c == null then {} else {c})`id
    {
      if c != null && c.id < |g| then Visit(g, c.id, s) else s
    }

    /** A visit to a new value goes on with its arguments. */
    lemma VisitArguments(v: Value, g: seq<Node>, s: Search)
      requires Valid() && v in nodes && v.id !in s.seen && g == Graph()
      ensures v.id < |nodes|
      ensures var r := VisitArgument(g, v.prev1, VisitArgument(g, v.prev0, Search(s.seen + {v.id}, s.order)));
              Visit(g, v.id, s) == Search(r.seen, r.order + [v.id])
    {
      hide Visit, Graph, Valid;
      Arguments(v);
      VisitIs(g, v.id, s);
      var s1 := Search(s.seen + {v.id}, s.order);
      assert v.prev0 != null ==> v.prev0.id < |g|;
      assert v.prev1 != null ==> v.prev1.id < |g|;
    }

    /** Lists what `v` reaches and was not seen before, arguments first. */
    method BuildTopo(v: Value, ghost g: seq<Node>)
      requires Valid() && TopoOk() && v in nodes && g == Graph()
      modifies `topo, nodes`visited
      ensures TopoOk()
      ensures v.id < |g| && Searched() == Visit(g, v.id, old(Searched()))
      decreases v.id, 1
    {
      hide *;
      Arguments(v);
      SeenIs(v);
      if v.visited {
        return;
      }
      VisitArguments(v, g, Searched());
      Mark(v);
      BuildArgument(v.prev0, v.id, g);
      BuildArgument(v.prev1, v.id, g);
      Finish(v);
    }

    /** The same for an argument that may be missing. */
    method BuildArgument(c: Value?, ghost v: nat, ghost g: seq<Node>)
      requires Valid() && TopoOk() && (c != null ==> c in nodes && c.id < v) && g == Graph()
      modifies `topo, nodes`visited
      ensures TopoOk()
      ensures Searched() == VisitArgument(g, c, old(Searched()))
      decreases v, 0
    {
      hide Valid, TopoOk, Graph, Visit, Searched, Acyclic;
      if c != null {
        Locals(c);
        BuildTopo(c, g);
      }
    }

    method Mark(v: Value)
      requires Valid() && v in nodes
      modifies v`visited
      ensures v.visited && Searched() == Search(old(Searched().seen) + {v.id}, old(Searched().order))
    {
      v.visited := true;
      assert forall i :: 0 <= i < |nodes| && nodes[i].visited ==> nodes[i] == v || old(nodes[i].visited);
      assert nodes[v.id] == v;
    }

    method Finish(v: Value)
      requires Valid() && TopoOk() && v in nodes
      modifies `topo
      ensures TopoOk() && Searched() == Search(old(Searched().seen), old(Searched().order) + [v.id])
    {
      topo := topo + [v];
    }

    lemma SeenIs(v: Value)
      requires Valid() && v in nodes
      ensures v.id in Searched().seen <==> v.visited
      ensures v.visited ==> Searched() == Visit(Graph(), v.id, Searched())
    {
      hide Graph, TopoIds;
    }

    /** The local derivatives by the first and the second argument. */
    lemma Locals(v: Value)
      requires Valid() && v in nodes
      ensures v.id < |nodes| && nodes[v.id] == v && Graph()[v.id] == NodeOf(v)
    {
    }

    method AddGrad(v: Value, d: real)
      requires Valid() && v in nodes
      modifies v`grad
      ensures v.id < |nodes| && Grads() == old(Grads())[v.id := old(v.grad) + d]
      ensures v.grad == old(v.grad) + d
    {
      v.grad := v.grad + d;
      assert nodes[v.id] == v;
    }

    method GiveOne(v: Value, d: real, ghost g: seq<Node>)
      requires Valid() && v in nodes && g == Graph() && |g[v.id].children| == 1
      requires d == Times(g[v.id].locals[0], v.grad)
      modifies nodes`grad
      ensures Grads() == Push(g, v.id, 1, old(Grads()))
    {
      hide *;
      Locals(v);
      Arguments(v);
      PushIs(g, v.id, Grads());
      AddGrad(v.prev0, d);
    }

    method GiveTwo(v: Value, d: real, e: real, ghost g: seq<Node>)
      requires Valid() && v in nodes && g == Graph() && |g[v.id].children| == 2
      requires d == Times(g[v.id].locals[0], v.grad) && e == Times(g[v.id].locals[1], v.grad)
      modifies nodes`grad
      ensures Grads() == Push(g, v.id, 2, old(Grads()))
    {
      hide *;
      Locals(v);
      Arguments(v);
      PushIs(g, v.id, Grads());
      AddGrad(v.prev0, d);
      AddGrad(v.prev1, e);
    }

    /** Hands the gradient of a value on to its arguments. */
    method Propagate(v: Value, ghost g: seq<Node>)
      requires Valid() && v in nodes && g == Graph()
      modifies nodes`grad
      ensures v.id < |nodes| && Grads() == Push(g, v.id, |g[v.id].children|, old(Grads()))
    {
      hide Valid, Graph, Times, Acyclic, Grads;
      Locals(v);
      Arguments(v);
      Zero(v.grad);
      match v.op {
        case OpConst =>
        case OpAdd =>
          GiveTwo(v, v.grad, v.grad, g);
        case OpMul =>
          if v.prev0 != null && v.prev1 != null {
            GiveTwo(v, Times(v.prev1.data, v.grad), Times(v.prev0.data, v.grad), g);
          } else if v.prev0 != null {
            GiveOne(v, Times(v.aux, v.grad), g);
          }
        case OpPow =>
          GiveOne(v, Times(Times(v.aux, maths.pow(v.prev0.data, v.aux - 1.0)), v.grad), g);
        case OpLog =>
          GiveOne(v, Times(maths.inverse(v.prev0.data), v.grad), g);
        case OpExp =>
          GiveOne(v, Times(v.data, v.grad), g);
        case OpRelu =>
          GiveOne(v, Times(if v.data > 0.0 then 1.0 else 0.0, v.grad), g);
      }
    }

    /** Clears the flags that parameters kept from an earlier pass, and the list. */
    method Reset()
      requires Valid() && ParamsOk() && forall v :: v in nodes && v.visited ==> v in params
      modifies `topo, nodes`visited
      ensures TopoOk() && Searched() == Search({}, [])
    {
      topo := [];
      for i := 0 to |params|
        invariant Valid() && topo == []
        invariant forall v :: v in nodes && v.visited ==> v in params[i..]
      {
        assert params[i] in params;
        params[i].visited := false;
      }
    }

    method SetGrad(v: Value, d: real)
      requires Valid() && v in nodes
      modifies v`grad
      ensures v.id < |nodes| && Grads() == old(Grads())[v.id := d]
    {
      v.grad := d;
      assert nodes[v.id] == v;
    }

    /** The gradient that starts the sweep. */
    method Seed(root: Value, ghost t: seq<nat>)
      requires Valid() && root in nodes && t == Topo(Graph(), root.id)
      requires forall y :: 0 <= y < |nodes| && y != root.id && Reaches(Graph(), root.id, y) ==> nodes[y].grad == 0.0
      modifies root`grad
      ensures Order(Graph(), t) && Seeded(t, Grads())
      ensures Grads() == old(Grads())[root.id := 1.0]
    {
      hide Visit, Reaches, D, Graph, Valid, Acyclic, NodeOf, Order;
      Locals(root);
      TopoIs(Graph(), root.id);
      SetGrad(root, 1.0);
      assert forall i :: 0 <= i < |t| ==> Reaches(Graph(), root.id, t[i]);
    }

    /** The loop of the backward pass, from the end of the list to its start. */
    method SweepDown(ghost t: seq<nat>)
      requires Valid() && TopoOk() && t == TopoIds(|topo|) && Order(Graph(), t)
      modifies nodes`grad
      ensures Grads() == Sweep(Graph(), t, 0, old(Grads()))
    {
      hide Valid, Graph, Grads, Order, Acyclic, Push, Times;
      ghost var g := Graph();
      var i := |topo|;
      while i > 0
        invariant 0 <= i <= |topo| == |t| && Valid() && Graph() == g
        invariant Grads() == Sweep(g, t, i, old(Grads()))
      {
        i := i - 1;
        Propagate(topo[i], g);
      }
    }

    /** The sweep over the list of what `root` depends on. */
    method SweepFrom(root: Value)
      requires Valid() && TopoOk() && root in nodes && TopoIds(|topo|) == Topo(Graph(), root.id)
      requires forall y :: 0 <= y < |nodes| && y != root.id && Reaches(Graph(), root.id, y) ==> nodes[y].grad == 0.0
      modifies nodes`grad
      ensures forall y :: 0 <= y < |nodes| ==>
        Grads()[y] == if Reaches(Graph(), root.id, y) then D(Graph(), root.id, y) else old(Grads()[y])
    {
      hide Visit, Topo, Reaches, D, Push, Valid, Graph, Grads, Order, Seeded, Acyclic, Sweep, TopoIds, TopoOk;
      ghost var g, before, t := Graph(), Grads(), TopoIds(|topo|);
      Locals(root);
      Seed(root, t);
      ghost var start := Grads();
      SweepDown(t);
      SweepMeans(g, root.id, before, start);
    }

    /** Empties the arena for the next step; only the weights stay, numbered anew. */
    method ZeroTape()
      requires Valid() && ParamsOk()
      modifies `nodes, params`id
      ensures Valid() && Usable() && nodes == params
    {
      nodes := params;
      for i := 0 to |params|
        modifies params`id
        invariant forall k :: 0 <= k < i ==> params[k].id == k
      {
        params[i].id := i;
      }
    }

    /** Sets the gradients of the weights back. */
    method ZeroGrads()
      requires Valid() && Usable()
      modifies nodes`grad
      ensures Usable() && forall v :: v in nodes ==> v.grad == 0.0
    {
      for i := 0 to |params|
        invariant Valid() && ParamsOk()
        invariant forall k :: 0 <= k < i ==> params[k].grad == 0.0
        invariant Unused()
      {
        assert params[i] in params;
        params[i].grad := 0.0;
      }
    }

    /**
     * Leaves in every value that `root` depends on the derivative of `root` by it, and leaves
     * the gradients of all other values alone.
     */
    method Backward(root: Value)
      requires Valid() && ParamsOk() && root in nodes
      requires forall v :: v in nodes && v.visited ==> v in params
      requires forall y :: 0 <= y < |nodes| && y != root.id && Reaches(Graph(), root.id, y) ==> nodes[y].grad == 0.0
      modifies `topo, nodes`visited, nodes`grad
      ensures forall y :: 0 <= y < |nodes| ==>
        nodes[y].grad == if Reaches(Graph(), root.id, y) then D(Graph(), root.id, y) else old(nodes[y].grad)
    {
      hide Visit, Reaches, D, Valid, Graph, Acyclic, TopoOk, TopoIds, ParamsOk;
      Locals(root);
      Reset();
      BuildTopo(root, Graph());
      SweepFrom(root);
      assert forall y :: 0 <= y < |nodes| ==> Grads()[y] == nodes[y].grad;
    }

    /**
     * The pass of one training step: every value and every weight is left with its derivative.
     * Clearing the tape after it makes the next pass possible.
     */
    method Pass(root: Value)
      requires Valid() && Usable() && root in nodes
      modifies `topo, nodes`visited, nodes`grad
      ensures Valid() && ParamsOk() && Graph() == old(Graph())
      ensures forall y :: 0 <= y < |nodes| ==> nodes[y].grad == D(Graph(), root.id, y)
    {
      hide Visit, Reaches, D, Valid, Graph, Acyclic;
      Locals(root);
      ZeroGrads();
      Backward(root);
      forall y: nat | y < |nodes| ensures nodes[y].grad == D(Graph(), root.id, y) {
        if !Reaches(Graph(), root.id, y) {
          NoEffect(Graph(), root.id, y);
        }
      }
    }

    /** One step on the square of a weight. */
    method SquareStep(w: Value)
      requires Valid() && ParamsOk() && w in params
      modifies `nodes, `topo, params`id, params`visited, params`grad
      ensures Valid() && ParamsOk() && w in nodes && w.grad == w.data + w.data
    {
      hide D, Times, Valid, Graph, Acyclic, Usable;
      ZeroTape();
      Locals(w);
      var v := Mul(w, w);
      Pass(v);
      DSelf(Graph(), w.id);
      Zero(w.data);
    }

    /** Two steps: the second finds the derivative again, not its double. */
    method SquareTwice(w: Value)
      requires Valid() && ParamsOk() && w in params
      modifies `nodes, `topo, params`id, params`visited, params`grad
      ensures w.grad == w.data + w.data
    {
      SquareStep(w);
      SquareStep(w);
    }
  }
}
