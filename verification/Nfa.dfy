/** The NFA compiler and simulator as written: states patched in place, generation marks, two lists. */
module Nfa {
  import opened RegexSyntax
  import opened Postfix
  import opened NfaGraph
  import opened Fragments
  import opened Simulation
  import opened StateOrder

  /** A list of states in a buffer of fixed size. */
  class List {
    const s: array<State>
    var n: nat

    ghost predicate Valid()
      reads this
    {
      n <= s.Length
    }

    ghost function Contents(): seq<State>
      reads this, s
      requires Valid()
    {
      s[..n]
    }

    constructor (size: nat, filler: State)
      ensures Valid() && n == 0 && s.Length == size && fresh(s)
    {
      s := new State[size](_ => filler);
      n := 0;
    }

    /** `l->s[l->n++] = x` */
    method Put(x: State)
      requires Valid() && n < s.Length
      modifies this`n, s
      ensures Valid() && Contents() == old(Contents()) + [x]
    {
      s[n] := x;
      n := n + 1;
    }
  }

  /** `malloc(i)` is the address the allocator returns for the i-th state; no two are equal. */
  ghost predicate Injective(malloc: nat -> int) {
    forall i, j :: malloc(i) == malloc(j) ==> i == j
  }

  /** The globals of the program. */
  class Nfa {
    const malloc: nat -> int
    const matchstate: State
    var nstate: nat
    var listid: nat
    ghost var all: set<State>  // the allocated states and the matching state

    ghost function Graph(): Graph
      reads `all, all
    {
      Snapshot(all)
    }

    ghost predicate Valid()
      reads this, all
    {
      && matchstate in all && matchstate.c == MATCH
      && |all| == nstate + 1
      && (forall s :: s in all && s.c == MATCH ==> s == matchstate)
      && (forall s :: s in all ==> s.lastlist <= listid)
      && Addressed()
    }

    /** No two states share an address, and later ones will get yet others. */
    ghost predicate Addressed()
      reads this, all
    {
      && Injective(malloc)
      && (forall s, t :: s in all && t in all && s.addr == t.addr ==> s == t)
      && (forall s, i: nat :: s in all && i > nstate ==> malloc(i) != s.addr)
    }

    constructor (malloc: nat -> int)
      requires Injective(malloc)
      ensures Valid() && all == {matchstate} && Complete(Graph()) && this.malloc == malloc && fresh(matchstate)
    {
      this.malloc := malloc;
      matchstate := new State(MATCH, malloc(0), Null, Null);
      nstate, listid, all := 0, 0, {matchstate};
    }

    /** Allocates a state. */
    method NewState(c: int, out: Word, out1: Word) returns (s: State)
      requires Valid() && c != MATCH
      modifies this`nstate, this`all
      ensures Valid() && fresh(s) && all == old(all) + {s}
      ensures s.c == c && Graph() == old(Graph())[s := Node(c, out, out1)] && Adds(old(Graph()), Graph(), s)
    {
      nstate := nstate + 1;
      s := new State(c, malloc(nstate), out, out1);
      all := all + {s};
      assert Addressed() by {
        forall t, u | t in all && u in all && t.addr == u.addr
          ensures t == u
        {
          assert old(nstate) < nstate;
        }
      }
    }

    /** The word in a slot. */
    function Load(x: Slot): (w: Word)
      requires x.owner in all
      reads `all, all
      ensures w == Content(Graph(), x)
    {
      if x.second then x.owner.out1 else x.owner.out
    }

    method Store(x: Slot, w: Word)
      requires x.owner in all
      modifies x.owner`out, x.owner`out1
      ensures Stored(old(Graph()), Graph(), x, w)
    {
      if x.second {
        x.owner.out1 := w;
      } else {
        x.owner.out := w;
      }
    }

    /** Points every slot of the list at `l` to `s`. */
    method Patch(l: Word, s: State, ghost d: seq<Slot>)
      requires Valid() && IsChain(Graph(), l, d) && Distinct(d)
      modifies all`out, all`out1
      ensures Valid() && Rewrites(old(Graph()), Graph(), d, s)
    {
      ghost var g := Graph();
      ghost var i := 0;
      var rest := l;
      while rest != Null
        invariant 0 <= i <= |d| && rest == (if i < |d| then ToSlot(d[i]) else Null)
        invariant Valid() && Rewrites(g, Graph(), d[..i], s)
        decreases |d| - i
      {
        ghost var g1 := Graph();
        var slot := rest.slot;
        var next := Load(slot);
        Store(slot, ToState(s));
        RewriteOneMore(g, g1, Graph(), d, i, s);
        assert Content(g, d[i]) == Link(d, i);
        rest := next;
        i := i + 1;
      }
      assert d[..i] == d;
    }

    /** Joins two lists by walking to the end of the first. */
    method Append(l1: Word, l2: Word, ghost d1: seq<Slot>) returns (l: Word)
      requires Valid() && IsChain(Graph(), l1, d1) && Distinct(d1)
      modifies all`out, all`out1
      ensures Valid() && l == l1 && Links(old(Graph()), Graph(), d1, l2)
    {
      ghost var i := 0;
      var last := l1.slot;
      while Load(last) != Null
        invariant 0 <= i < |d1| && last == d1[i]
        decreases |d1| - i
      {
        assert Content(Graph(), d1[i]) == Link(d1, i);
        last := Load(last).slot;
        i := i + 1;
      }
      assert Content(Graph(), d1[i]) == Link(d1, i);
      Store(last, l2);
      l := l1;
    }

    /** '|': a split leading to both fragments; their lists are joined. */
    method Alternation(e1: Frag, e2: Frag, ghost d: seq<Slot>) returns (f: Frag, ghost g1: Graph)
      requires Valid() && e1.start != null && e2.start != null && IsChain(Graph(), e1.out, d) && Distinct(d)
      modifies this`nstate, this`all, all`out, all`out1
      ensures Valid() && fresh(all - old(all))
      ensures f.start != null && f.out == e1.out
      ensures Adds(old(Graph()), g1, f.start) && g1[f.start] == Node(SPLIT, ToState(e1.start), ToState(e2.start))
      ensures Links(g1, Graph(), d, e2.out)
    {
      ghost var g := Graph();
      var s := NewState(SPLIT, ToState(e1.start), ToState(e2.start));
      g1 := Graph();
      ChainKept(g, g1, s, e1.out, d);
      var l := Append(e1.out, e2.out, d);
      f := Frag(s, l);
    }

    /** '?': a split in front of the fragment; its second arrow joins the list. */
    method Option(e: Frag, ghost d: seq<Slot>) returns (f: Frag, ghost g1: Graph)
      requires Valid() && e.start != null && IsChain(Graph(), e.out, d) && Distinct(d)
      modifies this`nstate, this`all, all`out, all`out1
      ensures Valid() && fresh(all - old(all))
      ensures f.start != null && f.out == e.out
      ensures Adds(old(Graph()), g1, f.start) && g1[f.start] == Node(SPLIT, ToState(e.start), Null)
      ensures Links(g1, Graph(), d, ToSlot(Slot(f.start, true)))
    {
      ghost var g := Graph();
      var s := NewState(SPLIT, ToState(e.start), Null);
      g1 := Graph();
      ChainKept(g, g1, s, e.out, d);
      var l := Append(e.out, ToSlot(Slot(s, true)), d);
      f := Frag(s, l);
    }

    /** '*' and '+': a split to which the fragment loops back. */
    method Repetition(e: Frag, plus: bool, ghost d: seq<Slot>) returns (f: Frag, ghost s: State, ghost g1: Graph)
      requires Valid() && e.start != null && IsChain(Graph(), e.out, d) && Distinct(d)
      modifies this`nstate, this`all, all`out, all`out1
      ensures Valid() && fresh(all - old(all))
      ensures f == Frag(if plus then e.start else s, ToSlot(Slot(s, true)))
      ensures Adds(old(Graph()), g1, s) && g1[s] == Node(SPLIT, ToState(e.start), Null)
      ensures Rewrites(g1, Graph(), d, s)
    {
      ghost var g := Graph();
      var t := NewState(SPLIT, ToState(e.start), Null);
      s, g1 := t, Graph();
      ChainKept(g, g1, s, e.out, d);
      Patch(e.out, t, d);
      f := Frag(if plus then e.start else t, ToSlot(Slot(t, true)));
    }

    /** The switch of the compiler: pops the operands off `fs`, and makes the fragment to push. */
    method Switch(b: Byte, fs: seq<Frag>, ghost es: seq<Entry>) returns (f: Frag, ghost e: Entry)
      requires Valid() && StackOk(Graph(), fs, es) && |fs| == |es| >= Arity(b)
      modifies this`nstate, this`all, all`out, all`out1
      ensures Valid() && fresh(all - old(all))
      ensures StackOk(Graph(), fs[..|fs| - Arity(b)] + [f], es[..|fs| - Arity(b)] + [e])
      ensures Res(es)[..|fs| - Arity(b)] + [e.r] == EvalOne(Res(es), b)
    {
      hide Valid, StackOk, EvalOne, Res, Rewrites, Links, Apart, Covered;
      ghost var g := Graph();
      var n := |fs| - Arity(b);
      if Arity(b) > 0 {
        TopApart(g, fs, es, n);
      }
      if b == '.' {
        var e2, e1 := fs[n + 1], fs[n];
        Patch(e1.out, e2.start, es[n].d);
        f, e := Frag(e1.start, e2.out), Entry(Cat(es[n].r, es[n + 1].r), es[n + 1].d);
        Catenate(g, Graph(), fs, es, n);
      } else if b == '|' {
        ghost var g1;
        f, g1 := Alternation(fs[n], fs[n + 1], es[n].d);
        e := Entry(Alt(es[n].r, es[n + 1].r), es[n].d + es[n + 1].d);
        Alternate(g, g1, Graph(), fs, es, n, f.start);
      } else if b == '?' {
        ghost var g1;
        f, g1 := Option(fs[n], es[n].d);
        e := Entry(Opt(es[n].r), es[n].d + [Slot(f.start, true)]);
        ZeroOrOne(g, g1, Graph(), fs, es, n, f.start);
      } else if b == '*' || b == '+' {
        ghost var s, g1;
        f, s, g1 := Repetition(fs[n], b == '+', es[n].d);
        e := Entry(if b == '+' then Plus(es[n].r) else Star(es[n].r), [Slot(s, true)]);
        Loop(g, g1, Graph(), fs, es, n, s, b == '+');
      } else {
        var s := NewState(SignExtend(b), Null, Null);
        f, e := Frag(s, ToSlot(Slot(s, false))), Entry(Lit(b), [Slot(s, false)]);
        PushLiteral(g, Graph(), fs, es, s, b);
        assert fs[..n] == fs && es[..n] == es;
      }
      ResOne(es, b, e.r);
    }

    /** One character: the operands on top of the stack make way for the result. */
    method Advance(b: Byte, stack: array<Frag>, sp: nat, ghost fs: seq<Frag>, ghost es: seq<Entry>)
      returns (sp': nat, ghost fs': seq<Frag>, ghost es': seq<Entry>)
      requires Valid() && sp <= stack.Length && fs == stack[..sp] && StackOk(Graph(), fs, es)
      requires Arity(b) <= sp && sp - Arity(b) < stack.Length
      modifies this`nstate, this`all, all`out, all`out1, stack
      ensures Valid() && fresh(all - old(all))
      ensures StackOk(Graph(), fs', es') && Res(es') == EvalOne(Res(es), b)
      ensures sp' == sp - Arity(b) + 1 && fs' == stack[..sp']
    {
      var n := sp - Arity(b);
      var f;
      ghost var e;
      f, e := Switch(b, stack[..sp], es);
      ghost var g := Graph();
      fs', es' := fs[..n] + [f], es[..n] + [e];
      ResAfter(es, n, e);
      stack[n] := f;
      sp' := n + 1;
      assert Graph() == g;
    }

    /** Builds the graph of a postfix expression.  The stack never under- or overflows on a safe
        string; NULL is returned exactly if more than one fragment is left at the end. */
    method Post2Nfa(postfix: CString) returns (start: State?)
      requires Valid() && Complete(Graph()) && StackSafe(postfix)
      modifies this`nstate, this`all, all`out, all`out1
      ensures Valid() && fresh(all - old(all))
      ensures start == null <==> |Eval(postfix)| != 1
      ensures start != null ==> start in all && nstate >= 1 && Complete(Graph())
      ensures start != null ==> Compiled(Graph(), Eval(postfix)[0], start, matchstate)
    {
      var stack := new Frag[STACK_SIZE](_ => Frag(null, Null));
      var stackp := 0;
      ghost var fs: seq<Frag>, es: seq<Entry> := [], [];
      var i := 0;
      StackEmpty(Graph());
      while i < |postfix|
        invariant 0 <= i <= |postfix| && 0 <= stackp <= STACK_SIZE
        invariant Valid() && fresh(all - old(all))
        invariant fs == stack[..stackp] && StackOk(Graph(), fs, es) && Res(es) == Eval(postfix[..i])
      {
        SafeNext(postfix, i);
        stackp, fs, es := Advance(postfix[i], stack, stackp, fs, es);
        i := i + 1;
      }
      assert postfix[..i] == postfix;
      stackp := stackp - 1;
      var e := stack[stackp];
      if stackp != 0 {
        return null;
      }
      CloseGraph(e, fs, es);
      return e.start;
    }

    /** Patches the one remaining fragment to the matching state. */
    method CloseGraph(e: Frag, ghost fs: seq<Frag>, ghost es: seq<Entry>)
      requires Valid() && StackOk(Graph(), fs, es) && fs == [e]
      modifies all`out, all`out1
      ensures Valid()
      ensures e.start != null && e.start in all && nstate >= 1 && Complete(Graph())
      ensures Compiled(Graph(), es[0].r, e.start, matchstate)
    {
      assert |es| == 1;
      hide StackOk, Rewrites, Compiled, Apart;
      ghost var g := Graph();
      TopApart(g, fs, es, 0);
      Patch(e.out, matchstate, es[0].d);
      Finished(g, Graph(), fs, es, matchstate);
      NotMatch(Graph(), es[0].r, e.start, matchstate);
      SubsetCount({matchstate, e.start}, all);
    }

    // -------------------------------------------------------------- Simulation

    /** The states already visited for the list under construction. */
    ghost function Marked(): set<State>
      reads `all, `listid, all
    {
      set s | s in all && s.lastlist == listid
    }

    /** `l` holds, once each, the labeled states visited so far, and has room for those to come. */
    ghost predicate Listed(l: List)
      reads this, all, l, l.s
    {
      l.Valid() && l.s.Length == nstate >= 1 && ListOf(Graph(), Marked(), l.Contents())
    }

    lemma MarkedIs(s: State?)
      requires s != null ==> s in all
      ensures Marked() <= all
      ensures s != null ==> (s in Marked() <==> s.lastlist == listid)
    {
    }

    /** Marks `s` as visited. */
    method Mark(s: State)
      requires Valid() && s in all
      modifies s`lastlist
      ensures Valid() && Graph() == old(Graph()) && Marked() == old(Marked()) + {s}
    {
      s.lastlist := listid;
    }

    /** Adds `s` to `l`, following unlabeled arrows. */
    method AddState(l: List, s: State?)
      requires Valid() && Complete(Graph()) && Listed(l) && (s != null ==> s in all)
      requires l.n == 0 || HasSplit(Graph())
      modifies l`n, l.s, all`lastlist
      ensures Valid() && Graph() == old(Graph()) && Listed(l)
      ensures Explored(Graph(), s, old(Marked()), Marked())
      ensures Visited(Marked(), l.Contents()) == Follow(Graph(), s, old(Visited(Marked(), l.Contents())))
      decreases all - Marked(), 0
    {
      hide Valid, Explored, ListOf, Follow, Marked, Complete;
      ghost var g, before, was := Graph(), Marked(), l.Contents();
      FollowIs(g, s, Visited(before, was));
      MarkedIs(s);
      if s == null || s.lastlist == listid {
        ExploredNone(g, s, before);
        return;
      }
      assert g.Keys == all && g[s] == Node(s.c, s.out, s.out1);
      Mark(s);
      if s.c == SPLIT {
        ListUnchanged(g, before, was, s);
        AddArrows(l, s, before);
        return;
      }
      ExploredLeaf(g, s, before);
      ListOneMore(g, before, was, s);
      l.Put(s);
    }

    /** Follows both arrows of a split that has just been marked. */
    method AddArrows(l: List, s: State, ghost before: set<State>)
      requires Valid() && Complete(Graph()) && Listed(l) && s in all && s.c == SPLIT
      requires Marked() == before + {s} && before <= all
      requires l.n == 0 || HasSplit(Graph())
      modifies l`n, l.s, all`lastlist
      ensures Valid() && Graph() == old(Graph()) && Listed(l)
      ensures Explored(Graph(), s, before, Marked())
      ensures Visited(Marked(), l.Contents())
           == Follow(Graph(), Target(s.out1), Follow(Graph(), Target(s.out), old(Visited(Marked(), l.Contents()))))
      decreases all - Marked(), 1
    {
      hide Valid, ListOf, Follow, Marked;
      ghost var g := Graph();
      assert g.Keys == all && g[s] == Node(s.c, s.out, s.out1);
      AddState(l, Target(s.out));
      ghost var mid := Marked();
      AddState(l, Target(s.out1));
      ExploredSplit(g, s, before, mid, Marked());
    }

    /** A finished list: `l` holds the states of `cur`, once each. */
    ghost predicate Holds(l: List, cur: set<State>)
      reads this, l, l.s
    {
      l.Valid() && l.s.Length == nstate >= 1 && NoRepeats(l.Contents()) && Elements(l.Contents()) == cur
    }

    /** Starts a new list: the generation changes, so nothing is marked. */
    method NewList(l: List)
      requires Valid() && l.s.Length == nstate >= 1
      modifies l`n, this`listid
      ensures Valid() && Listed(l) && l.n == 0 && Marked() == {} && Graph() == old(Graph())
    {
      listid := listid + 1;
      l.n := 0;
      assert Marked() == {};
      assert l.Contents() == [];
    }

    /** Computes the initial state list. */
    method StartList(start: State, l: List)
      requires Valid() && Complete(Graph()) && start in all && l.s.Length == nstate >= 1
      modifies l`n, l.s, this`listid, all`lastlist
      ensures Valid() && Graph() == old(Graph()) && Holds(l, Sim(Graph(), start, []))
      ensures l.Contents() == StartOrder(Graph(), start)
    {
      NewList(l);
      ghost var g := Graph();
      AddState(l, start);
      ExploredMore(g, {}, start, {}, Marked());
      assert {} + {start} == {start};
      MarkedIsClosure(g, {start}, Marked());
    }

    /** The list under construction after the first `i` states of `clist`. */
    ghost predicate Stepped(clist: seq<State>, c: int, i: nat, nlist: List)
      requires i <= |clist|
      reads this, all, nlist, nlist.s
    {
      var from := Targets(Graph(), Elements(clist[..i]), c);
      && Listed(nlist) && from <= Marked()
      && ClosedUnderSplits(Graph(), Marked()) && ReachedFrom(Graph(), from, Marked())
      && Visited(Marked(), nlist.Contents()) == FollowAll(Graph(), clist, c, i)
    }

    /** What state `i` of `clist` adds. */
    method StepOne(clist: seq<State>, c: int, i: nat, nlist: List)
      requires Valid() && Complete(Graph()) && Elements(clist) <= all && i < |clist|
      requires 0 < c < 256 && (HasSplit(Graph()) || nlist.n == 0) && Stepped(clist, c, i, nlist)
      modifies nlist`n, nlist.s, all`lastlist
      ensures Valid() && Graph() == old(Graph()) && Stepped(clist, c, i + 1, nlist)
    {
      hide Listed, HasSplit, ClosedUnderSplits, ReachedFrom, Targets;
      ghost var g, from := Graph(), Targets(Graph(), Elements(clist[..i]), c);
      var s := clist[i];
      assert s in Elements(clist) && g[s] == Node(s.c, s.out, s.out1);
      TargetsSnoc(g, clist, i, c);
      if s.c == c {
        ghost var before := Marked();
        AddState(nlist, Target(s.out));
        ExploredMore(g, from, g[s].out.s, before, Marked());
      } else {
        assert from + {} == from;
      }
    }

    /** A new list has seen no state of `clist`. */
    lemma SteppedNone(clist: seq<State>, c: int, nlist: List)
      requires Listed(nlist) && nlist.n == 0 && Marked() == {}
      ensures Stepped(clist, c, 0, nlist)
    {
      hide Listed;
      assert Elements(clist[..0]) == {};
      assert nlist.Contents() == [];
    }

    /** A list that has seen every state of `clist` is finished. */
    lemma SteppedAll(clist: seq<State>, c: int, nlist: List)
      requires Valid() && Complete(Graph()) && Elements(clist) <= all && 0 < c < 256
      requires Stepped(clist, c, |clist|, nlist)
      ensures Holds(nlist, StepSet(Graph(), Elements(clist), c))
      ensures nlist.Contents() == StepOrder(Graph(), clist, c)
    {
      hide Complete;
      assert clist[..|clist|] == clist;
      MarkedIsClosure(Graph(), Targets(Graph(), Elements(clist), c), Marked());
    }

    /** Steps from the states of `clist` past the character `c`. */
    method Step(clist: seq<State>, c: int, nlist: List)
      requires Valid() && Complete(Graph()) && Elements(clist) <= all && nlist.s.Length == nstate >= 1
      requires 0 < c < 256 && (HasSplit(Graph()) || |clist| <= 1)
      modifies nlist`n, nlist.s, this`listid, all`lastlist
      ensures Valid() && Graph() == old(Graph()) && Holds(nlist, StepSet(Graph(), Elements(clist), c))
      ensures nlist.Contents() == StepOrder(Graph(), clist, c)
    {
      hide Valid, Complete, Listed, Stepped, Holds, HasSplit, StepSet, StepOrder, Marked;
      NewList(nlist);
      SteppedNone(clist, c, nlist);
      ghost var g := Graph();
      for i := 0 to |clist|
        invariant Valid() && Graph() == g && nlist.s.Length == nstate >= 1
        invariant (i == 0 ==> nlist.n == 0) && Stepped(clist, c, i, nlist)
      {
        StepOne(clist, c, i, nlist);
      }
      SteppedAll(clist, c, nlist);
    }

    /** Whether a list contains the matching state. */
    method IsMatch(l: seq<State>) returns (r: bool)
      ensures r == (matchstate in l)
    {
      for i := 0 to |l|
        invariant matchstate !in l[..i]
      {
        if l[i] == matchstate {
          return true;
        }
      }
      return false;
    }

    /** Runs the simulation over `w`, swapping the two lists after each character. */
    method Match(start: State, w: CString, l1: List, l2: List) returns (r: bool)
      requires Valid() && Complete(Graph()) && start in all
      requires l1 != l2 && l1.s != l2.s && l1.s.Length == l2.s.Length == nstate >= 1
      modifies l1`n, l1.s, l2`n, l2.s, this`listid, all`lastlist
      ensures Valid() && Graph() == old(Graph())
      ensures r <==> Accepts(Graph(), start, w)
    {
      ghost var g := Graph();
      StartList(start, l1);
      var clist, nlist := l1, l2;
      for i := 0 to |w|
        invariant Valid() && Graph() == g
        invariant (clist == l1 && nlist == l2) || (clist == l2 && nlist == l1)
        invariant Holds(clist, Sim(g, start, w[..i]))
      {
        NoSplitList(g, start, w[..i], clist.Contents());
        SimInGraph(g, start, w[..i]);
        SimNext(g, start, w, i);
        Step(clist.s[..clist.n], w[i] as int, nlist);
        clist, nlist := nlist, clist;
      }
      assert w[..|w|] == w;
      r := IsMatch(clist.s[..clist.n]);
      SimDecides(g, start, matchstate, w);
    }

    /** Matches one string after another. */
    method MatchAll(start: State, args: seq<CString>, l1: List, l2: List) returns (out: seq<bool>)
      requires Valid() && Complete(Graph()) && start in all
      requires l1 != l2 && l1.s != l2.s && l1.s.Length == l2.s.Length == nstate >= 1
      modifies l1`n, l1.s, l2`n, l2.s, this`listid, all`lastlist
      ensures Valid() && Graph() == old(Graph())
      ensures Decided(Graph(), start, args, out)
    {
      ghost var g := Graph();
      out := [];
      for i := 0 to |args|
        invariant Valid() && Graph() == g
        invariant Decided(g, start, args[..i], out)
      {
        var b := Match(start, args[i], l1, l2);
        DecidedSnoc(g, start, args, i, out, b);
        out := out + [b];
      }
      assert args[..|args|] == args;
    }
  }
}
