/** The compiler's stack of fragments: what it means at every moment, and what each postfix operator keeps. */
module Fragments {
  import opened RegexSyntax
  import opened Postfix
  import opened NfaGraph

  /** A partly built automaton: its start, and the first of its dangling slots. */
  datatype Frag = Frag(start: State?, out: Word)

  /** What a fragment stands for: its expression, and all its dangling slots in list order. */
  datatype Entry = Entry(r: Re, d: seq<Slot>)

  /** What slot `i` of a list holds: the way to the next slot. */
  function Link(d: seq<Slot>, i: nat): Word
    requires i < |d|
  {
    if i + 1 < |d| then ToSlot(d[i + 1]) else Null
  }

  /** `l` is a list threaded through the slots of `d`. */
  ghost predicate IsChain(g: Graph, l: Word, d: seq<Slot>) {
    && d != [] && l == ToSlot(d[0])
    && (forall i :: 0 <= i < |d| ==> d[i].owner in g)
    && (forall i {:trigger Link(d, i)} :: 0 <= i < |d| ==> Content(g, d[i]) == Link(d, i))
  }

  ghost predicate Distinct(d: seq<Slot>) {
    forall i, j :: 0 <= i < j < |d| ==> d[i] != d[j]
  }

  ghost predicate Apart(d: seq<Slot>, e: seq<Slot>) {
    forall x :: x in d ==> x !in e
  }

  ghost predicate EntryOk(g: Graph, f: Frag, e: Entry) {
    f.start != null && Built(g, e.r, f.start, e.d) && IsChain(g, f.out, e.d) && Distinct(e.d)
  }

  /** A slot the finished automaton will follow, but which does not point to a state yet. */
  ghost predicate Loose(g: Graph, x: Slot) {
    && x.owner in g && g[x.owner].c != MATCH
    && (x.second ==> g[x.owner].c == SPLIT)
    && !Content(g, x).ToState?
  }

  ghost predicate TargetsIn(g: Graph) {
    forall s {:trigger g[s]} :: s in g ==>
      && (g[s].out.ToState? ==> g[s].out.s in g)
      && (g[s].out1.ToState? ==> g[s].out1.s in g)
  }

  /** Every arrow the simulation follows points to a state. */
  ghost predicate Complete(g: Graph) {
    && TargetsIn(g)
    && forall s :: s in g && g[s].c != MATCH ==> g[s].out.ToState? && (g[s].c == SPLIT ==> g[s].out1.ToState?)
  }

  ghost predicate Covered(x: Slot, es: seq<Entry>) {
    exists i :: 0 <= i < |es| && x in es[i].d
  }

  /** The stack: fragments are well formed, share no dangling slot, and account for all loose ones. */
  ghost predicate StackOk(g: Graph, fs: seq<Frag>, es: seq<Entry>) {
    && |fs| == |es|
    && TargetsIn(g)
    && (forall i :: 0 <= i < |es| ==> EntryOk(g, fs[i], es[i]))
    && (forall i, j :: 0 <= i < j < |es| ==> Apart(es[i].d, es[j].d))
    && (forall s, b :: s in g && Loose(g, Slot(s, b)) ==> Covered(Slot(s, b), es))
  }

  function Res(es: seq<Entry>): seq<Re> {
    seq(|es|, i requires 0 <= i < |es| => es[i].r)
  }

  lemma StackEmpty(g: Graph)
    requires Complete(g)
    ensures StackOk(g, [], [])
  {
  }

  /** What one character leaves of the expressions on the stack. */
  lemma ResOne(es: seq<Entry>, b: Byte, r: Re)
    requires |es| >= Arity(b)
    requires var n := |es| - Arity(b);
             r == if b == '.' then Cat(es[n].r, es[n + 1].r)
                  else if b == '|' then Alt(es[n].r, es[n + 1].r)
                  else if b == '?' then Opt(es[n].r)
                  else if b == '*' then Star(es[n].r)
                  else if b == '+' then Plus(es[n].r)
                  else Lit(b)
    ensures Res(es)[..|es| - Arity(b)] + [r] == EvalOne(Res(es), b)
  {
  }

  lemma ResAfter(es: seq<Entry>, n: nat, e: Entry)
    requires n <= |es|
    ensures Res(es[..n] + [e]) == Res(es)[..n] + [e.r]
  {
  }

  /** `h` is `g` with every slot of `d` pointing to `k`. */
  ghost predicate Rewrites(g: Graph, h: Graph, d: seq<Slot>, k: State) {
    && h.Keys == g.Keys
    && (forall s :: s in g ==> h[s].c == g[s].c)
    && (forall s, b :: s in g ==>
          Content(h, Slot(s, b)) == if Slot(s, b) in d then ToState(k) else Content(g, Slot(s, b)))
  }

  /** `h` is `g` with slot `x` holding `w`. */
  ghost predicate Stored(g: Graph, h: Graph, x: Slot, w: Word) {
    && h.Keys == g.Keys
    && (forall s :: s in g ==> h[s].c == g[s].c)
    && (forall s, b :: s in g ==> Content(h, Slot(s, b)) == if Slot(s, b) == x then w else Content(g, Slot(s, b)))
  }

  /** `h` is `g` with the last slot of `d` linked to `l`. */
  ghost predicate Links(g: Graph, h: Graph, d: seq<Slot>, l: Word) {
    d != [] && Stored(g, h, d[|d| - 1], l)
  }

  /** Patching a list slot by slot. */
  lemma RewriteOneMore(g: Graph, g1: Graph, h: Graph, d: seq<Slot>, i: nat, k: State)
    requires i < |d| && Distinct(d) && d[i].owner in g
    requires Rewrites(g, g1, d[..i], k) && Stored(g1, h, d[i], ToState(k))
    ensures Content(g1, d[i]) == Content(g, d[i])
    ensures Rewrites(g, h, d[..i + 1], k)
  {
    assert d[i] == Slot(d[i].owner, d[i].second);
    assert d[..i + 1] == d[..i] + [d[i]];
  }

  lemma ContentsDecide(g: Graph, h: Graph, s: State)
    requires s in g && s in h
    ensures g[s].out == Content(g, Slot(s, false)) && h[s].out == Content(h, Slot(s, false))
    ensures g[s].out1 == Content(g, Slot(s, true)) && h[s].out1 == Content(h, Slot(s, true))
  {
  }

  /** The slots of a list do not point to states. */
  lemma ChainDangles(g: Graph, l: Word, d: seq<Slot>, x: Slot)
    requires IsChain(g, l, d) && x in d
    ensures x.owner in g && !Content(g, x).ToState?
  {
    var i :| 0 <= i < |d| && d[i] == x;
    assert Content(g, d[i]) == Link(d, i);
  }

  lemma RewritesExtends(g: Graph, h: Graph, l: Word, d: seq<Slot>, k: State)
    requires IsChain(g, l, d) && Rewrites(g, h, d, k)
    ensures Extends(g, h) && PatchedTo(h, d, k)
  {
    forall s | s in g
      ensures g[s].out.ToState? ==> h[s].out == g[s].out
      ensures g[s].out1.ToState? ==> h[s].out1 == g[s].out1
    {
      if Slot(s, false) in d {
        ChainDangles(g, l, d, Slot(s, false));
      }
      if Slot(s, true) in d {
        ChainDangles(g, l, d, Slot(s, true));
      }
      ContentsDecide(g, h, s);
    }
  }

  lemma LinksExtends(g: Graph, h: Graph, l1: Word, d1: seq<Slot>, l2: Word)
    requires IsChain(g, l1, d1) && Links(g, h, d1, l2)
    ensures Extends(g, h)
  {
    ChainDangles(g, l1, d1, d1[|d1| - 1]);
    forall s | s in g
      ensures g[s].out.ToState? ==> h[s].out == g[s].out
      ensures g[s].out1.ToState? ==> h[s].out1 == g[s].out1
    {
      ContentsDecide(g, h, s);
    }
  }

  /** Two lists become one when the last slot of the first links to the head of the second. */
  lemma LinkedChain(g: Graph, h: Graph, l1: Word, d1: seq<Slot>, l2: Word, d2: seq<Slot>)
    requires IsChain(g, l1, d1) && IsChain(g, l2, d2) && Links(g, h, d1, l2)
    requires Distinct(d1) && Distinct(d2) && Apart(d1, d2)
    ensures IsChain(h, l1, d1 + d2) && Distinct(d1 + d2)
  {
    var d := d1 + d2;
    forall i, j | 0 <= i < j < |d|
      ensures d[i] != d[j]
    {
      if i < |d1| <= j {
        assert d1[i] in d1 && d2[j - |d1|] in d2;
      }
    }
    forall i | 0 <= i < |d|
      ensures d[i].owner in h && Content(h, d[i]) == Link(d, i)
    {
      var x := d[i];
      assert x == Slot(x.owner, x.second);
      assert i != |d1| - 1 ==> d[i] != d[|d1| - 1];
      if i < |d1| {
        assert Content(g, d1[i]) == Link(d1, i);
      } else {
        assert Content(g, d2[i - |d1|]) == Link(d2, i - |d1|);
      }
    }
  }

  /** A fragment whose slots were left alone survives a later stage. */
  lemma EntryKept(g: Graph, h: Graph, f: Frag, e: Entry)
    requires EntryOk(g, f, e) && Extends(g, h)
    requires forall i :: 0 <= i < |e.d| ==> Content(g, e.d[i]) == Content(h, e.d[i])
    ensures EntryOk(h, f, e)
  {
    BuiltExtends(g, h, e.r, f.start, e.d);
  }

  /** `h` is `g` with one new state. */
  ghost predicate Adds(g: Graph, h: Graph, s: State) {
    s !in g && s in h && h == g[s := h[s]]
  }

  // ---------------------------------------------------------------- A new state

  lemma AddedState(g: Graph, h: Graph, s: State, fs: seq<Frag>, es: seq<Entry>)
    requires StackOk(g, fs, es) && Adds(g, h, s)
    ensures Extends(g, h)
    ensures forall i :: 0 <= i < |es| ==> EntryOk(h, fs[i], es[i])
    ensures forall i :: 0 <= i < |es| ==> Slot(s, false) !in es[i].d && Slot(s, true) !in es[i].d
  {
    forall i | 0 <= i < |es|
      ensures EntryOk(h, fs[i], es[i]) && Slot(s, false) !in es[i].d && Slot(s, true) !in es[i].d
    {
      assert EntryOk(g, fs[i], es[i]);
      EntryKept(g, h, fs[i], es[i]);
    }
  }

  lemma ChainKept(g: Graph, h: Graph, s: State, l: Word, d: seq<Slot>)
    requires IsChain(g, l, d) && Adds(g, h, s)
    ensures IsChain(h, l, d) && Extends(g, h)
  {
    forall i | 0 <= i < |d|
      ensures Content(h, d[i]) == Link(d, i)
    {
      assert Content(g, d[i]) == Link(d, i);
    }
  }

  // ---------------------------------------------------------------- The operators

  /** A literal: one new state, whose arrow dangles. */
  lemma PushLiteral(g: Graph, h: Graph, fs: seq<Frag>, es: seq<Entry>, s: State, b: Byte)
    requires StackOk(g, fs, es) && Adds(g, h, s) && h[s] == Node(SignExtend(b), Null, Null)
    ensures StackOk(h, fs + [Frag(s, ToSlot(Slot(s, false)))], es + [Entry(Lit(b), [Slot(s, false)])])
  {
    AddedState(g, h, s, fs, es);
    var x := Slot(s, false);
    NewTop(g, h, fs, es, |es|, Frag(s, ToSlot(x)), Entry(Lit(b), [x]));
    assert fs[..|es|] == fs && es[..|es|] == es;
  }

  /** The dangling slots of the top one or two entries. */
  function TopSlots(es: seq<Entry>, n: nat): seq<Slot>
    requires n <= |es| <= n + 2
  {
    if n == |es| then [] else if n + 1 == |es| then es[n].d else es[n].d + es[n + 1].d
  }

  lemma ApartFromNew(g: Graph, fs: seq<Frag>, es: seq<Entry>, n: nat, e: Entry, i: nat)
    requires StackOk(g, fs, es) && i < n <= |es| <= n + 2
    requires forall x :: x in e.d && x.owner in g ==> x in TopSlots(es, n)
    ensures Apart(es[i].d, e.d)
  {
    assert EntryOk(g, fs[i], es[i]);
    if n < |es| {
      assert Apart(es[i].d, es[n].d) && Apart(es[i].d, es[|es| - 1].d);
    }
  }

  /** The top entries, from `n` on, are replaced by one that takes over their slots or brings new ones. */
  lemma NewTop(g: Graph, h: Graph, fs: seq<Frag>, es: seq<Entry>, n: nat, f: Frag, e: Entry)
    requires StackOk(g, fs, es) && n <= |es| <= n + 2 && TargetsIn(h) && EntryOk(h, f, e)
    requires forall i :: 0 <= i < n ==> EntryOk(h, fs[i], es[i])
    requires forall x :: x in e.d && x.owner in g ==> x in TopSlots(es, n)
    requires forall t, b :: t in h && Loose(h, Slot(t, b)) && Slot(t, b) !in e.d ==>
               t in g && Loose(g, Slot(t, b)) && Slot(t, b) !in TopSlots(es, n)
    ensures StackOk(h, fs[..n] + [f], es[..n] + [e])
  {
    var es' := es[..n] + [e];
    forall i | 0 <= i < n
      ensures Apart(es[i].d, e.d)
    {
      ApartFromNew(g, fs, es, n, e, i);
    }
    forall t, b | t in h && Loose(h, Slot(t, b))
      ensures Covered(Slot(t, b), es')
    {
      var x := Slot(t, b);
      if x in e.d {
        assert x in es'[n].d;
      } else {
        CoveredBelow(es, es', n, x);
      }
    }
  }

  lemma CoveredBelow(es: seq<Entry>, es': seq<Entry>, n: nat, x: Slot)
    requires n <= |es| <= n + 2 && es[..n] <= es' && Covered(x, es) && x !in TopSlots(es, n)
    ensures Covered(x, es')
  {
    var i :| 0 <= i < |es| && x in es[i].d;
    assert i < n;
    assert es'[i] == es[..n][i];
  }

  /** Rewriting the slots of a list leaves the entries below `n` well formed. */
  lemma KeptByRewrite(g: Graph, h: Graph, fs: seq<Frag>, es: seq<Entry>, n: nat, l: Word, d: seq<Slot>, k: State)
    requires n <= |es| == |fs| && IsChain(g, l, d) && Rewrites(g, h, d, k)
    requires forall i :: 0 <= i < n ==> EntryOk(g, fs[i], es[i]) && Apart(es[i].d, d)
    ensures forall i :: 0 <= i < n ==> EntryOk(h, fs[i], es[i])
  {
    RewritesExtends(g, h, l, d, k);
    forall i | 0 <= i < n
      ensures EntryOk(h, fs[i], es[i])
    {
      UntouchedByRewrite(g, h, es[i].d, d, k);
      EntryKept(g, h, fs[i], es[i]);
    }
  }

  lemma UntouchedByRewrite(g: Graph, h: Graph, e: seq<Slot>, d: seq<Slot>, k: State)
    requires Rewrites(g, h, d, k) && Apart(e, d) && forall i :: 0 <= i < |e| ==> e[i].owner in g
    ensures forall i :: 0 <= i < |e| ==> Content(g, e[i]) == Content(h, e[i])
  {
    forall i | 0 <= i < |e|
      ensures Content(g, e[i]) == Content(h, e[i])
    {
      assert e[i] == Slot(e[i].owner, e[i].second) && e[i] in e;
    }
  }

  /** So does linking the end of a list. */
  lemma KeptByLink(g: Graph, h: Graph, fs: seq<Frag>, es: seq<Entry>, n: nat, l1: Word, d1: seq<Slot>, l2: Word)
    requires n <= |es| == |fs| && IsChain(g, l1, d1) && Links(g, h, d1, l2)
    requires forall i :: 0 <= i < n ==> EntryOk(g, fs[i], es[i]) && Apart(es[i].d, d1)
    ensures forall i :: 0 <= i < n ==> EntryOk(h, fs[i], es[i])
  {
    LinksExtends(g, h, l1, d1, l2);
    forall i | 0 <= i < n
      ensures EntryOk(h, fs[i], es[i])
    {
      UntouchedByLink(g, h, es[i].d, d1, l2);
      EntryKept(g, h, fs[i], es[i]);
    }
  }

  lemma UntouchedByLink(g: Graph, h: Graph, e: seq<Slot>, d: seq<Slot>, l: Word)
    requires Links(g, h, d, l) && Apart(e, d) && forall i :: 0 <= i < |e| ==> e[i].owner in g
    ensures forall i :: 0 <= i < |e| ==> Content(g, e[i]) == Content(h, e[i])
  {
    forall i | 0 <= i < |e|
      ensures Content(g, e[i]) == Content(h, e[i])
    {
      assert e[i] == Slot(e[i].owner, e[i].second) && e[i] in e && d[|d| - 1] in d;
    }
  }

  lemma TargetsRewritten(g: Graph, h: Graph, d: seq<Slot>, k: State)
    requires TargetsIn(g) && Rewrites(g, h, d, k) && k in g
    ensures TargetsIn(h)
  {
    forall s | s in h
      ensures (h[s].out.ToState? ==> h[s].out.s in h) && (h[s].out1.ToState? ==> h[s].out1.s in h)
    {
      ContentsDecide(g, h, s);
    }
  }

  lemma TargetsLinked(g: Graph, h: Graph, d: seq<Slot>, l: Word)
    requires TargetsIn(g) && Links(g, h, d, l) && !l.ToState?
    ensures TargetsIn(h)
  {
    forall s | s in h
      ensures (h[s].out.ToState? ==> h[s].out.s in h) && (h[s].out1.ToState? ==> h[s].out1.s in h)
    {
      ContentsDecide(g, h, s);
    }
  }

  /** The top one or two entries and what keeps them apart from the others. */
  lemma TopApart(g: Graph, fs: seq<Frag>, es: seq<Entry>, n: nat)
    requires StackOk(g, fs, es) && n < |es| <= n + 2
    ensures EntryOk(g, fs[n], es[n]) && EntryOk(g, fs[|es| - 1], es[|es| - 1])
    ensures n + 2 == |es| ==> Apart(es[n].d, es[n + 1].d)
    ensures forall i :: 0 <= i < n ==> Apart(es[i].d, es[n].d)
  {
  }

  /** '.': the first fragment is patched to the second. */
  lemma Catenate(g: Graph, h: Graph, fs: seq<Frag>, es: seq<Entry>, n: nat)
    requires StackOk(g, fs, es) && n + 2 == |es|
    requires fs[n + 1].start != null
    requires Rewrites(g, h, es[n].d, fs[n + 1].start)
    ensures StackOk(h, fs[..n] + [Frag(fs[n].start, fs[n + 1].out)],
                    es[..n] + [Entry(Cat(es[n].r, es[n + 1].r), es[n + 1].d)])
  {
    TopApart(g, fs, es, n);
    var f1, f2, e1, e2 := fs[n], fs[n + 1], es[n], es[n + 1];
    KeptByRewrite(g, h, fs, es, n, f1.out, e1.d, f2.start);
    CatenateEntry(g, h, f1, e1, f2, e2);
    NewTop(g, h, fs, es, n, Frag(f1.start, f2.out), Entry(Cat(e1.r, e2.r), e2.d));
  }

  lemma CatenateEntry(g: Graph, h: Graph, f1: Frag, e1: Entry, f2: Frag, e2: Entry)
    requires TargetsIn(g) && EntryOk(g, f1, e1) && EntryOk(g, f2, e2) && Apart(e1.d, e2.d)
    requires Rewrites(g, h, e1.d, f2.start)
    ensures TargetsIn(h) && EntryOk(h, Frag(f1.start, f2.out), Entry(Cat(e1.r, e2.r), e2.d))
  {
    RewritesExtends(g, h, f1.out, e1.d, f2.start);
    TargetsRewritten(g, h, e1.d, f2.start);
    PatchedFragment(g, h, e1.r, f1.start, e1.d, f2.start);
    UntouchedByRewrite(g, h, e2.d, e1.d, f2.start);
    EntryKept(g, h, f2, e2);
  }

  /** '|': a split in front of two fragments, whose lists are joined. */
  lemma Alternate(g: Graph, g1: Graph, h: Graph, fs: seq<Frag>, es: seq<Entry>, n: nat, s: State)
    requires StackOk(g, fs, es) && n + 2 == |es|
    requires fs[n + 1].start != null && fs[n].start != null
    requires Adds(g, g1, s) && g1[s] == Node(SPLIT, ToState(fs[n].start), ToState(fs[n + 1].start))
    requires Links(g1, h, es[n].d, fs[n + 1].out)
    ensures StackOk(h, fs[..n] + [Frag(s, fs[n].out)],
                    es[..n] + [Entry(Alt(es[n].r, es[n + 1].r), es[n].d + es[n + 1].d)])
  {
    TopApart(g, fs, es, n);
    var f1, f2, e1, e2 := fs[n], fs[n + 1], es[n], es[n + 1];
    var d := e1.d + e2.d;
    AddedState(g, g1, s, fs, es);
    KeptByLink(g1, h, fs, es, n, f1.out, e1.d, f2.out);
    TargetsLinked(g1, h, e1.d, f2.out);
    AlternateEntry(g1, h, f1, e1, f2, e2, s);
    forall t, b | t in h && Loose(h, Slot(t, b)) && Slot(t, b) !in d
      ensures t in g && Loose(g, Slot(t, b)) && Slot(t, b) !in TopSlots(es, n)
    {
      LooseUnlinked(g, g1, h, e1.d, f2.out, s, t, b);
    }
    NewTop(g, h, fs, es, n, Frag(s, f1.out), Entry(Alt(e1.r, e2.r), d));
  }

  lemma AlternateEntry(g: Graph, h: Graph, f1: Frag, e1: Entry, f2: Frag, e2: Entry, s: State)
    requires EntryOk(g, f1, e1) && EntryOk(g, f2, e2) && Apart(e1.d, e2.d) && Links(g, h, e1.d, f2.out)
    requires s in g && g[s] == Node(SPLIT, ToState(f1.start), ToState(f2.start))
    ensures EntryOk(h, Frag(s, f1.out), Entry(Alt(e1.r, e2.r), e1.d + e2.d))
  {
    var d := e1.d + e2.d;
    LinksExtends(g, h, f1.out, e1.d, f2.out);
    LinkedChain(g, h, f1.out, e1.d, f2.out, e2.d);
    BuiltExtends(g, h, e1.r, f1.start, e1.d);
    BuiltExtends(g, h, e2.r, f2.start, e2.d);
    assert d[..|e1.d|] == e1.d && d[|e1.d|..] == e2.d;
  }

  /** After adding a split state and linking two lists, an uncovered loose slot was loose before. */
  lemma LooseUnlinked(g: Graph, g1: Graph, h: Graph, d: seq<Slot>, l: Word, s: State, t: State, b: bool)
    requires Adds(g, g1, s) && Links(g1, h, d, l) && t in h && Loose(h, Slot(t, b)) && Slot(t, b) !in d
    requires g1[s].out.ToState? && Slot(s, false) !in d && (b && t == s ==> g1[s].out1.ToState?)
    ensures t in g && Loose(g, Slot(t, b))
  {
    assert d[|d| - 1] in d;
  }

  /** '?': a split that can skip the fragment; its second arrow joins the list. */
  lemma ZeroOrOne(g: Graph, g1: Graph, h: Graph, fs: seq<Frag>, es: seq<Entry>, n: nat, s: State)
    requires StackOk(g, fs, es) && n + 1 == |es| && fs[n].start != null
    requires Adds(g, g1, s) && g1[s] == Node(SPLIT, ToState(fs[n].start), Null)
    requires Links(g1, h, es[n].d, ToSlot(Slot(s, true)))
    ensures StackOk(h, fs[..n] + [Frag(s, fs[n].out)], es[..n] + [Entry(Opt(es[n].r), es[n].d + [Slot(s, true)])])
  {
    TopApart(g, fs, es, n);
    var f1, e1 := fs[n], es[n];
    var l2 := ToSlot(Slot(s, true));
    var d := e1.d + [Slot(s, true)];
    AddedState(g, g1, s, fs, es);
    KeptByLink(g1, h, fs, es, n, f1.out, e1.d, l2);
    TargetsLinked(g1, h, e1.d, l2);
    ZeroOrOneEntry(g1, h, f1, e1, s);
    forall t, b | t in h && Loose(h, Slot(t, b)) && Slot(t, b) !in d
      ensures t in g && Loose(g, Slot(t, b)) && Slot(t, b) !in TopSlots(es, n)
    {
      LooseUnlinked(g, g1, h, e1.d, l2, s, t, b);
    }
    NewTop(g, h, fs, es, n, Frag(s, f1.out), Entry(Opt(e1.r), d));
  }

  lemma ZeroOrOneEntry(g: Graph, h: Graph, f1: Frag, e1: Entry, s: State)
    requires EntryOk(g, f1, e1) && Slot(s, true) !in e1.d && Links(g, h, e1.d, ToSlot(Slot(s, true)))
    requires s in g && g[s] == Node(SPLIT, ToState(f1.start), Null)
    ensures EntryOk(h, Frag(s, f1.out), Entry(Opt(e1.r), e1.d + [Slot(s, true)]))
  {
    var l2 := ToSlot(Slot(s, true));
    var d := e1.d + [Slot(s, true)];
    LinksExtends(g, h, f1.out, e1.d, l2);
    LinkedChain(g, h, f1.out, e1.d, l2, [Slot(s, true)]);
    BuiltExtends(g, h, e1.r, f1.start, e1.d);
    assert d[..|d| - 1] == e1.d;
  }

  /** '*' and '+': a split behind the fragment that loops back to it; the two differ only in where
      the resulting fragment starts. */
  lemma Loop(g: Graph, g1: Graph, h: Graph, fs: seq<Frag>, es: seq<Entry>, n: nat, s: State, plus: bool)
    requires StackOk(g, fs, es) && n + 1 == |es| && fs[n].start != null
    requires Adds(g, g1, s) && g1[s] == Node(SPLIT, ToState(fs[n].start), Null)
    requires Rewrites(g1, h, es[n].d, s)
    ensures StackOk(h, fs[..n] + [Frag(if plus then fs[n].start else s, ToSlot(Slot(s, true)))],
                       es[..n] + [Entry(if plus then Plus(es[n].r) else Star(es[n].r), [Slot(s, true)])])
  {
    TopApart(g, fs, es, n);
    var f1, e1 := fs[n], es[n];
    AddedState(g, g1, s, fs, es);
    KeptByRewrite(g1, h, fs, es, n, f1.out, e1.d, s);
    TargetsRewritten(g1, h, e1.d, s);
    LoopEntry(g1, h, f1, e1, s, plus);
    forall t, b | t in h && Loose(h, Slot(t, b)) && Slot(t, b) !in [Slot(s, true)]
      ensures t in g && Loose(g, Slot(t, b)) && Slot(t, b) !in TopSlots(es, n)
    {
      LooseUnwritten(g, g1, h, e1.d, s, t, b);
    }
    var r := if plus then Plus(e1.r) else Star(e1.r);
    var start := if plus then f1.start else s;
    NewTop(g, h, fs, es, n, Frag(start, ToSlot(Slot(s, true))), Entry(r, [Slot(s, true)]));
  }

  lemma LoopEntry(g: Graph, h: Graph, f1: Frag, e1: Entry, s: State, plus: bool)
    requires EntryOk(g, f1, e1) && Slot(s, true) !in e1.d && Slot(s, false) !in e1.d && Rewrites(g, h, e1.d, s)
    requires s in g && g[s] == Node(SPLIT, ToState(f1.start), Null)
    ensures EntryOk(h, Frag(if plus then f1.start else s, ToSlot(Slot(s, true))),
                       Entry(if plus then Plus(e1.r) else Star(e1.r), [Slot(s, true)]))
  {
    RewritesExtends(g, h, f1.out, e1.d, s);
    PatchedFragment(g, h, e1.r, f1.start, e1.d, s);
    assert Content(h, Slot(s, true)) == Null;
    assert Content(h, Slot(s, false)) == ToState(f1.start);
  }

  /** After adding a split state and patching a list to it, an uncovered loose slot was loose before. */
  lemma LooseUnwritten(g: Graph, g1: Graph, h: Graph, d: seq<Slot>, s: State, t: State, b: bool)
    requires Adds(g, g1, s) && Rewrites(g1, h, d, s) && t in h && Loose(h, Slot(t, b)) && Slot(t, b) != Slot(s, true)
    requires g1[s].out.ToState? && Slot(s, false) !in d
    ensures t in g && Loose(g, Slot(t, b)) && Slot(t, b) !in d
  {
  }

  /** The final patch closes the last fragment, and with it the whole graph. */
  lemma Finished(g: Graph, h: Graph, fs: seq<Frag>, es: seq<Entry>, k: State)
    requires StackOk(g, fs, es) && |es| == 1 && fs[0].start != null
    requires k in g && Rewrites(g, h, es[0].d, k)
    ensures Complete(h) && Compiled(h, es[0].r, fs[0].start, k)
  {
    RewritesExtends(g, h, fs[0].out, es[0].d, k);
    TargetsRewritten(g, h, es[0].d, k);
    PatchedFragment(g, h, es[0].r, fs[0].start, es[0].d, k);
    forall s | s in h && h[s].c != MATCH
      ensures h[s].out.ToState? && (h[s].c == SPLIT ==> h[s].out1.ToState?)
    {
      ContentsDecide(g, h, s);
      if !h[s].out.ToState? {
        assert Loose(g, Slot(s, false));
      }
      if h[s].c == SPLIT && !h[s].out1.ToState? {
        assert Loose(g, Slot(s, true));
      }
    }
  }
}
