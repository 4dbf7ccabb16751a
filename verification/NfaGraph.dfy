/** NFA states on the heap, snapshots of them, and the meaning of the graph they form. */
module NfaGraph {
  import opened RegexSyntax

  const MATCH := 256
  const SPLIT := 257

  /** A place holding an arrow: `out` of a state, or its `out1`. */
  datatype Slot = Slot(owner: State, second: bool)

  /** The word stored in a slot.  While the arrow dangles the slot links to the next dangling slot;
      afterwards it points to a state. */
  datatype Word = Null | ToState(s: State) | ToSlot(slot: Slot)

  class State {
    const c: int
    const addr: int
    var out: Word
    var out1: Word
    var lastlist: int

    constructor (c: int, addr: int, out: Word, out1: Word)
      ensures this.c == c && this.addr == addr && this.out == out && this.out1 == out1 && lastlist == 0
    {
      this.c, this.addr, this.out, this.out1 := c, addr, out, out1;
      lastlist := 0;
    }
  }

  /** The unchanging view of one state. */
  datatype Node = Node(c: int, out: Word, out1: Word)

  type Graph = map<State, Node>

  ghost function Snapshot(states: set<State>): Graph
    reads states
  {
    map s | s in states :: Node(s.c, s.out, s.out1)
  }

  /** A character stored in a plain char: bytes above 127 become negative. */
  function SignExtend(b: Byte): int {
    if b as int < 128 then b as int else b as int - 256
  }

  // ---------------------------------------------------------------- Acceptance

  /** `s` reaches the matching state reading exactly `w`, in at most `n` arrows. */
  ghost predicate AcceptsIn(g: Graph, s: State, w: CString, n: nat)
    decreases n
  {
    && s in g
    && if g[s].c == MATCH then w == []
       else
         && n > 0
         && if g[s].c == SPLIT then
              || (g[s].out.ToState? && AcceptsIn(g, g[s].out.s, w, n - 1))
              || (g[s].out1.ToState? && AcceptsIn(g, g[s].out1.s, w, n - 1))
            else
              && w != [] && g[s].c == w[0] as int
              && g[s].out.ToState? && AcceptsIn(g, g[s].out.s, w[1..], n - 1)
  }

  ghost predicate Accepts(g: Graph, s: State, w: CString) {
    exists n: nat :: AcceptsIn(g, s, w, n)
  }

  // ---------------------------------------------------------------- Structure

  /** `s` leads into a copy of the automaton of `r` all of whose exits lead to `k`. */
  ghost predicate Compiled(g: Graph, r: Re, s: State, k: State)
    decreases r
  {
    && s in g
    && match r
       case Lit(b) => g[s].c == SignExtend(b) && g[s].out == ToState(k)
       case Cat(x, y) => exists m :: m in g && Compiled(g, x, s, m) && Compiled(g, y, m, k)
       case Alt(x, y) =>
         && g[s].c == SPLIT && g[s].out.ToState? && g[s].out1.ToState?
         && Compiled(g, x, g[s].out.s, k) && Compiled(g, y, g[s].out1.s, k)
       case Opt(x) =>
         && g[s].c == SPLIT && g[s].out.ToState? && g[s].out1 == ToState(k)
         && Compiled(g, x, g[s].out.s, k)
       case Star(x) =>
         && g[s].c == SPLIT && g[s].out.ToState? && g[s].out1 == ToState(k)
         && Compiled(g, x, g[s].out.s, s)
       case Plus(x) =>
         exists p :: p in g && g[p].c == SPLIT && g[p].out == ToState(s) && g[p].out1 == ToState(k)
                     && Compiled(g, x, s, p)
  }

  /** `s` leads into a copy of the automaton of `r` whose exits are the dangling slots `d`, in order. */
  ghost predicate Built(g: Graph, r: Re, s: State, d: seq<Slot>)
    decreases r
  {
    && s in g
    && match r
       case Lit(b) => g[s].c == SignExtend(b) && d == [Slot(s, false)]
       case Cat(x, y) => exists m :: m in g && Compiled(g, x, s, m) && Built(g, y, m, d)
       case Alt(x, y) =>
         && g[s].c == SPLIT && g[s].out.ToState? && g[s].out1.ToState?
         && exists i :: 0 <= i <= |d| && Built(g, x, g[s].out.s, d[..i]) && Built(g, y, g[s].out1.s, d[i..])
       case Opt(x) =>
         && g[s].c == SPLIT && g[s].out.ToState?
         && d != [] && d[|d| - 1] == Slot(s, true) && Built(g, x, g[s].out.s, d[..|d| - 1])
       case Star(x) =>
         && g[s].c == SPLIT && g[s].out.ToState? && d == [Slot(s, true)]
         && Compiled(g, x, g[s].out.s, s)
       case Plus(x) =>
         exists p :: p in g && g[p].c == SPLIT && g[p].out == ToState(s) && d == [Slot(p, true)]
                     && Compiled(g, x, s, p)
  }

  function Content(g: Graph, slot: Slot): Word
    requires slot.owner in g
  {
    if slot.second then g[slot.owner].out1 else g[slot.owner].out
  }

  /** `h` is a later stage of `g`: states are added, and arrows that point to states stay. */
  ghost predicate Extends(g: Graph, h: Graph) {
    forall s :: s in g ==>
      && s in h && h[s].c == g[s].c
      && (g[s].out.ToState? ==> h[s].out == g[s].out)
      && (g[s].out1.ToState? ==> h[s].out1 == g[s].out1)
  }

  lemma {:induction false} CompiledExtends(g: Graph, h: Graph, r: Re, s: State, k: State)
    requires Extends(g, h) && Compiled(g, r, s, k)
    ensures Compiled(h, r, s, k)
    decreases r
  {
    match r
    case Lit(_) =>
    case Cat(x, y) =>
      var m :| m in g && Compiled(g, x, s, m) && Compiled(g, y, m, k);
      CompiledExtends(g, h, x, s, m);
      CompiledExtends(g, h, y, m, k);
    case Alt(x, y) =>
      CompiledExtends(g, h, x, g[s].out.s, k);
      CompiledExtends(g, h, y, g[s].out1.s, k);
    case Opt(x) => CompiledExtends(g, h, x, g[s].out.s, k);
    case Star(x) => CompiledExtends(g, h, x, g[s].out.s, s);
    case Plus(x) =>
      var p :| p in g && g[p].c == SPLIT && g[p].out == ToState(s) && g[p].out1 == ToState(k) && Compiled(g, x, s, p);
      CompiledExtends(g, h, x, s, p);
  }

  lemma {:induction false} BuiltExtends(g: Graph, h: Graph, r: Re, s: State, d: seq<Slot>)
    requires Extends(g, h) && Built(g, r, s, d)
    ensures Built(h, r, s, d)
    decreases r
  {
    match r
    case Lit(_) =>
    case Cat(x, y) =>
      var m :| m in g && Compiled(g, x, s, m) && Built(g, y, m, d);
      CompiledExtends(g, h, x, s, m);
      BuiltExtends(g, h, y, m, d);
    case Alt(x, y) =>
      var i :| 0 <= i <= |d| && Built(g, x, g[s].out.s, d[..i]) && Built(g, y, g[s].out1.s, d[i..]);
      BuiltExtends(g, h, x, g[s].out.s, d[..i]);
      BuiltExtends(g, h, y, g[s].out1.s, d[i..]);
    case Opt(x) => BuiltExtends(g, h, x, g[s].out.s, d[..|d| - 1]);
    case Star(x) => CompiledExtends(g, h, x, g[s].out.s, s);
    case Plus(x) =>
      var p :| p in g && g[p].c == SPLIT && g[p].out == ToState(s) && d == [Slot(p, true)] && Compiled(g, x, s, p);
      CompiledExtends(g, h, x, s, p);
  }

  /** All the slots of `d` point to `k`. */
  ghost predicate PatchedTo(g: Graph, d: seq<Slot>, k: State) {
    forall i :: 0 <= i < |d| ==> d[i].owner in g && Content(g, d[i]) == ToState(k)
  }

  /** Patching the exits of a fragment to `k` makes an automaton that continues at `k`. */
  lemma {:induction false} PatchedFragment(g: Graph, h: Graph, r: Re, s: State, d: seq<Slot>, k: State)
    requires Extends(g, h) && Built(g, r, s, d) && PatchedTo(h, d, k)
    ensures Compiled(h, r, s, k)
    decreases r
  {
    match r
    case Lit(_) => assert Content(h, d[0]) == ToState(k);
    case Cat(x, y) =>
      var m :| m in g && Compiled(g, x, s, m) && Built(g, y, m, d);
      CompiledExtends(g, h, x, s, m);
      PatchedFragment(g, h, y, m, d, k);
    case Alt(x, y) =>
      var i :| 0 <= i <= |d| && Built(g, x, g[s].out.s, d[..i]) && Built(g, y, g[s].out1.s, d[i..]);
      PatchedFragment(g, h, x, g[s].out.s, d[..i], k);
      PatchedFragment(g, h, y, g[s].out1.s, d[i..], k);
    case Opt(x) =>
      PatchedFragment(g, h, x, g[s].out.s, d[..|d| - 1], k);
      assert Content(h, d[|d| - 1]) == ToState(k);
    case Star(x) =>
      CompiledExtends(g, h, x, g[s].out.s, s);
      assert Content(h, d[0]) == ToState(k);
    case Plus(x) =>
      var p :| p in g && g[p].c == SPLIT && g[p].out == ToState(s) && d == [Slot(p, true)] && Compiled(g, x, s, p);
      CompiledExtends(g, h, x, s, p);
      assert Content(h, d[0]) == ToState(k);
  }

  // ---------------------------------------------------------------- Structure gives meaning

  /** A 7-bit word of `r` takes the automaton of `r` from its start to its continuation. */
  lemma {:induction false} WordsPass(g: Graph, r: Re, s: State, k: State, u: CString, v: CString, n: nat)
    returns (m: nat)
    requires Compiled(g, r, s, k)
    requires Matches(r, u) && Ascii(u) && AcceptsIn(g, k, v, n)
    ensures AcceptsIn(g, s, u + v, m)
    decreases r, 1
  {
    NotMatch(g, r, s, k);
    match r
    case Lit(b) =>
      assert (u + v)[1..] == v;
      m := n + 1;
    case Cat(x, y) =>
      var p :| p in g && Compiled(g, x, s, p) && Compiled(g, y, p, k);
      var i :| 0 <= i <= |u| && Matches(x, u[..i]) && Matches(y, u[i..]);
      m := BothPass(g, x, y, s, p, k, u, i, v, n);
    case Alt(x, y) =>
      var m1;
      if Matches(x, u) {
        m1 := WordsPass(g, x, g[s].out.s, k, u, v, n);
      } else {
        m1 := WordsPass(g, y, g[s].out1.s, k, u, v, n);
      }
      m := m1 + 1;
    case Opt(x) =>
      if u == [] {
        assert u + v == v;
        m := n + 1;
      } else {
        var m1 := WordsPass(g, x, g[s].out.s, k, u, v, n);
        m := m1 + 1;
      }
    case Star(x) => m := IterationsPass(g, x, s, g[s].out.s, k, u, v, n);
    case Plus(x) =>
      var p :| p in g && g[p].c == SPLIT && g[p].out == ToState(s) && g[p].out1 == ToState(k) && Compiled(g, x, s, p);
      var i :| 0 <= i <= |u| && Matches(x, u[..i]) && Iterates(x, u[i..]);
      Resplit(u, i, v);
      var m1 := IterationsPass(g, x, p, s, k, u[i..], v, n);
      m := WordsPass(g, x, s, p, u[..i], u[i..] + v, m1);
  }

  lemma {:induction false} BothPass(g: Graph, x: Re, y: Re, s: State, p: State, k: State,
                                    u: CString, i: nat, v: CString, n: nat)
    returns (m: nat)
    requires p in g && Compiled(g, x, s, p) && Compiled(g, y, p, k) && i <= |u|
    requires Matches(x, u[..i]) && Matches(y, u[i..]) && Ascii(u) && AcceptsIn(g, k, v, n)
    ensures AcceptsIn(g, s, u + v, m)
    decreases Cat(x, y), 0
  {
    hide Compiled, AcceptsIn, Matches;
    Resplit(u, i, v);
    var m1 := WordsPass(g, y, p, k, u[i..], v, n);
    m := WordsPass(g, x, s, p, u[..i], u[i..] + v, m1);
  }

  lemma Resplit(u: CString, i: nat, v: CString)
    requires i <= |u|
    ensures u[..i] + (u[i..] + v) == u + v
  {
  }

  /** The loop through a split state `p` whose body starts at `b`. */
  lemma {:induction false} IterationsPass(g: Graph, x: Re, p: State, b: State, k: State, u: CString, v: CString, n: nat)
    returns (m: nat)
    requires p in g && g[p].c == SPLIT && g[p].out == ToState(b) && g[p].out1 == ToState(k) && Compiled(g, x, b, p)
    requires Iterates(x, u) && Ascii(u) && AcceptsIn(g, k, v, n)
    ensures AcceptsIn(g, p, u + v, m)
    decreases x, |u| + 1
  {
    if u == [] {
      assert u + v == v;
      m := n + 1;
    } else {
      var i :| 0 < i <= |u| && Matches(x, u[..i]) && Iterates(x, u[i..]);
      var m1 := IterationsPass(g, x, p, b, k, u[i..], v, n);
      var m2 := WordsPass(g, x, b, p, u[..i], u[i..] + v, m1);
      assert u[..i] + (u[i..] + v) == u + v;
      m := m2 + 1;
    }
  }

  /** The start of an automaton is never the matching state itself. */
  lemma {:induction false} NotMatch(g: Graph, r: Re, s: State, k: State)
    requires Compiled(g, r, s, k)
    ensures g[s].c != MATCH
    decreases r
  {
    match r
    case Lit(_) =>
    case Cat(x, y) =>
      var m :| m in g && Compiled(g, x, s, m) && Compiled(g, y, m, k);
      NotMatch(g, x, s, m);
    case Alt(_, _) =>
    case Opt(_) =>
    case Star(_) =>
    case Plus(x) =>
      var p :| p in g && g[p].c == SPLIT && g[p].out == ToState(s) && g[p].out1 == ToState(k) && Compiled(g, x, s, p);
      NotMatch(g, x, s, p);
  }

  /** Conversely, whatever is accepted from the start of the automaton of `r` begins with a 7-bit
      word of `r` and goes on from the continuation. */
  lemma {:induction false} PassesAreWords(g: Graph, r: Re, s: State, k: State, w: CString, n: nat)
    returns (i: nat, m: nat)
    requires Compiled(g, r, s, k) && AcceptsIn(g, s, w, n)
    ensures i <= |w| && m <= n && Matches(r, w[..i]) && Ascii(w[..i]) && AcceptsIn(g, k, w[i..], m)
    decreases n, r, 1
  {
    NotMatch(g, r, s, k);
    match r
    case Lit(_) => i, m := 1, n - 1;
    case Cat(x, y) =>
      var p :| p in g && Compiled(g, x, s, p) && Compiled(g, y, p, k);
      i, m := PassesBoth(g, x, y, s, p, k, w, n);
    case Alt(x, y) =>
      if AcceptsIn(g, g[s].out.s, w, n - 1) {
        i, m := PassesAreWords(g, x, g[s].out.s, k, w, n - 1);
      } else {
        i, m := PassesAreWords(g, y, g[s].out1.s, k, w, n - 1);
      }
    case Opt(x) =>
      if AcceptsIn(g, g[s].out.s, w, n - 1) {
        i, m := PassesAreWords(g, x, g[s].out.s, k, w, n - 1);
      } else {
        assert w[0..] == w;
        i, m := 0, n - 1;
      }
    case Star(x) => i, m := PassesIterate(g, x, s, g[s].out.s, k, w, n);
    case Plus(x) =>
      var p :| p in g && g[p].c == SPLIT && g[p].out == ToState(s) && g[p].out1 == ToState(k) && Compiled(g, x, s, p);
      i, m := PassesOnce(g, x, s, p, k, w, n);
  }

  lemma {:induction false} PassesBoth(g: Graph, x: Re, y: Re, s: State, p: State, k: State, w: CString, n: nat)
    returns (i: nat, m: nat)
    requires p in g && Compiled(g, x, s, p) && Compiled(g, y, p, k) && AcceptsIn(g, s, w, n)
    ensures i <= |w| && m <= n && Matches(Cat(x, y), w[..i]) && Ascii(w[..i]) && AcceptsIn(g, k, w[i..], m)
    decreases n, Cat(x, y), 0
  {
    hide Compiled, AcceptsIn;
    var i1, m1 := PassesAreWords(g, x, s, p, w, n);
    var i2;
    i2, m := PassesAreWords(g, y, p, k, w[i1..], m1);
    i := i1 + i2;
    Rejoin(w, i1, i2);
    AsciiJoin(w, i1, i);
  }

  lemma {:induction false} PassesOnce(g: Graph, x: Re, s: State, p: State, k: State, w: CString, n: nat)
    returns (i: nat, m: nat)
    requires p in g && g[p].c == SPLIT && g[p].out == ToState(s) && g[p].out1 == ToState(k) && Compiled(g, x, s, p)
    requires AcceptsIn(g, s, w, n)
    ensures i <= |w| && m <= n && Matches(Plus(x), w[..i]) && Ascii(w[..i]) && AcceptsIn(g, k, w[i..], m)
    decreases n, Plus(x), 0
  {
    hide Compiled, AcceptsIn;
    var i1, m1 := PassesAreWords(g, x, s, p, w, n);
    var i2;
    i2, m := PassesIterate(g, x, p, s, k, w[i1..], m1);
    i := i1 + i2;
    Rejoin(w, i1, i2);
    AsciiJoin(w, i1, i);
  }

  lemma {:induction false} PassesIterate(g: Graph, x: Re, p: State, b: State, k: State, w: CString, n: nat)
    returns (i: nat, m: nat)
    requires p in g && g[p].c == SPLIT && g[p].out == ToState(b) && g[p].out1 == ToState(k) && Compiled(g, x, b, p)
    requires AcceptsIn(g, p, w, n)
    ensures i <= |w| && m <= n && Iterates(x, w[..i]) && Ascii(w[..i]) && AcceptsIn(g, k, w[i..], m)
    decreases n, x, 2
  {
    hide Compiled;
    if AcceptsIn(g, b, w, n - 1) {
      var i1, m1 := PassesAreWords(g, x, b, p, w, n - 1);
      var i2;
      i2, m := PassesIterate(g, x, p, b, k, w[i1..], m1);
      i := i1 + i2;
      Rejoin(w, i1, i2);
      AsciiJoin(w, i1, i);
      IterateCons(x, w[..i], i1);
    } else {
      assert w[0..] == w && w[..0] == [];
      i, m := 0, n - 1;
    }
  }

  /** A string cut twice. */
  lemma Rejoin(w: CString, i: nat, j: nat)
    requires i + j <= |w|
    ensures w[..i + j][..i] == w[..i] && w[..i + j][i..] == w[i..][..j] && w[i..][j..] == w[i + j..]
  {
  }

  lemma AsciiJoin(w: CString, i: nat, j: nat)
    requires i <= j <= |w| && Ascii(w[..i]) && Ascii(w[i..][..j - i])
    ensures Ascii(w[..j])
  {
    assert w[..j] == w[..i] + w[i..][..j - i];
  }

  /** An automaton of `r` that continues at the matching state accepts the 7-bit words of `r`. */
  lemma AutomatonAccepts(g: Graph, r: Re, s: State, k: State, w: CString)
    requires Compiled(g, r, s, k) && k in g && g[k].c == MATCH
    ensures Accepts(g, s, w) <==> Matches(r, w) && Ascii(w)
  {
    if Accepts(g, s, w) {
      var n: nat :| AcceptsIn(g, s, w, n);
      var i, m := PassesAreWords(g, r, s, k, w, n);
      assert w[..i] == w;
    }
    if Matches(r, w) && Ascii(w) {
      var m := WordsPass(g, r, s, k, w, [], 0);
      assert w + [] == w;
    }
  }
}
