/** The programs end to end: compile one expression, match many strings, with and without the cache. */
module Grep {
  import opened RegexSyntax
  import opened Wrappers
  import R = Re2Post
  import opened Postfix
  import opened NfaGraph
  import opened Fragments
  import opened Simulation
  import opened StateOrder
  import opened TwoOrders
  import opened Nfa
  import opened CacheTree
  import DfaCache

  /** Where the compiler can run: its stack neither under- nor overflows. */
  predicate Runnable(re: CString) {
    R.Translation(re).Some? ==> StackSafe(R.Translation(re).value)
  }

  /** The strings of `re`, read as a set of 7-bit words: what the matchers decide. */
  ghost predicate InLanguage(re: CString, w: CString) {
    exists t :: R.Fits(t) && Text(t) == re && Matches(ToRe(t), w) && Ascii(w)
  }

  /** Exactly which parsed expressions the compiler can run on. */
  lemma RunnableExactly(t: Tree)
    requires R.Fits(t) && |Text(t)| < 4000
    ensures Runnable(Text(t)) <==> DotLiterals(ToRe(t)) == 0 && Need(ToRe(t)) <= 1000
  {
    R.TreeParses(t);
    TreesAreOrdinary(t);
    StackSafeExactly(ToRe(t));
  }

  /** The inputs that slip through the parser without being expressions make the compiler pop an
      empty stack. */
  lemma SlippedThrough(re: CString)
    requires |re| < 4000 && (re == [] || R.HasTrailingBar(re))
    ensures R.Translation(re).Some? && !Runnable(re)
  {
    if re == [] {
      R.EmptyParses();
    } else {
      var t :| R.Fits(t) && Text(t) == re[..|re| - 1];
      assert re == Text(t) + ['|'];
      R.TreeParses(t);
      TreesAreOrdinary(t);
      StrayBarUnderflows(ToRe(t));
    }
  }

  /** What the compiler makes of a runnable input is one expression, that of any of its trees. */
  lemma CompiledExpression(re: CString)
    requires R.Translation(re).Some? && Runnable(re)
    ensures R.HasTree(re)
    ensures forall t :: R.Fits(t) && Text(t) == re ==> Eval(R.Translation(re).value) == [ToRe(t)]
  {
    R.AcceptedExactly(re);
    if re == [] || R.HasTrailingBar(re) {
      SlippedThrough(re);
    }
    forall t | R.Fits(t) && Text(t) == re
      ensures Eval(R.Translation(re).value) == [ToRe(t)]
    {
      RunnableExactly(t);
      R.TreeParses(t);
      TreesAreOrdinary(t);
      StackSafeExactly(ToRe(t));
    }
  }

  /** An automaton of the compiled expression decides the language. */
  lemma DecidesLanguage(re: CString, g: Graph, start: State, k: State, w: CString)
    requires R.Translation(re).Some? && Runnable(re)
    requires |Eval(R.Translation(re).value)| == 1 && k in g && g[k].c == MATCH
    requires Compiled(g, Eval(R.Translation(re).value)[0], start, k)
    ensures Accepts(g, start, w) <==> InLanguage(re, w)
  {
    CompiledExpression(re);
    var t :| R.Fits(t) && Text(t) == re;
    AutomatonAccepts(g, ToRe(t), start, k, w);
    assert forall u :: R.Fits(u) && Text(u) == re ==> [ToRe(u)] == [ToRe(t)];
  }

  /** Parses and compiles; both programs stop here with an error message on bad input. */
  method Compile(malloc: nat -> int, re: CString) returns (nfa: Nfa, start: State?)
    requires Injective(malloc) && Runnable(re)
    ensures fresh(nfa) && fresh(nfa.all) && nfa.Valid()
    ensures start != null <==> |re| < 4000 && R.HasTree(re)
    ensures start != null ==> start in nfa.all && nfa.nstate >= 1 && Complete(nfa.Graph())
    ensures start != null ==> forall t :: R.Fits(t) && Text(t) == re ==>
                                Compiled(nfa.Graph(), ToRe(t), start, nfa.matchstate)
    ensures start != null ==> forall w :: Accepts(nfa.Graph(), start, w) <==> InLanguage(re, w)
  {
    nfa := new Nfa(malloc);
    start := null;
    var post := R.Re2Post(re);
    if post.None? {
      return;
    }
    CompiledExpression(re);
    start := nfa.Post2Nfa(post.value);
    forall w
      ensures Accepts(nfa.Graph(), start, w) <==> InLanguage(re, w)
    {
      DecidesLanguage(re, nfa.Graph(), start, nfa.matchstate, w);
    }
  }

  /** What the answers mean for a graph that accepts the language. */
  lemma DecidedMeans(g: Graph, start: State, re: CString, args: seq<CString>, out: seq<bool>)
    requires Decided(g, start, args, out) && forall w :: Accepts(g, start, w) <==> InLanguage(re, w)
    ensures |out| == |args| && forall i :: 0 <= i < |args| ==> (out[i] <==> InLanguage(re, args[i]))
  {
    hide Accepts, InLanguage;
  }

  /** nfa.c: prints the arguments that match. */
  method NfaGrep(malloc: nat -> int, re: CString, args: seq<CString>) returns (r: Option<seq<bool>>)
    requires Injective(malloc) && Runnable(re)
    ensures r.Some? <==> |re| < 4000 && R.HasTree(re)
    ensures r.Some? ==> |r.value| == |args| && forall i :: 0 <= i < |args| ==> (r.value[i] <==> InLanguage(re, args[i]))
  {
    hide Accepts, InLanguage, Decided, Compiled, R.HasTree, R.Fits, Runnable, Complete;
    var nfa, start := Compile(malloc, re);
    if start == null {
      return None;
    }
    var l1 := new List(nfa.nstate, nfa.matchstate);
    var l2 := new List(nfa.nstate, nfa.matchstate);
    var out := nfa.MatchAll(start, args, l1, l2);
    DecidedMeans(nfa.Graph(), start, re, args, out);
    return Some(out);
  }

  /** bounded-mem-dfa.c: the same with a cache of at most `maxstates` DFA states. */
  method DfaGrep(malloc: nat -> int, re: CString, args: seq<CString>, order: nat -> seq<nat>, maxstates: nat)
    returns (r: Option<seq<bool>>)
    requires Injective(malloc) && Runnable(re) && IsOrder(order) && maxstates >= 1
    ensures r.Some? <==> |re| < 4000 && R.HasTree(re)
    ensures r.Some? ==> |r.value| == |args| && forall i :: 0 <= i < |args| ==> (r.value[i] <==> InLanguage(re, args[i]))
  {
    hide Accepts, InLanguage, Decided, Compiled, R.HasTree, R.Fits, Runnable, Complete;
    var nfa, start := Compile(malloc, re);
    if start == null {
      return None;
    }
    var cache := new DfaCache.Cache(nfa, order, maxstates);
    var out := cache.QueryAll(start, args);
    DecidedMeans(nfa.Graph(), start, re, args, out);
    return Some(out);
  }

  /**
   * The matchers decide the denoted language itself exactly for the expressions whose literals are
   * all 7-bit: a byte above 127 is stored sign-extended and then never equals a character read.
   */
  lemma SevenBitExactly(g: Graph, r: Re, start: State, k: State)
    requires Compiled(g, r, start, k) && k in g && g[k].c == MATCH
    ensures (forall w :: Accepts(g, start, w) <==> Matches(r, w)) <==> AsciiLiterals(r)
  {
    forall w ensures Accepts(g, start, w) <==> Matches(r, w) && Ascii(w) {
      AutomatonAccepts(g, r, start, k, w);
    }
    if AsciiLiterals(r) {
      forall w | Matches(r, w) ensures Ascii(w) {
        AsciiWords(r, w);
      }
    } else {
      var w := NonAsciiWord(r);
      assert Matches(r, w) && !Accepts(g, start, w);
    }
  }

  // ---------------------------------------------------------------- One set of states in two nodes

  const LOOP_TEXT: CString := ['(', 'a', '?', 'b', '?', ')', '*']
  const LOOP_TREE := Quant(Group(Juxt(Quant(Sym('a'), '?'), Quant(Sym('b'), '?'))), '*')

  lemma LoopTreeFits()
    ensures R.Fits(LOOP_TREE) && Text(LOOP_TREE) == LOOP_TEXT && ToRe(LOOP_TREE) == LOOP
  {
    var ab := Juxt(Quant(Sym('a'), '?'), Quant(Sym('b'), '?'));
    assert Text(Quant(Sym('a'), '?')) == ['a', '?'] && Text(Quant(Sym('b'), '?')) == ['b', '?'];
    assert Text(ab) == ['a', '?', 'b', '?'];
    assert Text(Group(ab)) == ['('] + Text(ab) + [')'];
    assert ToRe(ab) == Cat(Opt(Lit('a')), Opt(Lit('b')));
  }

  lemma LoopNeedsTwo()
    ensures DotLiterals(LOOP) == 0 && Need(LOOP) == 2 && |LOOP_TEXT| == 7
  {
  }

  lemma LoopTextFits()
    ensures R.Fits(LOOP_TREE) && Text(LOOP_TREE) == LOOP_TEXT && ToRe(LOOP_TREE) == LOOP
    ensures R.HasTree(LOOP_TEXT) && Runnable(LOOP_TEXT) && |LOOP_TEXT| < 4000
  {
    hide R.Fits, Text, ToRe, Runnable, Need, DotLiterals, LOOP, LOOP_TEXT, LOOP_TREE;
    LoopTreeFits();
    LoopNeedsTwo();
    RunnableExactly(LOOP_TREE);
  }

  /** The program on that expression, and the two lists it meets. */
  method LoopCache(malloc: nat -> int, order: nat -> seq<nat>, maxstates: nat)
    returns (cache: DfaCache.Cache, start: State)
    requires Injective(malloc) && IsOrder(order) && maxstates >= 2
    ensures fresh(cache) && cache.Valid() && cache.maxstates == maxstates && cache.nstates == 0
    ensures fresh(cache.pool) && fresh(cache.l1) && fresh(cache.l1.s) && fresh(cache.nfa) && fresh(cache.nfa.all)
    ensures start in cache.nfa.all
    ensures var a := StartOrder(cache.g, start);
            var b := StepOrder(cache.g, Arrange(cache.order, a), 'a' as int);
            a != b && Elements(a) == Elements(b)
  {
    hide StartOrder, StepOrder, Arrange, Sim, StepSet, R.Fits, R.HasTree, Runnable, Compiled, LOOP_TEXT, LOOP_TREE;
    LoopTextFits();
    var nfa;
    nfa, start := Compile(malloc, LOOP_TEXT);
    cache := new DfaCache.Cache(nfa, order, maxstates);
    TwoLists(nfa.Graph(), start, nfa.matchstate, order);
  }

  /**
   * Not one node for each set: with room for two, the start of `(a?b?)*` and the step past an `a`
   * get two nodes of the tree for the same set of NFA states, whatever the sort does to three members.
   */
  method TwoNodes(malloc: nat -> int, order: nat -> seq<nat>, maxstates: nat)
    returns (cache: DfaCache.Cache, d: DState, e: DState)
    requires Injective(malloc) && IsOrder(order) && maxstates >= 2
    ensures fresh(cache) && cache.Valid() && cache.maxstates == maxstates
    ensures d in Members(cache.tree) && e in Members(cache.tree) && d != e && Elements(d.l) == Elements(e.l)
  {
    assert 'a' as int < CHARS;
    hide *;
    var start;
    cache, start := LoopCache(malloc, order, maxstates);
    ghost var g := cache.g;
    d, e := cache.StartAndStep(start, 'a' as int);
    cache.SameNodeExactly(d, e, StartOrder(g, start), StepOrder(g, d.l, 'a' as int));
  }
}
