/** The infix-to-postfix parser: the loop over counters and a paren stack, and what it accepts. */
module Re2Post {
  import opened RegexSyntax
  import opened Wrappers

  const BUF_SIZE := 8000
  const PAREN_SIZE := 100

  // ---------------------------------------------------------------- The parser as a state machine

  datatype Saved = Saved(nalt: nat, natom: nat)

  /** Counters, paren stack and output of the parser between two characters. */
  datatype Machine = Machine(nalt: nat, natom: nat, parens: seq<Saved>, out: CString)

  const Init := Machine(0, 0, [], [])

  /** The dots written by the loop that counts `natom` down. */
  function Dots(natom: int): CString {
    Repeat('.', natom - 1)
  }

  /** Before another atom: at most one atom is left pending. */
  function Join(m: Machine): Machine {
    if m.natom > 1 then m.(natom := m.natom - 1, out := m.out + ['.']) else m
  }

  /** One character; `None` is the NULL return. */
  function Step(m: Machine, b: Byte): Option<Machine> {
    if b == '(' then
      var j := Join(m);
      if |m.parens| >= PAREN_SIZE then None
      else Some(Machine(0, 0, j.parens + [Saved(j.nalt, j.natom)], j.out))
    else if b == '|' then
      if m.natom == 0 then None
      else Some(m.(nalt := m.nalt + 1, natom := 0, out := m.out + Dots(m.natom)))
    else if b == ')' then
      if m.parens == [] || m.natom == 0 then None
      else
        var top := m.parens[|m.parens| - 1];
        Some(Machine(top.nalt, top.natom + 1, m.parens[..|m.parens| - 1],
                     m.out + Dots(m.natom) + Repeat('|', m.nalt)))
    else if IsQuantifier(b) then
      if m.natom == 0 then None else Some(m.(out := m.out + [b]))
    else
      var j := Join(m);
      Some(j.(natom := j.natom + 1, out := j.out + [b]))
  }

  function Run(m: Machine, s: CString): Option<Machine>
    decreases s
  {
    if s == [] then Some(m)
    else
      match Step(m, s[0])
      case None => None
      case Some(m') => Run(m', s[1..])
  }

  function Finish(m: Machine): Option<CString> {
    if m.parens != [] then None else Some(m.out + Dots(m.natom) + Repeat('|', m.nalt))
  }

  lemma {:induction false} RunAppend(m: Machine, s: CString, t: CString)
    ensures Run(m, s + t) ==
            match Run(m, s)
            case None => None
            case Some(m') => Run(m', t)
    decreases s
  {
    if s == [] {
      assert s + t == t;
    } else {
      assert (s + t)[1..] == s[1..] + t;
      match Step(m, s[0])
      case None =>
      case Some(m') => RunAppend(m', s[1..], t);
    }
  }

  lemma RunSnoc(m: Machine, s: CString, b: Byte)
    requires Run(m, s).Some?
    ensures Run(m, s + [b]) == Step(Run(m, s).value, b)
  {
    RunAppend(m, s, [b]);
    assert [b][1..] == [];
  }

  // ---------------------------------------------------------------- Completeness: trees are accepted

  lemma OrdinaryStep(m: Machine, b: Byte)
    requires IsOrdinary(b)
    ensures var j := Join(m); Step(m, b) == Some(j.(natom := j.natom + 1, out := j.out + [b]))
  {
  }

  /** Back from a group that was closed. */
  lemma GroupStep(m: Machine, outer: Machine)
    requires m.parens == outer.parens + [Saved(outer.nalt, outer.natom)] && m.natom != 0
    ensures Step(m, ')') == Some(outer.(natom := outer.natom + 1, out := m.out + Dots(m.natom) + Repeat('|', m.nalt)))
  {
    assert m.parens[..|outer.parens|] == outer.parens;
  }

  lemma {:induction false} GroupRuns(m: Machine, e: Tree)
    requires IsAlt(e) && |m.parens| + 1 + Depth(e) <= PAREN_SIZE
    ensures var j := Join(m);
            Run(m, ['('] + Text(e) + [')']) == Some(j.(natom := j.natom + 1, out := j.out + Post(e)))
    decreases e, 4
  {
    hide Step, Dots, IsAlt, Depth;
    var j := Join(m);
    var m0 := Machine(0, 0, j.parens + [Saved(j.nalt, j.natom)], j.out);
    OpenRuns(m);
    var m1 := AltRuns(m0, e);
    RunAppend(m, ['('], Text(e));
    RunSnoc(m, ['('] + Text(e), ')');
    GroupStep(m1, j);
  }

  lemma OpenRuns(m: Machine)
    requires |m.parens| < PAREN_SIZE
    ensures var j := Join(m); Run(m, ['(']) == Some(Machine(0, 0, j.parens + [Saved(j.nalt, j.natom)], j.out))
  {
    RunSnoc(m, [], '(');
    assert [] + ['('] == ['('];
  }

  lemma {:induction false} FactorRuns(m: Machine, t: Tree)
    requires IsFactor(t) && |m.parens| + Depth(t) <= PAREN_SIZE
    ensures var j := Join(m);
            Run(m, Text(t)) == Some(j.(natom := j.natom + 1, out := j.out + Post(t)))
    decreases t, 1
  {
    hide Step;
    match t
    case Sym(b) =>
      RunSnoc(m, [], b);
      OrdinaryStep(m, b);
      assert [] + [b] == [b];
    case Group(e) =>
      GroupRuns(m, e);
    case Quant(e, op) =>
      FactorRuns(m, e);
      RunSnoc(m, Text(e), op);
      var j := Join(m);
      QuantifierStep(Run(m, Text(e)).value, op);
      assert j.out + Post(e) + [op] == j.out + Post(t);
  }

  lemma QuantifierStep(m: Machine, op: Byte)
    requires IsQuantifier(op) && m.natom > 0
    ensures Step(m, op) == Some(m.(out := m.out + [op]))
  {
  }

  /** `m'` has one atom pending, or two with the joining dot still to be written. */
  lemma {:induction false} TermRuns(m: Machine, t: Tree) returns (m': Machine)
    requires IsTerm(t) && m.natom == 0 && |m.parens| + Depth(t) <= PAREN_SIZE
    ensures Run(m, Text(t)) == Some(m')
    ensures m' == m.(natom := m'.natom, out := m'.out) && 1 <= m'.natom <= 2
    ensures m'.out + Dots(m'.natom) == m.out + Post(t)
    decreases t, 2
  {
    hide Step;
    if IsFactor(t) {
      FactorRuns(m, t);
      m' := m.(natom := 1, out := m.out + Post(t));
      assert m'.out + Dots(1) == m'.out;
    } else {
      var m1 := TermRuns(m, t.l);
      FactorRuns(m1, t.r);
      RunAppend(m, Text(t.l), Text(t.r));
      var j := Join(m1);
      assert Dots(1) == [] && Dots(2) == ['.'];
      assert j.out == m.out + Post(t.l);
      m' := j.(natom := 2, out := j.out + Post(t.r));
      assert m'.out + ['.'] == m.out + Post(t);
    }
  }

  lemma BarStep(m: Machine)
    requires m.natom != 0
    ensures Step(m, '|') == Some(m.(nalt := m.nalt + 1, natom := 0, out := m.out + Dots(m.natom)))
  {
  }

  lemma BarRuns(m: Machine, t: Tree) returns (m': Machine)
    requires IsTerm(t) && m.natom == 0 && |m.parens| + Depth(t) <= PAREN_SIZE
    ensures Run(m, Text(t) + ['|']) == Some(m')
    ensures m' == m.(nalt := m.nalt + 1, out := m.out + Post(t))
    decreases t, 3
  {
    hide Step, Dots, IsTerm, Text, Post, Depth;
    var m1 := TermRuns(m, t);
    RunSnoc(m, Text(t), '|');
    BarStep(m1);
    m' := m1.(nalt := m1.nalt + 1, natom := 0, out := m1.out + Dots(m1.natom));
  }

  lemma {:induction false} AltRuns(m: Machine, t: Tree) returns (m': Machine)
    requires IsAlt(t) && m.natom == 0 && |m.parens| + Depth(t) <= PAREN_SIZE
    ensures Run(m, Text(t)) == Some(m')
    ensures m'.parens == m.parens && 1 <= m'.natom <= 2 && m.nalt <= m'.nalt
    ensures m'.out + Dots(m'.natom) + Repeat('|', m'.nalt - m.nalt) == m.out + Post(t)
    decreases t, 3
  {
    hide Step, Dots;
    if IsTerm(t) {
      m' := TermRuns(m, t);
      assert m'.out + Dots(m'.natom) + [] == m'.out + Dots(m'.natom);
    } else {
      var m2 := BarRuns(m, t.l);
      m' := AltRuns(m2, t.r);
      RunAppend(m, Text(t.l) + ['|'], Text(t.r));
      BarOut(m.out, Post(t.l), Post(t.r), m'.out + Dots(m'.natom), m'.nalt - m2.nalt);
    }
  }

  /** One more bar closes one more alternative. */
  lemma BarOut(out: CString, l: CString, r: CString, rest: CString, k: nat)
    requires rest + Repeat('|', k) == out + l + r
    ensures rest + Repeat('|', k + 1) == out + (l + r + ['|'])
  {
    RepeatSnoc('|', k);
    assert rest + (Repeat('|', k) + ['|']) == (rest + Repeat('|', k)) + ['|'];
  }

  // ---------------------------------------------------------------- Soundness: what is accepted has a tree

  /** What follows the last '|' or '(' of a nesting level: nothing, one term, or a term and a factor. */
  datatype Pending = Zero | One(t: Tree) | Two(t: Tree, f: Tree)

  /** One open nesting level: the alternatives already closed by '|', and the pending part. */
  datatype Frame = Frame(done: seq<Tree>, pend: Pending)

  /** The open nesting levels, innermost on the outside. */
  datatype Levels = Bottom(top: Frame) | Above(below: Levels, top: Frame)

  function Natom(p: Pending): nat {
    match p
    case Zero => 0
    case One(_) => 1
    case Two(_, _) => 2
  }

  function PendingText(p: Pending): CString {
    match p
    case Zero => []
    case One(t) => Text(t)
    case Two(t, f) => Text(t) + Text(f)
  }

  function PendingOut(p: Pending): CString {
    match p
    case Zero => []
    case One(t) => Post(t)
    case Two(t, f) => Post(t) + Post(f)
  }

  function DoneText(done: seq<Tree>): CString {
    if done == [] then [] else DoneText(done[..|done| - 1]) + (Text(done[|done| - 1]) + ['|'])
  }

  function DoneOut(done: seq<Tree>): CString {
    if done == [] then [] else DoneOut(done[..|done| - 1]) + Post(done[|done| - 1])
  }

  function FrameText(f: Frame): CString {
    DoneText(f.done) + PendingText(f.pend)
  }

  function FrameOut(f: Frame): CString {
    DoneOut(f.done) + PendingOut(f.pend)
  }

  /** The text up to and including the innermost open parenthesis. */
  function TextBelow(ls: Levels): CString {
    if ls.Bottom? then [] else TextBelow(ls.below) + FrameText(ls.below.top) + ['(']
  }

  /** The output written before the innermost open parenthesis. */
  function OutBelow(ls: Levels): CString {
    if ls.Bottom? then [] else OutBelow(ls.below) + FrameOut(ls.below.top)
  }

  /** The counters saved for the enclosing levels. */
  function Saves(ls: Levels): seq<Saved> {
    if ls.Bottom? then [] else Saves(ls.below) + [Saved(|ls.below.top.done|, Natom(ls.below.top.pend))]
  }

  /** The pending part is well formed; on the innermost level a quantifier would apply to a factor. */
  predicate PendingOk(p: Pending, innermost: bool, depth: int) {
    match p
    case Zero => true
    case One(t) => (if innermost then IsFactor(t) else IsTerm(t)) && Depth(t) <= depth
    case Two(t, f) => innermost && IsTerm(t) && IsFactor(f) && Depth(t) <= depth && Depth(f) <= depth
  }

  predicate DoneOk(done: seq<Tree>, depth: int) {
    forall k :: 0 <= k < |done| ==> IsTerm(done[k]) && Depth(done[k]) <= depth
  }

  /** Every level is well formed; `depth` is the nesting still allowed inside the innermost one. */
  predicate LevelsOk(ls: Levels, innermost: bool, depth: nat) {
    && DoneOk(ls.top.done, depth)
    && PendingOk(ls.top.pend, innermost, depth)
    && depth + |Saves(ls)| == PAREN_SIZE
    && (ls.Above? ==> LevelsOk(ls.below, false, depth + 1))
  }

  /** `ls` explains how the text read so far led to machine `m`. */
  predicate Represents(ls: Levels, text: CString, m: Machine) {
    && |m.parens| <= PAREN_SIZE
    && LevelsOk(ls, true, PAREN_SIZE - |m.parens|)
    && m == Machine(|ls.top.done|, Natom(ls.top.pend), Saves(ls), OutBelow(ls) + FrameOut(ls.top))
    && text == TextBelow(ls) + FrameText(ls.top)
  }

  /** Alternatives are joined from the right. */
  function MkAlt(ts: seq<Tree>, last: Tree): Tree {
    if ts == [] then last else MkAlt(ts[..|ts| - 1], Bar(ts[|ts| - 1], last))
  }

  lemma Assoc(a: CString, b: CString, c: CString)
    ensures (a + b) + c == a + (b + c)
  {
  }

  lemma {:induction false} MkAltIs(ts: seq<Tree>, last: Tree, depth: nat)
    requires DoneOk(ts, depth) && IsAlt(last) && Depth(last) <= depth
    ensures IsAlt(MkAlt(ts, last)) && Depth(MkAlt(ts, last)) <= depth
    ensures Text(MkAlt(ts, last)) == DoneText(ts) + Text(last)
  {
    if ts != [] {
      var n := |ts| - 1;
      MkAltIs(ts[..n], Bar(ts[n], last), depth);
      Assoc(DoneText(ts[..n]), Text(ts[n]) + ['|'], Text(last));
    }
  }

  /** The bars of right-joined alternatives pile up at the end of the postfix form. */
  lemma {:induction false} MkAltPost(ts: seq<Tree>, last: Tree)
    ensures Post(MkAlt(ts, last)) == DoneOut(ts) + Post(last) + Repeat('|', |ts|)
  {
    if ts != [] {
      var n := |ts| - 1;
      MkAltPost(ts[..n], Bar(ts[n], last));
      OneMoreBar(DoneOut(ts[..n]), Post(ts[n]), Post(last), n);
    }
  }

  lemma OneMoreBar(a: CString, b: CString, c: CString, n: nat)
    ensures a + (b + c + ['|']) + Repeat('|', n) == (a + b) + c + Repeat('|', n + 1)
  {
    assert Repeat('|', n + 1) == ['|'] + Repeat('|', n);
  }

  function PendingTerm(p: Pending): Tree
    requires p != Zero
  {
    match p
    case One(t) => t
    case Two(t, f) => Juxt(t, f)
  }

  lemma PendingTermIs(p: Pending, depth: int)
    requires p != Zero && PendingOk(p, true, depth)
    ensures IsTerm(PendingTerm(p)) && Depth(PendingTerm(p)) <= depth
    ensures Text(PendingTerm(p)) == PendingText(p)
    ensures Post(PendingTerm(p)) == PendingOut(p) + Dots(Natom(p))
  {
    assert Dots(1) == [];
    assert Dots(2) == ['.'];
  }

  /** A level with something pending closes into one alternation. */
  lemma CloseFrame(f: Frame, depth: nat) returns (t: Tree)
    requires f.pend != Zero && DoneOk(f.done, depth) && PendingOk(f.pend, true, depth)
    ensures IsAlt(t) && Depth(t) <= depth
    ensures Text(t) == FrameText(f)
    ensures Post(t) == FrameOut(f) + Dots(Natom(f.pend)) + Repeat('|', |f.done|)
  {
    PendingTermIs(f.pend, depth);
    t := MkAlt(f.done, PendingTerm(f.pend));
    MkAltIs(f.done, PendingTerm(f.pend), depth);
    MkAltPost(f.done, PendingTerm(f.pend));
    Assoc(DoneOut(f.done), PendingOut(f.pend), Dots(Natom(f.pend)));
  }

  function With(ls: Levels, f: Frame): Levels {
    ls.(top := f)
  }

  /** Replacing the innermost frame by one with more text and output. */
  lemma ReplaceTop(ls: Levels, s: CString, m: Machine, f: Frame, text: CString, out: CString)
    requires Represents(ls, s, m)
    requires DoneOk(f.done, PAREN_SIZE - |m.parens|) && PendingOk(f.pend, true, PAREN_SIZE - |m.parens|)
    requires FrameText(f) == FrameText(ls.top) + text && FrameOut(f) == FrameOut(ls.top) + out
    ensures Represents(With(ls, f), s + text, Machine(|f.done|, Natom(f.pend), m.parens, m.out + out))
  {
    Assoc(TextBelow(ls), FrameText(ls.top), text);
    Assoc(OutBelow(ls), FrameOut(ls.top), out);
  }

  /** Pending atoms once the pair, if any, has been joined. */
  function JoinPending(p: Pending): Pending {
    if p.Two? then One(Juxt(p.t, p.f)) else p
  }

  function AddFactor(p: Pending, f: Tree): Pending
    requires !p.Two?
  {
    match p
    case Zero => One(f)
    case One(t) => Two(t, f)
  }

  function QuantifyPending(p: Pending, op: Byte): Pending
    requires p != Zero
  {
    match p
    case One(t) => One(Quant(t, op))
    case Two(t, f) => Two(t, Quant(f, op))
  }

  lemma QuantifyPendingIs(p: Pending, op: Byte, depth: int)
    requires p != Zero && PendingOk(p, true, depth) && IsQuantifier(op)
    ensures var q := QuantifyPending(p, op);
            && PendingOk(q, true, depth) && Natom(q) == Natom(p)
            && PendingText(q) == PendingText(p) + [op] && PendingOut(q) == PendingOut(p) + [op]
  {
  }

  lemma StepQuantifier(ls: Levels, s: CString, m: Machine, b: Byte) returns (ls': Levels)
    requires Represents(ls, s, m) && Step(m, b).Some? && IsQuantifier(b)
    ensures Represents(ls', s + [b], Step(m, b).value)
  {
    QuantifyPendingIs(ls.top.pend, b, PAREN_SIZE - |m.parens|);
    var f := ls.top.(pend := QuantifyPending(ls.top.pend, b));
    Assoc(DoneText(f.done), PendingText(ls.top.pend), [b]);
    Assoc(DoneOut(f.done), PendingOut(ls.top.pend), [b]);
    ReplaceTop(ls, s, m, f, [b], [b]);
    ls' := With(ls, f);
  }

  /** A closed alternative joins the others of its level. */
  lemma CloseTerm(f: Frame, depth: nat) returns (g: Frame)
    requires f.pend != Zero && DoneOk(f.done, depth) && PendingOk(f.pend, true, depth)
    ensures DoneOk(g.done, depth) && |g.done| == |f.done| + 1 && g.pend == Zero
    ensures FrameText(g) == FrameText(f) + ['|'] && FrameOut(g) == FrameOut(f) + Dots(Natom(f.pend))
  {
    PendingTermIs(f.pend, depth);
    var t := PendingTerm(f.pend);
    g := Frame(f.done + [t], Zero);
    assert g.done[..|f.done|] == f.done;
    Assoc(DoneText(f.done), Text(t), ['|']);
    Assoc(DoneOut(f.done), PendingOut(f.pend), Dots(Natom(f.pend)));
  }

  lemma StepBar(ls: Levels, s: CString, m: Machine, b: Byte) returns (ls': Levels)
    requires Represents(ls, s, m) && Step(m, b).Some? && b == '|'
    ensures Represents(ls', s + [b], Step(m, b).value)
  {
    var g := CloseTerm(ls.top, PAREN_SIZE - |m.parens|);
    ReplaceTop(ls, s, m, g, [b], Dots(m.natom));
    ls' := With(ls, g);
  }

  /** `ls` explains `text` and `m` after a join, when the innermost level is about to be left or extended. */
  predicate Joined(ls: Levels, text: CString, m: Machine) {
    && |m.parens| <= PAREN_SIZE
    && LevelsOk(ls, false, PAREN_SIZE - |m.parens|)
    && m == Machine(|ls.top.done|, Natom(ls.top.pend), Saves(ls), OutBelow(ls) + FrameOut(ls.top))
    && text == TextBelow(ls) + FrameText(ls.top)
  }

  lemma JoinFrame(f: Frame, depth: int) returns (g: Frame)
    requires PendingOk(f.pend, true, depth)
    ensures g == f.(pend := JoinPending(f.pend)) && PendingOk(g.pend, false, depth)
    ensures Natom(g.pend) == if Natom(f.pend) > 1 then 1 else Natom(f.pend)
    ensures FrameText(g) == FrameText(f)
    ensures FrameOut(g) == FrameOut(f) + if Natom(f.pend) > 1 then ['.'] else []
  {
    g := f.(pend := JoinPending(f.pend));
    assert PendingText(g.pend) == PendingText(f.pend);
    if Natom(f.pend) > 1 {
      assert PendingOut(g.pend) == PendingOut(f.pend) + ['.'];
      Assoc(DoneOut(f.done), PendingOut(f.pend), ['.']);
    }
  }

  lemma JoinLevels(ls: Levels, s: CString, m: Machine) returns (ls': Levels)
    requires Represents(ls, s, m)
    ensures Joined(ls', s, Join(m))
  {
    hide FrameText, FrameOut, DoneOk, PendingOk;
    var g := JoinFrame(ls.top, PAREN_SIZE - |m.parens|);
    ls' := With(ls, g);
    Assoc(OutBelow(ls), FrameOut(ls.top), ['.']);
    assert FrameOut(ls.top) + [] == FrameOut(ls.top);
  }

  /** A level that has just been opened has nothing in it. */
  lemma OpenText(ls: Levels)
    ensures var o := Above(ls, Frame([], Zero));
            && TextBelow(o) + FrameText(o.top) == TextBelow(ls) + FrameText(ls.top) + ['(']
            && OutBelow(o) + FrameOut(o.top) == OutBelow(ls) + FrameOut(ls.top)
  {
    var f := Frame([], Zero);
    assert FrameText(f) == [] && FrameOut(f) == [];
  }

  lemma OpenLevelsOk(ls: Levels, depth: nat)
    requires depth > 0 && LevelsOk(ls, false, depth)
    ensures LevelsOk(Above(ls, Frame([], Zero)), true, depth - 1)
  {
    hide DoneOk, PendingOk, Natom;
    var o := Above(ls, Frame([], Zero));
    assert DoneOk(o.top.done, depth - 1) && PendingOk(o.top.pend, true, depth - 1) by {
      NothingOk(depth - 1);
    }
  }

  lemma NothingOk(depth: int)
    ensures DoneOk([], depth) && PendingOk(Zero, true, depth)
  {
  }

  lemma OpenLevel(ls: Levels, s: CString, m: Machine) returns (ls': Levels)
    requires Joined(ls, s, m) && |m.parens| < PAREN_SIZE
    ensures Represents(ls', s + ['('], Machine(0, 0, m.parens + [Saved(m.nalt, m.natom)], m.out))
  {
    hide LevelsOk, FrameText, FrameOut, TextBelow, OutBelow;
    ls' := Above(ls, Frame([], Zero));
    OpenText(ls);
    OpenLevelsOk(ls, PAREN_SIZE - |m.parens|);
  }

  lemma StepOpen(ls: Levels, s: CString, m: Machine, b: Byte) returns (ls': Levels)
    requires Represents(ls, s, m) && Step(m, b).Some? && b == '('
    ensures Represents(ls', s + [b], Step(m, b).value)
  {
    var mid := JoinLevels(ls, s, m);
    ls' := OpenLevel(mid, s, Join(m));
  }

  function Beside(f: Frame, t: Tree): Frame
    requires !f.pend.Two?
  {
    f.(pend := AddFactor(f.pend, t))
  }

  /** A new factor goes beside whatever is pending. */
  lemma BesideIs(f: Frame, t: Tree, depth: int)
    requires PendingOk(f.pend, false, depth) && IsFactor(t) && Depth(t) <= depth
    ensures !f.pend.Two?
    ensures PendingOk(Beside(f, t).pend, true, depth) && Natom(Beside(f, t).pend) == Natom(f.pend) + 1
    ensures FrameText(Beside(f, t)) == FrameText(f) + Text(t)
    ensures FrameOut(Beside(f, t)) == FrameOut(f) + Post(t)
  {
    var p := AddFactor(f.pend, t);
    assert PendingText(p) == PendingText(f.pend) + Text(t);
    assert PendingOut(p) == PendingOut(f.pend) + Post(t);
    Assoc(DoneText(f.done), PendingText(f.pend), Text(t));
    Assoc(DoneOut(f.done), PendingOut(f.pend), Post(t));
  }

  /** Adding a factor to a level that has been joined. */
  lemma AddToLevel(ls: Levels, t: Tree, s: CString, m: Machine) returns (ls': Levels)
    requires Joined(ls, s, m) && IsFactor(t) && Depth(t) <= PAREN_SIZE - |m.parens|
    ensures Represents(ls', s + Text(t), m.(natom := m.natom + 1, out := m.out + Post(t)))
  {
    hide FrameText, FrameOut, DoneOk, PendingOk, Natom, Text, Post, Depth, IsFactor, AddFactor;
    BesideIs(ls.top, t, PAREN_SIZE - |m.parens|);
    ls' := With(ls, Beside(ls.top, t));
    Assoc(TextBelow(ls), FrameText(ls.top), Text(t));
    Assoc(OutBelow(ls), FrameOut(ls.top), Post(t));
  }

  lemma StepOrdinary(ls: Levels, s: CString, m: Machine, b: Byte) returns (ls': Levels)
    requires Represents(ls, s, m) && IsOrdinary(b)
    ensures Represents(ls', s + [b], Step(m, b).value)
  {
    var mid := JoinLevels(ls, s, m);
    ls' := AddToLevel(mid, Sym(b), s, Join(m));
  }

  lemma CloseText(a: CString, t: CString)
    ensures a + (['('] + t + [')']) == a + ['('] + t + [')']
  {
  }

  lemma CloseOut(a: CString, b: CString, c: CString, d: CString)
    ensures a + (b + c + d) == a + b + c + d
  {
  }

  /** The level around the innermost one, and the machine as it was when that level was left. */
  lemma OuterLevel(ls: Levels, s: CString, m: Machine) returns (text: CString, outer: Machine)
    requires Represents(ls, s, m) && m.parens != []
    ensures ls.Above? && Joined(ls.below, text, outer)
    ensures s == text + ['('] + FrameText(ls.top)
    ensures m == Machine(|ls.top.done|, Natom(ls.top.pend), outer.parens + [Saved(outer.nalt, outer.natom)],
                         outer.out + FrameOut(ls.top))
  {
    hide FrameText, FrameOut, DoneOk, PendingOk, Natom, Text;
    var o := ls.below;
    text := TextBelow(o) + FrameText(o.top);
    outer := Machine(|o.top.done|, Natom(o.top.pend), Saves(o), OutBelow(o) + FrameOut(o.top));
  }

  /** The innermost level, closed, becomes one more factor of the level around it. */
  lemma StepClose(ls: Levels, s: CString, m: Machine, b: Byte) returns (ls': Levels)
    requires Represents(ls, s, m) && m.natom != 0 && m.parens != [] && b == ')'
    ensures Step(m, b).Some? && Represents(ls', s + [b], Step(m, b).value)
  {
    var text, outer := OuterLevel(ls, s, m);
    var t := CloseFrame(ls.top, PAREN_SIZE - |m.parens|);
    ls' := AddToLevel(ls.below, Group(t), text, outer);
    CloseText(text, Text(t));
    CloseOut(outer.out, FrameOut(ls.top), Dots(m.natom), Repeat('|', m.nalt));
    GroupStep(m, outer);
  }

  lemma StepSound(ls: Levels, s: CString, m: Machine, b: Byte) returns (ls': Levels)
    requires Represents(ls, s, m) && Step(m, b).Some?
    ensures Represents(ls', s + [b], Step(m, b).value)
  {
    if b == '(' {
      ls' := StepOpen(ls, s, m, b);
    } else if b == '|' {
      ls' := StepBar(ls, s, m, b);
    } else if b == ')' {
      ls' := StepClose(ls, s, m, b);
    } else if IsQuantifier(b) {
      ls' := StepQuantifier(ls, s, m, b);
    } else {
      ls' := StepOrdinary(ls, s, m, b);
    }
  }

  /** Whatever the parser has read without failing is explained by well-formed levels. */
  lemma {:induction false} RunSound(s: CString) returns (ls: Levels)
    requires Run(Init, s).Some?
    ensures Represents(ls, s, Run(Init, s).value)
    decreases s
  {
    if s == [] {
      ls := Bottom(Frame([], Zero));
    } else {
      var n := |s| - 1;
      assert s == s[..n] + [s[n]];
      RunAppend(Init, s[..n], [s[n]]);
      RunSnoc(Init, s[..n], s[n]);
      var mid := RunSound(s[..n]);
      ls := StepSound(mid, s[..n], Run(Init, s[..n]).value, s[n]);
    }
  }

  // ---------------------------------------------------------------- The language accepted

  /** The whole parser; `None` is the NULL return. */
  function Translation(re: CString): Option<CString> {
    if |re| >= BUF_SIZE / 2 then None
    else
      match Run(Init, re)
      case None => None
      case Some(m) => Finish(m)
  }

  /** A tree the parser has room for. */
  predicate Fits(t: Tree) {
    IsAlt(t) && Depth(t) <= 100
  }

  ghost predicate HasTree(re: CString) {
    exists t :: Fits(t) && Text(t) == re
  }

  /** A regular expression followed by a stray bar. */
  ghost predicate HasTrailingBar(re: CString) {
    re != [] && re[|re| - 1] == '|' && HasTree(re[..|re| - 1])
  }

  /** Every tree parses to its own postfix form; a stray final bar is copied to the output. */
  lemma TreeParses(t: Tree)
    requires Fits(t)
    ensures |Text(t)| < 4000 ==> Translation(Text(t)) == Some(Post(t))
    ensures |Text(t)| + 1 < 4000 ==> Translation(Text(t) + ['|']) == Some(Post(t) + ['|'])
  {
    hide Step, IsAlt, Text, Post;
    var m := AltRuns(Init, t);
    RunSnoc(Init, Text(t), '|');
    BarStep(m);
    var k := m.nalt;
    RepeatSnoc('|', k);
    assert [] + Post(t) == Post(t);
    assert m.out + Dots(m.natom) + [] == m.out + Dots(m.natom);
    assert m.out + Dots(m.natom) + (Repeat('|', k) + ['|']) == m.out + Dots(m.natom) + Repeat('|', k) + ['|'];
  }

  /** The empty string parses to nothing. */
  lemma EmptyParses()
    ensures Translation([]) == Some([])
  {
    assert Run(Init, []) == Some(Init);
    assert Dots(0) == [] && Repeat('|', 0) == [];
    assert Init.parens == [] && Init.out + [] + [] == [];
    assert Finish(Init) == Some([]);
  }

  /** What is left pending at the end closes into a tree of the whole text. */
  lemma PendingHasTree(re: CString, ls: Levels, m: Machine)
    requires Represents(ls, re, m) && m.parens == [] && m.natom > 0
    ensures HasTree(re)
  {
    hide IsAlt, Text, FrameText, DoneOk, PendingOk;
    var t := CloseFrame(ls.top, PAREN_SIZE);
    assert [] + FrameText(ls.top) == FrameText(ls.top);
    assert Text(t) == re;
  }

  /** With nothing pending but a bar read, what was read before it is a tree. */
  lemma BarHasTree(re: CString, ls: Levels, m: Machine)
    requires Represents(ls, re, m) && m.parens == [] && m.natom == 0 && m.nalt > 0
    ensures HasTrailingBar(re)
  {
    var done := ls.top.done;
    var n := |done| - 1;
    MkAltIs(done[..n], done[n], PAREN_SIZE);
    var t := MkAlt(done[..n], done[n]);
    assert re == DoneText(done[..n]) + (Text(done[n]) + ['|']);
    assert re[..|re| - 1] == Text(t);
  }

  /** Whatever is accepted is empty, has a tree, or has a tree and a stray final bar. */
  lemma AcceptedHasTree(re: CString)
    requires Translation(re).Some?
    ensures re == [] || HasTree(re) || HasTrailingBar(re)
  {
    hide HasTree, HasTrailingBar;
    var m := Run(Init, re).value;
    var ls := RunSound(re);
    if m.natom > 0 {
      PendingHasTree(re, ls, m);
    } else if m.nalt > 0 {
      BarHasTree(re, ls, m);
    } else {
      assert re == [];
    }
  }

  /** The parser fails exactly on overlong input and on input outside the grammar, where the empty
      string and one stray final bar slip through. */
  lemma AcceptedExactly(re: CString)
    ensures Translation(re).Some? <==>
            |re| < 4000 && (re == [] || HasTree(re) || HasTrailingBar(re))
  {
    if Translation(re).Some? {
      AcceptedHasTree(re);
    } else if |re| < 4000 {
      assert re != [];
      if HasTree(re) {
        var t :| Fits(t) && Text(t) == re;
        TreeParses(t);
      } else if HasTrailingBar(re) {
        var t :| Fits(t) && Text(t) == re[..|re| - 1];
        assert re == Text(t) + ['|'];
        TreeParses(t);
      }
    }
  }

  // ---------------------------------------------------------------- Room in the output buffer

  function SavedCount(parens: seq<Saved>): nat {
    if parens == [] then 0
    else
      var top := parens[|parens| - 1];
      SavedCount(parens[..|parens| - 1]) + top.nalt + top.natom
  }

  /** Bytes written plus operators still owed. */
  function Owed(m: Machine): nat {
    |m.out| + m.nalt + m.natom + SavedCount(m.parens)
  }

  lemma OwedStep(m: Machine, b: Byte)
    requires Step(m, b).Some?
    ensures Owed(Step(m, b).value) <= Owed(m) + 2
    ensures |m.out| <= |Step(m, b).value.out|
  {
    if b == '(' {
      var j := Join(m);
      var parens' := j.parens + [Saved(j.nalt, j.natom)];
      assert parens'[..|j.parens|] == j.parens;
    }
  }

  /** The output never outgrows twice the input read, so it stays inside the buffer; nor do two
      atoms ever wait for a join without a third one starting. */
  lemma {:induction false} OutputRoom(s: CString)
    requires Run(Init, s).Some?
    ensures Owed(Run(Init, s).value) <= 2 * |s|
    ensures Run(Init, s).value.natom <= 2 && |Run(Init, s).value.parens| <= PAREN_SIZE
    decreases s
  {
    if s != [] {
      var n := |s| - 1;
      assert s == s[..n] + [s[n]];
      RunAppend(Init, s[..n], [s[n]]);
      RunSnoc(Init, s[..n], s[n]);
      OutputRoom(s[..n]);
      OwedStep(Run(Init, s[..n]).value, s[n]);
      var _ := RunSound(s);
    }
  }

  /** What reading character `i` does to the run, and the room it leaves. */
  lemma ReadOne(re: CString, i: nat)
    requires i < |re| && Run(Init, re[..i]).Some?
    ensures Run(Init, re[..i + 1]) == Step(Run(Init, re[..i]).value, re[i])
    ensures Run(Init, re[..i + 1]).None? ==> Run(Init, re).None?
    ensures |Run(Init, re[..i]).value.out| <= 2 * i
    ensures Run(Init, re[..i + 1]).Some? ==> |Run(Init, re[..i + 1]).value.out| <= 2 * (i + 1)
  {
    RunSnoc(Init, re[..i], re[i]);
    assert re[..i] + [re[i]] == re[..i + 1] && re == re[..i + 1] + re[i + 1..];
    RunAppend(Init, re[..i + 1], re[i + 1..]);
    OutputRoom(re[..i]);
    if Run(Init, re[..i + 1]).Some? {
      OutputRoom(re[..i + 1]);
    }
  }

  /** What the translation of `re` is, in terms of parse trees. */
  lemma TranslationIs(re: CString)
    ensures Translation(re).Some? <==>
            |re| < 4000 && (re == [] || HasTree(re) || HasTrailingBar(re))
    ensures forall t :: Translation(re).Some? && Fits(t) && Text(t) == re ==> Translation(re).value == Post(t)
    ensures Translation(re).Some? ==> |Translation(re).value| <= 2 * |re|
  {
    AcceptedExactly(re);
    forall t | Translation(re).Some? && Fits(t) && Text(t) == re
      ensures Translation(re).value == Post(t)
    {
      TreeParses(t);
    }
    if Translation(re).Some? {
      OutputRoom(re);
    }
  }

  // ---------------------------------------------------------------- The parser as written

  /** The variables of the parser: `dst` indexes the output buffer, `p` the paren stack. */
  class Parser {
    const buf: array<Byte>
    const paren: array<Saved>
    var dst: nat
    var p: nat
    var nalt: nat
    var natom: nat

    ghost predicate Valid()
      reads this
    {
      buf.Length == BUF_SIZE && paren.Length == PAREN_SIZE && dst <= buf.Length && p <= paren.Length
    }

    ghost function State(): Machine
      reads this, buf, paren
      requires Valid()
    {
      Machine(nalt, natom, paren[..p], buf[..dst])
    }

    constructor ()
      ensures Valid() && State() == Init && fresh(buf) && fresh(paren)
    {
      buf := new Byte[BUF_SIZE](_ => 'a');
      paren := new Saved[PAREN_SIZE](_ => Saved(0, 0));
      dst, p, nalt, natom := 0, 0, 0, 0;
    }

    /** `*dst++ = b` */
    method Put(b: Byte)
      requires Valid() && dst < buf.Length
      modifies this`dst, buf
      ensures Valid() && dst == old(dst) + 1 && buf[..dst] == old(buf[..dst]) + [b]
    {
      buf[dst] := b;
      dst := dst + 1;
    }

    /** `while(--natom > 0) *dst++ = '.'`; the counter is dead afterwards. */
    method PutDots()
      requires Valid() && dst + |Dots(natom)| <= buf.Length
      modifies this`dst, buf
      ensures Valid() && buf[..dst] == old(buf[..dst]) + Dots(natom) && dst == old(dst) + |Dots(natom)|
    {
      var n := natom - 1;
      while n > 0
        invariant Valid() && (n >= 0 || natom == 0)
        invariant dst == old(dst) + |Dots(natom)| - |Repeat('.', n)|
        invariant buf[..dst] == old(buf[..dst]) + Repeat('.', |Dots(natom)| - |Repeat('.', n)|)
      {
        RepeatSnoc('.', |Dots(natom)| - n);
        Put('.');
        n := n - 1;
      }
    }

    /** `for(; nalt > 0; nalt--) *dst++ = '|'` */
    method PutBars()
      requires Valid() && dst + nalt <= buf.Length
      modifies this`dst, this`nalt, buf
      ensures Valid() && buf[..dst] == old(buf[..dst]) + Repeat('|', old(nalt)) && dst == old(dst + nalt)
    {
      while nalt > 0
        invariant Valid() && nalt <= old(nalt) && dst == old(dst + nalt) - nalt
        invariant buf[..dst] == old(buf[..dst]) + Repeat('|', old(nalt) - nalt)
      {
        RepeatSnoc('|', old(nalt) - nalt);
        Put('|');
        nalt := nalt - 1;
      }
    }

    /** `if(natom > 1){ --natom; *dst++ = '.'; }` */
    method JoinAtoms()
      requires Valid() && dst < buf.Length
      modifies this`dst, this`natom, buf
      ensures Valid() && State() == Join(old(State())) && dst <= old(dst) + 1
    {
      if natom > 1 {
        natom := natom - 1;
        Put('.');
      }
    }

    /** '(': the counters are saved and start anew. */
    method OpenGroup() returns (ok: bool)
      requires Valid() && dst < buf.Length
      modifies this, buf, paren
      ensures Valid() && ok == old(Step(State(), '(')).Some?
      ensures ok ==> State() == old(Step(State(), '(')).value
    {
      JoinAtoms();
      if p >= PAREN_SIZE {
        return false;
      }
      ghost var j := State();
      paren[p] := Saved(nalt, natom);
      p := p + 1;
      nalt, natom := 0, 0;
      assert paren[..p] == j.parens + [Saved(j.nalt, j.natom)];
      return true;
    }

    /** ')': what is pending is written out, and the saved counters come back. */
    method CloseGroup() returns (ok: bool)
      requires Valid()
      requires Step(State(), ')').Some? ==> |Step(State(), ')').value.out| <= buf.Length
      modifies this, buf, paren
      ensures Valid() && ok == old(Step(State(), ')')).Some?
      ensures ok ==> State() == old(Step(State(), ')')).value
    {
      hide Dots, Repeat;
      if p == 0 {
        return false;
      }
      if natom == 0 {
        return false;
      }
      ghost var before := State();
      PutDots();
      PutBars();
      p := p - 1;
      assert paren[..p] == before.parens[..p];
      nalt, natom := paren[p].nalt, paren[p].natom;
      natom := natom + 1;
      return true;
    }

    /** One pass through the switch; `ok` is false where the source returns NULL. */
    method Read(b: Byte) returns (ok: bool)
      requires Valid() && dst < buf.Length
      requires Step(State(), b).Some? ==> |Step(State(), b).value.out| <= buf.Length
      modifies this, buf, paren
      ensures Valid() && ok == old(Step(State(), b)).Some?
      ensures ok ==> State() == old(Step(State(), b)).value
    {
      if b == '(' {
        ok := OpenGroup();
        return;
      } else if b == '|' {
        if natom == 0 {
          return false;
        }
        PutDots();
        natom := 0;
        nalt := nalt + 1;
      } else if b == ')' {
        ok := CloseGroup();
        return;
      } else if b == '*' || b == '+' || b == '?' {
        if natom == 0 {
          return false;
        }
        Put(b);
      } else {
        JoinAtoms();
        Put(b);
        natom := natom + 1;
      }
      return true;
    }
  }

  method Re2Post(re: CString) returns (post: Option<CString>)
    ensures post == Translation(re)
    ensures post.Some? <==> |re| < 4000 && (re == [] || HasTree(re) || HasTrailingBar(re))
    ensures forall t :: post.Some? && Fits(t) && Text(t) == re ==> post.value == Post(t)
    ensures post.Some? ==> |post.value| <= 2 * |re|
  {
    TranslationIs(re);
    if |re| >= BUF_SIZE / 2 {
      return None;
    }
    var m := new Parser();
    var i := 0;
    assert re[..0] == [];
    while i < |re|
      invariant 0 <= i <= |re| && m.Valid() && fresh(m) && fresh(m.buf) && fresh(m.paren)
      invariant Run(Init, re[..i]) == Some(m.State())
    {
      ReadOne(re, i);
      var ok := m.Read(re[i]);
      if !ok {
        return None;
      }
      i := i + 1;
    }
    assert re[..i] == re;
    OutputRoom(re);
    if m.p != 0 {
      return None;
    }
    m.PutDots();
    m.PutBars();
    return Some(m.buf[..m.dst]);
  }
}
