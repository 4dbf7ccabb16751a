/** Reading a postfix string with a stack: what it denotes and when the stack suffices. */
module Postfix {
  import opened RegexSyntax

  const STACK_SIZE := 1000

  function Arity(b: Byte): nat {
    if b == '.' || b == '|' then 2 else if b == '*' || b == '+' || b == '?' then 1 else 0
  }

  /** The expressions denoted by the fragments left on the stack after `p`. */
  function Eval(p: CString): seq<Re> {
    if p == [] then []
    else EvalOne(Eval(p[..|p| - 1]), p[|p| - 1])
  }

  /** One postfix character; a pop from an empty stack leaves the stack as it is. */
  function EvalOne(st: seq<Re>, b: Byte): (st': seq<Re>)
    ensures |st'| == if |st| < Arity(b) then |st| else |st| + 1 - Arity(b)
  {
    var n := |st|;
    if n < Arity(b) then st
    else if b == '.' then st[..n - 2] + [Cat(st[n - 2], st[n - 1])]
    else if b == '|' then st[..n - 2] + [Alt(st[n - 2], st[n - 1])]
    else if b == '?' then st[..n - 1] + [Opt(st[n - 1])]
    else if b == '*' then st[..n - 1] + [Star(st[n - 1])]
    else if b == '+' then st[..n - 1] + [Plus(st[n - 1])]
    else st + [Lit(b)]
  }

  /** The stack is neither popped when empty nor pushed when full while `p` is read. */
  predicate PrefixSafe(p: CString) {
    p == [] ||
    var q := p[..|p| - 1];
    PrefixSafe(q) && Arity(p[|p| - 1]) <= |Eval(q)| && |Eval(p)| <= STACK_SIZE
  }

  /** `p` can be read, and the final pop finds something. */
  predicate StackSafe(p: CString) {
    PrefixSafe(p) && Eval(p) != []
  }

  lemma EvalSnoc(p: CString, b: Byte)
    ensures Eval(p + [b]) == EvalOne(Eval(p), b)
  {
    assert (p + [b])[..|p|] == p;
  }

  lemma PrefixSafeSnoc(p: CString, b: Byte)
    ensures PrefixSafe(p + [b]) <==> PrefixSafe(p) && Arity(b) <= |Eval(p)| && |Eval(p + [b])| <= STACK_SIZE
  {
    assert (p + [b])[..|p|] == p;
  }

  predicate OrdinaryLiterals(r: Re) {
    match r
    case Lit(b) => IsOrdinary(b)
    case Cat(x, y) => OrdinaryLiterals(x) && OrdinaryLiterals(y)
    case Alt(x, y) => OrdinaryLiterals(x) && OrdinaryLiterals(y)
    case Star(x) => OrdinaryLiterals(x)
    case Plus(x) => OrdinaryLiterals(x)
    case Opt(x) => OrdinaryLiterals(x)
  }

  /** How many literals of `r` are a '.', which the postfix form cannot tell from concatenation. */
  function DotLiterals(r: Re): nat {
    match r
    case Lit(b) => if b == '.' then 1 else 0
    case Cat(x, y) => DotLiterals(x) + DotLiterals(y)
    case Alt(x, y) => DotLiterals(x) + DotLiterals(y)
    case Star(x) => DotLiterals(x)
    case Plus(x) => DotLiterals(x)
    case Opt(x) => DotLiterals(x)
  }

  /** The stack depth the postfix form of `r` needs. */
  function Need(r: Re): nat {
    match r
    case Lit(_) => 1
    case Cat(x, y) => Max(Need(x), 1 + Need(y))
    case Alt(x, y) => Max(Need(x), 1 + Need(y))
    case Star(x) => Need(x)
    case Plus(x) => Need(x)
    case Opt(x) => Need(x)
  }

  lemma {:induction false} TreesAreOrdinary(t: Tree)
    requires IsAlt(t)
    ensures OrdinaryLiterals(ToRe(t))
    decreases t
  {
    match t
    case Sym(_) =>
    case Group(e) => TreesAreOrdinary(e);
    case Quant(e, _) =>
      TreesAreOrdinary(e);
    case Juxt(x, y) =>
      TreesAreOrdinary(x);
      TreesAreOrdinary(y);
    case Bar(x, y) =>
      TreesAreOrdinary(x);
      TreesAreOrdinary(y);
  }

  lemma OperatorAfter(q: CString, op: Byte, st: seq<Re>)
    requires Eval(q) == st
    ensures Eval(q + [op]) == EvalOne(st, op)
    ensures PrefixSafe(q + [op]) <==> PrefixSafe(q) && Arity(op) <= |st| && |EvalOne(st, op)| <= STACK_SIZE
  {
    EvalSnoc(q, op);
    PrefixSafeSnoc(q, op);
  }

  lemma ThreeParts(p: CString, x: CString, y: CString, op: Byte)
    ensures p + (x + y + [op]) == p + x + y + [op]
  {
  }

  /** Reading the postfix form of `r` after `p` pushes `r`. */
  lemma {:induction false} EvalPost(p: CString, r: Re)
    requires OrdinaryLiterals(r) && DotLiterals(r) == 0
    ensures Eval(p + PostOf(r)) == Eval(p) + [r]
    decreases r
  {
    var st := Eval(p);
    match r
    case Lit(b) => EvalSnoc(p, b);
    case Cat(x, y) =>
      TopTwo(st, x, y);
      EvalPostBinary(p, r, x, y, '.');
    case Alt(x, y) =>
      TopTwo(st, x, y);
      EvalPostBinary(p, r, x, y, '|');
    case Star(x) =>
      TopOne(st, x);
      EvalPostUnary(p, r, x, '*');
    case Plus(x) =>
      TopOne(st, x);
      EvalPostUnary(p, r, x, '+');
    case Opt(x) =>
      TopOne(st, x);
      EvalPostUnary(p, r, x, '?');
  }

  lemma {:induction false} EvalPostUnary(p: CString, r: Re, x: Re, op: Byte)
    requires x < r && OrdinaryLiterals(x) && DotLiterals(x) == 0
    requires PostOf(r) == PostOf(x) + [op] && EvalOne(Eval(p) + [x], op) == Eval(p) + [r]
    ensures Eval(p + PostOf(r)) == Eval(p) + [r]
    decreases r, 0
  {
    EvalPost(p, x);
    assert p + PostOf(r) == p + PostOf(x) + [op];
    OperatorAfter(p + PostOf(x), op, Eval(p) + [x]);
  }

  lemma {:induction false} EvalPostBinary(p: CString, r: Re, x: Re, y: Re, op: Byte)
    requires x < r && OrdinaryLiterals(x) && DotLiterals(x) == 0
    requires y < r && OrdinaryLiterals(y) && DotLiterals(y) == 0
    requires PostOf(r) == PostOf(x) + PostOf(y) + [op] && EvalOne(Eval(p) + [x] + [y], op) == Eval(p) + [r]
    ensures Eval(p + PostOf(r)) == Eval(p) + [r]
    decreases r, 0
  {
    EvalPost(p, x);
    EvalPost(p + PostOf(x), y);
    ThreeParts(p, PostOf(x), PostOf(y), op);
    OperatorAfter(p + PostOf(x) + PostOf(y), op, Eval(p) + [x] + [y]);
  }

  lemma TopOne(st: seq<Re>, x: Re)
    ensures EvalOne(st + [x], '*') == st + [Star(x)]
    ensures EvalOne(st + [x], '+') == st + [Plus(x)]
    ensures EvalOne(st + [x], '?') == st + [Opt(x)]
  {
    assert (st + [x])[..|st|] == st;
  }

  lemma TopTwo(st: seq<Re>, x: Re, y: Re)
    ensures EvalOne(st + [x] + [y], '.') == st + [Cat(x, y)]
    ensures EvalOne(st + [x] + [y], '|') == st + [Alt(x, y)]
  {
    assert (st + [x] + [y])[..|st|] == st;
  }

  /** Reading the postfix form of `r` needs room for `Need(r)` more fragments. */
  lemma {:induction false} EvalPostRoom(p: CString, r: Re)
    requires OrdinaryLiterals(r) && DotLiterals(r) == 0 && PrefixSafe(p)
    ensures PrefixSafe(p + PostOf(r)) <==> |Eval(p)| + Need(r) <= STACK_SIZE
    decreases r, 1
  {
    hide PrefixSafe, Eval;
    match r
    case Lit(b) => LiteralRoom(p, b);
    case Cat(x, y) => EvalPostRoomBinary(p, r, x, y, '.');
    case Alt(x, y) => EvalPostRoomBinary(p, r, x, y, '|');
    case Star(x) => EvalPostRoomUnary(p, x, '*');
    case Plus(x) => EvalPostRoomUnary(p, x, '+');
    case Opt(x) => EvalPostRoomUnary(p, x, '?');
  }

  lemma LiteralRoom(p: CString, b: Byte)
    requires IsOrdinary(b) && b != '.' && PrefixSafe(p)
    ensures PrefixSafe(p + [b]) <==> |Eval(p)| + 1 <= STACK_SIZE
  {
    EvalSnoc(p, b);
    PrefixSafeSnoc(p, b);
  }

  lemma {:induction false} EvalPostRoomUnary(p: CString, x: Re, op: Byte)
    requires OrdinaryLiterals(x) && DotLiterals(x) == 0 && PrefixSafe(p) && Arity(op) == 1
    ensures PrefixSafe(p + (PostOf(x) + [op])) <==> |Eval(p)| + Need(x) <= STACK_SIZE
    decreases x, 2
  {
    EvalPostRoom(p, x);
    EvalPost(p, x);
    NeedPositive(x);
    assert p + (PostOf(x) + [op]) == p + PostOf(x) + [op];
    OperatorAfter(p + PostOf(x), op, Eval(p) + [x]);
  }

  lemma {:induction false} EvalPostRoomBinary(p: CString, r: Re, x: Re, y: Re, op: Byte)
    requires OrdinaryLiterals(x) && DotLiterals(x) == 0 && OrdinaryLiterals(y) && DotLiterals(y) == 0
    requires x < r && y < r && PrefixSafe(p) && Arity(op) == 2
    requires PostOf(r) == PostOf(x) + PostOf(y) + [op]
    ensures PrefixSafe(p + PostOf(r)) <==> |Eval(p)| + Max(Need(x), 1 + Need(y)) <= STACK_SIZE
    decreases r, 0
  {
    hide PrefixSafe, Eval, PostOf, Need, OrdinaryLiterals, DotLiterals;
    var px := p + PostOf(x);
    var pxy := px + PostOf(y);
    EvalPost(p, x);
    EvalPost(px, y);
    NeedPositive(y);
    EvalPostRoom(p, x);
    ThreeParts(p, PostOf(x), PostOf(y), op);
    BinaryRoom(pxy, op);
    if PrefixSafe(px) {
      EvalPostRoom(px, y);
    } else if PrefixSafe(pxy) {
      PrefixSafePrefix(px, PostOf(y));
    }
  }

  lemma BinaryRoom(q: CString, op: Byte)
    requires Arity(op) == 2 && |Eval(q)| >= 2
    ensures PrefixSafe(q + [op]) <==> PrefixSafe(q) && |Eval(q)| - 1 <= STACK_SIZE
  {
    OperatorAfter(q, op, Eval(q));
  }

  lemma {:induction false} NeedPositive(r: Re)
    ensures Need(r) >= 1
  {
    match r
    case Lit(_) =>
    case Cat(x, y) => NeedPositive(x);
    case Alt(x, y) => NeedPositive(x);
    case Star(x) => NeedPositive(x);
    case Plus(x) => NeedPositive(x);
    case Opt(x) => NeedPositive(x);
  }

  lemma {:induction false} PrefixSafePrefix(p: CString, q: CString)
    requires PrefixSafe(p + q)
    ensures PrefixSafe(p)
    decreases q
  {
    if q == [] {
      assert p + q == p;
    } else {
      var n := |q| - 1;
      assert p + q == p + q[..n] + [q[n]];
      PrefixSafeSnoc(p + q[..n], q[n]);
      PrefixSafePrefix(p, q[..n]);
    }
  }

  /** What safety says about reading character `i`. */
  lemma SafeNext(p: CString, i: nat)
    requires i < |p| && PrefixSafe(p)
    ensures Eval(p[..i + 1]) == EvalOne(Eval(p[..i]), p[i])
    ensures Arity(p[i]) <= |Eval(p[..i])| && |Eval(p[..i])| + 1 - Arity(p[i]) <= STACK_SIZE
  {
    var q, r := p[..i + 1], p[i + 1..];
    assert p == q + r;
    PrefixSafePrefix(q, r);
    assert q[..|q| - 1] == p[..i];
  }

  /** Pushes minus pops. */
  function Height(p: CString): int {
    if p == [] then 0 else Height(p[..|p| - 1]) + 1 - Arity(p[|p| - 1])
  }

  lemma {:induction false} HeightAppend(p: CString, q: CString)
    ensures Height(p + q) == Height(p) + Height(q)
    decreases q
  {
    if q == [] {
      assert p + q == p;
    } else {
      var n := |q| - 1;
      assert (p + q)[..|p + q| - 1] == p + q[..n];
      HeightAppend(p, q[..n]);
    }
  }

  lemma {:induction false} SafeHeight(p: CString)
    requires PrefixSafe(p)
    ensures |Eval(p)| == Height(p)
    decreases p
  {
    if p != [] {
      SafeHeight(p[..|p| - 1]);
    }
  }

  /** Each '.' taken for an operator costs two places of the stack. */
  lemma {:induction false} PostHeight(r: Re)
    requires OrdinaryLiterals(r)
    ensures Height(PostOf(r)) == 1 - 2 * DotLiterals(r)
  {
    hide Height;
    match r
    case Lit(b) => LiteralHeight(b);
    case Cat(x, y) =>
      PostHeight(x);
      PostHeight(y);
      BinaryHeight(PostOf(x), PostOf(y), '.');
    case Alt(x, y) =>
      PostHeight(x);
      PostHeight(y);
      BinaryHeight(PostOf(x), PostOf(y), '|');
    case Star(x) =>
      PostHeight(x);
      UnaryHeight(PostOf(x), '*');
    case Plus(x) =>
      PostHeight(x);
      UnaryHeight(PostOf(x), '+');
    case Opt(x) =>
      PostHeight(x);
      UnaryHeight(PostOf(x), '?');
  }

  lemma LiteralHeight(b: Byte)
    ensures Height([b]) == 1 - Arity(b)
  {
    assert [b][..0] == [];
  }

  lemma UnaryHeight(p: CString, op: Byte)
    ensures Height(p + [op]) == Height(p) + 1 - Arity(op)
  {
    assert (p + [op])[..|p|] == p;
  }

  lemma BinaryHeight(p: CString, q: CString, op: Byte)
    ensures Height(p + q + [op]) == Height(p) + Height(q) + 1 - Arity(op)
  {
    HeightAppend(p, q);
    UnaryHeight(p + q, op);
  }

  /** The compiler's stack neither underflows nor overflows on the postfix form of an expression
      exactly when the expression has no literal '.' and needs at most 1000 fragments at a time. */
  lemma StackSafeExactly(r: Re)
    requires OrdinaryLiterals(r)
    ensures StackSafe(PostOf(r)) <==> DotLiterals(r) == 0 && Need(r) <= 1000
    ensures DotLiterals(r) == 0 ==> Eval(PostOf(r)) == [r]
  {
    assert [] + PostOf(r) == PostOf(r);
    if DotLiterals(r) == 0 {
      EvalPost([], r);
      EvalPostRoom([], r);
    } else {
      PostHeight(r);
      if PrefixSafe(PostOf(r)) {
        SafeHeight(PostOf(r));
      }
    }
  }

  /** A stray final bar, or no expression at all, makes the compiler pop an empty stack. */
  lemma StrayBarUnderflows(r: Re)
    requires OrdinaryLiterals(r)
    ensures !StackSafe(PostOf(r) + ['|']) && !StackSafe([])
  {
    var p := PostOf(r) + ['|'];
    PostHeight(r);
    UnaryHeight(PostOf(r), '|');
    if PrefixSafe(p) {
      SafeHeight(p);
    }
  }
}
