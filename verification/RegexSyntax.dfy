/** Regular expressions: their concrete grammar, their meaning, and their postfix form. */
module RegexSyntax {

  // ---------------------------------------------------------------- Bytes

  /** A byte of a C string: anything but the terminating NUL. */
  type Byte = c: char | 0 < c as int < 256 witness 'a'

  type CString = seq<Byte>

  /** A 7-bit byte; the others turn negative when stored in a plain (signed) char. */
  predicate IsAscii(b: Byte) {
    b as int < 128
  }

  predicate Ascii(w: CString) {
    forall i :: 0 <= i < |w| ==> IsAscii(w[i])
  }

  function Repeat(b: Byte, n: int): (s: CString)
    ensures |s| == if n < 0 then 0 else n
  {
    if n <= 0 then [] else [b] + Repeat(b, n - 1)
  }

  lemma {:induction false} RepeatSnoc(b: Byte, n: nat)
    ensures Repeat(b, n + 1) == Repeat(b, n) + [b]
  {
    if n > 0 {
      RepeatSnoc(b, n - 1);
    }
  }

  // ---------------------------------------------------------------- Meaning

  /** Abstract regular expressions. */
  datatype Re =
    | Lit(b: Byte)
    | Cat(l: Re, r: Re)
    | Alt(l: Re, r: Re)
    | Star(e: Re)
    | Plus(e: Re)
    | Opt(e: Re)

  /** Membership in the denotational language of `r`. */
  ghost predicate Matches(r: Re, w: CString)
    decreases r, 0
  {
    match r
    case Lit(b) => w == [b]
    case Cat(l, r) => exists i :: 0 <= i <= |w| && Matches(l, w[..i]) && Matches(r, w[i..])
    case Alt(l, r) => Matches(l, w) || Matches(r, w)
    case Star(e) => Iterates(e, w)
    case Plus(e) => exists i :: 0 <= i <= |w| && Matches(e, w[..i]) && Iterates(e, w[i..])
    case Opt(e) => w == [] || Matches(e, w)
  }

  /** `w` is a concatenation of any number of words of `e`. */
  ghost predicate Iterates(e: Re, w: CString)
    decreases e, |w| + 1
  {
    w == [] || exists i :: 0 < i <= |w| && Matches(e, w[..i]) && Iterates(e, w[i..])
  }

  /** All literals of `r` are 7-bit. */
  predicate AsciiLiterals(r: Re) {
    match r
    case Lit(b) => IsAscii(b)
    case Cat(l, r) => AsciiLiterals(l) && AsciiLiterals(r)
    case Alt(l, r) => AsciiLiterals(l) && AsciiLiterals(r)
    case Star(e) => AsciiLiterals(e)
    case Plus(e) => AsciiLiterals(e)
    case Opt(e) => AsciiLiterals(e)
  }

  /** The words of an expression with 7-bit literals are 7-bit. */
  lemma {:induction false} AsciiWords(r: Re, w: CString)
    requires AsciiLiterals(r) && Matches(r, w)
    ensures Ascii(w)
    decreases r, 0
  {
    match r
    case Lit(_) =>
    case Cat(a, b) =>
      var i :| 0 <= i <= |w| && Matches(a, w[..i]) && Matches(b, w[i..]);
      AsciiWords(a, w[..i]);
      AsciiWords(b, w[i..]);
      assert w == w[..i] + w[i..];
    case Alt(a, b) =>
      if Matches(a, w) {
        AsciiWords(a, w);
      } else {
        AsciiWords(b, w);
      }
    case Star(e) => AsciiIterations(e, w);
    case Plus(e) =>
      var i :| 0 <= i <= |w| && Matches(e, w[..i]) && Iterates(e, w[i..]);
      AsciiWords(e, w[..i]);
      AsciiIterations(e, w[i..]);
      assert w == w[..i] + w[i..];
    case Opt(e) =>
      if w != [] {
        AsciiWords(e, w);
      }
  }

  lemma {:induction false} AsciiIterations(e: Re, w: CString)
    requires AsciiLiterals(e) && Iterates(e, w)
    ensures Ascii(w)
    decreases e, |w| + 1
  {
    if w != [] {
      var i :| 0 < i <= |w| && Matches(e, w[..i]) && Iterates(e, w[i..]);
      AsciiWords(e, w[..i]);
      AsciiIterations(e, w[i..]);
      assert w == w[..i] + w[i..];
    }
  }

  /** No expression denotes the empty language. */
  lemma {:induction false} SomeWord(r: Re) returns (w: CString)
    ensures Matches(r, w)
  {
    match r
    case Lit(b) => w := [b];
    case Cat(x, y) =>
      var u := SomeWord(x);
      var v := SomeWord(y);
      w := u + v;
      assert w[..|u|] == u && w[|u|..] == v;
    case Alt(x, _) => w := SomeWord(x);
    case Star(_) => w := [];
    case Plus(e) =>
      w := SomeWord(e);
      assert w[..|w|] == w && w[|w|..] == [];
    case Opt(_) => w := [];
  }

  /** A literal that is not 7-bit occurs in some word. */
  lemma {:induction false} NonAsciiWord(r: Re) returns (w: CString)
    requires !AsciiLiterals(r)
    ensures Matches(r, w) && !Ascii(w)
  {
    match r
    case Lit(b) =>
      w := [b];
      assert !IsAscii(w[0]);
    case Cat(x, y) =>
      var u, v;
      if !AsciiLiterals(x) {
        u := NonAsciiWord(x);
        v := SomeWord(y);
      } else {
        u := SomeWord(x);
        v := NonAsciiWord(y);
      }
      w := u + v;
      assert w[..|u|] == u && w[|u|..] == v;
      AsciiParts(u, v);
    case Alt(x, y) =>
      if !AsciiLiterals(x) {
        w := NonAsciiWord(x);
      } else {
        w := NonAsciiWord(y);
      }
    case Star(e) =>
      w := NonAsciiWord(e);
      IterateOnce(e, w);
    case Plus(e) =>
      w := NonAsciiWord(e);
      assert w[..|w|] == w && w[|w|..] == [];
    case Opt(e) => w := NonAsciiWord(e);
  }

  lemma AsciiParts(u: CString, v: CString)
    ensures Ascii(u + v) <==> Ascii(u) && Ascii(v)
  {
    if Ascii(u + v) {
      assert forall i :: 0 <= i < |u| ==> u[i] == (u + v)[i];
      assert forall i :: 0 <= i < |v| ==> v[i] == (u + v)[|u| + i];
    }
  }

  lemma IterateOnce(e: Re, w: CString)
    requires Matches(e, w)
    ensures Iterates(e, w)
  {
    if w != [] {
      assert w[..|w|] == w && w[|w|..] == [];
    }
  }

  /** Prepending one word of `e`, possibly the empty one, to an iteration. */
  lemma IterateCons(e: Re, w: CString, i: nat)
    requires i <= |w| && Matches(e, w[..i]) && Iterates(e, w[i..])
    ensures Iterates(e, w)
  {
    if i == 0 {
      assert w[i..] == w;
    }
  }

  // ---------------------------------------------------------------- Concrete grammar

  /** Parse trees.  Which trees may stand where is said by `IsAlt` and the predicates below it:
      alt ::= term | term '|' alt;  term ::= factor | term factor;
      factor ::= atom | factor ('*' | '+' | '?');  atom ::= byte | '(' alt ')'.  */
  datatype Tree =
    | Sym(b: Byte)
    | Group(t: Tree)
    | Quant(t: Tree, op: Byte)
    | Juxt(l: Tree, r: Tree)
    | Bar(l: Tree, r: Tree)

  predicate IsQuantifier(b: Byte) {
    b == '*' || b == '+' || b == '?'
  }

  predicate IsOrdinary(b: Byte) {
    b != '(' && b != ')' && b != '|' && !IsQuantifier(b)
  }

  /** How loosely the outermost construct binds: 0 an atom, 1 a factor, 2 a term, 3 an alternation. */
  function Rank(t: Tree): nat {
    match t
    case Sym(_) => 0
    case Group(_) => 0
    case Quant(_, _) => 1
    case Juxt(_, _) => 2
    case Bar(_, _) => 3
  }

  /** `t` is a tree of the grammar. */
  predicate IsAlt(t: Tree)
    decreases t, 0
  {
    match t
    case Sym(b) => IsOrdinary(b)
    case Group(e) => IsAlt(e)
    case Quant(e, op) => IsFactor(e) && IsQuantifier(op)
    case Juxt(l, r) => IsTerm(l) && IsFactor(r)
    case Bar(l, r) => IsTerm(l) && IsAlt(r)
  }

  predicate IsTerm(t: Tree)
    decreases t, 1
  {
    Rank(t) <= 2 && IsAlt(t)
  }

  predicate IsFactor(t: Tree)
    decreases t, 1
  {
    Rank(t) <= 1 && IsAlt(t)
  }

  /** The characters a tree is written with. */
  function Text(t: Tree): (s: CString)
    ensures s != []
  {
    match t
    case Sym(b) => [b]
    case Group(e) => ['('] + Text(e) + [')']
    case Quant(e, op) => Text(e) + [op]
    case Juxt(l, r) => Text(l) + Text(r)
    case Bar(l, r) => Text(l) + ['|'] + Text(r)
  }

  /** The expression a tree denotes. */
  function ToRe(t: Tree): Re {
    match t
    case Sym(b) => Lit(b)
    case Group(e) => ToRe(e)
    case Quant(e, op) => if op == '*' then Star(ToRe(e)) else if op == '+' then Plus(ToRe(e)) else Opt(ToRe(e))
    case Juxt(l, r) => Cat(ToRe(l), ToRe(r))
    case Bar(l, r) => Alt(ToRe(l), ToRe(r))
  }

  function Max(a: nat, b: nat): nat {
    if a < b then b else a
  }

  /** How deeply parentheses are nested. */
  function Depth(t: Tree): nat {
    match t
    case Sym(_) => 0
    case Group(e) => 1 + Depth(e)
    case Quant(e, _) => Depth(e)
    case Juxt(l, r) => Max(Depth(l), Depth(r))
    case Bar(l, r) => Max(Depth(l), Depth(r))
  }

  // ---------------------------------------------------------------- Postfix

  /** Postfix form, with '.' as the explicit concatenation operator. */
  function PostOf(r: Re): (s: CString)
    ensures s != []
  {
    match r
    case Lit(b) => [b]
    case Cat(l, r) => PostOf(l) + PostOf(r) + ['.']
    case Alt(l, r) => PostOf(l) + PostOf(r) + ['|']
    case Star(e) => PostOf(e) + ['*']
    case Plus(e) => PostOf(e) + ['+']
    case Opt(e) => PostOf(e) + ['?']
  }

  /** Postfix form of a tree. */
  function Post(t: Tree): CString {
    PostOf(ToRe(t))
  }
}
