/** The Brainfuck parser, which folds runs of characters, and the executor of what it builds. */
module Brainfuck {
  import opened Wrappers

  // Programs, character by character.

  /** A program with its brackets matched. */
  datatype Code = End | Char(c: char, rest: Code) | Loop(body: Code, rest: Code)

  function Text(code: Code): string {
    match code
    case End => []
    case Char(c, r) => [c] + Text(r)
    case Loop(b, r) => ['['] + Text(b) + [']'] + Text(r)
  }

  /** Brackets only as loops. */
  predicate Clean(code: Code) {
    match code
    case End => true
    case Char(c, r) => c != '[' && c != ']' && Clean(r)
    case Loop(b, r) => Clean(b) && Clean(r)
  }

  function Size(code: Code): nat {
    match code
    case End => 0
    case Char(_, r) => 1 + Size(r)
    case Loop(b, r) => 1 + Size(b) + Size(r)
  }

  /** The tape, the current cell, what was written, and how much of the input was read. */
  datatype Machine = Machine(tape: seq<int>, index: nat, output: seq<int>, consumed: nat)

  type State = s: Machine | s.index < |s.tape| witness Machine([0], 0, [], 0)

  /** `Fell` is leaving the tape; `Starved` is not yet finished within the allowed loop rounds. */
  datatype Outcome = Done(state: State) | Fell | Starved

  function Cell(s: State): int {
    s.tape[s.index]
  }

  function SetCell(s: State, v: int): State {
    s.(tape := s.tape[s.index := v % 256])
  }

  function MoveTo(s: State, i: int): State
    requires 0 <= i < |s.tape|
  {
    s.(index := i)
  }

  function Put(s: State): State {
    s.(output := s.output + [Cell(s)])
  }

  function Get(s: State, input: nat -> int): State {
    SetCell(s, input(s.consumed)).(consumed := s.consumed + 1)
  }

  /** The effect of one character; any that is no command is a comment. */
  function Tick(c: char, s: State, input: nat -> int): Option<State> {
    match c
    case '+' => Some(SetCell(s, Cell(s) + 1))
    case '-' => Some(SetCell(s, Cell(s) - 1))
    case '>' => if s.index + 1 < |s.tape| then Some(MoveTo(s, s.index + 1)) else None
    case '<' => if s.index > 0 then Some(MoveTo(s, s.index - 1)) else None
    case '.' => Some(Put(s))
    case ',' => Some(Get(s, input))
    case _ => Some(s)
  }

  /** Running a program character by character, with at most `fuel` nested and repeated rounds. */
  function Run(code: Code, s: State, input: nat -> int, fuel: nat): Outcome
    decreases fuel, code
  {
    match code
    case End => Done(s)
    case Char(c, r) =>
      var t := Tick(c, s, input);
      if t == None then Fell else Run(r, t.value, input, fuel)
    case Loop(b, r) =>
      if Cell(s) == 0 then Run(r, s, input, fuel)
      else if fuel == 0 then Starved
      else
        var o := Run(b, s, input, fuel - 1);
        if o.Done? then Run(code, o.state, input, fuel - 1) else o
  }

  // The folded form.

  const WORD: nat := 0x1_0000_0000_0000_0000
  const INT_MAX: nat := 0x7fff_ffff

  /** One folded run, or a loop.  The difference is an unsigned long. */
  datatype Instruction = Simple(token: char, difference: nat) | Repeat(body: seq<Instruction>)

  predicate IsToken(c: char) {
    c == '+' || c == '-' || c == '>' || c == '<' || c == '.' || c == ','
  }

  /** Whether `x` goes on with a run that began with `c`. */
  predicate SameRun(c: char, x: char) {
    || ((c == '+' || c == '-') && (x == '+' || x == '-'))
    || ((c == '>' || c == '<') && (x == '>' || x == '<'))
    || ((c == '.' || c == ',') && x == c)
  }

  /** How often `c` is ahead of its opposite in the run at the front. */
  function RunNet(code: Code, c: char): int {
    if code.Char? && SameRun(c, code.c) then (if code.c == c then 1 else -1) + RunNet(code.rest, c) else 0
  }

  function RunRest(code: Code, c: char): (r: Code)
    ensures Size(r) <= Size(code)
  {
    if code.Char? && SameRun(c, code.c) then RunRest(code.rest, c) else code
  }

  function Fold(code: Code): seq<Instruction>
    decreases Size(code)
  {
    match code
    case End => []
    case Char(c, r) =>
      if IsToken(c) then [Simple(c, RunNet(code, c) % WORD)] + Fold(RunRest(r, c)) else Fold(r)
    case Loop(b, r) => [Repeat(Fold(b))] + Fold(r)
  }

  /** Writes the current cell `n` times. */
  function Written(s: State, n: nat): State {
    if n == 0 then s else Put(Written(s, n - 1))
  }

  /** Reads into the current cell `n` times. */
  function ReadIn(s: State, n: nat, input: nat -> int): State {
    if n == 0 then s else Get(ReadIn(s, n - 1, input), input)
  }

  /** The effect of one folded run; `None` where the program exits with an error. */
  function Act(c: char, d: nat, s: State, input: nat -> int): Option<State> {
    match c
    case '+' => Some(SetCell(s, Cell(s) + d % 256))
    case '-' => Some(SetCell(s, Cell(s) - d % 256))
    case '>' =>
      if d >= INT_MAX - |s.tape| || s.index + d >= |s.tape| then None else Some(MoveTo(s, s.index + d))
    case '<' =>
      if d >= INT_MAX - |s.tape| || s.index - d < 0 then None else Some(MoveTo(s, s.index - d))
    case '.' => Some(Written(s, d))
    case ',' => Some(ReadIn(s, d, input))
    case _ => Some(s)
  }

  /** Executing the folded form. */
  function Exec(p: seq<Instruction>, s: State, input: nat -> int, fuel: nat): Outcome
    decreases fuel, |p|
  {
    if p == [] then Done(s)
    else match p[0]
      case Simple(c, d) =>
        var t := Act(c, d, s, input);
        if t == None then Fell else Exec(p[1..], t.value, input, fuel)
      case Repeat(b) =>
        if Cell(s) == 0 then Exec(p[1..], s, input, fuel)
        else if fuel == 0 then Starved
        else
          var o := Exec(b, s, input, fuel - 1);
          if o.Done? then Exec(p, o.state, input, fuel - 1) else o
  }

  // The two agree.

  /** The characters of the run at the front. */
  function Ticks(code: Code, c: char, s: State, input: nat -> int): Option<State> {
    if code.Char? && SameRun(c, code.c) then
      var t := Tick(code.c, s, input);
      if t == None then None else Ticks(code.rest, c, t.value, input)
    else Some(s)
  }

  /** Every run of moves that is reached nets in the direction it begins with, and not too far for the bounds check. */
  predicate Straight(code: Code, s: State, input: nat -> int, fuel: nat)
    decreases fuel, Size(code)
  {
    match code
    case End => true
    case Char(c, r) =>
      if IsToken(c) then
        var t := Ticks(code, c, s, input);
        && ((c == '>' || c == '<') ==> 0 <= RunNet(code, c) < 0x7fff_ffff - |s.tape|)
        && (t != None ==> Straight(RunRest(r, c), t.value, input, fuel))
      else Straight(r, s, input, fuel)
    case Loop(b, r) =>
      if Cell(s) == 0 then Straight(r, s, input, fuel)
      else
        fuel > 0 ==>
          var o := Run(b, s, input, fuel - 1);
          Straight(b, s, input, fuel - 1) && (o.Done? ==> Straight(code, o.state, input, fuel - 1))
  }

  lemma {:induction false} RunSplits(code: Code, c: char, s: State, input: nat -> int, fuel: nat)
    ensures var t := Ticks(code, c, s, input);
            Run(code, s, input, fuel) == if t == None then Fell else Run(RunRest(code, c), t.value, input, fuel)
  {
    if code.Char? && SameRun(c, code.c) {
      var t := Tick(code.c, s, input);
      if t != None {
        RunSplits(code.rest, c, t.value, input, fuel);
      }
    }
  }

  lemma SetTwice(s: State, a: int, n: int)
    ensures SetCell(SetCell(s, a), Cell(SetCell(s, a)) + n) == SetCell(s, a + n)
  {
    assert s.tape[s.index := a % 256][s.index := (a + n) % 256] == s.tape[s.index := (a + n) % 256];
  }

  /** A run of `+` and `-` changes the cell by what is ahead. */
  lemma {:induction false} CountRun(code: Code, c: char, s: State, input: nat -> int)
    requires c == '+' || c == '-'
    requires code.Char? && SameRun(c, code.c)
    ensures var n := RunNet(code, c);
            Ticks(code, c, s, input) == Some(SetCell(s, Cell(s) + if c == '+' then n else -n))
  {
    var a := Cell(s) + if code.c == '+' then 1 else -1;
    if code.rest.Char? && SameRun(c, code.rest.c) {
      CountRun(code.rest, c, SetCell(s, a), input);
      SetTwice(s, a, if c == '+' then RunNet(code.rest, c) else -RunNet(code.rest, c));
    }
  }

  /** A run of moves that stays on the tape moves by what is ahead. */
  lemma {:induction false} MoveRun(code: Code, c: char, s: State, input: nat -> int)
    requires c == '>' || c == '<'
    requires Ticks(code, c, s, input) != None
    ensures var i := s.index + if c == '>' then RunNet(code, c) else -RunNet(code, c);
            0 <= i < |s.tape| && Ticks(code, c, s, input) == Some(MoveTo(s, i))
  {
    if code.Char? && SameRun(c, code.c) {
      MoveRun(code.rest, c, Tick(code.c, s, input).value, input);
    }
  }

  lemma {:induction false} WrittenFirst(s: State, n: nat)
    ensures Written(s, n).tape == s.tape && Written(s, n).index == s.index
    ensures Written(Put(s), n) == Written(s, n + 1)
  {
    if n > 0 {
      WrittenFirst(s, n - 1);
    }
  }

  lemma {:induction false} ReadFirst(s: State, n: nat, input: nat -> int)
    ensures ReadIn(Get(s, input), n, input) == ReadIn(s, n + 1, input)
  {
    if n > 0 {
      ReadFirst(s, n - 1, input);
    }
  }

  lemma {:induction false} RepeatRun(code: Code, c: char, s: State, input: nat -> int)
    requires c == '.' || c == ','
    ensures RunNet(code, c) >= 0
    ensures c == '.' ==> Ticks(code, c, s, input) == Some(Written(s, RunNet(code, c)))
    ensures c == ',' ==> Ticks(code, c, s, input) == Some(ReadIn(s, RunNet(code, c), input))
  {
    if code.Char? && SameRun(c, code.c) {
      RepeatRun(code.rest, c, Tick(c, s, input).value, input);
      WrittenFirst(s, RunNet(code.rest, c));
      ReadFirst(s, RunNet(code.rest, c), input);
    }
  }

  // What the characters do, in terms of tape, output and input.

  /** The character `c`, `n` times, and then `rest`. */
  function Repeated(n: nat, c: char, rest: Code): Code {
    if n == 0 then rest else Char(c, Repeated(n - 1, c, rest))
  }

  /** A run of `.` writes the current cell, once for each, behind what was written before. */
  lemma {:induction false} PrintingRun(n: nat, rest: Code, s: State, input: nat -> int)
    requires !(rest.Char? && rest.c == '.')
    ensures var t := Ticks(Repeated(n, '.', rest), '.', s, input);
            && t.Some? && t.value.tape == s.tape && t.value.index == s.index && t.value.consumed == s.consumed
            && t.value.output == s.output + seq(n, _ => s.tape[s.index])
  {
    if n > 0 {
      PrintingRun(n - 1, rest, Put(s), input);
      assert seq(n, _ => s.tape[s.index]) == [s.tape[s.index]] + seq(n - 1, _ => s.tape[s.index]);
    }
  }

  /** A run of `,` leaves the last byte it read in the current cell. */
  lemma {:induction false} ReadingRun(n: nat, rest: Code, s: State, input: nat -> int)
    requires n >= 1 && !(rest.Char? && rest.c == ',')
    ensures var t := Ticks(Repeated(n, ',', rest), ',', s, input);
            && t.Some? && t.value.tape == s.tape[s.index := input(s.consumed + n - 1) % 256]
            && t.value.index == s.index && t.value.output == s.output && t.value.consumed == s.consumed + n
  {
    if n > 1 {
      ReadingRun(n - 1, rest, Get(s, input), input);
    }
  }

  /** A run of `+` and `-` changes the current cell alone, modulo 256, by what is ahead. */
  lemma CountingRun(code: Code, c: char, s: State, input: nat -> int)
    requires (c == '+' || c == '-') && code.Char? && SameRun(c, code.c)
    ensures var t := Ticks(code, c, s, input); var n := RunNet(code, c);
            && t.Some? && t.value.index == s.index && t.value.output == s.output && t.value.consumed == s.consumed
            && t.value.tape == s.tape[s.index := (s.tape[s.index] + if c == '+' then n else -n) % 256]
  {
    hide Ticks, RunNet;
    CountRun(code, c, s, input);
  }

  /** A run of `>` and `<` that stays on the tape moves by what is ahead, and does nothing else. */
  lemma MovingRun(code: Code, c: char, s: State, input: nat -> int)
    requires (c == '>' || c == '<') && Ticks(code, c, s, input) != None
    ensures var t := Ticks(code, c, s, input).value;
            && t.tape == s.tape && t.output == s.output && t.consumed == s.consumed
            && t.index == s.index + if c == '>' then RunNet(code, c) else -RunNet(code, c)
  {
    hide Ticks, RunNet;
    MoveRun(code, c, s, input);
  }

  predicate Bytes(q: seq<int>) {
    forall i :: 0 <= i < |q| ==> 0 <= q[i] < 256
  }

  /** What was written stays, what is written are bytes, and no input is read twice. */
  lemma {:induction false} OutputGrows(code: Code, s: State, input: nat -> int, fuel: nat)
    requires Run(code, s, input, fuel).Done? && Bytes(s.tape)
    ensures var t := Run(code, s, input, fuel).state;
            && s.output <= t.output && Bytes(t.output[|s.output|..]) && Bytes(t.tape) && s.consumed <= t.consumed
    decreases fuel, Size(code)
  {
    match code
    case End =>
    case Char(c, r) =>
      OutputGrows(r, Tick(c, s, input).value, input, fuel);
    case Loop(b, r) =>
      if Cell(s) == 0 {
        OutputGrows(r, s, input, fuel);
      } else {
        OutputGrows(b, s, input, fuel - 1);
        OutputGrows(code, Run(b, s, input, fuel - 1).state, input, fuel - 1);
      }
  }

  /** A loop ends on a cell that is zero; on such a cell it does nothing. */
  lemma {:induction false} LoopEndsOnZero(body: Code, s: State, input: nat -> int, fuel: nat)
    requires Run(Loop(body, End), s, input, fuel).Done?
    ensures var t := Run(Loop(body, End), s, input, fuel).state;
            t.tape[t.index] == 0 && (s.tape[s.index] == 0 ==> t == s)
    decreases fuel
  {
    if Cell(s) != 0 {
      LoopEndsOnZero(body, Run(body, s, input, fuel - 1).state, input, fuel - 1);
    }
  }

  lemma {:induction false} NetBound(code: Code, c: char)
    ensures -(Size(code) as int) <= RunNet(code, c) <= Size(code)
  {
    if code.Char? && SameRun(c, code.c) {
      NetBound(code.rest, c);
    }
  }

  lemma Rounds(x: int, y: int, k: int)
    requires x == y + 256 * k
    ensures x % 256 == y % 256
  {
  }

  lemma WrapsInCell(a: int, n: int)
    ensures (a + (n % WORD) % 256) % 256 == (a + n) % 256
    ensures (a - (n % WORD) % 256) % 256 == (a - n) % 256
  {
    var q, m := n / WORD, n % WORD;
    var k := 0x100_0000_0000_0000 * q + m / 256;
    assert n == m % 256 + 256 * k;
    Rounds(a + n, a + m % 256, k);
    Rounds(a - n, a - m % 256, -k);
  }

  /**
   * A folded run does what its characters do one by one, if these stay on the tape; a run of
   * moves does so exactly if it nets in its direction and within the bounds check.
   */
  lemma ActExactly(code: Code, s: State, input: nat -> int)
    requires code.Char? && IsToken(code.c) && Size(code) <= INT_MAX && |s.tape| <= INT_MAX
    requires Ticks(code, code.c, s, input) != None
    ensures Act(code.c, RunNet(code, code.c) % WORD, s, input) == Ticks(code, code.c, s, input) <==>
      ((code.c == '>' || code.c == '<') ==> 0 <= RunNet(code, code.c) < 0x7fff_ffff - |s.tape|)
  {
    hide Ticks, RunNet, Written, ReadIn, SetCell;
    var c := code.c;
    NetBound(code, c);
    WordOf(RunNet(code, c));
    if c == '>' || c == '<' {
      MoveExactly(code, s, input);
    } else if c == '.' || c == ',' {
      RepeatRun(code, c, s, input);
    } else {
      CountExactly(code, s, input);
    }
  }

  lemma WordOf(n: int)
    requires -(INT_MAX as int) <= n <= INT_MAX
    ensures n % WORD == if n >= 0 then n else n + WORD
  {
  }

  lemma MoveExactly(code: Code, s: State, input: nat -> int)
    requires code.Char? && (code.c == '>' || code.c == '<') && Size(code) <= INT_MAX && |s.tape| <= INT_MAX
    requires Ticks(code, code.c, s, input) != None
    ensures Act(code.c, RunNet(code, code.c) % WORD, s, input) ==
      if 0 <= RunNet(code, code.c) < INT_MAX - |s.tape| then Ticks(code, code.c, s, input) else None
  {
    hide Ticks, RunNet;
    NetBound(code, code.c);
    WordOf(RunNet(code, code.c));
    MoveRun(code, code.c, s, input);
  }

  lemma CountExactly(code: Code, s: State, input: nat -> int)
    requires code.Char? && (code.c == '+' || code.c == '-')
    ensures Act(code.c, RunNet(code, code.c) % WORD, s, input) == Ticks(code, code.c, s, input)
  {
    hide Ticks, RunNet;
    CountRun(code, code.c, s, input);
    WrapsInCell(Cell(s), RunNet(code, code.c));
  }

  /** The effect of a folded run, where its characters stay on the tape. */
  lemma RunActs(code: Code, s: State, input: nat -> int)
    requires code.Char? && IsToken(code.c) && Size(code) <= INT_MAX && |s.tape| <= INT_MAX
    requires Ticks(code, code.c, s, input) != None
    ensures Act(code.c, RunNet(code, code.c) % WORD, s, input) ==
      if (code.c == '>' || code.c == '<') ==> 0 <= RunNet(code, code.c) < INT_MAX - |s.tape|
      then Ticks(code, code.c, s, input) else None
  {
    hide Ticks, RunNet, Act;
    ActExactly(code, s, input);
    if code.c == '>' || code.c == '<' {
      MoveExactly(code, s, input);
    }
  }

  lemma {:induction false} TapeKept(code: Code, s: State, input: nat -> int, fuel: nat)
    requires Run(code, s, input, fuel).Done?
    ensures |Run(code, s, input, fuel).state.tape| == |s.tape|
    decreases fuel, Size(code)
  {
    match code
    case End =>
    case Char(c, r) => TapeKept(r, Tick(c, s, input).value, input, fuel);
    case Loop(b, r) =>
      if Cell(s) == 0 {
        TapeKept(r, s, input, fuel);
      } else {
        TapeKept(b, s, input, fuel - 1);
        TapeKept(code, Run(b, s, input, fuel - 1).state, input, fuel - 1);
      }
  }

  /** Where the characters stay on the tape, the folded program does what they do, or else it falls. */
  lemma {:induction false} FoldAgrees(code: Code, s: State, input: nat -> int, fuel: nat)
    requires Size(code) <= INT_MAX && |s.tape| <= INT_MAX
    requires Run(code, s, input, fuel) != Fell
    ensures Exec(Fold(code), s, input, fuel) ==
      if Straight(code, s, input, fuel) then Run(code, s, input, fuel) else Fell
    decreases fuel, Size(code)
  {
    match code
    case End =>
    case Char(c, r) =>
      if IsToken(c) {
        RunSplits(code, c, s, input, fuel);
        RunActs(code, s, input);
        var t := Ticks(code, c, s, input).value;
        TicksKeep(code, c, s, input);
        FoldAgrees(RunRest(r, c), t, input, fuel);
        assert Fold(code)[1..] == Fold(RunRest(r, c));
      } else {
        FoldAgrees(r, s, input, fuel);
      }
    case Loop(b, r) =>
      assert Fold(code)[1..] == Fold(r);
      if Cell(s) == 0 {
        FoldAgrees(r, s, input, fuel);
      } else if fuel > 0 {
        FoldAgrees(b, s, input, fuel - 1);
        var o := Run(b, s, input, fuel - 1);
        if o.Done? {
          TapeKept(b, s, input, fuel - 1);
          FoldAgrees(code, o.state, input, fuel - 1);
        }
      }
  }

  /** Where the characters stay on the tape, the two agree if and only if every run of moves reached is straight. */
  lemma FoldExactly(code: Code, s: State, input: nat -> int, fuel: nat)
    requires Size(code) <= INT_MAX && |s.tape| <= INT_MAX
    requires Run(code, s, input, fuel) != Fell
    ensures Exec(Fold(code), s, input, fuel) == Run(code, s, input, fuel) <==> Straight(code, s, input, fuel)
  {
    FoldAgrees(code, s, input, fuel);
  }

  // The bound on loop rounds is immaterial.

  /** A run that is over within a bound is the same within every larger one. */
  lemma {:induction false} MoreFuel(code: Code, s: State, input: nat -> int, f: nat, g: nat)
    requires f <= g && Run(code, s, input, f) != Starved
    ensures Run(code, s, input, g) == Run(code, s, input, f)
    decreases f, Size(code)
  {
    match code
    case End =>
    case Char(c, r) =>
      var t := Tick(c, s, input);
      if t != None {
        MoreFuel(r, t.value, input, f, g);
      }
    case Loop(b, r) =>
      if Cell(s) == 0 {
        MoreFuel(r, s, input, f, g);
      } else {
        MoreFuel(b, s, input, f - 1, g - 1);
        var o := Run(b, s, input, f - 1);
        if o.Done? {
          MoreFuel(code, o.state, input, f - 1, g - 1);
        }
      }
  }

  /** What is reached within a bound is reached within every larger one, and a run that is over reaches no more. */
  lemma {:induction false} StraightFuel(code: Code, s: State, input: nat -> int, f: nat, g: nat)
    requires f <= g
    ensures Straight(code, s, input, g) ==> Straight(code, s, input, f)
    ensures Run(code, s, input, f).Done? ==> Straight(code, s, input, g) == Straight(code, s, input, f)
    decreases f, Size(code)
  {
    match code
    case End =>
    case Char(c, r) =>
      if IsToken(c) {
        RunSplits(code, c, s, input, f);
        var t := Ticks(code, c, s, input);
        if t != None {
          StraightFuel(RunRest(r, c), t.value, input, f, g);
        }
      } else {
        StraightFuel(r, s, input, f, g);
      }
    case Loop(b, r) =>
      if Cell(s) == 0 {
        StraightFuel(r, s, input, f, g);
      } else if f > 0 {
        StraightFuel(b, s, input, f - 1, g - 1);
        var o := Run(b, s, input, f - 1);
        if o.Done? {
          MoreFuel(b, s, input, f - 1, g - 1);
          StraightFuel(code, o.state, input, f - 1, g - 1);
        }
      }
  }

  /** The program, run character by character, ends in `end`. */
  ghost predicate Ends(code: Code, s: State, input: nat -> int, end: State) {
    exists f: nat :: Run(code, s, input, f) == Done(end)
  }

  ghost predicate Falls(code: Code, s: State, input: nat -> int) {
    exists f: nat :: Run(code, s, input, f) == Fell
  }

  /** Every run of moves that is ever reached is straight. */
  ghost predicate AllStraight(code: Code, s: State, input: nat -> int) {
    forall f: nat :: Straight(code, s, input, f)
  }

  lemma EndOf(code: Code, s: State, input: nat -> int, end: State) returns (f: nat)
    requires Ends(code, s, input, end)
    ensures Run(code, s, input, f) == Done(end)
  {
    f :| Run(code, s, input, f) == Done(end);
  }

  /** A program ends in one state only. */
  lemma EndsOnce(code: Code, s: State, input: nat -> int, end: State, other: State)
    requires Ends(code, s, input, end) && Ends(code, s, input, other)
    ensures end == other
  {
    var f := EndOf(code, s, input, end);
    var g := EndOf(code, s, input, other);
    MoreFuel(code, s, input, f, if f <= g then g else f);
    MoreFuel(code, s, input, g, if f <= g then g else f);
  }

  /** A program that ends does not leave the tape. */
  lemma EndsOrFalls(code: Code, s: State, input: nat -> int, end: State)
    requires Ends(code, s, input, end)
    ensures !Falls(code, s, input)
  {
    var f := EndOf(code, s, input, end);
    if g: nat :| Run(code, s, input, g) == Fell {
      MoreFuel(code, s, input, f, if f <= g then g else f);
      MoreFuel(code, s, input, g, if f <= g then g else f);
      assert false;
    }
  }

  lemma StraightOrNot(code: Code, s: State, input: nat -> int, f: nat)
    requires Run(code, s, input, f).Done?
    ensures Straight(code, s, input, f) <==> AllStraight(code, s, input)
  {
    hide Straight, Run;
    if Straight(code, s, input, f) {
      forall g: nat ensures Straight(code, s, input, g) {
        if g <= f {
          StraightFuel(code, s, input, g, f);
        } else {
          StraightFuel(code, s, input, f, g);
        }
      }
    }
  }

  /**
   * Of a program whose characters never leave the tape, whether or not it ends: the folded program
   * does the same within every bound if every run of moves ever reached is straight, and else stops
   * with an error.
   */
  lemma FoldForever(code: Code, s: State, input: nat -> int)
    requires Size(code) <= INT_MAX && |s.tape| <= INT_MAX && !Falls(code, s, input)
    ensures AllStraight(code, s, input) <==> forall f: nat :: Exec(Fold(code), s, input, f) == Run(code, s, input, f)
    ensures AllStraight(code, s, input) <==> forall f: nat :: Exec(Fold(code), s, input, f) != Fell
  {
    hide Straight, Exec, Run, Fold;
    forall f: nat
      ensures Exec(Fold(code), s, input, f) == if Straight(code, s, input, f) then Run(code, s, input, f) else Fell
    {
      FoldAgrees(code, s, input, f);
    }
    if f: nat :| !Straight(code, s, input, f) {
      assert Exec(Fold(code), s, input, f) == Fell;
    }
  }

  lemma {:induction false} TicksKeep(code: Code, c: char, s: State, input: nat -> int)
    requires Ticks(code, c, s, input) != None
    ensures |Ticks(code, c, s, input).value.tape| == |s.tape|
  {
    if code.Char? && SameRun(c, code.c) {
      TicksKeep(code.rest, c, Tick(code.c, s, input).value, input);
    }
  }

  /** Any other run of moves makes the folded program exit with an error, where the characters go on. */
  lemma FoldFalls(code: Code, s: State, input: nat -> int, fuel: nat)
    requires code.Char? && (code.c == '>' || code.c == '<') && Size(code) <= INT_MAX && |s.tape| <= INT_MAX
    requires Ticks(code, code.c, s, input) != None
    requires !(0 <= RunNet(code, code.c) < INT_MAX - |s.tape|)
    ensures Exec(Fold(code), s, input, fuel) == Fell
    ensures Run(code, s, input, fuel) == Run(RunRest(code, code.c), Ticks(code, code.c, s, input).value, input, fuel)
  {
    hide Ticks, RunNet;
    MoveExactly(code, s, input);
    RunSplits(code, code.c, s, input, fuel);
  }

  /** The shortest such run: one cell right and two left, from the second of three cells. */
  lemma BackwardsRunFalls(input: nat -> int)
    ensures var code := Char('>', Char('<', Char('<', End)));
            var s: State := Machine([0, 0, 0], 1, [], 0);
            Exec(Fold(code), s, input, 0) == Fell && Run(code, s, input, 0) == Done(Machine([0, 0, 0], 0, [], 0))
  {
    var code := Char('>', Char('<', Char('<', End)));
    var s: State := Machine([0, 0, 0], 1, [], 0);
    assert RunNet(code, '>') == 1 + RunNet(code.rest, '>') == RunNet(code.rest.rest, '>') == -1;
    assert Ticks(code, '>', s, input) == Ticks(code.rest.rest, '>', s, input) == Some(MoveTo(s, 0));
    FoldFalls(code, s, input, 0);
    assert RunRest(code, '>') == End;
  }

  /** The other way round, a run whose characters leave the tape and come back passes once folded. */
  lemma ReturningRunPasses(input: nat -> int)
    ensures var code := Char('<', Char('>', End));
            var s: State := Machine([0], 0, [], 0);
            Run(code, s, input, 0) == Fell && Exec(Fold(code), s, input, 0) == Done(s)
  {
    var code := Char('<', Char('>', End));
    assert RunNet(code, '<') == 1 + RunNet(code.rest, '<') == 0;
    assert RunRest(code.rest, '<') == End;
    assert Fold(code)[1..] == [];
  }

  // The parser.

  /** The part of `str` from `ptr` to `end` is the program `code` and then `after`, which is empty or closes a loop. */
  predicate At(str: string, ptr: nat, end: nat, code: Code, after: string) {
    && ptr <= end <= |str| && str[ptr..end] == Text(code) + after && Clean(code)
    && (after == [] || after[0] == ']')
  }

  lemma AheadChar(c: char, r: string, after: string)
    ensures var t := [c] + r + after; t[0] == c && t[1..] == r + after
  {
  }

  lemma AheadLoop(b: string, r: string, after: string)
    ensures var t := ['['] + b + [']'] + r + after; t[0] == '[' && t[1..] == b + ([']'] + r + after)
  {
    var t, more := ['['] + b + [']'] + r + after, [']'] + r + after;
    assert t == ['['] + (b + more);
    AheadChar('[', b + more, []);
    assert b + more + [] == b + more && ['['] + (b + more) + [] == t;
  }

  lemma Ahead(t: string, code: Code, after: string)
    requires t == Text(code) + after && t != [] && (after == [] || after[0] == ']')
    ensures match code
            case End => after != [] && t[0] == ']'
            case Char(c, r) => t[0] == c && t[1..] == Text(r) + after
            case Loop(b, r) => t[0] == '[' && t[1..] == Text(b) + ([']'] + Text(r) + after)
  {
    match code
    case End =>
    case Char(c, r) => AheadChar(c, Text(r), after);
    case Loop(b, r) => AheadLoop(Text(b), Text(r), after);
  }

  /** What the next character says about the rest of the program. */
  lemma NextIs(str: string, ptr: nat, end: nat, code: Code, after: string)
    requires At(str, ptr, end, code, after) && ptr < end
    ensures match code
            case End => str[ptr] == ']'
            case Char(c, r) => str[ptr] == c && c != '[' && c != ']' && At(str, ptr + 1, end, r, after)
            case Loop(b, r) => str[ptr] == '[' && At(str, ptr + 1, end, b, [']'] + Text(r) + after)
  {
    hide Text;
    Ahead(str[ptr..end], code, after);
    assert str[ptr] == str[ptr..end][0];
    assert str[ptr + 1..end] == str[ptr..end][1..];
  }

  /** The program goes on as long as there are characters before those that follow it. */
  lemma FrontIs(str: string, ptr: nat, end: nat, code: Code, after: string)
    requires At(str, ptr, end, code, after)
    ensures ptr <= end <= |str|
    ensures code.Char? ==> ptr < end && str[ptr] == code.c
    ensures code.Loop? ==> ptr < end
    ensures code.End? ==> str[ptr..end] == after
  {
    if code.Char? {
      assert (Text(code) + after)[0] == code.c;
    }
  }

  /** Past the bracket that closes a loop the program goes on. */
  lemma LoopEnds(str: string, ptr: nat, end: nat, code: Code, after: string)
    requires ptr <= end <= |str| && str[ptr..end] == [']'] + Text(code) + after && Clean(code)
    requires after == [] || after[0] == ']'
    ensures ptr < end && At(str, ptr + 1, end, code, after)
  {
    var t := Text(code) + after;
    assert str[ptr..end] == [']'] + t;
    assert str[ptr + 1..end] == str[ptr..end][1..] == t;
  }

  lemma Counted(n: int)
    ensures (n % WORD + 1) % WORD == (n + 1) % WORD && (n % WORD + WORD - 1) % WORD == (n - 1) % WORD
  {
  }

  /** Reads on over a run that began with `c`, and counts. */
  method ReadRun(str: string, start: nat, end: nat, c: char, ghost code: Code, ghost after: string)
    returns (difference: nat, ptr: nat)
    requires start < end <= |str| && At(str, start, end, code, after) && code.Char? && code.c == c && IsToken(c)
    ensures difference == RunNet(code, c) % WORD
    ensures start < ptr <= end && At(str, ptr, end, RunRest(code, c), after)
  {
    hide At;
    NextIs(str, start, end, code, after);
    difference, ptr := 1, start + 1;
    ghost var todo, net: int := code.rest, 1;
    while ptr < end && SameRun(c, str[ptr])
      invariant start < ptr <= end && At(str, ptr, end, todo, after)
      invariant difference == net % WORD && net + RunNet(todo, c) == RunNet(code, c)
      invariant RunRest(todo, c) == RunRest(code, c)
    {
      NextIs(str, ptr, end, todo, after);
      Counted(net);
      difference := if str[ptr] == c then (difference + 1) % WORD else (difference + WORD - 1) % WORD;
      net := net + if str[ptr] == c then 1 else -1;
      todo := todo.rest;
      ptr := ptr + 1;
    }
    FrontIs(str, ptr, end, todo, after);
  }

  /** Parses to the end or to the bracket that closes the program, and folds it. */
  method Parse(str: string, start: nat, end: nat, ghost code: Code, ghost after: string)
    returns (list: seq<Instruction>, ptr: nat)
    requires start <= end <= |str| && At(str, start, end, code, after)
    ensures list == Fold(code) && start <= ptr <= end && str[ptr..end] == after
    decreases end - start
  {
    hide At, RunNet, RunRest, Fold;
    list, ptr := [], start;
    ghost var todo := code;
    while ptr < end
      invariant start <= ptr <= end && At(str, ptr, end, todo, after)
      invariant list + Fold(todo) == Fold(code)
    {
      var c := str[ptr];
      NextIs(str, ptr, end, todo, after);
      if IsToken(c) {
        FoldRun(list, todo);
        var difference, next := ReadRun(str, ptr, end, c, todo, after);
        list := list + [Simple(c, difference)];
        ptr, todo := next, RunRest(todo, c);
      } else if c == '[' {
        FoldLoop(list, todo);
        var body, next := Parse(str, ptr + 1, end, todo.body, [']'] + Text(todo.rest) + after);
        list := list + [Repeat(body)];
        LoopFollows(str, ptr, end, todo, after);
        LoopEnds(str, next, end, todo.rest, after);
        ptr, todo := next + 1, todo.rest;
      } else if c == ']' {
        FrontIs(str, ptr, end, todo, after);
        FoldEnd(list);
        return;
      } else {
        FoldComment(list, todo);
        ptr, todo := ptr + 1, todo.rest;
      }
    }
    FrontIs(str, ptr, end, todo, after);
    FoldEnd(list);
  }

  // How a list of instructions goes on with the next part of the program.

  lemma FoldEnd(list: seq<Instruction>)
    ensures list + Fold(End) == list
  {
  }

  lemma FoldRun(list: seq<Instruction>, code: Code)
    requires code.Char? && IsToken(code.c)
    ensures list + Fold(code)
         == list + [Simple(code.c, RunNet(code, code.c) % WORD)] + Fold(RunRest(code, code.c))
  {
    hide RunNet;
    assert RunRest(code, code.c) == RunRest(code.rest, code.c);
    assert Fold(code) == [Simple(code.c, RunNet(code, code.c) % WORD)] + Fold(RunRest(code.rest, code.c));
  }

  lemma FoldComment(list: seq<Instruction>, code: Code)
    requires code.Char? && !IsToken(code.c)
    ensures list + Fold(code) == list + Fold(code.rest)
  {
  }

  lemma FoldLoop(list: seq<Instruction>, code: Code)
    requires code.Loop?
    ensures list + Fold(code) == list + [Repeat(Fold(code.body))] + Fold(code.rest)
  {
  }

  lemma LoopFollows(str: string, ptr: nat, end: nat, code: Code, after: string)
    requires At(str, ptr, end, code, after) && code.Loop?
    ensures Clean(code.rest) && (after == [] || after[0] == ']')
  {
  }

  // The executor.

  datatype Result = Ok | Error

  class Context {
    const tape: array<int>
    var index: int
    var output: seq<int>
    var consumed: nat

    ghost predicate Valid()
      reads this, tape
    {
      0 <= index < tape.Length
    }

    ghost function Value(): State
      requires Valid()
      reads this, tape
    {
      Machine(tape[..], index, output, consumed)
    }

    constructor (size: nat)
      requires size >= 1
      ensures Valid() && fresh(tape) && Value() == Machine(seq(size, _ => 0), 0, [], 0)
    {
      tape := new int[size](_ => 0);
      index, output, consumed := 0, [], 0;
    }

    /** One folded run; `ok` is false where the program exits with an error. */
    method ActOn(c: char, d: nat, input: nat -> int) returns (ok: bool)
      requires Valid()
      modifies this, tape
      ensures Valid() && Act(c, d, old(Value()), input) == if ok then Some(Value()) else None
    {
      match c {
        case '+' => tape[index] := (tape[index] + d % 256) % 256;
        case '-' => tape[index] := (tape[index] - d % 256) % 256;
        case '>' =>
          if d >= INT_MAX - tape.Length || index + d >= tape.Length {
            return false;
          }
          index := index + d;
        case '<' =>
          if d >= INT_MAX - tape.Length || index - d < 0 {
            return false;
          }
          index := index - d;
        case '.' =>
          for k := 0 to d
            invariant Valid() && Value() == Written(old(Value()), k)
          {
            output := output + [tape[index]];
          }
        case ',' =>
          for k := 0 to d
            invariant Valid() && Value() == ReadIn(old(Value()), k, input)
          {
            tape[index] := input(consumed) % 256;
            consumed := consumed + 1;
          }
        case _ =>
      }
      return true;
    }

    /** Executes a list whose execution ends, within `fuel` rounds of loops. */
    method Execute(p: seq<Instruction>, input: nat -> int, ghost fuel: nat) returns (r: Result)
      requires Valid() && Exec(p, Value(), input, fuel) != Starved
      modifies this, tape
      ensures Valid()
      ensures match Exec(p, old(Value()), input, fuel)
              case Done(s) => r == Ok && Value() == s
              case _ => r == Error
      decreases fuel, |p|
    {
      hide Act;
      var i: nat := 0;
      ghost var f: nat := fuel;
      while i < |p|
        invariant i <= |p| && 0 <= f <= fuel && Valid()
        invariant Exec(p, old(Value()), input, fuel) == Exec(p[i..], Value(), input, f)
        decreases |p| - i
      {
        match p[i] {
          case Simple(c, d) =>
            var ok := ActOn(c, d, input);
            if !ok {
              return Error;
            }
          case Repeat(b) =>
            while tape[index] != 0
              invariant 0 <= f <= fuel && Valid()
              invariant Exec(p, old(Value()), input, fuel) == Exec(p[i..], Value(), input, f)
              decreases f
            {
              r := Execute(b, input, f - 1);
              if r != Ok {
                return;
              }
              f := f - 1;
            }
        }
        i := i + 1;
      }
      return Ok;
    }
  }

  lemma TextRoom(code: Code)
    ensures Size(code) <= |Text(code)|
  {
  }

  /** The context before the first instruction. */
  function Fresh(size: nat): State
    requires size >= 1
  {
    Machine(seq(size, _ => 0), 0, [], 0)
  }

  /** A bound within which the folded program is over. */
  lemma EnoughFuel(code: Code, s: State, input: nat -> int, end: State) returns (f: nat)
    requires Size(code) <= INT_MAX && |s.tape| <= INT_MAX
    requires !Falls(code, s, input) && (AllStraight(code, s, input) ==> Ends(code, s, input, end))
    ensures Exec(Fold(code), s, input, f) == if AllStraight(code, s, input) then Done(end) else Fell
  {
    hide Fold, Exec, Run, Straight;
    if AllStraight(code, s, input) {
      f := EndOf(code, s, input, end);
    } else {
      f :| !Straight(code, s, input, f);
    }
    FoldAgrees(code, s, input, f);
  }

  /**
   * From text to final context: parse, fold and execute.  The characters of the program never leave
   * the tape, and end in `end`, unless the folded program stops with an error before.
   */
  method Interpret(str: string, size: nat, input: nat -> int, ghost code: Code, ghost end: State)
    returns (r: Result, context: Context)
    requires str == Text(code) && Clean(code) && |str| <= INT_MAX && 1 <= size <= INT_MAX
    requires !Falls(code, Fresh(size), input)
    requires AllStraight(code, Fresh(size), input) ==> Ends(code, Fresh(size), input, end)
    ensures fresh(context) && context.Valid()
    ensures if AllStraight(code, Fresh(size), input) then r == Ok && context.Value() == end else r == Error
  {
    hide Fold, Exec, Text, AllStraight, Falls, Ends;
    assert At(str, 0, |str|, code, []) by {
      assert str[0..|str|] == Text(code) + [];
    }
    var list, ptr := Parse(str, 0, |str|, code, []);
    context := new Context(size);
    TextRoom(code);
    ghost var f := EnoughFuel(code, Fresh(size), input, end);
    r := context.Execute(list, input, f);
  }
}
