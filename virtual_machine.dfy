/** The stack machine that runs a parsed program. */
module VirtualMachine {
  import opened Instructions

  /** What the machine writes to standard output: a character (by its code)
      or a decimal integer. */
  datatype Output = CharOut(code: int) | IntOut(value: int)

  /** The situations in which the C++ has undefined behaviour. The model
      stops with one of them instead of inventing a result. */
  datatype Fault =
    | StackUnderflow      // `back()` or `pop_back()` on an empty `stack_`
    | DivisionByZero      // `x / 0` or `x % 0`
    | CallStackUnderflow  // `Ret` with an empty `call_stack_`
    | InputExhausted      // a read when standard input has nothing left

  /** The state the instructions change: the fields of `VirtualMachine`
      other than the program and `finished_`, together with what is left of
      standard input and what has been written to standard output. */
  datatype Machine = Machine(
    heap: map<int, int>,
    stack: seq<int>,
    callStack: seq<nat>,
    pc: nat,
    labels: map<string, nat>,
    input: seq<int>,
    output: seq<Output>)

  // ---------------------------------------------------------------------
  // `std::map::operator[]`, which inserts a default 0 for a missing key
  // ---------------------------------------------------------------------

  /** The index `labels_[l]` yields. */
  function Resolve(labels: map<string, nat>, l: string): (target: nat)
    ensures l !in labels ==> target == 0
    ensures l in labels ==> target == labels[l]
  {
    if l in labels then labels[l] else 0
  }

  /** The label table after `labels_[l]`. */
  function Touch(labels: map<string, nat>, l: string): (r: map<string, nat>)
    ensures l in r && r[l] == Resolve(labels, l)
    ensures forall k :: k in labels ==> k in r && r[k] == labels[k]
    ensures forall k :: k in r && k != l ==> k in labels
    ensures forall k :: Resolve(r, k) == Resolve(labels, k)
  {
    if l in labels then labels else labels[l := 0]
  }

  /** The value `heap_[a]` yields. */
  function HeapRead(heap: map<int, int>, a: int): int
  {
    if a in heap then heap[a] else 0
  }

  /** The heap after `heap_[a]` is read. */
  function HeapTouch(heap: map<int, int>, a: int): (r: map<int, int>)
    ensures a in r
    ensures forall b :: HeapRead(r, b) == HeapRead(heap, b)
  {
    if a in heap then heap else heap[a := 0]
  }

  // ---------------------------------------------------------------------
  // C++ integer division
  // ---------------------------------------------------------------------

  function Abs(x: int): nat
  {
    if x < 0 then -x else x
  }

  // Arithmetic proof helpers for `TruncDivSign` and `TruncDivMod`.

  /** The quotient of two magnitudes is a magnitude. */
  lemma QuotientOfMagnitudes(a: nat, b: nat)
    requires b > 0
    ensures a / b >= 0
  {
  }

  /** `x / y` on C++ integers: the quotient rounded toward zero. */
  function TruncDiv(x: int, y: int): int
    requires y != 0
  {
    var q := Abs(x) / Abs(y);
    if (x < 0) == (y < 0) then q else -q
  }

  /** `x / y` has the magnitude of the quotient of the magnitudes, and is
      negative only when the operands' signs differ. */
  lemma TruncDivSign(x: int, y: int)
    requires y != 0
    ensures Abs(TruncDiv(x, y)) == Abs(x) / Abs(y)
    ensures TruncDiv(x, y) == 0 || (TruncDiv(x, y) < 0 <==> (x < 0) != (y < 0))
  {
    QuotientOfMagnitudes(Abs(x), Abs(y));
  }

  /** `x % y` on C++ integers: the remainder of the magnitudes, with the
      sign of `x`. */
  function TruncMod(x: int, y: int): (m: int)
    requires y != 0
    ensures Abs(m) < Abs(y)
    ensures m == 0 || (m < 0 <==> x < 0)
  {
    var r := Abs(x) % Abs(y);
    if x < 0 then -r else r
  }

  /** The C++ guarantee relating the two: `(x / y) * y + x % y == x`, and the
      quotient rounds toward zero. */
  lemma TruncDivMod(x: int, y: int)
    requires y != 0
    ensures TruncDiv(x, y) * y + TruncMod(x, y) == x
    ensures Abs(TruncDiv(x, y) * y) <= Abs(x)
  {
    var a: int, b: int := Abs(x), Abs(y);
    var q: int, r: int := a / b, a % b;
    Magnitudes(a, b);
    var p := q * b;
    var d := TruncDiv(x, y);
    if x >= 0 && y > 0 {
      assert d == q && y == b;
    } else if x >= 0 {
      assert d == -q && y == -b;
      NegTimesNeg(q, b);
    } else if y > 0 {
      assert d == -q && y == b;
      NegTimes(q, b);
    } else {
      assert d == q && y == -b;
      NegTimes(b, q);
    }
  }

  /** Proof helper: Euclidean division of a magnitude by a positive magnitude. */
  lemma Magnitudes(a: int, b: int)
    requires 0 <= a && 0 < b
    ensures a == (a / b) * b + a % b
    ensures 0 <= a % b && 0 <= (a / b) * b
  {
    var q := a / b;
    assert q >= 0;
  }

  /** Proof helper: negating one factor negates the product. */
  lemma NegTimes(q: int, b: int)
    ensures (-q) * b == -(q * b) && b * (-q) == -(q * b)
  {
  }

  /** Proof helper: negating both factors keeps the product. */
  lemma NegTimesNeg(q: int, b: int)
    ensures (-q) * (-b) == q * b
  {
  }

  // ---------------------------------------------------------------------
  // One instruction
  // ---------------------------------------------------------------------

  /** The result of one `visit`: the next state, or the undefined behaviour
      the C++ runs into (the state is then left as it was). */
  datatype Outcome = Stepped(next: Machine) | Faulted(fault: Fault)

  /** The operand stack with its top `n` entries removed. */
  function Drop(s: seq<int>, n: nat): seq<int>
    requires n <= |s|
  {
    s[..|s| - n]
  }

  /** The entry `k` places below the top of the stack (0 is the top). */
  function Peek(s: seq<int>, k: nat): int
    requires k < |s|
  {
    s[|s| - 1 - k]
  }

  /** How many entries at the top of the operand stack an instruction reads. */
  function Needs(i: Instruction): nat
  {
    match i
    case Dupl => 1
    case Swap => 2
    case Discard => 1
    case Add => 2
    case Sub => 2
    case Mul => 2
    case Div => 2
    case Mod => 2
    case Store => 2
    case Retrieve => 1
    case JumpZero(_) => 1
    case JumpNeg(_) => 1
    case PrintChar => 1
    case PrintInt => 1
    case ReadChar => 1
    case ReadInt => 1
    case _ => 0
  }

  /** How many entries an instruction leaves on the stack in place of the
      `Needs` entries it read. */
  function Leaves(i: Instruction): nat
  {
    match i
    case Push(_) => 1
    case Dupl => 2
    case Swap => 2
    case Add => 1
    case Sub => 1
    case Mul => 1
    case Div => 1
    case Mod => 1
    case Retrieve => 1
    case _ => 0
  }

  /** The instructions that read standard input. */
  predicate Reads(i: Instruction)
  {
    i.ReadChar? || i.ReadInt?
  }

  /** The instructions that write standard output. */
  predicate Writes(i: Instruction)
  {
    i.PrintChar? || i.PrintInt?
  }

  /** The instructions that assign to the heap. */
  predicate Stores(i: Instruction)
  {
    i.Store? || Reads(i)
  }

  /** The instructions after which execution continues with the next one
      (`End` leaves the program instead). */
  predicate StraightLine(i: Instruction)
  {
    !(i.CallLbl? || i.Jump? || i.JumpZero? || i.JumpNeg? || i.Ret?)
  }

  /** `visit` for the instruction at the program counter. */
  function Exec(prog: seq<Instruction>, m: Machine): (r: Outcome)
    requires m.pc < |prog|
  {
    var s := m.stack;
    var pc := m.pc;
    match prog[pc]
    case Push(n) => Stepped(m.(stack := s + [n], pc := pc + 1))
    case Dupl =>
      if |s| < 1 then Faulted(StackUnderflow)
      else Stepped(m.(stack := s + [Peek(s, 0)], pc := pc + 1))
    case Swap =>
      if |s| < 2 then Faulted(StackUnderflow)
      else Stepped(m.(stack := Drop(s, 2) + [Peek(s, 0), Peek(s, 1)], pc := pc + 1))
    case Discard =>
      if |s| < 1 then Faulted(StackUnderflow)
      else Stepped(m.(stack := Drop(s, 1), pc := pc + 1))
    case Add =>
      if |s| < 2 then Faulted(StackUnderflow)
      else Stepped(m.(stack := Drop(s, 2) + [Peek(s, 1) + Peek(s, 0)], pc := pc + 1))
    case Sub =>
      if |s| < 2 then Faulted(StackUnderflow)
      else Stepped(m.(stack := Drop(s, 2) + [Peek(s, 1) - Peek(s, 0)], pc := pc + 1))
    case Mul =>
      if |s| < 2 then Faulted(StackUnderflow)
      else Stepped(m.(stack := Drop(s, 2) + [Peek(s, 1) * Peek(s, 0)], pc := pc + 1))
    case Div =>
      if |s| < 2 then Faulted(StackUnderflow)
      else if Peek(s, 0) == 0 then Faulted(DivisionByZero)
      else Stepped(m.(stack := Drop(s, 2) + [TruncDiv(Peek(s, 1), Peek(s, 0))], pc := pc + 1))
    case Mod =>
      if |s| < 2 then Faulted(StackUnderflow)
      else if Peek(s, 0) == 0 then Faulted(DivisionByZero)
      else Stepped(m.(stack := Drop(s, 2) + [TruncMod(Peek(s, 1), Peek(s, 0))], pc := pc + 1))
    case Store =>
      if |s| < 2 then Faulted(StackUnderflow)
      else Stepped(m.(heap := m.heap[Peek(s, 1) := Peek(s, 0)], stack := Drop(s, 2), pc := pc + 1))
    case Retrieve =>
      if |s| < 1 then Faulted(StackUnderflow)
      else
        var a := Peek(s, 0);
        Stepped(m.(heap := HeapTouch(m.heap, a), stack := Drop(s, 1) + [HeapRead(m.heap, a)], pc := pc + 1))
    case SetLbl(_) => Stepped(m.(pc := pc + 1))
    case CallLbl(l) =>
      Stepped(m.(callStack := m.callStack + [pc], pc := Resolve(m.labels, l), labels := Touch(m.labels, l)))
    case Jump(l) => Stepped(m.(pc := Resolve(m.labels, l), labels := Touch(m.labels, l)))
    case JumpZero(l) =>
      if |s| < 1 then Faulted(StackUnderflow)
      else if Peek(s, 0) == 0 then
        Stepped(m.(stack := Drop(s, 1), pc := Resolve(m.labels, l), labels := Touch(m.labels, l)))
      else Stepped(m.(stack := Drop(s, 1), pc := pc + 1))
    case JumpNeg(l) =>
      if |s| < 1 then Faulted(StackUnderflow)
      else if Peek(s, 0) < 0 then
        Stepped(m.(stack := Drop(s, 1), pc := Resolve(m.labels, l), labels := Touch(m.labels, l)))
      else Stepped(m.(stack := Drop(s, 1), pc := pc + 1))
    case Ret =>
      if |m.callStack| < 1 then Faulted(CallStackUnderflow)
      else
        var c := m.callStack;
        Stepped(m.(callStack := c[..|c| - 1], pc := c[|c| - 1] + 1))
    case End => Stepped(m.(pc := |prog|))
    case PrintChar =>
      if |s| < 1 then Faulted(StackUnderflow)
      else Stepped(m.(stack := Drop(s, 1), output := m.output + [CharOut(Peek(s, 0))], pc := pc + 1))
    case PrintInt =>
      if |s| < 1 then Faulted(StackUnderflow)
      else Stepped(m.(stack := Drop(s, 1), output := m.output + [IntOut(Peek(s, 0))], pc := pc + 1))
    case ReadChar =>
      if |m.input| < 1 then Faulted(InputExhausted)
      else if |s| < 1 then Faulted(StackUnderflow)
      else
        Stepped(m.(heap := m.heap[Peek(s, 0) := m.input[0]], input := m.input[1..],
                   stack := Drop(s, 1), pc := pc + 1))
    case ReadInt =>
      if |m.input| < 1 then Faulted(InputExhausted)
      else if |s| < 1 then Faulted(StackUnderflow)
      else
        Stepped(m.(heap := m.heap[Peek(s, 0) := m.input[0]], input := m.input[1..],
                   stack := Drop(s, 1), pc := pc + 1))
  }

  /** A step has undefined behaviour exactly in these four situations. */
  lemma ExecFaults(prog: seq<Instruction>, m: Machine)
    requires m.pc < |prog|
    ensures var i, r := prog[m.pc], Exec(prog, m);
      r == Faulted(StackUnderflow) <==> |m.stack| < Needs(i) && !(Reads(i) && m.input == [])
    ensures var i, r := prog[m.pc], Exec(prog, m);
      r == Faulted(DivisionByZero) <==> (i.Div? || i.Mod?) && |m.stack| >= 2 && Peek(m.stack, 0) == 0
    ensures Exec(prog, m) == Faulted(CallStackUnderflow) <==> prog[m.pc].Ret? && m.callStack == []
    ensures Exec(prog, m) == Faulted(InputExhausted) <==> Reads(prog[m.pc]) && m.input == []
  {
  }

  /** A step replaces the `Needs` entries at the top of the stack by `Leaves`
      entries and leaves the stack below them alone. */
  lemma ExecStack(prog: seq<Instruction>, m: Machine)
    requires m.pc < |prog|
    ensures var i, r := prog[m.pc], Exec(prog, m);
      r.Stepped? ==> var s, n := m.stack, r.next.stack;
        |s| >= Needs(i) && |n| == |s| - Needs(i) + Leaves(i) && n[..|s| - Needs(i)] == s[..|s| - Needs(i)]
  {
    match prog[m.pc]
    case Push(_) =>
    case Dupl =>
    case Swap =>
    case Discard =>
    case Add =>
    case Sub =>
    case Mul =>
    case Div =>
    case Mod =>
    case Store =>
    case Retrieve =>
    case SetLbl(_) =>
    case CallLbl(_) =>
    case Jump(_) =>
    case JumpZero(_) =>
    case JumpNeg(_) =>
    case Ret =>
    case End =>
    case PrintChar =>
    case PrintInt =>
    case ReadChar =>
    case ReadInt =>
  }

  /** Where execution continues, and the label table keeps its targets. */
  lemma ExecFlow(prog: seq<Instruction>, m: Machine)
    requires m.pc < |prog|
    ensures var i, r := prog[m.pc], Exec(prog, m);
      r.Stepped? && StraightLine(i) ==>
        r.next.pc == (if i.End? then |prog| else m.pc + 1) &&
        r.next.callStack == m.callStack && r.next.labels == m.labels
    ensures var r := Exec(prog, m);
      r.Stepped? ==> forall l :: Resolve(r.next.labels, l) == Resolve(m.labels, l)
  {
    match prog[m.pc]
    case Push(_) =>
    case Dupl =>
    case Swap =>
    case Discard =>
    case Add =>
    case Sub =>
    case Mul =>
    case Div =>
    case Mod =>
    case Store =>
    case Retrieve =>
    case SetLbl(_) =>
    case CallLbl(_) =>
    case Jump(_) =>
    case JumpZero(_) =>
    case JumpNeg(_) =>
    case Ret =>
    case End =>
    case PrintChar =>
    case PrintInt =>
    case ReadChar =>
    case ReadInt =>
  }

  /** Only `Store`, `ReadChar` and `ReadInt` change what the heap holds. */
  lemma ExecHeap(prog: seq<Instruction>, m: Machine)
    requires m.pc < |prog|
    ensures var i, r := prog[m.pc], Exec(prog, m);
      r.Stepped? && !Stores(i) ==> forall a :: HeapRead(r.next.heap, a) == HeapRead(m.heap, a)
  {
    match prog[m.pc]
    case Push(_) =>
    case Dupl =>
    case Swap =>
    case Discard =>
    case Add =>
    case Sub =>
    case Mul =>
    case Div =>
    case Mod =>
    case Store =>
    case Retrieve =>
    case SetLbl(_) =>
    case CallLbl(_) =>
    case Jump(_) =>
    case JumpZero(_) =>
    case JumpNeg(_) =>
    case Ret =>
    case End =>
    case PrintChar =>
    case PrintInt =>
    case ReadChar =>
    case ReadInt =>
  }

  /** Only the two reads consume input, one value each, and only the two
      prints write output, one item each, after what was written before. */
  lemma ExecInputOutput(prog: seq<Instruction>, m: Machine)
    requires m.pc < |prog|
    ensures var i, r := prog[m.pc], Exec(prog, m);
      r.Stepped? ==> r.next.input == if Reads(i) then m.input[1..] else m.input
    ensures var i, r := prog[m.pc], Exec(prog, m);
      r.Stepped? ==> |r.next.output| == |m.output| + (if Writes(i) then 1 else 0) && r.next.output[..|m.output|] == m.output
  {
    match prog[m.pc]
    case Push(_) =>
    case Dupl =>
    case Swap =>
    case Discard =>
    case Add =>
    case Sub =>
    case Mul =>
    case Div =>
    case Mod =>
    case Store =>
    case Retrieve =>
    case SetLbl(_) =>
    case CallLbl(_) =>
    case Jump(_) =>
    case JumpZero(_) =>
    case JumpNeg(_) =>
    case Ret =>
    case End =>
    case PrintChar =>
    case PrintInt =>
    case ReadChar =>
    case ReadInt =>
  }

  /** `Push` puts its number on top, `Dupl` a second copy of the top, and
      `Swap` exchanges the top two entries. */
  lemma ExecStackTop(prog: seq<Instruction>, m: Machine)
    requires m.pc < |prog| && (prog[m.pc].Push? || prog[m.pc].Dupl? || prog[m.pc].Swap?)
    requires Exec(prog, m).Stepped?
    ensures var i, s, n := prog[m.pc], m.stack, Exec(prog, m).next.stack;
      && (i.Push? ==> Peek(n, 0) == i.num)
      && (i.Dupl? ==> Peek(n, 0) == Peek(s, 0) && Peek(n, 1) == Peek(s, 0))
      && (i.Swap? ==> Peek(n, 0) == Peek(s, 1) && Peek(n, 1) == Peek(s, 0))
  {
    ExecStack(prog, m);
  }

  /** `Add`, `Sub`, `Mul`, `Div` and `Mod` pop `y`, the top, then `x`, the
      entry below it, and push `x op y`, with C++ truncating division. */
  lemma ExecArithmetic(prog: seq<Instruction>, m: Machine)
    requires m.pc < |prog| && Needs(prog[m.pc]) == 2 && Leaves(prog[m.pc]) == 1
    requires Exec(prog, m).Stepped?
    ensures var i, s, n := prog[m.pc], m.stack, Exec(prog, m).next.stack;
      var x, y := Peek(s, 1), Peek(s, 0);
      && |n| == |s| - 1 && Drop(n, 1) == Drop(s, 2)
      && (i.Add? ==> Peek(n, 0) == x + y)
      && (i.Sub? ==> Peek(n, 0) == x - y)
      && (i.Mul? ==> Peek(n, 0) == x * y)
      && (i.Div? ==> y != 0 && Peek(n, 0) == TruncDiv(x, y))
      && (i.Mod? ==> y != 0 && Peek(n, 0) == TruncMod(x, y))
  {
  }

  /** `PrintChar` and `PrintInt` pop the top and write it, as a character
      code or as an integer, after what was written before. */
  lemma ExecPrint(prog: seq<Instruction>, m: Machine)
    requires m.pc < |prog| && Writes(prog[m.pc]) && Exec(prog, m).Stepped?
    ensures var i, n := prog[m.pc], Exec(prog, m).next;
      && n.stack == Drop(m.stack, 1)
      && n.output == m.output + [if i.PrintChar? then CharOut(Peek(m.stack, 0)) else IntOut(Peek(m.stack, 0))]
  {
  }

  /** `Store` writes the value on top into the cell whose address is below it
      and leaves every other cell alone. */
  lemma ExecStore(prog: seq<Instruction>, m: Machine)
    requires m.pc < |prog| && prog[m.pc].Store? && Exec(prog, m).Stepped?
    ensures var s, h := m.stack, Exec(prog, m).next.heap;
      && HeapRead(h, Peek(s, 1)) == Peek(s, 0)
      && forall a :: a != Peek(s, 1) ==> HeapRead(h, a) == HeapRead(m.heap, a)
  {
  }

  /** `Retrieve` replaces the address on top by the cell's content, 0 for a
      cell never written, and the cells keep their contents. */
  lemma ExecRetrieve(prog: seq<Instruction>, m: Machine)
    requires m.pc < |prog| && prog[m.pc].Retrieve? && Exec(prog, m).Stepped?
    ensures var s, n := m.stack, Exec(prog, m).next;
      && Peek(n.stack, 0) == HeapRead(m.heap, Peek(s, 0))
      && (Peek(s, 0) !in m.heap ==> Peek(n.stack, 0) == 0)
      && forall a :: HeapRead(n.heap, a) == HeapRead(m.heap, a)
  {
  }

  /** `ReadChar` and `ReadInt` write the next input value into the cell whose
      address is on top, and leave every other cell alone. */
  lemma ExecRead(prog: seq<Instruction>, m: Machine)
    requires m.pc < |prog| && Reads(prog[m.pc]) && Exec(prog, m).Stepped?
    ensures var s, h := m.stack, Exec(prog, m).next.heap;
      && HeapRead(h, Peek(s, 0)) == m.input[0]
      && forall a :: a != Peek(s, 0) ==> HeapRead(h, a) == HeapRead(m.heap, a)
  {
  }

  /** `CallLbl` and `Jump` go to the label's target, 0 for a label not in the
      table; `JumpZero` and `JumpNeg` pop the top and go there exactly when it
      is zero, respectively negative, and to the next instruction otherwise. */
  lemma ExecBranch(prog: seq<Instruction>, m: Machine)
    requires m.pc < |prog| && Exec(prog, m).Stepped?
    requires var i := prog[m.pc]; i.CallLbl? || i.Jump? || i.JumpZero? || i.JumpNeg?
    ensures var i, s, n := prog[m.pc], m.stack, Exec(prog, m).next;
      var target := if i.name in m.labels then m.labels[i.name] else 0;
      && ((i.CallLbl? || i.Jump?) ==> n.pc == target && n.stack == s)
      && (i.JumpZero? ==> n.stack == Drop(s, 1) && n.pc == if Peek(s, 0) == 0 then target else m.pc + 1)
      && (i.JumpNeg? ==> n.stack == Drop(s, 1) && n.pc == if Peek(s, 0) < 0 then target else m.pc + 1)
  {
  }

  // ---------------------------------------------------------------------
  // A run
  // ---------------------------------------------------------------------

  /** How a run ends: the program counter left the program, a step had
      undefined behaviour, or the step budget ran out first. */
  datatype Status = Completed | Stopped(fault: Fault) | OutOfFuel

  /** The end of a run and the state it ended in. */
  datatype Halt = Halt(status: Status, last: Machine)

  /** The loop of `run`: visit the instruction at the program counter while
      the counter is inside the program, for at most `fuel` steps. */
  function RunFrom(prog: seq<Instruction>, m: Machine, fuel: nat): (h: Halt)
    decreases fuel
    ensures h.status.Completed? <==> h.last.pc >= |prog|
  {
    if m.pc >= |prog| then Halt(Completed, m)
    else if fuel == 0 then Halt(OutOfFuel, m)
    else
      match Exec(prog, m)
      case Faulted(f) => Halt(Stopped(f), m)
      case Stepped(n) => RunFrom(prog, n, fuel - 1)
  }

  /** A run stops on a fault only at an instruction whose step has that
      undefined behaviour, and only runs out of budget inside the program. */
  lemma {:induction false} RunStops(prog: seq<Instruction>, m: Machine, fuel: nat)
    ensures var h := RunFrom(prog, m, fuel);
      h.status.Stopped? ==> h.last.pc < |prog| && Exec(prog, h.last) == Faulted(h.status.fault)
    decreases fuel
  {
    if m.pc < |prog| && fuel > 0 && Exec(prog, m).Stepped? {
      RunStops(prog, Exec(prog, m).next, fuel - 1);
    }
  }

  /** Output is only ever appended to. */
  lemma {:induction false} RunOutput(prog: seq<Instruction>, m: Machine, fuel: nat)
    ensures var o := RunFrom(prog, m, fuel).last.output;
      |o| >= |m.output| && o[..|m.output|] == m.output
    decreases fuel
  {
    if m.pc < |prog| && fuel > 0 && Exec(prog, m).Stepped? {
      var n := Exec(prog, m).next;
      ExecInputOutput(prog, m);
      RunOutput(prog, n, fuel - 1);
      var o := RunFrom(prog, n, fuel - 1).last.output;
      assert o[..|m.output|] == o[..|n.output|][..|m.output|];
    }
  }

  /** A run of `a + b` steps is a run of `a` steps continued for `b` more. */
  lemma {:induction false} RunSplit(prog: seq<Instruction>, m: Machine, a: nat, b: nat)
    ensures var h := RunFrom(prog, m, a);
      RunFrom(prog, m, a + b) == if h.status.OutOfFuel? then RunFrom(prog, h.last, b) else h
    decreases a
  {
    if m.pc < |prog| && a > 0 {
      match Exec(prog, m)
      case Faulted(_) =>
      case Stepped(n) =>
        RunSplit(prog, n, a - 1, b);
        assert RunFrom(prog, m, a + b) == RunFrom(prog, n, a - 1 + b);
    }
  }

  /** A run that ends within its budget ends the same way with any larger
      budget. */
  lemma RunMonotone(prog: seq<Instruction>, m: Machine, a: nat, b: nat)
    requires a <= b && !RunFrom(prog, m, a).status.OutOfFuel?
    ensures RunFrom(prog, m, b) == RunFrom(prog, m, a)
  {
    RunSplit(prog, m, a, b - a);
  }

  /** A program without calls, jumps and returns finishes or faults within
      one step per remaining instruction. */
  lemma {:induction false} StraightLineHalts(prog: seq<Instruction>, m: Machine, fuel: nat)
    requires forall k :: m.pc <= k < |prog| ==> StraightLine(prog[k])
    requires m.pc + fuel >= |prog|
    ensures !RunFrom(prog, m, fuel).status.OutOfFuel?
    decreases fuel
  {
    if m.pc < |prog| && Exec(prog, m).Stepped? {
      ExecFlow(prog, m);
      StraightLineHalts(prog, Exec(prog, m).next, fuel - 1);
    }
  }

  // ---------------------------------------------------------------------
  // Jump targets
  // ---------------------------------------------------------------------

  /** The program counter stays within the program (or just past it), and so
      do the label targets and the return addresses. */
  predicate Inv(prog: seq<Instruction>, m: Machine)
  {
    && m.pc <= |prog|
    && (forall l :: l in m.labels ==> m.labels[l] <= |prog|)
    && (forall k :: 0 <= k < |m.callStack| ==> m.callStack[k] < |prog|)
  }

  lemma ExecInv(prog: seq<Instruction>, m: Machine)
    requires m.pc < |prog| && Inv(prog, m)
    ensures Exec(prog, m).Stepped? ==> Inv(prog, Exec(prog, m).next)
  {
    match prog[m.pc]
    case CallLbl(l) =>
    case Jump(l) =>
    case JumpZero(l) =>
    case JumpNeg(l) =>
    case Ret =>
    case _ => ExecFlow(prog, m);
  }

  /** A run from a state within bounds stays within bounds, and a completed
      one ends with the counter exactly one past the last instruction. */
  lemma {:induction false} RunInv(prog: seq<Instruction>, m: Machine, fuel: nat)
    requires Inv(prog, m)
    ensures Inv(prog, RunFrom(prog, m, fuel).last)
    ensures RunFrom(prog, m, fuel).status.Completed? ==> RunFrom(prog, m, fuel).last.pc == |prog|
    decreases fuel
  {
    if m.pc < |prog| && fuel > 0 && Exec(prog, m).Stepped? {
      ExecInv(prog, m);
      RunInv(prog, Exec(prog, m).next, fuel - 1);
    }
  }

  /** Two label tables that send every label to the same place. The entries
      `labels_[l]` inserts for missing labels make no difference to this. */
  ghost predicate SameTargets(a: map<string, nat>, b: map<string, nat>)
  {
    forall l :: Resolve(a, l) == Resolve(b, l)
  }

  lemma ExecSameTargets(prog: seq<Instruction>, m: Machine, labels: map<string, nat>)
    requires m.pc < |prog| && SameTargets(m.labels, labels)
    ensures var r, r' := Exec(prog, m), Exec(prog, m.(labels := labels));
      && r.Faulted? == r'.Faulted?
      && (r.Faulted? ==> r == r')
      && (r.Stepped? ==> r'.next == r.next.(labels := r'.next.labels) && SameTargets(r.next.labels, r'.next.labels))
  {
    var m' := m.(labels := labels);
    ExecFlow(prog, m);
    ExecFlow(prog, m');
    match prog[m.pc]
    case CallLbl(l) =>
    case Jump(l) =>
    case JumpZero(l) =>
    case JumpNeg(l) =>
    case _ =>
  }

  /** Runs from states that differ only in label tables with the same targets
      end the same way, in states that differ in the same way. */
  lemma RunSameTargets(prog: seq<Instruction>, m: Machine, labels: map<string, nat>, fuel: nat)
    requires SameTargets(m.labels, labels)
    ensures var h, h' := RunFrom(prog, m, fuel), RunFrom(prog, m.(labels := labels), fuel);
      h'.status == h.status && h'.last == h.last.(labels := h'.last.labels) &&
      SameTargets(h.last.labels, h'.last.labels)
  {
    var m' := m.(labels := labels);
    RunLabelsOnly(prog, m, labels, fuel);
    RunKeepsTargets(prog, m, fuel);
    RunKeepsTargets(prog, m', fuel);
  }

  /** The induction behind `RunSameTargets`: only the label tables differ. */
  lemma {:induction false} RunLabelsOnly(prog: seq<Instruction>, m: Machine, labels: map<string, nat>, fuel: nat)
    requires SameTargets(m.labels, labels)
    ensures var h, h' := RunFrom(prog, m, fuel), RunFrom(prog, m.(labels := labels), fuel);
      h'.status == h.status && h'.last == h.last.(labels := h'.last.labels)
    decreases fuel
  {
    if m.pc < |prog| && fuel > 0 {
      var m' := m.(labels := labels);
      ExecSameTargets(prog, m, labels);
      match Exec(prog, m)
      case Faulted(f) =>
        assert Exec(prog, m') == Faulted(f);
      case Stepped(n) =>
        var n' := Exec(prog, m').next;
        assert n' == n.(labels := n'.labels);
        RunLabelsOnly(prog, n, n'.labels, fuel - 1);
        assert RunFrom(prog, m', fuel) == RunFrom(prog, n', fuel - 1);
    }
  }

  /** A whole run keeps every label's target: the entries `labels_[l]`
      inserts on the way all send their label to 0, where it went before. */
  lemma {:induction false} RunKeepsTargets(prog: seq<Instruction>, m: Machine, fuel: nat)
    ensures SameTargets(RunFrom(prog, m, fuel).last.labels, m.labels)
    decreases fuel
  {
    if m.pc < |prog| && fuel > 0 {
      ExecFlow(prog, m);
      match Exec(prog, m)
      case Faulted(_) =>
      case Stepped(n) =>
        RunKeepsTargets(prog, n, fuel - 1);
    }
  }

  /** The outcome of a step taken after output `o` was already written. */
  function AfterOutput(r: Outcome, o: seq<Output>): Outcome
  {
    match r
    case Stepped(n) => Stepped(n.(output := o + n.output))
    case Faulted(f) => Faulted(f)
  }

  /** What was written before does not influence a step, which only appends
      to it. */
  lemma ExecAfterOutput(prog: seq<Instruction>, m: Machine, o: seq<Output>)
    requires m.pc < |prog|
    ensures Exec(prog, m.(output := o + m.output)) == AfterOutput(Exec(prog, m), o)
  {
    var i := prog[m.pc];
    if i.PrintChar? || i.PrintInt? {
      if m.stack != [] {
        var x := if i.PrintChar? then [CharOut(Peek(m.stack, 0))] else [IntOut(Peek(m.stack, 0))];
        assert (o + m.output) + x == o + (m.output + x);
      }
    } else if i.Push? || i.Dupl? || i.Swap? || i.Discard? {
      StackAfterOutput(prog, m, o);
    } else if i.Add? || i.Sub? || i.Mul? || i.Div? || i.Mod? {
      ArithmeticAfterOutput(prog, m, o);
    } else if i.Store? || i.Retrieve? || i.ReadChar? || i.ReadInt? {
      HeapAfterOutput(prog, m, o);
    } else if i.SetLbl? || i.CallLbl? || i.Jump? || i.JumpZero? || i.JumpNeg? || i.Ret? || i.End? {
      FlowAfterOutput(prog, m, o);
    }
  }

  lemma StackAfterOutput(prog: seq<Instruction>, m: Machine, o: seq<Output>)
    requires m.pc < |prog| && var i := prog[m.pc]; i.Push? || i.Dupl? || i.Swap? || i.Discard?
    ensures Exec(prog, m.(output := o + m.output)) == AfterOutput(Exec(prog, m), o)
  {
    match prog[m.pc]
    case Push(_) =>
    case Dupl =>
    case Swap =>
    case Discard =>
    case _ => assert false;
  }

  lemma ArithmeticAfterOutput(prog: seq<Instruction>, m: Machine, o: seq<Output>)
    requires m.pc < |prog| && var i := prog[m.pc]; i.Add? || i.Sub? || i.Mul? || i.Div? || i.Mod?
    ensures Exec(prog, m.(output := o + m.output)) == AfterOutput(Exec(prog, m), o)
  {
    match prog[m.pc]
    case Add =>
    case Sub =>
    case Mul =>
    case Div =>
    case Mod =>
    case _ => assert false;
  }

  lemma HeapAfterOutput(prog: seq<Instruction>, m: Machine, o: seq<Output>)
    requires m.pc < |prog| && var i := prog[m.pc]; i.Store? || i.Retrieve? || i.ReadChar? || i.ReadInt?
    ensures Exec(prog, m.(output := o + m.output)) == AfterOutput(Exec(prog, m), o)
  {
    match prog[m.pc]
    case Store =>
    case Retrieve =>
    case ReadChar =>
    case ReadInt =>
    case _ => assert false;
  }

  lemma FlowAfterOutput(prog: seq<Instruction>, m: Machine, o: seq<Output>)
    requires m.pc < |prog| && var i := prog[m.pc]; i.SetLbl? || i.CallLbl? || i.Jump? || i.JumpZero? || i.JumpNeg? || i.Ret? || i.End?
    ensures Exec(prog, m.(output := o + m.output)) == AfterOutput(Exec(prog, m), o)
  {
    match prog[m.pc]
    case SetLbl(_) =>
    case CallLbl(_) =>
    case Jump(_) =>
    case JumpZero(_) =>
    case JumpNeg(_) =>
    case Ret =>
    case End =>
    case _ => assert false;
  }

  /** A run after earlier output ends the same way, and writes after that
      output what it would have written on its own. */
  lemma {:induction false} RunAfterOutput(prog: seq<Instruction>, m: Machine, o: seq<Output>, fuel: nat)
    ensures var h, h' := RunFrom(prog, m, fuel), RunFrom(prog, m.(output := o + m.output), fuel);
      h'.status == h.status && h'.last == h.last.(output := o + h.last.output)
    decreases fuel
  {
    if m.pc < |prog| && fuel > 0 {
      var m' := m.(output := o + m.output);
      ExecAfterOutput(prog, m, o);
      match Exec(prog, m)
      case Faulted(f) =>
        assert Exec(prog, m') == Faulted(f);
      case Stepped(n) =>
        var n' := n.(output := o + n.output);
        assert Exec(prog, m') == Stepped(n');
        RunAfterOutput(prog, n, o, fuel - 1);
        assert RunFrom(prog, m, fuel) == RunFrom(prog, n, fuel - 1);
        assert RunFrom(prog, m', fuel) == RunFrom(prog, n', fuel - 1);
    }
  }

  /** `reset` and `run` again: from the state `reset` leaves, with a label
      table that keeps the first table's targets (as `RunKeepsTargets`
      shows a run does) and the same input, the second run ends as the
      first would have from a fresh machine, and writes the same output
      after what is already there. */
  lemma RerunAfterReset(prog: seq<Instruction>, labels: map<string, nat>, kept: map<string, nat>,
                        input: seq<int>, o: seq<Output>, fuel: nat)
    requires SameTargets(kept, labels)
    ensures var h, h' := RunFrom(prog, Start(labels, input), fuel),
                         RunFrom(prog, Start(kept, input).(output := o), fuel);
      h'.status == h.status && h'.last.output == o + h.last.output
  {
    var m := Start(labels, input);
    var k := Start(kept, input);
    assert SameTargets(m.labels, kept);
    RunSameTargets(prog, m, kept, fuel);
    assert m.(labels := kept) == k;
    RunAfterOutput(prog, k, o, fuel);
    assert k.(output := o + k.output) == k.(output := o);
  }

  /** A subroutine call followed, once the callee is back at the same call
      depth, by `Ret` continues after the call. */
  lemma CallThenRet(prog: seq<Instruction>, m: Machine, callee: Machine)
    requires m.pc < |prog| && prog[m.pc].CallLbl?
    requires callee.pc < |prog| && prog[callee.pc].Ret?
    requires callee.callStack == Exec(prog, m).next.callStack
    ensures Exec(prog, callee).Stepped?
    ensures Exec(prog, callee).next.pc == m.pc + 1
    ensures Exec(prog, callee).next.callStack == m.callStack
  {
    var c := m.callStack;
    assert callee.callStack == c + [m.pc];
    assert (c + [m.pc])[..|c|] == c;
  }

  // ---------------------------------------------------------------------
  // The machine object
  // ---------------------------------------------------------------------

  /** The state of a freshly built machine: empty heap and stacks, the
      counter at the first instruction. */
  function Start(labels: map<string, nat>, input: seq<int>): (m: Machine)
    ensures m.pc == 0 && m.stack == [] && m.callStack == [] && m.output == []
    ensures m.labels == labels && m.input == input
    ensures forall a :: HeapRead(m.heap, a) == 0
  {
    Machine(map[], [], [], 0, labels, input, [])
  }

  /** `VirtualMachine`: a program, its label table and the machine state.
      Standard input and output are the fields `input` and `output`. */
  class VirtualMachine {
    const instructions: seq<Instruction>
    var labels: map<string, nat>
    var heap: map<int, int>
    var stack: seq<int>
    var callStack: seq<nat>
    var pc: nat
    var finished: bool
    var input: seq<int>
    var output: seq<Output>

    /** The fields as a `Machine`. */
    function State(): Machine
      reads this
    {
      Machine(heap, stack, callStack, pc, labels, input, output)
    }

    constructor(instructions: seq<Instruction>, labels: map<string, nat>, input: seq<int>)
      ensures this.instructions == instructions
      ensures State() == Start(labels, input) && !finished
    {
      this.instructions := instructions;
      this.labels := labels;
      heap := map[];
      stack := [];
      callStack := [];
      pc := 0;
      finished := false;
      this.input := input;
      output := [];
    }

    /** `stack_.back()` followed by `stack_.pop_back()`. */
    method Pop() returns (top: int)
      requires |stack| > 0
      modifies this
      ensures top == Peek(old(stack), 0)
      ensures State() == old(State()).(stack := Drop(old(stack), 1)) && finished == old(finished)
    {
      top := stack[|stack| - 1];
      stack := stack[..|stack| - 1];
    }

    /** `labels_[l]`, which enters a missing label with target 0. */
    method Target(l: string) returns (target: nat)
      modifies this
      ensures target == Resolve(old(labels), l)
      ensures State() == old(State()).(labels := Touch(old(labels), l)) && finished == old(finished)
    {
      if l !in labels {
        labels := labels[l := 0];
      }
      target := labels[l];
    }

    /** Reads the next value from standard input into the heap cell whose
        address is on top of the stack, and pops the address. */
    method ReadInto()
      requires input != [] && stack != []
      modifies this
      ensures State() == old(State()).(heap := old(heap)[Peek(old(stack), 0) := old(input)[0]],
                                       input := old(input)[1..], stack := Drop(old(stack), 1))
      ensures finished == old(finished)
    {
      var c := input[0];
      input := input[1..];
      heap := heap[stack[|stack| - 1] := c];
      var _ := Pop();
    }

    /** `accept` on the instruction at the program counter: one `visit`. */
    method Step()
      requires pc < |instructions| && Exec(instructions, State()).Stepped?
      modifies this
      ensures Exec(instructions, old(State())) == Stepped(State())
      ensures finished == old(finished)
    {
      var i := instructions[pc];
      if i.Push? || i.Dupl? || i.Swap? || i.Discard? {
        StepStack();
      } else if i.Add? || i.Sub? || i.Mul? {
        StepRing();
      } else if i.Div? || i.Mod? {
        StepDivision();
      } else if i.Store? || i.Retrieve? {
        StepHeap();
      } else if i.SetLbl? || i.CallLbl? || i.Jump? || i.JumpZero? || i.JumpNeg? || i.Ret? || i.End? {
        StepFlow();
      } else {
        StepIO();
      }
    }

    /** `visit` for the stack manipulation instructions. */
    method StepStack()
      requires pc < |instructions| && Exec(instructions, State()).Stepped?
      requires var i := instructions[pc]; i.Push? || i.Dupl? || i.Swap? || i.Discard?
      modifies this
      ensures Exec(instructions, old(State())) == Stepped(State())
      ensures finished == old(finished)
    {
      match instructions[pc]
      case Push(n) =>
        stack := stack + [n];
        pc := pc + 1;
      case Dupl =>
        stack := stack + [stack[|stack| - 1]];
        pc := pc + 1;
      case Swap =>
        var e1 := Pop();
        var e2 := Pop();
        stack := stack + [e1];
        stack := stack + [e2];
        pc := pc + 1;
      case Discard =>
        var _ := Pop();
        pc := pc + 1;
      case _ =>
    }

    /** `visit` for `Add`, `Sub` and `Mul`. */
    method StepRing()
      requires pc < |instructions| && Exec(instructions, State()).Stepped?
      requires var i := instructions[pc]; i.Add? || i.Sub? || i.Mul?
      modifies this
      ensures Exec(instructions, old(State())) == Stepped(State())
      ensures finished == old(finished)
    {
      match instructions[pc]
      case Add =>
        var y := Pop();
        var x := Pop();
        stack := stack + [x + y];
        pc := pc + 1;
      case Sub =>
        var y := Pop();
        var x := Pop();
        stack := stack + [x - y];
        pc := pc + 1;
      case Mul =>
        var y := Pop();
        var x := Pop();
        stack := stack + [x * y];
        pc := pc + 1;
      case _ =>
    }

    /** `visit` for `Div` and `Mod`. */
    method StepDivision()
      requires pc < |instructions| && Exec(instructions, State()).Stepped?
      requires var i := instructions[pc]; i.Div? || i.Mod?
      modifies this
      ensures Exec(instructions, old(State())) == Stepped(State())
      ensures finished == old(finished)
    {
      match instructions[pc]
      case Div =>
        var y := Pop();
        var x := Pop();
        stack := stack + [TruncDiv(x, y)];
        pc := pc + 1;
      case Mod =>
        var y := Pop();
        var x := Pop();
        stack := stack + [TruncMod(x, y)];
        pc := pc + 1;
      case _ =>
    }

    /** `visit` for the heap access instructions. */
    method StepHeap()
      requires pc < |instructions| && Exec(instructions, State()).Stepped?
      requires var i := instructions[pc]; i.Store? || i.Retrieve?
      modifies this
      ensures Exec(instructions, old(State())) == Stepped(State())
      ensures finished == old(finished)
    {
      match instructions[pc]
      case Store =>
        var x := Pop();
        var l := Pop();
        heap := heap[l := x];
        pc := pc + 1;
      case Retrieve =>
        var l := Pop();
        if l !in heap {
          heap := heap[l := 0];
        }
        stack := stack + [heap[l]];
        pc := pc + 1;
      case _ =>
    }

    /** `visit` for the flow control instructions. */
    method StepFlow()
      requires pc < |instructions| && Exec(instructions, State()).Stepped?
      requires var i := instructions[pc]; i.SetLbl? || i.CallLbl? || i.Jump? || i.JumpZero? || i.JumpNeg? || i.Ret? || i.End?
      modifies this
      ensures Exec(instructions, old(State())) == Stepped(State())
      ensures finished == old(finished)
    {
      match instructions[pc]
      case SetLbl(_) =>
        pc := pc + 1;
      case CallLbl(l) =>
        callStack := callStack + [pc];
        pc := Target(l);
      case Jump(l) =>
        pc := Target(l);
      case JumpZero(l) =>
        if stack[|stack| - 1] == 0 {
          pc := Target(l);
        } else {
          pc := pc + 1;
        }
        var _ := Pop();
      case JumpNeg(l) =>
        if stack[|stack| - 1] < 0 {
          pc := Target(l);
        } else {
          pc := pc + 1;
        }
        var _ := Pop();
      case Ret =>
        pc := callStack[|callStack| - 1] + 1;
        callStack := callStack[..|callStack| - 1];
      case End =>
        pc := |instructions|;
      case _ =>
    }

    /** `visit` for the input and output instructions. */
    method StepIO()
      requires pc < |instructions| && Exec(instructions, State()).Stepped?
      requires var i := instructions[pc]; i.PrintChar? || i.PrintInt? || i.ReadChar? || i.ReadInt?
      modifies this
      ensures Exec(instructions, old(State())) == Stepped(State())
      ensures finished == old(finished)
    {
      match instructions[pc]
      case PrintChar =>
        var c := Pop();
        output := output + [CharOut(c)];
        pc := pc + 1;
      case PrintInt =>
        var i := Pop();
        output := output + [IntOut(i)];
        pc := pc + 1;
      case ReadChar =>
        ReadInto();
        pc := pc + 1;
      case ReadInt =>
        ReadInto();
        pc := pc + 1;
      case _ =>
    }

    /** `run`: does nothing once the machine has finished; otherwise visits
        instructions while the program counter is inside the program, here
        for at most `fuel` steps, and marks the machine finished when the
        counter leaves the program. No step may have undefined behaviour. */
    method Run(fuel: nat) returns (status: Option<Status>)
      requires !finished ==> !RunFrom(instructions, State(), fuel).status.Stopped?
      modifies this
      ensures old(finished) ==> status == None && State() == old(State()) && finished
      ensures !old(finished) ==> var h := RunFrom(instructions, old(State()), fuel);
        status == Some(h.status) && State() == h.last && (finished <==> h.status.Completed?)
    {
      if finished {
        return None;
      }
      var left := fuel;
      while pc < |instructions| && left > 0
        invariant RunFrom(instructions, State(), left) == RunFrom(instructions, old(State()), fuel)
        invariant !finished
        decreases left
      {
        ghost var before := State();
        assert Exec(instructions, before).Stepped?;
        Step();
        assert RunFrom(instructions, before, left) == RunFrom(instructions, State(), left - 1);
        left := left - 1;
      }
      if pc < |instructions| {
        return Some(OutOfFuel);
      }
      finished := true;
      return Some(Completed);
    }

    /** `reset`: empties the heap and both stacks and puts the counter back
        at the first instruction, so that `run` may be called again. The
        label table keeps the entries earlier runs added. */
    method Reset()
      modifies this
      ensures State() == Start(old(labels), old(input)).(output := old(output)) && !finished
    {
      heap := map[];
      stack := [];
      callStack := [];
      pc := 0;
      finished := false;
    }
  }
}
