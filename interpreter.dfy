/** The interpreter as `main` wires it: tokenise the source file, parse the
    tokens, then run the program on a fresh virtual machine. */
module Interpreter {
  import opened Instructions
  import opened Tokeniser
  import opened Parser
  import opened VirtualMachine

  /** What running a source file comes to: the parser throws, or the machine
      runs and halts. */
  datatype Result = Rejected(error: ParseError) | Ran(prog: seq<Instruction>, halt: Halt)

  /** The source text's symbols, parsed from an empty parser, and, when that
      succeeds, run for at most `fuel` steps on the given input. */
  function Interpret(source: seq<char>, input: seq<int>, fuel: nat): (r: Result)
    ensures r.Rejected? <==> DecodeFrom([], map[], Symbols(source)).error.Some?
    ensures r.Ran? ==> Inv(r.prog, r.halt.last)
    ensures r.Ran? && r.halt.status.Completed? ==> r.halt.last.pc == |r.prog|
  {
    var d := DecodeFrom([], map[], Symbols(source));
    if d.error.Some? then Rejected(d.error.value)
    else
      ParsedStartInBounds(d.instructions, d.labels, input);
      RunInv(d.instructions, Start(d.labels, input), fuel);
      Ran(d.instructions, RunFrom(d.instructions, Start(d.labels, input), fuel))
  }

  /** A parsed label table points inside the program, so a fresh machine on
      the parsed program starts within bounds. */
  lemma ParsedStartInBounds(prog: seq<Instruction>, labels: map<string, nat>, input: seq<int>)
    requires LabelTable(prog, labels)
    ensures Inv(prog, Start(labels, input))
  {
    var m := Start(labels, input);
    forall l | l in m.labels
      ensures m.labels[l] <= |prog|
    {
      assert labels[l] < |prog|;
    }
  }

  /** The body of `main`: a `Tokeniser` reads the source, a `Parser` parses
      its tokens, and a `VirtualMachine` built from the parser's instructions
      and labels runs them. The run must not reach undefined behaviour. */
  method Execute(source: seq<char>, input: seq<int>, fuel: nat) returns (r: Result)
    requires var r := Interpret(source, input, fuel); r.Ran? ==> !r.halt.status.Stopped?
    ensures r == Interpret(source, input, fuel)
  {
    var tokeniser := new Tokeniser();
    tokeniser.Tokenise(source);
    var tokens := tokeniser.tokens;
    assert tokens == Symbols(source);
    var parser := new Parser();
    var error, _ := parser.Parse(tokens);
    ghost var d := DecodeFrom([], map[], tokens);
    assert error == d.error && parser.instructions == d.instructions && parser.labels == d.labels;
    if error.Some? {
      return Rejected(error.value);
    }
    var vm := new VirtualMachine(parser.instructions, parser.labels, input);
    var status := vm.Run(fuel);
    return Ran(vm.instructions, Halt(status.value, vm.State()));
  }

  /** Pushes 1, prints it as an integer and ends. */
  const PrintOneProgram: seq<Instruction> := [Push(1), PrintInt, End]

  /** The symbols of `PrintOneProgram`. */
  const PrintOneTokens: string := "AAABCBCABCCC"

  /** The same program written in spaces, tabs and newlines. */
  const PrintOne: seq<char> := Spell(PrintOneTokens)

  /** The three instructions' encodings, one after the other. */
  lemma PrintOneEncodes()
    ensures EncodeProgram(PrintOneProgram) == PrintOneTokens
  {
    var p := PrintOneProgram;
    assert EncodeNumber(1) == "ABC";
    assert p[1..][1..] == [End] && [End][1..] == [];
    assert EncodeProgram(p[1..]) == "BCAB" + "CCC";
  }

  /** The whitespace text tokenises to the program's symbols. */
  lemma PrintOneSource()
    ensures Symbols(PrintOne) == PrintOneTokens
  {
    SymbolsSpell(PrintOneTokens);
  }

  /** Parsing the encoding gives the three instructions back. */
  lemma PrintOneParses()
    ensures var d := DecodeFrom([], map[], EncodeProgram(PrintOneProgram));
      d.error == None && d.instructions == PrintOneProgram
  {
    ParseEncodedProgram(PrintOneProgram);
  }

  /** Run from the start, the three instructions print 1 and complete. */
  lemma PrintOneSteps(labels: map<string, nat>)
    ensures var h := RunFrom(PrintOneProgram, Start(labels, []), 3);
      h.status == Completed && h.last.output == [IntOut(1)]
  {
    var p := PrintOneProgram;
    var m0 := Start(labels, []);
    var m1 := m0.(stack := [1], pc := 1);
    assert Exec(p, m0) == Stepped(m1);
    var m2 := m0.(output := [IntOut(1)], pc := 2);
    assert Exec(p, m1) == Stepped(m2);
    assert Exec(p, m2) == Stepped(m2.(pc := 3));
  }

  /** Any source whose whitespace spells the program prints the integer 1
      and completes; `PrintOne` is such a source. */
  lemma PrintOneRuns(source: seq<char>)
    requires Symbols(source) == PrintOneTokens
    ensures var r := Interpret(source, [], 3);
      r.Ran? && r.halt.status == Completed && r.halt.last.output == [IntOut(1)]
  {
    PrintOneEncodes();
    PrintOneParses();
    PrintOneSteps(DecodeFrom([], map[], EncodeProgram(PrintOneProgram)).labels);
  }

  /** `Push` with sign `A` and bits `AAB`: leading `A` bits are zeros, so the
      operand is 1. `PrintInt` and `End` follow. */
  const LeadingZerosTokens: string := "AAAAABCBCABCCC"

  /** The symbols of `PrintInt` and `End`. */
  lemma PrintEndEncodes()
    ensures EncodeProgram([PrintInt, End]) == "BCABCCC"
  {
    assert [PrintInt, End][1..] == [End] && [End][1..] == [];
  }

  /** The zero-bit tokens are the `Push` opcode, the operand and the
      encoding of `PrintInt` and `End`. */
  lemma LeadingZerosSplit()
    ensures LeadingZerosTokens == Opcode(Push(0)) + (['A'] + ("AA" + "B") + ['C'] + EncodeProgram([PrintInt, End]))
  {
    PrintEndEncodes();
  }

  /** Any source whose whitespace spells these tokens prints the integer 1,
      the value of the bits `AAB`, and completes. */
  lemma LeadingZerosRun(source: seq<char>)
    requires Symbols(source) == LeadingZerosTokens
    ensures var r := Interpret(source, [], 3);
      r.Ran? && r.halt.status == Completed && r.halt.last.output == [IntOut(1)]
  {
    var p := [PrintInt, End];
    LeadingZerosSplit();
    DecodeZeroPaddedPush("AA", "B", p);
    assert BitsValue("B") == 1;
    assert [Push(1)] + p == PrintOneProgram;
    PrintOneSteps(DecodeFrom([], map[], Symbols(source)).labels);
  }

  /** A call to a subroutine that prints 7 and returns to the `End` after
      the call. */
  const Subroutine: seq<Instruction> :=
    [CallLbl("A"), End, SetLbl("A"), Push(7), PrintInt, Ret]

  /** The subroutine program parses back from its encoding, with the label
      pointing at its `SetLbl`. */
  lemma SubroutineParses()
    ensures var d := DecodeFrom([], map[], EncodeProgram(Subroutine));
      d.error == None && d.instructions == Subroutine && Resolve(d.labels, "A") == 2
  {
    var p := Subroutine;
    assert UniqueLabels(p) by {
      forall j, k | 0 <= j < k < |p| && p[j].SetLbl?
        ensures !p[k].SetLbl?
      {
      }
    }
    forall k | 0 <= k < |p|
      ensures WellFormed(p[k])
    {
    }
    ParseEncodedProgram(p);
    assert p[2] == SetLbl("A");
  }

  /** The machine inside the subroutine, at `pc`, with the call of
      instruction 0 on the call stack. */
  function InSubroutine(labels: map<string, nat>, pc: nat, stack: seq<int>, output: seq<Output>): Machine
  {
    Machine(map[], stack, [0], pc, Touch(labels, "A"), [], output)
  }

  /** The call enters the subroutine; its `SetLbl` is passed over. */
  lemma SubroutineCall(labels: map<string, nat>)
    requires Resolve(labels, "A") == 2
    ensures RunFrom(Subroutine, Start(labels, []), 6) == RunFrom(Subroutine, InSubroutine(labels, 3, [], []), 4)
  {
    var m1 := InSubroutine(labels, 2, [], []);
    assert Exec(Subroutine, Start(labels, [])) == Stepped(m1);
    assert Exec(Subroutine, m1) == Stepped(InSubroutine(labels, 3, [], []));
  }

  /** The subroutine body pushes 7 and prints it. */
  lemma SubroutineBody(labels: map<string, nat>)
    ensures RunFrom(Subroutine, InSubroutine(labels, 3, [], []), 4) ==
      RunFrom(Subroutine, InSubroutine(labels, 5, [], [IntOut(7)]), 2)
  {
    var m3 := InSubroutine(labels, 4, [7], []);
    assert Exec(Subroutine, InSubroutine(labels, 3, [], [])) == Stepped(m3);
    assert Exec(Subroutine, m3) == Stepped(InSubroutine(labels, 5, [], [IntOut(7)]));
  }

  /** `Ret` goes back to the `End` after the call, which completes the run. */
  lemma SubroutineReturn(labels: map<string, nat>)
    ensures var h := RunFrom(Subroutine, InSubroutine(labels, 5, [], [IntOut(7)]), 2);
      h.status == Completed && h.last.output == [IntOut(7)] && h.last.callStack == []
  {
    var m4 := InSubroutine(labels, 5, [], [IntOut(7)]);
    var m5 := m4.(pc := 1, callStack := []);
    assert Exec(Subroutine, m4) == Stepped(m5);
    assert Exec(Subroutine, m5) == Stepped(m5.(pc := 6));
  }

  /** Run from the start, the program enters the subroutine, prints 7,
      returns to the instruction after the call and completes. */
  lemma SubroutineSteps(labels: map<string, nat>)
    requires Resolve(labels, "A") == 2
    ensures var h := RunFrom(Subroutine, Start(labels, []), 6);
      h.status == Completed && h.last.output == [IntOut(7)] && h.last.callStack == []
  {
    SubroutineCall(labels);
    SubroutineBody(labels);
    SubroutineReturn(labels);
  }

  /** The subroutine program, parsed and run, prints 7 and completes with an
      empty call stack. */
  lemma SubroutineReturns()
    ensures var d := DecodeFrom([], map[], EncodeProgram(Subroutine));
      && d.error == None && d.instructions == Subroutine
      && var h := RunFrom(Subroutine, Start(d.labels, []), 6);
         h.status == Completed && h.last.output == [IntOut(7)] && h.last.callStack == []
  {
    SubroutineParses();
    SubroutineSteps(DecodeFrom([], map[], EncodeProgram(Subroutine)).labels);
  }

  /** Dividing by zero is undefined behaviour in the C++; the run halts at the
      `Div` with that fault. */
  lemma DivisionByZeroStops(labels: map<string, nat>, input: seq<int>)
    ensures RunFrom([Push(1), Push(0), Div], Start(labels, input), 3) ==
      Halt(Stopped(DivisionByZero), Start(labels, input).(stack := [1, 0], pc := 2))
  {
    var p := [Push(1), Push(0), Div];
    var m0 := Start(labels, input);
    var m1 := Exec(p, m0).next;
    var m2 := Exec(p, m1).next;
    assert m2 == m0.(stack := [1, 0], pc := 2);
  }
}
