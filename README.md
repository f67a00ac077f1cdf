# White++ in Dafny

White++ is an interpreter for the Whitespace language. `main` runs three
stages in order:

1. **Tokeniser.** It reads the source file and keeps only its whitespace:
   a space becomes `A`, a tab `B` and a newline `C`. Every other character
   is dropped.
2. **Parser.** It decodes the `A`/`B`/`C` string into a vector of 22
   instruction kinds and builds a table from label names to instruction
   indices. Each instruction starts with a fixed prefix code (its opcode).
   - `Push` then takes a signed binary integer: a sign symbol, the bits
     most significant first, and a terminating `C`.
   - The five label instructions take a non-empty label ended by `C`.
   - A `SetLbl` whose name is already in the table is an error, and so is a
     token string that no opcode matches.
3. **Virtual machine.** It runs the instructions.
   - Its state is an operand stack, a sparse `int → int` heap, a call stack,
     a program counter and a `finished_` flag.
   - `run` steps until the program counter leaves the program.
   - `reset` empties the heap and both stacks and moves the counter back to
     the first instruction. The label table keeps the entries that earlier
     runs inserted; these send their labels to 0, as before
     (`VirtualMachine.RunKeepsTargets`), so a run after `reset` on the same
     input ends as the first run did and writes the same output again
     (`VirtualMachine.RerunAfterReset`).

The model follows the source file by file:

- **`Strings`** models the two `std::string` operations the decoder uses,
  prefix test and `find`.
- **`Instructions`** models the 22 instruction classes of `include/Parser.h`
  as one datatype, with their `to_str` text and its inverse.
- **`Parser`** models `src/Parser.cpp` and the `Parser` class.
  - `starts_with`, `read_int` and `read_str` are methods. Each is proved
    against a functional decoder: `DecodeNumber`, `DecodeString` or
    `IsPrefix`.
  - The `parse` if-chain is five method groups. Each is proved against a
    decision tree over the opcode table, `MatchOpcode`.
  - `Parser.Parse` is the `while` loop, proved against the function
    `DecodeFrom`.
  - Encoding functions are the inverse of decoding, which gives round-trip
    theorems.
- **`VirtualMachine`** models `src/VirtualMachine.cpp` and its header.
  - `Exec` is one `visit` as a function on a `Machine` value.
  - The class `VirtualMachine` has the C++ fields. Its `Step` method does
    each `visit` in place and is proved equal to `Exec`. Its `Run` loops
    like `run` and is proved equal to `RunFrom`. It also has `Reset`.
  - Lemmas describe each instruction's effect, the undefined-behaviour
    cases, control flow and runs.
- **`Tokeniser`** models `Tokeniser::tokenise` as a loop over the input,
  proved against the function `Symbols`.
- **`Interpreter`** models the composition in `main`: tokenise, parse, then
  construct the machine and run it. It also holds a few complete programs
  run end to end.

Where the C++ has undefined behaviour, the functional model stops with an
explicit `Fault` instead of choosing a result. There are four such cases:
- `back()` or `pop_back()` on an empty vector;
- division or modulo by zero;
- `Ret` with an empty call stack;
- a read when the input is exhausted.

The class methods that perform the steps take "no fault" as a precondition.

`labels_[l]` and `heap_[a]` are `std::map::operator[]`. It inserts a 0
entry for a missing key, so an unknown label sends control to instruction 0.
The model includes this insertion (`Touch`, `HeapTouch`).

C++ `/` and `%` truncate toward zero. The model defines them as `TruncDiv`
and `TruncMod` from the magnitudes of the operands.

### Behaviour of the code worth noting

- **Sign symbol.** `read_int` rejects only `C` as the sign. `A` means
  positive and *any* other symbol means negative (src/Parser.cpp:48-52).
- **Bits.** Only `B` is a 1 bit. Any other symbol is 0.
- **Leading zeros.** They are allowed, so an integer has many encodings
  (`Parser.LeadingZeroBits`). The tokens `AA A AAB C BCAB CCC` push and
  print 1, because the bits `AAB` are worth 1 (`Interpreter.LeadingZerosRun`).
- **Unknown labels.** An unknown label is not an error at run time: it
  resolves to index 0 and is inserted into the table.
- **No run-time checks.** Stack underflow, division by zero and an empty
  call stack are not detected errors. They are undefined behaviour in the
  code.

## Model

| member | source | states |
|---|---|---|
| `Strings.Find` | src/Parser.cpp:85 | `find(c)` gives the index of the first `c`, or the length (`npos`) exactly when `c` does not occur. |
| `Strings.IsPrefix` | src/Parser.cpp:23 | The test `std::equal` makes over the range of `string2`: `string2` is no longer than `string1` and equals its front. No contract of its own; `Parser.StartsWith` is proved against it. |
| `Instructions.Digits` | include/Parser.h:104-106 | `std::to_string` digits are non-empty decimal digits. |
| `Instructions.DecimalString` | include/Parser.h:105 | `std::to_string(n)` is non-empty and starts with a minus sign exactly when `n` is negative. |
| `Instructions.DigitsRoundTrip` | include/Parser.h:104-106 | Reading back the digits of `n` gives `n`. |
| `Instructions.DecimalRoundTrip` | include/Parser.h:104-106 | Reading back `std::to_string(n)`, with its minus sign, gives `n`. |
| `Instructions.ToStr` | include/Parser.h:104-771 | The 22 `to_str` overrides as one function. It has no contract of its own; `FromStrToStr` and `ToStrInjective` state that it loses nothing. |
| `Instructions.SpacedNotBare` | include/Parser.h:133-135 | No argument-free mnemonic contains a space, so it cannot be confused with a `Push` or label text. |
| `Instructions.BareFromStrToStr` | include/Parser.h:133-135 | Each of the 16 argument-free instructions prints as a mnemonic that reads back as that instruction. |
| `Instructions.PushFromStrToStr` | include/Parser.h:104-106 | `"Push " + to_string(num)` reads back as `Push(num)`, so `to_str` keeps `num` exactly. |
| `Instructions.MarkFromStrToStr` | include/Parser.h:427-429 | `"SetLbl " + label` and `"CallLbl " + label` read back as those instructions with the same label. |
| `Instructions.JumpFromStrToStr` | include/Parser.h:511-513 | `"Jump " + label` reads back as `Jump(label)`. |
| `Instructions.JumpZeroFromStrToStr` | include/Parser.h:553-555 | `"JumpZero " + label` reads back as `JumpZero(label)`. |
| `Instructions.JumpNegFromStrToStr` | include/Parser.h:595-597 | `"JumpNeg " + label` reads back as `JumpNeg(label)`. |
| `Instructions.FromStrToStr` | include/Parser.h:104-771 | Every one of the 22 instructions can be read back from its `to_str` text. |
| `Instructions.ToStrInjective` | include/Parser.h:104-771 | Distinct instructions print differently. |
| `Parser.StartsWith` | src/Parser.cpp:21-32 | Returns true iff `string2` is a prefix of `string1`; then exactly that prefix is removed, otherwise `string1` is unchanged. |
| `Parser.DecodeNumber` | src/Parser.cpp:44-74 | `read_int` succeeds iff the first symbol exists and is not `C` and a `C` follows it; the rest is a proper suffix at least two symbols shorter. |
| `Parser.ReadNumber` | src/Parser.cpp:44-74 | The accumulating loop returns what `DecodeNumber` decodes; on every throw the string is left as it was. |
| `Parser.SignOf` | src/Parser.cpp:52 | The sign is +1 or -1, and it is +1 exactly for `A`. |
| `Parser.BitsValue` | src/Parser.cpp:56-63 | The value the doubling loop builds, `B` as a 1 bit and any other symbol as 0. It has no contract of its own; `BitsRoundTrip`, `ZeroBits` and `LeadingZeroBits` state its properties. |
| `Parser.FirstFind` | src/Parser.cpp:56 | The loop stops at the index `find` gives: the first `C` after the sign. |
| `Parser.ToBits` | src/Parser.cpp:56-63 | The bits written for a magnitude contain no `C`. |
| `Parser.BitsRoundTrip` | src/Parser.cpp:56-63 | Reading the bits written for a magnitude gives that magnitude back. |
| `Parser.ZeroBits` | src/Parser.cpp:56-63 | Bits that are all zeros are worth 0, so empty bits give 0. |
| `Parser.LeadingZeroBits` | src/Parser.cpp:56-63 | Leading zero bits do not change the value. |
| `Parser.DecodeNumberOf` | src/Parser.cpp:52-67 | `read_int` on sign, bits and `C` returns `sign * value(bits)` and removes exactly `|bits| + 2` symbols. |
| `Parser.DecodeEncodeNumber` | src/Parser.cpp:44-74 | Decoding the encoding of any integer gives that integer and the tokens after it. |
| `Parser.DecodeString` | src/Parser.cpp:77-103 | `read_str` succeeds iff the string is non-empty, does not start with `C` and contains a `C`; the label is the non-empty, `C`-free run before the first `C`. |
| `Parser.ReadString` | src/Parser.cpp:77-103 | The method returns what `DecodeString` decodes; on every throw the string is left as it was. |
| `Parser.DecodeStringOf` | src/Parser.cpp:85-91 | A label, its `C` and anything after read back as that label and the rest. |
| `Parser.Opcode` | src/Parser.cpp:110-232 | The prefix each branch of the chain tests, per instruction kind. It has no contract of its own; `OpcodesPrefixFree`, `MatchByOpcode` and `MatchChain` state its properties. |
| `Parser.MatchOpcode` | src/Parser.cpp:110-232 | Whatever the decision tree finds is an opcode that begins the tokens. |
| `Parser.MatchByOpcode` | src/Parser.cpp:110-232 | Whichever of the 22 opcodes begins the tokens, the tree finds that kind. |
| `Parser.AtMostOneOpcode` | src/Parser.cpp:110-232 | Two opcodes that both begin the tokens belong to the same kind, so at most one branch of the chain can match. |
| `Parser.OpcodesPrefixFree` | src/Parser.cpp:110-232 | No opcode is a prefix of another kind's opcode. |
| `Parser.NoOpcode` | src/Parser.cpp:234-237 | The tree finds nothing exactly when no opcode begins the tokens. |
| `Parser.NoTestSucceeds` | src/Parser.cpp:234-237 | When none of the 22 tests succeeds, no opcode matches. |
| `Parser.MatchStack` | src/Parser.cpp:110-129 | The `AA`, `ACA`, `ACB`, `ACC` tests, in the source's order: a test that succeeds finds the tree's kind and strips its opcode. |
| `Parser.MatchArithmetic` | src/Parser.cpp:131-154 | The same for the `BAAA` to `BABB` tests. |
| `Parser.MatchHeap` | src/Parser.cpp:156-164 | The same for `BBA` and `BBB`. |
| `Parser.MatchIO` | src/Parser.cpp:166-184 | The same for `BCAA` to `BCBB`. |
| `Parser.MatchChain` | src/Parser.cpp:110-237 | The whole if-chain matches iff the tree does, and finds the same kind and remaining tokens; the test order does not matter. |
| `Parser.MatchFlow` | src/Parser.cpp:186-232 | The same for `CAA` to `CCC`. |
| `Parser.Named` | src/Parser.cpp:189-222 | The label instruction built from a branch's kind carries the label read and is of that kind. |
| `Parser.OperandStep` | src/Parser.cpp:113-221 | After the opcode, `Push` reads an integer and the label instructions read a label; the instruction is well formed, and a failure is a parsing error with the tokens after the opcode. |
| `Parser.DecodeInstruction` | src/Parser.cpp:110-237 | One branch of the chain either fails with a parsing error or yields a well-formed instruction and strictly fewer tokens. |
| `Parser.DecodeAfterMatch` | src/Parser.cpp:110-232 | Once the chain has found the opcode, decoding goes on with the operand after it. |
| `Parser.DecodeEncode` | src/Parser.cpp:110-232 | Decoding the encoding of any well-formed instruction gives that instruction and the following tokens. |
| `Parser.DecodePushLeadingZeros` | src/Parser.cpp:110-114 | A `Push` whose bits start with zeros decodes to the value of the bits without them. |
| `Parser.LabelTable` | src/Parser.cpp:191-198 | The invariant the parse loop keeps: every entry points at a `SetLbl` of its own name inside the program, and every `SetLbl` is entered at its index. It has no contract of its own; `Record`, `Advance`, `DecodeFrom` and `Parser.Parser.Parse` preserve it, and `LabelTableUnique` states what it implies. |
| `Parser.Record` | src/Parser.cpp:189-198 | A failed operand is thrown. A decoded instruction is rejected, with the duplicate error and nothing changed, exactly when it is a `SetLbl` whose name is already in the table. Otherwise it is appended, the table gains its name at the index it takes when it is a `SetLbl` and is unchanged otherwise, and the label-table invariant is kept. |
| `Parser.Advance` | src/Parser.cpp:108-237 | One loop pass shortens the tokens unless it throws and only appends to the instructions. It throws `ParsingError` exactly when decoding fails, and `LabelAlreadyDefined` exactly when it decodes a `SetLbl` whose name is in the table. On success the table gains that `SetLbl`'s name at its index and is otherwise unchanged, and the label-table invariant is kept. |
| `Parser.DecodeFrom` | src/Parser.cpp:106-240 | `parse` keeps earlier instructions as a prefix, leaves the tokens empty on a normal return, never lengthens them, and keeps the table invariant: every entry points at its `SetLbl` and every index is below the instruction count. |
| `Parser.DecodeFromNext` | src/Parser.cpp:108-237 | A decoded instruction other than `SetLbl` is appended and parsing goes on after it. |
| `Parser.LabelTableUnique` | src/Parser.cpp:191-196 | A valid label table forces every `SetLbl` name to be unique. |
| `Parser.AdvanceEncoded` | src/Parser.cpp:191-198 | For an encoded instruction, a loop pass throws only for a label already in the table and otherwise appends exactly that instruction. |
| `Parser.DuplicateLabel` | src/Parser.cpp:191-196 | A `SetLbl` whose name is already in the table repeats a label of the program. |
| `Parser.UniqueAfterPlain` | src/Parser.cpp:191-196 | An instruction other than `SetLbl` in front keeps the labels unique. |
| `Parser.DecodeEncodeUnique` | src/Parser.cpp:106-240 | Parsing the encoding of a program without repeated labels appends the whole program and uses up the tokens. |
| `Parser.DecodeEncodeDuplicate` | src/Parser.cpp:191-196 | Parsing the encoding of a program that repeats a label throws the duplicate-label error. |
| `Parser.DecodeEncodeFrom` | src/Parser.cpp:106-240 | Both cases together, for parsing after earlier instructions. |
| `Parser.ParseEncodedProgram` | src/Parser.cpp:106-240 | A program round-trips through its encoding iff its labels are unique, and its label table then points every name at its `SetLbl`; otherwise parsing throws the duplicate-label error. |
| `Parser.DecodeZeroPaddedPush` | src/Parser.cpp:106-240 | A program after a zero-padded `Push` parses to that `Push`, with the value of the remaining bits, followed by the program. |
| `Parser.Parser.constructor` | include/Parser.h:839 | A fresh parser has no instructions and no labels, and its table invariant holds. |
| `Parser.Parser.Parse` | src/Parser.cpp:106-240 | The loop leaves the fields, the tokens and the thrown error exactly as `DecodeFrom` describes, keeps the earlier instructions and keeps the table invariant. |
| `Parser.Parser.ParseOne` | src/Parser.cpp:110-237 | One pass of the loop changes the fields as `Advance` describes. |
| `Parser.Parser.ReadOperand` | src/Parser.cpp:113-221 | A branch's operand reading yields what `OperandStep` describes. |
| `Parser.Parser.Commit` | src/Parser.cpp:191-198 | The end of a branch throws or updates the fields as `Record` describes. |
| `VirtualMachine.HeapRead` | src/VirtualMachine.cpp:140 | `heap_[a]` yields the stored value, or 0 for an address never written. It has no contract of its own; `ExecStore`, `ExecRetrieve` and `ExecRead` state what the steps do to it. |
| `VirtualMachine.Resolve` | src/VirtualMachine.cpp:155 | `labels_[l]` yields the table's target, or 0 for a label not in the table. |
| `VirtualMachine.Touch` | src/VirtualMachine.cpp:161 | After `labels_[l]` the label is in the table; existing entries and every label's target are unchanged. |
| `VirtualMachine.HeapTouch` | src/VirtualMachine.cpp:140 | After `heap_[a]` the address is present and every cell reads as before. |
| `VirtualMachine.TruncDiv` | src/VirtualMachine.cpp:101 | `x / y` on C++ integers. It has no contract of its own; `TruncDivSign` and `TruncDivMod` state its properties. |
| `VirtualMachine.TruncDivSign` | src/VirtualMachine.cpp:101 | `x / y` has the magnitude of the quotient of the magnitudes, and is negative only when the operands' signs differ (and it is not 0). |
| `VirtualMachine.TruncMod` | src/VirtualMachine.cpp:115 | `x % y` is smaller in magnitude than `y` and is zero or has the sign of `x`. |
| `VirtualMachine.TruncDivMod` | src/VirtualMachine.cpp:101 | `(x / y) * y + x % y == x`, and the quotient rounds toward zero. |
| `VirtualMachine.Exec` | src/VirtualMachine.cpp:15-245 | The 22 `visit` bodies as one step function. It has no contract of its own; the `Exec…` lemmas below state what each step does (`ExecStackTop`, `ExecArithmetic`, `ExecStore`, `ExecRetrieve`, `ExecRead`, `ExecPrint` and `ExecBranch` give the values, `ExecFlow` where control goes), and `VirtualMachine.VirtualMachine.Step` is proved equal to it. |
| `VirtualMachine.ExecFaults` | src/VirtualMachine.cpp:22-245 | A step has undefined behaviour exactly in four cases: fewer entries on the stack than it reads, a zero divisor, `Ret` with an empty call stack, or a read with no input left. |
| `VirtualMachine.ExecStack` | src/VirtualMachine.cpp:15-245 | A step replaces the entries it reads at the top of the stack by the entries it leaves, and the stack below them is unchanged. |
| `VirtualMachine.ExecStackTop` | src/VirtualMachine.cpp:15-41 | `Push` puts its number on top, `Dupl` copies the top, and `Swap` exchanges the top two entries. |
| `VirtualMachine.ExecArithmetic` | src/VirtualMachine.cpp:51-118 | `Add`, `Sub`, `Mul`, `Div` and `Mod` pop `y`, the top, then `x`, the entry below, and leave only `x op y` in their place, with a non-zero `y` and truncating `/` and `%`. |
| `VirtualMachine.ExecStore` | src/VirtualMachine.cpp:121-132 | `Store` writes the top value into the cell addressed by the entry below it, and every other cell is unchanged. |
| `VirtualMachine.ExecRetrieve` | src/VirtualMachine.cpp:135-143 | `Retrieve` replaces the address by the cell's value, which is 0 for a cell never written, and the heap reads as before. |
| `VirtualMachine.ExecRead` | src/VirtualMachine.cpp:224-245 | `ReadChar` and `ReadInt` write the next input value into the addressed cell, and every other cell is unchanged. |
| `VirtualMachine.ExecPrint` | src/VirtualMachine.cpp:206-221 | `PrintChar` and `PrintInt` pop the top and append it, as a character code or as an integer, to the output. |
| `VirtualMachine.ExecBranch` | src/VirtualMachine.cpp:151-189 | `CallLbl` and `Jump` go to the label's target, which is 0 when the label is unknown. `JumpZero` and `JumpNeg` always pop the top and jump iff it is zero, respectively negative; otherwise they go to the next instruction. |
| `VirtualMachine.ExecFlow` | src/VirtualMachine.cpp:15-203 | Every instruction except the calls, jumps and `Ret` moves to the next instruction, or for `End` to the program's size, and leaves the call stack and labels alone. No step changes where any label goes. |
| `VirtualMachine.ExecHeap` | src/VirtualMachine.cpp:121-245 | Only `Store`, `ReadChar` and `ReadInt` change what the heap holds. |
| `VirtualMachine.ExecInputOutput` | src/VirtualMachine.cpp:206-245 | Only the reads consume input, one value each. Only the prints write output, one item each, appended after what was already written. |
| `VirtualMachine.RunFrom` | src/VirtualMachine.cpp:255-257 | A run completes exactly when the program counter has left the program. |
| `VirtualMachine.RunStops` | src/VirtualMachine.cpp:255-257 | A run stops on a fault only at an instruction inside the program whose step has that undefined behaviour. |
| `VirtualMachine.RunOutput` | src/VirtualMachine.cpp:206-221 | Output during a run is only ever appended to. |
| `VirtualMachine.RunSplit` | src/VirtualMachine.cpp:255-257 | A run of `a + b` steps is a run of `a` steps continued for `b` more. |
| `VirtualMachine.RunMonotone` | src/VirtualMachine.cpp:255-257 | A run that ends within its budget ends the same way with any larger budget. |
| `VirtualMachine.StraightLineHalts` | src/VirtualMachine.cpp:15-148 | A program without calls, jumps or returns finishes or faults within one step per remaining instruction. |
| `VirtualMachine.ExecInv` | src/VirtualMachine.cpp:151-203 | If every label target is at most the program size and every return address is inside the program, one step keeps the counter in `[0, size]` and keeps these bounds. |
| `VirtualMachine.RunInv` | src/VirtualMachine.cpp:255 | A run keeps these bounds, and a completed run ends with the counter exactly at the program size. |
| `VirtualMachine.ExecSameTargets` | src/VirtualMachine.cpp:155 | Steps from states whose label tables send every label to the same place behave the same, so the entries `operator[]` inserts make no difference. |
| `VirtualMachine.RunSameTargets` | src/VirtualMachine.cpp:161 | Runs from such states end the same way and in the same state, apart from the label tables, which again send every label to the same place. |
| `VirtualMachine.RunLabelsOnly` | src/VirtualMachine.cpp:255-257 | The induction behind it: runs from states that differ only in label tables with the same targets end the same way, in states that differ only in their label tables. |
| `VirtualMachine.RunKeepsTargets` | src/VirtualMachine.cpp:255-257 | A whole run keeps every label's target, so the table after a run sends every label where the table before it did. |
| `VirtualMachine.ExecAfterOutput` | src/VirtualMachine.cpp:206-221 | A step does not depend on the output written before it and only appends to it. |
| `VirtualMachine.RunAfterOutput` | src/VirtualMachine.cpp:248-260 | A run after earlier output ends the same way and writes, after that output, what it would have written alone. |
| `VirtualMachine.RerunAfterReset` | src/VirtualMachine.cpp:263-272 | From the state `reset` leaves, a run with a label table that keeps the first table's targets and the same input ends as a run from a fresh machine and writes the same output after what is already there. |
| `VirtualMachine.CallThenRet` | src/VirtualMachine.cpp:151-196 | If the callee's call stack is the one `CallLbl` left, a later `Ret` resumes at the instruction after the call and restores the caller's call stack. |
| `VirtualMachine.Start` | include/VirtualMachine.h:107-109 | A fresh machine has empty stacks and output, every heap cell reads 0, the counter is at 0, and it has the given labels and input. |
| `VirtualMachine.VirtualMachine.constructor` | include/VirtualMachine.h:107-109 | The constructor keeps the given instructions and labels, starts in the `Start` state and is not finished. |
| `VirtualMachine.VirtualMachine.Pop` | src/VirtualMachine.cpp:31-32 | `back()` then `pop_back()` returns the top and removes only it. |
| `VirtualMachine.VirtualMachine.Target` | src/VirtualMachine.cpp:155 | `labels_[l]` returns the resolved target and inserts a 0 entry for a missing label. |
| `VirtualMachine.VirtualMachine.ReadInto` | src/VirtualMachine.cpp:236-242 | A read consumes one input value, writes it into the addressed cell and pops the address. |
| `VirtualMachine.VirtualMachine.Step` | src/VirtualMachine.cpp:15-245 | One `accept` changes the fields exactly as `Exec` describes and leaves `finished_` alone. |
| `VirtualMachine.VirtualMachine.StepStack` | src/VirtualMachine.cpp:15-48 | The in-place `visit` of `Push`, `Dupl`, `Swap` and `Discard` agrees with `Exec`. |
| `VirtualMachine.VirtualMachine.StepRing` | src/VirtualMachine.cpp:51-90 | `Add`, `Sub` and `Mul` each pop `y`, then `x`, push `x op y` and agree with `Exec`. |
| `VirtualMachine.VirtualMachine.StepDivision` | src/VirtualMachine.cpp:93-118 | `Div` and `Mod` pop `y`, then `x`, push the truncated quotient or remainder and agree with `Exec`. |
| `VirtualMachine.VirtualMachine.StepHeap` | src/VirtualMachine.cpp:121-143 | The in-place `Store` and `Retrieve` agree with `Exec`, including the 0 that `Retrieve` inserts. |
| `VirtualMachine.VirtualMachine.StepFlow` | src/VirtualMachine.cpp:146-203 | The in-place `visit` of the flow-control instructions agrees with `Exec`. |
| `VirtualMachine.VirtualMachine.StepIO` | src/VirtualMachine.cpp:206-245 | The in-place `visit` of the print and read instructions agrees with `Exec`. |
| `VirtualMachine.VirtualMachine.Run` | src/VirtualMachine.cpp:248-260 | `run` does nothing once finished. Otherwise it ends in the state `RunFrom` reaches and sets `finished_` exactly when the counter has left the program. |
| `VirtualMachine.VirtualMachine.Reset` | src/VirtualMachine.cpp:263-272 | `reset` empties the heap and both stacks, moves the counter to 0 and clears `finished_`. It keeps the labels, the remaining input and the output. |
| `Tokeniser.Symbol` | src/Tokeniser.cpp:18-24 | The symbol one character contributes. It has no contract of its own; `SymbolsCount` and `DropOther` state that only space, tab and newline contribute, one symbol each. |
| `Tokeniser.Symbols` | src/Tokeniser.cpp:15-25 | The symbols of a text are all `A`, `B` or `C`, and there are no more of them than characters. |
| `Tokeniser.SymbolsCount` | src/Tokeniser.cpp:18-24 | Each symbol occurs as often as its whitespace character, so the symbol count equals the number of whitespace characters. |
| `Tokeniser.SymbolsAppend` | src/Tokeniser.cpp:15-25 | Tokenising two texts one after the other is the same as tokenising them joined, so the order is kept. |
| `Tokeniser.DropOther` | src/Tokeniser.cpp:18-24 | A character other than space, tab or newline can be removed without changing the symbols. |
| `Tokeniser.Spell` | src/Tokeniser.cpp:18-24 | Writing symbols out as whitespace uses one character per symbol. |
| `Tokeniser.SymbolsSpell` | src/Tokeniser.cpp:18-24 | Tokenising the whitespace spelling of any `A`/`B`/`C` string gives that string back. |
| `Tokeniser.Tokeniser.constructor` | include/Tokeniser.h:35 | A fresh tokeniser holds no symbols. |
| `Tokeniser.Tokeniser.Tokenise` | src/Tokeniser.cpp:13-26 | The loop appends the symbols of the input to what was held before. |
| `Interpreter.Interpret` | src/main.cpp:43-73 | The source is rejected iff parsing its symbols throws. Otherwise the run ends within bounds, and a completed run ends exactly at the program size. |
| `Interpreter.ParsedStartInBounds` | src/main.cpp:71 | A machine built from a parsed program and label table starts within bounds. |
| `Interpreter.Execute` | src/main.cpp:43-73 | Building a `Tokeniser`, a `Parser` and a `VirtualMachine` and running them gives what `Interpret` describes. |
| `Interpreter.PrintOneEncodes` | src/Parser.cpp:110-232 | `Push 1`, `PrintInt`, `End` encode as `AAABCBCABCCC`. |
| `Interpreter.PrintOneSource` | src/Tokeniser.cpp:18-24 | The whitespace text `PrintOne` tokenises to those symbols. |
| `Interpreter.PrintOneParses` | src/Parser.cpp:106-240 | The encoding parses back to the three instructions. |
| `Interpreter.PrintOneSteps` | src/VirtualMachine.cpp:248-260 | Run from the start, the three instructions print 1 and complete. |
| `Interpreter.PrintOneRuns` | src/main.cpp:43-73 | Any source that spells those symbols prints 1 and completes. |
| `Interpreter.PrintEndEncodes` | src/Parser.cpp:166-232 | `PrintInt`, `End` encode as `BCABCCC`. |
| `Interpreter.LeadingZerosSplit` | src/Parser.cpp:110-114 | `AAAAABCBCABCCC` is a `Push` opcode, sign `A`, bits `AAB`, `C`, then `PrintInt` and `End`. |
| `Interpreter.LeadingZerosRun` | src/main.cpp:43-73 | A source spelling `AAAAABCBCABCCC` prints 1 and completes, because the bits `AAB` are worth 1. |
| `Interpreter.SubroutineParses` | src/Parser.cpp:186-198 | The subroutine program parses back from its encoding, with its label pointing at its `SetLbl`. |
| `Interpreter.SubroutineCall` | src/VirtualMachine.cpp:151-156 | The call enters the subroutine and passes over its `SetLbl`. |
| `Interpreter.SubroutineBody` | src/VirtualMachine.cpp:15-221 | The subroutine pushes 7 and prints it. |
| `Interpreter.SubroutineReturn` | src/VirtualMachine.cpp:192-203 | `Ret` goes back to the `End` after the call, and that completes the run. |
| `Interpreter.SubroutineSteps` | src/VirtualMachine.cpp:248-260 | Run from the start, the program prints 7 and completes with an empty call stack. |
| `Interpreter.SubroutineReturns` | src/main.cpp:55-73 | Parsed and run, the subroutine program prints 7 and completes. |
| `Interpreter.DivisionByZeroStops` | src/VirtualMachine.cpp:93-104 | `1 / 0` stops the run at the `Div` with the division-by-zero fault, with the operands still on the stack. |

## Left out

- **Integer width.** The model uses unbounded integers. `int` overflow in
  `num *= 2` (src/Parser.cpp:58) and in `Add`, `Sub`, `Mul`, `Div` and `Mod`
  is undefined behaviour in the C++. The model does not capture it.
- **Wrap-around of the counter.** The unsigned program counter cannot wrap
  in the model: it is a `nat`, and label targets and return addresses are
  `nat` too.
- **Standard input and output.**
  - Standard output is a sequence of tagged values: a character code or an
    integer. The `static_cast<char>` truncation in `PrintChar` and
    `ReadChar` is not modelled.
  - Standard input is a sequence of integers that the reads consume. The
    `cin >> i` text parsing and stream fail states are not modelled.
  - A read with no input left is the `InputExhausted` fault.
- **Undefined behaviour as a precondition.** To rule these cases out,
  `VirtualMachine.VirtualMachine.Step` and `VirtualMachine.VirtualMachine.Run`
  require that no step faults. The function `Exec` describes the faults
  instead.
- **`VirtualMachine.VirtualMachine.Run` takes a step budget `fuel`.** `run`
  loops until the counter leaves the program, and a Whitespace program may
  loop forever. The model reports `OutOfFuel` when the budget is spent; the
  machine is then not finished.
- **`Parser.StartsWith` when `string1` is shorter than `string2`.** In that
  case the C++ `std::equal` compares past the end of `string1`, and that
  dereference is undefined behaviour. The model answers false. That is what
  the terminating NUL gives: every opcode is made of `A`, `B` and `C`, so
  the comparison fails at the NUL at the latest.
- **Visitor dispatch and ownership.** The `accept`/`visit` double dispatch
  (src/Parser.cpp:250-357) and `shared_ptr` ownership are replaced by a
  datatype and `match`.
- **`operator<<`.** It only wraps `to_str`, so only `to_str` is modelled.
- **Getters.** `get_num`, `get_label`, `get_instructions`, `get_labels` and
  `get_tokens` are plain reads of a field or a destructor.
- **Command line and files.** The argument count check, the `ifstream`,
  `print_usage` and the exit codes of `main` are not modelled. The source
  file is a `seq<char>` parameter.
