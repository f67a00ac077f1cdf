/** The decoder: turns a token string over {A, B, C} into instructions and a
    table from label names to instruction indices. */
module Parser {
  import opened Strings
  import opened Instructions

  /** The two messages `parse` throws with: a plain parsing error, and a
      `SetLbl` whose name is already in the label table. */
  datatype ParseError = ParsingError | LabelAlreadyDefined

  /** What reading an operand yields: the value and the tokens after it, or
      the parsing error the C++ helpers throw. */
  datatype Operand<T> = Got(value: T, rest: string) | Malformed

  /** `starts_with`: tells whether `string1` begins with `string2` and, if so,
      chops that prefix off. `rest` is `string1` after the call. */
  method StartsWith(string1: string, string2: string) returns (b: bool, rest: string)
    ensures b <==> IsPrefix(string2, string1)
    ensures b ==> string1 == string2 + rest
    ensures !b ==> rest == string1
  {
    if |string2| <= |string1| && string1[..|string2|] == string2 {
      b, rest := true, string1[|string2|..];
      assert string1 == string1[..|string2|] + rest;
    } else {
      b, rest := false, string1;
    }
  }

  // ---------------------------------------------------------------------
  // Integer operands
  // ---------------------------------------------------------------------

  /** The bits of an integer operand, most significant first: `B` is 1 and
      every other symbol is 0. */
  function BitsValue(bits: string): nat
  {
    if bits == [] then 0
    else 2 * BitsValue(bits[..|bits| - 1]) + (if bits[|bits| - 1] == 'B' then 1 else 0)
  }

  /** The sign symbol: `A` is positive, anything else negative. */
  function SignOf(c: char): (sign: int)
    ensures sign == 1 || sign == -1
    ensures sign == 1 <==> c == 'A'
  {
    if c == 'A' then 1 else -1
  }

  /** What `read_int` reads from `s`: a sign symbol other than `C`, the bits up
      to the first `C` after it, and that `C`. */
  function DecodeNumber(s: string): (r: Operand<int>)
    ensures r.Got? <==> |s| > 0 && s[0] != 'C' && 'C' in s[1..]
    ensures r.Got? ==> |r.rest| + 2 <= |s| && r.rest == s[|s| - |r.rest|..]
  {
    if |s| == 0 || s[0] == 'C' then Malformed
    else
      var j := 1 + Find(s[1..], 'C');
      if j == |s| then Malformed
      else Got(SignOf(s[0]) * BitsValue(s[1..j]), s[j + 1..])
  }

  /** `read_int`: reads an integer operand off the front of `s`. On failure
      the C++ throws before erasing anything, so `rest` is `s`. */
  method ReadNumber(s: string) returns (ok: bool, num: int, rest: string)
    ensures ok <==> DecodeNumber(s).Got?
    ensures ok ==> DecodeNumber(s) == Got(num, rest)
    ensures !ok ==> rest == s
  {
    if |s| == 0 || s[0] == 'C' {
      return false, 0, s;
    }
    var sign := if s[0] == 'A' then 1 else -1;
    var n := 0;
    var i := 1;
    while i < |s| && s[i] != 'C'
      invariant 1 <= i <= |s|
      invariant n == BitsValue(s[1..i])
      invariant forall k :: 1 <= k < i ==> s[k] != 'C'
    {
      assert s[1..i + 1][..i - 1] == s[1..i];
      n := n * 2;
      if s[i] == 'B' {
        n := n + 1;
      }
      i := i + 1;
    }
    FirstFind(s[1..], 'C', i - 1);
    if i == |s| {
      return false, 0, s;
    }
    return true, sign * n, s[i + 1..];
  }

  /** `Find` is the only index before which `c` does not occur and at which `c`
      stands (or the end, when it does not occur). */
  lemma FirstFind(s: string, c: char, i: nat)
    requires i <= |s|
    requires forall k :: 0 <= k < i ==> s[k] != c
    requires i < |s| ==> s[i] == c
    ensures Find(s, c) == i
  {
  }

  /** The binary digits of a natural number, most significant first, without
      leading zeros (so 0 has none). */
  function ToBits(m: nat): (bits: string)
    ensures 'C' !in bits
  {
    if m == 0 then [] else ToBits(m / 2) + [if m % 2 == 1 then 'B' else 'A']
  }

  lemma {:induction false} BitsRoundTrip(m: nat)
    ensures BitsValue(ToBits(m)) == m
  {
    if m > 0 {
      var bits := ToBits(m);
      assert bits[..|bits| - 1] == ToBits(m / 2);
      BitsRoundTrip(m / 2);
    }
  }

  /** The Whitespace encoding of an integer operand. */
  function EncodeNumber(n: int): string
  {
    [if n >= 0 then 'A' else 'B'] + ToBits(if n >= 0 then n else -n) + ['C']
  }

  /** `read_int` on sign, bits and `C` returns the signed value of the bits and
      removes exactly those `|bits| + 2` symbols. */
  lemma DecodeNumberOf(sign: char, bits: string, rest: string)
    requires sign != 'C' && 'C' !in bits
    ensures DecodeNumber([sign] + bits + ['C'] + rest) == Got(SignOf(sign) * BitsValue(bits), rest)
  {
    var s := [sign] + bits + ['C'] + rest;
    assert s[1..][..|bits|] == bits;
    FirstFind(s[1..], 'C', |bits|);
    assert s[1..1 + |bits|] == bits;
    assert s[|bits| + 2..] == rest;
  }

  /** The bits of zeros alone are worth nothing. */
  lemma {:induction false} ZeroBits(z: string)
    requires forall k :: 0 <= k < |z| ==> z[k] == 'A'
    ensures BitsValue(z) == 0
  {
    if z != [] {
      ZeroBits(z[..|z| - 1]);
    }
  }

  /** Leading zero bits do not change the value, so an integer has many
      encodings. */
  lemma {:induction false} LeadingZeroBits(z: string, bits: string)
    requires forall k :: 0 <= k < |z| ==> z[k] == 'A'
    ensures BitsValue(z + bits) == BitsValue(bits)
    decreases |bits|
  {
    if bits == [] {
      assert z + bits == z;
      ZeroBits(z);
    } else {
      var front := bits[..|bits| - 1];
      assert (z + bits)[..|z + bits| - 1] == z + front;
      LeadingZeroBits(z, front);
    }
  }

  /** Reading back an encoded integer gives the integer and the tokens after it. */
  lemma DecodeEncodeNumber(n: int, rest: string)
    ensures DecodeNumber(EncodeNumber(n) + rest) == Got(n, rest)
  {
    var m: nat := if n >= 0 then n else -n;
    var sign := if n >= 0 then 'A' else 'B';
    assert EncodeNumber(n) + rest == [sign] + ToBits(m) + ['C'] + rest;
    DecodeNumberOf(sign, ToBits(m), rest);
    BitsRoundTrip(m);
  }

  // ---------------------------------------------------------------------
  // Label operands
  // ---------------------------------------------------------------------

  /** What `read_str` reads from `s`: the non-empty run before the first `C`,
      and that `C`. */
  function DecodeString(s: string): (r: Operand<string>)
    ensures r.Got? <==> |s| > 0 && s[0] != 'C' && 'C' in s
    ensures r.Got? ==> |r.value| > 0 && 'C' !in r.value && s == r.value + ['C'] + r.rest
  {
    if |s| == 0 || s[0] == 'C' then Malformed
    else
      var index := Find(s, 'C');
      if index == |s| then Malformed
      else
        assert s == s[..index] + ['C'] + s[index + 1..];
        Got(s[..index], s[index + 1..])
  }

  /** `read_str`: reads a label operand off the front of `s`. On failure the
      C++ throws before erasing anything, so `rest` is `s`. */
  method ReadString(s: string) returns (ok: bool, str: string, rest: string)
    ensures ok <==> DecodeString(s).Got?
    ensures ok ==> DecodeString(s) == Got(str, rest)
    ensures !ok ==> rest == s
  {
    if |s| == 0 || s[0] == 'C' {
      return false, [], s;
    }
    var index := Find(s, 'C');
    if index == |s| {
      return false, [], s;
    }
    return true, s[..index], s[index + 1..];
  }

  /** A label, its terminator and what follows read back as that label. */
  lemma DecodeStringOf(l: string, rest: string)
    requires |l| > 0 && 'C' !in l
    ensures DecodeString(l + ['C'] + rest) == Got(l, rest)
  {
    var s := l + ['C'] + rest;
    FirstFind(s, 'C', |l|);
    assert s[..|l|] == l && s[|l| + 1..] == rest;
  }

  // ---------------------------------------------------------------------
  // Instructions
  // ---------------------------------------------------------------------

  /** The prefix code `parse` tests for each instruction kind. */
  function Opcode(i: Instruction): string
  {
    match i
    case Push(_) => "AA"
    case Dupl => "ACA"
    case Swap => "ACB"
    case Discard => "ACC"
    case Add => "BAAA"
    case Sub => "BAAB"
    case Mul => "BAAC"
    case Div => "BABA"
    case Mod => "BABB"
    case Store => "BBA"
    case Retrieve => "BBB"
    case PrintChar => "BCAA"
    case PrintInt => "BCAB"
    case ReadChar => "BCBA"
    case ReadInt => "BCBB"
    case SetLbl(_) => "CAA"
    case CallLbl(_) => "CAB"
    case Jump(_) => "CAC"
    case JumpZero(_) => "CBA"
    case JumpNeg(_) => "CBB"
    case Ret => "CBC"
    case End => "CCC"
  }

  /** The instruction kind with its operand left blank: what an opcode alone
      determines. */
  function Blank(i: Instruction): Instruction
  {
    match i
    case Push(_) => Push(0)
    case SetLbl(_) => SetLbl([])
    case CallLbl(_) => CallLbl([])
    case Jump(_) => Jump([])
    case JumpZero(_) => JumpZero([])
    case JumpNeg(_) => JumpNeg([])
    case _ => i
  }

  /** The opcode at the front of `t`, found symbol by symbol: the kind, with
      its operand blank, whose prefix code `t` starts with. This decision tree
      is the reference the `parse` if-chain is proved against. */
  function MatchOpcode(t: string): (k: Option<Instruction>)
    ensures k.Some? ==> IsPrefix(Opcode(k.value), t) && Blank(k.value) == k.value
  {
    if |t| < 2 then None
    else if t[0] == 'A' then
      if t[1] == 'A' then Some(Push(0))
      else if t[1] != 'C' || |t| < 3 then None
      else if t[2] == 'A' then Some(Dupl)
      else if t[2] == 'B' then Some(Swap)
      else if t[2] == 'C' then Some(Discard)
      else None
    else if t[0] == 'B' then
      if |t| < 3 then None
      else if t[1] == 'B' then
        if t[2] == 'A' then Some(Store)
        else if t[2] == 'B' then Some(Retrieve)
        else None
      else if |t| < 4 then None
      else if t[1] == 'A' && t[2] == 'A' then
        if t[3] == 'A' then Some(Add)
        else if t[3] == 'B' then Some(Sub)
        else if t[3] == 'C' then Some(Mul)
        else None
      else if t[1] == 'A' && t[2] == 'B' then
        if t[3] == 'A' then Some(Div)
        else if t[3] == 'B' then Some(Mod)
        else None
      else if t[1] == 'C' && t[2] == 'A' then
        if t[3] == 'A' then Some(PrintChar)
        else if t[3] == 'B' then Some(PrintInt)
        else None
      else if t[1] == 'C' && t[2] == 'B' then
        if t[3] == 'A' then Some(ReadChar)
        else if t[3] == 'B' then Some(Instruction.ReadInt)
        else None
      else None
    else if t[0] == 'C' then
      if |t| < 3 then None
      else if t[1] == 'A' then
        if t[2] == 'A' then Some(SetLbl([]))
        else if t[2] == 'B' then Some(CallLbl([]))
        else if t[2] == 'C' then Some(Jump([]))
        else None
      else if t[1] == 'B' then
        if t[2] == 'A' then Some(JumpZero([]))
        else if t[2] == 'B' then Some(JumpNeg([]))
        else if t[2] == 'C' then Some(Ret)
        else None
      else if t[1] == 'C' && t[2] == 'C' then Some(End)
      else None
    else None
  }

  /** The outcome of one pass of the `parse` loop before the label table is
      consulted: the instruction and the remaining tokens, or the error and
      the tokens as the C++ leaves them when it throws. */
  datatype Step = Next(instr: Instruction, rest: string) | Fail(error: ParseError, rest: string)

  /** A label instruction's operand is non-empty and holds no `C`. */
  predicate WellFormed(i: Instruction)
  {
    HasLabel(i) ==> |i.name| > 0 && 'C' !in i.name
  }

  /** The label instruction of the same kind as `kind`, with label `l`. */
  function Named(kind: Instruction, l: string): (i: Instruction)
    requires HasLabel(kind)
    ensures HasLabel(i) && i.name == l && Blank(i) == Blank(kind)
  {
    match kind
    case SetLbl(_) => SetLbl(l)
    case CallLbl(_) => CallLbl(l)
    case Jump(_) => Jump(l)
    case JumpZero(_) => JumpZero(l)
    case JumpNeg(_) => JumpNeg(l)
  }

  /** The operand reading that follows the opcode of `kind`: `read_int` for
      `Push`, `read_str` for the label instructions, nothing for the rest. */
  function OperandStep(kind: Instruction, r: string): (s: Step)
    ensures s.Next? ==> |s.rest| <= |r| && WellFormed(s.instr) && Blank(s.instr) == Blank(kind)
    ensures s.Fail? ==> s == Fail(ParsingError, r)
  {
    if kind.Push? then
      match DecodeNumber(r)
      case Got(n, rest) => Next(Push(n), rest)
      case Malformed => Fail(ParsingError, r)
    else if HasLabel(kind) then
      match DecodeString(r)
      case Got(l, rest) => Next(Named(kind, l), rest)
      case Malformed => Fail(ParsingError, r)
    else Next(kind, r)
  }

  /** One instruction off the front of `t`: the opcode, then its operand; no
      matching opcode is a parsing error that leaves `t` as it was. */
  function DecodeInstruction(t: string): (s: Step)
    ensures s.Next? ==> |s.rest| < |t| && WellFormed(s.instr)
    ensures s.Fail? ==> s.error == ParsingError
    ensures |s.rest| <= |t|
  {
    match MatchOpcode(t)
    case None => Fail(ParsingError, t)
    case Some(kind) => OperandStep(kind, t[|Opcode(kind)|..])
  }

  /** Whichever opcode a token string starts with, the decision tree finds
      that kind. */
  lemma MatchByOpcode(kind: Instruction, t: string)
    requires IsPrefix(Opcode(kind), t)
    ensures MatchOpcode(t) == Some(Blank(kind))
  {
    assert t[..|Opcode(kind)|] == Opcode(kind);
    match kind
    case Push(_) =>
      assert t[0] == 'A' && t[1] == 'A';
    case Dupl =>
      assert t[0] == 'A' && t[1] == 'C' && t[2] == 'A';
    case Swap =>
      assert t[0] == 'A' && t[1] == 'C' && t[2] == 'B';
    case Discard =>
      assert t[0] == 'A' && t[1] == 'C' && t[2] == 'C';
    case Add =>
      assert t[0] == 'B' && t[1] == 'A' && t[2] == 'A' && t[3] == 'A';
    case Sub =>
      assert t[0] == 'B' && t[1] == 'A' && t[2] == 'A' && t[3] == 'B';
    case Mul =>
      assert t[0] == 'B' && t[1] == 'A' && t[2] == 'A' && t[3] == 'C';
    case Div =>
      assert t[0] == 'B' && t[1] == 'A' && t[2] == 'B' && t[3] == 'A';
    case Mod =>
      assert t[0] == 'B' && t[1] == 'A' && t[2] == 'B' && t[3] == 'B';
    case Store =>
      assert t[0] == 'B' && t[1] == 'B' && t[2] == 'A';
    case Retrieve =>
      assert t[0] == 'B' && t[1] == 'B' && t[2] == 'B';
    case PrintChar =>
      assert t[0] == 'B' && t[1] == 'C' && t[2] == 'A' && t[3] == 'A';
    case PrintInt =>
      assert t[0] == 'B' && t[1] == 'C' && t[2] == 'A' && t[3] == 'B';
    case ReadChar =>
      assert t[0] == 'B' && t[1] == 'C' && t[2] == 'B' && t[3] == 'A';
    case ReadInt =>
      assert t[0] == 'B' && t[1] == 'C' && t[2] == 'B' && t[3] == 'B';
    case SetLbl(_) =>
      assert t[0] == 'C' && t[1] == 'A' && t[2] == 'A';
    case CallLbl(_) =>
      assert t[0] == 'C' && t[1] == 'A' && t[2] == 'B';
    case Jump(_) =>
      assert t[0] == 'C' && t[1] == 'A' && t[2] == 'C';
    case JumpZero(_) =>
      assert t[0] == 'C' && t[1] == 'B' && t[2] == 'A';
    case JumpNeg(_) =>
      assert t[0] == 'C' && t[1] == 'B' && t[2] == 'B';
    case Ret =>
      assert t[0] == 'C' && t[1] == 'B' && t[2] == 'C';
    case End =>
      assert t[0] == 'C' && t[1] == 'C' && t[2] == 'C';
  }

  /** The prefix codes are prefix-free: two opcodes that both begin `t` are
      the opcode of the same kind, so at most one test of the chain succeeds. */
  lemma AtMostOneOpcode(i: Instruction, j: Instruction, t: string)
    requires IsPrefix(Opcode(i), t) && IsPrefix(Opcode(j), t)
    ensures Blank(i) == Blank(j)
  {
    MatchByOpcode(i, t);
    MatchByOpcode(j, t);
  }

  /** No opcode is a prefix of another one's. */
  lemma OpcodesPrefixFree(i: Instruction, j: Instruction)
    requires IsPrefix(Opcode(i), Opcode(j))
    ensures Blank(i) == Blank(j)
  {
    var t := Opcode(j);
    assert t[..|t|] == t;
    AtMostOneOpcode(i, j, t);
  }

  /** The tree finds nothing exactly when no opcode begins `t`. */
  lemma NoOpcode(t: string)
    ensures MatchOpcode(t).None? <==> forall kind :: !IsPrefix(Opcode(kind), t)
  {
    if MatchOpcode(t).None? {
      forall kind | IsPrefix(Opcode(kind), t)
        ensures false
      {
        MatchByOpcode(kind, t);
      }
    }
  }

  // ---------------------------------------------------------------------
  // Encoding, the inverse of decoding
  // ---------------------------------------------------------------------

  /** The tokens of one instruction: its opcode, then its operand. */
  function Encode(i: Instruction): string
  {
    Opcode(i) + (if i.Push? then EncodeNumber(i.num) else if HasLabel(i) then i.name + ['C'] else [])
  }

  /** Decoding an encoded well-formed instruction gives it back and leaves the
      tokens after it. */
  lemma DecodeEncode(i: Instruction, rest: string)
    requires WellFormed(i)
    ensures DecodeInstruction(Encode(i) + rest) == Next(i, rest)
  {
    var op := Opcode(i);
    var operand := Encode(i)[|op|..];
    var t := Encode(i) + rest;
    assert t[..|op|] == op;
    assert t[|op|..] == operand + rest;
    MatchByOpcode(i, t);
    if i.Push? {
      DecodeEncodeNumber(i.num, rest);
    } else if HasLabel(i) {
      assert operand + rest == i.name + ['C'] + rest;
      DecodeStringOf(i.name, rest);
    }
  }

  /** A `Push` whose bits start with zeros decodes to the value of the bits
      after them: the encoding of an integer is not unique. */
  lemma DecodePushLeadingZeros(z: string, bits: string, rest: string)
    requires forall k :: 0 <= k < |z| ==> z[k] == 'A'
    requires 'C' !in bits
    ensures DecodeInstruction(Opcode(Push(0)) + (['A'] + (z + bits) + ['C'] + rest)) == Next(Push(BitsValue(bits)), rest)
  {
    var operand := ['A'] + (z + bits) + ['C'] + rest;
    var t := Opcode(Push(0)) + operand;
    assert t[..2] == Opcode(Push(0));
    MatchByOpcode(Push(0), t);
    DecodeAfterMatch(t, Push(0), operand);
    assert 'C' !in z + bits by {
      assert forall k :: 0 <= k < |z + bits| ==> (z + bits)[k] != 'C' by {
        forall k | 0 <= k < |z + bits|
          ensures (z + bits)[k] != 'C'
        {
          if k >= |z| {
            assert (z + bits)[k] == bits[k - |z|];
          }
        }
      }
    }
    DecodeNumberOf('A', z + bits, rest);
    LeadingZeroBits(z, bits);
  }

  // ---------------------------------------------------------------------
  // The label table and the parse loop
  // ---------------------------------------------------------------------

  /** The label table of `instrs`: every entry points at the `SetLbl` of that
      name, and every `SetLbl` is entered at its own index (so no name is set
      twice). */
  predicate LabelTable(instrs: seq<Instruction>, labels: map<string, nat>)
  {
    (forall l :: l in labels ==> labels[l] < |instrs| && instrs[labels[l]] == SetLbl(l))
    && (forall k :: 0 <= k < |instrs| && instrs[k].SetLbl? ==>
          instrs[k].name in labels && labels[instrs[k].name] == k)
  }

  /** No two `SetLbl` instructions carry the same name. */
  predicate UniqueLabels(instrs: seq<Instruction>)
  {
    forall j, k :: 0 <= j < k < |instrs| && instrs[j].SetLbl? && instrs[k].SetLbl? ==>
      instrs[j].name != instrs[k].name
  }

  /** The parser's state after `parse`: the instructions and labels so far,
      the tokens as the C++ leaves them, and the error it throws, if any. */
  datatype Decoded = Decoded(
    instructions: seq<Instruction>,
    labels: map<string, nat>,
    tokens: string,
    error: Option<ParseError>)

  /** One pass of the `parse` loop on non-empty tokens: decode an instruction;
      a `SetLbl` whose name is in the table is rejected, a new one is entered
      at the index it is about to take. */
  function Advance(instrs: seq<Instruction>, labels: map<string, nat>, tokens: string): (d: Decoded)
    requires tokens != []
    ensures d.error.None? ==> |d.tokens| < |tokens|
    ensures d.error.None? ==> |d.instructions| == |instrs| + 1 && d.instructions[..|instrs|] == instrs
    ensures d.error.Some? ==> d.instructions == instrs && d.labels == labels
    ensures d.error == Some(ParsingError) <==> DecodeInstruction(tokens).Fail?
    ensures var s := DecodeInstruction(tokens);
      s.Next? ==> (d.error == Some(LabelAlreadyDefined) <==> s.instr.SetLbl? && s.instr.name in labels)
    ensures var s := DecodeInstruction(tokens);
      d.error.None? ==> d.labels == if s.instr.SetLbl? then labels[s.instr.name := |instrs|] else labels
    ensures LabelTable(instrs, labels) ==> LabelTable(d.instructions, d.labels)
  {
    Record(instrs, labels, DecodeInstruction(tokens))
  }

  /** What one decoded instruction does to the parser's fields: a failure is
      thrown, a label already in the table is thrown, a new label is entered
      at the index the `SetLbl` is about to take, and the instruction is
      appended. */
  function Record(instrs: seq<Instruction>, labels: map<string, nat>, s: Step): (d: Decoded)
    ensures d.tokens == s.rest
    ensures d.error.None? ==> s.Next? && d.instructions == instrs + [s.instr]
    ensures d.error.Some? ==> d.instructions == instrs && d.labels == labels
    ensures s.Fail? ==> d.error == Some(s.error)
    ensures s.Next? && d.error.Some? ==> d.error == Some(LabelAlreadyDefined)
    ensures s.Next? ==> (d.error.Some? <==> s.instr.SetLbl? && s.instr.name in labels)
    ensures d.error.None? ==> d.labels == if s.instr.SetLbl? then labels[s.instr.name := |instrs|] else labels
    ensures LabelTable(instrs, labels) ==> LabelTable(d.instructions, d.labels)
  {
    match s
    case Fail(e, rest) => Decoded(instrs, labels, rest, Some(e))
    case Next(i, rest) =>
      if i.SetLbl? && i.name in labels then Decoded(instrs, labels, rest, Some(LabelAlreadyDefined))
      else if i.SetLbl? then Decoded(instrs + [i], labels[i.name := |instrs|], rest, None)
      else Decoded(instrs + [i], labels, rest, None)
  }

  /** `parse`: loop until the tokens are used up or an error is thrown. */
  function DecodeFrom(instrs: seq<Instruction>, labels: map<string, nat>, tokens: string): (d: Decoded)
    ensures |instrs| <= |d.instructions| && d.instructions[..|instrs|] == instrs
    ensures d.error.None? ==> d.tokens == []
    ensures |d.tokens| <= |tokens|
    ensures LabelTable(instrs, labels) ==> LabelTable(d.instructions, d.labels)
    decreases |tokens|
  {
    if tokens == [] then Decoded(instrs, labels, [], None)
    else
      var d := Advance(instrs, labels, tokens);
      if d.error.Some? then d else DecodeFrom(d.instructions, d.labels, d.tokens)
  }

  /** An instruction other than `SetLbl` decoded off the front of the tokens
      is appended and parsing goes on after it. */
  lemma DecodeFromNext(instrs: seq<Instruction>, labels: map<string, nat>, t: string, i: Instruction, rest: string)
    requires DecodeInstruction(t) == Next(i, rest) && !i.SetLbl?
    ensures DecodeFrom(instrs, labels, t) == DecodeFrom(instrs + [i], labels, rest)
  {
  }

  /** The label table makes the program's labels unique. */
  lemma LabelTableUnique(instrs: seq<Instruction>, labels: map<string, nat>)
    requires LabelTable(instrs, labels)
    ensures UniqueLabels(instrs)
  {
  }

  /** The tokens of a whole program. */
  function EncodeProgram(p: seq<Instruction>): string
  {
    if p == [] then [] else Encode(p[0]) + EncodeProgram(p[1..])
  }

  /** One pass of the loop over an encoded instruction throws only for a
      label already in the table, and otherwise appends that instruction. */
  lemma AdvanceEncoded(instrs: seq<Instruction>, labels: map<string, nat>, x: Instruction, rest: string)
    requires WellFormed(x)
    ensures var d := Advance(instrs, labels, Encode(x) + rest);
      && (x.SetLbl? && x.name in labels ==> d.error == Some(LabelAlreadyDefined))
      && (!(x.SetLbl? && x.name in labels) ==>
            d.error.None? && d.instructions == instrs + [x] && d.tokens == rest)
  {
    DecodeEncode(x, rest);
  }

  /** A `SetLbl` whose name the table already holds repeats a label. */
  lemma DuplicateLabel(instrs: seq<Instruction>, labels: map<string, nat>, x: Instruction, q: seq<Instruction>)
    requires LabelTable(instrs, labels) && x.SetLbl? && x.name in labels
    ensures !UniqueLabels(instrs + [x] + q)
  {
    var all := instrs + [x] + q;
    var j := labels[x.name];
    assert all[j] == SetLbl(x.name) && all[|instrs|] == x;
  }

  /** Parsing the encoding of a program whose labels stay unique after
      `instrs` appends the whole program and uses up the tokens. */
  lemma {:induction false} DecodeEncodeUnique(instrs: seq<Instruction>, labels: map<string, nat>, p: seq<Instruction>)
    requires LabelTable(instrs, labels) && UniqueLabels(instrs + p)
    requires forall k :: 0 <= k < |p| ==> WellFormed(p[k])
    ensures var d := DecodeFrom(instrs, labels, EncodeProgram(p));
      d.instructions == instrs + p && d.error == None && d.tokens == []
    decreases |p|
  {
    if p == [] {
      assert instrs + p == instrs;
    } else {
      var x, rest := p[0], EncodeProgram(p[1..]);
      assert EncodeProgram(p) == Encode(x) + rest;
      assert instrs + p == instrs + [x] + p[1..];
      if x.SetLbl? && x.name in labels {
        DuplicateLabel(instrs, labels, x, p[1..]);
      }
      AdvanceEncoded(instrs, labels, x, rest);
      var d := Advance(instrs, labels, EncodeProgram(p));
      DecodeEncodeUnique(d.instructions, d.labels, p[1..]);
    }
  }

  /** Parsing the encoding of a program that repeats a label (counting the
      labels of `instrs`) throws the duplicate-label error. */
  lemma {:induction false} DecodeEncodeDuplicate(instrs: seq<Instruction>, labels: map<string, nat>, p: seq<Instruction>)
    requires LabelTable(instrs, labels) && !UniqueLabels(instrs + p)
    requires forall k :: 0 <= k < |p| ==> WellFormed(p[k])
    ensures DecodeFrom(instrs, labels, EncodeProgram(p)).error == Some(LabelAlreadyDefined)
    decreases |p|
  {
    if p != [] {
      var x, rest := p[0], EncodeProgram(p[1..]);
      assert EncodeProgram(p) == Encode(x) + rest;
      assert instrs + p == instrs + [x] + p[1..];
      AdvanceEncoded(instrs, labels, x, rest);
      if !(x.SetLbl? && x.name in labels) {
        var d := Advance(instrs, labels, EncodeProgram(p));
        DecodeEncodeDuplicate(d.instructions, d.labels, p[1..]);
      }
    }
  }

  /** Parsing the encoding of a program after `instrs` appends the program if
      its labels stay unique, and throws the duplicate-label error if not. */
  lemma DecodeEncodeFrom(instrs: seq<Instruction>, labels: map<string, nat>, p: seq<Instruction>)
    requires LabelTable(instrs, labels)
    requires forall k :: 0 <= k < |p| ==> WellFormed(p[k])
    ensures var d := DecodeFrom(instrs, labels, EncodeProgram(p));
      (UniqueLabels(instrs + p) ==> d.instructions == instrs + p && d.error == None && d.tokens == [])
      && (!UniqueLabels(instrs + p) ==> d.error == Some(LabelAlreadyDefined))
  {
    if UniqueLabels(instrs + p) {
      DecodeEncodeUnique(instrs, labels, p);
    } else {
      DecodeEncodeDuplicate(instrs, labels, p);
    }
  }

  /** A program round-trips through its encoding exactly when no label is set
      twice; the label table then points every name at its `SetLbl`. */
  lemma ParseEncodedProgram(p: seq<Instruction>)
    requires forall k :: 0 <= k < |p| ==> WellFormed(p[k])
    ensures var d := DecodeFrom([], map[], EncodeProgram(p));
      (d.error == None <==> UniqueLabels(p))
      && (UniqueLabels(p) ==> d.instructions == p && LabelTable(p, d.labels))
      && (!UniqueLabels(p) ==> d.error == Some(LabelAlreadyDefined))
  {
    assert [] + p == p;
    DecodeEncodeFrom([], map[], p);
  }

  /** Putting an instruction other than `SetLbl` in front keeps the labels
      unique. */
  lemma UniqueAfterPlain(x: Instruction, p: seq<Instruction>)
    requires !x.SetLbl? && UniqueLabels(p)
    ensures UniqueLabels([x] + p)
  {
    var q := [x] + p;
    forall j, k | 0 <= j < k < |q| && q[j].SetLbl? && q[k].SetLbl?
      ensures q[j].name != q[k].name
    {
      assert q[0] == x;
      assert j > 0;
      assert q[j] == p[j - 1] && q[k] == p[k - 1];
    }
  }

  /** A program after a `Push` whose bits start with zeros parses to that
      `Push`, with the value of the bits after the zeros, and the program. */
  lemma DecodeZeroPaddedPush(z: string, bits: string, p: seq<Instruction>)
    requires forall k :: 0 <= k < |z| ==> z[k] == 'A'
    requires 'C' !in bits
    requires forall k :: 0 <= k < |p| ==> WellFormed(p[k])
    requires UniqueLabels(p)
    ensures var d := DecodeFrom([], map[], Opcode(Push(0)) + (['A'] + (z + bits) + ['C'] + EncodeProgram(p)));
      d.error == None && d.instructions == [Push(BitsValue(bits))] + p
  {
    var t := Opcode(Push(0)) + (['A'] + (z + bits) + ['C'] + EncodeProgram(p));
    var x := Push(BitsValue(bits));
    DecodePushLeadingZeros(z, bits, EncodeProgram(p));
    DecodeFromNext([], map[], t, x, EncodeProgram(p));
    UniqueAfterPlain(x, p);
    DecodeEncodeFrom([x], map[], p);
  }

  /** When none of the 22 tests succeeds, the decision tree finds nothing. */
  lemma NoTestSucceeds(t: string)
    requires !IsPrefix("AA", t)
    requires !IsPrefix("ACA", t)
    requires !IsPrefix("ACB", t)
    requires !IsPrefix("ACC", t)
    requires !IsPrefix("BAAA", t)
    requires !IsPrefix("BAAB", t)
    requires !IsPrefix("BAAC", t)
    requires !IsPrefix("BABA", t)
    requires !IsPrefix("BABB", t)
    requires !IsPrefix("BBA", t)
    requires !IsPrefix("BBB", t)
    requires !IsPrefix("BCAA", t)
    requires !IsPrefix("BCAB", t)
    requires !IsPrefix("BCBA", t)
    requires !IsPrefix("BCBB", t)
    requires !IsPrefix("CAA", t)
    requires !IsPrefix("CAB", t)
    requires !IsPrefix("CAC", t)
    requires !IsPrefix("CBA", t)
    requires !IsPrefix("CBB", t)
    requires !IsPrefix("CBC", t)
    requires !IsPrefix("CCC", t)
    ensures MatchOpcode(t).None?
  {
    NoOpcode(t);
  }

  /** The tests of the `parse` if-chain for the stack instructions (opcodes beginning `A`), in
      the order of the source. A test that succeeds finds the kind that the
      decision tree finds. */
  method MatchStack(tokens: string) returns (found: bool, kind: Instruction, rest: string)
    ensures found ==> MatchOpcode(tokens) == Some(kind) && tokens == Opcode(kind) + rest
    ensures !found ==> rest == tokens && !IsPrefix("AA", tokens) && !IsPrefix("ACA", tokens) && !IsPrefix("ACB", tokens) && !IsPrefix("ACC", tokens)
  {
    kind := End;
    found, rest := StartsWith(tokens, "AA");
    if found {
      MatchByOpcode(Push(0), tokens);
      return found, Push(0), rest;
    }
    found, rest := StartsWith(tokens, "ACA");
    if found {
      MatchByOpcode(Dupl, tokens);
      return found, Dupl, rest;
    }
    found, rest := StartsWith(tokens, "ACB");
    if found {
      MatchByOpcode(Swap, tokens);
      return found, Swap, rest;
    }
    found, rest := StartsWith(tokens, "ACC");
    if found {
      MatchByOpcode(Discard, tokens);
      return found, Discard, rest;
    }
  }

  /** The tests of the `parse` if-chain for the arithmetic instructions (opcodes beginning `BA`), in
      the order of the source. A test that succeeds finds the kind that the
      decision tree finds. */
  method MatchArithmetic(tokens: string) returns (found: bool, kind: Instruction, rest: string)
    ensures found ==> MatchOpcode(tokens) == Some(kind) && tokens == Opcode(kind) + rest
    ensures !found ==> rest == tokens && !IsPrefix("BAAA", tokens) && !IsPrefix("BAAB", tokens) && !IsPrefix("BAAC", tokens) && !IsPrefix("BABA", tokens) && !IsPrefix("BABB", tokens)
  {
    kind := End;
    found, rest := StartsWith(tokens, "BAAA");
    if found {
      MatchByOpcode(Add, tokens);
      return found, Add, rest;
    }
    found, rest := StartsWith(tokens, "BAAB");
    if found {
      MatchByOpcode(Sub, tokens);
      return found, Sub, rest;
    }
    found, rest := StartsWith(tokens, "BAAC");
    if found {
      MatchByOpcode(Mul, tokens);
      return found, Mul, rest;
    }
    found, rest := StartsWith(tokens, "BABA");
    if found {
      MatchByOpcode(Div, tokens);
      return found, Div, rest;
    }
    found, rest := StartsWith(tokens, "BABB");
    if found {
      MatchByOpcode(Mod, tokens);
      return found, Mod, rest;
    }
  }

  /** The tests of the `parse` if-chain for the heap instructions (opcodes beginning `BB`), in
      the order of the source. A test that succeeds finds the kind that the
      decision tree finds. */
  method MatchHeap(tokens: string) returns (found: bool, kind: Instruction, rest: string)
    ensures found ==> MatchOpcode(tokens) == Some(kind) && tokens == Opcode(kind) + rest
    ensures !found ==> rest == tokens && !IsPrefix("BBA", tokens) && !IsPrefix("BBB", tokens)
  {
    kind := End;
    found, rest := StartsWith(tokens, "BBA");
    if found {
      MatchByOpcode(Store, tokens);
      return found, Store, rest;
    }
    found, rest := StartsWith(tokens, "BBB");
    if found {
      MatchByOpcode(Retrieve, tokens);
      return found, Retrieve, rest;
    }
  }

  /** The tests of the `parse` if-chain for the input/output instructions (opcodes beginning `BC`), in
      the order of the source. A test that succeeds finds the kind that the
      decision tree finds. */
  method MatchIO(tokens: string) returns (found: bool, kind: Instruction, rest: string)
    ensures found ==> MatchOpcode(tokens) == Some(kind) && tokens == Opcode(kind) + rest
    ensures !found ==> rest == tokens && !IsPrefix("BCAA", tokens) && !IsPrefix("BCAB", tokens) && !IsPrefix("BCBA", tokens) && !IsPrefix("BCBB", tokens)
  {
    kind := End;
    found, rest := StartsWith(tokens, "BCAA");
    if found {
      MatchByOpcode(PrintChar, tokens);
      return found, PrintChar, rest;
    }
    found, rest := StartsWith(tokens, "BCAB");
    if found {
      MatchByOpcode(PrintInt, tokens);
      return found, PrintInt, rest;
    }
    found, rest := StartsWith(tokens, "BCBA");
    if found {
      MatchByOpcode(ReadChar, tokens);
      return found, ReadChar, rest;
    }
    found, rest := StartsWith(tokens, "BCBB");
    if found {
      MatchByOpcode(Instruction.ReadInt, tokens);
      return found, Instruction.ReadInt, rest;
    }
  }

  /** The tests of the `parse` if-chain for the flow-control instructions (opcodes beginning `C`), in
      the order of the source. A test that succeeds finds the kind that the
      decision tree finds. */
  method MatchFlow(tokens: string) returns (found: bool, kind: Instruction, rest: string)
    ensures found ==> MatchOpcode(tokens) == Some(kind) && tokens == Opcode(kind) + rest
    ensures !found ==> rest == tokens && !IsPrefix("CAA", tokens) && !IsPrefix("CAB", tokens) && !IsPrefix("CAC", tokens) && !IsPrefix("CBA", tokens) && !IsPrefix("CBB", tokens) && !IsPrefix("CBC", tokens) && !IsPrefix("CCC", tokens)
  {
    kind := End;
    found, rest := StartsWith(tokens, "CAA");
    if found {
      MatchByOpcode(SetLbl([]), tokens);
      return found, SetLbl([]), rest;
    }
    found, rest := StartsWith(tokens, "CAB");
    if found {
      MatchByOpcode(CallLbl([]), tokens);
      return found, CallLbl([]), rest;
    }
    found, rest := StartsWith(tokens, "CAC");
    if found {
      MatchByOpcode(Jump([]), tokens);
      return found, Jump([]), rest;
    }
    found, rest := StartsWith(tokens, "CBA");
    if found {
      MatchByOpcode(JumpZero([]), tokens);
      return found, JumpZero([]), rest;
    }
    found, rest := StartsWith(tokens, "CBB");
    if found {
      MatchByOpcode(JumpNeg([]), tokens);
      return found, JumpNeg([]), rest;
    }
    found, rest := StartsWith(tokens, "CBC");
    if found {
      MatchByOpcode(Ret, tokens);
      return found, Ret, rest;
    }
    found, rest := StartsWith(tokens, "CCC");
    if found {
      MatchByOpcode(End, tokens);
      return found, End, rest;
    }
  }

  /** The `parse` if-chain, in the order of the source: which branch is taken
      (the kind, with its operand blank) and the tokens after its opcode.
      Whatever the order of the tests, the branch is the one the decision tree
      finds. */
  method MatchChain(tokens: string) returns (found: bool, kind: Instruction, rest: string)
    ensures found <==> MatchOpcode(tokens).Some?
    ensures found ==> MatchOpcode(tokens) == Some(kind) && tokens == Opcode(kind) + rest
    ensures !found ==> rest == tokens
  {
    found, kind, rest := MatchStack(tokens);
    if found {
      return;
    }
    found, kind, rest := MatchArithmetic(tokens);
    if found {
      return;
    }
    found, kind, rest := MatchHeap(tokens);
    if found {
      return;
    }
    found, kind, rest := MatchIO(tokens);
    if found {
      return;
    }
    found, kind, rest := MatchFlow(tokens);
    if found {
      return;
    }
    NoTestSucceeds(tokens);
  }

  // ---------------------------------------------------------------------
  // The parser object
  // ---------------------------------------------------------------------

  /** Once the if-chain has found the opcode, decoding goes on with the
      operand that follows it. */
  lemma DecodeAfterMatch(t: string, kind: Instruction, r: string)
    requires MatchOpcode(t) == Some(kind) && t == Opcode(kind) + r
    ensures DecodeInstruction(t) == OperandStep(kind, r)
  {
    assert t[|Opcode(kind)|..] == r;
  }

  /** `Parser`: the instructions parsed so far and the label table. */
  class Parser {
    var instructions: seq<Instruction>
    var labels: map<string, nat>

    /** The label table points every name at its `SetLbl`. */
    predicate Valid()
      reads this
    {
      LabelTable(instructions, labels)
    }

    /** A fresh parser has no instructions and no labels. */
    constructor()
      ensures instructions == [] && labels == map[]
      ensures Valid()
    {
      instructions := [];
      labels := map[];
    }

    /** `parse`: decodes all of `tokens0`, appending to the instructions and
        entering labels. `tokens` is the token string after the call, which
        the C++ leaves partly consumed when it throws. */
    method Parse(tokens0: string) returns (error: Option<ParseError>, tokens: string)
      modifies this
      ensures Decoded(instructions, labels, tokens, error) == DecodeFrom(old(instructions), old(labels), tokens0)
      ensures error.None? ==> tokens == []
      ensures instructions[..|old(instructions)|] == old(instructions)
      ensures old(Valid()) ==> Valid()
    {
      tokens := tokens0;
      while tokens != []
        invariant DecodeFrom(instructions, labels, tokens) == DecodeFrom(old(instructions), old(labels), tokens0)
        decreases |tokens|
      {
        error, tokens := ParseOne(tokens);
        if error.Some? {
          return;
        }
      }
      error := None;
    }

    /** One pass of the `parse` loop: the branch the if-chain takes, then that
        branch's body: read the operand, check a new label, append. */
    method ParseOne(tokens: string) returns (error: Option<ParseError>, rest: string)
      requires tokens != []
      modifies this
      ensures Decoded(instructions, labels, rest, error) == Advance(old(instructions), old(labels), tokens)
    {
      var found, kind, operand := MatchChain(tokens);
      if !found {
        return Some(ParsingError), tokens;
      }
      DecodeAfterMatch(tokens, kind, operand);
      var step := ReadOperand(kind, operand);
      error, rest := Commit(step);
    }

    /** The operand reading of the branch for `kind`: `read_int` for `Push`,
        `read_str` for the label instructions, nothing for the others. */
    method ReadOperand(kind: Instruction, operand: string) returns (step: Step)
      ensures step == OperandStep(kind, operand)
    {
      if kind.Push? {
        var good, num, after := ReadNumber(operand);
        if !good {
          return Fail(ParsingError, operand);
        }
        return Next(Push(num), after);
      }
      if HasLabel(kind) {
        var good, str, after := ReadString(operand);
        if !good {
          return Fail(ParsingError, operand);
        }
        return Next(Named(kind, str), after);
      }
      return Next(kind, operand);
    }

    /** The end of a branch: throw, or enter a new label and append. */
    method Commit(step: Step) returns (error: Option<ParseError>, rest: string)
      modifies this
      ensures Decoded(instructions, labels, rest, error) == Record(old(instructions), old(labels), step)
    {
      match step
      case Fail(e, r) =>
        return Some(e), r;
      case Next(i, r) =>
        if i.SetLbl? {
          if i.name in labels {
            return Some(LabelAlreadyDefined), r;
          }
          labels := labels[i.name := |instructions|];
        }
        instructions := instructions + [i];
        return None, r;
    }
  }
}
