/** The 22 instruction classes of the interpreter and their textual form. */
module Instructions {
  import opened Strings

  /** One constructor per class derived from `Instruction`, in the order of the
      visitor interface. The C++ getters `get_num` and `get_label` are the
      destructors `num` and `name`. */
  datatype Instruction =
    | Push(num: int)
    | Dupl
    | Swap
    | Discard
    | Add
    | Sub
    | Mul
    | Div
    | Mod
    | Store
    | Retrieve
    | SetLbl(name: string)
    | CallLbl(name: string)
    | Jump(name: string)
    | JumpZero(name: string)
    | JumpNeg(name: string)
    | Ret
    | End
    | PrintChar
    | PrintInt
    | ReadChar
    | ReadInt

  /** The five instructions that carry a label operand. */
  predicate HasLabel(i: Instruction)
  {
    i.SetLbl? || i.CallLbl? || i.Jump? || i.JumpZero? || i.JumpNeg?
  }

  /** The character `std::to_string` writes for a decimal digit. */
  function DigitChar(d: nat): (c: char)
    requires d < 10
    ensures '0' <= c <= '9'
  {
    "0123456789"[d]
  }

  /** The decimal digits of a natural number, most significant first, without
      leading zeros. */
  function Digits(n: nat): (s: string)
    ensures |s| > 0
    ensures forall k :: 0 <= k < |s| ==> '0' <= s[k] <= '9'
  {
    if n < 10 then [DigitChar(n)] else Digits(n / 10) + [DigitChar(n % 10)]
  }

  /** `std::to_string` on an `int`: a minus sign for negative numbers, then the
      digits of the magnitude. */
  function DecimalString(n: int): (s: string)
    ensures |s| > 0
    ensures s[0] == '-' <==> n < 0
  {
    if n < 0 then "-" + Digits(-n) else Digits(n)
  }

  /** The value of a string of decimal digits (the inverse of `Digits`). */
  function DigitsValue(s: string): nat
  {
    if s == [] then 0
    else
      var c := s[|s| - 1];
      var d := if '0' <= c <= '9' then (c as int) - ('0' as int) else 0;
      DigitsValue(s[..|s| - 1]) * 10 + d
  }

  /** The value of a decimal string with an optional leading minus sign. */
  function DecimalValue(s: string): int
  {
    if |s| > 0 && s[0] == '-' then 0 - DigitsValue(s[1..]) else DigitsValue(s)
  }

  lemma {:induction false} DigitsRoundTrip(n: nat)
    ensures DigitsValue(Digits(n)) == n
  {
    if n >= 10 {
      var s := Digits(n);
      assert s[..|s| - 1] == Digits(n / 10);
      DigitsRoundTrip(n / 10);
    }
  }

  /** Reading back what `std::to_string` writes gives the number again. */
  lemma DecimalRoundTrip(n: int)
    ensures DecimalValue(DecimalString(n)) == n
  {
    var m: nat := if n < 0 then -n else n;
    var d := Digits(m);
    DigitsRoundTrip(m);
    if n < 0 {
      var s := "-" + d;
      assert DecimalString(n) == s && s[1..] == d;
      assert DecimalValue(s) == 0 - DigitsValue(d);
    } else {
      assert DecimalString(n) == d && d[0] != '-';
    }
  }

  /** `to_str`: the class name, followed for `Push` by a space and the number
      and for the label instructions by a space and the label. */
  function ToStr(i: Instruction): string
  {
    match i
    case Push(n) => "Push " + DecimalString(n)
    case Dupl => "Dupl"
    case Swap => "Swap"
    case Discard => "Discard"
    case Add => "Add"
    case Sub => "Sub"
    case Mul => "Mul"
    case Div => "Div"
    case Mod => "Mod"
    case Store => "Store"
    case Retrieve => "Retrieve"
    case SetLbl(l) => "SetLbl " + l
    case CallLbl(l) => "CallLbl " + l
    case Jump(l) => "Jump " + l
    case JumpZero(l) => "JumpZero " + l
    case JumpNeg(l) => "JumpNeg " + l
    case Ret => "Ret"
    case End => "End"
    case PrintChar => "PrintChar"
    case PrintInt => "PrintInt"
    case ReadChar => "ReadChar"
    case ReadInt => "ReadInt"
  }

  /** Reads the text `ToStr` writes back into an instruction: a bare class
      name, or a class name and a space followed by the operand. */
  function FromStr(s: string): Option<Instruction>
  {
    if BareInstruction(s).Some? then BareInstruction(s)
    else if IsPrefix("Push ", s) then Some(Push(DecimalValue(s[5..])))
    else if IsPrefix("SetLbl ", s) then Some(SetLbl(s[7..]))
    else if IsPrefix("CallLbl ", s) then Some(CallLbl(s[8..]))
    else if IsPrefix("Jump ", s) then Some(Jump(s[5..]))
    else if IsPrefix("JumpZero ", s) then Some(JumpZero(s[9..]))
    else if IsPrefix("JumpNeg ", s) then Some(JumpNeg(s[8..]))
    else None
  }

  /** The argument-free instruction with the given class name. */
  function BareInstruction(name: string): Option<Instruction>
  {
    if name == "Dupl" then Some(Dupl)
    else if name == "Swap" then Some(Swap)
    else if name == "Discard" then Some(Discard)
    else if name == "Add" then Some(Add)
    else if name == "Sub" then Some(Sub)
    else if name == "Mul" then Some(Mul)
    else if name == "Div" then Some(Div)
    else if name == "Mod" then Some(Mod)
    else if name == "Store" then Some(Store)
    else if name == "Retrieve" then Some(Retrieve)
    else if name == "Ret" then Some(Ret)
    else if name == "End" then Some(End)
    else if name == "PrintChar" then Some(PrintChar)
    else if name == "PrintInt" then Some(PrintInt)
    else if name == "ReadChar" then Some(ReadChar)
    else if name == "ReadInt" then Some(ReadInt)
    else None
  }

  datatype Option<T> = None | Some(value: T)

  /** No argument-free class name contains a space. */
  lemma SpacedNotBare(s: string, k: nat)
    requires k < |s| && s[k] == ' '
    ensures BareInstruction(s) == None
  {
  }

  /** An argument-free instruction prints as its bare class name. */
  lemma {:induction false} BareFromStrToStr(i: Instruction)
    requires !i.Push? && !HasLabel(i)
    ensures FromStr(ToStr(i)) == Some(i)
  {
    match i
    case Dupl =>
    case Swap =>
    case Discard =>
    case Add =>
    case Sub =>
    case Mul =>
    case Div =>
    case Mod =>
    case Store =>
    case Retrieve =>
    case Ret =>
    case End =>
    case PrintChar =>
    case PrintInt =>
    case ReadChar =>
    case ReadInt =>
  }

  /** `Push` prints as its class name, a space and the decimal number. */
  lemma PushFromStrToStr(n: int)
    ensures FromStr(ToStr(Push(n))) == Some(Push(n))
  {
    var s := ToStr(Push(n));
    SpacedNotBare(s, 4);
    assert s[..5] == "Push " && s[5..] == DecimalString(n);
    DecimalRoundTrip(n);
  }

  /** `SetLbl` and `CallLbl` print as their class name, a space and the label. */
  lemma {:induction false} MarkFromStrToStr(i: Instruction)
    requires i.SetLbl? || i.CallLbl?
    ensures FromStr(ToStr(i)) == Some(i)
  {
    var s := ToStr(i);
    match i
    case SetLbl(l) =>
      SpacedNotBare(s, 6);
      assert s[0] == 'S' && s[..7] == "SetLbl " && s[7..] == l;
    case CallLbl(l) =>
      SpacedNotBare(s, 7);
      assert s[0] == 'C' && s[..8] == "CallLbl " && s[8..] == l;
  }

  /** `Jump` prints as its class name, a space and the label. */
  lemma JumpFromStrToStr(l: string)
    ensures FromStr(ToStr(Jump(l))) == Some(Jump(l))
  {
    var s := ToStr(Jump(l));
    SpacedNotBare(s, 4);
    assert s[0] == 'J' && s[4] == ' ' && s[..5] == "Jump " && s[5..] == l;
  }

  /** `JumpZero` prints as its class name, a space and the label. */
  lemma JumpZeroFromStrToStr(l: string)
    ensures FromStr(ToStr(JumpZero(l))) == Some(JumpZero(l))
  {
    var s := ToStr(JumpZero(l));
    SpacedNotBare(s, 8);
    assert s[0] == 'J' && s[4] == 'Z' && s[..9] == "JumpZero " && s[9..] == l;
  }

  /** `JumpNeg` prints as its class name, a space and the label. */
  lemma JumpNegFromStrToStr(l: string)
    ensures FromStr(ToStr(JumpNeg(l))) == Some(JumpNeg(l))
  {
    var s := ToStr(JumpNeg(l));
    SpacedNotBare(s, 7);
    assert s[0] == 'J' && s[4] == 'N' && s[..8] == "JumpNeg " && s[8..] == l;
  }

  /** Every instruction can be read back from its `to_str` text. */
  lemma FromStrToStr(i: Instruction)
    ensures FromStr(ToStr(i)) == Some(i)
  {
    if i.Push? {
      PushFromStrToStr(i.num);
    } else if i.SetLbl? || i.CallLbl? {
      MarkFromStrToStr(i);
    } else if i.Jump? {
      JumpFromStrToStr(i.name);
    } else if i.JumpZero? {
      JumpZeroFromStrToStr(i.name);
    } else if i.JumpNeg? {
      JumpNegFromStrToStr(i.name);
    } else {
      BareFromStrToStr(i);
    }
  }

  /** Distinct instructions print differently. */
  lemma ToStrInjective(i: Instruction, j: Instruction)
    requires ToStr(i) == ToStr(j)
    ensures i == j
  {
    FromStrToStr(i);
    FromStrToStr(j);
  }
}
