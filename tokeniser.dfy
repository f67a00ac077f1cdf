/** The filter that turns Whitespace source text into the symbols the parser
    reads: `A` for a space, `B` for a tab, `C` for a newline. */
module Tokeniser {

  /** The symbols a single source character contributes: one for the three
      whitespace characters, none for anything else (comments, and the end of
      file marker the last `get` returns). */
  function Symbol(c: char): string
  {
    if c == ' ' then "A"
    else if c == '\t' then "B"
    else if c == '\n' then "C"
    else ""
  }

  /** The symbols of a whole text, in order. */
  function Symbols(s: seq<char>): (t: string)
    ensures forall k :: 0 <= k < |t| ==> t[k] == 'A' || t[k] == 'B' || t[k] == 'C'
    ensures |t| <= |s|
  {
    if s == [] then [] else Symbols(s[..|s| - 1]) + Symbol(s[|s| - 1])
  }

  /** How often `c` occurs in `s`. */
  function Count(s: seq<char>, c: char): nat
  {
    if s == [] then 0 else Count(s[..|s| - 1], c) + (if s[|s| - 1] == c then 1 else 0)
  }

  /** Each symbol occurs exactly as often as the whitespace character it stands
      for, so there are as many symbols as whitespace characters. */
  lemma {:induction false} SymbolsCount(s: seq<char>)
    ensures var t := Symbols(s);
      && Count(t, 'A') == Count(s, ' ')
      && Count(t, 'B') == Count(s, '\t')
      && Count(t, 'C') == Count(s, '\n')
      && |t| == Count(s, ' ') + Count(s, '\t') + Count(s, '\n')
  {
    if s != [] {
      var front, c := s[..|s| - 1], s[|s| - 1];
      SymbolsCount(front);
      var t0 := Symbols(front);
      var t := t0 + Symbol(c);
      if c == ' ' || c == '\t' || c == '\n' {
        assert t[..|t| - 1] == t0;
      } else {
        assert t == t0;
      }
    }
  }

  /** Tokenising two texts one after the other is tokenising them joined. */
  lemma {:induction false} SymbolsAppend(a: seq<char>, b: seq<char>)
    ensures Symbols(a + b) == Symbols(a) + Symbols(b)
    decreases |b|
  {
    if b == [] {
      assert a + b == a;
    } else {
      var front, c := b[..|b| - 1], b[|b| - 1];
      assert a + b == (a + front) + [c];
      assert (a + b)[..|a + b| - 1] == a + front;
      SymbolsAppend(a, front);
    }
  }

  /** A character that is not whitespace can be removed without changing the
      symbols. */
  lemma DropOther(a: seq<char>, c: char, b: seq<char>)
    requires c != ' ' && c != '\t' && c != '\n'
    ensures Symbols(a + [c] + b) == Symbols(a + b)
  {
    SymbolsAppend(a + [c], b);
    SymbolsAppend(a, b);
    assert (a + [c])[..|a|] == a;
    assert Symbols(a + [c]) == Symbols(a);
  }

  /** The whitespace character a symbol stands for. */
  function Spell(t: string): (s: seq<char>)
    ensures |s| == |t|
  {
    if t == [] then []
    else
      var c := t[|t| - 1];
      Spell(t[..|t| - 1]) + [if c == 'A' then ' ' else if c == 'B' then '\t' else '\n']
  }

  /** Writing symbols out as whitespace and tokenising that gives the symbols
      back. */
  lemma {:induction false} SymbolsSpell(t: string)
    requires forall k :: 0 <= k < |t| ==> t[k] == 'A' || t[k] == 'B' || t[k] == 'C'
    ensures Symbols(Spell(t)) == t
  {
    if t != [] {
      var front, x := t[..|t| - 1], t[|t| - 1];
      SymbolsSpell(front);
      var w := Spell(t);
      assert w[..|w| - 1] == Spell(front);
      assert Symbol(w[|w| - 1]) == [x];
      assert t == front + [x];
    }
  }

  /** `Tokeniser`: the symbols read so far. */
  class Tokeniser {
    var tokens: string

    constructor()
      ensures tokens == []
    {
      tokens := [];
    }

    /** `tokenise`: read the stream to its end, one character at a time, and
        append the symbol of each whitespace character. */
    method Tokenise(input: seq<char>)
      modifies this
      ensures tokens == old(tokens) + Symbols(input)
    {
      var k := 0;
      while k < |input|
        invariant 0 <= k <= |input|
        invariant tokens == old(tokens) + Symbols(input[..k])
      {
        var c := input[k];
        assert input[..k + 1][..k] == input[..k];
        if c == ' ' {
          tokens := tokens + "A";
        } else if c == '\t' {
          tokens := tokens + "B";
        } else if c == '\n' {
          tokens := tokens + "C";
        }
        k := k + 1;
      }
      assert input[..k] == input;
    }
  }
}
