/** The token tree the lexer builds: words, symbols, line breaks, and the
    recursive `{...}` blocks and `(...)` groups, each carrying the scope it
    was read from; with `get_scope`, the `new_*` constructors and the
    debugging printer (`Display for Token`). */
module Tokens {
  import opened Wrappers
  import opened Strings

  /** A source file: its path and its text (the original holds a raw pointer
      to the text; here the text is a plain value). */
  datatype SourceFile = SourceFile(path: string, source: string)

  /** A half-open character range [start, end) of a source file. */
  datatype Scope = Scope(file: SourceFile, start: nat, end: nat)

  datatype Word = Word(value: string, scope: Scope)
  datatype Symbol = Symbol(value: char, scope: Scope)
  datatype LineBreak = LineBreak(scope: Scope)
  datatype Block = Block(opening: Symbol, closing: Symbol, tokens: seq<Token>)
  datatype Group = Group(opening: Symbol, closing: Symbol, elems: seq<GroupElem>)

  /** One comma-delimited segment of a group; `sep` is the comma that ended
      it, `None` for a final segment closed by `)`. */
  datatype GroupElem = GroupElem(tokens: seq<Token>, sep: Option<Symbol>)

  datatype Token =
    | WordToken(word: Word)
    | SymbolToken(symbol: Symbol)
    | LineBreakToken(lineBreak: LineBreak)
    | BlockToken(block: Block)
    | GroupToken(group: Group)

  /** The scope a diagnostic underlines for `t`: its own for the leaves, the
      opening symbol's for blocks and groups. */
  function GetScope(t: Token): Scope {
    match t
    case WordToken(w) => w.scope
    case SymbolToken(s) => s.scope
    case LineBreakToken(l) => l.scope
    case BlockToken(b) => b.opening.scope
    case GroupToken(g) => g.opening.scope
  }

  function NewWord(value: string, scope: Scope): (t: Token)
    ensures t.WordToken? && t.word.value == value && GetScope(t) == scope
  {
    WordToken(Word(value, scope))
  }

  function NewSymbol(value: char, scope: Scope): (t: Token)
    ensures t.SymbolToken? && t.symbol.value == value && GetScope(t) == scope
  {
    SymbolToken(Symbol(value, scope))
  }

  function NewLineBreak(scope: Scope): (t: Token)
    ensures t.LineBreakToken? && GetScope(t) == scope
  {
    LineBreakToken(LineBreak(scope))
  }

  function NewBlock(opening: Symbol, closing: Symbol, tokens: seq<Token>): (t: Token)
    ensures t.BlockToken? && t.block.opening == opening && t.block.closing == closing && t.block.tokens == tokens
    ensures GetScope(t) == opening.scope
  {
    BlockToken(Block(opening, closing, tokens))
  }

  function NewGroup(opening: Symbol, closing: Symbol, elems: seq<GroupElem>): (t: Token)
    ensures t.GroupToken? && t.group.opening == opening && t.group.closing == closing && t.group.elems == elems
    ensures GetScope(t) == opening.scope
  {
    GroupToken(Group(opening, closing, elems))
  }

  // ---------------------------------------------------------------------
  // The debugging printer.

  /** `s` with every "\n" replaced by "\n\t" (one more level of indentation). */
  function Indent(s: string): string {
    if s == [] then []
    else (if s[0] == '\n' then "\n\t" else [s[0]]) + Indent(s[1..])
  }

  /** `s` with every "\n\t" replaced by "\n": undoes one level of indentation. */
  function Unindent(s: string): string {
    if s == [] then []
    else if s[0] == '\n' && |s| > 1 && s[1] == '\t' then "\n" + Unindent(s[2..])
    else [s[0]] + Unindent(s[1..])
  }

  /** The number of line breaks in `s`. */
  function NewlineCount(s: string): nat {
    if s == [] then 0 else (if s[0] == '\n' then 1 else 0) + NewlineCount(s[1..])
  }

  function Display(t: Token): string
    decreases t
  {
    match t
    case WordToken(w) => "Word '" + w.value + "'"
    case SymbolToken(s) => "Symbol '" + [s.value] + "'"
    case LineBreakToken(_) => "Line Break"
    case BlockToken(b) => "Block" + DisplayChildren(b.tokens)
    case GroupToken(g) => "Group" + DisplayElems(g.elems)
  }

  /** Each child on a line of its own, one tab deeper than its parent. */
  function DisplayChildren(ts: seq<Token>): string
    decreases ts
  {
    if ts == [] then "" else "\n\t" + Indent(Display(ts[0])) + DisplayChildren(ts[1..])
  }

  /** Every element, empty ones included, under an ":Elem:" line; separators
      are not printed. */
  function DisplayElems(es: seq<GroupElem>): string
    decreases es
  {
    if es == [] then "" else "\n:Elem:" + DisplayChildren(es[0].tokens) + DisplayElems(es[1..])
  }

  // ---------------------------------------------------------------------
  // What the printer promises.

  /** Indentation loses nothing: removing one level gives the text back. */
  lemma {:induction false} UnindentIndent(s: string)
    ensures Unindent(Indent(s)) == s
  {
    if s != [] {
      UnindentIndent(s[1..]);
      var rest := Indent(s[1..]);
      if s[0] == '\n' {
        assert Indent(s) == "\n\t" + rest;
        assert (Indent(s))[2..] == rest;
      } else {
        assert Indent(s) == [s[0]] + rest;
        assert (Indent(s))[1..] == rest;
      }
    }
  }

  /** Indentation adds exactly one tab per line break. */
  lemma {:induction false} IndentLength(s: string)
    ensures |Indent(s)| == |s| + NewlineCount(s)
    ensures NewlineCount(Indent(s)) == NewlineCount(s)
  {
    if s != [] {
      IndentLength(s[1..]);
      var head := if s[0] == '\n' then "\n\t" else [s[0]];
      NewlineCountConcat(head, Indent(s[1..]));
    }
  }

  lemma {:induction false} NewlineCountConcat(a: string, b: string)
    ensures NewlineCount(a + b) == NewlineCount(a) + NewlineCount(b)
  {
    if a != [] {
      assert (a + b)[1..] == a[1..] + b;
      NewlineCountConcat(a[1..], b);
    } else {
      assert a + b == b;
    }
  }

  lemma {:induction false} IndentConcat(a: string, b: string)
    ensures Indent(a + b) == Indent(a) + Indent(b)
  {
    if a != [] {
      assert (a + b)[1..] == a[1..] + b;
      IndentConcat(a[1..], b);
    } else {
      assert a + b == b;
    }
  }

  /** A single-line text is left as it is. */
  lemma {:induction false} IndentSingleLine(s: string)
    requires NewlineCount(s) == 0
    ensures Indent(s) == s
  {
    if s != [] {
      IndentSingleLine(s[1..]);
    }
  }

  /** Children are printed in order: one more child adds one more line at
      the end. */
  lemma {:induction false} DisplayChildrenAppend(ts: seq<Token>, t: Token)
    ensures DisplayChildren(ts + [t]) == DisplayChildren(ts) + "\n\t" + Indent(Display(t))
  {
    if ts == [] {
      assert ts + [t] == [t];
      assert [t][1..] == [];
    } else {
      assert (ts + [t])[1..] == ts[1..] + [t];
      DisplayChildrenAppend(ts[1..], t);
    }
  }

  /** Elements are printed in order, each under its own ":Elem:" line. */
  lemma {:induction false} DisplayElemsAppend(es: seq<GroupElem>, e: GroupElem)
    ensures DisplayElems(es + [e]) == DisplayElems(es) + "\n:Elem:" + DisplayChildren(e.tokens)
  {
    if es == [] {
      assert es + [e] == [e];
      assert [e][1..] == [];
    } else {
      assert (es + [e])[1..] == es[1..] + [e];
      DisplayElemsAppend(es[1..], e);
    }
  }

  /** A block with a single child prints it one tab deeper. */
  lemma SingleChildDisplay(o: Symbol, c: Symbol, t: Token)
    ensures Display(BlockToken(Block(o, c, [t]))) == "Block\n\t" + Indent(Display(t))
  {
    var x := Indent(Display(t));
    assert [t][1..] == [];
    assert DisplayChildren([t]) == "\n\t" + x + "";
    assert "Block" + ("\n\t" + x + "") == "Block\n\t" + x;
  }

  lemma IndentCons(c: char, s: string)
    ensures Indent([c] + s) == (if c == '\n' then "\n\t" else [c]) + Indent(s)
  {
    assert ([c] + s)[1..] == s;
  }

  lemma IndentBlockHeader()
    ensures Indent("Block\n\t") == "Block\n\t\t"
  {
    IndentCons('\t', []);
    IndentCons('\n', "\t");
    IndentCons('k', "\n\t");
    IndentCons('c', "k\n\t");
    IndentCons('o', "ck\n\t");
    IndentCons('l', "ock\n\t");
    IndentCons('B', "lock\n\t");
  }

  lemma {:induction false} WordLineSingle(v: string)
    requires NewlineCount(v) == 0
    ensures NewlineCount("Word '" + v + "'") == 0
  {
    NewlineCountConcat("Word '", v);
    NewlineCountConcat("Word '" + v, "'");
    var p := "Word '";
    assert p == ['W'] + p[1..] && p[1..] == ['o'] + p[2..] && p[2..] == ['r'] + p[3..];
    assert p[3..] == ['d'] + p[4..] && p[4..] == [' '] + p[5..] && p[5..] == ['\''] + p[6..];
    assert p[6..] == [];
    var q := "'";
    assert q == ['\''] + q[1..] && q[1..] == [];
  }

  /** Text without a '\n' character counts no line break. */
  lemma {:induction false} NewlineFree(s: string)
    requires forall k :: 0 <= k < |s| ==> s[k] != '\n'
    ensures NewlineCount(s) == 0
  {
    if s != [] {
      NewlineFree(s[1..]);
    }
  }

  /** The line breaks the printer puts in the display of `t`: one before
      each child of a block, one before each element of a group and one
      before each token in it, plus those inside a leaf's own text. */
  function Breaks(t: Token): nat
    decreases t
  {
    match t
    case WordToken(w) => NewlineCount(w.value)
    case SymbolToken(s) => if s.value == '\n' then 1 else 0
    case LineBreakToken(_) => 0
    case BlockToken(b) => BreaksSeq(b.tokens)
    case GroupToken(g) => BreaksElems(g.elems)
  }

  function BreaksSeq(ts: seq<Token>): nat
    decreases ts
  {
    if ts == [] then 0 else 1 + Breaks(ts[0]) + BreaksSeq(ts[1..])
  }

  function BreaksElems(es: seq<GroupElem>): nat
    decreases es
  {
    if es == [] then 0 else 1 + BreaksSeq(es[0].tokens) + BreaksElems(es[1..])
  }

  /** Every child and every element goes on a line of its own, and the
      printer adds no other line break: indenting a child keeps its
      lines. */
  lemma {:induction false} DisplayBreaks(t: Token)
    ensures NewlineCount(Display(t)) == Breaks(t)
    decreases t, 1
  {
    match t
    case WordToken(w) =>
      NewlineFree("Word '");
      NewlineFree("'");
      NewlineCountConcat("Word '", w.value);
      NewlineCountConcat("Word '" + w.value, "'");
    case SymbolToken(c) =>
      NewlineFree("Symbol '");
      NewlineFree("'");
      NewlineCountConcat("Symbol '", [c.value]);
      NewlineCountConcat("Symbol '" + [c.value], "'");
      assert NewlineCount([c.value]) == if c.value == '\n' then 1 else 0;
    case LineBreakToken(_) =>
      NewlineFree("Line Break");
    case BlockToken(b) =>
      NewlineFree("Block");
      NewlineCountConcat("Block", DisplayChildren(b.tokens));
      ChildrenBreaks(b.tokens);
    case GroupToken(g) =>
      NewlineFree("Group");
      NewlineCountConcat("Group", DisplayElems(g.elems));
      ElemsBreaks(g.elems);
  }

  lemma {:induction false} ChildrenBreaks(ts: seq<Token>)
    ensures NewlineCount(DisplayChildren(ts)) == BreaksSeq(ts)
    decreases ts, 0
  {
    if ts != [] {
      var child := Indent(Display(ts[0]));
      DisplayBreaks(ts[0]);
      IndentLength(Display(ts[0]));
      ChildrenBreaks(ts[1..]);
      assert NewlineCount("\n\t") == 1 by {
        NewlineFree("\t");
        NewlineCountConcat("\n", "\t");
      }
      NewlineCountConcat("\n\t" + child, DisplayChildren(ts[1..]));
      NewlineCountConcat("\n\t", child);
    }
  }

  lemma {:induction false} ElemsBreaks(es: seq<GroupElem>)
    ensures NewlineCount(DisplayElems(es)) == BreaksElems(es)
    decreases es
  {
    if es != [] {
      var children := DisplayChildren(es[0].tokens);
      ChildrenBreaks(es[0].tokens);
      ElemsBreaks(es[1..]);
      assert NewlineCount("\n:Elem:") == 1 by {
        NewlineFree(":Elem:");
        NewlineCountConcat("\n", ":Elem:");
      }
      NewlineCountConcat("\n:Elem:" + children, DisplayElems(es[1..]));
      NewlineCountConcat("\n:Elem:", children);
    }
  }

  /** Each nesting level adds one tab: a word two blocks deep is printed
      after two tabs. */
  lemma NestedDisplay(o1: Symbol, c1: Symbol, o2: Symbol, c2: Symbol, w: Word)
    requires NewlineCount(w.value) == 0
    ensures Display(BlockToken(Block(o1, c1, [BlockToken(Block(o2, c2, [WordToken(w)]))])))
         == "Block\n\t" + "Block\n\t\t" + "Word '" + w.value + "'"
  {
    var word := "Word '" + w.value + "'";
    WordLineSingle(w.value);
    IndentSingleLine(word);
    var inner := BlockToken(Block(o2, c2, [WordToken(w)]));
    SingleChildDisplay(o2, c2, WordToken(w));
    IndentConcat("Block\n\t", word);
    IndentBlockHeader();
    SingleChildDisplay(o1, c1, inner);
    var head := "Block\n\t" + "Block\n\t\t";
    ConcatAssoc("Block\n\t", "Block\n\t\t", word);
    ConcatAssoc(head, "Word '" + w.value, "'");
    ConcatAssoc(head, "Word '", w.value);
  }
}
