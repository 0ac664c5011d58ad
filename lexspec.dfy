/** What the tokenizer reads from a character sequence: the character
    classes, the errors it reports, and the well-formedness of a token tree
    over the characters, with the lemmas that grow such a tree one token
    at a time. */
module LexSpec {
  import opened Wrappers
  import opened Tokens
  import Errors
  import Strings

  /** The separator characters, each read as a symbol of its own. */
  const SeparatorChars := "(){}[];,.!|:"

  /** `is_sep_char`. */
  predicate IsSepChar(c: char)
    ensures IsSepChar(c) <==> c in SeparatorChars
  {
    c == '(' || c == ')' ||
    c == '{' || c == '}' ||
    c == '[' || c == ']' ||
    c == ';' || c == ',' ||
    c == '.' || c == '!' ||
    c == '|' || c == ':'
  }

  /** A character a word may contain. */
  predicate IsWordChar(c: char) {
    c != ' ' && c != '\n' && !IsSepChar(c)
  }

  datatype LexError =
    | RogueClosingBrace(symbol: Symbol)             // `illegal_token` on a `}` or `)` with no opener
    | MissingClosingBrace(opening: Scope, at: nat)  // input ran out inside a block or group

  // ---------------------------------------------------------------------
  // What a well-formed token tree over `chars` is.

  predicate Spaces(chars: seq<char>, lo: nat, hi: nat) {
    lo <= hi <= |chars| && forall k :: lo <= k < hi ==> chars[k] == ' '
  }

  /** A one-character symbol read from `chars`. */
  predicate SymbolAt(s: Symbol, file: SourceFile, chars: seq<char>) {
    s.scope.file == file && s.scope.start < |chars| && s.scope.end == s.scope.start + 1
    && chars[s.scope.start] == s.value
  }

  /** First position a token covers. */
  function Start(t: Token): nat {
    GetScope(t).start
  }

  /** One past the last position a token covers. */
  function End(t: Token): nat {
    match t
    case WordToken(w) => w.scope.end
    case SymbolToken(s) => s.scope.end
    case LineBreakToken(l) => l.scope.end
    case BlockToken(b) => b.closing.scope.end
    case GroupToken(g) => g.closing.scope.end
  }

  /** A token exactly as the lexer reads it from `chars`: a word is a
      maximal non-empty run of word characters equal to the text under
      its scope; a symbol is one separator other than a brace or a
      parenthesis; a line break is one '\n'; a block or group holds the
      well-formed contents between its opening and closing symbols. */
  predicate TokenWF(t: Token, file: SourceFile, chars: seq<char>)
    decreases t
  {
    var ok := match t
    case WordToken(w) =>
      w.scope.file == file && w.scope.start < w.scope.end < |chars|
      && w.value == chars[w.scope.start..w.scope.end]
      && (forall k :: 0 <= k < |w.value| ==> IsWordChar(w.value[k]))
      && !IsWordChar(chars[w.scope.end])
    case SymbolToken(s) =>
      SymbolAt(s, file, chars) && IsSepChar(s.value)
      && s.value != '{' && s.value != '}' && s.value != '(' && s.value != ')'
    case LineBreakToken(l) =>
      l.scope.file == file && l.scope.start < |chars| && l.scope.end == l.scope.start + 1
      && chars[l.scope.start] == '\n'
    case BlockToken(b) =>
      SymbolAt(b.opening, file, chars) && b.opening.value == '{'
      && SymbolAt(b.closing, file, chars) && b.closing.value == '}'
      && TokensWF(b.tokens, file, chars, b.opening.scope.end, b.closing.scope.start)
    case GroupToken(g) =>
      SymbolAt(g.opening, file, chars) && g.opening.value == '('
      && SymbolAt(g.closing, file, chars) && g.closing.value == ')'
      && ElemsWF(g.elems, file, chars, g.opening.scope.end, g.closing.scope.start);
    ok
  }

  /** `ts` tiles `chars[lo..hi]` in order: each token starts where the
      previous ended or after spaces, and only spaces are left unclaimed. */
  predicate TokensWF(ts: seq<Token>, file: SourceFile, chars: seq<char>, lo: nat, hi: nat)
    decreases ts
  {
    var ok := if ts == [] then Spaces(chars, lo, hi)
    else
      lo <= Start(ts[0]) && Spaces(chars, lo, Start(ts[0])) && TokenWF(ts[0], file, chars)
      && TokensWF(ts[1..], file, chars, End(ts[0]), hi);
    ok
  }

  /** No token of `ts` is a bare comma (a group consumes its commas). */
  predicate NoComma(ts: seq<Token>) {
    forall k :: 0 <= k < |ts| ==> !(ts[k].SymbolToken? && ts[k].symbol.value == ',')
  }

  /** The elements of a group tile `chars[lo..hi]`: each element's tokens
      run up to the comma that ends it; a final element without a comma
      must hold tokens; space may follow a trailing comma. */
  predicate ElemsWF(es: seq<GroupElem>, file: SourceFile, chars: seq<char>, lo: nat, hi: nat)
    decreases es
  {
    var ok := if es == [] then Spaces(chars, lo, hi)
    else
      NoComma(es[0].tokens) &&
      match es[0].sep
      case Some(s) =>
        SymbolAt(s, file, chars) && s.value == ','
        && TokensWF(es[0].tokens, file, chars, lo, s.scope.start)
        && ElemsWF(es[1..], file, chars, s.scope.end, hi)
      case None =>
        |es| == 1 && es[0].tokens != [] && TokensWF(es[0].tokens, file, chars, lo, hi);
    ok
  }

  predicate AllSeparated(es: seq<GroupElem>) {
    forall k :: 0 <= k < |es| ==> es[k].sep.Some?
  }

  /** Some token sequence tiles `chars[lo..hi]`. */
  ghost predicate Tileable(file: SourceFile, chars: seq<char>, lo: nat, hi: nat) {
    exists ts :: TokensWF(ts, file, chars, lo, hi)
  }

  /** No well-formed token starts at `p`. */
  ghost predicate NoTokenAt(file: SourceFile, chars: seq<char>, p: nat) {
    forall t :: TokenWF(t, file, chars) ==> Start(t) != p
  }

  predicate IsOpener(c: char) {
    c == '{' || c == '('
  }

  /** The closing brace that matches an opener. */
  function CloserOf(c: char): char {
    if c == '{' then '}' else ')'
  }

  /** The error met right at `lo`: a `}` or `)` there is a rogue brace on
      that one-character symbol, and a `{` or `(` whose contents tile all
      the way to the sentinel line break is a missing brace, anchored at
      the opener and detected at the sentinel. */
  ghost predicate ErrorHere(e: LexError, file: SourceFile, chars: seq<char>, lo: nat) {
    var ok := match e
      case RogueClosingBrace(s) =>
        SymbolAt(s, file, chars) && s.scope.start == lo && lo + 1 < |chars|
        && (s.value == '}' || s.value == ')')
      case MissingClosingBrace(o, at) =>
        o.file == file && o.start == lo && o.end == lo + 1 && lo + 1 < |chars| && IsOpener(chars[lo])
        && at + 1 == |chars| && chars[at] == '\n' && Tileable(file, chars, lo + 1, at);
    ok
  }

  /** The error that reading one token at `lo` stops at. It is met right at
      `lo`, or `lo` opens a bracket whose contents tile up to a `p` that
      is not the bracket's own closing brace, and the error is the one
      met reading at `p`: the scan only gets to `p` through the contents. */
  ghost predicate ErrorWF(e: LexError, file: SourceFile, chars: seq<char>, lo: nat)
    decreases |chars| - lo
  {
    var ok := ErrorHere(e, file, chars, lo)
      || (lo < |chars| && IsOpener(chars[lo])
          && exists p: nat :: lo < p < |chars| && chars[p] != CloserOf(chars[lo])
               && Tileable(file, chars, lo + 1, p) && ErrorWF(e, file, chars, p));
    ok
  }

  /** The error that reading tokens from `lo` on stops at: the text from
      `lo` tiles up to some `p`, and the error is the one met reading at
      `p`. */
  ghost predicate LexErrorWF(e: LexError, file: SourceFile, chars: seq<char>, lo: nat) {
    exists p: nat :: lo <= p && Tileable(file, chars, lo, p) && ErrorWF(e, file, chars, p)
  }

  // ---------------------------------------------------------------------
  // Lemmas that grow a tiling.

  lemma {:induction false} TokensAppend(ts: seq<Token>, t: Token, file: SourceFile, chars: seq<char>, lo: nat, m: nat)
    requires TokensWF(ts, file, chars, lo, m) && TokenWF(t, file, chars)
    requires Start(t) == m && m <= End(t) <= |chars|
    ensures TokensWF(ts + [t], file, chars, lo, End(t))
    decreases ts
  {
    if ts == [] {
      assert [t][1..] == [];
    } else {
      assert (ts + [t])[1..] == ts[1..] + [t];
      TokensAppend(ts[1..], t, file, chars, End(ts[0]), m);
    }
  }

  lemma {:induction false} TokensExtend(ts: seq<Token>, file: SourceFile, chars: seq<char>, lo: nat, m: nat, hi: nat)
    requires TokensWF(ts, file, chars, lo, m) && Spaces(chars, m, hi)
    ensures TokensWF(ts, file, chars, lo, hi)
    decreases ts
  {
    if ts != [] {
      TokensExtend(ts[1..], file, chars, End(ts[0]), m, hi);
    }
  }

  lemma TokensPrepend(ts: seq<Token>, file: SourceFile, chars: seq<char>, lo: nat, m: nat, hi: nat)
    requires Spaces(chars, lo, m) && TokensWF(ts, file, chars, m, hi)
    ensures TokensWF(ts, file, chars, lo, hi)
  {
  }

  lemma {:induction false} ElemsAppendSeparated(es: seq<GroupElem>, ts: seq<Token>, s: Symbol, file: SourceFile, chars: seq<char>, lo: nat, m: nat)
    requires ElemsWF(es, file, chars, lo, m) && AllSeparated(es) && NoComma(ts)
    requires TokensWF(ts, file, chars, m, s.scope.start) && SymbolAt(s, file, chars) && s.value == ','
    ensures ElemsWF(es + [GroupElem(ts, Some(s))], file, chars, lo, s.scope.end)
    ensures AllSeparated(es + [GroupElem(ts, Some(s))])
    decreases es
  {
    var e := GroupElem(ts, Some(s));
    if es == [] {
      TokensPrepend(ts, file, chars, lo, m, s.scope.start);
      assert [e][1..] == [];
    } else {
      assert (es + [e])[1..] == es[1..] + [e];
      ElemsAppendSeparated(es[1..], ts, s, file, chars, es[0].sep.value.scope.end, m);
    }
  }

  lemma {:induction false} ElemsAppendLast(es: seq<GroupElem>, ts: seq<Token>, file: SourceFile, chars: seq<char>, lo: nat, m: nat, hi: nat)
    requires ElemsWF(es, file, chars, lo, m) && AllSeparated(es) && NoComma(ts)
    requires ts != [] && TokensWF(ts, file, chars, m, hi)
    ensures ElemsWF(es + [GroupElem(ts, None)], file, chars, lo, hi)
    decreases es
  {
    var e := GroupElem(ts, None);
    if es == [] {
      TokensPrepend(ts, file, chars, lo, m, hi);
      assert es + [e] == [e];
    } else {
      assert (es + [e])[1..] == es[1..] + [e];
      ElemsAppendLast(es[1..], ts, file, chars, es[0].sep.value.scope.end, m, hi);
    }
  }

  lemma {:induction false} ElemsExtend(es: seq<GroupElem>, file: SourceFile, chars: seq<char>, lo: nat, m: nat, hi: nat)
    requires ElemsWF(es, file, chars, lo, m) && AllSeparated(es) && Spaces(chars, m, hi)
    ensures ElemsWF(es, file, chars, lo, hi)
    decreases es
  {
    if es != [] {
      ElemsExtend(es[1..], file, chars, es[0].sep.value.scope.end, m, hi);
    }
  }

  lemma NoCommaAppend(ts: seq<Token>, t: Token)
    requires NoComma(ts) && !(t.SymbolToken? && t.symbol.value == ',')
    ensures NoComma(ts + [t])
  {
    assert forall k :: 0 <= k < |ts| ==> (ts + [t])[k] == ts[k];
  }

  /** A token read at a position holding no comma is not a comma. */
  lemma NotAComma(t: Token, file: SourceFile, chars: seq<char>)
    requires TokenWF(t, file, chars) && Start(t) < |chars| && chars[Start(t)] != ','
    ensures !(t.SymbolToken? && t.symbol.value == ',')
  {
  }

  lemma GroupWF(opening: Symbol, closing: Symbol, elems: seq<GroupElem>, file: SourceFile, chars: seq<char>)
    requires SymbolAt(opening, file, chars) && opening.value == '('
    requires SymbolAt(closing, file, chars) && closing.value == ')'
    requires ElemsWF(elems, file, chars, opening.scope.end, closing.scope.start)
    ensures var t := NewGroup(opening, closing, elems);
      t.GroupToken? && TokenWF(t, file, chars) && Start(t) == opening.scope.start && End(t) == closing.scope.end
  {
  }

  lemma BlockWF(opening: Symbol, closing: Symbol, tokens: seq<Token>, file: SourceFile, chars: seq<char>)
    requires SymbolAt(opening, file, chars) && opening.value == '{'
    requires SymbolAt(closing, file, chars) && closing.value == '}'
    requires TokensWF(tokens, file, chars, opening.scope.end, closing.scope.start)
    ensures var t := NewBlock(opening, closing, tokens);
      t.BlockToken? && TokenWF(t, file, chars) && Start(t) == opening.scope.start && End(t) == closing.scope.end
  {
  }

  /** A group being read: the finished elements tile `chars[lo..m]` and
      the pending tokens tile `chars[m..hi]`. */
  predicate GroupSoFar(elems: seq<GroupElem>, tokens: seq<Token>, file: SourceFile, chars: seq<char>, lo: nat, m: nat, hi: nat) {
    var ok := ElemsWF(elems, file, chars, lo, m) && AllSeparated(elems)
      && TokensWF(tokens, file, chars, m, hi) && NoComma(tokens);
    ok
  }

  lemma GroupOpen(file: SourceFile, chars: seq<char>, lo: nat)
    requires lo <= |chars|
    ensures GroupSoFar([], [], file, chars, lo, lo, lo)
  {
  }

  /** A comma closes the pending element and starts an empty one. */
  lemma GroupSeparate(elems: seq<GroupElem>, tokens: seq<Token>, sep: Symbol, file: SourceFile, chars: seq<char>, lo: nat, m: nat)
    requires GroupSoFar(elems, tokens, file, chars, lo, m, sep.scope.start)
    requires SymbolAt(sep, file, chars) && sep.value == ','
    ensures GroupSoFar(elems + [GroupElem(tokens, Some(sep))], [], file, chars, lo, sep.scope.end, sep.scope.end)
  {
    ElemsAppendSeparated(elems, tokens, sep, file, chars, lo, m);
  }

  /** A token read at a position holding no comma extends the pending
      element. */
  lemma GroupGrow(elems: seq<GroupElem>, tokens: seq<Token>, t: Token, file: SourceFile, chars: seq<char>, lo: nat, m: nat)
    requires GroupSoFar(elems, tokens, file, chars, lo, m, Start(t))
    requires TokenWF(t, file, chars) && Start(t) < End(t) <= |chars| && chars[Start(t)] != ','
    ensures GroupSoFar(elems, tokens + [t], file, chars, lo, m, End(t))
  {
    TokensAppend(tokens, t, file, chars, m, Start(t));
    NotAComma(t, file, chars);
    NoCommaAppend(tokens, t);
  }

  /** Spaces extend the pending element. */
  lemma GroupSkip(elems: seq<GroupElem>, tokens: seq<Token>, file: SourceFile, chars: seq<char>, lo: nat, m: nat, hi: nat, hi': nat)
    requires GroupSoFar(elems, tokens, file, chars, lo, m, hi) && Spaces(chars, hi, hi')
    ensures GroupSoFar(elems, tokens, file, chars, lo, m, hi')
  {
    TokensExtend(tokens, file, chars, m, hi, hi');
  }

  /** Closing a group at `closing`: the pending tokens, when there are
      any, become the last element. */
  lemma GroupClose(opening: Symbol, closing: Symbol, elems: seq<GroupElem>, tokens: seq<Token>, file: SourceFile, chars: seq<char>, m: nat)
    requires SymbolAt(opening, file, chars) && opening.value == '('
    requires SymbolAt(closing, file, chars) && closing.value == ')'
    requires GroupSoFar(elems, tokens, file, chars, opening.scope.end, m, closing.scope.start)
    ensures var t := NewGroup(opening, closing, if tokens != [] then elems + [GroupElem(tokens, None)] else elems);
      t.GroupToken? && TokenWF(t, file, chars) && Start(t) == opening.scope.start && End(t) == closing.scope.end
  {
    if tokens != [] {
      ElemsAppendLast(elems, tokens, file, chars, opening.scope.end, m, closing.scope.start);
    } else {
      ElemsExtend(elems, file, chars, opening.scope.end, m, closing.scope.start);
    }
  }

  // ---------------------------------------------------------------------
  // Spans.

  /** A well-formed token covers at least one character. */
  lemma {:induction false} TokenSpan(t: Token, file: SourceFile, chars: seq<char>)
    requires TokenWF(t, file, chars)
    ensures Start(t) < End(t)
    decreases t
  {
    match t
    case BlockToken(b) => TokensSpan(b.tokens, file, chars, b.opening.scope.end, b.closing.scope.start);
    case GroupToken(g) => ElemsSpan(g.elems, file, chars, g.opening.scope.end, g.closing.scope.start);
    case _ =>
  }

  /** A tiling runs forwards, and a non-empty one covers something. */
  lemma {:induction false} TokensSpan(ts: seq<Token>, file: SourceFile, chars: seq<char>, lo: nat, hi: nat)
    requires TokensWF(ts, file, chars, lo, hi)
    ensures lo <= hi && (ts != [] ==> lo < hi)
    decreases ts
  {
    if ts != [] {
      TokenSpan(ts[0], file, chars);
      TokensSpan(ts[1..], file, chars, End(ts[0]), hi);
    }
  }

  /** The elements of a group run forwards, and some element means some text. */
  lemma {:induction false} ElemsSpan(es: seq<GroupElem>, file: SourceFile, chars: seq<char>, lo: nat, hi: nat)
    requires ElemsWF(es, file, chars, lo, hi)
    ensures lo <= hi && (es != [] ==> lo < hi)
    decreases es
  {
    if es != [] {
      match es[0].sep
      case Some(s) =>
        TokensSpan(es[0].tokens, file, chars, lo, s.scope.start);
        ElemsSpan(es[1..], file, chars, s.scope.end, hi);
      case None =>
        TokensSpan(es[0].tokens, file, chars, lo, hi);
    }
  }

  /** `()` has no elements. */
  lemma EmptyGroup(g: Group, file: SourceFile, chars: seq<char>)
    requires TokenWF(GroupToken(g), file, chars) && g.closing.scope.start == g.opening.scope.end
    ensures g.elems == []
  {
    ElemsSpan(g.elems, file, chars, g.opening.scope.end, g.closing.scope.start);
  }

  /** The scope a diagnostic points at for a lexed token: a word's whole
      text, or the single character a symbol, line break or opening
      brace occupies, always at the token's first position. */
  lemma ScopeWithin(t: Token, file: SourceFile, chars: seq<char>)
    requires TokenWF(t, file, chars)
    ensures var s := GetScope(t);
      s.file == file && s.start == Start(t) && s.start < s.end <= End(t) <= |chars|
      && (t.WordToken? ==> chars[s.start..s.end] == t.word.value)
      && (!t.WordToken? ==> s.end == s.start + 1)
  {
    TokenSpan(t, file, chars);
    match t
    case BlockToken(b) => TokensSpan(b.tokens, file, chars, b.opening.scope.end, b.closing.scope.start);
    case GroupToken(g) => ElemsSpan(g.elems, file, chars, g.opening.scope.end, g.closing.scope.start);
    case _ =>
  }

  /** A lexed token prints one line per node of its tree, a group's
      elements counted as nodes: lexed words and symbols hold no line
      break of their own. */
  lemma {:induction false} PrintedLines(t: Token, file: SourceFile, chars: seq<char>)
    requires TokenWF(t, file, chars)
    ensures NewlineCount(Tokens.Display(t)) + 1 == Size(t)
  {
    LexedBreaks(t, file, chars);
    DisplayBreaks(t);
  }

  lemma {:induction false} LexedBreaks(t: Token, file: SourceFile, chars: seq<char>)
    requires TokenWF(t, file, chars)
    ensures Breaks(t) + 1 == Size(t)
    decreases t, 1
  {
    match t
    case WordToken(w) =>
      NewlineFree(w.value);
    case BlockToken(b) =>
      SeqBreaks(b.tokens, file, chars, b.opening.scope.end, b.closing.scope.start);
    case GroupToken(g) =>
      ElemBreaks(g.elems, file, chars, g.opening.scope.end, g.closing.scope.start);
    case _ =>
  }

  lemma {:induction false} SeqBreaks(ts: seq<Token>, file: SourceFile, chars: seq<char>, lo: nat, hi: nat)
    requires TokensWF(ts, file, chars, lo, hi)
    ensures BreaksSeq(ts) == SizeSeq(ts)
    decreases ts, 0
  {
    if ts != [] {
      LexedBreaks(ts[0], file, chars);
      SeqBreaks(ts[1..], file, chars, End(ts[0]), hi);
    }
  }

  lemma {:induction false} ElemBreaks(es: seq<GroupElem>, file: SourceFile, chars: seq<char>, lo: nat, hi: nat)
    requires ElemsWF(es, file, chars, lo, hi)
    ensures BreaksElems(es) == SizeElems(es)
    decreases es
  {
    if es != [] {
      match es[0].sep
      case Some(s) =>
        SeqBreaks(es[0].tokens, file, chars, lo, s.scope.start);
        ElemBreaks(es[1..], file, chars, s.scope.end, hi);
      case None =>
        SeqBreaks(es[0].tokens, file, chars, lo, hi);
    }
  }

  // ---------------------------------------------------------------------
  // Determinism: what the text after a position can be read as is fixed.

  /** The number of nodes of a token tree, as a termination measure. */
  function Size(t: Token): nat
    decreases t
  {
    1 + match t
      case BlockToken(b) => SizeSeq(b.tokens)
      case GroupToken(g) => SizeElems(g.elems)
      case _ => 0
  }

  function SizeSeq(ts: seq<Token>): nat
    decreases ts
  {
    if ts == [] then 0 else Size(ts[0]) + SizeSeq(ts[1..])
  }

  function SizeElems(es: seq<GroupElem>): nat
    decreases es
  {
    if es == [] then 0 else SizeSeq(es[0].tokens) + 1 + SizeElems(es[1..])
  }

  /** A group's contents as one token sequence: each element's tokens,
      followed by the comma that ended it. */
  function Flatten(es: seq<GroupElem>): seq<Token>
    decreases es
  {
    if es == [] then []
    else es[0].tokens + (if es[0].sep.Some? then [SymbolToken(es[0].sep.value)] else []) + Flatten(es[1..])
  }

  lemma {:induction false} SizeSeqConcat(a: seq<Token>, b: seq<Token>)
    ensures SizeSeq(a + b) == SizeSeq(a) + SizeSeq(b)
    decreases a
  {
    if a == [] {
      assert a + b == b;
    } else {
      assert (a + b)[0] == a[0] && (a + b)[1..] == a[1..] + b;
      SizeSeqConcat(a[1..], b);
    }
  }

  lemma {:induction false} FlattenSize(es: seq<GroupElem>)
    ensures SizeSeq(Flatten(es)) <= SizeElems(es)
    decreases es
  {
    if es != [] {
      var sep: seq<Token> := if es[0].sep.Some? then [SymbolToken(es[0].sep.value)] else [];
      assert SizeSeq(sep) <= 1 by {
        if sep != [] {
          assert sep[1..] == [];
        }
      }
      SizeSeqConcat(es[0].tokens + sep, Flatten(es[1..]));
      SizeSeqConcat(es[0].tokens, sep);
      FlattenSize(es[1..]);
    }
  }

  /** Two tilings that meet at `m` tile the whole range. */
  lemma {:induction false} TokensConcat(a: seq<Token>, b: seq<Token>, file: SourceFile, chars: seq<char>, lo: nat, m: nat, hi: nat)
    requires TokensWF(a, file, chars, lo, m) && TokensWF(b, file, chars, m, hi)
    ensures TokensWF(a + b, file, chars, lo, hi)
    decreases a
  {
    if a == [] {
      assert a + b == b;
      TokensPrepend(b, file, chars, lo, m, hi);
    } else {
      assert (a + b)[0] == a[0] && (a + b)[1..] == a[1..] + b;
      TokensConcat(a[1..], b, file, chars, End(a[0]), m, hi);
    }
  }

  /** A group's elements, commas included, tile its contents. */
  lemma {:induction false} ElemsFlat(es: seq<GroupElem>, file: SourceFile, chars: seq<char>, lo: nat, hi: nat)
    requires ElemsWF(es, file, chars, lo, hi)
    ensures TokensWF(Flatten(es), file, chars, lo, hi)
    decreases es
  {
    if es != [] {
      match es[0].sep
      case Some(s) =>
        var comma := SymbolToken(s);
        ElemsFlat(es[1..], file, chars, s.scope.end, hi);
        assert TokensWF([comma], file, chars, s.scope.start, s.scope.end) by {
          assert TokenWF(comma, file, chars);
          assert [comma][1..] == [];
          assert TokensWF([], file, chars, s.scope.end, s.scope.end);
        }
        TokensConcat([comma], Flatten(es[1..]), file, chars, s.scope.start, s.scope.end, hi);
        TokensConcat(es[0].tokens, [comma] + Flatten(es[1..]), file, chars, lo, s.scope.start, hi);
        Strings.ConcatAssoc(es[0].tokens, [comma], Flatten(es[1..]));
      case None =>
        assert TokensWF(es[0].tokens, file, chars, lo, hi);
        assert es[1..] == [];
        assert Flatten(es) == es[0].tokens;
    }
  }

  /** The finished elements and the pending tokens of a group being read
      tile its contents so far. */
  lemma GroupFlat(elems: seq<GroupElem>, tokens: seq<Token>, file: SourceFile, chars: seq<char>, lo: nat, m: nat, hi: nat)
    requires GroupSoFar(elems, tokens, file, chars, lo, m, hi)
    ensures TokensWF(Flatten(elems) + tokens, file, chars, lo, hi)
  {
    ElemsFlat(elems, file, chars, lo, m);
    TokensConcat(Flatten(elems), tokens, file, chars, lo, m, hi);
  }

  /** The first character of a well-formed token decides its kind: it is
      never a blank or a closing brace, it is `{` exactly for blocks and
      `(` exactly for groups. */
  lemma StartChar(t: Token, file: SourceFile, chars: seq<char>)
    requires TokenWF(t, file, chars)
    ensures Start(t) < |chars|
    ensures chars[Start(t)] != ' ' && chars[Start(t)] != '}' && chars[Start(t)] != ')'
    ensures t.BlockToken? <==> chars[Start(t)] == '{'
    ensures t.GroupToken? <==> chars[Start(t)] == '('
    ensures t.WordToken? <==> IsWordChar(chars[Start(t)])
  {
    if t.WordToken? {
      assert t.word.value[0] == chars[Start(t)];
    }
  }

  /** Two well-formed tokens that start at the same place end at the same
      place. */
  lemma {:induction false} TokenUnique(t1: Token, t2: Token, file: SourceFile, chars: seq<char>)
    requires TokenWF(t1, file, chars) && TokenWF(t2, file, chars) && Start(t1) == Start(t2)
    ensures End(t1) == End(t2)
    decreases Size(t1) + Size(t2), 0
  {
    StartChar(t1, file, chars);
    StartChar(t2, file, chars);
    var s := Start(t1);
    match t1
    case BlockToken(b1) =>
      var b2 := t2.block;
      TilingNotPast(b1.tokens, b2.tokens, file, chars, s + 1, b1.closing.scope.start, b2.closing.scope.start);
      TilingNotPast(b2.tokens, b1.tokens, file, chars, s + 1, b2.closing.scope.start, b1.closing.scope.start);
    case GroupToken(g1) =>
      var g2 := t2.group;
      ElemsFlat(g1.elems, file, chars, s + 1, g1.closing.scope.start);
      ElemsFlat(g2.elems, file, chars, s + 1, g2.closing.scope.start);
      FlattenSize(g1.elems);
      FlattenSize(g2.elems);
      TilingNotPast(Flatten(g1.elems), Flatten(g2.elems), file, chars, s + 1, g1.closing.scope.start, g2.closing.scope.start);
      TilingNotPast(Flatten(g2.elems), Flatten(g1.elems), file, chars, s + 1, g2.closing.scope.start, g1.closing.scope.start);
    case WordToken(w1) =>
      WordRun(w1, file, chars);
      WordRun(t2.word, file, chars);
    case _ =>
  }

  /** A word covers a run of word characters that ends before a character
      of another kind. */
  lemma WordRun(w: Word, file: SourceFile, chars: seq<char>)
    requires TokenWF(WordToken(w), file, chars)
    ensures forall k :: w.scope.start <= k < w.scope.end ==> IsWordChar(chars[k])
    ensures w.scope.end < |chars| && !IsWordChar(chars[w.scope.end])
  {
    forall k | w.scope.start <= k < w.scope.end
      ensures IsWordChar(chars[k])
    {
      assert chars[k] == w.value[k - w.scope.start];
    }
  }

  /** A tiling that stops at a closing brace is not overrun by another
      tiling from the same place. */
  lemma {:induction false} TilingNotPast(ts1: seq<Token>, ts2: seq<Token>, file: SourceFile, chars: seq<char>, lo: nat, h1: nat, h2: nat)
    requires TokensWF(ts1, file, chars, lo, h1) && TokensWF(ts2, file, chars, lo, h2)
    requires h1 < |chars| && (chars[h1] == '}' || chars[h1] == ')')
    ensures h2 <= h1
    decreases SizeSeq(ts1) + SizeSeq(ts2), 2
  {
    if h1 < h2 {
      TilingMeet(ts2, ts1, file, chars, lo, h2, h1);
      var k :| 0 <= k < |ts2| && Start(ts2[k]) == h1 && TokenWF(ts2[k], file, chars);
      StartChar(ts2[k], file, chars);
    }
  }

  /** Two tilings from the same place agree token by token: where the
      shorter one stops on a non-blank, the longer one has a token
      starting. */
  lemma {:induction false} TilingMeet(ts1: seq<Token>, ts2: seq<Token>, file: SourceFile, chars: seq<char>, lo: nat, h1: nat, h2: nat)
    requires TokensWF(ts1, file, chars, lo, h1) && TokensWF(ts2, file, chars, lo, h2)
    requires h2 < h1 && h2 < |chars| && chars[h2] != ' '
    ensures exists k :: 0 <= k < |ts1| && Start(ts1[k]) == h2 && TokenWF(ts1[k], file, chars)
    decreases SizeSeq(ts1) + SizeSeq(ts2), 1
  {
    TokensSpan(ts2, file, chars, lo, h2);
    if ts1 == [] {
      assert false;
    } else if ts2 == [] {
      StartChar(ts1[0], file, chars);
      assert Start(ts1[0]) == h2;
    } else {
      StartChar(ts1[0], file, chars);
      StartChar(ts2[0], file, chars);
      assert Start(ts1[0]) == Start(ts2[0]);
      TokenUnique(ts1[0], ts2[0], file, chars);
      TilingMeet(ts1[1..], ts2[1..], file, chars, End(ts1[0]), h1, h2);
      var k :| 0 <= k < |ts1[1..]| && Start(ts1[1..][k]) == h2 && TokenWF(ts1[1..][k], file, chars);
      assert ts1[1..][k] == ts1[k + 1];
    }
  }

  /** Two well-formed tokens that start at the same place are the same
      token: what the text holds at a position is read only one way. */
  lemma {:induction false} TokenSame(t1: Token, t2: Token, file: SourceFile, chars: seq<char>)
    requires TokenWF(t1, file, chars) && TokenWF(t2, file, chars) && Start(t1) == Start(t2)
    ensures t1 == t2
    decreases Size(t1) + Size(t2), 0
  {
    TokenUnique(t1, t2, file, chars);
    StartChar(t1, file, chars);
    StartChar(t2, file, chars);
    match t1
    case BlockToken(b1) =>
      var b2 := t2.block;
      TilingSame(b1.tokens, b2.tokens, file, chars, b1.opening.scope.end, b1.closing.scope.start);
    case GroupToken(g1) =>
      var g2 := t2.group;
      ElemsFlat(g1.elems, file, chars, g1.opening.scope.end, g1.closing.scope.start);
      ElemsFlat(g2.elems, file, chars, g1.opening.scope.end, g1.closing.scope.start);
      FlattenSize(g1.elems);
      FlattenSize(g2.elems);
      TilingSame(Flatten(g1.elems), Flatten(g2.elems), file, chars, g1.opening.scope.end, g1.closing.scope.start);
      FlattenInjective(g1.elems, g2.elems, file, chars, g1.opening.scope.end, g1.closing.scope.start);
    case WordToken(w1) =>
      assert w1.value == t2.word.value;
    case _ =>
  }

  /** A range is tiled one way only. */
  lemma {:induction false} TilingSame(ts1: seq<Token>, ts2: seq<Token>, file: SourceFile, chars: seq<char>, lo: nat, hi: nat)
    requires TokensWF(ts1, file, chars, lo, hi) && TokensWF(ts2, file, chars, lo, hi)
    ensures ts1 == ts2
    decreases SizeSeq(ts1) + SizeSeq(ts2), 1
  {
    if ts1 != [] && ts2 != [] {
      StartChar(ts1[0], file, chars);
      StartChar(ts2[0], file, chars);
      assert Start(ts1[0]) == Start(ts2[0]);
      TokenSame(ts1[0], ts2[0], file, chars);
      TilingSame(ts1[1..], ts2[1..], file, chars, End(ts1[0]), hi);
      assert ts1 == [ts1[0]] + ts1[1..];
      assert ts2 == [ts2[0]] + ts2[1..];
    } else if ts1 != [] {
      NotOnlyBlanks(ts1, file, chars, lo, hi);
    } else if ts2 != [] {
      NotOnlyBlanks(ts2, file, chars, lo, hi);
    }
  }

  /** A non-empty tiling covers a non-blank character. */
  lemma NotOnlyBlanks(ts: seq<Token>, file: SourceFile, chars: seq<char>, lo: nat, hi: nat)
    requires TokensWF(ts, file, chars, lo, hi) && ts != []
    ensures !Spaces(chars, lo, hi)
  {
    TokenSpan(ts[0], file, chars);
    TokensSpan(ts[1..], file, chars, End(ts[0]), hi);
    StartChar(ts[0], file, chars);
  }

  /** A group's elements are recovered from their flattening: commas only
      appear as separators, and a final element without one is not
      empty. */
  lemma {:induction false} FlattenInjective(es1: seq<GroupElem>, es2: seq<GroupElem>, file: SourceFile, chars: seq<char>, lo: nat, hi: nat)
    requires ElemsWF(es1, file, chars, lo, hi) && ElemsWF(es2, file, chars, lo, hi)
    requires Flatten(es1) == Flatten(es2)
    ensures es1 == es2
    decreases es1
  {
    if es1 != [] && es2 != [] {
      var f := Flatten(es1);
      var t1, t2 := es1[0].tokens, es2[0].tokens;
      FlattenHead(es1, file, chars, lo, hi);
      FlattenHead(es2, file, chars, lo, hi);
      assert t1 == f[..|t1|] == t2;
      if es1[0].sep.Some? && es2[0].sep.Some? {
        var s := es1[0].sep.value;
        assert SymbolToken(s) == f[|t1|] == SymbolToken(es2[0].sep.value);
        FlattenInjective(es1[1..], es2[1..], file, chars, s.scope.end, hi);
        assert es1 == [es1[0]] + es1[1..];
        assert es2 == [es2[0]] + es2[1..];
      }
    } else if es1 != [] {
      FlattenHead(es1, file, chars, lo, hi);
    } else if es2 != [] {
      FlattenHead(es2, file, chars, lo, hi);
    }
  }

  /** The flattening of a group's elements starts with the first element's
      tokens, then its comma or nothing more. */
  lemma FlattenHead(es: seq<GroupElem>, file: SourceFile, chars: seq<char>, lo: nat, hi: nat)
    requires ElemsWF(es, file, chars, lo, hi) && es != []
    ensures var f, t := Flatten(es), es[0].tokens;
      NoComma(t) && |t| <= |f| && f[..|t|] == t && f != []
      && (es[0].sep.Some? ==>
            |t| < |f| && f[|t|] == SymbolToken(es[0].sep.value) && es[0].sep.value.value == ','
            && f[|t| + 1..] == Flatten(es[1..]))
      && (es[0].sep.None? ==> |es| == 1 && f == t)
  {
    var t := es[0].tokens;
    if es[0].sep.Some? {
      var rest := [SymbolToken(es[0].sep.value)] + Flatten(es[1..]);
      assert Flatten(es) == t + rest;
    } else {
      assert es[1..] == [];
    }
  }

  // ---------------------------------------------------------------------
  // Errors: where the lexer gives up, no reading exists.

  /** No token starts at a closing brace. */
  lemma CloserNoToken(file: SourceFile, chars: seq<char>, p: nat)
    requires p < |chars| && (chars[p] == '}' || chars[p] == ')')
    ensures NoTokenAt(file, chars, p)
  {
    forall t | TokenWF(t, file, chars)
      ensures Start(t) != p
    {
      StartChar(t, file, chars);
    }
  }

  /** The contents of a bracket, tiled up to its closing brace at `c`, and
      another tiling from the same place that stops at `h` on a non-blank
      that is not that brace: `h` comes first, and the contents have a
      token starting there. */
  lemma ContentsMeet(inner: seq<Token>, c: nat, ts: seq<Token>, file: SourceFile, chars: seq<char>, lo: nat, h: nat)
    requires TokensWF(inner, file, chars, lo, c) && c < |chars| && (chars[c] == '}' || chars[c] == ')')
    requires TokensWF(ts, file, chars, lo, h) && h < |chars| && chars[h] != ' ' && chars[h] != chars[c]
    ensures h < c && !NoTokenAt(file, chars, h)
  {
    TilingNotPast(inner, ts, file, chars, lo, c, h);
    TilingMeet(inner, ts, file, chars, lo, c, h);
    var k :| 0 <= k < |inner| && Start(inner[k]) == h && TokenWF(inner[k], file, chars);
  }

  /** A bracket at `o` whose contents tile up to `h`, where the reading
      stopped, starts no token when `h` is the sentinel or starts none
      itself and holds neither a blank nor the matching closing brace. */
  lemma NoTokenAtOpener(file: SourceFile, chars: seq<char>, o: nat, ts: seq<Token>, h: nat)
    requires o < |chars| && (chars[o] == '{' || chars[o] == '(')
    requires TokensWF(ts, file, chars, o + 1, h) && h < |chars| && chars[h] != ' '
    requires chars[o] == '{' ==> chars[h] != '}'
    requires chars[o] == '(' ==> chars[h] != ')'
    requires NoTokenAt(file, chars, h) || h + 1 == |chars|
    ensures NoTokenAt(file, chars, o)
  {
    forall t | TokenWF(t, file, chars) && Start(t) == o
      ensures false
    {
      StartChar(t, file, chars);
      if t.BlockToken? {
        ContentsMeet(t.block.tokens, t.block.closing.scope.start, ts, file, chars, o + 1, h);
      } else {
        ElemsFlat(t.group.elems, file, chars, o + 1, t.group.closing.scope.start);
        ContentsMeet(Flatten(t.group.elems), t.group.closing.scope.start, ts, file, chars, o + 1, h);
      }
    }
  }

  /** An error met at `p` inside the bracket at `o`, whose contents so far
      tile up to `p`, is an error of that bracket, which starts no token. */
  lemma ErrorInside(e: LexError, file: SourceFile, chars: seq<char>, o: nat, ts: seq<Token>, p: nat)
    requires o < p && p + 1 < |chars| && (chars[o] == '{' || chars[o] == '(')
    requires chars[o] == '{' ==> chars[p] != '}'
    requires chars[o] == '(' ==> chars[p] != ')'
    requires chars[p] != ' ' && TokensWF(ts, file, chars, o + 1, p)
    requires ErrorWF(e, file, chars, p) && NoTokenAt(file, chars, p)
    ensures ErrorWF(e, file, chars, o) && NoTokenAt(file, chars, o)
  {
    NoTokenAtOpener(file, chars, o, ts, p);
    assert Tileable(file, chars, o + 1, p);
  }

  /** Input that runs out inside the bracket `opening`, whose contents tile
      up to the sentinel, is a missing closing brace, and that bracket
      starts no token. */
  lemma MissingAtEnd(file: SourceFile, chars: seq<char>, opening: Symbol, ts: seq<Token>, h: nat)
    requires SymbolAt(opening, file, chars) && (opening.value == '{' || opening.value == '(')
    requires h + 1 == |chars| && chars[h] == '\n' && opening.scope.start < h
    requires TokensWF(ts, file, chars, opening.scope.end, h)
    ensures ErrorWF(MissingClosingBrace(opening.scope, h), file, chars, opening.scope.start)
    ensures NoTokenAt(file, chars, opening.scope.start)
  {
    NoTokenAtOpener(file, chars, opening.scope.start, ts, h);
    assert Tileable(file, chars, opening.scope.end, h);
  }

  /** An error met at `p` while reading from `lo`, with the text from `lo`
      tiled up to `p`: no tiling of the whole text from `lo` exists. */
  lemma ErrorAtTop(e: LexError, file: SourceFile, chars: seq<char>, lo: nat, ts: seq<Token>, p: nat, hi: nat)
    requires hi + 1 == |chars| && lo <= p < hi && chars[p] != ' ' && TokensWF(ts, file, chars, lo, p)
    requires ErrorWF(e, file, chars, p) && NoTokenAt(file, chars, p)
    ensures LexErrorWF(e, file, chars, lo)
    ensures !Tileable(file, chars, lo, hi)
  {
    assert Tileable(file, chars, lo, p);
    forall ts' | TokensWF(ts', file, chars, lo, hi)
      ensures false
    {
      TilingMeet(ts', ts, file, chars, lo, hi, p);
    }
  }

  /** Where an error is met there is a brace before the sentinel, and no
      token starts there. */
  lemma {:induction false} ErrorNoToken(e: LexError, file: SourceFile, chars: seq<char>, lo: nat)
    requires ErrorWF(e, file, chars, lo)
    ensures lo + 1 < |chars| && (IsOpener(chars[lo]) || chars[lo] == '}' || chars[lo] == ')')
    ensures NoTokenAt(file, chars, lo)
    decreases |chars| - lo
  {
    if ErrorHere(e, file, chars, lo) {
      match e
      case RogueClosingBrace(s) =>
        CloserNoToken(file, chars, lo);
      case MissingClosingBrace(o, at) =>
        var ts :| TokensWF(ts, file, chars, lo + 1, at);
        NoTokenAtOpener(file, chars, lo, ts, at);
    } else {
      var p: nat :| lo < p < |chars| && chars[p] != CloserOf(chars[lo])
        && Tileable(file, chars, lo + 1, p) && ErrorWF(e, file, chars, p);
      ErrorNoToken(e, file, chars, p);
      var ts :| TokensWF(ts, file, chars, lo + 1, p);
      NoTokenAtOpener(file, chars, lo, ts, p);
    }
  }

  /** No tiling from `a` runs past a position where an error is met and
      that a tiling from `a` reaches. */
  lemma TilingStopsAtError(e: LexError, file: SourceFile, chars: seq<char>, a: nat, p: nat, ts: seq<Token>, h: nat)
    requires Tileable(file, chars, a, p) && ErrorWF(e, file, chars, p)
    requires TokensWF(ts, file, chars, a, h)
    ensures h <= p
  {
    if p < h {
      ErrorNoToken(e, file, chars, p);
      var ts' :| TokensWF(ts', file, chars, a, p);
      TilingMeet(ts, ts', file, chars, a, h, p);
    }
  }

  /** Reading one token at `lo` stops at one error at most. */
  lemma {:induction false} ErrorUnique(e1: LexError, e2: LexError, file: SourceFile, chars: seq<char>, lo: nat)
    requires ErrorWF(e1, file, chars, lo) && ErrorWF(e2, file, chars, lo)
    ensures e1 == e2
    decreases |chars| - lo
  {
    if ErrorHere(e1, file, chars, lo) {
      HereOnly(e1, e2, file, chars, lo);
      HereUnique(e1, e2, file, chars, lo);
    } else if ErrorHere(e2, file, chars, lo) {
      HereOnly(e2, e1, file, chars, lo);
    } else {
      var p1 := ChainStop(e1, file, chars, lo);
      var p2 := ChainStop(e2, file, chars, lo);
      var ts1 :| TokensWF(ts1, file, chars, lo + 1, p1);
      var ts2 :| TokensWF(ts2, file, chars, lo + 1, p2);
      TilingStopsAtError(e1, file, chars, lo + 1, p1, ts2, p2);
      TilingStopsAtError(e2, file, chars, lo + 1, p2, ts1, p1);
      ErrorUnique(e1, e2, file, chars, p1);
    }
  }

  /** An error met right at a position is the only one there. */
  lemma HereUnique(e1: LexError, e2: LexError, file: SourceFile, chars: seq<char>, lo: nat)
    requires ErrorHere(e1, file, chars, lo) && ErrorHere(e2, file, chars, lo)
    ensures e1 == e2
  {
  }

  /** When a bracket's contents tile up to the sentinel, the reading of
      the bracket stops at no error inside it. */
  lemma HereOnly(e1: LexError, e2: LexError, file: SourceFile, chars: seq<char>, lo: nat)
    requires ErrorHere(e1, file, chars, lo) && ErrorWF(e2, file, chars, lo)
    ensures ErrorHere(e2, file, chars, lo)
  {
    if !ErrorHere(e2, file, chars, lo) {
      var p := ChainStop(e2, file, chars, lo);
      ErrorNoToken(e2, file, chars, p);
      var ts1 :| TokensWF(ts1, file, chars, lo + 1, |chars| - 1);
      TilingStopsAtError(e2, file, chars, lo + 1, p, ts1, |chars| - 1);
    }
  }

  /** In `} (`, reading from the start stops at the `}`; the `(` after it
      is never reached. */
  lemma RogueFirstExample(f: SourceFile, chars: seq<char>, e: LexError)
    requires chars == "} (\n" && LexErrorWF(e, f, chars, 0)
    ensures e == RogueClosingBrace(Symbol('}', Scope(f, 0, 1)))
  {
    var rogue := RogueClosingBrace(Symbol('}', Scope(f, 0, 1)));
    assert TokensWF([], f, chars, 0, 0);
    assert ErrorWF(rogue, f, chars, 0);
    LexErrorUnique(e, rogue, f, chars, 0);
  }

  /** Reading the block `{ ) (` stops at the `)` inside it, not at the
      unclosed `(` after it. */
  lemma InnerRogueExample(f: SourceFile, chars: seq<char>, e: LexError)
    requires chars == "{ ) (\n" && ErrorWF(e, f, chars, 0)
    ensures e == RogueClosingBrace(Symbol(')', Scope(f, 2, 3)))
  {
    var rogue := RogueClosingBrace(Symbol(')', Scope(f, 2, 3)));
    assert TokensWF([], f, chars, 1, 2);
    assert ErrorHere(rogue, f, chars, 2);
    assert ErrorWF(rogue, f, chars, 0);
    ErrorUnique(e, rogue, f, chars, 0);
  }

  /** Where the contents of the bracket at `lo` stop, for an error met
      inside it. */
  ghost function ChainStop(e: LexError, file: SourceFile, chars: seq<char>, lo: nat): (p: nat)
    requires ErrorWF(e, file, chars, lo) && !ErrorHere(e, file, chars, lo)
    ensures lo < p < |chars| && chars[p] != CloserOf(chars[lo])
    ensures lo < |chars| && IsOpener(chars[lo])
    ensures Tileable(file, chars, lo + 1, p) && ErrorWF(e, file, chars, p)
  {
    var p: nat :| lo < p < |chars| && chars[p] != CloserOf(chars[lo])
      && Tileable(file, chars, lo + 1, p) && ErrorWF(e, file, chars, p);
    p
  }

  /** Reading tokens from `lo` on stops at one error at most. */
  lemma LexErrorUnique(e1: LexError, e2: LexError, file: SourceFile, chars: seq<char>, lo: nat)
    requires LexErrorWF(e1, file, chars, lo) && LexErrorWF(e2, file, chars, lo)
    ensures e1 == e2
  {
    var p1: nat :| lo <= p1 && Tileable(file, chars, lo, p1) && ErrorWF(e1, file, chars, p1);
    var p2: nat :| lo <= p2 && Tileable(file, chars, lo, p2) && ErrorWF(e2, file, chars, p2);
    var ts1 :| TokensWF(ts1, file, chars, lo, p1);
    var ts2 :| TokensWF(ts2, file, chars, lo, p2);
    TilingStopsAtError(e1, file, chars, lo, p1, ts2, p2);
    TilingStopsAtError(e2, file, chars, lo, p2, ts1, p1);
    ErrorUnique(e1, e2, file, chars, p1);
  }

  // ---------------------------------------------------------------------
  // The report each error gives.

  const RogueBraceNote := "unexpected rougue closing-brace"

  /** The lines the original prints before it exits: a rogue brace is an
      illegal symbol token underlined with `RogueBraceNote`; a missing
      brace names the line where input ran out. */
  function Report(e: LexError): (lines: seq<string>)
    requires e.RogueClosingBrace? ==> e.symbol.scope.start <= e.symbol.scope.end
    requires e.MissingClosingBrace? ==> e.opening.start <= e.opening.end
    ensures |lines| == 2
    ensures e.RogueClosingBrace? ==>
              lines[0] == "MCCS ERROR: illegal Token: " + Display(SymbolToken(e.symbol))
              && lines[1] == Errors.UnderlineWord(e.symbol.scope, Some(RogueBraceNote), true)
    ensures e.MissingClosingBrace? ==>
              |lines[0]| > |Errors.MissingBraceTitle|
              && lines[0][..|Errors.MissingBraceTitle|] == Errors.MissingBraceTitle
              && Strings.ParseNat(lines[0][|Errors.MissingBraceTitle|..]) == Errors.LineOf(e.opening.file.source, e.at)
              && lines[0] == Errors.MissingBraceTitle + Strings.NatToString(Errors.LineOf(e.opening.file.source, e.at))
              && lines[1] == Errors.UnderlineWord(e.opening, Some(Errors.MissingBraceHint), true)
  {
    match e
    case RogueClosingBrace(s) => Errors.IllegalToken(SymbolToken(s), Some(RogueBraceNote), None)
    case MissingClosingBrace(o, at) => Errors.MissingClosingBrace(o, at)
  }
}
