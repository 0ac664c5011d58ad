/** The declaration parser: a cursor over the top-level tokens that
    collects modifiers, records the `datapack` name and turns each
    `fn <name> {...}` into a parsed function. The original reports an
    illegal token and exits; here the report's arguments are returned as a
    `ParseError`. Reading past the last token, a panic in the original,
    is the error `OutOfTokens`. */
module Parser {
  import opened Wrappers
  import opened Tokens
  import opened Strings
  import Errors

  datatype ParsedFunction = ParsedFunction(name: Word, mods: seq<Word>, block: Block)

  datatype ParseError =
    | Illegal(token: Token, note: string, help: Option<Errors.Help>)  // `illegal_token(token, Some(note), help)`
    | OutOfTokens(at: nat)                                             // `tokens[at]` with `at` past the end

  const ExpectedIdentifier := "expected identifier"
  const ExpectedEndOfLine := "expected end of line"
  const MustDeclareDatapack := "must declare datapack first"
  const ExpectedBlock := "expected block"
  const ExpectedItem := "expected item declaration"
  const DatapackHelp := Errors.Help("try declaring datapack", "datapack my_datapack", 1)

  /** The lines `illegal_token` prints for a parse error; reading past
      the last token is a panic in the original and prints no report. */
  function Report(e: ParseError): (lines: Option<seq<string>>)
    requires e.Illegal? ==> GetScope(e.token).start <= GetScope(e.token).end
    ensures lines.Some? <==> e.Illegal?
    ensures e.Illegal? ==>
              |lines.value| == (if e.help.Some? then 4 else 2)
              && lines.value[0] == "MCCS ERROR: illegal Token: " + Tokens.Display(e.token)
              && lines.value[1] == Errors.UnderlineWord(GetScope(e.token), Some(e.note), true)
  {
    match e
    case Illegal(token, note, help) => Some(Errors.IllegalToken(token, Some(note), help))
    case OutOfTokens(_) => None
  }

  /** The words that are gathered as modifiers of the next function. */
  predicate IsModifier(value: string) {
    value == "inline" || value == "onload" || value == "ontick" || value == "cmpdmp" || value == "hidden"
  }

  // ---------------------------------------------------------------------
  // The parser as a function of the token sequence.

  /** `next_ident` at position `i`. */
  function IdentAt(tokens: seq<Token>, i: nat): (r: Result<Word, ParseError>)
    ensures r.Ok? <==> i < |tokens| && tokens[i].WordToken?
    ensures r.Ok? ==> r.value == tokens[i].word
    ensures r.Err? ==> r.error == if i < |tokens| then Illegal(tokens[i], ExpectedIdentifier, None) else OutOfTokens(i)
  {
    if i >= |tokens| then Err(OutOfTokens(i))
    else match tokens[i]
      case WordToken(word) => Ok(word)
      case _ => Err(Illegal(tokens[i], ExpectedIdentifier, None))
  }

  /** `expect_line_break` at position `i`. */
  function LineBreakAt(tokens: seq<Token>, i: nat): (r: Result<(), ParseError>)
    ensures r.Ok? <==> i < |tokens| && tokens[i].LineBreakToken?
    ensures r.Err? ==> r.error == if i < |tokens| then Illegal(tokens[i], ExpectedEndOfLine, None) else OutOfTokens(i)
  {
    if i >= |tokens| then Err(OutOfTokens(i))
    else if tokens[i].LineBreakToken? then Ok(())
    else Err(Illegal(tokens[i], ExpectedEndOfLine, None))
  }

  /** What `parse` keeps between items: the datapack name, the functions
      parsed so far and the pending modifiers. */
  datatype ParseState = ParseState(decl: Option<Word>, fns: seq<ParsedFunction>, mods: seq<Word>)

  datatype Step = Continue(next: nat, state: ParseState) | Stop(error: ParseError)

  /** One pass of the `parse` loop on the item starting at `i`. */
  function StepAt(tokens: seq<Token>, i: nat, st: ParseState): (s: Step)
    requires i < |tokens|
    ensures s.Continue? ==> i < s.next <= |tokens|
  {
    var token := tokens[i];
    match token
    case LineBreakToken(_) => Continue(i + 1, st)
    case WordToken(word) =>
      if IsModifier(word.value) then
        Continue(i + 1, st.(mods := st.mods + [word]))
      else if word.value == "datapack" then
        match IdentAt(tokens, i + 1)
        case Err(e) => Stop(e)
        case Ok(name) =>
          match LineBreakAt(tokens, i + 2)
          case Err(e) => Stop(e)
          case Ok(_) => Continue(i + 2, st.(decl := Some(name)))
      else if word.value == "fn" then
        if st.decl.None? then Stop(Illegal(token, MustDeclareDatapack, Some(DatapackHelp)))
        else
          match IdentAt(tokens, i + 1)
          case Err(e) => Stop(e)
          case Ok(name) =>
            if i + 2 >= |tokens| then Stop(OutOfTokens(i + 2))
            else if tokens[i + 2].BlockToken? then
              Continue(i + 3, st.(fns := st.fns + [ParsedFunction(name, st.mods, tokens[i + 2].block)], mods := []))
            else Stop(Illegal(tokens[i + 2], ExpectedBlock, None))
      else Stop(Illegal(token, ExpectedItem, None))
    case _ => Stop(Illegal(token, ExpectedItem, None))
  }

  /** `parse` from position `i` in state `st`. */
  function ParseFrom(tokens: seq<Token>, i: nat, st: ParseState): (r: Result<ParseState, ParseError>)
    ensures r.Ok? ==> st.fns <= r.value.fns
    decreases |tokens| - i
  {
    if i >= |tokens| then Ok(st)
    else match StepAt(tokens, i, st)
      case Stop(e) => Err(e)
      case Continue(j, st') =>
        StepShape(tokens, i, st);
        ParseFrom(tokens, j, st')
  }

  // ---------------------------------------------------------------------
  // What a parse produces.

  /** The blocks among the tokens from `i` on, in order. */
  function BlocksFrom(tokens: seq<Token>, i: nat): seq<Block>
    decreases |tokens| - i
  {
    if i >= |tokens| then []
    else (if tokens[i].BlockToken? then [tokens[i].block] else []) + BlocksFrom(tokens, i + 1)
  }

  function FnBlocks(fns: seq<ParsedFunction>): seq<Block> {
    if fns == [] then [] else FnBlocks(fns[..|fns| - 1]) + [fns[|fns| - 1].block]
  }

  lemma FnBlocksAppend(fns: seq<ParsedFunction>, f: ParsedFunction)
    ensures FnBlocks(fns + [f]) == FnBlocks(fns) + [f.block]
  {
    assert (fns + [f])[..|fns|] == fns;
  }

  lemma BlocksFromSkip(tokens: seq<Token>, i: nat, j: nat)
    requires i <= j <= |tokens|
    requires forall k :: i <= k < j ==> !tokens[k].BlockToken?
    ensures BlocksFrom(tokens, i) == BlocksFrom(tokens, j)
    decreases j - i
  {
    if i < j {
      BlocksFromSkip(tokens, i + 1, j);
    }
  }

  /** A step either records no function and passes over no block, or
      records one function whose body is the block two tokens on. */
  lemma StepShape(tokens: seq<Token>, i: nat, st: ParseState)
    requires i < |tokens| && StepAt(tokens, i, st).Continue?
    ensures var s := StepAt(tokens, i, st);
      (s.state.fns == st.fns && forall k :: i <= k < s.next ==> !tokens[k].BlockToken?)
      || (s.next == i + 3 && !tokens[i].BlockToken? && tokens[i + 1].WordToken? && tokens[i + 2].BlockToken?
          && s.state.fns == st.fns + [ParsedFunction(tokens[i + 1].word, st.mods, tokens[i + 2].block)])
  {
  }

  /** A step that records one function takes up the block two tokens on,
      and no other. */
  lemma BlockTaken(tokens: seq<Token>, i: nat, fns: seq<ParsedFunction>, f: ParsedFunction)
    requires i + 3 <= |tokens| && !tokens[i].BlockToken? && !tokens[i + 1].BlockToken?
    requires tokens[i + 2].BlockToken? && f.block == tokens[i + 2].block
    ensures FnBlocks(fns + [f]) + BlocksFrom(tokens, i + 3) == FnBlocks(fns) + BlocksFrom(tokens, i)
  {
    FnBlocksAppend(fns, f);
    BlocksFromSkip(tokens, i, i + 2);
    BlocksFromBlock(tokens, i + 2);
    ConcatAssoc(FnBlocks(fns), [f.block], BlocksFrom(tokens, i + 3));
  }

  lemma BlocksFromBlock(tokens: seq<Token>, j: nat)
    requires j < |tokens| && tokens[j].BlockToken?
    ensures BlocksFrom(tokens, j) == [tokens[j].block] + BlocksFrom(tokens, j + 1)
  {
  }

  /** A step takes up exactly the blocks it adds to the functions. */
  lemma StepBlocks(tokens: seq<Token>, i: nat, st: ParseState)
    requires i < |tokens| && StepAt(tokens, i, st).Continue?
    ensures var s := StepAt(tokens, i, st);
      FnBlocks(s.state.fns) + BlocksFrom(tokens, s.next) == FnBlocks(st.fns) + BlocksFrom(tokens, i)
  {
    var s := StepAt(tokens, i, st);
    StepShape(tokens, i, st);
    if s.state.fns == st.fns && forall k :: i <= k < s.next ==> !tokens[k].BlockToken? {
      BlocksFromSkip(tokens, i, s.next);
    } else {
      BlockTaken(tokens, i, st.fns, ParsedFunction(tokens[i + 1].word, st.mods, tokens[i + 2].block));
    }
  }

  /** A successful parse turns every top-level block, in order, into the
      body of one parsed function: no block is dropped and no function is
      made up. */
  lemma {:induction false} ParseBlocks(tokens: seq<Token>, i: nat, st: ParseState)
    requires ParseFrom(tokens, i, st).Ok?
    ensures FnBlocks(ParseFrom(tokens, i, st).value.fns) == FnBlocks(st.fns) + BlocksFrom(tokens, i)
    decreases |tokens| - i
  {
    if i < |tokens| {
      var s := StepAt(tokens, i, st);
      StepBlocks(tokens, i, st);
      ParseBlocks(tokens, s.next, s.state);
    }
  }

  lemma {:induction false} FnBlocksLength(fns: seq<ParsedFunction>)
    ensures |FnBlocks(fns)| == |fns|
  {
    if fns != [] {
      FnBlocksLength(fns[..|fns| - 1]);
    }
  }

  /** So a successful parse adds one function per top-level block. */
  lemma ParseCount(tokens: seq<Token>, i: nat, st: ParseState)
    requires ParseFrom(tokens, i, st).Ok?
    ensures |ParseFrom(tokens, i, st).value.fns| == |st.fns| + |BlocksFrom(tokens, i)|
  {
    ParseBlocks(tokens, i, st);
    FnBlocksLength(ParseFrom(tokens, i, st).value.fns);
    FnBlocksLength(st.fns);
  }

  /** The shape every reachable state has: once named, the datapack stays
      named; functions exist only after it is named; pending and recorded
      modifiers are modifier words. */
  predicate Consistent(st: ParseState) {
    (st.fns != [] ==> st.decl.Some?)
    && (forall k :: 0 <= k < |st.mods| ==> IsModifier(st.mods[k].value))
    && (forall f :: f in st.fns ==> forall k :: 0 <= k < |f.mods| ==> IsModifier(f.mods[k].value))
  }

  lemma StepConsistent(tokens: seq<Token>, i: nat, st: ParseState)
    requires i < |tokens| && Consistent(st) && StepAt(tokens, i, st).Continue?
    ensures var s := StepAt(tokens, i, st);
      Consistent(s.state) && |s.state.fns| >= |st.fns| && (st.decl.Some? ==> s.state.decl.Some?)
  {
  }

  /** A successful parse keeps the state consistent, never forgets the
      datapack name, and adds functions only when a datapack was named. */
  lemma {:induction false} ParseConsistent(tokens: seq<Token>, i: nat, st: ParseState)
    requires Consistent(st) && ParseFrom(tokens, i, st).Ok?
    ensures var st' := ParseFrom(tokens, i, st).value;
      Consistent(st') && (st.decl.Some? ==> st'.decl.Some?)
      && (|st'.fns| > |st.fns| ==> st'.decl.Some?)
    decreases |tokens| - i
  {
    if i < |tokens| {
      var s := StepAt(tokens, i, st);
      StepConsistent(tokens, i, st);
      ParseConsistent(tokens, s.next, s.state);
    }
  }

  /** `fn` before any `datapack` is rejected at the `fn`, with the help
      suggestion for line 1. */
  lemma FnBeforeDatapack(tokens: seq<Token>, i: nat, st: ParseState)
    requires i < |tokens| && tokens[i].WordToken? && tokens[i].word.value == "fn" && st.decl.None?
    ensures ParseFrom(tokens, i, st) == Err(Illegal(tokens[i], MustDeclareDatapack, Some(DatapackHelp)))
  {
    assert !IsModifier("fn");
  }

  /** Line breaks between items are skipped. */
  lemma LineBreaksSkipped(tokens: seq<Token>, i: nat, st: ParseState)
    requires i < |tokens| && tokens[i].LineBreakToken?
    ensures ParseFrom(tokens, i, st) == ParseFrom(tokens, i + 1, st)
  {
  }

  /** A later `datapack` line replaces the name an earlier one gave. */
  lemma DatapackOverwrites(f: SourceFile, a: Word, b: Word, s1: Scope, s2: Scope, l1: Scope, l2: Scope)
    ensures var tokens := [WordToken(Word("datapack", s1)), WordToken(a), LineBreakToken(LineBreak(l1)),
                           WordToken(Word("datapack", s2)), WordToken(b), LineBreakToken(LineBreak(l2))];
      ParseFrom(tokens, 0, ParseState(None, [], [])) == Ok(ParseState(Some(b), [], []))
  {
    var tokens := [WordToken(Word("datapack", s1)), WordToken(a), LineBreakToken(LineBreak(l1)),
                   WordToken(Word("datapack", s2)), WordToken(b), LineBreakToken(LineBreak(l2))];
    assert !IsModifier("datapack");
    assert StepAt(tokens, 0, ParseState(None, [], [])) == Continue(2, ParseState(Some(a), [], []));
    assert StepAt(tokens, 2, ParseState(Some(a), [], [])) == Continue(3, ParseState(Some(a), [], []));
    assert StepAt(tokens, 3, ParseState(Some(a), [], [])) == Continue(5, ParseState(Some(b), [], []));
    assert StepAt(tokens, 5, ParseState(Some(b), [], [])) == Continue(6, ParseState(Some(b), [], []));
    assert ParseFrom(tokens, 5, ParseState(Some(b), [], [])) == Ok(ParseState(Some(b), [], []));
    assert ParseFrom(tokens, 3, ParseState(Some(a), [], [])) == Ok(ParseState(Some(b), [], []));
    assert ParseFrom(tokens, 2, ParseState(Some(a), [], [])) == Ok(ParseState(Some(b), [], []));
  }

  /** Modifiers go to the next function only: `inline fn f {...} fn g {...}`
      gives `f` the modifier and `g` none. */
  lemma ModifiersGoToNextFunction(d: Word, m: Word, f: Word, g: Word, kf: Scope, kg: Scope, bf: Block, bg: Block)
    requires m.value == "inline"
    ensures var tokens := [WordToken(m), WordToken(Word("fn", kf)), WordToken(f), BlockToken(bf),
                           WordToken(Word("fn", kg)), WordToken(g), BlockToken(bg)];
      ParseFrom(tokens, 0, ParseState(Some(d), [], []))
        == Ok(ParseState(Some(d), [ParsedFunction(f, [m], bf), ParsedFunction(g, [], bg)], []))
  {
    var tokens := [WordToken(m), WordToken(Word("fn", kf)), WordToken(f), BlockToken(bf),
                   WordToken(Word("fn", kg)), WordToken(g), BlockToken(bg)];
    assert !IsModifier("fn");
    var st1 := ParseState(Some(d), [], [m]);
    var st2 := ParseState(Some(d), [ParsedFunction(f, [m], bf)], []);
    var st3 := ParseState(Some(d), [ParsedFunction(f, [m], bf), ParsedFunction(g, [], bg)], []);
    assert StepAt(tokens, 0, ParseState(Some(d), [], [])) == Continue(1, st1);
    assert StepAt(tokens, 1, st1) == Continue(4, st2);
    assert StepAt(tokens, 4, st2) == Continue(7, st3);
    assert ParseFrom(tokens, 4, st2) == Ok(st3);
    assert ParseFrom(tokens, 1, st1) == Ok(st3);
  }

  /** A `datapack <name>` line sets the datapack name, whatever it was,
      and keeps the functions and the pending modifiers. */
  lemma DatapackItem(tokens: seq<Token>, i: nat, st: ParseState)
    requires i + 2 < |tokens| && tokens[i].WordToken? && tokens[i].word.value == "datapack"
    requires tokens[i + 1].WordToken? && tokens[i + 2].LineBreakToken?
    ensures ParseFrom(tokens, i, st) == ParseFrom(tokens, i + 3, st.(decl := Some(tokens[i + 1].word)))
  {
    assert !IsModifier("datapack");
    LineBreaksSkipped(tokens, i + 2, st.(decl := Some(tokens[i + 1].word)));
  }

  /** A token that starts no item stops the parse with "expected item
      declaration" at that token. */
  lemma ExpectedItemAt(tokens: seq<Token>, i: nat, st: ParseState)
    requires i < |tokens| && !tokens[i].LineBreakToken?
    requires tokens[i].WordToken? ==>
               !IsModifier(tokens[i].word.value) && tokens[i].word.value != "datapack" && tokens[i].word.value != "fn"
    ensures ParseFrom(tokens, i, st) == Err(Illegal(tokens[i], ExpectedItem, None))
  {
  }

  /** The modifier words among `ts`, in order. */
  function Modifiers(ts: seq<Token>): seq<Word> {
    if ts == [] then []
    else (if ts[0].WordToken? && IsModifier(ts[0].word.value) then [ts[0].word] else []) + Modifiers(ts[1..])
  }

  /** Modifier words and line breaks, then `fn <name> {...}`: the function
      gets the pending modifiers followed by the modifier words of the run,
      in order, and the parse goes on after the block with none pending. */
  lemma {:induction false} ModifiersThenFn(tokens: seq<Token>, i: nat, j: nat, st: ParseState)
    requires i <= j && j + 2 < |tokens| && st.decl.Some?
    requires forall k :: i <= k < j ==>
               tokens[k].LineBreakToken? || (tokens[k].WordToken? && IsModifier(tokens[k].word.value))
    requires tokens[j].WordToken? && tokens[j].word.value == "fn"
    requires tokens[j + 1].WordToken? && tokens[j + 2].BlockToken?
    ensures ParseFrom(tokens, i, st)
              == ParseFrom(tokens, j + 3, st.(fns := st.fns + [ParsedFunction(tokens[j + 1].word, st.mods + Modifiers(tokens[i..j]), tokens[j + 2].block)], mods := []))
    decreases j - i
  {
    assert !IsModifier("fn");
    if i == j {
      assert tokens[i..j] == [];
      assert st.mods + [] == st.mods;
    } else {
      var head: seq<Word> := if tokens[i].WordToken? then [tokens[i].word] else [];
      var st' := st.(mods := st.mods + head);
      assert StepAt(tokens, i, st) == Continue(i + 1, st');
      ModifiersThenFn(tokens, i + 1, j, st');
      assert tokens[i..j][1..] == tokens[i + 1..j];
      assert Modifiers(tokens[i..j]) == head + Modifiers(tokens[i + 1..j]);
      ConcatAssoc(st.mods, head, Modifiers(tokens[i + 1..j]));
    }
  }

  /** The positions at which the passes of the `parse` loop start, from
      `i` on; the last one is where it stops, if it does. */
  function Passes(tokens: seq<Token>, i: nat, st: ParseState): seq<nat>
    decreases |tokens| - i
  {
    if i >= |tokens| then []
    else match StepAt(tokens, i, st)
      case Stop(_) => [i]
      case Continue(j, st') => [i] + Passes(tokens, j, st')
  }

  /** A pass at `p` reads the item `datapack <name>`. */
  predicate IsDatapackItem(tokens: seq<Token>, p: nat) {
    p + 1 < |tokens| && tokens[p].WordToken? && tokens[p].word.value == "datapack" && tokens[p + 1].WordToken?
  }

  /** The name given by the last `datapack` item among the passes, or
      `decl` when there is none. */
  function LastDatapack(tokens: seq<Token>, passes: seq<nat>, decl: Option<Word>): Option<Word>
    decreases |passes|
  {
    if passes == [] then decl
    else if IsDatapackItem(tokens, passes[|passes| - 1]) then Some(tokens[passes[|passes| - 1] + 1].word)
    else LastDatapack(tokens, passes[..|passes| - 1], decl)
  }

  /** Looking for the last `datapack` item, a first pass only matters when
      none follows it. */
  lemma {:induction false} LastDatapackCons(tokens: seq<Token>, p: nat, passes: seq<nat>, decl: Option<Word>)
    ensures LastDatapack(tokens, [p] + passes, decl)
              == LastDatapack(tokens, passes, if IsDatapackItem(tokens, p) then Some(tokens[p + 1].word) else decl)
    decreases |passes|
  {
    if passes == [] {
      assert ([p] + passes)[..0] == [];
    } else {
      var n := |passes|;
      assert ([p] + passes)[n] == passes[n - 1];
      assert ([p] + passes)[..n] == [p] + passes[..n - 1];
      LastDatapackCons(tokens, p, passes[..n - 1], decl);
    }
  }

  /** After a successful parse, the datapack name is the one the last
      `datapack` item gave, or the starting one when there is none. */
  lemma {:induction false} FinalDatapack(tokens: seq<Token>, i: nat, st: ParseState)
    requires ParseFrom(tokens, i, st).Ok?
    ensures ParseFrom(tokens, i, st).value.decl == LastDatapack(tokens, Passes(tokens, i, st), st.decl)
    decreases |tokens| - i
  {
    if i < |tokens| {
      match StepAt(tokens, i, st)
      case Stop(_) =>
      case Continue(j, st') =>
        assert !IsModifier("datapack");
        assert st'.decl == if IsDatapackItem(tokens, i) then Some(tokens[i + 1].word) else st.decl;
        FinalDatapack(tokens, j, st');
        LastDatapackCons(tokens, i, Passes(tokens, j, st'), st.decl);
    }
  }

  // ---------------------------------------------------------------------
  // The parser object.

  class Parser {
    const tokens: seq<Token>
    const size: nat
    var index: nat
    var datapackNameDecl: Option<Word>
    var parsedFunctions: seq<ParsedFunction>

    ghost predicate Valid()
      reads this
    {
      size == |tokens| && index <= size
    }

    /** `Parser::new`. */
    constructor (tokens: seq<Token>)
      ensures Valid() && this.tokens == tokens && index == 0
      ensures datapackNameDecl == None && parsedFunctions == []
    {
      this.tokens := tokens;
      size := |tokens|;
      index := 0;
      datapackNameDecl := None;
      parsedFunctions := [];
    }

    /** `next_ident`: the token under the cursor, which must be a word;
        the cursor moves past it either way. */
    method NextIdent() returns (r: Result<Word, ParseError>)
      requires Valid()
      modifies this`index
      ensures Valid() && r == IdentAt(tokens, old(index))
      ensures index == if old(index) < size then old(index) + 1 else old(index)
    {
      if index >= size {
        return Err(OutOfTokens(index));
      }
      var token := tokens[index];
      index := index + 1;
      match token
      case WordToken(word) => return Ok(word);
      case _ => return Err(Illegal(token, ExpectedIdentifier, None));
    }

    /** `next_token`: the token under the cursor. */
    method NextToken() returns (r: Result<Token, ParseError>)
      requires Valid()
      modifies this`index
      ensures Valid()
      ensures old(index) < size ==> r == Ok(tokens[old(index)]) && index == old(index) + 1
      ensures old(index) >= size ==> r == Err(OutOfTokens(old(index))) && index == old(index)
    {
      if index >= size {
        return Err(OutOfTokens(index));
      }
      var token := tokens[index];
      index := index + 1;
      return Ok(token);
    }

    /** `expect_line_break`: the token under the cursor must be a line
        break; it is not consumed. */
    method ExpectLineBreak() returns (r: Result<(), ParseError>)
      requires Valid()
      ensures r == LineBreakAt(tokens, index)
    {
      if index >= size {
        return Err(OutOfTokens(index));
      }
      var next := tokens[index];
      if next.LineBreakToken? {
        return Ok(());
      }
      return Err(Illegal(next, ExpectedEndOfLine, None));
    }

    /** `parse`: reads items until the tokens run out. The outcome, the
        datapack name and the parsed functions are those of `ParseFrom`
        started with no pending modifiers. */
    method Parse() returns (r: Result<(), ParseError>)
      requires Valid()
      modifies this`index, this`datapackNameDecl, this`parsedFunctions
      ensures Valid()
      ensures var spec := ParseFrom(tokens, old(index), ParseState(old(datapackNameDecl), old(parsedFunctions), []));
        (r.Ok? <==> spec.Ok?)
        && (r.Err? ==> r.error == spec.error)
        && (r.Ok? ==> index == size && datapackNameDecl == spec.value.decl && parsedFunctions == spec.value.fns)
    {
      ghost var spec := ParseFrom(tokens, old(index), ParseState(old(datapackNameDecl), old(parsedFunctions), []));
      var mods: seq<Word> := [];

      while index < size
        invariant Valid()
        invariant ParseFrom(tokens, index, ParseState(datapackNameDecl, parsedFunctions, mods)) == spec
        decreases size - index
      {
        ghost var i := index;
        ghost var st := ParseState(datapackNameDecl, parsedFunctions, mods);
        var next := NextToken();
        var token := next.value;

        if token.WordToken? {
          var word := token.word;
          var value := word.value;
          if IsModifier(value) {
            mods := mods + [word];
          } else if value == "datapack" {
            var name := NextIdent();
            if name.Err? {
              return Err(name.error);
            }
            datapackNameDecl := Some(name.value);
            var lineBreak := ExpectLineBreak();
            if lineBreak.Err? {
              return Err(lineBreak.error);
            }
          } else if value == "fn" {
            if datapackNameDecl.None? {
              return Err(Illegal(token, MustDeclareDatapack, Some(DatapackHelp)));
            }
            var name := NextIdent();
            if name.Err? {
              return Err(name.error);
            }
            var after := NextToken();
            if after.Err? {
              return Err(after.error);
            }
            if !after.value.BlockToken? {
              return Err(Illegal(after.value, ExpectedBlock, None));
            }
            parsedFunctions := parsedFunctions + [ParsedFunction(name.value, mods, after.value.block)];
            mods := [];
          } else {
            return Err(Illegal(token, ExpectedItem, None));
          }
        } else if !token.LineBreakToken? {
          return Err(Illegal(token, ExpectedItem, None));
        }
        assert StepAt(tokens, i, st) == Continue(index, ParseState(datapackNameDecl, parsedFunctions, mods));
      }
      return Ok(());
    }
  }

  // ---------------------------------------------------------------------
  // `elems_to_string` and the display of a parsed function.

  /** The list format of `elems_to_string`: the items joined by ", "
      between brackets. */
  function ListString(items: seq<string>): string {
    "[" + Join(items, ", ") + "]"
  }

  function MapStrings<T>(xs: seq<T>, f: T -> string): (ys: seq<string>)
    ensures |ys| == |xs| && forall k :: 0 <= k < |xs| ==> ys[k] == f(xs[k])
  {
    if xs == [] then [] else MapStrings(xs[..|xs| - 1], f) + [f(xs[|xs| - 1])]
  }

  lemma {:induction false} JoinAppend(xs: seq<string>, x: string, sep: string)
    requires xs != []
    ensures Join(xs + [x], sep) == Join(xs, sep) + sep + x
    decreases |xs|
  {
    if |xs| == 1 {
      assert (xs + [x])[1..] == [x];
    } else {
      assert (xs + [x])[1..] == xs[1..] + [x];
      JoinAppend(xs[1..], x, sep);
    }
  }

  /** `elems_to_string`: the first item, then ", " and each further item,
      between brackets. */
  method ElemsToString<T>(vec: seq<T>, toString: T -> string) returns (s: string)
    ensures s == ListString(MapStrings(vec, toString))
  {
    var text := "[";
    if vec != [] {
      text := text + toString(vec[0]);
    }
    var i := 1;
    while i < |vec|
      invariant 1 <= i && (vec != [] ==> i <= |vec|)
      invariant text == "[" + Join(MapStrings(vec[..if vec == [] then 0 else i], toString), ", ")
    {
      JoinAppend(MapStrings(vec[..i], toString), toString(vec[i]), ", ");
      assert vec[..i + 1][..i] == vec[..i];
      text := text + ", " + toString(vec[i]);
      i := i + 1;
    }
    if vec != [] {
      assert vec[..i] == vec;
    }
    s := text + "]";
  }

  function WordValue(w: Word): string {
    w.value
  }

  /** `Display for ParsedFunction`: its modifiers as a list, then
      " function " and its name. */
  function Display(f: ParsedFunction): string {
    ListString(MapStrings(f.mods, WordValue)) + " function " + f.name.value
  }

  // ---------------------------------------------------------------------
  // Reading a list back.

  predicate CommaFree(s: string) {
    forall k :: 0 <= k < |s| ==> s[k] != ','
  }

  function IndexOfComma(s: string): (r: Option<nat>)
    ensures r.Some? ==> r.value < |s| && s[r.value] == ',' && CommaFree(s[..r.value])
    ensures r.None? ==> CommaFree(s)
  {
    if s == [] then None
    else if s[0] == ',' then Some(0)
    else match IndexOfComma(s[1..])
      case None => None
      case Some(k) => Some(k + 1)
  }

  /** Splits at each ", " (a comma not followed by a blank ends the
      text). */
  function SplitItems(s: string): seq<string>
    decreases |s|
  {
    match IndexOfComma(s)
    case None => [s]
    case Some(k) => if k + 2 <= |s| then [s[..k]] + SplitItems(s[k + 2..]) else [s]
  }

  /** Reads a list's text back: nothing for empty text, else its items. */
  function ReadList(s: string): seq<string> {
    if s == "" then [] else SplitItems(s)
  }

  lemma IndexOfCommaPrefix(x: string, rest: string)
    requires CommaFree(x)
    ensures IndexOfComma(x + ", " + rest) == Some(|x|)
    decreases |x|
  {
    if x != [] {
      assert (x + ", " + rest)[1..] == x[1..] + ", " + rest;
      IndexOfCommaPrefix(x[1..], rest);
    }
  }

  lemma {:induction false} NoCommaFound(s: string)
    requires CommaFree(s)
    ensures IndexOfComma(s) == None
    decreases |s|
  {
    if s != [] {
      assert s[0] != ',';
      NoCommaFound(s[1..]);
    }
  }

  /** Joining items without commas by ", " and splitting the result gives
      the items back. */
  lemma {:induction false} SplitJoin(xs: seq<string>)
    requires xs != [] && forall k :: 0 <= k < |xs| ==> CommaFree(xs[k])
    ensures SplitItems(Join(xs, ", ")) == xs
    decreases |xs|
  {
    if |xs| == 1 {
      NoCommaFound(xs[0]);
    } else {
      var rest := Join(xs[1..], ", ");
      var s := xs[0] + ", " + rest;
      IndexOfCommaPrefix(xs[0], rest);
      assert s[..|xs[0]|] == xs[0];
      assert s[|xs[0]| + 2..] == rest;
      SplitJoin(xs[1..]);
      assert xs == [xs[0]] + xs[1..];
    }
  }

  /** The modifier list in a function's display reads back as its
      modifiers: the text between the brackets splits into their words,
      and is empty when there are none. */
  lemma DisplayedModifiers(f: ParsedFunction)
    requires forall k :: 0 <= k < |f.mods| ==> IsModifier(f.mods[k].value)
    ensures var shown := ListString(MapStrings(f.mods, WordValue));
      Display(f) == shown + " function " + f.name.value
      && shown[0] == '[' && shown[|shown| - 1] == ']'
      && ReadList(shown[1..|shown| - 1]) == MapStrings(f.mods, WordValue)
  {
    var items := MapStrings(f.mods, WordValue);
    var joined := Join(items, ", ");
    DropPrefix("[", joined + "]");
    DropPrefix(joined, "]");
    assert ListString(items)[1..|ListString(items)| - 1] == joined;
    if items != [] {
      forall k | 0 <= k < |items|
        ensures CommaFree(items[k]) && items[k] != ""
      {
        ModifierWord(f.mods[k].value);
      }
      assert |joined| >= |items[0]| > 0;
      SplitJoin(items);
    }
  }

  /** A modifier word is non-empty and holds no comma. */
  lemma ModifierWord(value: string)
    requires IsModifier(value)
    ensures value != "" && CommaFree(value)
  {
  }
}
