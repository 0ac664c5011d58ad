/** The tokenizer: a cursor over the source characters (with one sentinel
    line break appended) that emits words, symbols and line breaks and
    recurses into `{...}` blocks and comma-split `(...)` groups. The
    original aborts the process on a rogue closing brace or an unterminated
    construct; here those paths return a `LexError`. */
module Lexer {
  import opened Wrappers
  import opened Tokens
  import opened LexSpec

  class Lexer {
    const sourceFile: SourceFile
    const chars: seq<char>
    const size: nat
    var index: nat
    var tokens: seq<Token>

    /** `chars` ends with the sentinel line break (the constructor puts the
        source before it), and the cursor never passes the sentinel. */
    ghost predicate Valid()
      reads this
    {
      size == |chars| && 0 < size && chars[size - 1] == '\n' && index < size
    }

    /** `Lexer::new`. */
    constructor (sourceFile: SourceFile)
      ensures Valid()
      ensures this.sourceFile == sourceFile && chars == sourceFile.source + ['\n']
      ensures size == |sourceFile.source| + 1 && index == 0 && tokens == []
    {
      this.sourceFile := sourceFile;
      chars := sourceFile.source + ['\n'];
      size := |sourceFile.source| + 1;
      index := 0;
      tokens := [];
    }

    /** `new_scope`: a range of this lexer's source file. */
    function NewScope(start: nat, end: nat): (s: Scope)
      ensures s.file == sourceFile && s.start == start && s.end == end
    {
      Scope(sourceFile, start, end)
    }

    /** `lex`: reads tokens until only the sentinel is left. On success the
        new tokens tile everything before the sentinel. */
    method Lex() returns (r: Result<(), LexError>)
      requires Valid()
      modifies this
      ensures Valid() && |tokens| >= |old(tokens)| && tokens[..|old(tokens)|] == old(tokens)
      ensures r.Ok? ==> index == size - 1 && TokensWF(tokens[|old(tokens)|..], sourceFile, chars, old(index), size - 1)
      ensures r.Err? ==> LexErrorWF(r.error, sourceFile, chars, old(index))
      ensures r.Ok? <==> Tileable(sourceFile, chars, old(index), size - 1)
    {
      ghost var produced: seq<Token> := [];
      while index + 1 < size
        invariant Valid() && old(index) <= index
        invariant tokens == old(tokens) + produced
        invariant TokensWF(produced, sourceFile, chars, old(index), index)
        decreases size - index
      {
        var c := chars[index];
        if c != ' ' {
          var before := index;
          var word := Next();
          if word.Err? {
            ErrorAtTop(word.error, sourceFile, chars, old(index), produced, before, size - 1);
            return Err(word.error);
          }
          TokensAppend(produced, word.value, sourceFile, chars, old(index), before);
          produced := produced + [word.value];
          tokens := tokens + [word.value];
        } else {
          var before := index;
          SkipWhitespace();
          TokensExtend(produced, sourceFile, chars, old(index), before, index);
        }
      }
      assert tokens[|old(tokens)|..] == produced;
      return Ok(());
    }

    /** `next`: one token starting at the cursor, which must not be on a
        space. Always consumes at least one character. */
    method Next() returns (r: Result<Token, LexError>)
      requires Valid() && index + 1 < size && chars[index] != ' '
      modifies this`index
      ensures Valid()
      ensures r.Ok? ==> old(index) < index && Start(r.value) == old(index) && End(r.value) == index
      ensures r.Ok? ==> TokenWF(r.value, sourceFile, chars)
      ensures r.Err? ==> ErrorWF(r.error, sourceFile, chars, old(index)) && NoTokenAt(sourceFile, chars, old(index))
      ensures chars[old(index)] == '}' || chars[old(index)] == ')' ==>
                r == Err(RogueClosingBrace(Symbol(chars[old(index)], NewScope(old(index), old(index) + 1))))
      decreases size - index, 1
    {
      var start := index;
      var end := start;
      var first := chars[index];

      if first == '{' {
        r := NextBlock();
        return;
      }
      if first == '(' {
        r := NextGroup();
        return;
      }
      if first == '}' || first == ')' {
        var rogue := NextSymbol();
        CloserNoToken(sourceFile, chars, start);
        return Err(RogueClosingBrace(rogue));
      }
      if first == '\n' {
        index := index + 1;
        return Ok(NewLineBreak(NewScope(start, end + 1)));
      }
      if IsSepChar(first) {
        index := index + 1;
        return Ok(NewSymbol(first, NewScope(start, end + 1)));
      }

      var out: string := "";
      while index < size
        invariant Valid() && start <= index && end == index
        invariant out == chars[start..index]
        invariant forall k :: 0 <= k < |out| ==> IsWordChar(out[k])
        decreases size - index
      {
        var c := chars[index];
        if c == '\n' || IsSepChar(c) || c == ' ' {
          break;
        }
        out := out + [c];
        index := index + 1;
        end := end + 1;
      }
      return Ok(NewWord(out, NewScope(start, end)));
    }

    /** `next_symbol`: the character under the cursor as a one-character
        symbol. */
    method NextSymbol() returns (sym: Symbol)
      requires Valid() && index + 1 < size
      modifies this`index
      ensures Valid() && index == old(index) + 1
      ensures sym == Symbol(chars[old(index)], NewScope(old(index), old(index) + 1))
    {
      sym := Symbol(chars[index], NewScope(index, index + 1));
      index := index + 1;
    }

    /** `next_group` (called with ',' and ')'): elements are closed by each
        comma, empty or not; `)` adds a final element only when tokens are
        pending. Running out of input is a missing closing brace anchored
        at the opening `(`. */
    method NextGroup() returns (r: Result<Token, LexError>)
      requires Valid() && index + 1 < size && chars[index] == '('
      modifies this`index
      ensures Valid()
      ensures r.Ok? ==> old(index) < index && r.value.GroupToken? && Start(r.value) == old(index) && End(r.value) == index
      ensures r.Ok? ==> TokenWF(r.value, sourceFile, chars)
      ensures r.Err? ==> ErrorWF(r.error, sourceFile, chars, old(index)) && NoTokenAt(sourceFile, chars, old(index))
      decreases size - index, 0
    {
      var opening := NextSymbol();
      var elems: seq<GroupElem> := [];
      var tokens: seq<Token> := [];
      ghost var elemStart := index;
      GroupOpen(sourceFile, chars, index);

      while index + 1 < size
        invariant Valid() && old(index) < index
        invariant opening == Symbol('(', NewScope(old(index), old(index) + 1))
        invariant old(index) + 1 <= elemStart <= index
        invariant GroupSoFar(elems, tokens, sourceFile, chars, old(index) + 1, elemStart, index)
        decreases size - index
      {
        var c := chars[index];
        if c == ')' {
          var closing := NextSymbol();
          GroupClose(opening, closing, elems, tokens, sourceFile, chars, elemStart);
          if tokens != [] {
            elems := elems + [GroupElem(tokens, None)];
          }
          return Ok(NewGroup(opening, closing, elems));
        }
        if c == ',' {
          var sep := NextSymbol();
          GroupSeparate(elems, tokens, sep, sourceFile, chars, old(index) + 1, elemStart);
          elems := elems + [GroupElem(tokens, Some(sep))];
          tokens := [];
          elemStart := index;
        } else if c != ' ' {
          var before := index;
          var word := Next();
          if word.Err? {
            GroupFlat(elems, tokens, sourceFile, chars, old(index) + 1, elemStart, before);
            ErrorInside(word.error, sourceFile, chars, old(index), Flatten(elems) + tokens, before);
            return Err(word.error);
          }
          GroupGrow(elems, tokens, word.value, sourceFile, chars, old(index) + 1, elemStart);
          tokens := tokens + [word.value];
        } else {
          var before := index;
          SkipWhitespace();
          GroupSkip(elems, tokens, sourceFile, chars, old(index) + 1, elemStart, before, index);
        }
      }
      GroupFlat(elems, tokens, sourceFile, chars, old(index) + 1, elemStart, index);
      MissingAtEnd(sourceFile, chars, opening, Flatten(elems) + tokens, index);
      return Err(MissingClosingBrace(opening.scope, index));
    }

    /** `next_block`: tokens up to the matching `}`. Running out of input
        is a missing closing brace anchored at the opening `{`. */
    method NextBlock() returns (r: Result<Token, LexError>)
      requires Valid() && index + 1 < size && chars[index] == '{'
      modifies this`index
      ensures Valid()
      ensures r.Ok? ==> old(index) < index && r.value.BlockToken? && Start(r.value) == old(index) && End(r.value) == index
      ensures r.Ok? ==> TokenWF(r.value, sourceFile, chars)
      ensures r.Err? ==> ErrorWF(r.error, sourceFile, chars, old(index)) && NoTokenAt(sourceFile, chars, old(index))
      decreases size - index, 0
    {
      var opening := NextSymbol();
      var tokens: seq<Token> := [];

      while index + 1 < size
        invariant Valid() && old(index) < index
        invariant opening == Symbol('{', NewScope(old(index), old(index) + 1))
        invariant TokensWF(tokens, sourceFile, chars, old(index) + 1, index)
        decreases size - index
      {
        var c := chars[index];
        if c == '}' {
          var closing := NextSymbol();
          BlockWF(opening, closing, tokens, sourceFile, chars);
          var block := NewBlock(opening, closing, tokens);
          return Ok(block);
        }
        if c != ' ' {
          var before := index;
          var word := Next();
          if word.Err? {
            ErrorInside(word.error, sourceFile, chars, old(index), tokens, before);
            return Err(word.error);
          }
          TokensAppend(tokens, word.value, sourceFile, chars, old(index) + 1, before);
          tokens := tokens + [word.value];
        } else {
          var before := index;
          SkipWhitespace();
          TokensExtend(tokens, sourceFile, chars, old(index) + 1, before, index);
        }
      }
      MissingAtEnd(sourceFile, chars, opening, tokens, index);
      return Err(MissingClosingBrace(opening.scope, index));
    }

    /** `skip_whitespace`: moves past a run of spaces, stopping before the
        sentinel. */
    method SkipWhitespace()
      requires Valid()
      modifies this`index
      ensures Valid() && old(index) <= index && Spaces(chars, old(index), index)
      ensures chars[index] != ' ' || index + 1 == size
      ensures chars[old(index)] == ' ' && old(index) + 1 < size ==> old(index) < index
    {
      var c := chars[index];
      while c == ' ' && index + 1 < size
        invariant Valid() && old(index) <= index && c == chars[index]
        invariant Spaces(chars, old(index), index)
        decreases size - index
      {
        index := index + 1;
        c := chars[index];
      }
    }
  }
}
