/**
 * The cnxml tokenizer as an object: an immutable buffer and a cursor whose
 * three fields the methods update in place.  Every method is proved to
 * leave the cursor where the corresponding function of `Lexer` says.
 */
module Tokenizers {
  import opened Lexer

  class Tokenizer {
    /** data / data_len: the borrowed input buffer. */
    const data: seq<char>
    /** current_index, current_line, current_column. */
    var index: nat
    var line: int
    var column: int

    ghost predicate Valid()
      reads this
    {
      index <= |data| && line >= 1 && column >= 1
    }

    /** The cursor as a value. */
    function Cursor(): Pos
      reads this
    {
      Pos(index, line, column)
    }

    /** cnxml_tokenizer_new: the cursor starts at offset 0, line 1, column 1. */
    constructor (data: seq<char>)
      ensures Valid() && this.data == data
      ensures Cursor() == Pos(0, 1, 1)
    {
      this.data := data;
      index := 0;
      line := 1;
      column := 1;
    }

    /** cnxml_tokenizer_is_eof */
    function IsAtEnd(): bool
      reads this
    {
      IsEof(data, Cursor())
    }

    /** cnxml_tokenizer_cur_char */
    function Current(): char
      reads this
    {
      CurChar(data, Cursor())
    }

    /** cnxml_tokenizer_peek */
    function PeekAt(k: int): char
      reads this
    {
      Peek(data, Cursor(), k)
    }

    /**
     * cnxml_tokenizer_move: clamp to the end when the new offset reaches the
     * end or falls below the start, otherwise count line and column byte by
     * byte from the old offset up to the new one.
     */
    method Move(chars: int)
      requires Valid()
      modifies this
      ensures Valid()
      ensures Cursor() == Lexer.Move(data, old(Cursor()), chars)
    {
      var prev := index;
      var next := index + chars;
      // the offset is compared with the unsigned length, so a negative one counts as past the end
      if next < 0 || next >= |data| {
        index := |data|;
        return;
      }
      index := next;
      var i := prev;
      while i < index && i < |data|
        invariant index == next < |data|
        invariant chars <= 0 ==> i == prev && line == old(line) && column == old(column)
        invariant chars > 0 ==> prev <= i <= index && (line, column) == Track(data, prev, i, old(line), old(column))
      {
        if data[i] == '\n' {
          line := line + 1;
          column := 1;
        } else {
          column := column + 1;
        }
        i := i + 1;
      }
    }

    /** cnxml_tokenizer_match_string: compare the next |lit| bytes without consuming them. */
    method MatchString(lit: seq<char>) returns (matched: bool)
      ensures matched == Matches(data, Cursor(), lit)
    {
      var i := 0;
      while i < |lit|
        invariant 0 <= i <= |lit|
        invariant forall j | 0 <= j < i :: Peek(data, Cursor(), j) == lit[j]
      {
        if PeekAt(i) != lit[i] {
          return false;
        }
        i := i + 1;
      }
      return true;
    }

    /** The inner loop over a comment or processing instruction, with the test for its terminator. */
    method SkipPastTerminator(lit: seq<char>)
      requires Valid()
      modifies this
      ensures Valid()
      ensures Cursor() == SkipPastLiteral(data, old(Cursor()), lit)
    {
      var found := MatchString(lit);
      while !IsAtEnd() && !found
        invariant Valid()
        invariant found == Matches(data, Cursor(), lit)
        invariant ScanToLiteral(data, Cursor(), lit) == ScanToLiteral(data, old(Cursor()), lit)
        decreases |data| - index
      {
        Move(1);
        found := MatchString(lit);
      }
      if found {
        Move(|lit|);
      }
    }

    /** The inner loop over a `<!` declaration: through the next `>`, or to the end. */
    method SkipPastDeclaration()
      requires Valid()
      modifies this
      ensures Valid()
      ensures Cursor() == SkipPastGreater(data, old(Cursor()))
    {
      while !IsAtEnd() && Current() != '>'
        invariant Valid()
        invariant ScanToChar(data, Cursor(), '>') == ScanToChar(data, old(Cursor()), '>')
        decreases |data| - index
      {
        Move(1);
      }
      if Current() == '>' {
        Move(1);
      }
    }

    /** cnxml_tokenizer_skip_whitespace */
    method SkipWhitespace()
      requires Valid()
      modifies this
      ensures Valid()
      ensures Cursor() == SkipNonContent(data, old(Cursor()))
    {
      while !IsAtEnd()
        invariant Valid()
        invariant SkipNonContent(data, Cursor()) == SkipNonContent(data, old(Cursor()))
        decreases |data| - index
      {
        if IsWhitespace(Current()) {
          Move(1);
          continue;
        }
        var isComment := MatchString(CommentStart);
        if isComment {
          Move(|CommentStart|);
          SkipPastTerminator(CommentEnd);
        } else if Current() == '<' && PeekAt(1) == '!' {
          Move(2);
          SkipPastDeclaration();
        } else {
          var isSpecial := MatchString(SpecialStart);
          if isSpecial {
            Move(|SpecialStart|);
            SkipPastTerminator(SpecialEnd);
          } else {
            break;
          }
        }
      }
    }

    /** cnxml_tokenizer_read_quoted_string, entered just after the opening quote. */
    method ReadQuotedString() returns (s: seq<char>)
      requires Valid()
      modifies this
      ensures Valid()
      ensures (s, Cursor()) == ReadQuoted(data, old(Cursor()))
    {
      var start := index;
      var len := 0;
      while !IsAtEnd() && Current() != '"'
        invariant Valid()
        invariant start + len == index
        invariant ScanToChar(data, Cursor(), '"') == ScanToChar(data, old(Cursor()), '"')
        decreases |data| - index
      {
        len := len + 1;
        Move(1);
      }
      Move(1);
      s := data[start..start + len];
    }

    /** cnxml_tokenizer_read_unquoted_string */
    method ReadUnquotedString() returns (s: seq<char>)
      requires Valid()
      modifies this
      ensures Valid()
      ensures (s, Cursor()) == ReadUnquoted(data, old(Cursor()))
    {
      var start := index;
      var len := 0;
      while !IsAtEnd() && !IsPunctuationOrWhitespace(Current())
        invariant Valid()
        invariant start + len == index
        invariant ScanUnquoted(data, Cursor()) == ScanUnquoted(data, old(Cursor()))
        decreases |data| - index
      {
        len := len + 1;
        Move(1);
      }
      s := data[start..start + len];
    }

    /** cnxml_tokenizer_next_token */
    method NextToken() returns (tok: Token)
      requires Valid()
      modifies this
      ensures Valid()
      ensures (tok, Cursor()) == Lexer.NextToken(data, old(Cursor()))
    {
      SkipWhitespace();
      if IsAtEnd() {
        return Token(Eof, []);
      }
      var c := Current();
      Move(1);
      match c {
        case '\0' => tok := Token(Eof, []);
        case '<' => tok := Token(OpenLess, "<");
        case '>' => tok := Token(CloseGreater, ">");
        case '/' => tok := Token(Slash, "/");
        case '=' => tok := Token(Equal, "=");
        case '"' =>
          var s := ReadQuotedString();
          tok := Token(String, s);
        case _ =>
          // the offset alone is rewound over the byte just consumed
          index := index - 1;
          var s := ReadUnquotedString();
          tok := Token(String, s);
      }
    }
  }
}
