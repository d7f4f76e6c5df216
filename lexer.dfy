/**
 * The byte-level scanner of cnxml as pure functions over an immutable buffer.
 *
 * A cursor is a `Pos` (byte offset, 1-based line, 1-based column).  Every
 * function here is the specification of one routine of the tokenizer in
 * cnxml.c; the imperative `Tokenizers.Tokenizer` class is proved to update
 * its fields exactly as these functions say.
 */
module Lexer {

  /** current_index, current_line and current_column of a tokenizer. */
  datatype Pos = Pos(index: nat, line: int, column: int)

  /** cnxml_token_type; UNKNOWN is declared by the source but never produced. */
  datatype TokenType = Unknown | OpenLess | CloseGreater | Slash | Equal | String | Eof

  /** A token: its kind and the bytes it covers (empty for EOF). */
  datatype Token = Token(kind: TokenType, content: seq<char>)

  const CommentStart: seq<char> := "<!--"
  const CommentEnd: seq<char> := "-->"
  const SpecialStart: seq<char> := "<?"
  const SpecialEnd: seq<char> := "?>"

  predicate IsWhitespace(c: char) {
    c == ' ' || c == '\t' || c == '\n' || c == '\r'
  }

  predicate AllWhitespace(s: seq<char>) {
    forall i | 0 <= i < |s| :: IsWhitespace(s[i])
  }

  predicate IsPunctuationOrWhitespace(c: char) {
    IsWhitespace(c) || c == '<' || c == '>' || c == '=' || c == '/'
  }

  predicate IsEof(data: seq<char>, p: Pos) {
    p.index >= |data|
  }

  /** The byte under the cursor, or NUL past the end. */
  function CurChar(data: seq<char>, p: Pos): char {
    if p.index >= |data| then '\0' else data[p.index]
  }

  /**
   * The byte `k` places after the cursor, or NUL past the end.  The `int`
   * offset is compared with the unsigned length, so an offset before the
   * start reads as NUL too.
   */
  function Peek(data: seq<char>, p: Pos, k: int): char {
    if p.index + k < 0 || p.index + k >= |data| then '\0' else data[p.index + k]
  }

  /** Line and column after consuming one byte. */
  function Step(line: int, column: int, c: char): (int, int) {
    if c == '\n' then (line + 1, 1) else (line, column + 1)
  }

  /** Line and column after consuming data[lo..hi] one byte at a time. */
  function Track(data: seq<char>, lo: nat, hi: nat, line: int, column: int): (r: (int, int))
    requires lo <= hi <= |data|
    ensures r.0 >= line
    ensures column >= 1 ==> r.1 >= 1
    decreases hi
  {
    if hi == lo then (line, column)
    else
      var lc := Track(data, lo, hi - 1, line, column);
      Step(lc.0, lc.1, data[hi - 1])
  }

  predicate NoNewline(data: seq<char>, lo: nat, hi: nat)
    requires lo <= hi <= |data|
  {
    forall j | lo <= j < hi :: data[j] != '\n'
  }

  /** The line advances by the number of newlines consumed. */
  lemma {:induction false} TrackLines(data: seq<char>, lo: nat, hi: nat, line: int, column: int)
    requires lo <= hi <= |data|
    decreases hi
    ensures Track(data, lo, hi, line, column).0 == line + multiset(data[lo..hi])['\n']
  {
    if hi > lo {
      TrackLines(data, lo, hi - 1, line, column);
      assert data[lo..hi] == data[lo..hi - 1] + [data[hi - 1]];
    }
  }

  /**
   * The column is the number of bytes after the last newline consumed, or
   * advances by the number of bytes consumed when there is none.
   */
  lemma {:induction false} TrackColumns(data: seq<char>, lo: nat, hi: nat, line: int, column: int)
    requires lo <= hi <= |data|
    decreases hi
    ensures NoNewline(data, lo, hi) ==> Track(data, lo, hi, line, column).1 == column + (hi - lo)
    ensures forall k | lo <= k < hi && data[k] == '\n' && NoNewline(data, k + 1, hi) ::
              Track(data, lo, hi, line, column).1 == hi - k
  {
    if hi > lo {
      TrackColumns(data, lo, hi - 1, line, column);
      forall k | lo <= k < hi && data[k] == '\n' && NoNewline(data, k + 1, hi)
        ensures Track(data, lo, hi, line, column).1 == hi - k
      {
        if k < hi - 1 {
          assert data[hi - 1] != '\n';
          assert NoNewline(data, k + 1, hi - 1);
        }
      }
    }
  }

  /**
   * cnxml_tokenizer_move: move the offset by `chars`.  The `int` offset is
   * compared with the unsigned length, so a move that reaches the end, and
   * one that falls below the start, clamps the offset to the end and leaves
   * line and column alone.  Otherwise the bytes from the old offset up to
   * the new one are counted, which is none for a move back.
   */
  function Move(data: seq<char>, p: Pos, chars: int): (r: Pos)
    ensures r.index == if p.index + chars < 0 || p.index + chars >= |data| then |data| else p.index + chars
    ensures r.line >= p.line
    ensures p.column >= 1 ==> r.column >= 1
    ensures chars <= 0 ==> r.line == p.line && r.column == p.column
  {
    var next := p.index + chars;
    if next < 0 || next >= |data| then Pos(|data|, p.line, p.column)
    else if chars <= 0 then Pos(next, p.line, p.column)
    else
      var lc := Track(data, p.index, next, p.line, p.column);
      Pos(next, lc.0, lc.1)
  }

  /** Position properties of a move, stated against an independent count of the consumed bytes. */
  lemma MoveTracksLines(data: seq<char>, p: Pos, chars: nat)
    ensures IsEof(data, Move(data, p, 1)) || Move(data, p, 1).index == p.index + 1
    ensures p.index + chars >= |data| ==>
              IsEof(data, Move(data, p, chars)) && Move(data, p, chars).line == p.line && Move(data, p, chars).column == p.column
    ensures p.index + chars < |data| ==>
              Move(data, p, chars).line == p.line + multiset(data[p.index..p.index + chars])['\n']
    ensures p.index + chars < |data| && NoNewline(data, p.index, p.index + chars) ==>
              Move(data, p, chars).column == p.column + chars
    ensures p.index + chars < |data| && chars > 0 && data[p.index + chars - 1] == '\n' ==>
              Move(data, p, chars).column == 1
  {
    if p.index + chars < |data| {
      TrackLines(data, p.index, p.index + chars, p.line, p.column);
      TrackColumns(data, p.index, p.index + chars, p.line, p.column);
      if chars > 0 && data[p.index + chars - 1] == '\n' {
        assert NoNewline(data, p.index + chars, p.index + chars);
      }
    }
  }

  /** cnxml_tokenizer_match_string: the next |lit| bytes (NUL past the end) equal `lit`. */
  predicate Matches(data: seq<char>, p: Pos, lit: seq<char>) {
    forall i | 0 <= i < |lit| :: Peek(data, p, i) == lit[i]
  }

  /** `s` occurs in `data` starting at offset `k`. */
  predicate OccursAt(data: seq<char>, k: int, s: seq<char>) {
    0 <= k && k + |s| <= |data| && data[k..k + |s|] == s
  }

  /** For a literal without NUL bytes, matching is exactly a slice comparison, so it never matches past the end. */
  lemma MatchesIsSlice(data: seq<char>, p: Pos, lit: seq<char>)
    requires p.index <= |data|
    requires '\0' !in lit
    ensures Matches(data, p, lit) <==> OccursAt(data, p.index, lit)
  {
    if Matches(data, p, lit) {
      if |lit| > 0 {
        assert lit[|lit| - 1] in lit;
        assert Peek(data, p, |lit| - 1) == lit[|lit| - 1] != '\0';
      }
      assert p.index + |lit| <= |data|;
      var slice := data[p.index..p.index + |lit|];
      forall i | 0 <= i < |lit| ensures slice[i] == lit[i] {
        assert Peek(data, p, i) == lit[i];
      }
      assert slice == lit;
    }
    if p.index + |lit| <= |data| && data[p.index..p.index + |lit|] == lit {
      forall i | 0 <= i < |lit| ensures Peek(data, p, i) == lit[i] {
        assert lit[i] == data[p.index..p.index + |lit|][i] == data[p.index + i];
      }
    }
  }

  /** The inner loop over a comment or processing instruction: stop at end of input or where `lit` matches. */
  function ScanToLiteral(data: seq<char>, p: Pos, lit: seq<char>): (r: Pos)
    requires p.index <= |data|
    ensures p.index <= r.index <= |data|
    ensures IsEof(data, r) || Matches(data, r, lit)
    decreases |data| - p.index
  {
    if IsEof(data, p) || Matches(data, p, lit) then p
    else ScanToLiteral(data, Move(data, p, 1), lit)
  }

  /** The scan passes no occurrence of `lit`: where the literal occurs, it matches. */
  lemma {:induction false} ScanToLiteralFirst(data: seq<char>, p: Pos, lit: seq<char>)
    requires p.index <= |data|
    ensures forall k | p.index <= k < ScanToLiteral(data, p, lit).index :: !OccursAt(data, k, lit)
    decreases |data| - p.index
  {
    if !(IsEof(data, p) || Matches(data, p, lit)) {
      ScanToLiteralFirst(data, Move(data, p, 1), lit);
      OccursMatches(data, p, lit);
    }
  }

  /** Where a literal occurs, it matches, whatever bytes it holds. */
  lemma OccursMatches(data: seq<char>, p: Pos, lit: seq<char>)
    ensures OccursAt(data, p.index, lit) ==> Matches(data, p, lit)
  {
    if OccursAt(data, p.index, lit) {
      forall i | 0 <= i < |lit| ensures Peek(data, p, i) == lit[i] {
        assert lit[i] == data[p.index..p.index + |lit|][i];
      }
    }
  }

  /**
   * Skip up to and through the terminator `lit`, or to the end of input if
   * there is none: for a terminator without NUL bytes, the cursor ends just
   * after its first occurrence, or at the end when it does not occur.
   */
  function SkipPastLiteral(data: seq<char>, p: Pos, lit: seq<char>): (r: Pos)
    requires p.index <= |data|
    ensures p.index <= r.index <= |data|
    ensures '\0' !in lit ==>
              (r.index == |data| && forall k | p.index <= k < |data| :: !OccursAt(data, k, lit)) ||
              (p.index + |lit| <= r.index && OccursAt(data, r.index - |lit|, lit) &&
               forall k | p.index <= k < r.index - |lit| :: !OccursAt(data, k, lit))
  {
    var q := ScanToLiteral(data, p, lit);
    ScanToLiteralFirst(data, p, lit);
    if Matches(data, q, lit) then
      if '\0' !in lit then MatchesIsSlice(data, q, lit); Move(data, q, |lit|) else Move(data, q, |lit|)
    else q
  }

  /** The loop of `<! ... >` and of quoted strings: stop at end of input or at byte `stop`. */
  function ScanToChar(data: seq<char>, p: Pos, stop: char): (r: Pos)
    requires p.index <= |data|
    ensures p.index <= r.index <= |data|
    ensures IsEof(data, r) || data[r.index] == stop
    ensures forall k | p.index <= k < r.index :: data[k] != stop
    decreases |data| - p.index
  {
    if IsEof(data, p) || CurChar(data, p) == stop then p
    else ScanToChar(data, Move(data, p, 1), stop)
  }

  /** Skip through the next `>`, or to the end of input when there is none. */
  function SkipPastGreater(data: seq<char>, p: Pos): (r: Pos)
    requires p.index <= |data|
    ensures p.index <= r.index <= |data|
    ensures (r.index == |data| && forall k | p.index <= k < |data| :: data[k] != '>') ||
            (p.index < r.index && data[r.index - 1] == '>' && forall k | p.index <= k < r.index - 1 :: data[k] != '>')
  {
    var q := ScanToChar(data, p, '>');
    if CurChar(data, q) == '>' then Move(data, q, 1) else q
  }

  /** The condition on which cnxml_tokenizer_skip_whitespace stops. */
  predicate AtContent(data: seq<char>, p: Pos) {
    IsEof(data, p) ||
    (!IsWhitespace(CurChar(data, p)) &&
     !(CurChar(data, p) == '<' && (Peek(data, p, 1) == '!' || Peek(data, p, 1) == '?')))
  }

  /**
   * cnxml_tokenizer_skip_whitespace: consume whitespace, `<!-- -->`
   * comments, `<! ... >` declarations and `<? ?>` processing
   * instructions, until the first byte that starts none of them.
   */
  function SkipNonContent(data: seq<char>, p: Pos): (r: Pos)
    requires p.index <= |data|
    ensures p.index <= r.index <= |data|
    ensures AtContent(data, r)
    decreases |data| - p.index, 1
  {
    if IsEof(data, p) then p else SkipPiece(data, p)
  }

  /** One pass of the loop of cnxml_tokenizer_skip_whitespace, at a byte before the end. */
  function SkipPiece(data: seq<char>, p: Pos): (r: Pos)
    requires p.index < |data|
    ensures p.index <= r.index <= |data|
    ensures AtContent(data, r)
    decreases |data| - p.index, 0
  {
    if IsWhitespace(CurChar(data, p)) then SkipNonContent(data, Move(data, p, 1))
    else if Matches(data, p, CommentStart) then
      SkipNonContent(data, SkipPastLiteral(data, Move(data, p, |CommentStart|), CommentEnd))
    else if CurChar(data, p) == '<' && Peek(data, p, 1) == '!' then
      SkipNonContent(data, SkipPastGreater(data, Move(data, p, 2)))
    else if Matches(data, p, SpecialStart) then
      SkipNonContent(data, SkipPastLiteral(data, Move(data, p, |SpecialStart|), SpecialEnd))
    else
      assert CurChar(data, p) == '<' && Peek(data, p, 1) == '?' ==> Matches(data, p, SpecialStart);
      p
  }

  /** The loop of cnxml_tokenizer_read_unquoted_string: stop at end of input, whitespace or `< > = /`. */
  function ScanUnquoted(data: seq<char>, p: Pos): (r: Pos)
    requires p.index <= |data|
    ensures p.index <= r.index <= |data|
    ensures IsEof(data, r) || IsPunctuationOrWhitespace(data[r.index])
    ensures forall k | p.index <= k < r.index :: !IsPunctuationOrWhitespace(data[k])
    decreases |data| - p.index
  {
    if IsEof(data, p) || IsPunctuationOrWhitespace(CurChar(data, p)) then p
    else ScanUnquoted(data, Move(data, p, 1))
  }

  /**
   * cnxml_tokenizer_read_quoted_string, entered just after the opening
   * quote: the content runs to the next quote or the end of input, and the
   * closing quote is consumed.
   */
  function ReadQuoted(data: seq<char>, p: Pos): (r: (seq<char>, Pos))
    requires p.index <= |data|
    ensures '"' !in r.0
    ensures p.index + |r.0| <= |data| && r.0 == data[p.index..p.index + |r.0|]
    ensures p.index + |r.0| == |data| || data[p.index + |r.0|] == '"'
    ensures r.1.index == if p.index + |r.0| + 1 >= |data| then |data| else p.index + |r.0| + 1
  {
    var q := ScanToChar(data, p, '"');
    (data[p.index..q.index], Move(data, q, 1))
  }

  /** cnxml_tokenizer_read_unquoted_string: the maximal run of bytes that are not whitespace or `< > = /`. */
  function ReadUnquoted(data: seq<char>, p: Pos): (r: (seq<char>, Pos))
    requires p.index <= |data|
    ensures r.1.index == p.index + |r.0| <= |data| && r.0 == data[p.index..r.1.index]
    ensures forall c | c in r.0 :: !IsPunctuationOrWhitespace(c)
    ensures IsEof(data, r.1) || IsPunctuationOrWhitespace(data[r.1.index])
  {
    var q := ScanUnquoted(data, p);
    (data[p.index..q.index], q)
  }

  /**
   * cnxml_tokenizer_next_token: skip non-content, then classify the next
   * byte.  A byte that starts unquoted text is first consumed and then the
   * offset alone is rewound by one, so the column keeps the extra step.
   */
  function NextToken(data: seq<char>, p: Pos): (r: (Token, Pos))
    requires p.index <= |data|
    ensures p.index <= r.1.index <= |data|
    ensures r.0.kind != Eof ==> r.1.index > p.index
    ensures r.0.kind == Eof ==> r.0.content == []
    ensures r.0.kind != Unknown
  {
    var s := SkipNonContent(data, p);
    if IsEof(data, s) then (Token(Eof, []), s)
    else
      var c := CurChar(data, s);
      var m := Move(data, s, 1);
      if c == '\0' then (Token(Eof, []), m)
      else if c == '<' then (Token(OpenLess, "<"), m)
      else if c == '>' then (Token(CloseGreater, ">"), m)
      else if c == '/' then (Token(Slash, "/"), m)
      else if c == '=' then (Token(Equal, "="), m)
      else if c == '"' then
        var (content, q) := ReadQuoted(data, m);
        (Token(String, content), q)
      else
        var (content, q) := ReadUnquoted(data, m.(index := m.index - 1));
        (Token(String, content), q)
  }

  /**
   * next_token at the end of input, at a NUL byte and at punctuation: EOF
   * with nothing more consumed at the end (after whitespace and comments),
   * EOF at NUL, and each of `< > / =` as its own one-byte token.
   */
  lemma NextTokenPunctuation(data: seq<char>, p: Pos)
    requires p.index <= |data|
    ensures var s, (tok, q) := SkipNonContent(data, p), NextToken(data, p);
            (IsEof(data, s) ==> tok == Token(Eof, []) && q == s) &&
            (!IsEof(data, s) ==>
               var c := data[s.index];
               (c == '\0' ==> tok.kind == Eof) &&
               (c == '<' ==> tok == Token(OpenLess, "<") && q.index == s.index + 1) &&
               (c == '>' ==> tok == Token(CloseGreater, ">") && q.index == s.index + 1) &&
               (c == '/' ==> tok == Token(Slash, "/") && q.index == s.index + 1) &&
               (c == '=' ==> tok == Token(Equal, "=") && q.index == s.index + 1))
  {
  }

  /**
   * next_token at a quote: the content is the bytes after it up to the next
   * quote or the end of input, so it holds no quote, and the closing quote
   * is consumed.
   */
  lemma NextTokenQuoted(data: seq<char>, p: Pos)
    requires p.index <= |data|
    requires var s := SkipNonContent(data, p); !IsEof(data, s) && data[s.index] == '"'
    ensures var s, (tok, q) := SkipNonContent(data, p), NextToken(data, p);
            var v := tok.content;
            tok.kind == String && '"' !in v &&
            s.index + 1 + |v| <= |data| && v == data[s.index + 1..s.index + 1 + |v|] &&
            (s.index + 1 + |v| == |data| || data[s.index + 1 + |v|] == '"') &&
            q.index == if s.index + 2 + |v| >= |data| then |data| else s.index + 2 + |v|
  {
  }

  /**
   * next_token at any other byte: the maximal non-empty run of bytes that
   * are neither whitespace nor `< > = /`, starting at that byte.
   */
  lemma NextTokenUnquoted(data: seq<char>, p: Pos)
    requires p.index <= |data|
    requires var s := SkipNonContent(data, p);
             !IsEof(data, s) && !IsPunctuationOrWhitespace(data[s.index]) && data[s.index] != '"' && data[s.index] != '\0'
    ensures var s, (tok, q) := SkipNonContent(data, p), NextToken(data, p);
            tok.kind == String && |tok.content| > 0 && tok.content == data[s.index..q.index] &&
            (forall b | b in tok.content :: !IsPunctuationOrWhitespace(b)) &&
            (IsEof(data, q) || IsPunctuationOrWhitespace(data[q.index]))
  {
    var s := SkipNonContent(data, p);
    var m := Move(data, s, 1);
    var (content, q) := ReadUnquoted(data, m.(index := m.index - 1));
    assert content[0] == data[s.index];
  }

  /**
   * The unquoted scan moves one byte at a time over bytes that are not
   * newlines, so the column counts them, except that a last step that
   * reaches the end of input is clamped and leaves the column alone.
   */
  lemma {:induction false} ScanUnquotedColumn(data: seq<char>, p: Pos)
    requires p.index <= |data|
    ensures var r := ScanUnquoted(data, p);
            r.line == p.line &&
            r.column == if r.index == |data| && r.index > p.index then p.column + (r.index - p.index) - 1
                        else p.column + (r.index - p.index)
    decreases |data| - p.index
  {
    if !(IsEof(data, p) || IsPunctuationOrWhitespace(CurChar(data, p))) {
      var q := Move(data, p, 1);
      if p.index + 1 < |data| {
        assert Track(data, p.index, p.index + 1, p.line, p.column) == Step(p.line, p.column, data[p.index]);
        assert q == Pos(p.index + 1, p.line, p.column + 1);
      }
      ScanUnquotedColumn(data, q);
    }
  }

  /**
   * The column after an unquoted token, against the byte count: the byte
   * consumed before the offset is rewound is counted as well, so when input
   * follows the token the column is one more than its length says; when the
   * token runs to the end of input, the clamped last move cancels that
   * extra step, except for a one-byte token, whose two moves are both
   * clamped and leave the column where it was.
   */
  lemma NextTokenUnquotedColumn(data: seq<char>, p: Pos)
    requires p.index <= |data|
    requires var s := SkipNonContent(data, p);
             !IsEof(data, s) && !IsPunctuationOrWhitespace(data[s.index]) && data[s.index] != '"' && data[s.index] != '\0'
    ensures var s, (tok, q) := SkipNonContent(data, p), NextToken(data, p);
            q.line == s.line &&
            q.column == if q.index < |data| then s.column + |tok.content| + 1
                        else if |tok.content| == 1 then s.column
                        else s.column + |tok.content|
  {
    var s := SkipNonContent(data, p);
    NextTokenUnquoted(data, p);
    var m := Move(data, s, 1);
    if s.index + 1 < |data| {
      assert Track(data, s.index, s.index + 1, s.line, s.column) == Step(s.line, s.column, data[s.index]);
      assert m == Pos(s.index + 1, s.line, s.column + 1);
    }
    ScanUnquotedColumn(data, m.(index := m.index - 1));
  }

  /** cnxml_tokenizer_token_type_name. */
  function TokenTypeName(t: TokenType): (name: seq<char>)
    ensures |name| > 0
  {
    match t
    case Unknown => "UNKNOWN"
    case OpenLess => "OPENLESS"
    case CloseGreater => "CLOSEGREATER"
    case Slash => "SLASH"
    case Equal => "EQUAL"
    case String => "STRING"
    case Eof => "EOF"
  }

  /** Distinct token kinds have distinct names. */
  lemma TokenTypeNameInjective(s: TokenType, t: TokenType)
    requires TokenTypeName(s) == TokenTypeName(t)
    ensures s == t
  {
    var n := TokenTypeName(s);
    assert n[0] == TokenTypeName(t)[0] && |n| == |TokenTypeName(t)|;
  }
}
