/**
 * What the tokenizer returns at text of a known shape: whitespace followed
 * by one punctuation byte, by a word, or by a quoted value.  These facts
 * hold whatever line and column the cursor carries.
 */
module Scanning {
  import opened Lexer

  /** An occurrence of `s + t` is an occurrence of `s` followed by one of `t`. */
  lemma OccursSplit(data: seq<char>, i: nat, s: seq<char>, t: seq<char>)
    ensures OccursAt(data, i, s + t) <==> OccursAt(data, i, s) && OccursAt(data, i + |s|, t)
  {
    if OccursAt(data, i, s + t) {
      assert data[i..i + |s|] == (s + t)[..|s|];
      assert data[i + |s|..i + |s| + |t|] == (s + t)[|s|..];
    }
    if OccursAt(data, i, s) && OccursAt(data, i + |s|, t) {
      assert data[i..i + |s| + |t|] == data[i..i + |s|] + data[i + |s|..i + |s| + |t|];
    }
  }

  /** A sequence occurs where it is appended. */
  lemma OccursEnd(x: seq<char>, y: seq<char>)
    ensures OccursAt(x + y, |x|, y)
  {
    assert (x + y)[|x|..|x| + |y|] == y;
  }

  /** An occurrence is kept when more text is appended. */
  lemma OccursLeft(x: seq<char>, y: seq<char>, i: int, s: seq<char>)
    requires OccursAt(x, i, s)
    ensures OccursAt(x + y, i, s)
  {
    assert (x + y)[i..i + |s|] == x[i..i + |s|];
  }

  lemma OccursChar(data: seq<char>, i: nat, s: seq<char>, k: nat)
    requires OccursAt(data, i, s) && k < |s|
    ensures i + k < |data| && data[i + k] == s[k]
  {
    assert data[i + k] == data[i..i + |s|][k];
  }

  /** A byte that may occur in a word: not whitespace, not `< > = /`, not a quote and not NUL. */
  predicate IsWordChar(c: char) {
    !IsPunctuationOrWhitespace(c) && c != '"' && c != '\0'
  }

  /** A non-empty run of word bytes: read back as one unquoted token. */
  predicate IsWord(w: seq<char>) {
    |w| > 0 && forall i | 0 <= i < |w| :: IsWordChar(w[i])
  }

  /** Offset `j` ends an unquoted token. */
  predicate EndsWord(data: seq<char>, j: nat) {
    j <= |data| && (j == |data| || IsPunctuationOrWhitespace(data[j]))
  }

  /** Offset `j` holds a byte that skip_whitespace stops at. */
  predicate StartsContent(data: seq<char>, j: nat) {
    j < |data| && !IsWhitespace(data[j]) &&
    !(data[j] == '<' && j + 1 < |data| && (data[j + 1] == '!' || data[j + 1] == '?'))
  }

  /** skip_whitespace passes a run of whitespace and stops at the byte after it. */
  lemma {:induction false} SkipWhitespaceRun(data: seq<char>, p: Pos, ws: seq<char>)
    requires OccursAt(data, p.index, ws) && AllWhitespace(ws) && StartsContent(data, p.index + |ws|)
    ensures SkipNonContent(data, p).index == p.index + |ws|
    decreases |ws|
  {
    if |ws| == 0 {
      assert !Matches(data, p, CommentStart) by {
        if CurChar(data, p) == '<' { assert Peek(data, p, 1) != CommentStart[1]; }
        else { assert Peek(data, p, 0) != CommentStart[0]; }
      }
      assert !Matches(data, p, SpecialStart) by {
        if CurChar(data, p) == '<' { assert Peek(data, p, 1) != SpecialStart[1]; }
        else { assert Peek(data, p, 0) != SpecialStart[0]; }
      }
    } else {
      assert IsWhitespace(ws[0]);
      var q := Move(data, p, 1);
      assert q.index == p.index + 1;
      SkipWhitespaceRun(data, q, ws[1..]);
    }
  }

  /** The token kind of a punctuation byte. */
  function PunctKind(c: char): TokenType {
    if c == '<' then OpenLess else if c == '>' then CloseGreater else if c == '/' then Slash else Equal
  }

  /** Where the skipping stops at one of `< > / =`, the token is that byte alone. */
  lemma PunctAfterSkip(data: seq<char>, p: Pos, c: char)
    requires c == '<' || c == '>' || c == '/' || c == '='
    requires p.index <= |data|
    requires var j := SkipNonContent(data, p).index; j < |data| && data[j] == c
    ensures NextToken(data, p).0 == Token(PunctKind(c), [c])
    ensures NextToken(data, p).1.index == SkipNonContent(data, p).index + 1
  {
  }

  /** Whitespace then one of `< > / =` (a `<` not opening a comment or instruction) reads as that token. */
  lemma PunctToken(data: seq<char>, p: Pos, ws: seq<char>, c: char)
    requires c == '<' || c == '>' || c == '/' || c == '='
    requires OccursAt(data, p.index, ws) && AllWhitespace(ws)
    requires p.index + |ws| < |data| && data[p.index + |ws|] == c
    requires c == '<' ==> StartsContent(data, p.index + |ws|)
    ensures NextToken(data, p).0 == Token(PunctKind(c), [c])
    ensures NextToken(data, p).1.index == p.index + |ws| + 1
  {
    SkipWhitespaceRun(data, p, ws);
    PunctAfterSkip(data, p, c);
  }

  /**
   * A comment whose text holds no `-` is skipped through its `-->`, up to
   * the content byte after it.
   */
  lemma SkipComment(data: seq<char>, p: Pos, c: seq<char>)
    requires OccursAt(data, p.index, CommentStart) && OccursAt(data, p.index + 4, c) && '-' !in c
    requires OccursAt(data, p.index + 4 + |c|, CommentEnd)
    requires StartsContent(data, p.index + |c| + 7)
    ensures SkipNonContent(data, p).index == p.index + |c| + 7
  {
    var i := p.index;
    MatchesIsSlice(data, p, CommentStart);
    OccursChar(data, i, CommentStart, 0);
    var m := Move(data, p, |CommentStart|);
    assert m.index == i + 4;
    var r := SkipPastLiteral(data, m, CommentEnd);
    assert r.index == i + |c| + 7 by {
      forall k | i + 4 <= k < i + 4 + |c| ensures !OccursAt(data, k, CommentEnd) {
        OccursChar(data, i + 4, c, k - i - 4);
        assert c[k - i - 4] in c;
        if OccursAt(data, k, CommentEnd) {
          OccursChar(data, k, CommentEnd, 0);
        }
      }
    }
    assert SkipNonContent(data, p) == SkipNonContent(data, r);
    SkipWhitespaceRun(data, r, []);
  }

  /** Unquoted text starting at a word ends exactly after it. */
  lemma UnquotedRun(data: seq<char>, q: Pos, w: seq<char>)
    requires OccursAt(data, q.index, w) && IsWord(w) && EndsWord(data, q.index + |w|)
    ensures ReadUnquoted(data, q).0 == w
    ensures ReadUnquoted(data, q).1.index == q.index + |w|
  {
  }

  /** Whitespace then a word that ends where an unquoted token ends reads as that word. */
  lemma WordToken(data: seq<char>, p: Pos, ws: seq<char>, w: seq<char>)
    requires OccursAt(data, p.index, ws) && AllWhitespace(ws)
    requires OccursAt(data, p.index + |ws|, w) && IsWord(w) && EndsWord(data, p.index + |ws| + |w|)
    ensures NextToken(data, p).0 == Token(String, w)
    ensures NextToken(data, p).1.index == p.index + |ws| + |w|
  {
    var j := p.index + |ws|;
    OccursChar(data, j, w, 0);
    assert IsWordChar(w[0]);
    SkipWhitespaceRun(data, p, ws);
    var s := SkipNonContent(data, p);
    var m := Move(data, s, 1);
    assert m.index == j + 1;
    UnquotedRun(data, m.(index := m.index - 1), w);
    TokenAtWord(data, p, s, w, j + |w|);
  }

  /** At a byte that may start a word, the token is the unquoted text read from that byte. */
  lemma TokenAtWord(data: seq<char>, p: Pos, s: Pos, w: seq<char>, k: nat)
    requires p.index <= |data| && s == SkipNonContent(data, p)
    requires s.index < |data| && IsWordChar(data[s.index])
    requires var m := Move(data, s, 1);
             ReadUnquoted(data, m.(index := m.index - 1)).0 == w && ReadUnquoted(data, m.(index := m.index - 1)).1.index == k
    ensures NextToken(data, p).0 == Token(String, w)
    ensures NextToken(data, p).1.index == k
  {
  }

  /** Quoted text starting at a quote-free value followed by a quote is that value. */
  lemma QuotedRun(data: seq<char>, q: Pos, j: nat, v: seq<char>)
    requires q.index == j
    requires OccursAt(data, j, v) && '"' !in v
    requires j + |v| < |data| && data[j + |v|] == '"'
    ensures ReadQuoted(data, q).0 == v
    ensures ReadQuoted(data, q).1.index == j + |v| + 1
  {
  }

  /** At a quote, the token is the quoted text read after it. */
  lemma TokenAtQuote(data: seq<char>, p: Pos, s: Pos, v: seq<char>, k: nat)
    requires p.index <= |data| && s == SkipNonContent(data, p)
    requires s.index < |data| && data[s.index] == '"'
    requires ReadQuoted(data, Move(data, s, 1)).0 == v && ReadQuoted(data, Move(data, s, 1)).1.index == k
    ensures NextToken(data, p).0 == Token(String, v)
    ensures NextToken(data, p).1.index == k
  {
  }

  /** Whitespace then `"value"` with no quote inside reads as the value, closing quote consumed. */
  lemma QuotedToken(data: seq<char>, p: Pos, ws: seq<char>, v: seq<char>)
    requires OccursAt(data, p.index, ws) && AllWhitespace(ws)
    requires p.index + |ws| < |data| && data[p.index + |ws|] == '"'
    requires OccursAt(data, p.index + |ws| + 1, v) && '"' !in v
    requires p.index + |ws| + 1 + |v| < |data| && data[p.index + |ws| + 1 + |v|] == '"'
    ensures NextToken(data, p).0 == Token(String, v)
    ensures NextToken(data, p).1.index == p.index + |ws| + |v| + 2
  {
    SkipWhitespaceRun(data, p, ws);
    var s := SkipNonContent(data, p);
    QuotedRun(data, Move(data, s, 1), p.index + |ws| + 1, v);
    TokenAtQuote(data, p, s, v, p.index + |ws| + |v| + 2);
  }
}
