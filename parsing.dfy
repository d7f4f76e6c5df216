/**
 * The recursive-descent parser of cnxml as pure functions: each function
 * takes the tokenizer cursor and the error buffer (a `ParseState`) and
 * returns what the corresponding routine builds together with the new state.
 * The parser never fails; it records diagnostics and returns an element.
 */
module Parsing {
  import opened Lexer
  import opened Diagnostics
  import opened Elements

  /** The tokenizer cursor and the parser's error buffer. */
  datatype ParseState = ParseState(pos: Pos, diags: seq<Diagnostic>)

  /** `r` follows `st`: the cursor has not moved back or past the end, and diagnostics were only appended, keeping the buffer invariant. */
  predicate Advances(data: seq<char>, st: ParseState, r: ParseState) {
    st.pos.index <= r.pos.index <= |data| && st.diags <= r.diags &&
    (DiagsValid(st.diags) ==> DiagsValid(r.diags))
  }

  /** cnxml_parser_report_error, stamped with the tokenizer's current line and column. */
  function Report(st: ParseState, kind: ErrorKind, actual: seq<char>, expected: seq<char>): (r: ParseState)
    requires kind != TooManyErrors
    ensures r.pos == st.pos && st.diags <= r.diags
    ensures DiagsValid(st.diags) ==> DiagsValid(r.diags)
    ensures |st.diags| < BufferSize ==>
              |r.diags| > |st.diags| &&
              r.diags[|st.diags|] == MakeDiagnostic(kind, actual, expected, st.pos.line, st.pos.column)
  {
    RecordKeepsValid(st.diags, kind, actual, expected, st.pos.line, st.pos.column);
    st.(diags := Record(st.diags, kind, actual, expected, st.pos.line, st.pos.column))
  }

  /** The state after the tokenizer returns a token. */
  function Consume(data: seq<char>, st: ParseState): (r: (Token, ParseState))
    requires st.pos.index <= |data|
    ensures Advances(data, st, r.1) && r.1.diags == st.diags
    ensures r.1.pos == NextToken(data, st.pos).1 && r.0 == NextToken(data, st.pos).0
    ensures r.0.kind != Eof ==> r.1.pos.index > st.pos.index
  {
    var (t, p) := NextToken(data, st.pos);
    (t, st.(pos := p))
  }

  /**
   * cnxml_parser_read_attribute, after the attribute name: when the next
   * token is `=` and the one after it a STRING, that string is stored as
   * the value under the name; otherwise one diagnostic naming the attribute
   * is recorded (a missing `=` or a missing value), and the tokens read stay
   * consumed.
   */
  function ReadAttribute(data: seq<char>, st: ParseState, attrs: seq<Attribute>, name: seq<char>)
    : (r: (seq<Attribute>, ParseState))
    requires st.pos.index <= |data|
    ensures Advances(data, st, r.1)
    ensures var (eq, p1) := NextToken(data, st.pos);
            var (value, p2) := NextToken(data, p1);
            if eq.kind == Equal && value.kind == String then
              r.0 == attrs + [Attribute(name, value.content)] && r.1 == ParseState(p2, st.diags)
            else
              r.0 == attrs && r.1.pos == (if eq.kind == Equal then p2 else p1) &&
              (|st.diags| < BufferSize ==>
                 |r.1.diags| > |st.diags| &&
                 r.1.diags[|st.diags|] ==
                 MakeDiagnostic(if eq.kind == Equal then MissingAttributeValue else MissingEqualsSign,
                                name, [], r.1.pos.line, r.1.pos.column))
  {
    var (eq, s1) := Consume(data, st);
    if eq.kind == Equal then
      var (value, s2) := Consume(data, s1);
      if value.kind == String then (attrs + [Attribute(name, value.content)], s2)
      else (attrs, Report(s2, MissingAttributeValue, name, []))
    else (attrs, Report(s1, MissingEqualsSign, name, []))
  }

  /**
   * The optional `<` at the start of INTERNAL_cnxml_parser_read_element:
   * unless skipped, one token is consumed, and a token other than `<`
   * records NO_OPENING_SYMBOL_FOUND at the position after it.
   */
  function ReadOpening(data: seq<char>, st: ParseState, skipOpeningTag: bool): (r: ParseState)
    requires st.pos.index <= |data|
    ensures Advances(data, st, r)
    ensures skipOpeningTag ==> r == st
    ensures !skipOpeningTag ==>
              var (open, p1) := NextToken(data, st.pos);
              r.pos == p1 &&
              (open.kind == OpenLess ==> r.diags == st.diags) &&
              (open.kind != OpenLess && |st.diags| < BufferSize ==>
                 |r.diags| > |st.diags| &&
                 r.diags[|st.diags|] == MakeDiagnostic(NoOpeningSymbolFound, [], [], p1.line, p1.column))
  {
    if skipOpeningTag then st
    else
      var (open, s) := Consume(data, st);
      if open.kind != OpenLess then Report(s, NoOpeningSymbolFound, [], []) else s
  }

  /**
   * INTERNAL_cnxml_parser_read_element: the optional `<`, then the name
   * token (whatever its kind, its content is the name), then the tag and
   * the body.
   */
  function ReadElement(data: seq<char>, st: ParseState, skipOpeningTag: bool): (r: (Element, ParseState))
    requires st.pos.index <= |data|
    ensures Advances(data, st, r.1)
    decreases |data| - st.pos.index, 2
  {
    var s0 := ReadOpening(data, st, skipOpeningTag);
    var (nameTok, s1) := Consume(data, s0);
    var s2 := if nameTok.kind != String then Report(s1, MissingElementName, [], []) else s1;
    ReadTag(data, s2, NewElement(nameTok.content))
  }

  /**
   * The first loop of INTERNAL_cnxml_parser_read_element: attributes until
   * `>` or `/`.  `/>` ends a self-closing element; a `/` not followed at once
   * by `>` goes on to the body like `>`.  EOF returns the element as it is;
   * `<` and `=` are skipped.
   */
  function ReadTag(data: seq<char>, st: ParseState, elem: Element): (r: (Element, ParseState))
    requires st.pos.index <= |data|
    ensures Advances(data, st, r.1)
    ensures r.0.name == elem.name && elem.attrs <= r.0.attrs && elem.children <= r.0.children
    decreases |data| - st.pos.index, 1
  {
    var (tok, s) := Consume(data, st);
    if tok.kind == Eof then (elem, s)
    else if tok.kind == Slash then
      if CurChar(data, s.pos) == '>' then (elem, s.(pos := Move(data, s.pos, 1)))
      else ReadBody(data, s, elem)
    else if tok.kind == CloseGreater then ReadBody(data, s, elem)
    else if tok.kind == String then
      var (attrs, s') := ReadAttribute(data, s, elem.attrs, tok.content);
      ReadTag(data, s', elem.(attrs := attrs))
    else ReadTag(data, s, elem)
  }

  /**
   * The second loop of INTERNAL_cnxml_parser_read_element: `<` followed by
   * `/` closes the element (checking the closing name and the final `>`);
   * any other `<` starts a child, read recursively and appended; EOF
   * returns; every other token is added to the text.
   */
  function ReadBody(data: seq<char>, st: ParseState, elem: Element): (r: (Element, ParseState))
    requires st.pos.index <= |data|
    ensures Advances(data, st, r.1)
    ensures r.0.name == elem.name && r.0.attrs == elem.attrs && elem.children <= r.0.children
    decreases |data| - st.pos.index, 0
  {
    var (tok, s) := Consume(data, st);
    if tok.kind == Eof then (elem, s)
    else if tok.kind == OpenLess then
      if CurChar(data, s.pos) == '/' then
        ReadClosing(data, s.(pos := Move(data, s.pos, 1)), elem)
      else
        var (child, s') := ReadElement(data, s, true);
        ReadBody(data, s', elem.(children := elem.children + [child]))
    else ReadBody(data, s, elem.(text := AddText(elem.text, tok.content)))
  }

  /**
   * After `</`: the element's own name then `>` closes it silently; its own
   * name followed by anything else records NO_CLOSING_SYMBOL_FOUND with the
   * closing name; any other token records MISMATCHED_CLOSING_TAG with the
   * element's name as the actual name and the closing token as the expected
   * one, leaving whatever follows unread.
   */
  function ReadClosing(data: seq<char>, st: ParseState, elem: Element): (r: (Element, ParseState))
    requires st.pos.index <= |data|
    ensures Advances(data, st, r.1) && r.0 == elem
    ensures r.1.diags == st.diags ||
            (|st.diags| < BufferSize && |r.1.diags| > |st.diags| &&
             (r.1.diags[|st.diags|].kind == NoClosingSymbolFound || r.1.diags[|st.diags|].kind == MismatchedClosingTag))
  {
    var (endName, s) := Consume(data, st);
    if endName.kind == String && endName.content == elem.name then
      var (close, s') := Consume(data, s);
      if close.kind == CloseGreater then (elem, s')
      else (elem, Report(s', NoClosingSymbolFound, endName.content, []))
    else (elem, Report(s, MismatchedClosingTag, elem.name, endName.content))
  }

  /**
   * Which diagnostic a closing tag records, by the tokens after `</`: its
   * own name then `>` records nothing; its own name then any other token
   * records NO_CLOSING_SYMBOL_FOUND after that token with the closing name;
   * any other first token records MISMATCHED_CLOSING_TAG after it, with the
   * element's name as actual and the token as expected.
   */
  lemma ReadClosingDiagnostics(data: seq<char>, st: ParseState, elem: Element)
    requires st.pos.index <= |data|
    ensures var r := ReadClosing(data, st, elem);
            var t1 := NextToken(data, st.pos);
            var t2 := NextToken(data, t1.1);
            if t1.0.kind == String && t1.0.content == elem.name then
              r.1.pos == t2.1 &&
              r.1.diags == (if t2.0.kind == CloseGreater then st.diags
                            else Record(st.diags, NoClosingSymbolFound, t1.0.content, [], t2.1.line, t2.1.column))
            else
              r.1.pos == t1.1 &&
              r.1.diags == Record(st.diags, MismatchedClosingTag, elem.name, t1.0.content, t1.1.line, t1.1.column)
  {
  }

  /** One pass of the tag loop, by the token read: the step the loop of `Parsers.Parser.ReadTag` takes. */
  lemma TagStep(data: seq<char>, st: ParseState, elem: Element, tok: Token, s: ParseState)
    requires st.pos.index <= |data| && (tok, s) == Consume(data, st)
    ensures tok.kind == Eof ==> ReadTag(data, st, elem) == (elem, s)
    ensures tok.kind == Slash && CurChar(data, s.pos) == '>' ==>
              ReadTag(data, st, elem) == (elem, s.(pos := Move(data, s.pos, 1)))
    ensures (tok.kind == Slash && CurChar(data, s.pos) != '>') || tok.kind == CloseGreater ==>
              ReadTag(data, st, elem) == ReadBody(data, s, elem)
    ensures tok.kind == String ==>
              var (attrs, s') := ReadAttribute(data, s, elem.attrs, tok.content);
              ReadTag(data, st, elem) == ReadTag(data, s', elem.(attrs := attrs))
    ensures tok.kind == OpenLess || tok.kind == Equal ==> ReadTag(data, st, elem) == ReadTag(data, s, elem)
  {
  }

  /** One pass of the body loop, by the token read: the step the loop of `Parsers.Parser.ReadBody` takes. */
  lemma BodyStep(data: seq<char>, st: ParseState, elem: Element, tok: Token, s: ParseState)
    requires st.pos.index <= |data| && (tok, s) == Consume(data, st)
    ensures tok.kind == Eof ==> ReadBody(data, st, elem) == (elem, s)
    ensures tok.kind == OpenLess && CurChar(data, s.pos) == '/' ==>
              ReadBody(data, st, elem) == ReadClosing(data, s.(pos := Move(data, s.pos, 1)), elem)
    ensures tok.kind == OpenLess && CurChar(data, s.pos) != '/' ==>
              var (child, s') := ReadElement(data, s, true);
              ReadBody(data, st, elem) == ReadBody(data, s', elem.(children := elem.children + [child]))
    ensures tok.kind != Eof && tok.kind != OpenLess ==>
              ReadBody(data, st, elem) == ReadBody(data, s, elem.(text := AddText(elem.text, tok.content)))
  {
  }

  /**
   * The name token of an element, whatever its kind, names the element; a
   * name token that is not a STRING records MISSING_ELEMENT_NAME at the
   * position after it, unless the buffer is full.
   */
  lemma ElementName(data: seq<char>, st: ParseState, skipOpeningTag: bool)
    requires st.pos.index <= |data|
    ensures var (nameTok, s1) := Consume(data, ReadOpening(data, st, skipOpeningTag));
            var r := ReadElement(data, st, skipOpeningTag);
            r.0.name == nameTok.content && s1.diags <= r.1.diags &&
            (nameTok.kind != String && |s1.diags| < BufferSize ==>
               r.1.diags[|s1.diags|] == MakeDiagnostic(MissingElementName, [], [], s1.pos.line, s1.pos.column))
  {
    var (nameTok, s1) := Consume(data, ReadOpening(data, st, skipOpeningTag));
    var s2 := if nameTok.kind != String then Report(s1, MissingElementName, [], []) else s1;
    var r := ReadTag(data, s2, NewElement(nameTok.content));
    assert r.1.diags[..|s2.diags|] == s2.diags;
  }

  /** The tag loop and what follows it only ever extend the text: what was added before is kept as a prefix. */
  lemma {:induction false} TagTextGrows(data: seq<char>, st: ParseState, elem: Element)
    requires st.pos.index <= |data|
    ensures elem.text <= ReadTag(data, st, elem).0.text
    decreases |data| - st.pos.index, 1
  {
    var (tok, s) := Consume(data, st);
    if (tok.kind == Slash && CurChar(data, s.pos) != '>') || tok.kind == CloseGreater {
      BodyTextGrows(data, s, elem);
    } else if tok.kind == String {
      var (attrs, s') := ReadAttribute(data, s, elem.attrs, tok.content);
      TagTextGrows(data, s', elem.(attrs := attrs));
    } else if tok.kind == OpenLess || tok.kind == Equal {
      TagTextGrows(data, s, elem);
    }
  }

  /** The body loop only ever extends the text: each token is appended after what was read before. */
  lemma {:induction false} BodyTextGrows(data: seq<char>, st: ParseState, elem: Element)
    requires st.pos.index <= |data|
    ensures elem.text <= ReadBody(data, st, elem).0.text
    decreases |data| - st.pos.index, 0
  {
    var (tok, s) := Consume(data, st);
    if tok.kind == OpenLess {
      if CurChar(data, s.pos) != '/' {
        var (child, s') := ReadElement(data, s, true);
        BodyTextGrows(data, s', elem.(children := elem.children + [child]));
      }
    } else if tok.kind != Eof {
      var text := AddText(elem.text, tok.content);
      BodyTextGrows(data, s, elem.(text := text));
    }
  }

  /** The state of a parser over a fresh tokenizer. */
  const Start: ParseState := ParseState(Pos(0, 1, 1), [])

  /** cnxml_parser_read_element on a fresh parser and tokenizer. */
  function Parse(data: seq<char>): (r: (Element, ParseState))
    ensures r.1.pos.index <= |data| && DiagsValid(r.1.diags)
  {
    ReadElement(data, Start, false)
  }
}
