/**
 * What the parser builds from whole documents of a given shape, for every
 * name and value of that shape.  Each fact is put together from what the
 * tokenizer returns at each piece of text (`Scanning`), one parser routine
 * at a time.
 */
module ParseFacts {
  import opened Lexer
  import opened Diagnostics
  import opened Elements
  import opened Parsing
  import opened Scanning

  /** A word that may follow `<`: one that does not make it open a comment, declaration or instruction. */
  predicate IsName(w: seq<char>) {
    IsWord(w) && w[0] != '!' && w[0] != '?'
  }

  /** At one of `< > / =` the parser consumes that byte alone. */
  lemma PunctAt(data: seq<char>, st: ParseState, c: char)
    requires c == '<' || c == '>' || c == '/' || c == '='
    requires st.pos.index < |data| && data[st.pos.index] == c
    requires c == '<' ==> StartsContent(data, st.pos.index)
    ensures Consume(data, st).0 == Token(PunctKind(c), [c])
    ensures Consume(data, st).1.pos.index == st.pos.index + 1 && Consume(data, st).1.diags == st.diags
  {
    PunctToken(data, st.pos, [], c);
  }

  /** At a word the parser consumes that word as a STRING. */
  lemma WordAt(data: seq<char>, st: ParseState, w: seq<char>)
    requires OccursAt(data, st.pos.index, w) && IsWord(w) && EndsWord(data, st.pos.index + |w|)
    ensures Consume(data, st).0 == Token(String, w)
    ensures Consume(data, st).1.pos.index == st.pos.index + |w| && Consume(data, st).1.diags == st.diags
  {
    WordToken(data, st.pos, [], w);
  }

  // One step of each parser loop, by the token that comes next.

  /** A `/` directly followed by `>` ends the tag loop with the `>` consumed. */
  lemma TagSlashCloses(data: seq<char>, st: ParseState, elem: Element)
    requires st.pos.index <= |data|
    requires NextToken(data, st.pos).0.kind == Slash && CurChar(data, NextToken(data, st.pos).1) == '>'
    ensures ReadTag(data, st, elem) == (elem, ParseState(Move(data, NextToken(data, st.pos).1, 1), st.diags))
  {
  }

  /** A `>` ends the tag loop and the body follows. */
  lemma TagGreaterOpens(data: seq<char>, st: ParseState, elem: Element)
    requires st.pos.index <= |data| && NextToken(data, st.pos).0.kind == CloseGreater
    ensures ReadTag(data, st, elem) == ReadBody(data, ParseState(NextToken(data, st.pos).1, st.diags), elem)
  {
  }

  /** A `<` or `=` in a tag is passed over. */
  lemma TagPassesOver(data: seq<char>, st: ParseState, elem: Element)
    requires st.pos.index <= |data|
    requires NextToken(data, st.pos).0.kind == OpenLess || NextToken(data, st.pos).0.kind == Equal
    ensures ReadTag(data, st, elem) == ReadTag(data, ParseState(NextToken(data, st.pos).1, st.diags), elem)
  {
  }

  /** A `<` not directly followed by `/` in a body starts a child. */
  lemma BodyStartsChild(data: seq<char>, st: ParseState, elem: Element)
    requires st.pos.index <= |data|
    requires NextToken(data, st.pos).0.kind == OpenLess && CurChar(data, NextToken(data, st.pos).1) != '/'
    ensures var (child, s) := ReadElement(data, ParseState(NextToken(data, st.pos).1, st.diags), true);
            ReadBody(data, st, elem) == ReadBody(data, s, elem.(children := elem.children + [child]))
  {
  }

  /** `</` in a body hands over to the closing tag with the `/` consumed. */
  lemma BodyStartsClosing(data: seq<char>, st: ParseState, elem: Element)
    requires st.pos.index <= |data|
    requires NextToken(data, st.pos).0.kind == OpenLess && CurChar(data, NextToken(data, st.pos).1) == '/'
    ensures ReadBody(data, st, elem) ==
            ReadClosing(data, ParseState(Move(data, NextToken(data, st.pos).1, 1), st.diags), elem)
  {
  }

  /** Any token but EOF and `<` in a body is added to the text. */
  lemma BodyAddsText(data: seq<char>, st: ParseState, elem: Element)
    requires st.pos.index <= |data|
    requires NextToken(data, st.pos).0.kind != Eof && NextToken(data, st.pos).0.kind != OpenLess
    ensures var (tok, p1) := NextToken(data, st.pos);
            ReadBody(data, st, elem) == ReadBody(data, ParseState(p1, st.diags), elem.(text := AddText(elem.text, tok.content)))
  {
  }

  // The same steps on text of a known shape.

  /** `<` (unless skipped) then a name: the element goes on to its tag loop, nothing recorded. */
  lemma ElementHead(data: seq<char>, st: ParseState, skipOpeningTag: bool, w: seq<char>) returns (s1: ParseState)
    requires st.pos.index <= |data|
    requires !skipOpeningTag ==> StartsContent(data, st.pos.index) && data[st.pos.index] == '<'
    requires var j := if skipOpeningTag then st.pos.index else st.pos.index + 1;
             OccursAt(data, j, w) && IsWord(w) && EndsWord(data, j + |w|)
    ensures s1.pos.index == (if skipOpeningTag then st.pos.index else st.pos.index + 1) + |w| <= |data|
    ensures s1.diags == st.diags
    ensures ReadElement(data, st, skipOpeningTag) == ReadTag(data, s1, NewElement(w))
  {
    if !skipOpeningTag {
      PunctAt(data, st, '<');
    }
    var s0 := ReadOpening(data, st, skipOpeningTag);
    WordAt(data, s0, w);
    s1 := Consume(data, s0).1;
  }

  /**
   * A tag loop that meets `/>` ends there: the element comes back as it
   * was, so a new element keeps no children and empty text, and nothing is
   * recorded.
   */
  lemma TagSelfCloses(data: seq<char>, st: ParseState, elem: Element, ws: seq<char>)
    requires OccursAt(data, st.pos.index, ws) && AllWhitespace(ws) && OccursAt(data, st.pos.index + |ws|, "/>")
    ensures var r := ReadTag(data, st, elem);
            r.0 == elem && r.1.diags == st.diags && r.1.pos.index == st.pos.index + |ws| + 2
  {
    var i := st.pos.index;
    OccursChar(data, i + |ws|, "/>", 0);
    OccursChar(data, i + |ws|, "/>", 1);
    PunctToken(data, st.pos, ws, '/');
    TagSlashCloses(data, st, elem);
  }

  /** In a tag, `>` ends the tag and the body follows. */
  lemma TagOpensBody(data: seq<char>, st: ParseState, elem: Element) returns (s: ParseState)
    requires st.pos.index < |data| && data[st.pos.index] == '>'
    ensures s.pos.index == st.pos.index + 1 && s.diags == st.diags
    ensures ReadTag(data, st, elem) == ReadBody(data, s, elem)
  {
    PunctAt(data, st, '>');
    TagGreaterOpens(data, st, elem);
    s := ParseState(NextToken(data, st.pos).1, st.diags);
  }

  /** In a tag, a `=` or a `<` is passed over. */
  lemma TagSkips(data: seq<char>, st: ParseState, elem: Element, c: char) returns (s: ParseState)
    requires c == '=' || c == '<'
    requires st.pos.index < |data| && data[st.pos.index] == c
    requires c == '<' ==> StartsContent(data, st.pos.index)
    ensures s.pos.index == st.pos.index + 1 && s.diags == st.diags
    ensures ReadTag(data, st, elem) == ReadTag(data, s, elem)
  {
    PunctAt(data, st, c);
    TagPassesOver(data, st, elem);
    s := ParseState(NextToken(data, st.pos).1, st.diags);
  }

  /** `= "v"` at offset `i`, with whitespace `ws1` before the `=` and `ws2` after it. */
  predicate ValueAt(data: seq<char>, i: nat, ws1: seq<char>, ws2: seq<char>, v: seq<char>) {
    OccursAt(data, i, ws1) && AllWhitespace(ws1) &&
    i + |ws1| < |data| && data[i + |ws1|] == '=' &&
    OccursAt(data, i + |ws1| + 1, ws2) && AllWhitespace(ws2) &&
    var q := i + |ws1| + 1 + |ws2|;
    q < |data| && data[q] == '"' && OccursAt(data, q + 1, v) && '"' !in v &&
    q + 1 + |v| < |data| && data[q + 1 + |v|] == '"'
  }

  /**
   * After an attribute name, `=` then a quoted value stores that value under
   * the name with nothing recorded, both quotes consumed.
   */
  lemma AttributeStored(data: seq<char>, st: ParseState, attrs: seq<Attribute>, name: seq<char>,
                        ws1: seq<char>, ws2: seq<char>, v: seq<char>)
    requires ValueAt(data, st.pos.index, ws1, ws2, v)
    ensures var r := ReadAttribute(data, st, attrs, name);
            r.0 == attrs + [Attribute(name, v)] && r.1.diags == st.diags &&
            r.1.pos.index == st.pos.index + |ws1| + |ws2| + |v| + 3
  {
    PunctToken(data, st.pos, ws1, '=');
    QuotedToken(data, NextToken(data, st.pos).1, ws2, v);
  }

  /** In a tag, `name = "v"` adds that attribute and the loop goes on after the closing quote. */
  lemma TagAttribute(data: seq<char>, st: ParseState, elem: Element, ws0: seq<char>, name: seq<char>,
                     ws1: seq<char>, ws2: seq<char>, v: seq<char>) returns (s: ParseState)
    requires OccursAt(data, st.pos.index, ws0) && AllWhitespace(ws0)
    requires OccursAt(data, st.pos.index + |ws0|, name) && IsWord(name)
    requires ValueAt(data, st.pos.index + |ws0| + |name|, ws1, ws2, v)
    ensures s.pos.index == st.pos.index + |ws0| + |name| + |ws1| + |ws2| + |v| + 3 <= |data| && s.diags == st.diags
    ensures ReadTag(data, st, elem) == ReadTag(data, s, elem.(attrs := elem.attrs + [Attribute(name, v)]))
  {
    var j := st.pos.index + |ws0| + |name|;
    if |ws1| > 0 {
      OccursChar(data, j, ws1, 0);
    }
    WordToken(data, st.pos, ws0, name);
    var (tok, s0) := Consume(data, st);
    AttributeStored(data, s0, elem.attrs, name, ws1, ws2, v);
    TagStep(data, st, elem, tok, s0);
    s := ReadAttribute(data, s0, elem.attrs, name).1;
  }

  /**
   * In a body, `<` not followed by `/` starts a child, read recursively and
   * appended; `j` is where the skipping of whitespace and comments stops.
   */
  lemma BodyChild(data: seq<char>, st: ParseState, elem: Element, j: nat) returns (s: ParseState)
    requires st.pos.index <= |data| && SkipNonContent(data, st.pos).index == j
    requires j + 1 < |data| && data[j] == '<' && data[j + 1] != '/'
    ensures s.pos.index == j + 1 && s.diags == st.diags
    ensures var c := ReadElement(data, s, true);
            ReadBody(data, st, elem) == ReadBody(data, c.1, elem.(children := elem.children + [c.0]))
  {
    PunctAfterSkip(data, st.pos, '<');
    BodyStartsChild(data, st, elem);
    s := ParseState(NextToken(data, st.pos).1, st.diags);
  }

  /** In a body, `</` hands over to the closing tag. */
  lemma BodyCloses(data: seq<char>, st: ParseState, elem: Element) returns (s: ParseState)
    requires StartsContent(data, st.pos.index) && data[st.pos.index] == '<'
    requires st.pos.index + 1 < |data| && data[st.pos.index + 1] == '/'
    ensures s.pos.index == st.pos.index + 2 && s.diags == st.diags
    ensures ReadBody(data, st, elem) == ReadClosing(data, s, elem)
  {
    PunctAt(data, st, '<');
    BodyStartsClosing(data, st, elem);
    s := ParseState(Move(data, NextToken(data, st.pos).1, 1), st.diags);
  }

  /** In a body, a `>` is text. */
  lemma BodyGreaterText(data: seq<char>, st: ParseState, elem: Element) returns (s: ParseState)
    requires st.pos.index < |data| && data[st.pos.index] == '>'
    ensures s.pos.index == st.pos.index + 1 && s.diags == st.diags
    ensures ReadBody(data, st, elem) == ReadBody(data, s, elem.(text := AddText(elem.text, ">")))
  {
    PunctAt(data, st, '>');
    BodyAddsText(data, st, elem);
    s := ParseState(NextToken(data, st.pos).1, st.diags);
  }

  /** At the end of input a body ends as it is. */
  lemma BodyAtEnd(data: seq<char>, st: ParseState, elem: Element)
    requires st.pos.index == |data|
    ensures ReadBody(data, st, elem) == (elem, st)
  {
  }

  /** After `</`, the element's own name then `>` closes it with nothing recorded. */
  lemma ClosingMatches(data: seq<char>, st: ParseState, elem: Element)
    requires OccursAt(data, st.pos.index, elem.name) && IsWord(elem.name)
    requires st.pos.index + |elem.name| < |data| && data[st.pos.index + |elem.name|] == '>'
    ensures var r := ReadClosing(data, st, elem);
            r.0 == elem && r.1.diags == st.diags && r.1.pos.index == st.pos.index + |elem.name| + 1
  {
    WordAt(data, st, elem.name);
    PunctAt(data, Consume(data, st).1, '>');
  }

  /**
   * After `</`, another word records MISMATCHED_CLOSING_TAG, with the
   * element's own name as the actual name and the word as the expected
   * one, just after the word.
   */
  lemma ClosingMismatch(data: seq<char>, st: ParseState, elem: Element, w: seq<char>)
    requires OccursAt(data, st.pos.index, w) && IsWord(w) && EndsWord(data, st.pos.index + |w|)
    requires w != elem.name
    ensures NextToken(data, st.pos).1.index == st.pos.index + |w|
    ensures ReadClosing(data, st, elem) ==
            (elem, Report(ParseState(NextToken(data, st.pos).1, st.diags), MismatchedClosingTag, elem.name, w))
  {
    WordAt(data, st, w);
  }

  /**
   * After `</`, the element's own name, whitespace and then `<`, `/` or
   * `=` instead of `>`: NO_CLOSING_SYMBOL_FOUND is recorded just after that
   * second token, with the closing name as the actual name and no expected
   * one.
   */
  lemma ClosingUnclosed(data: seq<char>, st: ParseState, elem: Element, ws: seq<char>, c: char)
    requires OccursAt(data, st.pos.index, elem.name) && IsWord(elem.name)
    requires c == '<' || c == '/' || c == '='
    requires OccursAt(data, st.pos.index + |elem.name|, ws) && AllWhitespace(ws)
    requires st.pos.index + |elem.name| + |ws| < |data| && data[st.pos.index + |elem.name| + |ws|] == c
    requires c == '<' ==> StartsContent(data, st.pos.index + |elem.name| + |ws|)
    ensures var r := ReadClosing(data, st, elem);
            r.0 == elem && r.1.pos.index == st.pos.index + |elem.name| + |ws| + 1 &&
            r.1.diags == Record(st.diags, NoClosingSymbolFound, elem.name, [], r.1.pos.line, r.1.pos.column)
  {
    var i := st.pos.index + |elem.name|;
    if |ws| > 0 {
      OccursChar(data, i, ws, 0);
    }
    WordAt(data, st, elem.name);
    PunctToken(data, Consume(data, st).1.pos, ws, c);
  }

  /**
   * After `</`, one of `< > / =` records MISMATCHED_CLOSING_TAG just after
   * it, with the element's own name as the actual name and that byte as
   * the expected one.
   */
  lemma ClosingPunct(data: seq<char>, st: ParseState, elem: Element, c: char)
    requires c == '<' || c == '>' || c == '/' || c == '='
    requires st.pos.index < |data| && data[st.pos.index] == c
    requires c == '<' ==> StartsContent(data, st.pos.index)
    ensures var r := ReadClosing(data, st, elem);
            r.0 == elem && r.1.pos.index == st.pos.index + 1 &&
            r.1.diags == Record(st.diags, MismatchedClosingTag, elem.name, [c], r.1.pos.line, r.1.pos.column)
  {
    PunctAt(data, st, c);
  }

  /** `</` at the end of input records MISMATCHED_CLOSING_TAG with the element's name and an empty expected name. */
  lemma ClosingAtEnd(data: seq<char>, st: ParseState, elem: Element)
    requires st.pos.index == |data|
    ensures var r := ReadClosing(data, st, elem);
            r.0 == elem && r.1.pos == st.pos &&
            r.1.diags == Record(st.diags, MismatchedClosingTag, elem.name, [], st.pos.line, st.pos.column)
  {
    assert SkipNonContent(data, st.pos) == st.pos;
  }

  // Whole documents.

  /** `<w/>` parses as the element named w with nothing recorded, the whole input read. */
  lemma ParseSelfClosing(w: seq<char>)
    requires IsName(w)
    ensures var data := "<" + w + "/>";
            Parse(data).0 == NewElement(w) && Parse(data).1.diags == [] && Parse(data).1.pos.index == |data|
  {
    var data := "<" + w + "/>";
    OccursEnd("<", w);
    OccursLeft("<" + w, "/>", 1, w);
    OccursEnd("<" + w, "/>");
    var s1 := ElementHead(data, Start, false, w);
    TagSelfCloses(data, s1, NewElement(w), []);
  }

  /** Where the pieces of `<a k="v"/>` lie. */
  lemma AttributeDocument(a: seq<char>, k: seq<char>, v: seq<char>)
    ensures var data := "<" + a + " " + k + "=\"" + v + "\"" + "/>";
            |data| == 7 + |a| + |k| + |v| && data[0] == '<' && data[1 + |a|] == ' ' &&
            data[2 + |a| + |k|] == '=' && data[3 + |a| + |k|] == '"' && data[4 + |a| + |k| + |v|] == '"' &&
            OccursAt(data, 1, a) && OccursAt(data, 1 + |a|, " ") && OccursAt(data, 2 + |a|, k) &&
            OccursAt(data, 4 + |a| + |k|, v) && OccursAt(data, 5 + |a| + |k| + |v|, "/>")
  {
    var d1 := "<" + a;
    var d2 := d1 + " ";
    var d3 := d2 + k;
    var d4 := d3 + "=\"";
    var d5 := d4 + v;
    var d6 := d5 + "\"";
    OccursEnd("<", a);
    OccursLeft(d1, " ", 1, a);
    OccursLeft(d2, k, 1, a);
    OccursLeft(d3, "=\"", 1, a);
    OccursLeft(d4, v, 1, a);
    OccursLeft(d5, "\"", 1, a);
    OccursLeft(d6, "/>", 1, a);
    OccursEnd(d1, " ");
    OccursLeft(d2, k, |d1|, " ");
    OccursLeft(d3, "=\"", |d1|, " ");
    OccursLeft(d4, v, |d1|, " ");
    OccursLeft(d5, "\"", |d1|, " ");
    OccursLeft(d6, "/>", |d1|, " ");
    OccursEnd(d2, k);
    OccursLeft(d3, "=\"", |d2|, k);
    OccursLeft(d4, v, |d2|, k);
    OccursLeft(d5, "\"", |d2|, k);
    OccursLeft(d6, "/>", |d2|, k);
    OccursEnd(d4, v);
    OccursLeft(d5, "\"", |d4|, v);
    OccursLeft(d6, "/>", |d4|, v);
    OccursEnd(d6, "/>");
  }

  /** Where the pieces of `<a k="v"/>` lie, as facts about `data`. */
  predicate AttributeLayout(data: seq<char>, a: seq<char>, k: seq<char>, v: seq<char>) {
    |data| == 7 + |a| + |k| + |v| && data[0] == '<' && data[1 + |a|] == ' ' &&
    data[2 + |a| + |k|] == '=' && data[3 + |a| + |k|] == '"' && data[4 + |a| + |k| + |v|] == '"' &&
    OccursAt(data, 1, a) && OccursAt(data, 1 + |a|, " ") && OccursAt(data, 2 + |a|, k) &&
    OccursAt(data, 4 + |a| + |k|, v) && OccursAt(data, 5 + |a| + |k| + |v|, "/>")
  }

  /** The tag loop of `<a k="v"/>`, entered after the name. */
  lemma AttributeTag(data: seq<char>, st: ParseState, a: seq<char>, k: seq<char>, v: seq<char>)
    requires IsWord(k) && '"' !in v && AttributeLayout(data, a, k, v) && st.pos.index == 1 + |a|
    ensures var r := ReadTag(data, st, NewElement(a));
            r.0 == Element(a, [Attribute(k, v)], [], []) && r.1.diags == st.diags
  {
    assert ValueAt(data, 2 + |a| + |k|, [], [], v);
    var s2 := TagAttribute(data, st, NewElement(a), " ", k, [], [], v);
    var e := NewElement(a).(attrs := NewElement(a).attrs + [Attribute(k, v)]);
    assert e == Element(a, [Attribute(k, v)], [], []);
    TagSelfCloses(data, s2, e, []);
  }

  /** A document laid out as `<a k="v"/>` parses as the element a with the one attribute k = v. */
  lemma AttributeParses(data: seq<char>, a: seq<char>, k: seq<char>, v: seq<char>)
    requires IsName(a) && IsWord(k) && '"' !in v && AttributeLayout(data, a, k, v)
    ensures Parse(data).0 == Element(a, [Attribute(k, v)], [], []) && Parse(data).1.diags == []
  {
    OccursChar(data, 1, a, 0);
    var s1 := ElementHead(data, Start, false, a);
    AttributeTag(data, s1, a, k, v);
  }

  /** `<a k="v"/>` parses as the element a with the one attribute k = v, nothing recorded. */
  lemma ParseAttribute(a: seq<char>, k: seq<char>, v: seq<char>)
    requires IsName(a) && IsWord(k) && '"' !in v
    ensures var data := "<" + a + " " + k + "=\"" + v + "\"" + "/>";
            Parse(data).0 == Element(a, [Attribute(k, v)], [], []) && Parse(data).1.diags == []
  {
    AttributeDocument(a, k, v);
    AttributeParses("<" + a + " " + k + "=\"" + v + "\"" + "/>", a, k, v);
  }

  // Children.

  /** `w/>` at offset `i`: a self-closing element named w whose `<` lies just before `i`. */
  predicate SelfClosingAt(data: seq<char>, i: nat, w: seq<char>) {
    OccursAt(data, i, w) && IsWord(w) && OccursAt(data, i + |w|, "/>")
  }

  /** `</name>` at offset `i`. */
  predicate ClosingAt(data: seq<char>, i: nat, name: seq<char>) {
    i + 2 + |name| < |data| && data[i] == '<' && data[i + 1] == '/' &&
    OccursAt(data, i + 2, name) && IsWord(name) && data[i + 2 + |name|] == '>'
  }

  /** `w/>` at offset `i` read as an element whose `<` was already consumed: the element w, nothing recorded. */
  lemma ChildSelfCloses(data: seq<char>, st: ParseState, i: nat, w: seq<char>)
    requires st.pos.index == i && SelfClosingAt(data, i, w)
    ensures var r := ReadElement(data, st, true);
            r.0 == NewElement(w) && r.1.diags == st.diags && r.1.pos.index == i + |w| + 2
  {
    OccursChar(data, i + |w|, "/>", 0);
    var s1 := ElementHead(data, st, true, w);
    TagSelfCloses(data, s1, NewElement(w), []);
  }

  /** In a body, the element's own closing tag at offset `i` returns the element as it is. */
  lemma BodyClosesOwn(data: seq<char>, st: ParseState, elem: Element, i: nat)
    requires st.pos.index == i && ClosingAt(data, i, elem.name)
    ensures var r := ReadBody(data, st, elem);
            r.0 == elem && r.1.diags == st.diags && r.1.pos.index == i + 3 + |elem.name|
  {
    var s := BodyCloses(data, st, elem);
    ClosingMatches(data, s, elem);
  }

  /** A body that, from where comments and whitespace end at `j`, holds `<b/>`: the child b is appended. */
  lemma BodyChildSelfCloses(data: seq<char>, st: ParseState, elem: Element, j: nat, b: seq<char>) returns (s: ParseState)
    requires st.pos.index <= |data| && SkipNonContent(data, st.pos).index == j
    requires j < |data| && data[j] == '<' && SelfClosingAt(data, j + 1, b)
    ensures s.pos.index == j + |b| + 3 && s.diags == st.diags
    ensures ReadBody(data, st, elem) == ReadBody(data, s, elem.(children := elem.children + [NewElement(b)]))
  {
    OccursChar(data, j + 1, b, 0);
    var s1 := BodyChild(data, st, elem, j);
    ChildSelfCloses(data, s1, j + 1, b);
    s := ReadElement(data, s1, true).1;
  }

  /** `</w` at offset `k`, for a word w that ends there. */
  predicate ClosingWordAt(data: seq<char>, k: nat, w: seq<char>) {
    k + 1 < |data| && data[k] == '<' && data[k + 1] == '/' &&
    OccursAt(data, k + 2, w) && IsWord(w) && EndsWord(data, k + 2 + |w|)
  }

  /** `b></w` at offset `i`, for a word w other than b. */
  predicate MismatchAt(data: seq<char>, i: nat, b: seq<char>, w: seq<char>) {
    OccursAt(data, i, b) && IsWord(b) && i + |b| < |data| && data[i + |b|] == '>' &&
    ClosingWordAt(data, i + |b| + 1, w) && w != b
  }

  /**
   * A body that opens on `</w`, for a word w other than the element's
   * name: the element comes back as it is, with MISMATCHED_CLOSING_TAG
   * recorded just after w, naming the element as the actual name and w as
   * the expected one.
   */
  lemma BodyMismatch(data: seq<char>, st: ParseState, elem: Element, k: nat, w: seq<char>)
    requires st.pos.index == k && ClosingWordAt(data, k, w) && w != elem.name
    ensures var r := ReadBody(data, st, elem);
            r.0 == elem && r.1.pos.index == k + 2 + |w| &&
            r.1.diags == Record(st.diags, MismatchedClosingTag, elem.name, w, r.1.pos.line, r.1.pos.column)
  {
    var s := BodyCloses(data, st, elem);
    ClosingMismatch(data, s, elem, w);
  }

  /**
   * `b></w` at `i`, for a word w other than b, read as an element whose
   * `<` was already consumed: the element b comes back empty, with
   * MISMATCHED_CLOSING_TAG recorded just after w, naming b as the actual
   * name and w as the expected one.
   */
  lemma ChildMismatch(data: seq<char>, st: ParseState, i: nat, b: seq<char>, w: seq<char>)
    requires st.pos.index == i && MismatchAt(data, i, b, w)
    ensures var r := ReadElement(data, st, true);
            r.0 == NewElement(b) && r.1.pos.index == i + |b| + 3 + |w| &&
            r.1.diags == Record(st.diags, MismatchedClosingTag, b, w, r.1.pos.line, r.1.pos.column)
  {
    var s := ChildOpens(data, st, i, b);
    BodyMismatch(data, s, NewElement(b), i + |b| + 1, w);
  }

  /** `b>` at `i` read as an element whose `<` was already consumed hands the rest to the body of b. */
  lemma ChildOpens(data: seq<char>, st: ParseState, i: nat, b: seq<char>) returns (s: ParseState)
    requires st.pos.index == i && OccursAt(data, i, b) && IsWord(b) && i + |b| < |data| && data[i + |b|] == '>'
    ensures s.pos.index == i + |b| + 1 && s.diags == st.diags
    ensures ReadElement(data, st, true) == ReadBody(data, s, NewElement(b))
  {
    var s1 := ElementHead(data, st, true, b);
    s := TagOpensBody(data, s1, NewElement(b));
  }

  // More whole documents.

  /** Where the pieces of `<a=</>` lie. */
  predicate StrayLayout(data: seq<char>, a: seq<char>) {
    |data| == 5 + |a| && data[0] == '<' && OccursAt(data, 1, a) &&
    data[1 + |a|] == '=' && data[2 + |a|] == '<' && data[3 + |a|] == '/' && data[4 + |a|] == '>'
  }

  /** The tag loop of `<a=</>`, entered after the name. */
  lemma StrayTag(data: seq<char>, st: ParseState, a: seq<char>)
    requires StrayLayout(data, a) && st.pos.index == 1 + |a|
    ensures var r := ReadTag(data, st, NewElement(a));
            r.0 == NewElement(a) && r.1.diags == st.diags
  {
    var s1 := TagSkips(data, st, NewElement(a), '=');
    StrayTagEnd(data, s1, a);
  }

  /** The tag loop of `<a=</>`, entered at the `<`. */
  lemma StrayTagEnd(data: seq<char>, st: ParseState, a: seq<char>)
    requires StrayLayout(data, a) && st.pos.index == 2 + |a|
    ensures var r := ReadTag(data, st, NewElement(a));
            r.0 == NewElement(a) && r.1.diags == st.diags
  {
    assert OccursAt(data, 3 + |a|, "/>") by {
      assert data[3 + |a|..5 + |a|] == "/>";
    }
    var s := TagSkips(data, st, NewElement(a), '<');
    TagSelfCloses(data, s, NewElement(a), []);
  }

  /**
   * `<a=</>`: a `=` with no attribute name before it and a `<` inside the
   * tag are passed over, so the document parses as `<a/>` with nothing
   * recorded.
   */
  lemma ParseSkipsStray(a: seq<char>)
    requires IsName(a)
    ensures var data := "<" + a + "=</>";
            Parse(data).0 == NewElement(a) && Parse(data).1.diags == []
  {
    var data := "<" + a + "=</>";
    OccursEnd("<", a);
    OccursLeft("<" + a, "=</>", 1, a);
    OccursChar(data, 1, a, 0);
    var s1 := ElementHead(data, Start, false, a);
    StrayTag(data, s1, a);
  }

  /** `<a>` opens the document. */
  predicate HeadLayout(data: seq<char>, a: seq<char>) {
    |data| > 1 + |a| && data[0] == '<' && OccursAt(data, 1, a) && data[1 + |a|] == '>'
  }

  /** From offset `j`: `<b/></a>` and nothing after. */
  predicate ChildCloseLayout(data: seq<char>, j: nat, b: seq<char>, a: seq<char>) {
    |data| == j + 6 + |b| + |a| && data[j] == '<' && OccursAt(data, j + 1, b) &&
    data[j + 1 + |b|] == '/' && data[j + 2 + |b|] == '>' && data[j + 3 + |b|] == '<' && data[j + 4 + |b|] == '/' &&
    OccursAt(data, j + 5 + |b|, a) && data[j + 5 + |b| + |a|] == '>'
  }

  /** `<a>` at the start of a document hands the rest to the body of a. */
  lemma HeadOpens(data: seq<char>, a: seq<char>) returns (s: ParseState)
    requires IsName(a) && HeadLayout(data, a)
    ensures s.pos.index == 2 + |a| && s.diags == []
    ensures Parse(data) == ReadBody(data, s, NewElement(a))
  {
    OccursChar(data, 1, a, 0);
    var s1 := ElementHead(data, Start, false, a);
    s := TagOpensBody(data, s1, NewElement(a));
  }

  /** The pieces of `<b/></a>` from offset `j`, as the body lemmas take them. */
  lemma ChildClosePieces(data: seq<char>, j: nat, b: seq<char>, a: seq<char>)
    requires IsWord(a) && IsWord(b) && ChildCloseLayout(data, j, b, a)
    ensures j < |data| && data[j] == '<' && SelfClosingAt(data, j + 1, b) && ClosingAt(data, j + |b| + 3, a)
  {
    assert OccursAt(data, j + 1 + |b|, "/>") by {
      assert data[j + 1 + |b|..j + 3 + |b|] == "/>";
    }
  }

  /** A body of a that, once comments and whitespace end at `j`, is `<b/></a>`: a with the one child b. */
  lemma ChildThenClose(data: seq<char>, st: ParseState, a: seq<char>, b: seq<char>, j: nat)
    requires IsWord(a) && IsWord(b) && ChildCloseLayout(data, j, b, a)
    requires st.pos.index <= |data| && SkipNonContent(data, st.pos).index == j
    ensures var r := ReadBody(data, st, NewElement(a));
            r.0 == Element(a, [], [NewElement(b)], []) && r.1.diags == st.diags
  {
    ChildClosePieces(data, j, b, a);
    var s := BodyChildSelfCloses(data, st, NewElement(a), j, b);
    assert NewElement(a).(children := NewElement(a).children + [NewElement(b)]) == Element(a, [], [NewElement(b)], []);
    BodyClosesOwn(data, s, Element(a, [], [NewElement(b)], []), j + |b| + 3);
  }

  /** Where the pieces of `<a><b/></a>` lie. */
  lemma NestedDocument(a: seq<char>, b: seq<char>)
    ensures var data := "<" + a + "><" + b + "/></" + a + ">";
            HeadLayout(data, a) && ChildCloseLayout(data, 2 + |a|, b, a)
  {
    var d1 := "<" + a;
    var d2 := d1 + "><";
    var d3 := d2 + b;
    var d4 := d3 + "/></";
    var d5 := d4 + a;
    OccursEnd("<", a);
    OccursLeft(d1, "><", 1, a);
    OccursLeft(d2, b, 1, a);
    OccursLeft(d3, "/></", 1, a);
    OccursLeft(d4, a, 1, a);
    OccursLeft(d5, ">", 1, a);
    OccursEnd(d2, b);
    OccursLeft(d3, "/></", |d2|, b);
    OccursLeft(d4, a, |d2|, b);
    OccursLeft(d5, ">", |d2|, b);
    OccursEnd(d4, a);
    OccursLeft(d5, ">", |d4|, a);
  }

  /** A document laid out as `<a><b/></a>` parses as a with the one child b. */
  lemma NestedParses(data: seq<char>, a: seq<char>, b: seq<char>)
    requires IsName(a) && IsName(b) && HeadLayout(data, a) && ChildCloseLayout(data, 2 + |a|, b, a)
    ensures Parse(data).0 == Element(a, [], [NewElement(b)], []) && Parse(data).1.diags == []
  {
    var s := HeadOpens(data, a);
    NestedBody(data, s, a, b);
  }

  /** The body of a in a document laid out as `<a><b/></a>`, from just after `<a>`. */
  lemma NestedBody(data: seq<char>, st: ParseState, a: seq<char>, b: seq<char>)
    requires IsName(a) && IsName(b) && ChildCloseLayout(data, 2 + |a|, b, a) && st.pos.index == 2 + |a|
    ensures var r := ReadBody(data, st, NewElement(a));
            r.0 == Element(a, [], [NewElement(b)], []) && r.1.diags == st.diags
  {
    OccursChar(data, 3 + |a|, b, 0);
    SkipWhitespaceRun(data, st.pos, []);
    ChildThenClose(data, st, a, b, 2 + |a|);
  }

  /** `<a><b/></a>` parses as a with the one child b and empty text, nothing recorded. */
  lemma ParseNested(a: seq<char>, b: seq<char>)
    requires IsName(a) && IsName(b)
    ensures var data := "<" + a + "><" + b + "/></" + a + ">";
            Parse(data).0 == Element(a, [], [NewElement(b)], []) && Parse(data).1.diags == []
  {
    NestedDocument(a, b);
    NestedParses("<" + a + "><" + b + "/></" + a + ">", a, b);
  }

  /** Where the pieces of `<a><!--c--><b/></a>` lie. */
  lemma CommentDocument(a: seq<char>, b: seq<char>, c: seq<char>)
    ensures var data := "<" + a + "><!--" + c + "--><" + b + "/></" + a + ">";
            HeadLayout(data, a) && OccursAt(data, 2 + |a|, CommentStart) && OccursAt(data, 6 + |a|, c) &&
            OccursAt(data, 6 + |a| + |c|, CommentEnd) && ChildCloseLayout(data, 9 + |a| + |c|, b, a)
  {
    CommentDocumentHead(a, b, c);
    CommentDocumentTail(a, b, c);
  }

  /** Where `<a>` and the comment lie in `<a><!--c--><b/></a>`. */
  lemma CommentDocumentHead(a: seq<char>, b: seq<char>, c: seq<char>)
    ensures var data := "<" + a + "><!--" + c + "--><" + b + "/></" + a + ">";
            HeadLayout(data, a) && OccursAt(data, 2 + |a|, CommentStart) && OccursAt(data, 6 + |a|, c) &&
            OccursAt(data, 6 + |a| + |c|, CommentEnd)
  {
    var d1 := "<" + a;
    var d2 := d1 + "><!--";
    var d3 := d2 + c;
    var d4 := d3 + "--><";
    var d5 := d4 + b;
    var d6 := d5 + "/></";
    var d7 := d6 + a;
    var data := d7 + ">";
    OccursEnd("<", a);
    OccursLeft(d1, "><!--", 1, a);
    OccursLeft(d2, c, 1, a);
    OccursLeft(d3, "--><", 1, a);
    OccursLeft(d4, b, 1, a);
    OccursLeft(d5, "/></", 1, a);
    OccursLeft(d6, a, 1, a);
    OccursLeft(d7, ">", 1, a);
    assert OccursAt(data, 2 + |a|, CommentStart) by {
      assert data[2 + |a|..6 + |a|] == CommentStart;
    }
    OccursEnd(d2, c);
    OccursLeft(d3, "--><", |d2|, c);
    OccursLeft(d4, b, |d2|, c);
    OccursLeft(d5, "/></", |d2|, c);
    OccursLeft(d6, a, |d2|, c);
    OccursLeft(d7, ">", |d2|, c);
    assert OccursAt(data, 6 + |a| + |c|, CommentEnd) by {
      assert data[6 + |a| + |c|..9 + |a| + |c|] == CommentEnd;
    }
  }

  /** Where `<b/></a>` lies in `<a><!--c--><b/></a>`. */
  lemma CommentDocumentTail(a: seq<char>, b: seq<char>, c: seq<char>)
    ensures var data := "<" + a + "><!--" + c + "--><" + b + "/></" + a + ">";
            ChildCloseLayout(data, 9 + |a| + |c|, b, a)
  {
    var d4 := "<" + a + "><!--" + c + "--><";
    var d5 := d4 + b;
    var d6 := d5 + "/></";
    var d7 := d6 + a;
    OccursEnd(d4, b);
    OccursLeft(d5, "/></", |d4|, b);
    OccursLeft(d6, a, |d4|, b);
    OccursLeft(d7, ">", |d4|, b);
    OccursEnd(d6, a);
    OccursLeft(d7, ">", |d6|, a);
  }

  /** A document laid out as `<a><!--c--><b/></a>` parses as a with the one child b. */
  lemma CommentParses(data: seq<char>, a: seq<char>, b: seq<char>, c: seq<char>)
    requires IsName(a) && IsName(b) && '-' !in c && HeadLayout(data, a)
    requires OccursAt(data, 2 + |a|, CommentStart) && OccursAt(data, 6 + |a|, c)
    requires OccursAt(data, 6 + |a| + |c|, CommentEnd) && ChildCloseLayout(data, 9 + |a| + |c|, b, a)
    ensures Parse(data).0 == Element(a, [], [NewElement(b)], []) && Parse(data).1.diags == []
  {
    var s := HeadOpens(data, a);
    CommentBody(data, s, a, b, c);
  }

  /** The body of a in a document laid out as `<a><!--c--><b/></a>`, from just after `<a>`. */
  lemma CommentBody(data: seq<char>, st: ParseState, a: seq<char>, b: seq<char>, c: seq<char>)
    requires IsName(a) && IsName(b) && '-' !in c && st.pos.index == 2 + |a|
    requires OccursAt(data, 2 + |a|, CommentStart) && OccursAt(data, 6 + |a|, c)
    requires OccursAt(data, 6 + |a| + |c|, CommentEnd) && ChildCloseLayout(data, 9 + |a| + |c|, b, a)
    ensures var r := ReadBody(data, st, NewElement(a));
            r.0 == Element(a, [], [NewElement(b)], []) && r.1.diags == st.diags
  {
    CommentSkipped(data, st.pos, a, b, c);
    ChildThenClose(data, st, a, b, 9 + |a| + |c|);
  }

  /** In a document laid out as `<a><!--c--><b/></a>`, the comment is passed over up to `<b`. */
  lemma CommentSkipped(data: seq<char>, p: Pos, a: seq<char>, b: seq<char>, c: seq<char>)
    requires IsName(b) && '-' !in c && p.index == 2 + |a|
    requires OccursAt(data, 2 + |a|, CommentStart) && OccursAt(data, 6 + |a|, c)
    requires OccursAt(data, 6 + |a| + |c|, CommentEnd) && ChildCloseLayout(data, 9 + |a| + |c|, b, a)
    ensures p.index <= |data| && SkipNonContent(data, p).index == 9 + |a| + |c|
  {
    OccursChar(data, 10 + |a| + |c|, b, 0);
    SkipComment(data, p, c);
  }

  /**
   * A comment in a body is skipped: `<a><!--c--><b/></a>` parses as
   * `<a><b/></a>` does, nothing recorded.
   */
  lemma ParseNestedWithComment(a: seq<char>, b: seq<char>, c: seq<char>)
    requires IsName(a) && IsName(b) && '-' !in c
    ensures var data := "<" + a + "><!--" + c + "--><" + b + "/></" + a + ">";
            Parse(data).0 == Parse("<" + a + "><" + b + "/></" + a + ">").0 == Element(a, [], [NewElement(b)], []) &&
            Parse(data).1.diags == []
  {
    CommentDocument(a, b, c);
    CommentParses("<" + a + "><!--" + c + "--><" + b + "/></" + a + ">", a, b, c);
    ParseNested(a, b);
  }

  /** From offset `j`: `<b></a>` and nothing after. */
  predicate MismatchLayout(data: seq<char>, j: nat, b: seq<char>, a: seq<char>) {
    |data| == j + 5 + |b| + |a| && data[j] == '<' && OccursAt(data, j + 1, b) &&
    data[j + 1 + |b|] == '>' && data[j + 2 + |b|] == '<' && data[j + 3 + |b|] == '/' &&
    OccursAt(data, j + 4 + |b|, a) && data[j + 4 + |b| + |a|] == '>'
  }

  /** Where the pieces of `<a><b></a>` lie. */
  lemma MismatchDocument(a: seq<char>, b: seq<char>)
    ensures var data := "<" + a + "><" + b + "></" + a + ">";
            HeadLayout(data, a) && MismatchLayout(data, 2 + |a|, b, a)
  {
    var d1 := "<" + a;
    var d2 := d1 + "><";
    var d3 := d2 + b;
    var d4 := d3 + "></";
    var d5 := d4 + a;
    OccursEnd("<", a);
    OccursLeft(d1, "><", 1, a);
    OccursLeft(d2, b, 1, a);
    OccursLeft(d3, "></", 1, a);
    OccursLeft(d4, a, 1, a);
    OccursLeft(d5, ">", 1, a);
    OccursEnd(d2, b);
    OccursLeft(d3, "></", |d2|, b);
    OccursLeft(d4, a, |d2|, b);
    OccursLeft(d5, ">", |d2|, b);
    OccursEnd(d4, a);
    OccursLeft(d5, ">", |d4|, a);
  }

  /** A body whose input ends with one `>` gains the text `>` and ends. */
  lemma BodyLastGreater(data: seq<char>, st: ParseState, elem: Element)
    requires st.pos.index + 1 == |data| && data[st.pos.index] == '>'
    ensures var r := ReadBody(data, st, elem);
            r.0 == elem.(text := AddText(elem.text, ">")) && r.1.diags == st.diags
  {
    var s := BodyGreaterText(data, st, elem);
    BodyAtEnd(data, s, elem.(text := AddText(elem.text, ">")));
  }

  /**
   * A body that, from where comments and whitespace end at `j`, holds
   * `<b>` then `</w` for a word w other than b: the element gains the
   * child b, and MISMATCHED_CLOSING_TAG is recorded just after w.
   */
  lemma BodyMismatchedChild(data: seq<char>, st: ParseState, elem: Element, j: nat, b: seq<char>, w: seq<char>)
      returns (s: ParseState)
    requires st.pos.index <= |data| && SkipNonContent(data, st.pos).index == j
    requires j < |data| && data[j] == '<' && MismatchAt(data, j + 1, b, w)
    ensures s.pos.index == j + 1 + |b| + 3 + |w| && s.diags == Record(st.diags, MismatchedClosingTag, b, w, s.pos.line, s.pos.column)
    ensures ReadBody(data, st, elem) == ReadBody(data, s, elem.(children := elem.children + [NewElement(b)]))
  {
    OccursChar(data, j + 1, b, 0);
    var s1 := BodyChild(data, st, elem, j);
    ChildMismatch(data, s1, j + 1, b, w);
    s := ReadElement(data, s1, true).1;
  }

  /** The pieces of `<b></a>` from offset `j`, as the body lemmas take them. */
  lemma MismatchPieces(data: seq<char>, j: nat, b: seq<char>, a: seq<char>)
    requires IsName(a) && IsName(b) && a != b && MismatchLayout(data, j, b, a)
    ensures StartsContent(data, j) && data[j] == '<' && MismatchAt(data, j + 1, b, a)
  {
    OccursChar(data, j + 1, b, 0);
  }

  /** In the body of a laid out as `<a><b></a>`, the child b is read up to the `>` that ends the input. */
  lemma MismatchChild(data: seq<char>, st: ParseState, a: seq<char>, b: seq<char>) returns (s: ParseState)
    requires IsName(a) && IsName(b) && a != b && MismatchLayout(data, 2 + |a|, b, a)
    requires st.pos.index == 2 + |a|
    ensures s.pos.index + 1 == |data| && s.diags == Record(st.diags, MismatchedClosingTag, b, a, s.pos.line, s.pos.column)
    ensures ReadBody(data, st, NewElement(a)) == ReadBody(data, s, Element(a, [], [NewElement(b)], []))
  {
    var j := 2 + |a|;
    MismatchPieces(data, j, b, a);
    SkipWhitespaceRun(data, st.pos, []);
    s := BodyMismatchedChild(data, st, NewElement(a), j, b, a);
    assert NewElement(a).(children := NewElement(a).children + [NewElement(b)]) == Element(a, [], [NewElement(b)], []);
  }

  /** The body of a in a document laid out as `<a><b></a>`, from just after `<a>`. */
  lemma MismatchBody(data: seq<char>, st: ParseState, a: seq<char>, b: seq<char>)
    requires IsName(a) && IsName(b) && a != b && MismatchLayout(data, 2 + |a|, b, a)
    requires st.pos.index == 2 + |a| && st.diags == []
    ensures var r := ReadBody(data, st, NewElement(a));
            r.0 == Element(a, [], [NewElement(b)], ">") &&
            |r.1.diags| == 1 && r.1.diags[0].kind == MismatchedClosingTag &&
            r.1.diags[0].actualName == b && r.1.diags[0].expectedName == a
  {
    var s := MismatchChild(data, st, a, b);
    BodyLastGreater(data, s, Element(a, [], [NewElement(b)], []));
  }

  /**
   * `<a><b></a>` for names a and b that differ: the closing tag ends b,
   * not a, so b is recorded as the actual name and a as the expected one,
   * once; the `>` after it is text of a.
   */
  lemma ParseMismatched(a: seq<char>, b: seq<char>)
    requires IsName(a) && IsName(b) && a != b
    ensures var data := "<" + a + "><" + b + "></" + a + ">";
            var (e, st) := Parse(data);
            e == Element(a, [], [NewElement(b)], ">") &&
            |st.diags| == 1 && st.diags[0].kind == MismatchedClosingTag &&
            st.diags[0].actualName == b && st.diags[0].expectedName == a
  {
    var data := "<" + a + "><" + b + "></" + a + ">";
    MismatchDocument(a, b);
    var s := HeadOpens(data, a);
    MismatchBody(data, s, a, b);
  }
}
