/**
 * The cnxml parser as an object: it drives a tokenizer, keeps its error
 * buffer in a field, and builds elements in `while (true)` loops.  Every
 * method is proved to leave the tokenizer and the buffer exactly where the
 * functions of `Parsing` say, and to return the element they return.
 */
module Parsers {
  import opened Lexer
  import opened Diagnostics
  import opened Elements
  import opened Parsing
  import opened Tokenizers

  /** The elements of a child list that may not have been allocated yet. */
  function ChildrenOf(list: ElementList?): seq<Element>
    reads list, if list == null then {} else {list.items}
    requires list != null ==> list.Valid()
  {
    if list == null then [] else list.Contents()
  }

  class Parser {
    /** The tokenizer the parser reads from. */
    const tokenizer: Tokenizer
    /** error_buffer[0..error_count]; empty while error_buffer is NULL. */
    var errors: seq<Diagnostic>

    ghost predicate Valid()
      reads this, tokenizer
    {
      tokenizer.Valid()
    }

    /** The parser's state as a value: cursor and error buffer. */
    function State(): ParseState
      reads this, tokenizer
    {
      ParseState(tokenizer.Cursor(), errors)
    }

    /** cnxml_parser_new: no errors yet. */
    constructor (tokenizer: Tokenizer)
      requires tokenizer.Valid()
      ensures Valid() && this.tokenizer == tokenizer && errors == []
    {
      this.tokenizer := tokenizer;
      errors := [];
    }

    /** cnxml_parser_has_errors: the buffer is allocated with the first error. */
    function HasErrors(): bool
      reads this
    {
      |errors| > 0
    }

    /**
     * cnxml_parser_report_error: ignored when the buffer is full; otherwise
     * the diagnostic is stored at the tokenizer's line and column, followed
     * by the sentinel when only one slot is left.
     */
    method ReportError(kind: ErrorKind, actual: seq<char>, expected: seq<char>)
      modifies this
      ensures errors == Record(old(errors), kind, actual, expected, tokenizer.line, tokenizer.column)
      ensures old(|errors|) < BufferSize ==> HasErrors()
    {
      if |errors| >= BufferSize {
        return;
      }
      var err := MakeDiagnostic(kind, actual, expected, tokenizer.line, tokenizer.column);
      errors := errors + [err];
      if |errors| == BufferSize - 1 {
        errors := errors + [Sentinel(tokenizer.line, tokenizer.column)];
      }
    }

    /** cnxml_parser_read_attribute: the attribute list after reading `= value` for `name`. */
    method ReadAttribute(attrs: seq<Attribute>, name: seq<char>) returns (result: seq<Attribute>)
      requires Valid()
      modifies this, tokenizer
      ensures Valid()
      ensures (result, State()) == Parsing.ReadAttribute(tokenizer.data, old(State()), attrs, name)
    {
      result := attrs;
      var tok := tokenizer.NextToken();
      if tok.kind == Equal {
        tok := tokenizer.NextToken();
        if tok.kind == String {
          result := attrs + [Attribute(name, tok.content)];
        } else {
          ReportError(MissingAttributeValue, name, []);
        }
      } else {
        ReportError(MissingEqualsSign, name, []);
      }
    }

    /**
     * INTERNAL_cnxml_parser_read_element: the optional `<`, the name token
     * (its content is the name even when it is not a STRING), then the tag.
     */
    method ReadElementInternal(skipOpeningTag: bool) returns (elem: Element)
      requires Valid()
      modifies this, tokenizer
      ensures Valid()
      ensures (elem, State()) == Parsing.ReadElement(tokenizer.data, old(State()), skipOpeningTag)
      decreases |tokenizer.data| - tokenizer.index, 2
    {
      var tok: Token;
      if !skipOpeningTag {
        tok := tokenizer.NextToken();
        if tok.kind != OpenLess {
          ReportError(NoOpeningSymbolFound, [], []);
        }
      }
      tok := tokenizer.NextToken();
      if tok.kind != String {
        ReportError(MissingElementName, [], []);
      }
      elem := ReadTag(NewElement(tok.content));
    }

    /**
     * The first `while (true)` loop of INTERNAL_cnxml_parser_read_element:
     * attributes until `>` or `/`; `/>` returns the element at once (the
     * source's self_closing flag), otherwise the body loop follows.
     */
    method ReadTag(start: Element) returns (elem: Element)
      requires Valid() && start.children == []
      modifies this, tokenizer
      ensures Valid()
      ensures (elem, State()) == Parsing.ReadTag(tokenizer.data, old(State()), start)
      decreases |tokenizer.data| - tokenizer.index, 1
    {
      ghost var target := Parsing.ReadTag(tokenizer.data, State(), start);
      ghost var entry := tokenizer.index;
      elem := start;
      while true
        invariant Valid() && tokenizer.index >= entry && elem.children == []
        invariant Parsing.ReadTag(tokenizer.data, State(), elem) == target
        decreases |tokenizer.data| - tokenizer.index
      {
        ghost var before := State();
        var tok := tokenizer.NextToken();
        TagStep(tokenizer.data, before, elem, tok, State());
        if tok.kind == Eof {
          return;
        } else if tok.kind == Slash {
          if tokenizer.Current() == '>' {
            tokenizer.Move(1);
            return;
          }
          elem := ReadBody(elem);
          return;
        } else if tok.kind == CloseGreater {
          elem := ReadBody(elem);
          return;
        } else if tok.kind == String {
          var attrs := ReadAttribute(elem.attrs, tok.content);
          elem := elem.(attrs := attrs);
        }
      }
    }

    /**
     * The second `while (true)` loop of INTERNAL_cnxml_parser_read_element:
     * children go into a list allocated with the first one; other tokens
     * are added to the text; `</` hands over to the closing tag.
     */
    method ReadBody(start: Element) returns (elem: Element)
      requires Valid() && start.children == []
      modifies this, tokenizer
      ensures Valid()
      ensures (elem, State()) == Parsing.ReadBody(tokenizer.data, old(State()), start)
      decreases |tokenizer.data| - tokenizer.index, 0
    {
      ghost var target := Parsing.ReadBody(tokenizer.data, State(), start);
      ghost var entry := tokenizer.index;
      elem := start;
      var children: ElementList? := null;
      while true
        invariant Valid() && tokenizer.index >= entry
        invariant children != null ==> children.Valid() && fresh(children) && fresh(children.items)
        invariant Parsing.ReadBody(tokenizer.data, State(), elem.(children := ChildrenOf(children))) == target
        decreases |tokenizer.data| - tokenizer.index
      {
        ghost var before := State();
        var tok := tokenizer.NextToken();
        BodyStep(tokenizer.data, before, elem.(children := ChildrenOf(children)), tok, State());
        if tok.kind == Eof {
          elem := elem.(children := ChildrenOf(children));
          return;
        } else if tok.kind == OpenLess {
          if tokenizer.Current() == '/' {
            tokenizer.Move(1);
            elem := elem.(children := ChildrenOf(children));
            ReadClosing(elem);
            return;
          }
          children := ReadChild(children);
        } else {
          elem := elem.(text := AddText(elem.text, tok.content));
        }
      }
    }

    /**
     * A child in the body loop, after its `<`: the list is allocated with
     * the first child, then the child read recursively is appended.
     */
    method ReadChild(children: ElementList?) returns (list: ElementList)
      requires Valid() && (children != null ==> children.Valid())
      modifies this, tokenizer, if children == null then {} else {children, children.items}
      ensures Valid() && list.Valid()
      ensures children == null ==> fresh(list) && fresh(list.items)
      ensures children != null ==> list == children && (list.items == old(children.items) || fresh(list.items))
      ensures var (child, s) := Parsing.ReadElement(tokenizer.data, old(State()), true);
              list.Contents() == old(ChildrenOf(children)) + [child] && State() == s
      decreases |tokenizer.data| - tokenizer.index, 3
    {
      if children == null {
        list := new ElementList();
      } else {
        list := children;
      }
      var child := ReadElementInternal(true);
      list.Append(child);
    }

    /** The closing tag, after `</`: the name, then `>`. */
    method ReadClosing(elem: Element)
      requires Valid()
      modifies this, tokenizer
      ensures Valid()
      ensures State() == Parsing.ReadClosing(tokenizer.data, old(State()), elem).1
    {
      var endName := tokenizer.NextToken();
      if endName.kind == String && endName.content == elem.name {
        var closeGreater := tokenizer.NextToken();
        if closeGreater.kind != CloseGreater {
          ReportError(NoClosingSymbolFound, endName.content, []);
        }
      } else {
        ReportError(MismatchedClosingTag, elem.name, endName.content);
      }
    }

    /** cnxml_parser_read_element: one element, starting with its `<`. */
    method ReadElement() returns (elem: Element)
      requires Valid()
      modifies this, tokenizer
      ensures Valid()
      ensures (elem, State()) == Parsing.ReadElement(tokenizer.data, old(State()), false)
    {
      elem := ReadElementInternal(false);
    }
  }

  /**
   * A fresh tokenizer over `data` and a fresh parser over it, then one
   * element read: the element and the diagnostics are those of `Parse`.
   */
  method ParseDocument(data: seq<char>) returns (elem: Element, errors: seq<Diagnostic>)
    ensures (elem, errors) == (Parse(data).0, Parse(data).1.diags)
    ensures DiagsValid(errors)
  {
    var tokenizer := new Tokenizer(data);
    var parser := new Parser(tokenizer);
    elem := parser.ReadElement();
    errors := parser.errors;
  }
}
