/**
 * The cnxml serializer.  The source hands every piece of output to a writer
 * callback; here the pieces are concatenated into the sequence the callback
 * would receive, in order.
 */
module Writer {
  import opened Lexer
  import opened Elements

  /** The indent unit cnxml_element_write uses. */
  const DefaultIndent: seq<char> := "\t"

  /** `unit` written `count` times. */
  function Repeat(unit: seq<char>, count: nat): (r: seq<char>)
    ensures |r| == count * |unit|
    ensures AllWhitespace(unit) ==> AllWhitespace(r)
    decreases count
  {
    if count == 0 then [] else Repeat(unit, count - 1) + unit
  }

  /** INTERNAL_cnxml_writer_writeline: a newline, then `indent` indent units. */
  function Line(indent: nat, unit: seq<char>): (r: seq<char>)
    ensures |r| == 1 + indent * |unit| && r[0] == '\n'
    ensures AllWhitespace(unit) ==> AllWhitespace(r)
  {
    "\n" + Repeat(unit, indent)
  }

  /** One `key="value"` pair as the attribute iterator writes it. */
  function AttrText(a: Attribute): seq<char> {
    a.key + "=\"" + a.value + "\""
  }

  /** The attribute iterator from entry `k` on: each pair, then a space unless it is the last. */
  function AttrsFrom(attrs: seq<Attribute>, k: nat): seq<char>
    decreases |attrs| - k
  {
    if k >= |attrs| then []
    else AttrText(attrs[k]) + (if k != |attrs| - 1 then " " else []) + AttrsFrom(attrs, k + 1)
  }

  /**
   * INTERNAL_cnxml_element_write: `<name`, the attributes after one space,
   * then ` />` for an element with neither children nor text; otherwise
   * `>`, a line one level deeper, the text, the children separated by such
   * lines, a line at this level and `</name>`.
   */
  function Write(e: Element, indent: nat, unit: seq<char>): seq<char>
    decreases e, 1, 0
  {
    var open := "<" + e.name + (if |e.attrs| > 0 then " " else []) + AttrsFrom(e.attrs, 0);
    if |e.children| == 0 && |e.text| == 0 then open + " />"
    else open + ">" + Line(indent + 1, unit) + e.text + ChildrenFrom(e, 0, indent + 1, unit) +
         Line(indent, unit) + "</" + e.name + ">"
  }

  /** The loop over the children of `e` from child `k` on: each child, then a line unless it is the last. */
  function ChildrenFrom(e: Element, k: nat, indent: nat, unit: seq<char>): seq<char>
    decreases e, 0, |e.children| - k
  {
    if k >= |e.children| then []
    else
      Write(e.children[k], indent, unit) + (if k != |e.children| - 1 then Line(indent, unit) else []) +
      ChildrenFrom(e, k + 1, indent, unit)
  }

  /** cnxml_element_write: depth 0, one tab per level. */
  function WriteDefault(e: Element): seq<char> {
    Write(e, 0, DefaultIndent)
  }

  /** Pieces with `sep` between each two neighbours and nowhere else: the reference the loops are checked against. */
  function JoinWith(pieces: seq<seq<char>>, sep: seq<char>): seq<char>
    decreases |pieces|
  {
    if |pieces| == 0 then []
    else if |pieces| == 1 then pieces[0]
    else pieces[0] + sep + JoinWith(pieces[1..], sep)
  }

  /** The `key="value"` pairs of the entries from `k` on. */
  function AttrTexts(attrs: seq<Attribute>, k: nat): (r: seq<seq<char>>)
    requires k <= |attrs|
    ensures |r| == |attrs| - k
  {
    seq(|attrs| - k, i requires 0 <= i < |attrs| - k => AttrText(attrs[k + i]))
  }

  /** The written children of `e` from `k` on. */
  function ChildTexts(e: Element, k: nat, indent: nat, unit: seq<char>): (r: seq<seq<char>>)
    requires k <= |e.children|
    ensures |r| == |e.children| - k
  {
    seq(|e.children| - k, i requires 0 <= i < |e.children| - k => Write(e.children[k + i], indent, unit))
  }

  /** The attribute iterator writes the pairs joined by single spaces, with no space after the last. */
  lemma {:induction false} AttrsJoined(attrs: seq<Attribute>, k: nat)
    requires k <= |attrs|
    ensures AttrsFrom(attrs, k) == JoinWith(AttrTexts(attrs, k), " ")
    decreases |attrs| - k
  {
    if k < |attrs| {
      AttrsJoined(attrs, k + 1);
      if k + 1 < |attrs| {
        assert AttrTexts(attrs, k)[1..] == AttrTexts(attrs, k + 1);
      }
    }
  }

  /** The children are written one after the other with a line between each two and none after the last. */
  lemma {:induction false} ChildrenJoined(e: Element, k: nat, indent: nat, unit: seq<char>)
    requires k <= |e.children|
    ensures ChildrenFrom(e, k, indent, unit) == JoinWith(ChildTexts(e, k, indent, unit), Line(indent, unit))
    decreases |e.children| - k
  {
    if k < |e.children| {
      ChildrenJoined(e, k + 1, indent, unit);
      var ws, rest := ChildTexts(e, k, indent, unit), ChildTexts(e, k + 1, indent, unit);
      assert ws[0] == Write(e.children[k], indent, unit);
      if k + 1 < |e.children| {
        assert ws[1..] == rest;
      }
    }
  }

  /** `<name`, then one space and the joined pairs when there are attributes. */
  function OpenTag(e: Element): (r: seq<char>)
    ensures |r| >= 1 + |e.name| && r[..1 + |e.name|] == "<" + e.name
  {
    var r := "<" + e.name + (if |e.attrs| > 0 then " " + JoinWith(AttrTexts(e.attrs, 0), " ") else []);
    assert r[..1 + |e.name|] == "<" + e.name;
    r
  }

  /** What follows the opening tag: ` />`, or `>` and the body with the attribute and child loops joined. */
  function TagRest(e: Element, indent: nat, unit: seq<char>): (r: seq<char>)
    ensures |r| > 0 && (r[0] == ' ' <==> |e.children| == 0 && |e.text| == 0)
    ensures r[0] == '>' <==> !(|e.children| == 0 && |e.text| == 0)
  {
    if |e.children| == 0 && |e.text| == 0 then " />"
    else ">" + (Line(indent + 1, unit) + e.text + JoinWith(ChildTexts(e, 0, indent + 1, unit), Line(indent + 1, unit)) +
                Line(indent, unit) + "</" + e.name + ">")
  }

  /**
   * The whole layout of a written element, with the attribute and child
   * loops replaced by their joined forms: the opening tag, then ` />` when
   * there are neither children nor text; otherwise `>`, a line one level
   * deeper, the text running straight into the first child, the children
   * joined by lines one level deeper, a line at this level and `</name>`.
   */
  lemma WriteLayout(e: Element, indent: nat, unit: seq<char>)
    ensures Write(e, indent, unit) == OpenTag(e) + TagRest(e, indent, unit)
  {
    AttrsJoined(e.attrs, 0);
    ChildrenJoined(e, 0, indent + 1, unit);
    var attrs := AttrsFrom(e.attrs, 0);
    if |e.attrs| > 0 {
      assert "<" + e.name + " " + attrs == "<" + e.name + (" " + attrs);
    } else {
      assert attrs == [];
    }
    if !(|e.children| == 0 && |e.text| == 0) {
      Regroup("<" + e.name + (if |e.attrs| > 0 then " " else []) + attrs, ">", Line(indent + 1, unit), e.text,
              ChildrenFrom(e, 0, indent + 1, unit), Line(indent, unit), "</", e.name, ">");
    }
  }

  /** The pieces of a written body, regrouped as the opening tag and what follows it. */
  lemma Regroup(o: seq<char>, g: seq<char>, a: seq<char>, b: seq<char>, c: seq<char>, d: seq<char>,
                s: seq<char>, n: seq<char>, z: seq<char>)
    ensures o + g + a + b + c + d + s + n + z == o + (g + (a + b + c + d + s + n + z))
  {
  }

  /**
   * A written element starts with `<` and its name; the byte after the
   * opening tag is the space of ` />` exactly when the element has neither
   * children nor text, and `>` otherwise.
   */
  lemma WriteStart(e: Element, indent: nat, unit: seq<char>)
    ensures var w, x := Write(e, indent, unit), |OpenTag(e)|;
            x < |w| && w[..1 + |e.name|] == "<" + e.name &&
            (w[x] == ' ' <==> |e.children| == 0 && |e.text| == 0) &&
            (w[x] == '>' <==> !(|e.children| == 0 && |e.text| == 0))
  {
    WriteLayout(e, indent, unit);
    PrefixThen(Write(e, indent, unit), OpenTag(e), TagRest(e, indent, unit), 1 + |e.name|);
  }

  /** What a sequence made of `o` and then `tail` holds at the end of `o`, and its first `k` elements. */
  lemma PrefixThen(w: seq<char>, o: seq<char>, tail: seq<char>, k: nat)
    requires w == o + tail && |tail| > 0 && k <= |o|
    ensures |o| < |w| && w[|o|] == tail[0] && w[..k] == o[..k]
  {
  }

  /** Repeating the unit `a` times and then `b` times is repeating it `a + b` times. */
  lemma {:induction false} RepeatAdds(unit: seq<char>, a: nat, b: nat)
    ensures Repeat(unit, a) + Repeat(unit, b) == Repeat(unit, a + b)
    decreases b
  {
    if b > 0 {
      RepeatAdds(unit, a, b - 1);
    }
  }

  /** A line one level deeper is the line at this level followed by one more unit. */
  lemma LineDeeper(indent: nat, unit: seq<char>)
    ensures Line(indent + 1, unit) == Line(indent, unit) + unit
  {
    RepeatAdds(unit, indent, 1);
  }

  /** With the default unit, a line at depth `indent` is a newline and exactly `indent` tabs. */
  lemma {:induction false} DefaultLine(indent: nat)
    ensures var l := Line(indent, DefaultIndent);
            |l| == 1 + indent && l[0] == '\n' && forall i | 1 <= i < |l| :: l[i] == '\t'
    decreases indent
  {
    if indent > 0 {
      DefaultLine(indent - 1);
      LineDeeper(indent - 1, DefaultIndent);
    }
  }
}
