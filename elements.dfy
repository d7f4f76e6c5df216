/**
 * Parsed elements: a name, the attributes in the order they were stored,
 * the children in parse order and the space-joined text; plus the growable
 * child list the parser appends to.
 */
module Elements {
  import opened Spans

  datatype Option<T> = None | Some(value: T)

  /** One `name="value"` pair stored into an element's attribute map. */
  datatype Attribute = Attribute(key: seq<char>, value: seq<char>)

  /**
   * cnxml_element.  `attrs` lists the attribute map's entries in the order
   * they were stored, which is also the order the writer emits them in.
   */
  datatype Element = Element(name: seq<char>, attrs: seq<Attribute>, children: seq<Element>, text: seq<char>)

  /** CNXML_ELEMENT_LIST_GROW_AMOUNT */
  const GrowAmount: nat := 16

  /** cnxml_element_new: the given name, no attributes, no children, empty text. */
  function NewElement(name: seq<char>): (e: Element)
    ensures e.name == name && |e.attrs| == 0 && |e.children| == 0 && |e.text| == 0
  {
    Element(name, [], [], [])
  }

  /**
   * cnxml_element_add_text_content on the bytes: the first piece becomes the
   * text, every later piece is appended after one space.
   */
  function AddText(text: seq<char>, piece: seq<char>): (r: seq<char>)
    ensures |text| == 0 ==> r == piece
    ensures |text| > 0 ==> |r| == |text| + 1 + |piece| && r[..|text|] == text && r[|text|] == ' ' && r[|text| + 1..] == piece
  {
    if |text| == 0 then piece else text + " " + piece
  }

  /** Pieces joined by single spaces: the independent definition AddText is checked against. */
  function Joined(pieces: seq<seq<char>>): seq<char>
    decreases |pieces|
  {
    if |pieces| == 0 then []
    else if |pieces| == 1 then pieces[0]
    else Joined(pieces[..|pieces| - 1]) + " " + pieces[|pieces| - 1]
  }

  /** The text after adding each piece in turn. */
  function AddTexts(text: seq<char>, pieces: seq<seq<char>>): seq<char>
    decreases |pieces|
  {
    if |pieces| == 0 then text else AddTexts(AddText(text, pieces[0]), pieces[1..])
  }

  /** Every piece holds at least one byte. */
  predicate AllNonEmpty(pieces: seq<seq<char>>) {
    forall i | 0 <= i < |pieces| :: |pieces[i]| > 0
  }

  /** Moving the first piece from `pieces` to the end of `done` keeps both lists free of empty pieces. */
  lemma ShiftNonEmpty(done: seq<seq<char>>, pieces: seq<seq<char>>)
    requires AllNonEmpty(done) && AllNonEmpty(pieces) && |pieces| > 0
    ensures AllNonEmpty(done + [pieces[0]]) && AllNonEmpty(pieces[1..])
    ensures (done + [pieces[0]]) + pieces[1..] == done + pieces
  {
    var next := done + [pieces[0]];
    forall i | 0 <= i < |next| ensures |next[i]| > 0 {
      if i < |done| { assert next[i] == done[i]; } else { assert next[i] == pieces[0]; }
    }
    assert pieces == [pieces[0]] + pieces[1..];
  }

  /** Adding non-empty pieces one by one to empty text gives exactly the pieces joined by single spaces. */
  lemma {:induction false} AddTextsJoins(done: seq<seq<char>>, pieces: seq<seq<char>>)
    requires AllNonEmpty(done) && AllNonEmpty(pieces)
    ensures AddTexts(Joined(done), pieces) == Joined(done + pieces)
    decreases |pieces|
  {
    if |pieces| > 0 {
      AddTextJoinsOne(done, pieces[0]);
      ShiftNonEmpty(done, pieces);
      AddTextsJoins(done + [pieces[0]], pieces[1..]);
    } else {
      assert done + pieces == done;
    }
  }

  /** One step of AddTextsJoins. */
  lemma AddTextJoinsOne(done: seq<seq<char>>, piece: seq<char>)
    requires AllNonEmpty(done)
    ensures AddText(Joined(done), piece) == Joined(done + [piece])
  {
    var next := done + [piece];
    assert next[..|next| - 1] == done;
    if |done| > 0 {
      JoinedNonEmpty(done);
    } else {
      assert next == [piece];
    }
  }

  /** Joining non-empty pieces gives non-empty text. */
  lemma {:induction false} JoinedNonEmpty(pieces: seq<seq<char>>)
    requires |pieces| > 0 && AllNonEmpty(pieces)
    ensures |Joined(pieces)| > 0
    decreases |pieces|
  {
    if |pieces| > 1 {
      JoinedNonEmpty(pieces[..|pieces| - 1]);
    }
  }

  /**
   * cnxml_element_add_text_content on spans: empty text is replaced by the
   * piece itself; otherwise a fresh buffer holds the old text, one space
   * and the piece.
   */
  method AddTextContent(text: Span, piece: Span) returns (r: Span)
    requires Valid(text) && Valid(piece)
    ensures Valid(r)
    ensures Bytes(r) == AddText(Bytes(text), Bytes(piece))
    ensures text.len == 0 ==> r == piece
  {
    if text.len == 0 {
      return piece;
    }
    var space := new char[1];
    space[0] := ' ';
    var sep := NewLen(Addr(space, 0), 1);
    assert Bytes(sep) == " ";
    r := Concat3(text, sep, piece);
  }

  /**
   * cnxml_element_list: a buffer of `capacity` slots of which the first
   * `len` are in use.  The capacity starts at 16 and only grows, by 16,
   * when an append finds the buffer full, so it is the smallest multiple of
   * 16 (at least 16) that holds the elements.
   */
  class ElementList {
    var items: array<Element>
    var len: nat
    var capacity: nat

    ghost predicate Valid()
      reads this
    {
      items.Length == capacity && len <= capacity &&
      capacity >= GrowAmount && capacity % GrowAmount == 0 &&
      (capacity == GrowAmount || capacity - GrowAmount < len)
    }

    /** The elements in the list, in append order. */
    function Contents(): seq<Element>
      reads this, items
      requires Valid()
    {
      items[..len]
    }

    /** cnxml_element_list_new */
    constructor ()
      ensures Valid() && fresh(items)
      ensures Contents() == [] && capacity == GrowAmount
    {
      items := new Element[GrowAmount](_ => NewElement([]));
      len := 0;
      capacity := GrowAmount;
    }

    /**
     * cnxml_element_list_append: when full, move to a buffer 16 slots
     * larger; then store the element after the last one.
     */
    method Append(e: Element)
      requires Valid()
      modifies this, items
      ensures Valid()
      ensures Contents() == old(Contents()) + [e]
      ensures capacity == if old(len) == old(capacity) then old(capacity) + GrowAmount else old(capacity)
      ensures items == old(items) || fresh(items)
    {
      if len == capacity {
        var newCapacity := capacity + GrowAmount;
        var grown := new Element[newCapacity](_ => NewElement([]));
        forall i | 0 <= i < len {
          grown[i] := items[i];
        }
        assert grown[..len] == items[..len];
        capacity := newCapacity;
        items := grown;
      }
      len := len + 1;
      items[len - 1] := e;
      assert items[..len] == old(items[..len]) + [e];
    }
  }

  /** cnxml_element_list_length: 0 for a missing list. */
  method Length(list: ElementList?) returns (n: nat)
    requires list != null ==> list.Valid()
    ensures list == null ==> n == 0
    ensures list != null ==> n == |list.Contents()|
  {
    if list == null {
      return 0;
    }
    return list.len;
  }

  /** What cnxml_element_list_get returns: no element, or the slot at an offset from the start of the buffer. */
  datatype Slot = NoSlot | SlotAt(offset: int)

  /**
   * cnxml_element_list_get as written: the index is a signed int and only
   * an index at or past the length is refused, so a negative index yields
   * a slot before the start of the buffer.
   */
  method GetAsWritten(list: ElementList?, index: int) returns (r: Slot)
    requires list != null ==> list.Valid()
    ensures list == null || index >= |list.Contents()| ==> r == NoSlot
    ensures list != null && index < |list.Contents()| ==> r == SlotAt(index)
    ensures list != null && index < 0 ==> r.SlotAt? && r.offset < 0
  {
    if list == null {
      return NoSlot;
    }
    if index >= list.len {
      return NoSlot;
    }
    return SlotAt(index);
  }

  /**
   * cnxml_element_list_get with the negative index refused too: nothing for
   * a missing list or an index outside the list, otherwise the element at
   * `index`.
   */
  method Get(list: ElementList?, index: int) returns (r: Option<Element>)
    requires list != null ==> list.Valid()
    ensures list == null || index < 0 || index >= |list.Contents()| ==> r == None
    ensures list != null && 0 <= index < |list.Contents()| ==> r == Some(list.Contents()[index])
  {
    if list == null {
      return None;
    }
    if index < 0 || index >= list.len {
      return None;
    }
    return Some(list.items[index]);
  }
}
