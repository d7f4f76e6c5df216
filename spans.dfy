/**
 * cnxml_string: a non-owning (pointer, length) view over bytes.
 *
 * A pointer is either NULL or an offset into a character buffer; a span is
 * the header (pointer, length).  `Bytes` gives the bytes a valid span views.
 */
module Spans {

  /** A C `char*`: NULL, or the address `offset` inside buffer `buf`. */
  datatype Ptr = Null | Addr(buf: array<char>, offset: nat)

  /** cnxml_string: the header {ptr, len}. */
  datatype Span = Span(ptr: Ptr, len: nat)

  /** CNXML_STRING_EMPTY */
  const Empty: Span := Span(Null, 0)

  /** 2^64: size_t arithmetic wraps modulo this. */
  const SizeModulus: int := 0x1_0000_0000_0000_0000
  /** INT_MAX for the `int` parameters of cnxml_string_sub. */
  const IntMax: int := 0x7fff_ffff

  function Frame(p: Ptr): set<object> {
    if p.Addr? then {p.buf} else {}
  }

  /** A span views memory it may read: NULL only with length 0, otherwise inside its buffer. */
  predicate Valid(s: Span) {
    match s.ptr
    case Null => s.len == 0
    case Addr(b, o) => o + s.len <= b.Length
  }

  /** The bytes a valid span views. */
  function Bytes(s: Span): (r: seq<char>)
    requires Valid(s)
    reads Frame(s.ptr)
    ensures |r| == s.len
  {
    match s.ptr
    case Null => []
    case Addr(b, o) => b[o..o + s.len]
  }

  /** Byte `i` of a span, read through its pointer. */
  function At(s: Span, i: nat): (c: char)
    requires Valid(s) && i < s.len
    reads Frame(s.ptr)
    ensures c == Bytes(s)[i]
  {
    s.ptr.buf[s.ptr.offset + i]
  }

  /** cnxml_string_newlen: a NULL pointer gives the empty span, any other the span of `len` bytes at it. */
  function NewLen(cstring: Ptr, len: nat): (s: Span)
    requires cstring.Addr? ==> cstring.offset + len <= cstring.buf.Length
    ensures Valid(s)
  {
    if cstring.Null? then Span(Null, 0) else Span(cstring, len)
  }

  /** The span of NewLen views exactly the `len` bytes at the pointer. */
  lemma NewLenViews(cstring: Ptr, len: nat)
    requires cstring.Addr? ==> cstring.offset + len <= cstring.buf.Length
    ensures cstring.Null? ==> NewLen(cstring, len) == Empty
    ensures cstring.Addr? ==> Bytes(NewLen(cstring, len)) == cstring.buf[cstring.offset..cstring.offset + len]
  {
  }

  /** A C string: a non-NULL pointer with a NUL byte at or after it. */
  predicate IsCString(p: Ptr)
    reads Frame(p)
  {
    p.Addr? && exists i | p.offset <= i < p.buf.Length :: p.buf[i] == '\0'
  }

  /** strlen: the number of bytes before the first NUL. */
  function Strlen(b: array<char>, o: nat): (n: nat)
    requires exists i | o <= i < b.Length :: b[i] == '\0'
    reads b
    ensures o + n < b.Length && b[o + n] == '\0'
    ensures forall k | o <= k < o + n :: b[k] != '\0'
    decreases b.Length - o
  {
    if b[o] == '\0' then 0
    else
      assert exists i | o + 1 <= i < b.Length :: b[i] == '\0' by {
        var i :| o <= i < b.Length && b[i] == '\0';
        assert i != o;
      }
      1 + Strlen(b, o + 1)
  }

  /** The bytes of a C string, without its terminator. */
  function CStringBytes(p: Ptr): (r: seq<char>)
    requires IsCString(p)
    reads Frame(p)
    ensures '\0' !in r
  {
    var n := Strlen(p.buf, p.offset);
    var r := p.buf[p.offset..p.offset + n];
    assert forall k | 0 <= k < |r| :: r[k] != '\0';
    r
  }

  /** cnxml_string_new: NULL gives the empty span; a C string gives the span of its strlen bytes. */
  function New(cstring: Ptr): (s: Span)
    requires cstring.Addr? ==> IsCString(cstring)
    reads Frame(cstring)
    ensures Valid(s)
    ensures cstring.Null? ==> s == Empty
    ensures cstring.Addr? ==> s.ptr == cstring && Bytes(s) == CStringBytes(cstring)
  {
    if cstring.Null? then Span(Null, 0)
    else NewLen(cstring, Strlen(cstring.buf, cstring.offset))
  }

  /** The pointer `k` bytes further on (C pointer arithmetic; NULL stays NULL). */
  function Offset(p: Ptr, k: nat): Ptr {
    match p
    case Null => Null
    case Addr(b, o) => Addr(b, o + k)
  }

  /**
   * cnxml_string_sub as written: `(0, len)` gives the span itself; otherwise
   * the bound `len > str.len - start_pos - 1` is computed in size_t, so it
   * wraps when start_pos == str.len, and it is strict by one.
   */
  function SubAsWritten(s: Span, start: nat, len: nat): (r: Span)
    requires s.len < SizeModulus - 1 && start <= IntMax && len <= IntMax
    ensures r == s || r == Empty || (r.ptr == Offset(s.ptr, start) && r.len == len)
  {
    if start == 0 && len == s.len then s
    else if start > s.len || len > (s.len - start - 1) % SizeModulus then Span(Null, 0)
    else Span(Offset(s.ptr, start), len)
  }

  /** Inside the span, the slice is returned only when it ends strictly before the end of `s`. */
  lemma SubAsWrittenInRange(s: Span, start: nat, len: nat)
    requires Valid(s) && s.len < SizeModulus - 1 && start <= IntMax && len <= IntMax
    requires start < s.len && !(start == 0 && len == s.len)
    ensures start + len < s.len ==>
              Valid(SubAsWritten(s, start, len)) && Bytes(SubAsWritten(s, start, len)) == Bytes(s)[start..start + len]
    ensures start + len >= s.len ==> SubAsWritten(s, start, len) == Empty
  {
  }

  /** A suffix that fits is refused: sub(s, 1, |s| - 1) is empty for every span of length 2 or more. */
  lemma SubAsWrittenRefusesSuffix(s: Span)
    requires Valid(s) && 2 <= s.len <= IntMax
    ensures SubAsWritten(s, 1, s.len - 1) == Empty
    ensures |Bytes(s)[1..]| == s.len - 1 > 0
  {
  }

  /** With start_pos == str.len the size_t bound wraps, so `len` bytes past the end of `s` are returned. */
  lemma SubAsWrittenOverruns(s: Span, len: nat)
    requires Valid(s) && 0 < s.len <= IntMax && 0 < len <= IntMax
    ensures SubAsWritten(s, s.len, len) == Span(Offset(s.ptr, s.len), len)
    ensures !Valid(SubAsWritten(s, s.len, len)) <==> s.ptr.offset + s.len + len > s.ptr.buf.Length
  {
  }

  /** The bounds check cnxml_string_sub evidently intends: any slice that lies inside `s`. */
  function Sub(s: Span, start: nat, len: nat): (r: Span)
    requires Valid(s)
    ensures Valid(r)
    ensures start + len <= s.len ==> r.len == len
    ensures start + len > s.len ==> r == Empty
  {
    if start == 0 && len == s.len then s
    else if start + len > s.len then Span(Null, 0)
    else Span(Offset(s.ptr, start), len)
  }

  /** The corrected sub returns exactly the requested bytes whenever they lie inside the span. */
  lemma SubIsSlice(s: Span, start: nat, len: nat)
    requires Valid(s) && start + len <= s.len
    ensures Bytes(Sub(s, start, len)) == Bytes(s)[start..start + len]
  {
    if !(start == 0 && len == s.len) && s.ptr.Addr? {
      var b, o := s.ptr.buf, s.ptr.offset;
      var sub, whole := b[o + start..o + start + len], b[o..o + s.len];
      forall i | 0 <= i < len ensures sub[i] == whole[start..start + len][i] {
        assert whole[start..start + len][i] == whole[start + i];
      }
      assert sub == whole[start..start + len];
    }
  }

  /** cnxml_string_equal: equal lengths and equal bytes, compared with an early exit. */
  method Equal(a: Span, b: Span) returns (eq: bool)
    requires Valid(a) && Valid(b)
    ensures eq <==> Bytes(a) == Bytes(b)
  {
    if a.len != b.len {
      return false;
    }
    var i := 0;
    while i < a.len
      invariant 0 <= i <= a.len
      invariant Bytes(a)[..i] == Bytes(b)[..i]
    {
      if At(a, i) != At(b, i) {
        return false;
      }
      assert Bytes(a)[..i + 1] == Bytes(a)[..i] + [At(a, i)];
      assert Bytes(b)[..i + 1] == Bytes(b)[..i] + [At(b, i)];
      i := i + 1;
    }
    assert Bytes(a) == Bytes(a)[..i] && Bytes(b) == Bytes(b)[..i];
    return true;
  }

  /** cnxml_string_cequal: compare against the strlen bytes of a C string. */
  method CEqual(a: Span, b: Ptr) returns (eq: bool)
    requires Valid(a) && IsCString(b)
    ensures eq <==> Bytes(a) == CStringBytes(b)
  {
    var bLen := Strlen(b.buf, b.offset);
    if a.len != bLen {
      return false;
    }
    var i := 0;
    while i < a.len
      invariant 0 <= i <= a.len
      invariant Bytes(a)[..i] == CStringBytes(b)[..i]
    {
      if At(a, i) != b.buf[b.offset + i] {
        return false;
      }
      assert Bytes(a)[..i + 1] == Bytes(a)[..i] + [At(a, i)];
      assert CStringBytes(b)[..i + 1] == CStringBytes(b)[..i] + [b.buf[b.offset + i]];
      i := i + 1;
    }
    assert Bytes(a) == Bytes(a)[..i] && CStringBytes(b) == CStringBytes(b)[..i];
    return true;
  }

  /** One copy loop of concat/concat3: write the bytes of `src` into `dst` from offset `at`. */
  method CopyInto(dst: array<char>, at: nat, src: Span)
    requires Valid(src) && at + src.len <= dst.Length
    requires src.ptr.Addr? ==> src.ptr.buf != dst
    modifies dst
    ensures dst[..at + src.len] == old(dst[..at]) + Bytes(src)
  {
    for i := 0 to src.len
      invariant dst[..at + i] == old(dst[..at]) + Bytes(src)[..i]
    {
      dst[at + i] := At(src, i);
      assert dst[..at + i + 1] == dst[..at + i] + [dst[at + i]];
      assert Bytes(src)[..i + 1] == Bytes(src)[..i] + [At(src, i)];
    }
    assert Bytes(src)[..src.len] == Bytes(src);
  }

  /** The two copy loops that start concat and concat3: `a` then `b` from offset 0. */
  method CopyPair(dst: array<char>, a: Span, b: Span)
    requires Valid(a) && Valid(b) && a.len + b.len <= dst.Length
    requires a.ptr.Addr? ==> a.ptr.buf != dst
    requires b.ptr.Addr? ==> b.ptr.buf != dst
    modifies dst
    ensures dst[..a.len + b.len] == Bytes(a) + Bytes(b)
  {
    CopyInto(dst, 0, a);
    CopyInto(dst, a.len, b);
  }

  /** cnxml_string_concat: a fresh buffer holding the bytes of `a` followed by those of `b`. */
  method Concat(a: Span, b: Span) returns (r: Span)
    requires Valid(a) && Valid(b)
    ensures Valid(r) && r.len == a.len + b.len
    ensures r.ptr.Addr? && fresh(r.ptr.buf)
    ensures Bytes(r) == Bytes(a) + Bytes(b)
  {
    var buf := new char[a.len + b.len];
    CopyPair(buf, a, b);
    r := Span(Addr(buf, 0), a.len + b.len);
    assert buf[..] == buf[..a.len + b.len];
  }

  /** cnxml_string_concat3: a fresh buffer holding `a`, `b` and `c` in order; the inputs are untouched. */
  method Concat3(a: Span, b: Span, c: Span) returns (r: Span)
    requires Valid(a) && Valid(b) && Valid(c)
    ensures Valid(r) && r.len == a.len + b.len + c.len
    ensures r.ptr.Addr? && fresh(r.ptr.buf)
    ensures Bytes(r) == Bytes(a) + Bytes(b) + Bytes(c)
  {
    var newLen := a.len + b.len + c.len;
    var buf := new char[newLen];
    assert Frame(a.ptr) + Frame(b.ptr) + Frame(c.ptr) !! {buf};
    CopyPair(buf, a, b);
    ghost var ab := Bytes(a) + Bytes(b);
    CopyInto(buf, a.len + b.len, c);
    assert buf[..newLen] == ab + Bytes(c);
    r := Span(Addr(buf, 0), newLen);
    assert Bytes(r) == buf[..newLen];
  }

  /** A heap-allocated span header, as returned by cnxml_string_stored. */
  class StoredSpan {
    var ptr: Ptr
    var len: nat

    constructor (ptr: Ptr, len: nat)
      ensures this.ptr == ptr && this.len == len
    {
      this.ptr := ptr;
      this.len := len;
    }

    function Value(): Span
      reads this
    {
      Span(ptr, len)
    }
  }

  /** cnxml_string_stored: a fresh cell holding the same header; the bytes are shared, not copied. */
  method Stored(s: Span) returns (cell: StoredSpan)
    requires Valid(s)
    ensures fresh(cell)
    ensures cell.ptr == s.ptr && cell.len == s.len
    ensures Valid(cell.Value()) && Bytes(cell.Value()) == Bytes(s)
  {
    cell := new StoredSpan(s.ptr, s.len);
  }

  /** cnxml_string_extract: the raw pointer and length of a span. */
  function Extract(s: Span): (Ptr, nat) {
    (s.ptr, s.len)
  }

  /** Extract undoes NewLen for every non-NULL pointer, and NewLen undoes Extract for every valid non-NULL span. */
  lemma ExtractNewLenRoundTrip(p: Ptr, len: nat, s: Span)
    requires p.Addr? && p.offset + len <= p.buf.Length
    requires Valid(s) && s.ptr.Addr?
    ensures Extract(NewLen(p, len)) == (p, len)
    ensures NewLen(Extract(s).0, Extract(s).1) == s
  {
  }
}
