/**
 * Parser diagnostics: the seven error kinds, the rendered message of each
 * diagnostic, and the bounded error buffer of a parser.
 *
 * The buffer holds at most 16 entries.  Recording the 15th real diagnostic
 * also stores a "too many errors" sentinel in the last slot, after which
 * nothing more is recorded; so the number of entries is always one of
 * 0..14 or 16.
 */
module Diagnostics {

  /** cnxml_parser_error_type */
  datatype ErrorKind =
    | NoClosingSymbolFound
    | NoOpeningSymbolFound
    | MismatchedClosingTag
    | MissingEqualsSign
    | MissingAttributeValue
    | MissingElementName
    | TooManyErrors

  /** cnxml_parser_error: both names are optional (empty when absent). */
  datatype Diagnostic = Diagnostic(
    kind: ErrorKind,
    expectedName: seq<char>,
    actualName: seq<char>,
    line: int,
    column: int,
    message: seq<char>)

  /** CNXML_PARSER_ERROR_BUFFER_SIZE */
  const BufferSize: nat := 16

  const NameLabel: seq<char> := " Name: "
  const ExpectedLabel: seq<char> := " Expected: "
  const GotLabel: seq<char> := ", got: "

  /** The fixed text of each kind. */
  function BaseMessage(k: ErrorKind): (m: seq<char>)
    ensures |m| > 0 && m[|m| - 1] == '.'
  {
    match k
    case NoClosingSymbolFound => "No closing '>' found for element."
    case NoOpeningSymbolFound => "Couldn't find a '>' to start parsing with."
    case MismatchedClosingTag => "Closing element is in the wrong order."
    case MissingEqualsSign => "Expected '=' after attribute."
    case MissingAttributeValue => "Expected value after '=' in attribute, but none found."
    case MissingElementName => "Expected name of element after opening '<'."
    case TooManyErrors => "Too many errors were thrown. No more errors will be reported."
  }

  /** Every kind has its own text, so the kind can be read back from the base message. */
  lemma BaseMessageInjective(j: ErrorKind, k: ErrorKind)
    requires BaseMessage(j) == BaseMessage(k)
    ensures j == k
  {
    var m, n := BaseMessage(j), BaseMessage(k);
    assert |m| == |n| && m[0] == n[0] && m[1] == n[1] && m[9] == n[9];
  }

  /**
   * cnxml_parser_error_message: the base text alone when there is no actual
   * name; followed by the actual name when only it is given; followed by
   * both names when both are given.
   */
  function ErrorMessage(kind: ErrorKind, actual: seq<char>, expected: seq<char>): (m: seq<char>)
    ensures |m| >= |BaseMessage(kind)| && m[..|BaseMessage(kind)|] == BaseMessage(kind)
    ensures |actual| == 0 ==> m == BaseMessage(kind)
    ensures |actual| > 0 && |expected| == 0 ==>
              |m| == |BaseMessage(kind)| + |NameLabel| + |actual| &&
              m[|BaseMessage(kind)|..|BaseMessage(kind)| + |NameLabel|] == NameLabel && m[|m| - |actual|..] == actual
    ensures |actual| > 0 && |expected| > 0 ==>
              |m| == |BaseMessage(kind)| + |ExpectedLabel| + |expected| + |GotLabel| + |actual| &&
              m[|m| - |actual|..] == actual
  {
    var base := BaseMessage(kind);
    if |actual| != 0 then
      if |expected| == 0 then base + NameLabel + actual
      else base + ExpectedLabel + expected + GotLabel + actual
    else base
  }

  /** When both names are given the expected name sits right after " Expected: ", so both names can be read back. */
  lemma ErrorMessageCarriesExpected(kind: ErrorKind, actual: seq<char>, expected: seq<char>)
    requires |actual| > 0 && |expected| > 0
    ensures var m := ErrorMessage(kind, actual, expected);
            var at := |BaseMessage(kind)| + |ExpectedLabel|;
            m[at - |ExpectedLabel|..at] == ExpectedLabel &&
            m[at..at + |expected|] == expected &&
            m[at + |expected|..at + |expected| + |GotLabel|] == GotLabel
  {
    FiveParts(BaseMessage(kind), ExpectedLabel, expected, GotLabel, actual);
  }

  /** Where the middle three parts of a five-part concatenation lie. */
  lemma FiveParts<T>(a: seq<T>, b: seq<T>, c: seq<T>, d: seq<T>, e: seq<T>)
    ensures var m := a + b + c + d + e;
            var at := |a| + |b|;
            m[|a|..at] == b && m[at..at + |c|] == c && m[at + |c|..at + |c| + |d|] == d
  {
    var m := a + b + c + d + e;
    var at := |a| + |b|;
    assert m == (a + b) + (c + (d + e));
    assert m[|a|..at] == (a + b)[|a|..];
    assert m[at..] == c + (d + e);
    assert m[at..at + |c|] == m[at..][..|c|];
    assert m[at + |c|..at + |c| + |d|] == m[at..][|c|..|c| + |d|];
  }

  /** A diagnostic as cnxml_parser_report_error fills it in. */
  function MakeDiagnostic(kind: ErrorKind, actual: seq<char>, expected: seq<char>, line: int, column: int): (d: Diagnostic)
    ensures d.kind == kind && d.actualName == actual && d.expectedName == expected
    ensures d.line == line && d.column == column
    ensures d.message == ErrorMessage(kind, actual, expected)
  {
    Diagnostic(kind, expected, actual, line, column, ErrorMessage(kind, actual, expected))
  }

  /** The sentinel stored in the last slot. */
  function Sentinel(line: int, column: int): Diagnostic {
    MakeDiagnostic(TooManyErrors, [], [], line, column)
  }

  /**
   * cnxml_parser_report_error on the buffer: nothing when it is full;
   * otherwise append the diagnostic, and when that leaves the buffer one
   * short of full, append the sentinel too.
   */
  function Record(ds: seq<Diagnostic>, kind: ErrorKind, actual: seq<char>, expected: seq<char>, line: int, column: int)
    : (r: seq<Diagnostic>)
    ensures |ds| >= BufferSize ==> r == ds
    ensures |ds| < BufferSize ==>
              |r| > |ds| && r[..|ds|] == ds && r[|ds|] == MakeDiagnostic(kind, actual, expected, line, column)
    ensures |ds| < BufferSize - 2 ==> |r| == |ds| + 1
    ensures |ds| == BufferSize - 2 ==> |r| == BufferSize && r[BufferSize - 1] == Sentinel(line, column)
  {
    if |ds| >= BufferSize then ds
    else
      var added := ds + [MakeDiagnostic(kind, actual, expected, line, column)];
      if |added| == BufferSize - 1 then added + [Sentinel(line, column)] else added
  }

  /**
   * The buffer invariant: at most 16 entries, never exactly 15, the
   * sentinel in the last slot when full, and no sentinel among the
   * diagnostics before it.
   */
  predicate DiagsValid(ds: seq<Diagnostic>) {
    |ds| <= BufferSize && |ds| != BufferSize - 1 &&
    (|ds| == BufferSize ==> ds[BufferSize - 1].kind == TooManyErrors) &&
    forall i | 0 <= i < |ds| && i < BufferSize - 1 :: ds[i].kind != TooManyErrors
  }

  /** Every diagnostic the parser records keeps the buffer invariant. */
  lemma RecordKeepsValid(ds: seq<Diagnostic>, kind: ErrorKind, actual: seq<char>, expected: seq<char>, line: int, column: int)
    requires kind != TooManyErrors
    ensures DiagsValid(ds) ==> DiagsValid(Record(ds, kind, actual, expected, line, column))
  {
    var r := Record(ds, kind, actual, expected, line, column);
    if DiagsValid(ds) && |ds| < BufferSize {
      forall i | 0 <= i < |r| && i < BufferSize - 1 ensures r[i].kind != TooManyErrors {
        if i < |ds| {
          assert r[i] == r[..|ds|][i] == ds[i];
        }
      }
    }
  }

  /** A sequence of reports, as (kind, actual, expected, line, column) tuples, applied in order. */
  function RecordAll(ds: seq<Diagnostic>, reports: seq<(ErrorKind, seq<char>, seq<char>, int, int)>): (r: seq<Diagnostic>)
    ensures |r| >= |ds|
    decreases |reports|
  {
    if reports == [] then ds
    else
      var e := reports[0];
      RecordAll(Record(ds, e.0, e.1, e.2, e.3, e.4), reports[1..])
  }

  /**
   * From an empty buffer, k reports leave k entries while k < 15, and 16
   * entries (the last one the sentinel) from the 15th report on.
   */
  lemma {:induction false} RecordAllCount(ds: seq<Diagnostic>, reports: seq<(ErrorKind, seq<char>, seq<char>, int, int)>)
    requires |ds| <= BufferSize && |ds| != BufferSize - 1
    requires |ds| == BufferSize ==> ds[BufferSize - 1].kind == TooManyErrors
    ensures var r := RecordAll(ds, reports);
            |r| == if |ds| + |reports| < BufferSize - 1 then |ds| + |reports| else BufferSize
    ensures |ds| + |reports| >= BufferSize - 1 ==> RecordAll(ds, reports)[BufferSize - 1].kind == TooManyErrors
    decreases |reports|
  {
    if reports != [] {
      var e := reports[0];
      var next := Record(ds, e.0, e.1, e.2, e.3, e.4);
      RecordAllCount(next, reports[1..]);
      if |ds| == BufferSize {
        assert next == ds;
      }
      if |next| == BufferSize {
        RecordAllFull(next, reports[1..]);
      }
    }
  }

  /** Once the buffer is full, further reports change nothing. */
  lemma {:induction false} RecordAllFull(ds: seq<Diagnostic>, reports: seq<(ErrorKind, seq<char>, seq<char>, int, int)>)
    requires |ds| >= BufferSize
    ensures RecordAll(ds, reports) == ds
    decreases |reports|
  {
    if reports != [] {
      RecordAllFull(ds, reports[1..]);
    }
  }
}
