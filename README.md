# cnxml in Dafny

A model of the byte-level pipeline of cnxml, a small XML-like reader and writer written in C:

- **Tokenizer.** A cursor over an immutable byte buffer that tracks offset, line and column.
  - It skips whitespace, `<!-- -->` comments, `<! … >` declarations and `<? ?>` instructions.
  - It sorts the next byte into `<`, `>`, `/`, `=`, quoted text, unquoted text or EOF.
- **Recursive-descent parser.** It never fails: it always returns an element and records diagnostics.
  - The diagnostics go into a buffer of 16 entries that ends in a "too many errors" sentinel.
  - Each diagnostic has a rendered message.
- **Growable child list.** The list the parser appends children to.
- **Element helpers.** `element_new` and `add_text_content`.
- **Recursive serializer.** It writes an element tree with newline-and-indent layout.
- **Span helpers** of `cnxml_string.c`: `newlen`, `new`, `sub`, `equal`, `cequal`, `concat`, `concat3`, `stored` and `extract`.

The model has two layers.

**Pure layer.** Each routine is a function of the buffer and a position or parser state:

- `Lexer` (`lexer.dfy`)
- `Diagnostics` (`diagnostics.dfy`)
- `Parsing` (`parsing.dfy`)
- `Writer` (`writer.dfy`)

Its properties are proved as lemmas. `Scanning` (`scanning.dfy`) adds lemmas on what the tokenizer returns at text of a known shape. `ParseFacts` (`parsefacts.dfy`) builds on them: what each parser step does at such text, and what whole documents of a given shape parse to, for every name and value.

**Imperative layer.** It keeps the source's form:

- `Tokenizers.Tokenizer` (`tokenizer.dfy`) holds `index`, `line` and `column` fields. `Move`, `SkipWhitespace` and the string readers update these in `while` loops.
- `Parsers.Parser` (`parser.dfy`) keeps its error buffer in a field. It runs the two `while (true)` loops of `INTERNAL_cnxml_parser_read_element` over a local element.
- `Elements.ElementList` (`elements.dfy`) is an array that grows by 16.
- The span helpers (`spans.dfy`) copy bytes into freshly allocated arrays.

Every method is proved to leave the state, and to return the value, that the pure function for it gives.

Attributes are modelled as the sequence of `put` calls in parse order. The serializer writes them in that order, standing in for the hash map's iteration order.

The writer callback is replaced by the sequence of bytes it would receive.

Two behaviours of the code are easy to misread, and the model keeps both:

- `MISMATCHED_CLOSING_TAG` stores the element's own name as the actual name and the closing-tag text as the expected name. The call at cnxml.c:378 passes `elem.name` then `end_name.content`, and `cnxml_parser_report_error` (cnxml.c:277) takes `actual_name` before `expected_name`.
- The rewind in `next_token` lowers the offset but not the column, so an unquoted token advances the column once more than its length. At the end of input the clamped last move cancels that extra step. A one-byte token at the very end leaves the column where it was.

## Model

| member | source | states |
|---|---|---|
| Lexer.Track | cnxml.c:55-62 | Consuming bytes one by one never lowers the line and keeps the column positive. |
| Lexer.TrackLines | cnxml.c:55-62 | The line advances by exactly the number of `'\n'` bytes consumed. |
| Lexer.TrackColumns | cnxml.c:55-62 | Without a newline the column advances by the byte count. After the last newline it is the number of bytes after that newline plus one. |
| Lexer.Move | cnxml.c:48-64 | A target offset at or past the end, or below zero (compared as unsigned), clamps to the buffer length with line and column kept. A move back keeps line and column. The line never decreases and the column stays positive; a newline resets it to 1. |
| Lexer.MoveTracksLines | cnxml.c:48-64 | A move reaching the end clamps to `data_len` and leaves line and column untouched. Otherwise the line grows by the newlines consumed and the column by the bytes consumed, or restarts after a newline. |
| Lexer.MatchesIsSlice | cnxml.c:66-71 | For a literal without NUL, `match_string` holds exactly when the next bytes equal the literal, so it never matches past the end. |
| Lexer.ScanToLiteral | cnxml.c:84-86 | The comment and instruction loop stops at the end of input or where the terminator matches. |
| Lexer.ScanToLiteralFirst | cnxml.c:84-86 | The comment and instruction loop passes no occurrence of the terminator. |
| Lexer.SkipPastLiteral | cnxml.c:84-89 | For a terminator without NUL: the cursor ends just after its first occurrence, or at the end of input when there is none. |
| Lexer.ScanToChar | cnxml.c:92-94 | The declaration and quoted-string loop stops at the first `stop` byte or at the end, and no byte it passes is `stop`. |
| Lexer.SkipPastGreater | cnxml.c:92-95 | A `<! … >` declaration ends just after the first `>`, or at the end of input when there is none. |
| Lexer.SkipNonContent | cnxml.c:73-106 | `skip_whitespace` terminates. On exit it is at EOF or at a byte that is neither whitespace nor `<` followed by `!` or `?`. |
| Lexer.SkipPiece | cnxml.c:79-105 | Each pass of the loop keeps the same exit condition and moves forward only. |
| Lexer.ScanUnquoted | cnxml.c:122-125 | The unquoted loop stops at EOF or at whitespace or `< > = /`, and no byte it passes is one of them. |
| Lexer.ReadQuoted | cnxml.c:108-117 | The content is the bytes up to the next `"` or the end, so it holds no `"`. The closing quote is consumed. |
| Lexer.ReadUnquoted | cnxml.c:119-127 | The content is the maximal slice of bytes that are not whitespace or `< > = /`. |
| Lexer.NextToken | cnxml.c:129-154 | EOF has empty content. Every other token consumes at least one byte. UNKNOWN is never produced. |
| Lexer.NextTokenPunctuation | cnxml.c:132-147 | At the end of input, EOF with nothing consumed after the skipped whitespace. A NUL byte yields EOF. Each of `< > / =` is a one-byte token of its kind. |
| Lexer.NextTokenQuoted | cnxml.c:148 | At `"`, the content is the bytes up to the next quote or the end, so it holds no quote. The closing quote is consumed. |
| Lexer.NextTokenUnquoted | cnxml.c:149-152 | At any other byte, a STRING whose content is the non-empty maximal run of bytes free of whitespace and `< > = /`, starting at that byte. |
| Lexer.ScanUnquotedColumn | cnxml.c:48-64 | The unquoted scan counts each byte in the column, except that a last move clamped at the end of input does not count. |
| Lexer.NextTokenUnquotedColumn | cnxml.c:149-152 | Rewinding the offset and not the column: the column over-counts by one when input follows the token. At the end it is exact, except that a one-byte token leaves it unchanged. |
| Lexer.TokenTypeName | cnxml.c:156-167 | Every kind has a non-empty name. |
| Lexer.TokenTypeNameInjective | cnxml.c:156-167 | Distinct kinds have distinct names. |
| Tokenizers.Tokenizer.constructor | cnxml.c:8-23 | A new tokenizer is at offset 0, line 1, column 1. |
| Tokenizers.Tokenizer.Move | cnxml.c:48-64 | For any signed move, the clamp and the loop leave the cursor exactly where `Lexer.Move` says. |
| Tokenizers.Tokenizer.MatchString | cnxml.c:66-71 | The early-exit loop returns exactly `Matches`. |
| Tokenizers.Tokenizer.SkipPastTerminator | cnxml.c:84-89 | The comment and instruction loops end where `SkipPastLiteral` says. |
| Tokenizers.Tokenizer.SkipPastDeclaration | cnxml.c:92-95 | The declaration loop ends where `SkipPastGreater` says. |
| Tokenizers.Tokenizer.SkipWhitespace | cnxml.c:73-106 | The loop ends where `SkipNonContent` says. |
| Tokenizers.Tokenizer.ReadQuotedString | cnxml.c:108-117 | Returns the content and leaves the cursor as `ReadQuoted` says. |
| Tokenizers.Tokenizer.ReadUnquotedString | cnxml.c:119-127 | Returns the content and leaves the cursor as `ReadUnquoted` says. |
| Tokenizers.Tokenizer.NextToken | cnxml.c:129-154 | Returns the token and leaves the cursor as `Lexer.NextToken` says, including the rewind of the offset alone. |
| Diagnostics.BaseMessage | cnxml.c:211-236 | Each kind has a fixed non-empty sentence ending in a full stop. |
| Diagnostics.BaseMessageInjective | cnxml.c:211-236 | Distinct kinds have distinct base texts. |
| Diagnostics.ErrorMessage | cnxml.c:238-274 | The message starts with the base text. It is the base text alone when `actual` is empty. With only `actual` the name label follows the base text and `actual` ends it. With both it has the expected label, `expected`, the got label and ends with `actual`. |
| Diagnostics.ErrorMessageCarriesExpected | cnxml.c:253-270 | With both names, ` Expected: `, the expected name and `, got: ` sit at known offsets, so both names can be read back. |
| Diagnostics.MakeDiagnostic | cnxml.c:283-290 | A diagnostic carries the kind, both names, the tokenizer's line and column, and the rendered message. |
| Diagnostics.Record | cnxml.c:277-315 | A full buffer is unchanged. Otherwise the diagnostic is appended. Recording the 15th adds the sentinel in slot 16. |
| Diagnostics.RecordKeepsValid | cnxml.c:277-315 | The buffer invariant is kept: at most 16 entries, never exactly 15, the sentinel last when full, and no sentinel before it. |
| Diagnostics.RecordAll | cnxml.c:277-315 | A run of reports never shrinks the buffer. |
| Diagnostics.RecordAllCount | cnxml.c:277-315 | From an empty buffer, k reports leave k entries while k < 15, and from the 15th report on 16 entries, the last being the sentinel. |
| Diagnostics.RecordAllFull | cnxml.c:278-281 | Once the buffer is full, further reports change nothing. |
| Parsing.Report | cnxml.c:277-315 | Reporting keeps the cursor and the buffer invariant, only appends, and stores the diagnostic at the current line and column unless the buffer is full. |
| Parsing.Consume | cnxml.c:129-154 | A token read by the parser moves the cursor as `NextToken` does and leaves the diagnostics alone. |
| Parsing.ReadAttribute | cnxml.c:399-412 | The pair is stored exactly when the next token is `=` and the one after it a STRING; the value is that STRING's content, both tokens are consumed and nothing is recorded. A first token other than `=` is consumed and MISSING_EQUALS_SIGN is recorded after it; `=` and then a non-STRING consumes both and records MISSING_ATTRIBUTE_VALUE after them. Either diagnostic names the attribute as the actual name, unless the buffer is full. |
| Parsing.ReadOpening | cnxml.c:323-328 | Skipping the opening tag changes nothing. Otherwise one token is consumed: `<` records nothing, and any other token records NO_OPENING_SYMBOL_FOUND at the position after it, unless the buffer is full. |
| Parsing.ReadElement | cnxml.c:321-358 | Reading an element always terminates. The cursor only advances, within the buffer, and the buffer invariant is kept. |
| Parsing.ElementName | cnxml.c:329-335 | The name token's content names the element whatever its kind. A non-STRING name records MISSING_ELEMENT_NAME at the position after it, unless the buffer is full. |
| Parsing.ReadTag | cnxml.c:337-358 | The tag loop keeps the name, only extends the attributes and children, and only advances the cursor. |
| Parsing.TagTextGrows | cnxml.c:337-358 | The tag loop and the body after it keep the text read before as a prefix. |
| Parsing.ReadBody | cnxml.c:360-393 | The body loop keeps name and attributes, only appends children and only advances the cursor. |
| Parsing.BodyTextGrows | cnxml.c:389-391 | Every body token is appended after the text read before, which stays a prefix. |
| Parsing.ReadClosing | cnxml.c:366-381 | The element comes back unchanged and the cursor advances. Nothing is recorded, or exactly one NO_CLOSING_SYMBOL_FOUND or MISMATCHED_CLOSING_TAG; `Parsing.ReadClosingDiagnostics` says which. |
| Parsing.ReadClosingDiagnostics | cnxml.c:366-381 | If the first token after `</` is a STRING equal to the element's name, a second token is read. Then a `>` records nothing. Any other second token records NO_CLOSING_SYMBOL_FOUND after it, with the closing name as actual and no expected name. Any other first token, including EOF and punctuation, records MISMATCHED_CLOSING_TAG just after it. That diagnostic has the element's name as actual and the token's content as expected, and nothing after the token is read. |
| Parsing.Parse | cnxml.c:395-397 | Parsing a whole buffer stops within it, and its diagnostics satisfy the buffer invariant. |
| Parsers.Parser.constructor | cnxml.c:183-200 | A new parser has no errors. |
| Parsers.Parser.ReportError | cnxml.c:277-315 | The error buffer becomes `Record` of the old one at the tokenizer's line and column. Below 16 entries, `has_errors` holds afterwards. |
| Parsers.Parser.ReadAttribute | cnxml.c:399-412 | Attributes, cursor and errors are exactly those of `Parsing.ReadAttribute`. |
| Parsers.Parser.ReadElementInternal | cnxml.c:321-335 | Element, cursor and errors are exactly those of `Parsing.ReadElement`. |
| Parsers.Parser.ReadTag | cnxml.c:337-358 | The first `while (true)` loop returns exactly what `Parsing.ReadTag` returns. |
| Parsers.Parser.ReadBody | cnxml.c:360-393 | The second loop, with its lazily allocated child list, returns exactly what `Parsing.ReadBody` returns. |
| Parsers.Parser.ReadChild | cnxml.c:383-387 | The list is allocated with the first child, and the recursively read child is appended after the earlier ones. |
| Parsers.Parser.ReadClosing | cnxml.c:366-381 | Cursor and errors are exactly those of `Parsing.ReadClosing`. |
| Parsers.Parser.ReadElement | cnxml.c:395-397 | Reads one element starting with its `<`, as `Parsing.ReadElement` says. |
| Parsers.ParseDocument | cnxml.c:395-397 | A fresh tokenizer and parser return the element and the diagnostics of `Parse`, and the buffer invariant holds. |
| Elements.NewElement | cnxml.c:469-477 | A new element has the given name, no attributes, no children and empty text. |
| Elements.AddText | cnxml.c:479-486 | Empty text is replaced by the piece. Otherwise the old text, one space and the piece follow in order. |
| Elements.AddTextsJoins | cnxml.c:479-486 | Adding non-empty pieces one at a time to empty text gives exactly the pieces joined by single spaces. |
| Elements.AddTextContent | cnxml.c:479-486 | On spans: empty text is replaced by the piece span itself; otherwise the bytes are those of `AddText`. |
| Elements.ElementList.constructor | cnxml.c:427-436 | A new list is empty with capacity 16. |
| Elements.ElementList.Append | cnxml.c:438-451 | The element goes last and earlier entries are unchanged. The capacity grows by exactly 16 when the list was full and is otherwise unchanged. |
| Elements.Length | cnxml.c:459-462 | 0 for a missing list, else the number of entries. |
| Elements.GetAsWritten | cnxml.c:453-457 | As written: nothing for a missing list or an index at or past the length, otherwise the slot at the index, which for a negative index lies before the buffer. |
| Elements.Get | cnxml.c:453-457 | Corrected: nothing for a missing list or an index outside `0 .. len - 1`, otherwise the entry at the index. |
| Writer.Repeat | cnxml.c:514-516 | `count` units of whitespace are whitespace, and their length is `count` times the unit's. |
| Writer.Line | cnxml.c:512-517 | A line is a newline followed by `indent` units. |
| Writer.RepeatAdds | cnxml.c:514-516 | Repeating `a` then `b` times is repeating `a + b` times. |
| Writer.LineDeeper | cnxml.c:512-517 | A line one level deeper is the line at this level plus one unit. |
| Writer.DefaultLine | cnxml.c:578-580 | With the default unit a line at depth `n` is a newline and exactly `n` tabs. |
| Writer.AttrsJoined | cnxml.c:496-510 | The attribute iterator writes the `k="v"` pairs joined by single spaces, with no space after the last. |
| Writer.ChildrenJoined | cnxml.c:558-565 | The child loop writes the children joined by newline-and-indent lines, none after the last. |
| Writer.OpenTag | cnxml.c:520-541 | Output starts with `<` and the name. |
| Writer.TagRest | cnxml.c:543-571 | After the opening tag comes ` />` exactly when there are no children and no text, and `>` otherwise. |
| Writer.WriteLayout | cnxml.c:519-572 | The whole output: `<name`, one space and the joined pairs when there are attributes, then ` />`. Otherwise `>`, a line one level deeper, the text running into the first child, the children joined by lines one level deeper, a line at this level and `</name>`. |
| Writer.WriteStart | cnxml.c:519-548 | The output starts with `<name`. The byte after the opening tag is a space exactly for an element without children and text, and `>` exactly otherwise. |
| Scanning.SkipWhitespaceRun | cnxml.c:73-106 | `skip_whitespace` passes a run of whitespace and stops right after it at a content byte. |
| Scanning.PunctToken | cnxml.c:129-147 | Whitespace then one of `< > / =` reads as that one-byte token. |
| Scanning.PunctAfterSkip | cnxml.c:129-147 | Wherever skipping stops at one of `< > / =`, that byte is the next token and is consumed alone. |
| Scanning.SkipComment | cnxml.c:82-88 | A `<!-- … -->` comment whose text holds no `-` is skipped whole, up to the next content byte. |
| Scanning.UnquotedRun | cnxml.c:119-127 | Unquoted text starting at a word ends exactly after it. |
| Scanning.WordToken | cnxml.c:129-154 | Whitespace then a word reads as that word, the cursor stopping right after it. |
| Scanning.QuotedRun | cnxml.c:108-117 | Quoted text at a quote-free value followed by a quote is the value, with the quote consumed. |
| Scanning.QuotedToken | cnxml.c:129-154 | Whitespace then `"value"` reads as the value with both quotes consumed. |
| ParseFacts.ElementHead | cnxml.c:323-335 | `<` (unless skipped) then a word: the element is named by the word, enters its tag loop right after it, and nothing is recorded. |
| ParseFacts.TagSelfCloses | cnxml.c:337-347 | A tag loop that meets `/>` after whitespace returns the element as it was, so a new element has no children and empty text, with nothing recorded and the `>` consumed. |
| ParseFacts.TagOpensBody | cnxml.c:348-349 | In a tag, `>` ends the tag loop and the body loop starts after it. |
| ParseFacts.TagSkips | cnxml.c:337-354 | In a tag, a `=` or a `<` is passed over with nothing recorded. |
| ParseFacts.AttributeStored | cnxml.c:399-405 | `= "v"`, with whitespace around the `=`, stores `v` under the name with nothing recorded, the cursor right after the closing quote. |
| ParseFacts.TagAttribute | cnxml.c:350-352 | In a tag, `name = "v"` adds that attribute after the earlier ones and the loop goes on after the closing quote. |
| ParseFacts.BodyChild | cnxml.c:365-387 | In a body, `<` not followed by `/`, after any skipped whitespace and comments, starts a child read without its `<` and appended after the earlier children. |
| ParseFacts.BodyCloses | cnxml.c:365-369 | In a body, `</` hands over to the closing tag with both bytes consumed. |
| ParseFacts.BodyGreaterText | cnxml.c:389-390 | In a body, a `>` is added to the text. |
| ParseFacts.BodyAtEnd | cnxml.c:363-364 | At the end of input the body returns the element as it is. |
| ParseFacts.ClosingMatches | cnxml.c:369-373 | After `</`, the element's own name then `>` closes it with nothing recorded. |
| ParseFacts.ClosingMismatch | cnxml.c:369-378 | After `</`, another word records MISMATCHED_CLOSING_TAG right after the word, with the element's name as actual and the word as expected. |
| ParseFacts.ClosingUnclosed | cnxml.c:369-375 | After `</`, the element's own name, whitespace and one of `< / =` in place of `>` record one NO_CLOSING_SYMBOL_FOUND just after that byte. It names the closing name as actual and no expected name. |
| ParseFacts.ClosingPunct | cnxml.c:369-378 | After `</`, a punctuation byte (`</>` among them) records MISMATCHED_CLOSING_TAG just after it, with the element's name as actual and that byte as expected. |
| ParseFacts.ClosingAtEnd | cnxml.c:369-378 | `</` at the end of input records MISMATCHED_CLOSING_TAG with the element's name as actual and an empty expected name, and the cursor does not move. |
| ParseFacts.ChildSelfCloses | cnxml.c:321-347 | A child `w/>` read without its `<` is the element w, with nothing recorded and the cursor after the `>`. |
| ParseFacts.BodyClosesOwn | cnxml.c:365-373 | In a body, the element's own closing tag returns the element as it is, with nothing recorded and the cursor after the `>`. |
| ParseFacts.BodyMismatch | cnxml.c:365-378 | In a body, `</w` for a word w other than the element's name returns the element as it is and records one MISMATCHED_CLOSING_TAG after w, the element's name as actual and w as expected. |
| ParseFacts.ChildThenClose | cnxml.c:360-387 | A body of a that, once whitespace and comments are skipped, holds `<b/>` and then `</a>` returns a with exactly the child b, empty text and nothing recorded. |
| ParseFacts.ChildMismatch | cnxml.c:360-381 | A child `<b>` followed by `</a` is the empty element b, with one MISMATCHED_CLOSING_TAG recorded after `a`, naming b as actual and a as expected. |
| ParseFacts.BodyMismatchedChild | cnxml.c:360-387 | A body holding `<b></a` gains the child b and records that one MISMATCHED_CLOSING_TAG. |
| ParseFacts.ParseSelfClosing | cnxml.c:321-358 | For every name w, `<w/>` parses as the new element w with no diagnostics and the whole input read. |
| ParseFacts.ParseAttribute | cnxml.c:321-358 | For every name, attribute name and quote-free value, `<a k="v"/>` parses as a with the single attribute k = v and no diagnostics. |
| ParseFacts.ParseSkipsStray | cnxml.c:337-354 | `<a=</>` parses as `<a/>` does: a stray `=` and `<` in a tag are skipped, with no diagnostics. |
| ParseFacts.ParseNested | cnxml.c:321-393 | `<a><b/></a>` parses as a with the one child b, empty text and no diagnostics. |
| ParseFacts.ParseNestedWithComment | cnxml.c:82-88 | A comment in a body is skipped: `<a><!--c--><b/></a>` parses to the same element as `<a><b/></a>`, with no diagnostics. |
| ParseFacts.ParseMismatched | cnxml.c:360-393 | For names a ≠ b, `<a><b></a>` gives a with the child b and the text `>`, and exactly one diagnostic: MISMATCHED_CLOSING_TAG with b as actual and a as expected. |
| Spans.Bytes | cnxml_string.h:9-12 | A valid span views exactly `len` bytes. |
| Spans.NewLen | cnxml_string.c:5-10 | NULL gives the empty span; any other pointer gives the span of `len` bytes at it. |
| Spans.NewLenViews | cnxml_string.c:5-10 | The new span is `{NULL,0}` for NULL, and otherwise views exactly the `len` bytes at the pointer. |
| Spans.Strlen | cnxml_string.c:16 | `strlen` counts the bytes before the first NUL. |
| Spans.CStringBytes | cnxml_string.c:16 | The bytes of a C string hold no NUL. |
| Spans.New | cnxml_string.c:12-17 | NULL gives the empty span; a C string gives the span of its `strlen` bytes at the same pointer. |
| Spans.SubAsWritten | cnxml_string.c:19-26 | As written, the result is the span itself, the empty span, or the slice at `start` of length `len`. |
| Spans.SubAsWrittenInRange | cnxml_string.c:19-26 | With `start < len(s)`, the slice is returned only when it ends strictly before the end of `s`, and the empty span otherwise. |
| Spans.SubAsWrittenRefusesSuffix | cnxml_string.c:21 | The suffix `sub(s, 1, len - 1)` is refused although it lies inside `s`. |
| Spans.SubAsWrittenOverruns | cnxml_string.c:21 | With `start == len(s)` the size_t bound wraps, and a span reaching past the end of `s` is returned. |
| Spans.Sub | cnxml_string.c:19-26 | The corrected bounds check: any slice inside `s` is returned, anything else gives the empty span. |
| Spans.SubIsSlice | cnxml_string.c:19-26 | The corrected `sub` views exactly the requested bytes of `s`. |
| Spans.Equal | cnxml_string.c:28-34 | The early-exit loop returns true exactly when lengths and all bytes agree. |
| Spans.CEqual | cnxml_string.c:36-43 | The same comparison against the `strlen` bytes of a C string. |
| Spans.CopyInto | cnxml_string.c:54-59 | One copy loop writes the source bytes after the prefix already in the buffer. |
| Spans.Concat | cnxml_string.c:52-61 | A fresh buffer of length `a.len + b.len` holding `a` then `b`. |
| Spans.Concat3 | cnxml_string.c:64-77 | A fresh buffer of length `a.len + b.len + c.len` holding `a`, `b` and `c` in order. |
| Spans.StoredSpan.constructor | cnxml_string.c:80-83 | The new cell holds the given pointer and length. |
| Spans.Stored | cnxml_string.c:79-84 | A fresh cell with the same pointer and length, viewing the same bytes, which are not copied. |
| Spans.ExtractNewLenRoundTrip | cnxml_string.c:86-89 | `extract` reports exactly the pointer and length, and undoes `newlen` for any non-NULL pointer and the reverse. |

## Left out

- The hash map (`cnxml_hashmap.h`) is not part of this model; only its interface exists. Attributes are the sequence of stored pairs in parse order.
- `Writer.AttrsJoined`, `Writer.WriteLayout`: the writer is modelled as if the map iterated in insertion order and kept every repeated key as its own pair. A hash map may iterate in another order and may overwrite a repeated key, so the model does not promise the attribute order or count the real writer produces.
- The allocator context, allocation failure and the pointer-sentinel error results (`CNXML_ERROR_BADARGS`, `CNXML_ERROR_ALLOCFAIL`) are left out. Every allocation succeeds, and NULL arguments to the constructors are not modelled.
- Freeing memory (`cnxml_*_free`, `cnxml_element_free_alone` and the free iterator) is left out; it has no observable result in the model.
- Printing to a `FILE` is left out: `cnxml_tokenizer_print_token`, `cnxml_parser_error_print` and `cnxml_string_print`.
- The writer callback is replaced by the output sequence it would receive. `cnxml_element_write_indent` is `Write` at depth 0 with the given unit.
- `int` overflow of the cursor is left out. Offsets are unbounded, and the buffer length is assumed to fit in an `int`. Negative `peek` offsets and moves are modelled: the signed offset is compared with the unsigned length, so a negative one reads NUL or clamps to the end.
- Diagnostic messages are rendered as byte sequences. The separately allocated C strings and their NUL terminators are not modelled.
- Parsing what the serializer writes is not proved to give the element back (a parse-after-write round trip); the model proves only the pieces it would be built from: `Scanning.WordToken`, `Scanning.PunctToken`, `Scanning.QuotedToken` and `Writer.WriteLayout`.
- `Parsing.ReadElement`: its contract states progress and the buffer invariant only. What the element is built from is stated by `ElementName` and by the `ParseFacts` lemmas: one parser step at text of a known shape, and whole documents of a given shape for every name and value.

## Findings

| source | as written | input that shows it | evidently intended | confidence | as-written member | corrected member |
|---|---|---|---|---|---|---|
| cnxml_string.c:21 | `len > str.len - start_pos - 1` refuses a slice that ends exactly at the end of the span | `sub(s, 1, s.len - 1)` on any span of length 2 or more returns `{NULL, 0}` | any slice with `start_pos + len <= str.len` is returned | high (not executed) | Spans.SubAsWrittenRefusesSuffix | Spans.SubIsSlice |
| cnxml_string.c:21 | with `start_pos == str.len` the `size_t` subtraction wraps to the largest value, so no `len` is refused | `sub(s, s.len, 5)` on a non-empty span returns a span over 5 bytes past its end | the empty span for any slice not inside `s` | high (not executed) | Spans.SubAsWrittenOverruns | Spans.Sub |
| cnxml.c:455 | `index >= list->len` is the only bound checked on the signed `int` index | `get(list, -1)` on any list returns `list->ptr - 1`, a slot before the buffer | any index outside `0 .. len - 1` returns NULL | high (not executed) | Elements.GetAsWritten | Elements.Get |
