/** Option, for the ranges the span selection may or may not request. */
module Wrappers {
  datatype Option<+T> = None | Some(value: T)
}

/** The error path of the `parse_lit` procedural macro: which part of the
    literal's source text a failed `uuid!` invocation highlights, and the
    message it reports there.
 */
module Diagnostics {
  import opened Wrappers
  import opened HexWidth

  /** The kinds of UUID parse error the span selection looks at, with only the
      fields it reads. Every other kind (wrong group count, wrong overall
      length, ...) is `OtherKind`. */
  datatype ErrorKind =
    | Char(character: char, index: nat)
    | GroupLength(index: nat, len: nat)
    | OtherKind

  /** The macro's own error: the input was not a string literal, or the UUID
      parser rejected the literal's text. A parser error carries the fields of
      its kind that the span selection reads and the text the parser's own
      error formatting renders for it. */
  datatype MacroError =
    | NonStringLiteral
    | UuidParse(kind: ErrorKind, message: string)

  /** A half-open range `start .. end` of offsets into the literal. */
  datatype Range = Range(start: nat, end: nat)

  /** The range arithmetic does not underflow: `index + width - 1` of a `Char`
      error is computed on unsigned integers. */
  predicate RangeDefined(e: MacroError)
  {
    e.UuidParse? && e.kind.Char? ==> e.kind.index + HexDigits(e.kind.character as int) >= 1
  }

  /** The range handed to `subspan`, or None when no sub-range is asked for and
      the whole input is highlighted. */
  function RequestedRange(e: MacroError): (r: Option<Range>)
    requires RangeDefined(e)
    ensures r.Some? <==> e.UuidParse? && !e.kind.OtherKind?
    ensures r.Some? ==> r.value.start == e.kind.index
  {
    match e
    case UuidParse(Char(character, index), _) =>
      Some(Range(index, index + HexDigits(character as int) - 1))
    case UuidParse(GroupLength(index, len), _) =>
      Some(Range(index, index + len))
    case _ => None
  }

  /** The `match` as `parse_lit` computes it: the `Char` arm counts
      the nibbles of the offending character with the shifting loop. */
  method RequestRange(e: MacroError) returns (r: Option<Range>)
    requires RangeDefined(e)
    ensures r == RequestedRange(e)
  {
    match e {
      case UuidParse(Char(character, index), _) =>
        var width := NibbleWidth(character);
        r := Some(Range(index, index + width - 1));
      case UuidParse(GroupLength(index, len), _) =>
        r := Some(Range(index, index + len));
      case _ =>
        r := None;
    }
  }

  /** The span the diagnostic is attached to. `subspan` stands for the
      compiler's sub-span lookup on the literal, which may fail; `whole` is the
      span of the entire macro input, used when no range is requested or the
      lookup fails. */
  function Highlight<S>(e: MacroError, subspan: Range -> Option<S>, whole: S): (s: S)
    requires RangeDefined(e)
    ensures RequestedRange(e).None? ==> s == whole
    ensures RequestedRange(e).Some? && subspan(RequestedRange(e).value).None? ==> s == whole
    ensures RequestedRange(e).Some? && subspan(RequestedRange(e).value).Some? ==>
              s == subspan(RequestedRange(e).value).value
  {
    var sub := match RequestedRange(e)
               case Some(range) => subspan(range)
               case None => None;
    match sub
    case Some(span) => span
    case None => whole
  }

  /** The message of the error: a fixed text for a non-string literal, and
      the UUID parser's own rendering of its error otherwise. */
  function Message(e: MacroError): (m: string)
    ensures e.NonStringLiteral? ==> m == "expected string literal"
    ensures e.UuidParse? ==> m == e.message
  {
    match e
    case NonStringLiteral => "expected string literal"
    case UuidParse(_, message) => message
  }

  /** The diagnostic `parse_lit` emits for an error: its message and the span
      it is attached to. */
  function Diagnose<S>(e: MacroError, subspan: Range -> Option<S>, whole: S): (d: (string, S))
    requires RangeDefined(e)
    ensures e.NonStringLiteral? ==> d == ("expected string literal", whole)
    ensures e.UuidParse? ==> d.0 == e.message
    ensures RequestedRange(e).None? ==> d.1 == whole
    ensures RequestedRange(e).Some? && subspan(RequestedRange(e).value).None? ==> d.1 == whole
    ensures RequestedRange(e).Some? && subspan(RequestedRange(e).value).Some? ==>
              d.1 == subspan(RequestedRange(e).value).value
  {
    (Message(e), Highlight(e, subspan, whole))
  }

  /** The arithmetic is undefined for exactly one kind of error: NUL reported
      at index 0. */
  lemma RangeDefinedExactly(e: MacroError)
    ensures RangeDefined(e) <==>
              !(e.UuidParse? && e.kind.Char? && e.kind.index == 0 && e.kind.character == '\0')
  {
  }

  /** A `Char` error asks for a range from its index whose length is one less
      than the number of hex digits of the character; the hex digits bound the
      code point from both sides. A NUL (past index 0) gives an inverted range
      ending one before it starts. */
  lemma CharRange(character: char, index: nat, message: string)
    requires index + HexDigits(character as int) >= 1
    ensures var r := RequestedRange(UuidParse(Char(character, index), message));
            r.Some? && r.value.start == index &&
            (character != '\0' ==>
              r.value.start <= r.value.end &&
              Pow16(r.value.end - r.value.start) <= character as int < Pow16(r.value.end - r.value.start + 1)) &&
            (character == '\0' ==> r.value.end + 1 == r.value.start)
  {
    HexDigitsBounds(character as int);
  }

  /** A character from 0x10 to 0xFF, printable ASCII among them, is
      highlighted as the single position at its index. */
  lemma SingleCharHighlight(character: char, index: nat, message: string)
    requires 0x10 <= character as int <= 0xFF
    ensures RangeDefined(UuidParse(Char(character, index), message))
    ensures RequestedRange(UuidParse(Char(character, index), message)) == Some(Range(index, index + 1))
  {
    TwoDigitCodePoints(character);
  }

  /** A control character from 0x01 to 0x0F (tab and newline among them) has
      one hex digit, so it is highlighted by the empty range `index .. index`. */
  lemma EmptyHighlightBelowSixteen(character: char, index: nat, message: string)
    requires 0x01 <= character as int <= 0x0F
    ensures RangeDefined(UuidParse(Char(character, index), message))
    ensures RequestedRange(UuidParse(Char(character, index), message)) == Some(Range(index, index))
  {
    HexDigitsUnique(character as int, 1);
  }

  /** No `Char` highlight is longer than five positions, since no code point
      has more than six hex digits. */
  lemma CharRangeAtMostFive(character: char, index: nat, message: string)
    requires index + HexDigits(character as int) >= 1
    ensures var r := RequestedRange(UuidParse(Char(character, index), message));
            r.Some? && r.value.end <= r.value.start + 5
  {
    CodePointWidthAtMostSix(character);
  }

  /** A `GroupLength` error asks for the group itself: a range from its index
      whose length is the error's `len`. */
  lemma GroupLengthRange(index: nat, len: nat, message: string)
    ensures var r := RequestedRange(UuidParse(GroupLength(index, len), message));
            r.Some? && r.value.start == index && r.value.end - r.value.start == len
  {
  }

  /** Every other error, `NonStringLiteral` included, highlights the whole
      input, whatever the sub-span lookup would do. */
  lemma OtherErrorsHighlightWhole<S>(e: MacroError, subspan: Range -> Option<S>, whole: S)
    requires e.NonStringLiteral? || e.kind.OtherKind?
    ensures RangeDefined(e)
    ensures Highlight(e, subspan, whole) == whole
  {
  }

  /** A non-string-literal input is reported over the whole input with the
      message "expected string literal". */
  lemma NonStringLiteralDiagnostic<S>(subspan: Range -> Option<S>, whole: S)
    ensures Diagnose(NonStringLiteral, subspan, whole) == ("expected string literal", whole)
  {
  }
}
