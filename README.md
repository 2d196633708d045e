# uuid! macro diagnostics: highlight span and message

`uuid!` is a procedural macro. It parses a UUID string literal at compile time.
When parsing fails, `parse_lit` (macros/src/lib.rs) turns the error into a
`compile_error!` diagnostic. The diagnostic is attached to part of the
literal's source text. This project models how that part is chosen and what
the message says:

- `HexWidth` models the nibble loop of the `Char` arm. It counts how many hex
  digits the offending character's code point has, shifting the value right by
  four bits until it reaches zero. `HexDigits` is the specification function.
  The lemmas prove that the count is the number of hex digits: it is bounded by
  powers of 16 from both sides, it is determined by those bounds, it is the
  length of the code point's hexadecimal rendering, and it is 0 only for NUL.
- `Diagnostics` models the macro's error type, the range requested from
  `subspan` for each error kind, the fallback to the whole input's span, and
  the `Display` impl.

The UUID parser is a separate module and is not part of this model. Its error
is reduced to the fields the span selection reads: `character` and `index` of
a `Char` error, and `index` and `len` of a `GroupLength` error. Every other
kind is `OtherKind`.

`Highlight` takes the compiler's `subspan` lookup as a function parameter. It
also takes the whole input's span as a value. A `UuidParse` error carries the
text the UUID parser's formatter renders for it, and `Message` returns that
text.

The `Char` arm requests `index .. index + width - 1`. That is one position
fewer than the character's hex-digit count:
- a single position for 0x10 to 0xFF (`SingleCharHighlight`);
- the empty range `index .. index` for 0x01 to 0x0F (`EmptyHighlightBelowSixteen`);
- the inverted range `index .. index - 1` for NUL (`CharRange`).

## Model

| member | source | states |
|---|---|---|
| HexWidth.NibbleWidth | macros/src/lib.rs:31-36 | The loop ends (`decreases bytes`, so `bytes == 0` on exit). `width` is the hex-digit count of the code point. It is 0 exactly for NUL. For a non-zero code point, `16^(width-1) <= c < 16^width`. |
| HexWidth.HexDigitsBounds | macros/src/lib.rs:31-36 | The count the loop reaches satisfies `c < 16^w`, and `16^(w-1) <= c` when `c > 0`. |
| HexWidth.HexDigitsUnique | macros/src/lib.rs:31-36 | Any `w > 0` with `16^(w-1) <= c < 16^w` is the loop's count, so the count is exactly the number of hex digits. |
| HexWidth.HexStringLength | macros/src/lib.rs:31-36 | For `c > 0`, the count equals the length of the lowercase hex rendering of `c`. For `c == 0`, the rendering "0" has one digit but the count is 0. |
| HexWidth.HexStringValue | macros/src/lib.rs:31-36 | The reference rendering used above denotes `c`, so it is a correct hexadecimal rendering. `HexString`'s own contract says it has no leading zero for `c > 0`. |
| HexWidth.TwoDigitCodePoints | macros/src/lib.rs:31-36 | Every code point from 0x10 to 0xFF, printable ASCII among them, has width 2. |
| HexWidth.CodePointWidthAtMostSix | macros/src/lib.rs:31-36 | No Unicode scalar value has width above 6. |
| Diagnostics.RequestedRange | macros/src/lib.rs:26-49 | A range is requested exactly for `Char` and `GroupLength` errors, and it starts at the error's `index`. Every other error requests none. |
| Diagnostics.RequestRange | macros/src/lib.rs:26-49 | The `match` as written, with the nibble loop in the `Char` arm, returns the range `RequestedRange` specifies. |
| Diagnostics.RangeDefinedExactly | macros/src/lib.rs:39 | The unsigned `index + width - 1` underflows only for NUL reported at index 0. |
| Diagnostics.CharRange | macros/src/lib.rs:31-39 | A `Char` range starts at `index`. For a non-NUL character its length `L` satisfies `16^L <= c < 16^(L+1)`, i.e. it is one less than the hex-digit count. For NUL past index 0 it is the inverted range `index .. index-1`. |
| Diagnostics.SingleCharHighlight | macros/src/lib.rs:31-39 | A character from 0x10 to 0xFF is highlighted as the single position `index .. index+1`. |
| Diagnostics.EmptyHighlightBelowSixteen | macros/src/lib.rs:31-39 | A character from 0x01 to 0x0F has width 1, so its highlight is the empty range `index .. index`. |
| Diagnostics.CharRangeAtMostFive | macros/src/lib.rs:31-39 | A `Char` range is at most five positions long. |
| Diagnostics.GroupLengthRange | macros/src/lib.rs:41-46 | A `GroupLength` range is `[index, index + len)`, so its length is the error's `len`. |
| Diagnostics.Highlight | macros/src/lib.rs:26-50 | The diagnostic's span is the sub-span of the requested range when one is requested and the lookup finds it. Otherwise it is the whole input's span. |
| Diagnostics.OtherErrorsHighlightWhole | macros/src/lib.rs:48-50 | `NonStringLiteral` and every other parse-error kind highlight the whole input, whatever the lookup would return. |
| Diagnostics.Message | macros/src/lib.rs:63-69 | `NonStringLiteral` renders as "expected string literal". A `UuidParse` error renders as the message its parser error carries. |
| Diagnostics.Diagnose | macros/src/lib.rs:23-54 | The emitted diagnostic pairs the error's message with its highlight span. A non-string literal gives ("expected string literal", whole input span). A parser error gives its own message. The span is the looked-up sub-span when a range is requested and the lookup finds it. Otherwise it is the whole input's span: when no range is requested, or when the lookup fails. |
| Diagnostics.NonStringLiteralDiagnostic | macros/src/lib.rs:52-54 | A non-string-literal input gives the diagnostic ("expected string literal", whole input span). |

## Left out

- The UUID parser (`parser::try_parse`) and its error type and formatter (`error` module) are separate modules of the crate (macros/src/lib.rs:17-18) and lie outside this model. The formatter's output is carried in the `UuidParse` error as its `message`.
- `syn` literal extraction and the `quote!` / `quote_spanned!` / `compile_error!` token generation are compiler-plugin I/O over external libraries and are not modelled. `build_uuid`'s success path, which emits the 16 bytes as tokens, is left out with them.
- `Literal::subspan` and `set_span` are foreign calls. The model gives the requested range and takes the lookup's outcome as a parameter. It does not say when the lookup succeeds.
- The `LitStr` carried by `UuidParse` is used only for its span, so the model leaves it out.
- HexWidth.NibbleWidth: the loop runs on an unbounded natural number, dividing by 16. On the unsigned 32-bit `bytes` of the source, `>>= 4` is that same division, and every code point fits in 32 bits.
- Diagnostics.RequestedRange: it requires `RangeDefined`. It does not model the debug-build panic or the release-build wrap-around of `index + width - 1` for NUL at index 0.
- Diagnostics.RequestedRange: indices are unbounded, so it does not model overflow of `index + len` or `index + width` past the largest `usize`.
