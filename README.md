# sanitize: query rendering with typed slots

This project models `Query.Sanitize` from package `sanitize`, the routine that turns a
query template and a list of positional arguments into one SQL string. A template
(`Query`) is an ordered list of parts:

- literal text, copied as it is;
- a back-reference (`int` part) to a string argument, copied without quotes or parentheses;
- a typed slot (an `int64`, `float64`, `bool`, `[]byte`, `nil` or `time.Time` part), which
  formats the argument under the cursor by its runtime type and writes it inside
  parentheses, so that a value cannot join the text around it into a `--` line comment.

`Sanitize` first checks that there is exactly one argument fewer than parts. It then walks
the parts, moving the cursor by one after every part of every kind, and records in a used
set which argument indices were consumed. Finally it reports the first argument index that
was never consumed. Every error comes with the empty string.

Files:

- `format.dfy` (module `Format`): Go's `%d` on an `int64`, with its inverse and round trip.
- `sanitize.dfy` (module `Sanitize`): the data model (`Query`, `Part`, `Arg`, `ErrorKind`,
  `Outcome`), the specification functions `RenderPart`, `Walk`, `Marked` and `Render`, and
  the imperative method `Query.Sanitize` with its loop invariants. The method is proved to
  return exactly what `Render` describes.
- `properties.dfy` (module `SanitizeProperties`): the properties of `Render`.

What the proofs establish, beyond the method matching its specification:

- the arity error is reported exactly when the argument count is not the part count minus one;
- a render succeeds exactly when the arity matches, every part renders at its own cursor
  position, and every argument is consumed. The output is then the parts' texts in
  template order;
- the first failing part decides the error, and the unused-argument error is reported
  exactly when all else succeeded;
- a typed slot's text is `(` + formatted argument + `)` at its place in the output;
- the arity rule and the cursor rule together force a fixed shape on every template that
  renders with n arguments. Its first n parts are back-references or typed slots that
  consume pairwise different arguments, and its last part is literal text. So a rendered
  query consumes every argument exactly once. A template that refers to one argument twice
  never renders, and neither does one with literal text before its last part.

A template that interleaves literal text with typed slots, one argument per slot, such as
`[Lit("SELECT * FROM t WHERE id = "), Slot, Lit(" AND flag = "), Slot]` with two
arguments, fails the arity check (`InterleavedTemplateFails`). A template that refers to
one argument from two back-references never renders (`ReusedReferenceNeverRenders`).

## Model

| member | source | states |
|---|---|---|
| `Sanitize.Query.Sanitize` | internal/sanitize/sanitize.go:15-79 | the loop over parts (with its cursor, used set and builder) and the unused-argument scan return exactly the outcome `Render` describes. Every error is returned with the empty string. Precondition: the call does not hit Go's index panic |
| `Sanitize.Render` | internal/sanitize/sanitize.go:15-79 | the result is the arity error exactly when `len(args) != len(Parts)-1`. A rendered result has every argument index marked as used |
| `Sanitize.Walk` | internal/sanitize/sanitize.go:24-70 | the parts loop only ever stops with a part error: index, arg-type or part-type, or the panic. It never stops with an arity or unused-argument error |
| `Sanitize.BytesAsText` | internal/sanitize/sanitize.go:51-52 | `%s` on a `[]byte` writes one character per byte, with the same code, in order |
| `Sanitize.WalkStopPersists` | internal/sanitize/sanitize.go:24-70 | once a part returns an error, later parts do not change the outcome (the early return) |
| `Sanitize.FirstFailureDecides` | internal/sanitize/sanitize.go:24-70 | a part that fails after all earlier parts rendered decides the result of the whole call |
| `SanitizeProperties.WalkRendersAll` | internal/sanitize/sanitize.go:24-70 | processing the first n parts succeeds exactly when each of them renders at its own cursor position. Its text is then their texts concatenated in order |
| `SanitizeProperties.MarkedMembers` | internal/sanitize/sanitize.go:37-60 | an index is in the used set exactly when some processed part is a back-reference to it or a typed slot met with the cursor at it |
| `SanitizeProperties.RenderedIff` | internal/sanitize/sanitize.go:15-79 | success holds exactly when the arity matches, every part renders and every argument is consumed. The output is then the in-order concatenation of the parts' texts |
| `SanitizeProperties.UnusedIff` | internal/sanitize/sanitize.go:72-76 | the unused-argument error is returned exactly when the arity and all parts succeed but some argument index was never marked |
| `SanitizeProperties.FirstFailureWins` | internal/sanitize/sanitize.go:24-70 | with the arity right, the first part that fails decides the returned error, whatever follows it |
| `SanitizeProperties.PartInOutput` | internal/sanitize/sanitize.go:24-78 | in a rendered query each part's text stands at its place in the output. A literal is copied verbatim and a back-reference is the bare string argument, with its index in range. A typed slot is `(` + the formatted argument at its cursor position + `)` |
| `SanitizeProperties.SlotIsParenthesized` | internal/sanitize/sanitize.go:62-65 | a typed slot's text in the output opens with `(`, holds exactly the formatted argument and closes with `)`. Neither edge forms `--` with its neighbour |
| `SanitizeProperties.SlotFormatting` | internal/sanitize/sanitize.go:44-59 | a typed slot writes `(null)`, `(true)`, `(false)`, `(`decimal`)`, `(`float text`)`, `('`bytes`')` or `('`time text`')`. It fails with the arg-type error exactly on a string or an unsupported type |
| `SanitizeProperties.CursorCheck` | internal/sanitize/sanitize.go:28-42 | a back-reference or typed slot fails the index check exactly when its position in the template, not a back-reference's own index, is past the last argument. With the cursor in range, a back-reference panics exactly when its index is out of range, fails with the arg-type error exactly when the named argument is not a string, and renders otherwise |
| `SanitizeProperties.RenderedShape` | internal/sanitize/sanitize.go:16-76 | with n arguments, a rendered template has n+1 parts. The first n are back-references or typed slots that consume pairwise different in-range arguments, so each argument is consumed exactly once. The last part is literal text |
| `SanitizeProperties.ReusedReferenceNeverRenders` | internal/sanitize/sanitize.go:28-37 | a template with two back-references to the same argument never renders |
| `SanitizeProperties.EarlyLiteralNeverRenders` | internal/sanitize/sanitize.go:26-27 | a template with literal text anywhere but in its last part never renders |
| `SanitizeProperties.InterleavedTemplateFails` | internal/sanitize/sanitize.go:16-42 | `[Lit, Slot, Lit, Slot]` fails with the arity error for two arguments. For three arguments it fails with the index error at its last slot |
| `SanitizeProperties.NegativeAfterMinus` | internal/sanitize/sanitize.go:62-65 | a back-referenced `SELECT 1-` followed by the `int64` slot value -1 renders as `SELECT 1-(-1)`, not as a line comment |
| `SanitizeProperties.BytesQuoteNotEscaped` | internal/sanitize/sanitize.go:51-52 | the bytes of `O'Brien` in a typed slot render as `('O'Brien')`, and the inner quote is not escaped |
| `Format.Digits` | internal/sanitize/sanitize.go:46 | the digits of `%d` are at least one decimal digit, with no leading zero |
| `Format.Decimal` | internal/sanitize/sanitize.go:46 | `%d` writes a leading `-` exactly for negative values, and decimal digits after it |
| `Format.DigitsRoundTrip` | internal/sanitize/sanitize.go:46 | reading the digits back gives the value |
| `Format.DecimalRoundTrip` | internal/sanitize/sanitize.go:46 | reading the `%d` text back gives the value |
| `Format.DecimalHasNoDoubleDash` | internal/sanitize/sanitize.go:46 | the parenthesized `%d` text `(` + digits + `)` never holds two consecutive `-` |
| `SanitizeProperties.IntegerSlotHasNoComment` | internal/sanitize/sanitize.go:45-46 | a typed slot holding an `int64` renders, and its whole text holds no `--` |

## Left out

- `float64` formatting with `%f` (line 48) and `time.Time` formatting with `time.RFC3339Nano` (line 56) are library code. They are a `Formatters` parameter with two total functions. Only the quotes and parentheses around them are modelled.
- The error message texts, including the `%T` type names, are not modelled. Errors are the five `ErrorKind`s.
- Go's runtime panic on `args[partTyped]` when a back-reference index is out of range (line 32) is the `Panicked` outcome of `Render`. `Sanitize.Query.Sanitize` requires that the call does not panic, since a Dafny method cannot panic.
- Go's dynamic type switch is a closed datatype. `Unsupported` stands for every part type outside the listed cases (the `default` branch, lines 66-67), and `Other` stands for every argument type outside the listed cases.
- A float64 is its IEEE-754 bit pattern and a `time.Time` is an instant with a zone offset. Both are only passed to the formatters.
- Go strings and byte slices are byte sequences. The model writes a Go string as a Dafny `string` in which each character stands for one byte. `[]byte` is `seq<bv8>`.
- The `argUse` map is a set of indices. A missing key and `false` read the same in the source, and the source only ever stores `true`.
