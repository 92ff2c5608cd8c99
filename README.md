# COBOL copybook field formatter, modelled in Dafny

The package `cobol` turns a raw value into the fixed-width text a COBOL copybook
field occupies. `FormatData(input, format, length)` takes a picture
clause such as `X(50)`, `9(9)` or `9(15)V99`. It dispatches on the first
character of the format. Text fields (`X`) are space-padded on the right.
Plain numeric fields (`9`, no `V`) are parsed with `strconv.Atoi`, rendered
again with `strconv.Itoa` and zero-padded on the left. Implied-decimal fields
(`9…V…`) are split at the decimal point of a rendered number. The integral
part is zero-padded on the left and the fractional part on the right, to digit
counts taken from three hard-coded presets. Results are memoised in a
package-level map under a string key.

Files:

- `wrappers.dfy` (module `Wrappers`): `Result` and `Failure`. They stand for
  the places where the Go code stops the process: `log.Fatal`, an index panic
  or a slice panic.
- `strconv.dfy` (module `Strconv`): `Atoi`, with its error discarded as the
  formatter does, and `Itoa`, with their round-trip lemmas.
- `gostrings.dfy` (module `GoStrings`): `strings.Repeat` and `strings.Split`,
  with `Join` as the inverse of `Split`.
- `cobol.dfy` (module `Cobol`): `pad`, the field formatters, the cache key and
  the class `Formatter`. The class holds the `cacheMap` state and the
  `FormatData` method.

Points where the Go code behaves unexpectedly, stated as the model proves them:

- A negative plain integer keeps its `-` behind the zeros: `"-42"` at width 5
  gives `"00-42"`, and that field does not parse back (`NegativeIntegerField`).
- An integral part longer than its digit count keeps its leftmost characters,
  so the low-order digits are dropped: the rendering `1234567.891` in
  `9(3)V9(6)` gives `123456891`.
- The preset `9(3)V9(6)` is given 6 integral and 3 fractional digits.
- Because keys are plain concatenation, the cache can change what a call
  returns, and can even turn an invalid format into a successful call
  (`CollidingCalls`, `MaskedInvalidFormat`). A call returns its own
  formatting whenever its format and the format of every call before it
  have no `:` (`Formatter.FormatData`'s last postcondition).

## Model

| member | source | states |
|---|---|---|
| `GoStrings.Repeat` | cobol.go:23 | `strings.Repeat(s, n)` has length `|s| * n` |
| `GoStrings.RepeatChar` | cobol.go:23 | repeating a one-character string `n` times gives `n` copies of that character |
| `GoStrings.TakeUntil` | cobol.go:55 | the piece before the first separator: a prefix of the string, free of the separator, followed by the separator or the end |
| `GoStrings.Split` | cobol.go:55 | `strings.Split` yields at least one piece, no piece contains the separator, and there are two or more pieces exactly when the separator occurs |
| `GoStrings.JoinSplit` | cobol.go:55 | splitting loses nothing: joining the pieces with the separator gives the string back |
| `GoStrings.SplitTwo` | cobol.go:55-58 | `I.F` with no further point splits into exactly `[I, F]` |
| `Strconv.Itoa` | cobol.go:64 | Itoa's rendering is non-empty, starts with `-` exactly for negative numbers, and contains no `:` |
| `Strconv.Atoi` | cobol.go:62 | `strconv.Atoi` with its error discarded: a negative result comes only from a string starting with `-` and at least one more character, a positive one never from a string starting with `-`; AtoiItoa and ItoaAtoi relate it to Itoa |
| `Strconv.AtoiNonNumeral` | cobol.go:62 | a string that is not an optional `+`/`-` followed by one or more digits parses as 0 |
| `Strconv.AtoiItoa` | cobol.go:62-64 | parsing what Itoa renders gives the integer back |
| `Strconv.ItoaAtoi` | cobol.go:62-64 | re-rendering a parsed string gives the string back if and only if it is canonical ("0", or an optional `-` and digits with no leading zero) |
| `Strconv.ItoaCanonical` | cobol.go:64 | every Itoa rendering is canonical |
| `Strconv.ItoaInjective` | cobol.go:75 | distinct widths render differently |
| `Cobol.Pad` | cobol.go:16-30 | too long: the first `length` characters; otherwise length `|input| + |fill|*(length-|input|)`, with the input at the front for "right" and at the back for any other direction |
| `Cobol.PadFill` | cobol.go:16-30 | with a one-character fill: exactly `length` characters; truncation keeps the leftmost characters; otherwise every position not holding the input holds the fill, after the input for "right" and before it otherwise |
| `Cobol.PadTruncation` | cobol.go:19-21 | an input longer than `length` gives `input[..length]`, a prefix of the input, whatever the fill and direction |
| `Cobol.FormatText` | cobol.go:68-70 | width `length`; the input's first `length` characters, or the input followed by spaces |
| `Cobol.TextExample` | cobol.go:68-70 | `"AB"` at width 5 gives `"AB   "` |
| `Cobol.FormatInteger` | cobol.go:61-64 | width `length`; the canonical decimal of the parsed input with zeros in front, or its first `length` characters when too long |
| `Cobol.IntegerCanonical` | cobol.go:62-64 | a canonical rendering of `n` comes out as zeros followed by that rendering |
| `Cobol.IntegerFieldRoundTrip` | cobol.go:62-64 | a non-negative number in a wide-enough field parses back to itself |
| `Cobol.NegativeIntegerField` | cobol.go:62-64 | a negative number in a field with spare room parses back as 0, because the `-` sits behind the zeros |
| `Cobol.IntegerExample` | cobol.go:62-64 | `"42"` at width 5 gives `"00042"` |
| `Cobol.UnparsableInteger` | cobol.go:62-64 | an input that is not an optional sign followed by digits gives an all-zero field of width `length` |
| `Cobol.UnparsableIntegerExample` | cobol.go:62-64 | `"abc"` at width 5 gives `"00000"` |
| `Cobol.NegativeIntegerExample` | cobol.go:62-64 | `"-42"` at width 5 gives `"00-42"` |
| `Cobol.TruncatedIntegerExample` | cobol.go:19-21 | `"4217"` at width 2 gives `"42"`: the low-order digits go |
| `Cobol.DecimalLayout` | cobol.go:36-48 | only an implied-decimal numeric picture (first character `9`, containing `V`) gets any digits; DecimalPresets gives each preset's counts |
| `Cobol.DecimalPresets` | cobol.go:36-48 | `9(12)V9(5)` is (12,5), `9(15)V99` is (15,2), `9(3)V9(6)` is (6,3), and every other format is (0,0) |
| `Cobol.FormatDecimal` | cobol.go:57-60 | width `nInt+nDec`; the integral part right-aligned in zeros, or its first `nInt` characters; then the fractional part left-aligned before zeros, or its first `nDec` characters |
| `Cobol.DecimalFits` | cobol.go:60 | parts that fit give zeros, integral part, fractional part, zeros |
| `Cobol.DecimalSplit` | cobol.go:54-58 | a rendering `I.F` reaches the decimal formatting as the parts `I` and `F` |
| `Cobol.FormatNumerical` | cobol.go:32-66 | `V` path: succeeds exactly when the rendering has a `.`, with width `nInt+nDec`; otherwise an index error. Integer path: succeeds exactly for `length >= 0`, with the integer formatting of width `length`; otherwise a slice error |
| `Cobol.DecimalIgnoresLength` | cobol.go:35-60 | the width argument does not affect the implied-decimal path |
| `Cobol.UnknownDecimalFormat` | cobol.go:39-60 | a `V` format that is not a preset gives the empty string |
| `Cobol.DecimalExamples` | cobol.go:39-60 | `123.45` in `9(15)V99` gives `00000000000012345`; `1234567.891` in `9(3)V9(6)` gives `123456891` |
| `Cobol.FormatField` | cobol.go:81-92 | an empty format is an index error; a first character other than `X`/`9` is the fatal error; the text path succeeds exactly for `length >= 0` with the text formatting; text and integer results have width `length`; the `9` branch is the numeric formatting |
| `Cobol.CacheKey` | cobol.go:75 | every key starts with `formatData:` |
| `Cobol.CacheKeyInjective` | cobol.go:75 | when neither format contains `:`, equal keys mean equal arguments |
| `Cobol.CacheKeyCollision` | cobol.go:75-78 | `("a:X","X",5)` and `("a","X:X",5)` share a key but format to `"a:X  "` and `"a    "` |
| `Cobol.StoreKeeps` | cobol.go:89-91 | storing a freshly formatted value under its own key keeps the cache consistent, and colon-free when the format has no `:` |
| `Cobol.ColonFreeHit` | cobol.go:77-78 | in a colon-free cache, a hit for a colon-free format returns that call's own formatting |
| `Cobol.Formatter.constructor` | cobol.go:14 | the cache starts empty |
| `Cobol.Formatter.FormatData` | cobol.go:74-95 | a hit returns the stored value, which is the formatting of some arguments with the same key, and changes nothing; a miss returns the formatting, stores a successful result under its key and touches no other entry; an error stores nothing; the cache stays consistent; while every call so far, this one included, has used a format without `:`, the result equals the formatting |
| `Cobol.CollidingCalls` | cobol.go:75-94 | after `("a:X","X",5)`, the call `("a","X:X",5)` returns `"a:X  "` instead of its own `"a    "` |
| `Cobol.MaskedInvalidFormat` | cobol.go:77-86 | after `("a:Z","X",5)`, the call `("a","Z:X",5)` returns `"a:Z  "` where formatting would be the fatal error |

## Left out

- `big.Float` parsing and rendering (cobol.go:50-54): binary floating point whose `String()` can give exponent notation. It is the class's constant function `render`. The decimal path uses the first two `.`-separated pieces of its output, and an output with no `.` is the index error.
- A failed `SetString`: its result is discarded and the float's value is undefined. This is part of `render`.
- Exact `strconv.Atoi`/`Itoa` semantics: 64-bit range errors and clamping are not modelled. The integers are unbounded, with an optional `+` or `-` sign followed by one or more decimal digits, and anything else parses as 0.
- `log.Fatal` and runtime panics: they are `Err` results, with the cache unchanged, not process exit.
- Multi-character fills: `Pad` accepts them and its length formula covers them. The width and fill-position lemmas are stated for one-character fills only, because those are the only fills the formatter passes.
- Go strings are byte slices. The model uses Dafny strings (character sequences), so byte-versus-rune slicing is not modelled.
- Concurrent access to the unsynchronised package-level map: the model is single-threaded.
- The `Cobol` interface (cobol.go:97-99): it declares `FormatData` and holds no logic.
- `formatTextData`'s unused `format` argument is not taken.
