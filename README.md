# OWML grammar, modelled in Dafny

OWML is a small markup language. A document is a list of keypairs written
`name: data;`. Names are integers or quoted strings. Data can also be an array
`[ a; b; ]` whose elements all share one variant, or an object `{ ... }`
holding keypairs of its own. The working parser of the `owml_parser` crate is
the recursive-descent grammar in `src/parsers/owml_parser.rs`, built from nom 5
combinators. This project models that grammar as Dafny functions, one per
production, and proves what each production accepts, what it rejects and with
which nom `ErrorKind`.

Files:

- `types.dfy` (`OwmlTypes`): the value tree `OType`/`OKeyPair`, an `i32`
  newtype, nom's `ErrorKind`, and the `Result` type. `Result` is nom's
  `IResult`: the remainder and a value, or an error kind with the input it
  refers to. It supports `:-`, as Rust's `?` does.
- `nom.dfy` (`Nom`): the nom combinators that work on characters: `tag`,
  `opt`, `one_of`, `is_not`, `digit1` and `many0(tag(" "))`, each on complete
  input. The combinators that take parsers written here (`alt` in the value
  dispatcher, `many1` in the document, `many0` over the array cycle, and
  `delimited` in the string lexer) are written inline in the productions
  that use them (`Value`, `Document`/`MoreItems`, `ArrayItems`,
  `StringLexer`).
- `owml_parser.dfy` (`OwmlParser`): the productions. Document, Whitespace,
  Keypair, Name filter, Value dispatcher, Array, Object, Integer lexer and
  String lexer are mutually recursive functions. They terminate on the length
  of the input, with a rank for calls made on the same input. The contract of
  each production that must consume input, `ArrayBody` included, says the
  remainder is a proper suffix. The whitespace stripper and the element and
  keypair loops may consume nothing, so theirs say suffix, and proper suffix
  whenever the loop returned at least one item. Each value returned is well
  formed:
  integers in [-2147483647, 2147483647], non-empty quote-free strings,
  non-empty homogeneous arrays, and non-empty objects with scalar names.
- `properties.dfy` (`OwmlProperties`): what the integer and string lexers
  accept and reject, the value dispatcher, the name filter, the keypair
  separators, the whitespace stripper, and how documents and objects fail
  (error kind and position). What arrays accept and reject is stated in
  `roundtrip.dfy` (`ArrayHomogeneity`, `EmptyArrayRejected`) and, on the
  tests' inputs, in `source_tests.dfy`.
- `roundtrip.dfy` (`OwmlRoundTrip`): a reference printer (`Render`) for
  well-formed values. A `Layout` puts one whitespace gap at each position
  (after `[` and `{`, between elements or keypairs, before `]` and `}`),
  and the same layout is used at every level of nesting.
  It also holds the proof that the grammar reads every printed value back:
  `ValueRoundTrip`, `DocumentRoundTrip` and `ObjectRoundTrip`. So every value
  the contracts allow is actually produced, in order. The printer is a
  specification device; the crate has no serializer.
- `source_tests.dfy` (`OwmlSourceTests`): the unit tests of
  `owml_parser.rs` and the test in `tests/test_parser.rs`. Each is a lemma
  about the model on the test's own input.

### Behaviour of the code worth noting

- **Empty arrays.** `[ ]` is rejected with `NonEmpty` (`build_key_array_parser`,
  owml_parser.rs:101-104). See `EmptyArrayRejected`.
- **Quotes.** The string lexer accepts any quote followed by any quote, so
  `"abc'` is a string (`one_of("\"'")` twice, owml_parser.rs:151). See
  `StringLexerAccepts`.
- **Names.** A name is parsed as a full value and rejected with `Permutation`
  afterwards, at the input just after it (owml_parser.rs:55-64). See
  `NameRestriction` and `NonScalarNameRejected`.
- **`-2147483648`.** It is rejected. The digit run is parsed as an `i32` before
  the sign is applied, so `2147483648` overflows with `Digit`. See
  `MinimumIntRejected`.
- **Whitespace.** One `strip_whitespace` takes spaces, at most one newline,
  and spaces, and leaves a second newline in the input (see
  `StripStopsAtSecondNewline`). Two strips meet between array elements (the
  end of one cycle and the start of the next, owml_parser.rs:92 and :89) and
  between the last keypair of an object and `}` (owml_parser.rs:26 and
  :122), so up to two newlines are accepted there.
- **Error kinds and positions.**
  - A value that matches no alternative fails with the array alternative's
    error: nom 5's `alt` returns the last error.
  - A mixed array fails with `OneOf` at the input after the elements, not at
    the first conflicting element.
  - The first keypair's error escapes `many1` unchanged. This is how the name
    test sees `Permutation` from `get_vec_parser`.

The mixed-array unit test (owml_parser.rs:175-184) asserts only that
`[ 53234; 'Shouldn't work'; ]` does not parse to a two-element array. In the
model it fails earlier than the test's comment suggests. The string lexer
stops at the apostrophe of `Shouldn't`, and because no `;` follows `'Shouldn'`
the element loop ends after `53234`. The array then fails with `Tag` where `]`
was expected, before the homogeneity check runs. `MixedArrayTest` states
that error exactly, and it also satisfies the test's `assert_ne`.

## Model

| member | source | states |
|---|---|---|
| Nom.Tag | src/parsers/owml_parser.rs:43 | `tag`: succeeds exactly when the input starts with the literal. It then returns the literal and the input after it. Otherwise it fails with `Tag` at the input. |
| Nom.Opt | src/parsers/owml_parser.rs:130 | `opt`: never fails. It gives `Some` exactly when the inner parser succeeded, with the inner parser's remainder; otherwise `None`, consuming nothing. |
| Nom.OneOf | src/parsers/owml_parser.rs:151 | `one_of`: takes one character exactly when the first character is in the set; otherwise `OneOf` at the input. |
| Nom.IsNot | src/parsers/owml_parser.rs:151 | `is_not`: the longest non-empty prefix free of the stop characters. After it, the input is empty or starts with a stop character. When that prefix is empty, it fails with `IsNot`. |
| Nom.Digit1 | src/parsers/owml_parser.rs:131 | `digit1`: the longest non-empty run of ASCII digits, after which no digit follows; with no digit, `Digit` at the input. |
| Nom.Many0Space | src/parsers/owml_parser.rs:33 | `many0(tag(" "))`: never fails, consumes only spaces (one output each), and stops at a non-space. |
| OwmlParser.Document | src/parsers/owml_parser.rs:17-20 | `get_vec_parser`: on success, one or more well-formed keypairs and a proper suffix of the input. |
| OwmlParser.MoreItems | src/parsers/owml_parser.rs:19 | The loop of `many1` after its first item: never fails, returns a suffix and only well-formed keypairs, and a proper suffix when it returns at least one. |
| OwmlParser.DocumentItem | src/parsers/owml_parser.rs:22-29 | `build_get_vec_parser`: a well-formed keypair and a proper suffix. |
| OwmlParser.StripWhitespace | src/parsers/owml_parser.rs:31-38 | Never fails. It consumes only spaces and newlines, at most one newline, and leaves no leading space. A leading newline is left only after one newline was consumed. |
| OwmlParser.Keypair | src/parsers/owml_parser.rs:40-48 | `keypair_parser`: on success a proper suffix and a keypair with a scalar, well-formed name and well-formed data. |
| OwmlParser.NameFilter | src/parsers/owml_parser.rs:50-64 | `keypair_name_disallow_parser`: what it passes on is an integer or a string. |
| OwmlParser.Value | src/parsers/owml_parser.rs:66-75 | `key_parser`: on success a proper suffix and a well-formed value whose variant is the one its first character announces. |
| OwmlParser.Array | src/parsers/owml_parser.rs:77-85 | `key_array_parser`: succeeds only on input opening with `[`, with a non-empty homogeneous array. |
| OwmlParser.ArrayCycle | src/parsers/owml_parser.rs:87-95 | `key_array_parser_cycle`: a well-formed element and a proper suffix. |
| OwmlParser.ArrayItems | src/parsers/owml_parser.rs:99 | `many0(key_array_parser_cycle)`: never fails, returns a suffix and well-formed elements, and a proper suffix when it returns at least one element. |
| OwmlParser.ArrayBody | src/parsers/owml_parser.rs:97-113 | `build_key_array_parser`: what it accepts is a non-empty, homogeneous array of well-formed values, and it consumes input whenever it succeeds. |
| OwmlParser.Object | src/parsers/owml_parser.rs:115-126 | `key_object_parser`: succeeds only on input opening with `{`, with a non-empty object of well-formed keypairs. |
| OwmlParser.ParseI32 | src/parsers/owml_parser.rs:140 | `str::parse::<i32>` on a digit run: a value exactly when the decimal value is at most 2147483647, and then that value. |
| OwmlParser.BuildInt | src/parsers/owml_parser.rs:137-147 | `build_key_int_parser`: succeeds exactly when the run's value fits. It gives that value, negated when asked; otherwise `Digit` at the run. |
| OwmlParser.IntLexer | src/parsers/owml_parser.rs:128-135 | `key_int_parser`: on success the input started with `-` or a digit. The value lies in [-2147483647, 2147483647], and no digit follows. |
| OwmlParser.StringLexer | src/parsers/owml_parser.rs:149-154 | `key_string_parser`: on success the input is a quote, the value (non-empty, quote-free), a quote, then the remainder. |
| OwmlProperties.IntLexerAccepts | src/parsers/owml_parser.rs:128-147 | On an optional `-`, a maximal digit run and anything else, the result is the run's value, negated after `-`, and the remainder is what follows the run. A value above 2147483647 fails with `Digit` at the run. |
| OwmlProperties.IntLexerRejects | src/parsers/owml_parser.rs:130-131 | Without a digit after the optional `-`, the lexer fails with `Digit` after the sign. |
| OwmlProperties.MinimumIntRejected | src/parsers/owml_parser.rs:139-144 | `-2147483648` fails with `Digit` at `2147483648`, and the dispatcher rejects it too. |
| OwmlProperties.ExtremeIntsAccepted | src/parsers/owml_parser.rs:139-144 | `2147483647` and `-2147483647` are accepted with their values. |
| OwmlProperties.StringLexerAccepts | src/parsers/owml_parser.rs:150-154 | Any quote, a non-empty quote-free run, any quote: the value is the run and the remainder follows the second quote; the quotes may differ. |
| OwmlProperties.StringLexerNeedsQuote | src/parsers/owml_parser.rs:151 | Input not starting with a quote fails with `OneOf` at the input. |
| OwmlProperties.StringLexerRejectsEmptyAndUnterminated | src/parsers/owml_parser.rs:151 | After either quote, a second quote straight after it fails with `IsNot` at that second quote, whatever follows. Quote-free text running to the end of the input fails with `OneOf` at the end, or with `IsNot` when that text is empty. |
| OwmlProperties.AlternativesDisjoint | src/parsers/owml_parser.rs:68-75 | At most one of the four alternatives succeeds on any input, and a success has the variant the first character announces. |
| OwmlProperties.DispatchByFirstCharacter | src/parsers/owml_parser.rs:68-75 | `key_parser` returns exactly the result of the alternative the first character selects, and fails on any other first character. |
| OwmlProperties.KeypairNeedsSeparators | src/parsers/owml_parser.rs:41-48 | When `": "` does not follow the name, or `;` after the data, the keypair fails with `Tag` there. |
| OwmlProperties.StripNothing | src/parsers/owml_parser.rs:32-38 | Input starting with neither a space nor a newline is left alone. |
| OwmlProperties.StripStopsAtSecondNewline | src/parsers/owml_parser.rs:32-38 | On `" \n \n"` only `" \n "` is stripped. |
| OwmlProperties.DocumentFirstError | src/parsers/owml_parser.rs:18-20 | A failing first keypair's error is the document's error, unchanged. |
| OwmlProperties.DocumentStopsAtFailingItem | src/parsers/owml_parser.rs:18-20 | After the first keypair, a failing keypair ends the document without error and is left unconsumed. |
| OwmlProperties.NoValueNoDocument | src/parsers/owml_parser.rs:18-20 | Where no value starts, the document fails with that value's error kind at that value's position. |
| OwmlProperties.ObjectNeedsDocument | src/parsers/owml_parser.rs:118-126 | An object fails when no document follows `{` and whitespace, with the document's error kind and position. |
| OwmlProperties.ObjectNeedsClose | src/parsers/owml_parser.rs:118-126 | An object whose document is not followed, after whitespace, by `}` fails with `Tag` where the `}` was expected. |
| OwmlProperties.EmptyObjectRejected | src/parsers/owml_parser.rs:118-126 | `{}` and `{ }` fail with `Tag` at the `}`, whatever follows. |
| OwmlRoundTrip.PadStripped | src/parsers/owml_parser.rs:32-38 | Any gap of spaces, an optional newline and spaces is stripped entirely, leaving the text after it. |
| OwmlRoundTrip.IntRoundTrip | src/parsers/owml_parser.rs:128-147 | Every integer in [-2147483647, 2147483647], printed in decimal, is read back with the text after it. |
| OwmlRoundTrip.StringRoundTrip | src/parsers/owml_parser.rs:149-154 | Every non-empty quote-free string between quotes is read back. |
| OwmlRoundTrip.ValueRoundTrip | src/parsers/owml_parser.rs:66-75 | Every well-formed value, printed in any layout, is read back exactly, with the text after it. The one condition is that no digit follows an integer. |
| OwmlRoundTrip.ItemsRoundTrip | src/parsers/owml_parser.rs:87-99 | The element loop reads back one or more printed elements, in order and whatever their variants, up to the closing text. |
| OwmlRoundTrip.KeypairRoundTrip | src/parsers/owml_parser.rs:40-48 | A printed well-formed keypair is read back as the same name and data. |
| OwmlRoundTrip.DocumentRoundTrip | src/parsers/owml_parser.rs:17-29 | One or more printed well-formed keypairs are read back as the same keypairs in the same order. |
| OwmlRoundTrip.ObjectRoundTrip | src/parsers/owml_parser.rs:115-126 | A printed object of one or more well-formed keypairs is read back, in any layout, nested values included. |
| OwmlRoundTrip.ArrayHomogeneity | src/parsers/owml_parser.rs:98-113 | A printed array of one or more well-formed elements is accepted, elements in order, exactly when they share one variant; otherwise `OneOf` at the closing `]`. |
| OwmlRoundTrip.EmptyArrayRejected | src/parsers/owml_parser.rs:101-104 | `[`, whitespace, `]` fails with `NonEmpty` at the whitespace after `[`. |
| OwmlRoundTrip.NameRestriction | src/parsers/owml_parser.rs:55-64 | A printed name is passed through when it is an int or string, and rejected with `Permutation` just after it when it is an object or array. |
| OwmlRoundTrip.NonScalarNameRejected | src/parsers/owml_parser.rs:56-61 | A document whose first name is an object or array fails with `Permutation` at the `": "` after it. |
| OwmlSourceTests.IntSmallTest | src/parsers/owml_parser.rs:240 | `1234` lexes to 1234 with nothing left. |
| OwmlSourceTests.IntLargerTest | src/parsers/owml_parser.rs:241 | `6356234` lexes to 6356234. |
| OwmlSourceTests.IntNegativeTest | src/parsers/owml_parser.rs:242 | `-46234` lexes to -46234. |
| OwmlSourceTests.StringSingleQuotedTest | src/parsers/owml_parser.rs:248-251 | `'test'` lexes to the string `test`. |
| OwmlSourceTests.StringDoubleQuotedTest | src/parsers/owml_parser.rs:252-255 | `"test"` lexes to the string `test`. |
| OwmlSourceTests.StringNotIntTest | src/parsers/owml_parser.rs:256-259 | `224521` is not a string: `OneOf` at the input. |
| OwmlSourceTests.StringOfDigitsTest | src/parsers/owml_parser.rs:260-263 | `'1234'` lexes to the string `1234`. |
| OwmlSourceTests.ArrayOfIntsTest | src/parsers/owml_parser.rs:164-174 | `[ 53234; 365; -59823; ]` parses to the three integers in order. |
| OwmlSourceTests.MixedArrayTest | src/parsers/owml_parser.rs:175-184 | `[ 53234; 'Shouldn't work'; ]` is not the two-element array; it fails with `Tag` at `'Shouldn't work'; ]`. |
| OwmlSourceTests.NameDisallowTest | src/parsers/owml_parser.rs:190-199 | An object name and an array name each make the document fail with `Permutation` at `": 73892;"`. |
| OwmlSourceTests.ObjectTest | src/parsers/owml_parser.rs:205-220 | The object with keypairs `'Object test': 672342` and `847624: 'Second value}'` parses, with the `}` inside the string, and nothing is left. |
| OwmlSourceTests.KeypairTest | src/parsers/owml_parser.rs:225-234 | `'Testing keypairs..': 8678234;` parses to that name and data. |
| OwmlSourceTests.BasicTest | src/parsers/owml_parser.rs:268-293 | Two keypairs on one line, the second holding an object of two keypairs, parse in order. |
| OwmlSourceTests.MultilineTest | src/parsers/owml_parser.rs:298-312 | Two keypairs separated by a newline parse in order. |
| OwmlSourceTests.NestedTest | tests/test_parser.rs:5-26 | `'Hello': { 1234: [ 'h'; 'e'; 'l'; 'l'; 'o'; ]; };` parses to an object inside an object with an array of five strings inside that. |

## Left out

- `parse_owml_str` is not part of this model. It is called by
  `tests/test_parser.rs` but is not defined in `src/lib.rs`, so
  `NestedTest` states the test's input and value through `get_vec_parser`
  (`Document`), which gives the keypair list of the expected object.
- `src/lib.rs` and the `o_*` parsers (`o_key_parser.rs`, `o_keypair_parser.rs`,
  `o_main_parser.rs`, `o_datatype_parser.rs`, `o_data_parser.rs`) are not part
  of this model. They form an earlier datatype-tag scheme whose data parser is
  `unimplemented!()`.
- `multi_parser.rs`, `keypair_parser.rs` and `key_parser.rs` are not part of
  this model. They are superseded snapshots that do not build against the
  rest of the crate.
- `src/types.rs` is the older value type without arrays and objects. The
  value tree here is built from the uses in `owml_parser.rs`. Its
  `compare_otype` and `src/error.rs` belong to the abandoned scheme.
- nom's "no progress" guard in `many0`/`many1` is not modelled: an item parser
  that succeeds without consuming input makes nom return an error. Every item
  parser here consumes at least one character (the proper-suffix contracts),
  so the guard can never fire.
- nom's error accumulation is not modelled. Only the `(input, ErrorKind)` pair
  that nom 5 reports is kept. `nom::Err::Failure` and `Incomplete` do not
  arise with complete input and are not modelled.
- Zero-copy borrowing: strings are `seq<char>` values, not views into the
  input buffer.
- Recursion depth and stack use are not modelled.
- OwmlParser.BuildInt: requires its argument to be a run of ASCII digits,
  which is all its one caller passes it (the output of `digit1`). On other
  text, Rust's `str::parse::<i32>` (modelled by `ParseI32`, which handles a
  leading `+` or `-`) can return `i32::MIN`, and negating that would overflow.
  That case is not modelled.
- The printer of `OwmlRoundTrip` writes strings between single quotes only
  and integers without leading zeros or `+`. The round trip is stated for
  those texts. The exact behaviour on other spellings, including mixed quotes
  and leading zeros, is stated in `OwmlProperties` instead.
