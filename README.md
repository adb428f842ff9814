# psycospans range-literal codec in Dafny

psycospans connects the `spans` range types to the psycopg2 PostgreSQL driver.
Its core is a codec between PostgreSQL's textual range syntax (PostgreSQL
documentation, section 8.17.5 "Range Input/Output") and range values. This
project models that codec and proves its properties:

- **Lexer** (`Lexer`, lexer.dfy). The ordered rule table of `raw_range_scanner`
  is modelled as `Match`, which picks the first rule that applies at the start
  of the rest of the input. `Scan` repeats it over the suffix, as
  `re.Scanner.scan` does, and returns the tokens together with the unread rest.
  - The rules, in order: a quoted value, one punctuation character `[ ] ( ) ,`,
    a maximal unquoted run, and whitespace, which yields no token.
  - A quoted value runs from its opening quote to the first same quote that is
    not part of a backslash pair (`BodyLen`). Its interior is unescaped by
    `Unescape`.
  - In the pattern, `[^\1\\]` is a class without U+0001 and backslash (`\1` is
    octal there, not a back-reference), and `.` does not match a line feed.
    The model keeps both details (`Body`).
- **Parser** (`Parser`, parser.dfy). `Parse` returns the empty sentinel for
  `empty`. Otherwise it reads the bounds and flags from the positions of the
  tokens (`FromTokens`).
  - `Render` is a reference writer of range literals. For bounds whose quoted
    spellings are ASCII, the round trip through it is proved to hold exactly
    when the record is not a single bound whose text is `,`.
  - A quoted `","` cannot be told apart from the comma token after unquoting,
    so the source reads `[",",)` as having both bounds `,`. `LoneCommaMisread`
    proves this.
- **Caster** (`Caster`, caster.dfy). `CastRawRangeString` turns a column's text
  into a range value:
  - SQL NULL stays absent;
  - `empty` becomes the range class's empty value;
  - otherwise the bounds go through the cursor's conversion when both a cursor
    and a subtype oid are given, and then to the range constructor.
- **Serializer** (`Adapter`, adapter.dfy). `AdaptRange` writes a range as SQL:
  the cast `'empty'::name`, or the constructor call `name(L, U, 'xy')`.
  It refuses a value that is not a range.
- **Type-name split** (`Catalog`, catalog.dfy). This is the pure step of the
  catalog lookup: a range type name is split at its first `.`, with schema
  `public` when there is none.

The examples from the package's unit tests are proved in examples_parse.dfy
and examples_adapt.dfy.

Calls into code the model cannot see are parameters:

- the range class's constructor and its `empty()`;
- the cursor's `cast`;
- the driver's `adapt(x).getquoted()`.

The package runs on Python 2.7 and 3.4-3.7, and the two differ in this code.
Decoding behaves the same on both for ASCII input. `re.Scanner` compiles its
combined pattern without the UNICODE flag, so in the scanner's rules `\s` is
only space, tab, line feed, vertical tab, form feed and carriage return on
every version; a character such as U+00A0 belongs to an unquoted run. The
model follows Python 2 for `adapt_range`, the only version on which its
non-empty path produces the SQL the tests expect.

Python's `IndexError` on a literal with fewer than three tokens is the result
`Err(IndexError)`. Its `ValueError` for a non-range argument is
`Err(NotARange)`.

## Model

| member | source | states |
|---|---|---|
| Lexer.BodyLen | psycospans/_utils.py:34 | A quoted value's interior ends at a closing same quote, and everything before it is plain characters (not the quote, a backslash or U+0001) or backslash pairs whose second character is not a line feed |
| Lexer.BodyLenIsFirstClose | psycospans/_utils.py:34 | The lazy quoted rule stops at exactly the first closing quote: the end it finds is the unique position with a same quote after a well-formed interior, and it finds one whenever such a position exists |
| Lexer.RunLen | psycospans/_utils.py:36 | The unquoted rule takes the longest prefix without punctuation or ASCII whitespace (space, tab, line feed, vertical tab, form feed, carriage return); any other character, non-ASCII spaces included, stays in the run |
| Lexer.SpaceLen | psycospans/_utils.py:37 | The whitespace rule takes the longest prefix of space, tab, line feed, vertical tab, form feed and carriage return |
| Lexer.Match | psycospans/_utils.py:33-38 | Some rule matches every non-empty input with a non-empty, in-bounds match, and none matches the empty input |
| Lexer.UnescapeEscape | psycospans/_utils.py:30-31 | Decoding the escape pairs of an escaped value gives the value back |
| Lexer.EscapeIsBody | psycospans/_utils.py:34 | An escaped value without U+0001 is a well-formed double-quoted interior |
| Lexer.Unescape | psycospans/_utils.py:30-31 | Decoding escape pairs never lengthens a quoted body |
| Lexer.UnescapePlain | psycospans/_utils.py:30-31 | A quoted body without backslashes decodes to itself |
| Lexer.Action | psycospans/_utils.py:27-38 | Whitespace yields no token and every other rule exactly one; punctuation and unquoted values are kept verbatim (`_raw_token`), and a quoted value's token is no longer than its interior (`_unquote_token`) |
| Lexer.Scan | psycospans/_utils.py:33-38 | Every character is covered by some rule, so the remainder `scan` returns (discarded at line 46) is always empty, and there are never more tokens than characters |
| Lexer.ScanQuoted | psycospans/_utils.py:30-31 | A quoted value is one token: its interior with the quotes stripped and the escape pairs decoded |
| Lexer.ScanPunct | psycospans/_utils.py:35 | Each of `[ ] ( ) ,` is a one-character token of its own |
| Lexer.ScanSpaces | psycospans/_utils.py:37 | Whitespace yields no token |
| Lexer.ScanUnquoted | psycospans/_utils.py:34-36 | A maximal run of other non-whitespace characters, at the end of the text or before punctuation or whitespace, is one token, verbatim; this includes a run that opens with a quote that never closes |
| Lexer.ScanQuoteFree | psycospans/_utils.py:33-38 | On text without quotes, the scanner agrees with a character-at-a-time word splitter (punctuation alone, runs collected, whitespace skipped) |
| Lexer.WordsAreTokens | psycospans/_utils.py:35-36 | That splitter produces only single punctuation characters and non-empty runs of run characters |
| Lexer.WordsSpellInput | psycospans/_utils.py:35-37 | The splitter loses nothing but whitespace: its tokens joined together are the input without whitespace |
| Parser.FromTokens | psycospans/_utils.py:48-54 | Fewer than three tokens is IndexError. Otherwise the record is not empty; `lower_inc` holds iff the first token is `[`, `upper_inc` iff the last is `]`; lower is the second token iff the third is `,`; upper is the second-to-last iff the third-to-last is `,` |
| Parser.Parse | psycospans/_utils.py:40-54 | A parse result is marked empty exactly when the text is `empty`, and it is then the sentinel with no bounds; every other text is read by position as `Parser.FromTokens` states |
| Parser.ScanSpelling | psycospans/_utils.py:33-38 | A bound written bare or quoted scans to its own text (no token when unbounded) |
| Parser.LiteralTokens | psycospans/_utils.py:33-38 | A range literal `open lower , gap upper close` scans to the open token, the bound tokens, the comma and the close token |
| Parser.LiteralParse | psycospans/_utils.py:40-54 | Parsing such a literal gives its own bounds and flags exactly when it is not one bound whose text is `,` |
| Parser.SpellingOfMeans | psycospans/_utils.py:30-36 | The writer's spelling of any bound without U+0001 is well formed and reads back as that bound |
| Parser.RenderRoundTrip | psycospans/_utils.py:30-54 | For every writable record (bounds without U+0001, and ASCII wherever the writer has to quote), parsing the written literal gives the record back exactly when it is not one bound whose text is `,` |
| Parser.UnboundedLiteral | psycospans/_utils.py:50-54 | `[,)`, `(,)`, `(,]` and `[,]` give both bounds absent and the four flag combinations |
| Parser.LoneCommaMisread | psycospans/_utils.py:51-52 | A quoted lone comma in the lower position is also read as the upper bound |
| ParseExamples.ClosedOpenUnbounded | test_psycospans.py:49-50 | `[,)` parses to no bounds, lower inclusive |
| ParseExamples.OpenOpenUnbounded | test_psycospans.py:51-52 | `(,)` parses to no bounds, both exclusive |
| ParseExamples.OpenClosedUnbounded | test_psycospans.py:53-54 | `(,]` parses to no bounds, upper inclusive |
| ParseExamples.ClosedClosedUnbounded | test_psycospans.py:55-56 | `[,]` parses to no bounds, both inclusive |
| ParseExamples.LowerOnlyExample | test_psycospans.py:58-59 | `[1, )` parses to lower `1`, no upper |
| ParseExamples.UpperOnlyExample | test_psycospans.py:60-61 | `[, 2]` parses to upper `2`, no lower |
| ParseExamples.BothBoundsExample | test_psycospans.py:62-63 | `(3, 4)` parses to bounds `3` and `4`, both exclusive |
| ParseExamples.DecimalBoundsExample | test_psycospans.py:64-65 | `[3.5, 4.7)` parses to bounds `3.5` and `4.7` |
| ParseExamples.QuotedExample | test_psycospans.py:67-69 | A single-quoted bound with escaped backslashes and quotes, followed by a quoted `test`, decodes to the expected text |
| ParseExamples.MixedQuotesExample | test_psycospans.py:70-72 | A single-quoted bound holding an escaped double quote decodes to the expected text |
| ParseExamples.QuotedUpperExample | test_psycospans.py:73-75 | A quoted upper bound after a bare lower bound decodes to the expected text |
| ParseExamples.EmptyExample | test_psycospans.py:46-47 | `empty` parses to the sentinel; other spellings are not the sentinel |
| ParseExamples.UnclosedQuoteExample | psycospans/_utils.py:34-36 | `'ab,` scans to the verbatim run `'ab` and a comma |
| ParseExamples.NoBreakSpaceExample | psycospans/_utils.py:36-37 | `[1,\u00A02)` has upper bound `\u00A02`: a no-break space is not whitespace to the scanner and stays in the run |
| Caster.CastBound | psycospans/_utils.py:69-73 | A bound is converted by the cursor for the subtype oid exactly when both are given; otherwise its raw text passes through unchanged |
| Caster.CastRawRangeString | psycospans/_utils.py:56-75 | NULL gives no value, and only NULL does; an error happens exactly when the parser fails; `empty` gives the class's empty value; otherwise the constructor receives the converted bounds and the parsed flags unchanged |
| Caster.DecodeWritten | psycospans/_utils.py:56-75 | Decoding the literal of any writable record (as for `Parser.RenderRoundTrip`) without a lone `,` bound hands the range class that record's bounds and flags (or its empty value) |
| Caster.DecodeWrittenText | psycospans/_utils.py:66-75 | Without a cursor the constructor receives the written bound texts verbatim |
| Adapter.BoundSql | psycospans/_utils.py:97-103 | An unbounded side is written `NULL`, any other side as the driver's quoting of its value; how that sits in the call is stated by `Adapter.AdaptRange` and `AdaptExamples.UnboundedBelowExample` |
| Adapter.AdaptRange | psycospans/_utils.py:88-115 | As on Python 2: a non-range gives ValueError and nothing else does; an empty range gives exactly `'empty'::name`; any other range gives `name(L, U, 'xy')` with `NULL` for an infinite side, the quoted scalar otherwise, and `[`/`(` and `]`/`)` from the flags |
| Adapter.FlagsReadBack | psycospans/_utils.py:105-115 | For every non-empty range, the call starts with the type name and `(` and ends with `')`, and its bounds argument reads back as the range's flags |
| Adapter.EmptyExactly | psycospans/_utils.py:94-115 | For every type name, the output is the empty cast exactly when the range is empty: the constructor call is always longer |
| AdaptExamples.IntRangeExample | test_psycospans.py:81-83 | `intrange(1, 5)` gives `int4range(1, 5, '[)')` |
| AdaptExamples.NumRangeExample | test_psycospans.py:85-87 | An exclusive float range gives `numrange(2.5, 10.25, '()')` |
| AdaptExamples.DateRangeExample | test_psycospans.py:89-92 | A date range places the driver's quoted dates between the type name and `'[)'` |
| AdaptExamples.UnboundedBelowExample | test_psycospans.py:94-98 | A timestamp range unbounded below writes `NULL` for its lower side, whatever value it holds |
| AdaptExamples.EmptyRangeExample | test_psycospans.py:100-102 | Any empty range gives `'empty'::int4range` |
| AdaptExamples.NotARangeExample | test_psycospans.py:78-79 | `None` is refused with ValueError |
| Catalog.FirstDot | psycospans/_utils.py:131-132 | The split position is the first `.`, or the end when there is none |
| Catalog.SplitTypeName | psycospans/_utils.py:131-135 | The schema never contains a dot, and an unqualified name is in schema `public` unchanged; `Catalog.SplitRejoins` and `Catalog.SplitQualified` state the split itself |
| Catalog.SplitRejoins | psycospans/_utils.py:131-135 | An unqualified name is in schema `public`; a qualified one splits into a dot-free schema and a rest that rejoin to the name |
| Catalog.SplitQualified | psycospans/_utils.py:131-132 | Splitting `schema.name` with a dot-free schema gives both parts back |
| Catalog.QualifiedExample | psycospans/_utils.py:131-132 | `pg_catalog.int4range` splits into `pg_catalog` and `int4range` |
| Catalog.UnqualifiedExample | psycospans/_utils.py:133-135 | An unqualified name gets schema `public` |

## Left out

- `query_range_oids` (psycospans/_utils.py:124-164): the catalog query, the cursor and the transaction-status rollback are database I/O. Only the name split is modelled, in `Catalog`.
- `register_range_caster` (psycospans/_utils.py:77-86) and psycospans/__init__.py are left out. They are psycopg2 type registration with no logic of their own: the connect version check, the OID table and the adapter registrations.
- `floatrange_preprocess` (psycospans/_utils.py:166-173) is left out: it is a float conversion.
- The constructor, `empty()`, `cur.cast` and `adapt(x).getquoted()` are foreign code and become uninterpreted parameters. `AdaptExamples` stands each quoted scalar for its own SQL text.
- Lexer.Unescape: decodes only `\\ \' \" \a \b \f \n \r \t \v` and keeps any other backslash pair verbatim. Python's `unicode_escape` also decodes octal, `\x`, `\u`, `\U` and `\N{…}` escapes. It also re-reads the UTF-8 bytes of non-ASCII characters as Latin-1. Neither is modelled, because the tests use only the three quote and backslash escapes. A malformed `\x`, `\u`, `\U` or `\N` escape, such as the body `\x` in `['\x',)`, makes the source raise `UnicodeDecodeError`; the model keeps the pair and parses successfully.
- Parser.Parse: the empty sentinel's two flags are `None` in the source and `false` in the model. Nothing reads them, because an empty record stops at the empty check.
- Adapter.AdaptRange: gives the Python 2 result, as text, which is what the tests expect. The source joins `bytes` pieces with the type name, and every caller passes that name as a `str` (psycospans/__init__.py:55, 59-62). On Python 3 that join raises `TypeError` for every non-empty range, so there the non-empty path fails; this failure is not modelled.
- Parser.RenderRoundTrip: is stated only for bounds without U+0001. The quoted rule cannot carry that character, so the writer has no spelling for a bound that holds it and also needs quoting.
- Parser.RenderRoundTrip: is also stated only for bounds that are ASCII wherever the writer quotes them. `_unquote_token` encodes a quoted body as UTF-8 and decodes the bytes with `unicode_escape`, which reads each non-ASCII byte as a Latin-1 character: on Python 3 `["a é",)` reads back as `a Ã©`, and on Python 2 `.encode()` of non-ASCII bytes raises `UnicodeDecodeError`. The model's `Lexer.Unescape` keeps such characters unchanged, so on non-ASCII quoted bounds the model and the program disagree, and no round trip is claimed there.
- Caster.DecodeWritten: inherits both limits of `Parser.RenderRoundTrip`: bounds without U+0001, and ASCII wherever the writer quotes them.
