# Verified model of the GST compliance backend

The repository is a C++ backend that takes extracted invoices, validates them, checks them against configurable rules, keeps
them in a durable ledger, and prints the GSTR-1 and GSTR-3B returns. It serves browsers through Crow, whose routing, JSON,
HTTP, WebSocket, SHA-1 and Base64 code is part of the tree. This project models both groups of components in Dafny and proves
what they are for. `dafny verify dfyconfig.toml` checks the whole project.

Code that updates state in place is a class or an array algorithm with loops here, each method proved against a function on
values; the lemmas then prove what the source promises about those functions. Every lemma turns Dafny's automatic induction
off, so each induction is written out.

**The tax core**

- `Money` is `money::taxOn` and `computeTaxSplit` with their 64-bit overflow guard: exact half-up rounding and how the
  intra-state split differs from the inter-state one.
- `Gstr`, `GstrLaws` and `GstrReturns` are the three generators of `GSTRGenerator`: loops over invoices and lines, the ordered
  map of the HSN summary, the buckets of GSTR-3B. Proved: conservation of every money column over the tables, uniqueness and
  order of the HSN rows, rounding bounds, and that the printed file says what the table says.
- `Csv` is the field and row printer against a reader for section 2 of RFC 4180, and the rupee and percentage texts.
- `Validation` and `ValidationLaws` are `validateAndSanitize` with every check in its order and the text of every fault. Proved:
  exactly which documents it accepts, and with exactly which matrix, said key by key; exactly which documents escape as an
  exception that is no rejection.
- `Facts` and `RuleEngine` are the rule interpreter; the flattened fact table agrees with the path walker. `RuleVerdicts` says what
  every check, group and rule finds, apart from how they are evaluated, `RuleMessages` and `FactPaths` what paths lead to and what
  templates show. `StatutoryRules` puts them together with validation: for each of the seven rules of the 2026 configuration, when
  an accepted document violates it.
- `Claims`, `RuleLaws` and `Interference` are about what a document claims in `has_igst` and `has_cgst_sgst` against the flags that
  validation derives from its amounts. Proved: documents that differ only in these claims, each validated by itself, give identical
  verdicts, fired checks and messages, unless a rule compares the invoice or the breakdown as a whole with something that can equal
  it; for single checks that exception is exact.
- `Pipeline` and `PipelineLaws` are the session handlers over the tables of `InvoiceRepository`, with a restart as a step that
  clears memory. Proved for every run: memory and store agree, so filing now and filing after a restart are the same.
- `PipelineSessions` proves that sessions do not interfere: after any run a session is as if the steps of the others had not taken
  place.
- `PipelineClaims` carries the result about claims over whole runs: with such rules no frame, status, ledger or return depends on
  them.

**Crow**

- `Routing` is the trie: `add` on urls and `find` refine a scan over the routes, and `optimize` changes no answer. `RouteTags` says
  what each parameter tag of a route stands for and captures.
- `JsonStrings`, `JsonPrinter`, `JsonGrammar`, `JsonParser` and `JsonRoundTrip` are the printer and the parser that works inside
  its own buffer: the parser refines a functional one, and loading what `dump` prints gives the value back. `JsonEscapes`,
  `JsonNumbers` and `JsonTexts` set that functional parser against RFC 8259: it accepts exactly the texts of a grammar that is
  written out apart from any parser, with the values of that grammar.
- `HttpBody` is the chunked and content-length body machine with trailer fields: the result does not depend on how input is split,
  and every well-formed chunked body is delivered. `HttpStrict` is the converse: nothing else is ever completed.
- `WebSocket` is the frame reader, the reassembly of messages, the closing handshake and the header writer.
- `Sha1` is the streaming hash against FIPS 180-4, with both padding branches.
- `Base64` is the encoder and decoder against RFC 4648.

`Prelude` holds shared datatypes, decimal digits and facts about sequences.

Where code and documentation disagree the model follows the code: the frame after an upload with open gaps says that they must
be answered before filing, but a filing does not look at them; the comment on `taxOn` says that an overflowing product throws
`invalid_argument`, but the code throws `overflow_error`, which none of the session handlers catches.

Eight properties hold only under a condition, which is proved exactly: the padding that `getDigest` appends is the one of
FIPS 180-4 if and only if the message is below 2^29 bytes (`Sha1.TrailerIsPadding`); a printed JSON document loads if and only
if its containers nest at most 5000 deep (`JsonRoundTrip.LoadOfDump`); CSV rows read back if and only if none is without fields
(`Csv.RowsAreRead`); rupee text converts back if and only if the amount is not negative (`Csv.RupeesConvertBack`); a check sees a
claimed tax flag if and only if it compares `invoice` or `invoice.tax_breakdown` with a literal, or with a fact at a path beside it,
that can equal it (`Interference.InterferesExactly`; for `eq` and `neq` on accepted documents,
`Interference.InterferesOnAcceptedExactly`); a number of RFC 8259 is read if and only if it is no single zero directly before an
exponent (`JsonNumbers.StandardNumber`); a `\u` escape gives well-formed UTF-8 if and only if its code is no surrogate, since the
decoder does not join surrogate pairs (`JsonEscapes.UnicodeEscape`); validation rejects a bad document with a reason if and only if
the first fault is no key that is read without being looked for (`ValidationLaws.EscapesExactly`). The smallest check that sees a
claim is `eq` on `invoice.tax_breakdown` with the literal `{}`. One promise fails throughout: a
comment on path segments (`backend/src/RuleEngine.cpp:39-40`) takes `line_items[0]` for an item under the key `line_items`, and the
table of the templates does so, but the walker drops the key in front of the bracket, so that the path leads checks nowhere
(`FactPaths.IndexesDisagree`).

## Model

| member | source | states |
|---|---|---|
| Routing.Trie.Add | backend/include/crow/routing.h:1009-1092 | throws exactly when the token pattern of the url is already stored and then changes nothing; otherwise the trie becomes the old one with that one pattern stored |
| Routing.Trie.NextToken | backend/include/crow/routing.h:1015-1062 | splits the route into parameter tags and single characters, as the loop index does |
| Routing.Trie.FindChild | backend/include/crow/routing.h:1040-1075 | picks the first child with the same parameter kind or the same first key character |
| Routing.Trie.Step | backend/include/crow/routing.h:1035-1085 | moves the cursor to a fitting child or to a new last child |
| Routing.Trie.FindFrom | backend/include/crow/routing.h:845-1001 | the backtracking search with pushes and pops equals the recursive search function and leaves the shared parameter lists as they were |
| Routing.Trie.Find | backend/include/crow/routing.h:1003-1006 | the search from the head with no parameters |
| Routing.RoutingParams.Push | backend/include/crow/routing.h:880-975 | a parameter that matches pushes exactly its captured value; one that does not pushes nothing |
| Routing.RoutingParams.Pop | backend/include/crow/routing.h:897-978 | takes the last value of that kind off again |
| Routing.PopUndoesCapture | backend/include/crow/routing.h:893-897 | popping after a push restores the captures |
| Routing.Trie.OptimizeNode | backend/include/crow/routing.h:765-786 | the in-place merging equals the compression function; it terminates because each merge lowers the node count |
| Routing.Trie.OptimizeChildren | backend/include/crow/routing.h:781-784 | every child is compressed, in place |
| Routing.Trie.Optimize | backend/include/crow/routing.h:755-761 | compresses below the head and keeps the head |
| Routing.StepKeepsPending | backend/include/crow/routing.h:1015-1085 | loop invariant of `add`: finishing at the cursor is the same as storing the rest of the route there |
| Routing.InsertStoresOneRoute | backend/include/crow/routing.h:1009-1092 | storing a route changes the rule of that token pattern and of no other |
| Routing.InsertKeepsShape | backend/include/crow/routing.h:1053-1083 | a built trie has one-character keys and one child for each character or parameter kind |
| Routing.BuildStoresRoutes | backend/include/crow/routing.h:1009-1092 | after any accepted sequence of `add` calls exactly those patterns are stored |
| Routing.SearchAllIsBest | backend/include/crow/routing.h:860-867 | over the children the search keeps the smallest non-zero rule index and its captures |
| Routing.SearchIsSound | backend/include/crow/routing.h:845-1001 | a rule that is found is stored under a pattern that consumes the whole url, with the captures of that pattern |
| Routing.SearchIsComplete | backend/include/crow/routing.h:845-1001 | no stored pattern that consumes the url has a smaller rule index than the one found |
| Routing.ScanIsSmallest | backend/include/crow/routing.h:1003-1006 | the reference scan returns the smallest rule index among the routes that match, 0 if none |
| Routing.FindIsScan | backend/include/crow/routing.h:845-1092 | `find` after any accepted `add` calls returns what the scan over the routes returns, with the captures of the route that owns the index |
| Routing.MergeKeepsVisit | backend/include/crow/routing.h:769-778 | merging a simple node with its only child changes no visit |
| Routing.OptimizeKeepsFind | backend/include/crow/routing.h:755-786 | `optimize` keeps rule index and captures of every url |
| Routing.OptimizedIsCompressed | backend/include/crow/routing.h:765-786 | a compressed node has no simple node with children in it |
| Routing.OptimizeCompresses | backend/include/crow/routing.h:727-761 | after `optimize` no simple node with children is left below the head |
| Routing.PlainIsKeyed | backend/include/crow/routing.h:1053-1083 | every trie that `add` builds meets what the compression lemmas ask of a trie |
| Routing.OptimizedFindIsScan | backend/include/crow/routing.h:755-1092 | the compressed trie of any accepted routes still answers like the scan, rule index and captures |
| Routing.KeptIsAccepted | backend/include/crow/routing.h:1009-1092 | the routes that a sequence of `add` calls on urls stores are distinct, without NUL and with a rule |
| Routing.HasRuleIfStored | backend/include/crow/routing.h:1085-1092 | in the trie of such routes a pattern has a rule exactly if it is among theirs |
| Routing.AddAll | backend/include/crow/routing.h:1009-1092 | `add` on any NUL-free urls builds the trie of the routes kept, and each call throws exactly if its pattern is there already |
| Routing.Serve | backend/include/crow/routing.h:755-1092 | routes added, looked up, compressed, looked up again: both answers are that of the scan over the routes kept, and they are equal |
| RouteTags.TokensSpell | backend/include/crow/routing.h:1015-1062 | the tokens of a route spell it again, piece by piece: characters, and for each parameter kind its own tags |
| RouteTags.OneSpelling | backend/include/crow/routing.h:1015-1062 | and no other tokens spell it, so each of the seven tags stands for one parameter kind and no other |
| RouteTags.TaggedRoute | backend/include/crow/routing.h:880-1062 | what a route of a literal text and one tag captures, by the text of the tag: `<path>` every non-empty rest, `<str>` and `<string>` exactly the rests without a slash, the number tags what their reader consumes to the end |
| RouteTags.FindTagged | backend/include/crow/routing.h:755-1092 | such a route added, compressed and looked up: found with that capture, or not found |
| JsonStrings.Escape | backend/include/crow/json.h:37-69 | appends the escaped text of any byte string |
| JsonStrings.EscapedCharIsUnit | backend/include/crow/json.h:40-68 | the escaped text of each character is one unit that decodes to that character |
| JsonStrings.BodyIsWellEscaped | backend/include/crow/json.h:900-958 | whatever the scan of a string accepts can be decoded |
| JsonStrings.UnescapeUndoesEscape | backend/include/crow/json.h:37-69 | decoding the escaped text gives back every byte string |
| JsonStrings.ScanPassesEscaped | backend/include/crow/json.h:900-958 | the scan of a printed string stops at its closing quote and not earlier |
| JsonStrings.QuotedStringIsRead | backend/include/crow/json.h:900-958 | a quoted escaped string scans to its body, and the body decodes to the string |
| JsonStrings.PlainBody | backend/include/crow/json.h:478-540 | a body without a backslash decodes to itself, so the flag may be left clear |
| JsonStrings.DecodeUnit | backend/include/crow/json.h:484-534 | one character or escape sequence of the buffer, `\u` as UTF-8 |
| JsonStrings.Emit | backend/include/crow/json.h:488-535 | writes bytes at `tail` and nowhere else |
| JsonStrings.DecodeBody | backend/include/crow/json.h:478-540 | the in-place loop: the write cursor never passes the read cursor, and the result is the functional decoding |
| JsonStrings.Unescape | backend/include/crow/json.h:478-540 | decodes once, clears the flag, writes nothing outside the body and its delimiters; a second call changes nothing |
| JsonEscapes.SingleEscape | backend/include/crow/json.h:484-503 | each of the eight single-character escapes stands for the character that section 7 of RFC 8259 gives it |
| JsonEscapes.UnicodeEscape | backend/include/crow/json.h:504-527 | `\u` and four hexadecimal digits in either case give bytes that a UTF-8 reader reads as the number they spell; the bytes are well-formed if and only if that is no surrogate |
| JsonEscapes.EscapesAreThese | backend/include/crow/json.h:905-945 | nothing else is accepted after a backslash |
| JsonEscapes.DecodesPiecewise | backend/include/crow/json.h:478-540 | a body is decoded piece by piece |
| JsonEscapes.EscapeToken | backend/include/crow/json.h:478-958 | a string token that is one `\u` escape is read as the bytes of its code point |
| JsonPrinter.DumpInternal | backend/include/crow/json.h:1850-2024 | appends the text of a value, compact or indented |
| JsonPrinter.DumpItems | backend/include/crow/json.h:1944-1975 | the list loop with its `first` flag |
| JsonPrinter.DumpFields | backend/include/crow/json.h:1979-2020 | the object loop with its `first` flag |
| JsonPrinter.DumpString | backend/include/crow/json.h:1836-1841 | a quoted escaped string |
| JsonRoundTrip.IntIsNumber | backend/include/crow/json.h:1000-1125 | the number scanner accepts every printed integer and stops behind it |
| JsonNumbers.NumberIsScanned | backend/include/crow/json.h:1000-1125 | every number of a written-out grammar is scanned to its end |
| JsonNumbers.ScannedIsNumber | backend/include/crow/json.h:1000-1125 | whatever is scanned is a number of that grammar |
| JsonNumbers.NumberExactly | backend/include/crow/json.h:1000-1125 | so a number token is read if and only if it is a text of that grammar and ends where it has to |
| JsonNumbers.StandardNumber | backend/include/crow/json.h:1000-1125 | a number of section 6 of RFC 8259 is read if and only if it is no single zero directly before an exponent |
| JsonNumbers.WhereTheyDiffer | backend/include/crow/json.h:1000-1125 | `1.` and `1e+` are read and are no numbers of the standard; `0e5` is one and is refused |
| JsonTexts.StringIsRead | backend/include/crow/json.h:478-958 | a string written as characters and escapes is read as the bytes of its pieces |
| JsonTexts.StringHasUnits | backend/include/crow/json.h:478-958 | whatever is read as a string is written like that |
| JsonTexts.TreeIsRead | backend/include/crow/json.h:873-1256 | a value written with any blanks around its punctuation is read as that value, at every depth within the limit |
| JsonTexts.ValueHasTree | backend/include/crow/json.h:873-1256 | whatever is read as a value is written like that |
| JsonTexts.LoadsExactly | backend/include/crow/json.h:873-1256 | a text loads as a value if and only if it is a text of the grammar of RFC 8259 with that value, but for numbers, raw control characters, the depth limit and what follows a NUL |
| JsonRoundTrip.DumpParses | backend/include/crow/json.h:873-1256 | at any depth and before any text, the parser accepts a printed value exactly when its nesting fits, and returns it with the rest |
| JsonRoundTrip.FitsIsHeight | backend/include/crow/json.h:876-1190 | each container costs two levels, so the depth limit of 10000 is a nesting of 5000 |
| JsonRoundTrip.LoadOfDump | backend/include/crow/json.h:873-1256 | a printed document loads if and only if its containers nest at most 5000 deep |
| JsonRoundTrip.IntOfText | backend/include/crow/json.h:1000-1125 | the text of every 64-bit integer reads back as that integer |
| JsonRoundTrip.ReloadOfLoaded | backend/include/crow/json.h:1403-1470 | a value written, parsed and made into a written value again is the same value |
| JsonRoundTrip.RoundTrip | backend/include/crow/json.h:873-2042 | dump then load is the identity on nulls, booleans, 64-bit integers, byte strings, lists and objects, compact or indented |
| JsonParser.Parser.Consume | backend/include/crow/json.h:886-892 | takes the expected character or stays |
| JsonParser.Parser.SkipBlank | backend/include/crow/json.h:894-898 | skips exactly the JSON whitespace |
| JsonParser.Parser.ScanString | backend/include/crow/json.h:907-950 | the cursor ends where the reference scan ends, with the escaping flag right |
| JsonParser.Parser.DecodeString | backend/include/crow/json.h:900-958 | accepts what the reference grammar accepts and marks the body in the buffer |
| JsonParser.Parser.DecodeNumber | backend/include/crow/json.h:1000-1125 | the state machine over number characters ends where the reference does |
| JsonParser.Parser.DecodeWord | backend/include/crow/json.h:1137-1170 | a fixed word is taken whole or not at all |
| JsonParser.Parser.DecodeValue | backend/include/crow/json.h:1127-1179 | what is stored denotes the value the reference grammar reads, at every depth |
| JsonParser.Parser.DecodeList | backend/include/crow/json.h:960-998 | the same for lists |
| JsonParser.Parser.DecodeItems | backend/include/crow/json.h:975-997 | the loop of a list keeps earlier items valid while later ones are written |
| JsonParser.Parser.DecodeObject | backend/include/crow/json.h:1181-1242 | the same for objects, whose keys are decoded in place during the parse |
| JsonParser.Parser.DecodeFields | backend/include/crow/json.h:1198-1241 | the loop of an object |
| JsonParser.Parser.Separator | backend/include/crow/json.h:983-995 | a comma leads on, the closing bracket ends, anything else is an error |
| JsonParser.Parser.ReadString | backend/include/crow/json.h:451-459 | `s()` decodes a string where it stands |
| JsonParser.Parser.Parse | backend/include/crow/json.h:1244-1253 | accepts exactly the documents of the reference grammar and stores what they denote |
| JsonParser.Load | backend/include/crow/json.h:1258-1270 | parsing a copy of the text in place refines the reference parser |
| JsonParser.DenotesElsewhere | backend/include/crow/json.h:873-1256 | a stored value depends on its own stretch of the buffer only |
| HttpBody.RunSplits | backend/include/crow/http_parser_merged.h:1723-1890 | running over a stretch is running over its two parts |
| HttpBody.Parser.OnBody | backend/include/crow/http_parser_merged.h:1723-1760 | pieces handed out are appended |
| HttpBody.Parser.TakeBytes | backend/include/crow/http_parser_merged.h:1723-1872 | the bulk read of body bytes equals reading them one by one |
| HttpBody.Parser.CountHeaderSize | backend/include/crow/http_parser_merged.h:292-300 | bytes of the size line count towards the header limit |
| HttpBody.Parser.ExamineSize | backend/include/crow/http_parser_merged.h:1770-1822 | the chunk size with its 64-bit sum taken modulo 2^64 follows the exact transition |
| HttpBody.Parser.ExamineRest | backend/include/crow/http_parser_merged.h:1823-1918 | the other chunk states |
| HttpBody.Parser.ExamineValueByte | backend/include/crow/http_parser_merged.h:1341-1436 | a byte of a value; that of a Content-Length extends its number modulo 2^64 as the exact step does |
| HttpBody.Parser.Turn | backend/include/crow/http_parser_merged.h:745-1918 | one turn of the byte loop, with the body mark |
| HttpBody.Parser.Execute | backend/include/crow/http_parser_merged.h:697-1940 | one call: the state after it is the byte-by-byte run over the buffer |
| HttpBody.BulkRun | backend/include/crow/http_parser_merged.h:1723-1872 | `n` body bytes are delivered in order and counted down |
| HttpBody.RunAppend | backend/include/crow/http_parser_merged.h:1723-1890 | feeding two buffers equals feeding their concatenation |
| HttpBody.FeedAll | backend/include/crow/http_parser_merged.h:697-1940 | any split into calls gives the state and the pieces of the whole text |
| HttpBody.SizeRun | backend/include/crow/http_parser_merged.h:1770-1822 | any run of chunk size digits is accepted exactly up to a limit, its stored value is exact and below the all-ones sentinel |
| HttpBody.UnhexIsHex | backend/include/crow/http_parser_merged.h:681-690 | the table gives each of the sixteen digits, small or capital, its value and no other ASCII character one; bytes from 128 on count as a digit zero |
| HttpBody.ContentLength | backend/include/crow/http_parser_merged.h:1300-1436 | the header value loop |
| HttpBody.NextLength | backend/include/crow/http_parser_merged.h:1397-1436 | one turn of it, with the 64-bit sum taken modulo 2^64 |
| HttpBody.ContentLengthIsExact | backend/include/crow/http_parser_merged.h:1300-1436 | a Content-Length is accepted exactly when it is digits and then spaces, up to a limit, and its value is exact |
| HttpBody.SizeLineRun | backend/include/crow/http_parser_merged.h:1770-1850 | a size line leads to the data or past the last chunk |
| HttpBody.ChunkRun | backend/include/crow/http_parser_merged.h:1770-1890 | a chunk delivers its data and leads back to the next size line |
| HttpBody.ChunksRun | backend/include/crow/http_parser_merged.h:1770-1890 | any number of chunks deliver their data in order |
| HttpBody.KindNext | backend/include/crow/http_parser_merged.h:1085-1224 | the header state after a name tells how much of `content-length` it matches, whatever its letter case |
| HttpBody.NameRun | backend/include/crow/http_parser_merged.h:1056-1224 | a field name is read to its end |
| HttpBody.ValueRun | backend/include/crow/http_parser_merged.h:1250-1516 | a value without special meaning is read to its end, blanks in front of it skipped |
| HttpBody.FieldRun | backend/include/crow/http_parser_merged.h:1056-1578 | a trailer field leads to where the next one can start and changes nothing but the header size |
| HttpBody.FieldsRun | backend/include/crow/http_parser_merged.h:1056-1578 | so do any number of them |
| HttpBody.ChunkedBodyIsRead | backend/include/crow/http_parser_merged.h:1770-1918 | every well-formed chunked body, with or without trailer fields, is delivered, and completion is signalled once, at its last byte and not before |
| HttpBody.IdentityBodyIsRead | backend/include/crow/http_parser_merged.h:1723-1759 | a body of known length is delivered and completed at its last byte |
| HttpBody.ReceiveChunked | backend/include/crow/http_parser_merged.h:697-1940 | a chunked body with any trailer in any non-empty buffers: the `on_body` pieces make up the chunk data, with one completion |
| HttpStrict.EveryTextHasShape | backend/include/crow/http_parser_merged.h:1056-1918 | as long as nothing fails or is completed, the text is the beginning of a chunked body and its data so far has been delivered |
| HttpStrict.CompletedIsChunkedBody | backend/include/crow/http_parser_merged.h:1056-1918 | when a message is completed, the text up to there is a whole chunked body and exactly the data of its chunks was delivered |
| HttpStrict.HeadersAreLimited | backend/include/crow/http_parser_merged.h:292-300 | no size line and no trailer is longer than 81920 bytes unless reading fails |
| HttpStrict.TokenChars | backend/include/crow/http_parser_merged.h:646-679 | the characters of a name are the visible ones that are no delimiters of section 3.2.6 of RFC 7230 |
| HttpStrict.HeaderChars | backend/include/crow/http_parser_merged.h:459-460 | the characters of a value are the visible ones, blanks and the bytes from 128 on, besides line ends |
| WebSocket.SwapReversesBytes | backend/include/crow/websocket.h:262-262 | the 64-bit expression with two `htonl` writes the bytes most significant first |
| WebSocket.LoadBigEndian | backend/include/crow/websocket.h:428-428 | the same expression with `ntohl` reads them back |
| WebSocket.MaskTwice | backend/include/crow/websocket.h:557-563 | masking twice gives the payload back |
| WebSocket.Connection.Unmask | backend/include/crow/websocket.h:557-563 | the in-place unmasking loop |
| WebSocket.Connection.HandleFragment | backend/include/crow/websocket.h:555-638 | unmasks, merges and reports one complete frame; it ends the connection exactly on a close frame when one was sent before |
| WebSocket.Connection.Dispatch | backend/include/crow/websocket.h:564-638 | the switch over the opcode |
| WebSocket.Connection.Merge | backend/include/crow/websocket.h:568-574 | appends the fragment and delivers the message on FIN |
| WebSocket.Connection.ReadMiniHeader | backend/include/crow/websocket.h:310-376 | reads the two header bytes and picks the length state |
| WebSocket.Connection.ReadLength | backend/include/crow/websocket.h:378-449 | reads the 16-bit or 64-bit length |
| WebSocket.Connection.ReadMask | backend/include/crow/websocket.h:451-497 | refuses exactly payloads over the maximum, else reads the key |
| WebSocket.Connection.TakePayload | backend/include/crow/websocket.h:499-516 | appends as many payload bytes as the socket has, up to the buffer size |
| WebSocket.Connection.ReadPayload | backend/include/crow/websocket.h:499-528 | one payload read; it completes the frame when nothing remains |
| WebSocket.Connection.ReadFrame | backend/include/crow/websocket.h:296-538 | one frame, whatever the sizes of the payload reads; the socket is closed exactly after a frame that is too long or a close frame |
| WebSocket.Connection.Receive | backend/include/crow/websocket.h:296-638 | any stream of frames has the effect of its frames in order, up to a close frame or before one that is too long |
| WebSocket.NothingAfterClose | backend/include/crow/websocket.h:296-305 | whatever follows a close frame, or a frame that is too long, has no effect |
| WebSocket.ClosesBoth | backend/include/crow/websocket.h:216-231 | after a close frame both sides have closed: its payload is echoed and handed to the close handler, each at most once; no other frame closes |
| WebSocket.MiniBits | backend/include/crow/websocket.h:540-549 | mask bit, opcode, FIN and length code of the two header bytes |
| WebSocket.LengthBits | backend/include/crow/websocket.h:392-428 | both extended length encodings load the length that was written |
| WebSocket.FrameParts | backend/include/crow/websocket.h:296-538 | where the parts of a frame stand in the stream |
| WebSocket.EncodeAllAt | backend/include/crow/websocket.h:296-538 | each frame starts where the frames before it end |
| WebSocket.HandleAllSeparates | backend/include/crow/websocket.h:564-638 | pings and pongs do not touch the reassembly, and each ping is answered in order |
| WebSocket.ShapesAccepted | backend/include/crow/websocket.h:566-612 | the fragments of one message reassemble to it, with its tag, on the last one |
| WebSocket.AllShapesAccepted | backend/include/crow/websocket.h:566-612 | any number of messages reassemble in order |
| WebSocket.CarriedAreHandled | backend/include/crow/websocket.h:296-638 | frames that carry messages are all handled, if none is too long |
| WebSocket.MessagesAreReassembled | backend/include/crow/websocket.h:296-638 | the messages delivered are exactly the ones the frames carry, in order and with the right text or binary tag |
| WebSocket.BuildHeader | backend/include/crow/websocket.h:245-266 | first byte, length code and extended length in network order |
| WebSocket.HeaderStartsFrame | backend/include/crow/websocket.h:245-266 | the header of a payload starts a final unmasked frame with that opcode and size |
| WebSocket.SendOne | backend/include/crow/websocket.h:245-638 | what one side writes with `build_header`, the other side delivers as one message |
| Sha1.Sha.constructor | backend/include/crow/TinySHA1.hpp:55-74 | starts from the initial hash value with nothing processed |
| Sha1.Sha.WordAt | backend/include/crow/TinySHA1.hpp:159-164 | four bytes shifted into a big-endian word |
| Sha1.Sha.Expand | backend/include/crow/TinySHA1.hpp:158-167 | the 80 words of the message schedule |
| Sha1.Select | backend/include/crow/TinySHA1.hpp:176-191 | the round function and constant of each round, as the standard defines them |
| Sha1.Sha.ProcessBlock | backend/include/crow/TinySHA1.hpp:157-205 | the 80-round loop computes the compression function of the standard |
| Sha1.Sha.ProcessByte | backend/include/crow/TinySHA1.hpp:75-83 | keeps the digest equal to the hash state of the complete blocks and the buffer equal to the rest |
| Sha1.Sha.ProcessBytes | backend/include/crow/TinySHA1.hpp:84-97 | the same for a range of bytes |
| Sha1.Sha.ZeroUntil | backend/include/crow/TinySHA1.hpp:102-111 | one of the zero-filling loops |
| Sha1.Sha.FillBlock | backend/include/crow/TinySHA1.hpp:101-112 | both padding branches fill the block to 56 bytes |
| Sha1.Sha.PutLength | backend/include/crow/TinySHA1.hpp:113-120 | four zero bytes and the low 32 bits of the bit count |
| Sha1.Sha.GetDigest | backend/include/crow/TinySHA1.hpp:98-124 | the digest of everything processed, which is the SHA-1 of the message below 2^29 bytes |
| Sha1.RotationsAgree | backend/include/crow/TinySHA1.hpp:52-54 | the rotation with exclusive or is the rotation of the standard |
| Sha1.MajorityAgrees | backend/include/crow/TinySHA1.hpp:185-187 | the majority with inclusive or is the one of the standard |
| Sha1.AbsorbNext | backend/include/crow/TinySHA1.hpp:75-83 | one more byte joins the incomplete block or completes it |
| Sha1.LowBits | backend/include/crow/TinySHA1.hpp:99-120 | wrap-around of the 64-bit byte count and bit count does not reach the four length bytes |
| Sha1.TrailerIsPadding | backend/include/crow/TinySHA1.hpp:98-120 | what is appended is the padding of the standard if and only if the message is below 2^29 bytes |
| Sha1.DigestOfPieces | backend/include/crow/TinySHA1.hpp:75-124 | any split of a message below 2^29 bytes gives the SHA-1 of the whole message |
| Sha1.WordOfWordBytes | backend/include/crow/TinySHA1.hpp:125-155 | the bytes of a digest word make up that word again |
| Sha1.RoundConstants | backend/include/crow/TinySHA1.hpp:178-191 | each round constant is the whole part of 2^30 times the square root of 2, 3, 5 or 10 |
| Sha1.InitialPattern | backend/include/crow/TinySHA1.hpp:65-71 | the initial hash value is the counting digit pattern |
| Base64.EncoderBits | backend/include/crow/utility.h:577-583 | the masks and shifts cut a 24-bit group into its sextets |
| Base64.PutQuad | backend/include/crow/utility.h:575-586 | one round of the loop |
| Base64.PutTail | backend/include/crow/utility.h:587-602 | the last one or two bytes with their padding |
| Base64.Base64Encode | backend/include/crow/utility.h:570-604 | the encoding of section 4 of RFC 4648, for any alphabet of 64 characters |
| Base64.Base64Decode | backend/include/crow/utility.h:621-694 | every byte of the result is the one its characters determine |
| Base64.KeyOfChar | backend/include/crow/utility.h:627-634 | the decoder maps each character of either alphabet to its value |
| Base64.DecoderBits | backend/include/crow/utility.h:666-678 | the shifts put the sextets together again |
| Base64.EncodedLength | backend/include/crow/utility.h:636-653 | the size the decoder computes is the size of the input, padded or not |
| Base64.DecodeUndoesEncode | backend/include/crow/utility.h:570-694 | decoding undoes encoding for every non-empty byte string, both alphabets, padded or stripped |
| Money.GuardIsExact | backend/src/StateMatrix.cpp:89-93 | the division guard refuses exactly the products that pass the largest amount but one |
| Money.TaxIsExact | backend/src/StateMatrix.cpp:77-97 | without an exception the product fits in 64 bits and the result is the exact half-up quotient |
| Money.WhenTaxThrows | backend/src/StateMatrix.cpp:77-93 | which input throws which error |
| Money.SplitAddsUp | backend/src/StateMatrix.cpp:103-123 | the heads add up to the total, CGST equals SGST, nothing leaves 64 bits |
| Money.EvenRates | backend/src/StateMatrix.cpp:103-123 | for even rates CGST plus SGST is within one paisa of IGST |
| Money.OddRates | backend/src/StateMatrix.cpp:103-123 | for odd rates IGST minus both halves lies between floor(base/10000)-1 and ceil(base/10000)+1 |
| Money.EvenBoundsAreReached | backend/src/StateMatrix.cpp:103-123 | both one-paisa bounds occur |
| Money.LinewiseRounding | backend/src/StateMatrix.cpp:95-97 | `n` rounded taxes differ from the rounded tax of the sum by at most n/2 paise |
| Csv.FindSpecial | backend/src/GSTRGenerator.cpp:45-45 | finds a comma, quote or line break |
| Csv.CsvEscaped | backend/src/GSTRGenerator.cpp:43-56 | quotes exactly the fields that need it and doubles quotes |
| Csv.CsvRow | backend/src/GSTRGenerator.cpp:58-68 | the fields of a line with commas and CRLF |
| Csv.FieldIsRead | backend/src/GSTRGenerator.cpp:43-56 | a reader for section 2 of RFC 4180 reads each escaped field back |
| Csv.RowIsRead | backend/src/GSTRGenerator.cpp:58-68 | and each row |
| Csv.RowsAreRead | backend/src/GSTRGenerator.cpp:43-68 | the concatenated rows read back as exactly those rows, if and only if no row is without fields |
| Csv.RupeesKeepMagnitude | backend/src/GSTRGenerator.cpp:20-28 | rupee text gives back the amount without its sign |
| Csv.RupeesConvertBack | backend/src/GSTRGenerator.cpp:20-28 | it converts back to the same cents if and only if they are not negative |
| Csv.RatesConvertBack | backend/src/GSTRGenerator.cpp:31-40 | a printed rate gives back its basis points |
| Gstr.LessIsOrder | backend/src/GSTRGenerator.cpp:170-170 | the key order of the map is a strict total order |
| Gstr.LessIsLexicographic | backend/src/GSTRGenerator.cpp:170-170 | it sorts by code, byte by byte, and then by rate |
| Gstr.RecordIsLocal | backend/src/GSTRGenerator.cpp:176-177 | adding a line touches the row of its key and no other |
| Gstr.HsnRowsIsSummary | backend/src/GSTRGenerator.cpp:170-196 | strictly increasing keys, one row for each key that occurs, each with the totals of its lines |
| Gstr.MissingQuantityCounts | backend/src/GSTRGenerator.cpp:175-177 | a line without a quantity counts like one of quantity zero |
| Gstr.SummaryIsUnique | backend/src/GSTRGenerator.cpp:170-196 | these properties determine the table |
| GstrLaws.BucketsAddUp | backend/src/GSTRGenerator.cpp:208-222 | the two GSTR-3B buckets together charge what all lines charge |
| GstrLaws.HsnConserves | backend/src/GSTRGenerator.cpp:170-180 | so do the HSN rows |
| GstrLaws.TablesConserve | backend/src/GSTRGenerator.cpp:165-237 | every money column has the same sum over HSN rows, printed GSTR-3B rows and line splits |
| GstrLaws.OrderIsIrrelevant | backend/src/GSTRGenerator.cpp:165-222 | reordering the invoices changes neither the HSN table nor the buckets |
| GstrLaws.ChargeIsExact | backend/src/GSTRGenerator.cpp:94-99 | the charge of a line is its statutory split |
| GstrLaws.RowIsSumOfTaxes | backend/src/GSTRGenerator.cpp:171-180 | the columns of a row are the rounded taxes of its lines, INTER in IGST, INTRA in CGST and SGST |
| GstrLaws.HsnRowRounding | backend/src/GSTRGenerator.cpp:171-180 | in each HSN row the accumulated tax is within n/2 paise of the tax on the accumulated value, and CGST equals SGST |
| GstrLaws.TotalsFit | backend/src/GSTRGenerator.cpp:72-91 | up to 3000 validated lines no total leaves 64 bits |
| GstrReturns.HsnMap.At | backend/src/GSTRGenerator.cpp:176-176 | `operator[]` of the ordered map finds the row of a key or inserts it in order |
| GstrReturns.HsnMap.Add | backend/src/GSTRGenerator.cpp:82-91 | adds a split and a quantity to the row of its key |
| GstrReturns.AddInvoice | backend/src/GSTRGenerator.cpp:171-180 | the lines of one invoice, up to the first exception |
| GstrReturns.PrintHsn | backend/src/GSTRGenerator.cpp:182-196 | one CSV line of eight columns for each row, in key order, with the quantity of its lines |
| GstrReturns.Gstr1HsnSummary | backend/src/GSTRGenerator.cpp:165-198 | the whole HSN file with its quantity column, or the exception of the first line that throws |
| GstrReturns.TaxAggregate.Add | backend/src/GSTRGenerator.cpp:82-91 | adds a split and a quantity to a bucket |
| GstrReturns.AddToBucket | backend/src/GSTRGenerator.cpp:211-222 | the lines of one invoice go to the bucket of its supply type, which becomes present |
| GstrReturns.PrintSummary | backend/src/GSTRGenerator.cpp:224-236 | one line for each bucket that is present, INTRA first |
| GstrReturns.Gstr3B | backend/src/GSTRGenerator.cpp:203-238 | the whole GSTR-3B file, or the exception |
| GstrReturns.InvoiceTotal | backend/src/GSTRGenerator.cpp:125-133 | taxable value plus total tax over the lines |
| GstrReturns.Emit4A | backend/src/GSTRGenerator.cpp:139-156 | one row of Table 4A |
| GstrReturns.EmitInvoice | backend/src/GSTRGenerator.cpp:139-156 | the rows of one B2B invoice |
| GstrReturns.Gstr1B2B | backend/src/GSTRGenerator.cpp:114-159 | the whole Table 4A file: B2B invoices only, in input order |
| GstrReturns.HeadersAreRows | backend/src/GSTRGenerator.cpp:116-207 | the header lines are CSV rows that need no quoting |
| GstrReturns.InvoiceValueIsRowTotal | backend/src/GSTRGenerator.cpp:121-133 | each 4A invoice value equals taxable value plus tax over the rows of that invoice |
| GstrReturns.PrintedReadsBack | backend/src/GSTRGenerator.cpp:58-238 | a printed table reads back as its rows |
| GstrReturns.HsnFileIsFaithful | backend/src/GSTRGenerator.cpp:165-198 | whoever reads the HSN file finds the sorted keys and, in cents, the totals of their lines, and in the eighth column the printed sum of their quantities |
| GstrReturns.SummaryFileIsFaithful | backend/src/GSTRGenerator.cpp:203-238 | whoever reads the GSTR-3B file finds one line for each supply type that occurs, with its two labels, what its lines charge and its total tax |
| GstrReturns.B2BFileIsFaithful | backend/src/GSTRGenerator.cpp:114-159 | whoever reads the Table 4A file finds one line for each line of each B2B invoice, in order, with its value, rate and amounts |
| GstrReturns.B2BLineIsFaithful | backend/src/GSTRGenerator.cpp:114-159 | where each line of each B2B invoice stands in that file, and that it says recipient, number, date, place of supply, supply type, invoice value, rate and amounts of that line; no other line is there |
| GstrReturns.Generate | backend/src/Pipeline.cpp:313-318 | the three files, or the exception of the first generator that throws |
| Validation.CollectLines | backend/src/StateMatrix.cpp:260-291 | the loop over the line items, up to the first fault |
| Validation.AcceptedExactly | backend/src/StateMatrix.cpp:125-338 | which documents are accepted, whatever the order of the checks; ValidationLaws.AcceptsExactly says with which matrix |
| Validation.AcceptedLinesFit | backend/src/StateMatrix.cpp:262-290 | every line of an accepted document is in the range that the sums of the returns ask for |
| ValidationLaws.KindLaw | backend/src/StateMatrix.cpp:203-235 | the supply is INTRA exactly if the text is "INTRA", and so for INTER and the three classifications |
| ValidationLaws.LinesLaw | backend/src/StateMatrix.cpp:260-291 | the lines are those of the document in order, each with its own code, rate, value, description, quantity and unit price |
| ValidationLaws.TaxLaw | backend/src/StateMatrix.cpp:293-324 | each tax head is the amount under its key or zero, the total the claimed one or their sum, and the flags say whether the amounts are positive |
| ValidationLaws.AcceptedMatrixLaw | backend/src/StateMatrix.cpp:125-338 | everything an accepted matrix holds stands under its key in the document |
| ValidationLaws.AcceptsExactly | backend/src/StateMatrix.cpp:125-338 | validation gives a matrix if and only if the document is good and the matrix is the one that reflects it |
| ValidationLaws.Limits | backend/src/StateMatrix.cpp:33-75 | amounts are accepted from zero to ten million million rupees, rates to the largest 32-bit number |
| ValidationLaws.EscapesExactly | backend/src/StateMatrix.cpp:125-338 | validation throws something that is no rejection if and only if the first fault is a key that is read without being looked for |
| Facts.ResolvePath | backend/src/RuleEngine.cpp:172-209 | the walk along the segments of a path |
| Facts.FactTable.CollectFacts | backend/src/RuleEngine.cpp:377-412 | the recursive walk that fills both tables, last one wins |
| Facts.CollectAgrees | backend/src/RuleEngine.cpp:377-412 | below any prefix, the table holds for a path what the walker finds there |
| Facts.TableAgreesWithWalker | backend/src/RuleEngine.cpp:172-412 | the flattened table maps a path without brackets to a value that is no container exactly when the walker returns it |
| FactPaths.TableHoldsLeaves | backend/src/RuleEngine.cpp:377-412 | every leaf of a document, through objects and arrays, is in the table under the path made of its keys and indexes |
| FactPaths.IndexesDisagree | backend/src/RuleEngine.cpp:172-209 | the path that the table has for an item of an array under a key leads the walker nowhere |
| RuleEngine.RunCheck | backend/src/RuleEngine.cpp:233-352 | a check or nested group; nothing where reading its text throws |
| RuleEngine.RunMembers | backend/src/RuleEngine.cpp:253-259 | every member is evaluated, in order |
| RuleEngine.CombineGroup | backend/src/RuleEngine.cpp:251-260 | an AND group fires when all members do, an OR group when any does, an empty one never |
| RuleEngine.LabelGroup | backend/src/RuleEngine.cpp:262-269 | the label of a group |
| RuleEngine.RunLeaf | backend/src/RuleEngine.cpp:275-327 | the operators on one fact; only `absent` fires for an absent fact |
| RuleEngine.RunComparison | backend/src/RuleEngine.cpp:328-351 | ne_cross, eq, neq and the order operators |
| RuleEngine.FindLength | backend/src/RuleEngine.cpp:316-325 | the search through the allowed lengths |
| RuleEngine.Substitute | backend/src/RuleEngine.cpp:433-489 | the template with its tokens replaced; unknown tokens and a dangling brace stay |
| RuleEngine.CombineRule | backend/src/RuleEngine.cpp:522-549 | the two loops over the checks of a rule: violated and fired labels |
| RuleEngine.ComposeMessage | backend/src/RuleEngine.cpp:551-562 | the message over the table with the derived flags written over it |
| RuleEngine.RunRule | backend/src/RuleEngine.cpp:495-565 | gate, checks and message of one rule |
| RuleEngine.RunRules | backend/src/RuleEngine.cpp:151-161 | all rules in configuration order |
| RuleVerdicts.NumberVerdict | backend/src/RuleEngine.cpp:20-30 | for two numbers gt fires exactly if the fact is greater, and so for gte, lt and lte, in both spellings |
| RuleVerdicts.OnlyNumbersCompare | backend/src/RuleEngine.cpp:345-350 | the order operators fire for numbers only |
| RuleVerdicts.EqualityVerdict | backend/src/RuleEngine.cpp:339-344 | eq fires exactly if a fact that is there equals the literal, neq if it does not |
| RuleVerdicts.StateVerdict | backend/src/RuleEngine.cpp:298-304 | eq_true, eq_false, present and absent of a fact that is there |
| RuleVerdicts.AbsentVerdict | backend/src/RuleEngine.cpp:298-350 | of a fact that is not there only absent fires |
| RuleVerdicts.CrossVerdict | backend/src/RuleEngine.cpp:328-338 | ne_cross fires exactly if both facts are there and differ |
| RuleVerdicts.TokenVerdict | backend/src/RuleEngine.cpp:305-327 | token_length_out fires exactly if no number of the list is the length of the text |
| RuleVerdicts.OnlyTextHasLength | backend/src/RuleEngine.cpp:309-313 | and only for a text and a list |
| RuleVerdicts.UnknownVerdict | backend/src/RuleEngine.cpp:351-351 | any other operator finds nothing and is labelled as unknown |
| RuleVerdicts.LeafLabel | backend/src/RuleEngine.cpp:280-287 | the label is the field and the operator in its short spelling |
| RuleVerdicts.OppositesExclude | backend/src/RuleEngine.cpp:298-350 | of two opposite checks of a fact that is there exactly one fires |
| RuleVerdicts.VerdictIsMonotone | backend/src/RuleEngine.cpp:20-30 | a larger fact keeps what gt and gte find, a smaller one what lt and lte find |
| RuleVerdicts.LiteralLaw | backend/src/RuleEngine.cpp:289-297 | a source that names a threshold which is there replaces the literal |
| RuleVerdicts.ProseIsIgnored | backend/src/RuleEngine.cpp:358-370 | any other source leaves it |
| RuleVerdicts.FlagFacts | backend/src/RuleEngine.cpp:211-227 | the facts of the two flags are the derived ones |
| RuleVerdicts.GroupVerdict | backend/src/RuleEngine.cpp:245-270 | a group fires as its operator says of its members, and throws exactly if one of them does |
| RuleVerdicts.GroupLabel | backend/src/RuleEngine.cpp:262-269 | a group is labelled with the labels of its members in brackets, its operator between them |
| RuleVerdicts.MalformedVerdict | backend/src/RuleEngine.cpp:237-280 | where a check throws or is none |
| RuleVerdicts.RuleVerdict | backend/src/RuleEngine.cpp:495-565 | a rule is skipped exactly if its gate does not fire, violated exactly if it is not skipped and its checks combine, and throws exactly where it is said to |
| RuleVerdicts.FiredChecksLaw | backend/src/RuleEngine.cpp:522-549 | a violated rule reports the labels of all its checks, with OR those of the ones that fired, in order |
| RuleVerdicts.RulesVerdict | backend/src/RuleEngine.cpp:151-161 | one such verdict for each rule in configuration order, unless some rule throws |
| RuleMessages.PathLaw | backend/src/RuleEngine.cpp:172-209 | a path leads where its segments lead: into objects by key, into arrays by the index of a bracketed segment |
| RuleMessages.TemplateIsFilled | backend/src/RuleEngine.cpp:433-489 | in a template of texts and tokens every token is replaced and all other text stays |
| RuleMessages.PathToken | backend/src/RuleEngine.cpp:377-489 | a token that is a path shows the value that the walker finds there, a flag the derived one |
| RuleMessages.FormatLaw | backend/src/RuleEngine.cpp:414-431 | texts as they are, whole numbers in decimal, booleans as words |
| RuleMessages.AliasToken | backend/src/RuleEngine.cpp:83-91 | each of the seven short names stands for its path |
| RuleMessages.BareToken | backend/src/RuleEngine.cpp:377-489 | any other name shows the last leaf of that name in document order |
| StatutoryRules.EInvoiceRule | config/rules_2026.json:41-57 | on every accepted document: violated exactly if the turnover is known and exceeds the threshold and there is no IRN |
| StatutoryRules.ReportingRule | config/rules_2026.json:60-74 | violated exactly if there is an IRN and no reporting date |
| StatutoryRules.SplitRule | config/rules_2026.json:78-110 | violated exactly if a supply within the state carries IGST, or one between states CGST or SGST |
| StatutoryRules.HsnRule | config/rules_2026.json:114-127 | violated exactly if the code has neither four, six nor eight characters |
| StatutoryRules.HalvesRule | config/rules_2026.json:131-147 | violated exactly if there is no IGST and one of the halves is missing or their numbers differ |
| StatutoryRules.ClassificationRule | config/rules_2026.json:151-171 | violated exactly if the classification is open or a B2B sale names no buyer GSTIN |
| Claims.DocumentWalk | backend/src/RuleEngine.cpp:172-209 | a path that is no flag leads to the same fact with and without the claimed flags, but for the flags inside the two objects around them |
| Claims.TableIgnoresClaims | backend/src/RuleEngine.cpp:377-560 | the table that templates see does not depend on the claims |
| Claims.ValidationIgnoresClaims | backend/src/StateMatrix.cpp:293-315 | validation accepts, rejects or throws alike and derives the same flags and amounts, whatever the document claims |
| RuleLaws.SimilarFacts | backend/src/RuleEngine.cpp:211-227 | the derived flags hide the claimed ones; any other fact differs at most by the flags inside it |
| RuleLaws.SameAsLiteral | backend/src/RuleEngine.cpp:339-344 | a literal that no object with the flags can equal compares alike with and without the claims |
| RuleLaws.NeverEqual | backend/src/RuleEngine.cpp:328-338 | the object around the flags never equals a fact inside or around it |
| RuleLaws.SameCross | backend/src/RuleEngine.cpp:328-338 | two facts whose paths are not beside each other compare alike with and without the claims |
| RuleLaws.CheckIgnoresClaims | backend/src/RuleEngine.cpp:233-352 | a check that compares the invoice or its breakdown with nothing that can equal it has the same outcome |
| RuleLaws.TemplateIgnoresClaims | backend/src/RuleEngine.cpp:433-489 | no template depends on the claims |
| RuleLaws.RuleIgnoresClaims | backend/src/RuleEngine.cpp:495-565 | nor does a rule of such checks |
| RuleLaws.ClaimsCannotInterfere | backend/src/RuleEngine.cpp:151-166 | documents that differ only in their claims about has_igst and has_cgst_sgst, each validated by itself, give identical verdicts, fired checks and messages, or the same rejection |
| Interference.PlaceLeads | backend/src/RuleEngine.cpp:172-209 | for every path and value there is a document in which the path leads to the value |
| Interference.BesideDiffers | backend/src/RuleEngine.cpp:211-227 | for every path beside the flags there are two documents that differ only in a claim, in one of which both facts are equal and in the other not |
| Interference.InterferesExactly | backend/src/RuleEngine.cpp:275-351 | a check that is no group can tell a claim if and only if it compares the invoice or the breakdown with a literal, or a fact beside it, that can equal it |
| Interference.InterferesOnAcceptedExactly | backend/src/RuleEngine.cpp:339-344 | among the documents that validation accepts, eq and neq can tell a claim if and only if the literal can be what such a document holds there |
| Pipeline.Repository.CreateSession | backend/src/InvoiceRepository.cpp:204-209 | inserts an ACTIVE session unless it exists |
| Pipeline.Repository.SetSessionStatus | backend/src/InvoiceRepository.cpp:218-225 | updates a known session, ignores an unknown one |
| Pipeline.Repository.SaveExtraction | backend/src/InvoiceRepository.cpp:243-339 | the session, one invoice row and its numbered line rows |
| Pipeline.Repository.InvoicesForSession | backend/src/InvoiceRepository.cpp:341-368 | the matrices of the stored documents of a session, validated again, in ingestion order |
| Pipeline.Repository.AddChatMessage | backend/src/InvoiceRepository.cpp:374-390 | the session and one transcript row |
| Pipeline.Pipeline.constructor | backend/src/Pipeline.cpp:74-81 | construction over an existing store, which is what a restart does, starts with empty memory |
| Pipeline.Pipeline.OpenSession | backend/src/Pipeline.cpp:97-104 | an empty ACTIVE session in memory and in the store |
| Pipeline.Pipeline.CloseSession | backend/src/Pipeline.cpp:106-116 | ABANDONED in both places, unless unknown or FILED |
| Pipeline.Pipeline.ProcessUpload | backend/src/Pipeline.cpp:129-240 | every way an upload can end: refused ones change nothing, an accepted one leaves INTERROGATING exactly if a result is violated, a frame for each violated result in order, the closing frame, and these frames in the transcript |
| Pipeline.Pipeline.Record | backend/src/Pipeline.cpp:179-239 | ledger, rows, transcript and status of an accepted upload |
| Pipeline.Pipeline.Report | backend/src/Pipeline.cpp:179-210 | the frames are the messages and actions of exactly the violated results, in order, then their number or the verified frame |
| Pipeline.UploadLaw | backend/src/Pipeline.cpp:129-240 | the same for every upload as a step, whatever validation and the rules answer |
| Pipeline.Pipeline.Transcribe | backend/src/Pipeline.cpp:225-233 | every chat frame is archived in order |
| Pipeline.Pipeline.ProcessUserReply | backend/src/Pipeline.cpp:246-274 | archives the note and its acknowledgement |
| Pipeline.Pipeline.RequestFiling | backend/src/Pipeline.cpp:280-329 | adoption, rehydration, refusal or filing |
| Pipeline.Pipeline.Generate3 | backend/src/Pipeline.cpp:312-329 | the ledger goes into memory, the files are made, and the session is filed in both places |
| PipelineLaws.RehydratedNext | backend/src/InvoiceRepository.cpp:341-368 | a new row extends the rehydrated ledger of its own session and of no other |
| PipelineLaws.StepKeeps | backend/src/Pipeline.cpp:97-329 | every step keeps the invariant between memory and store |
| PipelineLaws.RunsKeep | backend/src/Pipeline.cpp:97-329 | so every reachable state meets it, with any interleaving of sessions and restarts |
| PipelineLaws.LedgersAgree | backend/src/Pipeline.cpp:223-310 | each ledger in memory equals the rehydrated rows of its session, in ingestion order |
| PipelineLaws.FilingEffect | backend/src/Pipeline.cpp:280-329 | a filing always works on what is stored |
| PipelineLaws.FilingSurvivesRestart | backend/src/Pipeline.cpp:280-329 | a filing requested now or right after a restart gives the same files or the same refusal, and leaves the same tables |
| PipelineLaws.FiledHasInvoice | backend/src/Pipeline.cpp:300-327 | in every reachable state a session that is reported or stored as FILED has a stored invoice |
| PipelineLaws.ClosingKeepsFiled | backend/src/Pipeline.cpp:106-116 | closing never takes a session out of FILED, in memory or in the store |
| PipelineLaws.StatusesAgree | backend/src/Pipeline.cpp:106-327 | without an overflow in a filing, every session in memory with invoices has the same status in both places |
| PipelineLaws.OnlyOverflowThrows | backend/src/Pipeline.cpp:301-318 | a filing throws exactly when the files of a non-empty stored ledger overflow; rehydration never fails |
| PipelineLaws.FilingLaw | backend/src/Pipeline.cpp:280-329 | what a filing leaves in every reachable state: the files of the stored ledger, FILED in both places, one transcript row; without files the tables are untouched |
| PipelineLaws.OpeningLaw | backend/src/Pipeline.cpp:97-104 | a new session is active in both places, empty, and touches no other |
| PipelineLaws.ClosingLaw | backend/src/Pipeline.cpp:106-124 | closing abandons a session in both places unless it is filed, and touches no other |
| PipelineLaws.ReplyLaw | backend/src/Pipeline.cpp:246-274 | a note and its acknowledgement are archived in order, and nothing else changes |
| PipelineSessions.OthersStepsPass | backend/src/Pipeline.cpp:97-329 | a step of another session leaves memory, status, documents and transcript of a session as they are |
| PipelineSessions.OwnStepsAgree | backend/src/Pipeline.cpp:97-329 | a step of a session sees and changes nothing but what belongs to it |
| PipelineSessions.RunsOfOneSession | backend/src/Pipeline.cpp:97-329 | after any run a session is as if the steps of all other sessions had not taken place |
| PipelineSessions.SessionsAreApart | backend/src/Pipeline.cpp:97-329 | so two runs that interleave its steps differently leave it alike, and its next step has the same outcome |
| PipelineClaims.WiredIgnoresClaims | backend/src/Pipeline.cpp:129-178 | with clean rules neither the validation nor the rules of the pipeline see the claims |
| PipelineClaims.StepsAlike | backend/src/Pipeline.cpp:97-329 | worlds that differ only in claims stay so under every step, with the same frames, status or exception |
| PipelineClaims.ReportIgnoresClaims | backend/src/Pipeline.cpp:129-240 | uploads that differ only in claims give the same report and leave the same ledger, tables and transcript, but for the stored document |
| PipelineClaims.RunsIgnoreClaims | backend/src/Pipeline.cpp:97-329 | over whole runs, with restarts and filings, no frame, status, ledger or return depends on the claims |
## Left out

- Routing.Trie.Add: asks that every `<` of a route starts one of the seven parameter tags; with any other tag the loop of Crow does not end. Routes and urls hold no NUL character.
- Routing.FindIsScan: `strtoll`, `strtoull` and `strtod` are functions given from outside that consume some characters and return a value or fail; blueprints are not modelled. References into vectors of nodes are paths of child positions.
- JsonRoundTrip.RoundTrip: values have no floating-point numbers; an integer loses its signed or unsigned tag.
- HttpBody.ChunkedBodyIsRead: trailer fields other than Content-Length, which section 4.1.2 of RFC 7230 forbids there; the parser model follows that one too. Request line, header callbacks, connection flags and the states after completion are not modelled.
- HttpStrict.CompletedIsChunkedBody: says nothing of which completed bodies RFC 7230 would refuse; the grammar it gives allows line feeds without carriage returns, continued lines and one unchecked character at the start of a value, as Crow does.
- HttpBody.Parser.Turn: a name of a trailer field or value is read byte by byte, not in runs; the bytes counted and the states are the same.
- HttpBody.Parser.Execute: an empty buffer inside a message is an error, as in Crow, so the split lemmas speak of non-empty buffers.
- WebSocket.Connection.Receive: two-byte, eight-byte and four-byte fields are read whole; writing to the socket, timers and object lifetime are not modelled. The machine is little-endian.
- GstrReturns.Gstr1HsnSummary: the sum of two quantities and its printed text are functions given from outside; text is compared byte by byte.
- GstrLaws.OrderIsIrrelevant: speaks of the money columns; the sum of the quantities is a floating-point sum, whose value may depend on the order.
- GstrLaws.TotalsFit: accumulated totals are unbounded integers; the lemma says for how many lines that is exact in 64 bits.
- Csv.RatesConvertBack: a fractional percentage is printed from its exact value, which `%.2f` gives for every 32-bit rate.
- RuleEngine.RunLeaf: numbers are exact; a negative allowed length never equals a length. Reading the rule file into rules is not modelled; a check of the wrong JSON type that makes the JSON library throw gives no result.
- Facts.TableAgreesWithWalker: speaks of paths without brackets, since the walker does not look at the name before a bracket; `FactPaths.TableHoldsLeaves` covers the table with brackets. `strtoul`, `%.6g` and `dump` are functions given from outside.
- StatutoryRules.EInvoiceRule: the conditions of the configuration are written out as values; that the file is read into them is not modelled.
- PipelineSessions.RunsOfOneSession: the rows of invoice lines are not part of what is compared, since they carry the running number of the invoice over all sessions.
- Validation.ValidateAndSanitize: the product of a JSON number with 100 is a function given from outside; JSON numbers are finite.
- RuleLaws.ClaimsCannotInterfere: asks that a claimed flag is no array and no object; the schema says boolean, but validation does not look. What stands inside such a claim is an ordinary fact under its own path, which rules and templates may name.
- RuleLaws.RuleIgnoresClaims: the condition on the checks of a rule is exact for each check by itself; a group that joins a check that can tell with one that never fires does not tell.
- PipelineLaws.RunsKeep: the store never fails, handlers are atomic, and a new session id is unknown to the store. An upload that failed between memory and store would break the agreement.
- Pipeline.Pipeline.ProcessUpload: extraction is any document or failure. Extraction metadata, file names, time stamps and the wording of the frames are left out.
- Pipeline.Repository.InvoicesForSession: a stored document is read back as it was stored; SQL and the text of the document column are not modelled.
- `validateAgainstSchema` and the Gemini client: a generic type walk and network input.
- Middleware, `mustache`, `multipart`, logging, Asio, the HTTP transports and the process entry point: plumbing.
- Sockets, threads and the mutex: one handler runs after the other.
