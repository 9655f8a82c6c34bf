# shopify_offers price-sync core, in Dafny

shopify_offers moves offer prices from spreadsheets into a Shopify store in
three stages:

1. A bulk query exports every product variant.
2. The export is folded into a barcode-to-variant-id index. Each spreadsheet
   product whose barcode the index knows becomes one line of a
   newline-delimited batch file of `productVariantUpdate` inputs.
3. The batch file is uploaded to a staged target, and a bulk mutation is
   started on the uploaded key.

This project models the decisions inside those stages and proves properties
about them:

- `jsonl.dfy` (module `Jsonl`) models `read_jsonl_to_map` and
  `write_to_jsonln`.
  - `ReadJsonlToMap` is the line loop that builds the index.
  - `BatchFile` is the append-only batch file. `WriteToJsonl` appends one line
    per matched product.
  - The line format is modelled by three functions:
    - `BatchLine` builds one line.
    - `EscapeSlashes` is the `/` escape of the id.
    - `Fmt2` is the two-decimal price format.
  - Each of them has an inverse (`ParseBatchLine`, `UnescapeSlashes`,
    `ParseFmt2`). The escape and the price format round-trip for every
    input. A whole line round-trips for every id without `"`.
- `bulk_operations.dfy` (module `BulkOperations`) models the three network
  functions. Every reply is a given value, and each of the three also returns
  the requests it sent.
  - The export poll loop is `PollLoop`, and the method `BulkFetchOperation`
    runs it.
  - `BulkUpdateOperation` sends the mutation on the upload key and tests the
    status in the reply.
  - The positional upload form is built by `BuildForm`.
  - The storage key is pulled out of the upload reply by `ExtractKey`, and the
    upload step as a whole is `UploadFileToShopify`.
- `text.dfy` (module `Text`) holds the parts of Rust's `str` the core relies
  on: `find`, the pieces of `split`, and decimal numerals.
- `wrappers.dfy` (module `Wrappers`) holds `Option` and `Outcome`. An
  `Outcome` is one of:
  - `Ok`;
  - `Err`, carrying the source's own message;
  - `Panic`, for an `unwrap` on `None`/`Err` or an index out of bounds;
  - `OutOfReplies`, used only by the poll loop.

The model keeps these behaviours of the code as they are:

- A line of the export that does not deserialise into a `Variant` panics
  (`unwrap` at src/jsonl/mod.rs:28); it is fatal rather than skipped. Lines
  whose read fails are skipped.
- An export file that cannot be opened gives an empty index, not an error.
- `write_to_jsonln` has a single mode: every line carries the offer price as
  `price` and the regular price as `compareAtPrice`. A mode that clears the
  offer does not exist.
- The id is written with every `/` escaped as `\/`, so the line for id
  `gid://1` contains `gid:\/\/1` (`OfferLineExample`). No other character is
  escaped.
- The upload form reads the staged parameters by position and never looks at
  their names (`FormIgnoresNames`).
- The poll loop has no bound on the number of requests.
- `write_to_jsonln` opens the batch file for appending without creating it.
- Several failures panic instead of returning an error:
  - an unreadable reply body in `bulk_fetch_operation` and
    `bulk_update_operation`;
  - an unparsable staged-upload reply;
  - a non-string url;
  - a missing upload parameter;
  - a reply without `<Key>`.

## Model

| member | source | states |
|---|---|---|
| Jsonl.IndexStep | src/jsonl/mod.rs:22-42 | Reading one more line that deserialises or fails to read updates the index exactly as that line says: a variant with a barcode sets its id, anything else leaves the index as it was. |
| Jsonl.ReadJsonlToMap | src/jsonl/mod.rs:22-42 | An unopenable file gives the empty map. A line that does not deserialise panics. Otherwise the result is `BarcodeIndex` of the variants in file order. |
| Jsonl.IndexKeysAreBarcodes | src/jsonl/mod.rs:29-34 | The index has a key for exactly the barcodes that occur. A variant without a barcode adds nothing, whatever its prices. |
| Jsonl.LastVariantWins | src/jsonl/mod.rs:32-34 | A barcode maps to the id of the last variant carrying it (`insert` overwrites). |
| Jsonl.IndexOfConcat | src/jsonl/mod.rs:26-37 | The index of two runs of lines is the first run's index overridden by the second's. |
| Jsonl.EscapeSlashes | src/jsonl/mod.rs:17 | Every `/` in the escaped id is preceded by a backslash. |
| Jsonl.EscapeLength | src/jsonl/mod.rs:17 | The escape adds exactly one character per `/`. |
| Jsonl.EscapeKeeps | src/jsonl/mod.rs:17 | Any character other than `/` and `\` is in the escaped id iff it is in the id. |
| Jsonl.UnescapeEscape | src/jsonl/mod.rs:17 | Unescaping the escaped id gives back the id. |
| Jsonl.Fmt2Unsigned | src/jsonl/mod.rs:17 | A non-negative price prints as at least four characters (whole part, `.`, two digits), starting with a digit. |
| Jsonl.Fmt2 | src/jsonl/mod.rs:17 | A printed price has only digits, `.` and `-`. |
| Jsonl.UnsignedRoundTrip | src/jsonl/mod.rs:17 | Reading back a printed non-negative price gives the same hundredths. |
| Jsonl.Fmt2RoundTrip | src/jsonl/mod.rs:17 | Reading back any printed price, negative included, gives the same hundredths. |
| Jsonl.NoCommaInPrice | src/jsonl/mod.rs:17 | A printed price has no `,`, so the price field ends at the next comma. |
| Jsonl.CompareFieldRoundTrip | src/jsonl/mod.rs:17 | The `compareAtPrice` tail of a line reads back as its price. |
| Jsonl.PriceFieldRoundTrip | src/jsonl/mod.rs:17 | The `price`/`compareAtPrice` part of a line reads back as both prices. |
| Jsonl.IdFieldRoundTrip | src/jsonl/mod.rs:17 | An id without `"`, escaped and followed by the prices, reads back as id and prices. |
| Jsonl.BatchLineRoundTrip | src/jsonl/mod.rs:17 | A whole batch line decodes to the id, the offer price and the regular price it was written from. |
| Jsonl.ExampleIdEscaped | src/jsonl/mod.rs:17 | `gid://1` is written as `gid:\/\/1`. |
| Jsonl.ExamplePricesPrinted | src/jsonl/mod.rs:17 | 9.99 and 10.50 print as `9.99` and `10.50`. |
| Jsonl.OfferLineExample | src/jsonl/mod.rs:17 | The line for id `gid://1`, offer 9.99 and regular 10.50 is `{"input":{"id":"gid:\/\/1","price":9.99,"compareAtPrice":10.50}}` and a newline. |
| Jsonl.BatchLine | src/jsonl/mod.rs:17 | Every line written starts with `{"input":{"id":"` and ends with a newline. |
| Jsonl.OneLinePerInput | src/jsonl/mod.rs:17 | When the id holds no newline, the line's only newline is its last character, so the input takes exactly one line of the file. |
| Jsonl.BatchLines | src/jsonl/mod.rs:13-18 | The writer's loop yields at most one line per product. |
| Jsonl.BatchLinesTerminated | src/jsonl/mod.rs:13-18 | Every line the loop writes starts with `{"input":{"id":"` and ends with a newline. |
| Jsonl.BatchLinesMatched | src/jsonl/mod.rs:13-18 | For every id, there is exactly one line per product whose barcode the index knows, in product order. Line k is the line for the k-th matched product's id, offer price and regular price. Unmatched products leave no line. |
| Jsonl.BatchLinesConcat | src/jsonl/mod.rs:11-19 | Writing two runs of products appends their lines one after the other, as the calls once per spreadsheet do. |
| Jsonl.BatchLinesDecode | src/jsonl/mod.rs:13-18 | When no id in the index contains `"`, line k decodes back to the k-th matched product's id and prices. |
| Jsonl.BatchFile.Create | src/main.rs:87 | A freshly created batch file is empty. |
| Jsonl.BatchFile.WriteToJsonl | src/jsonl/mod.rs:11-19 | The file's lines become its old lines followed by `BatchLines(products, index)`. |
| Text.IndexOf | src/bulk_operations/mod.rs:312-316 | `find`: the result is an occurrence with no earlier one, or there is no occurrence at all. |
| Text.SplitFirst | src/bulk_operations/mod.rs:315-316 | `split(pat)` piece 0 is a prefix of the string that no `pat` starts inside. It ends at the leftmost `pat`, or at the end when there is none. |
| Text.SplitSecond | src/bulk_operations/mod.rs:312-313 | `split(pat)` piece 1 exists iff `pat` occurs. It starts right after the leftmost `pat`, no `pat` starts inside it, and it ends at the next `pat` or at the end. |
| Text.NatToDecimal | src/jsonl/mod.rs:17 | The whole part of a price prints as a non-empty digit string without a leading zero. |
| Text.DecimalRoundTrip | src/jsonl/mod.rs:17 | Reading back a printed whole number gives the number. |
| BulkOperations.PollStep | src/bulk_operations/mod.rs:110-130 | A poll reply sends the loop round again iff it parsed and its url is null. |
| BulkOperations.PollLoop | src/bulk_operations/mod.rs:98-131 | The loop sends at most one request per reply. It sends one for every reply when it runs out of them, and at least one when a reply ends it. |
| BulkOperations.PollEndsAtFirstDecisive | src/bulk_operations/mod.rs:98-131 | The loop ends on the first reply that is not a null url, with that reply's outcome, after exactly that many requests. |
| BulkOperations.PollAllPending | src/bulk_operations/mod.rs:98-125 | While every url is null the loop never ends on its own. |
| BulkOperations.PollLoopResult | src/bulk_operations/mod.rs:98-131 | Every reply before the deciding one had a null url, and the deciding reply gave the outcome. |
| BulkOperations.PollOkIsFirstUrl | src/bulk_operations/mod.rs:124-129 | A successful poll returns the url of the first non-null reply, all earlier urls being null. |
| BulkOperations.PollIgnoresLaterReplies | src/bulk_operations/mod.rs:98-131 | Replies after the deciding one are never consulted. |
| BulkOperations.PollThirdReplyCompletes | src/bulk_operations/mod.rs:98-131 | Two null urls then `https://x` give `https://x` after exactly three poll requests. |
| BulkOperations.BulkFetchOperation | src/bulk_operations/mod.rs:64-133 | Each failure of the submit reply ends in its own error or panic before any poll. With a bulk id, the result and the number of polls are the poll loop's, and each poll asks for that id's node. |
| BulkOperations.BulkUpdateOperation | src/bulk_operations/mod.rs:140-198 | One request is sent, the mutation on the given upload key. The job is accepted iff the reply parsed with status exactly `CREATED`. An unreadable body panics. A transport failure, an unparsable body, a missing status and any other status are four distinct errors. |
| BulkOperations.BuildForm | src/bulk_operations/mod.rs:283-293 | The form is built iff the first nine parameters all have string values; otherwise it panics. The form is the nine positional text fields in source order followed by the file. |
| BulkOperations.FormFieldNamesDistinct | src/bulk_operations/mod.rs:284-292 | The nine text fields have nine different names. |
| BulkOperations.PositionalLookup | src/bulk_operations/mod.rs:284-292 | Looking up a field by name in the form finds the value at that field's parameter position. |
| BulkOperations.PositionalFormFields | src/bulk_operations/mod.rs:283-293 | The form has exactly nine text fields and the file last. By name, `Content-Type` is parameter 0, `success_action_status` 1, `acl` 2, `key` 3, `x-goog-date` 4, `x-goog-credential` 5, `x-goog-algorithm` 6, `x-goog-signature` 7 and `policy` 8. |
| BulkOperations.FormIgnoresNames | src/bulk_operations/mod.rs:284-292 | Renaming the parameters leaves the form unchanged: only positions and values matter. |
| BulkOperations.ExtractKey | src/bulk_operations/mod.rs:312-316 | There is a key iff the reply contains `<Key>`, and the key contains neither `<Key>` nor `</Key>`. |
| BulkOperations.KeyEndsAtEarliestMarker | src/bulk_operations/mod.rs:312-316 | The key is the text right after the first `<Key>`, ending at the next `<Key>`, the next `</Key>` or the end of the reply. |
| BulkOperations.KeyOfWellFormedReply | src/bulk_operations/mod.rs:312-316 | A reply `p<Key>k</Key>rest`, with no `<Key>` in `p` and no marker in `k`, yields exactly `k`. |
| BulkOperations.UploadFileToShopify | src/bulk_operations/mod.rs:241-325 | Each failure before the post ends in its own error or panic after the one staged-upload request. The form is posted iff the staged target and an opened batch file give usable parameters. It goes to the staged url as the positional form with the file last, and the result is the extracted key or the post's error. |

## Left out

- HTTP is not modelled: transport, authentication, environment variables and the GraphQL documents. Each request is a `Request` value and each reply a given `Reply` value.
- JSON parsing is not modelled. A reply is given as the fields the code reads at fixed paths, and an export line is given as a deserialised `Variant` or as malformed.
- The diagnostics printed on the console are not modelled.
- File I/O is not modelled. The export file is a given sequence of lines. The batch file is a sequence of appended lines.
- BulkOperations.UploadFileToShopify: the batch file's contents are a separate `batchFile` argument. No member ties that string to the lines `BatchFile` holds.
- Jsonl.BatchFile.WriteToJsonl: each `write` is taken to write the whole line. The source calls `write`, not `write_all`, and ignores the byte count, so a short write that drops the end of a line is not modelled.
- Jsonl.BatchLinesDecode: it holds only for ids without `"`. The source escapes only `/`. An id holding `"` or a raw control character yields a line that is not valid JSON. An id holding a newline also splits its input over two lines (`OneLinePerInput` needs a newline-free id). An id holding `\` may give valid JSON that decodes to a different id (`\n` in the id reads back as a newline). `BatchLinesMatched` states the lines for every id.
- The panic when `tmp/upload.jsonl` is missing is not modelled, nor a failing write in `write_to_jsonln`: `BatchFile` is always open and writable.
- The panic on a failing byte read of the batch file during upload is not modelled.
- The `mime_str("text/jsonl")` error branch is left out, because that constant MIME type always parses.
- Jsonl.Fmt2: prices are integer hundredths. The `f64` values of the source, their rounding to two decimals, NaN, infinities and `-0.00` are not modelled.
- BulkOperations.BulkFetchOperation: the poll loop runs over a finite sequence of replies and ends in `OutOfReplies` when they run out. The source would go on polling forever.
- BulkOperations.PollLoop: the same finite-reply bound as `BulkFetchOperation`.
- Strings are sequences of characters, not UTF-8 bytes. `split` on the ASCII markers behaves the same either way.
- The orchestration in src/main.rs is not part of this model: the spreadsheet reading, the file dialog, the download of the export and the call order. The exception is the truncation of the batch file, modelled by `BatchFile.Create`.
