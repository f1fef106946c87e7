# Document upload from XML metadata, modelled in Dafny

The program uploads scanned documents to a DocuWare file cabinet over its
REST interface. Each scanned binary comes with an XML metadata file. One run:

1. obtains a bearer token, reusing the cached one while it has not expired;
2. lists the input folder and reads every `.xml` file into a flat record of
   business fields (`get_data_from_xml`);
3. builds an ordered list of index fields from each record;
4. uploads the binary in chunks, following the link each accepted chunk's
   reply names, retrying a chunk once after a 401 with a refreshed token;
5. writes the index fields with one PUT once the last chunk is accepted;
6. moves each metadata/binary pair to a time-stamped backup folder or error
   folder according to the outcome. Documents are uploaded in batches of 20.

The model has one module per component, one file per module:

| file | module | models |
|---|---|---|
| `wrappers.dfy` | `Wrappers` | `Option` |
| `pytext.dfy` | `PyText` | the Python string operations the program relies on: `strip`, `startswith`/`endswith`, ASCII `upper`, `int()` on text (sign, surrounding white space, `_` digit grouping), the text `float()` accepts |
| `xmltree.dfy` | `XmlTree` | the value shape produced by `xmltodict`: text, null, dict, list; Python truthiness and `dict.get` |
| `isodate.dfy` | `IsoDate` | `remove_timezone_offset` over a date-prefix parser in the spirit of `datetime.fromisoformat` |
| `session.dfy` | `Session` | `is_token_expired`, `ensure_token`, the result of `get_token`, the `Authorization` header |
| `extractor.dfy` | `Extractor` | `get_data_from_xml`: defaults, header fields, the `Mandant` lookup, the `Vorgang` scan with its catch-all `try` |
| `payload.dfy` | `Payload` | the index-field list built at the start of `upload_with_restapi` |
| `transfer.dfy` | `Transfer` | `upload_big_file`, the chunk loop over a scripted server, and `upload_with_restapi` |
| `filesearch.dfy` | `FileSearch` | `find_a_upload_file` over a given directory listing, with `ntpath.splitext` |
| `pipeline.dfy` | `Pipeline` | `main`: token check, listing and extraction, batching, and the move decisions |

Each routine that works by updating variables in a loop is a Dafny
`method` with a loop. Examples are the chunk loop, the section scan, the
field list, the batch loop, the move loop and the file search. Its
`ensures` ties the result to a specification function. The properties are
lemmas about that function.

Everything outside the program is a parameter:

- **The document server** is a set of oracles indexed by the number of
  requests sent before. Every request depends only on earlier replies, so
  this covers every server behaviour.
- **The token store** is a stored token, the current instant and what a
  token request would yield.
- **The file system** is a listing function, a parse function and a map
  from present paths to their bytes.

Exceptions that leave a call are modelled as outcomes (`Raised`,
`Crashed`), and each is followed to wherever the program lets it go:

- `remove_timezone_offset` catches only `ValueError`. A non-empty dict or
  list date makes it raise `TypeError`.
- The scan's outer `try` ends the scan but keeps what was gathered.
- A failed `int()`, `float()` or `.upper()` in the field list, or a
  `FileName` that is not text (an empty element, a dict or a list), raises
  out of `upload_with_restapi`. A missing `Filename` element keeps the
  empty default, so the path looked up is the folder followed by a
  separator. The upload then ends in `File Not Found` whenever that path is
  not among the present files. On a real file system it never is, but the
  model's set of present paths does not rule it out.
  `asyncio.gather` passes the exception on, so the whole run stops before
  any file is moved. A metadata file that cannot be read or parsed, or
  that lacks a `Dokument` element, stops the run in the same way.

The model follows the code as written, including where its behaviour may
differ from its stated intent:

- A conversion failure stops the whole run, not just that one document.
- `get_token` accepts a 200 reply that has no `access_token`, and the run
  then sends `Bearer None`.
- The scan overwrites a running value whenever a section carries the key,
  even when the section's value is empty.
- The refresh after a 401 calls `ensure_token`. It can therefore reuse a
  stored token that has not expired; it does not force a new one.
- A chunk answered 200 without a link always goes to the indexing branch.
- An extraction always sets `status` to `"Success"`, so the `"Failed"`
  test in the move loop can only be reached through the status code.
- A 200 outcome whose status is neither `"Success"` nor `"Failed"` leaves
  the pair where it is.

## Model

| member | source | states |
|---|---|---|
| Session.ExpiryIsInclusiveAndPermanent | restapi_upload_with_xml.py:145-147 | a token is already expired at its expiry instant, not yet one microsecond before, and stays expired at every later instant |
| Session.EnsureToken | restapi_upload_with_xml.py:127-131 | a stored token that is present and unexpired is returned unchanged; otherwise the result is whatever a token request yields, None included |
| Session.EnsuredTokenIsNeverExpiredStored | restapi_upload_with_xml.py:127-131 | a token handed out is either the freshly requested one or a stored token that has not expired |
| Session.GetToken | restapi_upload_with_xml.py:174-196 | a token results exactly when the endpoint answered 200 with a JSON body, the lifetime fits a `timedelta` (at most 999999999 days either way), the expiry instant lies in `datetime`'s years 1 to 9999 (otherwise OverflowError, caught) and the token file was written; it keeps the body's access token, null included, and expires exactly `expires_in` seconds (3600 by default) after the request |
| Session.HugeLifetimeGivesNoToken | restapi_upload_with_xml.py:176-196 | a 200 reply with `expires_in` of 10^12 seconds yields no token from any representable instant, because the expiry overflows `datetime` |
| Session.DefaultLifetimeGivesToken | restapi_upload_with_xml.py:176-190 | a 200 reply without `expires_in` yields a token from every instant at least an hour before the end of `datetime`'s range, once the file is written |
| Session.IssuedTokenIsFresh | restapi_upload_with_xml.py:127-131 | a token newly issued with a positive lifetime is not expired at the instant it is handed out |
| Session.BearerHeader | restapi_upload_with_xml.py:208 | the `Authorization` header is `Bearer ` followed by the access token (`None` for a null one) |
| IsoDate.ParseCalendarDate | restapi_upload_with_xml.py:96 | only text of the shape `YYYY-MM-DD` naming a real calendar date (leap years included) is accepted |
| IsoDate.FromIsoFormat | restapi_upload_with_xml.py:96 | an accepted date-time text starts with an accepted calendar date, which is the date it denotes |
| IsoDate.FormatParses | restapi_upload_with_xml.py:97 | formatting a valid date as `%Y-%m-%d` and parsing it back gives the same date |
| IsoDate.ParsedFormats | restapi_upload_with_xml.py:96-97 | an accepted calendar date text formats back to itself |
| IsoDate.RemoveTimezoneOffset | restapi_upload_with_xml.py:92-100 | it raises exactly for a non-empty dict or list; falsy or blank input gives None; text gives a date exactly when it parses, and the date is the text's first ten characters, in `YYYY-MM-DD` shape, denoting the same date |
| IsoDate.NormalizationIsIdempotent | restapi_upload_with_xml.py:92-100 | normalising an already normalised date gives it back unchanged, which the re-application to the running value at each section relies on |
| Extractor.MandantFor | restapi_upload_with_xml.py:383-384 | `Mandant` is `Wegra` exactly when the capture partition is `1801`, and `EAW` exactly when it is anything else, absent included |
| Extractor.GetDataFromXml | restapi_upload_with_xml.py:369-416 | the method (header reads, then the section loop inside its `try`) computes the extraction specification |
| Extractor.ExtractedRecordHeader | restapi_upload_with_xml.py:372-413 | the extraction fails exactly when the document does not parse or has no `Dokument` dict; otherwise status is `Success`, the original file name is the file, each header field is the element's value or the empty default, and `Mandant` follows the partition lookup |
| Extractor.SectionKeepsHeader | restapi_upload_with_xml.py:392-410 | one section never changes the header fields |
| Extractor.ScanKeepsHeader | restapi_upload_with_xml.py:391-412 | the whole scan never changes the header fields |
| Extractor.ScanComposes | restapi_upload_with_xml.py:391-412 | scanning two runs of sections is scanning the second from where the first ended, unless an exception stopped the first |
| Extractor.ScanKeepsDateSettled | restapi_upload_with_xml.py:398-399 | after a scan that ran to its end, the running date is text or null |
| Extractor.LastSectionWins | restapi_upload_with_xml.py:392-400 | the last section's customer number (or else supplier number), customer name, project number and normalised date overwrite the running values whenever it carries the key |
| Extractor.SectionWithoutKeyKeeps | restapi_upload_with_xml.py:392-410 | a section without the key leaves the running customer number, customer name, project number and date alone, except that an incoming-invoice section resets a missing project number to empty and the first dict section turns the initial empty date into None |
| Extractor.ScanWithoutKeyKeeps | restapi_upload_with_xml.py:391-412 | a run of sections none of which carries the key leaves that running value alone |
| Extractor.LaterSectionsWithoutKeyKeep | restapi_upload_with_xml.py:391-412 | the value after `earlier + later` is the value after `earlier` when no section of `later` carries the key; with `LastSectionWins` the record holds the value of the last section that carried it |
| Extractor.SupplierOnlyFromInvoiceSections | restapi_upload_with_xml.py:402-407 | without an incoming-invoice section of type `EingangsRechnungImpl` the supplier number and name keep their values |
| Extractor.InvoiceSectionSetsSupplier | restapi_upload_with_xml.py:403-410 | an incoming-invoice section sets supplier number and name from its business partner and resets the project number to its own value or empty |
| Extractor.NodeOfNormalForm | restapi_upload_with_xml.py:399 | the value stored back from a normalisation is empty, null, or a normalised date |
| Extractor.NormalizedDateInNormalForm | restapi_upload_with_xml.py:399 | every input's normalisation, stored back, is in normal form, and a value that makes it raise is itself in normal form |
| Extractor.SupplierKeepsDateNormalForm | restapi_upload_with_xml.py:408-409 | the invoice branch keeps the running date in normal form |
| Extractor.SectionKeepsDateNormalForm | restapi_upload_with_xml.py:398-409 | one section keeps the running date in normal form |
| Extractor.ScanKeepsDateNormalForm | restapi_upload_with_xml.py:391-412 | the whole scan keeps the running date in normal form |
| Extractor.ExtractedDateIsNormalized | restapi_upload_with_xml.py:369-416 | an extracted record's date is in normal form, and non-empty date text has the `YYYY-MM-DD` shape |
| Payload.WireNamesDistinct | restapi_upload_with_xml.py:322-351 | two entries are sent under the same `FieldName` string exactly when they are the same field, so the counts per field are the counts per wire name |
| Payload.AppendConvertedFields | restapi_upload_with_xml.py:322-334 | the converting part of the list fails exactly when `.upper()` or `int()` raises, and otherwise yields the converted entries |
| Payload.BuildDocumentData | restapi_upload_with_xml.py:321-351 | the appends build the payload specification, or fail where a conversion raises |
| Payload.PayloadShape | restapi_upload_with_xml.py:321-351 | the payload is the record entries, then the eleven fixed entries, then `CREATED` and `BETRAG` |
| Payload.FixedBlockCounts | restapi_upload_with_xml.py:339-349 | the fixed block holds each fixed name exactly once and no other name |
| Payload.ConvertedCount | restapi_upload_with_xml.py:322-334 | each converted name occurs once when its field (for partner fields, the supplier or the customer field) is non-empty, else not at all |
| Payload.CountPushRecordFields | restapi_upload_with_xml.py:335-338 | file name, remark, client and document number each occur once when non-empty |
| Payload.LeadingCount | restapi_upload_with_xml.py:322-338 | the record entries hold each non-fixed name as often as expected and no fixed name |
| Payload.TrailingCount | restapi_upload_with_xml.py:350-351 | the trailing entries hold `CREATED` and `BETRAG` once each when non-empty |
| Payload.EntryCounts | restapi_upload_with_xml.py:321-351 | every name occurs at most once: optional names exactly when their field is non-empty, partner names when the supplier or the customer field is, fixed names always |
| Payload.TrailingNames | restapi_upload_with_xml.py:350-351 | nothing but `CREATED` and `BETRAG` follows the fixed block |
| Payload.LeadingHasNoFixedEntry | restapi_upload_with_xml.py:322-338 | no fixed name comes before `VERSANDART` |
| Payload.FixedBlockInOrder | restapi_upload_with_xml.py:339-351 | from `VERSANDART` on, the payload holds the eleven fixed entries in their order, preceded only by record entries and followed only by `CREATED` and `BETRAG` |
| Payload.EntryAgreesWithExpected | restapi_upload_with_xml.py:322-351 | each name's entry exists exactly when it is expected once, and carries that name |
| Payload.EntryInPayload | restapi_upload_with_xml.py:321-351 | each name's entry is in the payload |
| Payload.EntryLookup | restapi_upload_with_xml.py:321-351 | looking a name up in the payload gives its entry: the type in upper case, project number as text and as integer, supplier before customer, the record values, the fixed constants |
| Payload.DocumentTypeInUpperCase | restapi_upload_with_xml.py:322 | `UNTERBELEGART` is sent exactly when a document type is set, and its item is the upper-cased document type: same length, no lower-case ASCII letter |
| Payload.ProjectNumberSentTwice | restapi_upload_with_xml.py:324-326 | a project number is sent as text under `KST_KTR_BEZEICHNUNG` and as the integer `int()` reads under `KST` |
| Payload.MandantIsSent | restapi_upload_with_xml.py:337 | a non-empty client is sent under `MANDANT` |
| Payload.ExtractedRecordsCarryMandant | restapi_upload_with_xml.py:384 | the payload of every extracted record carries `MANDANT` `Wegra` or `EAW` as the partition decides |
| Transfer.Read | restapi_upload_with_xml.py:218 | `file.read(n)` returns the next `n` bytes, or the rest of the file when fewer remain or `n` is negative |
| Transfer.UploadBigFile | restapi_upload_with_xml.py:202-288 | the chunk loop (URL, position, token and requests sent) computes the transfer specification from the document URL and position 0 |
| Transfer.FinishUpload | restapi_upload_with_xml.py:243-274 | the terminal branch computes its specification |
| Transfer.SendChunkRetriesOnce | restapi_upload_with_xml.py:225-234 | a chunk is posted once, and posted again only after a 401 with a token `ensure_token` yields, carrying that token; a failed refresh is reported; earlier requests are kept |
| Transfer.ChunkReplyDecides | restapi_upload_with_xml.py:225-281 | a 200 reply with a link continues at the base URL plus the link, past the chunk, with the possibly refreshed token; any other status ends the upload with that status and text; a failed refresh after a 401 ends it with 401 and "Unauthorized and token refresh failed"; a POST that raises lets the exception out; in each ending case nothing more is sent |
| Transfer.TerminalChunkIndexes | restapi_upload_with_xml.py:243-274 | a 200 reply without a link sends one PUT of the index fields to `<url>/<doc id>/Fields`, whose status and text are the result; with no document id, or when the PUT raises, the chunk reply is |
| Transfer.FinishPutsOnce | restapi_upload_with_xml.py:249-274 | the terminal branch sends at most one request, the PUT |
| Transfer.TransferPutsOnlyLast | restapi_upload_with_xml.py:217-288 | every request of an upload is a chunk POST except possibly the last, a PUT of the index fields below the document URL, and then the upload finished with a status code |
| Transfer.ChunkCountValue | restapi_upload_with_xml.py:218-242 | a file of `m` bytes read `n` at a time yields the ceiling of `m/n` chunks, one chunk for a negative size, none for size 0 |
| Transfer.RequestBound | restapi_upload_with_xml.py:221-274 | an upload sends at most two requests per chunk plus one PUT |
| Transfer.ExhaustedEndsInError | restapi_upload_with_xml.py:283-287 | a file read to its end (or a chunk size of 0) ends with status `Error` and text "Chunking completed without the last chunk", with no further request |
| Transfer.Join | restapi_upload_with_xml.py:319 | the joined path starts with the folder and ends with the name |
| Transfer.UploadWithRestapi | restapi_upload_with_xml.py:318-362 | the method computes the upload specification |
| Transfer.NothingSentWithoutFile | restapi_upload_with_xml.py:355-362 | a missing binary gives `File Not Found` with its path and no request, exactly when the fields convert and the file is absent; a file name that is not text or a failed conversion raises before anything is sent |
| Transfer.TransferNeverNotFound | restapi_upload_with_xml.py:202-288 | the chunk loop never reports `File Not Found` |
| Transfer.IndexingSendsPayload | restapi_upload_with_xml.py:256-262 | the only PUT of an upload is its last request and carries exactly the payload built from the record |
| FileSearch.SplitExtParts | restapi_upload_with_xml.py:109 | root and extension concatenate to the name; the extension is the text from the last dot exactly when that dot follows the last separator and something other than dots lies between them, and is empty otherwise (so `.env` and `a.b/c` have none); a non-empty extension is a dot followed by no dot or separator |
| FileSearch.SearchStem | restapi_upload_with_xml.py:110-111 | a base name longer than 36 characters loses its last 36; a shorter one is kept |
| FileSearch.MatchesAreTheMatchingNames | restapi_upload_with_xml.py:113-117 | the counted names are exactly the listed names with the stem as prefix and the extension as suffix, and the first of them is the first such name of the listing |
| FileSearch.FirstMatch | restapi_upload_with_xml.py:113-116 | the first match is a matching name with no matching name before it |
| FileSearch.FirstMatchIs | restapi_upload_with_xml.py:113-116 | a matching position with no match before it is the first match |
| FileSearch.FindAUploadFile | restapi_upload_with_xml.py:103-119 | the loop computes the specification: `('', 0)` for an empty name, else the first match (None when there is none) and the number of matches |
| FileSearch.OwnNameIsFound | restapi_upload_with_xml.py:103-119 | a listed name searched for is counted at least once and a first match is returned |
| Pipeline.BatchesPartition | restapi_upload_with_xml.py:498-500 | the batches are non-empty, have 20 records each except a possibly shorter last one, and concatenate to the records in order |
| Pipeline.UploadAllAppend | restapi_upload_with_xml.py:499-503 | uploading two runs of records gives the concatenation of their outcomes, or fails if either fails |
| Pipeline.UploadAllMeaning | restapi_upload_with_xml.py:499-503 | the uploads fail exactly when some record's upload raises; otherwise there is one outcome per record, in order, with that record's status and text |
| Pipeline.UploadBatch | restapi_upload_with_xml.py:501-502 | one batch's outcomes are its records' outcomes in order |
| Pipeline.UploadInBatches | restapi_upload_with_xml.py:498-503 | the batch loop yields the outcomes of all records in order, and sends exactly the batches of 20 |
| Pipeline.DecideRules | restapi_upload_with_xml.py:517-530 | a pair goes to backup exactly when both files exist, status is `Success` and the code 200; to the error folder exactly when both exist and status is `Failed` or the code is not 200; it stays whenever a file is missing or the temporary mode is on |
| Pipeline.MovePair | restapi_upload_with_xml.py:519-530 | the moves of one pair follow their specification, as does the set of present files after them |
| Pipeline.Reconcile | restapi_upload_with_xml.py:506-532 | the move loop computes its specification over all outcomes in order |
| Pipeline.TempSolutionMovesNothing | restapi_upload_with_xml.py:517 | in the temporary mode nothing moves and the files stay as they are |
| Pipeline.PairMovesAsDecided | restapi_upload_with_xml.py:519-530 | a pair moves only when both of its files exist and the decision is not to stay; the metadata file moves first, then the binary, into the one folder decided; backup needs `Success` and 200 |
| Pipeline.ReconcileMovesAtMostTwoEach | restapi_upload_with_xml.py:506-530 | the loop makes at most two moves per outcome |
| Pipeline.XmlFilesAreTheXmlNames | restapi_upload_with_xml.py:478-479 | the names read are exactly the listed names ending in `.xml` |
| Pipeline.CollectXmlFiles | restapi_upload_with_xml.py:477-480 | the listing loop computes the `.xml` names in order |
| Pipeline.ExtractAllMeaning | restapi_upload_with_xml.py:477-482 | the extractions fail exactly when one of them does; otherwise there is one record per name, in order |
| Pipeline.ExtractAllFiles | restapi_upload_with_xml.py:477-482 | the extraction loop computes the extraction of every name from the input folder |
| Pipeline.ExtractionsStayFailed | restapi_upload_with_xml.py:482 | a failure among the first names fails the whole gathering |
| Pipeline.RunPipeline | restapi_upload_with_xml.py:457-532 | the run (token, listing, extraction, batched upload, moves) computes the run specification |
| Pipeline.CompletedRunCoversEveryXmlFile | restapi_upload_with_xml.py:473-503 | a run that completes uploaded one record per `.xml` file of the input folder, in listing order, each the extraction of that file, with status `Success`, and with the status code and text that record's upload returned |
| Pipeline.ExtractedRecordsFollowNames | restapi_upload_with_xml.py:477-482 | gathered records are, name by name, the extraction of that file |
| Pipeline.RunNeedsToken | restapi_upload_with_xml.py:457-460 | the run ends before any work exactly when no token can be ensured |
| Pipeline.TempSolutionRunKeepsFiles | restapi_upload_with_xml.py:517 | a completed run in the temporary mode moves nothing |
| PyText.UpperCases | restapi_upload_with_xml.py:322 | `.upper()` turns each lower-case ASCII letter into its capital, leaves no lower-case letter, keeps every other character and is idempotent |
| PyText.IntRoundTrip | restapi_upload_with_xml.py:326 | `int()` reads the decimal text of every integer back as that integer |
| PyText.SignedDigitsRoundTrip | restapi_upload_with_xml.py:326 | `int()` reads any digit string with an optional minus sign, leading zeros included, as its signed value |
| PyText.TrimLeftDropsBlankPrefix | restapi_upload_with_xml.py:93 | stripping on the left removes exactly the leading white space |
| PyText.TrimRightDropsBlankSuffix | restapi_upload_with_xml.py:93 | stripping on the right removes exactly the trailing white space |

## Left out

- `read_config`, `set_log_level`, logging, and the fixed Windows paths of `main`: configuration and I/O glue. The configuration entries the run uses are a `Config` value.
- `get_mime_type` and `upload_small_file`: the first is a thin wrapper over `mimetypes`, and the second is never called.
- `escape_json_string` and `unescape_json_string`: never called.
- The `httpx` requests, proxy and certificate choice, and the request headers other than `Authorization`. The server is a parameter answering by request number.
- `load_token` and the file write of `get_token`: the stored token and the success of the write are parameters.
- `get_token`'s request: its reply is a parameter, and the issued token is what `GetToken` makes of it.
- `asyncio.gather` concurrency: a batch is a sequential map in which each document sees its own view of the server. Interleavings of the concurrent uploads and token refreshes are not modelled.
- The parsing by `xmltodict`, the `lxml` search for `DWDOCID`, and the link lookup in a chunk reply. The parsed tree and the reply's link and document id are inputs.
- `datetime.fromisoformat`: a subset of its grammar is modelled. That subset is a `YYYY-MM-DD` date, optionally followed by a separator, `HH:MM[:SS[.fff or .ffffff]]` and a `Z` or `±HH:MM` offset. Week dates, ordinal dates, compact forms and the other offset forms are not accepted.
- Python versions before 3.11: the accepted date-time grammar is that of `fromisoformat` from Python 3.11 on, which takes `Z` and fractions of any length. Python 3.10, the oldest version that runs the program's `match` statement, rejects those, and the date then becomes None.
- `strftime('%Y')` is modelled with a four-digit year, as on Windows, the platform the program's paths are written for.
- An `expires_in` that is null or not a number: `timedelta` raises inside `get_token`'s `try`, which then returns None. The model's `expires_in` is an optional integer, so this case cannot be expressed.
- `is_token_expired` on a stored `expires_at` that does not parse: the stored token's expiry is an integer instant.
- The value of `float(data["Betrag"])`: the `BETRAG` item is the record's text. Only whether `float()` accepts the text is modelled.
- Unicode `str.upper()` and `int()` on non-ASCII digits: only ASCII letters are upper-cased, and only ASCII digits are read.
- `os.path.join` for an absolute or drive-qualified second argument: `Join` always puts the name after the folder.
- `os.makedirs` and the file-system effect of `shutil.move`. A move becomes an entry in the list of moves plus an update of the set of present paths. A destination that already exists, and a move that raises, are not modelled.
- The headers' `Content-Disposition` and `X-File-*` values: they do not affect any decision.
- `httpx` refusing a non-text `Created` as a header value: the model sends the chunk whatever `Created` holds. A non-text `FileName` raises already when the path is joined, as in the program.
- `os.listdir` failing is a listing of None, and the metadata content and the binary files are given independently of each other.
