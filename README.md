# SIM800C SMS driver — a verified model

This project models the core of a Python driver for the SIM800C GSM modem. The
driver talks to the modem over a serial link with AT commands: 3GPP TS 27.007
sections 8.2 (+CFUN) and 8.3 (+CPIN), and 3GPP TS 27.005 sections 3.2.3 (+CMGF),
3.5.4 (+CMGD), 4.1 (+CMGL) and 4.3 (+CMGS), all in text mode. On top of one AT
transaction it builds:

- integer-value extraction from replies such as `+CFUN: 1`;
- two "query, compare, correct if needed" reconcilers;
- baud-rate detection and connection setup;
- an SMS listing parser;
- interactive SMS submission and batch sending;
- the initialization sequence.

## How the link is modelled

The serial link is abstract. The driver and its link are one class,
`Sim800c.Modem`. Its fields are:

- `isOpen`, the configured `baudrate` and the link's `readTimeout`;
- `incoming`, the queue of things the modem will send;
- `written`, the log of everything written to the link;
- a ghost counter of `disconnect` calls.

The constants `portAvailable` and `timeout` say whether the port can be opened and
what the configured read timeout is.

What the modem sends is a sequence of `Arrival`s:

- `Line(text)` is one line read from the link.
- `Silence` is the point where a reading loop's time-based exit fires. This is its
  deadline, or the 50 ms quiet window after a terminal token.
- The end of the queue means nothing more ever arrives.
- `Fault` is a read that raises a serial error. It stands for the generic
  exceptions, so the drivers' `except`/`finally` branches are real paths in the model.

Every operation is specified by a function from the state before it to a `Run`. A
`Run` is the operation's `Outcome` (`Raised` or `Done(value)`) paired with the state
after it. Each method of the driver is proved to return that outcome and leave that
state, and the properties the driver promises are proved about the functions.

The files are:

- `text_ops.dfy` (module `TextOps`): the Python string operations the driver
  relies on. These are `str.strip()`, `str.strip('"')`, `in`, `startswith`,
  `split('\n')`, `split()`, `'\n'.join` and `int()`.
- `sim800c.dfy` (module `Sim800c`): the base driver, `src/sim800c.py`.
- `read_sms.dfy` (module `ReadSms`): the SMS reader, `src/read_sms.py`.
- `send_sms.dfy` (module `SendSms`): the SMS sender, `src/send_sms.py`.
- `init_sim800c.dfy` (module `InitSim800c`): the initializer, `src/init_sim800c.py`.

The subclasses' methods (`SMSReader`, `SMSSender`, `SIM800CInitializer`) are
module-level methods taking the `Modem` they act on.

## Model

| member | source | states |
|---|---|---|
| TextOps.Strip | src/sim800c.py:164 | the stripped line has only characters of the input, no whitespace at either end, and is empty exactly when the input is all whitespace |
| TextOps.StripIdempotent | src/read_sms.py:97 | stripping an already stripped field changes nothing |
| TextOps.StripQuotes | src/read_sms.py:101 | after `strip('"')` neither end is a double quote; StripQuotesOfQuoted states that the text between the quotes is kept |
| TextOps.StripQuotesOfQuoted | src/read_sms.py:100-109 | `strip('"')` of a quoted text that neither starts nor ends with a quote gives that text back |
| TextOps.Split | src/read_sms.py:61 | `split('\n')` gives at least one piece, no piece holds the separator, and joining the pieces back gives the input |
| TextOps.SplitJoin | src/read_sms.py:61 | splitting a join of separator-free pieces gives those pieces back |
| TextOps.ContainsJoin | src/sim800c.py:190 | a separator-free substring occurs in the `\n`-joined lines iff it occurs in one of them |
| TextOps.IndexFromContains | src/sim800c.py:207 | `prefix in data` holds iff the first-occurrence search finds an index |
| TextOps.SecondPiece | src/sim800c.py:208 | `data.split(prefix)[1]`: the text from the end of the first occurrence of the prefix to the next occurrence or the end (definition; SecondPieceWithoutSeparator and ReplyPiece state its results) |
| TextOps.SecondPieceWithoutSeparator | src/sim800c.py:208 | `data.split(prefix)[1]` holds no occurrence of the prefix |
| TextOps.PieceWithoutSeparator | src/sim800c.py:208 | a stretch in which the separator starts nowhere holds no occurrence of it |
| TextOps.FirstToken | src/sim800c.py:210 | the first token of `split()` is non-empty and has no whitespace |
| TextOps.FirstTokenOfStrip | src/sim800c.py:209-210 | stripping before `split()` does not change the first token |
| TextOps.ParseInt | src/sim800c.py:210 | `int()` succeeds exactly on an optionally signed decimal literal |
| TextOps.ParseIntText | src/sim800c.py:210 | `int()` of an integer's decimal text gives that integer back |
| Sim800c.Send | src/sim800c.py:126-194 | a closed link gives `{success: False, data: ''}` and writes nothing; an open link writes exactly the command plus CRLF, consumes one reading window, raises iff a read raised, otherwise returns the result built from that window's captured lines, and keeps the open flag, speed, timeout and disconnect count |
| Sim800c.ReadWindow | src/sim800c.py:161-185 | one reading window reads lines until the loop's exit or a raised read; lines read and arrivals left together never exceed the queue |
| Sim800c.BuildResult | src/sim800c.py:187-192 | with no captured line the result is `{success: False, data: ''}` |
| Sim800c.CaptureLines | src/sim800c.py:164-166 | no more captured lines than lines read, and none of them empty |
| Sim800c.CaptureOne | src/sim800c.py:164-166 | one line read is captured as its stripped text, or not at all when it is blank |
| Sim800c.DataLines | src/sim800c.py:187 | a line is in `data` iff it was captured and is not exactly `AT`, `OK` or `ERROR` |
| Sim800c.DataLinesAppend | src/sim800c.py:187 | the filter keeps order: filtering a concatenation is concatenating the filtered parts |
| Sim800c.CaptureAppend | src/sim800c.py:161-185 | capturing lines read in two stretches is capturing each stretch in order |
| Sim800c.SuccessIffSomeLineHasOk | src/sim800c.py:190 | `success` holds iff some captured line contains `OK` |
| Sim800c.DataHasNoBareLine | src/sim800c.py:187-191 | the lines of `data` are exactly the filtered capture, and none is a bare `AT`, `OK` or `ERROR` |
| Sim800c.EchoAndErrorOnlyFails | src/sim800c.py:187-191 | a reply of only `AT` and `ERROR` lines gives success false and empty data |
| Sim800c.OnlyLiteralEchoDropped | src/sim800c.py:187 | any captured line other than the three bare words, an `ATI` echo included, stays in the data |
| Sim800c.SilentModemFails | src/sim800c.py:161-194 | with no line before the loop's exit, the result is `{success: False, data: ''}` |
| Sim800c.ParseResponseValue | src/sim800c.py:196-213 | None when the prefix is empty or absent, or nothing follows it; otherwise `int()` of the first token after the first occurrence of the prefix; a value exactly when that token is an integer literal |
| Sim800c.ReadsBackReportedValue | src/sim800c.py:207-210 | for data `<pre><prefix> <v><post>`, with `post` empty or starting with whitespace and no earlier occurrence of the prefix (an echoed query, say), the parsed value is `v` |
| Sim800c.EchoedQueryReadsBack | src/sim800c.py:207-210 | the reply `AT+CFUN?` newline `+CFUN: <v>` reads back `v`: the echoed query does not hide the prefix |
| Sim800c.FirstOccurrenceAfter | src/sim800c.py:207-208 | when the prefix starts right after `pre` and nowhere before, `prefix in data` holds and the search finds the length of `pre` |
| Sim800c.ValueSegment | src/sim800c.py:208 | the text after the prefix in `<lead> <v><post>` is a space, the digits of `v` and a tail that is empty or starts with whitespace |
| Sim800c.ReplyPiece | src/sim800c.py:207-208 | the second piece of the split of `<pre><prefix> <v><post>` at the prefix starts with a space and the digits of `v` |
| Sim800c.NoOccurrenceInValue | src/sim800c.py:208 | a prefix that starts with neither whitespace, a digit nor `-` does not occur inside ` <v>` |
| Sim800c.ReconcileNumeric | src/sim800c.py:215-265 | a raised query raises; a failed query or unparsable value gives false with nothing more sent; the expected value gives true; another value sends the set command and returns its success |
| Sim800c.NumericReconcileTrace | src/sim800c.py:233-265 | the commands written are the query alone, or the query then the set command exactly when the query succeeded with a parsable value different from the expected one |
| Sim800c.ReconcileText | src/sim800c.py:267-321 | a failed query gives false; the ready text in the data gives true; a missing supplied command gives false; otherwise the supplied command's success, and the prefix is never consulted |
| Sim800c.TextReconcileTrace | src/sim800c.py:287-321 | the supplied command is written after the query exactly when the status is not ready and a command was supplied; ready means true after one command, nothing supplied means false |
| Sim800c.VerifyModuleRun | src/sim800c.py:323-338 | the result is the success of `ATI`, whatever its data |
| Sim800c.ConnectRun | src/sim800c.py:54-73 | true and the link open with the configured timeout when the port can be opened; false and nothing changed otherwise |
| Sim800c.DisconnectState | src/sim800c.py:75-79 | the link is closed and the disconnect count grows by one; nothing else changes |
| Sim800c.FirstAnswer | src/sim800c.py:88-91 | the index of the first answering speed lies between the start and the number of candidate speeds |
| Sim800c.FirstAnswerIsFirst | src/sim800c.py:91-114 | the speed found answers the `AT` probe and every speed tried before it does not |
| Sim800c.DetectFrom | src/sim800c.py:86-124 | the scan from speed k never raises: every raised probe and unopenable port moves on to the next speed |
| Sim800c.ProbeIsSend | src/sim800c.py:109-111 | a probe is one `AT` transaction: it succeeds iff the reply has no raised read and contains `OK` |
| Sim800c.DetectResult | src/sim800c.py:86-124 | detection returns true iff the port opens and some candidate speed answers, and it never disconnects |
| Sim800c.DetectLink | src/sim800c.py:95-124 | on success the speed is the first answering one, the link is open and the normal timeout restored; on failure the speed is 57600 and the link closed |
| Sim800c.DetectTraffic | src/sim800c.py:91-121 | detection writes exactly one `AT` probe per speed tried, in order, and consumes exactly their replies |
| Sim800c.Probes | src/sim800c.py:109 | n probes are n `AT` command lines |
| Sim800c.ProbesSplit | src/sim800c.py:91 | one probe followed by m probes is m + 1 probes |
| Sim800c.ProbeStep | src/sim800c.py:95-116 | one speed's trial writes one probe and consumes its reply; a hit ends the scan there, a miss continues with the next speed |
| Sim800c.TrafficAfterMiss | src/sim800c.py:116-121 | after a miss, the writes and reads of the rest of the scan are those of the whole scan |
| Sim800c.DisableEchoRun | src/sim800c.py:367-380 | detection runs only when `ATE0` fails with empty data; failed detection gives false; after detection `ATE0` is resent and its result ignored |
| Sim800c.EchoStepKeepsLink | src/sim800c.py:367-380 | the echo step and the detection it may trigger never disconnect |
| Sim800c.SetupConnectionRun | src/sim800c.py:340-384 | never raises; an unopenable closed port gives false with nothing changed; otherwise it opens the link and the result is whether the echo step succeeded |
| Sim800c.SetupFailsOnlyWhen | src/sim800c.py:348-384 | once the link is open, setup fails only when `ATE0` raised, or it failed silently and detection found no speed or the resent `ATE0` raised |
| Sim800c.Modem.constructor | src/sim800c.py:23-28 | a new driver has its link closed, the given speed and timeout, and nothing written |
| Sim800c.Modem.Connect | src/sim800c.py:54-73 | the method's outcome and new state are those of ConnectRun |
| Sim800c.Modem.Disconnect | src/sim800c.py:75-79 | the new state is DisconnectState of the old one |
| Sim800c.Modem.SendAtCommand | src/sim800c.py:126-194 | the method's outcome and new state are those of Send |
| Sim800c.Modem.CaptureResponse | src/sim800c.py:161-185 | the polling loop returns the stripped non-empty lines of one reading window and consumes exactly its lines |
| Sim800c.Modem.DetectBaudrate | src/sim800c.py:86-124 | the scan loop's result and new state are those of DetectFrom |
| Sim800c.Modem.CheckAndSetStatus | src/sim800c.py:215-265 | the method's outcome and new state are those of ReconcileNumeric |
| Sim800c.Modem.CheckAndSetTextStatus | src/sim800c.py:267-321 | the method's outcome and new state are those of ReconcileText |
| Sim800c.Modem.VerifyModule | src/sim800c.py:323-338 | the method's outcome and new state are those of VerifyModuleRun |
| Sim800c.Modem.DisableEcho | src/sim800c.py:367-380 | the method's outcome and new state are those of DisableEchoRun |
| Sim800c.Modem.SetupConnection | src/sim800c.py:340-384 | the method's result and new state are those of SetupConnectionRun |
| ReadSms.StripAll | src/read_sms.py:87 | every field is stripped, and their number is kept |
| ReadSms.Flush | src/read_sms.py:86-88 | the accumulated field is added, stripped, only when it is not empty (definition; FieldThenComma and LastField use it) |
| ReadSms.Step | src/read_sms.py:81-90 | one character: a quote toggles the quote state and is kept, an unquoted comma ends the field, anything else is accumulated (definition; ScanJoinedFields is its partner) |
| ReadSms.ScanAll | src/read_sms.py:81-90 | the character loop over the header (definition; ScanJoinedFields and ScanKeepsStripped state what it yields) |
| ReadSms.SplitFields | src/read_sms.py:77-94 | every field the tokenizer yields is stripped |
| ReadSms.ScanKeepsStripped | src/read_sms.py:85-90 | the character scan only ever stores stripped fields |
| ReadSms.ScanQuotedRun | src/read_sms.py:81-90 | scanning text whose commas are all quoted only accumulates it and toggles the quote state |
| ReadSms.FieldThenComma | src/read_sms.py:85-88 | a whole field followed by an unquoted comma is appended stripped |
| ReadSms.LastField | src/read_sms.py:92-94 | the last whole field is appended stripped at the end |
| ReadSms.ScanJoinedFields | src/read_sms.py:81-94 | scanning comma-joined whole fields yields those fields stripped, in order |
| ReadSms.SplitFieldsOfJoin | src/read_sms.py:77-94 | the tokenizer inverts a comma join of whole fields (non-empty, commas only inside quotes, quotes balanced), up to stripping |
| ReadSms.RepeatedCommaAddsNothing | src/read_sms.py:85-88 | a comma with nothing accumulated adds no field, so consecutive separators give no empty field |
| ReadSms.CommaFreeField | src/read_sms.py:85-90 | a non-empty comma-free field with balanced quotes is a whole field |
| ReadSms.QuoteStateAppend | src/read_sms.py:82-83 | the quote state after two pieces is the state after the second starting from the first's |
| ReadSms.QuoteFree | src/read_sms.py:82-83 | text without a double quote leaves the quote state unchanged |
| ReadSms.QuotedField | src/read_sms.py:82-90 | a double-quoted text without inner quotes is a whole field, whatever commas it holds |
| ReadSms.QuotedTimestampStaysWhole | src/read_sms.py:70-94 | an index and three quoted fields whose timestamp holds a comma split into exactly those four fields |
| ReadSms.RecordOf | src/read_sms.py:96-122 | the record of fields 0-3 and the content: the index stripped, status, sender and timestamp stripped and without surrounding quotes (definition; RecordsWellFormed and QuotedHeaderRecord state its results) |
| ReadSms.HeaderFields | src/read_sms.py:65-74 | a line whose stripped text starts with `+CMGL:` gives the fields of the stripped rest, any other line none (definition; HeaderFieldsOf is its partner) |
| ReadSms.ContentAfter | src/read_sms.py:111-114 | the stripped next line, or '' for the last line (definition; HeaderAdvance uses it) |
| ReadSms.HeaderFieldsOf | src/read_sms.py:65-74 | `+CMGL: <rest>`, with `rest` free of surrounding whitespace, is a header line whose fields are those of `rest` |
| ReadSms.QuotedFieldValue | src/read_sms.py:100-109 | a quoted field without inner quotes reads back, stripped and unquoted, as the text inside |
| ReadSms.QuotedHeaderRecord | src/read_sms.py:63-122 | the line `+CMGL: <index>,"<status>","<sender>","<date>,<clock>"` and a content line give exactly one record: the index, status, sender, the whole timestamp `<date>,<clock>` without quotes, and the stripped content |
| ReadSms.ListingOfTwoLines | src/read_sms.py:61 | listing data of two newline-free lines joined by a newline is parsed as those two lines |
| ReadSms.QuotedListingRecord | src/read_sms.py:47-151 | the listing data `<header>` newline `<content>` of that shape parses to that one record |
| ReadSms.SplitHeaderFields | src/read_sms.py:77-94 | the character loop produces exactly the fields of SplitFields |
| ReadSms.RecordLines | src/read_sms.py:63-149 | the positions of record headers are increasing record headers, at least two apart |
| ReadSms.ParseFrom | src/read_sms.py:63-149 | from line i on, each record consumes its header and the next line, so there are at most half as many records as lines, rounded up |
| ReadSms.ParseListing | src/read_sms.py:47-151 | the listing has at most half as many records as lines, rounded up |
| ReadSms.RecordsInInputOrder | src/read_sms.py:63-149 | there is one record per record-header position, and the k-th record is built from the k-th such header and its next line |
| ReadSms.HeaderAdvance | src/read_sms.py:96-149 | a header with at least four fields yields a record whose content is the stripped next line (or '') and consumes that line even if it is a header; any other line is skipped alone |
| ReadSms.RecordsWellFormed | src/read_sms.py:96-122 | every record's index and content carry no surrounding whitespace, and its status, sender and timestamp no surrounding quotes |
| ReadSms.AtMostOneRecordPerHeader | src/read_sms.py:63-149 | there are never more records than lines starting with `+CMGL:` |
| ReadSms.NoHeaderNoRecord | src/read_sms.py:60-67 | data with no line starting with `+CMGL:` after stripping gives no record |
| ReadSms.EmptyListingHasNoRecord | src/read_sms.py:37-39 | empty listing data gives no record |
| ReadSms.HexDigitMembership | src/read_sms.py:131 | membership in `0123456789ABCDEFabcdef` is the hexadecimal-digit test |
| ReadSms.LooksHexEncoded | src/read_sms.py:131 | the gate holds iff the content is non-empty, of even length and made only of hexadecimal digits (definition; HexGateIsFromHex is its partner) |
| ReadSms.HexValue | src/read_sms.py:131 | a hexadecimal digit's value is below 16 |
| ReadSms.FromHex | src/read_sms.py:131-132 | a decoded hex string gives one byte below 256 per two digits |
| ReadSms.FromHexAccepts | src/read_sms.py:131-132 | hex decoding succeeds iff the text has even length and only hexadecimal digits |
| ReadSms.HexGateIsFromHex | src/read_sms.py:131-132 | the gate holds iff the content is non-empty and decodes as hex; empty, odd-length or non-hex content is rejected |
| ReadSms.HexGateExamples | src/read_sms.py:131 | examples of the gate: `0048` passes; `Hello`, empty and `048` do not |
| ReadSms.ParseAtRecordHeader | src/read_sms.py:116-141 | appending a header's record and skipping two lines keeps the records still to come |
| ReadSms.ParseSmsMessages | src/read_sms.py:47-151 | the cursor loop returns exactly the records of ParseListing |
| ReadSms.ListAllSmsRun | src/read_sms.py:15-45 | a failed `AT+CMGF=1` gives None without sending the listing; otherwise `AT+CMGL="ALL"` is sent, and its failure gives None and its success the parsed records, [] for empty data |
| ReadSms.DeleteSmsRun | src/read_sms.py:153-170 | writes exactly `AT+CMGD=<index>` plus CRLF on an open link and returns its success |
| ReadSms.ReadSessionRun | src/read_sms.py:188-220 | the session between connect and disconnect never disconnects by itself |
| ReadSms.ReadSessionSucceeds | src/read_sms.py:192-216 | the session succeeds iff the echo step succeeds and the listing returns a list |
| ReadSms.ReadAndConnectRun | src/read_sms.py:172-222 | never raises; a failed connect gives false with nothing changed; otherwise the link ends closed after exactly one disconnect, and the result is the session's success |
| ReadSms.ListAllSms | src/read_sms.py:15-45 | the method's outcome and new state are those of ListAllSmsRun |
| ReadSms.DeleteSms | src/read_sms.py:153-170 | the method's outcome and new state are those of DeleteSmsRun |
| ReadSms.ReadSession | src/read_sms.py:188-220 | the method's outcome and new state are those of ReadSessionRun |
| ReadSms.ReadAndConnect | src/read_sms.py:172-222 | the method's result and new state are those of ReadAndConnectRun |
| SendSms.AwaitPrompt | src/send_sms.py:58-66 | the prompt wait consumes at least one arrival when there is one, and never both finds the prompt and raises |
| SendSms.IsPromptLine | src/send_sms.py:64 | a line read whose stripped text contains `>` ends the prompt wait (definition; PromptFoundIff is its partner) |
| SendSms.PromptReachedAt | src/send_sms.py:58-66 | a prompt line preceded only by other lines is found |
| SendSms.PromptPosition | src/send_sms.py:58-66 | a found prompt is a line containing `>` preceded only by lines that were read |
| SendSms.PromptFoundIff | src/send_sms.py:58-70 | the prompt is found iff some line containing `>` arrives with only lines, no silence or raised read, before it |
| SendSms.CollectReply | src/send_sms.py:83-98 | the reply phase consumes at least one arrival when there is one, and never more than there are |
| SendSms.IsFinalReply | src/send_sms.py:90 | a reply line containing `OK`, `ERROR` or `+CMGS:` ends the reply phase (definition; ReplyExtent and ReplyLinesShape use it) |
| SendSms.ReplyLinesShape | src/send_sms.py:83-95 | the reply keeps only stripped non-empty lines, and only its last line may contain `OK`, `ERROR` or `+CMGS:` |
| SendSms.ReplyExtent | src/send_sms.py:83-98 | the reply phase reads a run of n lines, none but the last final; the kept lines are the captured (stripped, non-blank) lines of that run; it raises exactly when it stopped at a raised read, and leaves the arrivals after the final line, or after the silence or raised read that ended it |
| SendSms.ReplyExtentStep | src/send_sms.py:84-95 | a non-final first line extends the run read by one line and keeps its capture in front |
| SendSms.ReplyLinesStep | src/send_sms.py:84-95 | after a non-final first line, the kept lines are that line's capture followed by the rest |
| SendSms.ReplyExitStep | src/send_sms.py:84-98 | after a non-final first line, the phase raises and stops where the rest of the phase does |
| SendSms.ReplyResult | src/send_sms.py:100-107 | the kept lines joined by newlines, successful when `OK` or `+CMGS:` occurs in them (definition; ReplySuccessIff is its partner) |
| SendSms.ReplySuccessIff | src/send_sms.py:100-107 | success holds iff some reply line contains `OK` or `+CMGS:` |
| SendSms.ReplyStep | src/send_sms.py:84-95 | one reply line is skipped when empty, ends the reply when it is final, and is kept otherwise |
| SendSms.SendSmsMessageRun | src/send_sms.py:22-107 | a failed `AT+CMGF=1` gives failure with nothing more written; otherwise the CMGS line is written; without a prompt the result is failure; after the prompt exactly the message and 0x1A are written and the reply decides |
| SendSms.ClosedLinkSendsNothing | src/send_sms.py:36-39 | on a closed link the result is failure and nothing is written or read |
| SendSms.ModeFailureWritesNoSubmission | src/send_sms.py:36-39 | when `AT+CMGF=1` fails, only that command was written and the result is `{success: False, data: ''}` |
| SendSms.SuccessWroteWholeMessage | src/send_sms.py:36-75 | a successful send wrote exactly `AT+CMGF=1`, `AT+CMGS="<phone>"`, the message and 0x1A, in that order |
| SendSms.WaitForPrompt | src/send_sms.py:58-66 | the polling loop ends as AwaitPrompt says and consumes exactly what it read |
| SendSms.ReadReply | src/send_sms.py:83-98 | the polling loop collects the reply CollectReply describes and consumes exactly what it read |
| SendSms.SendSmsMessage | src/send_sms.py:22-107 | the method's outcome and new state are those of SendSmsMessageRun |
| SendSms.SendEach | src/send_sms.py:125-136 | every message is attempted in order, with one success flag per message |
| SendSms.SendEachOne | src/send_sms.py:125-133 | a one-message batch is one send_sms_message, its flag that send's success |
| SendSms.SendEachAppend | src/send_sms.py:125-136 | sending `a + b` is sending `a`, then `b` from the state `a` left, with the flags concatenated; an error raised in `a` stops the batch |
| SendSms.CountTrue | src/send_sms.py:129-130 | the success count never exceeds the number of messages |
| SendSms.CountAllIffAll | src/send_sms.py:140 | the count equals the number of messages iff every send succeeded |
| SendSms.SendFromCounts | src/send_sms.py:124-133 | the counting loop from message i adds the successes of the remaining sends to its count |
| SendSms.SendSmsRun | src/send_sms.py:109-144 | never raises; true iff no send raised and every send succeeded; a raised send gives false |
| SendSms.EmptyBatchSucceeds | src/send_sms.py:140 | an empty batch returns true and changes nothing |
| SendSms.SendSmsBatch | src/send_sms.py:109-144 | the batch loop's result and new state are those of SendSmsRun |
| InitSim800c.PinCommand | src/init_sim800c.py:47-55 | the supplier yields `AT+CPIN=<pin>` exactly when a non-empty PIN is configured, None otherwise |
| InitSim800c.PowerRun | src/init_sim800c.py:33-43 | the numeric reconciler with `AT+CFUN?`, `+CFUN:`, 1 and `AT+CFUN=1`; PowerAlreadyOn and PowerSwitchedOn state its traces |
| InitSim800c.PinRun | src/init_sim800c.py:45-65 | the text reconciler with `AT+CPIN?`, `READY` and the PIN supplier; NoPinNoUnlock, PinReadyOnlyQueried and PinUnlockSent state its traces |
| InitSim800c.SmsModeRun | src/init_sim800c.py:67-76 | the numeric reconciler with `AT+CMGF?`, `+CMGF:`, 1 and `AT+CMGF=1` |
| InitSim800c.PowerAlreadyOn | src/init_sim800c.py:33-43 | power already at level 1 gives true after sending only `AT+CFUN?` |
| InitSim800c.PowerSwitchedOn | src/init_sim800c.py:33-43 | another power level sends `AT+CFUN?` and then `AT+CFUN=1` |
| InitSim800c.NoPinNoUnlock | src/init_sim800c.py:45-65 | a SIM that is not ready and no PIN gives false after sending only `AT+CPIN?` |
| InitSim800c.PinReadyOnlyQueried | src/init_sim800c.py:57-65 | `READY` in the reply gives true after sending only `AT+CPIN?` |
| InitSim800c.PinUnlockSent | src/init_sim800c.py:45-65 | a SIM that is not ready and a PIN send `AT+CPIN?` and then `AT+CPIN=<pin>` |
| InitSim800c.ChecksRun | src/init_sim800c.py:106-129 | the checks succeed iff verify, power, PIN and SMS mode each succeed, in that order; the first that does not succeed decides the result and the state |
| InitSim800c.ChecksKeepLink | src/init_sim800c.py:106-129 | the checks never disconnect |
| InitSim800c.InitSessionRun | src/init_sim800c.py:89-133 | the session never disconnects by itself; it succeeds iff the echo step and every check succeed; an echo step that does not succeed decides the result, otherwise the checks do |
| InitSim800c.InitializeRun | src/init_sim800c.py:78-135 | never raises; a failed connect gives false with nothing changed; otherwise the link ends closed after exactly one disconnect, and the result is the session's success |
| InitSim800c.InitializeSucceedsIffAllSteps | src/init_sim800c.py:85-129 | initialization succeeds iff the port opened, the echo step succeeded and verify, power, PIN and SMS mode succeeded in turn |
| InitSim800c.CheckAndEnablePower | src/init_sim800c.py:33-43 | the method's outcome and new state are those of the numeric reconciler with `AT+CFUN?`, `+CFUN:`, 1, `AT+CFUN=1` |
| InitSim800c.CheckAndSetPin | src/init_sim800c.py:45-65 | the method's outcome and new state are those of the text reconciler with `AT+CPIN?`, `READY` and the PIN supplier |
| InitSim800c.CheckAndSetSmsMode | src/init_sim800c.py:67-76 | the method's outcome and new state are those of the numeric reconciler with `AT+CMGF?`, `+CMGF:`, 1, `AT+CMGF=1` |
| InitSim800c.InitSession | src/init_sim800c.py:89-133 | the method's outcome and new state are those of InitSessionRun |
| InitSim800c.Initialize | src/init_sim800c.py:78-135 | the method's result and new state are those of InitializeRun |

## Left out

- Wall-clock timing is not modelled. This covers the per-call timeouts (2 s, 5 s
  for `AT+CMGL`, 5 s for the prompt, 10 s for the reply), the 300 ms initial wait,
  the 50 ms quiet window and every `time.sleep`. The model takes the order in which
  lines, silences and raised reads arrive as its input. `in_waiting` polling is
  folded into that order.
- The 0.5 s probe timeout is kept only as the value `ProbeTimeout` that detection
  sets on the link.
- pyserial itself is not modelled: port, byte size, parity, stop bits and
  `reset_input_buffer`. UTF-8 encoding and decoding are left out too, and lines are
  sequences of code points.
- The UTF-16BE display decode of hex content is left out, because it only affects
  printed output. Only its gate, `LooksHexEncoded`, and the hex step
  `bytes.fromhex` as `FromHex` are kept.
- ReadSms.FromHex: `bytes.fromhex` also skips whitespace between digit pairs; the
  model rejects it. The gate admits no whitespace, so this never matters there.
- Console output is not modelled: `print`, `h1_message`, the success and failure
  messages and their custom texts. `verify_module` checking for `SIM800` in the
  data only chooses a message, so its result is the success of `ATI` alone.
- Environment variables are not modelled: dotenv loading, `read_env_variable`
  with `sys.exit`, and the `main` functions. The PIN and the phone number are
  parameters, and an unset `SIM800_PIN` is `None`.
- TextOps.ParseInt: accepts an optional sign and ASCII decimal digits only.
  Python's `int()` also accepts underscores between digits and non-ASCII decimal
  digits, and those are not modelled.
- TextOps.Strip: whitespace is the fixed set of code points for which
  `str.isspace()` holds.
- Any exception other than a raised read is left out. A raised read (`Fault`) is
  the model of every exception the driver catches: an error while writing is not
  modelled separately.
- `ser.close()` inside detection is modelled as the open flag going false. Only
  calls of `disconnect` are counted.
- ReadSms.DeleteSmsRun: the index is taken as text, as it is formatted into the
  command. The model does not check that it is a number.
- Sim800c.ReconcileText: its `prefix` argument is accepted and never used, as in
  the driver.
- Sim800c.DetectLink: the failure case states the final speed and the closed link.
  The read timeout left by the last probe is not stated.
