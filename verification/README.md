# tidepool-cli-tools, modelled in Dafny

This project models the core of a small command-line tool for FreeStyle Libre
glucose exports:

- **The normalizer** (`libre.js`) reads each row of the reader's
  tab-separated export. Record types `0`, `1` and `2` become historic (cbg),
  scanned (smbg/scanned) and strip (smbg) readings. Every other row is
  skipped. Each reading is stamped with the row's local time: a device time,
  an ISO time with its UTC offset, and `timezoneOffset`.
- **The batch uploader** (`index.js`) logs in and creates a dataset whose
  metadata carries the reader's serial number. It cuts the readings into
  blocks of 1000 and sends them one after another, stopping at the first
  rejected block. Only when every block was accepted does it finalize the
  dataset and log out. The `upload` command checks its four required options
  in order before it does any of this.
- **The line deduplicator** (`dedupe.py`) reads export files in argument
  order. It skips two header lines in each and writes each data line the
  first time it is seen.

Files:

- `wrappers.dfy`: `Option`.
- `timestamps.dfy`: calendar date-times and the two `moment` format strings
  the tool uses (`YYYY-MM-DDTHH:mm:ss`, and the same with `Z`). It also holds
  the parse of the export's `YYYY-MM-DD HH:mm` times.
- `libre.dfy`: rows, readings, `createReading`, `parseLibreLine`, and the
  filter loop of `parseLibreTsv`.
- `libre_examples.dfy`: the rows of the normalizer's unit tests, worked
  through the model.
- `upload.dfy`: blocks, the `mapSeries` series, dataset metadata, the
  operations of an upload session, and the `upload` command.
- `dedupe.dfy`: the deduplicator. `DedupeFiles` is its loop, with a seen-set
  as in the script. `Dedupe` and `Unique` are the reference definitions it is
  proved equal to.

The environment is passed in as parameters:

- The host time zone is a function `Zone` from a local date-time to its
  offset in minutes (local minus UTC).
- The platform's answers during a session are a `Platform`: `Accepted` or
  `Rejected` for login, the same for dataset creation, and a function from
  block index to the answer to that block's transfer.
- The wall-clock time of `new Date()` is a parameter `now`.
- The export's rows and the deduplicator's files arrive already read, as
  sequences.

How the code handles failures, which the model follows:

- A rejected block ends the series. Logout is issued only inside
  finalize's callback, so after a rejected block neither finalize nor
  logout happens. Finalize's own error is ignored (`index.js:110-119`).
- Login's error is never checked. Dataset creation's error is only passed
  to `callbackLogger`, which prints it under `--verbose` (`index.js:92`).
  Both callbacks then read the response: `response.userid` at
  `index.js:89` and `response2.data.id` at `index.js:93`. A login or
  creation that fails without a response therefore throws, and nothing
  after it is issued. The model treats a rejected login or creation as
  such a failure and ends the session there.

## Model

| member | source | states |
|---|---|---|
| Timestamps.ParseLocal | libre.js:27 | a time parses only when it has the shape `YYYY-MM-DD HH:mm`, with a space or `T` between date and time; given that shape, it parses iff the digits form a date on the calendar and a valid clock time; the parsed time has zero seconds |
| Timestamps.OffsetRoundTrip | libre.js:8 | the `Z` token prints every offset as `±HH:MM`, and the printed form reads back as that offset |
| Timestamps.TimeExtendsDeviceTime | libre.js:7-8 | the `...Z` time is the device time followed by the printed UTC offset, which reads back as the zone's offset |
| Timestamps.DeviceTimeOfParse | libre.js:7 | a parsed `YYYY-MM-DD HH:mm` time prints as the same date, a `T`, the same clock time and `:00` seconds |
| Timestamps.ParseOfDeviceTime | libre.js:27 | every valid date-time with zero seconds is what its own printed device time (first 16 characters) parses back to, so the parse misses no date-time |
| Libre.CreateReading | libre.js:5-24 | copies type, value, units and deviceId; conversionOffset is 0; the subType key is present iff a subType was given; for a valid time, `time` extends `deviceTime` by the zone's offset and timezoneOffset is its negation; an invalid time gives "Invalid date" strings and no offset |
| Libre.ParseLine | libre.js:26-54 | a reading is produced iff the record type is "0", "1" or "2"; type cbg iff "0"; subType scanned iff "1", otherwise absent; the value comes from the column of that record type; units mmol/L and the given deviceId |
| Libre.ReadingTypeNames | libre.js:32-52 | a reading's `type` string is "cbg" for record type "0" and "smbg" otherwise; its `subType` is "scanned" for record type "1" and absent otherwise |
| Libre.RecordTypeRecovered | libre.js:32-52 | the record type of a normalized row can be read back from the reading's type and subType alone, so the three cases never collide |
| Libre.ReadingTimes | libre.js:27 | a kept row whose slash-separated time parses gets the device time `YYYY-MM-DDTHH:mm:00` built from that text, a `time` that appends the zone's offset, and the negated offset; a time that does not parse gives "Invalid date" strings and no offset |
| Libre.ParseTsv | libre.js:64-69 | the kept readings are at most as many as the rows and all carry the given deviceId and units |
| Libre.ParseTsvIsFilterMap | libre.js:64-71 | the k-th reading is the normalization of the k-th kept row, and there are as many readings as kept rows |
| Libre.KeptIndicesOrdered | libre.js:64-69 | kept rows are listed in increasing row order, and a row is kept iff its record type is supported |
| Libre.ParseTsvAppend | libre.js:64-69 | normalizing two parts of an export one after the other gives the readings of the whole export, in order |
| Libre.AllSupportedKeepsEveryRow | libre.js:64-69 | an export of supported rows only yields one reading per row, at the same position |
| Libre.NineRowExport | test/test.js:73-89 | nine rows whose ninth has record type "6" give eight readings, those of the first eight rows |
| LibreExamples.HistoricRowExample | test/test.js:7-21 | record type "0" at 2019/11/05 18:48 in a UTC zone gives the cbg reading the test expects |
| LibreExamples.ScannedRowExample | test/test.js:26-41 | record type "1" gives the scanned smbg reading the test expects |
| LibreExamples.StripRowExample | test/test.js:46-60 | record type "2" gives the smbg reading without subType that the test expects |
| LibreExamples.UnknownRowExample | test/test.js:65-70 | record type "6" is skipped |
| LibreExamples.SummerRowExample | test/test.js:77-86 | in summer time the first row of the test export reads `+01:00` with timezoneOffset -60 |
| Upload.Blocks | index.js:96-99 | there are ceil(n / 1000) blocks for n readings, so no input gives zero blocks except the empty one |
| Upload.BlockIsSlice | index.js:97-98 | block k is the slice of the readings from k*1000 to (k+1)*1000, cut short at the end |
| Upload.BlockSizes | index.js:7 | every block but the last holds exactly 1000 readings, and the last holds 1 to 1000 |
| Upload.FlattenBlocks | index.js:96-99 | the blocks, concatenated in order, are the readings: nothing is lost, duplicated or reordered |
| Upload.MapSeries | index.js:100-109 | the k-th transfer sends block k; every transfer before the last was accepted; the series fails iff its last transfer was rejected, and otherwise sent every block |
| Upload.NewDatasetInfo | index.js:24-54 | the dataset carries the prefixed device id, the serial number, a computerTime that is `now` printed as a device time, tags bgm and cgm, conversionOffset 0, a `time` that extends computerTime by the zone's offset, and timezoneOffset the offset's negation |
| Upload.DeviceIdInjective | index.js:35 | different serial numbers give different device ids |
| Upload.Session | index.js:87-123 | a session always starts with login; a second operation exists iff login succeeded, and it is the creation of the given dataset |
| Upload.TransfersInOrder | index.js:88-102 | a session opens with login; dataset creation follows iff login succeeded, and anything more iff both succeeded; the transfers of blocks 0, 1, 2, ... come next in that order |
| Upload.StopsAtFirstRejection | index.js:100-114 | when block k is the first rejected, the session ends with its transfer: no later block, no finalize, no logout |
| Upload.FinalizeIffAllAccepted | index.js:88-119 | the dataset is finalized iff login, dataset creation and every block transfer were accepted |
| Upload.FinalizeThenLogout | index.js:115-116 | finalize is issued at most once; logout happens iff finalize does, as the last operation and right after it |
| Upload.TransferredIsPrefix | index.js:88-109 | the readings a session sends are a prefix of the data in order: none when login or dataset creation failed, and all of it when those and every transfer are accepted |
| Upload.SessionSendsOnlyData | index.js:91-102 | a session creates exactly the dataset it was given and sends nothing but readings from its data |
| Upload.EmptyUpload | index.js:96-119 | once login and dataset creation succeed, an empty export is still created, finalized and logged out of |
| Upload.UploadCommand | index.js:164-178 | the command uploads iff serial number, username, password and export path are all given; an upload starts with login, and dataset creation follows iff login succeeded |
| Upload.WarnsAboutFirstMissing | index.js:165-172 | the warning names the first missing option in the order serial number, username, password, tsv |
| Upload.UploadSendsExport | index.js:174-176 | the readings the command sends are those parsed from the export in row order: always a prefix of them, and all of them when login, dataset creation and every block transfer are accepted |
| Upload.UploadedReadingsMatchDataset | index.js:174-176 | every reading uploaded carries the device id of the dataset it is sent to |
| Dedupe.Unique | dedupe.py:11-14 | first occurrences keep exactly the lines of the input, each once, and are no more than the input |
| Dedupe.Dedupe | dedupe.py:5-14 | the run completes iff every file holds its two header lines, otherwise stops at a short file; the output has no line twice |
| Dedupe.DedupeFile | dedupe.py:11-14 | the loop over one file's data lines extends the written lines to the first occurrences of everything read so far, and keeps the seen-set equal to them |
| Dedupe.DedupeFiles | dedupe.py:5-14 | the loop with its seen-set writes exactly the reference output and ends with the reference status |
| Dedupe.OutputIsEveryDataLine | dedupe.py:11-14 | the lines written are, as a set, exactly the data lines, and no more numerous |
| Dedupe.FirstOccurrenceOrder | dedupe.py:6-13 | lines are written in the order of their first occurrence across the files |
| Dedupe.SeenLinesSuppressed | dedupe.py:12 | the output for earlier input is a prefix of the output for more input, and no line of the earlier input appears after it |
| Dedupe.HeadersIgnored | dedupe.py:8-10 | files that differ only in their first two lines give the same output and status |
| Dedupe.StopsAtShortFile | dedupe.py:9-10 | a file without two header lines stops the run, which keeps what the files before it wrote |

## Left out

- Timestamps.ParseLocal: `moment(string)` accepts many date formats. The model accepts only `YYYY-MM-DD HH:mm` with a space or `T` between date and time, which is the shape the reader exports after slashes become dashes. Every other string is an invalid date. Hour `24:00`, which moment reads as the next midnight, is also treated as invalid.
- Libre.CreateReading: the value is the column's text, kept as it is. `parseFloat` and floating point are not modelled. A missing column is `None`, where the code gets `NaN`.
- Libre.CreateReading: for an invalid date `timezoneOffset` is `None`, standing for JavaScript's `NaN`.
- Time zones are a function parameter. The zone rules of the host and of moment are not modelled, and the offset is assumed to lie strictly between -24 and +24 hours.
- Streaming the TSV with `fs`/`csv-parser`, including skipping its first line (the owner's name), is not modelled. Rows arrive already split into named columns.
- The platform client is represented only by the operations issued and the platform's answers. Login, dataset creation and each block transfer are either accepted or rejected, and finalize and logout are always issued as the code issues them. `response.userid` and the dataset id are not modelled.
- Upload.Session: a rejected login or dataset creation stands for one that returns no response, so its callback throws. An error that still comes with a response is not modelled. In the code the run then goes on, just as it does after a success.
- Timestamps.ParseLocal: `moment` builds the local date-time with `new Date(y, m, d, h, mi)`, which moves a local time that the host zone skips forward by the length of the gap. The model keeps such a time as written. For example, under Europe/London "2019/03/31 01:30" becomes 02:30 in the code but stays 01:30 in the model.
- Timestamps.DeviceTimeOfParse: states that the printed device time repeats the parsed date and time. It does not model the forward shift of a local time that falls in a gap the host zone skips (see Timestamps.ParseLocal above).
- Timestamps.ParseOfDeviceTime: holds in the model for every valid date-time. In the code, a date-time inside a skipped gap of the host zone reads back shifted forward, so it is not what its own printed device time parses back to.
- Libre.ReadingTimes: the device time and `time` of a row whose local time falls in a gap the host zone skips are not shifted forward as in the code. The model prints the row's own clock time there.
- Upload.UploadCommand: `process.exit()` after finalize, and the console messages and verbose logging, are not modelled.
- The `time`, `show` and `parse` commands are not modelled. They print server time or JSON with `printServerTime` and `printDeviceDataForUser`, which are pure I/O (`index.js:57-84`). The `parse` command builds the same device id as `upload`, which `Upload.DeviceIdFor` models.
- Argument parsing by `commander` is not modelled. The four options arrive as optional strings.
- Dedupe.DedupeFiles: opening the files and writing to stdout are not modelled. Lines are strings that keep their terminators, and the output is the sequence of lines written.
