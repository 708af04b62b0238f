/** The batched upload: the readings are cut into blocks of BlockSize, the
    blocks are sent one after another and the series stops at the first
    failed transfer; only a fully transferred series is finalized, and only
    a finalized dataset is followed by a logout. The remote platform is not
    modelled: its answers to login, to dataset creation and to each block
    transfer are a parameter, and the run is the sequence of operations the
    tool issues to it. */
module Upload {
  import opened Wrappers
  import opened Timestamps
  import opened Libre

  const BlockSize: nat := 1000

  const DeviceIdPrefix := "AbbottFreeStyleLibre-"

  function Min(a: int, b: int): int {
    if a < b then a else b
  }

  // ---------------------------------------------------------------------
  // Blocks

  /** The elements of the blocks, block after block. */
  function Flatten<T>(blocks: seq<seq<T>>): seq<T> {
    if |blocks| == 0 then [] else blocks[0] + Flatten(blocks[1..])
  }

  /** The blocks the upload loop builds: slices of BlockSize readings taken
      from the front, the last one possibly shorter. */
  function Blocks<T>(data: seq<T>): (blocks: seq<seq<T>>)
    ensures |blocks| == (|data| + BlockSize - 1) / BlockSize
    decreases |data|
  {
    if |data| == 0 then []
    else
      var n := Min(BlockSize, |data|);
      var rest := Blocks(data[n..]);
      [data[..n]] + rest
  }

  /** Block k is the slice data[k*BlockSize .. (k+1)*BlockSize], cut short
      at the end of the data, as JavaScript's slice cuts it. */
  lemma {:induction false} BlockIsSlice<T>(data: seq<T>, k: nat)
    requires k < |Blocks(data)|
    ensures Blocks(data)[k] == data[k * BlockSize .. Min((k + 1) * BlockSize, |data|)]
    decreases k
  {
    var n := Min(BlockSize, |data|);
    var tail := data[n..];
    var rest := Blocks(tail);
    assert Blocks(data) == [data[..n]] + rest;
    if k > 0 {
      var j := k - 1;
      assert j < |rest|;
      assert |tail| > 0;
      BlockIsSlice(tail, j);
      BlockStartsInside(j, |tail|);
      var lo, hi := j * BlockSize, Min((j + 1) * BlockSize, |tail|);
      assert rest[j] == tail[lo..hi];
      assert n == BlockSize;
      ShiftedBounds(j, |data|);
      SliceOfSuffix(data, n, lo, hi);
    }
  }

  lemma SliceOfSuffix<T>(s: seq<T>, n: nat, lo: nat, hi: nat)
    requires n <= |s| && lo <= hi <= |s| - n
    ensures s[n..][lo..hi] == s[n + lo .. n + hi]
  {
  }

  /** The bounds of block j of the data after its first block, shifted back
      by one block. */
  lemma ShiftedBounds(j: nat, len: nat)
    requires len >= BlockSize
    ensures BlockSize + j * BlockSize == (j + 1) * BlockSize
    ensures BlockSize + Min((j + 1) * BlockSize, len - BlockSize) == Min((j + 2) * BlockSize, len)
  {
  }

  /** Every block but the last is full; the last holds 1 to BlockSize readings. */
  lemma BlockSizes<T>(data: seq<T>, k: nat)
    requires k < |Blocks(data)|
    ensures k < |Blocks(data)| - 1 ==> |Blocks(data)[k]| == BlockSize
    ensures 1 <= |Blocks(data)[k]| <= BlockSize
  {
    BlockIsSlice(data, k);
    BlockStartsInside(k, |data|);
    if k < |Blocks(data)| - 1 {
      BlockStartsInside(k + 1, |data|);
    }
  }

  /** The blocks, concatenated in order, are the data. */
  lemma {:induction false} FlattenBlocks<T>(data: seq<T>)
    ensures Flatten(Blocks(data)) == data
    decreases |data|
  {
    if |data| > 0 {
      var n := Min(BlockSize, |data|);
      var rest := Blocks(data[n..]);
      FlattenBlocks(data[n..]);
      assert Blocks(data) == [data[..n]] + rest;
      assert ([data[..n]] + rest)[1..] == rest;
      assert data[..n] + data[n..] == data;
    }
  }

  lemma {:induction false} FlattenAppend<T>(a: seq<seq<T>>, b: seq<seq<T>>)
    ensures Flatten(a + b) == Flatten(a) + Flatten(b)
    decreases |a|
  {
    if |a| > 0 {
      assert (a + b)[1..] == a[1..] + b;
      FlattenAppend(a[1..], b);
    } else {
      assert a + b == b;
    }
  }

  /** Block k of n elements starts inside the data. */
  lemma BlockStartsInside(k: nat, n: nat)
    requires k < (n + BlockSize - 1) / BlockSize
    ensures k * BlockSize < n
  {
    var q := (n + BlockSize - 1) / BlockSize;
    assert q * BlockSize <= n + BlockSize - 1;
    assert (k + 1) * BlockSize <= q * BlockSize;
  }

  // ---------------------------------------------------------------------
  // The series of transfers

  /** The platform's answer to a request. A rejected login or dataset
      creation is one that comes back without a response. */
  datatype Ack = Accepted | Rejected

  /** The platform's answer to the transfer of each block, by block index. */
  type Answers = nat -> Ack

  /** The platform's answers during one session: to login, to dataset
      creation, and to the transfer of each block. */
  datatype Platform = Platform(login: Ack, create: Ack, transfer: Answers)

  /** The dataset metadata sent when the dataset is created. */
  datatype DatasetInfo = DatasetInfo(
    clientName: string,
    clientVersion: string,
    deviceId: string,
    deviceManufacturers: seq<string>,
    deviceModel: string,
    deviceSerialNumber: string,
    deviceTags: seq<string>,
    computerTime: string,
    conversionOffset: int,
    time: string,
    timezone: string,
    timezoneOffset: int,
    timeProcessing: string,
    kind: string,
    version: string)

  /** An operation the tool issues to the platform. */
  datatype Op =
    | Login
    | CreateDataset(info: DatasetInfo)
    | AddData(index: nat, block: seq<Reading>)
    | FinalizeDataset
    | Logout

  /** What a series of transfers did: the transfers issued, and whether it
      ended on a rejected one. */
  datatype Series = Series(transfers: seq<Op>, failed: bool)

  /** True iff the platform accepts the transfers of blocks lo..hi-1. */
  predicate AcceptsAll(answers: Answers, lo: nat, hi: int) {
    forall k :: lo <= k < hi ==> answers(k) == Accepted
  }

  /** Sends blocks[from..] one at a time, each only after the previous one
      was accepted, and stops at the first rejected transfer. */
  function MapSeries(blocks: seq<seq<Reading>>, answers: Answers, from: nat): (r: Series)
    requires from <= |blocks|
    ensures |r.transfers| <= |blocks| - from
    ensures forall k :: 0 <= k < |r.transfers| ==> r.transfers[k] == AddData(from + k, blocks[from + k])
    ensures AcceptsAll(answers, from, from + |r.transfers| - 1)
    ensures r.failed ==> |r.transfers| > 0 && answers(from + |r.transfers| - 1) == Rejected
    ensures !r.failed ==> |r.transfers| == |blocks| - from && AcceptsAll(answers, from, |blocks|)
    decreases |blocks| - from
  {
    if from == |blocks| then Series([], false)
    else if answers(from) == Rejected then Series([AddData(from, blocks[from])], true)
    else
      var rest := MapSeries(blocks, answers, from + 1);
      Series([AddData(from, blocks[from])] + rest.transfers, rest.failed)
  }

  // ---------------------------------------------------------------------
  // Dataset metadata

  /** The device id the tool derives from the reader's serial number. */
  function DeviceIdFor(serial: string): string {
    DeviceIdPrefix + serial
  }

  /** The metadata of a new dataset, stamped with the wall-clock time `now`
      in a zone whose offset is `offset`. */
  function NewDatasetInfo(serial: string, now: Moment, offset: Offset): (info: DatasetInfo)
    ensures info.deviceId == DeviceIdFor(serial)
    ensures info.deviceSerialNumber == serial
    ensures info.computerTime == FormatDeviceTime(now)
    ensures info.deviceTags == ["bgm", "cgm"]
    ensures info.conversionOffset == 0
    ensures |info.time| == 25 && info.time[..19] == info.computerTime && ParseOffset(info.time[19..]) == Some(offset)
    ensures info.timezoneOffset == -offset
  {
    TimeExtendsDeviceTime(now, offset);
    DatasetInfo(
      "com.tom-e-white.tidepool", "0.1.0",
      DeviceIdFor(serial),
      ["Abbott"],
      "FreeStyle Libre",
      serial,
      ["bgm", "cgm"],
      FormatDeviceTime(now),
      0,
      FormatTime(now, offset),
      "Europe/London",
      -offset,
      "utc-bootstrapping",
      "upload",
      "0.1.0")
  }

  /** The serial number can be read back from the device id. */
  lemma DeviceIdNamesSerial(serial: string)
    ensures var id := DeviceIdFor(serial);
            |id| >= |DeviceIdPrefix| && id[..|DeviceIdPrefix|] == DeviceIdPrefix && id[|DeviceIdPrefix|..] == serial
  {
  }

  /** Different serial numbers give different device ids. */
  lemma DeviceIdInjective(a: string, b: string)
    requires DeviceIdFor(a) == DeviceIdFor(b)
    ensures a == b
  {
    DeviceIdNamesSerial(a);
    DeviceIdNamesSerial(b);
  }

  // ---------------------------------------------------------------------
  // The upload run

  /** True iff login and dataset creation both succeed, so that a session
      gets as far as its block transfers. */
  predicate Opens(platform: Platform) {
    platform.login == Accepted && platform.create == Accepted
  }

  /** The operations issued by one upload session for a dataset described
      by `info`: login, dataset creation, the series of block transfers,
      then finalize and logout only when every transfer was accepted. A
      login or dataset creation without a response ends the run there, as
      its callback reads the missing response; the answer to finalize is
      ignored. */
  function Session(info: DatasetInfo, data: seq<Reading>, platform: Platform): (ops: seq<Op>)
    ensures |ops| >= 1 && ops[0] == Login
    ensures |ops| >= 2 <==> platform.login.Accepted?
    ensures |ops| >= 2 ==> ops[1] == CreateDataset(info)
  {
    if platform.login == Rejected then [Login]
    else if platform.create == Rejected then [Login, CreateDataset(info)]
    else
      var series := MapSeries(Blocks(data), platform.transfer, 0);
      [Login, CreateDataset(info)]
      + series.transfers
      + (if series.failed then [] else [FinalizeDataset, Logout])
  }

  /** One upload of `data` for the reader `serial`, the dataset stamped with
      the wall-clock time `now` in `zone`. */
  function UploadDeviceData(serial: string, data: seq<Reading>, now: Moment, zone: Zone, platform: Platform): seq<Op>
  {
    Session(NewDatasetInfo(serial, now, zone(now)), data, platform)
  }

  /** The readings carried by the transfers of a run, in the order sent. */
  function Transferred(ops: seq<Op>): seq<Reading> {
    if |ops| == 0 then []
    else (if ops[0].AddData? then ops[0].block else []) + Transferred(ops[1..])
  }

  lemma {:induction false} TransferredAppend(a: seq<Op>, b: seq<Op>)
    ensures Transferred(a + b) == Transferred(a) + Transferred(b)
    decreases |a|
  {
    if |a| > 0 {
      assert (a + b)[1..] == a[1..] + b;
      TransferredAppend(a[1..], b);
    } else {
      assert a + b == b;
    }
  }

  /** Operations that are not block transfers carry no readings. */
  lemma {:induction false} NoTransfers(ops: seq<Op>)
    requires forall i :: 0 <= i < |ops| ==> !ops[i].AddData?
    ensures Transferred(ops) == []
    decreases |ops|
  {
    if |ops| > 0 {
      NoTransfers(ops[1..]);
    }
  }

  /** The readings carried by the first m transfers of a series are the
      first m blocks, concatenated. */
  lemma {:induction false} TransferredOfSeries(ops: seq<Op>, blocks: seq<seq<Reading>>)
    requires |ops| <= |blocks|
    requires forall k :: 0 <= k < |ops| ==> ops[k] == AddData(k, blocks[k])
    ensures Transferred(ops) == Flatten(blocks[..|ops|])
    decreases |ops|
  {
    var m := |ops|;
    if m > 0 {
      var init := ops[..m - 1];
      TransferredOfSeries(init, blocks);
      assert ops == init + [ops[m - 1]];
      TransferredAppend(init, [ops[m - 1]]);
      assert Transferred([ops[m - 1]]) == blocks[m - 1];
      assert blocks[..m] == blocks[..m - 1] + [blocks[m - 1]];
      FlattenAppend(blocks[..m - 1], [blocks[m - 1]]);
      assert Flatten([blocks[m - 1]]) == blocks[m - 1];
    } else {
      assert blocks[..0] == [];
    }
  }

  // ---------------------------------------------------------------------
  // Properties of a session

  /** A session opens with login, followed by dataset creation only when
      login succeeds; it goes further only when both succeed. Block
      transfers follow in block order, the i-th operation after the first
      two being the transfer of block i; nothing else is a transfer. */
  lemma TransfersInOrder(info: DatasetInfo, data: seq<Reading>, platform: Platform)
    ensures var ops := Session(info, data, platform);
            && ops[0] == Login
            && (|ops| >= 2 <==> platform.login == Accepted)
            && (|ops| >= 2 ==> ops[1] == CreateDataset(info))
            && (|ops| >= 3 <==> Opens(platform))
            && (forall i :: 0 <= i < |ops| && ops[i].AddData? ==> 2 <= i && ops[i] == AddData(i - 2, Blocks(data)[i - 2]))
  {
  }

  /** When block k is the first one the platform rejects, the session ends
      with that transfer: no later block is sent, and neither finalize nor
      logout is issued. */
  lemma StopsAtFirstRejection(info: DatasetInfo, data: seq<Reading>, platform: Platform, k: nat)
    requires k < |Blocks(data)|
    requires AcceptsAll(platform.transfer, 0, k) && platform.transfer(k) == Rejected
    ensures var ops := Session(info, data, platform);
            && (Opens(platform) ==> |ops| == k + 3 && ops[k + 2] == AddData(k, Blocks(data)[k]))
            && (forall i :: 0 <= i < |ops| && ops[i].AddData? ==> ops[i].index <= k)
            && FinalizeDataset !in ops
            && Logout !in ops
  {
    if Opens(platform) {
      var series := MapSeries(Blocks(data), platform.transfer, 0);
      var m := |series.transfers|;
      assert series.failed;
      assert m - 1 == k;
      assert Session(info, data, platform) == [Login, CreateDataset(info)] + series.transfers;
    }
  }

  /** The dataset is finalized exactly when login, dataset creation and
      every block transfer were accepted. */
  lemma FinalizeIffAllAccepted(info: DatasetInfo, data: seq<Reading>, platform: Platform)
    ensures FinalizeDataset in Session(info, data, platform)
            <==> Opens(platform) && AcceptsAll(platform.transfer, 0, |Blocks(data)|)
  {
    if Opens(platform) {
      var series := MapSeries(Blocks(data), platform.transfer, 0);
      var ops := Session(info, data, platform);
      if series.failed {
        var m := |series.transfers|;
        assert platform.transfer(m - 1) == Rejected;
        assert ops == [Login, CreateDataset(info)] + series.transfers;
      } else {
        assert ops[|ops| - 2] == FinalizeDataset;
      }
    }
  }

  /** Finalize is issued at most once, and logout only as the last operation,
      right after finalize. */
  lemma FinalizeThenLogout(info: DatasetInfo, data: seq<Reading>, platform: Platform)
    ensures var ops := Session(info, data, platform);
            && (forall i, j :: 0 <= i < j < |ops| && ops[i] == FinalizeDataset ==> ops[j] != FinalizeDataset)
            && (forall i :: 0 <= i < |ops| && ops[i] == Logout ==> i == |ops| - 1 && ops[i - 1] == FinalizeDataset)
            && (Logout in ops <==> FinalizeDataset in ops)
  {
    if Opens(platform) {
      var series := MapSeries(Blocks(data), platform.transfer, 0);
      var ops := Session(info, data, platform);
      var head := [Login, CreateDataset(info)] + series.transfers;
      assert forall i :: 0 <= i < |head| ==> head[i] != FinalizeDataset && head[i] != Logout;
      if !series.failed {
        assert ops == head + [FinalizeDataset, Logout];
      } else {
        assert ops == head;
      }
    }
  }

  /** The readings a session sends are the first blocks of the data,
      concatenated, as many blocks as there were transfers; none when login
      or dataset creation failed. */
  lemma TransferredBlocks(info: DatasetInfo, data: seq<Reading>, platform: Platform)
    ensures var series := MapSeries(Blocks(data), platform.transfer, 0);
            Transferred(Session(info, data, platform))
            == if Opens(platform) then Flatten(Blocks(data)[..|series.transfers|]) else []
  {
    var ops := Session(info, data, platform);
    if Opens(platform) {
      var series := MapSeries(Blocks(data), platform.transfer, 0);
      var head := [Login, CreateDataset(info)];
      var tail := if series.failed then [] else [FinalizeDataset, Logout];
      assert ops == head + series.transfers + tail;
      TransferredAppend(head + series.transfers, tail);
      TransferredAppend(head, series.transfers);
      NoTransfers(head);
      NoTransfers(tail);
      TransferredOfSeries(series.transfers, Blocks(data));
    } else {
      NoTransfers(ops);
    }
  }

  /** What a session sends is always the data up to some point, in order:
      nothing when login or dataset creation failed, and all of the data
      when those and every transfer are accepted. */
  lemma TransferredIsPrefix(info: DatasetInfo, data: seq<Reading>, platform: Platform)
    ensures var sent := Transferred(Session(info, data, platform));
            && |sent| <= |data| && sent == data[..|sent|]
            && (!Opens(platform) ==> sent == [])
            && (Opens(platform) && AcceptsAll(platform.transfer, 0, |Blocks(data)|) ==> sent == data)
  {
    TransferredBlocks(info, data, platform);
    if Opens(platform) {
      SeriesSendsPrefix(data, platform.transfer);
    }
  }

  /** The blocks a series transfers, concatenated, are the data up to some
      point, and all of it when every transfer is accepted. */
  lemma SeriesSendsPrefix(data: seq<Reading>, answers: Answers)
    ensures |Flatten(Blocks(data)[..|MapSeries(Blocks(data), answers, 0).transfers|])| <= |data|
    ensures Flatten(Blocks(data)[..|MapSeries(Blocks(data), answers, 0).transfers|])
            == data[..|Flatten(Blocks(data)[..|MapSeries(Blocks(data), answers, 0).transfers|])|]
    ensures AcceptsAll(answers, 0, |Blocks(data)|)
            ==> Flatten(Blocks(data)[..|MapSeries(Blocks(data), answers, 0).transfers|]) == data
  {
    var blocks := Blocks(data);
    var m := |MapSeries(blocks, answers, 0).transfers|;
    assert blocks == blocks[..m] + blocks[m..];
    FlattenAppend(blocks[..m], blocks[m..]);
    FlattenBlocks(data);
    if AcceptsAll(answers, 0, |blocks|) {
      assert blocks[..m] == blocks;
    }
  }

  /** Every element of a block is an element of the data. */
  lemma BlockElementsFromData<T>(data: seq<T>, k: nat, x: T)
    requires k < |Blocks(data)| && x in Blocks(data)[k]
    ensures x in data
  {
    BlockIsSlice(data, k);
    BlockStartsInside(k, |data|);
    var block := Blocks(data)[k];
    var j :| 0 <= j < |block| && block[j] == x;
    assert x == data[k * BlockSize + j];
  }

  /** A session sends nothing but readings from its data, and its dataset
      is the one it created. */
  lemma SessionSendsOnlyData(info: DatasetInfo, data: seq<Reading>, platform: Platform)
    ensures var ops := Session(info, data, platform);
            && (|ops| >= 2 ==> ops[1] == CreateDataset(info))
            && forall i, x :: 0 <= i < |ops| && ops[i].AddData? && x in ops[i].block ==> 2 <= i && x in data
  {
    var ops := Session(info, data, platform);
    TransfersInOrder(info, data, platform);
    forall i, x | 0 <= i < |ops| && ops[i].AddData? && x in ops[i].block
      ensures x in data
    {
      BlockElementsFromData(data, i - 2, x);
    }
  }

  /** An empty export still creates, finalizes and closes a dataset once
      login and dataset creation succeed. */
  lemma EmptyUpload(info: DatasetInfo, platform: Platform)
    ensures Opens(platform) ==> Session(info, [], platform) == [Login, CreateDataset(info), FinalizeDataset, Logout]
  {
  }

  // ---------------------------------------------------------------------
  // The upload command

  /** The command-line options the upload command needs; None when absent. */
  datatype Options = Options(
    deviceSerialNumber: Option<string>,
    username: Option<string>,
    password: Option<string>,
    tsv: Option<string>)

  /** What the upload command did: printed a usage warning and stopped, or
      parsed the export and ran an upload. */
  datatype Outcome = Warned(message: string) | Uploaded(ops: seq<Op>)

  /** The required options, in the order the command checks them. */
  function RequiredOptions(opts: Options): seq<Option<string>> {
    [opts.deviceSerialNumber, opts.username, opts.password, opts.tsv]
  }

  /** The flags named by the warnings, in the same order. */
  const RequiredFlags: seq<string> := ["--device-serial-number", "--username", "--password", "--tsv"]

  /** The upload command: checks the serial number, username, password and
      export path in that order, warning about the first one missing; with
      all four present, parses the export (its rows are `rows`) with the
      derived device id and uploads the readings. */
  function UploadCommand(opts: Options, rows: seq<Row>, now: Moment, zone: Zone, platform: Platform): (r: Outcome)
    ensures r.Uploaded? <==> opts.deviceSerialNumber.Some? && opts.username.Some? && opts.password.Some? && opts.tsv.Some?
    ensures r.Uploaded? ==> |r.ops| >= 1 && r.ops[0] == Login
    ensures r.Uploaded? ==> (|r.ops| >= 2 <==> platform.login == Accepted)
    ensures r.Uploaded? && |r.ops| >= 2 ==> r.ops[1].CreateDataset?
  {
    if opts.deviceSerialNumber.None? then Warned("Please specify --device-serial-number")
    else if opts.username.None? then Warned("Please specify --username")
    else if opts.password.None? then Warned("Please specify --password")
    else if opts.tsv.None? then Warned("Please specify --tsv")
    else
      var serial := opts.deviceSerialNumber.value;
      var readings := ParseTsv(rows, DeviceIdFor(serial), zone);
      Uploaded(UploadDeviceData(serial, readings, now, zone, platform))
  }

  /** The warning names the first missing option in checking order. */
  lemma WarnsAboutFirstMissing(opts: Options, rows: seq<Row>, now: Moment, zone: Zone, platform: Platform, k: nat)
    requires k < 4 && RequiredOptions(opts)[k].None?
    requires forall j :: 0 <= j < k ==> RequiredOptions(opts)[j].Some?
    ensures UploadCommand(opts, rows, now, zone, platform) == Warned("Please specify " + RequiredFlags[k])
  {
    var required := RequiredOptions(opts);
    WarningTexts();
    if k == 1 {
      assert required[0].Some?;
    } else if k == 2 {
      assert required[0].Some? && required[1].Some?;
    } else if k == 3 {
      assert required[0].Some? && required[1].Some? && required[2].Some?;
    }
  }

  /** The warning for each required flag, spelled out. */
  lemma WarningTexts()
    ensures "Please specify " + RequiredFlags[0] == "Please specify --device-serial-number"
    ensures "Please specify " + RequiredFlags[1] == "Please specify --username"
    ensures "Please specify " + RequiredFlags[2] == "Please specify --password"
    ensures "Please specify " + RequiredFlags[3] == "Please specify --tsv"
  {
  }

  /** The upload command sends the readings parsed from the export, in row
      order: always a prefix of them, and all of them when login, dataset
      creation and every block transfer are accepted. */
  lemma UploadSendsExport(opts: Options, rows: seq<Row>, now: Moment, zone: Zone, platform: Platform)
    requires UploadCommand(opts, rows, now, zone, platform).Uploaded?
    ensures var readings := ParseTsv(rows, DeviceIdFor(opts.deviceSerialNumber.value), zone);
            var sent := Transferred(UploadCommand(opts, rows, now, zone, platform).ops);
            && |sent| <= |readings| && sent == readings[..|sent|]
            && (Opens(platform) && AcceptsAll(platform.transfer, 0, |Blocks(readings)|) ==> sent == readings)
  {
    var serial := opts.deviceSerialNumber.value;
    var readings := ParseTsv(rows, DeviceIdFor(serial), zone);
    TransferredIsPrefix(NewDatasetInfo(serial, now, zone(now)), readings, platform);
  }

  /** Every reading the upload command sends carries the device id of the
      dataset it is sent to. */
  lemma UploadedReadingsMatchDataset(opts: Options, rows: seq<Row>, now: Moment, zone: Zone, platform: Platform)
    requires UploadCommand(opts, rows, now, zone, platform).Uploaded?
    ensures var ops := UploadCommand(opts, rows, now, zone, platform).ops;
            forall i, x :: 0 <= i < |ops| && ops[i].AddData? && x in ops[i].block ==>
              2 <= i && ops[1].CreateDataset? && x.deviceId == ops[1].info.deviceId
  {
    var serial := opts.deviceSerialNumber.value;
    var readings := ParseTsv(rows, DeviceIdFor(serial), zone);
    var info := NewDatasetInfo(serial, now, zone(now));
    assert UploadCommand(opts, rows, now, zone, platform).ops == Session(info, readings, platform);
    SessionSendsOnlyData(info, readings, platform);
    assert forall x :: x in readings ==> x.deviceId == info.deviceId;
  }
}
