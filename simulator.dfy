/** SimulationEngine and the two run loops of the simulator: the twelve
    measuring points, the batch of readings one tick produces, the
    real-time loop that forwards every batch, and the accelerated loop that
    walks simulated time, keeps every batch in a local file and uploads the
    accumulated records in blocks of 400. */
module Simulator {
  import opened Text
  import opened Calendar
  import opened Generator
  import opened DateFormat
  import opened Persistence
  import opened Chunking

  datatype Option<T> = None | Some(value: T)

  const POINT_COUNT: nat := 12

  /** PUNTOS_ID[i]: "N1" for i = 0 up to "N12" for i = 11. */
  function PointId(i: nat): string {
    "N" + Decimal(i + 1)
  }

  /** PUNTOS_ID. */
  function PointIds(): (ids: seq<string>)
    ensures |ids| == POINT_COUNT && forall i :: 0 <= i < POINT_COUNT ==> ids[i] == PointId(i)
  {
    seq(POINT_COUNT, (i: int) requires 0 <= i => PointId(i))
  }

  /** Different points have different identifiers. */
  lemma PointIdInjective(i: nat, j: nat)
    ensures PointId(i) == PointId(j) ==> i == j
  {
    if PointId(i) == PointId(j) {
      assert PointId(i)[1..] == Decimal(i + 1);
      assert PointId(j)[1..] == Decimal(j + 1);
      DecimalInjective(i + 1, j + 1);
    }
  }

  lemma PointIdsEnds()
    ensures |PointIds()| == 12 && PointIds()[0] == "N1" && PointIds()[11] == "N12"
  {
    assert Decimal(1) == "1";
    assert Decimal(12) == Decimal(1) + [DigitChar(2)];
  }

  type Config = map<string, PointConfig>

  /** Every point has a configuration. */
  ghost predicate Covers(config: Config) {
    forall i :: 0 <= i < POINT_COUNT ==> PointId(i) in config
  }

  /** The configuration the engine starts with. */
  function InitialConfig(): (c: Config)
    ensures Covers(c)
    ensures c.Keys == set i | 0 <= i < POINT_COUNT :: PointId(i)
    ensures forall pid :: pid in c ==> c[pid] == DEFAULT_CONFIG
  {
    map i | 0 <= i < POINT_COUNT :: PointId(i) := DEFAULT_CONFIG
  }

  /** The record both run loops build for point pid at time dt. */
  function RecordFor(config: Config, pid: string, dt: Timestamp, d: Draw): Reading
    requires pid in config
  {
    Reading(SimulateValue(config[pid], dt.hour, d), dt, config[pid].status, pid)
  }

  /** The fecha field of a record: get_formatted_date of its moment. */
  function Fecha(r: Reading): string {
    FormatDate(r.at)
  }

  /** The records of the first n points at time dt, in PUNTOS_ID order. */
  function Records(config: Config, dt: Timestamp, draw: nat -> Draw, n: nat): (b: seq<Reading>)
    requires Covers(config) && n <= POINT_COUNT
    ensures |b| == n
  {
    if n == 0 then [] else Records(config, dt, draw, n - 1) + [RecordFor(config, PointId(n - 1), dt, draw(n - 1))]
  }

  /** Record i of the first n is point i's. */
  lemma {:induction false} RecordsAt(config: Config, dt: Timestamp, draw: nat -> Draw, n: nat, i: nat)
    requires Covers(config) && i < n <= POINT_COUNT
    ensures Records(config, dt, draw, n)[i] == RecordFor(config, PointId(i), dt, draw(i))
    decreases n
  {
    if i < n - 1 {
      RecordsAt(config, dt, draw, n - 1, i);
    }
  }

  /** The batch of one tick at time dt, point i drawing draw(i). */
  function TickBatch(config: Config, dt: Timestamp, draw: nat -> Draw): (b: seq<Reading>)
    requires Covers(config)
    ensures |b| == POINT_COUNT
  {
    Records(config, dt, draw, POINT_COUNT)
  }

  /** A tick's batch lists the points in PUNTOS_ID order, each with its own
      status, the tick's display date and the value its rule yields; an
      inactive point reads 0. */
  lemma TickBatchShape(config: Config, dt: Timestamp, draw: nat -> Draw)
    requires Covers(config)
    ensures forall i :: 0 <= i < POINT_COUNT ==>
      var r := TickBatch(config, dt, draw)[i];
      && r.pointId == PointIds()[i]
      && r.status == config[PointId(i)].status
      && r.at == dt && Fecha(r) == FormatDate(dt)
      && r.kwh == SimulateValue(config[PointId(i)], dt.hour, draw(i))
      && (config[PointId(i)].status == STATUS_INACTIVE ==> r.kwh == 0.0)
  {
    forall i | 0 <= i < POINT_COUNT
      ensures TickBatch(config, dt, draw)[i] == RecordFor(config, PointId(i), dt, draw(i))
      ensures config[PointId(i)].status == STATUS_INACTIVE ==> TickBatch(config, dt, draw)[i].kwh == 0.0
    {
      RecordsAt(config, dt, draw, POINT_COUNT, i);
      SimulateValueCases(config[PointId(i)], dt.hour, draw(i));
    }
  }

  /** The batches of the first n real-time ticks: tick k reads the clock clock(k). */
  function RealtimeBatches(config: Config, clock: nat -> Timestamp, draws: nat -> nat -> Draw, n: nat): (bs: seq<seq<Reading>>)
    requires Covers(config)
    ensures |bs| == n
  {
    if n == 0 then []
    else RealtimeBatches(config, clock, draws, n - 1) + [TickBatch(config, clock(n - 1), draws(n - 1))]
  }

  /** A sequence whose k-th batch is tick k's is the real-time loop's batches. */
  lemma {:induction false} RealtimeBatchesByIndex(config: Config, clock: nat -> Timestamp, draws: nat -> nat -> Draw, bs: seq<seq<Reading>>)
    requires Covers(config)
    requires forall j :: 0 <= j < |bs| ==> bs[j] == TickBatch(config, clock(j), draws(j))
    ensures bs == RealtimeBatches(config, clock, draws, |bs|)
    decreases |bs|
  {
    if |bs| > 0 {
      var n := |bs| - 1;
      RealtimeBatchesByIndex(config, clock, draws, bs[..n]);
      assert bs == bs[..n] + [bs[n]];
    }
  }

  /** The moment of tick k of the accelerated walk: k * interval seconds after the start. */
  function TickTime(start: Timestamp, interval: nat, k: nat): Timestamp {
    AddSeconds(start, k * interval)
  }

  /** One more interval after tick k is tick k + 1. */
  lemma TickAdvance(start: Timestamp, interval: nat, k: nat)
    ensures AddSeconds(TickTime(start, interval, k), interval) == TickTime(start, interval, k + 1)
    ensures (k + 1) * interval == k * interval + interval
  {
    var a: nat := k * interval;
    assert (k + 1) * interval == a + interval;
    AddSecondsAdditive(start, a, interval);
    assert TickTime(start, interval, k) == AddSeconds(start, a);
  }

  /** The batches of the first n accelerated ticks: tick k is at start + k * interval seconds. */
  function AccelBatches(config: Config, start: Timestamp, interval: nat, draws: nat -> nat -> Draw, n: nat): (bs: seq<seq<Reading>>)
    requires Covers(config)
    ensures |bs| == n
  {
    if n == 0 then []
    else
      var dt := TickTime(start, interval, n - 1);
      AccelBatches(config, start, interval, draws, n - 1) + [TickBatch(config, dt, draws(n - 1))]
  }

  lemma {:induction false} AccelBatchesAt(config: Config, start: Timestamp, interval: nat, draws: nat -> nat -> Draw, n: nat, k: nat)
    requires Covers(config) && k < n
    ensures AccelBatches(config, start, interval, draws, n)[k]
      == TickBatch(config, TickTime(start, interval, k), draws(k))
    decreases n
  {
    if k < n - 1 {
      AccelBatchesAt(config, start, interval, draws, n - 1, k);
    }
  }

  lemma AccelBatchesWidth(config: Config, start: Timestamp, interval: nat, draws: nat -> nat -> Draw, n: nat)
    requires Covers(config)
    ensures forall k :: 0 <= k < n ==> |AccelBatches(config, start, interval, draws, n)[k]| == POINT_COUNT
  {
    forall k | 0 <= k < n
      ensures |AccelBatches(config, start, interval, draws, n)[k]| == POINT_COUNT
    {
      AccelBatchesAt(config, start, interval, draws, n, k);
    }
  }

  /** The local files after guardar_local(batch, FILE_ACCEL_OUTPUT) for every batch in turn. */
  function AccelSaves(files: Files, bs: seq<seq<Reading>>): Files
    decreases |bs|
  {
    if |bs| == 0 then files else AfterSave(AccelSaves(files, bs[..|bs| - 1]), ACCEL_FILE, Many(bs[|bs| - 1]))
  }

  /** The output file ends up holding what it held (or nothing, if it did
      not decode) followed by every record of the walk. */
  lemma {:induction false} AccelSavesAppend(files: Files, bs: seq<seq<Reading>>)
    requires |bs| > 0
    ensures Stored(AccelSaves(files, bs), ACCEL_FILE) == Stored(files, ACCEL_FILE) + Flatten(bs)
    decreases |bs|
  {
    var n := |bs| - 1;
    if n == 0 {
      assert Flatten(bs) == Flatten(bs[..0]) + bs[0];
      assert Flatten(bs[..0]) == [];
    } else {
      AccelSavesAppend(files, bs[..n]);
    }
  }

  /** Tick k adds its batch to the walk's batches, to the output file and
      to the accumulated records. */
  lemma AccelStep(config: Config, start: Timestamp, interval: nat, draws: nat -> nat -> Draw, k: nat, files: Files)
    requires Covers(config)
    ensures var bs := AccelBatches(config, start, interval, draws, k);
      var batch := TickBatch(config, TickTime(start, interval, k), draws(k));
      && AccelBatches(config, start, interval, draws, k + 1) == bs + [batch]
      && AccelSaves(files, bs + [batch]) == AfterSave(AccelSaves(files, bs), ACCEL_FILE, Many(batch))
      && Flatten(bs + [batch]) == Flatten(bs) + batch
  {
    var bs := AccelBatches(config, start, interval, draws, k);
    var batch := TickBatch(config, TickTime(start, interval, k), draws(k));
    assert (bs + [batch])[..k] == bs;
    FlattenAppend(bs, [batch]);
    FlattenSingle(batch);
  }

  /** No file other than the output file changes during the walk. */
  lemma {:induction false} AccelSavesFrame(files: Files, bs: seq<seq<Reading>>, f: string)
    requires f != ACCEL_FILE
    ensures f in AccelSaves(files, bs) <==> f in files
    ensures f in files ==> AccelSaves(files, bs)[f] == files[f]
    decreases |bs|
  {
    if |bs| > 0 {
      AccelSavesFrame(files, bs[..|bs| - 1], f);
    }
  }

  /** run_accelerated's recurrence entry: empty, a whole number of seconds,
      or text that int() rejects. */
  datatype RecurrenceEntry = Blank | Whole(seconds: int) | NotANumber

  /** The walk's step in seconds: 60 for an empty entry, None where int() raises. */
  function IntervalOf(entry: RecurrenceEntry): Option<int> {
    match entry
    case Blank => Some(60)
    case Whole(r) => Some(r)
    case NotANumber => None
  }

  /** The number of ticks the time walk makes before the end or a stop. */
  function AccelTicks(sig: StopSignal, hours: int, interval: nat): nat
    requires interval > 0
  {
    Passing(sig, 0, TickCount(hours, interval))
  }

  /** How many times the walk tested the flag: once per tick, and once more
      when the test that ended it was the flag's. */
  function ChecksAfterTicks(sig: StopSignal, hours: int, interval: nat): nat
    requires interval > 0
  {
    var n := AccelTicks(sig, hours, interval);
    if n < TickCount(hours, interval) then n + 1 else n
  }

  /** The walk's loop, left after k ticks none of which saw the flag set
      (so k is at most the first check that does), has made AccelTicks ticks
      and ChecksAfterTicks flag tests. */
  lemma WalkEnd(sig: StopSignal, hours: int, interval: nat, k: nat)
    requires interval > 0 && k <= AccelTicks(sig, hours, interval)
    requires !(k * interval < 3600 * hours && !IsSet(sig, k))
    ensures k == AccelTicks(sig, hours, interval)
    ensures (if k * interval < 3600 * hours then k + 1 else k) == ChecksAfterTicks(sig, hours, interval)
  {
    TickCountMeaning(hours, interval, k);
  }

  /** A tick that finds the time left and the flag clear is one the walk makes. */
  lemma WalkStep(sig: StopSignal, hours: int, interval: nat, k: nat)
    requires interval > 0 && k <= AccelTicks(sig, hours, interval)
    requires k * interval < 3600 * hours && !IsSet(sig, k)
    ensures k < AccelTicks(sig, hours, interval)
  {
    TickCountMeaning(hours, interval, k);
  }

  /** The upload loop, left after j blocks whose flag tests all found it
      clear, has sent the blocks Passing lets through. */
  lemma UploadEnd(sig: StopSignal, checks: nat, count: nat, j: nat)
    requires j <= NumChunks(count, CHUNK_SIZE)
    requires forall c :: checks <= c < checks + j ==> !IsSet(sig, c)
    requires !(j * CHUNK_SIZE < count && !IsSet(sig, checks + j))
    ensures j == Passing(sig, checks, NumChunks(count, CHUNK_SIZE))
  {
    if count > 0 {
      CeilDivBound(count, CHUNK_SIZE, j);
    } else {
      assert NumChunks(count, CHUNK_SIZE) == 0;
    }
    if sig.StoppedFrom? && checks <= sig.check < checks + j {
      assert IsSet(sig, sig.check);
    }
    if j > 0 {
      assert !IsSet(sig, checks);
    }
  }

  /** Everything run_accelerated does after a valid start: the walk's
      batches saved to the output file, then as many 400-record blocks of the
      accumulated records as the flag lets through, each sent by enviar_datos
      with the j-th call's commit outcomes net(j). */
  function AcceleratedRun(db: bool, s: Stores, config: Config, start: Timestamp, hours: int, interval: nat,
                          sig: StopSignal, draws: nat -> nat -> Draw, net: nat -> CommitOutcomes): Stores
    requires Covers(config) && interval > 0
  {
    var bs := AccelBatches(config, start, interval, draws, AccelTicks(sig, hours, interval));
    var chunks := Chunks(Flatten(bs), CHUNK_SIZE);
    var m := Passing(sig, ChecksAfterTicks(sig, hours, interval), |chunks|);
    DeliverAll(db, Stores(AccelSaves(s.files, bs), s.remote), chunks[..m], net)
  }

  /** Without a stop the walk visits start, start + d, ... strictly before
      start + hours, 12 records per tick: record 12k + i is point i's reading
      at start + k * d; and all of them are sent, in blocks of 400. */
  lemma AcceleratedWithoutStop(db: bool, s: Stores, config: Config, start: Timestamp, hours: int, interval: nat,
                               draws: nat -> nat -> Draw, net: nat -> CommitOutcomes)
    requires Covers(config) && interval > 0
    ensures var n := AccelTicks(NeverStopped, hours, interval);
      var total := Flatten(AccelBatches(config, start, interval, draws, n));
      && n == TickCount(hours, interval)
      && (forall k :: 0 <= k < n <==> 0 <= k && k * interval < 3600 * hours)
      && |total| == POINT_COUNT * n
      && Flatten(Chunks(total, CHUNK_SIZE)) == total
      && AcceleratedRun(db, s, config, start, hours, interval, NeverStopped, draws, net)
         == DeliverAll(db, Stores(AccelSaves(s.files, AccelBatches(config, start, interval, draws, n)), s.remote),
                       Chunks(total, CHUNK_SIZE), net)
  {
    var n := AccelTicks(NeverStopped, hours, interval);
    var bs := AccelBatches(config, start, interval, draws, n);
    forall k | 0 <= k
      ensures k < n <==> k * interval < 3600 * hours
    {
      TickCountMeaning(hours, interval, k);
    }
    AccelBatchesWidth(config, start, interval, draws, n);
    FlattenUniformLength(bs, POINT_COUNT);
    ChunksFlatten(Flatten(bs), CHUNK_SIZE);
    var chunks := Chunks(Flatten(bs), CHUNK_SIZE);
    assert chunks[..|chunks|] == chunks;
  }

  /** The walk's records in order: record 12k + i is point i's reading at start + k * d. */
  lemma AcceleratedRecordAt(config: Config, start: Timestamp, interval: nat, draws: nat -> nat -> Draw, n: nat, k: nat, i: nat)
    requires Covers(config) && k < n && i < POINT_COUNT
    ensures var total := Flatten(AccelBatches(config, start, interval, draws, n));
      |total| == POINT_COUNT * n && k * POINT_COUNT + i < |total|
      && total[k * POINT_COUNT + i] == RecordFor(config, PointId(i), TickTime(start, interval, k), draws(k)(i))
  {
    var bs := AccelBatches(config, start, interval, draws, n);
    AccelBatchesWidth(config, start, interval, draws, n);
    FlattenUniformAt(bs, POINT_COUNT, k, i);
    TickRecord(config, start, interval, draws, n, k, i);
  }

  lemma TickRecord(config: Config, start: Timestamp, interval: nat, draws: nat -> nat -> Draw, n: nat, k: nat, i: nat)
    requires Covers(config) && k < n && i < POINT_COUNT
    ensures |AccelBatches(config, start, interval, draws, n)[k]| == POINT_COUNT
    ensures AccelBatches(config, start, interval, draws, n)[k][i]
      == RecordFor(config, PointId(i), TickTime(start, interval, k), draws(k)(i))
  {
    AccelBatchesAt(config, start, interval, draws, n, k);
    RecordsAt(config, TickTime(start, interval, k), draws(k), POINT_COUNT, i);
  }

  /** A stop seen during the walk keeps every record local: the collection is
      untouched and only the output file has changed. */
  lemma AcceleratedStoppedDuringWalk(db: bool, s: Stores, config: Config, start: Timestamp, hours: int, interval: nat,
                                     sig: StopSignal, draws: nat -> nat -> Draw, net: nat -> CommitOutcomes)
    requires Covers(config) && interval > 0
    requires sig.StoppedFrom? && sig.check < TickCount(hours, interval)
    ensures AccelTicks(sig, hours, interval) == sig.check
    ensures AcceleratedRun(db, s, config, start, hours, interval, sig, draws, net)
      == Stores(AccelSaves(s.files, AccelBatches(config, start, interval, draws, sig.check)), s.remote)
  {
    var bs := AccelBatches(config, start, interval, draws, sig.check);
    var chunks := Chunks(Flatten(bs), CHUNK_SIZE);
    StopIsFinal(sig, sig.check, ChecksAfterTicks(sig, hours, interval), |chunks|);
    assert chunks[..0] == [];
  }

  /** A stop seen during the upload: the walk was complete and exactly the
      blocks before the stop were sent, which hold the first 400 * m records. */
  lemma AcceleratedStoppedDuringUpload(db: bool, s: Stores, config: Config, start: Timestamp, hours: int, interval: nat,
                                       sig: StopSignal, draws: nat -> nat -> Draw, net: nat -> CommitOutcomes)
    requires Covers(config) && interval > 0
    requires sig.StoppedFrom? && sig.check >= TickCount(hours, interval)
    ensures var n := TickCount(hours, interval);
      var total := Flatten(AccelBatches(config, start, interval, draws, n));
      var chunks := Chunks(total, CHUNK_SIZE);
      var m := IntMin(|chunks|, sig.check - n);
      && AccelTicks(sig, hours, interval) == n
      && AcceleratedRun(db, s, config, start, hours, interval, sig, draws, net)
         == DeliverAll(db, Stores(AccelSaves(s.files, AccelBatches(config, start, interval, draws, n)), s.remote), chunks[..m], net)
      && Flatten(chunks[..m]) == total[..IntMin(|total|, m * CHUNK_SIZE)]
  {
    var n := TickCount(hours, interval);
    var total := Flatten(AccelBatches(config, start, interval, draws, n));
    var chunks := Chunks(total, CHUNK_SIZE);
    ChunksPrefix(total, CHUNK_SIZE, IntMin(|chunks|, sig.check - n));
  }

  /** SimulationEngine: the point configurations, whether init_firestore
      produced a client, the local JSON files and the Firestore collection. */
  class SimulationEngine {
    var config: Config
    var dbAvailable: bool
    var files: Files
    var remote: seq<Reading>

    ghost predicate Valid()
      reads this
    {
      Covers(config)
    }

    function State(): Stores
      reads this
    {
      Stores(files, remote)
    }

    /** __init__: db is whether the Firestore client came up; disk and
        collection are what the files and the collection already hold. */
    constructor (db: bool, disk: Files, collection: seq<Reading>)
      ensures Valid()
      ensures config == InitialConfig() && dbAvailable == db && files == disk && remote == collection
    {
      config := InitialConfig();
      dbAvailable := db;
      files := disk;
      remote := collection;
    }

    /** save_point_config: the form's entries, already parsed as numbers,
        stored for the point named in the point box. */
    method SavePointConfig(pid: string, status: string, rule: string, p1: real, p2: real)
      requires Valid()
      modifies this
      ensures Valid()
      ensures config == old(config)[pid := ConfigFromForm(status, rule, p1, p2)]
      ensures dbAvailable == old(dbAvailable) && files == old(files) && remote == old(remote)
    {
      config := config[pid := ConfigFromForm(status, rule, p1, p2)];
    }

    /** guardar_local(data, filename). */
    method SaveLocal(data: Payload, filename: string)
      modifies this
      ensures files == AfterSave(old(files), filename, data)
      ensures config == old(config) && dbAvailable == old(dbAvailable) && remote == old(remote)
    {
      var existing := [];
      if filename in files && files[filename].JsonList? {
        existing := files[filename].items;
      }
      match data {
        case Many(xs) => existing := existing + xs;
        case One(x) => existing := existing + [x];
      }
      files := files[filename := JsonList(existing)];
    }

    /** The batch.set loop: one write staged per document, in order. */
    static method StageWrites(docs: seq<Reading>) returns (writes: seq<Reading>)
      ensures writes == docs
    {
      writes := [];
      for i := 0 to |docs|
        invariant writes == docs[..i]
      {
        writes := writes + [docs[i]];
      }
    }

    /** enviar_datos(data_batch), with the outcomes of its commits given by o. */
    method SendData(batch: seq<Reading>, o: CommitOutcomes) returns (ok: bool)
      modifies this
      ensures (State(), ok) == Deliver(old(dbAvailable), old(State()), batch, o)
      ensures config == old(config) && dbAvailable == old(dbAvailable)
    {
      if !dbAvailable {
        SaveLocal(Many(batch), UNSENT_FILE);
        return false;
      }
      if UNSENT_FILE in files && files[UNSENT_FILE].JsonList? {
        var unsent := files[UNSENT_FILE].items;
        if |unsent| > 0 {
          var staged := StageWrites(unsent);
          if o.retry {
            remote := remote + staged;
            SaveLocal(Many(unsent), SENT_FILE);
            files := files[UNSENT_FILE := NotJson];
          }
        }
      }
      var staged := StageWrites(batch);
      if o.batch {
        remote := remote + staged;
        SaveLocal(Many(batch), SENT_FILE);
        ok := true;
      } else {
        SaveLocal(Many(batch), UNSENT_FILE);
        ok := false;
      }
    }

    /** The `for pid in PUNTOS_ID` loop of both run loops. */
    method AssembleBatch(dt: Timestamp, draw: nat -> Draw) returns (batch: seq<Reading>)
      requires Valid()
      ensures batch == TickBatch(config, dt, draw)
    {
      var ids := PointIds();
      batch := [];
      for i := 0 to |ids|
        invariant batch == Records(config, dt, draw, i)
      {
        var pid := ids[i];
        var val := SimulateValue(config[pid], dt.hour, draw(i));
        var record := Reading(val, dt, config[pid].status, pid);
        batch := batch + [record];
      }
    }

    /** One tick that sends its batch: the batch is built and passed to
        enviar_datos as call number k of the run. */
    method RealtimeTick(ghost s0: Stores, k: nat, clock: nat -> Timestamp,
                        draws: nat -> nat -> Draw, net: nat -> CommitOutcomes)
      requires Valid()
      requires State() == DeliverAll(dbAvailable, s0, RealtimeBatches(config, clock, draws, k), net)
      modifies this
      ensures config == old(config) && dbAvailable == old(dbAvailable)
      ensures State() == DeliverAll(dbAvailable, s0, RealtimeBatches(config, clock, draws, k + 1), net)
    {
      var batch := AssembleBatch(clock(k), draws(k));
      DeliverAllStep(dbAvailable, s0, RealtimeBatches(config, clock, draws, k), batch, net);
      var _ := SendData(batch, net(k));
    }

    /** run_realtime: one batch per tick, each sent at once, until the stop
        flag is found set (the loop only ends that way). Tick k reads the
        clock as clock(k) and its points draw draws(k); the k-th send has
        commit outcomes net(k). */
    method RunRealtime(sig: StopSignal, clock: nat -> Timestamp, draws: nat -> nat -> Draw, net: nat -> CommitOutcomes)
      requires Valid() && sig.StoppedFrom?
      modifies this
      ensures Valid() && config == old(config) && dbAvailable == old(dbAvailable)
      ensures State() == DeliverAll(dbAvailable, old(State()), RealtimeBatches(config, clock, draws, sig.check), net)
    {
      ghost var s0 := State();
      var k := 0;
      while !IsSet(sig, k)
        invariant config == old(config) && dbAvailable == old(dbAvailable)
        invariant k <= sig.check
        invariant State() == DeliverAll(dbAvailable, s0, RealtimeBatches(config, clock, draws, k), net)
        decreases sig.check - k
      {
        RealtimeTick(s0, k, clock, draws, net);
        k := k + 1;
      }
      assert k == sig.check;
    }

    /** After k ticks of the walk from start: the output file has received
        their batches, total holds their records in order and the clock shows
        tick k's moment. */
    ghost predicate WalkedTo(files0: Files, start: Timestamp, interval: nat, draws: nat -> nat -> Draw,
                             k: nat, total: seq<Reading>, current: Timestamp)
      reads this
    {
      && Valid()
      && files == AccelSaves(files0, AccelBatches(config, start, interval, draws, k))
      && total == Flatten(AccelBatches(config, start, interval, draws, k))
      && current == TickTime(start, interval, k)
    }

    /** One tick of the accelerated walk: the batch at the current time is
        built, appended to FILE_ACCEL_OUTPUT and to the accumulated records,
        and the clock moves on by one interval. */
    method AcceleratedTick(ghost files0: Files, start: Timestamp, interval: nat, k: nat,
                           current: Timestamp, total: seq<Reading>, draws: nat -> nat -> Draw)
      returns (total': seq<Reading>, current': Timestamp)
      requires WalkedTo(files0, start, interval, draws, k, total, current)
      modifies this
      ensures config == old(config) && dbAvailable == old(dbAvailable) && remote == old(remote)
      ensures WalkedTo(files0, start, interval, draws, k + 1, total', current')
    {
      var batch := AssembleBatch(current, draws(k));
      AccelStep(config, start, interval, draws, k, files0);
      SaveLocal(Many(batch), ACCEL_FILE);
      total' := total + batch;
      TickAdvance(start, interval, k);
      current' := AddSeconds(current, interval);
    }

    /** The `while current_time < end_time and not stop_event.is_set()` loop:
        returns the accumulated records and how many times it tested the flag. */
    method WalkTime(start: Timestamp, hours: int, interval: nat, sig: StopSignal, draws: nat -> nat -> Draw)
      returns (total: seq<Reading>, checks: nat)
      requires Valid() && interval > 0
      modifies this
      ensures config == old(config) && dbAvailable == old(dbAvailable) && remote == old(remote)
      ensures total == Flatten(AccelBatches(config, start, interval, draws, AccelTicks(sig, hours, interval)))
      ensures files == AccelSaves(old(files), AccelBatches(config, start, interval, draws, AccelTicks(sig, hours, interval)))
      ensures checks == ChecksAfterTicks(sig, hours, interval)
    {
      var horizon := 3600 * hours;
      var current := start;
      var elapsed: nat := 0;
      var k: nat := 0;
      total := [];
      AddSecondsZero(start);
      assert WalkedTo(old(files), start, interval, draws, 0, total, current);
      while elapsed < horizon && !IsSet(sig, k)
        invariant config == old(config) && dbAvailable == old(dbAvailable) && remote == old(remote)
        invariant elapsed == k * interval
        invariant k <= AccelTicks(sig, hours, interval)
        invariant WalkedTo(old(files), start, interval, draws, k, total, current)
        decreases horizon - elapsed
      {
        WalkStep(sig, hours, interval, k);
        total, current := AcceleratedTick(old(files), start, interval, k, current, total, draws);
        TickAdvance(start, interval, k);
        elapsed := elapsed + interval;
        k := k + 1;
      }
      WalkEnd(sig, hours, interval, k);
      checks := if elapsed < horizon then k + 1 else k;
    }

    /** One pass of the upload loop: block j goes to enviar_datos. */
    method UploadChunk(ghost s0: Stores, ghost chunks: seq<seq<Reading>>, j: nat, chunk: seq<Reading>,
                       net: nat -> CommitOutcomes)
      requires j < |chunks| && chunk == chunks[j]
      requires State() == DeliverAll(dbAvailable, s0, chunks[..j], net)
      modifies this
      ensures config == old(config) && dbAvailable == old(dbAvailable)
      ensures State() == DeliverAll(dbAvailable, s0, chunks[..j + 1], net)
    {
      assert chunks[..j + 1] == chunks[..j] + [chunk];
      DeliverAllStep(dbAvailable, s0, chunks[..j], chunk, net);
      var _ := SendData(chunk, net(j));
    }

    /** The `for i in range(0, len(total_records), chunk_size)` loop, whose
        flag tests are numbered from `checks` on. */
    method UploadBlocks(total: seq<Reading>, checks: nat, sig: StopSignal, net: nat -> CommitOutcomes)
      modifies this
      ensures config == old(config) && dbAvailable == old(dbAvailable)
      ensures State() == DeliverAll(dbAvailable, old(State()),
        Chunks(total, CHUNK_SIZE)[..Passing(sig, checks, |Chunks(total, CHUNK_SIZE)|)], net)
    {
      ghost var chunks := Chunks(total, CHUNK_SIZE);
      ghost var s0 := State();
      ChunksIndex(total, CHUNK_SIZE);
      var i: nat := 0;
      var j: nat := 0;
      assert chunks[..0] == [];
      while i < |total| && !IsSet(sig, checks + j)
        invariant config == old(config) && dbAvailable == old(dbAvailable)
        invariant i == j * CHUNK_SIZE
        invariant j <= |chunks|
        invariant forall c :: checks <= c < checks + j ==> !IsSet(sig, c)
        invariant State() == DeliverAll(dbAvailable, s0, chunks[..j], net)
        decreases |total| - i
      {
        CeilDivBound(|total|, CHUNK_SIZE, j);
        var chunk := total[i..IntMin(|total|, i + CHUNK_SIZE)];
        assert chunk == chunks[j];
        UploadChunk(s0, chunks, j, chunk, net);
        i := i + CHUNK_SIZE;
        j := j + 1;
      }
      UploadEnd(sig, checks, |total|, j);
    }

    /** run_accelerated. start is the parsed start entry (None when it does
        not parse) and hours the duration. An unreadable recurrence raises
        ValueError out of the thread before anything is written. Tick k's
        points draw draws(k); the j-th block is sent with commit outcomes net(j). */
    method RunAccelerated(start: Option<Timestamp>, hours: int, recurrence: RecurrenceEntry, sig: StopSignal,
                          draws: nat -> nat -> Draw, net: nat -> CommitOutcomes)
      requires Valid() && (IntervalOf(recurrence).Some? ==> IntervalOf(recurrence).value > 0)
      modifies this
      ensures Valid() && config == old(config) && dbAvailable == old(dbAvailable)
      ensures start.None? || recurrence.NotANumber? ==> State() == old(State())
      ensures start.Some? && !recurrence.NotANumber? ==>
        State() == AcceleratedRun(dbAvailable, old(State()), config, start.value, hours, IntervalOf(recurrence).value, sig, draws, net)
    {
      if start.None? {
        return;
      }
      var step := IntervalOf(recurrence);
      if step.None? {
        return;
      }
      var interval: nat := step.value;
      var total, checks := WalkTime(start.value, hours, interval, sig, draws);
      UploadBlocks(total, checks, sig, net);
    }
  }
}
