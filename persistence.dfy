/** The local JSON files and the remote collection the simulator writes to,
    and what guardar_local and enviar_datos do to them, as functions of
    the state before the call. SimulationEngine's methods are proved
    against these functions. */
module Persistence {
  import opened Calendar
  import opened Chunking

  const SENT_FILE := "datos_enviados.json"
  const UNSENT_FILE := "datos_no_enviados.json"
  const ACCEL_FILE := "salida_acelerada.json"

  /** One simulated reading: consumo_kwh, the moment whose display text is
      its fecha, estado and id_punto. */
  datatype Reading = Reading(kwh: real, at: Timestamp, status: string, pointId: string)

  /** What a local file holds: a JSON list of readings, or text json.load
      rejects (among it the empty file the retry phase leaves behind). */
  datatype FileContent = JsonList(items: seq<Reading>) | NotJson

  type Files = map<string, FileContent>

  /** The argument of guardar_local: a list is appended element by element,
      anything else as one element. */
  datatype Payload = Many(items: seq<Reading>) | One(item: Reading)

  function Items(p: Payload): seq<Reading> {
    match p
    case Many(xs) => xs
    case One(x) => [x]
  }

  /** What guardar_local starts from: the file's list, or [] when the file
      is absent or does not decode. */
  function Stored(files: Files, name: string): seq<Reading> {
    if name in files && files[name].JsonList? then files[name].items else []
  }

  /** The records waiting in the unsent queue and the records in the sent archive. */
  function Pending(files: Files): seq<Reading> {
    Stored(files, UNSENT_FILE)
  }

  function Archived(files: Files): seq<Reading> {
    Stored(files, SENT_FILE)
  }

  /** The files after guardar_local(data, name). */
  function AfterSave(files: Files, name: string, data: Payload): Files {
    files[name := JsonList(Stored(files, name) + Items(data))]
  }

  /** Reading back a saved file gives what it held, or [] when it did not
      decode, followed by the data; every other file is untouched. */
  lemma SaveAppends(files: Files, name: string, data: Payload)
    ensures Stored(AfterSave(files, name, data), name) == Stored(files, name) + Items(data)
    ensures |Stored(AfterSave(files, name, data), name)| == |Stored(files, name)| + |Items(data)|
    ensures Stored(AfterSave(files, name, data), name)[..|Stored(files, name)|] == Stored(files, name)
    ensures forall other :: other != name ==>
      (other in AfterSave(files, name, data) <==> other in files) &&
      (other in files ==> AfterSave(files, name, data)[other] == files[other])
  {
    var old_ := Stored(files, name);
    assert (old_ + Items(data))[..|old_|] == old_;
  }

  /** A list payload is appended as its elements, a single record as one more element. */
  lemma SavePayloadShapes(files: Files, name: string, xs: seq<Reading>, x: Reading)
    ensures Stored(AfterSave(files, name, Many(xs)), name) == Stored(files, name) + xs
    ensures Stored(AfterSave(files, name, One(x)), name) == Stored(files, name) + [x]
    ensures AfterSave(files, name, One(x)) == AfterSave(files, name, Many([x]))
  {
  }

  /** The writable state enviar_datos touches: the local files and the
      Firestore collection, as the sequence of documents committed to it. */
  datatype Stores = Stores(files: Files, remote: seq<Reading>)

  /** The outcomes of the (at most) two commits of one enviar_datos call. */
  datatype CommitOutcomes = CommitOutcomes(retry: bool, batch: bool)

  /** The retry phase finds a non-empty list in the unsent file. */
  predicate HasQueue(files: Files) {
    UNSENT_FILE in files && files[UNSENT_FILE].JsonList? && |files[UNSENT_FILE].items| > 0
  }

  /** Phase 1 of enviar_datos: a decodable, non-empty queue is committed in one
      batch; when that commit succeeds it is archived in the sent file and the
      unsent file is truncated to empty text. Otherwise nothing changes. */
  function Retry(s: Stores, committed: bool): Stores {
    if HasQueue(s.files) && committed then
      var q := s.files[UNSENT_FILE].items;
      Stores(AfterSave(s.files, SENT_FILE, Many(q))[UNSENT_FILE := NotJson], s.remote + q)
    else s
  }

  /** enviar_datos(batch): the new stores and the returned flag. Without a
      database handle the batch is only queued; otherwise the queue is retried
      and then the batch is committed, archived on success and queued on failure. */
  function Deliver(db: bool, s: Stores, batch: seq<Reading>, o: CommitOutcomes): (Stores, bool) {
    if !db then (Stores(AfterSave(s.files, UNSENT_FILE, Many(batch)), s.remote), false)
    else
      var r := Retry(s, o.retry);
      if o.batch then (Stores(AfterSave(r.files, SENT_FILE, Many(batch)), r.remote + batch), true)
      else (Stores(AfterSave(r.files, UNSENT_FILE, Many(batch)), r.remote), false)
  }

  /** Both archives are untouched for every file except the two queues. */
  ghost predicate OthersUnchanged(before: Files, after: Files) {
    forall f :: f != SENT_FILE && f != UNSENT_FILE ==>
      (f in after <==> f in before) && (f in before ==> after[f] == before[f])
  }

  /** The retry phase: a successful commit of a non-empty queue moves it to the
      sent archive and the remote collection and leaves the queue empty; a
      failed commit, an undecodable file or an empty or absent queue changes nothing. */
  lemma RetryOutcome(s: Stores, committed: bool)
    ensures HasQueue(s.files) && committed ==>
      var q := Pending(s.files);
      && Archived(Retry(s, committed).files) == Archived(s.files) + q
      && Retry(s, committed).remote == s.remote + q
      && Pending(Retry(s, committed).files) == []
    ensures !(HasQueue(s.files) && committed) ==> Retry(s, committed) == s
    ensures OthersUnchanged(s.files, Retry(s, committed).files)
  {
  }

  /** The current batch: the flag is true exactly when there is a handle and
      the batch commit succeeds; then the batch is archived and committed and
      the queue is as the retry phase left it; otherwise the batch is queued
      and neither the archive nor the collection receives it. */
  lemma DeliverOutcome(db: bool, s: Stores, batch: seq<Reading>, o: CommitOutcomes)
    ensures var (t, ok) := Deliver(db, s, batch, o);
      var r := if db then Retry(s, o.retry) else s;
      && (ok <==> db && o.batch)
      && (ok ==> Archived(t.files) == Archived(r.files) + batch && t.remote == r.remote + batch
                  && Pending(t.files) == Pending(r.files))
      && (!ok ==> Pending(t.files) == Pending(r.files) + batch && t.remote == r.remote
                  && Archived(t.files) == Archived(r.files))
      && OthersUnchanged(s.files, t.files)
  {
    RetryOutcome(s, o.retry);
  }

  /** Nothing is lost or duplicated: what was queued or committed before,
      plus the batch, is what is queued or committed after. */
  lemma DeliverConserves(db: bool, s: Stores, batch: seq<Reading>, o: CommitOutcomes)
    ensures var t := Deliver(db, s, batch, o).0;
      multiset(Pending(t.files)) + multiset(t.remote)
        == multiset(Pending(s.files)) + multiset(s.remote) + multiset(batch)
  {
    RetryOutcome(s, o.retry);
    DeliverOutcome(db, s, batch, o);
  }

  /** From s to t the collection only grows, and the sent archive grows by
      exactly the documents the collection received, in the same order. */
  predicate Mirrors(s: Stores, t: Stores) {
    && |s.remote| <= |t.remote| && t.remote[..|s.remote|] == s.remote
    && Archived(t.files) == Archived(s.files) + t.remote[|s.remote|..]
  }

  lemma MirrorsByDelta(s: Stores, t: Stores, delta: seq<Reading>)
    requires Archived(t.files) == Archived(s.files) + delta && t.remote == s.remote + delta
    ensures Mirrors(s, t)
  {
    assert t.remote[..|s.remote|] == s.remote;
    assert t.remote[|s.remote|..] == delta;
  }

  lemma MirrorsTransitive(a: Stores, b: Stores, c: Stores)
    requires Mirrors(a, b) && Mirrors(b, c)
    ensures Mirrors(a, c)
  {
    var d1 := b.remote[|a.remote|..];
    var d2 := c.remote[|b.remote|..];
    assert b.remote == a.remote + d1;
    assert c.remote == b.remote + d2;
    MirrorsByDelta(a, c, d1 + d2);
  }

  /** The sent archive grows by exactly what the collection receives, in the same order. */
  lemma DeliverMirrors(db: bool, s: Stores, batch: seq<Reading>, o: CommitOutcomes)
    ensures Mirrors(s, Deliver(db, s, batch, o).0)
  {
    RetryOutcome(s, o.retry);
    DeliverOutcome(db, s, batch, o);
    var t := Deliver(db, s, batch, o).0;
    var r := if db then Retry(s, o.retry) else s;
    var q := if db && HasQueue(s.files) && o.retry then Pending(s.files) else [];
    var b := if db && o.batch then batch else [];
    assert Archived(r.files) == Archived(s.files) + q && r.remote == s.remote + q;
    assert Archived(t.files) == Archived(s.files) + (q + b);
    assert t.remote == s.remote + (q + b);
    MirrorsByDelta(s, t, q + b);
  }

  /** Delivering a sequence of batches, one enviar_datos call each, with the
      i-th call's commit outcomes outcome(i). */
  function DeliverAll(db: bool, s: Stores, batches: seq<seq<Reading>>, outcome: nat -> CommitOutcomes): Stores
    decreases |batches|
  {
    if |batches| == 0 then s
    else Deliver(db, DeliverAll(db, s, batches[..|batches| - 1], outcome), batches[|batches| - 1],
                 outcome(|batches| - 1)).0
  }

  /** One more call after a sequence of calls. */
  lemma DeliverAllStep(db: bool, s: Stores, batches: seq<seq<Reading>>, b: seq<Reading>, outcome: nat -> CommitOutcomes)
    ensures DeliverAll(db, s, batches + [b], outcome)
      == Deliver(db, DeliverAll(db, s, batches, outcome), b, outcome(|batches|)).0
  {
    assert (batches + [b])[..|batches|] == batches;
  }

  /** Over any number of calls the records are conserved and the archive keeps
      mirroring the collection. */
  lemma {:induction false} DeliverAllConserves(db: bool, s: Stores, batches: seq<seq<Reading>>, outcome: nat -> CommitOutcomes)
    ensures var t := DeliverAll(db, s, batches, outcome);
      multiset(Pending(t.files)) + multiset(t.remote)
        == multiset(Pending(s.files)) + multiset(s.remote) + multiset(Flatten(batches))
    ensures Mirrors(s, DeliverAll(db, s, batches, outcome))
    decreases |batches|
  {
    if |batches| == 0 {
      MirrorsByDelta(s, s, []);
    } else {
      var n := |batches| - 1;
      var m := DeliverAll(db, s, batches[..n], outcome);
      DeliverAllConserves(db, s, batches[..n], outcome);
      DeliverConserves(db, m, batches[n], outcome(n));
      DeliverMirrors(db, m, batches[n], outcome(n));
      MirrorsTransitive(s, m, DeliverAll(db, s, batches, outcome));
    }
  }

  /** The store-and-forward story: with a handle, a batch whose commit fails
      is queued; the next call, whose commits succeed, commits the queued batch
      first and then its own, both end up archived in that order, and the queue is empty. */
  lemma FailedBatchIsForwardedNextTime(s: Stores, b1: seq<Reading>, b2: seq<Reading>)
    requires Pending(s.files) == [] && |b1| > 0
    ensures var (t1, ok1) := Deliver(true, s, b1, CommitOutcomes(true, false));
      var (t2, ok2) := Deliver(true, t1, b2, CommitOutcomes(true, true));
      && !ok1 && ok2
      && Pending(t1.files) == b1 && t1.remote == s.remote
      && t2.remote == s.remote + b1 + b2
      && Archived(t2.files) == Archived(s.files) + b1 + b2
      && Pending(t2.files) == []
  {
    var (t1, ok1) := Deliver(true, s, b1, CommitOutcomes(true, false));
    RetryOutcome(s, true);
    DeliverOutcome(true, s, b1, CommitOutcomes(true, false));
    assert HasQueue(t1.files);
    RetryOutcome(t1, true);
    DeliverOutcome(true, t1, b2, CommitOutcomes(true, true));
  }
}
