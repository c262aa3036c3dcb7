/** Log shipping: the leader's reader and stream, the follower's apply
    (crates/latlng-core/src/admin.rs, crates/latlng-capnp/src/streams.rs). */
module Replication {
  import opened Types
  import opened Fields
  import opened Geometry
  import opened Catalog
  import opened Compaction
  import opened Agreement
  import Geohash

  // The leader.

  /** The leader's log: every record under its number, from 1 without gaps. */
  function LeaderLog(records: seq<Record>): seq<Entry> {
    Numbered(1, records)
  }

  /** The entries after a number, at most `max` of them (and at least one if any). */
  function Fetched(log: seq<Entry>, after: nat, max: nat): seq<Entry> {
    var from := Min(after, |log|);
    log[from..Min(from + AtLeastOne(max), |log|)]
  }

  /** `storage_entries_after`: the backend replays everything after a number in order. */
  method StorageEntriesAfter(records: seq<Record>, after: nat, max: nat) returns (entries: seq<Entry>)
    ensures entries == Fetched(LeaderLog(records), after, max)
  {
    var log := LeaderLog(records);
    var limit := AtLeastOne(max);
    entries := [];
    for i := 0 to |log|
      invariant entries == Fetched(log[..i], after, max)
    {
      if log[i].number > after && |entries| < limit {
        entries := entries + [log[i]];
      }
      FetchedGrows(log, i, after, max);
    }
    assert log[..|log|] == log;
  }

  lemma FetchedIs(log: seq<Entry>, i: nat, after: nat, max: nat)
    requires i <= |log|
    ensures Fetched(log[..i], after, max) == if after < i then log[after..Min(after + AtLeastOne(max), i)] else []
  {
    if after < i {
      var to := Min(after + AtLeastOne(max), i);
      assert log[..i][after..to] == log[after..to];
    }
  }

  lemma FetchedGrows(log: seq<Entry>, i: nat, after: nat, max: nat)
    requires i < |log| && log[i].number == i + 1
    ensures Fetched(log[..i + 1], after, max) ==
      if log[i].number > after && |Fetched(log[..i], after, max)| < AtLeastOne(max)
      then Fetched(log[..i], after, max) + [log[i]] else Fetched(log[..i], after, max)
  {
    hide Fetched;
    FetchedIs(log, i, after, max);
    FetchedIs(log, i + 1, after, max);
    if after <= i < after + AtLeastOne(max) {
      assert log[after..i + 1] == log[after..i] + [log[i]];
    }
  }

  /** `ReplicationStreamRpc`: consecutive batches neither skip nor repeat an entry. */
  class ReplicationStream {
    var afterSequence: nat
    const batchSize: nat

    constructor (afterSequence: nat, batchSize: nat)
      ensures this.afterSequence == afterSequence && this.batchSize == AtLeastOne(batchSize)
    {
      this.afterSequence := afterSequence;
      this.batchSize := AtLeastOne(batchSize);
    }

    /** One round of `next`; it waits when there is nothing to send. */
    method Next(records: seq<Record>) returns (batch: Option<seq<Entry>>)
      modifies this
      ensures batch.None? <==> old(afterSequence) >= |records|
      ensures batch.None? ==> afterSequence == old(afterSequence)
      ensures batch.Some? ==> old(afterSequence) < afterSequence <= |records|
      ensures batch.Some? ==> batch.value == LeaderLog(records)[old(afterSequence)..afterSequence]
    {
      var entries := StorageEntriesAfter(records, afterSequence, batchSize);
      if entries == [] {
        return None;
      }
      var log := LeaderLog(records);
      afterSequence := entries[|entries| - 1].number;
      batch := Some(entries);
    }
  }

  // The follower.

  datatype Replica = Replica(log: seq<Entry>, next: nat, db: Db)

  const BLANK := Replica([], 0, EMPTY)

  datatype ReplicationError = SequenceRegression(expected: nat, actual: nat) | StorageFailed | NotReplayable

  /** The follower's state after a batch that it accepts. */
  function Accepted(env: Env, f: Replica, batch: seq<Entry>, now: nat): Replica
    requires batch != []
  {
    Replica(f.log + batch, batch[|batch| - 1].number, PurgeDb(now, ReplayFrom(env, f.db, Records(batch))))
  }

  predicate AllReplayable(env: Env, batch: seq<Entry>) {
    forall i :: 0 <= i < |batch| ==> Replayable(env, batch[i].record)
  }

  /** The position of the first record that cannot be replayed. */
  function FirstBad(env: Env, batch: seq<Entry>): (k: nat)
    ensures k <= |batch| && AllReplayable(env, batch[..k])
    ensures k < |batch| ==> !Replayable(env, batch[k].record)
  {
    if batch == [] || !Replayable(env, batch[0].record) then 0
    else
      var k := FirstBad(env, batch[1..]);
      assert forall i :: 0 < i < 1 + k ==> batch[i] == batch[1..][..k][i - 1];
      1 + k
  }

  lemma FirstBadAt(env: Env, batch: seq<Entry>, k: nat)
    requires k < |batch| && AllReplayable(env, batch[..k]) && !Replayable(env, batch[k].record)
    ensures FirstBad(env, batch) == k
  {
  }

  lemma ReplayableNext(env: Env, batch: seq<Entry>, i: nat)
    requires i < |batch| && AllReplayable(env, batch[..i]) && Replayable(env, batch[i].record)
    ensures AllReplayable(env, batch[..i + 1])
  {
    hide Replayable;
    assert batch[..i + 1] == batch[..i] + [batch[i]];
  }

  /** What a set that fails for want of an envelope still does: its collection exists. */
  function Failed(db: Db, r: Record): Db {
    if r.Cmd? && r.command.SetPersisted? then WithObjects(db, r.command.coll, ObjectsOf(db, r.command.coll)) else db
  }

  /** The database left by replaying a log up to its first unreplayable record. */
  function Rebuilt(env: Env, db: Db, log: seq<Entry>): Db {
    var k := FirstBad(env, log);
    var done := ReplayFrom(env, db, Records(log[..k]));
    if k < |log| then Failed(done, log[k].record) else done
  }

  /** The follower's state after a batch that it stores but cannot replay. */
  function Stuck(env: Env, f: Replica, batch: seq<Entry>): Replica {
    Replica(f.log + batch, f.next, Rebuilt(env, f.db, batch))
  }

  /** The backend takes a batch of increasing numbers above those it has. */
  predicate Takes(log: seq<Entry>, batch: seq<Entry>) {
    Ascending(batch) && (log != [] && batch != [] ==> batch[0].number > log[|log| - 1].number)
  }

  /** The backend stores the batch as the next one. */
  predicate StoresNext(f: Replica, batch: seq<Entry>, stored: bool) {
    batch != [] && batch[0].number == f.next + 1 && stored && Takes(f.log, batch)
  }

  /** A delivery: refused, accepted, or stored and then given up on. */
  function Delivered(env: Env, f: Replica, batch: seq<Entry>, now: nat, stored: bool): Replica {
    if !StoresNext(f, batch, stored) then f
    else if AllReplayable(env, batch) then Accepted(env, f, batch, now)
    else Stuck(env, f, batch)
  }

  class Follower {
    const env: Env
    var log: seq<Entry>
    var nextSequence: nat
    var db: Db

    function State(): Replica
      reads this
    {
      Replica(log, nextSequence, db)
    }

    constructor (env: Env)
      ensures State() == BLANK && this.env == env
    {
      this.env := env;
      log, nextSequence, db := [], 0, EMPTY;
    }

    /** `apply_replicated_entries`: a batch is accepted only if it continues the log.
        `stored` says whether the disk did its part; `now` is the clock of the sweep. */
    method ApplyReplicatedEntries(entries: seq<Entry>, now: nat, stored: bool)
      returns (r: Result<nat, ReplicationError>)
      modifies this
      ensures State() == Delivered(env, old(State()), entries, now, stored)
      ensures r.Ok? ==> r.value == nextSequence
      ensures r.Ok? <==> entries == [] || (StoresNext(old(State()), entries, stored) && AllReplayable(env, entries))
      ensures r.Err? && entries[0].number != old(nextSequence) + 1 ==>
        r.error == SequenceRegression(old(nextSequence) + 1, entries[0].number)
      ensures r.Err? && entries[0].number == old(nextSequence) + 1 ==>
        r.error == if StoresNext(old(State()), entries, stored) then NotReplayable else StorageFailed
    {
      if entries == [] {
        return Ok(nextSequence);
      }
      var expected := nextSequence + 1;
      if entries[0].number != expected {
        return Err(SequenceRegression(expected, entries[0].number));
      }
      hide Apply, Replayable, Failed, Ascending;
      if !stored || !Takes(log, entries) {
        return Err(StorageFailed);
      }
      log := log + entries;
      assert entries[..0] == [];
      for i := 0 to |entries|
        invariant db == ReplayFrom(env, old(db), Records(entries[..i]))
        invariant AllReplayable(env, entries[..i])
        invariant log == old(log) + entries && nextSequence == old(nextSequence)
      {
        if !Replayable(env, entries[i].record) {
          FirstBadAt(env, entries, i);
          db := Failed(db, entries[i].record);
          return Err(NotReplayable);
        }
        assert Records(entries[..i + 1])[..i] == Records(entries[..i]);
        ReplayableNext(env, entries, i);
        db := Apply(env, db, entries[i].record);
      }
      assert entries[..|entries|] == entries;
      nextSequence := entries[|entries| - 1].number;
      db := PurgeDb(now, db);
      r := Ok(nextSequence);
    }
  }

  // Runs. Batches once sent stay deliverable, so they may be lost, repeated, late
  // or out of order.

  datatype System = System(leader: seq<Record>, follower: Replica, sent: seq<seq<Entry>>)

  datatype Event =
    | Grow(records: seq<Record>)
    | Fetch(after: nat, max: nat)
    | Deliver(which: nat, now: nat, stored: bool)

  function Happened(env: Env, s: System, e: Event): System {
    match e
    case Grow(records) => s.(leader := s.leader + records)
    case Fetch(after, max) => s.(sent := s.sent + [Fetched(LeaderLog(s.leader), after, max)])
    case Deliver(which, now, stored) =>
      if which < |s.sent| then s.(follower := Delivered(env, s.follower, s.sent[which], now, stored)) else s
  }

  function Ran(env: Env, events: seq<Event>): System {
    if events == [] then System([], BLANK, [])
    else Happened(env, Ran(env, events[..|events| - 1]), events[|events| - 1])
  }

  /** The batch is a stretch of the leader's log. */
  ghost predicate Stretch(batch: seq<Entry>, leader: seq<Record>) {
    batch == [] ||
    (1 <= batch[0].number && batch[0].number - 1 + |batch| <= |leader| &&
     batch == LeaderLog(leader)[batch[0].number - 1..batch[0].number - 1 + |batch|])
  }

  /** The follower's log is a prefix of the leader's; its counter is the length of it
      exactly as long as every record in it can be replayed. */
  ghost predicate Follows(env: Env, s: System) {
    |s.follower.log| <= |s.leader| && s.follower.log == LeaderLog(s.leader)[..|s.follower.log|] &&
    s.follower.next <= |s.follower.log| &&
    (s.follower.next == |s.follower.log| <==> AllReplayable(env, s.follower.log)) &&
    forall i :: 0 <= i < |s.sent| ==> Stretch(s.sent[i], s.leader)
  }

  lemma GrowthKeepsPrefix(leader: seq<Record>, more: seq<Record>, n: nat, m: nat)
    requires n <= m <= |leader|
    ensures LeaderLog(leader + more)[n..m] == LeaderLog(leader)[n..m]
  {
  }

  lemma FetchedIsStretch(leader: seq<Record>, after: nat, max: nat)
    ensures Stretch(Fetched(LeaderLog(leader), after, max), leader)
  {
  }

  lemma StretchContinues(log: seq<Entry>, batch: seq<Entry>, leader: seq<Record>)
    requires |log| <= |leader| && log == LeaderLog(leader)[..|log|]
    requires Stretch(batch, leader) && batch != [] && batch[0].number == |log| + 1
    ensures |log + batch| <= |leader| && log + batch == LeaderLog(leader)[..|log + batch|]
    ensures batch[|batch| - 1].number == |log + batch| && Takes(log, batch)
  {
    var all := LeaderLog(leader);
    assert batch[|batch| - 1] == all[|log| + |batch| - 1];
    assert log != [] ==> log[|log| - 1] == all[|log| - 1];
    assert forall i :: 0 <= i < |batch| ==> batch[i] == all[|log| + i];
  }

  lemma ReplayableJoin(env: Env, a: seq<Entry>, b: seq<Entry>)
    ensures AllReplayable(env, a + b) <==> AllReplayable(env, a) && AllReplayable(env, b)
  {
    hide Replayable;
    if AllReplayable(env, a + b) {
      assert forall i :: 0 <= i < |a| ==> a[i] == (a + b)[i];
      assert forall i :: 0 <= i < |b| ==> b[i] == (a + b)[|a| + i];
    }
  }

  /** A follower whose counter is behind its log refuses every batch from then on. */
  lemma {:induction false} StuckForGood(env: Env, s: System, e: Event)
    requires Follows(env, s) && s.follower.next < |s.follower.log|
    ensures Happened(env, s, e).follower == s.follower
  {
    hide AllReplayable, Stretch, Fetched, Accepted, Stuck, Ascending;
  }

  /** Only a batch in ascending order that continues the counter and lies above the log
      is stored, and then at the end of it. */
  lemma {:induction false} DeliveryContinues(env: Env, f: Replica, batch: seq<Entry>, now: nat, stored: bool)
    requires Delivered(env, f, batch, now, stored) != f
    ensures stored && batch != [] && batch[0].number == f.next + 1
    ensures forall i, j :: 0 <= i < j < |batch| ==> batch[i].number < batch[j].number
    ensures f.log != [] ==> f.log[|f.log| - 1].number < batch[0].number
    ensures Delivered(env, f, batch, now, stored).log == f.log + batch
  {
    hide Rebuilt, PurgeDb, ReplayFrom, AllReplayable;
  }

  /** A delivery leaves the counter of a follower that is in step equal to the length
      of its log exactly when it refuses the batch or can replay all of it. */
  lemma {:induction false} DeliveryKeepsStepIff(
      env: Env, f: Replica, batch: seq<Entry>, now: nat, stored: bool, leader: seq<Record>)
    requires f.next == |f.log| <= |leader| && f.log == LeaderLog(leader)[..|f.log|] && Stretch(batch, leader)
    ensures var g := Delivered(env, f, batch, now, stored);
            |g.log| <= |leader| && g.log == LeaderLog(leader)[..|g.log|] && f.next <= g.next <= |g.log| &&
            g.log == (if StoresNext(f, batch, stored) then f.log + batch else f.log) &&
            (g.next == |g.log| <==> !StoresNext(f, batch, stored) || AllReplayable(env, batch))
  {
    hide AllReplayable, Rebuilt, PurgeDb, ReplayFrom, Takes;
    if StoresNext(f, batch, stored) {
      StretchContinues(f.log, batch, leader);
    }
    hide LeaderLog, Stretch;
  }

  lemma {:induction false} EventKeepsFollowing(env: Env, s: System, e: Event)
    requires Follows(env, s)
    ensures Follows(env, Happened(env, s, e))
  {
    hide AllReplayable;
    match e {
      case Grow(records) =>
        GrowthKeepsPrefix(s.leader, records, 0, |s.follower.log|);
        forall i | 0 <= i < |s.sent| ensures Stretch(s.sent[i], s.leader + records) {
          var batch := s.sent[i];
          if batch != [] {
            GrowthKeepsPrefix(s.leader, records, batch[0].number - 1, batch[0].number - 1 + |batch|);
          }
        }
      case Fetch(after, max) =>
        FetchedIsStretch(s.leader, after, max);
        hide Fetched, LeaderLog, Stretch;
      case Deliver(which, now, stored) =>
        if s.follower.next < |s.follower.log| {
          StuckForGood(env, s, e);
        } else if which < |s.sent| {
          var f, batch := s.follower, s.sent[which];
          DeliveryKeepsStepIff(env, f, batch, now, stored, s.leader);
          ReplayableJoin(env, f.log, batch);
        }
        hide Delivered, LeaderLog, Stretch, StoresNext;
    }
  }

  /** In every run, with batches lost, repeated, stale or reordered, the follower's
      log is a prefix of the leader's, and its counter is the length of it if and
      only if that prefix can be replayed. */
  lemma {:induction false} FollowerHasPrefix(env: Env, events: seq<Event>)
    ensures Follows(env, Ran(env, events))
  {
    if events != [] {
      FollowerHasPrefix(env, events[..|events| - 1]);
      EventKeepsFollowing(env, Ran(env, events[..|events| - 1]), events[|events| - 1]);
    }
  }

  /** A set whose geohash does not decode. */
  const BAD := Cmd(SetPersisted("fleet", "a", Hash("!"), [], None))

  const BAD_RUN := [Grow([BAD]), Fetch(0, 1), Deliver(0, 0, true)]

  lemma BadIsUnreplayable(env: Env)
    ensures !Replayable(env, BAD)
  {
    hide Geohash.Decode;
    Geohash.OutsideAlphabet();
    Geohash.DecodableExactly("!");
    assert "!"[0] == '!';
    hide *;
    assert Geohash.Decode("!").None?;
  }

  lemma {:induction false} BadIsStored(env: Env)
    ensures Delivered(env, BLANK, [Entry(1, BAD)], 0, true)
         == Replica([Entry(1, BAD)], 0, WithObjects(EMPTY, "fleet", map[]))
  {
    BadIsUnreplayable(env);
    hide Replayable;
    var one := [Entry(1, BAD)];
    assert !Replayable(env, one[0].record);
    FirstBadAt(env, one, 0);
    hide FirstBad;
    assert Records(one[..0]) == [];
  }

  /** One such record leaves the follower's counter behind its log. */
  lemma {:induction false} CounterFallsBehind(env: Env)
    ensures Ran(env, BAD_RUN).follower == Replica([Entry(1, BAD)], 0, WithObjects(EMPTY, "fleet", map[]))
  {
    BadIsStored(env);
    assert Fetched(LeaderLog([BAD]), 0, 1) == [Entry(1, BAD)];
    hide Delivered, Fetched, LeaderLog;
    assert BAD_RUN[..2][..1] == [Grow([BAD])] && BAD_RUN[..2][1] == Fetch(0, 1) && [Grow([BAD])][..0] == [];
    assert Ran(env, []) == System([], BLANK, []);
    assert Ran(env, [Grow([BAD])]) == System([BAD], BLANK, []);
    assert Ran(env, BAD_RUN[..2]) == System([BAD], BLANK, [[Entry(1, BAD)]]);
  }

  // What the follower holds.

  predicate Lasting(r: Record) {
    r.Cmd? ==> !r.command.ExpireAt? && (r.command.SetPersisted? ==> r.command.expiresAt.None?)
  }

  ghost predicate NoDeadlines(db: Db) {
    forall n, id :: n in db.colls && id in db.colls[n] ==> db.colls[n][id].expiresAt.None?
  }

  lemma NothingToPurge(db: Db, now: nat)
    requires NoDeadlines(db)
    ensures PurgeDb(now, db) == db
  {
    forall n | n in db.colls ensures Purge(now, db.colls[n]) == db.colls[n] {
    }
  }

  lemma LocalKeepsLasting(env: Env, objects: Objects, c: Command)
    requires IsLocal(c) && Lasting(Cmd(c)) && forall id :: id in objects ==> objects[id].expiresAt.None?
    ensures forall id :: id in ApplyToObjects(env, c, objects) ==> ApplyToObjects(env, c, objects)[id].expiresAt.None?
  {
  }

  lemma ApplyKeepsLasting(env: Env, db: Db, r: Record)
    requires NoDeadlines(db) && Lasting(r)
    ensures NoDeadlines(Apply(env, db, r))
  {
    if r.Cmd? && IsLocal(r.command) {
      var objects := ObjectsOf(db, r.command.coll);
      assert forall id :: id in objects ==> objects[id].expiresAt.None?;
      LocalKeepsLasting(env, objects, r.command);
      hide ApplyToObjects;
    }
  }

  lemma {:induction false} ReplayKeepsLasting(env: Env, db: Db, records: seq<Record>)
    requires NoDeadlines(db) && forall i :: 0 <= i < |records| ==> Lasting(records[i])
    ensures NoDeadlines(ReplayFrom(env, db, records))
  {
    if records != [] {
      ReplayKeepsLasting(env, db, records[..|records| - 1]);
      ApplyKeepsLasting(env, ReplayFrom(env, db, records[..|records| - 1]), records[|records| - 1]);
    }
  }

  lemma AcceptedReplays(env: Env, f: Replica, batch: seq<Entry>, now: nat)
    requires batch != [] && f.db == Replay(env, Records(f.log))
    requires forall i :: 0 <= i < |f.log| ==> Lasting(f.log[i].record)
    requires forall i :: 0 <= i < |batch| ==> Lasting(batch[i].record)
    ensures Accepted(env, f, batch, now).db == Replay(env, Records(f.log + batch))
  {
    hide Apply, Lasting;
    assert Records(f.log + batch) == Records(f.log) + Records(batch);
    ReplayConcat(env, EMPTY, Records(f.log), Records(batch));
    ReplayKeepsLasting(env, EMPTY, Records(f.log + batch));
    NothingToPurge(ReplayFrom(env, f.db, Records(batch)), now);
  }

  ghost predicate AllLasting(records: seq<Record>) {
    forall i :: 0 <= i < |records| ==> Lasting(records[i])
  }

  /** The database is what its log gives up to the first unreplayable record. */
  ghost predicate HoldsReplay(env: Env, f: Replica) {
    f.db == Rebuilt(env, EMPTY, f.log)
  }

  lemma FirstBadNone(env: Env, log: seq<Entry>)
    requires AllReplayable(env, log)
    ensures FirstBad(env, log) == |log| && Rebuilt(env, EMPTY, log) == Replay(env, Records(log))
  {
    assert log[..|log|] == log;
  }

  lemma FirstBadJoin(env: Env, a: seq<Entry>, b: seq<Entry>)
    requires AllReplayable(env, a) && !AllReplayable(env, b)
    ensures Rebuilt(env, EMPTY, a + b) == Rebuilt(env, Replay(env, Records(a)), b)
  {
    var k := FirstBad(env, b);
    assert b[..|b|] == b;
    hide Replayable, Failed, Apply;
    assert (a + b)[..|a| + k] == a + b[..k] && (a + b)[|a| + k] == b[k];
    ReplayableJoin(env, a, b[..k]);
    FirstBadAt(env, a + b, |a| + k);
    assert Records(a + b[..k]) == Records(a) + Records(b[..k]);
    ReplayConcat(env, EMPTY, Records(a), Records(b[..k]));
  }

  lemma DeliveredHoldsReplay(env: Env, f: Replica, batch: seq<Entry>, now: nat, stored: bool, leader: seq<Record>)
    requires |f.log| <= |leader| && f.log == LeaderLog(leader)[..|f.log|] && AllReplayable(env, f.log)
    requires Stretch(batch, leader) && AllLasting(leader) && HoldsReplay(env, f)
    ensures HoldsReplay(env, Delivered(env, f, batch, now, stored))
  {
    hide Lasting, Replay, ReplayFrom, AllReplayable, Rebuilt, Takes, PurgeDb;
    FirstBadNone(env, f.log);
    if StoresNext(f, batch, stored) {
      if AllReplayable(env, batch) {
        assert forall i :: 0 <= i < |f.log| ==> f.log[i].record == leader[i];
        assert forall i :: 0 <= i < |batch| ==> batch[i].record == leader[batch[0].number - 1 + i];
        AcceptedReplays(env, f, batch, now);
        ReplayableJoin(env, f.log, batch);
        FirstBadNone(env, f.log + batch);
      } else {
        FirstBadJoin(env, f.log, batch);
      }
    }
  }

  lemma {:induction false} EventKeepsReplay(env: Env, s: System, e: Event)
    requires Follows(env, s) && AllLasting(s.leader) && HoldsReplay(env, s.follower)
    ensures HoldsReplay(env, Happened(env, s, e).follower)
  {
    hide Lasting, HoldsReplay, Delivered, LeaderLog, Stretch, Fetched, AllReplayable;
    if e.Deliver? && e.which < |s.sent| {
      if s.follower.next < |s.follower.log| {
        StuckForGood(env, s, e);
      } else {
        DeliveredHoldsReplay(env, s.follower, s.sent[e.which], e.now, e.stored, s.leader);
      }
    }
  }

  lemma LeaderOnlyGrows(env: Env, s: System, e: Event)
    requires AllLasting(Happened(env, s, e).leader)
    ensures AllLasting(s.leader)
  {
    hide Lasting, Delivered, Fetched;
    assert forall i :: 0 <= i < |s.leader| ==> s.leader[i] == Happened(env, s, e).leader[i];
  }

  /** Without deadlines in the leader's history the follower's database is always what
      replaying the prefix it has gives, up to the first record that cannot be. */
  lemma {:induction false} FollowerReplaysPrefix(env: Env, events: seq<Event>)
    requires AllLasting(Ran(env, events).leader)
    ensures Ran(env, events).follower.db == Rebuilt(env, EMPTY, Ran(env, events).follower.log)
  {
    if events == [] {
      assert Records([]) == [] && ReplayFrom(env, EMPTY, []) == EMPTY;
    } else {
      var earlier, e := events[..|events| - 1], events[|events| - 1];
      LeaderOnlyGrows(env, Ran(env, earlier), e);
      FollowerReplaysPrefix(env, earlier);
      FollowerHasPrefix(env, earlier);
      hide Happened, AllLasting, Follows;
      EventKeepsReplay(env, Ran(env, earlier), e);
    }
  }

  /** Feeding a follower from its own position until it has everything or gives up:
      it catches up completely if and only if the whole log can be replayed. */
  method CatchUp(follower: Follower, records: seq<Record>, batchSize: nat, now: nat) returns (ok: bool)
    requires follower.nextSequence == |follower.log| <= |records|
    requires follower.log == LeaderLog(records)[..|follower.log|] && AllReplayable(follower.env, follower.log)
    modifies follower
    ensures ok <==> AllReplayable(follower.env, LeaderLog(records))
    ensures ok ==> follower.log == LeaderLog(records) && follower.nextSequence == |records|
    ensures !ok ==>
      follower.nextSequence < |follower.log| <= |records| && follower.log == LeaderLog(records)[..|follower.log|]
  {
    hide Delivered, Fetched, LeaderLog, AllReplayable, StoresNext;
    WholeLog(records);
    ok := true;
    while ok && follower.nextSequence < |records|
      invariant |follower.log| <= |records| && follower.log == LeaderLog(records)[..|follower.log|]
      invariant follower.nextSequence <= |follower.log|
      invariant AllReplayable(follower.env, follower.log) == ok
      invariant follower.nextSequence == |follower.log| <==> ok
      decreases ok, |records| - follower.nextSequence
    {
      ghost var before := follower.State();
      var batch := StorageEntriesAfter(records, follower.nextSequence, batchSize);
      NextBatch(follower.env, before, records, batchSize, now);
      var r := follower.ApplyReplicatedEntries(batch, now, true);
      ok := r.Ok?;
    }
    if !ok {
      assert LeaderLog(records) == follower.log + LeaderLog(records)[|follower.log|..];
      ReplayableJoin(follower.env, follower.log, LeaderLog(records)[|follower.log|..]);
    }
  }

  lemma WholeLog(records: seq<Record>)
    ensures |LeaderLog(records)| == |records| && LeaderLog(records)[..|records|] == LeaderLog(records)
  {
  }

  lemma NextBatch(env: Env, f: Replica, records: seq<Record>, max: nat, now: nat)
    requires f.next == |f.log| < |records| && f.log == LeaderLog(records)[..|f.log|] && AllReplayable(env, f.log)
    ensures
      var batch := Fetched(LeaderLog(records), f.next, max);
      var g := Delivered(env, f, batch, now, true);
      batch != [] && batch[0].number == f.next + 1 && StoresNext(f, batch, true) &&
      f.next <= g.next <= |g.log| <= |records| && g.log == LeaderLog(records)[..|g.log|] &&
      (AllReplayable(env, g.log) <==> AllReplayable(env, batch)) &&
      (g.next == |g.log| <==> AllReplayable(env, batch)) && (AllReplayable(env, batch) ==> f.next < g.next)
  {
    hide *;
    var batch := Fetched(LeaderLog(records), f.next, max);
    FetchedNext(records, f.next, max);
    FetchedIsStretch(records, f.next, max);
    StretchContinues(f.log, batch, records);
    StoresIt(f, batch);
    DeliveryKeepsStepIff(env, f, batch, now, true, records);
    ReplayableJoin(env, f.log, batch);
  }

  lemma FetchedNext(records: seq<Record>, after: nat, max: nat)
    requires after < |records|
    ensures var batch := Fetched(LeaderLog(records), after, max);
            |batch| > 0 && batch[0].number == after + 1
  {
  }

  lemma StoresIt(f: Replica, batch: seq<Entry>)
    requires batch != [] && batch[0].number == f.next + 1 && Takes(f.log, batch)
    ensures StoresNext(f, batch, true)
  {
    hide Takes;
  }

  // Deadlines. A follower sweeps expired objects on its own clock and does not log it.

  /** The command makes an object outlive `p`. */
  predicate Outlives(p: Bound, c: Command) {
    c.Persist? || (c.ExpireAt? && (p.Exactly? || c.deadline > p.time))
  }

  /** The record extends the life of an object that only one of the two still has:
      the replayed log, when the follower has swept it. */
  ghost predicate Revives(p: Bound, swept: Db, replayed: Db, r: Record) {
    r.Cmd? && Outlives(p, r.command) &&
    (r.command.id in ObjectsOf(replayed, r.command.coll)) != (r.command.id in ObjectsOf(swept, r.command.coll))
  }

  predicate AgreeAt(p: Bound, swept: Option<Object>, replayed: Option<Object>) {
    if swept.Some? && replayed.Some? then replayed == swept
    else if swept.Some? then !p.Exactly? && Expired(swept.value, p.time)
    else replayed.Some? ==> !p.Exactly? && Expired(replayed.value, p.time)
  }

  lemma PointwiseAgrees(
      p: Bound, swept: Objects, replayed: Objects, a: Objects, b: Objects, id: string)
    requires AgreeObjects(p, swept, replayed) && !p.Lossy?
    requires forall x :: x != id ==> Lookup(a, x) == Lookup(swept, x) && Lookup(b, x) == Lookup(replayed, x)
    ensures AgreeObjects(p, a, b) <==> AgreeAt(p, Lookup(a, id), Lookup(b, id))
  {
    hide Expired;
    assert forall x :: x != id && x in a ==> Lookup(a, x) == Lookup(swept, x) && Lookup(b, x) == Lookup(replayed, x);
    assert forall x :: x != id && x in b ==> Lookup(a, x) == Lookup(swept, x) && Lookup(b, x) == Lookup(replayed, x);
  }

  lemma LocalAgreesIff(env: Env, p: Bound, swept: Objects, replayed: Objects, c: Command)
    requires IsLocal(c) && AgreeObjects(p, swept, replayed) && !p.Lossy?
    ensures AgreeObjects(p, ApplyToObjects(env, c, swept), ApplyToObjects(env, c, replayed)) <==>
      !(Outlives(p, c) && (c.id in replayed) != (c.id in swept))
  {
    CommandTouches(env, c, swept);
    CommandTouches(env, c, replayed);
    AgreesAtIff(env, p, swept, replayed, c);
    hide ApplyToObjects, AgreeObjects, AgreeAt, Lookup;
    PointwiseAgrees(p, swept, replayed, ApplyToObjects(env, c, swept), ApplyToObjects(env, c, replayed), c.id);
  }

  lemma AgreesAtIff(env: Env, p: Bound, swept: Objects, replayed: Objects, c: Command)
    requires IsLocal(c) && AgreeObjects(p, swept, replayed) && !p.Lossy?
    ensures AgreeAt(p, Lookup(ApplyToObjects(env, c, swept), c.id), Lookup(ApplyToObjects(env, c, replayed), c.id)) <==>
      !(Outlives(p, c) && (c.id in replayed) != (c.id in swept))
  {
    hide ApplyUpdates, EntriesToMap, Payload;
    assert AgreeAt(p, Lookup(swept, c.id), Lookup(replayed, c.id));
    hide AgreeObjects;
  }

  lemma StoredAgreesIff(
      p: Bound, swept: Db, replayed: Db, coll: string, create: bool, a: Objects, b: Objects)
    requires AgreeDb(p, swept, replayed) && (coll !in swept.colls && !create ==> a == b == map[])
    ensures AgreeDb(p, Catalog.Stored(swept, coll, create, a), Catalog.Stored(replayed, coll, create, b)) <==>
      AgreeObjects(p, a, b)
  {
    hide AgreeObjects;
    if coll in swept.colls || create {
      PutCollectionAgreesIff(p, swept, replayed, coll, a, b);
    } else {
      NothingAgrees(p);
    }
  }

  lemma PutCollectionAgreesIff(p: Bound, swept: Db, replayed: Db, coll: string, a: Objects, b: Objects)
    requires AgreeDb(p, swept, replayed)
    ensures AgreeDb(p, WithObjects(swept, coll, a), WithObjects(replayed, coll, b)) <==> AgreeObjects(p, a, b)
  {
    hide AgreeObjects;
    var x, y := WithObjects(swept, coll, a), WithObjects(replayed, coll, b);
    assert x.colls[coll] == a && y.colls[coll] == b;
    assert forall n :: n in swept.colls && n != coll ==> x.colls[n] == swept.colls[n] && y.colls[n] == replayed.colls[n];
  }

  lemma NothingAgrees(p: Bound)
    ensures AgreeObjects(p, map[], map[])
  {
  }

  /** The follower's agreement with the replay of its log survives a record if and only
      if the record does not extend the life of an object only one of them has. */
  lemma {:induction false} RecordAgreesIff(env: Env, p: Bound, swept: Db, replayed: Db, r: Record)
    requires AgreeDb(p, swept, replayed) && !p.Lossy?
    ensures AgreeDb(p, Apply(env, swept, r), Apply(env, replayed, r)) <==> !Revives(p, swept, replayed, r)
  {
    if r.Cmd? && IsLocal(r.command) {
      var c := r.command;
      var a, b := ObjectsOf(swept, c.coll), ObjectsOf(replayed, c.coll);
      NothingAgrees(p);
      assert AgreeObjects(p, a, b);
      LocalAgreesIff(env, p, a, b, c);
      if c.coll !in swept.colls && !c.SetPersisted? {
        assert ApplyToObjects(env, c, map[]) == map[];
      }
      StoredAgreesIff(p, swept, replayed, c.coll, c.SetPersisted?, ApplyToObjects(env, c, a), ApplyToObjects(env, c, b));
      hide ApplyToObjects, AgreeDb, AgreeObjects, Catalog.Stored;
    } else if r.Cmd? {
      OtherCommandAgrees(env, p, swept, replayed, r.command);
    }
  }

  lemma OtherCommandAgrees(env: Env, p: Bound, swept: Db, replayed: Db, c: Command)
    requires !IsLocal(c) && AgreeDb(p, swept, replayed)
    ensures AgreeDb(p, ApplyCommand(env, swept, c), ApplyCommand(env, replayed, c))
  {
    NothingAgrees(p);
    hide AgreeObjects, ApplyLocal;
  }

  /** None of the records does so, each on the state before it. */
  ghost predicate Harmless(env: Env, p: Bound, swept: Db, replayed: Db, records: seq<Record>) {
    records == [] ||
    (Harmless(env, p, swept, replayed, records[..|records| - 1]) &&
     !Revives(p, ReplayFrom(env, swept, records[..|records| - 1]),
       ReplayFrom(env, replayed, records[..|records| - 1]), records[|records| - 1]))
  }

  lemma {:induction false} ReplayAgrees(env: Env, p: Bound, swept: Db, replayed: Db, records: seq<Record>)
    requires AgreeDb(p, swept, replayed) && !p.Lossy? && Harmless(env, p, swept, replayed, records)
    ensures AgreeDb(p, ReplayFrom(env, swept, records), ReplayFrom(env, replayed, records))
  {
    if records != [] {
      var init := records[..|records| - 1];
      ReplayAgrees(env, p, swept, replayed, init);
      RecordAgreesIff(env, p, ReplayFrom(env, swept, init), ReplayFrom(env, replayed, init), records[|records| - 1]);
    }
  }

  lemma SweepAgrees(p: Bound, swept: Db, replayed: Db, now: nat)
    requires AgreeDb(p, swept, replayed) && !p.Lossy? && (p.Until? ==> p.time <= now)
    ensures AgreeDb(Until(now), PurgeDb(now, swept), replayed)
  {
    forall n | n in swept.colls ensures AgreeObjects(Until(now), Purge(now, swept.colls[n]), replayed.colls[n]) {
    }
    hide AgreeObjects, Purge;
  }

  /** With deadlines: a batch that is harmless in this sense leaves the follower equal
      to the replay of its log once both are rid of what is due. */
  lemma {:induction false} AcceptedAgrees(env: Env, p: Bound, f: Replica, batch: seq<Entry>, now: nat, later: nat)
    requires batch != [] && AgreeDb(p, f.db, Replay(env, Records(f.log))) && !p.Lossy? && (p.Until? ==> p.time <= now) && now <= later
    requires Harmless(env, p, f.db, Replay(env, Records(f.log)), Records(batch))
    ensures AgreeDb(Until(now), Accepted(env, f, batch, now).db, Replay(env, Records(f.log + batch)))
    ensures PurgeDb(later, Accepted(env, f, batch, now).db) == PurgeDb(later, Replay(env, Records(f.log + batch)))
  {
    hide AgreeDb, Harmless, PurgeDb, Apply;
    var replayed := Replay(env, Records(f.log));
    assert Records(f.log + batch) == Records(f.log) + Records(batch);
    ReplayConcat(env, EMPTY, Records(f.log), Records(batch));
    ReplayAgrees(env, p, f.db, replayed, Records(batch));
    SweepAgrees(p, ReplayFrom(env, f.db, Records(batch)), ReplayFrom(env, replayed, Records(batch)), now);
    AgreePurged(Until(now), Accepted(env, f, batch, now).db, Replay(env, Records(f.log + batch)), later);
  }

  /** A set with a deadline, and a PERSIST that the leader accepts after it. */
  function Saved(geo: Geo): Record {
    Cmd(SetPersisted("fleet", "a", geo, [], Some(10)))
  }

  const KEPT := Cmd(Persist("fleet", "a"))

  /** A follower that sweeps between the two loses an object the leader keeps. */
  lemma SweptObjectStaysLost(env: Env, geo: Geo, now: nat)
    requires now >= 10
    ensures
      var swept := PurgeDb(now, Apply(env, EMPTY, Saved(geo)));
      var follower := PurgeDb(now, Apply(env, swept, KEPT));
      var leader := Replay(env, [Saved(geo), KEPT]);
      "fleet" in leader.colls && "a" in leader.colls["fleet"] &&
      "fleet" in follower.colls && "a" !in follower.colls["fleet"] &&
      Revives(Until(now), swept, Replay(env, [Saved(geo)]), KEPT)
  {
    var saved, kept := Saved(geo), KEPT;
    var one := Apply(env, EMPTY, saved);
    ReplayOne(env, EMPTY, [], saved);
    ReplayOne(env, EMPTY, [saved], kept);
    assert [saved] == [] + [saved] && [saved, kept] == [saved] + [kept];
    assert ReplayFrom(env, EMPTY, []) == EMPTY;
    hide ReplayFrom;
    assert one.colls == map["fleet" := map["a" := one.colls["fleet"]["a"]]];
    assert Expired(one.colls["fleet"]["a"], now);
    var swept := PurgeDb(now, one);
    assert swept.colls["fleet"] == map[];
    assert Apply(env, swept, kept).colls["fleet"] == map[];
  }
}
