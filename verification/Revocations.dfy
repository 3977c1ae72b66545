/**
 * The revocation set: records in memory and on disk, garbage collection, and
 * the cancellation of live sessions. The main theorem is about whole runs.
 */
module Revocations {
  import opened Prelude
  import opened Pipeline

  const REVOCATION_LINGER_SECS: nat := 7 * 86400
  const POW64: nat := 0x1_0000_0000_0000_0000

  type SessionId = seq<byte>
  type Token = nat

  /** `id` is what the hexadecimal ticket id of the original decodes to, if it decodes. */
  datatype Record = Record(id: Option<TicketId>, reason: string, revokedAt: Option<nat>, notAfter: Option<nat>)

  type Live = map<TicketId, map<SessionId, Token>>

  /** The memory of the agent, the file (if it exists) and the tokens cancelled so far. */
  datatype State = State(
    ids: set<TicketId>, records: seq<Record>, disk: Option<seq<Record>>, live: Live, cancelled: set<Token>)

  datatype AppendError = SizeCeilingExceeded | InvalidRecord | Io

  function IdsOf(records: seq<Record>): set<TicketId> {
    set r | r in records && r.id.Some? :: r.id.value
  }

  predicate AllDecode(records: seq<Record>) {
    forall r :: r in records ==> r.id.Some?
  }

  /** The tokens of all sessions registered under one of the ids. */
  function TokensOf(live: Live, ids: set<TicketId>): set<Token> {
    set id, sid | id in ids && id in live && sid in live[id] :: live[id][sid]
  }

  // ---------- Garbage collection ----------

  /** End of the linger period, with the wrap-around of the original's 64-bit addition. */
  function LingerEnd(revokedAt: nat): nat {
    (revokedAt + REVOCATION_LINGER_SECS) % POW64
  }

  predicate Keep(r: Record, now: nat) {
    || (r.revokedAt.Some? ==> now < LingerEnd(r.revokedAt.value))
    || (r.notAfter.Some? && now < r.notAfter.value)
  }

  function Retain(records: seq<Record>, now: nat): seq<Record> {
    if records == [] then []
    else (if Keep(records[0], now) then [records[0]] else []) + Retain(records[1..], now)
  }

  lemma {:induction false} RetainMembers(records: seq<Record>, now: nat)
    ensures forall r :: r in Retain(records, now) <==> r in records && Keep(r, now)
    ensures |Retain(records, now)| <= |records|
  {
    if records != [] {
      RetainMembers(records[1..], now);
    }
  }

  function Gc(st: State, now: nat): State {
    var kept := Retain(st.records, now);
    st.(records := kept, ids := IdsOf(kept))
  }

  /** The record outlives every collection before time T. */
  predicate Protects(r: Record, T: nat) {
    r.revokedAt.None? || T <= LingerEnd(r.revokedAt.value) || (r.notAfter.Some? && T <= r.notAfter.value)
  }

  /** Exactly the records that protect until T are kept by every collection before T. */
  lemma KeptUntilIff(r: Record, T: nat)
    ensures (forall now: nat :: now < T ==> Keep(r, now)) <==> Protects(r, T)
  {
    if T > 0 && !Protects(r, T) {
      assert !Keep(r, T - 1);
    }
  }

  // ---------- Adding records ----------

  /** The records of the batch whose ids are new, in order; none if one does not decode. */
  function Novel(ids: set<TicketId>, batch: seq<Record>): Option<seq<Record>>
    decreases |batch|
  {
    if batch == [] then Some([])
    else if batch[0].id.None? then None
    else
      var rest := Novel(ids + {batch[0].id.value}, batch[1..]);
      if rest.None? then None
      else if batch[0].id.value in ids then rest
      else Some([batch[0]] + rest.value)
  }

  function TotalLength(records: seq<Record>, len: Record -> nat): nat {
    if records == [] then 0 else len(records[0]) + TotalLength(records[1..], len)
  }

  function FileLength(disk: Option<seq<Record>>, len: Record -> nat): nat {
    if disk.None? then 0 else TotalLength(disk.value, len)
  }

  datatype Appended = Appended(st: State, result: Result<nat, AppendError>)

  /** `append_batch_atomic`; `writeOk` says whether the file could be replaced. */
  function AppendBatch(st: State, batch: seq<Record>, len: Record -> nat, maxBytes: nat, writeOk: bool): Appended {
    var novel := Novel(st.ids, batch);
    if batch == [] then Appended(st, Ok(0))
    else if novel.None? then Appended(st, Err(InvalidRecord))
    else if novel.value == [] then Appended(st, Ok(0))
    else if SaturatingAdd(FileLength(st.disk, len), SaturatingAdd(0, TotalLength(novel.value, len), U64_MAX), U64_MAX) > maxBytes
    then Appended(st, Err(SizeCeilingExceeded))
    else if !writeOk then Appended(st, Err(Io))
    else
      var updated := st.records + novel.value;
      var added := IdsOf(novel.value);
      Appended(State(st.ids + added, updated, Some(updated), st.live, st.cancelled + TokensOf(st.live, added)),
               Ok(|novel.value|))
  }

  lemma {:induction false} NovelIds(ids: set<TicketId>, batch: seq<Record>)
    ensures Novel(ids, batch).Some? <==> AllDecode(batch)
    ensures Novel(ids, batch).Some? ==>
              var novel := Novel(ids, batch).value;
              && AllDecode(novel)
              && IdsOf(novel) !! ids
              && (forall r :: r in novel ==> r in batch)
              && ids + IdsOf(novel) == ids + IdsOf(batch)
    decreases |batch|
  {
    if batch != [] && batch[0].id.Some? {
      var x := batch[0].id.value;
      NovelIds(ids + {x}, batch[1..]);
      if Novel(ids + {x}, batch[1..]).Some? {
        var rest := Novel(ids + {x}, batch[1..]).value;
        var novel := Novel(ids, batch).value;
        assert batch == [batch[0]] + batch[1..];
        IdsOfConcat([batch[0]], batch[1..]);
        IdsOfConcat([batch[0]], rest);
        IdsOfOne(batch[0]);
      }
    }
  }

  lemma IdsOfConcat(a: seq<Record>, b: seq<Record>)
    ensures IdsOf(a + b) == IdsOf(a) + IdsOf(b)
  {
  }

  lemma IdsOfOne(r: Record)
    requires r.id.Some?
    ensures IdsOf([r]) == {r.id.value}
  {
    assert r in [r];
  }

  /** `insert_record` with a record that decodes, and `insert` with a manual one: memory only. */
  function InsertRecord(st: State, r: Record): State {
    if r.id.None? || r.id.value in st.ids then st
    else
      var id := r.id.value;
      st.(ids := st.ids + {id}, records := st.records + [r],
          cancelled := st.cancelled + TokensOf(st.live, {id}))
  }

  function Manual(id: TicketId): Record {
    Record(Some(id), "manual", None, None)
  }

  // ---------- The file ----------

  function Persist(st: State, writeOk: bool): State {
    if writeOk then st.(disk := Some(st.records)) else st
  }

  function SyncFromDisk(st: State): State {
    if st.disk.None? || !AllDecode(st.disk.value) then st
    else
      var ids := IdsOf(st.disk.value);
      st.(records := st.disk.value, ids := ids,
          cancelled := st.cancelled + TokensOf(st.live, ids - st.ids))
  }

  /** A collection pass of the agent: persist only when something was removed. */
  function GcPass(st: State, now: nat, writeOk: bool): State {
    var after := Gc(st, now);
    if |after.records| < |st.records| then Persist(after, writeOk) else after
  }

  /** A start of the agent: the new state, or none when the file does not load. */
  function Load(disk: Option<seq<Record>>, cancelled: set<Token>, now: nat, writeOk: bool): Option<State> {
    var records := if disk.Some? then disk.value else [];
    if !AllDecode(records) then None else
    var st := State(IdsOf(records), records, disk, map[], cancelled);
    var after := Gc(st, now);
    if |after.records| == |records| then Some(after)
    else if writeOk then Some(Persist(after, true))
    else None
  }

  // ---------- Live sessions ----------

  function EntryOf(live: Live, id: TicketId): map<SessionId, Token> {
    if id in live then live[id] else map[]
  }

  function Register(live: Live, sid: SessionId, chain: set<TicketId>, token: Token): Live {
    map id | id in live.Keys + chain ::
      if id in chain then EntryOf(live, id)[sid := token] else live[id]
  }

  function Deregister(live: Live, sid: SessionId, chain: set<TicketId>): Live {
    map id | id in live.Keys && !(id in chain && live[id] - {sid} == map[]) ::
      if id in chain then live[id] - {sid} else live[id]
  }

  predicate NoEmptyEntry(live: Live) {
    forall id :: id in live ==> live[id] != map[]
  }

  lemma RegisterNoEmpty(live: Live, sid: SessionId, chain: set<TicketId>, token: Token)
    requires NoEmptyEntry(live)
    ensures NoEmptyEntry(Register(live, sid, chain, token))
  {
    var after := Register(live, sid, chain, token);
    forall id | id in after
      ensures after[id] != map[]
    {
      if id in chain { assert sid in after[id]; }
    }
  }

  lemma DeregisterNoEmpty(live: Live, sid: SessionId, chain: set<TicketId>)
    requires NoEmptyEntry(live)
    ensures NoEmptyEntry(Deregister(live, sid, chain))
  {
  }

  /** Deregistering a session with the chain it was registered with leaves no trace of it. */
  lemma RegisterRoundTrip(live: Live, sid: SessionId, chain: set<TicketId>, token: Token)
    requires NoEmptyEntry(live)
    requires forall id :: id in chain && id in live ==> sid !in live[id]
    ensures Deregister(Register(live, sid, chain, token), sid, chain) == live
  {
    var after := Register(live, sid, chain, token);
    forall id | id in chain
      ensures after[id] - {sid} == EntryOf(live, id)
    {
      var before := EntryOf(live, id);
      assert after[id] == before[sid := token];
      assert before[sid := token] - {sid} == before;
    }
    var back := Deregister(after, sid, chain);
    assert back.Keys == live.Keys;
  }

  // ---------- Runs ----------

  /** The agent may be down; the file is there either way. The clock never goes back. */
  datatype World = World(up: bool, st: State, now: nat)

  datatype Event =
    | Tick(now: nat)
    | Batch(batch: seq<Record>, writeOk: bool)
    | Insert(record: Record)
    | Collect(writeOk: bool)
    | Sync
    | OutsideAppend(record: Record)
    | Stop
    | Start(writeOk: bool)
    | Join(sid: SessionId, chain: set<TicketId>, token: Token)
    | Leave(sid: SessionId, chain: set<TicketId>)

  datatype Config = Config(len: Record -> nat, maxBytes: nat)

  function AgentStep(cfg: Config, st: State, now: nat, ev: Event): State {
    match ev
    case Batch(batch, writeOk) => AppendBatch(st, batch, cfg.len, cfg.maxBytes, writeOk).st
    case Insert(record) => InsertRecord(st, record)
    case Collect(writeOk) => GcPass(st, now, writeOk)
    case Sync => SyncFromDisk(st)
    case Join(sid, chain, token) => st.(live := Register(st.live, sid, chain, token))
    case Leave(sid, chain) => st.(live := Deregister(st.live, sid, chain))
    case _ => st
  }

  function Step(cfg: Config, w: World, ev: Event): World {
    match ev
    case Tick(now) => if now >= w.now then w.(now := now) else w
    case OutsideAppend(record) =>
      w.(st := w.st.(disk := Some((if w.st.disk.Some? then w.st.disk.value else []) + [record])))
    case Stop => w.(up := false)
    case Start(writeOk) =>
      if w.up then w else
      var loaded := Load(w.st.disk, w.st.cancelled, w.now, writeOk);
      if loaded.Some? then w.(up := true, st := loaded.value) else w
    case _ => if w.up then w.(st := AgentStep(cfg, w.st, w.now, ev)) else w
  }

  function Run(cfg: Config, w: World, evs: seq<Event>): World {
    if evs == [] then w else Step(cfg, Run(cfg, w, evs[..|evs| - 1]), evs[|evs| - 1])
  }

  /** What every agent state keeps: the ids are those of the records, and no session entry is empty. */
  predicate Consistent(st: State) {
    st.ids == IdsOf(st.records) && NoEmptyEntry(st.live)
  }

  lemma AgentStepConsistent(cfg: Config, st: State, now: nat, ev: Event)
    requires Consistent(st)
    ensures Consistent(AgentStep(cfg, st, now, ev))
  {
    match ev
    case Batch(batch, writeOk) =>
      if Novel(st.ids, batch).Some? {
        IdsOfConcat(st.records, Novel(st.ids, batch).value);
      }
    case Insert(record) =>
      IdsOfConcat(st.records, [record]);
      if record.id.Some? { IdsOfOne(record); }
    case Join(sid, chain, token) => RegisterNoEmpty(st.live, sid, chain, token);
    case Leave(sid, chain) => DeregisterNoEmpty(st.live, sid, chain);
    case _ =>
  }

  lemma {:induction false} RunConsistent(cfg: Config, w: World, evs: seq<Event>)
    requires Consistent(w.st)
    ensures Consistent(Run(cfg, w, evs).st)
    decreases |evs|
  {
    if evs != [] {
      var before := Run(cfg, w, evs[..|evs| - 1]);
      RunConsistent(cfg, w, evs[..|evs| - 1]);
      AgentStepConsistent(cfg, before.st, before.now, evs[|evs| - 1]);
    }
  }

  /**
   * While the agent is up, a step cancels exactly the sessions that are
   * registered under an id it newly revokes.
   */
  lemma StepCancels(cfg: Config, w: World, ev: Event)
    requires w.up && Consistent(w.st)
    ensures var st, st' := w.st, Step(cfg, w, ev).st;
            st'.cancelled == st.cancelled + TokensOf(st.live, st'.ids - st.ids)
  {
    var st := w.st;
    assert TokensOf(st.live, {}) == {};
    match ev
    case Batch(batch, writeOk) =>
      NovelIds(st.ids, batch);
      if Novel(st.ids, batch).Some? {
        var added := IdsOf(Novel(st.ids, batch).value);
        assert (st.ids + added) - st.ids == added;
      }
    case Insert(record) =>
      if record.id.Some? && record.id.value !in st.ids {
        assert (st.ids + {record.id.value}) - st.ids == {record.id.value};
      }
    case Collect(writeOk) =>
      RetainMembers(st.records, w.now);
      assert Gc(st, w.now).ids <= st.ids;
    case _ =>
  }

  /** A batch that fails changes nothing, and it fails or succeeds as a whole. */
  lemma BatchAtomic(st: State, batch: seq<Record>, len: Record -> nat, maxBytes: nat, writeOk: bool)
    requires Consistent(st)
    ensures var a := AppendBatch(st, batch, len, maxBytes, writeOk);
            if a.result.Err? then a.st == st
            else a.st.ids == st.ids + IdsOf(batch) && |a.st.records| == |st.records| + a.result.value
  {
    NovelIds(st.ids, batch);
    if Novel(st.ids, batch).Some? && Novel(st.ids, batch).value == [] {
      assert IdsOf([]) == {};
    }
  }

  // ---------- Once revoked, never accepted again ----------

  predicate Has(records: seq<Record>, id: TicketId, T: nat) {
    exists r :: r in records && r.id == Some(id) && Protects(r, T)
  }

  predicate DiskHas(w: World, id: TicketId, T: nat) {
    w.st.disk.Some? && Has(w.st.disk.value, id, T)
  }

  /** The file exists and does not load: no start succeeds and no sync takes anything from it. */
  predicate DiskStuck(w: World) {
    w.st.disk.Some? && !AllDecode(w.st.disk.value)
  }

  /**
   * The id is past caring about, or a record that protects it until T is in the memory of
   * the running agent and in the file, unless the file does not load.
   */
  predicate Guarded(w: World, id: TicketId, T: nat) {
    w.now >= T || ((w.up ==> Has(w.st.records, id, T)) && (DiskHas(w, id, T) || DiskStuck(w)))
  }

  lemma HasConcat(a: seq<Record>, b: seq<Record>, id: TicketId, T: nat)
    requires Has(a, id, T)
    ensures Has(a + b, id, T)
  {
    var r :| r in a && r.id == Some(id) && Protects(r, T);
    assert r in a + b;
  }

  /** A collection before T keeps a protecting record; the last one before T keeps no other. */
  lemma HasRetained(records: seq<Record>, id: TicketId, T: nat, now: nat)
    requires now < T
    ensures Has(records, id, T) ==> Has(Retain(records, now), id, T)
    ensures now == T - 1 && !Has(records, id, T) ==> id !in IdsOf(Retain(records, now))
  {
    RetainMembers(records, now);
    if Has(records, id, T) {
      var r :| r in records && r.id == Some(id) && Protects(r, T);
      assert Keep(r, now);
      assert r in Retain(records, now);
    }
  }

  lemma StepGuarded(cfg: Config, w: World, ev: Event, id: TicketId, T: nat)
    requires Guarded(w, id, T)
    ensures Guarded(Step(cfg, w, ev), id, T)
  {
    if w.now < T {
      match ev
      case Batch(batch, writeOk) =>
        if w.up && Novel(w.st.ids, batch).Some? {
          HasConcat(w.st.records, Novel(w.st.ids, batch).value, id, T);
        }
      case Insert(record) => if w.up { HasConcat(w.st.records, [record], id, T); }
      case Collect(writeOk) => HasRetained(w.st.records, id, T, w.now);
      case OutsideAppend(record) => AppendGuarded(w, record, id, T);
      case Start(writeOk) => if w.st.disk.Some? { HasRetained(w.st.disk.value, id, T, w.now); }
      case _ =>
    }
  }

  lemma AppendGuarded(w: World, record: Record, id: TicketId, T: nat)
    requires DiskHas(w, id, T) || DiskStuck(w)
    ensures Has(w.st.disk.value + [record], id, T) || !AllDecode(w.st.disk.value + [record])
  {
    if DiskHas(w, id, T) {
      HasConcat(w.st.disk.value, [record], id, T);
    } else {
      var r :| r in w.st.disk.value && r.id.None?;
      assert r in w.st.disk.value + [record];
    }
  }

  lemma {:induction false} RunGuarded(cfg: Config, w: World, evs: seq<Event>, id: TicketId, T: nat)
    requires Guarded(w, id, T)
    ensures Guarded(Run(cfg, w, evs), id, T)
    decreases |evs|
  {
    if evs != [] {
      RunGuarded(cfg, w, evs[..|evs| - 1], id, T);
      StepGuarded(cfg, Run(cfg, w, evs[..|evs| - 1]), evs[|evs| - 1], id, T);
    }
  }

  // ---------- Exactly when an id stays revoked ----------

  lemma RunTwo(cfg: Config, w: World, a: Event, b: Event)
    ensures Run(cfg, w, [a, b]) == Step(cfg, Step(cfg, w, a), b)
  {
    assert [a, b][..1] == [a] && [a][..0] == [];
    assert Run(cfg, w, [a]) == Step(cfg, Run(cfg, w, []), a);
  }

  lemma RunThree(cfg: Config, w: World, a: Event, b: Event, c: Event)
    ensures Run(cfg, w, [a, b, c]) == Step(cfg, Step(cfg, Step(cfg, w, a), b), c)
  {
    assert [a, b, c][..2] == [a, b];
    RunTwo(cfg, w, a, b);
  }

  /** Without a protecting record in memory, a collection just before T forgets the id, and learns no other. */
  lemma CollectForgets(cfg: Config, w: World, id: TicketId, T: nat, writeOk: bool)
    requires w.up && w.now < T && !Has(w.st.records, id, T)
    ensures var w' := Run(cfg, w, [Tick(T - 1), Collect(writeOk)]);
            w'.up && w'.now == T - 1 && id !in w'.st.ids && w'.st.ids <= IdsOf(w.st.records)
  {
    RunTwo(cfg, w, Tick(T - 1), Collect(writeOk));
    HasRetained(w.st.records, id, T, T - 1);
    RetainedIds(w.st.records, T - 1);
  }

  lemma RetainedIds(records: seq<Record>, now: nat)
    ensures IdsOf(Retain(records, now)) <= IdsOf(records)
  {
    RetainMembers(records, now);
  }

  /** So a record that does not know when its ticket expires revokes it for the linger period only. */
  lemma UnknownExpiryForgotten(cfg: Config, w: World, id: TicketId, T: nat)
    requires w.up && w.now < T
    requires forall r :: r in w.st.records && r.id == Some(id) ==>
               r.notAfter.None? && r.revokedAt.Some? && LingerEnd(r.revokedAt.value) < T
    ensures var w' := Run(cfg, w, [Tick(T - 1), Collect(true)]);
            w'.up && w'.now < T && id !in w'.st.ids
  {
    CollectForgets(cfg, w, id, T, true);
  }

  lemma LoadForgets(disk: Option<seq<Record>>, cancelled: set<Token>, id: TicketId, T: nat)
    requires T > 0
    requires var records := if disk.Some? then disk.value else []; AllDecode(records) && !Has(records, id, T)
    ensures var loaded := Load(disk, cancelled, T - 1, true);
            && loaded.Some? && id !in loaded.value.ids
            && loaded.value.ids <= IdsOf(if disk.Some? then disk.value else [])
  {
    var records := if disk.Some? then disk.value else [];
    HasRetained(records, id, T, T - 1);
    RetainedIds(records, T - 1);
  }

  /** The ids of the file. */
  function DiskIds(w: World): set<TicketId> {
    IdsOf(if w.st.disk.Some? then w.st.disk.value else [])
  }

  /** Without one in a file that loads, a restart just before T forgets the id, and learns no other. */
  lemma RestartForgets(cfg: Config, w: World, id: TicketId, T: nat)
    requires w.now < T && !DiskHas(w, id, T) && !DiskStuck(w)
    ensures var w' := Run(cfg, w, [Stop, Tick(T - 1), Start(true)]);
            w'.up && w'.now == T - 1 && id !in w'.st.ids && w'.st.ids <= DiskIds(w)
  {
    RunThree(cfg, w, Stop, Tick(T - 1), Start(true));
    LoadForgets(w.st.disk, w.st.cancelled, id, T);
  }

  /** Over every run from here the running agent holds the id revoked until T. */
  ghost predicate RevokedUntil(cfg: Config, w: World, id: TicketId, T: nat) {
    forall evs :: var w' := Run(cfg, w, evs); w'.up && w'.now < T ==> id in w'.st.ids
  }

  /** This is so exactly in the guarded states. */
  lemma RevokedUntilIff(cfg: Config, w: World, id: TicketId, T: nat)
    requires Consistent(w.st)
    ensures RevokedUntil(cfg, w, id, T) <==> Guarded(w, id, T)
  {
    if Guarded(w, id, T) {
      forall evs
        ensures var w' := Run(cfg, w, evs); w'.up && w'.now < T ==> id in w'.st.ids
      {
        RunGuarded(cfg, w, evs, id, T);
        RunConsistent(cfg, w, evs);
      }
    } else if w.up && !Has(w.st.records, id, T) {
      CollectForgets(cfg, w, id, T, true);
    } else {
      RestartForgets(cfg, w, id, T);
    }
  }

  // ---------- How a record comes to guard its id ----------

  /** A batch that stores a record protecting until T guards its id until T. */
  lemma BatchGuards(cfg: Config, w: World, batch: seq<Record>, writeOk: bool, r: Record, T: nat)
    requires w.up && Novel(w.st.ids, batch).Some? && r in Novel(w.st.ids, batch).value && r.id.Some? && Protects(r, T)
    requires AppendBatch(w.st, batch, cfg.len, cfg.maxBytes, writeOk).result.Ok?
    ensures Guarded(Step(cfg, w, Batch(batch, writeOk)), r.id.value, T)
  {
    assert r in w.st.records + Novel(w.st.ids, batch).value;
  }

  /** The step replaces the file by what the agent has in memory. */
  predicate Overwrites(cfg: Config, w: World, ev: Event) {
    && w.up
    && match ev
       case Batch(batch, writeOk) =>
         var result := AppendBatch(w.st, batch, cfg.len, cfg.maxBytes, writeOk).result;
         result.Ok? && result.value > 0
       case Collect(writeOk) => writeOk && |Gc(w.st, w.now).records| < |w.st.records|
       case _ => false
  }

  /** Once the step is taken, the agent has a protecting record in memory: it has one or the batch brings one. */
  predicate Knows(w: World, ev: Event, id: TicketId, T: nat) {
    || Has(w.st.records, id, T)
    || (ev.Batch? && Novel(w.st.ids, ev.batch).Some? && Has(Novel(w.st.ids, ev.batch).value, id, T))
  }

  lemma HasConcatIff(a: seq<Record>, b: seq<Record>, id: TicketId, T: nat)
    ensures Has(a + b, id, T) <==> Has(a, id, T) || Has(b, id, T)
  {
    if Has(a, id, T) {
      HasConcat(a, b, id, T);
    }
    if Has(b, id, T) {
      var r :| r in b && r.id == Some(id) && Protects(r, T);
      assert r in a + b;
    }
  }

  /** A record in the file is lost before T exactly when the agent overwrites the file without knowing of it. */
  lemma StepKeepsDisk(cfg: Config, w: World, ev: Event, id: TicketId, T: nat)
    requires DiskHas(w, id, T) && w.now < T
    ensures DiskHas(Step(cfg, w, ev), id, T) <==> !(Overwrites(cfg, w, ev) && !Knows(w, ev, id, T))
  {
    match ev
    case OutsideAppend(record) => HasConcat(w.st.disk.value, [record], id, T);
    case Start(writeOk) => HasRetained(w.st.disk.value, id, T, w.now);
    case Collect(writeOk) =>
      HasRetained(w.st.records, id, T, w.now);
      RetainMembers(w.st.records, w.now);
    case Batch(batch, writeOk) =>
      if Novel(w.st.ids, batch).Some? {
        HasConcatIff(w.st.records, Novel(w.st.ids, batch).value, id, T);
      }
    case _ =>
  }

  predicate NoOverwrite(cfg: Config, w: World, evs: seq<Event>) {
    forall i :: 0 <= i < |evs| ==> !Overwrites(cfg, Run(cfg, w, evs[..i]), evs[i])
  }

  lemma StepClock(cfg: Config, w: World, ev: Event)
    ensures w.now <= Step(cfg, w, ev).now
  {
  }

  lemma {:induction false} RunKeepsDisk(cfg: Config, w: World, evs: seq<Event>, id: TicketId, T: nat)
    requires DiskHas(w, id, T) && NoOverwrite(cfg, w, evs) && Run(cfg, w, evs).now < T
    ensures DiskHas(Run(cfg, w, evs), id, T)
    decreases |evs|
  {
    if evs != [] {
      var n := |evs| - 1;
      var init := evs[..n];
      forall i | 0 <= i < |init|
        ensures !Overwrites(cfg, Run(cfg, w, init[..i]), init[i])
      {
        assert init[..i] == evs[..i] && init[i] == evs[i];
      }
      StepClock(cfg, Run(cfg, w, init), evs[n]);
      RunKeepsDisk(cfg, w, init, id, T);
      StepKeepsDisk(cfg, Run(cfg, w, init), evs[n], id, T);
    }
  }

  /** The agent takes over what is in the file: a sync while it runs or a start, of a file that loads. */
  predicate TakesOver(cfg: Config, w: World, ev: Event) {
    && w.st.disk.Some? && AllDecode(w.st.disk.value)
    && ((ev.Sync? && w.up) || (ev.Start? && !w.up && Step(cfg, w, ev).up))
  }

  /**
   * A record that only the file has, such as one that another process appended, guards its
   * id from the next sync or start on, if no write of the agent came before it.
   */
  lemma TakeOverGuards(cfg: Config, w: World, evs: seq<Event>, ev: Event, id: TicketId, T: nat)
    requires DiskHas(w, id, T) && NoOverwrite(cfg, w, evs) && TakesOver(cfg, Run(cfg, w, evs), ev)
    ensures Guarded(Step(cfg, Run(cfg, w, evs), ev), id, T)
  {
    var w' := Run(cfg, w, evs);
    if w'.now < T {
      RunKeepsDisk(cfg, w, evs, id, T);
      HasRetained(w'.st.disk.value, id, T, w'.now);
    }
  }

  /** An append while the agent is down guards at once. */
  lemma AppendWhileDownGuards(cfg: Config, w: World, r: Record, T: nat)
    requires !w.up && r.id.Some? && Protects(r, T)
    ensures Guarded(Step(cfg, w, OutsideAppend(r)), r.id.value, T)
  {
    var before := if w.st.disk.Some? then w.st.disk.value else [];
    assert r in before + [r];
  }

  /**
   * An append by another process that the agent overwrites before it syncs is lost, from the
   * file and for good: no bound on the record's expiry helps.
   */
  lemma OverwrittenAppendLost(cfg: Config, w: World, r: Record, batch: seq<Record>)
    requires w.up && Consistent(w.st) && r.id.Some? && r.id.value !in w.st.ids && r.id.value !in IdsOf(batch)
    requires Overwrites(cfg, Step(cfg, w, OutsideAppend(r)), Batch(batch, true))
    ensures var w' := Run(cfg, w, [OutsideAppend(r), Batch(batch, true)]);
            && w'.up && w'.now == w.now && r.id.value !in w'.st.ids
            && w'.st.disk == Some(w'.st.records) && r !in w'.st.records
  {
    RunTwo(cfg, w, OutsideAppend(r), Batch(batch, true));
    RunConsistent(cfg, w, [OutsideAppend(r), Batch(batch, true)]);
    NovelIds(w.st.ids, batch);
  }

  const IDLE: State := State({}, [], None, map[], {})

  lemma OneRecord(ids: set<TicketId>, r: Record, len: Record -> nat)
    requires r.id.Some? && r.id.value !in ids
    ensures Novel(ids, [r]) == Some([r]) && TotalLength([r], len) == len(r)
  {
    var rest := [r][1..];
    assert rest == [];
    assert [r] + rest == [r];
  }

  /** Such a run exists from an empty agent, for any two records of different ids that fit the file. */
  lemma AppendLostFromEmpty(cfg: Config, r: Record, q: Record, now: nat)
    requires r.id.Some? && q.id.Some? && r.id != q.id && cfg.len(r) + cfg.len(q) <= cfg.maxBytes
    ensures var w' := Run(cfg, World(true, IDLE, now), [OutsideAppend(r), Batch([q], true)]);
            w'.up && w'.now == now && r.id.value !in w'.st.ids && w'.st.disk == Some([q])
  {
    var w := World(true, IDLE, now);
    assert [] + [r] == [r] && [] + [q] == [q];
    assert Step(cfg, w, OutsideAppend(r)).st.disk == Some([r]);
    OneRecord({}, q, cfg.len);
    OneRecord({}, r, cfg.len);
    RunTwo(cfg, w, OutsideAppend(r), Batch([q], true));
    IdsOfOne(q);
  }

  // ---------- Offers ----------

  /** An offer that the running agent evaluates now. */
  predicate SeenBy(input: Input, w: World) {
    w.up && input.revoked == w.st.ids && input.now == w.now
  }

  lemma GuardedRejects(p: Primitives, input: Input, w: World, t: Ticket, T: nat)
    requires SeenBy(input, w) && Consistent(w.st) && Guarded(w, p.ticketId(t.sig), T) && t.body.notAfter <= T
    requires TicketsOf(p, input.offer).Some? && t in TicketsOf(p, input.offer).value
    ensures EvaluateOffer(p, input).Rejected?
  {
    AcceptedIff(p, input);
    var all := TicketsOf(p, input.offer).value;
    if w.now < T {
      var r :| r in w.st.records && r.id == Some(p.ticketId(t.sig)) && Protects(r, T);
      assert p.ticketId(t.sig) in w.st.ids;
    } else if ChainHolds(p, all, input.trustRoots) {
      var i :| 0 <= i < |all| && all[i] == t;
      ChainWindows(p, all, input.trustRoots, i, |all| - 1);
      assert CheckWindow(all[|all| - 1], input.now).Some?;
    }
  }

  /**
   * From a guarded state no offer that contains the ticket is ever accepted again, over any
   * run of appends, insertions, collections with or without a successful write, disk syncs,
   * outside appends, stops and starts.
   */
  lemma RevokedForever(p: Primitives, cfg: Config, w: World, evs: seq<Event>, input: Input, t: Ticket)
    requires Consistent(w.st) && Guarded(w, p.ticketId(t.sig), t.body.notAfter)
    requires SeenBy(input, Run(cfg, w, evs))
    requires TicketsOf(p, input.offer).Some? && t in TicketsOf(p, input.offer).value
    ensures EvaluateOffer(p, input).Rejected?
  {
    RunConsistent(cfg, w, evs);
    RunGuarded(cfg, w, evs, p.ticketId(t.sig), t.body.notAfter);
    GuardedRejects(p, input, Run(cfg, w, evs), t, t.body.notAfter);
  }

  /** From a state that is not guarded a run forgets the id, and learns no other. */
  lemma UnguardedForgets(cfg: Config, w: World, id: TicketId, T: nat) returns (evs: seq<Event>)
    requires Consistent(w.st) && !Guarded(w, id, T)
    ensures var w' := Run(cfg, w, evs);
            w'.up && w'.now == T - 1 && id !in w'.st.ids && w'.st.ids <= w.st.ids + DiskIds(w)
  {
    if w.up && !Has(w.st.records, id, T) {
      evs := [Tick(T - 1), Collect(true)];
      CollectForgets(cfg, w, id, T, true);
    } else {
      evs := [Stop, Tick(T - 1), Start(true)];
      RestartForgets(cfg, w, id, T);
    }
  }

  /** The offer passes every stage but revocation, up to the last second of its terminal ticket. */
  ghost predicate PassesTheRest(p: Primitives, input: Input) {
    && input.rateOk && TicketsOf(p, input.offer).Some?
    && var all := TicketsOf(p, input.offer).value;
       var terminal := all[|all| - 1];
       && ChainHolds(p, all, input.trustRoots) && CheckProof(p, terminal, input.offer).None?
       && CheckWindow(terminal, terminal.body.notAfter - 1).None?
       && (input.mode == Gateway <==> terminal.body.bearer.Some?)
  }

  /** The offer as the running agent would evaluate it now. */
  function SeenIn(input: Input, w: World): Input {
    input.(revoked := w.st.ids, now := w.now)
  }

  /**
   * From a state that does not guard a ticket of an offer that passes every other stage, until
   * the offer expires, some run accepts it, unless another of its tickets is revoked.
   */
  lemma UnguardedAccepts(p: Primitives, cfg: Config, w: World, input: Input, t: Ticket) returns (evs: seq<Event>)
    requires Consistent(w.st) && PassesTheRest(p, input) && t in TicketsOf(p, input.offer).value
    requires var all := TicketsOf(p, input.offer).value;
             && !Guarded(w, p.ticketId(t.sig), all[|all| - 1].body.notAfter)
             && forall u :: u in all && p.ticketId(u.sig) != p.ticketId(t.sig) ==>
                  p.ticketId(u.sig) !in w.st.ids && p.ticketId(u.sig) !in DiskIds(w)
    ensures var w' := Run(cfg, w, evs);
            SeenBy(SeenIn(input, w'), w') && EvaluateOffer(p, SeenIn(input, w')).Accepted?
  {
    var all := TicketsOf(p, input.offer).value;
    var T := all[|all| - 1].body.notAfter;
    evs := UnguardedForgets(cfg, w, p.ticketId(t.sig), T);
    AcceptedIff(p, SeenIn(input, Run(cfg, w, evs)));
  }

  // ---------- The object of the original ----------

  lemma TokensOfUnion(live: Live, a: set<TicketId>, b: set<TicketId>)
    ensures TokensOf(live, a + b) == TokensOf(live, a) + TokensOf(live, b)
  {
  }

  lemma {:induction false} TotalLengthConcat(a: seq<Record>, b: seq<Record>, len: Record -> nat)
    ensures TotalLength(a + b, len) == TotalLength(a, len) + TotalLength(b, len)
    decreases |a|
  {
    if a == [] {
      assert a + b == b;
    } else {
      assert (a + b)[1..] == a[1..] + b;
      TotalLengthConcat(a[1..], b, len);
    }
  }

  lemma TotalLengthSnoc(a: seq<Record>, r: Record, len: Record -> nat)
    ensures TotalLength(a + [r], len) == TotalLength(a, len) + len(r)
  {
    TotalLengthConcat(a, [r], len);
    assert [r][1..] == [];
  }

  function SetOf(chain: seq<TicketId>): set<TicketId> {
    set id | id in chain
  }

  function Prepended(pending: seq<Record>, rest: Option<seq<Record>>): Option<seq<Record>> {
    if rest.None? then None else Some(pending + rest.value)
  }

  lemma NovelStep(ids: set<TicketId>, batch: seq<Record>, i: nat, selected: seq<Record>)
    requires i < |batch|
    ensures Prepended(selected, Novel(ids, batch[i..]))
         == if batch[i].id.None? then None
            else if batch[i].id.value in ids then Prepended(selected, Novel(ids, batch[i + 1..]))
            else Prepended(selected + [batch[i]], Novel(ids + {batch[i].id.value}, batch[i + 1..]))
  {
    assert batch[i..][1..] == batch[i + 1..];
    if batch[i].id.Some? {
      var id := batch[i].id.value;
      assert id in ids ==> ids + {id} == ids;
      var rest := Novel(ids + {id}, batch[i + 1..]);
      assert rest.Some? ==> selected + ([batch[i]] + rest.value) == (selected + [batch[i]]) + rest.value;
    }
  }

  lemma RegisterMore(live: Live, sid: SessionId, done: set<TicketId>, token: Token, id: TicketId)
    requires id !in done
    ensures var before := Register(live, sid, done, token);
            Register(live, sid, done + {id}, token)
            == before[id := EntryOf(before, id)[sid := token]]
  {
  }

  lemma DeregisterMore(live: Live, sid: SessionId, done: set<TicketId>, id: TicketId)
    requires id !in done
    ensures var before := Deregister(live, sid, done);
            Deregister(live, sid, done + {id})
            == if id !in before then before
               else if before[id] - {sid} == map[] then before - {id}
               else before[id := before[id] - {sid}]
  {
  }

  class RevocationSet {
    var ids: set<TicketId>
    var records: seq<Record>
    var disk: Option<seq<Record>>
    var live: Live
    var cancelled: set<Token>
    const len: Record -> nat
    const maxBytes: nat

    ghost function Abs(): State
      reads this
    {
      State(ids, records, disk, live, cancelled)
    }

    ghost predicate Valid()
      reads this
    {
      Consistent(Abs())
    }

    /** The records as read from the file, before anything is collected. */
    constructor (disk: Option<seq<Record>>, cancelled: set<Token>, len: Record -> nat, maxBytes: nat)
      ensures var read := if disk.Some? then disk.value else [];
              Valid() && Abs() == State(IdsOf(read), read, disk, map[], cancelled)
      ensures this.len == len && this.maxBytes == maxBytes
    {
      var read := if disk.Some? then disk.value else [];
      ids, records, live := IdsOf(read), read, map[];
      this.disk, this.cancelled := disk, cancelled;
      this.len, this.maxBytes := len, maxBytes;
    }

    /** A start: the file is read, collected, and written back if that removed anything. */
    static method LoadWithMaxBytes(disk: Option<seq<Record>>, cancelled: set<Token>, now: nat, writeOk: bool,
                                   len: Record -> nat, maxBytes: nat)
      returns (r: Option<RevocationSet>)
      ensures r.Some? <==> Load(disk, cancelled, now, writeOk).Some?
      ensures r.Some? ==> fresh(r.value) && r.value.Valid() && r.value.len == len && r.value.maxBytes == maxBytes
      ensures r.Some? ==> Some(r.value.Abs()) == Load(disk, cancelled, now, writeOk)
    {
      if disk.Some? {
        for i := 0 to |disk.value|
          invariant forall k :: 0 <= k < i ==> disk.value[k].id.Some?
        {
          if disk.value[i].id.None? {
            return None;
          }
        }
      }
      var loaded := new RevocationSet(disk, cancelled, len, maxBytes);
      var removed := loaded.CollectGarbage(now);
      if removed > 0 {
        if !writeOk {
          return None;
        }
        loaded.disk := Some(loaded.records);
      }
      r := Some(loaded);
    }

    method CancelLiveSessions(id: TicketId)
      modifies this`cancelled
      ensures cancelled == old(cancelled) + TokensOf(live, {id})
    {
      if id in live {
        var todo := live[id].Keys;
        ghost var before := cancelled;
        while todo != {}
          invariant todo <= live[id].Keys
          invariant cancelled == before + set sid | sid in live[id] && sid !in todo :: live[id][sid]
        {
          var sid :| sid in todo;
          cancelled := cancelled + {live[id][sid]};
          todo := todo - {sid};
        }
        assert TokensOf(live, {id}) == set sid | sid in live[id] :: live[id][sid];
      } else {
        assert TokensOf(live, {id}) == {};
      }
    }

    method InsertOne(record: Record) returns (added: bool)
      requires Valid()
      modifies this
      ensures Valid() && Abs() == InsertRecord(old(Abs()), record)
      ensures added <==> record.id.Some? && record.id.value !in old(ids)
    {
      ghost var st := Abs();
      AgentStepConsistent(Config(len, maxBytes), st, 0, Insert(record));
      if record.id.None? || record.id.value in ids {
        return false;
      }
      ids := ids + {record.id.value};
      records := records + [record];
      CancelLiveSessions(record.id.value);
      return true;
    }

    /** `insert`: a manual record, without times. */
    method InsertManual(id: TicketId) returns (added: bool)
      requires Valid()
      modifies this
      ensures Valid() && Abs() == InsertRecord(old(Abs()), Manual(id))
      ensures added <==> id !in old(ids)
    {
      added := InsertOne(Manual(id));
    }

    /** The loop of the append: which records are new, the ids after them and their encoded length. */
    method SelectNovel(batch: seq<Record>) returns (pending: Option<seq<Record>>, newIds: set<TicketId>, bytes: nat)
      ensures pending == Novel(ids, batch)
      ensures pending.Some? ==> newIds == ids + IdsOf(pending.value)
      ensures pending.Some? ==> bytes == SaturatingAdd(0, TotalLength(pending.value, len), U64_MAX)
    {
      newIds, bytes := ids, 0;
      var selected := [];
      assert batch[0..] == batch;
      assert Novel(ids, batch).Some? ==> selected + Novel(ids, batch).value == Novel(ids, batch).value;
      for i := 0 to |batch|
        invariant Novel(ids, batch) == Prepended(selected, Novel(newIds, batch[i..]))
        invariant newIds == ids + IdsOf(selected)
        invariant bytes == SaturatingAdd(0, TotalLength(selected, len), U64_MAX)
      {
        NovelStep(newIds, batch, i, selected);
        if batch[i].id.None? {
          return None, newIds, bytes;
        }
        if batch[i].id.value !in newIds {
          IdsOfConcat(selected, [batch[i]]);
          IdsOfOne(batch[i]);
          TotalLengthSnoc(selected, batch[i], len);
          newIds := newIds + {batch[i].id.value};
          bytes := SaturatingAdd(bytes, len(batch[i]), U64_MAX);
          selected := selected + [batch[i]];
        }
      }
      assert selected + [] == selected;
      pending := Some(selected);
    }

    method AppendBatchAtomic(batch: seq<Record>, writeOk: bool) returns (r: Result<nat, AppendError>)
      requires Valid()
      modifies this
      ensures Valid()
      ensures Appended(Abs(), r) == AppendBatch(old(Abs()), batch, len, maxBytes, writeOk)
    {
      AgentStepConsistent(Config(len, maxBytes), Abs(), 0, Batch(batch, writeOk));
      if batch == [] {
        return Ok(0);
      }
      var currentBytes := FileLength(disk, len);
      var pending, newIds, appendBytes := SelectNovel(batch);
      if pending.None? {
        return Err(InvalidRecord);
      }
      if pending.value == [] {
        return Ok(0);
      }
      if SaturatingAdd(currentBytes, appendBytes, U64_MAX) > maxBytes {
        return Err(SizeCeilingExceeded);
      }
      if !writeOk {
        return Err(Io);
      }
      var updated := records + pending.value;
      disk := Some(updated);
      records := updated;
      ids := newIds;
      CancelAll(IdsOf(pending.value));
      return Ok(|pending.value|);
    }

    method CancelAll(revoked: set<TicketId>)
      modifies this`cancelled
      ensures cancelled == old(cancelled) + TokensOf(live, revoked)
    {
      var todo := revoked;
      assert TokensOf(live, {}) == {};
      while todo != {}
        invariant todo <= revoked
        invariant cancelled == old(cancelled) + TokensOf(live, revoked - todo)
      {
        var id :| id in todo;
        CancelLiveSessions(id);
        TokensOfUnion(live, revoked - todo, {id});
        assert revoked - (todo - {id}) == (revoked - todo) + {id};
        todo := todo - {id};
      }
      assert revoked - {} == revoked;
    }

    method CollectGarbage(now: nat) returns (removed: nat)
      requires Valid()
      modifies this`ids, this`records
      ensures Valid() && Abs() == Gc(old(Abs()), now)
      ensures removed == old(|records|) - |records|
    {
      var kept := RetainKept(records, now);
      RetainMembers(records, now);
      removed := |records| - |kept|;
      records := kept;
      ids := IdsOf(kept);
    }

    static method RetainKept(records: seq<Record>, now: nat) returns (kept: seq<Record>)
      ensures kept == Retain(records, now)
    {
      kept := [];
      assert records[0..] == records;
      for i := 0 to |records|
        invariant Retain(records, now) == kept + Retain(records[i..], now)
      {
        var rest := records[i..];
        assert rest[1..] == records[i + 1..];
        if Keep(records[i], now) {
          assert kept + ([records[i]] + Retain(rest[1..], now)) == (kept + [records[i]]) + Retain(rest[1..], now);
          kept := kept + [records[i]];
        } else {
          assert [] + Retain(rest[1..], now) == Retain(rest[1..], now);
        }
      }
      assert kept + [] == kept;
    }

    method ReloadFromDisk() returns (added: Option<nat>)
      requires Valid()
      modifies this
      ensures Valid() && Abs() == SyncFromDisk(old(Abs()))
      ensures added.Some? ==> added.value == |ids - old(ids)|
    {
      assert ids - ids == {};
      if disk.None? {
        return Some(0);
      }
      if !AllDecode(disk.value) {
        return None;
      }
      var loaded := IdsOf(disk.value);
      var news := loaded - ids;
      records := disk.value;
      ids := loaded;
      CancelAll(news);
      return Some(|news|);
    }

    method RegisterLiveSession(sid: SessionId, chain: seq<TicketId>, token: Token)
      requires Valid()
      modifies this`live
      ensures Valid() && live == Register(old(live), sid, SetOf(chain), token)
    {
      var unique := SetOf(chain);
      RegisterNoEmpty(live, sid, unique, token);
      var todo := unique;
      ghost var before := live;
      while todo != {}
        invariant todo <= unique
        invariant live == Register(before, sid, unique - todo, token)
      {
        var id :| id in todo;
        RegisterMore(before, sid, unique - todo, token, id);
        live := live[id := EntryOf(live, id)[sid := token]];
        assert unique - (todo - {id}) == (unique - todo) + {id};
        todo := todo - {id};
      }
      assert unique - {} == unique;
    }

    method DeregisterLiveSession(sid: SessionId, chain: seq<TicketId>)
      requires Valid()
      modifies this`live
      ensures Valid() && live == Deregister(old(live), sid, SetOf(chain))
    {
      var unique := SetOf(chain);
      DeregisterNoEmpty(live, sid, unique);
      var todo := unique;
      ghost var before := live;
      while todo != {}
        invariant todo <= unique
        invariant live == Deregister(before, sid, unique - todo)
      {
        var id :| id in todo;
        DeregisterMore(before, sid, unique - todo, id);
        if id in live {
          var sessions := live[id] - {sid};
          if sessions == map[] {
            live := live - {id};
          } else {
            live := live[id := sessions];
          }
        }
        assert unique - (todo - {id}) == (unique - todo) + {id};
        todo := todo - {id};
      }
      assert unique - {} == unique;
    }
  }
}
