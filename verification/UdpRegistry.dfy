/**
 * The UDP session registry: sessions that attach to a connection, linger when
 * their last control stream ends and expire, under a quota per connection.
 * Each registry method is one atomic step.
 */
module UdpRegistry {
  import opened Prelude

  const MAX_SESSIONS_PER_CONNECTION: nat := 16

  /** 0 stands for the all-zero id, which asks for a new session. */
  type SessionId = nat
  type ConnId = nat
  type Owner = seq<byte>
  type Binds = seq<byte>

  datatype Session = Session(owner: Owner, binds: Binds, conn: Option<ConnId>, active: nat, linger: Option<nat>)

  type Sessions = map<SessionId, Session>

  datatype State = State(sessions: Sessions, counts: map<ConnId, nat>)

  datatype Error = Unresolved | OwnerMismatch | QuotaExceeded

  // ---------- The counters ----------

  function Count(counts: map<ConnId, nat>, c: ConnId): nat {
    if c in counts then counts[c] else 0
  }

  function Increment(counts: map<ConnId, nat>, c: ConnId): map<ConnId, nat> {
    counts[c := Count(counts, c) + 1]
  }

  function Decrement(counts: map<ConnId, nat>, c: ConnId): map<ConnId, nat> {
    if c !in counts then counts
    else if counts[c] <= 1 then counts - {c}
    else counts[c := counts[c] - 1]
  }

  // ---------- One session ----------

  predicate Expired(s: Session, now: nat) {
    s.linger.Some? && s.linger.value <= now
  }

  datatype Attach = Attached(s: Session, counts: bool) | CreateFresh | Refused(error: Error)

  function AttachSession(s: Session, binds: Binds, conn: ConnId, owner: Owner): Attach {
    if s.owner != owner then Refused(OwnerMismatch)
    else if s.conn == Some(conn) then
      Attached(s.(binds := binds, linger := None, active := s.active + 1), false)
    else if s.conn.Some? && s.linger.None? then CreateFresh
    else Attached(s.(binds := binds, conn := Some(conn), linger := None, active := 1), true)
  }

  /** The session after one of its control streams on the connection ends, and whether it now lingers. */
  function EndControl(s: Session, conn: ConnId, deadline: nat): (Session, bool) {
    if s.conn != Some(conn) then (s, false)
    else if s.active > 1 then (s.(active := s.active - 1), false)
    else (s.(active := 0, conn := None, linger := Some(deadline)), true)
  }

  // ---------- The registry ----------

  function RemoveSession(st: State, id: SessionId): State {
    if id !in st.sessions then st
    else
      var conn := st.sessions[id].conn;
      State(st.sessions - {id}, if conn.Some? then Decrement(st.counts, conn.value) else st.counts)
  }

  datatype Reply = Reply(st: State, result: Result<SessionId, Error>)

  function Create(st: State, binds: Binds, conn: ConnId, owner: Owner, newId: SessionId): Reply {
    if Count(st.counts, conn) >= MAX_SESSIONS_PER_CONNECTION then Reply(st, Err(QuotaExceeded))
    else Reply(State(st.sessions[newId := Session(owner, binds, Some(conn), 1, None)], Increment(st.counts, conn)),
               Ok(newId))
  }

  /** Attaching changes the session before the quota is looked at. */
  function Reattach(st: State, id: SessionId, s: Session, counts: bool, conn: ConnId): Reply {
    var st' := st.(sessions := st.sessions[id := s]);
    if !counts then Reply(st', Ok(id))
    else if Count(st.counts, conn) >= MAX_SESSIONS_PER_CONNECTION then Reply(st', Err(QuotaExceeded))
    else Reply(st'.(counts := Increment(st.counts, conn)), Ok(id))
  }

  datatype Request = Request(id: SessionId, binds: Option<Binds>, conn: ConnId, owner: Owner, now: nat, newId: SessionId)

  /** The id drawn for a new session is not zero and not in use once an expired namesake is gone. */
  predicate GoodDraw(st: State, r: Request) {
    r.newId != 0 && (r.newId in st.sessions ==> r.newId == r.id && Expired(st.sessions[r.id], r.now))
  }

  function AttachOrCreate(st: State, r: Request): Reply {
    if r.binds.None? then Reply(st, Err(Unresolved))
    else if r.id == 0 || r.id !in st.sessions then Create(st, r.binds.value, r.conn, r.owner, r.newId)
    else if Expired(st.sessions[r.id], r.now) then
      Create(RemoveSession(st, r.id), r.binds.value, r.conn, r.owner, r.newId)
    else
      match AttachSession(st.sessions[r.id], r.binds.value, r.conn, r.owner)
      case Refused(error) => Reply(st, Err(error))
      case CreateFresh => Create(st, r.binds.value, r.conn, r.owner, r.newId)
      case Attached(s, counts) => Reattach(st, r.id, s, counts, r.conn)
  }

  /** `get_live` removes an expired session it is asked for. */
  function GetLive(st: State, id: SessionId, now: nat): State {
    if id in st.sessions && Expired(st.sessions[id], now) then RemoveSession(st, id) else st
  }

  function MarkLinger(st: State, id: SessionId, conn: ConnId, now: nat, deadline: nat): State {
    var st' := GetLive(st, id, now);
    if id !in st'.sessions then st'
    else
      var (s, lingers) := EndControl(st'.sessions[id], conn, deadline);
      State(st'.sessions[id := s], if lingers then Decrement(st'.counts, conn) else st'.counts)
  }

  function GcExpired(st: State, now: nat): State {
    st.(sessions := map id | id in st.sessions && !Expired(st.sessions[id], now) :: st.sessions[id])
  }

  // ---------- Counting the sessions of a connection ----------

  function AttachedTo(sessions: Sessions, c: ConnId): set<SessionId> {
    set id | id in sessions && sessions[id].conn == Some(c)
  }

  function Here(sessions: Sessions, id: SessionId, c: ConnId): nat {
    if id in sessions && sessions[id].conn == Some(c) then 1 else 0
  }

  lemma CountUpdate(sessions: Sessions, id: SessionId, s: Session, c: ConnId)
    ensures |AttachedTo(sessions[id := s], c)|
         == |AttachedTo(sessions, c)| - Here(sessions, id, c) + (if s.conn == Some(c) then 1 else 0)
  {
    var before, after := AttachedTo(sessions, c), AttachedTo(sessions[id := s], c);
    if s.conn == Some(c) {
      assert after == before + {id};
    } else {
      assert after == before - {id};
    }
  }

  lemma CountRemove(sessions: Sessions, id: SessionId, c: ConnId)
    ensures |AttachedTo(sessions - {id}, c)| == |AttachedTo(sessions, c)| - Here(sessions, id, c)
  {
    assert AttachedTo(sessions - {id}, c) == AttachedTo(sessions, c) - {id};
  }

  // ---------- What every state keeps ----------

  /** Having a connection, having no deadline and having an active control stream are the same thing. */
  predicate SessionOk(s: Session) {
    (s.conn.Some? <==> s.linger.None?) && (s.conn.Some? <==> s.active >= 1)
  }

  predicate SessionsOk(sessions: Sessions) {
    forall id :: id in sessions ==> SessionOk(sessions[id])
  }

  predicate CountOk(st: State, c: ConnId) {
    && (c in st.counts ==> 1 <= st.counts[c] <= MAX_SESSIONS_PER_CONNECTION)
    && Count(st.counts, c) <= |AttachedTo(st.sessions, c)|
  }

  ghost predicate Inv(st: State) {
    SessionsOk(st.sessions) && forall c :: CountOk(st, c)
  }

  predicate CountExact(st: State, c: ConnId) {
    Count(st.counts, c) == |AttachedTo(st.sessions, c)|
  }

  ghost predicate Exact(st: State) {
    forall c :: CountExact(st, c)
  }

  lemma RemoveExpiredInv(st: State, id: SessionId, now: nat)
    requires Inv(st) && id in st.sessions && Expired(st.sessions[id], now)
    ensures Inv(RemoveSession(st, id))
    ensures Exact(st) ==> Exact(RemoveSession(st, id))
  {
    var st' := RemoveSession(st, id);
    forall c
      ensures CountOk(st', c) && (CountExact(st, c) ==> CountExact(st', c))
    {
      assert CountOk(st, c);
      CountRemove(st.sessions, id, c);
    }
  }

  lemma CreateInv(st: State, binds: Binds, conn: ConnId, owner: Owner, newId: SessionId)
    requires Inv(st) && newId !in st.sessions
    ensures Inv(Create(st, binds, conn, owner, newId).st)
    ensures Exact(st) ==> Exact(Create(st, binds, conn, owner, newId).st)
  {
    var st' := Create(st, binds, conn, owner, newId).st;
    forall c
      ensures CountOk(st', c) && (CountExact(st, c) ==> CountExact(st', c))
    {
      assert CountOk(st, c);
      CountUpdate(st.sessions, newId, Session(owner, binds, Some(conn), 1, None), c);
    }
  }

  /** A re-attach that the quota refuses still attaches the session, uncounted. */
  predicate OverQuota(st: State, counts: bool, conn: ConnId) {
    counts && Count(st.counts, conn) >= MAX_SESSIONS_PER_CONNECTION
  }

  lemma ReattachInv(st: State, id: SessionId, s: Session, counts: bool, conn: ConnId)
    requires Inv(st) && id in st.sessions && SessionOk(s) && s.conn == Some(conn)
    requires if counts then st.sessions[id].conn.None? else st.sessions[id].conn == Some(conn)
    ensures Inv(Reattach(st, id, s, counts, conn).st)
    ensures Exact(st) ==> (Exact(Reattach(st, id, s, counts, conn).st) <==> !OverQuota(st, counts, conn))
  {
    var st' := Reattach(st, id, s, counts, conn).st;
    forall c
      ensures CountOk(st', c)
      ensures CountExact(st, c) && !(OverQuota(st, counts, conn) && c == conn) ==> CountExact(st', c)
    {
      assert CountOk(st, c);
      CountUpdate(st.sessions, id, s, c);
    }
    CountUpdate(st.sessions, id, s, conn);
    if Exact(st) {
      assert CountExact(st, conn);
      assert CountExact(st', conn) <==> !OverQuota(st, counts, conn);
    }
  }

  lemma EndControlInv(st: State, id: SessionId, conn: ConnId, deadline: nat)
    requires Inv(st) && id in st.sessions
    ensures var (s, lingers) := EndControl(st.sessions[id], conn, deadline);
            var st' := State(st.sessions[id := s], if lingers then Decrement(st.counts, conn) else st.counts);
            Inv(st') && (Exact(st) ==> Exact(st'))
  {
    var (s, lingers) := EndControl(st.sessions[id], conn, deadline);
    var st' := State(st.sessions[id := s], if lingers then Decrement(st.counts, conn) else st.counts);
    forall c
      ensures CountOk(st', c) && (CountExact(st, c) ==> CountExact(st', c))
    {
      assert CountOk(st, c);
      CountUpdate(st.sessions, id, s, c);
    }
  }

  lemma MarkLingerInv(st: State, id: SessionId, conn: ConnId, now: nat, deadline: nat)
    requires Inv(st)
    ensures Inv(MarkLinger(st, id, conn, now, deadline))
    ensures Exact(st) ==> Exact(MarkLinger(st, id, conn, now, deadline))
  {
    GetLiveInv(st, id, now);
    var st' := GetLive(st, id, now);
    if id in st'.sessions {
      EndControlInv(st', id, conn, deadline);
    }
  }

  lemma GetLiveInv(st: State, id: SessionId, now: nat)
    requires Inv(st)
    ensures Inv(GetLive(st, id, now)) && (Exact(st) ==> Exact(GetLive(st, id, now)))
  {
    if id in st.sessions && Expired(st.sessions[id], now) {
      RemoveExpiredInv(st, id, now);
    }
  }

  lemma GcExpiredInv(st: State, now: nat)
    requires Inv(st)
    ensures Inv(GcExpired(st, now)) && (Exact(st) ==> Exact(GcExpired(st, now)))
  {
    var st' := GcExpired(st, now);
    forall c
      ensures CountOk(st', c) && (CountExact(st, c) ==> CountExact(st', c))
    {
      assert CountOk(st, c);
      assert AttachedTo(st'.sessions, c) == AttachedTo(st.sessions, c);
    }
  }

  /** The request re-attaches a lingering session of its owner to a connection that is at its quota. */
  predicate ReattachRefused(st: State, r: Request) {
    && r.binds.Some? && r.id != 0 && r.id in st.sessions
    && !Expired(st.sessions[r.id], r.now)
    && st.sessions[r.id].owner == r.owner
    && st.sessions[r.id].conn.None?
    && Count(st.counts, r.conn) >= MAX_SESSIONS_PER_CONNECTION
  }

  /** The counting equality survives a request exactly when it is not a refused re-attach. */
  lemma AttachOrCreateInv(st: State, r: Request)
    requires Inv(st) && GoodDraw(st, r)
    ensures Inv(AttachOrCreate(st, r).st)
    ensures Exact(st) ==> (Exact(AttachOrCreate(st, r).st) <==> !ReattachRefused(st, r))
  {
    if r.binds.Some? {
      if r.id == 0 || r.id !in st.sessions {
        CreateInv(st, r.binds.value, r.conn, r.owner, r.newId);
      } else if Expired(st.sessions[r.id], r.now) {
        RemoveExpiredInv(st, r.id, r.now);
        CreateInv(RemoveSession(st, r.id), r.binds.value, r.conn, r.owner, r.newId);
      } else {
        assert SessionOk(st.sessions[r.id]);
        match AttachSession(st.sessions[r.id], r.binds.value, r.conn, r.owner)
        case Refused(_) =>
        case CreateFresh => CreateInv(st, r.binds.value, r.conn, r.owner, r.newId);
        case Attached(s, counts) => ReattachInv(st, r.id, s, counts, r.conn);
      }
    }
  }

  // ---------- What a request gets ----------

  /** The request names a session that is there and has not expired. */
  predicate NamesLive(st: State, r: Request) {
    r.id != 0 && r.id in st.sessions && !Expired(st.sessions[r.id], r.now)
  }

  /** The request names a live session of its owner on its own connection. */
  predicate Resumes(st: State, r: Request) {
    NamesLive(st, r) && st.sessions[r.id].owner == r.owner && st.sessions[r.id].conn == Some(r.conn)
  }

  /**
   * Exactly when each error is reported; otherwise the session granted is the owner's, attached to
   * the connection with the requested binds, and it is the one asked for unless that one is not
   * live or is attached elsewhere.
   */
  lemma RequestMeaning(st: State, r: Request)
    requires Inv(st) && GoodDraw(st, r)
    ensures var reply := AttachOrCreate(st, r);
            && (reply.result == Err(Unresolved) <==> r.binds.None?)
            && (reply.result == Err(OwnerMismatch) <==>
                  r.binds.Some? && NamesLive(st, r) && st.sessions[r.id].owner != r.owner)
            && (reply.result == Err(QuotaExceeded) <==>
                  && r.binds.Some? && !(NamesLive(st, r) && st.sessions[r.id].owner != r.owner)
                  && !Resumes(st, r) && Count(st.counts, r.conn) >= MAX_SESSIONS_PER_CONNECTION)
            && (reply.result.Ok? ==>
                  var id := reply.result.value;
                  && id in reply.st.sessions
                  && var s := reply.st.sessions[id];
                  && s.owner == r.owner && Some(s.binds) == r.binds && s.conn == Some(r.conn) && s.linger.None?
                  && id == if NamesLive(st, r) && st.sessions[r.id].conn in {None, Some(r.conn)} then r.id else r.newId)
  {
    if r.id in st.sessions {
      assert SessionOk(st.sessions[r.id]);
    }
  }

  /** No other session is touched. */
  lemma RequestFrame(st: State, r: Request, other: SessionId)
    requires GoodDraw(st, r) && other != r.id && other != r.newId
    ensures other in AttachOrCreate(st, r).st.sessions <==> other in st.sessions
    ensures other in st.sessions ==> AttachOrCreate(st, r).st.sessions[other] == st.sessions[other]
  {
  }

  // ---------- Runs ----------

  type StreamId = nat

  /** A control stream whose request was accepted and whose end has not been recorded yet. */
  datatype Stream = Stream(id: SessionId, conn: ConnId)

  datatype World = World(st: State, streams: map<StreamId, Stream>)

  datatype Event =
    | Open(k: StreamId, r: Request)
    | Close(k: StreamId, now: nat, later: nat)
    | Datagram(id: SessionId, now: nat)
    | Collect(now: nat)
    | Shutdown

  const START: World := World(State(map[], map[]), map[])

  predicate Enabled(w: World, e: Event) {
    match e
    case Open(k, r) => k !in w.streams && GoodDraw(w.st, r)
    case Close(k, _, _) => k in w.streams
    case _ => true
  }

  function Step(linger: nat, w: World, e: Event): World
    requires Enabled(w, e)
  {
    match e
    case Open(k, r) =>
      var reply := AttachOrCreate(w.st, r);
      World(reply.st, if reply.result.Ok? then w.streams[k := Stream(reply.result.value, r.conn)] else w.streams)
    case Close(k, now, later) =>
      World(MarkLinger(w.st, w.streams[k].id, w.streams[k].conn, now, later + linger), w.streams - {k})
    case Datagram(id, now) => w.(st := GetLive(w.st, id, now))
    case Collect(now) => w.(st := GcExpired(w.st, now))
    case Shutdown => w.(st := State(map[], map[]))
  }

  predicate Runs(linger: nat, w: World, es: seq<Event>)
    decreases |es|
  {
    es == [] || (Enabled(w, es[0]) && Runs(linger, Step(linger, w, es[0]), es[1..]))
  }

  function Run(linger: nat, w: World, es: seq<Event>): World
    requires Runs(linger, w, es)
    decreases |es|
  {
    if es == [] then w else Run(linger, Step(linger, w, es[0]), es[1..])
  }

  // ---------- Control streams ----------

  function StreamsOf(streams: map<StreamId, Stream>, id: SessionId): set<StreamId> {
    set k | k in streams && streams[k].id == id
  }

  predicate StreamOk(w: World, k: StreamId) {
    k in w.streams ==>
      w.streams[k].id in w.st.sessions && w.st.sessions[w.streams[k].id].conn == Some(w.streams[k].conn)
  }

  predicate ActiveOk(w: World, id: SessionId) {
    id in w.st.sessions ==> w.st.sessions[id].active == |StreamsOf(w.streams, id)|
  }

  /** Every open control stream is on its session's connection, and the session counts exactly its streams. */
  ghost predicate Tracked(w: World) {
    (forall k :: StreamOk(w, k)) && (forall id :: ActiveOk(w, id))
  }

  lemma StreamsOfAdd(streams: map<StreamId, Stream>, k: StreamId, s: Stream, id: SessionId)
    requires k !in streams
    ensures |StreamsOf(streams[k := s], id)| == |StreamsOf(streams, id)| + (if s.id == id then 1 else 0)
  {
    if s.id == id {
      assert StreamsOf(streams[k := s], id) == StreamsOf(streams, id) + {k};
    } else {
      assert StreamsOf(streams[k := s], id) == StreamsOf(streams, id);
    }
  }

  lemma StreamsOfRemove(streams: map<StreamId, Stream>, k: StreamId, id: SessionId)
    requires k in streams
    ensures |StreamsOf(streams - {k}, id)| == |StreamsOf(streams, id)| - (if streams[k].id == id then 1 else 0)
  {
    assert StreamsOf(streams - {k}, id) == StreamsOf(streams, id) - {k};
  }

  lemma NoStreams(streams: map<StreamId, Stream>, id: SessionId)
    requires |StreamsOf(streams, id)| == 0
    ensures forall k :: k in streams ==> streams[k].id != id
  {
    forall k | k in streams
      ensures streams[k].id != id
    {
      assert k !in StreamsOf(streams, id);
    }
  }

  lemma NoSessionNoStreams(w: World, id: SessionId)
    requires Tracked(w) && id !in w.st.sessions
    ensures |StreamsOf(w.streams, id)| == 0
  {
    forall k
      ensures k !in StreamsOf(w.streams, id)
    {
      assert StreamOk(w, k);
    }
    assert StreamsOf(w.streams, id) == {};
  }

  lemma RemoveExpiredTracked(w: World, id: SessionId, now: nat)
    requires Inv(w.st) && Tracked(w) && id in w.st.sessions && Expired(w.st.sessions[id], now)
    ensures Tracked(w.(st := RemoveSession(w.st, id)))
  {
    var w' := w.(st := RemoveSession(w.st, id));
    forall k
      ensures StreamOk(w', k)
    {
      assert StreamOk(w, k);
    }
    forall i
      ensures ActiveOk(w', i)
    {
      assert ActiveOk(w, i);
    }
  }

  lemma CreateTracked(w: World, k: StreamId, binds: Binds, conn: ConnId, owner: Owner, newId: SessionId)
    requires Tracked(w) && newId !in w.st.sessions && k !in w.streams
    requires Count(w.st.counts, conn) < MAX_SESSIONS_PER_CONNECTION
    ensures Tracked(World(Create(w.st, binds, conn, owner, newId).st, w.streams[k := Stream(newId, conn)]))
  {
    var w' := World(Create(w.st, binds, conn, owner, newId).st, w.streams[k := Stream(newId, conn)]);
    forall j
      ensures StreamOk(w', j)
    {
      assert StreamOk(w, j);
    }
    NoSessionNoStreams(w, newId);
    forall i
      ensures ActiveOk(w', i)
    {
      assert ActiveOk(w, i);
      StreamsOfAdd(w.streams, k, Stream(newId, conn), i);
    }
  }

  lemma ReattachTracked(w: World, k: StreamId, id: SessionId, s: Session, counts: bool, conn: ConnId)
    requires Inv(w.st) && Tracked(w) && id in w.st.sessions && k !in w.streams && s.conn == Some(conn)
    requires if counts then w.st.sessions[id].conn.None? && s.active == 1
             else w.st.sessions[id].conn == Some(conn) && s.active == w.st.sessions[id].active + 1
    ensures var reply := Reattach(w.st, id, s, counts, conn);
            Tracked(World(reply.st, if reply.result.Ok? then w.streams[k := Stream(id, conn)] else w.streams))
            <==> !OverQuota(w.st, counts, conn)
  {
    var reply := Reattach(w.st, id, s, counts, conn);
    var w' := World(reply.st, if reply.result.Ok? then w.streams[k := Stream(id, conn)] else w.streams);
    assert ActiveOk(w, id) && SessionOk(w.st.sessions[id]);
    if counts {
      NoStreams(w.streams, id);
    }
    if OverQuota(w.st, counts, conn) {
      assert !ActiveOk(w', id);
    } else {
      forall j
        ensures StreamOk(w', j)
      {
        assert StreamOk(w, j);
      }
      forall i
        ensures ActiveOk(w', i)
      {
        assert ActiveOk(w, i);
        StreamsOfAdd(w.streams, k, Stream(id, conn), i);
      }
    }
  }

  lemma OpenTracked(linger: nat, w: World, k: StreamId, r: Request)
    requires Inv(w.st) && Tracked(w) && Enabled(w, Open(k, r))
    ensures Tracked(Step(linger, w, Open(k, r))) <==> !ReattachRefused(w.st, r)
  {
    if r.binds.Some? {
      if r.id == 0 || r.id !in w.st.sessions {
        OpenCreateTracked(w, k, r);
      } else if Expired(w.st.sessions[r.id], r.now) {
        RemoveExpiredTracked(w, r.id, r.now);
        OpenCreateTracked(w.(st := RemoveSession(w.st, r.id)), k, r);
      } else {
        assert SessionOk(w.st.sessions[r.id]);
        match AttachSession(w.st.sessions[r.id], r.binds.value, r.conn, r.owner)
        case Refused(_) =>
        case CreateFresh => OpenCreateTracked(w, k, r);
        case Attached(s, counts) => ReattachTracked(w, k, r.id, s, counts, r.conn);
      }
    }
  }

  lemma OpenCreateTracked(w: World, k: StreamId, r: Request)
    requires Tracked(w) && r.binds.Some? && r.newId !in w.st.sessions && k !in w.streams
    ensures var reply := Create(w.st, r.binds.value, r.conn, r.owner, r.newId);
            Tracked(World(reply.st, if reply.result.Ok? then w.streams[k := Stream(r.newId, r.conn)] else w.streams))
  {
    if Count(w.st.counts, r.conn) < MAX_SESSIONS_PER_CONNECTION {
      CreateTracked(w, k, r.binds.value, r.conn, r.owner, r.newId);
    } else {
      assert w == World(w.st, w.streams);
    }
  }

  lemma CloseTracked(linger: nat, w: World, k: StreamId, now: nat, later: nat)
    requires Inv(w.st) && Tracked(w) && k in w.streams
    ensures Tracked(Step(linger, w, Close(k, now, later)))
  {
    var w' := Step(linger, w, Close(k, now, later));
    var id := w.streams[k].id;
    assert StreamOk(w, k) && ActiveOk(w, id) && SessionOk(w.st.sessions[id]);
    StreamsOfRemove(w.streams, k, id);
    if w.st.sessions[id].active == 1 {
      NoStreams(w.streams - {k}, id);
    }
    forall j
      ensures StreamOk(w', j)
    {
      assert StreamOk(w, j);
    }
    forall i
      ensures ActiveOk(w', i)
    {
      assert ActiveOk(w, i);
      StreamsOfRemove(w.streams, k, i);
    }
  }

  lemma CollectTracked(linger: nat, w: World, now: nat)
    requires Inv(w.st) && Tracked(w)
    ensures Tracked(Step(linger, w, Collect(now)))
  {
    var w' := Step(linger, w, Collect(now));
    forall k
      ensures StreamOk(w', k)
    {
      assert StreamOk(w, k);
    }
    forall i
      ensures ActiveOk(w', i)
    {
      assert ActiveOk(w, i);
    }
  }

  // ---------- Every run ----------

  /** What a step must not be for the stream counts to stay right. */
  predicate Keeps(w: World, e: Event) {
    match e
    case Open(_, r) => !ReattachRefused(w.st, r)
    case Shutdown => w.streams == map[]
    case _ => true
  }

  predicate RunKeeps(linger: nat, w: World, es: seq<Event>)
    requires Runs(linger, w, es)
    decreases |es|
  {
    es == [] || (Keeps(w, es[0]) && RunKeeps(linger, Step(linger, w, es[0]), es[1..]))
  }

  lemma StepInv(linger: nat, w: World, e: Event)
    requires Inv(w.st) && Enabled(w, e)
    ensures Inv(Step(linger, w, e).st)
    ensures Exact(w.st) ==>
              (Exact(Step(linger, w, e).st) <==> !(e.Open? && ReattachRefused(w.st, e.r)))
  {
    match e
    case Open(k, r) => AttachOrCreateInv(w.st, r);
    case Close(k, now, later) => MarkLingerInv(w.st, w.streams[k].id, w.streams[k].conn, now, later + linger);
    case Datagram(id, now) => GetLiveInv(w.st, id, now);
    case Collect(now) => GcExpiredInv(w.st, now);
    case Shutdown => EmptyInv();
  }

  lemma EmptyInv()
    ensures Inv(START.st) && Exact(START.st)
  {
    forall c
      ensures CountOk(START.st, c) && CountExact(START.st, c)
    {
      assert AttachedTo(map[], c) == {};
    }
  }

  lemma StepTracked(linger: nat, w: World, e: Event)
    requires Inv(w.st) && Tracked(w) && Enabled(w, e)
    ensures Tracked(Step(linger, w, e)) <==> Keeps(w, e)
  {
    match e
    case Open(k, r) => OpenTracked(linger, w, k, r);
    case Close(k, now, later) => CloseTracked(linger, w, k, now, later);
    case Datagram(id, now) =>
      if id in w.st.sessions && Expired(w.st.sessions[id], now) {
        RemoveExpiredTracked(w, id, now);
      } else {
        assert Step(linger, w, e) == w;
      }
    case Collect(now) => CollectTracked(linger, w, now);
    case Shutdown => ShutdownTracked(linger, w);
  }

  lemma ShutdownTracked(linger: nat, w: World)
    ensures Tracked(Step(linger, w, Shutdown)) <==> w.streams == map[]
  {
    var w' := Step(linger, w, Shutdown);
    if w.streams != map[] {
      var k :| k in w.streams;
      assert !StreamOk(w', k);
    }
  }

  /**
   * Every reachable registry: a counter is never zero, never above the quota and
   * never above the number of attached sessions, and a session lingers exactly
   * when it has no connection and no control stream.
   */
  lemma {:induction false} RunInv(linger: nat, w: World, es: seq<Event>)
    requires Inv(w.st) && Runs(linger, w, es)
    ensures Inv(Run(linger, w, es).st)
    decreases |es|
  {
    if es != [] {
      StepInv(linger, w, es[0]);
      RunInv(linger, Step(linger, w, es[0]), es[1..]);
    }
  }

  lemma {:induction false} RunTracked(linger: nat, w: World, es: seq<Event>)
    requires Inv(w.st) && Exact(w.st) && Tracked(w) && Runs(linger, w, es) && RunKeeps(linger, w, es)
    ensures var w' := Run(linger, w, es); Inv(w'.st) && Exact(w'.st) && Tracked(w')
    decreases |es|
  {
    if es != [] {
      StepInv(linger, w, es[0]);
      StepTracked(linger, w, es[0]);
      RunTracked(linger, Step(linger, w, es[0]), es[1..]);
    }
  }

  lemma StartTracked()
    ensures Tracked(START)
  {
    assert forall k :: StreamOk(START, k);
    assert forall id :: ActiveOk(START, id);
  }

  /**
   * From an empty registry, with no re-attach refused by the quota and no shutdown
   * under open streams: the counters are the numbers of attached sessions, at most
   * the quota, and a session lingers exactly when its last control stream has ended.
   */
  lemma ReachableExact(linger: nat, es: seq<Event>, id: SessionId, c: ConnId)
    requires Runs(linger, START, es) && RunKeeps(linger, START, es)
    ensures var w := Run(linger, START, es);
            && Count(w.st.counts, c) == |AttachedTo(w.st.sessions, c)| <= MAX_SESSIONS_PER_CONNECTION
            && (id in w.st.sessions ==>
                  && w.st.sessions[id].active == |StreamsOf(w.streams, id)|
                  && (w.st.sessions[id].linger.Some? <==> StreamsOf(w.streams, id) == {}))
  {
    EmptyInv();
    StartTracked();
    RunTracked(linger, START, es);
    var w := Run(linger, START, es);
    assert CountOk(w.st, c) && CountExact(w.st, c) && ActiveOk(w, id);
    if id in w.st.sessions {
      assert SessionOk(w.st.sessions[id]);
    }
  }

  /** The end of a control stream: the last one detaches its session for the linger period, another leaves it attached. */
  lemma CloseMeaning(linger: nat, w: World, k: StreamId, now: nat, later: nat)
    requires Inv(w.st) && Tracked(w) && k in w.streams
    ensures var id := w.streams[k].id;
            && id in w.st.sessions && id in Step(linger, w, Close(k, now, later)).st.sessions
            && var s, s' := w.st.sessions[id], Step(linger, w, Close(k, now, later)).st.sessions[id];
               if StreamsOf(w.streams, id) == {k} then s' == s.(active := 0, conn := None, linger := Some(later + linger))
               else s'.active > 0 && s == s'.(active := s'.active + 1)
  {
    var id := w.streams[k].id;
    assert StreamOk(w, k) && ActiveOk(w, id) && SessionOk(w.st.sessions[id]);
    StreamsOfRemove(w.streams, k, id);
    assert StreamsOf(w.streams - {k}, id) == StreamsOf(w.streams, id) - {k};
  }

  // ---------- How long a session lives ----------

  /** The session is there, its owner's, and would not expire before `until`. */
  predicate Alive(st: State, id: SessionId, owner: Owner, until: nat) {
    && id in st.sessions && st.sessions[id].owner == owner
    && (st.sessions[id].linger.Some? ==> st.sessions[id].linger.value >= until)
  }

  predicate ClocksWithin(es: seq<Event>, from: nat, until: nat) {
    forall i :: 0 <= i < |es| ==> ClockWithin(es[i], from, until)
  }

  predicate ClockWithin(e: Event, from: nat, until: nat) {
    match e
    case Open(_, r) => from <= r.now < until
    case Close(_, now, later) => from <= now < until && from <= later < until
    case Datagram(_, now) => from <= now < until
    case Collect(now) => from <= now < until
    case Shutdown => false
  }

  lemma StepAlive(linger: nat, w: World, e: Event, id: SessionId, owner: Owner, from: nat)
    requires Enabled(w, e) && ClockWithin(e, from, from + linger) && Alive(w.st, id, owner, from + linger)
    ensures Alive(Step(linger, w, e).st, id, owner, from + linger)
  {
  }

  /** The clock by which a step judges whether sessions have expired. */
  function ClockOf(e: Event): nat {
    match e
    case Open(_, r) => r.now
    case Close(_, now, _) => now
    case Datagram(_, now) => now
    case Collect(now) => now
    case Shutdown => 0
  }

  /** Before a shutdown a session is removed only once its deadline has passed, and its owner never changes. */
  lemma RemovedOnlyExpired(linger: nat, w: World, e: Event, id: SessionId)
    requires Enabled(w, e) && !e.Shutdown? && id in w.st.sessions && !Expired(w.st.sessions[id], ClockOf(e))
    ensures id in Step(linger, w, e).st.sessions
    ensures Step(linger, w, e).st.sessions[id].owner == w.st.sessions[id].owner
  {
  }

  /**
   * A session that is alive at a time stays, with the same owner, through every run
   * of the next linger period, whatever happens to it short of a shutdown.
   */
  lemma {:induction false} SurvivesLinger(linger: nat, w: World, es: seq<Event>, id: SessionId, owner: Owner, from: nat)
    requires Runs(linger, w, es) && ClocksWithin(es, from, from + linger)
    requires Alive(w.st, id, owner, from + linger)
    ensures Alive(Run(linger, w, es).st, id, owner, from + linger)
    decreases |es|
  {
    if es != [] {
      assert ClockWithin(es[0], from, from + linger);
      StepAlive(linger, w, es[0], id, owner, from);
      assert ClocksWithin(es[1..], from, from + linger);
      SurvivesLinger(linger, Step(linger, w, es[0]), es[1..], id, owner, from);
    }
  }

  // ---------- Where the quota fails ----------

  /** The request for a new session with a given id. */
  function NewSession(id: SessionId, conn: ConnId): Request {
    Request(0, Some([]), conn, [], 0, id)
  }

  /** One session lingers; then sixteen new ones fill connection 0. */
  function Filled(n: nat): World {
    if n == 0 then
      World(State(map[17 := Session([], [], None, 0, Some(60))], map[]), map[])
    else
      var w := Filled(n - 1);
      World(Create(w.st, [], 0, [], n).st, w.streams[n := Stream(n, 0)])
  }

  /** The events that lead there: one session opens and ends on connection 1, then `n` open on connection 0. */
  function Filling(n: nat): seq<Event> {
    if n == 0 then [Open(0, NewSession(17, 1)), Close(0, 0, 0)]
    else Filling(n - 1) + [Open(n, NewSession(n, 0))]
  }

  lemma {:induction false} RunSnoc(linger: nat, w: World, es: seq<Event>, e: Event)
    requires Runs(linger, w, es) && Enabled(Run(linger, w, es), e)
    ensures Runs(linger, w, es + [e]) && Run(linger, w, es + [e]) == Step(linger, Run(linger, w, es), e)
    decreases |es|
  {
    if es == [] {
      assert es + [e] == [e];
    } else {
      assert (es + [e])[1..] == es[1..] + [e];
      RunSnoc(linger, Step(linger, w, es[0]), es[1..], e);
    }
  }

  lemma FillingStarts()
    ensures Runs(60, START, Filling(0)) && Run(60, START, Filling(0)) == Filled(0)
  {
    var e0, e1 := Open(0, NewSession(17, 1)), Close(0, 0, 0);
    var w1 := Step(60, START, e0);
    assert w1 == World(State(map[17 := Session([], [], Some(1), 1, None)], map[1 := 1]), map[0 := Stream(17, 1)]);
    assert Step(60, w1, e1) == Filled(0);
    assert Run(60, START, []) == START;
    RunSnoc(60, START, [], e0);
    assert [] + [e0] == [e0];
    RunSnoc(60, START, [e0], e1);
    assert [e0] + [e1] == Filling(0);
  }

  lemma {:induction false} FilledState(n: nat)
    requires n <= MAX_SESSIONS_PER_CONNECTION
    ensures Inv(Filled(n).st) && Exact(Filled(n).st) && Count(Filled(n).st.counts, 0) == n
    ensures 17 in Filled(n).st.sessions && Filled(n).st.sessions[17] == Session([], [], None, 0, Some(60))
    ensures forall id :: id in Filled(n).st.sessions ==> 1 <= id <= n || id == 17
    ensures forall k :: k in Filled(n).streams ==> k <= n
  {
    if n == 0 {
      forall c
        ensures CountOk(Filled(0).st, c) && CountExact(Filled(0).st, c)
      {
        assert AttachedTo(Filled(0).st.sessions, c) == {};
      }
    } else {
      FilledState(n - 1);
      CreateInv(Filled(n - 1).st, [], 0, [], n);
    }
  }

  lemma {:induction false} FilledReached(n: nat)
    requires n <= MAX_SESSIONS_PER_CONNECTION
    ensures Runs(60, START, Filling(n)) && Run(60, START, Filling(n)) == Filled(n)
  {
    if n == 0 {
      FillingStarts();
    } else {
      FilledReached(n - 1);
      FilledState(n - 1);
      RunSnoc(60, START, Filling(n - 1), Open(n, NewSession(n, 0)));
    }
  }

  /** Every refused re-attach leaves the connection with one session more than its quota, uncounted. */
  lemma RefusedReattachAttaches(st: State, r: Request)
    requires Inv(st) && Exact(st) && ReattachRefused(st, r)
    ensures var reply := AttachOrCreate(st, r);
            && reply.result == Err(QuotaExceeded)
            && Count(reply.st.counts, r.conn) == MAX_SESSIONS_PER_CONNECTION
            && |AttachedTo(reply.st.sessions, r.conn)| == MAX_SESSIONS_PER_CONNECTION + 1
  {
    assert CountOk(st, r.conn) && CountExact(st, r.conn);
    CountUpdate(st.sessions, r.id, AttachSession(st.sessions[r.id], r.binds.value, r.conn, r.owner).s, r.conn);
  }

  /** Such a re-attach is reachable: connection 0 ends with seventeen attached sessions, sixteen of them counted. */
  lemma QuotaGap()
    ensures Runs(60, START, Filling(16)) && Run(60, START, Filling(16)) == Filled(16)
    ensures var reply := AttachOrCreate(Filled(16).st, Request(17, Some([]), 0, [], 0, 18));
            Count(reply.st.counts, 0) == 16 && |AttachedTo(reply.st.sessions, 0)| == 17
  {
    FilledReached(16);
    FilledState(16);
    RefusedReattachAttaches(Filled(16).st, Request(17, Some([]), 0, [], 0, 18));
  }

  // ---------- The registry as an object ----------

  class UdpSessionRegistry {
    const lingerSecs: nat
    var sessions: Sessions
    var counts: map<ConnId, nat>

    ghost function Value(): State
      reads this
    {
      State(sessions, counts)
    }

    constructor (linger: nat)
      ensures lingerSecs == linger && Value() == START.st
    {
      lingerSecs := linger;
      sessions := map[];
      counts := map[];
    }

    method IncrementConnectionSessions(c: ConnId)
      modifies this`counts
      ensures counts == Increment(old(counts), c)
    {
      if c in counts {
        counts := counts[c := counts[c] + 1];
      } else {
        counts := counts[c := 1];
      }
    }

    method DecrementConnectionSessions(c: ConnId)
      modifies this`counts
      ensures counts == Decrement(old(counts), c)
    {
      if c in counts {
        if counts[c] <= 1 {
          counts := counts - {c};
        } else {
          counts := counts[c := counts[c] - 1];
        }
      }
    }

    method RemoveSessionLocked(id: SessionId)
      modifies this
      ensures Value() == RemoveSession(old(Value()), id)
    {
      if id in sessions {
        var s := sessions[id];
        sessions := sessions - {id};
        if s.conn.Some? {
          DecrementConnectionSessions(s.conn.value);
        }
      }
    }

    /** A new session under the quota. */
    method Insert(binds: Binds, conn: ConnId, owner: Owner, newId: SessionId)
      returns (result: Result<SessionId, Error>)
      requires newId !in sessions
      modifies this
      ensures Reply(Value(), result) == Create(old(Value()), binds, conn, owner, newId)
    {
      if Count(counts, conn) >= MAX_SESSIONS_PER_CONNECTION {
        return Err(QuotaExceeded);
      }
      sessions := sessions[newId := Session(owner, binds, Some(conn), 1, None)];
      IncrementConnectionSessions(conn);
      result := Ok(newId);
    }

    method AttachOrCreateSession(r: Request) returns (result: Result<SessionId, Error>)
      requires GoodDraw(Value(), r)
      modifies this
      ensures Reply(Value(), result) == AttachOrCreate(old(Value()), r)
    {
      if r.binds.None? {
        return Err(Unresolved);
      }
      if r.id != 0 && r.id in sessions {
        if Expired(sessions[r.id], r.now) {
          RemoveSessionLocked(r.id);
        } else {
          match AttachSession(sessions[r.id], r.binds.value, r.conn, r.owner)
          case Refused(error) =>
            return Err(error);
          case Attached(s, countsAsSession) =>
            sessions := sessions[r.id := s];
            if countsAsSession {
              if Count(counts, r.conn) >= MAX_SESSIONS_PER_CONNECTION {
                return Err(QuotaExceeded);
              }
              IncrementConnectionSessions(r.conn);
            }
            return Ok(r.id);
          case CreateFresh =>
        }
      }
      result := Insert(r.binds.value, r.conn, r.owner, r.newId);
    }

    method FindLive(id: SessionId, now: nat) returns (live: Option<Session>)
      modifies this
      ensures Value() == GetLive(old(Value()), id, now)
      ensures live == if id in sessions then Some(sessions[id]) else None
    {
      if id !in sessions {
        return None;
      }
      if Expired(sessions[id], now) {
        RemoveSessionLocked(id);
        return None;
      }
      live := Some(sessions[id]);
    }

    method MarkLingerIfCurrent(id: SessionId, conn: ConnId, now: nat, later: nat)
      modifies this
      ensures Value() == MarkLinger(old(Value()), id, conn, now, later + lingerSecs)
    {
      var live := FindLive(id, now);
      if live.Some? {
        var (s, lingers) := EndControl(live.value, conn, later + lingerSecs);
        sessions := sessions[id := s];
        if lingers {
          DecrementConnectionSessions(conn);
        }
      }
    }

    /** Expired sessions are removed one by one; none of them is counted. */
    method CollectExpired(now: nat)
      requires Inv(Value())
      modifies this
      ensures Value() == GcExpired(old(Value()), now)
    {
      var snapshot := sessions;
      var todo := sessions.Keys;
      while todo != {}
        invariant todo <= snapshot.Keys
        invariant counts == old(counts)
        invariant sessions == map id | id in snapshot && (id in todo || !Expired(snapshot[id], now)) :: snapshot[id]
        decreases |todo|
      {
        var id :| id in todo;
        if Expired(snapshot[id], now) {
          assert SessionOk(snapshot[id]);
          RemoveSessionLocked(id);
        }
        todo := todo - {id};
      }
    }

    method ShutdownAll()
      modifies this
      ensures Value() == State(map[], map[])
    {
      var ids := sessions.Keys;
      while ids != {}
        invariant sessions.Keys == ids
        decreases |ids|
      {
        var id :| id in ids;
        RemoveSessionLocked(id);
        ids := ids - {id};
      }
      counts := map[];
    }
  }
}
