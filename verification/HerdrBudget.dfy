/**
 * The byte budget shared by the Herdr frame readers: two semaphores whose permits
 * are held while a frame is being read and then for as long as any clone of the
 * frame lives.
 */
module HerdrBudget {
  import opened Prelude
  import opened LittleEndian
  import opened HerdrWire

  /** Permits of one pool, one permit a byte. */
  datatype Hold = Hold(large: bool, bytes: nat)

  /** A read of the next frame of a stream. */
  datatype Read = Read(st: Stream, pos: nat, dir: Direction, limits: Limits)

  /** A read that has its permits and is not over. */
  datatype Pending = Pending(hold: Hold, read: Read)

  /** A frame, its permits and the number of its clones that are alive. */
  datatype Stored = Stored(hold: Hold, dir: Direction, framed: seq<byte>, clones: nat)

  datatype Budget = Budget(normal: nat, large: nat)

  /** Permits left, reads that hold permits, and frames that hold permits. */
  datatype State = State(left: Budget, reading: seq<Pending>, stored: seq<Stored>)

  function Left(b: Budget, large: bool): nat {
    if large then b.large else b.normal
  }

  function Give(b: Budget, h: Hold): Budget {
    if h.large then b.(large := b.large + h.bytes) else b.(normal := b.normal + h.bytes)
  }

  function Take(b: Budget, h: Hold): Budget
    requires h.bytes <= Left(b, h.large)
  {
    if h.large then b.(large := b.large - h.bytes) else b.(normal := b.normal - h.bytes)
  }

  predicate Begun(r: Read) {
    r.pos <= |r.st.data|
  }

  function ReadBy(r: Read, grants: Grants, utf8: Utf8): Result<Option<seq<byte>>, Error>
    requires Begun(r)
  {
    ReadFrame(r.st, r.pos, r.dir, r.limits, grants, utf8).result
  }

  /** The permits a read asks for, once it has seen length and tag and found them within the limits. */
  function Wants(r: Read): Option<Hold>
    requires Begun(r)
  {
    var data, pos := r.st.data, r.pos;
    if |data| < pos + 5 then None
    else
      var claimed, width := Le(data[pos..pos + 4]), TagWidth(data[pos + 4]);
      if claimed == 0 || width == 0 || width > claimed || |data| < pos + 4 + width then None
      else
        var tag := DecodeCompact(data[pos + 4..pos + 4 + width]);
        if tag.Err? || claimed > PayloadLimit(r.dir, tag.value, r.limits) || 4 + claimed >= U32 then None
        else Some(Hold(IsLarge(r.dir, tag.value), 4 + claimed))
  }

  /** A read begins, completes with or without memory for its frame, or is cancelled; a frame is cloned or dropped. */
  datatype Event =
    | Begin(read: Read)
    | Complete(i: nat, memory: bool)
    | Cancel(i: nat)
    | Clone(i: nat)
    | Drop(i: nat)

  predicate Enabled(st: State, e: Event) {
    match e
    case Begin(r) => Begun(r)
    case Complete(i, _) => i < |st.reading| && Begun(st.reading[i].read)
    case Cancel(i) => i < |st.reading|
    case Clone(i) => i < |st.stored|
    case Drop(i) => i < |st.stored| && st.stored[i].clones > 0
  }

  function Without<T>(s: seq<T>, i: nat): seq<T>
    requires i < |s|
  {
    s[..i] + s[i + 1..]
  }

  function Acquire(st: State, h: Hold, r: Read): State {
    if h.bytes <= Left(st.left, h.large) then State(Take(st.left, h), st.reading + [Pending(h, r)], st.stored) else st
  }

  function Fail(st: State, i: nat): State
    requires i < |st.reading|
  {
    State(Give(st.left, st.reading[i].hold), Without(st.reading, i), st.stored)
  }

  function Finish(st: State, i: nat, f: seq<byte>): State
    requires i < |st.reading|
  {
    var p := st.reading[i];
    State(st.left, Without(st.reading, i), st.stored + [Stored(p.hold, p.read.dir, f, 1)])
  }

  function Shared(st: State, i: nat, clones: nat): State
    requires i < |st.stored|
  {
    st.(stored := st.stored[i := st.stored[i].(clones := clones)])
  }

  function Dropped(st: State, i: nat): State
    requires i < |st.stored|
  {
    State(Give(st.left, st.stored[i].hold), st.reading, Without(st.stored, i))
  }

  /** A read that asks for nothing ends by itself; one whose pool cannot serve it in time changes nothing. */
  function Step(st: State, e: Event, utf8: Utf8): State
    requires Enabled(st, e)
  {
    match e
    case Begin(r) => if Wants(r).Some? then Acquire(st, Wants(r).value, r) else st
    case Complete(i, memory) =>
      var result := ReadBy(st.reading[i].read, Grants(true, memory), utf8);
      if result.Ok? && result.value.Some? then Finish(st, i, result.value.value) else Fail(st, i)
    case Cancel(i) => Fail(st, i)
    case Clone(i) => Shared(st, i, st.stored[i].clones + 1)
    case Drop(i) =>
      if st.stored[i].clones > 1 then Shared(st, i, st.stored[i].clones - 1)
      else Dropped(st, i)
  }

  // ---------- Adding up ----------

  function Weight(h: Hold, large: bool): nat {
    if h.large == large then h.bytes else 0
  }

  function Held(s: seq<Pending>, large: bool): nat {
    if s == [] then 0 else Weight(s[0].hold, large) + Held(s[1..], large)
  }

  /** The bytes of the frames that hold permits of a pool. */
  function Live(s: seq<Stored>, large: bool): nat {
    if s == [] then 0 else (if s[0].hold.large == large then |s[0].framed| else 0) + Live(s[1..], large)
  }

  lemma {:induction false} ReadingAppend(a: seq<Pending>, b: seq<Pending>, large: bool)
    ensures Held(a + b, large) == Held(a, large) + Held(b, large)
  {
    if a == [] {
      assert a + b == b;
    } else {
      ReadingAppend(a[1..], b, large);
      assert (a + b)[1..] == a[1..] + b;
    }
  }

  lemma {:induction false} LiveAppend(a: seq<Stored>, b: seq<Stored>, large: bool)
    ensures Live(a + b, large) == Live(a, large) + Live(b, large)
  {
    if a == [] {
      assert a + b == b;
    } else {
      LiveAppend(a[1..], b, large);
      assert (a + b)[1..] == a[1..] + b;
    }
  }

  lemma ReadingWithout(s: seq<Pending>, i: nat, large: bool)
    requires i < |s|
    ensures Held(Without(s, i), large) == Held(s, large) - Weight(s[i].hold, large)
  {
    assert s == s[..i] + ([s[i]] + s[i + 1..]);
    ReadingAppend(s[..i], [s[i]] + s[i + 1..], large);
    ReadingAppend([s[i]], s[i + 1..], large);
    ReadingAppend(s[..i], s[i + 1..], large);
    assert Held([s[i]], large) == Weight(s[i].hold, large);
  }

  lemma LiveAround(s: seq<Stored>, i: nat, x: Stored, large: bool)
    requires i < |s|
    ensures Live(s, large) == Live(Without(s, i), large) + Live([s[i]], large)
    ensures Live(s[i := x], large) == Live(Without(s, i), large) + Live([x], large)
  {
    assert s == s[..i] + ([s[i]] + s[i + 1..]);
    assert s[i := x] == s[..i] + ([x] + s[i + 1..]);
    LiveAppend(s[..i], [s[i]] + s[i + 1..], large);
    LiveAppend(s[..i], [x] + s[i + 1..], large);
    LiveAppend([s[i]], s[i + 1..], large);
    LiveAppend([x], s[i + 1..], large);
    LiveAppend(s[..i], s[i + 1..], large);
  }

  // ---------- Reads and their permits ----------

  /** The frame's own tag, in this direction, belongs to the pool. */
  ghost predicate InPool(f: seq<byte>, dir: Direction, large: bool) {
    exists tag: nat :: tag < U32 && VarintAt(f, 4, tag, 4 + |EncodeVarint(tag)|) && large == IsLarge(dir, tag)
  }

  /** A read asks for permits exactly when, refused them, it would fail for want of that many. */
  lemma WantsIff(r: Read, memory: bool, utf8: Utf8, n: nat)
    requires Begun(r)
    ensures ReadBy(r, Grants(false, memory), utf8) == Err(SlowConsumer(n)) <==> Wants(r).Some? && Wants(r).value.bytes == n
  {
  }

  /** What a read that asked for permits returns has as many bytes, and a tag of that pool. */
  lemma ReadsWhatItWanted(r: Read, grants: Grants, utf8: Utf8, f: seq<byte>)
    requires Begun(r) && Wants(r).Some? && ReadBy(r, grants, utf8) == Ok(Some(f))
    ensures |f| == Wants(r).value.bytes && InPool(f, r.dir, Wants(r).value.large)
  {
    var data, pos := r.st.data, r.pos;
    var claimed, width := Le(data[pos..pos + 4]), TagWidth(data[pos + 4]);
    var raw := data[pos + 4..pos + 4 + width];
    var tag := DecodeCompact(raw).value;
    ReadPayloadSome(r.st, pos, claimed, tag, width, r.dir, r.limits, grants, utf8, f);
    Parts(data, pos, f, width);
    TagIsCanonical(raw, tag);
    assert VarintAt(f, 4, tag, 4 + |EncodeVarint(tag)|);
  }

  /** Where the stream goes on with a frame, exactly its bytes are asked for, from the pool of its tag. */
  lemma FrameWanted(r: Read, utf8: Utf8, f: seq<byte>, tag: nat)
    requires Begun(r) && StartsWith(r.st.data, r.pos, f) && IsFrame(f, tag, r.dir, r.limits, utf8)
    ensures Wants(r) == Some(Hold(IsLarge(r.dir, tag), |f|))
  {
    var data, pos, raw := r.st.data, r.pos, EncodeVarint(tag);
    Powers();
    LeToLe(|f| - 4, 4);
    Parts(data, pos, f, |raw|);
    assert data[pos + 4] == data[pos + 4..pos + 4 + |raw|][0] == raw[0];
    TagIsCanonical(raw, tag);
  }

  // ---------- Conservation ----------

  ghost predicate FrameOk(x: Stored) {
    x.clones > 0 && |x.framed| == x.hold.bytes && InPool(x.framed, x.dir, x.hold.large)
  }

  /** Every live frame has a clone, as many permits as bytes, and those from the pool of its tag. */
  ghost predicate StoredOk(s: seq<Stored>) {
    forall i :: 0 <= i < |s| ==> FrameOk(s[i])
  }

  predicate PendingOk(p: Pending) {
    Begun(p.read) && Wants(p.read) == Some(p.hold)
  }

  predicate ReadingOk(s: seq<Pending>) {
    forall i :: 0 <= i < |s| ==> PendingOk(s[i])
  }

  /** The permits left, those of reads in progress and the bytes of live frames make up the capacity. */
  predicate Balanced(st: State, capacity: Budget, large: bool) {
    Left(st.left, large) + Held(st.reading, large) + Live(st.stored, large) == Left(capacity, large)
  }

  ghost predicate Conserved(st: State, capacity: Budget) {
    ReadingOk(st.reading) && StoredOk(st.stored) && forall large :: Balanced(st, capacity, large)
  }

  lemma AcquireBalanced(st: State, h: Hold, r: Read, capacity: Budget, large: bool)
    requires Balanced(st, capacity, large)
    ensures Balanced(Acquire(st, h, r), capacity, large)
  {
    var p := Pending(h, r);
    ReadingAppend(st.reading, [p], large);
    assert Held([p], large) == Weight(h, large) by { assert [p][1..] == []; }
  }

  lemma FailBalanced(st: State, i: nat, capacity: Budget, large: bool)
    requires i < |st.reading| && Balanced(st, capacity, large)
    ensures Balanced(Fail(st, i), capacity, large)
  {
    ReadingWithout(st.reading, i, large);
  }

  lemma FinishBalanced(st: State, i: nat, f: seq<byte>, capacity: Budget, large: bool)
    requires i < |st.reading| && |f| == st.reading[i].hold.bytes && Balanced(st, capacity, large)
    ensures Balanced(Finish(st, i, f), capacity, large)
  {
    var x := Stored(st.reading[i].hold, st.reading[i].read.dir, f, 1);
    ReadingWithout(st.reading, i, large);
    LiveAppend(st.stored, [x], large);
    LiveOne(x, large);
  }

  lemma LiveOne(x: Stored, large: bool)
    requires |x.framed| == x.hold.bytes
    ensures Live([x], large) == Weight(x.hold, large)
  {
    assert [x][1..] == [];
  }

  lemma SharedLive(st: State, i: nat, x: Stored, large: bool)
    requires i < |st.stored| && |st.stored[i].framed| == st.stored[i].hold.bytes
    requires x.hold == st.stored[i].hold && |x.framed| == x.hold.bytes
    ensures Live(st.stored[i := x], large) == Live(st.stored, large)
    ensures Live(Without(st.stored, i), large) == Live(st.stored, large) - Weight(st.stored[i].hold, large)
  {
    LiveAround(st.stored, i, x, large);
    LiveOne(x, large);
    LiveOne(st.stored[i], large);
  }

  lemma StepBalanced(st: State, e: Event, utf8: Utf8, capacity: Budget, large: bool)
    requires Enabled(st, e) && ReadingOk(st.reading) && StoredOk(st.stored) && Balanced(st, capacity, large)
    ensures Balanced(Step(st, e, utf8), capacity, large)
  {
    match e
    case Begin(r) => if Wants(r).Some? { AcquireBalanced(st, Wants(r).value, r, capacity, large); }
    case Complete(i, memory) => CompleteBalanced(st, i, memory, utf8, capacity, large);
    case Cancel(i) => FailBalanced(st, i, capacity, large);
    case Clone(i) => SharedBalanced(st, i, st.stored[i].clones + 1, capacity, large);
    case Drop(i) =>
      if st.stored[i].clones > 1 {
        SharedBalanced(st, i, st.stored[i].clones - 1, capacity, large);
      } else {
        DropBalanced(st, i, capacity, large);
      }
  }

  lemma SharedBalanced(st: State, i: nat, clones: nat, capacity: Budget, large: bool)
    requires i < |st.stored| && StoredOk(st.stored) && Balanced(st, capacity, large)
    ensures Balanced(Shared(st, i, clones), capacity, large)
  {
    assert FrameOk(st.stored[i]);
    SharedLive(st, i, st.stored[i].(clones := clones), large);
  }

  lemma DropBalanced(st: State, i: nat, capacity: Budget, large: bool)
    requires i < |st.stored| && StoredOk(st.stored) && Balanced(st, capacity, large)
    ensures Balanced(Dropped(st, i), capacity, large)
  {
    assert FrameOk(st.stored[i]);
    SharedLive(st, i, st.stored[i], large);
  }

  lemma CompleteBalanced(st: State, i: nat, memory: bool, utf8: Utf8, capacity: Budget, large: bool)
    requires i < |st.reading| && PendingOk(st.reading[i]) && Balanced(st, capacity, large)
    ensures Balanced(Step(st, Complete(i, memory), utf8), capacity, large)
  {
    var r := st.reading[i].read;
    var result := ReadBy(r, Grants(true, memory), utf8);
    if result.Ok? && result.value.Some? {
      ReadsWhatItWanted(r, Grants(true, memory), utf8, result.value.value);
      FinishBalanced(st, i, result.value.value, capacity, large);
    } else {
      FailBalanced(st, i, capacity, large);
    }
  }

  lemma WithoutReading(s: seq<Pending>, i: nat)
    requires i < |s| && ReadingOk(s)
    ensures ReadingOk(Without(s, i))
  {
  }

  lemma WithoutStored(s: seq<Stored>, i: nat)
    requires i < |s| && StoredOk(s)
    ensures StoredOk(Without(s, i))
  {
  }

  lemma SharedOk(st: State, i: nat, clones: nat)
    requires i < |st.stored| && clones > 0 && StoredOk(st.stored)
    ensures StoredOk(Shared(st, i, clones).stored)
  {
    assert FrameOk(st.stored[i]);
    assert FrameOk(st.stored[i].(clones := clones));
  }

  lemma CompleteOk(st: State, i: nat, memory: bool, utf8: Utf8)
    requires i < |st.reading| && ReadingOk(st.reading) && StoredOk(st.stored)
    ensures Begun(st.reading[i].read)
    ensures var st' := Step(st, Complete(i, memory), utf8); ReadingOk(st'.reading) && StoredOk(st'.stored)
  {
    var p := st.reading[i];
    assert PendingOk(p);
    WithoutReading(st.reading, i);
    var result := ReadBy(p.read, Grants(true, memory), utf8);
    if result.Ok? && result.value.Some? {
      ReadsWhatItWanted(p.read, Grants(true, memory), utf8, result.value.value);
      assert FrameOk(Stored(p.hold, p.read.dir, result.value.value, 1));
    }
  }

  lemma StepOk(st: State, e: Event, utf8: Utf8)
    requires Enabled(st, e) && ReadingOk(st.reading) && StoredOk(st.stored)
    ensures ReadingOk(Step(st, e, utf8).reading) && StoredOk(Step(st, e, utf8).stored)
  {
    match e
    case Begin(r) =>
    case Complete(i, memory) => CompleteOk(st, i, memory, utf8);
    case Cancel(i) => WithoutReading(st.reading, i);
    case Clone(i) => SharedOk(st, i, st.stored[i].clones + 1);
    case Drop(i) =>
      if st.stored[i].clones > 1 {
        SharedOk(st, i, st.stored[i].clones - 1);
      } else {
        WithoutStored(st.stored, i);
      }
  }

  predicate Runs(st: State, es: seq<Event>, utf8: Utf8)
    decreases |es|
  {
    es == [] || (Enabled(st, es[0]) && Runs(Step(st, es[0], utf8), es[1..], utf8))
  }

  function Run(st: State, es: seq<Event>, utf8: Utf8): State
    requires Runs(st, es, utf8)
    decreases |es|
  {
    if es == [] then st else Run(Step(st, es[0], utf8), es[1..], utf8)
  }

  lemma StepConserves(st: State, e: Event, utf8: Utf8, capacity: Budget)
    requires Enabled(st, e) && Conserved(st, capacity)
    ensures Conserved(Step(st, e, utf8), capacity)
  {
    StepOk(st, e, utf8);
    forall large
      ensures Balanced(Step(st, e, utf8), capacity, large)
    {
      assert Balanced(st, capacity, large);
      StepBalanced(st, e, utf8, capacity, large);
    }
  }

  lemma {:induction false} RunConserves(st: State, es: seq<Event>, utf8: Utf8, capacity: Budget)
    requires Runs(st, es, utf8) && Conserved(st, capacity)
    ensures Conserved(Run(st, es, utf8), capacity)
    decreases |es|
  {
    if es != [] {
      StepConserves(st, es[0], utf8, capacity);
      RunConserves(Step(st, es[0], utf8), es[1..], utf8, capacity);
    }
  }

  function Fresh(capacity: Budget): State {
    State(capacity, [], [])
  }

  lemma FreshConserved(capacity: Budget)
    ensures Conserved(Fresh(capacity), capacity)
  {
    assert forall large :: Balanced(Fresh(capacity), capacity, large);
  }

  /**
   * Every run of a fresh budget: permits are neither lost nor made, every live frame holds as
   * many as it has bytes from the pool of its tag, the frames alive in a pool never exceed its
   * capacity, and with nothing being read or kept it is whole again.
   */
  lemma BudgetConserved(capacity: Budget, es: seq<Event>, utf8: Utf8, large: bool)
    requires Runs(Fresh(capacity), es, utf8)
    ensures var st := Run(Fresh(capacity), es, utf8);
            && Left(st.left, large) + Held(st.reading, large) + Live(st.stored, large) == Left(capacity, large)
            && StoredOk(st.stored) && Live(st.stored, large) <= Left(capacity, large)
            && (st.reading == [] && st.stored == [] ==> Left(st.left, large) == Left(capacity, large))
  {
    FreshConserved(capacity);
    RunConserves(Fresh(capacity), es, utf8, capacity);
    assert Balanced(Run(Fresh(capacity), es, utf8), capacity, large);
  }

  /** A frame larger than its whole pool is never granted. */
  lemma TooLargeNeverGranted(capacity: Budget, es: seq<Event>, utf8: Utf8, r: Read, f: seq<byte>, tag: nat)
    requires Runs(Fresh(capacity), es, utf8) && Begun(r)
    requires StartsWith(r.st.data, r.pos, f) && IsFrame(f, tag, r.dir, r.limits, utf8)
    requires |f| > Left(capacity, IsLarge(r.dir, tag))
    ensures Step(Run(Fresh(capacity), es, utf8), Begin(r), utf8) == Run(Fresh(capacity), es, utf8)
  {
    BudgetConserved(capacity, es, utf8, IsLarge(r.dir, tag));
    FrameWanted(r, utf8, f, tag);
  }

  /** With enough permits left in the pool of its tag, the next frame of a stream is read and kept. */
  lemma EnoughPermitsServe(st: State, r: Read, utf8: Utf8, f: seq<byte>, tag: nat)
    requires Begun(r) && StartsWith(r.st.data, r.pos, f) && IsFrame(f, tag, r.dir, r.limits, utf8)
    requires |f| <= Left(st.left, IsLarge(r.dir, tag))
    ensures var begun := Step(st, Begin(r), utf8); var i := |st.reading|;
            && Enabled(begun, Complete(i, true))
            && Step(begun, Complete(i, true), utf8).reading == st.reading
            && Step(begun, Complete(i, true), utf8).stored
               == st.stored + [Stored(Hold(IsLarge(r.dir, tag), |f|), r.dir, f, 1)]
  {
    FrameWanted(r, utf8, f, tag);
    ReadsFrame(r.st, r.pos, r.dir, r.limits, utf8, f, tag);
    var p := Pending(Wants(r).value, r);
    assert Without(st.reading + [p], |st.reading|) == st.reading;
  }

  /** The read, with its permits, ends in a frame. */
  predicate Delivers(r: Read, memory: bool, utf8: Utf8)
    requires Begun(r)
  {
    var result := ReadBy(r, Grants(true, memory), utf8);
    result.Ok? && result.value.Some?
  }

  /** Permits come back exactly when a read fails or the last clone of a frame goes, as many as the frame has bytes. */
  lemma PermitsReturn(st: State, e: Event, utf8: Utf8, large: bool)
    requires Enabled(st, e) && ReadingOk(st.reading) && StoredOk(st.stored)
    ensures Left(Step(st, e, utf8).left, large) > Left(st.left, large) <==>
            || (e.Cancel? && Weight(st.reading[e.i].hold, large) > 0)
            || (e.Complete? && !Delivers(st.reading[e.i].read, e.memory, utf8) && Weight(st.reading[e.i].hold, large) > 0)
            || (e.Drop? && st.stored[e.i].clones == 1 && Weight(st.stored[e.i].hold, large) > 0)
    ensures e.Drop? && st.stored[e.i].clones == 1 && st.stored[e.i].hold.large == large ==>
              Left(Step(st, e, utf8).left, large) == Left(st.left, large) + |st.stored[e.i].framed|
  {
    if e.Drop? {
      assert FrameOk(st.stored[e.i]);
    }
  }
}
