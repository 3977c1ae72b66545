/**
 * Moving files from their legacy place without ever replacing anything: any number
 * of migrators at once, one file-system call a step, any of which may fail, and any
 * migrator may stop at any point for good.
 */
module Migration {
  import opened Prelude

  /** Legacy files, their destinations and the temporary names of the moves never coincide. */
  datatype Path = Legacy(id: nat) | Target(id: nat) | Temp(move: nat)

  type Inode = nat
  type Content = seq<byte>

  /** The file each move is to move, and the one destination of each file. */
  datatype Plan = Plan(source: nat -> nat, target: nat -> nat)

  datatype Verdict = Moved | NotMoved | Failed

  datatype After = ThenRemoveSource | ThenDone(verdict: Verdict)

  /** The next file-system call of a move. */
  datatype Pc =
    | CheckTarget
    | CheckSource
    | Link
    | CopyOpen
    | Copying(from: Inode, to: Inode)
    | LinkTemp
    | RemoveTemp(after: After)
    | RemoveSource
    | Done(verdict: Verdict)
    | Stopped

  /**
   * Names and contents of the files and what each move does next; `made` remembers
   * which move gave a destination its file.
   */
  datatype World = World(names: map<Path, Inode>, data: map<Inode, Content>, pcs: map<nat, Pc>, made: map<nat, nat>)

  function PcOf(w: World, m: nat): Pc {
    if m in w.pcs then w.pcs[m] else CheckTarget
  }

  function At(w: World, m: nat, pc: Pc): World {
    w.(pcs := w.pcs[m := pc])
  }

  /** How the operating system answers a call. */
  datatype Answer = Served | Fault | CrossesDevices

  /** A call of a move, with the inode or the number of bytes it is about; or the end of its process. */
  datatype Event = Call(move: nat, answer: Answer, n: nat) | Stop(move: nat)

  predicate Enabled(w: World, e: Event) {
    e.Call? ==>
      && !PcOf(w, e.move).Done? && !PcOf(w, e.move).Stopped?
      && (PcOf(w, e.move).CopyOpen? ==> e.n !in w.data)
  }

  function Step(plan: Plan, w: World, e: Event): World
    requires Enabled(w, e)
  {
    if e.Stop? then At(w, e.move, Stopped)
    else
      var m, s := e.move, plan.source(e.move);
      match PcOf(w, m)
      case CheckTarget =>
        At(w, m, if e.answer.Served? && Target(plan.target(s)) in w.names then Done(NotMoved) else CheckSource)
      case CheckSource =>
        At(w, m, if e.answer.Served? && Legacy(s) in w.names then Link else Done(NotMoved))
      case Link => LinkSource(plan, w, m, e.answer)
      case CopyOpen => OpenCopy(plan, w, m, e.answer, e.n)
      case Copying(from, to) => Copy(w, m, e.answer, e.n, from, to)
      case LinkTemp => LinkCopy(plan, w, m, e.answer)
      case RemoveTemp(after) =>
        At(if e.answer.Served? then w.(names := w.names - {Temp(m)}) else w, m,
           if after.ThenRemoveSource? then RemoveSource else Done(after.verdict))
      case RemoveSource =>
        if e.answer.Served? then At(w.(names := w.names - {Legacy(s)}), m, Done(Moved)) else At(w, m, Done(Failed))
      case _ => w
  }

  function LinkSource(plan: Plan, w: World, m: nat, answer: Answer): World {
    var s := plan.source(m);
    var d := plan.target(s);
    match answer
    case Fault => At(w, m, Done(Failed))
    case CrossesDevices => At(w, m, CopyOpen)
    case Served =>
      if Target(d) in w.names || Legacy(s) !in w.names then At(w, m, Done(NotMoved))
      else At(Made(w, d, w.names[Legacy(s)], m), m, RemoveSource)
  }

  function Made(w: World, d: nat, i: Inode, m: nat): World {
    w.(names := w.names[Target(d) := i], made := w.made[d := m])
  }

  function OpenCopy(plan: Plan, w: World, m: nat, answer: Answer, i: Inode): World {
    var s := plan.source(m);
    if !answer.Served? then At(w, m, Done(Failed))
    else if Legacy(s) !in w.names then At(w, m, Done(NotMoved))
    else
      At(w.(names := w.names[Temp(m) := i], data := w.data[i := []]), m, Copying(w.names[Legacy(s)], i))
  }

  /** The copy has reached byte `n`; a copy that fails leaves what it has written. */
  function Copy(w: World, m: nat, answer: Answer, n: nat, from: Inode, to: Inode): World {
    var c := if from in w.data then w.data[from] else [];
    if !answer.Served? then At(w, m, Done(Failed))
    else if n < |c| then w.(data := w.data[to := c[..n]])
    else At(w.(data := w.data[to := c]), m, LinkTemp)
  }

  function LinkCopy(plan: Plan, w: World, m: nat, answer: Answer): World {
    var d := plan.target(plan.source(m));
    if !answer.Served? || Temp(m) !in w.names then At(w, m, RemoveTemp(ThenDone(Failed)))
    else if Target(d) in w.names then At(w, m, RemoveTemp(ThenDone(NotMoved)))
    else At(Made(w, d, w.names[Temp(m)], m), m, RemoveTemp(ThenRemoveSource))
  }

  // ---------- What every step keeps ----------

  predicate Initial(w: World) {
    && w.pcs == map[] && w.made == map[]
    && (forall x :: x in w.names ==> w.names[x] in w.data && !x.Temp?)
  }

  predicate NamesOk(w: World) {
    forall x :: x in w.names ==> w.names[x] in w.data
  }

  predicate DataKept(w0: World, w: World) {
    forall i :: i in w0.data ==> i in w.data && w.data[i] == w0.data[i]
  }

  /** The destination holds all of what the legacy file held at first. */
  predicate FullAt(w0: World, w: World, s: nat, d: nat) {
    && Legacy(s) in w0.names && w0.names[Legacy(s)] in w0.data
    && Target(d) in w.names && w.names[Target(d)] in w.data
    && w.data[w.names[Target(d)]] == w0.data[w0.names[Legacy(s)]]
  }

  predicate TargetOk(plan: Plan, w0: World, w: World, d: nat) {
    && (Target(d) in w0.names ==>
          Target(d) in w.names && w.names[Target(d)] == w0.names[Target(d)] && d !in w.made)
    && (Target(d) in w.names && Target(d) !in w0.names ==> d in w.made)
    && (d in w.made ==>
          plan.target(plan.source(w.made[d])) == d && FullAt(w0, w, plan.source(w.made[d]), d))
  }

  predicate SourceOk(plan: Plan, w0: World, w: World, s: nat) {
    && (Legacy(s) in w.names ==> Legacy(s) in w0.names && w.names[Legacy(s)] == w0.names[Legacy(s)])
    && (Legacy(s) in w0.names && Legacy(s) !in w.names ==>
          plan.target(s) in w.made && plan.source(w.made[plan.target(s)]) == s)
  }

  /** Only the temporary name of the move leads to the inode. */
  predicate Private(w: World, i: Inode, m: nat) {
    forall x :: x in w.names && w.names[x] == i ==> x == Temp(m)
  }

  predicate MoveOk(plan: Plan, w0: World, w: World, m: nat) {
    var s := plan.source(m);
    var d := plan.target(s);
    match PcOf(w, m)
    case Copying(from, to) =>
      && Legacy(s) in w0.names && from == w0.names[Legacy(s)] && from in w0.data
      && Temp(m) in w.names && w.names[Temp(m)] == to && to !in w0.data && Private(w, to, m)
    case LinkTemp =>
      && Temp(m) in w.names && w.names[Temp(m)] in w.data
      && Legacy(s) in w0.names && w0.names[Legacy(s)] in w0.data
      && w.data[w.names[Temp(m)]] == w0.data[w0.names[Legacy(s)]]
    case RemoveTemp(after) =>
      after != ThenDone(Moved) && (after.ThenRemoveSource? ==> d in w.made && w.made[d] == m)
    case RemoveSource => d in w.made && w.made[d] == m
    case Done(v) => v.Moved? ==> d in w.made && w.made[d] == m && Legacy(s) !in w.names
    case _ => true
  }

  ghost predicate Inv(plan: Plan, w0: World, w: World) {
    && NamesOk(w) && DataKept(w0, w)
    && (forall d :: TargetOk(plan, w0, w, d))
    && (forall s :: SourceOk(plan, w0, w, s))
    && (forall m :: MoveOk(plan, w0, w, m))
  }

  lemma InitialInv(plan: Plan, w0: World)
    requires Initial(w0)
    ensures Inv(plan, w0, w0)
  {
  }

  /** Steps that change no file: only the move's own place changes. */
  lemma PcInv(plan: Plan, w0: World, w: World, m: nat, pc: Pc)
    requires Inv(plan, w0, w) && MoveOk(plan, w0, At(w, m, pc), m)
    ensures Inv(plan, w0, At(w, m, pc))
  {
    var w' := At(w, m, pc);
    forall d
      ensures TargetOk(plan, w0, w', d)
    {
      assert TargetOk(plan, w0, w, d);
    }
    forall s
      ensures SourceOk(plan, w0, w', s)
    {
      assert SourceOk(plan, w0, w, s);
    }
    forall k
      ensures MoveOk(plan, w0, w', k)
    {
      assert MoveOk(plan, w0, w, k);
    }
  }

  /** A destination that does not exist is given a complete file. */
  lemma MadeInv(plan: Plan, w0: World, w: World, m: nat, i: Inode, pc: Pc)
    requires Inv(plan, w0, w) && Legacy(plan.source(m)) in w0.names && w0.names[Legacy(plan.source(m))] in w0.data
    requires i in w.data && w.data[i] == w0.data[w0.names[Legacy(plan.source(m))]]
    requires Target(plan.target(plan.source(m))) !in w.names
    requires forall k :: PcOf(w, k).Copying? && k != m ==> PcOf(w, k).to != i
    requires pc == RemoveSource || pc == RemoveTemp(ThenRemoveSource)
    ensures Inv(plan, w0, At(Made(w, plan.target(plan.source(m)), i, m), m, pc))
  {
    var e := plan.target(plan.source(m));
    var w' := At(Made(w, e, i, m), m, pc);
    forall d
      ensures TargetOk(plan, w0, w', d)
    {
      assert TargetOk(plan, w0, w, d);
    }
    forall s
      ensures SourceOk(plan, w0, w', s)
    {
      assert SourceOk(plan, w0, w, s);
      assert TargetOk(plan, w0, w, e);
    }
    forall k
      ensures MoveOk(plan, w0, w', k)
    {
      MadeMoveOk(plan, w0, w, m, i, pc, k);
    }
  }

  lemma MadeMoveOk(plan: Plan, w0: World, w: World, m: nat, i: Inode, pc: Pc, k: nat)
    requires Inv(plan, w0, w) && Target(plan.target(plan.source(m))) !in w.names
    requires PcOf(w, k).Copying? && k != m ==> PcOf(w, k).to != i
    requires pc == RemoveSource || pc == RemoveTemp(ThenRemoveSource)
    ensures MoveOk(plan, w0, At(Made(w, plan.target(plan.source(m)), i, m), m, pc), k)
  {
    assert MoveOk(plan, w0, w, k) && TargetOk(plan, w0, w, plan.target(plan.source(m)));
  }

  lemma LinkSourceInv(plan: Plan, w0: World, w: World, m: nat, answer: Answer)
    requires Inv(plan, w0, w) && NamesOk(w0)
    ensures Inv(plan, w0, LinkSource(plan, w, m, answer))
  {
    var s := plan.source(m);
    if answer.Served? && Target(plan.target(s)) !in w.names && Legacy(s) in w.names {
      assert SourceOk(plan, w0, w, s);
      var i := w.names[Legacy(s)];
      forall k | PcOf(w, k).Copying?
        ensures PcOf(w, k).to != i
      {
        assert MoveOk(plan, w0, w, k);
      }
      FirstKnown(plan, w0, w, s);
      MadeInv(plan, w0, w, m, i, RemoveSource);
    } else {
      PcInv(plan, w0, w, m, LinkSource(plan, w, m, answer).pcs[m]);
    }
  }

  /** A legacy file that is still there is the one that was there at first, with its content. */
  lemma FirstKnown(plan: Plan, w0: World, w: World, s: nat)
    requires Inv(plan, w0, w) && Legacy(s) in w.names
    ensures Legacy(s) in w0.names && w0.names[Legacy(s)] == w.names[Legacy(s)]
    ensures w0.names[Legacy(s)] in w0.data ==> w.data[w.names[Legacy(s)]] == w0.data[w0.names[Legacy(s)]]
  {
    assert SourceOk(plan, w0, w, s);
  }

  lemma OpenCopyInv(plan: Plan, w0: World, w: World, m: nat, answer: Answer, i: Inode)
    requires Inv(plan, w0, w) && NamesOk(w0) && i !in w.data
    ensures Inv(plan, w0, OpenCopy(plan, w, m, answer, i))
  {
    var s := plan.source(m);
    var w' := OpenCopy(plan, w, m, answer, i);
    if answer.Served? && Legacy(s) in w.names {
      FirstKnown(plan, w0, w, s);
      forall d
        ensures TargetOk(plan, w0, w', d)
      {
        assert TargetOk(plan, w0, w, d);
      }
      forall k
        ensures SourceOk(plan, w0, w', k) && MoveOk(plan, w0, w', k)
      {
        assert SourceOk(plan, w0, w, k) && MoveOk(plan, w0, w, k);
      }
    } else {
      PcInv(plan, w0, w, m, w'.pcs[m]);
    }
  }

  lemma CopyInv(plan: Plan, w0: World, w: World, m: nat, answer: Answer, n: nat)
    requires Inv(plan, w0, w) && NamesOk(w0) && PcOf(w, m).Copying?
    ensures Inv(plan, w0, Copy(w, m, answer, n, PcOf(w, m).from, PcOf(w, m).to))
  {
    var w' := Copy(w, m, answer, n, PcOf(w, m).from, PcOf(w, m).to);
    assert MoveOk(plan, w0, w, m);
    if answer.Served? {
      forall d
        ensures TargetOk(plan, w0, w', d)
      {
        assert TargetOk(plan, w0, w, d);
      }
      forall k
        ensures SourceOk(plan, w0, w', k) && MoveOk(plan, w0, w', k)
      {
        assert SourceOk(plan, w0, w, k);
        CopyMoveOk(plan, w0, w, m, n, k);
      }
    } else {
      PcInv(plan, w0, w, m, Done(Failed));
    }
  }

  lemma CopyMoveOk(plan: Plan, w0: World, w: World, m: nat, n: nat, k: nat)
    requires Inv(plan, w0, w) && NamesOk(w0) && PcOf(w, m).Copying?
    ensures MoveOk(plan, w0, Copy(w, m, Served, n, PcOf(w, m).from, PcOf(w, m).to), k)
  {
    assert MoveOk(plan, w0, w, m) && MoveOk(plan, w0, w, k);
  }

  lemma LinkCopyInv(plan: Plan, w0: World, w: World, m: nat, answer: Answer)
    requires Inv(plan, w0, w) && PcOf(w, m).LinkTemp?
    ensures Inv(plan, w0, LinkCopy(plan, w, m, answer))
  {
    var d := plan.target(plan.source(m));
    assert MoveOk(plan, w0, w, m);
    if answer.Served? && Target(d) !in w.names {
      var i := w.names[Temp(m)];
      forall k | PcOf(w, k).Copying? && k != m
        ensures PcOf(w, k).to != i
      {
        assert MoveOk(plan, w0, w, k);
      }
      MadeInv(plan, w0, w, m, i, RemoveTemp(ThenRemoveSource));
    } else {
      PcInv(plan, w0, w, m, LinkCopy(plan, w, m, answer).pcs[m]);
    }
  }

  /** Removing the move's own temporary name, or its source once the destination is made. */
  lemma RemoveInv(plan: Plan, w0: World, w: World, m: nat, x: Path, pc: Pc)
    requires Inv(plan, w0, w) && !PcOf(w, m).Copying? && !PcOf(w, m).LinkTemp?
    requires x == Temp(m) ||
             (x == Legacy(plan.source(m)) && plan.target(plan.source(m)) in w.made
              && w.made[plan.target(plan.source(m))] == m)
    requires !pc.Copying? && !pc.LinkTemp?
    requires MoveOk(plan, w0, At(w.(names := w.names - {x}), m, pc), m)
    ensures Inv(plan, w0, At(w.(names := w.names - {x}), m, pc))
  {
    var w' := At(w.(names := w.names - {x}), m, pc);
    forall d
      ensures TargetOk(plan, w0, w', d)
    {
      assert TargetOk(plan, w0, w, d);
    }
    forall k
      ensures SourceOk(plan, w0, w', k)
    {
      assert SourceOk(plan, w0, w, k);
    }
    forall k
      ensures MoveOk(plan, w0, w', k)
    {
      RemoveMoveOk(plan, w0, w, m, x, pc, k);
    }
  }

  lemma RemoveMoveOk(plan: Plan, w0: World, w: World, m: nat, x: Path, pc: Pc, k: nat)
    requires MoveOk(plan, w0, w, k) && (x == Temp(m) || x == Legacy(plan.source(m)))
    requires MoveOk(plan, w0, At(w.(names := w.names - {x}), m, pc), m)
    ensures MoveOk(plan, w0, At(w.(names := w.names - {x}), m, pc), k)
  {
  }

  lemma CheckInv(plan: Plan, w0: World, w: World, m: nat, e: Event)
    requires Inv(plan, w0, w) && e.Call? && e.move == m && (PcOf(w, m).CheckTarget? || PcOf(w, m).CheckSource?)
    ensures Inv(plan, w0, Step(plan, w, e))
  {
    PcInv(plan, w0, w, m, Step(plan, w, e).pcs[m]);
  }

  lemma StepInv(plan: Plan, w0: World, w: World, e: Event)
    requires Inv(plan, w0, w) && NamesOk(w0) && Enabled(w, e)
    ensures Inv(plan, w0, Step(plan, w, e))
  {
    var m := e.move;
    assert MoveOk(plan, w0, w, m);
    if e.Stop? {
      PcInv(plan, w0, w, m, Stopped);
    } else {
      match PcOf(w, m)
      case Link => LinkSourceInv(plan, w0, w, m, e.answer);
      case CopyOpen => OpenCopyInv(plan, w0, w, m, e.answer, e.n);
      case Copying(_, _) => CopyInv(plan, w0, w, m, e.answer, e.n);
      case LinkTemp => LinkCopyInv(plan, w0, w, m, e.answer);
      case RemoveTemp(after) =>
        var pc := if after.ThenRemoveSource? then RemoveSource else Done(after.verdict);
        if e.answer.Served? {
          RemoveInv(plan, w0, w, m, Temp(m), pc);
        } else {
          PcInv(plan, w0, w, m, pc);
        }
      case RemoveSource =>
        if e.answer.Served? {
          RemoveInv(plan, w0, w, m, Legacy(plan.source(m)), Done(Moved));
        } else {
          PcInv(plan, w0, w, m, Done(Failed));
        }
      case CheckTarget => CheckInv(plan, w0, w, m, e);
      case CheckSource => CheckInv(plan, w0, w, m, e);
    }
  }

  // ---------- Every run ----------

  predicate Runs(plan: Plan, w: World, es: seq<Event>)
    decreases |es|
  {
    es == [] || (Enabled(w, es[0]) && Runs(plan, Step(plan, w, es[0]), es[1..]))
  }

  function Run(plan: Plan, w: World, es: seq<Event>): World
    requires Runs(plan, w, es)
    decreases |es|
  {
    if es == [] then w else Run(plan, Step(plan, w, es[0]), es[1..])
  }

  lemma {:induction false} RunInv(plan: Plan, w0: World, w: World, es: seq<Event>)
    requires Inv(plan, w0, w) && NamesOk(w0) && Runs(plan, w, es)
    ensures Inv(plan, w0, Run(plan, w, es))
    decreases |es|
  {
    if es != [] {
      StepInv(plan, w0, w, es[0]);
      RunInv(plan, w0, Step(plan, w, es[0]), es[1..]);
    }
  }

  /** The content of a file, if there is one of that name. */
  function ContentOf(w: World, x: Path): Option<Content> {
    if x in w.names && w.names[x] in w.data then Some(w.data[w.names[x]]) else None
  }

  /** At every moment of every run the whole of each file is at its legacy place or at its destination. */
  lemma NothingLost(plan: Plan, w0: World, es: seq<Event>, s: nat)
    requires Initial(w0) && Runs(plan, w0, es) && Legacy(s) in w0.names
    ensures var w := Run(plan, w0, es);
            || ContentOf(w, Legacy(s)) == ContentOf(w0, Legacy(s))
            || ContentOf(w, Target(plan.target(s))) == ContentOf(w0, Legacy(s))
  {
    InitialInv(plan, w0);
    RunInv(plan, w0, w0, es);
    var w := Run(plan, w0, es);
    assert SourceOk(plan, w0, w, s) && TargetOk(plan, w0, w, plan.target(s));
  }

  /** A destination that exists is never replaced, changed or removed, at whatever moment it came to be. */
  lemma {:induction false} NothingReplaced(plan: Plan, w0: World, w: World, es: seq<Event>, d: nat)
    requires Inv(plan, w0, w) && NamesOk(w0) && Runs(plan, w, es) && Target(d) in w.names
    ensures ContentOf(Run(plan, w, es), Target(d)) == ContentOf(w, Target(d))
    decreases |es|
  {
    if es != [] {
      TargetStays(plan, w0, w, es[0], d);
      StepInv(plan, w0, w, es[0]);
      NothingReplaced(plan, w0, Step(plan, w, es[0]), es[1..], d);
    }
  }

  lemma TargetStays(plan: Plan, w0: World, w: World, e: Event, d: nat)
    requires Inv(plan, w0, w) && Enabled(w, e) && Target(d) in w.names
    ensures Target(d) in Step(plan, w, e).names
    ensures ContentOf(Step(plan, w, e), Target(d)) == ContentOf(w, Target(d))
  {
    assert MoveOk(plan, w0, w, e.move);
  }

  /** A destination that came to be during the run holds the whole of some file that was to go there. */
  lemma NeverPartial(plan: Plan, w0: World, es: seq<Event>, d: nat)
    requires Initial(w0) && Runs(plan, w0, es)
    requires Target(d) in Run(plan, w0, es).names && Target(d) !in w0.names
    ensures exists s :: Legacy(s) in w0.names && plan.target(s) == d
                     && ContentOf(Run(plan, w0, es), Target(d)) == ContentOf(w0, Legacy(s))
  {
    InitialInv(plan, w0);
    RunInv(plan, w0, w0, es);
    var w := Run(plan, w0, es);
    assert TargetOk(plan, w0, w, d);
    assert Legacy(plan.source(w.made[d])) in w0.names;
  }

  /** At most one move of each file, and into each destination, reports that it moved the file. */
  lemma MovedOnce(plan: Plan, w0: World, es: seq<Event>, m: nat, k: nat)
    requires Initial(w0) && Runs(plan, w0, es)
    requires PcOf(Run(plan, w0, es), m) == Done(Moved) && PcOf(Run(plan, w0, es), k) == Done(Moved)
    requires plan.target(plan.source(m)) == plan.target(plan.source(k))
    ensures m == k
  {
    InitialInv(plan, w0);
    RunInv(plan, w0, w0, es);
    assert MoveOk(plan, w0, Run(plan, w0, es), m) && MoveOk(plan, w0, Run(plan, w0, es), k);
  }

  /** A move that reports success has left nothing at the legacy place and everything at the destination. */
  lemma MovedMeansMoved(plan: Plan, w0: World, es: seq<Event>, m: nat)
    requires Initial(w0) && Runs(plan, w0, es) && PcOf(Run(plan, w0, es), m) == Done(Moved)
    ensures var w := Run(plan, w0, es); var s := plan.source(m);
            && Legacy(s) in w0.names && Legacy(s) !in w.names
            && ContentOf(w, Target(plan.target(s))) == ContentOf(w0, Legacy(s))
  {
    InitialInv(plan, w0);
    RunInv(plan, w0, w0, es);
    var w := Run(plan, w0, es);
    assert MoveOk(plan, w0, w, m) && TargetOk(plan, w0, w, plan.target(plan.source(m)));
  }

  // ---------- Undisturbed moves ----------

  /** Some run of calls takes the move to the report that it moved its file. */
  ghost predicate CanMove(plan: Plan, w: World, m: nat) {
    exists es :: Runs(plan, w, es) && PcOf(Run(plan, w, es), m) == Done(Moved)
  }

  lemma CanMoveBefore(plan: Plan, w: World, e: Event, m: nat)
    requires Enabled(w, e) && CanMove(plan, Step(plan, w, e), m)
    ensures CanMove(plan, w, m)
  {
    var es :| Runs(plan, Step(plan, w, e), es) && PcOf(Run(plan, Step(plan, w, e), es), m) == Done(Moved);
    assert ([e] + es)[1..] == es;
    assert Runs(plan, w, [e] + es) && PcOf(Run(plan, w, [e] + es), m) == Done(Moved);
  }

  lemma RemoveSourceCanMove(plan: Plan, w: World, m: nat)
    requires PcOf(w, m) == RemoveSource || PcOf(w, m) == RemoveTemp(ThenRemoveSource)
    ensures CanMove(plan, w, m)
    decreases PcOf(w, m).RemoveTemp?
  {
    var e := Call(m, Served, 0);
    var w' := Step(plan, w, e);
    if PcOf(w, m) == RemoveSource {
      assert Runs(plan, w', []) && PcOf(Run(plan, w', []), m) == Done(Moved);
    } else {
      RemoveSourceCanMove(plan, w', m);
    }
    CanMoveBefore(plan, w, e, m);
  }

  /** With its file there and its destination free, a move that is served throughout moves the file. */
  lemma ServedMoveMoves(plan: Plan, w: World, m: nat)
    requires PcOf(w, m) == CheckTarget || PcOf(w, m) == CheckSource || PcOf(w, m) == Link
    requires Legacy(plan.source(m)) in w.names && Target(plan.target(plan.source(m))) !in w.names
    ensures CanMove(plan, w, m)
    decreases if PcOf(w, m) == CheckTarget then 2 else if PcOf(w, m) == CheckSource then 1 else 0
  {
    var e := Call(m, Served, 0);
    if PcOf(w, m) == Link {
      RemoveSourceCanMove(plan, Step(plan, w, e), m);
    } else {
      ServedMoveMoves(plan, Step(plan, w, e), m);
    }
    CanMoveBefore(plan, w, e, m);
  }

  /** The same across devices, through the copy. */
  lemma ServedCopyMoves(plan: Plan, w: World, m: nat, i: Inode)
    requires PcOf(w, m) == CopyOpen && i !in w.data
    requires Legacy(plan.source(m)) in w.names && Target(plan.target(plan.source(m))) !in w.names
    ensures CanMove(plan, w, m)
  {
    var open := Call(m, Served, i);
    var w' := Step(plan, w, open);
    var from := w.names[Legacy(plan.source(m))];
    CopiedCanMove(plan, w', m, if from in w'.data then |w'.data[from]| else 0);
    CanMoveBefore(plan, w, open, m);
  }

  lemma CopiedCanMove(plan: Plan, w: World, m: nat, n: nat)
    requires Target(plan.target(plan.source(m))) !in w.names && Temp(m) in w.names
    requires PcOf(w, m).Copying? && (PcOf(w, m).from in w.data ==> |w.data[PcOf(w, m).from]| <= n)
    ensures CanMove(plan, w, m)
  {
    var w' := Step(plan, w, Call(m, Served, n));
    var w'' := Step(plan, w', Call(m, Served, 0));
    RemoveSourceCanMove(plan, w'', m);
    CanMoveBefore(plan, w', Call(m, Served, 0), m);
    CanMoveBefore(plan, w, Call(m, Served, n), m);
  }
}
