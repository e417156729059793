/** The backend table and the threads that share it: watcher, workers, monitor and supervisor, interleaved
    step by step. A step is one lock operation together with the work on shared data that leads up to it. */
module Shared {
  import opened Wire
  import opened Selection

  /** How a lock is held. */
  datatype Mode = Free | Read | Write

  /** An entry of the watcher's private cache. `probed` is the connection settings its last probe used. */
  datatype Health = Health(serial: nat, conf: nat, probed: Option<nat>, ok: Status, role: Role, lag: nat)

  /** Where a thread stands. The names of backend indices are `i`. */
  datatype Pc =
    // the watcher
    | Asleep
    | Waking
    | Sizing
    | Snapshot(i: nat)
    | Caching(i: nat)
    | Probing(i: nat)
    | Probed
    | Checking
    | Publishing(i: nat, skippedOk: nat)
    | Updating(i: nat, skippedOk: nat)
    // a worker
    | Accepting
    | Entering
    | Arriving
    | Serving
    | ToFind
    | Finding
    | ToWeigh
    | Weighing(i: nat, weights: seq<nat>, cumulative: nat, writer: Option<nat>)
    | WeighingIn(i: nat, weights: seq<nat>, cumulative: nat, writer: Option<nat>)
    | Picking(i: nat, weights: seq<nat>, r: nat, writer: Option<nat>)
    | PickingIn(i: nat, r: nat, writer: Option<nat>)
    | Picked(i: nat, serial: nat, r: nat, writer: Option<nat>)
    | ToLeave
    | Leaving
    // the monitor
    | Listening
    | ToReport
    | Reporting(i: nat)
    | ReportingIn(i: nat)
    // the supervisor
    | Signals
    | ToReload
    | Reloading

  /** A thread, with the mode in which it holds the context lock and the backend locks it holds. */
  datatype Thread = Thread(pc: Pc, ctx: Mode, back: map<nat, Mode>, cache: seq<Health>)

  /** What the context lock protects. `top` bounds every serial used so far; `disturbed` says that a reload
      has changed the number of backends or a status since the watcher last counted. */
  datatype Globals = Globals(backends: seq<Backend>, ok: nat, feConns: int, top: nat, disturbed: bool)

  datatype State = State(g: Globals, threads: seq<Thread>)

  /** What a step takes from outside: a branch, a random value, a probe's findings, a new configuration. */
  datatype Input = Input(branch: nat, r: nat, ok: Status, role: Role, lag: nat, table: seq<Backend>, top: nat)

  /** The mode in which the next step asks for the context lock. */
  function Asks(pc: Pc): Mode
  {
    match pc
    case Waking | ToFind | ToWeigh | ToReport => Read
    case Probed | Entering | ToLeave | ToReload => Write
    case _ => Free
  }

  /** Threads that wait for something other than a lock. */
  predicate External(pc: Pc)
  {
    pc.Asleep? || pc.Probing? || pc.Accepting? || pc.Serving? || pc.Listening? || pc.Signals?
  }

  function CtxOf(pc: Pc): Mode
  {
    match pc
    case Sizing | Snapshot(_) | Caching(_) | Finding | Weighing(_, _, _, _) | WeighingIn(_, _, _, _) => Read
    case Picking(_, _, _, _) | PickingIn(_, _, _) | Picked(_, _, _, _) | Reporting(_) | ReportingIn(_) => Read
    case Checking | Publishing(_, _) | Updating(_, _) | Arriving | Leaving | Reloading => Write
    case _ => Free
  }

  function BackOf(pc: Pc): map<nat, Mode>
  {
    match pc
    case Caching(i) => map[i := Read]
    case WeighingIn(i, _, _, _) => map[i := Read]
    case PickingIn(i, _, _) => map[i := Read]
    case ReportingIn(i) => map[i := Read]
    case Updating(i, _) => map[i := Write]
    case _ => map[]
  }

  /** The backend lock that the next step asks for. */
  function AsksBack(g: Globals, th: Thread): Option<(nat, Mode)>
  {
    match th.pc
    case Snapshot(i) => if i < |th.cache| then Some((i, Read)) else None
    case Publishing(i, _) => if i < |th.cache| then Some((i, Write)) else None
    case Weighing(i, _, _, _) => if i < |g.backends| then Some((i, Read)) else None
    case Picking(i, weights, r, _) => if i < |weights| && r <= weights[i] then Some((i, Read)) else None
    case Reporting(i) => if i < |g.backends| then Some((i, Read)) else None
    case _ => None
  }

  /** A reload that works: every backend is as it was or carries a serial never used before. */
  predicate Reloads(g: Globals, x: Input)
  {
    && g.top <= x.top
    && forall j :: 0 <= j < |x.table| ==>
         (j < |g.backends| && x.table[j] == g.backends[j]) || g.top < x.table[j].serial <= x.top
  }

  predicate KeepsStatus(old': seq<Backend>, new': seq<Backend>)
  {
    |new'| == |old'| && forall j :: 0 <= j < |new'| ==> new'[j].status == old'[j].status
  }

  function Holding(th: Thread, pc: Pc, ctx: Mode): Thread
  {
    th.(pc := pc, ctx := ctx)
  }

  function LockBack(th: Thread, pc: Pc, i: nat, mode: Mode): Thread
  {
    th.(pc := pc, back := th.back[i := mode])
  }

  function UnlockBack(th: Thread, pc: Pc, i: nat): Thread
  {
    th.(pc := pc, back := th.back - {i})
  }

  /** `do_watcher` */
  function WatcherStep(g: Globals, th: Thread, x: Input): (Globals, Thread)
    requires Fits(g.backends, th)
  {
    match th.pc
    case Asleep => (g, th.(pc := Waking))
    case Waking => (g, Holding(th, Sizing, Read))
    case Sizing =>
      var none := Health(0, 0, None, Ok, Unknown, 0);
      var cache := if |th.cache| == |g.backends| then th.cache else seq(|g.backends|, _ => none);
      (g, th.(pc := Snapshot(0), cache := cache))
    case Snapshot(i) =>
      if i < |th.cache| then (g, LockBack(th, Caching(i), i, Read)) else (g, Holding(th, Probing(0), Free))
    case Caching(i) =>
      var b, h := g.backends[i], th.cache[i];
      var h' := if b.serial == h.serial then h else h.(serial := b.serial, conf := b.conf, role := b.role);
      (g, UnlockBack(th.(cache := th.cache[i := h']), Snapshot(i + 1), i))
    case Probing(i) =>
      if i < |th.cache| then
        var h := th.cache[i].(probed := Some(th.cache[i].conf), ok := x.ok, role := x.role, lag := x.lag);
        (g, th.(pc := Probing(i + 1), cache := th.cache[i := h]))
      else (g, th.(pc := Probed))
    case Probed => (g, Holding(th, Checking, Write))
    case Checking =>
      if |g.backends| != |th.cache| then (g, Holding(th, Waking, Free))
      else (g.(ok := 0, disturbed := false), th.(pc := Publishing(0, 0)))
    case Publishing(i, k) =>
      if i < |th.cache| then (g, LockBack(th, Updating(i, k), i, Write)) else (g, Holding(th, Asleep, Free))
    case Updating(i, k) =>
      var b, h := g.backends[i], th.cache[i];
      if b.serial != h.serial then
        (g, UnlockBack(th, Publishing(i + 1, if b.status == Ok then k + 1 else k), i))
      else
        var b' := b.(status := h.ok, role := h.role, lag := h.lag);
        (g.(backends := g.backends[i := b'], ok := if h.ok == Ok then g.ok + 1 else g.ok),
         UnlockBack(th, Publishing(i + 1, k), i))
    case _ => (g, th)
  }

  /** `do_worker`, with `pgr_auth_find` and `determine_backends` where a client is served. */
  function WorkerStep(g: Globals, th: Thread, x: Input): (Globals, Thread)
    requires Fits(g.backends, th)
  {
    match th.pc
    case Accepting => (g, th.(pc := Entering))
    case Entering => (g, Holding(th, Arriving, Write))
    case Arriving => (g.(feConns := g.feConns + 1), Holding(th, Serving, Free))
    case Serving => (g, th.(pc := if x.branch == 0 then ToFind else if x.branch == 1 then ToWeigh else ToLeave))
    case ToFind => (g, Holding(th, Finding, Read))
    case Finding => (g, Holding(th, Serving, Free))
    case ToWeigh => (g, Holding(th, Weighing(0, [], 0, None), Read))
    case Weighing(i, weights, cumulative, writer) =>
      if i < |g.backends| then (g, LockBack(th, WeighingIn(i, weights, cumulative, writer), i, Read))
      else if cumulative == 0 then (g, Holding(th, Serving, Free))
      else (g, th.(pc := Picking(0, weights, if x.r <= cumulative then x.r else cumulative, writer)))
    case WeighingIn(i, weights, cumulative, writer) =>
      var b := g.backends[i];
      var pc :=
        if b.role == Master then Weighing(i + 1, weights + [0], cumulative, Some(i))
        else if b.status == Ok && b.lag < b.threshold then
          Weighing(i + 1, weights + [cumulative + b.weight], cumulative + b.weight, writer)
        else Weighing(i + 1, weights + [0], cumulative, writer);
      (g, UnlockBack(th, pc, i))
    case Picking(i, weights, r, writer) =>
      if i == |g.backends| then (g, Holding(th, Serving, Free))
      else if r <= weights[i] then (g, LockBack(th, PickingIn(i, r, writer), i, Read))
      else (g, th.(pc := Picking(i + 1, weights, r, writer)))
    case PickingIn(i, r, writer) => (g, UnlockBack(th, Picked(i, g.backends[i].serial, r, writer), i))
    case Picked(_, _, _, _) => (g, Holding(th, Serving, Free))
    case ToLeave => (g, Holding(th, Leaving, Write))
    case Leaving => (g.(feConns := g.feConns - 1), Holding(th, Accepting, Free))
    case _ => (g, th)
  }

  /** `handle_client` of the monitor, and the reload of the supervisor. */
  function OtherStep(g: Globals, th: Thread, x: Input): (Globals, Thread)
    requires Fits(g.backends, th)
  {
    match th.pc
    case Listening => (g, th.(pc := ToReport))
    case ToReport => (g, Holding(th, Reporting(0), Read))
    case Reporting(i) =>
      if i < |g.backends| then (g, LockBack(th, ReportingIn(i), i, Read)) else (g, Holding(th, Listening, Free))
    case ReportingIn(i) => (g, UnlockBack(th, Reporting(i + 1), i))
    case Signals => (g, th.(pc := ToReload))
    case ToReload => (g, Holding(th, Reloading, Write))
    case Reloading =>
      if Reloads(g, x) then
        (g.(backends := x.table, top := x.top, disturbed := g.disturbed || !KeepsStatus(g.backends, x.table)),
         Holding(th, Signals, Free))
      else (g, Holding(th, Signals, Free))
    case _ => (g, th)
  }

  predicate Watches(pc: Pc)
  {
    || pc.Asleep? || pc.Waking? || pc.Sizing? || pc.Snapshot? || pc.Caching?
    || pc.Probing? || pc.Probed? || pc.Checking? || pc.Publishing? || pc.Updating?
  }

  predicate Works(pc: Pc)
  {
    pc.Accepting? || pc.Entering? || pc.Arriving? || InService(pc)
  }

  /** Between the increment and the decrement of `fe_conns`. */
  predicate InService(pc: Pc)
  {
    || pc.Serving? || pc.ToFind? || pc.Finding? || pc.ToWeigh? || pc.Weighing? || pc.WeighingIn?
    || pc.Picking? || pc.PickingIn? || pc.Picked? || pc.ToLeave? || pc.Leaving?
  }

  function ThreadStep(g: Globals, th: Thread, x: Input): (Globals, Thread)
    requires Fits(g.backends, th)
  {
    if Watches(th.pc) then WatcherStep(g, th, x)
    else if Works(th.pc) then WorkerStep(g, th, x)
    else OtherStep(g, th, x)
  }

  /** What a thread relies on: the locks it holds are those of its place in the code, and what it has
      computed from the table so far is still what the table says. */
  predicate Fits(backends: seq<Backend>, th: Thread)
  {
    th.ctx == CtxOf(th.pc) && th.back == BackOf(th.pc) && Computed(backends, th)
  }

  predicate Computed(backends: seq<Backend>, th: Thread)
  {
    var n, m := |backends|, |th.cache|;
    match th.pc
    case Snapshot(i) => i <= m == n
    case Caching(i) => i < m == n
    case Probing(i) => i <= m && AllProbed(th.cache[..i])
    case Probed | Checking => AllProbed(th.cache)
    case Publishing(i, _) => i <= m == n && AllProbed(th.cache)
    case Updating(i, _) => i < m == n && AllProbed(th.cache)
    case Weighing(i, weights, cumulative, writer) =>
      i <= n && weights == Weights(backends[..i]) && cumulative == Total(backends[..i])
      && writer == LastMaster(backends[..i])
    case WeighingIn(i, weights, cumulative, writer) =>
      i < n && weights == Weights(backends[..i]) && cumulative == Total(backends[..i])
      && writer == LastMaster(backends[..i])
    case Picking(i, weights, r, writer) =>
      i <= n && weights == Weights(backends) && writer == LastMaster(backends)
      && 0 < Total(backends) && r <= Total(backends) && Reached(weights, r, 0) == Reached(weights, r, i)
    case PickingIn(i, r, writer) => Chose(backends, i, r, writer)
    case Picked(i, serial, r, writer) => Chose(backends, i, r, writer) && serial == backends[i].serial
    case Reporting(i) => i <= n
    case ReportingIn(i) => i < n
    case _ => true
  }

  /** The choice is the one that `determine_backends` makes on the table as it stands. */
  predicate Chose(backends: seq<Backend>, i: nat, r: nat, writer: Option<nat>)
  {
    && i < |backends| && 0 < Total(backends) && r <= Total(backends)
    && Reached(Weights(backends), r, 0) == Some(i) && writer == LastMaster(backends)
  }

  predicate AllProbed(cache: seq<Health>)
  {
    forall j :: 0 <= j < |cache| ==> cache[j].probed == Some(cache[j].conf)
  }

  /** A serial in the cache that is still current stands for the current connection settings. */
  predicate Tracks(g: Globals, cache: seq<Health>)
  {
    forall j :: 0 <= j < |cache| ==>
      && cache[j].serial <= g.top
      && (j < |g.backends| && cache[j].serial == g.backends[j].serial ==> cache[j].conf == g.backends[j].conf)
  }

  predicate Serials(g: Globals)
  {
    forall j :: 0 <= j < |g.backends| ==> 0 < g.backends[j].serial <= g.top
  }

  function OkCount(backends: seq<Backend>): nat
  {
    if backends == [] then 0
    else OkCount(backends[..|backends| - 1]) + if backends[|backends| - 1].status == Ok then 1 else 0
  }

  function Clients(threads: seq<Thread>): nat
  {
    if threads == [] then 0
    else Clients(threads[..|threads| - 1]) + if InService(threads[|threads| - 1].pc) then 1 else 0
  }

  predicate Publishes(pc: Pc) { pc.Publishing? || pc.Updating? }

  /** While the watcher publishes, the count is right for the backends it has passed, but for those skipped. */
  predicate CountsSoFar(g: Globals, pc: Pc)
  {
    Publishes(pc) ==> pc.i <= |g.backends| && g.ok + pc.skippedOk == OkCount(g.backends[..pc.i])
  }

  predicate NotPublishing(threads: seq<Thread>)
  {
    forall t :: 0 <= t < |threads| ==> !Publishes(threads[t].pc)
  }

  predicate Exclusive(threads: seq<Thread>)
  {
    forall t, u :: 0 <= t < |threads| && 0 <= u < |threads| && t != u && threads[t].ctx == Write ==>
      threads[u].ctx == Free
  }

  ghost predicate Inv(s: State)
  {
    && Exclusive(s.threads)
    && Serials(s.g)
    && (forall t :: 0 <= t < |s.threads| ==> Fits(s.g.backends, s.threads[t]))
    && (forall t :: 0 <= t < |s.threads| ==> Tracks(s.g, s.threads[t].cache))
    && (forall t :: 0 <= t < |s.threads| ==> CountsSoFar(s.g, s.threads[t].pc))
    && (NotPublishing(s.threads) && !s.g.disturbed ==> s.g.ok <= OkCount(s.g.backends))
    && s.g.feConns == Clients(s.threads)
  }

  /** Which lock the next step of thread `t` needs is there to be had. With `writersFirst`, a waiting writer
      keeps new readers of the context lock out. */
  ghost predicate Enabled(s: State, t: nat, writersFirst: bool)
    requires t < |s.threads|
  {
    var th := s.threads[t];
    && (Asks(th.pc) == Read ==> forall u :: 0 <= u < |s.threads| ==> s.threads[u].ctx != Write)
    && (Asks(th.pc) == Read && writersFirst ==> forall u :: 0 <= u < |s.threads| ==> Asks(s.threads[u].pc) != Write)
    && (Asks(th.pc) == Write ==> forall u :: 0 <= u < |s.threads| ==> s.threads[u].ctx == Free)
    && (AsksBack(s.g, th).Some? ==>
          var (i, mode) := AsksBack(s.g, th).value;
          forall u :: 0 <= u < |s.threads| ==>
            i !in s.threads[u].back || (mode == Read && s.threads[u].back[i] == Read))
  }

  function Step(s: State, t: nat, x: Input): State
    requires t < |s.threads| && Fits(s.g.backends, s.threads[t])
  {
    var (g, th) := ThreadStep(s.g, s.threads[t], x);
    State(g, s.threads[t := th])
  }

  // What one step does to the thread that takes it and to the shared data.

  lemma WatcherFits(g: Globals, th: Thread, x: Input)
    requires Fits(g.backends, th) && Watches(th.pc)
    ensures var (g', th') := WatcherStep(g, th, x); Fits(g'.backends, th')
  {
    hide Weights, Total, LastMaster, Reached;
  }

  lemma WeighFits(g: Globals, th: Thread, x: Input)
    requires Fits(g.backends, th) && th.pc.WeighingIn?
    ensures var (g', th') := WorkerStep(g, th, x); Fits(g'.backends, th')
  {
    hide Weights, Total, LastMaster, Reached;
    OneMore(g.backends, th.pc.i);
  }

  lemma PickFits(g: Globals, th: Thread, x: Input)
    requires Fits(g.backends, th) && (th.pc.Picking? || th.pc.PickingIn? || th.pc.Picked?)
    ensures var (g', th') := WorkerStep(g, th, x); Fits(g'.backends, th')
  {
    hide Weights, Total, LastMaster;
  }

  lemma WorkerFits(g: Globals, th: Thread, x: Input)
    requires Fits(g.backends, th) && Works(th.pc)
    ensures var (g', th') := WorkerStep(g, th, x); Fits(g'.backends, th')
  {
    hide Fits, WorkerStep;
    if th.pc.WeighingIn? {
      WeighFits(g, th, x);
    } else if th.pc.Picking? || th.pc.PickingIn? || th.pc.Picked? {
      PickFits(g, th, x);
    } else {
      ServeFits(g, th, x);
    }
  }

  lemma ServeFits(g: Globals, th: Thread, x: Input)
    requires Fits(g.backends, th) && Works(th.pc)
    requires !th.pc.WeighingIn? && !th.pc.Picking? && !th.pc.PickingIn? && !th.pc.Picked?
    ensures var (g', th') := WorkerStep(g, th, x); Fits(g'.backends, th')
  {
    hide Weights, Total, LastMaster, Reached;
    NothingWeighed(g.backends);
  }

  lemma NothingWeighed(backends: seq<Backend>)
    ensures backends[..|backends|] == backends && backends[..0] == []
    ensures Weights([]) == [] && Total([]) == 0 && LastMaster([]) == None
  {
  }

  lemma StepFits(g: Globals, th: Thread, x: Input)
    requires Fits(g.backends, th)
    ensures var (g', th') := ThreadStep(g, th, x); Fits(g'.backends, th')
  {
    hide WatcherStep, WorkerStep, Weights, Total, LastMaster, Reached;
    if Watches(th.pc) {
      WatcherFits(g, th, x);
    } else if Works(th.pc) {
      WorkerFits(g, th, x);
    }
  }

  /** The context lock changes hands only by an acquisition that was asked for or a release, and shared
      data changes only under the write lock. */
  lemma StepLocks(g: Globals, th: Thread, x: Input)
    requires Fits(g.backends, th)
    ensures var (g', th') := ThreadStep(g, th, x);
            && (th'.ctx == th.ctx || th'.ctx == Free || (th.ctx == Free && th'.ctx == Asks(th.pc)))
            && (th.ctx != Write ==> g' == g)
  {
    hide Computed, KeepsStatus, Reloads;
  }

  lemma FitsElsewhere(backends: seq<Backend>, backends': seq<Backend>, th: Thread)
    requires Fits(backends, th) && (th.ctx == Free || backends' == backends)
    ensures Fits(backends', th)
  {
    hide Weights, Total, LastMaster, Reached;
  }

  lemma WatcherTracks(g: Globals, th: Thread, x: Input)
    requires Fits(g.backends, th) && Watches(th.pc) && Serials(g) && Tracks(g, th.cache)
    ensures var (g', th') := WatcherStep(g, th, x); Serials(g') && Tracks(g', th'.cache)
  {
    hide BackOf, CtxOf, AllProbed;
  }

  lemma StepTracks(g: Globals, th: Thread, x: Input)
    requires Fits(g.backends, th) && Serials(g) && Tracks(g, th.cache)
    ensures var (g', th') := ThreadStep(g, th, x); Serials(g') && Tracks(g', th'.cache)
  {
    hide Fits, WatcherStep, WorkerStep, OtherStep, Tracks, Serials;
    if Watches(th.pc) {
      WatcherTracks(g, th, x);
    } else if Works(th.pc) {
      WorkerLeavesTable(g, th, x);
    } else {
      OtherTracks(g, th, x);
    }
  }

  /** A worker changes the count of clients only. */
  lemma WorkerLeavesTable(g: Globals, th: Thread, x: Input)
    requires Fits(g.backends, th) && Works(th.pc)
    ensures var (g', th') := WorkerStep(g, th, x);
            g' == g.(feConns := g'.feConns) && th'.cache == th.cache && !Publishes(th'.pc) && !Publishes(th.pc)
    ensures forall cache | Tracks(g, cache) :: Tracks(WorkerStep(g, th, x).0, cache)
    ensures Serials(g) ==> Serials(WorkerStep(g, th, x).0)
  {
    hide Weights, Total, LastMaster, Reached, BackOf, CtxOf;
  }

  lemma OtherTracks(g: Globals, th: Thread, x: Input)
    requires Fits(g.backends, th) && !Watches(th.pc) && !Works(th.pc) && Serials(g) && Tracks(g, th.cache)
    ensures var (g', th') := OtherStep(g, th, x); Serials(g') && Tracks(g', th'.cache)
  {
    hide KeepsStatus, Computed, BackOf, CtxOf;
  }

  lemma TracksElsewhere(g: Globals, th: Thread, x: Input, cache: seq<Health>)
    requires Fits(g.backends, th) && Tracks(g, cache)
    ensures var (g', _) := ThreadStep(g, th, x); Tracks(g', cache)
  {
    hide KeepsStatus, BackOf, CtxOf, Weights, Total, LastMaster, Reached, AllProbed;
  }

  lemma OkCountOneMore(backends: seq<Backend>, i: nat)
    requires i < |backends|
    ensures OkCount(backends[..i + 1]) == OkCount(backends[..i]) + if backends[i].status == Ok then 1 else 0
  {
    assert backends[..i + 1][..i] == backends[..i];
  }

  lemma {:induction false} SameStatusSameCount(b: seq<Backend>, b': seq<Backend>)
    requires KeepsStatus(b, b')
    ensures OkCount(b') == OkCount(b)
  {
    if b != [] {
      SameStatusSameCount(b[..|b| - 1], b'[..|b'| - 1]);
    }
  }

  lemma UpdateCounts(g: Globals, th: Thread, x: Input)
    requires Fits(g.backends, th) && CountsSoFar(g, th.pc) && th.pc.Updating?
    ensures var (g', th') := WatcherStep(g, th, x); CountsSoFar(g', th'.pc)
  {
    hide OkCount, AllProbed;
    var (g', th') := WatcherStep(g, th, x);
    var i := th.pc.i;
    assert g'.backends[..i] == g.backends[..i];
    OkCountOneMore(g'.backends, i);
  }

  lemma ReloadCounts(g: Globals, th: Thread, x: Input)
    requires Fits(g.backends, th) && th.pc.Reloading?
    requires !g.disturbed ==> g.ok <= OkCount(g.backends)
    ensures var (g', th') := OtherStep(g, th, x); !g'.disturbed ==> g'.ok <= OkCount(g'.backends)
  {
    hide OkCount, Reloads, KeepsStatus;
    if KeepsStatus(g.backends, x.table) {
      SameStatusSameCount(g.backends, x.table);
    }
  }

  /** The count keeps up with the publishing. */
  lemma StepCounts(g: Globals, th: Thread, x: Input)
    requires Fits(g.backends, th) && CountsSoFar(g, th.pc)
    ensures var (g', th') := ThreadStep(g, th, x); CountsSoFar(g', th'.pc)
  {
    hide Fits, WatcherStep, WorkerStep, OtherStep, OkCount;
    if th.pc.Updating? {
      UpdateCounts(g, th, x);
    } else if Watches(th.pc) {
      WatcherCounts(g, th, x);
    } else if Works(th.pc) {
      WorkerLeavesTable(g, th, x);
    } else {
      OtherPublishesNothing(g, th, x);
    }
  }

  lemma WatcherCounts(g: Globals, th: Thread, x: Input)
    requires Fits(g.backends, th) && CountsSoFar(g, th.pc) && Watches(th.pc) && !th.pc.Updating?
    ensures var (g', th') := WatcherStep(g, th, x); CountsSoFar(g', th'.pc)
  {
    hide OkCount, AllProbed;
    NothingCounted(g.backends);
  }

  lemma NothingCounted(backends: seq<Backend>)
    ensures OkCount(backends[..0]) == 0
  {
  }

  lemma OtherPublishesNothing(g: Globals, th: Thread, x: Input)
    requires Fits(g.backends, th) && !Watches(th.pc) && !Works(th.pc)
    ensures !Publishes(th.pc) && !Publishes(OtherStep(g, th, x).1.pc)
    ensures !th.pc.Reloading? ==> OtherStep(g, th, x).0 == g
  {
    hide Computed, Reloads, KeepsStatus;
  }

  /** Once the publishing is over, the count is right but for the backends it skipped. */
  lemma StepSettles(g: Globals, th: Thread, x: Input)
    requires Fits(g.backends, th) && CountsSoFar(g, th.pc)
    requires !Publishes(th.pc) && !g.disturbed ==> g.ok <= OkCount(g.backends)
    ensures var (g', th') := ThreadStep(g, th, x);
            !Publishes(th'.pc) && !g'.disturbed ==> g'.ok <= OkCount(g'.backends)
  {
    hide Fits, WatcherStep, WorkerStep, OtherStep, OkCount, CountsSoFar;
    if th.pc.Reloading? {
      ReloadCounts(g, th, x);
    } else if Watches(th.pc) {
      WatcherSettles(g, th, x);
    } else if Works(th.pc) {
      WorkerLeavesTable(g, th, x);
    } else {
      OtherPublishesNothing(g, th, x);
    }
  }

  lemma WatcherSettles(g: Globals, th: Thread, x: Input)
    requires Fits(g.backends, th) && CountsSoFar(g, th.pc) && Watches(th.pc)
    requires !Publishes(th.pc) && !g.disturbed ==> g.ok <= OkCount(g.backends)
    ensures var (g', th') := WatcherStep(g, th, x);
            !Publishes(th'.pc) && !g'.disturbed ==> g'.ok <= OkCount(g'.backends)
  {
    hide OkCount, AllProbed;
    assert g.backends[..|g.backends|] == g.backends;
  }

  lemma StepClients(g: Globals, th: Thread, x: Input)
    requires Fits(g.backends, th)
    ensures var (g', th') := ThreadStep(g, th, x);
            g'.feConns - g.feConns
            == (if InService(th'.pc) then 1 else 0) - (if InService(th.pc) then 1 else 0)
  {
    hide Fits, WatcherStep, WorkerStep, OtherStep, InService;
    if Watches(th.pc) {
      WatcherClients(g, th, x);
    } else if Works(th.pc) {
      WorkerClients(g, th, x);
    } else {
      OtherClients(g, th, x);
    }
  }

  lemma WatcherClients(g: Globals, th: Thread, x: Input)
    requires Fits(g.backends, th) && Watches(th.pc)
    ensures var (g', th') := WatcherStep(g, th, x);
            g'.feConns == g.feConns && !InService(th'.pc) && !InService(th.pc)
  {
    hide AllProbed;
  }

  lemma WorkerClients(g: Globals, th: Thread, x: Input)
    requires Fits(g.backends, th) && Works(th.pc)
    ensures var (g', th') := WorkerStep(g, th, x);
            g'.feConns - g.feConns
            == (if InService(th'.pc) then 1 else 0) - (if InService(th.pc) then 1 else 0)
  {
    hide Weights, Total, LastMaster, Reached, BackOf, CtxOf;
  }

  lemma OtherClients(g: Globals, th: Thread, x: Input)
    requires Fits(g.backends, th) && !Watches(th.pc) && !Works(th.pc)
    ensures var (g', th') := OtherStep(g, th, x);
            g'.feConns == g.feConns && !InService(th'.pc) && !InService(th.pc)
  {
    hide Computed, KeepsStatus, Reloads;
  }

  lemma {:induction false} ClientsUpdate(threads: seq<Thread>, t: nat, th: Thread)
    requires t < |threads|
    ensures Clients(threads[t := th]) - Clients(threads)
         == (if InService(th.pc) then 1 else 0) - (if InService(threads[t].pc) then 1 else 0)
    decreases |threads|
  {
    var n := |threads| - 1;
    if t < n {
      assert threads[t := th][..n] == threads[..n][t := th];
      ClientsUpdate(threads[..n], t, th);
    } else {
      assert threads[t := th][..n] == threads[..n];
    }
  }

  // Every run.

  /** No backend has been probed, and nothing was counted. */
  ghost predicate Init(s: State)
  {
    && Serials(s.g) && s.g.ok == 0 && s.g.feConns == 0 && !s.g.disturbed
    && (forall j :: 0 <= j < |s.g.backends| ==> s.g.backends[j].status == Starting)
    && forall t :: 0 <= t < |s.threads| ==> Starts(s.threads[t])
  }

  predicate Starts(th: Thread)
  {
    && (th.pc.Waking? || th.pc.Accepting? || th.pc.Listening? || th.pc.Signals?)
    && th.ctx == Free && th.back == map[] && th.cache == []
  }

  lemma {:induction false} NobodyServed(threads: seq<Thread>)
    requires forall t :: 0 <= t < |threads| ==> Starts(threads[t])
    ensures Clients(threads) == 0
  {
    if threads != [] {
      NobodyServed(threads[..|threads| - 1]);
      assert Starts(threads[|threads| - 1]);
    }
  }

  lemma InitInv(s: State)
    requires Init(s)
    ensures Inv(s)
  {
    hide Clients, OkCount;
    NobodyServed(s.threads);
  }

  lemma ExclusiveKept(s: State, t: nat, x: Input)
    requires t < |s.threads| && Inv(s) && Enabled(s, t, false)
    ensures Exclusive(Step(s, t, x).threads)
  {
    hide ThreadStep, Fits, Tracks, Serials, CountsSoFar, NotPublishing, Clients, OkCount, AsksBack, Asks;
    StepLocks(s.g, s.threads[t], x);
  }

  lemma FitsKept(s: State, t: nat, x: Input, u: nat)
    requires t < |s.threads| && Inv(s) && u < |s.threads|
    ensures Fits(Step(s, t, x).g.backends, Step(s, t, x).threads[u])
  {
    hide ThreadStep, Fits, Tracks, Serials, CountsSoFar, NotPublishing, Clients, OkCount;
    StepLocks(s.g, s.threads[t], x);
    StepFits(s.g, s.threads[t], x);
    var (g, _) := ThreadStep(s.g, s.threads[t], x);
    if u != t {
      assert s.threads[t].ctx == Write ==> s.threads[u].ctx == Free;
      FitsElsewhere(s.g.backends, g.backends, s.threads[u]);
    }
  }

  lemma TracksKept(s: State, t: nat, x: Input, u: nat)
    requires t < |s.threads| && Inv(s) && u < |s.threads|
    ensures Tracks(Step(s, t, x).g, Step(s, t, x).threads[u].cache) && Serials(Step(s, t, x).g)
  {
    hide ThreadStep, Fits, Tracks, Serials, CountsSoFar, NotPublishing, Clients, OkCount, Exclusive;
    StepTracks(s.g, s.threads[t], x);
    TracksElsewhere(s.g, s.threads[t], x, s.threads[u].cache);
  }

  /** A thread that publishes holds the write lock, so what it has counted stands while others step. */
  lemma CountsKept(s: State, t: nat, x: Input, u: nat)
    requires t < |s.threads| && Inv(s) && u < |s.threads|
    ensures CountsSoFar(Step(s, t, x).g, Step(s, t, x).threads[u].pc)
  {
    assert CountsSoFar(s.g, s.threads[u].pc);
    if u == t {
      StepCounts(s.g, s.threads[t], x);
    } else if Publishes(s.threads[u].pc) {
      assert Fits(s.g.backends, s.threads[u]);
      assert s.threads[u].ctx == Write && s.threads[t].ctx == Free;
      StepLocks(s.g, s.threads[t], x);
    } else {
      assert Step(s, t, x).threads[u] == s.threads[u];
    }
    hide ThreadStep, Fits, Tracks, Serials, NotPublishing, Clients, OkCount;
  }

  lemma SettledKept(s: State, t: nat, x: Input)
    requires t < |s.threads| && Inv(s)
    ensures var s' := Step(s, t, x);
            NotPublishing(s'.threads) && !s'.g.disturbed ==> s'.g.ok <= OkCount(s'.g.backends)
  {
    hide ThreadStep, Fits, Tracks, Serials, Clients, OkCount, Exclusive, CountsSoFar;
    var s' := Step(s, t, x);
    if NotPublishing(s'.threads) {
      if !Publishes(s.threads[t].pc) {
        forall u | 0 <= u < |s.threads|
          ensures !Publishes(s.threads[u].pc)
        {
          assert s'.threads[u] == if u == t then s'.threads[t] else s.threads[u];
        }
      }
      StepSettles(s.g, s.threads[t], x);
      assert !Publishes(s'.threads[t].pc);
    }
  }

  /** Every enabled step of every thread keeps the invariant. */
  lemma StepKeepsInv(s: State, t: nat, x: Input)
    requires t < |s.threads| && Inv(s) && Enabled(s, t, false)
    ensures Inv(Step(s, t, x))
  {
    hide ThreadStep, Fits, Tracks, Serials, Exclusive, CountsSoFar, NotPublishing, Clients, OkCount, Enabled;
    var s' := Step(s, t, x);
    ExclusiveKept(s, t, x);
    SettledKept(s, t, x);
    StepClients(s.g, s.threads[t], x);
    var (_, th) := ThreadStep(s.g, s.threads[t], x);
    ClientsUpdate(s.threads, t, th);
    forall u | 0 <= u < |s.threads|
      ensures Fits(s'.g.backends, s'.threads[u]) && Tracks(s'.g, s'.threads[u].cache)
           && CountsSoFar(s'.g, s'.threads[u].pc)
    {
      FitsKept(s, t, x, u);
      TracksKept(s, t, x, u);
      CountsKept(s, t, x, u);
    }
    TracksKept(s, t, x, t);
  }

  datatype Move = Move(t: nat, x: Input)

  /** A run: any threads, any number of them, taking enabled steps in any order. */
  ghost predicate Run(states: seq<State>, moves: seq<Move>)
  {
    && |states| == |moves| + 1 && Init(states[0])
    && forall k :: 0 <= k < |moves| ==> Moves(states[k], moves[k], states[k + 1])
  }

  ghost predicate Moves(s: State, m: Move, s': State)
  {
    && m.t < |s.threads| && Fits(s.g.backends, s.threads[m.t]) && Enabled(s, m.t, false)
    && s' == Step(s, m.t, m.x)
  }

  lemma {:induction false} RunKeepsInv(states: seq<State>, moves: seq<Move>, k: nat)
    requires Run(states, moves) && k < |states|
    ensures Inv(states[k]) && |states[k].threads| == |states[0].threads|
    decreases k
  {
    if k == 0 {
      InitInv(states[0]);
    } else {
      RunKeepsInv(states, moves, k - 1);
      assert Moves(states[k - 1], moves[k - 1], states[k]);
      StepKeepsInv(states[k - 1], moves[k - 1].t, moves[k - 1].x);
    }
    hide Inv, Init, Step, Enabled;
  }

  // What the invariant gives, in every state of every run.

  /** Backend locks are held only under the context lock and one at a time, and a backend locked for
      writing is locked by nobody else. */
  lemma LocksNest(s: State, t: nat, u: nat, i: nat)
    requires Inv(s) && t < |s.threads| && u < |s.threads|
    ensures |s.threads[t].back| <= 1 && (s.threads[t].back != map[] ==> s.threads[t].ctx != Free)
    ensures t != u && i in s.threads[t].back && i in s.threads[u].back ==>
              s.threads[t].back[i] == s.threads[u].back[i] == Read
  {
    hide Computed, Tracks, Serials, CountsSoFar, NotPublishing, Clients, OkCount;
    assert Fits(s.g.backends, s.threads[t]) && Fits(s.g.backends, s.threads[u]);
  }

  /** A thread that holds the context lock never has to wait, not even for its backend locks and not even
      where waiting writers keep new readers out. */
  lemma HoldersRun(s: State, t: nat)
    requires Inv(s) && t < |s.threads| && s.threads[t].ctx != Free
    ensures Enabled(s, t, true)
  {
    hide Computed, Tracks, Serials, CountsSoFar, NotPublishing, Clients, OkCount;
    var th := s.threads[t];
    assert Fits(s.g.backends, th);
    forall u | 0 <= u < |s.threads|
      ensures AsksBack(s.g, th).Some? ==>
                var (i, mode) := AsksBack(s.g, th).value;
                i !in s.threads[u].back || (mode == Read && s.threads[u].back[i] == Read)
    {
      assert Fits(s.g.backends, s.threads[u]);
    }
  }

  /** No run ends in a deadlock: where some thread has more to do than wait for the outside world, there is
      one among those threads that can go on. */
  lemma NoDeadlock(s: State, t: nat) returns (u: nat)
    requires Inv(s) && t < |s.threads| && !External(s.threads[t].pc)
    ensures u < |s.threads| && !External(s.threads[u].pc) && Enabled(s, u, true)
  {
    hide Computed, Tracks, Serials, CountsSoFar, NotPublishing, Clients, OkCount;
    forall v | 0 <= v < |s.threads|
      ensures s.threads[v].ctx == CtxOf(s.threads[v].pc)
    {
      assert Fits(s.g.backends, s.threads[v]);
    }
    if v :| 0 <= v < |s.threads| && s.threads[v].ctx != Free {
      HoldersRun(s, v);
      return v;
    } else if v :| 0 <= v < |s.threads| && Asks(s.threads[v].pc) == Write {
      return v;
    } else {
      return t;
    }
  }

  /** How many more steps a thread can take before it lets go of the context lock. */
  function Rank(g: Globals, th: Thread): nat
    requires Fits(g.backends, th)
  {
    var n := |g.backends|;
    match th.pc
    case Sizing => 2 * n + 2
    case Snapshot(i) => 2 * (n - i) + 1
    case Caching(i) => 2 * (n - i)
    case Checking => 2 * n + 2
    case Publishing(i, _) => 2 * (n - i) + 1
    case Updating(i, _) => 2 * (n - i)
    case Weighing(i, _, _, _) => 2 * (n - i) + n + 4
    case WeighingIn(i, _, _, _) => 2 * (n - i) + n + 3
    case Picking(i, _, _, _) => n - i + 3
    case PickingIn(_, _, _) => 2
    case Reporting(i) => 2 * (n - i) + 1
    case ReportingIn(i) => 2 * (n - i)
    case _ => 1
  }

  lemma WatcherReleases(g: Globals, th: Thread, x: Input)
    requires Fits(g.backends, th) && Watches(th.pc) && th.ctx != Free
    ensures var (g', th') := WatcherStep(g, th, x);
            Fits(g'.backends, th') ==> th'.ctx == Free || (th'.ctx == th.ctx && Rank(g', th') < Rank(g, th))
  {
    hide AllProbed;
  }

  lemma WorkerReleases(g: Globals, th: Thread, x: Input)
    requires Fits(g.backends, th) && Works(th.pc) && th.ctx != Free
    ensures var (g', th') := WorkerStep(g, th, x);
            Fits(g'.backends, th') ==> th'.ctx == Free || (th'.ctx == th.ctx && Rank(g', th') < Rank(g, th))
  {
    hide Weights, Total, LastMaster, Reached;
  }

  /** Every lock is given back: each step of a holder brings the release nearer, however the others step. */
  lemma HoldersRelease(g: Globals, th: Thread, x: Input)
    requires Fits(g.backends, th) && th.ctx != Free
    ensures var (g', th') := ThreadStep(g, th, x);
            Fits(g'.backends, th') && (th'.ctx == Free || (th'.ctx == th.ctx && Rank(g', th') < Rank(g, th)))
  {
    hide Fits, KeepsStatus, Reloads;
    StepFits(g, th, x);
    if Watches(th.pc) {
      WatcherReleases(g, th, x);
      hide WatcherStep, Rank;
    } else if Works(th.pc) {
      WorkerReleases(g, th, x);
      hide WorkerStep, Rank;
    } else {
      OtherReleases(g, th, x);
      hide OtherStep, Rank;
    }
  }

  lemma OtherReleases(g: Globals, th: Thread, x: Input)
    requires Fits(g.backends, th) && !Watches(th.pc) && !Works(th.pc) && th.ctx != Free
    ensures var (g', th') := OtherStep(g, th, x);
            Fits(g'.backends, th') ==> th'.ctx == Free || (th'.ctx == th.ctx && Rank(g', th') < Rank(g, th))
  {
    hide KeepsStatus, Reloads;
  }

  /** While any thread holds the context lock for reading, no step of any thread changes the table. */
  lemma FrozenUnderReadLock(s: State, t: nat, x: Input, u: nat)
    requires Inv(s) && t < |s.threads| && u < |s.threads| && s.threads[u].ctx == Read
    ensures Step(s, t, x).g == s.g
  {
    hide ThreadStep, Fits, Tracks, Serials, CountsSoFar, NotPublishing, Clients, OkCount;
    StepLocks(s.g, s.threads[t], x);
  }

  lemma FrozenMove(states: seq<State>, moves: seq<Move>, k: nat, u: nat)
    requires Run(states, moves) && k < |moves| && ReadsAt(states[k], u)
    ensures states[k + 1].g == states[k].g
  {
    RunKeepsInv(states, moves, k);
    assert Moves(states[k], moves[k], states[k + 1]);
    FrozenUnderReadLock(states[k], moves[k].t, moves[k].x, u);
    hide Run, Inv, Step, Enabled, Fits;
  }

  predicate ReadsAt(s: State, u: nat)
  {
    u < |s.threads| && s.threads[u].ctx == Read
  }

  lemma RunIsOneLonger(states: seq<State>, moves: seq<Move>)
    requires Run(states, moves)
    ensures |states| == |moves| + 1
  {
  }

  /** ... and so, over any stretch of a run, the table that a reader sees last is the one it saw first. */
  lemma {:induction false} OneTableForAReader(states: seq<State>, moves: seq<Move>, first: nat, last: nat, u: nat)
    requires Run(states, moves) && first <= last < |states|
    requires forall k :: first <= k <= last ==> ReadsAt(states[k], u)
    ensures states[last].g == states[first].g
    decreases last - first
  {
    hide *;
    RunIsOneLonger(states, moves);
    if first < last {
      OneTableForAReader(states, moves, first, last - 1, u);
      FrozenMove(states, moves, last - 1, u);
    }
  }

  /** What a worker has chosen when it is about to let go of the table: the reader that the selection picks
      on the table as it stands, with the serial it has there, and the last master. Both loops of
      `determine_backends` have seen this same table. */
  lemma ChoiceIsOfTheTable(s: State, t: nat)
    requires Inv(s) && t < |s.threads| && s.threads[t].pc.Picked?
    ensures var pc, b := s.threads[t].pc, s.g.backends;
            && pc.i < |b| && Reached(Weights(b), pc.r, 0) == Some(pc.i) && pc.serial == b[pc.i].serial
            && pc.writer == LastMaster(b)
            && (b[pc.i].role != Master && b[pc.i].status == Ok && b[pc.i].lag < b[pc.i].threshold
                <==> pc.r > 0 || (b[0].role != Master && b[0].status == Ok && b[0].lag < b[0].threshold))
  {
    hide Weights, Total, LastMaster, Reached;
    assert Fits(s.g.backends, s.threads[t]);
    ReaderIsViableIff(s.g.backends, s.threads[t].pc.r);
  }

  /** Which lock each part of the code runs under: what only looks at the table shares the context lock, what changes
      the table or a counter has it alone. */
  lemma LockModes(s: State, t: nat)
    requires Inv(s) && t < |s.threads|
    ensures var pc, mode := s.threads[t].pc, s.threads[t].ctx;
            && (mode == Read <==>
                  || pc.Sizing? || pc.Snapshot? || pc.Caching? || pc.Finding? || pc.Weighing? || pc.WeighingIn?
                  || pc.Picking? || pc.PickingIn? || pc.Picked? || pc.Reporting? || pc.ReportingIn?)
            && (mode == Write <==>
                  || pc.Checking? || pc.Publishing? || pc.Updating? || pc.Arriving? || pc.Leaving? || pc.Reloading?)
    ensures var pc, held := s.threads[t].pc, s.threads[t].back;
            && (pc.Caching? || pc.WeighingIn? || pc.PickingIn? || pc.ReportingIn? ==> held == map[pc.i := Read])
            && (pc.Updating? ==> held == map[pc.i := Write])
  {
    hide Computed, Tracks, Serials, CountsSoFar, NotPublishing, Clients, OkCount;
    assert Fits(s.g.backends, s.threads[t]);
  }

  /** The second loop never falls through. */
  lemma SearchEndsInside(s: State, t: nat)
    requires Inv(s) && t < |s.threads| && s.threads[t].pc.Picking?
    ensures s.threads[t].pc.i < |s.g.backends|
  {
    hide Weights, Total, LastMaster;
    assert Fits(s.g.backends, s.threads[t]);
    ReaderIsViableIff(s.g.backends, s.threads[t].pc.r);
  }

  /** Health is published for a backend only from a probe made with its current connection settings, and
      nothing else about it changes; a backend whose serial has moved on is left alone. */
  lemma PublishedIsCurrent(s: State, t: nat, x: Input)
    requires Inv(s) && t < |s.threads| && s.threads[t].pc.Updating?
    ensures var i, cache, b := s.threads[t].pc.i, s.threads[t].cache, s.g.backends;
            && i < |b| && i < |cache|
            && (cache[i].serial == b[i].serial ==>
                  && cache[i].probed == Some(b[i].conf)
                  && Step(s, t, x).g.backends
                     == b[i := b[i].(status := cache[i].ok, role := cache[i].role, lag := cache[i].lag)])
            && (cache[i].serial != b[i].serial ==> Step(s, t, x).g == s.g)
  {
    hide Serials, CountsSoFar, NotPublishing, Clients, OkCount;
    assert Fits(s.g.backends, s.threads[t]) && Tracks(s.g, s.threads[t].cache);
  }

  /** Thread `u` is the watcher in the middle of a round. */
  predicate InRound(s: State, u: nat)
  {
    u < |s.threads| && Watches(s.threads[u].pc) && !s.threads[u].pc.Asleep? && !s.threads[u].pc.Waking?
  }

  predicate PublishesAt(s: State, u: nat)
  {
    u < |s.threads| && Publishes(s.threads[u].pc)
  }

  /** A round that has begun to publish ends asleep, not awake. */
  lemma {:induction false} PublishingGoesOn(states: seq<State>, moves: seq<Move>, first: nat, last: nat, u: nat)
    requires Run(states, moves) && first <= last < |states| && PublishesAt(states[first], u)
    requires forall k :: first <= k < last ==> InRound(states[k], u)
    ensures PublishesAt(states[last], u) || (u < |states[last].threads| && states[last].threads[u].pc.Asleep?)
    decreases last - first
  {
    hide Moves, Init, PublishesAt;
    assert |states| == |moves| + 1;
    if first < last {
      PublishingGoesOn(states, moves, first, last - 1, u);
      assert InRound(states[last - 1], u);
      RoundMove(states[last - 1], moves[last - 1], states[last], u);
    }
  }

  lemma RoundMove(s: State, m: Move, s': State, u: nat)
    requires Moves(s, m, s') && InRound(s, u)
    ensures |s'.threads| == |s.threads|
    ensures PublishesAt(s, u) ==> PublishesAt(s', u) || s'.threads[u].pc.Asleep?
    ensures !PublishesAt(s, u) && !PublishesAt(s', u) && m.t == u ==> s'.g == s.g
    ensures s'.threads[u].pc.Waking? ==>
              m.t == u && s.threads[u].pc.Checking? && |s.threads[u].cache| != |s.g.backends|
  {
    hide Computed, Enabled, WorkerStep, OtherStep;
  }

  /** A round of the watcher that does not put it to sleep is dropped as a whole: no step of it has published anything,
      and the number of backends was not what it was at the snapshot. */
  lemma RoundDropped(states: seq<State>, moves: seq<Move>, first: nat, last: nat, u: nat)
    requires Run(states, moves) && first < last < |states|
    requires forall k :: first <= k < last ==> InRound(states[k], u)
    requires u < |states[last].threads| && states[last].threads[u].pc.Waking?
    ensures forall k :: first <= k < last && moves[k].t == u ==> states[k + 1].g == states[k].g
    ensures var s := states[last - 1];
            moves[last - 1].t == u && s.threads[u].pc.Checking? && |s.threads[u].cache| != |s.g.backends|
  {
    hide Moves, Init, InRound;
    assert |states| == |moves| + 1;
    forall k | first <= k < last
      ensures !PublishesAt(states[k], u)
    {
      if PublishesAt(states[k], u) {
        PublishingGoesOn(states, moves, k, last, u);
      }
    }
    forall k | first <= k < last && moves[k].t == u
      ensures states[k + 1].g == states[k].g
    {
      RoundMove(states[k], moves[k], states[k + 1], u);
    }
    RoundMove(states[last - 1], moves[last - 1], states[last], u);
  }

  /** The end of a round: the number of healthy backends is exact if and only if none was skipped that is
      still marked healthy. */
  lemma RoundCountsHealthy(s: State, t: nat)
    requires Inv(s) && t < |s.threads| && s.threads[t].pc.Publishing? && s.threads[t].pc.i == |s.threads[t].cache|
    ensures s.g.ok + s.threads[t].pc.skippedOk == OkCount(s.g.backends)
    ensures s.g.ok == OkCount(s.g.backends) <==> s.threads[t].pc.skippedOk == 0
  {
    hide OkCount, Tracks, Serials, NotPublishing, Clients, AllProbed;
    assert Fits(s.g.backends, s.threads[t]) && CountsSoFar(s.g, s.threads[t].pc);
    assert s.g.backends[..|s.g.backends|] == s.g.backends;
  }

  /** What the monitor and the workers can see: while nobody holds the write lock, no more backends are
      counted healthy than are marked so, and as many clients are counted as workers serve. */
  lemma CountersHold(s: State)
    requires Inv(s) && (forall t :: 0 <= t < |s.threads| ==> s.threads[t].ctx != Write)
    ensures !s.g.disturbed ==> s.g.ok <= OkCount(s.g.backends)
    ensures s.g.feConns == Clients(s.threads)
  {
    hide OkCount, Tracks, Serials, Clients, Computed;
    forall t | 0 <= t < |s.threads|
      ensures !Publishes(s.threads[t].pc)
    {
      assert Fits(s.g.backends, s.threads[t]);
    }
  }

  /** A reload that keeps the number of backends and their statuses, as every reload of this code does: it never
      touches the table. */
  predicate KeepsBackends(s: State, m: Move)
  {
    m.t < |s.threads| && s.threads[m.t].pc.Reloading? && Reloads(s.g, m.x) ==> KeepsStatus(s.g.backends, m.x.table)
  }

  lemma {:induction false} NothingDisturbed(states: seq<State>, moves: seq<Move>, k: nat)
    requires Run(states, moves) && k < |states|
    requires forall j :: 0 <= j < k ==> KeepsBackends(states[j], moves[j])
    ensures !states[k].g.disturbed
    decreases k
  {
    hide Moves, KeepsBackends;
    assert |states| == |moves| + 1;
    if k > 0 {
      NothingDisturbed(states, moves, k - 1);
      DisturbedStep(states[k - 1], moves[k - 1], states[k]);
    }
  }

  lemma DisturbedStep(s: State, m: Move, s': State)
    requires Moves(s, m, s') && KeepsBackends(s, m) && !s.g.disturbed
    ensures !s'.g.disturbed
  {
    hide Computed, Enabled, KeepsStatus, Reloads, WorkerStep;
    if Works(s.threads[m.t].pc) {
      WorkersDisturbNothing(s.g, s.threads[m.t], m.x);
    }
  }

  lemma WorkersDisturbNothing(g: Globals, th: Thread, x: Input)
    requires Fits(g.backends, th)
    ensures WorkerStep(g, th, x).0.disturbed == g.disturbed
  {
    hide Computed;
  }

  /** So, in every run whose reloads do that, whenever nobody holds the write lock no more backends are counted
      healthy than are marked so. */
  lemma HealthyAreMarked(states: seq<State>, moves: seq<Move>, k: nat)
    requires Run(states, moves) && k < |states|
    requires forall j :: 0 <= j < k ==> KeepsBackends(states[j], moves[j])
    requires forall t :: 0 <= t < |states[k].threads| ==> states[k].threads[t].ctx != Write
    ensures states[k].g.ok <= OkCount(states[k].g.backends)
  {
    hide Run, Inv, KeepsBackends, OkCount;
    RunKeepsInv(states, moves, k);
    NothingDisturbed(states, moves, k);
    CountersHold(states[k]);
  }

  // A reload that could take backends away would break that.

  ghost predicate Reachable(s: State)
  {
    exists states, moves :: Run(states, moves) && states[|moves|] == s
  }

  lemma Reaches(s: State, t: nat, x: Input)
    requires Reachable(s) && t < |s.threads| && Enabled(s, t, false)
    ensures Fits(s.g.backends, s.threads[t]) && Reachable(Step(s, t, x))
  {
    hide Inv, Fits, Enabled, ThreadStep, Init;
    var states, moves :| Run(states, moves) && states[|moves|] == s;
    RunKeepsInv(states, moves, |moves|);
    InvFits(s, t);
    var s' := Step(s, t, x);
    var m := Move(t, x);
    assert Moves(s, m, s');
    var states', moves' := states + [s'], moves + [m];
    assert forall k :: 0 <= k < |moves| ==> moves'[k] == moves[k];
    assert forall k :: 0 <= k < |states| ==> states'[k] == states[k];
    assert Run(states', moves') && states'[|moves'|] == s';
  }

  lemma InvFits(s: State, t: nat)
    requires Inv(s) && t < |s.threads|
    ensures Fits(s.g.backends, s.threads[t])
  {
    hide Fits, Tracks, Serials, CountsSoFar, Exclusive, Clients, OkCount, NotPublishing;
  }

  /** A move that neither changes the table nor starts to count the healthy anew. */
  predicate LeavesHealth(s: State, m: Move)
  {
    m.t < |s.threads| ==>
      var th := s.threads[m.t];
      !(th.pc.Reloading? && Reloads(s.g, m.x)) && !(th.pc.Checking? && |th.cache| == |s.g.backends|)
  }

  lemma HealthStands(s: State, m: Move, s': State)
    requires Moves(s, m, s') && LeavesHealth(s, m) && NotPublishing(s.threads)
    ensures NotPublishing(s'.threads) && s'.g.ok == s.g.ok && s'.g.backends == s.g.backends
  {
    hide Computed, Enabled, Reloads, KeepsStatus;
  }

  lemma {:induction false} HealthStays(states: seq<State>, moves: seq<Move>, j: nat, k: nat)
    requires Run(states, moves) && j <= k < |states| && NotPublishing(states[j].threads)
    requires forall i :: j <= i < k ==> LeavesHealth(states[i], moves[i])
    ensures NotPublishing(states[k].threads)
    ensures states[k].g.ok == states[j].g.ok && states[k].g.backends == states[j].g.backends
    decreases k
  {
    hide Moves, LeavesHealth, NotPublishing, Init;
    assert |states| == |moves| + 1;
    if j < k {
      HealthStays(states, moves, j, k - 1);
      HealthStands(states[k - 1], moves[k - 1], states[k]);
    }
  }

  lemma ReloadsAlone(s: State, m: Move, s': State)
    requires Inv(s) && Moves(s, m, s') && s.threads[m.t].pc.Reloading? && Reloads(s.g, m.x)
    ensures NotPublishing(s'.threads) && s'.g.ok == s.g.ok && s'.g.backends == m.x.table
  {
    hide Computed, Enabled, Reloads, KeepsStatus, Tracks, Serials, CountsSoFar, Clients, OkCount, NotPublishing;
    forall u | 0 <= u < |s.threads|
      ensures !Publishes(s.threads[u].pc)
    {
      assert Fits(s.g.backends, s.threads[u]) && Fits(s.g.backends, s.threads[m.t]);
    }
    assert forall u :: 0 <= u < |s'.threads| ==> !Publishes(s'.threads[u].pc);
    NobodyPublishes(s');
  }

  lemma NobodyPublishes(s: State)
    requires forall u :: 0 <= u < |s.threads| ==> !Publishes(s.threads[u].pc)
    ensures NotPublishing(s.threads)
  {
  }

  /** After a reload to any table, until the table changes again or the healthy are counted anew, the bound holds in
      exactly the runs whose reload left as many healthy backends as had been counted: nothing else mends it. */
  lemma BoundAfterReloadIff(states: seq<State>, moves: seq<Move>, j: nat, k: nat)
    requires Run(states, moves) && j < k < |states|
    requires var s, m := states[j], moves[j];
             m.t < |s.threads| && s.threads[m.t].pc.Reloading? && Reloads(s.g, m.x)
    requires forall i :: j < i < k ==> LeavesHealth(states[i], moves[i])
    ensures states[k].g.ok <= OkCount(states[k].g.backends) <==> states[j].g.ok <= OkCount(moves[j].x.table)
  {
    hide Moves, LeavesHealth, NotPublishing, Init, Inv, OkCount, Reloads;
    RunKeepsInv(states, moves, j);
    assert Moves(states[j], moves[j], states[j + 1]);
    ReloadsAlone(states[j], moves[j], states[j + 1]);
    HealthStays(states, moves, j + 1, k);
  }

  // A run to such a reload: one healthy backend is counted, and then taken away.

  function Lone(status: Status): Backend
  {
    Backend(1, 0, 1, 1, Slave, status, 0)
  }

  /** One watcher and the supervisor. */
  function Pair(status: Status, ok: nat, pc: Pc, ctx: Mode, back: map<nat, Mode>, cache: seq<Health>): State
  {
    State(Globals([Lone(status)], ok, 0, 1, false),
          [Thread(pc, ctx, back, cache), Thread(Signals, Free, map[], [])])
  }

  /** All probes find what they probe healthy; a reload leaves nothing. */
  const FINDING := Input(0, 0, Ok, Slave, 0, [], 1)

  /** The watcher takes a step, while the supervisor waits for a signal. */
  lemma WatcherMoves(s: State, s': State)
    requires Reachable(s) && |s.threads| == |s'.threads| == 2 && s.threads[1] == Thread(Signals, Free, map[], [])
    requires Fits(s.g.backends, s.threads[0]) && Watches(s.threads[0].pc)
    requires WatcherStep(s.g, s.threads[0], FINDING) == (s'.g, s'.threads[0]) && s'.threads[1] == s.threads[1]
    ensures Reachable(s')
  {
    hide Reachable, WatcherStep, Computed;
    assert Enabled(s, 0, false);
    Reaches(s, 0, FINDING);
    assert s.threads[0 := s'.threads[0]] == s'.threads;
    assert Step(s, 0, FINDING) == s';
  }

  lemma OneIsCached()
    ensures Reachable(Pair(Starting, 0, Snapshot(1), Read, map[], [Health(1, 0, None, Ok, Slave, 0)]))
  {
    hide Reachable, AllProbed, Weights, Total, LastMaster, Reached;
    var none, known := Health(0, 0, None, Ok, Unknown, 0), Health(1, 0, None, Ok, Slave, 0);
    var s0 := Pair(Starting, 0, Waking, Free, map[], []);
    NowhereYet(s0);
    var s1 := Pair(Starting, 0, Sizing, Read, map[], []);
    WatcherMoves(s0, s1);
    var s2 := Pair(Starting, 0, Snapshot(0), Read, map[], [none]);
    assert WatcherStep(s1.g, s1.threads[0], FINDING).1.cache == [none];
    WatcherMoves(s1, s2);
    var s3 := Pair(Starting, 0, Caching(0), Read, map[0 := Read], [none]);
    assert map[][0 := Read] == map[0 := Read];
    WatcherMoves(s2, s3);
    assert map[0 := Read] - {0} == map[] && [none][0 := known] == [known];
    WatcherMoves(s3, Pair(Starting, 0, Snapshot(1), Read, map[], [known]));
  }

  lemma OneIsProbed()
    ensures Reachable(Pair(Starting, 0, Probed, Free, map[], [Health(1, 0, Some(0), Ok, Slave, 0)]))
  {
    hide Reachable;
    var known, probed := Health(1, 0, None, Ok, Slave, 0), Health(1, 0, Some(0), Ok, Slave, 0);
    OneIsCached();
    var s0 := Pair(Starting, 0, Snapshot(1), Read, map[], [known]);
    var s1 := Pair(Starting, 0, Probing(0), Free, map[], [known]);
    WatcherMoves(s0, s1);
    var s2 := Pair(Starting, 0, Probing(1), Free, map[], [probed]);
    assert [known][0 := probed] == [probed];
    WatcherMoves(s1, s2);
    assert [probed][..1] == [probed];
    WatcherMoves(s2, Pair(Starting, 0, Probed, Free, map[], [probed]));
  }

  lemma NowhereYet(s: State)
    requires Init(s)
    ensures Reachable(s)
  {
    var moves: seq<Move> := [];
    assert Run([s], moves) && [s][|moves|] == s;
  }

  lemma OneIsCounted()
    ensures Reachable(Pair(Ok, 1, Asleep, Free, map[], [Health(1, 0, Some(0), Ok, Slave, 0)]))
  {
    hide Reachable;
    OneIsProbed();
    var cache := [Health(1, 0, Some(0), Ok, Slave, 0)];
    var s0 := Pair(Starting, 0, Probed, Free, map[], cache);
    var s1 := Pair(Starting, 0, Checking, Write, map[], cache);
    WatcherMoves(s0, s1);
    var s2 := Pair(Starting, 0, Publishing(0, 0), Write, map[], cache);
    WatcherMoves(s1, s2);
    var s3 := Pair(Starting, 0, Updating(0, 0), Write, map[0 := Write], cache);
    assert map[][0 := Write] == map[0 := Write];
    WatcherMoves(s2, s3);
    var s4 := Pair(Ok, 1, Publishing(1, 0), Write, map[], cache);
    assert map[0 := Write] - {0} == map[] && [Lone(Starting)][0 := Lone(Ok)] == [Lone(Ok)];
    WatcherMoves(s3, s4);
    WatcherMoves(s4, Pair(Ok, 1, Asleep, Free, map[], cache));
  }

  /** A reload that takes away the only backend leaves one counted and none marked healthy, in a state where nobody
      holds a lock. */
  lemma FewerBackendsBreakIt() returns (s: State)
    ensures Reachable(s) && s.g.ok == 1 && OkCount(s.g.backends) == 0
    ensures forall t :: 0 <= t < |s.threads| ==> s.threads[t].ctx == Free
  {
    hide Reachable;
    OneIsCounted();
    var cache := [Health(1, 0, Some(0), Ok, Slave, 0)];
    var s0 := Pair(Ok, 1, Asleep, Free, map[], cache);
    var w := s0.threads[0];
    var s1 := s0.(threads := [w, Thread(ToReload, Free, map[], [])]);
    SupervisorMoves(s0, s1);
    var s2 := s0.(threads := [w, Thread(Reloading, Write, map[], [])]);
    SupervisorMoves(s1, s2);
    s := State(Globals([], 1, 0, 1, true), [w, Thread(Signals, Free, map[], [])]);
    assert !KeepsStatus(s2.g.backends, []);
    SupervisorMoves(s2, s);
  }

  lemma SupervisorMoves(s: State, s': State)
    requires Reachable(s) && |s.threads| == |s'.threads| == 2 && s.threads[0].ctx == Free && s.threads[0].back == map[]
    requires Fits(s.g.backends, s.threads[1])
    requires s.threads[1].pc.Signals? || s.threads[1].pc.ToReload? || s.threads[1].pc.Reloading?
    requires OtherStep(s.g, s.threads[1], FINDING) == (s'.g, s'.threads[1]) && s'.threads[0] == s.threads[0]
    ensures Reachable(s')
  {
    hide Reachable, OtherStep;
    assert Enabled(s, 1, false);
    Reaches(s, 1, FINDING);
    assert s.threads[1 := s'.threads[1]] == s'.threads;
    assert Step(s, 1, FINDING) == s';
  }
}
