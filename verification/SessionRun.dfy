/**
The session as a transition system: workers that run operations over the pool,
one critical section of the session's mutex a step, the begin and the end of
each handshake separate steps, and the spread moved by somebody else at any
moment. Every dial, backoff and cancellation may end either way.
*/
module SessionRun {
  import opened Options
  import opened SessionPool

  datatype Pc =
    | Idle
    | Asking(index: nat)                                  // acquire, about to look
    | AwaitDial(index: nat, slot: nat)                    // another worker dials the slot
    | QueueDial(index: nat, slot: nat)                    // wants the handshake lock
    | Check(index: nat, slot: nat)                        // holds it, reads `refused`
    | Shake(index: nat, slot: nat)                        // holds it, dials
    | Report(index: nat, slot: nat, result: DialResult)   // about to fill the slot
    | Running(conn: nat, gen: nat)                        // an operation on that client
    | Failing(conn: nat, gen: nat)                        // reconnect, about to look
    | AwaitRedial(conn: nat, gen: nat, attempt: nat)      // another worker redials
    | Backoff(conn: nat, gen: nat, attempt: nat)
    | QueueRedial(conn: nat, gen: nat, attempt: nat)      // wants the handshake lock
    | Reshake(conn: nat, gen: nat, attempt: nat)          // holds it, dials
    | Rejoin(conn: nat, gen: nat, attempt: nat, ok: bool) // about to install
    | Resuming(conn: nat, gen: nat)                       // reconnect returned a client

  /**
  A worker, with the history the claims are about. `doing` says that it runs
  session.do; `ran` lists the generations the current operation ran on. `rounds`
  counts the rounds of the current reconnect loop and `waited` is the last
  attempt that loop waited for.
  */
  datatype Worker = Worker(pc: Pc, doing: bool, ran: seq<nat>, rounds: nat, waited: nat)

  /** `dials[i]` counts the first dials of slot `i`; `slipped` counts the
      handshakes for new connections that ended after the refusal. */
  datatype State = State(pool: Pool, lock: Option<nat>, workers: seq<Worker>, dials: seq<nat>, slipped: nat)

  datatype Event =
    | Begin(index: nat, doing: bool) | LookUp | WakeDial | TakeLock | CheckRefused | EndShake(ok: bool)
    | Fill | OpDone | OpLost | LookAgain | WakeRedial | Cancel | BackoffDone | EndReshake(ok: bool)
    | Return(installed: bool) | Resume | Spread(n: int, clamped: nat)

  datatype Config = Config(retries: nat, auto: bool)

  function Init(size: nat, workers: nat): State
    requires size > 0
  {
    State(Pool([Some(0)] + seq(size - 1, i => None), [Conn(0, None)], 1, false, 0, seq(size, i => false)),
          None, seq(workers, i => Worker(Idle, false, [], 0, 0)), seq(size, i => 0), 0)
  }

  // ---- Invariants ----

  /** The shared state. The last clause is the refusal latch. */
  ghost predicate PoolInv(cfg: Config, p: Pool) {
    && 1 <= p.spread <= |p.slots| == |p.dialing|
    && p.slots[0] == Some(0) && |p.conns| > 0
    && (forall i :: 0 <= i < |p.slots| && p.slots[i].Some? ==> p.slots[i].value < |p.conns|)
    && (forall i :: 0 <= i < |p.slots| && p.dialing[i] ==> p.slots[i].None?)
    && SumGen(p.conns) + InFlight(p.conns) <= p.reconnects <= cfg.retries
    && (forall c :: 0 <= c < |p.conns| && p.conns[c].redialing.Some? ==> 1 <= p.conns[c].redialing.value <= p.reconnects)
    && (p.refused && cfg.auto ==> forall i :: 0 <= i < p.spread ==> p.slots[i].Some?)
  }

  predicate DialPhase(pc: Pc) {
    pc.QueueDial? || pc.Check? || pc.Shake? || pc.Report?
  }

  predicate RedialPhase(pc: Pc) {
    pc.Backoff? || pc.QueueRedial? || pc.Reshake? || pc.Rejoin?
  }

  predicate HoldsLock(pc: Pc) {
    pc.Check? || pc.Shake? || pc.Reshake?
  }

  predicate Reconnecting(pc: Pc) {
    pc.Failing? || pc.AwaitRedial? || RedialPhase(pc)
  }

  predicate Increasing(s: seq<nat>) {
    forall i, j :: 0 <= i < j < |s| ==> s[i] < s[j]
  }

  predicate LastBelow(ran: seq<nat>, gen: nat) {
    ran == [] || ran[|ran| - 1] < gen
  }

  /** The worker holds a client: it knows a connection and a generation. */
  predicate HasConn(pc: Pc) {
    pc.Running? || pc.Resuming? || Reconnecting(pc)
  }

  /** What session.do has run so far: strictly newer generations of the first
      connection, one operation each. */
  predicate RanOk(wk: Worker, p: Pool)
    requires |p.conns| > 0
  {
    && Increasing(wk.ran) && LastBelow(wk.ran, p.conns[0].gen + 1)
    && !wk.pc.AwaitDial? && !DialPhase(wk.pc)
    && (wk.pc.Asking? ==> wk.pc.index == 0 && LastBelow(wk.ran, p.conns[0].gen))
    && (HasConn(wk.pc) ==> wk.pc.conn == 0 && wk.ran != [] && wk.ran[|wk.ran| - 1] == wk.pc.gen)
  }

  /** What a worker at this point knows about the shared state. */
  predicate PcOk(wk: Worker, p: Pool)
    requires |p.dialing| == |p.slots|
  {
    && (wk.pc.AwaitDial? ==> wk.pc.slot < |p.slots| && (p.dialing[wk.pc.slot] || p.slots[wk.pc.slot].Some?))
    && (DialPhase(wk.pc) ==> wk.pc.slot < |p.slots| && p.dialing[wk.pc.slot])
    && (wk.pc.Report? && wk.pc.result.Skipped? ==> p.refused)
    && (HasConn(wk.pc) ==> wk.pc.conn < |p.conns| && wk.pc.gen <= p.conns[wk.pc.conn].gen)
    && (wk.pc.Resuming? ==> wk.pc.gen < p.conns[wk.pc.conn].gen)
    && (RedialPhase(wk.pc) ==> p.conns[wk.pc.conn].redialing == Some(wk.pc.attempt))
    && (wk.pc.Failing? ==> RoundsOk(wk, p, wk.pc.conn, wk.waited + 1))
    && (wk.pc.AwaitRedial? ==> wk.waited == wk.pc.attempt && RoundsOk(wk, p, wk.pc.conn, wk.waited))
  }

  /** A reconnect loop goes round once for every attempt it waited for, and those
      attempts are all different. `least` is a bound on the attempt in flight. */
  predicate RoundsOk(wk: Worker, p: Pool, c: nat, least: nat)
    requires c < |p.conns|
  {
    && wk.waited <= p.reconnects
    && (p.conns[c].redialing.Some? ==> p.conns[c].redialing.value >= least)
  }

  predicate WorkerInv(cfg: Config, p: Pool, wk: Worker)
    requires |p.dialing| == |p.slots| && |p.conns| > 0
  {
    && PcOk(wk, p)
    && (wk.doing ==> RanOk(wk, p))
    && wk.waited <= p.reconnects
    && wk.rounds <= wk.waited + (if wk.pc.AwaitRedial? then 0 else 1)
  }

  /** At most one worker holds the handshake lock, dials a given slot, or redials
      a given connection. */
  ghost predicate Exclusive(st: State) {
    && (forall w :: 0 <= w < |st.workers| ==> (HoldsLock(st.workers[w].pc) <==> st.lock == Some(w)))
    && (forall v, w :: 0 <= v < |st.workers| && 0 <= w < |st.workers| && v != w
                       && DialPhase(st.workers[v].pc) && DialPhase(st.workers[w].pc) ==>
          st.workers[v].pc.slot != st.workers[w].pc.slot)
    && (forall v, w :: 0 <= v < |st.workers| && 0 <= w < |st.workers| && v != w
                       && RedialPhase(st.workers[v].pc) && RedialPhase(st.workers[w].pc) ==>
          st.workers[v].pc.conn != st.workers[w].pc.conn)
  }

  /** Each slot is dialed at most once. */
  ghost predicate DialsInv(st: State) {
    && |st.dials| == |st.pool.slots| == |st.pool.dialing|
    && forall i :: 0 <= i < |st.dials| ==>
         st.dials[i] == if st.pool.dialing[i] || (i > 0 && st.pool.slots[i].Some?) then 1 else 0
  }

  ghost predicate Shaking(st: State) {
    exists w :: 0 <= w < |st.workers| && st.workers[w].pc.Shake?
  }

  /** At most one handshake slips through after the refusal. */
  ghost predicate SlipInv(st: State) {
    && (!st.pool.refused ==> st.slipped == 0)
    && st.slipped <= 1
    && (st.slipped == 1 ==> !Shaking(st))
  }

  ghost predicate Inv(cfg: Config, st: State) {
    && PoolInv(cfg, st.pool)
    && (forall w :: 0 <= w < |st.workers| ==> WorkerInv(cfg, st.pool, st.workers[w]))
    && Exclusive(st)
    && DialsInv(st)
    && SlipInv(st)
  }

  // ---- Steps ----

  /** Can a worker take this step now? */
  predicate CanTake(p: Pool, lock: Option<nat>, pc: Pc, e: Event) {
    match e
    case Begin(index, doing) => pc.Idle? && (doing ==> index == 0)
    case LookUp => pc.Asking?
    case WakeDial => pc.AwaitDial? && pc.slot < |p.dialing| && !p.dialing[pc.slot]
    case TakeLock => (pc.QueueDial? || pc.QueueRedial?) && lock.None?
    case CheckRefused => pc.Check?
    case EndShake(_) => pc.Shake?
    case Fill => pc.Report?
    case OpDone => pc.Running?
    case OpLost => pc.Running?
    case LookAgain => pc.Failing?
    case WakeRedial => pc.AwaitRedial? && pc.conn < |p.conns| && p.conns[pc.conn].redialing != Some(pc.attempt)
    case Cancel => pc.AwaitRedial? || pc.Backoff?
    case BackoffDone => pc.Backoff?
    case EndReshake(_) => pc.Reshake?
    case Return(installed) => pc.Rejoin? && (installed ==> pc.ok)
    case Resume => pc.Resuming?
    case Spread(n, clamped) => Clamped(p, n, clamped)
  }

  /** A worker and the shared state it steps on. */
  ghost predicate Fits(cfg: Config, p: Pool, wk: Worker, e: Event, lock: Option<nat>) {
    PoolInv(cfg, p) && WorkerInv(cfg, p, wk) && CanTake(p, lock, wk.pc, e)
  }

  function RunOn(wk: Worker, c: nat, gen: nat): Worker {
    wk.(pc := Running(c, gen), ran := if wk.doing then wk.ran + [gen] else [gen])
  }

  function NextWorker(cfg: Config, p: Pool, wk: Worker, e: Event, ghost lock: Option<nat>): Worker
    requires Fits(cfg, p, wk, e, lock)
  {
    var pc := wk.pc;
    match e
    case Begin(index, doing) => Worker(Asking(index), doing, [], 0, 0)
    case LookUp =>
      (match Look(p, pc.index)
       case Have(c, gen) => RunOn(wk, c, gen)
       case MustWait(slot) => wk.(pc := AwaitDial(pc.index, slot))
       case MustDial(slot) => wk.(pc := QueueDial(pc.index, slot)))
    case WakeDial => wk.(pc := Asking(pc.index))
    case TakeLock =>
      wk.(pc := if pc.QueueDial? then Check(pc.index, pc.slot) else Reshake(pc.conn, pc.gen, pc.attempt))
    case CheckRefused =>
      wk.(pc := if p.refused then Report(pc.index, pc.slot, Skipped) else Shake(pc.index, pc.slot))
    case EndShake(ok) => wk.(pc := Report(pc.index, pc.slot, if ok then Connected else Failed))
    case Fill =>
      var q := Install(p, pc.slot, pc.result, cfg.auto);
      var c := q.slots[pc.slot].value;
      RunOn(wk, c, q.conns[c].gen)
    case OpDone => wk.(pc := Idle)
    case OpLost => wk.(pc := Failing(pc.conn, pc.gen), rounds := 1, waited := 0)
    case LookAgain =>
      (match BeginRedial(p, pc.conn, pc.gen, cfg.retries)
       case Fresh => wk.(pc := Resuming(pc.conn, pc.gen))
       case WaitFor(a) => wk.(pc := AwaitRedial(pc.conn, pc.gen, a), waited := a)
       case Spent => wk.(pc := Idle)
       case Go(a) => wk.(pc := Backoff(pc.conn, pc.gen, a)))
    case WakeRedial => wk.(pc := Failing(pc.conn, pc.gen), rounds := wk.rounds + 1)
    case Cancel => wk.(pc := if pc.AwaitRedial? then Idle else Rejoin(pc.conn, pc.gen, pc.attempt, false))
    case BackoffDone => wk.(pc := QueueRedial(pc.conn, pc.gen, pc.attempt))
    case EndReshake(ok) => wk.(pc := Rejoin(pc.conn, pc.gen, pc.attempt, ok))
    case Return(installed) => wk.(pc := if installed then Resuming(pc.conn, pc.gen) else Idle)
    case Resume => if wk.doing then wk.(pc := Asking(0)) else RunOn(wk, pc.conn, p.conns[pc.conn].gen)
    case Spread(_, _) => wk
  }

  function NextPool(cfg: Config, p: Pool, wk: Worker, e: Event, ghost lock: Option<nat>): Pool
    requires Fits(cfg, p, wk, e, lock)
  {
    match e
    case LookUp =>
      var f := Look(p, wk.pc.index);
      if f.MustDial? then p.(dialing := p.dialing[f.slot := true]) else p
    case Fill => Install(p, wk.pc.slot, wk.pc.result, cfg.auto)
    case LookAgain =>
      if BeginRedial(p, wk.pc.conn, wk.pc.gen, cfg.retries).Go? then Redialing(p, wk.pc.conn) else p
    case Return(installed) => EndRedial(p, wk.pc.conn, installed)
    case Spread(_, clamped) => SetSpread(p, clamped)
    case _ => p
  }

  function NextLock(p: Pool, pc: Pc, w: nat, lock: Option<nat>, e: Event): Option<nat> {
    match e
    case TakeLock => Some(w)
    case CheckRefused => if p.refused then None else lock
    case EndShake(_) => None
    case EndReshake(_) => None
    case _ => lock
  }

  function NextDials(p: Pool, pc: Pc, dials: seq<nat>, e: Event): seq<nat>
    requires |dials| == |p.slots| == |p.dialing| && p.spread <= |p.slots| && |p.slots| > 0
    requires forall i :: 0 <= i < |p.slots| && p.slots[i].Some? ==> p.slots[i].value < |p.conns|
  {
    if e.LookUp? && pc.Asking? then
      var f := Look(p, pc.index);
      if f.MustDial? then dials[f.slot := dials[f.slot] + 1] else dials
    else dials
  }

  ghost predicate CanStep(cfg: Config, st: State, w: nat, e: Event) {
    w < |st.workers| && Fits(cfg, st.pool, st.workers[w], e, st.lock) && DialsInv(st)
  }

  function Step(cfg: Config, st: State, w: nat, e: Event): State
    requires CanStep(cfg, st, w, e)
  {
    var p, wk := st.pool, st.workers[w];
    State(NextPool(cfg, p, wk, e, st.lock), NextLock(p, wk.pc, w, st.lock, e),
          st.workers[w := NextWorker(cfg, p, wk, e, st.lock)], NextDials(p, wk.pc, st.dials, e),
          st.slipped + if e.EndShake? && p.refused then 1 else 0)
  }

  // ---- Every step keeps the invariant ----

  /** How the shared state may change, as a worker that does not own the change
      sees it. */
  ghost predicate Grows(p: Pool, q: Pool) {
    && |q.slots| == |p.slots| && |q.dialing| == |p.dialing| == |p.slots| && |p.conns| <= |q.conns|
    && (forall i :: 0 <= i < |p.slots| && p.slots[i].Some? ==> q.slots[i] == p.slots[i])
    && (forall i :: 0 <= i < |p.slots| && p.dialing[i] && !q.dialing[i] ==> q.slots[i].Some?)
    && (forall c :: 0 <= c < |p.conns| ==> p.conns[c].gen <= q.conns[c].gen)
    && (forall c :: 0 <= c < |p.conns| && q.conns[c].redialing.Some? ==>
          q.conns[c].redialing == p.conns[c].redialing || q.conns[c].redialing.value > p.reconnects)
    && p.reconnects <= q.reconnects && (p.refused ==> q.refused)
  }

  lemma OtherWorker(cfg: Config, p: Pool, q: Pool, wk: Worker)
    requires |p.dialing| == |p.slots| && |p.conns| > 0 && WorkerInv(cfg, p, wk) && Grows(p, q)
    requires DialPhase(wk.pc) ==> q.dialing[wk.pc.slot]
    requires RedialPhase(wk.pc) ==> q.conns[wk.pc.conn].redialing == p.conns[wk.pc.conn].redialing
    ensures |q.dialing| == |q.slots| && |q.conns| > 0 && WorkerInv(cfg, q, wk)
  {
  }

  /** The steps that change the pool. */
  predicate PoolEvent(e: Event) {
    e.LookUp? || e.Fill? || e.LookAgain? || e.Return? || e.Spread?
  }

  lemma QuietPool(cfg: Config, p: Pool, wk: Worker, e: Event, lock: Option<nat>)
    requires Fits(cfg, p, wk, e, lock) && !PoolEvent(e)
    ensures NextPool(cfg, p, wk, e, lock) == p
  {
  }

  lemma PoolStep(cfg: Config, p: Pool, wk: Worker, e: Event, lock: Option<nat>)
    requires Fits(cfg, p, wk, e, lock)
    ensures Grows(p, NextPool(cfg, p, wk, e, lock)) && PoolInv(cfg, NextPool(cfg, p, wk, e, lock))
  {
    if PoolEvent(e) {
      BusyPoolStep(cfg, p, wk, e, lock);
    } else {
      QuietPool(cfg, p, wk, e, lock);
      GrowsItself(p);
    }
  }

  lemma BusyPoolStep(cfg: Config, p: Pool, wk: Worker, e: Event, lock: Option<nat>)
    requires Fits(cfg, p, wk, e, lock) && PoolEvent(e)
    ensures Grows(p, NextPool(cfg, p, wk, e, lock)) && PoolInv(cfg, NextPool(cfg, p, wk, e, lock))
  {
    if e.LookUp? {
      LookUpKeepsPool(cfg, p, wk.pc.index);
    } else if e.Fill? {
      FillKeepsPool(cfg, p, wk.pc.slot, wk.pc.result);
    } else if e.Spread? {
      SpreadKeepsPool(cfg, p, e.clamped);
    } else {
      RedialPoolStep(cfg, p, wk, e, lock);
    }
  }

  lemma RedialPoolStep(cfg: Config, p: Pool, wk: Worker, e: Event, lock: Option<nat>)
    requires Fits(cfg, p, wk, e, lock) && (e.LookAgain? || e.Return?)
    ensures Grows(p, NextPool(cfg, p, wk, e, lock)) && PoolInv(cfg, NextPool(cfg, p, wk, e, lock))
  {
    if e.Return? {
      ReturnKeepsPool(cfg, p, wk.pc.conn, e.installed);
    } else if BeginRedial(p, wk.pc.conn, wk.pc.gen, cfg.retries).Go? {
      RedialKeepsPool(cfg, p, wk.pc.conn);
    } else {
      GrowsItself(p);
    }
  }

  lemma GrowsItself(p: Pool)
    requires |p.dialing| == |p.slots|
    ensures Grows(p, p)
  {
  }

  lemma LookUpKeepsPool(cfg: Config, p: Pool, index: nat)
    requires PoolInv(cfg, p)
    ensures var f := Look(p, index);
            var q := if f.MustDial? then p.(dialing := p.dialing[f.slot := true]) else p;
            PoolInv(cfg, q) && Grows(p, q)
  {
  }

  lemma SpreadKeepsPool(cfg: Config, p: Pool, clamped: nat)
    requires PoolInv(cfg, p) && 1 <= clamped <= |p.slots|
    ensures PoolInv(cfg, SetSpread(p, clamped)) && Grows(p, SetSpread(p, clamped))
  {
  }

  lemma RedialKeepsPool(cfg: Config, p: Pool, c: nat)
    requires PoolInv(cfg, p) && c < |p.conns| && p.conns[c].redialing.None? && p.reconnects < cfg.retries
    ensures PoolInv(cfg, Redialing(p, c)) && Grows(p, Redialing(p, c))
  {
    SumsUpdate(p.conns, c, p.conns[c].(redialing := Some(p.reconnects + 1)));
  }

  lemma ReturnKeepsPool(cfg: Config, p: Pool, c: nat, installed: bool)
    requires PoolInv(cfg, p) && c < |p.conns| && p.conns[c].redialing.Some?
    ensures PoolInv(cfg, EndRedial(p, c, installed)) && Grows(p, EndRedial(p, c, installed))
  {
    SumsUpdate(p.conns, c, Conn(p.conns[c].gen + if installed then 1 else 0, None));
  }

  lemma FillKeepsPool(cfg: Config, p: Pool, slot: nat, r: DialResult)
    requires PoolInv(cfg, p) && slot < |p.slots| && p.dialing[slot] && (r.Skipped? ==> p.refused)
    ensures PoolInv(cfg, Install(p, slot, r, cfg.auto)) && Grows(p, Install(p, slot, r, cfg.auto))
  {
    var q := Install(p, slot, r, cfg.auto);
    if r.Connected? {
      assert q.conns[..|q.conns| - 1] == p.conns;
    }
  }

  lemma RunOnOk(cfg: Config, p: Pool, wk: Worker, c: nat)
    requires PoolInv(cfg, p) && WorkerInv(cfg, p, wk) && c < |p.conns|
    requires wk.doing ==> c == 0 && LastBelow(wk.ran, p.conns[0].gen)
    ensures WorkerInv(cfg, p, RunOn(wk, c, p.conns[c].gen))
  {
  }

  lemma OwnLookUp(cfg: Config, p: Pool, wk: Worker, lock: Option<nat>)
    requires Fits(cfg, p, wk, LookUp, lock)
    ensures WorkerInv(cfg, NextPool(cfg, p, wk, LookUp, lock), NextWorker(cfg, p, wk, LookUp, lock))
  {
    var f := Look(p, wk.pc.index);
    assert wk.doing ==> f == Have(0, p.conns[0].gen);
    if f.Have? {
      RunOnOk(cfg, p, wk, f.conn);
    }
  }

  lemma OwnLookAgain(cfg: Config, p: Pool, wk: Worker, lock: Option<nat>)
    requires Fits(cfg, p, wk, LookAgain, lock)
    ensures WorkerInv(cfg, NextPool(cfg, p, wk, LookAgain, lock), NextWorker(cfg, p, wk, LookAgain, lock))
  {
    var r := BeginRedial(p, wk.pc.conn, wk.pc.gen, cfg.retries);
    if r.Go? {
      OwnGo(cfg, p, wk, r.attempt);
    } else {
      OwnNoGo(cfg, p, wk, lock);
    }
  }

  lemma OwnGo(cfg: Config, p: Pool, wk: Worker, attempt: nat)
    requires PoolInv(cfg, p) && WorkerInv(cfg, p, wk) && wk.pc.Failing? && attempt == p.reconnects + 1
    requires p.conns[wk.pc.conn].redialing.None?
    ensures WorkerInv(cfg, Redialing(p, wk.pc.conn), wk.(pc := Backoff(wk.pc.conn, wk.pc.gen, attempt)))
  {
  }

  /** It found the client renewed, redials in progress, or no budget left. */
  lemma OwnNoGo(cfg: Config, p: Pool, wk: Worker, lock: Option<nat>)
    requires Fits(cfg, p, wk, LookAgain, lock) && !BeginRedial(p, wk.pc.conn, wk.pc.gen, cfg.retries).Go?
    ensures WorkerInv(cfg, p, NextWorker(cfg, p, wk, LookAgain, lock))
  {
  }

  lemma OwnReturn(cfg: Config, p: Pool, wk: Worker, installed: bool, lock: Option<nat>)
    requires Fits(cfg, p, wk, Return(installed), lock)
    ensures WorkerInv(cfg, NextPool(cfg, p, wk, Return(installed), lock), NextWorker(cfg, p, wk, Return(installed), lock))
  {
  }

  lemma OwnResume(cfg: Config, p: Pool, wk: Worker, lock: Option<nat>)
    requires Fits(cfg, p, wk, Resume, lock)
    ensures WorkerInv(cfg, NextPool(cfg, p, wk, Resume, lock), NextWorker(cfg, p, wk, Resume, lock))
  {
    if !wk.doing {
      RunOnOk(cfg, p, wk, wk.pc.conn);
    }
  }

  lemma OwnFill(cfg: Config, p: Pool, wk: Worker, lock: Option<nat>)
    requires Fits(cfg, p, wk, Fill, lock)
    ensures WorkerInv(cfg, NextPool(cfg, p, wk, Fill, lock), NextWorker(cfg, p, wk, Fill, lock))
  {
    FillKeepsPool(cfg, p, wk.pc.slot, wk.pc.result);
  }

  predicate DialEvent(e: Event) {
    e.Begin? || e.WakeDial? || e.TakeLock? || e.CheckRefused? || e.EndShake?
  }

  predicate RedialEvent(e: Event) {
    e.WakeRedial? || e.Cancel? || e.BackoffDone? || e.EndReshake?
  }

  predicate OperationEvent(e: Event) {
    e.OpDone? || e.OpLost?
  }

  lemma OwnDialing(cfg: Config, p: Pool, wk: Worker, e: Event, lock: Option<nat>)
    requires Fits(cfg, p, wk, e, lock) && DialEvent(e)
    ensures WorkerInv(cfg, p, NextWorker(cfg, p, wk, e, lock))
  {
  }

  lemma OwnRedialing(cfg: Config, p: Pool, wk: Worker, e: Event, lock: Option<nat>)
    requires Fits(cfg, p, wk, e, lock) && RedialEvent(e)
    ensures WorkerInv(cfg, p, NextWorker(cfg, p, wk, e, lock))
  {
  }

  lemma OwnOperation(cfg: Config, p: Pool, wk: Worker, e: Event, lock: Option<nat>)
    requires Fits(cfg, p, wk, e, lock) && OperationEvent(e)
    ensures WorkerInv(cfg, p, NextWorker(cfg, p, wk, e, lock))
  {
  }

  lemma OwnSpread(cfg: Config, p: Pool, wk: Worker, clamped: nat)
    requires PoolInv(cfg, p) && WorkerInv(cfg, p, wk)
    ensures WorkerInv(cfg, SetSpread(p, clamped), wk)
  {
  }

  lemma OwnStep(cfg: Config, p: Pool, wk: Worker, e: Event, lock: Option<nat>)
    requires Fits(cfg, p, wk, e, lock)
    ensures WorkerInv(cfg, NextPool(cfg, p, wk, e, lock), NextWorker(cfg, p, wk, e, lock))
  {
    if DialEvent(e) {
      OwnDialing(cfg, p, wk, e, lock);
    } else if RedialEvent(e) {
      OwnRedialing(cfg, p, wk, e, lock);
    } else if OperationEvent(e) {
      OwnOperation(cfg, p, wk, e, lock);
    } else {
      match e
      case LookUp => OwnLookUp(cfg, p, wk, lock);
      case Fill => OwnFill(cfg, p, wk, lock);
      case LookAgain => OwnLookAgain(cfg, p, wk, lock);
      case Return(installed) => OwnReturn(cfg, p, wk, installed, lock);
      case Resume => OwnResume(cfg, p, wk, lock);
      case Spread(_, clamped) => OwnSpread(cfg, p, wk, clamped);
    }
  }

  /** A worker enters a dial or a redial only when nobody else is in it. */
  ghost predicate Enters(p: Pool, pc: Pc, pc': Pc) {
    && (DialPhase(pc') ==> if DialPhase(pc) then pc'.slot == pc.slot
                           else pc'.slot < |p.dialing| && !p.dialing[pc'.slot])
    && (RedialPhase(pc') ==> if RedialPhase(pc) then pc'.conn == pc.conn
                             else pc'.conn < |p.conns| && p.conns[pc'.conn].redialing.None?)
  }

  lemma EntersFree(cfg: Config, p: Pool, wk: Worker, e: Event, lock: Option<nat>)
    requires Fits(cfg, p, wk, e, lock)
    ensures Enters(p, wk.pc, NextWorker(cfg, p, wk, e, lock).pc)
  {
    if DialEvent(e) {
      EntersDialing(cfg, p, wk, e, lock);
    } else if RedialEvent(e) {
      EntersRedialing(cfg, p, wk, e, lock);
    } else if !OperationEvent(e) {
      EntersOther(cfg, p, wk, e, lock);
    }
  }

  lemma EntersDialing(cfg: Config, p: Pool, wk: Worker, e: Event, lock: Option<nat>)
    requires Fits(cfg, p, wk, e, lock) && DialEvent(e)
    ensures Enters(p, wk.pc, NextWorker(cfg, p, wk, e, lock).pc)
  {
  }

  lemma EntersRedialing(cfg: Config, p: Pool, wk: Worker, e: Event, lock: Option<nat>)
    requires Fits(cfg, p, wk, e, lock) && RedialEvent(e)
    ensures Enters(p, wk.pc, NextWorker(cfg, p, wk, e, lock).pc)
  {
  }

  lemma EntersOther(cfg: Config, p: Pool, wk: Worker, e: Event, lock: Option<nat>)
    requires Fits(cfg, p, wk, e, lock) && !DialEvent(e) && !RedialEvent(e) && !OperationEvent(e)
    ensures Enters(p, wk.pc, NextWorker(cfg, p, wk, e, lock).pc)
  {
  }

  /** Only the worker that dials a slot clears its flag, and only the one that
      redials a connection clears that. */
  lemma ClearsOwn(cfg: Config, p: Pool, wk: Worker, e: Event, lock: Option<nat>)
    requires Fits(cfg, p, wk, e, lock)
    ensures var q := NextPool(cfg, p, wk, e, lock);
            && |q.dialing| == |p.dialing| && |q.conns| >= |p.conns|
            && (forall i :: 0 <= i < |p.slots| && p.dialing[i] && !q.dialing[i] ==> DialPhase(wk.pc) && wk.pc.slot == i)
            && (forall c :: 0 <= c < |p.conns| && p.conns[c].redialing.Some? && q.conns[c].redialing != p.conns[c].redialing ==>
                  RedialPhase(wk.pc) && wk.pc.conn == c)
  {
  }

  lemma WorkersStep(cfg: Config, st: State, w: nat, e: Event)
    requires Inv(cfg, st) && CanStep(cfg, st, w, e)
    ensures var st' := Step(cfg, st, w, e);
            PoolInv(cfg, st'.pool) && forall v :: 0 <= v < |st'.workers| ==> WorkerInv(cfg, st'.pool, st'.workers[v])
  {
    var p, wk, st' := st.pool, st.workers[w], Step(cfg, st, w, e);
    PoolStep(cfg, p, wk, e, st.lock);
    OwnStep(cfg, p, wk, e, st.lock);
    ClearsOwn(cfg, p, wk, e, st.lock);
    forall v | 0 <= v < |st.workers| && v != w ensures WorkerInv(cfg, st'.pool, st.workers[v]) {
      OtherWorker(cfg, p, st'.pool, st.workers[v]);
    }
  }

  lemma ExclusiveStep(cfg: Config, st: State, w: nat, e: Event)
    requires Inv(cfg, st) && CanStep(cfg, st, w, e)
    ensures Exclusive(Step(cfg, st, w, e))
  {
    EntersFree(cfg, st.pool, st.workers[w], e, st.lock);
    LockStep(cfg, st, w, e);
    forall v | 0 <= v < |st.workers| && v != w ensures NotIn(st, v, Step(cfg, st, w, e).workers[w].pc) {
      EnteredAlone(cfg, st, w, v, e);
    }
    AloneIsExclusive(st, w, Step(cfg, st, w, e));
  }

  /** The worker is neither in that dial nor in that redial. */
  ghost predicate NotIn(st: State, v: nat, pc: Pc)
    requires v < |st.workers|
  {
    && (DialPhase(pc) && DialPhase(st.workers[v].pc) ==> st.workers[v].pc.slot != pc.slot)
    && (RedialPhase(pc) && RedialPhase(st.workers[v].pc) ==> st.workers[v].pc.conn != pc.conn)
  }

  lemma EnteredAlone(cfg: Config, st: State, w: nat, v: nat, e: Event)
    requires Inv(cfg, st) && CanStep(cfg, st, w, e) && v < |st.workers| && v != w
    requires Enters(st.pool, st.workers[w].pc, NextWorker(cfg, st.pool, st.workers[w], e, st.lock).pc)
    ensures NotIn(st, v, NextWorker(cfg, st.pool, st.workers[w], e, st.lock).pc)
  {
    assert WorkerInv(cfg, st.pool, st.workers[v]);
  }

  lemma AloneIsExclusive(st: State, w: nat, st': State)
    requires w < |st.workers| == |st'.workers| && Exclusive(st)
    requires forall v :: 0 <= v < |st.workers| && v != w ==> st'.workers[v] == st.workers[v]
    requires forall v :: 0 <= v < |st.workers| && v != w ==> NotIn(st, v, st'.workers[w].pc)
    requires forall v :: 0 <= v < |st'.workers| ==> (HoldsLock(st'.workers[v].pc) <==> st'.lock == Some(v))
    ensures Exclusive(st')
  {
    forall u, v | 0 <= u < |st'.workers| && 0 <= v < |st'.workers| && u != v
      ensures DialPhase(st'.workers[u].pc) && DialPhase(st'.workers[v].pc) ==> st'.workers[u].pc.slot != st'.workers[v].pc.slot
      ensures RedialPhase(st'.workers[u].pc) && RedialPhase(st'.workers[v].pc) ==> st'.workers[u].pc.conn != st'.workers[v].pc.conn
    {
      assert u == w ==> NotIn(st, v, st'.workers[w].pc);
      assert v == w ==> NotIn(st, u, st'.workers[w].pc);
    }
  }

  lemma LockStep(cfg: Config, st: State, w: nat, e: Event)
    requires Inv(cfg, st) && CanStep(cfg, st, w, e)
    ensures var st' := Step(cfg, st, w, e);
            forall v :: 0 <= v < |st'.workers| ==> (HoldsLock(st'.workers[v].pc) <==> st'.lock == Some(v))
  {
    OwnLock(cfg, st.pool, st.workers[w], w, e, st.lock);
    forall v | 0 <= v < |st.workers| && v != w
      ensures NextLock(st.pool, st.workers[w].pc, w, st.lock, e) == Some(v) <==> st.lock == Some(v)
    {
      OthersLock(st.pool, st.workers[w].pc, w, v, e, st.lock);
    }
  }

  lemma OwnLock(cfg: Config, p: Pool, wk: Worker, w: nat, e: Event, lock: Option<nat>)
    requires Fits(cfg, p, wk, e, lock) && (HoldsLock(wk.pc) <==> lock == Some(w))
    ensures HoldsLock(NextWorker(cfg, p, wk, e, lock).pc) <==> NextLock(p, wk.pc, w, lock, e) == Some(w)
  {
  }

  lemma OthersLock(p: Pool, pc: Pc, w: nat, v: nat, e: Event, lock: Option<nat>)
    requires CanTake(p, lock, pc, e) && v != w && (HoldsLock(pc) <==> lock == Some(w))
    ensures NextLock(p, pc, w, lock, e) == Some(v) <==> lock == Some(v)
  {
  }

  lemma DialsStep(cfg: Config, st: State, w: nat, e: Event)
    requires Inv(cfg, st) && CanStep(cfg, st, w, e)
    ensures DialsInv(Step(cfg, st, w, e))
  {
    if e.LookUp? {
      LookUpKeepsDials(cfg, st, w);
    } else if e.Fill? {
      FillKeepsDials(cfg, st, w);
    } else {
      SameSlots(cfg, st.pool, st.workers[w], e, st.lock);
    }
  }

  lemma LookUpKeepsDials(cfg: Config, st: State, w: nat)
    requires Inv(cfg, st) && CanStep(cfg, st, w, LookUp)
    ensures DialsInv(Step(cfg, st, w, LookUp))
  {
    assert st.pool.slots[0].Some?;
  }

  lemma FillKeepsDials(cfg: Config, st: State, w: nat)
    requires Inv(cfg, st) && CanStep(cfg, st, w, Fill)
    ensures DialsInv(Step(cfg, st, w, Fill))
  {
    assert WorkerInv(cfg, st.pool, st.workers[w]);
    assert st.pool.slots[0].Some? && !st.pool.dialing[0];
  }

  lemma SameSlots(cfg: Config, p: Pool, wk: Worker, e: Event, lock: Option<nat>)
    requires Fits(cfg, p, wk, e, lock) && !e.LookUp? && !e.Fill?
    ensures var q := NextPool(cfg, p, wk, e, lock); q.slots == p.slots && q.dialing == p.dialing
  {
  }

  lemma SlipStep(cfg: Config, st: State, w: nat, e: Event)
    requires Inv(cfg, st) && CanStep(cfg, st, w, e)
    ensures SlipInv(Step(cfg, st, w, e))
  {
    var st' := Step(cfg, st, w, e);
    assert HoldsLock(st.workers[w].pc) <==> st.lock == Some(w);
    forall v | 0 <= v < |st.workers| && st'.workers[v].pc.Shake?
      ensures st.workers[v].pc.Shake? || (v == w && e.CheckRefused? && !st.pool.refused)
      ensures st'.lock == Some(v) || (v != w && st.lock == Some(v))
    {
      assert HoldsLock(st.workers[v].pc) <==> st.lock == Some(v);
    }
  }
}
