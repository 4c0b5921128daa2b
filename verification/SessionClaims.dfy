/** What holds in every run of the session, whatever the workers, the server and
    the tuning policy do. */
module SessionClaims {
  import opened Options
  import opened SessionPool
  import opened SessionRun
  import Spreading

  lemma StepKeepsInv(cfg: Config, st: State, w: nat, e: Event)
    requires Inv(cfg, st) && CanStep(cfg, st, w, e)
    ensures Inv(cfg, Step(cfg, st, w, e))
  {
    WorkersStep(cfg, st, w, e);
    ExclusiveStep(cfg, st, w, e);
    DialsStep(cfg, st, w, e);
    SlipStep(cfg, st, w, e);
  }

  lemma InitInv(cfg: Config, size: nat, workers: nat)
    requires size > 0
    ensures Inv(cfg, Init(size, workers))
  {
    var st := Init(size, workers);
    assert SumGen(st.pool.conns) == 0 && InFlight(st.pool.conns) == 0 by {
      assert st.pool.conns[..0] == [];
    }
  }

  /** Worker `w` takes step `e`. */
  ghost predicate Takes(cfg: Config, st: State, w: nat, e: Event, st': State) {
    && w < |st.workers| && CanTake(st.pool, st.lock, st.workers[w].pc, e)
    && (CanStep(cfg, st, w, e) ==> st' == Step(cfg, st, w, e))
  }

  ghost predicate Next(cfg: Config, st: State, st': State) {
    exists w, e :: Takes(cfg, st, w, e, st')
  }

  ghost predicate IsRun(cfg: Config, run: seq<State>) {
    && run != [] && (exists size: nat, workers: nat :: size > 0 && run[0] == Init(size, workers))
    && forall i :: 0 <= i < |run| - 1 ==> Next(cfg, run[i], run[i + 1])
  }

  lemma {:induction false} RunInv(cfg: Config, run: seq<State>, i: nat)
    requires IsRun(cfg, run) && i < |run|
    ensures Inv(cfg, run[i])
    decreases i, 0
  {
    if i == 0 {
      var size: nat, workers: nat :| size > 0 && run[0] == Init(size, workers);
      InitInv(cfg, size, workers);
    } else {
      var w, e := RunStep(cfg, run, i - 1);
      StepKeepsInv(cfg, run[i - 1], w, e);
    }
  }

  lemma {:induction false} RunStep(cfg: Config, run: seq<State>, i: nat) returns (w: nat, e: Event)
    requires IsRun(cfg, run) && i + 1 < |run|
    ensures Inv(cfg, run[i]) && CanStep(cfg, run[i], w, e) && run[i + 1] == Step(cfg, run[i], w, e)
    decreases i, 1
  {
    RunInv(cfg, run, i);
    assert Next(cfg, run[i], run[i + 1]);
    w, e :| Takes(cfg, run[i], w, e, run[i + 1]);
  }

  lemma {:induction false} RunGrows(cfg: Config, run: seq<State>, i: nat, j: nat)
    requires IsRun(cfg, run) && i <= j < |run|
    ensures |run[j].pool.slots| == |run[i].pool.slots|
    ensures forall k :: 0 <= k < |run[i].pool.slots| && run[i].pool.slots[k].Some? ==> run[j].pool.slots[k] == run[i].pool.slots[k]
    ensures run[i].pool.reconnects <= run[j].pool.reconnects
    ensures run[i].pool.refused ==> run[j].pool.refused
    decreases j
  {
    if i < j {
      RunGrows(cfg, run, i, j - 1);
      NextGrows(cfg, run, j - 1);
    }
  }

  lemma NextGrows(cfg: Config, run: seq<State>, i: nat)
    requires IsRun(cfg, run) && i + 1 < |run|
    ensures Grows(run[i].pool, run[i + 1].pool)
  {
    var w, e := RunStep(cfg, run, i);
    PoolStep(cfg, run[i].pool, run[i].workers[w], e, run[i].lock);
  }

  /**
  The pool invariant, at every moment of every run: the spread is within the
  slots, the first slot is open, a filled slot keeps its connection for good, no
  slot is dialed twice, one handshake at most is in flight (the lock has one
  holder), no connection is redialed by two workers (both are Exclusive), and the generations and the
  redials in flight are paid from the reconnect budget.
  */
  lemma PoolHolds(cfg: Config, run: seq<State>, i: nat, j: nat)
    requires IsRun(cfg, run) && i <= j < |run|
    ensures var p := run[j].pool;
            && 1 <= p.spread <= |p.slots| == |run[j].dials|
            && p.slots[0] == Some(0)
            && SumGen(p.conns) + InFlight(p.conns) <= p.reconnects <= cfg.retries
            && (forall k :: 0 <= k < |p.slots| ==> run[j].dials[k] <= 1)
    ensures forall k :: 0 <= k < |run[i].pool.slots| && run[i].pool.slots[k].Some? ==>
              k < |run[j].pool.slots| && run[j].pool.slots[k] == run[i].pool.slots[k]
    ensures Exclusive(run[j])
  {
    RunInv(cfg, run, j);
    RunGrows(cfg, run, i, j);
  }

  /** In every state of every run the files are spread over the pool: among any
      `spread` consecutive ones each slot below the spread is some file's, and once
      those slots are filled every connection serves its share of any first `n`. */
  lemma FilesAreSpread(cfg: Config, run: seq<State>, i: nat, start: nat, slot: nat, n: nat, c: nat) returns (file: nat)
    requires IsRun(cfg, run) && i < |run| && slot < run[i].pool.spread
    ensures var p := run[i].pool; Spreading.Usable(p) && p.slots[0].Some?
    ensures var p := run[i].pool; start <= file < start + p.spread && Spreading.Answers(p, Look(p, file), slot)
    ensures var p := run[i].pool;
            (forall k :: 0 <= k < p.spread ==> p.slots[k].Some?) ==> Spreading.ServesShare(p, n, c)
  {
    RunInv(cfg, run, i);
    var p := run[i].pool;
    file := Spreading.WindowReachesAll(p, start, slot);
    if forall k :: 0 <= k < p.spread ==> p.slots[k].Some? {
      Spreading.ConnectionsServeTheirShare(p, n, c);
    }
  }

  // ---- The refusal ----

  lemma NoDialWhenFilled(p: Pool, index: nat)
    requires |p.dialing| == |p.slots| && 1 <= p.spread <= |p.slots|
    requires forall i :: 0 <= i < |p.slots| && p.slots[i].Some? ==> p.slots[i].value < |p.conns|
    requires forall i :: 0 <= i < p.spread ==> p.slots[i].Some?
    ensures Look(p, index).Have?
  {
  }

  /**
  The refusal latch. Once the server refused a connection, the session starts no
  further handshake for a new one, and of those already past the check at most
  one still ends. With an automatic connection count every slot below the spread
  is open from then on, so no later acquire starts a dial at all.
  */
  lemma RefusalLatches(cfg: Config, run: seq<State>, i: nat, j: nat)
    requires IsRun(cfg, run) && i <= j < |run| && run[i].pool.refused
    ensures Latched(cfg, run[i], run[j]) && run[j].slipped <= 1
    ensures cfg.auto ==> forall k :: 0 <= k < run[j].pool.spread ==> k < |run[j].pool.slots| && run[j].pool.slots[k].Some?
  {
    RunInv(cfg, run, j);
    RefusalLasts(cfg, run, i, j);
  }

  /** After a refusal: a worker in a handshake was in that same handshake before,
      and with an automatic count no slot has been dialed since. */
  ghost predicate Latched(cfg: Config, st: State, st': State) {
    && st'.pool.refused && |st'.workers| == |st.workers|
    && (forall v :: 0 <= v < |st.workers| && st'.workers[v].pc.Shake? ==> st'.workers[v].pc == st.workers[v].pc)
    && (cfg.auto ==> st'.dials == st.dials)
  }

  lemma {:induction false} RefusalLasts(cfg: Config, run: seq<State>, i: nat, j: nat)
    requires IsRun(cfg, run) && i <= j < |run| && run[i].pool.refused
    ensures Latched(cfg, run[i], run[j])
    decreases j
  {
    if i < j {
      RefusalLasts(cfg, run, i, j - 1);
      NextStaysRefused(cfg, run, j - 1);
      LatchedTwice(cfg, run[i], run[j - 1], run[j]);
    }
  }

  // ---- The handshake that slips through ----

  lemma RunExtends(cfg: Config, run: seq<State>, w: nat, e: Event, st: State)
    requires IsRun(cfg, run) && Takes(cfg, run[|run| - 1], w, e, st)
    ensures IsRun(cfg, run + [st])
  {
    var more := run + [st];
    forall i | 0 <= i < |more| - 1 ensures Next(cfg, more[i], more[i + 1]) {
      if i < |run| - 1 {
        assert Next(cfg, run[i], run[i + 1]);
      }
    }
  }

  /** While nobody is in a handshake for a new connection none ends, and after the
      refusal nobody enters one. */
  lemma {:induction false} NoShakeNoSlip(cfg: Config, run: seq<State>, i: nat, j: nat)
    requires IsRun(cfg, run) && i <= j < |run| && run[i].pool.refused && !Shaking(run[i])
    ensures run[j].slipped == run[i].slipped
    decreases j
  {
    if i < j {
      NoShakeNoSlip(cfg, run, i, j - 1);
      RefusalLasts(cfg, run, i, j - 1);
      StillNoShake(cfg, run[i], run[j - 1]);
      var w, e := RunStep(cfg, run, j - 1);
      NoShakeNoEnd(cfg, run[j - 1], w, e);
    }
  }

  lemma StillNoShake(cfg: Config, st: State, st': State)
    requires Latched(cfg, st, st') && !Shaking(st)
    ensures !Shaking(st')
  {
  }

  lemma NoShakeNoEnd(cfg: Config, st: State, w: nat, e: Event)
    requires CanStep(cfg, st, w, e) && !Shaking(st)
    ensures Step(cfg, st, w, e).slipped == st.slipped
  {
    assert !st.workers[w].pc.Shake?;
  }

  /** A run that ends with the step that sets the refusal. */
  ghost predicate JustRefused(cfg: Config, run: seq<State>) {
    IsRun(cfg, run) && |run| > 1 && !run[|run| - 2].pool.refused && run[|run| - 1].pool.refused
  }

  /** A handshake can end after the step that set the refusal exactly when a worker
      is in one at that step: it passed the check before, and nothing stops it. */
  lemma HandshakeSlipsExactly(cfg: Config, run: seq<State>)
    requires JustRefused(cfg, run)
    ensures (exists later: seq<State> :: IsRun(cfg, run + later) && (run + later)[|run + later| - 1].slipped == 1)
            <==> Shaking(run[|run| - 1])
  {
    NotSlippedYet(cfg, run);
    if Shaking(run[|run| - 1]) {
      var st' := OneEnds(cfg, run);
      assert (run + [st'])[|run + [st']| - 1].slipped == 1;
    } else {
      forall later: seq<State> | IsRun(cfg, run + later) ensures (run + later)[|run + later| - 1].slipped == 0 {
        NoShakeNoSlip(cfg, run + later, |run| - 1, |run + later| - 1);
      }
    }
  }

  lemma NotSlippedYet(cfg: Config, run: seq<State>)
    requires JustRefused(cfg, run)
    ensures run[|run| - 1].slipped == 0
  {
    var w, e := RunStep(cfg, run, |run| - 2);
    RunInv(cfg, run, |run| - 2);
  }

  /** The worker in the handshake comes to its end. */
  lemma OneEnds(cfg: Config, run: seq<State>) returns (st': State)
    requires IsRun(cfg, run) && run[|run| - 1].pool.refused && run[|run| - 1].slipped == 0 && Shaking(run[|run| - 1])
    ensures IsRun(cfg, run + [st']) && st'.slipped == 1
  {
    var st := run[|run| - 1];
    var v :| 0 <= v < |st.workers| && st.workers[v].pc.Shake?;
    RunInv(cfg, run, |run| - 1);
    st' := Step(cfg, st, v, EndShake(true));
    RunExtends(cfg, run, v, EndShake(true), st');
  }

  const AUTO := Config(0, true)

  /** Two workers of a session with three slots, of which the last two are unfilled. */
  function Two(dialing: seq<bool>, dials: seq<nat>, lock: Option<nat>, pc0: Pc, pc1: Pc): State {
    State(Pool([Some(0), None, None], [Conn(0, None)], 3, false, 0, dialing), lock,
          [Worker(pc0, false, [], 0, 0), Worker(pc1, false, [], 0, 0)], dials, 0)
  }

  function TwoDialing(lock: Option<nat>, pc0: Pc, pc1: Pc): State {
    Two([false, true, true], [0, 1, 1], lock, pc0, pc1)
  }

  lemma TwoStart() returns (run: seq<State>)
    ensures IsRun(AUTO, run) && run[|run| - 1] == Two([false, false, false], [0, 0, 0], None, Asking(1), Asking(2))
  {
    var none, zero := [false, false, false], [0, 0, 0];
    run := OneStarts();
    RunExtends(AUTO, run, 1, Begin(2, false), Two(none, zero, None, Asking(1), Asking(2)));
    run := run + [Two(none, zero, None, Asking(1), Asking(2))];
  }

  lemma NobodyStarts() returns (run: seq<State>)
    ensures IsRun(AUTO, run) && run[|run| - 1] == Two([false, false, false], [0, 0, 0], None, Idle, Idle)
  {
    var s0, s1 := Init(3, 2), Two([false, false, false], [0, 0, 0], None, Idle, Idle);
    assert s0 == s1.(pool := s1.pool.(spread := 1));
    run := [s0];
    RunExtends(AUTO, run, 0, Spread(3, 3), s1);
    run := run + [s1];
  }

  lemma OneStarts() returns (run: seq<State>)
    ensures IsRun(AUTO, run) && run[|run| - 1] == Two([false, false, false], [0, 0, 0], None, Asking(1), Idle)
  {
    run := NobodyStarts();
    RunExtends(AUTO, run, 0, Begin(1, false), Two([false, false, false], [0, 0, 0], None, Asking(1), Idle));
    run := run + [Two([false, false, false], [0, 0, 0], None, Asking(1), Idle)];
  }

  lemma OneQueues() returns (run: seq<State>)
    ensures IsRun(AUTO, run)
    ensures run[|run| - 1] == Two([false, true, false], [0, 1, 0], None, QueueDial(1, 1), Asking(2))
  {
    run := TwoStart();
    var s := Two([false, true, false], [0, 1, 0], None, QueueDial(1, 1), Asking(2));
    RunExtends(AUTO, run, 0, LookUp, s);
    run := run + [s];
  }

  lemma TwoQueue() returns (run: seq<State>)
    ensures IsRun(AUTO, run) && run[|run| - 1] == TwoDialing(None, QueueDial(1, 1), QueueDial(2, 2))
  {
    run := OneQueues();
    RunExtends(AUTO, run, 1, LookUp, TwoDialing(None, QueueDial(1, 1), QueueDial(2, 2)));
    run := run + [TwoDialing(None, QueueDial(1, 1), QueueDial(2, 2))];
  }

  /** The first worker goes through its handshake, which fails. */
  lemma FirstFails() returns (run: seq<State>)
    ensures IsRun(AUTO, run) && run[|run| - 1] == TwoDialing(None, Report(1, 1, Failed), QueueDial(2, 2))
  {
    run := TwoQueue();
    var q := QueueDial(2, 2);
    RunExtends(AUTO, run, 0, TakeLock, TwoDialing(Some(0), Check(1, 1), q));
    run := run + [TwoDialing(Some(0), Check(1, 1), q)];
    RunExtends(AUTO, run, 0, CheckRefused, TwoDialing(Some(0), Shake(1, 1), q));
    run := run + [TwoDialing(Some(0), Shake(1, 1), q)];
    RunExtends(AUTO, run, 0, EndShake(false), TwoDialing(None, Report(1, 1, Failed), q));
    run := run + [TwoDialing(None, Report(1, 1, Failed), q)];
  }

  /** The second one passes the check before the first one reports. */
  lemma SecondPasses() returns (run: seq<State>)
    ensures IsRun(AUTO, run) && run[|run| - 1] == TwoDialing(Some(1), Report(1, 1, Failed), Shake(2, 2))
  {
    run := FirstFails();
    var r := Report(1, 1, Failed);
    RunExtends(AUTO, run, 1, TakeLock, TwoDialing(Some(1), r, Check(2, 2)));
    run := run + [TwoDialing(Some(1), r, Check(2, 2))];
    RunExtends(AUTO, run, 1, CheckRefused, TwoDialing(Some(1), r, Shake(2, 2)));
    run := run + [TwoDialing(Some(1), r, Shake(2, 2))];
  }

  /** Such a run exists: of two dials in a row the second one has passed the check
      when the first one reports the refusal. */
  lemma AHandshakeSlips() returns (run: seq<State>)
    ensures JustRefused(AUTO, run) && Shaking(run[|run| - 1])
    ensures exists later: seq<State> :: IsRun(AUTO, run + later) && (run + later)[|run + later| - 1].slipped == 1
  {
    run := SecondPasses();
    var n := |run| - 1;
    RunInv(AUTO, run, n);
    var st := Step(AUTO, run[n], 0, Fill);
    RunExtends(AUTO, run, 0, Fill, st);
    run := run + [st];
    assert st.workers[1].pc.Shake? && run[n + 1] == st;
    HandshakeSlipsExactly(AUTO, run);
  }

  lemma LatchedTwice(cfg: Config, a: State, b: State, c: State)
    requires Latched(cfg, a, b) && Latched(cfg, b, c)
    ensures Latched(cfg, a, c)
  {
  }

  lemma NextStaysRefused(cfg: Config, run: seq<State>, i: nat)
    requires IsRun(cfg, run) && i + 1 < |run| && run[i].pool.refused
    ensures Latched(cfg, run[i], run[i + 1])
  {
    var w, e := RunStep(cfg, run, i);
    var st := run[i];
    PoolStep(cfg, st.pool, st.workers[w], e, st.lock);
    NoNewHandshake(cfg, st.pool, st.workers[w], e, st.lock);
    DialsStay(cfg, st.pool, st.workers[w], e, st.lock, st.dials);
  }

  lemma NoNewHandshake(cfg: Config, p: Pool, wk: Worker, e: Event, lock: Option<nat>)
    requires Fits(cfg, p, wk, e, lock) && p.refused
    ensures NextWorker(cfg, p, wk, e, lock).pc.Shake? ==> NextWorker(cfg, p, wk, e, lock).pc == wk.pc
  {
  }

  lemma DialsStay(cfg: Config, p: Pool, wk: Worker, e: Event, lock: Option<nat>, dials: seq<nat>)
    requires Fits(cfg, p, wk, e, lock) && p.refused && |dials| == |p.slots|
    ensures cfg.auto ==> NextDials(p, wk.pc, dials, e) == dials
  {
    if cfg.auto && e.LookUp? {
      NoDialWhenFilled(p, wk.pc.index);
    }
  }

  /** When a dial is over its slot is filled for good: with the new connection, or
      with the first one when there is none. A failed dial is what sets the
      refusal, and pulls an automatic spread back to what is open. */
  lemma DialsAreAnswered(cfg: Config, run: seq<State>, i: nat, w: nat, e: Event)
    requires IsRun(cfg, run) && i + 1 < |run| && CanStep(cfg, run[i], w, e) && run[i + 1] == Step(cfg, run[i], w, e)
    requires e.Fill?
    ensures var p, q, pc := run[i].pool, run[i + 1].pool, run[i].workers[w].pc;
            && pc.Report? && pc.slot < |q.slots| && !q.dialing[pc.slot]
            && q.slots[pc.slot] == Some(if pc.result.Connected? then |p.conns| else 0)
            && (q.refused <==> p.refused || pc.result.Failed?)
            && (pc.result.Failed? && cfg.auto ==> q.spread == OpenCount(p.slots) <= Filled(p.slots))
  {
    RunInv(cfg, run, i);
    assert run[i].pool.slots[0] == Some(0);
    FillAnswers(cfg, run[i].pool, run[i].workers[w].pc.slot, run[i].workers[w].pc.result);
  }

  lemma FillAnswers(cfg: Config, p: Pool, slot: nat, r: DialResult)
    requires PoolInv(cfg, p) && slot < |p.slots| && p.dialing[slot] && (r.Skipped? ==> p.refused)
    ensures var q := Install(p, slot, r, cfg.auto);
            && !q.dialing[slot] && q.slots[slot] == Some(if r.Connected? then |p.conns| else 0)
            && (q.refused <==> p.refused || r.Failed?)
            && (r.Failed? && cfg.auto ==> q.spread == OpenCount(p.slots) <= Filled(p.slots))
  {
    assert Filled(p.slots) > 0;
  }

  // ---- Bounded retry ----

  lemma {:induction false} IncreasingIsShort(s: seq<nat>, bound: nat)
    requires Increasing(s) && LastBelow(s, bound + 1)
    ensures |s| <= bound + 1
    decreases |s|
  {
    if |s| > 1 {
      var n := |s| - 1;
      assert s[n - 1] < s[n];
      IncreasingIsShort(s[..n], s[n] - 1);
    }
  }

  /**
  Whatever the other workers do, one call of session.do runs its operation at
  most once more than there are retries, each time on a strictly newer
  generation of the first connection; and a reconnect loop goes round at most
  once more than there are retries.
  */
  lemma RetriesAreBounded(cfg: Config, run: seq<State>, i: nat, w: nat)
    requires IsRun(cfg, run) && i < |run| && w < |run[i].workers|
    ensures var wk := run[i].workers[w];
            && (wk.doing ==> Increasing(wk.ran) && |wk.ran| <= cfg.retries + 1)
            && (wk.doing && wk.pc.Running? ==> wk.pc.conn == 0)
            && wk.rounds <= cfg.retries + 1
  {
    RunInv(cfg, run, i);
    var wk, p := run[i].workers[w], run[i].pool;
    assert WorkerInv(cfg, p, wk);
    if wk.doing {
      GenAtMostSum(p.conns, 0);
      IncreasingIsShort(wk.ran, p.conns[0].gen);
    }
  }

  /**
  A worker whose connection was lost does not give up early. It goes on at once when
  somebody installed a newer client, waits when somebody is redialing, and otherwise
  takes the next of the retries, each number once; it gives up exactly when all of
  them are spent.
  */
  lemma GivesUpExactlyWhenSpent(cfg: Config, run: seq<State>, i: nat, w: nat)
    requires IsRun(cfg, run) && i + 1 < |run| && w < |run[i].workers|
    requires CanStep(cfg, run[i], w, LookAgain) && run[i + 1] == Step(cfg, run[i], w, LookAgain)
    ensures var p, q, pc, pc' := run[i].pool, run[i + 1].pool, run[i].workers[w].pc, run[i + 1].workers[w].pc;
            && pc.Failing? && pc.conn < |p.conns|
            && (pc'.Resuming? <==> p.conns[pc.conn].gen > pc.gen)
            && (pc'.AwaitRedial? <==> p.conns[pc.conn].gen == pc.gen && p.conns[pc.conn].redialing.Some?)
            && (pc'.Idle? <==> p.conns[pc.conn] == Conn(pc.gen, None) && p.reconnects == cfg.retries)
            && (pc'.Backoff? <==> p.conns[pc.conn] == Conn(pc.gen, None) && p.reconnects < cfg.retries)
            && q.reconnects == p.reconnects + (if pc'.Backoff? then 1 else 0)
            && (pc'.Backoff? ==> pc'.attempt == q.reconnects && q.conns[pc.conn].redialing == Some(q.reconnects))
  {
    RunInv(cfg, run, i);
    assert WorkerInv(cfg, run[i].pool, run[i].workers[w]);
  }

  // ---- No deadlock ----

  /** Every flag a worker can wait for belongs to a worker that will clear it. */
  ghost predicate Owned(st: State) {
    && (st.lock.Some? ==> st.lock.value < |st.workers|)
    && (forall i :: 0 <= i < |st.pool.dialing| && st.pool.dialing[i] ==> Dialer(st, i))
    && (forall c :: 0 <= c < |st.pool.conns| && st.pool.conns[c].redialing.Some? ==> Redialer(st, c))
  }

  ghost predicate Dialer(st: State, slot: nat) {
    exists v :: 0 <= v < |st.workers| && DialPhase(st.workers[v].pc) && st.workers[v].pc.slot == slot
  }

  ghost predicate Redialer(st: State, c: nat) {
    exists v :: 0 <= v < |st.workers| && RedialPhase(st.workers[v].pc) && st.workers[v].pc.conn == c
  }

  lemma FlagsFollow(cfg: Config, p: Pool, wk: Worker, e: Event, lock: Option<nat>)
    requires Fits(cfg, p, wk, e, lock)
    ensures var q, wk' := NextPool(cfg, p, wk, e, lock), NextWorker(cfg, p, wk, e, lock);
            && |q.dialing| == |p.dialing|
            && (forall i :: 0 <= i < |p.dialing| && q.dialing[i] ==>
                  (DialPhase(wk'.pc) && wk'.pc.slot == i) || (p.dialing[i] && !(DialPhase(wk.pc) && wk.pc.slot == i)))
  {
  }

  lemma RedialsFollow(cfg: Config, p: Pool, wk: Worker, e: Event, lock: Option<nat>)
    requires Fits(cfg, p, wk, e, lock)
    ensures var q, wk' := NextPool(cfg, p, wk, e, lock), NextWorker(cfg, p, wk, e, lock);
            forall c :: 0 <= c < |q.conns| && q.conns[c].redialing.Some? ==>
                  (RedialPhase(wk'.pc) && wk'.pc.conn == c)
                  || (c < |p.conns| && p.conns[c].redialing.Some? && !(RedialPhase(wk.pc) && wk.pc.conn == c))
  {
  }

  lemma OwnedStep(cfg: Config, st: State, w: nat, e: Event)
    requires CanStep(cfg, st, w, e) && Owned(st)
    ensures Owned(Step(cfg, st, w, e))
  {
    var p, wk, st' := st.pool, st.workers[w], Step(cfg, st, w, e);
    FlagsFollow(cfg, p, wk, e, st.lock);
    RedialsFollow(cfg, p, wk, e, st.lock);
    assert st'.workers[w] == NextWorker(cfg, p, wk, e, st.lock);
    forall i | 0 <= i < |st'.pool.dialing| && st'.pool.dialing[i] ensures Dialer(st', i) {
      if !(DialPhase(st'.workers[w].pc) && st'.workers[w].pc.slot == i) {
        var v :| 0 <= v < |st.workers| && DialPhase(st.workers[v].pc) && st.workers[v].pc.slot == i;
        assert st'.workers[v] == st.workers[v];
      }
    }
    forall c | 0 <= c < |st'.pool.conns| && st'.pool.conns[c].redialing.Some? ensures Redialer(st', c) {
      if !(RedialPhase(st'.workers[w].pc) && st'.workers[w].pc.conn == c) {
        assert Redialer(st, c);
        var v :| 0 <= v < |st.workers| && RedialPhase(st.workers[v].pc) && st.workers[v].pc.conn == c;
        assert st'.workers[v] == st.workers[v];
      }
    }
  }

  lemma {:induction false} RunOwned(cfg: Config, run: seq<State>, i: nat)
    requires IsRun(cfg, run) && i < |run|
    ensures Owned(run[i])
  {
    if i > 0 {
      RunOwned(cfg, run, i - 1);
      var w, e := RunStep(cfg, run, i - 1);
      OwnedStep(cfg, run[i - 1], w, e);
    }
  }

  /** A step that takes a worker on, by itself. */
  ghost predicate Progress(e: Event) {
    !e.Begin? && !e.Spread? && !e.Cancel?
  }

  ghost predicate Moves(st: State, v: nat) {
    v < |st.workers| && exists e: Event :: Progress(e) && CanTake(st.pool, st.lock, st.workers[v].pc, e)
  }

  lemma HolderMoves(st: State, v: nat)
    requires v < |st.workers| && (HoldsLock(st.workers[v].pc) || st.workers[v].pc.Rejoin? || st.workers[v].pc.Report?
                                  || st.workers[v].pc.Backoff?)
    ensures Moves(st, v)
  {
    var e := match st.workers[v].pc
      case Check(_, _) => CheckRefused
      case Shake(_, _) => EndShake(true)
      case Reshake(_, _, _) => EndReshake(true)
      case Rejoin(_, _, _, _) => Return(false)
      case Report(_, _, _) => Fill
      case _ => BackoffDone;
    assert Progress(e) && CanTake(st.pool, st.lock, st.workers[v].pc, e);
  }

  lemma InPhaseMoves(cfg: Config, st: State, v: nat) returns (u: nat)
    requires Inv(cfg, st) && Owned(st) && v < |st.workers|
    requires DialPhase(st.workers[v].pc) || RedialPhase(st.workers[v].pc)
    ensures Moves(st, u)
  {
    if st.workers[v].pc.QueueDial? || st.workers[v].pc.QueueRedial? {
      if st.lock.Some? {
        u := st.lock.value;
        HolderMoves(st, u);
      } else {
        u := v;
        assert Progress(TakeLock) && CanTake(st.pool, st.lock, st.workers[v].pc, TakeLock);
      }
    } else {
      u := v;
      HolderMoves(st, u);
    }
  }

  /** No deadlock: while some worker is busy, some worker can go on, without
      waiting for a cancellation or for the tuning policy. */
  lemma NoDeadlock(cfg: Config, run: seq<State>, i: nat, w: nat) returns (u: nat)
    requires IsRun(cfg, run) && i < |run| && w < |run[i].workers| && !run[i].workers[w].pc.Idle?
    ensures Moves(run[i], u)
  {
    RunInv(cfg, run, i);
    RunOwned(cfg, run, i);
    u := BusyMoves(cfg, run[i], w);
  }

  lemma BusyMoves(cfg: Config, st: State, w: nat) returns (u: nat)
    requires Inv(cfg, st) && Owned(st) && w < |st.workers| && !st.workers[w].pc.Idle?
    ensures Moves(st, u)
  {
    var pc := st.workers[w].pc;
    assert WorkerInv(cfg, st.pool, st.workers[w]);
    if DialPhase(pc) || RedialPhase(pc) {
      u := InPhaseMoves(cfg, st, w);
    } else if pc.AwaitDial? && st.pool.dialing[pc.slot] {
      assert Dialer(st, pc.slot);
      var v :| 0 <= v < |st.workers| && DialPhase(st.workers[v].pc) && st.workers[v].pc.slot == pc.slot;
      u := InPhaseMoves(cfg, st, v);
    } else if pc.AwaitRedial? && st.pool.conns[pc.conn].redialing.Some? {
      assert Redialer(st, pc.conn);
      var v :| 0 <= v < |st.workers| && RedialPhase(st.workers[v].pc) && st.workers[v].pc.conn == pc.conn;
      u := InPhaseMoves(cfg, st, v);
    } else {
      u := w;
      var e := match pc
        case Asking(_) => LookUp
        case AwaitDial(_, _) => WakeDial
        case Running(_, _) => OpDone
        case Failing(_, _) => LookAgain
        case AwaitRedial(_, _, _) => WakeRedial
        case _ => Resume;
      assert Progress(e) && CanTake(st.pool, st.lock, pc, e);
    }
  }
}
