/** The session's shared state and its critical sections (session.go): each
    function is what one critical section of the session's mutex does. */
module SessionPool {
  import opened Numbers
  import opened Options

  /** `redialing` is the number of the reconnect attempt in flight, if any. */
  datatype Conn = Conn(gen: nat, redialing: Option<nat>)

  /** `slots[i]` is the connection slot `i` uses; several slots may share one.
      `dialing[i]` says that the first dial of slot `i` is in flight. */
  datatype Pool = Pool(slots: seq<Option<nat>>, conns: seq<Conn>, spread: nat, refused: bool,
                       reconnects: nat, dialing: seq<bool>)

  datatype DialResult = Connected | Failed | Skipped

  /** How many leading slots are filled. */
  function Filled(slots: seq<Option<nat>>): (n: nat)
    ensures n <= |slots|
    ensures forall i :: 0 <= i < n ==> slots[i].Some?
    ensures n < |slots| ==> slots[n].None?
  {
    if slots == [] || slots[0].None? then 0 else 1 + Filled(slots[1..])
  }

  function ConnsOf(slots: seq<Option<nat>>, n: nat): (s: set<nat>)
    requires n <= |slots| && forall i :: 0 <= i < n ==> slots[i].Some?
    ensures |s| <= n
  {
    if n == 0 then {} else ConnsOf(slots, n - 1) + {slots[n - 1].value}
  }

  /** How many distinct connections the leading filled slots hold. */
  function OpenCount(slots: seq<Option<nat>>): (n: nat)
    ensures n >= 1 && (Filled(slots) > 0 ==> n <= Filled(slots))
  {
    Max(|ConnsOf(slots, Filled(slots))|, 1)
  }

  /** setSpread(n), where the cached ceiling turns the request into `clamped`. */
  function SetSpread(p: Pool, clamped: nat): Pool {
    if p.refused && clamped > p.spread then p else p.(spread := clamped)
  }

  /** What the ceiling may make of a request for `n` connections. */
  predicate Clamped(p: Pool, n: int, clamped: nat) {
    1 <= clamped <= Min(Max(n, 1), |p.slots|)
  }

  /** The largest number of connections a request for `n` may get: within the slots
      and, for an automatic count, the ceiling an earlier run left (0 for none). */
  function Allowed(slots: nat, auto: bool, n: int, ceiling: nat): (k: nat)
    requires slots > 0
    ensures 1 <= k <= Max(n, 1) && k <= slots && (auto && ceiling > 0 ==> k <= ceiling)
    ensures k == Max(n, 1) || k == slots || (auto && ceiling > 0 && k == ceiling)
  {
    var want := Min(Max(n, 1), slots);
    if auto && ceiling > 0 then Min(want, ceiling) else want
  }

  function NoteDialFailure(p: Pool, auto: bool): Pool {
    p.(refused := true, spread := if auto then OpenCount(p.slots) else p.spread)
  }

  datatype Found = Have(conn: nat, gen: nat) | MustWait(slot: nat) | MustDial(slot: nat)

  /** Files are spread round-robin over the current spread. */
  function SlotOf(spread: nat, index: nat): (slot: nat)
    ensures slot < Max(spread, 1) && (index == 0 ==> slot == 0)
  {
    index % Max(spread, 1)
  }

  /** The first critical section of acquire. */
  function Look(p: Pool, index: nat): (f: Found)
    requires |p.dialing| == |p.slots| && p.spread <= |p.slots| && |p.slots| > 0
    requires forall i :: 0 <= i < |p.slots| && p.slots[i].Some? ==> p.slots[i].value < |p.conns|
  {
    var slot := SlotOf(p.spread, index);
    if p.slots[slot].Some? then Have(p.slots[slot].value, p.conns[p.slots[slot].value].gen)
    else if p.dialing[slot] then MustWait(slot)
    else MustDial(slot)
  }

  /** The second critical section of acquire: a finished dial fills its slot,
      with the first connection when there is no new one. */
  function Install(p: Pool, slot: nat, r: DialResult, auto: bool): Pool
    requires slot < |p.slots| == |p.dialing|
  {
    var q := p.(dialing := p.dialing[slot := false]);
    match r
    case Connected => q.(slots := q.slots[slot := Some(|q.conns|)], conns := q.conns + [Conn(0, None)])
    case Failed =>
      var n := NoteDialFailure(q, auto);
      n.(slots := n.slots[slot := n.slots[0]])
    case Skipped => q.(slots := q.slots[slot := q.slots[0]])
  }

  datatype Redial = Fresh | WaitFor(attempt: nat) | Spent | Go(attempt: nat)

  /** The first critical section of reconnect. */
  function BeginRedial(p: Pool, c: nat, gen: nat, retries: nat): Redial
    requires c < |p.conns|
  {
    if p.conns[c].gen != gen then Fresh
    else if p.conns[c].redialing.Some? then WaitFor(p.conns[c].redialing.value)
    else if p.reconnects >= retries then Spent
    else Go(p.reconnects + 1)
  }

  function Redialing(p: Pool, c: nat): Pool
    requires c < |p.conns|
  {
    var attempt := p.reconnects + 1;
    p.(reconnects := attempt, conns := p.conns[c := p.conns[c].(redialing := Some(attempt))])
  }

  /** The last critical section of reconnect. */
  function EndRedial(p: Pool, c: nat, installed: bool): Pool
    requires c < |p.conns|
  {
    p.(conns := p.conns[c := Conn(p.conns[c].gen + if installed then 1 else 0, None)])
  }

  function SumGen(conns: seq<Conn>): nat {
    if conns == [] then 0 else SumGen(conns[..|conns| - 1]) + conns[|conns| - 1].gen
  }

  function InFlight(conns: seq<Conn>): nat {
    if conns == [] then 0
    else InFlight(conns[..|conns| - 1]) + if conns[|conns| - 1].redialing.Some? then 1 else 0
  }

  lemma {:induction false} SumsUpdate(conns: seq<Conn>, c: nat, x: Conn)
    requires c < |conns|
    ensures SumGen(conns[c := x]) == SumGen(conns) - conns[c].gen + x.gen
    ensures InFlight(conns[c := x]) == InFlight(conns) - (if conns[c].redialing.Some? then 1 else 0)
                                       + (if x.redialing.Some? then 1 else 0)
    decreases |conns|
  {
    var n := |conns| - 1;
    if c == n {
      assert conns[c := x][..n] == conns[..n];
    } else {
      assert conns[c := x][..n] == conns[..n][c := x];
      SumsUpdate(conns[..n], c, x);
    }
  }

  lemma {:induction false} GenAtMostSum(conns: seq<Conn>, c: nat)
    requires c < |conns|
    ensures conns[c].gen <= SumGen(conns)
    decreases |conns|
  {
    if c < |conns| - 1 {
      GenAtMostSum(conns[..|conns| - 1], c);
    }
  }

  /** The session object. Each method is one critical section. */
  class Session {
    var slots: seq<Option<nat>>
    var conns: seq<Conn>
    var spread: nat
    var refused: bool
    var reconnects: nat
    var dialing: seq<bool>
    const auto: bool

    ghost function State(): Pool
      reads this
    {
      Pool(slots, conns, spread, refused, reconnects, dialing)
    }

    constructor (size: nat, autoConnections: bool)
      requires size > 0
      ensures State() == Pool([Some(0)] + seq(size - 1, i => None), [Conn(0, None)], 1, false, 0, seq(size, i => false))
      ensures auto == autoConnections
    {
      slots := [Some(0)] + seq(size - 1, i => None);
      conns := [Conn(0, None)];
      spread, refused, reconnects := 1, false, 0;
      dialing := seq(size, i => false);
      auto := autoConnections;
    }

    /** Counts the connections of the leading filled slots, aliases once. */
    method OpenSlots() returns (n: nat)
      ensures n == OpenCount(slots)
    {
      var seen: set<nat> := {};
      n := 0;
      var i := 0;
      while i < |slots| && slots[i].Some?
        invariant i <= |slots| && (forall j :: 0 <= j < i ==> slots[j].Some?)
        invariant seen == ConnsOf(slots, i) && n == |seen|
      {
        var c := slots[i].value;
        assert ConnsOf(slots, i + 1) == ConnsOf(slots, i) + {c};
        if c !in seen {
          seen := seen + {c};
          n := n + 1;
        } else {
          assert seen + {c} == seen;
        }
        i := i + 1;
      }
      assert i == Filled(slots);
      n := Max(n, 1);
    }

    /** `ceiling` 0 means that no earlier run left one behind. */
    method MoveSpread(n: int, ceiling: nat) returns (now: nat)
      requires |slots| > 0
      modifies this`spread
      ensures Clamped(old(State()), n, Allowed(|slots|, auto, n, ceiling))
      ensures State() == SetSpread(old(State()), Allowed(|slots|, auto, n, ceiling))
      ensures now == spread
    {
      var want: nat := Min(Max(n, 1), |slots|);
      if auto && ceiling > 0 && want > ceiling {
        want := ceiling;
      }
      if refused && want > spread {
        return spread;
      }
      spread := want;
      now := spread;
    }

    method FinishDial(slot: nat, r: DialResult)
      requires slot < |slots| == |dialing|
      modifies this
      ensures State() == Install(old(State()), slot, r, auto)
    {
      dialing := dialing[slot := false];
      if r.Failed? {
        refused := true;
        if auto {
          spread := OpenSlots();
        }
      }
      if r.Connected? {
        conns, slots := conns + [Conn(0, None)], slots[slot := Some(|conns|)];
      } else {
        slots := slots[slot := slots[0]];
      }
    }

    /** Looks for the client of a file; a slot nobody dialed is the caller's. */
    method Acquire(index: nat) returns (f: Found)
      requires |dialing| == |slots| && spread <= |slots| && |slots| > 0
      requires forall i :: 0 <= i < |slots| && slots[i].Some? ==> slots[i].value < |conns|
      modifies this`dialing
      ensures f == Look(old(State()), index)
      ensures State() == if f.MustDial? then old(State()).(dialing := old(dialing)[f.slot := true]) else old(State())
    {
      var slot := index % Max(spread, 1);
      if slots[slot].Some? {
        return Have(slots[slot].value, conns[slots[slot].value].gen);
      }
      if dialing[slot] {
        return MustWait(slot);
      }
      dialing := dialing[slot := true];
      f := MustDial(slot);
    }

    /** Decides who redials a dead connection, and charges the shared budget. */
    method StartRedial(c: nat, gen: nat, retries: nat) returns (r: Redial)
      requires c < |conns|
      modifies this`conns, this`reconnects
      ensures r == BeginRedial(old(State()), c, gen, retries)
      ensures State() == if r.Go? then Redialing(old(State()), c) else old(State())
    {
      if conns[c].gen != gen {
        return Fresh;
      }
      if conns[c].redialing.Some? {
        return WaitFor(conns[c].redialing.value);
      }
      if reconnects >= retries {
        return Spent;
      }
      reconnects := reconnects + 1;
      conns := conns[c := conns[c].(redialing := Some(reconnects))];
      r := Go(reconnects);
    }

    method FinishRedial(c: nat, installed: bool)
      requires c < |conns|
      modifies this`conns
      ensures State() == EndRedial(old(State()), c, installed)
    {
      conns := conns[c := conns[c].(redialing := None)];
      if installed {
        conns := conns[c := conns[c].(gen := conns[c].gen + 1)];
      }
    }
  }
}
