/** How the files of a run are spread over the slots of the pool (session.go). */
module Spreading {
  import opened Numbers
  import opened Options
  import opened SessionPool

  /** What `Look` needs, and one slot at least in use. */
  predicate Usable(p: Pool) {
    && |p.dialing| == |p.slots| && 0 < p.spread <= |p.slots|
    && forall i :: 0 <= i < |p.slots| && p.slots[i].Some? ==> p.slots[i].value < |p.conns|
  }

  /** The file's answer is about this slot: its connection, its dial or its turn. */
  predicate Answers(p: Pool, f: Found, slot: nat)
    requires slot < |p.slots|
  {
    match f
    case Have(c, _) => p.slots[slot] == Some(c)
    case MustWait(s) => s == slot && p.slots[slot].None?
    case MustDial(s) => s == slot && p.slots[slot].None?
  }

  /** How many of the first `n` files go to a slot. */
  function Load(spread: nat, n: nat, slot: nat): nat {
    if n == 0 then 0 else Load(spread, n - 1, slot) + if SlotOf(spread, n - 1) == slot then 1 else 0
  }

  /** How many of the first `n` files find this connection. */
  function Served(p: Pool, n: nat, c: nat): nat
    requires Usable(p)
  {
    if n == 0 then 0
    else Served(p, n - 1, c) + if Look(p, n - 1).Have? && Look(p, n - 1).conn == c then 1 else 0
  }

  /** How many of the first `k` slots hold this connection. */
  function Holding(slots: seq<Option<nat>>, k: nat, c: nat): (h: nat)
    requires k <= |slots|
    ensures h <= k
  {
    if k == 0 then 0 else Holding(slots, k - 1, c) + if slots[k - 1] == Some(c) then 1 else 0
  }

  lemma {:induction false} HoldingGrows(slots: seq<Option<nat>>, k: nat, m: nat, c: nat)
    requires k <= m <= |slots|
    ensures Holding(slots, k, c) <= Holding(slots, m, c)
    decreases m
  {
    if k < m {
      HoldingGrows(slots, k, m - 1, c);
    }
  }

  /** One file more moves on to the next slot, or starts a new round. */
  lemma NextIndex(n: nat, s: nat)
    requires s > 0
    ensures n % s + 1 < s ==> (n + 1) / s == n / s && (n + 1) % s == n % s + 1
    ensures n % s + 1 == s ==> (n + 1) / s == n / s + 1 && (n + 1) % s == 0
  {
    var q, m := n / s, n % s;
    assert n == s * q + m;
    if m + 1 < s {
      DivModIs(n + 1, s, q, m + 1);
    } else {
      assert s * (q + 1) == s * q + s;
      DivModIs(n + 1, s, q + 1, 0);
    }
  }

  lemma DivModIs(x: nat, s: nat, q: nat, m: nat)
    requires m < s && x == s * q + m
    ensures x / s == q && x % s == m
  {
    var q', m' := x / s, x % s;
    assert x == s * q' + m';
    TimesLess(s, q', q);
    TimesLess(s, q, q');
  }

  lemma {:induction false} TimesLess(s: nat, a: nat, b: nat)
    ensures a < b ==> s * a + s <= s * b
  {
    if a < b {
      TimesLess(s, a, b - 1);
      assert s * b == s * (b - 1) + s;
    }
  }

  /** Any `spread` consecutive files go to different slots. */
  lemma WindowIsSpread(spread: nat, i: nat, j: nat)
    requires i < j < i + spread
    ensures SlotOf(spread, i) != SlotOf(spread, j)
  {
    var q, m := i / spread, i % spread;
    assert i == spread * q + m;
    if m + (j - i) < spread {
      DivModIs(j, spread, q, m + (j - i));
    } else {
      assert spread * (q + 1) == spread * q + spread;
      DivModIs(j, spread, q + 1, m + (j - i) - spread);
    }
  }

  /** So every slot below the spread is some file's among any `spread` files. */
  lemma WindowReachesAll(p: Pool, start: nat, slot: nat) returns (i: nat)
    requires Usable(p) && slot < p.spread
    ensures start <= i < start + p.spread && Answers(p, Look(p, i), slot)
  {
    var s := p.spread;
    var q, m := start / s, start % s;
    assert start == s * q + m;
    if m <= slot {
      i := start + (slot - m);
      DivModIs(i, s, q, slot);
    } else {
      i := start + (s - m) + slot;
      assert s * (q + 1) == s * q + s;
      DivModIs(i, s, q + 1, slot);
    }
  }

  lemma {:induction false} LoadIs(spread: nat, n: nat, slot: nat)
    requires slot < spread
    ensures Load(spread, n, slot) == n / spread + if slot < n % spread then 1 else 0
  {
    if n == 0 {
      DivModIs(0, spread, 0, 0);
    } else {
      LoadIs(spread, n - 1, slot);
      NextIndex(n - 1, spread);
    }
  }

  /** However many files there are, no slot below the spread gets two more than
      another one, and the slots from the spread on get none. */
  lemma LoadsAreEven(spread: nat, n: nat, a: nat, b: nat)
    requires spread > 0
    ensures a < spread && b < spread ==> Load(spread, n, a) <= Load(spread, n, b) + 1
    ensures spread <= a ==> Load(spread, n, a) == 0
  {
    if a < spread && b < spread {
      LoadIs(spread, n, a);
      LoadIs(spread, n, b);
    } else if spread <= a {
      NoLoad(spread, n, a);
    }
  }

  lemma {:induction false} NoLoad(spread: nat, n: nat, a: nat)
    requires 0 < spread <= a
    ensures Load(spread, n, a) == 0
  {
    if n > 0 {
      NoLoad(spread, n - 1, a);
    }
  }

  lemma AnswerIs(p: Pool, i: nat, c: nat)
    requires Usable(p) && forall i :: 0 <= i < p.spread ==> p.slots[i].Some?
    ensures i % p.spread < p.spread
    ensures Look(p, i).Have? && (Look(p, i).conn == c <==> p.slots[i % p.spread] == Some(c))
  {
  }

  /** The rounds that are over and what the round under way has reached. */
  function Share(p: Pool, q: nat, m: nat, c: nat): nat
    requires Usable(p) && m <= p.spread
  {
    q * Holding(p.slots, p.spread, c) + Holding(p.slots, m, c)
  }

  lemma RoundIsOver(p: Pool, q: nat, c: nat)
    requires Usable(p)
    ensures Share(p, q, p.spread, c) == Share(p, q + 1, 0, c)
  {
    var h := Holding(p.slots, p.spread, c);
    assert (q + 1) * h == q * h + h;
  }

  lemma {:induction false} ServedIs(p: Pool, n: nat, c: nat)
    requires Usable(p) && forall i :: 0 <= i < p.spread ==> p.slots[i].Some?
    ensures Served(p, n, c) == Share(p, n / p.spread, n % p.spread, c)
  {
    var s := p.spread;
    if n == 0 {
      DivModIs(0, s, 0, 0);
    } else {
      ServedIs(p, n - 1, c);
      AnswerIs(p, n - 1, c);
      var q, m := (n - 1) / s, (n - 1) % s;
      assert Served(p, n, c) == Share(p, q, m + 1, c);
      NextIndex(n - 1, s);
      RoundIsOver(p, q, c);
    }
  }

  /** Of each full round of files the connection serves one for each slot that
      holds it, and of the last round at most as many. */
  predicate ServesShare(p: Pool, n: nat, c: nat)
    requires Usable(p)
  {
    var share := Holding(p.slots, p.spread, c);
    (n / p.spread) * share <= Served(p, n, c) <= (n / p.spread) * share + share
  }

  /** Once the slots below the spread are filled, every connection serves its
      share, however many files there are. */
  lemma ConnectionsServeTheirShare(p: Pool, n: nat, c: nat)
    requires Usable(p) && forall i :: 0 <= i < p.spread ==> p.slots[i].Some?
    ensures ServesShare(p, n, c)
  {
    ServedIs(p, n, c);
    HoldingGrows(p.slots, n % p.spread, p.spread, c);
  }
}
