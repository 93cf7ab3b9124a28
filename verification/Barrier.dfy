/** xEventGroupSync as a rendezvous barrier, used over and over by the same tasks while other tasks use the
    remaining bits of the group. */
module Barrier {
  import opened EventGroups

  /** The tasks that meet, each with its own bits, and how often each has called xEventGroupSync and has
      returned from it; `rounds` counts the meetings so far and `values` what the calls have returned. */
  datatype Meeting = Meeting(g: Group, shares: map<TaskId, Bits>, mask: Bits,
                             arrivals: map<TaskId, nat>, departures: map<TaskId, nat>,
                             rounds: nat, values: seq<Bits>)

  ghost predicate Owned(shares: map<TaskId, Bits>, b: Bit) {
    exists t :: t in shares && b in shares[t]
  }

  /** Disjoint bits, at least one each, that together make up the mask. */
  ghost predicate Shared(shares: map<TaskId, Bits>, mask: Bits) {
    && mask * CONTROL == {} && mask != {}
    && (forall t :: t in shares ==> shares[t] != {} && shares[t] <= mask)
    && (forall t, u :: t in shares && u in shares && t != u ==> shares[t] !! shares[u])
    && (forall b {:trigger Owned(shares, b)} :: b in mask ==> Owned(shares, b))
  }

  datatype Move = Arrive(task: TaskId) | Leave(task: TaskId) | Foreign(step: Step)

  /** What the other tasks may do: anything that neither sets nor clears a bit of the mask. */
  predicate KeepsOff(m: Meeting, s: Step) {
    match s
    case SetStep(b) => b !! m.mask
    case ClearStep(b) => b !! m.mask
    case WaitStep(t, c, _) => t !in m.shares && (c.clear ==> c.wanted !! m.mask)
    case SyncStep(t, b, w, _) => t !in m.shares && b !! m.mask && w !! m.mask
    case TimeOutStep(t) => t !in m.shares
    case FinishStep(t) => t !in m.shares
  }

  ghost predicate Allowed(m: Meeting, v: Move) {
    match v
    case Arrive(t) => t in m.shares && t !in m.g.calls
    case Leave(t) => t in m.shares && EventGroups.Enabled(m.g, FinishStep(t))
    case Foreign(s) => EventGroups.Enabled(m.g, s) && KeepsOff(m, s)
  }

  function Counted(count: map<TaskId, nat>, t: TaskId): nat {
    if t in count then count[t] else 0
  }

  function Plus1(count: map<TaskId, nat>, t: TaskId): map<TaskId, nat> {
    count[t := Counted(count, t) + 1]
  }

  ghost function Apply(m: Meeting, v: Move): Meeting
    requires Allowed(m, v)
  {
    match v
    case Arrive(t) =>
      var (g, o) := Sync(m.g, t, m.shares[t], m.mask, true);
      var n := m.(g := g, arrivals := Plus1(m.arrivals, t));
      if o.Blocks? then n
      else n.(departures := Plus1(m.departures, t), rounds := m.rounds + 1, values := m.values + [o.value])
    case Leave(t) =>
      var (g, o) := Finish(m.g, t);
      m.(g := g, departures := Plus1(m.departures, t), values := m.values + [o.value])
    case Foreign(s) => m.(g := EventGroups.Apply(m.g, s).0)
  }

  // ---------- the invariant ----------

  /** Whether `t` has arrived for the meeting that has not taken place yet. */
  predicate Here(m: Meeting, t: TaskId) {
    Counted(m.arrivals, t) == m.rounds + 1
  }

  ghost predicate Missing(m: Meeting) {
    exists t :: t in m.shares && !Here(m, t)
  }

  /** Those who are here wait, and they alone have set their bits. */
  ghost predicate Gathering(m: Meeting) {
    forall t :: t in m.shares ==>
      && (Here(m, t) || Counted(m.arrivals, t) == m.rounds)
      && (Here(m, t) <==> t in m.g.waiting)
      && (if Here(m, t) then m.shares[t] <= m.g.bits else m.shares[t] !! m.g.bits)
  }

  /** A call that is not over has blocked; if its task is not waiting any more, the whole mask was delivered. */
  ghost predicate InCalls(m: Meeting) {
    forall t :: t in m.shares ==>
      if t in m.g.calls then
        && m.g.calls[t] == Call(m.mask, true, true)
        && Counted(m.arrivals, t) == Counted(m.departures, t) + 1
        && (t !in m.g.waiting ==> t in m.g.items && m.g.items[t] * UNBLOCKED != {} && m.mask <= m.g.items[t])
      else
        Counted(m.arrivals, t) == Counted(m.departures, t)
  }

  /** Nobody else will clear bits of the mask. */
  ghost predicate OthersKeepOff(m: Meeting) {
    forall t :: t in m.g.calls && t !in m.shares && m.g.calls[t].clear ==> m.g.calls[t].wanted !! m.mask
  }

  ghost predicate Inv(m: Meeting) {
    && EventGroups.Inv(m.g)
    && Shared(m.shares, m.mask)
    && Missing(m)
    && Gathering(m)
    && InCalls(m)
    && OthersKeepOff(m)
    && (forall v :: v in m.values ==> m.mask <= v)
  }

  // ---------- setting bits around the barrier ----------

  lemma NotCovered(mask: Bits, bits: Bits, more: Bits, share: Bits)
    requires share != {} && share <= mask && share !! bits && share !! more
    ensures !(mask <= bits + more)
  {
    var b :| b in share;
    assert b in mask && b !in bits + more;
  }

  lemma Covered(shares: map<TaskId, Bits>, mask: Bits, bits: Bits, t: TaskId)
    requires t in shares && forall u :: u in shares && u != t ==> shares[u] <= bits
    requires forall b {:trigger Owned(shares, b)} :: b in mask ==> Owned(shares, b)
    ensures mask <= bits + shares[t]
  {
    forall b | b in mask ensures b in bits + shares[t] {
      assert Owned(shares, b);
      var u :| u in shares && b in shares[u];
    }
  }

  /** As long as the mask is incomplete, setting bits wakes none of those who are here ... */
  lemma SetIncomplete(m: Meeting, more: Bits)
    requires EventGroups.Inv(m.g) && InCalls(m) && more * CONTROL == {} && !(m.mask <= m.g.bits + more)
    ensures var h := SetBits(m.g, more);
            && (forall t :: t in m.shares && t in m.g.calls ==> (t in h.waiting <==> t in m.g.waiting))
            && (forall t :: t in m.shares && t in m.g.calls ==>
                  t in h.items && t in m.g.items && h.items[t] == m.g.items[t])
  {
    SetBitsIsExact(m.g, more);
    assert (m.g.bits + more) * m.mask != m.mask;
  }

  /** ... and clears no bit of the mask. */
  lemma SetIncompleteClears(m: Meeting, more: Bits)
    requires EventGroups.Inv(m.g) && InCalls(m) && OthersKeepOff(m)
    requires more * CONTROL == {} && !(m.mask <= m.g.bits + more)
    ensures forall b :: b in m.mask ==> (b in SetBits(m.g, more).bits <==> b in m.g.bits + more)
  {
    var h, bits := SetBits(m.g, more), m.g.bits + more;
    SetBitsIsExact(m.g, more);
    assert bits * m.mask != m.mask;
    forall t, b | t in m.g.waiting && t !in h.waiting && m.g.calls[t].clear && b in m.mask
      ensures b !in m.g.calls[t].wanted
    {
      assert t !in m.shares;
    }
  }

  /** With the mask complete, everyone who is here is woken with all of it. */
  lemma SetComplete(m: Meeting, more: Bits)
    requires EventGroups.Inv(m.g) && InCalls(m)
    requires more * CONTROL == {} && m.mask <= m.g.bits + more
    ensures var h := SetBits(m.g, more);
            && (forall t :: t in m.shares ==> t !in h.waiting)
            && (forall t :: t in m.shares && t in m.g.calls ==>
                  t in h.items && h.items[t] * UNBLOCKED != {} && m.mask <= h.items[t])
  {
    var bits := m.g.bits + more;
    SetBitsIsExact(m.g, more);
    assert bits * m.mask == m.mask;
    DeliveryParts(bits);
  }

  // ---------- arriving ----------

  lemma CoverIsMeet(mask: Bits, bits: Bits)
    ensures bits * mask == mask <==> mask <= bits
  {
    assert mask <= bits ==> bits * mask == mask;
  }

  lemma NotYetCalled(m: Meeting, t: TaskId)
    requires EventGroups.Inv(m.g) && Gathering(m) && InCalls(m) && t in m.shares && t !in m.g.calls
    ensures !Here(m, t) && Counted(m.arrivals, t) == Counted(m.departures, t) == m.rounds
  {
  }

  /** A task arrives while another is missing: it sets its bits and waits. */
  lemma ArriveEarlyGathers(m: Meeting, t: TaskId, u: TaskId)
    requires Inv(m) && Allowed(m, Arrive(t)) && u in m.shares && u != t && !Here(m, u)
    ensures !(m.mask <= m.g.bits + m.shares[t])
    ensures Gathering(Apply(m, Arrive(t))) && Missing(Apply(m, Arrive(t)))
  {
    var share, n := m.shares[t], Apply(m, Arrive(t));
    NotYetCalled(m, t);
    NotCovered(m.mask, m.g.bits, share, m.shares[u]);
    CoverIsMeet(m.mask, m.g.bits + share);
    SetIncomplete(m, share);
    SetIncompleteClears(m, share);
    var h := SetBits(m.g, share);
    SetBitsKeeps(m.g, share);
    assert n.g == Blocked(h, t, Call(m.mask, true, true));
    EarlyBits(m.shares, m.mask, m.g.bits, h.bits, t);
    forall v | v in m.shares && v != t
      ensures Here(n, v) <==> Here(m, v)
      ensures v in n.g.waiting <==> v in m.g.waiting
    {
      EarlyOther(m, t, v);
    }
    assert !Here(n, u);
  }

  lemma EarlyOther(m: Meeting, t: TaskId, v: TaskId)
    requires Inv(m) && Allowed(m, Arrive(t)) && v in m.shares && v != t && !(m.mask <= m.g.bits + m.shares[t])
    ensures v in SetBits(m.g, m.shares[t]).waiting + [t] <==> v in m.g.waiting
    ensures Counted(Plus1(m.arrivals, t), v) == Counted(m.arrivals, v)
  {
    SetIncomplete(m, m.shares[t]);
    if v !in m.g.calls {
      SetBitsIsExact(m.g, m.shares[t]);
    }
  }

  lemma EarlyBits(shares: map<TaskId, Bits>, mask: Bits, bits: Bits, left: Bits, t: TaskId)
    requires Shared(shares, mask) && t in shares
    requires forall b :: b in mask ==> (b in left <==> b in bits + shares[t])
    ensures shares[t] <= left
    ensures forall v :: v in shares && v != t ==>
              (shares[v] <= bits ==> shares[v] <= left) && (shares[v] !! bits ==> shares[v] !! left)
  {
  }

  lemma ArriveEarlyInCalls(m: Meeting, t: TaskId)
    requires Inv(m) && Allowed(m, Arrive(t)) && !(m.mask <= m.g.bits + m.shares[t])
    ensures InCalls(Apply(m, Arrive(t))) && OthersKeepOff(Apply(m, Arrive(t))) && Apply(m, Arrive(t)).values == m.values
  {
    var share := m.shares[t];
    NotYetCalled(m, t);
    CoverIsMeet(m.mask, m.g.bits + share);
    SetIncomplete(m, share);
  }

  /** The last task arrives: the meeting takes place, everyone is released and the mask is clear again. */
  lemma ArriveLast(m: Meeting, t: TaskId)
    requires Inv(m) && Allowed(m, Arrive(t)) && forall u :: u in m.shares && u != t ==> Here(m, u)
    ensures var n := Apply(m, Arrive(t));
            && n.rounds == m.rounds + 1 && Gathering(n) && Missing(n) && InCalls(n) && OthersKeepOff(n)
            && n.values == m.values + [m.g.bits + m.shares[t]] && m.mask <= m.g.bits + m.shares[t]
  {
    var share, n := m.shares[t], Apply(m, Arrive(t));
    NotYetCalled(m, t);
    Covered(m.shares, m.mask, m.g.bits, t);
    CoverIsMeet(m.mask, m.g.bits + share);
    SetComplete(m, share);
    var h := SetBits(m.g, share);
    assert n.g == h.(bits := h.bits - m.mask);
    forall u | u in m.shares
      ensures m.shares[u] !! n.g.bits && !Here(n, u) && Counted(n.arrivals, u) == n.rounds
    {
    }
    assert t in n.shares && !Here(n, t);
  }

  lemma ArriveKeeps(m: Meeting, t: TaskId)
    requires Inv(m) && Allowed(m, Arrive(t))
    ensures Inv(Apply(m, Arrive(t)))
  {
    EventGroups.StepKeeps(m.g, SyncStep(t, m.shares[t], m.mask, true));
    if u :| u in m.shares && u != t && !Here(m, u) {
      ArriveEarlyGathers(m, t, u);
      ArriveEarlyInCalls(m, t);
    } else {
      ArriveLast(m, t);
    }
  }

  // ---------- leaving, and the other tasks ----------

  lemma LeaveDelivers(m: Meeting, t: TaskId)
    requires Gathering(m) && InCalls(m) && m.mask * CONTROL == {}
    requires t in m.shares && t in m.g.calls && t in m.g.items && t !in m.g.waiting
    ensures Finish(m.g, t) == (m.g.(items := m.g.items - {t}, calls := m.g.calls - {t}), Returns(Wanted(m.g.items[t])))
    ensures m.mask <= Wanted(m.g.items[t]) && !Here(m, t)
  {
    forall b | b in m.mask ensures b in Wanted(m.g.items[t]) {
      assert b !in m.mask * CONTROL;
    }
  }

  lemma LeaveGathers(m: Meeting, g: Group, departures: map<TaskId, nat>, values: seq<Bits>)
    requires Gathering(m) && Missing(m) && g.bits == m.g.bits && g.waiting == m.g.waiting
    ensures var n := m.(g := g, departures := departures, values := values); Gathering(n) && Missing(n)
  {
    var n := m.(g := g, departures := departures, values := values);
    forall u | u in m.shares ensures Here(n, u) <==> Here(m, u) {
    }
    var u :| u in m.shares && !Here(m, u);
    assert !Here(n, u);
  }

  lemma LeaveKeeps(m: Meeting, t: TaskId)
    requires Inv(m) && Allowed(m, Leave(t))
    ensures Inv(Apply(m, Leave(t)))
  {
    EventGroups.StepKeeps(m.g, FinishStep(t));
    LeaveDelivers(m, t);
    LeaveGathers(m, Finish(m.g, t).0, Plus1(m.departures, t), m.values + [Wanted(m.g.items[t])]);
    LeaveSettles(m, t);
  }

  lemma LeaveSettles(m: Meeting, t: TaskId)
    requires Inv(m) && Allowed(m, Leave(t))
    ensures InCalls(Apply(m, Leave(t))) && OthersKeepOff(Apply(m, Leave(t)))
  {
    LeaveDelivers(m, t);
  }

  /** The group may change in any way that touches neither the mask nor the calls of those who meet. */
  ghost predicate SameForUs(m: Meeting, g: Group) {
    && (forall b :: b in m.mask ==> (b in g.bits <==> b in m.g.bits))
    && (forall t :: t in m.shares ==>
          && (t in g.calls <==> t in m.g.calls)
          && (t in g.waiting <==> t in m.g.waiting)
          && (t in g.calls ==>
                && g.calls[t] == m.g.calls[t]
                && t in g.items && t in m.g.items && g.items[t] == m.g.items[t]))
    && OthersKeepOff(m.(g := g))
  }

  lemma SameForUsKeeps(m: Meeting, g: Group)
    requires Inv(m) && EventGroups.Inv(g) && SameForUs(m, g)
    ensures Inv(m.(g := g))
  {
    var n := m.(g := g);
    forall t | t in m.shares ensures Here(n, t) <==> Here(m, t) {
    }
    SameMaskBits(m.shares, m.mask, m.g.bits, g.bits);
    assert Gathering(n);
  }

  lemma SameMaskBits(shares: map<TaskId, Bits>, mask: Bits, bits: Bits, after: Bits)
    requires forall t :: t in shares ==> shares[t] <= mask
    requires forall b :: b in mask ==> (b in after <==> b in bits)
    ensures forall t :: t in shares ==>
              (shares[t] <= bits ==> shares[t] <= after) && (shares[t] !! bits ==> shares[t] !! after)
  {
  }

  /** Setting bits off the mask. */
  lemma SetOffMask(m: Meeting, more: Bits)
    requires Inv(m) && more * CONTROL == {} && more !! m.mask
    ensures SameForUs(m, SetBits(m.g, more)) && SetBits(m.g, more).calls == m.g.calls
  {
    var u :| u in m.shares && !Here(m, u);
    NotCovered(m.mask, m.g.bits, more, m.shares[u]);
    SetIncomplete(m, more);
    SetIncompleteClears(m, more);
    SetBitsIsExact(m.g, more);
  }

  lemma ClearOffMask(m: Meeting, g: Group, mask: Bits)
    requires SameForUs(m, g) && mask !! m.mask
    ensures SameForUs(m, g.(bits := g.bits - mask))
  {
  }

  lemma BlockOffMask(m: Meeting, g: Group, t: TaskId, c: Call)
    requires SameForUs(m, g) && t !in m.shares && (c.clear ==> c.wanted !! m.mask)
    ensures SameForUs(m, Blocked(g, t, c))
  {
  }

  lemma FinishOffMask(m: Meeting, t: TaskId)
    requires Inv(m) && Allowed(m, Foreign(FinishStep(t)))
    ensures SameForUs(m, Finish(m.g, t).0)
  {
    var h := m.g.(items := m.g.items - {t}, calls := m.g.calls - {t});
    assert SameForUs(m, h);
    if m.g.calls[t].clear {
      ClearOffMask(m, h, m.g.calls[t].wanted);
    }
  }

  lemma WaitOffMask(m: Meeting, t: TaskId, c: Call, mayBlock: bool)
    requires Inv(m) && Allowed(m, Foreign(WaitStep(t, c, mayBlock)))
    ensures SameForUs(m, WaitBits(m.g, t, c, mayBlock).0)
  {
    StaysSame(m);
    BlockOffMask(m, m.g, t, c);
    if c.clear {
      ClearOffMask(m, m.g, c.wanted);
    }
  }

  lemma SyncOffMask(m: Meeting, t: TaskId, more: Bits, wanted: Bits, mayBlock: bool)
    requires Inv(m) && Allowed(m, Foreign(SyncStep(t, more, wanted, mayBlock)))
    ensures SameForUs(m, Sync(m.g, t, more, wanted, mayBlock).0)
  {
    SetOffMask(m, more);
    ClearOffMask(m, SetBits(m.g, more), wanted);
    BlockOffMask(m, SetBits(m.g, more), t, Call(wanted, true, true));
  }

  lemma ForeignIsSame(m: Meeting, s: Step)
    requires Inv(m) && Allowed(m, Foreign(s))
    ensures SameForUs(m, EventGroups.Apply(m.g, s).0)
  {
    match s
    case SetStep(b) => SetOffMask(m, b);
    case ClearStep(b) => StaysSame(m); ClearOffMask(m, m.g, b);
    case WaitStep(t, c, mayBlock) => WaitOffMask(m, t, c, mayBlock);
    case SyncStep(t, b, w, mayBlock) => SyncOffMask(m, t, b, w, mayBlock);
    case TimeOutStep(t) =>
    case FinishStep(t) => FinishOffMask(m, t);
  }

  lemma ForeignKeeps(m: Meeting, s: Step)
    requires Inv(m) && Allowed(m, Foreign(s))
    ensures Inv(Apply(m, Foreign(s)))
  {
    EventGroups.StepKeeps(m.g, s);
    ForeignIsSame(m, s);
    SameForUsKeeps(m, EventGroups.Apply(m.g, s).0);
  }

  lemma StaysSame(m: Meeting)
    requires Inv(m)
    ensures SameForUs(m, m.g)
  {
  }

  // ---------- runs ----------

  lemma MoveKeeps(m: Meeting, v: Move)
    requires Inv(m) && Allowed(m, v)
    ensures Inv(Apply(m, v))
  {
    match v
    case Arrive(t) => ArriveKeeps(m, t);
    case Leave(t) => LeaveKeeps(m, t);
    case Foreign(s) => ForeignKeeps(m, s);
  }

  ghost predicate Possible(m: Meeting, run: seq<Move>)
    decreases |run|
  {
    run == [] || (Allowed(m, run[0]) && Possible(Apply(m, run[0]), run[1..]))
  }

  ghost function After(m: Meeting, run: seq<Move>): Meeting
    requires Possible(m, run)
    decreases |run|
  {
    if run == [] then m else After(Apply(m, run[0]), run[1..])
  }

  lemma {:induction false} RunKeeps(m: Meeting, run: seq<Move>)
    requires Inv(m) && Possible(m, run)
    ensures Inv(After(m, run)) && After(m, run).shares == m.shares && After(m, run).mask == m.mask
    decreases |run|
  {
    if run != [] {
      MoveKeeps(m, run[0]);
      RunKeeps(Apply(m, run[0]), run[1..]);
    }
  }

  function NobodyYet(shares: map<TaskId, Bits>): map<TaskId, nat> {
    map t | t in shares :: 0
  }

  /** Before the first arrival, at a group in any reachable state with the mask clear. */
  function Start(g: Group, shares: map<TaskId, Bits>, mask: Bits): Meeting {
    Meeting(g, shares, mask, NobodyYet(shares), NobodyYet(shares), 0, [])
  }

  ghost predicate Ready(g: Group, shares: map<TaskId, Bits>, mask: Bits) {
    && EventGroups.Inv(g) && Shared(shares, mask) && shares != map[] && g.bits !! mask
    && (forall t :: t in shares ==> t !in g.calls)
    && (forall t :: t in g.calls && g.calls[t].clear ==> g.calls[t].wanted !! mask)
  }

  lemma StartKeeps(g: Group, shares: map<TaskId, Bits>, mask: Bits)
    requires Ready(g, shares, mask)
    ensures Inv(Start(g, shares, mask))
  {
    var m := Start(g, shares, mask);
    assert shares.Keys != {};
    var t :| t in shares.Keys;
    assert !Here(m, t);
    forall u | u in shares ensures shares[u] !! g.bits && !Here(m, u) {
    }
  }

  /** The rendezvous, any number of times in a row: no call returns before every task has made as many
      calls; every value returned contains the whole mask; and whenever all tasks have arrived equally
      often, nobody is left waiting and the mask is clear. */
  lemma {:induction false} Rendezvous(g: Group, shares: map<TaskId, Bits>, mask: Bits, run: seq<Move>)
    requires Ready(g, shares, mask) && Possible(Start(g, shares, mask), run)
    ensures var m := After(Start(g, shares, mask), run);
            && (forall t, u :: t in shares && u in shares ==> Counted(m.departures, t) <= Counted(m.arrivals, u))
            && (forall v :: v in m.values ==> mask <= v)
            && ((forall t, u :: t in shares && u in shares ==> Counted(m.arrivals, t) == Counted(m.arrivals, u)) ==>
                  m.g.bits !! mask && forall t :: t in shares ==> t !in m.g.waiting)
  {
    StartKeeps(g, shares, mask);
    RunKeeps(Start(g, shares, mask), run);
    var m := After(Start(g, shares, mask), run);
    CountsStraddle(m);
    if forall t, v :: t in shares && v in shares ==> Counted(m.arrivals, t) == Counted(m.arrivals, v) {
      AllHaveMet(m);
    }
  }

  /** The round under way separates the returns from the calls. */
  lemma {:induction false} CountsStraddle(m: Meeting)
    requires Inv(m)
    ensures forall t :: t in m.shares ==> m.rounds <= Counted(m.arrivals, t) && Counted(m.departures, t) <= m.rounds
  {
    forall t | t in m.shares
      ensures m.rounds <= Counted(m.arrivals, t) && Counted(m.departures, t) <= m.rounds
    {
      if t !in m.g.calls {
        assert t !in m.g.waiting;
      }
    }
  }

  lemma {:induction false} AllHaveMet(m: Meeting)
    requires Inv(m)
    requires forall t, u :: t in m.shares && u in m.shares ==> Counted(m.arrivals, t) == Counted(m.arrivals, u)
    ensures m.g.bits !! m.mask && forall t :: t in m.shares ==> t !in m.g.waiting
  {
    var u :| u in m.shares && !Here(m, u);
    forall t | t in m.shares ensures !Here(m, t) {
      assert Counted(m.arrivals, t) == Counted(m.arrivals, u);
    }
    forall b | b in m.mask ensures b !in m.g.bits {
      assert Owned(m.shares, b);
      var t :| t in m.shares && b in m.shares[t];
      assert !Here(m, t);
    }
  }
}
