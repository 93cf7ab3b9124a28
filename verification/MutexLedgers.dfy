/** Who holds a mutex and how often, read off the takes and gives of a run alone, and that the mutex agrees. */
module MutexLedgers {
  import opened Ticks
  import opened ListModel
  import opened Tasks
  import TaskInvariants
  import opened TaskFrames
  import TaskRuns
  import TaskStates
  import WakeOrders
  import opened Mutexes

  // ---------- the ledger ----------

  /** A lock with recursion, as its users understand it. */
  datatype Ledger =
    | Unmade
    | Free(recursive: bool)
    | Held(recursive: bool, task: TaskId, times: nat)

  /** A free lock goes to whoever takes it; a recursive one may be taken again by the one who holds it. */
  function TakenBy(x: Ledger, t: TaskId): Ledger {
    match x
    case Unmade => x
    case Free(recursive) => Ledger.Held(recursive, t, 1)
    case Held(recursive, u, times) => if recursive && u == t then Ledger.Held(true, t, times + 1) else x
  }

  /** Only the holder gives; as many gives as takes free the lock. */
  function GivenBy(x: Ledger, t: TaskId): Ledger {
    if !x.Held? || x.task != t then x
    else if x.times > 1 then x.(times := x.times - 1)
    else Free(x.recursive)
  }

  /** What task `t` does to the ledger of mutex `e` by a step. */
  function Entered(x: Ledger, t: TaskId, a: Step, e: EventId): Ledger {
    match a
    case NewMutex(f, recursive) => if f == e then Free(recursive) else x
    case Take(f) => if f == e then TakenBy(x, t) else x
    case TakeAgain(f) => if f == e then TakenBy(x, t) else x
    case GiveBack(f) => if f == e then GivenBy(x, t) else x
    case GiveOnce(f) => if f == e then GivenBy(x, t) else x
    case KernelStep(_) => x
    case Block(_, _) => x
  }

  ghost function Book(s: System, run: seq<Step>, e: EventId, x: Ledger): Ledger
    requires Inv(s) && Possible(s, run)
    decreases |run|
  {
    if run == [] then x
    else StepKeeps(s, run[0]); Book(Apply(s, run[0]), run[1..], e, Entered(x, s.k.current, run[0], e))
  }

  /** The mutex shows what the ledger says. */
  predicate AgreesOne(y: Mutex, x: Ledger) {
    match x
    case Unmade => false
    case Free(recursive) => y.recursive == recursive && y.holder == Nobody && y.count == 1 && y.calls == 0
    case Held(recursive, u, times) =>
      && y.recursive == recursive && y.holder == Task(u) && y.count == 0
      && (if recursive then y.calls == times else y.calls == 0 && times == 1)
  }

  predicate Agrees(ms: map<EventId, Mutex>, e: EventId, x: Ledger) {
    if e in ms then AgreesOne(ms[e], x) else x == Unmade
  }

  lemma {:induction false} StepAgrees(s: System, a: Step, e: EventId, x: Ledger)
    requires Inv(s) && Enabled(s, a) && Agrees(s.mutexes, e, x)
    ensures Agrees(Apply(s, a).mutexes, e, Entered(x, s.k.current, a, e))
  {
    if a.GiveBack? || a.GiveOnce? {
      HolderHolds(s, a.e);
      GiveAgrees(s, a, e, x);
    } else if a.Block? {
      HolderHolds(s, a.e);
    }
  }

  lemma {:induction false} GiveAgrees(s: System, a: Step, e: EventId, x: Ledger)
    requires Inv(s) && Enabled(s, a) && (a.GiveBack? || a.GiveOnce?) && Agrees(s.mutexes, e, x)
    ensures Agrees(Apply(s, a).mutexes, e, Entered(x, s.k.current, a, e))
  {
    HolderHolds(s, a.e);
    assert ConsistentOne(s.mutexes[a.e]);
  }

  /** In every run, the holder, the count and the recursive call count of a mutex are those of the ledger: nobody else
      gets a mutex that is held, and its holder keeps it until it has given it back as often as it has taken it. */
  lemma {:induction false} RunAgrees(s: System, run: seq<Step>, e: EventId, x: Ledger)
    requires Inv(s) && Possible(s, run) && Agrees(s.mutexes, e, x)
    ensures Agrees(After(s, run).mutexes, e, Book(s, run, e, x))
    decreases |run|
  {
    if run != [] {
      StepKeeps(s, run[0]);
      StepAgrees(s, run[0], e, x);
      RunAgrees(Apply(s, run[0]), run[1..], e, Entered(x, s.k.current, run[0], e));
    }
  }

  lemma {:induction false} MutexKeepsLedger(idle: TaskId, run: seq<Step>, e: EventId)
    requires PossibleFrom(idle, run)
    ensures (StartKeeps(idle); Agrees(Reached(idle, run).mutexes, e, Book(NoMutexes(idle), run, e, Unmade)))
  {
    StartKeeps(idle);
    RunAgrees(NoMutexes(idle), run, e, Unmade);
  }

  // ---------- takes and gives in numbers ----------

  /** What a step adds to the takes of mutex `e` by `t`, less the gives. */
  function Gain(s: System, a: Step, e: EventId, t: TaskId): int {
    if s.k.current != t then 0
    else if a == TakeAgain(e) then 1
    else if a == GiveOnce(e) then -1
    else 0
  }

  /** The takes of mutex `e` by `t` less the gives, over a run. */
  ghost function Balance(s: System, run: seq<Step>, e: EventId, t: TaskId): int
    requires Inv(s) && Possible(s, run)
    decreases |run|
  {
    if run == [] then 0
    else StepKeeps(s, run[0]); Gain(s, run[0], e, t) + Balance(Apply(s, run[0]), run[1..], e, t)
  }

  /** With `n` takes to begin with, the takes are ahead of the gives all through the run. */
  ghost predicate AlwaysAhead(s: System, run: seq<Step>, e: EventId, t: TaskId, n: int)
    requires Inv(s) && Possible(s, run)
    decreases |run|
  {
    && n > 0
    && (run != [] ==> (StepKeeps(s, run[0]); AlwaysAhead(Apply(s, run[0]), run[1..], e, t, n + Gain(s, run[0], e, t))))
  }

  predicate Holds(s: System, e: EventId, t: TaskId, n: int) {
    e in s.mutexes && s.mutexes[e].recursive && s.mutexes[e].holder == Task(t) && s.mutexes[e].calls == n
  }

  lemma {:induction false} StepGains(s: System, a: Step, e: EventId, t: TaskId, n: int)
    requires Inv(s) && Enabled(s, a) && Holds(s, e, t, n)
    ensures n > 0 && s.mutexes[e].count == 0
    ensures var r := Apply(s, a);
            if n + Gain(s, a, e, t) > 0 then Holds(r, e, t, n + Gain(s, a, e, t)) && r.mutexes[e].count == 0
            else e in r.mutexes && r.mutexes[e].holder == Nobody && r.mutexes[e].count == 1
  {
    assert ConsistentOne(s.mutexes[e]);
    StepAgrees(s, a, e, Ledger.Held(true, t, n));
  }

  /** A task that holds a recursive mutex keeps it, whatever else happens, as long as it has taken it more often than
      it has given it ... */
  lemma {:induction false} HolderKeepsWhileAhead(s: System, run: seq<Step>, e: EventId, t: TaskId, n: int)
    requires Inv(s) && Possible(s, run) && Holds(s, e, t, n) && AlwaysAhead(s, run, e, t, n)
    ensures Holds(After(s, run), e, t, n + Balance(s, run, e, t))
    ensures After(s, run).mutexes[e].count == 0
    decreases |run|
  {
    if run == [] {
      assert ConsistentOne(s.mutexes[e]);
    } else {
      StepKeeps(s, run[0]);
      StepGains(s, run[0], e, t, n);
      HolderKeepsWhileAhead(Apply(s, run[0]), run[1..], e, t, n + Gain(s, run[0], e, t));
    }
  }

  /** ... and its next give frees the mutex exactly if it makes the gives even with the takes. */
  lemma {:induction false} GivenBackWhenEven(s: System, run: seq<Step>, e: EventId, t: TaskId, n: int)
    requires Inv(s) && Possible(s, run) && Holds(s, e, t, n) && AlwaysAhead(s, run, e, t, n)
    requires After(s, run).k.current == t && Enabled(After(s, run), GiveOnce(e))
    ensures var x := Apply(After(s, run), GiveOnce(e)).mutexes[e];
            if n + Balance(s, run, e, t) == 1 then x.holder == Nobody && x.count == 1
            else x.holder == Task(t) && x.count == 0
  {
    HolderKeepsWhileAhead(s, run, e, t, n);
    StepGains(After(s, run), GiveOnce(e), e, t, n + Balance(s, run, e, t));
  }

  // ---------- what blocking and giving do to the tasks ----------

  /** Inheriting raises the holder to the priority of the running task, if that is higher, and nobody else. */
  lemma {:induction false} InheritIsExact(k: Kernel, h: TaskId)
    requires h in k.tcb
    ensures var r := Inherit(k, h);
            && r.tcb.Keys == k.tcb.Keys
            && (forall t :: t in k.tcb && t != h ==> r.tcb[t] == k.tcb[t])
            && r.PriorityOf(h) == (if k.PriorityOf(h) < k.PriorityOf(k.current) then k.PriorityOf(k.current)
                                   else k.PriorityOf(h))
            && r.tcb[h].basePriority == k.tcb[h].basePriority && r.tcb[h].mutexesHeld == k.tcb[h].mutexesHeld
  {
    InheritFrame(k, h);
  }

  /** A task that finds the mutex taken waits for it, with the holder raised to its rank and nobody else's priority
      changed. */
  lemma {:induction false} BlockedWaits(s: System, e: EventId, ticks: Tick)
    requires Inv(s) && Enabled(s, Block(e, ticks)) && s.mutexes[e].holder.Task?
    ensures s.mutexes[e].holder.id in s.k.tcb
    ensures var t, h, r := s.k.current, s.mutexes[e].holder.id, Apply(s, Block(e, ticks)).k;
            && t in r.EventList(e) && !r.IsReady(t)
            && (if ticks == MAX_DELAY then t in r.suspended else t in TaskStates.Asleep(r))
            && (forall u :: u in s.k.tcb && u != h ==> u in r.tcb && r.PriorityOf(u) == s.k.PriorityOf(u))
            && r.PriorityOf(h) == (if s.k.PriorityOf(h) < s.k.PriorityOf(t) then s.k.PriorityOf(t)
                                   else s.k.PriorityOf(h))
  {
    HolderHolds(s, e);
    assert ConsistentOne(s.mutexes[e]);
    AskingWaits(s.k, s.mutexes[e].holder.id, e, ticks);
  }

  lemma {:induction false} AskingWaits(k: Kernel, h: TaskId, e: EventId, ticks: Tick)
    requires TaskInvariants.Inv(k) && h in k.tcb && k.IsReady(k.current) && ticks > 0
    ensures k.current in Inherit(k, h).tcb
    ensures var t, r := k.current, PlaceOnEvent(Inherit(k, h), e, ticks);
            && t in r.EventList(e) && !r.IsReady(t)
            && (if ticks == MAX_DELAY then t in r.suspended else t in TaskStates.Asleep(r))
            && (forall u :: u in k.tcb && u != h ==> u in r.tcb && r.PriorityOf(u) == k.PriorityOf(u))
            && r.PriorityOf(h) == (if k.PriorityOf(h) < k.PriorityOf(t) then k.PriorityOf(t) else k.PriorityOf(h))
  {
    InheritIsExact(k, h);
    InheritSpares(k, h);
    InheritFrame(k, h);
    PlacedWaits(Inherit(k, h), e, ticks);
  }

  lemma {:induction false} PlacedWaits(k: Kernel, e: EventId, ticks: Tick)
    requires TaskInvariants.Inv(k) && k.IsReady(k.current) && ticks > 0
    ensures k.current in k.tcb
    ensures var t, r := k.current, PlaceOnEvent(k, e, ticks);
            && t in r.EventList(e) && !r.IsReady(t) && SameRanks(k.tcb, r.tcb)
            && (if ticks == MAX_DELAY then t in r.suspended else t in TaskStates.Asleep(r))
  {
    ReadyIsLive(k, k.current);
    PlaceKeeps(k, e, ticks);
    WakeOrders.PlacedList(k, e, ticks);
    TaskInvariants.PutMembers(k.EventList(e), InsertPos(EventValues(k.tcb, k.EventList(e)),
                                                        k.tcb[k.current].eventValue), k.current);
    TaskStates.BlockingMoves(k, TaskRuns.PlaceOnEvent(e, ticks));
    NotReady(k, PlaceOnEvent(k, e, ticks), ticks == MAX_DELAY);
  }

  lemma {:induction false} NotReady(k: Kernel, r: Kernel, forever: bool)
    requires TaskInvariants.Inv(r)
    requires TaskStates.CensusOf(r) == TaskStates.WaitsNow(TaskStates.CensusOf(k), k.current, forever)
    ensures !r.IsReady(k.current)
    ensures if forever then k.current in r.suspended else k.current in TaskStates.Asleep(r)
  {
    var n := TaskStates.CensusOf(r);
    assert if forever then k.current in n.parked else k.current in n.asleep;
    TaskInvariants.Places(r, k.current);
  }

  /** Waking the first waiter, if there is one. */
  lemma {:induction false} FirstWaiterServed(k: Kernel, e: EventId)
    requires TaskInvariants.Inv(k)
    ensures var l, r := k.EventList(e), WakeWaiter(k, e);
            && r.EventList(e) == (if l == [] then [] else l[1..])
            && (l != [] ==> if k.suspensions == 0 then r.IsReady(l[0]) else l[0] in r.pending)
            && SameRanks(k.tcb, r.tcb)
  {
    WakeWaiterKeeps(k, e);
    if k.EventList(e) != [] {
      WakeOrders.HeadIsWoken(k, e);
    }
  }

  lemma DisinheritLists(k: Kernel, h: TaskId)
    requires h in k.tcb && k.tcb[h].mutexesHeld > 0
    ensures Disinherit(k, h).events == k.events && Disinherit(k, h).suspensions == k.suspensions
  {
  }

  lemma {:induction false} GiveServes(k: Kernel, e: EventId)
    requires TaskInvariants.Inv(k) && TaskRuns.Allowed(k, TaskRuns.Disinherit)
    ensures var l, r, c := k.EventList(e), WakeWaiter(Disinherit(k, k.current), e), k.tcb[k.current];
            && r.EventList(e) == (if l == [] then [] else l[1..])
            && (l != [] ==> if k.suspensions == 0 then r.IsReady(l[0]) else l[0] in r.pending)
            && r.PriorityOf(k.current) == (if c.mutexesHeld == 1 then c.basePriority else c.priority)
  {
    DisinheritRank(k);
    DisinheritLists(k, k.current);
    FirstWaiterServed(Disinherit(k, k.current), e);
  }

  lemma {:induction false} DisinheritRank(k: Kernel)
    requires TaskInvariants.Inv(k) && TaskRuns.Allowed(k, TaskRuns.Disinherit)
    ensures var d, c := Disinherit(k, k.current), k.tcb[k.current];
            && TaskInvariants.Inv(d) && k.current in d.tcb
            && d.tcb[k.current].priority == (if c.mutexesHeld == 1 then c.basePriority else c.priority)
  {
    DisinheritFrame(k, k.current);
    TaskRuns.StepKeeps(k, TaskRuns.Disinherit);
  }

  /** Giving a mutex back hands the first waiter its turn, and the last one held returns the holder to its base
      priority. */
  lemma {:induction false} GiveServesFirst(s: System, e: EventId)
    requires Inv(s) && Enabled(s, GiveBack(e)) && s.mutexes[e].holder.Task?
    ensures s.k.current in s.k.tcb
    ensures var l, r, c := s.k.EventList(e), Apply(s, GiveBack(e)).k, s.k.tcb[s.k.current];
            && r.EventList(e) == (if l == [] then [] else l[1..])
            && (l != [] ==> if s.k.suspensions == 0 then r.IsReady(l[0]) else l[0] in r.pending)
            && r.PriorityOf(s.k.current) == (if c.mutexesHeld == 1 then c.basePriority else c.priority)
  {
    HolderHolds(s, e);
    ReadyIsLive(s.k, s.k.current);
    assert ConsistentOne(s.mutexes[e]);
    GiveServes(s.k, e);
  }
}
