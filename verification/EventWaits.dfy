/** What event groups promise, bit by bit: who is woken, who may wait, what a call returns and what it clears. */
module EventWaits {
  import opened ListModel
  import opened EventGroups

  // ---------- wait conditions, bit by bit ----------

  /** What a call waits for: every bit of its mask, or any. */
  ghost predicate Met(bits: Bits, c: Call) {
    if c.all then forall b :: b in c.wanted ==> b in bits else exists b :: b in c.wanted && b in bits
  }

  lemma {:induction false} ConditionIsMet(bits: Bits, c: Call)
    ensures Condition(bits, c.wanted, c.all) <==> Met(bits, c)
  {
    if c.all {
      if Met(bits, c) {
        assert bits * c.wanted == c.wanted;
      }
      if Condition(bits, c.wanted, c.all) {
        forall b | b in c.wanted ensures b in bits {
          assert b in bits * c.wanted;
        }
      }
    } else {
      if b :| b in c.wanted && b in bits {
        assert b in bits * c.wanted;
      }
      if Condition(bits, c.wanted, c.all) {
        var b :| b in bits * c.wanted;
      }
    }
  }

  // ---------- who waits ----------

  /** In every run: a task that waits for any of its bits sees none of them set, and one that waits for all of them
      sees one missing. */
  lemma {:induction false} WaitersLackTheirBits(run: seq<Step>, t: TaskId)
    requires Possible(CREATED, run) && t in After(CREATED, run).waiting
    ensures var g := After(CREATED, run);
            && t in g.calls
            && var c := g.calls[t];
               if c.all then exists b :: b in c.wanted && b !in g.bits
               else forall b :: b in c.wanted ==> b !in g.bits
  {
    RunKeeps(CREATED, run);
    ConditionIsMet(After(CREATED, run).bits, After(CREATED, run).calls[t]);
  }

  /** xEventGroupSetBits takes a task off the list exactly if the old bits and the new ones together have any (all) of
      the bits that it waits for; the task is given them, and a bit is lost exactly if a task that was woken wanted it
      cleared. */
  lemma {:induction false} SetBitsWakesExactly(g: Group, more: Bits)
    requires Inv(g) && more * CONTROL == {}
    ensures var h, bits := SetBits(g, more), g.bits + more;
            && (forall t :: t in g.waiting ==>
                  && (t !in h.waiting <==> Met(bits, g.calls[t]))
                  && t in h.items
                  && (t !in h.waiting ==> Wanted(h.items[t]) == bits && h.items[t] * UNBLOCKED != {}))
            && (forall b :: b in h.bits <==>
                  && (b in g.bits || b in more)
                  && forall t :: t in g.waiting && Met(bits, g.calls[t]) && g.calls[t].clear ==>
                       b !in g.calls[t].wanted)
  {
    var h, bits := SetBits(g, more), g.bits + more;
    SetBitsIsExact(g, more);
    DeliveryParts(bits);
    forall t | t in g.waiting ensures Condition(bits, g.calls[t].wanted, g.calls[t].all) <==> Met(bits, g.calls[t]) {
      ConditionIsMet(bits, g.calls[t]);
    }
  }

  /** xEventGroupWaitBits returns at once exactly if the bits that are set meet the call or it may not block; it then
      returns all of them, and clears those of its mask exactly if it was met and asked to.  Otherwise the task waits,
      behind the others, with the mask and the options in its item. */
  lemma {:induction false} WaitBitsExactly(g: Group, t: TaskId, c: Call, mayBlock: bool)
    requires Inv(g) && Enabled(g, WaitStep(t, c, mayBlock))
    ensures var (h, o) := WaitBits(g, t, c, mayBlock);
            && (o.Returns? <==> Met(g.bits, c) || !mayBlock)
            && (o.Returns? ==>
                  && o.value == g.bits && h == g.(bits := h.bits)
                  && forall b :: b in h.bits <==> b in g.bits && !(Met(g.bits, c) && c.clear && b in c.wanted))
            && (o.Blocks? ==>
                  && h.waiting == g.waiting + [t] && h.bits == g.bits
                  && t in h.calls && h.calls[t] == c
                  && t in h.items && Wanted(h.items[t]) == c.wanted && IN_USE <= h.items[t]
                  && (WAIT_FOR_ALL <= h.items[t] <==> c.all) && (CLEAR_ON_EXIT <= h.items[t] <==> c.clear))
  {
    ConditionIsMet(g.bits, c);
    ItemParts(c);
    assert 24 in ItemOf(c) <==> 24 in ItemOf(c) * CLEAR_ON_EXIT;
    assert 26 in ItemOf(c) <==> 26 in ItemOf(c) * WAIT_FOR_ALL;
  }

  /** xEventGroupSync: the bits are set first.  If the whole mask is then set, the call returns with it and the mask is
      cleared; else it waits for all of it, or returns what is left of the bits if it may not block. */
  lemma {:induction false} SyncExactly(g: Group, t: TaskId, more: Bits, wanted: Bits, mayBlock: bool)
    requires Inv(g) && Enabled(g, SyncStep(t, more, wanted, mayBlock))
    ensures var (h, o) := Sync(g, t, more, wanted, mayBlock);
            var after, whole := SetBits(g, more), forall b :: b in wanted ==> b in g.bits || b in more;
            && (o.Returns? <==> whole || !mayBlock)
            && (whole ==> o.value == g.bits + more && h == after.(bits := h.bits)
                          && forall b :: b in h.bits <==> b in after.bits && b !in wanted)
            && (!whole && !mayBlock ==> h == after && o.value == after.bits)
            && (o.Blocks? ==> h.waiting == after.waiting + [t] && h.bits == after.bits && t in h.calls
                              && h.calls[t] == Call(wanted, true, true))
  {
    ConditionIsMet(g.bits + more, Call(wanted, true, true));
  }

  /** xEventGroupClearBits: exactly the bits of the mask are gone, so that a task which then waits for some of them
      blocks, and the others are as they were. */
  lemma {:induction false} ClearedBitsAreGone(g: Group, mask: Bits, t: TaskId, c: Call)
    requires Inv(g) && Enabled(g, ClearStep(mask)) && Enabled(g, WaitStep(t, c, true))
    ensures var (h, o) := ClearBits(g, mask);
            && o == Returns(g.bits)
            && (forall b :: b in mask ==> b !in h.bits)
            && (forall b :: b !in mask ==> (b in h.bits <==> b in g.bits))
            && (c.wanted <= mask ==> WaitBits(h, t, c, true).1.Blocks?)
            && (c.wanted !! mask ==> WaitBits(h, t, c, true).1.Blocks? == WaitBits(g, t, c, true).1.Blocks?)
  {
    var h := ClearBits(g, mask).0;
    ConditionIsMet(h.bits, c);
    ConditionIsMet(g.bits, c);
    assert exists b :: b in c.wanted;
  }

  // ---------- what a blocked call returns ----------

  /** Once a task has been woken, nobody but the task itself changes what it was given. */
  lemma {:induction false} StepKeepsDelivery(g: Group, s: Step, t: TaskId)
    requires Inv(g) && Enabled(g, s) && t in g.calls && t in g.items && t !in g.waiting && s != FinishStep(t)
    ensures var h := Apply(g, s).0;
            t in h.calls && h.calls[t] == g.calls[t] && t in h.items && h.items[t] == g.items[t] && t !in h.waiting
  {
    if s.SetStep? || s.SyncStep? {
      SettingKeepsDelivery(g, s.mask, t);
    }
  }

  lemma {:induction false} SettingKeepsDelivery(g: Group, more: Bits, t: TaskId)
    requires Inv(g) && more * CONTROL == {} && t in g.calls && t in g.items && t !in g.waiting
    ensures var h := SetBits(g, more);
            h.calls == g.calls && t in h.items && h.items[t] == g.items[t] && t !in h.waiting
  {
    SetBitsIsExact(g, more);
  }

  ghost predicate NotFinished(g: Group, run: seq<Step>, t: TaskId)
    requires Possible(g, run)
  {
    FinishStep(t) !in run
  }

  lemma {:induction false} RunKeepsDelivery(g: Group, run: seq<Step>, t: TaskId)
    requires Inv(g) && Possible(g, run) && NotFinished(g, run, t)
    requires t in g.calls && t in g.items && t !in g.waiting
    ensures var h := After(g, run);
            && Inv(h) && t in h.calls && h.calls[t] == g.calls[t]
            && t in h.items && h.items[t] == g.items[t] && t !in h.waiting
    decreases |run|
  {
    if run != [] {
      assert run[0] in run;
      StepKeeps(g, run[0]);
      StepKeepsDelivery(g, run[0], t);
      RunKeepsDelivery(Apply(g, run[0]).0, run[1..], t);
    }
  }

  /** A task that is woken returns the bits it was woken with, however many operations come before it runs again and
      whatever they set or clear, and clears nothing itself. */
  lemma {:induction false} ReturnsWhatWokeIt(g: Group, more: Bits, t: TaskId, run: seq<Step>)
    requires Inv(g) && Enabled(g, SetStep(more)) && t in g.waiting && Met(g.bits + more, g.calls[t])
    requires Possible(SetBits(g, more), run) && NotFinished(SetBits(g, more), run, t)
    ensures var h := After(SetBits(g, more), run);
            && Enabled(h, FinishStep(t))
            && Finish(h, t).1 == Returns(g.bits + more)
            && Finish(h, t).0.bits == h.bits
  {
    SetBitsKeeps(g, more);
    SetBitsWakesExactly(g, more);
    SetBitsIsExact(g, more);
    RunKeepsDelivery(SetBits(g, more), run, t);
  }

  /** A task whose time runs out is off the list, and alone; it then returns the bits as they are when it runs, and
      clears those it waited for exactly if it asked to and they have come to meet the call after all. */
  lemma {:induction false} TimedOutReturnsCurrentBits(g: Group, t: TaskId, run: seq<Step>)
    requires Inv(g) && t in g.waiting && Possible(TimeOut(g, t), run) && NotFinished(TimeOut(g, t), run, t)
    ensures forall u :: u in TimeOut(g, t).waiting <==> u in g.waiting && u != t
    ensures var h, c := After(TimeOut(g, t), run), g.calls[t];
            && Enabled(h, FinishStep(t))
            && Finish(h, t).1 == Returns(h.bits)
            && (forall b :: b in Finish(h, t).0.bits <==> b in h.bits && !(Met(h.bits, c) && c.clear && b in c.wanted))
  {
    TimeOutKeeps(g, t);
    RunKeepsDelivery(TimeOut(g, t), run, t);
    var h := After(TimeOut(g, t), run);
    ItemParts(g.calls[t]);
    ConditionIsMet(h.bits, g.calls[t]);
    assert Wanted(h.bits) == h.bits;
  }
}
