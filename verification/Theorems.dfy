/** What holds of one worker over every run from an empty start. */
module Theorems {
  import opened SipTypes
  import opened WorkerModel
  import opened Invariants
  import opened WorkerSystem
  import opened Tokens
  import opened Accounting
  import opened Ownership
  import opened ByeOnce
  import opened Drain
  import opened Deadline

  /** The graph and its states, no leak, balanced delete events that go to the worker's own queue, owned
      messages, one BYE per dialog. */
  ghost predicate Good(s: System) {
    Inv(s.w) && Covered(s) && Balanced(s) && AtMostTwo(s.w) && Routed(s.w) && Conserved(s) && EndedOnce(s.w)
  }

  lemma StartGood(k: nat)
    ensures Good(Start(k))
  {
    hide Coupled, Graph, Branches;
    NothingYet(Idle(k));
  }

  lemma NothingYet(w: Worker)
    requires w.txns == map[] && w.dialogs == map[] && w.calls == map[]
    requires w.txnOrder == [] && w.dialogOrder == [] && w.callOrder == []
    ensures Inv(w)
  {
  }

  lemma StepGood(s: System, step: Step)
    requires Good(s) && Allowed(s, step)
    ensures Good(Next(s, step))
  {
    hide Next, Allowed, Consistent, Branches, Covered, Balanced, AtMostTwo, Routed, Conserved, EndedOnce;
    StepKeepsInv(s, step);
    StepKeepsCovered(s, step);
    StepKeepsBooks(s, step);
    StepKeepsRouted(s, step);
    StepKeepsConserved(s, step);
    StepEndsOnce(s, step);
  }

  /** Every state any run from the start reaches is good. */
  lemma {:induction false} RunGood(s: System, steps: seq<Step>)
    requires Good(s) && IsRun(s, steps)
    ensures Good(Run(s, steps))
    decreases |steps|
  {
    hide Next, Good, Closed, BackLinks, TxnLinks, CallLinks, Admissible;
    if steps != [] {
      StepGood(s, steps[0]);
      RunGood(Next(s, steps[0]), steps[1..]);
    }
  }

  lemma ReachableGood(k: nat, steps: seq<Step>)
    requires IsRun(Start(k), steps)
    ensures Good(Run(Start(k), steps))
  {
    hide IsRun, Run, Good;
    StartGood(k);
    RunGood(Start(k), steps);
  }

  // ---------- draining ----------

  lemma {:induction false} HeldBySome(order: seq<nat>, txns: map<nat, Txn>, id: nat)
    requires id in Held(order, txns)
    ensures exists t :: t in order && id in Ownership.Holds(txns, t)
  {
    if id in Ownership.Holds(txns, order[0]) {
      assert order[0] in order;
    } else {
      HeldBySome(order[1..], txns, id);
      var t :| t in order[1..] && id in Ownership.Holds(txns, t);
      assert t in order;
    }
  }

  lemma UnfreedWaits(s: System, id: nat)
    requires Good(s) && AtRest(s) && s.w.timers.lost == multiset{} && id in s.received && id !in s.w.history.freed
    requires id !in s.w.history.displaced
    ensures exists t :: WaitsWith(s.w, t, id)
  {
    hide Inv, Covered, Balanced, EndedOnce, Routed;
    assert s.received == Known(s.w) + Ownership.Queued(s.queue);
    HeldBySome(s.w.txnOrder, s.w.txns, id);
    var t :| t in s.w.txnOrder && id in Ownership.Holds(s.w.txns, t);
    RestingTransaction(s, t);
    assert WaitsWith(s.w, t, id);
  }

  lemma WaitingUnfreed(s: System, t: nat, id: nat)
    requires Good(s) && WaitsWith(s.w, t, id)
    ensures id in s.received && id !in s.w.history.freed
  {
    hide Covered, Balanced, EndedOnce, Routed, Coupled, Branches, TxnLinks, CallLinks;
    assert id in Ownership.Holds(s.w.txns, t);
    UnlinkHeld(s.w.txnOrder, s.w.txns, t);
    assert id in Held(s.w.txnOrder, s.w.txns);
    hide Held;
    HeldOnce(s, t, t, id);
  }

  /** At rest, exactly these messages that were received are not freed: those displaced by a later ACK, and
      the re-INVITEs of transactions that wait in their dialogs. */
  lemma UnfreedAtRest(s: System, id: nat)
    requires Good(s) && AtRest(s) && s.w.timers.lost == multiset{}
    ensures (id in s.received && id !in s.w.history.freed)
            <==> (id in s.w.history.displaced || exists t :: WaitsWith(s.w, t, id))
  {
    hide Inv, Covered, Balanced, EndedOnce, Routed, WaitsWith, Held, Ownership.Queued;
    if id in s.received && id !in s.w.history.freed && id !in s.w.history.displaced { UnfreedWaits(s, id); }
    if t :| WaitsWith(s.w, t, id) { WaitingUnfreed(s, t, id); }
    assert s.received[id] <= 1;
  }

  /** Transaction `t` is IDLE and holds the INVITE with address `id`. */
  ghost predicate WaitsWith(w: Worker, t: nat, id: nat) {
    t in w.txns && w.txns[t].state == TxnIdle && w.txns[t].message.Some?
    && w.txns[t].message.value.id == id && w.txns[t].message.value.req.kind == INVITE
  }

  lemma RestingTransaction(s: System, t: nat)
    requires Good(s) && AtRest(s) && s.w.timers.lost == multiset{} && t in s.w.txnOrder
    ensures t in s.w.txns && s.w.txns[t].state == TxnIdle && s.w.txns[t].ack.None?
    ensures s.w.txns[t].message.Some? && s.w.txns[t].message.value.req.kind == INVITE
  {
    hide Covered, Balanced, EndedOnce, Conserved, Routed;
    assert t in s.w.txns;
    assert TxnCoupled(s.w.txns[t]);
    hide Inv;
    RestingPlace(s);
  }

  /** What is left is alive: no COMPLETED or TERMINATED transaction, no TERMINATED dialog or call. */
  ghost predicate OnlyLiveLeft(w: Worker) {
    && (forall t :: t in w.txns ==> !Settled(w.txns[t].state))
    && (forall d :: d in w.dialogs ==> w.dialogs[d].state == DialogConfirmed)
    && (forall c :: c in w.calls ==> w.calls[c].state == CallEstablished || w.calls[c].state == CallFailed)
  }

  lemma RestIsLive(s: System)
    requires Good(s) && AtRest(s) && s.w.timers.lost == multiset{}
    ensures OnlyLiveLeft(s.w)
  {
    hide Inv, Covered, Balanced, EndedOnce, Conserved;
    RestingPlace(s);
  }

  /** With no packets arriving, the worker and its timers take at most `Cost` steps from any reachable
      state; when none is left to take and nothing was lost, only what is alive is left. */
  lemma DrainFrom(s: System, steps: seq<Step>, last: System)
    requires Good(s) && IsRun(s, steps) && Arrivals(steps) == 0 && last == Run(s, steps)
    ensures Internal(steps) + Cost(last) <= Cost(s)
    ensures AtRest(last) <==> forall step: Step :: !step.Arrive? && !step.Tick? ==> !Enabled(last, step)
    ensures AtRest(last) && last.w.timers.lost == multiset{} ==> OnlyLiveLeft(last.w)
  {
    assert Inv(s.w);
    RunGood(s, steps);
    GoodGraph(last);
    hide Next, IsRun, Run, Cost, Internal, Arrivals, Enabled, AtRest, Good, Inv, Closed, BackLinks, TxnLinks, CallLinks,
         OnlyLiveLeft;
    RunIsPaidFor(s, steps);
    NotStuck(last);
    if AtRest(last) && last.w.timers.lost == multiset{} { RestIsLive(last); }
  }

  lemma GoodGraph(s: System)
    requires Good(s)
    ensures Inv(s.w) && Closed(s.w) && BackLinks(s.w) && CallLinks(s.w)
  {
    GraphClosed(s.w);
  }

  // ---------- deadlines over runs ----------

  /** A run in which timers fire on time and delete events are handled at once. */
  ghost predicate PunctualRun(c: Clocked, steps: seq<Step>)
    decreases |steps|
  {
    steps == [] ||
    (Allowed(c.s, steps[0]) && Punctual(c.s, steps[0]) && PunctualRun(ClockedNext(c, steps[0]), steps[1..]))
  }

  ghost function ClockedRun(c: Clocked, steps: seq<Step>): Clocked
    requires PunctualRun(c, steps)
    decreases |steps|
  {
    if steps == [] then c else ClockedRun(ClockedNext(c, steps[0]), steps[1..])
  }

  lemma {:induction false} RunTimely(c: Clocked, steps: seq<Step>)
    requires Inv(c.s.w) && Timely(c) && PunctualRun(c, steps)
    ensures Inv(ClockedRun(c, steps).s.w) && Timely(ClockedRun(c, steps))
    decreases |steps|
  {
    hide Next, Inv, Timely, Punctual, Closed, BackLinks, TxnLinks, CallLinks, Admissible;
    if steps != [] {
      StepKeepsInv(c.s, steps[0]);
      StepTimely(c, steps[0]);
      RunTimely(ClockedNext(c, steps[0]), steps[1..]);
    }
  }

  function ClockedStart(k: nat): Clocked {
    Clocked(Start(k), map[], map[])
  }

  lemma StartTimely(k: nat)
    ensures Timely(ClockedStart(k)) && Inv(ClockedStart(k).s.w)
  {
    NothingYet(Idle(k));
    hide Inv;
  }

  /** Over every punctual run from the start, a transaction is gone 5000 ms after it entered TERMINATED and
      10000 ms after it entered COMPLETED. */
  lemma DeadlinesHold(k: nat, steps: seq<Step>, t: nat)
    requires PunctualRun(ClockedStart(k), steps)
    ensures var c := ClockedRun(ClockedStart(k), steps);
            t in c.s.w.txns ==>
              && (c.s.w.txns[t].state == TxnTerminated ==>
                    t in c.terminatedAt && c.s.w.timers.now <= c.terminatedAt[t] + 5000)
              && (c.s.w.txns[t].state == TxnCompleted ==> t in c.completedAt)
              && (t in c.completedAt ==> c.s.w.timers.now <= c.completedAt[t] + 10000)
  {
    hide PunctualRun, ClockedRun, Timely, Inv, Good;
    StartTimely(k);
    RunTimely(ClockedStart(k), steps);
    var c := ClockedRun(ClockedStart(k), steps);
    if t in c.s.w.txns { RemovedInTime(c, t); }
  }
}
