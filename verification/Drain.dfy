/** Without new packets the worker comes to rest, and at rest only live dialogs are left. */
module Drain {
  import opened SipTypes
  import opened WorkerModel
  import opened Invariants
  import opened Deletion
  import opened Progress
  import opened WorkerSystem
  import opened Tokens
  import SipText

  /** What a transaction may still cost: a timer, its firing, and the delete event. */
  function TxnCost(txns: map<nat, Txn>, t: nat): nat {
    if t in txns && txns[t].state != TxnTerminated then 3 else 0
  }

  function TxnsCost(order: seq<nat>, txns: map<nat, Txn>): nat {
    if order == [] then 0 else TxnCost(txns, order[0]) + TxnsCost(order[1..], txns)
  }

  function PacketCost(p: Packet): nat {
    if p.DeleteEvent? then 1 else 7
  }

  function QueueCost(queue: seq<Packet>): nat {
    if queue == [] then 0 else PacketCost(queue[0]) + QueueCost(queue[1..])
  }

  function WorkerCost(w: Worker): nat {
    TxnsCost(w.txnOrder, w.txns) + 3 * |w.timers.waitAck| + 2 * |w.timers.deleting|
  }

  /** A bound on the steps that can still be taken without new packets. */
  function Cost(s: System): nat {
    WorkerCost(s.w) + QueueCost(s.queue)
  }

  lemma {:induction false} SameCost(order: seq<nat>, txns: map<nat, Txn>, txns': map<nat, Txn>)
    requires forall t :: t in order ==> TxnCost(txns', t) == TxnCost(txns, t)
    ensures TxnsCost(order, txns') == TxnsCost(order, txns)
  {
    if order != [] {
      assert order[0] in order;
      SameCost(order[1..], txns, txns');
    }
  }

  lemma {:induction false} UnlinkCost(order: seq<nat>, txns: map<nat, Txn>, t: nat)
    requires t in order
    ensures TxnsCost(order, txns) == TxnCost(txns, t) + TxnsCost(Unlink(order, t), txns)
  {
    hide Unlink, TxnCost;
    UnlinkCons(order, t);
    if order[0] != t {
      UnlinkCost(order[1..], txns, t);
      assert Unlink(order, t)[1..] == Unlink(order[1..], t);
    }
  }

  /** Only the cost of `t` differs. */
  lemma ChangeCost(order: seq<nat>, txns: map<nat, Txn>, txns': map<nat, Txn>, t: nat)
    requires Distinct(order) && t in order
    requires forall u :: u in order && u != t ==> TxnCost(txns', u) == TxnCost(txns, u)
    ensures TxnsCost(order, txns') + TxnCost(txns, t) == TxnsCost(order, txns) + TxnCost(txns', t)
  {
    UnlinkCost(order, txns, t);
    UnlinkCost(order, txns', t);
    UnlinkDistinct(order, t);
    SameCost(Unlink(order, t), txns, txns');
  }

  /** Becoming TERMINATED pays for its own delete event; becoming COMPLETED costs one more timer. */
  lemma MoveCost(w: Worker, r: Worker, t: nat, o: Oracle)
    requires Distinct(w.txnOrder) && t in w.txnOrder && MovesOne(w, r, t, o)
    ensures WorkerCost(r) <= WorkerCost(w) + (if r.txns[t].state == TxnTerminated then 0 else 3)
  {
    ChangeCost(w.txnOrder, w.txns, r.txns, t);
  }

  lemma {:induction false} DetachCost(w: Worker, d: nat, i: nat, o: Oracle)
    requires SlotsLive(w, d) && i <= TXN_SLOTS
    requires Distinct(w.txnOrder) && (forall t :: t in w.txns ==> t in w.txnOrder)
    ensures WorkerCost(DetachFrom(w, d, i, o)) <= WorkerCost(w)
    decreases TXN_SLOTS - i
  {
    if i < TXN_SLOTS {
      var v := DetachSlot(w, d, i, o);
      if w.dialogs[d].slots[i].Some? {
        DetachSlotMoves(w, d, i, o);
        MoveCost(w, v, w.dialogs[d].slots[i].value, o);
      }
      DetachCost(v, d, i + 1, o);
    }
  }

  lemma DeleteDialogCost(w: Worker, d: nat, o: Oracle)
    requires SlotsLive(w, d)
    requires w.dialogs[d].call.Some? ==> w.dialogs[d].call.value in w.calls
    requires Distinct(w.txnOrder) && (forall t :: t in w.txns ==> t in w.txnOrder)
    ensures WorkerCost(DeleteDialog(w, d, o)) <= WorkerCost(w)
  {
    var v := w.(dialogOrder := Unlink(w.dialogOrder, d));
    DetachCost(v, d, 0, o);
  }

  lemma DropCost(w: Worker, d: nat, o: Oracle)
    requires SlotsLive(w, d)
    requires w.dialogs[d].call.Some? ==>
               var c := w.dialogs[d].call.value;
               CallSlotsLive(w, c) && Once(w.calls[c].slots)
    requires Distinct(w.txnOrder) && (forall t :: t in w.txns ==> t in w.txnOrder)
    ensures WorkerCost(DropDialog(w, d, o)) <= WorkerCost(w)
  {
    DeleteDialogCost(w, d, o);
    assert SameTxns(DeleteDialog(w, d, o), DropDialog(w, d, o));
  }

  lemma DeleteTxnCost(w: Worker, t: nat)
    requires Inv(w) && t in w.txns
    ensures WorkerCost(DeleteTxn(w, t)) <= WorkerCost(w)
  {
    DeleteTxnEffect(w, t);
    UnlinkCost(w.txnOrder, w.txns, t);
    UnlinkDistinct(w.txnOrder, t);
    SameCost(Unlink(w.txnOrder, t), w.txns, w.txns - {t});
  }

  lemma DeleteFoundCost(w: Worker, t: nat, o: Oracle)
    requires Inv(w) && Closed(w) && t in w.txns
    ensures WorkerCost(DeleteFound(w, t, o)) <= WorkerCost(w)
  {
    var v := DeleteTxn(w, t);
    DeleteTxnCost(w, t);
    DeleteTxnKeeps(w, t);
    var link := w.txns[t].dialog;
    if link.Some? && v.dialogs[link.value].state == DialogTerminated { DropCost(v, link.value, o); }
  }

  lemma DeleteCost(w: Worker, branch: Ident, o: Oracle)
    requires Inv(w) && Closed(w)
    ensures WorkerCost(DeleteTransaction(w, branch, o)) <= WorkerCost(w)
  {
    var found := FindTxnOf(w, branch);
    if found.Some? { DeleteFoundCost(w, found.value, o); }
  }

  lemma AdoptTxnCost(w: Worker, m: Message)
    requires w.nextId !in w.txns
    ensures var v := Adopt(w, m);
            TxnCost(v.txns, w.nextId) == 3 && forall t :: t in w.txns ==> TxnCost(v.txns, t) == TxnCost(w.txns, t)
  {
  }

  lemma AdoptCost(w: Worker, m: Message)
    requires Lists(w)
    ensures var v := Adopt(w, m);
            WorkerCost(v) == WorkerCost(w) + 3 && Distinct(v.txnOrder) && w.nextId in v.txnOrder
  {
    hide TxnCost, Distinct;
    var v := Adopt(w, m);
    AdoptLists(w, m);
    AdoptTxnCost(w, m);
    SameCost(w.txnOrder, w.txns, v.txns);
    assert v.txnOrder[0] == w.nextId;
    assert v.txnOrder[1..] == w.txnOrder;
  }

  lemma SetAckCost(w: Worker, t: nat, m: Message)
    requires Lists(w) && t in w.txns
    ensures WorkerCost(SetAck(w, t, m)) == WorkerCost(w)
  {
    SameCost(w.txnOrder, w.txns, SetAck(w, t, m).txns);
  }

  lemma ServedCost(w: Worker, m: Message, o: Oracle)
    requires Inv(w) && Closed(w) && Served(w, m, o).Some?
    ensures var v := Served(w, m, o).value.0;
            WorkerCost(v) <= WorkerCost(w) + 3 && Distinct(v.txnOrder) && Served(w, m, o).value.1 in v.txnOrder
  {
    match FindTxnOf(w, m.req.branch)
    case None => AdoptCost(w, m);
    case Some(t) => SetAckCost(w, t, m);
  }

  /** A request costs at most two timers and a delete event more than it settles. */
  lemma RequestCost(w: Worker, m: Message, o: Oracle)
    requires Inv(w) && Closed(w)
    ensures WorkerCost(ProcessRequest(w, m, o)) <= WorkerCost(w) + 6
  {
    hide ProcessRequest, WorkerCost, Coupled, Branches, Sizes, TxnLinks, CallLinks, Closed, MovesOne;
    if Served(w, m, o).Some? {
      ServedCost(w, m, o);
      ServedMoves(w, m, o);
      MoveCost(Served(w, m, o).value.0, ProcessRequest(w, m, o), Served(w, m, o).value.1, o);
    } else {
      UnservedStays(w, m, o);
      SameWorkerCost(w, ProcessRequest(w, m, o));
    }
  }

  lemma SameWorkerCost(w: Worker, r: Worker)
    requires r.txnOrder == w.txnOrder && r.timers == w.timers
    requires forall t :: t in w.txnOrder ==> TxnCost(r.txns, t) == TxnCost(w.txns, t)
    ensures WorkerCost(r) == WorkerCost(w)
  {
    SameCost(w.txnOrder, w.txns, r.txns);
  }

  // ---------- every step but arrival and time is paid for ----------

  lemma {:induction false} QueueCostAppend(queue: seq<Packet>, p: Packet)
    ensures QueueCost(queue + [p]) == QueueCost(queue) + PacketCost(p)
  {
    if queue == [] {
      assert queue + [p] == [p];
    } else {
      QueueCostAppend(queue[1..], p);
      assert (queue + [p])[1..] == queue[1..] + [p];
    }
  }

  lemma WorkCost(s: System, o: Oracle)
    requires Inv(s.w) && Allowed(s, Work(o))
    ensures Cost(WorkOn(s, o)) < Cost(s)
  {
    hide Inv, WorkerCost, ProcessRequest, DeleteTransaction, Admissible, Closed, BackLinks, TxnLinks, CallLinks, SipText.Parse;
    if s.queue[0].DeleteEvent? { DeleteCost(s.w, s.queue[0].branch, o); }
    else if Incoming(s).Some? { RequestCost(s.w, Incoming(s).value, o); }
    else { SameWorkerCost(s.w, WorkOn(s, o).w); }
  }

  lemma DeleteExpiredCost(s: System, x: Timer)
    requires x in s.w.timers.deleting
    ensures Cost(DeleteExpired(s, x)) < Cost(s)
  {
    QueueCostAppend(s.queue, DeleteEvent(x.branch));
  }

  lemma AckExpiredCost(w: Worker, x: Timer, ok: bool)
    requires x in w.timers.waitAck
    ensures WorkerCost(SetTimers(w, AckExpired(w.timers, x, ok))) < WorkerCost(w)
  {
  }

  lemma StepCost(s: System, step: Step)
    requires Inv(s.w) && Allowed(s, step)
    ensures match step
            case Arrive(_) => Cost(Next(s, step)) <= Cost(s) + 7
            case Tick(_) => Cost(Next(s, step)) == Cost(s)
            case _ => Cost(Next(s, step)) < Cost(s)
  {
    match step
    case Arrive(raw) => QueueCostAppend(s.queue, Sip(raw));
    case Work(o) => WorkCost(s, o);
    case FireAck(x, ok) => AckExpiredCost(s.w, x, ok);
    case FireDelete(x) => DeleteExpiredCost(s, x);
    case Tick(_) =>
  }

  function Arrivals(steps: seq<Step>): nat {
    if steps == [] then 0 else (if steps[0].Arrive? then 1 else 0) + Arrivals(steps[1..])
  }

  /** The steps the worker and the timers take. */
  function Internal(steps: seq<Step>): nat {
    if steps == [] then 0 else (if steps[0].Arrive? || steps[0].Tick? then 0 else 1) + Internal(steps[1..])
  }

  /** Over any run, the worker and its timers take at most seven steps a packet, plus what was owed
      at the start; so with no packets arriving, every run is finite. */
  lemma {:induction false} RunIsPaidFor(s: System, steps: seq<Step>)
    requires Inv(s.w) && IsRun(s, steps)
    ensures Internal(steps) + Cost(Run(s, steps)) <= Cost(s) + 7 * Arrivals(steps)
    decreases |steps|
  {
    hide Inv, Next, Closed, BackLinks, TxnLinks, CallLinks, Admissible, Cost;
    if steps != [] {
      StepCost(s, steps[0]);
      StepKeepsInv(s, steps[0]);
      RunIsPaidFor(Next(s, steps[0]), steps[1..]);
    }
  }

  /** Nothing is left to do: no timer runs and the queue is empty. */
  ghost predicate AtRest(s: System) {
    s.queue == [] && s.w.timers.waitAck == multiset{} && s.w.timers.deleting == multiset{}
  }

  /** Until the worker is at rest, some step other than arrival and time can be taken. */
  lemma NotStuck(s: System)
    requires Closed(s.w) && BackLinks(s.w) && CallLinks(s.w) && Inv(s.w)
    ensures AtRest(s) <==> forall step: Step :: !step.Arrive? && !step.Tick? ==> !Enabled(s, step)
  {
    if !AtRest(s) {
      if s.queue != [] {
        var o := Oracle(false, false, false, false, false, false, false, false, "", {});
        assert Enabled(s, Work(o));
      } else if s.w.timers.waitAck != multiset{} {
        var x :| x in s.w.timers.waitAck;
        assert Enabled(s, FireAck(x, true));
      } else {
        var x :| x in s.w.timers.deleting;
        assert Enabled(s, FireDelete(x));
      }
    }
  }

  /** No call is orphaned while it still matters: an ESTABLISHED call has a CONFIRMED dialog, and a
      TERMINATED call a TERMINATED dialog that will take it along. */
  lemma DialogOfCall(w: Worker, c: nat) returns (d: nat)
    requires CallLinks(w) && Coupled(w) && c in w.calls && w.calls[c].state != CallFailed
    ensures d in w.dialogs && w.dialogs[d].call == Some(c)
    ensures w.dialogs[d].state == if w.calls[c].state == CallEstablished then DialogConfirmed else DialogTerminated
  {
    assert CallCoupled(w.calls[c]);
    var i :| 0 <= i < |w.calls[c].slots| && w.calls[c].slots[i].Some?;
    d := w.calls[c].slots[i].value;
    assert DialogCoupled(w.dialogs[d], w.calls);
  }

  /** What survives at rest, if no delete event was lost: re-INVITEs waiting in CONFIRMED dialogs whose
      calls are ESTABLISHED, and FAILED calls. */
  lemma RestingPlace(s: System)
    requires Inv(s.w) && Covered(s) && AtRest(s) && s.w.timers.lost == multiset{}
    ensures forall t :: t in s.w.txns ==>
              && s.w.txns[t].state == TxnIdle && s.w.txns[t].message.value.req.kind == INVITE
              && s.w.txns[t].dialog.Some? && s.w.txns[t].dialog.value in s.w.dialogs
    ensures forall d :: d in s.w.dialogs ==>
              && s.w.dialogs[d].state == DialogConfirmed && s.w.dialogs[d].call.Some?
              && s.w.dialogs[d].call.value in s.w.calls
              && s.w.calls[s.w.dialogs[d].call.value].state == CallEstablished
    ensures forall c :: c in s.w.calls ==> s.w.calls[c].state == CallEstablished || s.w.calls[c].state == CallFailed
  {
    var w := s.w;
    forall t | t in w.txns ensures w.txns[t].state == TxnIdle {
      assert !Settled(w.txns[t].state);
      assert TxnCoupled(w.txns[t]);
    }
    forall d | d in w.dialogs ensures w.dialogs[d].state == DialogConfirmed {
      assert DialogHeld(w.dialogs[d], w.txns);
    }
    forall c | c in w.calls ensures w.calls[c].state != CallTerminated {
      if w.calls[c].state == CallTerminated { var d := DialogOfCall(w, c); }
    }
  }

  /** With losses, whatever is stuck is stuck because its own delete event was lost. */
  lemma StuckOnlyByLoss(s: System, t: nat)
    requires Inv(s.w) && Covered(s) && AtRest(s) && t in s.w.txns && Settled(s.w.txns[t].state)
    ensures s.w.txns[t].branch in s.w.timers.lost
  {
  }
}
