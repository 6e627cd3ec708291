/** Messages: each one received is in exactly one place until it is freed, once. */
module Ownership {
  import opened SipTypes
  import opened WorkerModel
  import opened Invariants
  import opened Deletion
  import opened WorkerSystem
  import opened Tokens

  /** The messages a transaction holds. */
  function Holds(txns: map<nat, Txn>, t: nat): multiset<nat> {
    if t in txns then IdOf(txns[t].message) + IdOf(txns[t].ack) else multiset{}
  }

  function Held(order: seq<nat>, txns: map<nat, Txn>): multiset<nat> {
    if order == [] then multiset{} else Holds(txns, order[0]) + Held(order[1..], txns)
  }

  function Queued(queue: seq<Packet>): multiset<nat> {
    if queue == [] then multiset{}
    else (if queue[0].Sip? then multiset{queue[0].raw.id} else multiset{}) + Queued(queue[1..])
  }

  /** The messages that have reached the worker and are accounted for there. */
  function Known(w: Worker): multiset<nat> {
    w.history.freed + w.history.displaced + Held(w.txnOrder, w.txns)
  }

  /** Received once, and then queued, held by one field of one transaction, displaced by a later ACK, or freed. */
  ghost predicate Conserved(s: System) {
    && s.received == Known(s.w) + Queued(s.queue)
    && (forall id :: s.received[id] <= 1)
  }

  lemma {:induction false} SameHeld(order: seq<nat>, txns: map<nat, Txn>, txns': map<nat, Txn>)
    requires forall t :: t in order ==> Holds(txns', t) == Holds(txns, t)
    ensures Held(order, txns') == Held(order, txns)
  {
    if order != [] {
      assert order[0] in order;
      SameHeld(order[1..], txns, txns');
    }
  }

  lemma {:induction false} UnlinkHeld(order: seq<nat>, txns: map<nat, Txn>, t: nat)
    requires t in order
    ensures Held(order, txns) == Holds(txns, t) + Held(Unlink(order, t), txns)
  {
    hide Unlink, Holds;
    UnlinkCons(order, t);
    if order[0] != t {
      UnlinkHeld(order[1..], txns, t);
      assert Unlink(order, t)[1..] == Unlink(order[1..], t);
    }
  }

  lemma AdvancesKnown(w: Worker, r: Worker, o: Oracle)
    requires Advances(w, r, o)
    ensures Known(r) == Known(w)
  {
    SameHeld(w.txnOrder, w.txns, r.txns);
  }

  lemma AdoptKnown(w: Worker, m: Message)
    requires Lists(w)
    ensures Known(Adopt(w, m)) == Known(w) + multiset{m.id}
  {
    var v := Adopt(w, m);
    SameHeld(w.txnOrder, w.txns, v.txns);
    assert v.txnOrder[1..] == w.txnOrder;
  }

  lemma SetAckKnown(w: Worker, t: nat, m: Message)
    requires Lists(w) && t in w.txns
    ensures Known(SetAck(w, t, m)) == Known(w) + multiset{m.id}
  {
    var v := SetAck(w, t, m);
    UnlinkHeld(w.txnOrder, w.txns, t);
    UnlinkHeld(w.txnOrder, v.txns, t);
    UnlinkDistinct(w.txnOrder, t);
    SameHeld(Unlink(w.txnOrder, t), w.txns, v.txns);
  }

  lemma ServedKnown(w: Worker, m: Message, o: Oracle)
    requires Lists(w) && Closed(w) && Served(w, m, o).Some?
    ensures Known(Served(w, m, o).value.0) == Known(w) + multiset{m.id}
  {
    match FindTxnOf(w, m.req.branch)
    case None => AdoptKnown(w, m);
    case Some(t) => SetAckKnown(w, t, m);
  }

  lemma UnservedKnown(w: Worker, m: Message, o: Oracle)
    requires Closed(w) && Served(w, m, o).None?
    ensures Known(ProcessRequest(w, m, o)) == Known(w) + multiset{m.id}
  {
    UnservedStays(w, m, o);
    SameHeld(w.txnOrder, w.txns, ProcessRequest(w, m, o).txns);
  }

  lemma RequestKnown(w: Worker, m: Message, o: Oracle)
    requires Consistent(w) && Closed(w)
    ensures Known(ProcessRequest(w, m, o)) == Known(w) + multiset{m.id}
  {
    if Served(w, m, o).Some? {
      ServedKnown(w, m, o);
      ServedAdvances(w, m, o);
      AdvancesKnown(Served(w, m, o).value.0, ProcessRequest(w, m, o), o);
    } else {
      UnservedKnown(w, m, o);
    }
  }

  lemma DeleteTxnKnown(w: Worker, t: nat)
    requires Lists(w) && TxnLinks(w) && t in w.txns
    ensures Known(DeleteTxn(w, t)) == Known(w)
  {
    DeleteTxnEffect(w, t);
    UnlinkHeld(w.txnOrder, w.txns, t);
    UnlinkDistinct(w.txnOrder, t);
    SameHeld(Unlink(w.txnOrder, t), w.txns, w.txns - {t});
  }

  lemma DeleteKnown(w: Worker, branch: Ident, o: Oracle)
    requires Consistent(w) && Closed(w)
    ensures Known(DeleteTransaction(w, branch, o)) == Known(w)
  {
    var found := FindTxnOf(w, branch);
    if found.Some? {
      DeleteTxnKnown(w, found.value);
      DeleteFoundAdvances(w, found.value, o);
      AdvancesKnown(DeleteTxn(w, found.value), DeleteFound(w, found.value, o), o);
    }
  }

  lemma {:induction false} QueuedAppend(queue: seq<Packet>, p: Packet)
    ensures Queued(queue + [p]) == Queued(queue) + (if p.Sip? then multiset{p.raw.id} else multiset{})
  {
    if queue == [] {
      assert queue + [p] == [p];
    } else {
      QueuedAppend(queue[1..], p);
      assert (queue + [p])[1..] == queue[1..] + [p];
    }
  }

  lemma WorkKnown(s: System, o: Oracle)
    requires Inv(s.w) && Allowed(s, Work(o))
    ensures Known(WorkOn(s, o).w) == Known(s.w) + (if s.queue[0].Sip? then multiset{s.queue[0].raw.id} else multiset{})
  {
    hide ProcessRequest, DeleteTransaction, Consistent, Admissible;
    if s.queue[0].DeleteEvent? { DeleteKnown(s.w, s.queue[0].branch, o); }
    else if Incoming(s).Some? { RequestKnown(s.w, Incoming(s).value, o); }
  }

  lemma ArrivalConserved(s: System, raw: Raw)
    requires Conserved(s) && raw.id !in s.received
    ensures Conserved(Arrival(s, raw))
  {
    hide Held;
    QueuedAppend(s.queue, Sip(raw));
  }

  lemma DeleteExpiredConserved(s: System, x: Timer)
    requires Conserved(s) && x in s.w.timers.deleting
    ensures Conserved(DeleteExpired(s, x))
  {
    QueuedAppend(s.queue, DeleteEvent(x.branch));
  }

  lemma WorkConserved(s: System, o: Oracle)
    requires Inv(s.w) && Allowed(s, Work(o)) && Conserved(s)
    ensures Conserved(WorkOn(s, o))
  {
    WorkKnown(s, o);
  }

  /** No step loses, copies or frees twice a message. */
  lemma StepKeepsConserved(s: System, step: Step)
    requires Inv(s.w) && Allowed(s, step) && Conserved(s)
    ensures Conserved(Next(s, step))
  {
    match step
    case Arrive(raw) => ArrivalConserved(s, raw);
    case Work(o) => WorkConserved(s, o);
    case FireDelete(x) => DeleteExpiredConserved(s, x);
    case _ =>
  }

  /** What a live transaction refers to has not been freed, and nobody else refers to it. */
  lemma HeldOnce(s: System, t: nat, u: nat, id: nat)
    requires Inv(s.w) && Conserved(s) && t in s.w.txns && id in Holds(s.w.txns, t)
    ensures id !in s.w.history.freed && id !in s.w.history.displaced && id !in Queued(s.queue)
    ensures Holds(s.w.txns, t)[id] == 1
    ensures u in s.w.txns && u != t ==> id !in Holds(s.w.txns, u)
  {
    var order, txns := s.w.txnOrder, s.w.txns;
    UnlinkHeld(order, txns, t);
    assert s.received[id] <= 1;
    if u in txns && u != t {
      UnlinkDistinct(order, t);
      UnlinkHeld(Unlink(order, t), txns, u);
    }
  }
}
