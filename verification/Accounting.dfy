/** Bookkeeping of delete events: none is duplicated or forgotten, and a transaction makes at most two. */
module Accounting {
  import opened SipTypes
  import opened WorkerModel
  import opened Invariants
  import opened Deletion
  import opened WorkerSystem
  import opened Tokens
  import SipText

  /** The branch of a delete event; other packets have none. */
  function EventOf(p: Packet): multiset<Ident> {
    if p.DeleteEvent? then multiset{p.branch} else multiset{}
  }

  /** The branches of the delete events in a queue. */
  function Events(queue: seq<Packet>): multiset<Ident> {
    if queue == [] then multiset{} else EventOf(queue[0]) + Events(queue[1..])
  }

  /** Branch by branch: every delete event ever made is in a timer, lost, in the queue or handled. */
  ghost predicate Balanced(s: System) {
    s.w.timers.made == Kept(s.w.timers) + Events(s.queue) + s.handled
  }

  lemma ServedBooked(w: Worker, m: Message, o: Oracle)
    requires Closed(w) && Served(w, m, o).Some?
    ensures Booked(w, Served(w, m, o).value.0) && (Routed(w) ==> Routed(Served(w, m, o).value.0))
  {
    hide Kept, FindTxn, SlotsLive, CallSlotsLive, TimersTo, SameRequest, Bounded;
  }

  /** `r` keeps the books of `w`, and its events its queue. */
  ghost predicate InBooks(w: Worker, r: Worker) {
    Booked(w, r) && r.self == w.self && (Routed(w) ==> Routed(r))
  }

  lemma SameBooks(w: Worker, r: Worker)
    requires r.timers == w.timers && r.nextId == w.nextId && r.self == w.self
    requires forall t :: t in r.txns ==>
               t in w.txns && r.txns[t].state == w.txns[t].state && r.txns[t].queue == w.txns[t].queue
    ensures InBooks(w, r)
  {
    hide Kept, TimersTo;
  }

  lemma InBooksTrans(w: Worker, v: Worker, r: Worker)
    requires InBooks(w, v) && InBooks(v, r)
    ensures InBooks(w, r)
  {
    hide Booked, Routed;
    BookedTrans(w, v, r);
  }

  lemma AdvancesInBooks(w: Worker, r: Worker, o: Oracle)
    requires Advances(w, r, o)
    ensures InBooks(w, r)
  {
    hide Booked, Routed;
  }

  lemma RequestBooked(w: Worker, m: Message, o: Oracle)
    requires Consistent(w) && Closed(w)
    ensures InBooks(w, ProcessRequest(w, m, o))
  {
    hide Consistent, Closed, Booked, Routed, Advances, ProcessRequest;
    if Served(w, m, o).Some? {
      var v := Served(w, m, o).value.0;
      ServedBooked(w, m, o);
      ServedAdvances(w, m, o);
      AdvancesInBooks(v, ProcessRequest(w, m, o), o);
      InBooksTrans(w, v, ProcessRequest(w, m, o));
    } else {
      UnservedStays(w, m, o);
      SameBooks(w, ProcessRequest(w, m, o));
    }
  }

  lemma DeleteTxnBooked(w: Worker, v: Worker, t: nat)
    requires TxnGone(w, v, t)
    ensures InBooks(w, v)
  {
    SameBooks(w, v);
  }

  lemma DeleteBooked(w: Worker, branch: Ident, o: Oracle)
    requires Consistent(w) && Closed(w) && BackLinks(w) && CallLinks(w)
    ensures InBooks(w, DeleteTransaction(w, branch, o))
  {
    hide Closed, InBooks, Advances, DeleteFound, DeleteTxn, Coupled, TxnGone, Lists;
    var found := FindTxnOf(w, branch);
    if found.Some? {
      var v, r := DeleteTxn(w, found.value), DeleteFound(w, found.value, o);
      DeleteTxnEffect(w, found.value);
      DeleteTxnBooked(w, v, found.value);
      DeleteFoundAdvances(w, found.value, o);
      AdvancesInBooks(v, r, o);
      InBooksTrans(w, v, r);
    } else {
      SameBooks(w, w);
    }
  }

  lemma {:induction false} EventsAppend(queue: seq<Packet>, p: Packet)
    ensures Events(queue + [p]) == Events(queue) + EventOf(p)
  {
    hide EventOf;
    if queue == [] {
      assert queue + [p] == [p] && [p][1..] == [];
      assert Events([p]) == EventOf(p) + Events([]);
    } else {
      EventsAppend(queue[1..], p);
      assert (queue + [p])[1..] == queue[1..] + [p] && (queue + [p])[0] == queue[0];
    }
  }

  lemma Rebalance(a: multiset<Ident>, ka: multiset<Ident>, b: multiset<Ident>, kb: multiset<Ident>, rest: multiset<Ident>)
    requires b + ka == a + kb && a == ka + rest
    ensures b == kb + rest
  {
    forall x ensures b[x] == (kb + rest)[x] {
      assert (b + ka)[x] == (a + kb)[x];
      assert a[x] == (ka + rest)[x];
    }
  }

  lemma WorkInBooks(s: System, o: Oracle)
    requires Consistent(s.w) && Allowed(s, Work(o))
    ensures InBooks(s.w, WorkOn(s, o).w)
  {
    hide Consistent, InBooks, ProcessRequest, DeleteTransaction, Admissible, Closed, BackLinks, TxnLinks, CallLinks, SipText.Parse;
    if s.queue[0].DeleteEvent? { DeleteBooked(s.w, s.queue[0].branch, o); }
    else if Incoming(s).Some? { RequestBooked(s.w, Incoming(s).value, o); }
    else { SameBooks(s.w, WorkOn(s, o).w); }
  }

  lemma WorkKeepsBooks(s: System, o: Oracle)
    requires Consistent(s.w) && Allowed(s, Work(o)) && Balanced(s) && AtMostTwo(s.w)
    ensures Balanced(WorkOn(s, o)) && AtMostTwo(WorkOn(s, o).w)
  {
    hide Consistent, Handle, AtMostTwo, Admissible, Closed, BackLinks, TxnLinks, CallLinks, SipText.Parse, Kept, Routed;
    WorkInBooks(s, o);
    var r := WorkOn(s, o);
    Rebalance(s.w.timers.made, Kept(s.w.timers), r.w.timers.made, Kept(r.w.timers), Events(s.queue) + s.handled);
  }

  lemma ArrivalKeepsBooks(s: System, raw: Raw)
    requires Balanced(s) && AtMostTwo(s.w)
    ensures Balanced(Arrival(s, raw)) && AtMostTwo(Arrival(s, raw).w)
  {
    hide Kept, Events;
    EventsAppend(s.queue, Sip(raw));
    assert Events(s.queue) + multiset{} == Events(s.queue);
  }

  /** An expired timer gives its branch away. */
  lemma ExpiredKept(tm: Timers, x: Timer)
    requires x in tm.deleting
    ensures Kept(tm) == Kept(tm.(deleting := tm.deleting - multiset{x})) + multiset{x.branch}
    ensures Kept(tm.(deleting := tm.deleting - multiset{x}, lost := tm.lost + multiset{x.branch})) == Kept(tm)
  {
    hide BranchesOf;
    WithoutTimer(tm.deleting, x);
  }

  /** ... or passes it on. */
  lemma AckExpiredKept(tm: Timers, x: Timer, ok: bool)
    requires x in tm.waitAck
    ensures Kept(AckExpired(tm, x, ok)) == Kept(tm)
  {
    hide BranchesOf;
    WithoutTimer(tm.waitAck, x);
    WithTimer(tm.deleting, Timer(x.branch, tm.now + DELETE_TIMEOUT, x.queue));
  }

  lemma DeleteExpiredKeepsBooks(s: System, x: Timer)
    requires x in s.w.timers.deleting && Balanced(s) && AtMostTwo(s.w)
    ensures Balanced(DeleteExpired(s, x)) && AtMostTwo(DeleteExpired(s, x).w)
  {
    hide Kept, Events;
    ExpiredKept(s.w.timers, x);
    var kept := Kept(s.w.timers.(deleting := s.w.timers.deleting - multiset{x}));
    EventsAppend(s.queue, DeleteEvent(x.branch));
    assert Kept(s.w.timers) + Events(s.queue) + s.handled
           == kept + (Events(s.queue) + multiset{x.branch}) + s.handled;
  }

  lemma AckExpiredKeepsBooks(s: System, x: Timer, ok: bool)
    requires x in s.w.timers.waitAck && Balanced(s) && AtMostTwo(s.w)
    ensures var r := s.(w := SetTimers(s.w, AckExpired(s.w.timers, x, ok))); Balanced(r) && AtMostTwo(r.w)
  {
    hide Kept, Events;
    AckExpiredKept(s.w.timers, x, ok);
  }

  /** Every step keeps the books. */
  lemma StepKeepsBooks(s: System, step: Step)
    requires Inv(s.w) && Allowed(s, step) && Balanced(s) && AtMostTwo(s.w)
    ensures Balanced(Next(s, step)) && AtMostTwo(Next(s, step).w)
  {
    hide Consistent, Handle, Admissible, Closed, BackLinks, TxnLinks, CallLinks, BranchesOf, SipText.Parse;
    match step
    case Arrive(raw) => ArrivalKeepsBooks(s, raw);
    case Work(o) => WorkKeepsBooks(s, o);
    case FireAck(x, ok) => AckExpiredKeepsBooks(s, x, ok);
    case FireDelete(x) => DeleteExpiredKeepsBooks(s, x);
    case Tick(_) =>
  }

  lemma AckExpiredTo(tm: Timers, x: Timer, ok: bool, queue: Option<nat>)
    requires x in tm.waitAck && TimersTo(tm, queue)
    ensures TimersTo(AckExpired(tm, x, ok), queue)
  {
  }

  lemma ExpiredTo(tm: Timers, x: Timer, queue: Option<nat>)
    requires x in tm.deleting && TimersTo(tm, queue)
    ensures TimersTo(tm.(deleting := tm.deleting - multiset{x}), queue)
    ensures TimersTo(tm.(deleting := tm.deleting - multiset{x}, lost := tm.lost + multiset{x.branch}), queue)
  {
  }

  lemma LaterTo(tm: Timers, ms: nat, queue: Option<nat>)
    requires TimersTo(tm, queue)
    ensures TimersTo(Later(tm, ms), queue)
  {
  }

  /** Every transaction and timer of a worker keeps naming the worker's own queue. */
  lemma StepKeepsRouted(s: System, step: Step)
    requires Consistent(s.w) && Allowed(s, step) && Routed(s.w)
    ensures Routed(Next(s, step).w) && Next(s, step).w.self == s.w.self
  {
    hide Consistent, Handle, Admissible, Closed, BackLinks, TxnLinks, CallLinks, SipText.Parse, Booked, TimersTo, AckExpired;
    match step
    case Work(o) => WorkInBooks(s, o);
    case FireAck(x, ok) => AckExpiredTo(s.w.timers, x, ok, Some(s.w.self));
    case FireDelete(x) => ExpiredTo(s.w.timers, x, Some(s.w.self));
    case Tick(ms) => LaterTo(s.w.timers, ms, Some(s.w.self));
    case Arrive(_) =>
  }
}
