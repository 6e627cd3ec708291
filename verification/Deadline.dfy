/** With punctual timers a transaction is gone 5 s after it was TERMINATED and 10 s after it was COMPLETED. */
module Deadline {
  import opened SipTypes
  import opened WorkerModel
  import opened Invariants
  import opened Deletion
  import opened WorkerSystem
  import opened Tokens
  import SipText

  /** A system with the times at which its live transactions entered COMPLETED and TERMINATED. */
  datatype Clocked = Clocked(s: System, completedAt: map<nat, nat>, terminatedAt: map<nat, nat>)

  /** Note the time of the transactions first seen in `state`. */
  function Note(at: map<nat, nat>, txns: map<nat, Txn>, state: TxnState, now: nat): map<nat, nat> {
    map t | t in txns && (t in at || txns[t].state == state) :: if t in at then at[t] else now
  }

  /** The system moved on to `r`. */
  function Renoted(c: Clocked, r: System): Clocked {
    Clocked(r, Note(c.completedAt, r.w.txns, TxnCompleted, r.w.timers.now),
            Note(c.terminatedAt, r.w.txns, TxnTerminated, r.w.timers.now))
  }

  function ClockedNext(c: Clocked, step: Step): Clocked
    requires Enabled(c.s, step) && Closed(c.s.w) && BackLinks(c.s.w) && CallLinks(c.s.w)
  {
    Renoted(c, Next(c.s, step))
  }

  /** Timers fire on time, delete events are handled before time passes, and nothing is lost. */
  ghost predicate Punctual(s: System, step: Step) {
    match step
    case Arrive(_) => true
    case Work(o) => o.lose == {}
    case FireAck(_, ok) => ok
    case FireDelete(_) => |s.queue| < QUEUE_CAPACITY
    case Tick(ms) =>
      && (forall x :: x in s.w.timers.waitAck ==> s.w.timers.now + ms <= x.deadline)
      && (forall x :: x in s.w.timers.deleting ==> s.w.timers.now + ms <= x.deadline)
      && (forall i :: 0 <= i < |s.queue| ==> s.queue[i].Sip?)
  }

  ghost predicate DueBy(timers: multiset<Timer>, branch: Ident, limit: nat) {
    exists x :: x in timers && x.branch == branch && x.deadline <= limit
  }

  /** The delete event for `branch` is handled by `limit`. */
  ghost predicate GoneBy(s: System, branch: Ident, limit: nat) {
    || DueBy(s.w.timers.deleting, branch, limit)
    || (DeleteEvent(branch) in s.queue && s.w.timers.now <= limit)
  }

  /** ... unless its ACK timer still runs, until `limit - 5000` at the latest. */
  ghost predicate GoneAfterAck(s: System, branch: Ident, limit: nat) {
    (limit >= DELETE_TIMEOUT && DueBy(s.w.timers.waitAck, branch, limit - DELETE_TIMEOUT)) || GoneBy(s, branch, limit)
  }

  /** Every settled transaction was noted. */
  ghost predicate Noted(c: Clocked) {
    var w := c.s.w;
    && c.completedAt.Keys <= w.txns.Keys && c.terminatedAt.Keys <= w.txns.Keys
    && (forall t :: t in w.txns && w.txns[t].state == TxnCompleted ==> t in c.completedAt)
    && (forall t :: t in w.txns && w.txns[t].state == TxnTerminated ==> t in c.terminatedAt)
  }

  ghost predicate CompletedInTime(c: Clocked) {
    forall t :: t in c.completedAt && t in c.s.w.txns ==>
      GoneAfterAck(c.s, c.s.w.txns[t].branch, c.completedAt[t] + WAIT_ACK_TIMEOUT + DELETE_TIMEOUT)
  }

  ghost predicate TerminatedInTime(c: Clocked) {
    forall t :: t in c.terminatedAt && t in c.s.w.txns ==>
      GoneBy(c.s, c.s.w.txns[t].branch, c.terminatedAt[t] + DELETE_TIMEOUT)
  }

  ghost predicate Timely(c: Clocked) {
    && NoneLate(c.s.w.timers) && c.s.w.timers.lost == multiset{}
    && Noted(c) && CompletedInTime(c) && TerminatedInTime(c)
  }

  /** The deadlines: whichever mix of requests, ACKs and stale events came before. */
  lemma RemovedInTime(c: Clocked, t: nat)
    requires Timely(c) && t in c.s.w.txns
    ensures c.s.w.txns[t].state == TxnTerminated ==>
              t in c.terminatedAt && c.s.w.timers.now <= c.terminatedAt[t] + 5000
    ensures c.s.w.txns[t].state == TxnCompleted ==> t in c.completedAt
    ensures t in c.completedAt ==> c.s.w.timers.now <= c.completedAt[t] + 10000
  {
    if t in c.terminatedAt { assert GoneBy(c.s, c.s.w.txns[t].branch, c.terminatedAt[t] + DELETE_TIMEOUT); }
    if t in c.completedAt {
      assert GoneAfterAck(c.s, c.s.w.txns[t].branch, c.completedAt[t] + WAIT_ACK_TIMEOUT + DELETE_TIMEOUT);
    }
  }

  lemma DueGrows(a: multiset<Timer>, b: multiset<Timer>, branch: Ident, limit: nat)
    requires a <= b && DueBy(a, branch, limit)
    ensures DueBy(b, branch, limit)
  {
    var x :| x in a && x.branch == branch && x.deadline <= limit;
    assert x in b;
  }

  lemma DueStays(a: multiset<Timer>, x: Timer, branch: Ident, limit: nat)
    requires DueBy(a, branch, limit) && x.branch != branch
    ensures DueBy(a - multiset{x}, branch, limit)
  {
    var y :| y in a && y.branch == branch && y.deadline <= limit;
    assert y in a - multiset{x};
  }

  /** Every surviving transaction keeps its branch, and each state entered started its timer. */
  ghost predicate Starts(w: Worker, r: Worker) {
    && Grows(w.timers, r.timers)
    && (forall u :: u in r.txns ==>
          if u in w.txns then
            r.txns[u].branch == w.txns[u].branch
            && (r.txns[u].state != w.txns[u].state ==> Scheduled(r.timers, r.txns[u]))
          else Scheduled(r.timers, r.txns[u]))
  }

  lemma AdvancesStarts(w: Worker, r: Worker, o: Oracle)
    requires Advances(w, r, o)
    ensures Starts(w, r)
  {
  }

  lemma ServedStarts(w: Worker, m: Message, o: Oracle, r: Worker)
    requires Lists(w) && Closed(w) && Served(w, m, o).Some? && Starts(Served(w, m, o).value.0, r)
    ensures Starts(w, r)
  {
    hide Grows, FindTxn, Distinct, SameRequest, SlotsLive, CallSlotsLive;
    ServedFresh(w, m, o, r);
  }

  /** A new transaction starts IDLE. */
  lemma ServedFresh(w: Worker, m: Message, o: Oracle, r: Worker)
    requires Closed(w) && Served(w, m, o).Some?
    ensures forall u :: u in Served(w, m, o).value.0.txns && u !in w.txns ==>
              Served(w, m, o).value.0.txns[u].state == TxnIdle
  {
  }

  lemma ServedTimers(w: Worker, m: Message, o: Oracle)
    requires Closed(w) && Served(w, m, o).Some?
    ensures Served(w, m, o).value.0.timers == w.timers
  {
  }

  lemma SameStarts(w: Worker, r: Worker)
    requires r.timers == w.timers
    requires forall t :: t in r.txns ==>
               t in w.txns && r.txns[t].state == w.txns[t].state && r.txns[t].branch == w.txns[t].branch
    ensures Starts(w, r)
  {
  }

  /** A worker step keeps losses and lateness out. */
  ghost predicate Prompt(w: Worker, r: Worker) {
    r.timers.lost == w.timers.lost && (NoneLate(w.timers) ==> NoneLate(r.timers))
  }

  lemma RequestStarts(w: Worker, m: Message, o: Oracle)
    requires Inv(w) && Closed(w) && o.lose == {}
    ensures Starts(w, ProcessRequest(w, m, o)) && Prompt(w, ProcessRequest(w, m, o))
  {
    hide Coupled, Branches, Sizes, Closed, ProcessRequest, Starts, NoneLate, Booked, Routed;
    if Served(w, m, o).Some? {
      ServedAdvances(w, m, o);
      AdvancesStarts(Served(w, m, o).value.0, ProcessRequest(w, m, o), o);
      ServedStarts(w, m, o, ProcessRequest(w, m, o));
      ServedTimers(w, m, o);
    } else {
      UnservedStays(w, m, o);
      SameStarts(w, ProcessRequest(w, m, o));
    }
  }

  lemma TxnGoneStarts(w: Worker, v: Worker, t: nat, r: Worker)
    requires t in w.txns && (w.txns[t].dialog.Some? ==> w.txns[t].dialog.value in w.dialogs)
    requires TxnGone(w, v, t) && r.txns.Keys == v.txns.Keys && Starts(v, r)
    ensures Starts(w, r)
  {
  }

  lemma DeleteStarts(w: Worker, branch: Ident, o: Oracle)
    requires Inv(w) && Closed(w) && o.lose == {}
    ensures Starts(w, DeleteTransaction(w, branch, o)) && Prompt(w, DeleteTransaction(w, branch, o))
  {
    var found := FindTxnOf(w, branch);
    if found.Some? {
      var v, r := DeleteTxn(w, found.value), DeleteFound(w, found.value, o);
      DeleteFoundAdvances(w, found.value, o);
      DeleteTxnEffect(w, found.value);
      AdvancesStarts(v, r, o);
      TxnGoneStarts(w, v, found.value, r);
    }
  }

  lemma SamePrompt(w: Worker, r: Worker)
    requires r.timers == w.timers
    ensures Prompt(w, r)
  {
  }

  lemma WorkStarts(s: System, o: Oracle)
    requires Inv(s.w) && Allowed(s, Work(o)) && o.lose == {}
    ensures Starts(s.w, WorkOn(s, o).w) && Prompt(s.w, WorkOn(s, o).w)
    ensures forall u :: u in WorkOn(s, o).w.txns && s.queue[0].DeleteEvent? ==>
              WorkOn(s, o).w.txns[u].branch != s.queue[0].branch
  {
    hide Consistent, Branches, Starts, Prompt, ProcessRequest, DeleteTransaction, Admissible, Closed, BackLinks, TxnLinks, CallLinks,
         SipText.Parse;
    if s.queue[0].DeleteEvent? {
      DeleteStarts(s.w, s.queue[0].branch, o);
      forall u | u in WorkOn(s, o).w.txns ensures u in s.w.txns && s.w.txns[u].branch != s.queue[0].branch {
        DeletedBranch(s.w, s.queue[0].branch, o, u);
      }
    } else if Incoming(s).Some? {
      RequestStarts(s.w, Incoming(s).value, o);
    } else {
      SameStarts(s.w, WorkOn(s, o).w);
      assert Prompt(s.w, WorkOn(s, o).w) by { SamePrompt(s.w, WorkOn(s, o).w); }
    }
  }

  /** A pending deletion outlives a packet that is not its own event. */
  lemma GoneByStays(s: System, r: System, branch: Ident, limit: nat)
    requires GoneBy(s, branch, limit) && s.queue != [] && r.queue == s.queue[1..] && s.queue[0] != DeleteEvent(branch)
    requires Grows(s.w.timers, r.w.timers)
    ensures GoneBy(r, branch, limit)
  {
    if DueBy(s.w.timers.deleting, branch, limit) { DueGrows(s.w.timers.deleting, r.w.timers.deleting, branch, limit); }
  }

  lemma GoneAfterAckStays(s: System, r: System, branch: Ident, limit: nat)
    requires GoneAfterAck(s, branch, limit) && s.queue != [] && r.queue == s.queue[1..]
    requires s.queue[0] != DeleteEvent(branch)
    requires Grows(s.w.timers, r.w.timers)
    ensures GoneAfterAck(r, branch, limit)
  {
    if GoneBy(s, branch, limit) { GoneByStays(s, r, branch, limit); }
    else { DueGrows(s.w.timers.waitAck, r.w.timers.waitAck, branch, limit - DELETE_TIMEOUT); }
  }

  /** `r` handled the front packet of `s`; a delete event leaves no transaction with its branch. */
  ghost predicate Handled(s: System, r: System) {
    && s.queue != [] && r.queue == s.queue[1..] && Starts(s.w, r.w) && Prompt(s.w, r.w)
    && (forall u :: u in r.w.txns && s.queue[0].DeleteEvent? ==> r.w.txns[u].branch != s.queue[0].branch)
  }

  lemma CompletedTimely(c: Clocked, r: System, t: nat)
    requires Timely(c) && Handled(c.s, r) && t in r.w.txns
    requires t in c.completedAt || r.w.txns[t].state == TxnCompleted
    ensures GoneAfterAck(r, r.w.txns[t].branch,
                         (if t in c.completedAt then c.completedAt[t] else r.w.timers.now) + WAIT_ACK_TIMEOUT + DELETE_TIMEOUT)
  {
    if t in c.completedAt {
      GoneAfterAckStays(c.s, r, r.w.txns[t].branch, c.completedAt[t] + WAIT_ACK_TIMEOUT + DELETE_TIMEOUT);
    } else {
      assert Timer(r.w.txns[t].branch, r.w.timers.now + WAIT_ACK_TIMEOUT, r.w.txns[t].queue) in r.w.timers.waitAck;
    }
  }

  lemma TerminatedTimely(c: Clocked, r: System, t: nat)
    requires Timely(c) && Handled(c.s, r) && t in r.w.txns
    requires t in c.terminatedAt || r.w.txns[t].state == TxnTerminated
    ensures GoneBy(r, r.w.txns[t].branch,
                   (if t in c.terminatedAt then c.terminatedAt[t] else r.w.timers.now) + DELETE_TIMEOUT)
  {
    if t in c.terminatedAt {
      GoneByStays(c.s, r, r.w.txns[t].branch, c.terminatedAt[t] + DELETE_TIMEOUT);
    } else {
      assert Timer(r.w.txns[t].branch, r.w.timers.now + DELETE_TIMEOUT, r.w.txns[t].queue) in r.w.timers.deleting;
    }
  }

  /** The packet just handled leaves every deadline standing and starts the new ones. */
  lemma HandledCompleted(c: Clocked, r: System)
    requires Timely(c) && Handled(c.s, r)
    ensures CompletedInTime(Renoted(c, r))
  {
    var c' := Renoted(c, r);
    forall t | t in c'.completedAt
      ensures GoneAfterAck(r, r.w.txns[t].branch, c'.completedAt[t] + WAIT_ACK_TIMEOUT + DELETE_TIMEOUT)
    {
      CompletedTimely(c, r, t);
    }
  }

  lemma HandledTerminated(c: Clocked, r: System)
    requires Timely(c) && Handled(c.s, r)
    ensures TerminatedInTime(Renoted(c, r))
  {
    var c' := Renoted(c, r);
    forall t | t in c'.terminatedAt ensures GoneBy(r, r.w.txns[t].branch, c'.terminatedAt[t] + DELETE_TIMEOUT) {
      TerminatedTimely(c, r, t);
    }
  }

  lemma HandledTimely(c: Clocked, r: System)
    requires Timely(c) && Handled(c.s, r)
    ensures Timely(Renoted(c, r))
  {
    HandledCompleted(c, r);
    HandledTerminated(c, r);
  }

  /** Without a change of transactions nothing new is noted. */
  lemma SameNotes(c: Clocked, r: System)
    requires Noted(c) && r.w.txns == c.s.w.txns
    ensures Renoted(c, r) == c.(s := r)
  {
  }

  /** More packets in the queue, or time that no timer and no event waited for. */
  lemma WaitTimely(c: Clocked, r: System)
    requires Timely(c) && r.w.txns == c.s.w.txns && r.w.timers == c.s.w.timers.(now := r.w.timers.now)
    requires c.s.queue <= r.queue && NoneLate(r.w.timers)
    requires r.w.timers.now == c.s.w.timers.now || forall i :: 0 <= i < |c.s.queue| ==> c.s.queue[i].Sip?
    ensures Timely(c.(s := r))
  {
    forall t | t in c.completedAt
      ensures GoneAfterAck(r, r.w.txns[t].branch, c.completedAt[t] + WAIT_ACK_TIMEOUT + DELETE_TIMEOUT)
    {
      assert GoneAfterAck(c.s, c.s.w.txns[t].branch, c.completedAt[t] + WAIT_ACK_TIMEOUT + DELETE_TIMEOUT);
    }
    forall t | t in c.terminatedAt ensures GoneBy(r, r.w.txns[t].branch, c.terminatedAt[t] + DELETE_TIMEOUT) {
      assert GoneBy(c.s, c.s.w.txns[t].branch, c.terminatedAt[t] + DELETE_TIMEOUT);
    }
  }

  lemma AckExpiredGone(s: System, x: Timer, branch: Ident, limit: nat)
    requires x in s.w.timers.waitAck && GoneAfterAck(s, branch, limit) && NoneLate(s.w.timers)
    requires s.w.timers.now <= x.deadline
    ensures GoneAfterAck(s.(w := SetTimers(s.w, AckExpired(s.w.timers, x, true))), branch, limit)
  {
    var r := s.(w := SetTimers(s.w, AckExpired(s.w.timers, x, true)));
    if DueBy(s.w.timers.deleting, branch, limit) {
      DueGrows(s.w.timers.deleting, r.w.timers.deleting, branch, limit);
    } else if limit >= DELETE_TIMEOUT && DueBy(s.w.timers.waitAck, branch, limit - DELETE_TIMEOUT) {
      var y :| y in s.w.timers.waitAck && y.branch == branch && y.deadline <= limit - DELETE_TIMEOUT;
      if y == x {
        assert Timer(branch, s.w.timers.now + DELETE_TIMEOUT, x.queue) in r.w.timers.deleting;
      } else {
        assert y in r.w.timers.waitAck;
      }
    }
  }

  lemma AckExpiredGoneBy(s: System, x: Timer, branch: Ident, limit: nat)
    requires x in s.w.timers.waitAck && GoneBy(s, branch, limit)
    ensures GoneBy(s.(w := SetTimers(s.w, AckExpired(s.w.timers, x, true))), branch, limit)
  {
    var r := s.(w := SetTimers(s.w, AckExpired(s.w.timers, x, true)));
    if DueBy(s.w.timers.deleting, branch, limit) {
      DueGrows(s.w.timers.deleting, r.w.timers.deleting, branch, limit);
    }
  }

  lemma AckExpiredTimely(c: Clocked, x: Timer)
    requires Timely(c) && x in c.s.w.timers.waitAck
    ensures Timely(c.(s := c.s.(w := SetTimers(c.s.w, AckExpired(c.s.w.timers, x, true)))))
  {
    hide GoneAfterAck, GoneBy;
    var s, r := c.s, c.s.(w := SetTimers(c.s.w, AckExpired(c.s.w.timers, x, true)));
    forall t | t in c.completedAt
      ensures GoneAfterAck(r, r.w.txns[t].branch, c.completedAt[t] + WAIT_ACK_TIMEOUT + DELETE_TIMEOUT)
    {
      AckExpiredGone(s, x, s.w.txns[t].branch, c.completedAt[t] + WAIT_ACK_TIMEOUT + DELETE_TIMEOUT);
    }
    forall t | t in c.terminatedAt ensures GoneBy(r, r.w.txns[t].branch, c.terminatedAt[t] + DELETE_TIMEOUT) {
      AckExpiredGoneBy(s, x, s.w.txns[t].branch, c.terminatedAt[t] + DELETE_TIMEOUT);
    }
  }

  lemma DeleteExpiredGone(s: System, x: Timer, branch: Ident, limit: nat)
    requires x in s.w.timers.deleting && |s.queue| < QUEUE_CAPACITY && NoneLate(s.w.timers) && GoneBy(s, branch, limit)
    ensures GoneBy(DeleteExpired(s, x), branch, limit)
  {
    if DueBy(s.w.timers.deleting, branch, limit) {
      if x.branch != branch { DueStays(s.w.timers.deleting, x, branch, limit); }
      else { assert s.w.timers.now <= limit; }
    }
  }

  lemma DeleteExpiredTimely(c: Clocked, x: Timer)
    requires Timely(c) && x in c.s.w.timers.deleting && |c.s.queue| < QUEUE_CAPACITY
    ensures Timely(c.(s := DeleteExpired(c.s, x)))
  {
    var s, r := c.s, DeleteExpired(c.s, x);
    forall t | t in c.completedAt
      ensures GoneAfterAck(r, r.w.txns[t].branch, c.completedAt[t] + WAIT_ACK_TIMEOUT + DELETE_TIMEOUT)
    {
      var limit := c.completedAt[t] + WAIT_ACK_TIMEOUT + DELETE_TIMEOUT;
      if GoneBy(s, s.w.txns[t].branch, limit) { DeleteExpiredGone(s, x, s.w.txns[t].branch, limit); }
    }
    forall t | t in c.terminatedAt ensures GoneBy(r, r.w.txns[t].branch, c.terminatedAt[t] + DELETE_TIMEOUT) {
      DeleteExpiredGone(s, x, s.w.txns[t].branch, c.terminatedAt[t] + DELETE_TIMEOUT);
    }
  }

  lemma LaterOnTime(tm: Timers, ms: nat)
    requires NoneLate(tm)
    requires (forall x :: x in tm.waitAck ==> tm.now + ms <= x.deadline)
    requires (forall x :: x in tm.deleting ==> tm.now + ms <= x.deadline)
    ensures NoneLate(Later(tm, ms))
  {
  }

  lemma WorkTimely(c: Clocked, o: Oracle)
    requires Inv(c.s.w) && Allowed(c.s, Work(o)) && o.lose == {} && Timely(c)
    ensures Timely(Renoted(c, WorkOn(c.s, o)))
  {
    hide Inv, Handle, Admissible, Closed, BackLinks, TxnLinks, CallLinks, Timely, Starts, Prompt;
    WorkStarts(c.s, o);
    HandledTimely(c, WorkOn(c.s, o));
  }

  /** Every punctual step keeps every deadline. */
  lemma StepTimely(c: Clocked, step: Step)
    requires Inv(c.s.w) && Allowed(c.s, step) && Punctual(c.s, step) && Timely(c)
    ensures Timely(ClockedNext(c, step))
  {
    hide Inv, WorkOn, Admissible, Closed, BackLinks, TxnLinks, CallLinks, AckExpired, Noted, NoneLate, CompletedInTime,
         TerminatedInTime, Renoted;
    if step.Work? {
      WorkTimely(c, step.o);
    } else {
      SameNotes(c, Next(c.s, step));
      match step
      case FireAck(x, ok) => AckExpiredTimely(c, x);
      case FireDelete(x) => DeleteExpiredTimely(c, x);
      case Tick(ms) => LaterOnTime(c.s.w.timers, ms); WaitTimely(c, Next(c.s, step));
      case Arrive(raw) => WaitTimely(c, Next(c.s, step));
    }
  }
}
