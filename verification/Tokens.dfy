/** Delete events: whoever needs deleting has one pending, and none appear from nowhere. */
module Tokens {
  import opened SipTypes
  import opened WorkerModel
  import opened Invariants
  import opened Deletion
  import opened Progress
  import opened WorkerSystem
  import SipText

  ghost predicate HasTimer(timers: multiset<Timer>, branch: Ident) {
    exists x :: x in timers && x.branch == branch
  }

  /** A delete event for `branch` is under way, or is known to be lost. */
  ghost predicate Pending(tm: Timers, branch: Ident) {
    HasTimer(tm.waitAck, branch) || HasTimer(tm.deleting, branch) || branch in tm.lost
  }

  /** Every COMPLETED or TERMINATED transaction has a delete event in a timer or in the queue, unless it was lost. */
  ghost predicate Covered(s: System) {
    forall t :: t in s.w.txns && Settled(s.w.txns[t].state) ==>
      Pending(s.w.timers, s.w.txns[t].branch) || DeleteEvent(s.w.txns[t].branch) in s.queue
  }

  ghost predicate Grows(a: Timers, b: Timers) {
    a.now == b.now && a.waitAck <= b.waitAck && a.deleting <= b.deleting && a.lost <= b.lost
  }

  /** The branches of the events in `timers`. */
  ghost function BranchesOf(timers: multiset<Timer>): multiset<Ident>
    decreases |timers|
  {
    if timers == multiset{} then multiset{}
    else
      var x :| x in timers;
      multiset{x.branch} + BranchesOf(timers - multiset{x})
  }

  lemma FirstTimer(timers: multiset<Timer>) returns (x: Timer)
    requires timers != multiset{}
    ensures x in timers && BranchesOf(timers) == multiset{x.branch} + BranchesOf(timers - multiset{x})
  {
    x :| x in timers && BranchesOf(timers) == multiset{x.branch} + BranchesOf(timers - multiset{x});
  }

  lemma {:induction false} WithoutTimer(timers: multiset<Timer>, x: Timer)
    requires x in timers
    ensures BranchesOf(timers) == multiset{x.branch} + BranchesOf(timers - multiset{x})
    decreases |timers|
  {
    hide BranchesOf;
    var y := FirstTimer(timers);
    if y != x {
      WithoutTimer(timers - multiset{y}, x);
      WithoutTimer(timers - multiset{x}, y);
      assert timers - multiset{y} - multiset{x} == timers - multiset{x} - multiset{y};
    }
  }

  lemma WithTimer(timers: multiset<Timer>, x: Timer)
    ensures BranchesOf(timers + multiset{x}) == BranchesOf(timers) + multiset{x.branch}
  {
    WithoutTimer(timers + multiset{x}, x);
    assert timers + multiset{x} - multiset{x} == timers;
  }

  /** The branches of the events in a timer or lost. */
  ghost function Kept(tm: Timers): multiset<Ident> {
    BranchesOf(tm.waitAck) + BranchesOf(tm.deleting) + tm.lost
  }

  /** How many delete events a transaction may have made on its way to a state. */
  function Allowance(s: TxnState): nat {
    match s
    case TxnIdle => 0
    case TxnProceeding => 0
    case TxnCompleted => 1
    case TxnTerminated => 2
  }

  /** One event on entering COMPLETED, one on entering TERMINATED, none for addresses not handed out yet. */
  ghost predicate AtMostTwo(w: Worker) {
    && (forall t :: t in w.txns ==> t < w.nextId && w.timers.created[t] <= Allowance(w.txns[t].state))
    && (forall t :: w.timers.created[t] <= 2)
    && (forall t :: t >= w.nextId ==> w.timers.created[t] == 0)
  }

  /** The events made on the way from `a` to `b` are the ones put in a timer or lost. */
  ghost predicate SameRest(a: Timers, b: Timers) {
    b.made + Kept(a) == a.made + Kept(b)
  }

  /** `r` kept every event it made, and kept within the allowance. */
  ghost predicate Booked(w: Worker, r: Worker) {
    SameRest(w.timers, r.timers) && (AtMostTwo(w) ==> AtMostTwo(r))
  }

  ghost predicate TimersTo(tm: Timers, queue: Option<nat>) {
    && (forall x :: x in tm.waitAck ==> x.queue == queue)
    && (forall x :: x in tm.deleting ==> x.queue == queue)
  }

  /** Every transaction and every timer names the worker's own queue. */
  ghost predicate Routed(w: Worker) {
    (forall t :: t in w.txns ==> w.txns[t].queue == Some(w.self)) && TimersTo(w.timers, Some(w.self))
  }

  /** No timer's deadline has passed. */
  ghost predicate NoneLate(tm: Timers) {
    && (forall x :: x in tm.waitAck ==> tm.now <= x.deadline)
    && (forall x :: x in tm.deleting ==> tm.now <= x.deadline)
  }

  /** The timer of a state just entered runs, with its full delay, unless it was lost. */
  ghost predicate Scheduled(tm: Timers, x: Txn) {
    && (x.state == TxnCompleted ==> Timer(x.branch, tm.now + WAIT_ACK_TIMEOUT, x.queue) in tm.waitAck || x.branch in tm.lost)
    && (x.state == TxnTerminated ==> Timer(x.branch, tm.now + DELETE_TIMEOUT, x.queue) in tm.deleting || x.branch in tm.lost)
  }

  /** Whoever is moved gets a delete event. */
  ghost predicate TxnAdvances(x: Txn, y: Txn, tm: Timers) {
    && y.branch == x.branch && y.queue == x.queue && y.message == x.message && y.ack == x.ack
    && TxnRank(y.state) >= TxnRank(x.state) && (y.state != x.state ==> Scheduled(tm, y))
  }

  ghost predicate TimersAdvance(w: Worker, r: Worker, o: Oracle) {
    && Grows(w.timers, r.timers) && (o.lose == {} ==> r.timers.lost == w.timers.lost)
    && Booked(w, r) && (Routed(w) ==> Routed(r)) && (NoneLate(w.timers) ==> NoneLate(r.timers))
  }

  /** A run of moves: no transaction appears or disappears. */
  ghost predicate Advances(w: Worker, r: Worker, o: Oracle) {
    && r.txns.Keys == w.txns.Keys && r.txnOrder == w.txnOrder && r.self == w.self
    && (forall t :: t in w.txns ==> TxnAdvances(w.txns[t], r.txns[t], r.timers))
    && TimersAdvance(w, r, o)
    && r.history.freed == w.history.freed && r.history.displaced == w.history.displaced
  }

  lemma PendingGrows(a: Timers, b: Timers, branch: Ident)
    requires Grows(a, b) && Pending(a, branch)
    ensures Pending(b, branch)
  {
    if HasTimer(a.waitAck, branch) {
      var x :| x in a.waitAck && x.branch == branch;
      assert x in b.waitAck;
    } else if HasTimer(a.deleting, branch) {
      var x :| x in a.deleting && x.branch == branch;
      assert x in b.deleting;
    }
  }

  lemma AdvancesTrans(w: Worker, v: Worker, r: Worker, o: Oracle)
    requires Advances(w, v, o) && Advances(v, r, o)
    ensures Advances(w, r, o)
  {
    hide TimersAdvance, TxnAdvances;
    TimersAdvanceTrans(w, v, r, o);
    forall t | t in w.txns ensures TxnAdvances(w.txns[t], r.txns[t], r.timers) {
      TxnAdvancesTrans(w.txns[t], v.txns[t], r.txns[t], v.timers, r.timers);
    }
  }

  lemma TxnAdvancesTrans(x: Txn, y: Txn, z: Txn, a: Timers, b: Timers)
    requires TxnAdvances(x, y, a) && TxnAdvances(y, z, b) && Grows(a, b)
    ensures TxnAdvances(x, z, b)
  {
  }

  lemma TimersAdvanceTrans(w: Worker, v: Worker, r: Worker, o: Oracle)
    requires TimersAdvance(w, v, o) && TimersAdvance(v, r, o)
    ensures TimersAdvance(w, r, o) && Grows(v.timers, r.timers)
  {
    hide NoneLate, Booked, Routed, Grows;
    GrowsTrans(w.timers, v.timers, r.timers);
    BookedTrans(w, v, r);
  }

  lemma GrowsTrans(a: Timers, b: Timers, c: Timers)
    requires Grows(a, b) && Grows(b, c)
    ensures Grows(a, c)
  {
  }

  lemma BookedTrans(w: Worker, v: Worker, r: Worker)
    requires Booked(w, v) && Booked(v, r)
    ensures Booked(w, r)
  {
    hide AtMostTwo, Kept;
    Chain(w.timers.made, Kept(w.timers), v.timers.made, Kept(v.timers), r.timers.made, Kept(r.timers));
  }

  lemma Chain(a: multiset<Ident>, ka: multiset<Ident>, b: multiset<Ident>, kb: multiset<Ident>,
              c: multiset<Ident>, kc: multiset<Ident>)
    requires b + ka == a + kb && c + kb == b + kc
    ensures c + ka == a + kc
  {
    forall x ensures (c + ka)[x] == (a + kc)[x] {
      assert (b + ka)[x] == (a + kb)[x];
      assert (c + kb)[x] == (b + kc)[x];
    }
  }

  lemma ScheduleSchedules(tm: Timers, t: nat, x: Txn, s: TxnState, lose: bool)
    ensures var r := Schedule(tm, t, x.branch, x.queue, s, lose); Grows(tm, r) && Scheduled(r, x.(state := s))
    ensures !lose ==> Schedule(tm, t, x.branch, x.queue, s, lose).lost == tm.lost
    ensures NoneLate(tm) ==> NoneLate(Schedule(tm, t, x.branch, x.queue, s, lose))
  {
  }

  // One more event is kept.

  lemma KeptWaiting(tm: Timers, x: Timer)
    ensures Kept(tm.(waitAck := tm.waitAck + multiset{x})) == Kept(tm) + multiset{x.branch}
  {
    hide BranchesOf;
    WithTimer(tm.waitAck, x);
  }

  lemma KeptDeleting(tm: Timers, x: Timer)
    ensures Kept(tm.(deleting := tm.deleting + multiset{x})) == Kept(tm) + multiset{x.branch}
  {
    hide BranchesOf;
    WithTimer(tm.deleting, x);
  }

  lemma KeptLost(tm: Timers, branch: Ident)
    ensures Kept(tm.(lost := tm.lost + multiset{branch})) == Kept(tm) + multiset{branch}
  {
    hide BranchesOf;
  }

  lemma KeptApart(a: Timers, b: Timers)
    requires a.waitAck == b.waitAck && a.deleting == b.deleting && a.lost == b.lost
    ensures Kept(a) == Kept(b)
  {
  }

  lemma ScheduleKept(tm: Timers, t: nat, x: Txn, s: TxnState, lose: bool)
    requires s == TxnCompleted || s == TxnTerminated
    ensures Kept(Schedule(tm, t, x.branch, x.queue, s, lose)) == Kept(tm) + multiset{x.branch}
  {
    hide Kept;
    var noted := tm.(created := tm.created + multiset{t}, made := tm.made + multiset{x.branch});
    KeptApart(noted, tm);
    if lose { KeptLost(noted, x.branch); }
    else if s == TxnCompleted { KeptWaiting(noted, Timer(x.branch, tm.now + WAIT_ACK_TIMEOUT, x.queue)); }
    else { KeptDeleting(noted, Timer(x.branch, tm.now + DELETE_TIMEOUT, x.queue)); }
  }

  lemma ScheduleRest(tm: Timers, t: nat, x: Txn, s: TxnState, lose: bool)
    ensures SameRest(tm, Schedule(tm, t, x.branch, x.queue, s, lose))
    ensures TimersTo(tm, x.queue) ==> TimersTo(Schedule(tm, t, x.branch, x.queue, s, lose), x.queue)
  {
    hide Kept;
    if s == TxnCompleted || s == TxnTerminated {
      ScheduleKept(tm, t, x, s, lose);
      assert (tm.made + multiset{x.branch}) + Kept(tm) == tm.made + (Kept(tm) + multiset{x.branch});
    }
  }

  lemma SameRestItself(tm: Timers)
    ensures SameRest(tm, tm)
  {
  }

  lemma MoveWithin(w: Worker, r: Worker, t: nat, o: Oracle)
    requires MovesOne(w, r, t, o) && AtMostTwo(w)
    ensures AtMostTwo(r)
  {
  }

  lemma MoveBooked(w: Worker, r: Worker, t: nat, o: Oracle)
    requires MovesOne(w, r, t, o)
    ensures Booked(w, r) && (Routed(w) ==> Routed(r))
  {
    hide SameRest, Schedule, AtMostTwo, TimersTo;
    ScheduleRest(w.timers, t, w.txns[t], r.txns[t].state, t in o.lose);
    SameRestItself(w.timers);
    if AtMostTwo(w) { MoveWithin(w, r, t, o); }
  }

  lemma MoveTimers(w: Worker, r: Worker, t: nat, o: Oracle)
    requires MovesOne(w, r, t, o)
    ensures TimersAdvance(w, r, o)
    ensures r.txns[t].state != w.txns[t].state ==> Scheduled(r.timers, w.txns[t].(state := r.txns[t].state))
  {
    hide Schedule, Booked, Routed, NoneLate, Scheduled;
    MoveBooked(w, r, t, o);
    ScheduleSchedules(w.timers, t, w.txns[t], r.txns[t].state, t in o.lose);
  }

  lemma MoveAdvances(w: Worker, r: Worker, t: nat, o: Oracle)
    requires MovesOne(w, r, t, o)
    ensures Advances(w, r, o)
  {
    hide Schedule, TimersAdvance, Scheduled;
    MoveTimers(w, r, t, o);
    SameScheduled(r.timers, w.txns[t].(state := r.txns[t].state), r.txns[t]);
  }

  lemma SameScheduled(tm: Timers, x: Txn, y: Txn)
    requires y.branch == x.branch && y.queue == x.queue && y.state == x.state
    ensures Scheduled(tm, x) <==> Scheduled(tm, y)
  {
  }

  lemma DetachSlotMoves(w: Worker, d: nat, i: nat, o: Oracle)
    requires SlotsLive(w, d) && i < TXN_SLOTS && w.dialogs[d].slots[i].Some?
    ensures MovesOne(w, DetachSlot(w, d, i, o), w.dialogs[d].slots[i].value, o)
  {
  }

  lemma DetachSlotAdvances(w: Worker, d: nat, i: nat, o: Oracle)
    requires SlotsLive(w, d) && i < TXN_SLOTS
    ensures Advances(w, DetachSlot(w, d, i, o), o)
  {
    hide Advances, MovesOne, SetTxnState;
    if w.dialogs[d].slots[i].Some? {
      DetachSlotMoves(w, d, i, o);
      MoveAdvances(w, DetachSlot(w, d, i, o), w.dialogs[d].slots[i].value, o);
    } else {
      AdvancesItself(w, o);
    }
  }

  lemma {:induction false} DetachAdvances(w: Worker, d: nat, i: nat, o: Oracle)
    requires SlotsLive(w, d) && i <= TXN_SLOTS
    ensures Advances(w, DetachFrom(w, d, i, o), o)
    decreases TXN_SLOTS - i
  {
    hide Advances, DetachSlot, SlotsLive;
    if i < TXN_SLOTS {
      var v := DetachSlot(w, d, i, o);
      DetachSlotAdvances(w, d, i, o);
      DetachAdvances(v, d, i + 1, o);
      AdvancesTrans(w, v, DetachFrom(w, d, i, o), o);
    } else {
      AdvancesItself(w, o);
    }
  }

  lemma AdvancesItself(w: Worker, o: Oracle)
    ensures Advances(w, w, o)
  {
    hide Kept;
  }

  /** The same transactions, timers and frees. */
  ghost predicate SameTxns(v: Worker, r: Worker) {
    r.txns == v.txns && r.txnOrder == v.txnOrder && r.timers == v.timers && r.history == v.history && r.nextId == v.nextId && r.self == v.self
  }

  lemma BookedSame(w: Worker, u: Worker, v: Worker, r: Worker)
    requires SameTxns(w, u) && Booked(u, v) && SameTxns(v, r)
    ensures Booked(w, r)
  {
    hide Kept;
  }

  lemma AdvancesSame(w: Worker, u: Worker, v: Worker, r: Worker, o: Oracle)
    requires SameTxns(w, u) && Advances(u, v, o) && SameTxns(v, r)
    ensures Advances(w, r, o)
  {
    BookedSame(w, u, v, r);
    hide TxnAdvances, NoneLate, Booked, TimersTo, Grows;
  }

  lemma CleanupSame(w: Worker, d: nat, o: Oracle)
    requires SlotsLive(w, d)
    requires w.dialogs[d].call.Some? ==> w.dialogs[d].call.value in w.calls
    ensures SameTxns(DetachFrom(w, d, 0, o), CleanupDialog(w, d, o))
  {
  }

  lemma SameSlotsLive(w: Worker, v: Worker, d: nat)
    requires SlotsLive(w, d) && v.dialogs == w.dialogs && v.txns == w.txns
    ensures SlotsLive(v, d)
  {
  }

  lemma DeleteDialogAdvances(w: Worker, d: nat, o: Oracle)
    requires SlotsLive(w, d)
    requires w.dialogs[d].call.Some? ==> w.dialogs[d].call.value in w.calls
    ensures Advances(w, DeleteDialog(w, d, o), o)
  {
    hide Advances, Unlink, DetachFrom, CleanupDialog, SlotsLive, CallSlotsLive;
    if d in w.dialogOrder {
      var v := w.(dialogOrder := Unlink(w.dialogOrder, d));
      assert SlotsLive(v, d) by { SameSlotsLive(w, v, d); }
      DetachAdvances(v, d, 0, o);
      CleanupSame(v, d, o);
      AdvancesSame(w, v, DetachFrom(v, d, 0, o), CleanupDialog(v, d, o), o);
    } else {
      AdvancesItself(w, o);
    }
  }

  /** cleanup_dialog, and cleanup_call after it, only move transactions forward. */
  lemma DropAdvances(w: Worker, d: nat, o: Oracle)
    requires SlotsLive(w, d)
    requires w.dialogs[d].call.Some? ==>
               var c := w.dialogs[d].call.value;
               CallSlotsLive(w, c) && Once(w.calls[c].slots)
    ensures Advances(w, DropDialog(w, d, o), o)
  {
    DeleteDialogAdvances(w, d, o);
    assert SameTxns(DeleteDialog(w, d, o), DropDialog(w, d, o));
    AdvancesSame(w, w, DeleteDialog(w, d, o), DropDialog(w, d, o), o);
  }

  /** `t` is gone, and the others only moved forward. */
  lemma DeleteFoundAdvances(w: Worker, t: nat, o: Oracle)
    requires Consistent(w) && Closed(w) && t in w.txns
    ensures Advances(DeleteTxn(w, t), DeleteFound(w, t, o), o)
  {
    hide Advances, Coupled, CoupledButHeld, Lists, DeleteTxn, DropDialog;
    var v := DeleteTxn(w, t);
    DeleteTxnEffect(w, t);
    DeleteTxnKeeps(w, t);
    AdvancesItself(v, o);
    var link := w.txns[t].dialog;
    if link.Some? && v.dialogs[link.value].state == DialogTerminated {
      DropAdvances(v, link.value, o);
    }
  }

  /** The transaction an event of a stored branch finds is the one that stores it. */
  lemma FoundStores(w: Worker, branch: Ident, t: nat)
    requires Branches(w) && t in w.txns && Shown(branch) && FindTxnOf(w, branch) == Some(t)
    ensures w.txns[t].branch == branch
  {
    MatchIsEquality(w.txns[t].branch, branch);
  }

  /** After a delete event for `branch` no transaction has that branch. */
  lemma DeletedBranch(w: Worker, branch: Ident, o: Oracle, u: nat)
    requires Inv(w) && Closed(w) && u in DeleteTransaction(w, branch, o).txns
    ensures u in w.txns && w.txns[u].branch != branch
  {
    hide Coupled, DeleteFound;
    var found := FindTxnOf(w, branch);
    if found.Some? {
      var t := found.value;
      DeleteFoundAdvances(w, t, o);
      DeleteTxnEffect(w, t);
      if w.txns[u].branch == branch { FoundStores(w, branch, t); }
    }
  }

  /** Every transaction settled in `r` either was settled before or has a delete event under way. */
  ghost predicate Obliges(w: Worker, r: Worker) {
    && Grows(w.timers, r.timers)
    && (forall u :: u in r.txns && Settled(r.txns[u].state) ==>
          || (u in w.txns && Settled(w.txns[u].state) && w.txns[u].branch == r.txns[u].branch)
          || Pending(r.timers, r.txns[u].branch))
  }

  lemma AdvancesObliges(w: Worker, r: Worker, o: Oracle)
    requires Advances(w, r, o)
    ensures Obliges(w, r)
  {
    forall u | u in r.txns && r.txns[u].state != w.txns[u].state && Settled(r.txns[u].state)
      ensures Pending(r.timers, r.txns[u].branch)
    {
      assert Scheduled(r.timers, r.txns[u]);
    }
  }

  lemma TxnGoneObliges(w: Worker, v: Worker, t: nat, r: Worker)
    requires t in w.txns && (w.txns[t].dialog.Some? ==> w.txns[t].dialog.value in w.dialogs)
    requires TxnGone(w, v, t) && Obliges(v, r)
    ensures Obliges(w, r)
  {
  }

  lemma DeleteObliges(w: Worker, branch: Ident, o: Oracle)
    requires Consistent(w) && Closed(w)
    ensures Obliges(w, DeleteTransaction(w, branch, o))
  {
    var found := FindTxnOf(w, branch);
    if found.Some? {
      var v, r := DeleteTxn(w, found.value), DeleteFound(w, found.value, o);
      DeleteFoundAdvances(w, found.value, o);
      DeleteTxnEffect(w, found.value);
      AdvancesObliges(v, r, o);
      TxnGoneObliges(w, v, found.value, r);
    }
  }

  lemma DeleteCovers(s: System, o: Oracle)
    requires Inv(s.w) && Allowed(s, Work(o)) && s.queue[0].DeleteEvent? && Covered(s)
    ensures Covered(WorkOn(s, o))
  {
    hide Consistent, Branches, DeleteTransaction, Admissible, Closed, BackLinks, TxnLinks, CallLinks, Pending;
    var w, branch, r := s.w, s.queue[0].branch, WorkOn(s, o);
    DeleteObliges(w, branch, o);
    forall u | u in r.w.txns && Settled(r.w.txns[u].state)
      ensures Pending(r.w.timers, r.w.txns[u].branch) || DeleteEvent(r.w.txns[u].branch) in r.queue
    {
      DeletedBranch(w, branch, o, u);
      if Settled(w.txns[u].state) && Pending(w.timers, w.txns[u].branch) {
        PendingGrows(w.timers, r.w.timers, w.txns[u].branch);
      }
    }
  }

  lemma ServedAdvances(w: Worker, m: Message, o: Oracle)
    requires Consistent(w) && Closed(w) && Served(w, m, o).Some?
    ensures Advances(Served(w, m, o).value.0, ProcessRequest(w, m, o), o)
  {
    ServedMoves(w, m, o);
    MoveAdvances(Served(w, m, o).value.0, ProcessRequest(w, m, o), Served(w, m, o).value.1, o);
  }

  lemma DirectEffect(w: Worker, m: Message, code: nat, ok: bool)
    requires StatusCode(code)
    ensures var r := RespondDirectly(w, m, code, ok);
            r == w.(history := r.history) && r.history == w.history.(sent := r.history.sent)
  {
  }

  lemma ResendLogs(w: Worker, t: nat, o: Oracle)
    requires t in w.txns && w.txns[t].message.Some?
    requires w.txns[t].dialog.Some? ==> w.txns[t].dialog.value in w.dialogs
    ensures var r := Resend(w, t, o);
            r == w.(txns := r.txns, history := r.history) && r.history == w.history.(sent := r.history.sent)
  {
  }

  /** A request answered or dropped on the spot changes no state. */
  lemma UnservedStays(w: Worker, m: Message, o: Oracle)
    requires Closed(w) && Served(w, m, o).None?
    ensures var r := ProcessRequest(w, m, o);
            && r == w.(txns := r.txns, history := r.history)
            && r.txns.Keys == w.txns.Keys
            && (forall t :: t in w.txns ==>
                  r.txns[t] == w.txns[t].(response := r.txns[t].response, code := r.txns[t].code))
            && r.history.displaced == w.history.displaced
            && r.history.freed == w.history.freed + multiset{m.id}
  {
    hide FindTxn, RespondDirectly, Dispatch, FindDialog, SlotsLive, CallSlotsLive, Resend, Adopt, SetAck;
    if FindTxnOf(w, m.req.branch).None? { DirectEffect(w, m, 500, o.sendError); }
    var found := FindTxnOf(w, m.req.branch);
    if found.Some? && SameRequest(w.txns[found.value], m) {
      ResendEffect(w, found.value, o);
      ResendLogs(w, found.value, o);
    }
  }

  lemma ServedObliges(w: Worker, m: Message, o: Oracle, r: Worker)
    requires Closed(w) && Served(w, m, o).Some? && Obliges(Served(w, m, o).value.0, r)
    ensures Obliges(w, r)
  {
  }

  lemma RequestObliges(w: Worker, m: Message, o: Oracle)
    requires Consistent(w) && Closed(w)
    ensures Obliges(w, ProcessRequest(w, m, o))
  {
    if Served(w, m, o).Some? {
      ServedAdvances(w, m, o);
      AdvancesObliges(Served(w, m, o).value.0, ProcessRequest(w, m, o), o);
      ServedObliges(w, m, o, ProcessRequest(w, m, o));
    } else {
      UnservedStays(w, m, o);
    }
  }

  /** Taking a packet other than a delete event from the queue leaves everyone covered. */
  lemma ObligesCovers(s: System, r: System)
    requires Covered(s) && Obliges(s.w, r.w) && s.queue != [] && s.queue[0].Sip? && r.queue == s.queue[1..]
    ensures Covered(r)
  {
    forall u | u in r.w.txns && Settled(r.w.txns[u].state)
      ensures Pending(r.w.timers, r.w.txns[u].branch) || DeleteEvent(r.w.txns[u].branch) in r.queue
    {
      if u in s.w.txns && Settled(s.w.txns[u].state) && Pending(s.w.timers, r.w.txns[u].branch) {
        PendingGrows(s.w.timers, r.w.timers, r.w.txns[u].branch);
      }
    }
  }

  lemma TimerStays(timers: multiset<Timer>, x: Timer, branch: Ident)
    requires HasTimer(timers, branch) && x.branch != branch
    ensures HasTimer(timers - multiset{x}, branch)
  {
    var y :| y in timers && y.branch == branch;
    assert y in timers - multiset{x};
  }

  /** An expired timer passes its branch on to the next timer, or to the lost ones. */
  lemma AckExpiredPending(tm: Timers, x: Timer, ok: bool, branch: Ident)
    requires x in tm.waitAck && Pending(tm, branch)
    ensures Pending(AckExpired(tm, x, ok), branch)
  {
    var r := AckExpired(tm, x, ok);
    if branch == x.branch {
      if ok { assert Timer(branch, tm.now + DELETE_TIMEOUT, x.queue) in r.deleting; }
    } else if HasTimer(tm.waitAck, branch) {
      TimerStays(tm.waitAck, x, branch);
    } else if HasTimer(tm.deleting, branch) {
      var y :| y in tm.deleting && y.branch == branch;
      assert y in r.deleting;
    }
  }

  /** ... or to the queue. */
  lemma DeleteExpiredPending(s: System, x: Timer, branch: Ident)
    requires x in s.w.timers.deleting && (Pending(s.w.timers, branch) || DeleteEvent(branch) in s.queue)
    ensures var r := DeleteExpired(s, x); Pending(r.w.timers, branch) || DeleteEvent(branch) in r.queue
  {
    if branch != x.branch && HasTimer(s.w.timers.deleting, branch) {
      TimerStays(s.w.timers.deleting, x, branch);
    }
  }

  lemma WorkCovers(s: System, o: Oracle)
    requires Inv(s.w) && Allowed(s, Work(o)) && Covered(s)
    ensures Covered(WorkOn(s, o))
  {
    if s.queue[0].DeleteEvent? {
      DeleteCovers(s, o);
    } else {
      hide Obliges, Coupled, Branches, Graph, ProcessRequest, Admissible, Closed, BackLinks, TxnLinks, CallLinks, SipText.Parse;
      if Incoming(s).Some? { RequestObliges(s.w, Incoming(s).value, o); } else { SameObliges(s.w, WorkOn(s, o).w); }
      ObligesCovers(s, WorkOn(s, o));
    }
  }

  lemma SameObliges(w: Worker, r: Worker)
    requires r.txns == w.txns && r.timers == w.timers
    ensures Obliges(w, r)
  {
  }

  lemma LaterPending(tm: Timers, ms: nat, branch: Ident)
    requires Pending(tm, branch)
    ensures Pending(Later(tm, ms), branch)
  {
  }

  /** No leak: whatever step is taken, every COMPLETED or TERMINATED transaction keeps a delete event. */
  lemma StepKeepsCovered(s: System, step: Step)
    requires Inv(s.w) && Covered(s) && Allowed(s, step)
    ensures Covered(Next(s, step))
  {
    hide Inv, Handle, Pending, Admissible;
    match step
    case Work(o) => WorkCovers(s, o);
    case FireAck(x, ok) =>
      forall t | t in s.w.txns && Pending(s.w.timers, s.w.txns[t].branch)
        ensures Pending(AckExpired(s.w.timers, x, ok), s.w.txns[t].branch)
      {
        AckExpiredPending(s.w.timers, x, ok, s.w.txns[t].branch);
      }
    case FireDelete(x) =>
      forall t | t in s.w.txns && Settled(s.w.txns[t].state)
        ensures var r := DeleteExpired(s, x);
                Pending(r.w.timers, s.w.txns[t].branch) || DeleteEvent(s.w.txns[t].branch) in r.queue
      {
        DeleteExpiredPending(s, x, s.w.txns[t].branch);
      }
    case Tick(ms) =>
      forall t | t in s.w.txns && Pending(s.w.timers, s.w.txns[t].branch)
        ensures Pending(Later(s.w.timers, ms), s.w.txns[t].branch)
      {
        LaterPending(s.w.timers, ms, s.w.txns[t].branch);
      }
    case Arrive(_) =>
  }
}
