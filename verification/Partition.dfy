/** The whole server: seven workers fed by one socket thread. Each Call-ID belongs to one worker. */
module Partition {
  import opened SipTypes
  import opened WorkerModel
  import opened Outcomes
  import opened Invariants
  import opened Deletion
  import opened Tokens
  import opened Forward
  import opened WorkerSystem
  import opened Accounting
  import opened Theorems
  import opened Dispatch
  import SipText

  type Server = s: seq<System> | |s| == MAX_THREADS witness seq(MAX_THREADS, k requires 0 <= k => Start(k))

  const IDLE_SERVER: Server := seq(MAX_THREADS, k requires 0 <= k => Start(k))

  /** A datagram is received; worker `k` or one of its ACK timers makes a step; or a delete timer fires. The
      timers of all workers run in one manager, which hands the event to the queue the event names; `k` is
      the worker whose transaction made it. */
  datatype Event = Receive(raw: Raw) | Progress(k: nat, step: Step) | Expire(k: nat, x: Timer)

  /** handle_new_message: the worker that gets the packet; None when it has no Call-ID and is freed at once. */
  function Target(raw: Raw): Option<int> {
    match SipText.CallIdOf(raw.text)
    case None => None
    case Some(callId) => Some(WorkerOf(callId))
  }

  ghost predicate Possible(s: Server, e: Event) {
    match e
    case Receive(raw) =>
      && (forall k :: 0 <= k < MAX_THREADS ==> raw.id !in s[k].received)
      && (Target(raw).Some? ==> 0 <= Target(raw).value < MAX_THREADS)
    case Progress(k, step) => k < MAX_THREADS && !step.Arrive? && !step.FireDelete? && Allowed(s[k], step)
    case Expire(k, x) => k < MAX_THREADS && x in s[k].w.timers.deleting
  }

  /** transaction_delete_timeout: the event goes to the queue it names; it is lost when there is none or that is full. */
  function Expired(s: Server, k: nat, x: Timer): Server
    requires k < MAX_THREADS && x in s[k].w.timers.deleting
  {
    var tm := s[k].w.timers.(deleting := s[k].w.timers.deleting - multiset{x});
    if x.queue.Some? && x.queue.value < MAX_THREADS && |s[x.queue.value].queue| < QUEUE_CAPACITY then
      var s: Server := s[k := s[k].(w := SetTimers(s[k].w, tm))];
      var j := x.queue.value;
      s[j := s[j].(queue := s[j].queue + [DeleteEvent(x.branch)])]
    else s[k := s[k].(w := SetTimers(s[k].w, tm.(lost := tm.lost + multiset{x.branch})))]
  }

  function After(s: Server, e: Event): Server
    requires e.Receive? && Target(e.raw).Some? ==> 0 <= Target(e.raw).value < MAX_THREADS
    requires e.Progress? ==>
               e.k < MAX_THREADS && Enabled(s[e.k], e.step) && Closed(s[e.k].w) && BackLinks(s[e.k].w) && CallLinks(s[e.k].w)
    requires e.Expire? ==> e.k < MAX_THREADS && e.x in s[e.k].w.timers.deleting
  {
    match e
    case Receive(raw) =>
      if Target(raw).None? then s else s[Target(raw).value := Arrival(s[Target(raw).value], raw)]
    case Progress(k, step) => s[k := Next(s[k], step)]
    case Expire(k, x) => Expired(s, k, x)
  }

  // ---------- what a worker may hold ----------

  predicate MessageOf(m: Option<Message>, k: int) {
    m.Some? ==> WorkerOf(m.value.req.callId) == k
  }

  ghost predicate TxnsOf(txns: map<nat, Txn>, k: int) {
    forall t :: t in txns ==> MessageOf(txns[t].message, k) && MessageOf(txns[t].ack, k)
  }

  /** What the call keeps comes from a Call-ID that hashes to `k`. */
  ghost predicate CallOf(c: Call, k: int) {
    exists id: string :: c.callId == StoredCallId(id) && WorkerOf(id) == k
  }

  ghost predicate CallsOf(calls: map<nat, Call>, k: int) {
    forall c :: c in calls ==> CallOf(calls[c], k)
  }

  ghost predicate QueueOf(queue: seq<Packet>, k: int) {
    forall p :: p in queue && p.Sip? ==> Target(p.raw) == Some(k)
  }

  /** Every message and call of worker `k` has a Call-ID that hashes to `k`. */
  ghost predicate Owns(s: System, k: int) {
    TxnsOf(s.w.txns, k) && CallsOf(s.w.calls, k) && QueueOf(s.queue, k)
  }

  /** The request in a packet has the Call-ID the packet was dispatched by. */
  lemma ParsedCallId(text: string)
    requires SipText.Parse(text).Some? && SipText.CallIdOf(text).Some?
    ensures SipText.Parse(text).value.callId == SipText.CallIdOf(text).value
  {
  }

  lemma InviteCalls(w: Worker, t: nat, o: Oracle, k: int)
    requires Lists(w) && t in w.txns && w.txns[t].state == TxnIdle && w.txns[t].message.Some?
    requires w.txns[t].dialog.Some? ==> w.txns[t].dialog.value in w.dialogs
    requires CallsOf(w.calls, k) && MessageOf(w.txns[t].message, k)
    ensures CallsOf(ProcessInvite(w, t, o).calls, k)
  {
    hide ProcessInvite, WorkerOf, StoredCallId;
    var req := w.txns[t].message.value.req;
    if w.txns[t].dialog.Some? {
      Unchanged(w, t, o);
    } else if NoDialogMade(o, req) {
      InviteRefused(w, t, o);
    } else {
      InviteAccepted(w, t, o);
      MadeCalls(w, ProcessInvite(w, t, o), t, o, k);
    }
  }

  lemma Unchanged(w: Worker, t: nat, o: Oracle)
    requires t in w.txns && w.txns[t].state == TxnIdle && w.txns[t].message.Some? && w.txns[t].dialog.Some?
    requires w.txns[t].dialog.value in w.dialogs
    ensures ProcessInvite(w, t, o) == w
  {
  }

  lemma MadeCalls(w: Worker, r: Worker, t: nat, o: Oracle, k: int)
    requires t in w.txns && w.txns[t].message.Some? && CallsOf(w.calls, k) && MessageOf(w.txns[t].message, k)
    requires var req := w.txns[t].message.value.req;
             DialogEnds(StartDialog(w, t, req.fromTag, o.toTag), r, t, w.nextId, req.callId, o)
    ensures CallsOf(r.calls, k)
  {
    hide WorkerOf, StoredCallId;
  }

  lemma ByeCalls(w: Worker, t: nat, o: Oracle, k: int)
    requires Closed(w) && t in w.txns && CallsOf(w.calls, k)
    ensures CallsOf(ProcessBye(w, t, o).calls, k)
  {
    if ByeAccepted(w, t) { ByeEffect(w, t, o); }
  }

  lemma ServeCalls(w: Worker, t: nat, kind: Method, o: Oracle, k: int)
    requires Closed(w) && Lists(w) && t in w.txns && (kind.INVITE? ==> w.txns[t].state == TxnIdle)
    requires CallsOf(w.calls, k) && MessageOf(w.txns[t].message, k)
    ensures CallsOf(Serve(w, t, kind, o).calls, k)
  {
    if kind == INVITE { InviteCalls(w, t, o, k); } else if kind == BYE { ByeCalls(w, t, o, k); }
  }

  lemma DispatchCalls(w: Worker, t: nat, req: Request, o: Oracle, k: int)
    requires Closed(w) && Lists(w) && t in w.txns && (req.kind.INVITE? ==> w.txns[t].state == TxnIdle)
    requires CallsOf(w.calls, k) && MessageOf(w.txns[t].message, k)
    ensures CallsOf(WorkerModel.Dispatch(w, t, req, o).calls, k)
  {
    hide Serve;
    AttachForward(w, t, req);
    AttachClosed(w, t, req);
    ServeCalls(AttachByTags(w, t, req), t, req.kind, o, k);
  }

  lemma AdvancesTxns(w: Worker, r: Worker, o: Oracle, k: int)
    requires Advances(w, r, o) && TxnsOf(w.txns, k)
    ensures TxnsOf(r.txns, k)
  {
  }

  lemma ServedTxns(w: Worker, m: Message, o: Oracle, k: int)
    requires Closed(w) && Served(w, m, o).Some? && TxnsOf(w.txns, k) && MessageOf(Some(m), k)
    ensures TxnsOf(Served(w, m, o).value.0.txns, k)
  {
  }

  lemma RequestOwned(w: Worker, m: Message, o: Oracle, k: int)
    requires Consistent(w) && Closed(w) && TxnsOf(w.txns, k) && CallsOf(w.calls, k) && MessageOf(Some(m), k)
    ensures TxnsOf(ProcessRequest(w, m, o).txns, k) && CallsOf(ProcessRequest(w, m, o).calls, k)
  {
    hide ProcessRequest, WorkerModel.Dispatch, CallsOf, WorkerOf;
    if Served(w, m, o).Some? {
      var s := Served(w, m, o).value;
      ServedTxns(w, m, o, k);
      ServedAdvances(w, m, o);
      AdvancesTxns(s.0, ProcessRequest(w, m, o), o, k);
      ServedDialogs(w, m, o);
      ServedLists(w, m, o);
      ServedDispatch(w, m, o);
      DispatchCalls(s.0, s.1, m.req, o, k);
    } else {
      UnservedStays(w, m, o);
    }
  }

  lemma DeleteOwned(w: Worker, branch: Ident, o: Oracle, k: int)
    requires Consistent(w) && Closed(w) && TxnsOf(w.txns, k) && CallsOf(w.calls, k)
    ensures TxnsOf(DeleteTransaction(w, branch, o).txns, k) && CallsOf(DeleteTransaction(w, branch, o).calls, k)
  {
    hide Coupled, DeleteFound, DeleteTxn, CallsOf, TxnsOf, Advances, Deleted;
    var found := FindTxnOf(w, branch);
    if found.Some? {
      var v, r := DeleteTxn(w, found.value), DeleteFound(w, found.value, o);
      DeleteFoundEffect(w, found.value, o);
      DeletedCalls(w, v, r, found.value, k);
      DeleteFoundAdvances(w, found.value, o);
      AdvancesTxns(v, r, o, k);
    }
  }

  lemma DeletedCalls(w: Worker, v: Worker, r: Worker, t: nat, k: int)
    requires Deleted(w, v, r, t) && CallsOf(w.calls, k) && TxnsOf(w.txns, k)
    ensures CallsOf(r.calls, k) && TxnsOf(v.txns, k)
  {
    if r != v { DroppedCalls(v, r, w.txns[t].dialog.value, k); }
  }

  lemma DroppedCalls(w: Worker, r: Worker, d: nat, k: int)
    requires Dropped(w, r, d) && CallsOf(w.calls, k)
    ensures CallsOf(r.calls, k)
  {
    hide WorkerOf, StoredCallId, Swept, Unlink;
    assert forall c :: c in r.calls ==> c in w.calls && r.calls[c].callId == w.calls[c].callId;
  }

  lemma WorkOwns(s: System, o: Oracle, k: int)
    requires Inv(s.w) && Allowed(s, Work(o)) && Owns(s, k)
    ensures Owns(WorkOn(s, o), k)
  {
    hide ProcessRequest, DeleteTransaction, Consistent, Branches, Admissible, SipText.Parse, SipText.CallIdOf, TxnsOf, CallsOf,
         Closed, BackLinks, TxnLinks, CallLinks;
    assert forall p :: p in s.queue[1..] ==> p in s.queue;
    if s.queue[0].DeleteEvent? {
      DeleteOwned(s.w, s.queue[0].branch, o, k);
    } else if Incoming(s).Some? {
      assert s.queue[0] in s.queue;
      ParsedCallId(s.queue[0].raw.text);
      RequestOwned(s.w, Incoming(s).value, o, k);
    }
  }

  /** One step of a worker keeps what it owns its own. */
  lemma StepOwns(s: System, step: Step, k: int)
    requires Inv(s.w) && Allowed(s, step) && Owns(s, k)
    requires step.Arrive? ==> Target(step.raw) == Some(k)
    ensures Owns(Next(s, step), k)
  {
    hide TxnsOf, CallsOf, Inv, Admissible, Closed, BackLinks, TxnLinks, CallLinks;
    if step.Work? { WorkOwns(s, step.o, k); }
  }

  // ---------- runs of the whole server ----------

  ghost predicate IsServerRun(s: Server, events: seq<Event>)
    decreases |events|
  {
    events == [] || (Possible(s, events[0]) && IsServerRun(After(s, events[0]), events[1..]))
  }

  ghost function ServerRun(s: Server, events: seq<Event>): Server
    requires IsServerRun(s, events)
    decreases |events|
  {
    if events == [] then s else ServerRun(After(s, events[0]), events[1..])
  }

  /** Worker `k` owns what it holds, and its transactions and timers name its own queue. */
  ghost predicate Placed(s: System, k: nat) {
    Inv(s.w) && Owns(s, k) && Routed(s.w) && s.w.self == k
  }

  ghost predicate Partitioned(s: Server) {
    forall k: nat :: k < MAX_THREADS ==> Placed(s[k], k)
  }

  lemma NothingOwned()
    ensures Partitioned(IDLE_SERVER)
  {
    forall k: nat | k < MAX_THREADS ensures Placed(IDLE_SERVER[k], k) {
      NothingYet(Idle(k));
      hide Inv;
    }
  }

  /** A delete timer fires into the queue of the worker that started it. */
  lemma ExpiresAtHome(s: Server, k: nat, x: Timer)
    requires k < MAX_THREADS && x in s[k].w.timers.deleting && Placed(s[k], k)
    ensures x.queue == Some(k) && Expired(s, k, x) == s[k := DeleteExpired(s[k], x)]
  {
    hide Inv, Owns;
  }

  lemma EventKeepsPartition(s: Server, e: Event)
    requires Partitioned(s) && Possible(s, e)
    ensures Partitioned(After(s, e))
  {
    hide Placed, Closed, BackLinks, TxnLinks, CallLinks, Admissible, Next, Arrival, Expired, SipText.CallIdOf;
    match e
    case Receive(raw) =>
      if Target(raw).Some? { ReceivePlaced(s[Target(raw).value], raw, Target(raw).value); }
    case Progress(k, step) => StepPlaced(s[k], step, k);
    case Expire(k, x) =>
      ExpiresAtHome(s, k, x);
      FirePlaced(s[k], x, k);
  }

  lemma StepPlaced(s: System, step: Step, k: nat)
    requires Placed(s, k) && Allowed(s, step) && (step.Arrive? ==> Target(step.raw) == Some(k))
    ensures Placed(Next(s, step), k)
  {
    hide Consistent, Branches, Owns, Allowed, Next, Routed;
    StepKeepsInv(s, step);
    StepOwns(s, step, k);
    StepKeepsRouted(s, step);
  }

  lemma FirePlaced(s: System, x: Timer, k: nat)
    requires Placed(s, k) && x in s.w.timers.deleting
    ensures Allowed(s, FireDelete(x)) && Placed(DeleteExpired(s, x), k)
  {
    hide Placed, Consistent, Branches, Admissible;
    PlacedSound(s, k);
    StepPlaced(s, FireDelete(x), k);
  }

  lemma PlacedSound(s: System, k: nat)
    requires Placed(s, k)
    ensures Inv(s.w) && Closed(s.w) && BackLinks(s.w) && CallLinks(s.w)
  {
    InvClosed(s.w);
  }

  lemma ReceivePlaced(s: System, raw: Raw, k: nat)
    requires Placed(s, k) && Target(raw) == Some(k)
    ensures Placed(Arrival(s, raw), k)
  {
    hide Consistent, Branches, TxnsOf, CallsOf, TimersTo, Target;
    SameGraph(s.w, Arrival(s, raw).w);
    assert Arrival(s, raw).w == s.w || Arrival(s, raw).w == Free(s.w, raw.id);
  }

  /** Whatever happens, each worker owns what it holds. */
  lemma {:induction false} RunKeepsPartition(s: Server, events: seq<Event>)
    requires Partitioned(s) && IsServerRun(s, events)
    ensures Partitioned(ServerRun(s, events))
    decreases |events|
  {
    if events != [] {
      EventKeepsPartition(s, events[0]);
      RunKeepsPartition(After(s, events[0]), events[1..]);
    }
  }

  // ---------- the order within one Call-ID ----------

  /** The packet, if it has Call-ID `c`. */
  function Of(p: Packet, c: string): seq<nat> {
    if p.Sip? && SipText.CallIdOf(p.raw.text) == Some(c) then [p.raw.id] else []
  }

  /** The packets in a queue that have Call-ID `c`. */
  function Queued(queue: seq<Packet>, c: string): seq<nat> {
    if queue == [] then [] else Of(queue[0], c) + Queued(queue[1..], c)
  }

  lemma {:induction false} QueuedSplits(a: seq<Packet>, b: seq<Packet>, c: string)
    ensures Queued(a + b, c) == Queued(a, c) + Queued(b, c)
  {
    hide Of;
    if a == [] {
      assert a + b == b;
    } else {
      QueuedSplits(a[1..], b, c);
      assert (a + b)[1..] == a[1..] + b;
      Regroup(Of(a[0], c), Queued(a[1..], c), Queued(b, c));
    }
  }

  lemma Regroup(a: seq<nat>, b: seq<nat>, c: seq<nat>)
    ensures a + (b + c) == (a + b) + c
  {
  }

  /** The packet with Call-ID `c` that worker `k` accepts in this event, if any. */
  function Accepted(s: Server, e: Event, k: nat, c: string): seq<nat>
    requires k < MAX_THREADS
  {
    if e.Receive? && Target(e.raw) == Some(k) && SipText.CallIdOf(e.raw.text) == Some(c) && |s[k].queue| < QUEUE_CAPACITY
    then [e.raw.id] else []
  }

  /** The packet with Call-ID `c` that worker `k` handles in this event, if any. */
  function Handled(s: Server, e: Event, k: nat, c: string): seq<nat>
    requires k < MAX_THREADS
  {
    if e.Progress? && e.k == k && e.step.Work? && s[k].queue != [] then Queued(s[k].queue[..1], c) else []
  }

  ghost function AllAccepted(s: Server, events: seq<Event>, k: nat, c: string): seq<nat>
    requires k < MAX_THREADS && IsServerRun(s, events)
    decreases |events|
  {
    if events == [] then []
    else Accepted(s, events[0], k, c) + AllAccepted(After(s, events[0]), events[1..], k, c)
  }

  ghost function AllHandled(s: Server, events: seq<Event>, k: nat, c: string): seq<nat>
    requires k < MAX_THREADS && IsServerRun(s, events)
    decreases |events|
  {
    if events == [] then []
    else Handled(s, events[0], k, c) + AllHandled(After(s, events[0]), events[1..], k, c)
  }

  lemma QueuedOne(p: Packet, c: string)
    ensures Queued([p], c) == Of(p, c)
  {
  }

  /** What an event does to the queue of worker `k`: it takes the front, adds an end, or nothing. */
  lemma QueueAfter(s: Server, e: Event, k: nat)
    requires Possible(s, e) && k < MAX_THREADS
    ensures var q, q' := s[k].queue, After(s, e)[k].queue;
            match e
            case Receive(raw) =>
              q' == if Target(raw) == Some(k) && |q| < QUEUE_CAPACITY then q + [Sip(raw)] else q
            case Progress(j, step) => q' == if j == k && step.Work? then q[1..] else q
            case Expire(_, x) => q' == q || q' == q + [DeleteEvent(x.branch)]
  {
    hide SipText.CallIdOf, Handle, Closed, BackLinks, TxnLinks, CallLinks, Admissible;
  }

  lemma EventOrder(s: Server, e: Event, k: nat, c: string)
    requires Possible(s, e) && k < MAX_THREADS
    ensures Queued(s[k].queue, c) + Accepted(s, e, k, c) == Handled(s, e, k, c) + Queued(After(s, e)[k].queue, c)
  {
    hide SipText.CallIdOf, Handle, Closed, BackLinks, TxnLinks, CallLinks, Admissible, After, Queued;
    QueueAfter(s, e, k);
    var q := s[k].queue;
    match e
    case Receive(raw) =>
      QueuedSplits(q, [Sip(raw)], c);
      QueuedOne(Sip(raw), c);
    case Progress(j, step) =>
      if j == k && step.Work? {
        assert q == q[..1] + q[1..];
        QueuedSplits(q[..1], q[1..], c);
      }
    case Expire(_, x) =>
      QueuedSplits(q, [DeleteEvent(x.branch)], c);
      QueuedOne(DeleteEvent(x.branch), c);
  }

  lemma Rejoin(q: seq<nat>, a: seq<nat>, aa: seq<nat>, h: seq<nat>, q': seq<nat>, hs: seq<nat>, q'': seq<nat>)
    requires q + a == h + q' && q' + aa == hs + q''
    ensures q + (a + aa) == (h + hs) + q''
  {
    assert q + (a + aa) == (q + a) + aa;
    assert h + (q' + aa) == (h + q') + aa;
    assert h + (hs + q'') == (h + hs) + q'';
  }

  /** At every worker, the packets of one Call-ID are handled in the order they were accepted; those
      not handled yet are in the queue, in that order. */
  lemma {:induction false} HandledInOrder(s: Server, events: seq<Event>, k: nat, c: string)
    requires IsServerRun(s, events) && k < MAX_THREADS
    ensures Queued(s[k].queue, c) + AllAccepted(s, events, k, c)
            == AllHandled(s, events, k, c) + Queued(ServerRun(s, events)[k].queue, c)
    decreases |events|
  {
    hide Accepted, Handled, After, Queued, Closed, BackLinks, TxnLinks, CallLinks, Admissible;
    if events != [] {
      var v := After(s, events[0]);
      EventOrder(s, events[0], k, c);
      HandledInOrder(v, events[1..], k, c);
      Rejoin(Queued(s[k].queue, c), Accepted(s, events[0], k, c), AllAccepted(v, events[1..], k, c),
             Handled(s, events[0], k, c), Queued(v[k].queue, c),
             AllHandled(v, events[1..], k, c), Queued(ServerRun(v, events[1..])[k].queue, c));
    }
  }

  /** No worker but the one the Call-ID hashes to ever accepts a packet of it. */
  lemma {:induction false} OneWorkerAccepts(s: Server, events: seq<Event>, k: nat, c: string)
    requires IsServerRun(s, events) && k < MAX_THREADS && k != WorkerOf(c)
    ensures AllAccepted(s, events, k, c) == []
    decreases |events|
  {
    if events != [] { OneWorkerAccepts(After(s, events[0]), events[1..], k, c); }
  }

  /** From an idle server, the packets of a Call-ID are handled by the worker it hashes to, in the order they
      were accepted, and no other worker ever sees one. */
  lemma CallIdInOrder(events: seq<Event>, c: string, k: nat)
    requires IsServerRun(IDLE_SERVER, events) && k < MAX_THREADS
    ensures var accepted, handled := AllAccepted(IDLE_SERVER, events, k, c), AllHandled(IDLE_SERVER, events, k, c);
            var waiting := Queued(ServerRun(IDLE_SERVER, events)[k].queue, c);
            accepted == handled + waiting && (k != WorkerOf(c) ==> handled == waiting == [])
  {
    hide IsServerRun, ServerRun, AllAccepted, AllHandled, WorkerOf;
    HandledInOrder(IDLE_SERVER, events, k, c);
    assert Queued(IDLE_SERVER[k].queue, c) == [];
    if k != WorkerOf(c) { OneWorkerAccepts(IDLE_SERVER, events, k, c); }
  }

  // ---------- each worker alone ----------

  /** What worker `k` sees of an event: its own steps, the packets for it, and the delete events for its queue. */
  function Seen(e: Event, k: nat): seq<Step> {
    match e
    case Receive(raw) => if Target(raw) == Some(k) then [Arrive(raw)] else []
    case Progress(j, step) => if j == k then [step] else []
    case Expire(_, x) => if x.queue == Some(k) then [FireDelete(x)] else []
  }

  function AllSeen(events: seq<Event>, k: nat): seq<Step> {
    if events == [] then [] else Seen(events[0], k) + AllSeen(events[1..], k)
  }

  lemma SeenIsOwn(s: Server, e: Event, k: nat)
    requires Partitioned(s) && Possible(s, e) && k < MAX_THREADS
    ensures if Seen(e, k) == [] then After(s, e)[k] == s[k]
            else Allowed(s[k], Seen(e, k)[0]) && After(s, e)[k] == Next(s[k], Seen(e, k)[0])
  {
    hide Placed, Closed, BackLinks, TxnLinks, CallLinks, Admissible, Arrival, Handle, DeleteExpired, Expired, SipText.CallIdOf;
    PlacedSound(s[k], k);
    match e
    case Expire(j, x) => ExpiresAtHome(s, j, x);
    case _ =>
  }

  /** However the workers, the socket thread and the shared timers interleave, worker `k` makes a run of its
      own: the steps it sees. So what holds of every run of one worker holds of each worker of the server. */
  lemma {:induction false} WorkersAreAlone(s: Server, events: seq<Event>, k: nat)
    requires Partitioned(s) && IsServerRun(s, events) && k < MAX_THREADS
    ensures IsRun(s[k], AllSeen(events, k)) && Run(s[k], AllSeen(events, k)) == ServerRun(s, events)[k]
    decreases |events|
  {
    hide Partitioned, After, Next, Seen, Admissible, Closed, BackLinks, TxnLinks, CallLinks, Enabled;
    if events != [] {
      var e, rest := events[0], events[1..];
      SeenIsOwn(s, e, k);
      SeenOnce(e, k);
      EventKeepsPartition(s, e);
      WorkersAreAlone(After(s, e), rest, k);
      if Seen(e, k) != [] {
        assert AllSeen(events, k)[0] == Seen(e, k)[0] && AllSeen(events, k)[1..] == AllSeen(rest, k);
      } else {
        assert AllSeen(events, k) == AllSeen(rest, k);
      }
    }
  }

  lemma SeenOnce(e: Event, k: nat)
    ensures |Seen(e, k)| <= 1
  {
  }

  /** Delete events stay with the worker whose transaction made them: every transaction and timer of worker `k`
      names its queue, and branch by branch the events it made are in its timers, its queue, handled by it or lost. */
  lemma EventsStayAtHome(events: seq<Event>, k: nat)
    requires IsServerRun(IDLE_SERVER, events) && k < MAX_THREADS
    ensures var r := ServerRun(IDLE_SERVER, events)[k];
            && Good(r) && r.w.self == k
            && (forall t :: t in r.w.txns ==> r.w.txns[t].queue == Some(k))
            && (forall x :: x in r.w.timers.waitAck || x in r.w.timers.deleting ==> x.queue == Some(k))
            && r.w.timers.made == Kept(r.w.timers) + Events(r.queue) + r.handled
  {
    hide IsServerRun, ServerRun, AllSeen, IsRun, Run, Owns, Inv, Kept;
    NothingOwned();
    WorkersAreAlone(IDLE_SERVER, events, k);
    ReachableGood(k, AllSeen(events, k));
    RunKeepsPartition(IDLE_SERVER, events);
    assert Placed(ServerRun(IDLE_SERVER, events)[k], k);
  }
}
