/** A worker with its queue and timers, driven by packets, timers and its own loop in any order. */
module WorkerSystem {
  import opened SipTypes
  import opened WorkerModel
  import opened Invariants
  import opened Deletion
  import SipText

  /** A datagram as received: its address in memory, its sender and its text. */
  datatype Raw = Raw(id: nat, addr: Address, text: string)

  datatype Packet = Sip(raw: Raw) | DeleteEvent(branch: Ident)

  const QUEUE_CAPACITY := 1024

  /** `received` and `handled` record the messages that arrived and the delete events taken from the queue. */
  datatype System = System(w: Worker, queue: seq<Packet>, received: multiset<nat>, handled: multiset<Ident>)

  /** Worker `k` before its first packet. */
  function Start(k: nat): System {
    System(Idle(k), [], multiset{}, multiset{})
  }

  /** One atomic step: the socket thread enqueues, the worker handles the front packet, a timer fires
      (`ok`: its successor could be scheduled), or time passes. */
  datatype Step =
    | Arrive(raw: Raw)
    | Work(o: Oracle)
    | FireAck(x: Timer, ok: bool)
    | FireDelete(x: Timer)
    | Tick(ms: nat)

  predicate Enabled(s: System, step: Step) {
    match step
    case Arrive(raw) => raw.id !in s.received
    case Work(_) => s.queue != []
    case FireAck(x, _) => x in s.w.timers.waitAck
    case FireDelete(x) => x in s.w.timers.deleting
    case Tick(_) => true
  }

  function SetTimers(w: Worker, tm: Timers): Worker {
    w.(timers := tm)
  }

  /** process_sip_messages: one round of the loop on a packet already taken from the queue. */
  function Handle(w: Worker, p: Packet, o: Oracle): Worker
    requires Closed(w) && BackLinks(w) && CallLinks(w)
  {
    match p
    case DeleteEvent(branch) => DeleteTransaction(w, branch, o)
    case Sip(raw) =>
      match SipText.Parse(raw.text)
      case None => Free(w, raw.id)
      case Some(req) => ProcessRequest(w, Message(raw.id, raw.addr, req), o)
  }

  /** handle_new_message, from the queue on: a packet that finds it full is freed. */
  function Arrival(s: System, raw: Raw): System {
    if |s.queue| < QUEUE_CAPACITY
    then s.(received := s.received + multiset{raw.id}, queue := s.queue + [Sip(raw)])
    else s.(received := s.received + multiset{raw.id}, w := Free(s.w, raw.id))
  }

  /** The worker takes the front packet and handles it. */
  function WorkOn(s: System, o: Oracle): System
    requires s.queue != [] && Closed(s.w) && BackLinks(s.w) && CallLinks(s.w)
  {
    var p := s.queue[0];
    s.(queue := s.queue[1..], w := Handle(s.w, p, o),
       handled := s.handled + (if p.DeleteEvent? then multiset{p.branch} else multiset{}))
  }

  /** transaction_wait_ack_timeout: start the delete timer. */
  function AckExpired(tm: Timers, x: Timer, ok: bool): Timers
    requires x in tm.waitAck
  {
    if ok then tm.(waitAck := tm.waitAck - multiset{x},
                   deleting := tm.deleting + multiset{Timer(x.branch, tm.now + DELETE_TIMEOUT, x.queue)})
    else tm.(waitAck := tm.waitAck - multiset{x}, lost := tm.lost + multiset{x.branch})
  }

  /** transaction_delete_timeout: hand the event to the queue; a full queue loses it. */
  function DeleteExpired(s: System, x: Timer): System
    requires x in s.w.timers.deleting
  {
    var tm := s.w.timers.(deleting := s.w.timers.deleting - multiset{x});
    if |s.queue| < QUEUE_CAPACITY then s.(queue := s.queue + [DeleteEvent(x.branch)], w := SetTimers(s.w, tm))
    else s.(w := SetTimers(s.w, tm.(lost := tm.lost + multiset{x.branch})))
  }

  function Later(tm: Timers, ms: nat): Timers {
    tm.(now := tm.now + ms)
  }

  function Next(s: System, step: Step): System
    requires Enabled(s, step) && Closed(s.w) && BackLinks(s.w) && CallLinks(s.w)
  {
    match step
    case Arrive(raw) => Arrival(s, raw)
    case Work(o) => WorkOn(s, o)
    case FireAck(x, ok) => s.(w := SetTimers(s.w, AckExpired(s.w.timers, x, ok)))
    case FireDelete(x) => DeleteExpired(s, x)
    case Tick(ms) => s.(w := SetTimers(s.w, Later(s.w.timers, ms)))
  }

  /** The request about to be handled, if any. */
  function Incoming(s: System): Option<Message> {
    if s.queue == [] || s.queue[0].DeleteEvent? then None
    else
      var raw := s.queue[0].raw;
      match SipText.Parse(raw.text)
      case None => None
      case Some(req) => Some(Message(raw.id, raw.addr, req))
  }

  /** A step that may be taken, with an admissible request if it handles one. */
  ghost predicate Allowed(s: System, step: Step) {
    && Enabled(s, step) && Closed(s.w) && BackLinks(s.w) && CallLinks(s.w)
    && (step.Work? && Incoming(s).Some? ==> Admissible(s.w, Incoming(s).value, step.o))
  }

  /** Every state a run of allowed steps visits, from `s` on. */
  ghost predicate IsRun(s: System, steps: seq<Step>)
    decreases |steps|
  {
    steps == [] || (Allowed(s, steps[0]) && IsRun(Next(s, steps[0]), steps[1..]))
  }

  ghost function Run(s: System, steps: seq<Step>): System
    requires IsRun(s, steps)
    decreases |steps|
  {
    if steps == [] then s else Run(Next(s, steps[0]), steps[1..])
  }

  /** Every allowed step keeps the graph and the coupling of the states. */
  lemma StepKeepsInv(s: System, step: Step)
    requires Inv(s.w) && Allowed(s, step)
    ensures Inv(Next(s, step).w)
  {
    hide Inv, ProcessRequest, DeleteTransaction, Admissible, Closed, BackLinks, TxnLinks, CallLinks, SipText.Parse;
    match step
    case Work(o) =>
      if s.queue[0].DeleteEvent? {
        DeleteKeepsInv(s.w, s.queue[0].branch, o);
      } else if Incoming(s).Some? {
        RequestKeepsInv(s.w, Incoming(s).value, o);
      } else {
        SameGraph(s.w, Next(s, step).w);
      }
    case _ => SameGraph(s.w, Next(s, step).w);
  }

  lemma SameGraph(w: Worker, r: Worker)
    requires Inv(w) && r == w.(timers := r.timers, history := r.history)
    ensures Inv(r)
  {
    hide TxnCoupled, DialogCoupled, DialogHeld, CallCoupled, Lists, TxnLinks, CallLinks, Sizes;
    SameShapeGraph(w, r);
  }

  lemma {:induction false} RunKeepsInv(s: System, steps: seq<Step>)
    requires Inv(s.w) && IsRun(s, steps)
    ensures Inv(Run(s, steps).w)
    decreases |steps|
  {
    if steps != [] {
      StepKeepsInv(s, steps[0]);
      RunKeepsInv(Next(s, steps[0]), steps[1..]);
    }
  }
}
