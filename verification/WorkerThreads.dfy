/** A worker thread with its queue: what the socket thread, the timer thread and the thread itself do to it. */
module WorkerThreads {
  import opened SipTypes
  import opened WorkerModel
  import opened Messages
  import opened MessageQueue
  import opened Server
  import opened WorkerSystem
  import Scanner
  import SipText

  /** A packet in the queue. */
  datatype Item = Received(m: SipMessage) | Expired(branch: Ident)

  function PacketOf(x: Item): Packet {
    match x
    case Received(m) => Sip(Raw(m.id, m.addr, m.buffer))
    case Expired(branch) => DeleteEvent(branch)
  }

  function Packets(items: seq<Item>): (r: seq<Packet>)
    ensures |r| == |items| && forall i :: 0 <= i < |items| ==> r[i] == PacketOf(items[i])
  {
    seq(|items|, i requires 0 <= i < |items| => PacketOf(items[i]))
  }

  ghost predicate NoMessageTwice(items: seq<Item>) {
    forall i, j :: 0 <= i < j < |items| && items[i].Received? && items[j].Received? ==> items[i].m != items[j].m
  }

  ghost function MessagesIn(items: seq<Item>): set<SipMessage> {
    set i | 0 <= i < |items| && items[i].Received? :: items[i].m
  }

  lemma MessagesAppend(items: seq<Item>, x: Item)
    ensures MessagesIn(items + [x]) == MessagesIn(items) + (if x.Received? then {x.m} else {})
  {
    var r := items + [x];
    forall m | m in MessagesIn(items) ensures m in MessagesIn(r) {
      var i :| 0 <= i < |items| && items[i].Received? && items[i].m == m;
      assert r[i].m == m;
    }
    assert r[|items|] == x;
  }

  class WorkerThread {
    const worker: SipWorker
    const queue: MessageQueue<Item>
    ghost var received: multiset<nat>
    ghost var handled: multiset<Ident>

    /** The messages in the queue have not been read, each is there once, and none belongs to a transaction. */
    ghost predicate Waiting(items: seq<Item>, taken: set<object>)
      reads MessagesIn(items)
    {
      && NoMessageTwice(items)
      && forall m :: m in MessagesIn(items) ==> m.Unread() && m !in taken
    }

    ghost predicate Valid()
      reads this, queue, queue.messages, worker, worker.transactions, worker.dialogs, worker.calls
      reads worker.transactions.Repr, worker.dialogs.Repr, worker.calls.Repr, MessagesIn(queue.held)
    {
      && worker.Valid() && queue.Valid() && queue.capacity == QUEUE_CAPACITY
      && this !in worker.Repr() && queue !in worker.Repr() && queue.messages !in worker.Repr()
      && Waiting(queue.held, worker.Repr())
    }

    /** The thread as a system of the model. */
    ghost function State(): System
      reads this, queue, worker, worker.transactions, worker.dialogs, worker.calls
    {
      System(worker.Abs(), Packets(queue.held), received, handled)
    }

    constructor (k: nat)
      ensures Valid() && State() == Start(k)
    {
      hide SipWorker.Valid;
      worker := new SipWorker(k);
      queue := new MessageQueue<Item>(QUEUE_CAPACITY);
      received, handled := multiset{}, multiset{};
    }

    /** process_sip_messages, once a packet was taken from the queue. */
    method HandlePacket(x: Item, o: Oracle)
      requires Valid()
      requires x.Received? ==> x.m.Unread() && x.m !in worker.Repr() && x.m !in MessagesIn(queue.held)
      requires Closed(State().w) && BackLinks(State().w) && CallLinks(State().w)
      modifies worker.Repr(), if x.Received? then {x.m} else {}
      ensures Valid() && State() == old(State()).(w := Handle(old(State()).w, PacketOf(x), o))
    {
      hide SipWorker.Valid, SipWorker.Abs, SipMessage.Unread, Handle, Closed, BackLinks, TxnLinks, CallLinks, Packets;
      match x
      case Received(m) => worker.HandleMessage(m, o);
      case Expired(branch) => worker.HandleEvent(branch, o);
    }

    /** A delete event was taken. */
    ghost method Count(x: Item)
      requires Valid()
      modifies this`handled
      ensures Valid() && State() == old(State()).(handled := old(State()).handled +
                (if PacketOf(x).DeleteEvent? then multiset{PacketOf(x).branch} else multiset{}))
    {
      hide SipWorker.Valid, SipWorker.Abs, SipMessage.Unread, Packets;
      if x.Expired? { handled := handled + multiset{x.branch}; }
    }

    lemma HeldIsQueue()
      ensures queue.held != [] <==> State().queue != []
    {
    }

    /** process_sip_messages: one round of the loop. */
    method Round(o: Oracle)
      requires Valid() && State().queue != []
      requires Closed(State().w) && BackLinks(State().w) && CallLinks(State().w)
      modifies this, queue, worker.Repr(), MessagesIn(queue.held)
      ensures Valid() && State() == WorkOn(old(State()), o)
    {
      hide Valid, State, SipWorker.Valid, SipWorker.Repr, SipMessage.Unread, Handle, Closed, BackLinks, TxnLinks, CallLinks, PacketOf;
      HeldIsQueue();
      var x := Take();
      HandlePacket(x, o);
      Count(x);
    }

    /** dequeue_message */
    method Take() returns (x: Item)
      requires Valid() && queue.held != []
      modifies queue
      ensures Valid() && State() == old(State()).(queue := old(State()).queue[1..]) && PacketOf(x) == old(State()).queue[0]
      ensures queue.held == old(queue.held)[1..]
      ensures x.Received? ==>
                x.m in old(MessagesIn(queue.held)) && x.m.Unread() && x.m !in worker.Repr() && x.m !in MessagesIn(queue.held)
    {
      hide SipWorker.Valid, SipWorker.Abs, SipMessage.Unread, Packets;
      ghost var was := queue.held;
      assert was[0].Received? ==> was[0].m in MessagesIn(was);
      x := queue.Dequeue();
      assert Packets(was)[1..] == Packets(was[1..]);
    }

    /** enqueue_message */
    method Enqueue(x: Item) returns (ok: bool)
      requires Valid()
      requires x.Received? ==> x.m.Unread() && x.m !in worker.Repr() && x.m !in MessagesIn(queue.held)
      modifies queue, queue.messages
      ensures Valid() && ok == (|old(State()).queue| < QUEUE_CAPACITY)
      ensures State() == old(State()).(queue := old(State()).queue + if ok then [PacketOf(x)] else [])
    {
      hide SipWorker.Valid, SipWorker.Abs, SipMessage.Unread;
      ghost var was := queue.held;
      ok := queue.Enqueue(x);
      if ok {
        assert queue.held == was + [x];
        MessagesAppend(was, x);
        assert Packets(queue.held) == Packets(was) + [PacketOf(x)];
      }
    }

    /** handle_new_message, once the thread is chosen. `freed` tells what became of the message: without a Call-ID,
        or for a full queue, it is freed; otherwise it waits at the end of the queue. */
    method Receive(m: SipMessage) returns (freed: bool)
      requires Valid() && m.Fresh() && m.callId == None
      requires m !in worker.Repr() && m !in MessagesIn(queue.held)
      modifies this, queue, queue.messages, worker`history, m`callId
      ensures Valid()
      ensures State() == if SipText.CallIdOf(m.buffer).None? then old(State())
                         else Arrival(old(State()), Raw(m.id, m.addr, m.buffer))
      ensures freed <==> SipText.CallIdOf(m.buffer).None? || |old(State()).queue| == QUEUE_CAPACITY
      ensures State().queue == old(State()).queue + if freed then [] else [Sip(Raw(m.id, m.addr, m.buffer))]
    {
      hide SipWorker.Valid, SipWorker.Abs, SipText.Parse, Scanner.FindHeader, Packets, Arrival;
      var callId := m.GetCallId();
      if callId.None? { return true; }
      assert m.Unread();
      QueueBounded();
      freed := Accept(m);
    }

    lemma QueueBounded()
      requires Valid()
      ensures |State().queue| <= QUEUE_CAPACITY
    {
      hide SipWorker.Valid, SipWorker.Abs, SipMessage.Unread;
    }

    method Accept(m: SipMessage) returns (freed: bool)
      requires Valid() && m.Unread() && m !in worker.Repr() && m !in MessagesIn(queue.held)
      modifies this, queue, queue.messages, worker`history
      ensures Valid() && State() == Arrival(old(State()), Raw(m.id, m.addr, m.buffer))
      ensures freed <==> |old(State()).queue| >= QUEUE_CAPACITY
      ensures State().queue == old(State()).queue + if freed then [] else [Sip(Raw(m.id, m.addr, m.buffer))]
    {
      hide SipWorker.Valid, SipWorker.Abs, SipMessage.Unread, Packets;
      received := received + multiset{m.id};
      var ok := Enqueue(Received(m));
      freed := !ok;
      if freed { worker.FreeMessage(m.id); }
    }

    method ChangeTimers(tm: Timers)
      requires Valid()
      modifies worker`timers
      ensures Valid() && State() == old(State()).(w := SetTimers(old(State()).w, tm))
    {
      hide SipWorker.Valid, SipWorker.Abs, SipMessage.Unread, Packets;
      worker.ChangeTimers(tm);
    }

    /** transaction_wait_ack_timeout; `ok` tells whether the delete timer could be started. */
    method WaitAckTimeout(x: Timer, ok: bool)
      requires Valid() && x in worker.timers.waitAck
      modifies worker`timers
      ensures Valid() && State() == old(State()).(w := SetTimers(old(State()).w, AckExpired(old(worker.timers), x, ok)))
    {
      hide Valid, State;
      ChangeTimers(AckExpired(worker.timers, x, ok));
    }

    /** transaction_delete_timeout: a full queue loses the event. */
    method DeleteTimeout(x: Timer)
      requires Valid() && x in worker.timers.deleting
      modifies this, queue, queue.messages, worker`timers
      ensures Valid() && x in old(State()).w.timers.deleting && State() == DeleteExpired(old(State()), x)
    {
      assert worker.timers == State().w.timers;
      hide Valid, State;
      var tm := worker.timers.(deleting := worker.timers.deleting - multiset{x});
      var ok := Enqueue(Expired(x.branch));
      ChangeTimers(if ok then tm else tm.(lost := tm.lost + multiset{x.branch}));
    }
  }
}
