/** worker_thread_t and the functions that work on it, proved against the operations on values. */
module Server {
  import opened SipTypes
  import opened WorkerModel
  import opened Messages
  import opened Objects
  import opened Responses
  import opened WorkerSystem
  import SipText
  import opened TransactionLists
  import opened DialogLists
  import opened CallLists

  /** Where the stored pointers of a worker lead, and which addresses are in use. */
  datatype Wiring = Wiring(
    txnDialog: map<nat, SipDialog?>, dialogCall: map<nat, SipCall?>,
    dialogSlots: map<nat, seq<SipTransaction?>>, callSlots: map<nat, seq<SipDialog?>>,
    txnAt: map<nat, SipTransaction>, dialogAt: map<nat, SipDialog>, callAt: map<nat, SipCall>,
    txnOrder: seq<nat>, dialogOrder: seq<nat>, callOrder: seq<nat>, nextId: nat)

  // A stored pointer was handed out; while its address is allocated, it leads to the object there.

  ghost predicate ToDialogs(links: map<nat, SipDialog?>, at: map<nat, SipDialog>, n: nat) {
    forall t :: t in links && links[t] != null ==> links[t].id < n && (links[t].id in at ==> at[links[t].id] == links[t])
  }

  ghost predicate ToCalls(links: map<nat, SipCall?>, at: map<nat, SipCall>, n: nat) {
    forall d :: d in links && links[d] != null ==> links[d].id < n && (links[d].id in at ==> at[links[d].id] == links[d])
  }

  ghost predicate SlotsToTransactions(slots: map<nat, seq<SipTransaction?>>, at: map<nat, SipTransaction>, n: nat) {
    forall d, p :: d in slots && p in slots[d] && p != null ==> p.id < n && (p.id in at ==> at[p.id] == p)
  }

  ghost predicate SlotsToDialogs(slots: map<nat, seq<SipDialog?>>, at: map<nat, SipDialog>, n: nat) {
    forall c, p :: c in slots && p in slots[c] && p != null ==> p.id < n && (p.id in at ==> at[p.id] == p)
  }

  ghost predicate PointersSound(g: Wiring) {
    && ToDialogs(g.txnDialog, g.dialogAt, g.nextId)
    && ToCalls(g.dialogCall, g.callAt, g.nextId)
    && SlotsToTransactions(g.dialogSlots, g.txnAt, g.nextId)
    && SlotsToDialogs(g.callSlots, g.dialogAt, g.nextId)
  }

  /** Addresses in use were handed out. */
  ghost predicate AddressesSound(g: Wiring) {
    && (forall t :: t in g.txnAt ==> t < g.nextId) && (forall t :: t in g.txnOrder ==> t < g.nextId)
    && (forall d :: d in g.dialogAt ==> d < g.nextId) && (forall d :: d in g.dialogOrder ==> d < g.nextId)
    && (forall c :: c in g.callAt ==> c < g.nextId) && (forall c :: c in g.callOrder ==> c < g.nextId)
  }

  ghost predicate Sound(g: Wiring) {
    PointersSound(g) && AddressesSound(g)
  }

  lemma TransactionLinked(g: Wiring, t: nat, d: SipDialog?)
    requires Sound(g) && (d != null ==> d.id < g.nextId && d.id in g.dialogAt && g.dialogAt[d.id] == d)
    ensures Sound(g.(txnDialog := g.txnDialog[t := d]))
  {
  }

  lemma DialogLinked(g: Wiring, d: nat, c: SipCall?)
    requires Sound(g) && (c != null ==> c.id < g.nextId && c.id in g.callAt && g.callAt[c.id] == c)
    ensures Sound(g.(dialogCall := g.dialogCall[d := c]))
  {
  }

  lemma DialogSlotted(g: Wiring, d: nat, now: seq<SipTransaction?>, t: SipTransaction?)
    requires Sound(g) && d in g.dialogSlots && (t != null ==> t.id < g.nextId && t.id in g.txnAt && g.txnAt[t.id] == t)
    requires forall p :: p in now ==> p in g.dialogSlots[d] || p == t
    ensures Sound(g.(dialogSlots := g.dialogSlots[d := now]))
  {
  }

  lemma CallSlotted(g: Wiring, c: nat, now: seq<SipDialog?>, d: SipDialog?)
    requires Sound(g) && c in g.callSlots && (d != null ==> d.id < g.nextId && d.id in g.dialogAt && g.dialogAt[d.id] == d)
    requires forall p :: p in now ==> p in g.callSlots[c] || p == d
    ensures Sound(g.(callSlots := g.callSlots[c := now]))
  {
  }

  lemma NothingYet()
    ensures Sound(Wiring(map[], map[], map[], map[], map[], map[], map[], [], [], [], 0))
  {
  }

  lemma ListsShrunk(g: Wiring, txnOrder: seq<nat>, dialogOrder: seq<nat>, callOrder: seq<nat>)
    requires Sound(g) && forall t :: t in txnOrder ==> t in g.txnOrder
    requires (forall d :: d in dialogOrder ==> d in g.dialogOrder) && (forall c :: c in callOrder ==> c in g.callOrder)
    ensures Sound(g.(txnOrder := txnOrder, dialogOrder := dialogOrder, callOrder := callOrder))
  {
  }

  lemma UnlinkWithin(order: seq<nat>, x: nat)
    ensures forall y :: y in Unlink(order, x) ==> y in order
  {
  }

  lemma TransactionFreed(g: Wiring, t: nat)
    requires Sound(g)
    ensures Sound(g.(txnDialog := g.txnDialog - {t}, txnAt := g.txnAt - {t}))
  {
  }

  lemma DialogFreed(g: Wiring, d: nat)
    requires Sound(g)
    ensures Sound(g.(dialogCall := g.dialogCall - {d}, dialogSlots := g.dialogSlots - {d}, dialogAt := g.dialogAt - {d}))
  {
  }

  lemma CallFreed(g: Wiring, c: nat)
    requires Sound(g)
    ensures Sound(g.(callSlots := g.callSlots - {c}, callAt := g.callAt - {c}))
  {
  }

  lemma TransactionAdded(g: Wiring, t: SipTransaction)
    requires Sound(g) && t.id == g.nextId
    ensures Sound(g.(txnDialog := g.txnDialog[t.id := null], txnAt := g.txnAt[t.id := t],
                     txnOrder := [t.id] + g.txnOrder, nextId := t.id + 1))
  {
  }

  lemma DialogAdded(g: Wiring, d: SipDialog)
    requires Sound(g) && d.id == g.nextId
    ensures Sound(g.(dialogCall := g.dialogCall[d.id := null], dialogSlots := g.dialogSlots[d.id := NoTransactions()],
                     dialogAt := g.dialogAt[d.id := d], dialogOrder := [d.id] + g.dialogOrder, nextId := d.id + 1))
  {
  }

  lemma CallAdded(g: Wiring, c: SipCall)
    requires Sound(g) && c.id == g.nextId
    ensures Sound(g.(callSlots := g.callSlots[c.id := NoDialogs()], callAt := g.callAt[c.id := c],
                     callOrder := [c.id] + g.callOrder, nextId := c.id + 1))
  {
  }

  /** Transaction `t` and the dialog it points to are allocated. */
  ghost predicate Attached(w: Worker, t: nat) {
    t in w.txns && (w.txns[t].dialog.Some? ==> w.txns[t].dialog.value in w.dialogs)
  }

  /** The call of the transaction's dialog is allocated, if there is one. */
  ghost predicate CallAttached(w: Worker, t: nat)
    requires Attached(w, t)
  {
    w.txns[t].dialog.Some? ==>
      var d := w.txns[t].dialog.value;
      w.dialogs[d].call.Some? ==> w.dialogs[d].call.value in w.calls
  }

  /** The worker once a BYE was answered, before its transaction is TERMINATED. */
  ghost function ByeAnswer(w: Worker, t: nat, o: Oracle): (r: Worker)
    requires Attached(w, t) && CallAttached(w, t)
    ensures t in r.txns
  {
    var link := w.txns[t].dialog;
    if link.None? || w.dialogs[link.value].call.None? then WorkerModel.Respond(w, t, 404, o.sendError)
    else if w.dialogs[link.value].state == DialogConfirmed then
      var d, c := link.value, w.dialogs[link.value].call.value;
      var w := WorkerModel.Respond(WorkerModel.SetCallState(w, c, CallTerminating), t, 200, o.send200);
      WorkerModel.SetDialogState(WorkerModel.SetCallState(w, c, CallTerminated), d, DialogTerminated)
    else WorkerModel.Respond(w, t, 403, o.sendError)
  }

  /** The rest of process_invite_request once the 100 was sent. */
  ghost function DialogStep(w: Worker, t: nat, o: Oracle): Worker
    requires Attached(w, t) && w.txns[t].message.Some?
  {
    var req := w.txns[t].message.value.req;
    if !o.allocDialog || req.fromTag.length == 0 then FailTxn(w, t, o)
    else WorkerModel.InviteCall(WorkerModel.StartDialog(w, t, req.fromTag, o.toTag), t, w.nextId, o)
  }

  lemma DeleteSteps(w: Worker, t: nat, o: Oracle)
    requires Closed(w) && BackLinks(w) && CallLinks(w) && t in w.txns
    ensures Attached(w, t) && DeleteTxn(w, t).dialogs.Keys == w.dialogs.Keys
    ensures var v, link := DeleteTxn(w, t), w.txns[t].dialog;
            if link.None? || v.dialogs[link.value].state != DialogTerminated then WorkerModel.DeleteFound(w, t, o) == v
            else Droppable(v, link.value) && WorkerModel.DeleteFound(w, t, o) == WorkerModel.DropDialog(v, link.value, o)
  {
    hide DeleteTxn, WorkerModel.DropDialog;
    if w.txns[t].dialog.Some? { LeftDroppable(w, t, w.txns[t].dialog.value); }
  }

  lemma InviteSteps(w: Worker, t: nat, o: Oracle)
    requires Attached(w, t) && w.txns[t].state == TxnIdle && w.txns[t].message.Some?
    ensures var v := WorkerModel.Respond(w, t, 100, o.send100);
            && Attached(v, t)
            && var u := SetTxnState(v, t, TxnProceeding, o);
               && Attached(u, t) && u.txns[t].message.Some?
               && WorkerModel.ProcessInvite(w, t, o) ==
                  if w.txns[t].dialog.Some? then w else if !o.send100 then FailTxn(v, t, o) else DialogStep(u, t, o)
  {
    hide WorkerModel.FailTxn, WorkerModel.InviteCall, WorkerModel.StartDialog, WorkerModel.Respond, SetTxnState;
  }

  lemma StartsCall(w: Worker, t: nat, d: nat)
    requires Attached(w, t) && d in w.dialogs && w.txns[t].dialog == Some(d) && w.txns[t].message.Some?
    ensures var r := WorkerModel.StartCall(w, d, w.txns[t].message.value.req.callId);
            Attached(r, t) && d in r.dialogs && w.nextId in r.calls && r.txns[t].dialog == Some(d)
  {
  }

  lemma StartsDialog(w: Worker, t: nat, o: Oracle)
    requires t in w.txns && w.txns[t].message.Some?
    ensures var fromTag := w.txns[t].message.value.req.fromTag;
            var r := WorkerModel.StartDialog(w, t, fromTag, o.toTag);
            && Attached(r, t) && w.nextId in r.dialogs && r.txns[t].dialog == Some(w.nextId)
            && r.txns[t].message == w.txns[t].message
  {
  }

  /** The transaction a request finds is allocated and has its message. */
  lemma FoundTransaction(w: Worker, t: nat, m: Message)
    requires Closed(w) && FindTxnOf(w, m.req.branch) == Some(t)
    ensures Attached(w, t) && w.txns[t].message.Some?
  {
    hide FindTxn;
  }

  // process_sip_request once the transaction is found: a retransmission, an ACK of an INVITE, anything else.

  lemma RepeatedRequest(w: Worker, t: nat, m: Message, o: Oracle)
    requires Closed(w) && FindTxnOf(w, m.req.branch) == Some(t) && Attached(w, t) && w.txns[t].message.Some?
    requires SameRequest(w.txns[t], m)
    ensures ProcessRequest(w, m, o) == Free(Resend(w, t, o), m.id)
  {
    hide WorkerModel.Resend, FindTxn, WorkerModel.Dispatch, SlotsLive, CallSlotsLive, Free;
  }

  lemma AckRequest(w: Worker, t: nat, m: Message, o: Oracle)
    requires Closed(w) && FindTxnOf(w, m.req.branch) == Some(t) && Attached(w, t) && w.txns[t].message.Some?
    requires !SameRequest(w.txns[t], m) && w.txns[t].message.value.req.kind == INVITE && m.req.kind == ACK
    requires Closed(SetAck(w, t, m)) && t in SetAck(w, t, m).txns
    ensures ProcessRequest(w, m, o) == WorkerModel.Dispatch(SetAck(w, t, m), t, m.req, o)
  {
    hide WorkerModel.Dispatch, FindTxn, SlotsLive, CallSlotsLive, SetAck;
  }

  lemma ForeignRequest(w: Worker, t: nat, m: Message, o: Oracle)
    requires Closed(w) && FindTxnOf(w, m.req.branch) == Some(t) && Attached(w, t) && w.txns[t].message.Some?
    requires !SameRequest(w.txns[t], m) && !(w.txns[t].message.value.req.kind == INVITE && m.req.kind == ACK)
    ensures ProcessRequest(w, m, o) == Free(w, m.id)
  {
    hide WorkerModel.Resend, FindTxn, WorkerModel.Dispatch, SlotsLive, CallSlotsLive, Free;
  }

  lemma NewRequest(w: Worker, m: Message, o: Oracle)
    requires Closed(w) && FindTxnOf(w, m.req.branch) == None
    ensures ProcessRequest(w, m, o) ==
            if !o.allocTxn || m.req.branch.length == 0 then Free(WorkerModel.RespondDirectly(w, m, 500, o.sendError), m.id)
            else WorkerModel.Dispatch(WorkerModel.Adopt(w, m), w.nextId, m.req, o)
  {
    hide WorkerModel.Dispatch, WorkerModel.Adopt, FindTxn;
  }

  lemma ReprGrows(me: object, a: set<object>, b: set<object>, c: set<object>, more: set<object>)
    ensures {me} + a + (b + more) + c == {me} + a + b + c + more
  {
  }

  lemma AckKeepsClosed(w: Worker, t: nat, m: Message)
    requires Closed(w) && t in w.txns
    ensures Closed(SetAck(w, t, m)) && t in SetAck(w, t, m).txns
  {
  }

  class SipWorker {
    const transactions: TransactionList
    const dialogs: DialogList
    const calls: CallList

    // Its number, which stands for the address of its queue.
    const self: nat

    // The next address to hand out, the timers that run for this worker, and what it sent and freed.
    var nextId: nat
    var timers: Timers
    ghost var history: History

    constructor (self: nat)
      ensures Valid() && Abs() == Idle(self) && fresh(Repr())
    {
      NothingYet();
      hide TransactionList.Valid, DialogList.Valid, CallList.Valid, Sound,
           TransactionLists.Registered, DialogLists.Registered, CallLists.Registered;
      transactions := new TransactionList();
      dialogs := new DialogList();
      calls := new CallList();
      this.self := self;
      nextId, timers, history := 0, NO_TIMERS, NO_HISTORY;
    }

    ghost function Repr(): set<object>
      reads transactions`Repr, dialogs`Repr, calls`Repr
    {
      {this} + transactions.Repr + dialogs.Repr + calls.Repr
    }

    /** The state as a value. */
    ghost function Abs(): Worker
      reads this, transactions, dialogs, calls
    {
      Worker(transactions.order, transactions.records, dialogs.order, dialogs.records,
             calls.order, calls.records, nextId, self, timers, history)
    }

    ghost function Wires(): Wiring
      reads this, transactions, dialogs, calls
    {
      Wiring(transactions.links, dialogs.links, dialogs.slots, calls.slots,
             transactions.at, dialogs.at, calls.at, transactions.order, dialogs.order, calls.order, nextId)
    }

    /** The lists share no memory. */
    ghost predicate Apart()
      reads transactions`Repr, dialogs`Repr, calls`Repr
    {
      && this !in transactions.Repr && this !in dialogs.Repr && this !in calls.Repr
      && transactions.Repr !! dialogs.Repr && transactions.Repr !! calls.Repr && dialogs.Repr !! calls.Repr
    }

    /** The three lists are in order and share no memory. */
    ghost predicate Ready()
      reads transactions, dialogs, calls, transactions.Repr, dialogs.Repr, calls.Repr
    {
      && transactions.Valid() && dialogs.Valid() && calls.Valid() && Apart()
      && transactions.Tables() && dialogs.Tables() && calls.Tables()
    }

    ghost predicate Valid()
      reads this, transactions, dialogs, calls, transactions.Repr, dialogs.Repr, calls.Repr
    {
      Ready() && Sound(Wires())
    }

    lemma ReadyIs()
      requires Valid()
      ensures Ready() && Sound(Wires()) && Abs().nextId == nextId == Wires().nextId
    {
    }

    lemma ReadySound()
      requires Ready() && Sound(Wires())
      ensures Valid()
    {
    }

    lemma Open()
      requires Valid()
      ensures transactions.Valid() && dialogs.Valid() && calls.Valid() && Apart()
      ensures transactions.Tables() && dialogs.Tables() && calls.Tables()
      ensures Sound(Wires())
    {
    }

    lemma Close()
      requires transactions.Valid() && dialogs.Valid() && calls.Valid() && Apart()
      requires transactions.Tables() && dialogs.Tables() && calls.Tables()
      requires Sound(Wires())
      ensures Valid()
    {
    }

    /** The allocated objects and the memory they occupy. */
    ghost function Things(): (set<SipTransaction>, set<SipDialog>, set<SipCall>, set<object>)
      reads this, transactions, dialogs, calls
    {
      (transactions.objects, dialogs.objects, calls.objects, Repr())
    }

    /** What was allocated still is, and what was added is new. */
    twostate predicate Grows()
      reads transactions, dialogs, calls
    {
      && fresh(Repr() - old(Repr())) && old(transactions.objects) <= transactions.objects
      && old(dialogs.objects) <= dialogs.objects && old(calls.objects) <= calls.objects
    }

    // The addresses of allocated objects.

    lemma TransactionListed(t: SipTransaction)
      requires Valid() && t in transactions.objects
      ensures t.id in Abs().txns && t.id < nextId && t.id in transactions.at && transactions.at[t.id] == t
    {
      TransactionAt(t);
    }

    lemma DialogListed(d: SipDialog)
      requires Valid() && d in dialogs.objects
      ensures d.id in Abs().dialogs && d.id < nextId && d.id in dialogs.at && dialogs.at[d.id] == d && d.id in dialogs.slots
    {
      DialogAt(d);
    }

    lemma CallListed(c: SipCall)
      requires Valid() && c in calls.objects
      ensures c.id in Abs().calls && c.id < nextId && c.id in calls.at && calls.at[c.id] == c && c.id in calls.slots
    {
      CallAt(c);
    }

    lemma TransactionAt(t: SipTransaction)
      requires Valid() && t in transactions.objects
      ensures t.id in Abs().txns && t.Holds(Abs().txns[t.id])
      ensures t.id < nextId && t.id in transactions.at && transactions.at[t.id] == t
      ensures t.dialog != null && t.dialog.id in Abs().dialogs ==> t.dialog in dialogs.objects
    {
      transactions.Known(t);
    }

    lemma DialogAt(d: SipDialog)
      requires Valid() && d in dialogs.objects
      ensures d.id in Abs().dialogs && d.Holds(Abs().dialogs[d.id])
      ensures d.id < nextId && d.id in dialogs.at && dialogs.at[d.id] == d && d.id in dialogs.slots
      ensures d.call != null && d.call.id in Abs().calls ==> d.call in calls.objects
    {
      dialogs.Known(d);
    }

    lemma CallAt(c: SipCall)
      requires Valid() && c in calls.objects
      ensures c.id in Abs().calls && c.Holds(Abs().calls[c.id])
      ensures c.id < nextId && c.id in calls.at && calls.at[c.id] == c && c.id in calls.slots
    {
      calls.Known(c);
    }

    lemma SlotsTell(d: SipDialog, t: SipTransaction)
      requires Valid() && t in transactions.objects && d in dialogs.objects && d.id in dialogs.slots
      ensures forall p :: p in dialogs.slots[d.id] && p != null && p.id == t.id ==> p == t
    {
    }

    lemma CallSlotsTell(c: SipCall, d: SipDialog)
      requires Valid() && d in dialogs.objects && c in calls.objects && c.id in calls.slots
      ensures forall p :: p in calls.slots[c.id] && p != null && p.id == d.id ==> p == d
    {
    }

    // ---------- states and links ----------

    /** `transaction->state = state` */
    method ChangeState(t: SipTransaction, s: TxnState)
      requires Valid() && t in transactions.objects
      modifies Repr()
      ensures Valid() && Things() == old(Things())
      ensures Abs() == old(Abs()).(txns := old(Abs()).txns[t.id := old(Abs()).txns[t.id].(state := s)])
    {
      hide Valid, TransactionList.Valid, DialogList.Valid, CallList.Valid, Sound,
           TransactionLists.Registered, DialogLists.Registered, CallLists.Registered;
      Open();
      TransactionListed(t);
      transactions.SetState(t, s);
      assert Repr() == old(Repr());
      Close();
    }

    /** The timers that run for this worker change. */
    method ChangeTimers(tm: Timers)
      requires Valid()
      modifies this`timers
      ensures Valid() && Things() == old(Things())
      ensures Abs() == old(Abs()).(timers := tm)
    {
      hide Valid, TransactionList.Valid, DialogList.Valid, CallList.Valid, Sound,
           TransactionLists.Registered, DialogLists.Registered, CallLists.Registered;
      Open();
      timers := tm;
      assert Repr() == old(Repr());
      Close();
    }

    lemma TimersAre()
      ensures timers == Abs().timers && self == Abs().self
    {
    }

    lemma HasList()
      requires Valid()
      ensures transactions in Repr()
    {
    }

    /** set_transaction_state */
    method SetTransactionState(t: SipTransaction, s: TxnState, o: Oracle)
      requires Valid() && t in transactions.objects
      modifies Repr()
      ensures Valid() && Things() == old(Things())
      ensures Abs() == SetTxnState(old(Abs()), t.id, s, o)
    {
      hide Valid, Abs, Schedule;
      TimersAre();
      TransactionAt(t);
      if t.state == s { return; }
      ChangeState(t, s);
      TimersAre();
      TransactionAt(t);
      ChangeTimers(Schedule(timers, t.id, t.branch, t.queue, s, t.id in o.lose));
    }

    /** set_dialog_state */
    method SetDialogState(d: SipDialog, s: DialogState)
      requires Valid() && d in dialogs.objects
      modifies Repr()
      ensures Valid() && Things() == old(Things())
      ensures Abs() == WorkerModel.SetDialogState(old(Abs()), d.id, s)
    {
      hide Valid, TransactionList.Valid, DialogList.Valid, CallList.Valid, Sound,
           TransactionLists.Registered, DialogLists.Registered, CallLists.Registered;
      Open();
      DialogListed(d);
      dialogs.SetState(d, s);
      assert Repr() == old(Repr());
      Close();
    }

    /** set_call_state */
    method SetCallState(c: SipCall, s: CallState)
      requires Valid() && c in calls.objects
      modifies Repr()
      ensures Valid() && Things() == old(Things())
      ensures Abs() == WorkerModel.SetCallState(old(Abs()), c.id, s)
    {
      hide Valid, TransactionList.Valid, DialogList.Valid, CallList.Valid, Sound,
           TransactionLists.Registered, DialogLists.Registered, CallLists.Registered;
      Open();
      CallListed(c);
      calls.SetState(c, s);
      assert Repr() == old(Repr());
      Close();
    }

    /** `t->dialog = d` */
    method PointToDialog(t: SipTransaction, d: SipDialog)
      requires Valid() && t in transactions.objects && d in dialogs.objects
      modifies Repr()
      ensures Valid() && Things() == old(Things())
      ensures Abs() == old(Abs()).(txns := old(Abs()).txns[t.id := old(Abs()).txns[t.id].(dialog := Some(d.id))])
    {
      hide Valid, TransactionList.Valid, DialogList.Valid, CallList.Valid, Sound,
           TransactionLists.Registered, DialogLists.Registered, CallLists.Registered;
      Open();
      TransactionListed(t);
      DialogListed(d);
      TransactionLinked(Wires(), t.id, d);
      transactions.SetDialog(t, d);
      assert Repr() == old(Repr());
      Close();
    }

    /** add_transaction_to_dialog */
    method AddTransactionToDialog(d: SipDialog, t: SipTransaction)
      requires Valid() && t in transactions.objects && d in dialogs.objects
      modifies Repr()
      ensures Valid() && Things() == old(Things())
      ensures Abs() == old(Abs()).(dialogs :=
                old(Abs()).dialogs[d.id := old(Abs()).dialogs[d.id].(slots := AddSlot(old(Abs()).dialogs[d.id].slots, t.id))])
    {
      hide AddSlot, RemoveSlot, Valid, TransactionList.Valid, DialogList.Valid, CallList.Valid, Sound,
           TransactionLists.Registered, DialogLists.Registered, CallLists.Registered;
      Open();
      TransactionListed(t);
      DialogListed(d);
      SlotsTell(d, t);
      dialogs.KnowsAll(d, t);
      dialogs.AddTransaction(d, t);
      DialogSlotted(old(Wires()), d.id, dialogs.slots[d.id], t);
      assert Repr() == old(Repr());
      Close();
    }

    /** set_transaction_dialog */
    method SetTransactionDialog(t: SipTransaction, d: SipDialog)
      requires Valid() && t in transactions.objects && d in dialogs.objects
      modifies Repr()
      ensures Valid() && Things() == old(Things())
      ensures Abs() == SetTxnDialog(old(Abs()), t.id, d.id)
    {
      TransactionAt(t);
      DialogAt(d);
      hide Valid, Abs, AddSlot;
      PointToDialog(t, d);
      AddTransactionToDialog(d, t);
    }

    /** `d->call = c` */
    method PointToCall(d: SipDialog, c: SipCall)
      requires Valid() && d in dialogs.objects && c in calls.objects
      modifies Repr()
      ensures Valid() && Things() == old(Things())
      ensures Abs() == old(Abs()).(dialogs := old(Abs()).dialogs[d.id := old(Abs()).dialogs[d.id].(call := Some(c.id))])
    {
      hide Valid, TransactionList.Valid, DialogList.Valid, CallList.Valid, Sound,
           TransactionLists.Registered, DialogLists.Registered, CallLists.Registered;
      Open();
      DialogListed(d);
      CallListed(c);
      DialogLinked(Wires(), d.id, c);
      dialogs.SetCall(d, c);
      assert Repr() == old(Repr());
      Close();
    }

    /** add_dialog_to_call */
    method AddDialogToCall(c: SipCall, d: SipDialog)
      requires Valid() && d in dialogs.objects && c in calls.objects
      modifies Repr()
      ensures Valid() && Things() == old(Things())
      ensures Abs() == old(Abs()).(calls :=
                old(Abs()).calls[c.id := old(Abs()).calls[c.id].(slots := AddSlot(old(Abs()).calls[c.id].slots, d.id))])
    {
      hide AddSlot, RemoveSlot, Valid, TransactionList.Valid, DialogList.Valid, CallList.Valid, Sound,
           TransactionLists.Registered, DialogLists.Registered, CallLists.Registered;
      Open();
      DialogListed(d);
      CallListed(c);
      CallSlotsTell(c, d);
      calls.KnowsAll(c, d);
      calls.AddDialog(c, d);
      CallSlotted(old(Wires()), c.id, calls.slots[c.id], d);
      assert Repr() == old(Repr());
      Close();
    }

    /** set_dialog_call */
    method SetDialogCall(d: SipDialog, c: SipCall)
      requires Valid() && d in dialogs.objects && c in calls.objects
      modifies Repr()
      ensures Valid() && Things() == old(Things())
      ensures Abs() == WorkerModel.SetDialogCall(old(Abs()), d.id, c.id)
    {
      DialogAt(d);
      CallAt(c);
      hide Valid, Abs, AddSlot;
      PointToCall(d, c);
      AddDialogToCall(c, d);
    }

    // ---------- creation ----------

    /** A new head of the list of transactions, at an address not handed out yet. */
    method PlaceTransaction(n: nat, branch: Ident) returns (t: SipTransaction)
      requires Ready() && n !in transactions.records && n !in transactions.order
      modifies transactions.Repr
      ensures Ready() && Repr() == old(Repr()) + {t} && fresh(t) && t.id == n && nextId == old(nextId)
      ensures transactions.objects == old(transactions.objects) + {t}
      ensures dialogs.objects == old(dialogs.objects) && calls.objects == old(calls.objects)
      ensures Wires() == old(Wires()).(txnDialog := old(Wires()).txnDialog[n := null], txnAt := old(Wires()).txnAt[n := t],
                                       txnOrder := [n] + old(Wires()).txnOrder)
      ensures Abs() == old(Abs()).(txnOrder := [n] + old(Abs()).txnOrder,
                                   txns := old(Abs()).txns[n := TransactionLists.NewTxn(branch)])
    {
      hide Cut, EmptySlots, NoTransactions, NoDialogs, TransactionLists.NewTxn, StoredCallId, Sound,
           TransactionList.Tables, DialogList.Tables, CallList.Tables, TransactionList.Valid, DialogList.Valid, CallList.Valid,
           TransactionLists.Registered, DialogLists.Registered, CallLists.Registered;
      t := transactions.Create(n, branch);
    }

    /** The next address has been handed out. */
    method Advance()
      requires Ready()
      modifies this`nextId
      ensures Ready() && nextId == old(nextId) + 1 && Things() == old(Things())
      ensures Wires() == old(Wires()).(nextId := nextId) && Abs() == old(Abs()).(nextId := nextId)
    {
      hide TransactionList.Tables, DialogList.Tables, CallList.Tables, TransactionList.Valid, DialogList.Valid, CallList.Valid;
      nextId := nextId + 1;
    }

    /** create_new_transaction */
    method CreateTransaction(branch: Ident) returns (t: SipTransaction)
      requires Valid()
      modifies Repr()
      ensures Valid() && fresh(Repr() - old(Repr())) && fresh(t) && t.id == old(Abs()).nextId
      ensures transactions.objects == old(transactions.objects) + {t}
      ensures dialogs.objects == old(dialogs.objects) && calls.objects == old(calls.objects)
      ensures Abs() == CreateTxn(old(Abs()), branch)
    {
      hide Cut, EmptySlots, NoTransactions, NoDialogs, StoredCallId, Valid, Ready, Sound, Abs, Wires;
      ReadyIs();
      NewAddress();
      t := PlaceTransaction(nextId, branch);
      TransactionAdded(old(Wires()), t);
      Advance();
      ReadySound();
    }

    /** A new head of the list of dialogs, at an address not handed out yet. */
    method PlaceDialog(n: nat, fromTag: Ident, toTag: string) returns (d: SipDialog)
      requires Ready() && n !in dialogs.records && n !in dialogs.order
      modifies dialogs.Repr
      ensures Ready() && Repr() == old(Repr()) + {d, d.transaction} && fresh(d) && fresh(d.transaction) && d.id == n
      ensures nextId == old(nextId)
      ensures dialogs.objects == old(dialogs.objects) + {d}
      ensures transactions.objects == old(transactions.objects) && calls.objects == old(calls.objects)
      ensures Wires() == old(Wires()).(dialogCall := old(Wires()).dialogCall[n := null],
                                       dialogSlots := old(Wires()).dialogSlots[n := NoTransactions()],
                                       dialogAt := old(Wires()).dialogAt[n := d], dialogOrder := [n] + old(Wires()).dialogOrder)
      ensures Abs() == old(Abs()).(dialogOrder := [n] + old(Abs()).dialogOrder, dialogs := old(Abs()).dialogs[n :=
                Dialog(EmptySlots(TXN_SLOTS), None, DialogIdle, Cut(fromTag, MAX_ID_LENGTH), toTag)])
    {
      hide Cut, EmptySlots, NoTransactions, NoDialogs, TransactionLists.NewTxn, StoredCallId, Sound,
           TransactionList.Tables, DialogList.Tables, CallList.Tables, TransactionList.Valid, DialogList.Valid, CallList.Valid,
           TransactionLists.Registered, DialogLists.Registered, CallLists.Registered;
      d := dialogs.Create(n, fromTag, toTag);
      ReprGrows(this, transactions.Repr, old(dialogs.Repr), calls.Repr, {d, d.transaction});
    }

    /** create_new_dialog */
    method CreateDialog(fromTag: Ident, toTag: string) returns (d: SipDialog)
      requires Valid()
      modifies Repr()
      ensures Valid() && fresh(Repr() - old(Repr())) && d.id == old(Abs()).nextId
      ensures dialogs.objects == old(dialogs.objects) + {d}
      ensures transactions.objects == old(transactions.objects) && calls.objects == old(calls.objects)
      ensures Abs() == WorkerModel.CreateDialog(old(Abs()), fromTag, toTag)
    {
      hide Cut, EmptySlots, NoTransactions, NoDialogs, TransactionLists.NewTxn, StoredCallId, Valid, Ready, Sound, Abs, Wires;
      ReadyIs();
      NewAddress();
      d := PlaceDialog(nextId, fromTag, toTag);
      DialogAdded(old(Wires()), d);
      Advance();
      ReadySound();
    }

    /** A new head of the list of calls, at an address not handed out yet. */
    method PlaceCall(n: nat, callId: string) returns (c: SipCall)
      requires Ready() && n !in calls.records && n !in calls.order
      modifies calls.Repr
      ensures Ready() && Repr() == old(Repr()) + {c, c.dialog} && fresh(c) && fresh(c.dialog) && c.id == n
      ensures nextId == old(nextId)
      ensures calls.objects == old(calls.objects) + {c}
      ensures transactions.objects == old(transactions.objects) && dialogs.objects == old(dialogs.objects)
      ensures Wires() == old(Wires()).(callSlots := old(Wires()).callSlots[n := NoDialogs()], callAt := old(Wires()).callAt[n := c],
                                       callOrder := [n] + old(Wires()).callOrder)
      ensures Abs() == old(Abs()).(callOrder := [n] + old(Abs()).callOrder, calls := old(Abs()).calls[n :=
                Call(EmptySlots(CALL_SLOTS), CallIdle, StoredCallId(callId))])
    {
      hide Cut, EmptySlots, NoTransactions, NoDialogs, TransactionLists.NewTxn, StoredCallId, Sound,
           TransactionList.Tables, DialogList.Tables, CallList.Tables, TransactionList.Valid, DialogList.Valid, CallList.Valid,
           TransactionLists.Registered, DialogLists.Registered, CallLists.Registered;
      c := calls.Create(n, callId);
    }

    /** create_new_call */
    method CreateCall(callId: string) returns (c: SipCall)
      requires Valid()
      modifies Repr()
      ensures Valid() && fresh(Repr() - old(Repr())) && c.id == old(Abs()).nextId
      ensures calls.objects == old(calls.objects) + {c}
      ensures transactions.objects == old(transactions.objects) && dialogs.objects == old(dialogs.objects)
      ensures Abs() == WorkerModel.CreateCall(old(Abs()), callId)
    {
      hide Cut, EmptySlots, NoTransactions, NoDialogs, TransactionLists.NewTxn, StoredCallId, Valid, Ready, Sound, Abs, Wires;
      ReadyIs();
      NewAddress();
      c := PlaceCall(nextId, callId);
      CallAdded(old(Wires()), c);
      Advance();
      ReadySound();
    }

    /** The next address is not in use. */
    lemma NewAddress()
      requires Sound(Wires()) && Ready()
      ensures nextId !in transactions.at && nextId !in transactions.records && nextId !in transactions.order
      ensures nextId !in dialogs.at && nextId !in dialogs.records && nextId !in dialogs.order
      ensures nextId !in calls.at && nextId !in calls.records && nextId !in calls.order
    {
    }

    // ---------- messages ----------

    /** `transaction->message = message` */
    method SetMessage(t: SipTransaction, m: SipMessage)
      requires Valid() && t in transactions.objects && m !in Repr() && m.Ready() && m.parsed.Some? && m.printed == Empty
      modifies Repr()
      ensures Valid()
      ensures Things() == (old(transactions.objects), old(dialogs.objects), old(calls.objects), old(Repr()) + {m})
      ensures Abs() == old(Abs()).(txns := old(Abs()).txns[t.id :=
                old(Abs()).txns[t.id].(message := Some(Message(m.id, m.addr, m.parsed.value)), response := Empty)])
    {
      hide SipMessage.Ready, Valid, TransactionList.Valid, DialogList.Valid, CallList.Valid, Sound,
           TransactionLists.Registered, DialogLists.Registered, CallLists.Registered;
      Open();
      TransactionListed(t);
      transactions.SetMessage(t, m);
      assert transactions.Valid() && dialogs.Valid() && calls.Valid();
      assert Apart();
      assert Sound(Wires());
      assert Repr() == old(Repr()) + {m};
      Close();
    }

    /** `transaction->queue = &worker->queue` */
    method SetQueue(t: SipTransaction)
      requires Valid() && t in transactions.objects
      modifies transactions`records, t`queue
      ensures Valid() && Things() == old(Things())
      ensures Abs() == old(Abs()).(txns := old(Abs()).txns[t.id := old(Abs()).txns[t.id].(queue := Some(self))])
    {
      hide Valid, TransactionList.Valid, DialogList.Valid, CallList.Valid, Sound,
           TransactionLists.Registered, DialogLists.Registered, CallLists.Registered;
      Open();
      TransactionListed(t);
      transactions.SetQueue(t, Some(self));
      assert Repr() == old(Repr());
      Close();
    }

    /** What became of a message is noted. */
    ghost method Note(h: History)
      requires Valid()
      modifies this`history
      ensures Valid() && Things() == old(Things())
      ensures Abs() == old(Abs()).(history := h)
    {
      hide Valid, TransactionList.Valid, DialogList.Valid, CallList.Valid, Sound,
           TransactionLists.Registered, DialogLists.Registered, CallLists.Registered;
      Open();
      history := h;
      assert Repr() == old(Repr());
      Close();
    }

    method PointToAck(t: SipTransaction, m: SipMessage)
      requires Valid() && t in transactions.objects && m.parsed.Some?
      modifies Repr()
      ensures Valid() && Things() == old(Things())
      ensures Abs() == old(Abs()).(txns := old(Abs()).txns[t.id :=
                old(Abs()).txns[t.id].(ack := Some(Message(m.id, m.addr, m.parsed.value)))])
    {
      hide Valid, TransactionList.Valid, DialogList.Valid, CallList.Valid, Sound,
           TransactionLists.Registered, DialogLists.Registered, CallLists.Registered;
      Open();
      TransactionListed(t);
      transactions.SetAck(t, m);
      assert Repr() == old(Repr());
      Close();
    }

    /** `transaction->ack_message = message` */
    method SetAckMessage(t: SipTransaction, m: SipMessage)
      requires Valid() && t in transactions.objects && m.parsed.Some?
      modifies Repr()
      ensures Valid() && Things() == old(Things())
      ensures Abs() == SetAck(old(Abs()), t.id, Message(m.id, m.addr, m.parsed.value))
    {
      hide Valid, Abs, MessageView;
      TransactionAt(t);
      Note(Abs().history.(displaced := Abs().history.displaced + IdOf(MessageView(t.ackMessage))));
      TransactionAt(t);
      PointToAck(t, m);
    }

    method PrintResponse(t: SipTransaction, m: SipMessage, code: nat, toTag: Option<string>)
      requires Valid() && t in transactions.objects && t.message == m && m.parsed.Some? && StatusCode(code)
      modifies Repr()
      ensures Valid() && Things() == old(Things())
      ensures Abs() == old(Abs()).(txns := old(Abs()).txns[t.id :=
                old(Abs()).txns[t.id].(response := Printed(code, m.parsed.value, toTag))])
    {
      hide Valid, TransactionList.Valid, DialogList.Valid, CallList.Valid, Sound,
           TransactionLists.Registered, DialogLists.Registered, CallLists.Registered;
      Open();
      TransactionListed(t);
      transactions.PrintResponse(t, m, code, toTag);
      assert Repr() == old(Repr());
      Close();
    }

    /** `transaction->final_response_code = code` */
    method SetCode(t: SipTransaction, code: nat)
      requires Valid() && t in transactions.objects
      modifies Repr()
      ensures Valid() && Things() == old(Things())
      ensures Abs() == old(Abs()).(txns := old(Abs()).txns[t.id := old(Abs()).txns[t.id].(code := code)])
    {
      hide Valid, TransactionList.Valid, DialogList.Valid, CallList.Valid, Sound,
           TransactionLists.Registered, DialogLists.Registered, CallLists.Registered;
      Open();
      TransactionListed(t);
      transactions.SetCode(t, code);
      assert Repr() == old(Repr());
      Close();
    }

    // ---------- responses ----------

    /** The dialog pointer of `t` leads to the allocated dialog its record names. */
    lemma Follow(t: SipTransaction)
      requires Valid() && t in transactions.objects && Attached(Abs(), t.id)
      ensures t.dialog != null ==> t.dialog in dialogs.objects && t.dialog.id in Abs().dialogs
      ensures t.dialog != null ==> t.dialog.Holds(Abs().dialogs[t.dialog.id])
      ensures t.Holds(Abs().txns[t.id]) && (t.message != null ==> t.message.parsed.Some?)
    {
      TransactionAt(t);
      transactions.Known(t);
      if t.dialog != null { DialogAt(t.dialog); }
    }

    /** The four `send_*_response_over_transaction` functions. */
    method Respond(t: SipTransaction, code: nat, ok: bool)
      requires Valid() && t in transactions.objects && StatusCode(code) && Attached(Abs(), t.id)
      modifies Repr()
      ensures Valid() && Things() == old(Things())
      ensures Abs() == WorkerModel.Respond(old(Abs()), t.id, code, ok)
    {
      hide Valid, Abs;
      Follow(t);
      var m := t.message;
      if m == null { return; }
      var toTag := None;
      if t.dialog != null { toTag := Some(t.dialog.toTag); }
      ghost var dialog := DialogId(t.dialog);
      PrintResponse(t, m, code, toTag);
      SetCode(t, code);
      Record(Sent(Some(t.id), dialog, m.parsed.value.kind, code, Printed(code, m.parsed.value, toTag), m.addr, ok, false));
    }

    /** One `sendto`. */
    ghost method Record(s: Sent)
      requires Valid()
      modifies this`history
      ensures Valid() && Things() == old(Things())
      ensures Abs() == old(Abs()).(history := Log(old(Abs()).history, s))
    {
      hide Valid, TransactionList.Valid, DialogList.Valid, CallList.Valid, Sound,
           TransactionLists.Registered, DialogLists.Registered, CallLists.Registered;
      Open();
      history := Log(history, s);
      assert Repr() == old(Repr());
      Close();
    }

    /** send_last_response_over_transaction, and the 500 after a failed resend. */
    method Resend(t: SipTransaction, o: Oracle)
      requires Valid() && t in transactions.objects && Attached(Abs(), t.id) && Abs().txns[t.id].message.Some?
      modifies Repr()
      ensures Valid() && Things() == old(Things())
      ensures Abs() == WorkerModel.Resend(old(Abs()), t.id, o)
    {
      hide Valid, Abs;
      Follow(t);
      Stored(t);
      var m := t.message;
      if m.responseLength == 0 {
        Respond(t, 500, o.sendError);
        return;
      }
      Record(Sent(Some(t.id), DialogId(t.dialog), m.parsed.value.kind, t.finalResponseCode, m.printed, m.addr, o.resend, true));
      if !o.resend { Respond(t, 500, o.sendError); }
    }

    /** The stored response is empty exactly when nothing was printed. */
    lemma Stored(t: SipTransaction)
      requires Valid() && t in transactions.objects && t.message != null
      ensures t.message.responseLength == 0 <==> t.message.printed.Empty?
    {
      transactions.Known(t);
      NothingToSendIff(t.message.printed);
    }

    // ---------- request handlers ----------

    method FailTransaction(t: SipTransaction, o: Oracle)
      requires Valid() && t in transactions.objects && Attached(Abs(), t.id)
      modifies Repr()
      ensures Valid() && Things() == old(Things())
      ensures Abs() == FailTxn(old(Abs()), t.id, o)
    {
      hide Valid, Abs;
      Respond(t, 500, o.sendError);
      SetTransactionState(t, TxnCompleted, o);
    }

    method FailCall(t: SipTransaction, d: SipDialog, c: SipCall, o: Oracle)
      requires Valid() && t in transactions.objects && d in dialogs.objects && c in calls.objects
      requires d.id in Abs().dialogs && c.id in Abs().calls && Attached(Abs(), t.id)
      requires Abs().txns[t.id].dialog == Some(d.id)
      modifies Repr()
      ensures Valid() && Things() == old(Things())
      ensures Abs() == WorkerModel.FailCall(old(Abs()), t.id, d.id, c.id, o)
    {
      hide Valid, Abs;
      FailTransaction(t, o);
      SetDialogState(d, DialogTerminated);
      SetCallState(c, CallFailed);
    }

    method RingCall(t: SipTransaction, d: SipDialog, c: SipCall, o: Oracle)
      requires Valid() && t in transactions.objects && d in dialogs.objects && c in calls.objects
      requires d.id in Abs().dialogs && c.id in Abs().calls && Attached(Abs(), t.id)
      requires Abs().txns[t.id].dialog == Some(d.id)
      modifies Repr()
      ensures Valid() && Things() == old(Things())
      ensures Abs() == WorkerModel.RingCall(old(Abs()), t.id, d.id, c.id, o)
    {
      hide Valid, Abs;
      Respond(t, 180, o.send180);
      if !o.send180 {
        FailCall(t, d, c, o);
        return;
      }
      SetCallState(c, CallRinging);
      Respond(t, 200, o.send200);
      if !o.send200 {
        FailCall(t, d, c, o);
        return;
      }
      SetTransactionState(t, TxnTerminated, o);
      SetDialogState(d, DialogConfirmed);
      SetCallState(c, CallEstablished);
    }

    method StartDialog(t: SipTransaction, fromTag: Ident, toTag: string) returns (d: SipDialog)
      requires Valid() && t in transactions.objects
      modifies Repr()
      ensures Valid() && Grows()
      ensures d in dialogs.objects && d.id == old(Abs()).nextId
      ensures Abs() == WorkerModel.StartDialog(old(Abs()), t.id, fromTag, toTag)
    {
      hide Valid, Abs;
      TransactionAt(t);
      d := CreateDialog(fromTag, toTag);
      SetTransactionDialog(t, d);
      SetDialogState(d, DialogEarly);
    }

    method StartCall(d: SipDialog, callId: string) returns (c: SipCall)
      requires Valid() && d in dialogs.objects
      modifies Repr()
      ensures Valid() && Grows()
      ensures c in calls.objects && c.id == old(Abs()).nextId
      ensures Abs() == WorkerModel.StartCall(old(Abs()), d.id, callId)
    {
      hide Valid, Abs;
      DialogAt(d);
      c := CreateCall(callId);
      SetDialogCall(d, c);
      SetCallState(c, CallIncoming);
    }

    method FailDialog(t: SipTransaction, d: SipDialog, o: Oracle)
      requires Valid() && t in transactions.objects && d in dialogs.objects && Attached(Abs(), t.id) && d.id in Abs().dialogs
      modifies Repr()
      ensures Valid() && Things() == old(Things()) && Grows()
      ensures Abs() == WorkerModel.SetDialogState(FailTxn(old(Abs()), t.id, o), d.id, DialogTerminated)
    {
      hide Valid, Abs, FailTxn;
      FailTransaction(t, o);
      SetDialogState(d, DialogTerminated);
    }

    method InviteCall(t: SipTransaction, d: SipDialog, o: Oracle)
      requires Valid() && t in transactions.objects && d in dialogs.objects
      requires d.id in Abs().dialogs && Attached(Abs(), t.id)
      requires Abs().txns[t.id].dialog == Some(d.id) && Abs().txns[t.id].message.Some?
      modifies Repr()
      ensures Valid() && Grows()
      ensures Abs() == WorkerModel.InviteCall(old(Abs()), t.id, d.id, o)
    {
      hide Valid, Abs, FailTxn, WorkerModel.StartCall, WorkerModel.RingCall;
      StartsCall(Abs(), t.id, d.id);
      Follow(t);
      Request(t);
      var callId := t.message.CallIdText();
      if !o.allocCall || callId == "" {
        FailDialog(t, d, o);
        return;
      }
      var c := StartCall(d, callId);
      RingCall(t, d, c, o);
    }

    /** The message of a transaction shows the request its record holds. */
    lemma Request(t: SipTransaction)
      requires Valid() && t in transactions.objects && t.message != null
      ensures t.id in Abs().txns && t.message.Ready() && t.message.parsed.Some?
      ensures Abs().txns[t.id].message == Some(Message(t.message.id, t.message.addr, t.message.parsed.value))
    {
      TransactionAt(t);
      transactions.Known(t);
    }

    /** process_invite_request from the creation of the dialog on. */
    method InviteDialog(t: SipTransaction, o: Oracle)
      requires Valid() && t in transactions.objects && Attached(Abs(), t.id) && Abs().txns[t.id].message.Some?
      modifies Repr()
      ensures Valid() && Grows()
      ensures Abs() == DialogStep(old(Abs()), t.id, o)
    {
      hide Valid, Abs, WorkerModel.FailTxn, WorkerModel.InviteCall, WorkerModel.StartDialog;
      StartsDialog(Abs(), t.id, o);
      Follow(t);
      Request(t);
      var fromTag := t.message.FromTagIdent();
      if !o.allocDialog || fromTag.length == 0 {
        FailTransaction(t, o);
        return;
      }
      var d := StartDialog(t, fromTag, o.toTag);
      InviteCall(t, d, o);
    }

    lemma HasDialog(t: SipTransaction)
      requires Valid() && t in transactions.objects
      ensures t.id in Abs().txns && (t.dialog == null <==> Abs().txns[t.id].dialog.None?)
    {
      TransactionAt(t);
    }

    /** process_invite_request once the 100 was sent. */
    method Proceed(t: SipTransaction, o: Oracle)
      requires Valid() && t in transactions.objects && Attached(Abs(), t.id)
      requires var u := SetTxnState(Abs(), t.id, TxnProceeding, o); Attached(u, t.id) && u.txns[t.id].message.Some?
      modifies Repr()
      ensures Valid() && Grows()
      ensures Abs() == DialogStep(SetTxnState(old(Abs()), t.id, TxnProceeding, o), t.id, o)
    {
      hide Valid, Abs, DialogStep, SetTxnState;
      SetTransactionState(t, TxnProceeding, o);
      InviteDialog(t, o);
    }

    /** process_invite_request */
    method ProcessInvite(t: SipTransaction, o: Oracle)
      requires Valid() && t in transactions.objects && Attached(Abs(), t.id)
      requires Abs().txns[t.id].state == TxnIdle && Abs().txns[t.id].message.Some?
      modifies Repr()
      ensures Valid() && Grows()
      ensures Abs() == WorkerModel.ProcessInvite(old(Abs()), t.id, o)
    {
      hide Valid, Abs, WorkerModel.FailTxn, WorkerModel.InviteCall, WorkerModel.StartDialog,
           WorkerModel.Respond, WorkerModel.ProcessInvite, DialogStep, SetTxnState;
      InviteSteps(Abs(), t.id, o);
      HasDialog(t);
      if t.dialog != null { return; }
      Respond(t, 100, o.send100);
      if !o.send100 {
        FailTransaction(t, o);
        return;
      }
      Proceed(t, o);
    }

    /** process_ack_request */
    method ProcessAck(t: SipTransaction, o: Oracle)
      requires Valid() && t in transactions.objects
      modifies Repr()
      ensures Valid() && Things() == old(Things())
      ensures Abs() == WorkerModel.ProcessAck(old(Abs()), t.id, o)
    {
      SetTransactionState(t, TxnTerminated, o);
    }

    /** The call pointer of `d` leads to the allocated call its record names. */
    lemma FollowCall(d: SipDialog)
      requires Valid() && d in dialogs.objects && d.id in Abs().dialogs
      requires Abs().dialogs[d.id].call.Some? ==> Abs().dialogs[d.id].call.value in Abs().calls
      ensures d.call != null ==> d.call in calls.objects && d.call.id in Abs().calls
      ensures d.Holds(Abs().dialogs[d.id])
    {
      DialogAt(d);
      if d.call != null { CallAt(d.call); }
    }

    /** process_bye_request on a CONFIRMED dialog. */
    method EndCall(t: SipTransaction, d: SipDialog, c: SipCall, o: Oracle)
      requires Valid() && t in transactions.objects && d in dialogs.objects && c in calls.objects
      requires Attached(Abs(), t.id) && d.id in Abs().dialogs && c.id in Abs().calls
      modifies Repr()
      ensures Valid() && Things() == old(Things())
      ensures Abs() ==
              var w := WorkerModel.Respond(WorkerModel.SetCallState(old(Abs()), c.id, CallTerminating), t.id, 200, o.send200);
              WorkerModel.SetDialogState(WorkerModel.SetCallState(w, c.id, CallTerminated), d.id, DialogTerminated)
    {
      hide Valid, Abs;
      SetCallState(c, CallTerminating);
      Respond(t, 200, o.send200);
      SetCallState(c, CallTerminated);
      SetDialogState(d, DialogTerminated);
    }

    /** What process_bye_request answers. */
    method AnswerBye(t: SipTransaction, o: Oracle)
      requires Valid() && t in transactions.objects && Attached(Abs(), t.id) && CallAttached(Abs(), t.id)
      modifies Repr()
      ensures Valid() && Things() == old(Things())
      ensures Abs() == ByeAnswer(old(Abs()), t.id, o)
    {
      hide Valid, Abs, WorkerModel.Respond, WorkerModel.SetCallState, WorkerModel.SetDialogState;
      Follow(t);
      var d := t.dialog;
      if d != null { FollowCall(d); }
      if d == null || d.call == null {
        Respond(t, 404, o.sendError);
      } else if d.state == DialogConfirmed {
        EndCall(t, d, d.call, o);
      } else {
        Respond(t, 403, o.sendError);
      }
    }

    /** process_bye_request */
    method ProcessBye(t: SipTransaction, o: Oracle)
      requires Valid() && t in transactions.objects && Attached(Abs(), t.id) && CallAttached(Abs(), t.id)
      modifies Repr()
      ensures Valid() && Things() == old(Things())
      ensures Abs() == WorkerModel.ProcessBye(old(Abs()), t.id, o)
    {
      hide Valid, Abs, SetTxnState;
      AnswerBye(t, o);
      SetTransactionState(t, TxnTerminated, o);
    }

    /** The answer to the methods the server does not serve. */
    method ProcessOther(t: SipTransaction, o: Oracle)
      requires Valid() && t in transactions.objects && Attached(Abs(), t.id)
      modifies Repr()
      ensures Valid() && Things() == old(Things())
      ensures Abs() == WorkerModel.ProcessOther(old(Abs()), t.id, o)
    {
      hide Valid, Abs;
      Respond(t, 501, o.sendError);
      SetTransactionState(t, TxnTerminated, o);
    }

    // ---------- process_sip_request ----------

    method FindTransaction(text: string, length: nat) returns (t: SipTransaction?)
      requires Valid()
      ensures TxnId(t) == FindTxn(Abs().txnOrder, Abs().txns, text, length)
      ensures t != null ==> t in transactions.objects
    {
      t := transactions.Find(text, length);
    }

    method FindDialog(fromTag: Ident, toTag: Option<Ident>) returns (d: SipDialog?)
      requires Valid()
      ensures DialogId(d) == WorkerModel.FindDialog(Abs().dialogOrder, Abs().dialogs, fromTag, toTag)
      ensures d != null ==> d in dialogs.objects
    {
      d := dialogs.Find(fromTag, toTag);
    }

    method AttachByTags(t: SipTransaction, m: SipMessage)
      requires Valid() && t in transactions.objects && m.Ready() && m.parsed.Some?
      modifies Repr()
      ensures Valid() && Things() == old(Things())
      ensures Abs() == WorkerModel.AttachByTags(old(Abs()), t.id, m.parsed.value)
    {
      hide Valid, Abs;
      TransactionAt(t);
      if t.dialog == null {
        var d := FindDialog(m.FromTagIdent(), m.ToTagIdent());
        if d != null { SetTransactionDialog(t, d); }
      }
    }

    /** The switch on the request method. */
    method Serve(t: SipTransaction, kind: Method, o: Oracle)
      requires Valid() && t in transactions.objects && Closed(Abs()) && t.id in Abs().txns
      requires kind.INVITE? ==> Abs().txns[t.id].state == TxnIdle
      modifies Repr()
      ensures Valid() && Grows()
      ensures Abs() == WorkerModel.Serve(old(Abs()), t.id, kind, o)
    {
      hide Valid, Abs;
      if kind == INVITE { ProcessInvite(t, o); }
      else if kind == ACK { ProcessAck(t, o); }
      else if kind == BYE { ProcessBye(t, o); }
      else { ProcessOther(t, o); }
    }

    /** process_sip_request once the transaction is known. */
    method Dispatch(t: SipTransaction, m: SipMessage, o: Oracle)
      requires Valid() && t in transactions.objects && m.Ready() && m.parsed.Some?
      requires Closed(Abs()) && t.id in Abs().txns
      requires m.parsed.value.kind.INVITE? ==> Abs().txns[t.id].state == TxnIdle
      modifies Repr()
      ensures Valid() && Grows()
      ensures Abs() == WorkerModel.Dispatch(old(Abs()), t.id, m.parsed.value, o)
    {
      hide Valid, Abs, WorkerModel.AttachByTags, WorkerModel.Serve;
      var kind := m.kind;
      AttachClosed(Abs(), t.id, m.parsed.value);
      AttachByTags(t, m);
      Serve(t, kind, o);
    }

    /** cleanup_sip_message */
    ghost method FreeMessage(id: nat)
      requires Valid()
      modifies this`history
      ensures Valid() && Things() == old(Things())
      ensures Abs() == Free(old(Abs()), id)
    {
      hide Valid, TransactionList.Valid, DialogList.Valid, CallList.Valid, Sound,
           TransactionLists.Registered, DialogLists.Registered, CallLists.Registered;
      Open();
      history := history.(freed := history.freed + multiset{id});
      assert Repr() == old(Repr());
      Close();
    }

    /** A new transaction that owns `m`. */
    method Adopt(m: SipMessage) returns (t: SipTransaction)
      requires Valid() && m !in Repr() && m.Ready() && m.parsed.Some? && m.printed == Empty
      modifies Repr()
      ensures Valid() && fresh(Repr() - old(Repr()) - {m}) && old(transactions.objects) <= transactions.objects
      ensures old(dialogs.objects) <= dialogs.objects && old(calls.objects) <= calls.objects
      ensures t in transactions.objects && t.id == old(Abs()).nextId && m.Ready()
      ensures Abs() == WorkerModel.Adopt(old(Abs()), Message(m.id, m.addr, m.parsed.value))
    {
      hide Valid, Abs;
      HasList();
      t := CreateTransaction(m.BranchIdent());
      SetMessage(t, m);
      TimersAre();
      SetQueue(t);
    }

    /** send_sip_error_response: no transaction could be created. */
    method RespondDirectly(m: SipMessage, code: nat, ok: bool)
      requires Valid() && m !in Repr() && m.Ready() && m.parsed.Some? && StatusCode(code)
      modifies this`history, m
      ensures Valid() && Things() == old(Things())
      ensures Abs() == WorkerModel.RespondDirectly(old(Abs()), Message(m.id, m.addr, m.parsed.value), code, ok)
    {
      hide Valid, Abs;
      m.Print(code, None);
      Record(Sent(None, None, m.parsed.value.kind, code, Printed(code, m.parsed.value, None), m.addr, ok, false));
    }

    /** process_sip_request for a request that opens a new transaction. */
    method ServeNew(m: SipMessage, o: Oracle)
      requires Valid() && m !in Repr() && m.Ready() && m.parsed.Some? && m.printed == Empty && Closed(Abs())
      modifies Repr(), m
      ensures Valid() && fresh(Repr() - old(Repr()) - {m}) && old(transactions.objects) <= transactions.objects
      ensures old(dialogs.objects) <= dialogs.objects && old(calls.objects) <= calls.objects
      ensures var msg := Message(m.id, m.addr, m.parsed.value);
              Abs() == if !o.allocTxn || msg.req.branch.length == 0
                       then Free(WorkerModel.RespondDirectly(old(Abs()), msg, 500, o.sendError), m.id)
                       else WorkerModel.Dispatch(WorkerModel.Adopt(old(Abs()), msg), old(Abs()).nextId, msg.req, o)
    {
      hide Valid, Abs, WorkerModel.Adopt, WorkerModel.Dispatch, WorkerModel.RespondDirectly;
      if !o.allocTxn || m.BranchIdent().length == 0 {
        RespondDirectly(m, 500, o.sendError);
        FreeMessage(m.id);
        return;
      }
      var t := Adopt(m);
      Dispatch(t, m, o);
    }

    /** process_sip_request for the ACK of an INVITE. */
    method ServeAck(t: SipTransaction, m: SipMessage, o: Oracle)
      requires Valid() && t in transactions.objects && m !in Repr() && m.Ready() && m.parsed.Some? && Closed(Abs())
      requires FindTxnOf(Abs(), m.parsed.value.branch) == Some(t.id) && m.parsed.value.kind == ACK
      requires var x := Abs().txns[t.id];
               !SameRequest(x, Message(m.id, m.addr, m.parsed.value)) && x.message.value.req.kind == INVITE
      modifies Repr()
      ensures Valid() && Grows()
      ensures Abs() == ProcessRequest(old(Abs()), Message(m.id, m.addr, m.parsed.value), o)
    {
      hide Valid, Abs, WorkerModel.Dispatch, ProcessRequest, Closed, FindTxnOf, SetAck, SameRequest;
      ghost var msg := Message(m.id, m.addr, m.parsed.value);
      FoundTransaction(Abs(), t.id, msg);
      AckKeepsClosed(Abs(), t.id, msg);
      AckRequest(Abs(), t.id, msg, o);
      SetAckMessage(t, m);
      Dispatch(t, m, o);
    }

    /** process_sip_request for a retransmission. */
    method ServeRepeated(t: SipTransaction, m: SipMessage, o: Oracle)
      requires Valid() && t in transactions.objects && Attached(Abs(), t.id) && Abs().txns[t.id].message.Some?
      modifies Repr()
      ensures Valid() && Things() == old(Things()) && Grows()
      ensures Abs() == Free(WorkerModel.Resend(old(Abs()), t.id, o), m.id)
    {
      hide Valid, Abs, WorkerModel.Resend;
      Resend(t, o);
      FreeMessage(m.id);
    }

    /** process_sip_request for another request on a branch in use. */
    method ServeForeign(m: SipMessage)
      requires Valid()
      modifies Repr()
      ensures Valid() && Grows() && Abs() == Free(old(Abs()), m.id)
    {
      hide Valid, Abs;
      FreeMessage(m.id);
    }

    /** process_sip_request for a request whose transaction exists. */
    method ServeKnown(t: SipTransaction, m: SipMessage, o: Oracle)
      requires Valid() && t in transactions.objects && m !in Repr() && m.Ready() && m.parsed.Some? && Closed(Abs())
      requires FindTxnOf(Abs(), m.parsed.value.branch) == Some(t.id)
      modifies Repr()
      ensures Valid() && Grows()
      ensures Abs() == ProcessRequest(old(Abs()), Message(m.id, m.addr, m.parsed.value), o)
    {
      hide Valid, Abs, Grows, Things, WorkerModel.Dispatch, WorkerModel.Resend, ProcessRequest, Closed, FindTxnOf, SetAck,
           Free;
      ghost var msg := Message(m.id, m.addr, m.parsed.value);
      FoundTransaction(Abs(), t.id, msg);
      TransactionAt(t);
      Request(t);
      if m.CseqText() == t.message.CseqText() && m.addr == t.message.addr {
        RepeatedRequest(Abs(), t.id, msg, o);
        ServeRepeated(t, m, o);
      } else if t.message.kind == INVITE && m.kind == ACK {
        ServeAck(t, m, o);
      } else {
        ForeignRequest(Abs(), t.id, msg, o);
        ServeForeign(m);
      }
    }

    /** process_sip_request */
    method ProcessSipRequest(m: SipMessage, o: Oracle)
      requires Valid() && m !in Repr() && m.Ready() && m.parsed.Some? && m.printed == Empty && Closed(Abs())
      modifies Repr(), m
      ensures Valid() && fresh(Repr() - old(Repr()) - {m}) && old(transactions.objects) <= transactions.objects
      ensures old(dialogs.objects) <= dialogs.objects && old(calls.objects) <= calls.objects
      ensures Abs() == ProcessRequest(old(Abs()), Message(m.id, m.addr, m.parsed.value), o)
    {
      hide Valid, Abs, WorkerModel.Adopt, WorkerModel.Dispatch, WorkerModel.RespondDirectly, ProcessRequest, Closed;
      if FindTxnOf(Abs(), m.parsed.value.branch) == None {
        NewRequest(Abs(), Message(m.id, m.addr, m.parsed.value), o);
      }
      var t := FindTransaction(m.BranchIdent().text, m.BranchIdent().length);
      if t == null {
        ServeNew(m, o);
      } else {
        ServeKnown(t, m, o);
      }
    }

    // ---------- cleanup ----------

    /** delete_transaction_by_pointer: the search and the unlinking. */
    method UnlinkTransaction(t: SipTransaction) returns (found: bool)
      requires Valid() && t in transactions.objects
      modifies Repr()
      ensures Valid() && Things() == old(Things())
      ensures found == (t.id in old(Abs()).txnOrder) && t.id !in Abs().txnOrder
      ensures Abs() == old(Abs()).(txnOrder := if found then Unlink(old(Abs()).txnOrder, t.id) else old(Abs()).txnOrder)
    {
      hide Valid, TransactionList.Valid, DialogList.Valid, CallList.Valid, Sound,
           TransactionLists.Registered, DialogLists.Registered, CallLists.Registered;
      Open();
      found := transactions.Unlink(t);
      UnlinkWithin(old(transactions.order), t.id);
      ListsShrunk(old(Wires()), transactions.order, dialogs.order, calls.order);
      assert Repr() == old(Repr());
      Close();
    }

    method UnlinkDialog(d: SipDialog) returns (found: bool)
      requires Valid() && d in dialogs.objects
      modifies Repr()
      ensures Valid() && Things() == old(Things())
      ensures found == (d.id in old(Abs()).dialogOrder) && d.id !in Abs().dialogOrder
      ensures Abs() == old(Abs()).(dialogOrder := if found then Unlink(old(Abs()).dialogOrder, d.id) else old(Abs()).dialogOrder)
    {
      hide Valid, TransactionList.Valid, DialogList.Valid, CallList.Valid, Sound,
           TransactionLists.Registered, DialogLists.Registered, CallLists.Registered;
      Open();
      found := dialogs.Unlink(d);
      UnlinkWithin(old(dialogs.order), d.id);
      ListsShrunk(old(Wires()), transactions.order, dialogs.order, calls.order);
      assert Repr() == old(Repr());
      Close();
    }

    method UnlinkCall(c: SipCall) returns (found: bool)
      requires Valid() && c in calls.objects
      modifies Repr()
      ensures Valid() && Things() == old(Things())
      ensures found == (c.id in old(Abs()).callOrder) && c.id !in Abs().callOrder
      ensures Abs() == old(Abs()).(callOrder := if found then Unlink(old(Abs()).callOrder, c.id) else old(Abs()).callOrder)
    {
      hide Valid, TransactionList.Valid, DialogList.Valid, CallList.Valid, Sound,
           TransactionLists.Registered, DialogLists.Registered, CallLists.Registered;
      Open();
      found := calls.Unlink(c);
      UnlinkWithin(old(calls.order), c.id);
      ListsShrunk(old(Wires()), transactions.order, dialogs.order, calls.order);
      assert Repr() == old(Repr());
      Close();
    }

    /** remove_transaction_from_dialog */
    method RemoveTransactionFromDialog(d: SipDialog, t: SipTransaction)
      requires Valid() && t in transactions.objects && d in dialogs.objects
      modifies Repr()
      ensures Valid() && Things() == old(Things())
      ensures Abs() == old(Abs()).(dialogs :=
                old(Abs()).dialogs[d.id := old(Abs()).dialogs[d.id].(slots := RemoveSlot(old(Abs()).dialogs[d.id].slots, t.id))])
    {
      hide AddSlot, RemoveSlot, Valid, TransactionList.Valid, DialogList.Valid, CallList.Valid, Sound,
           TransactionLists.Registered, DialogLists.Registered, CallLists.Registered;
      Open();
      TransactionListed(t);
      DialogListed(d);
      SlotsTell(d, t);
      dialogs.KnowsAll(d, t);
      dialogs.RemoveTransaction(d, t);
      DialogSlotted(old(Wires()), d.id, dialogs.slots[d.id], null);
      assert Repr() == old(Repr());
      Close();
    }

    /** remove_dialog_from_call */
    method RemoveDialogFromCall(c: SipCall, d: SipDialog)
      requires Valid() && d in dialogs.objects && c in calls.objects
      modifies Repr()
      ensures Valid() && Things() == old(Things())
      ensures Abs() == old(Abs()).(calls :=
                old(Abs()).calls[c.id := old(Abs()).calls[c.id].(slots := RemoveSlot(old(Abs()).calls[c.id].slots, d.id))])
    {
      hide AddSlot, RemoveSlot, Valid, TransactionList.Valid, DialogList.Valid, CallList.Valid, Sound,
           TransactionLists.Registered, DialogLists.Registered, CallLists.Registered;
      Open();
      DialogListed(d);
      CallListed(c);
      CallSlotsTell(c, d);
      calls.KnowsAll(c, d);
      calls.RemoveDialog(c, d);
      CallSlotted(old(Wires()), c.id, calls.slots[c.id], null);
      assert Repr() == old(Repr());
      Close();
    }

    /** `free(transaction)`, after its messages. */
    ghost method ReleaseTransaction(t: SipTransaction)
      requires Valid() && t in transactions.objects && t.id !in Abs().txnOrder
      modifies Repr()
      ensures Valid()
      ensures Things() == (old(transactions.objects) - {t}, old(dialogs.objects), old(calls.objects), old(Repr()))
      ensures Abs() == old(Abs()).(txns := old(Abs()).txns - {t.id})
    {
      hide Valid, TransactionList.Valid, DialogList.Valid, CallList.Valid, Sound,
           TransactionLists.Registered, DialogLists.Registered, CallLists.Registered;
      Open();
      TransactionListed(t);
      TransactionLists.RegisteredLess(transactions.objects, transactions.at, t);
      transactions.Release(t);
      TransactionFreed(old(Wires()), t.id);
      assert Repr() == old(Repr());
      Close();
    }

    /** Its messages are freed with it. */
    ghost method FreeTransaction(t: SipTransaction)
      requires Valid() && t in transactions.objects && t.id !in Abs().txnOrder && t.id in Abs().txns
      modifies Repr()
      ensures Valid()
      ensures Things() == (old(transactions.objects) - {t}, old(dialogs.objects), old(calls.objects), old(Repr()))
      ensures var x := old(Abs()).txns[t.id];
              Abs() == old(Abs()).(
                txns := old(Abs()).txns - {t.id},
                history := old(Abs()).history.(freed := old(Abs()).history.freed + IdOf(x.message) + IdOf(x.ack)))
    {
      hide Valid, Abs, IdOf;
      ghost var x := Abs().txns[t.id];
      Note(Abs().history.(freed := Abs().history.freed + IdOf(x.message) + IdOf(x.ack)));
      ReleaseTransaction(t);
    }

    /** `free(dialog)` */
    ghost method FreeDialog(d: SipDialog)
      requires Valid() && d in dialogs.objects && d.id !in Abs().dialogOrder
      modifies Repr()
      ensures Valid()
      ensures Things() == (old(transactions.objects), old(dialogs.objects) - {d}, old(calls.objects), old(Repr()))
      ensures Abs() == old(Abs()).(dialogs := old(Abs()).dialogs - {d.id})
    {
      hide Valid, TransactionList.Valid, DialogList.Valid, CallList.Valid, Sound,
           TransactionLists.Registered, DialogLists.Registered, CallLists.Registered;
      Open();
      DialogListed(d);
      DialogLists.RegisteredLess(dialogs.objects, dialogs.at, d);
      dialogs.Release(d);
      DialogFreed(old(Wires()), d.id);
      Close();
    }

    /** `free(call)` */
    ghost method FreeCall(c: SipCall)
      requires Valid() && c in calls.objects && c.id !in Abs().callOrder
      modifies Repr()
      ensures Valid()
      ensures Things() == (old(transactions.objects), old(dialogs.objects), old(calls.objects) - {c}, old(Repr()))
      ensures Abs() == old(Abs()).(calls := old(Abs()).calls - {c.id})
    {
      hide Valid, TransactionList.Valid, DialogList.Valid, CallList.Valid, Sound,
           TransactionLists.Registered, DialogLists.Registered, CallLists.Registered;
      Open();
      CallListed(c);
      CallLists.RegisteredLess(calls.objects, calls.at, c);
      calls.Release(c);
      CallFreed(old(Wires()), c.id);
      Close();
    }

    /** `transaction->dialog = NULL` */
    method ClearDialog(t: SipTransaction)
      requires Valid() && t in transactions.objects
      modifies Repr()
      ensures Valid() && Things() == old(Things())
      ensures Abs() == old(Abs()).(txns := old(Abs()).txns[t.id := old(Abs()).txns[t.id].(dialog := None)])
    {
      hide Valid, TransactionList.Valid, DialogList.Valid, CallList.Valid, Sound,
           TransactionLists.Registered, DialogLists.Registered, CallLists.Registered;
      Open();
      TransactionListed(t);
      TransactionLinked(Wires(), t.id, null);
      transactions.SetDialog(t, null);
      assert Repr() == old(Repr());
      Close();
    }

    /** `dialog->call = NULL` */
    method ClearCall(d: SipDialog)
      requires Valid() && d in dialogs.objects
      modifies Repr()
      ensures Valid() && Things() == old(Things())
      ensures Abs() == old(Abs()).(dialogs := old(Abs()).dialogs[d.id := old(Abs()).dialogs[d.id].(call := None)])
    {
      hide Valid, TransactionList.Valid, DialogList.Valid, CallList.Valid, Sound,
           TransactionLists.Registered, DialogLists.Registered, CallLists.Registered;
      Open();
      DialogListed(d);
      DialogLinked(Wires(), d.id, null);
      dialogs.SetCall(d, null);
      assert Repr() == old(Repr());
      Close();
    }

    /** `dialog->transaction[i] = NULL` */
    method ClearTransactionSlot(d: SipDialog, i: nat)
      requires Valid() && d in dialogs.objects && i < TXN_SLOTS && SlotsLive(Abs(), d.id)
      modifies Repr()
      ensures Valid() && Things() == old(Things())
      ensures Abs() == old(Abs()).(dialogs :=
                old(Abs()).dialogs[d.id := old(Abs()).dialogs[d.id].(slots := old(Abs()).dialogs[d.id].slots[i := None])])
    {
      hide Valid, TransactionList.Valid, DialogList.Valid, CallList.Valid, Sound,
           TransactionLists.Registered, DialogLists.Registered, CallLists.Registered;
      Open();
      DialogListed(d);
      dialogs.ClearSlot(d, i);
      DialogSlotted(old(Wires()), d.id, dialogs.slots[d.id], null);
      assert Repr() == old(Repr());
      Close();
    }

    /** `call->dialog[i] = NULL` */
    method ClearDialogSlot(c: SipCall, i: nat)
      requires Valid() && c in calls.objects && i < CALL_SLOTS && CallSlotsLive(Abs(), c.id)
      modifies Repr()
      ensures Valid() && Things() == old(Things())
      ensures Abs() == old(Abs()).(calls :=
                old(Abs()).calls[c.id := old(Abs()).calls[c.id].(slots := old(Abs()).calls[c.id].slots[i := None])])
    {
      hide Valid, TransactionList.Valid, DialogList.Valid, CallList.Valid, Sound,
           TransactionLists.Registered, DialogLists.Registered, CallLists.Registered;
      Open();
      CallListed(c);
      calls.ClearSlot(c, i);
      CallSlotted(old(Wires()), c.id, calls.slots[c.id], null);
      assert Repr() == old(Repr());
      Close();
    }

    /** cleanup_transaction */
    method CleanupTransaction(t: SipTransaction)
      requires Valid() && t in transactions.objects && t.id !in Abs().txnOrder && Attached(Abs(), t.id)
      modifies Repr()
      ensures Valid()
      ensures Things() == (old(transactions.objects) - {t}, old(dialogs.objects), old(calls.objects), old(Repr()))
      ensures Abs() == CleanupTxn(old(Abs()), t.id)
    {
      hide Valid, Abs;
      Follow(t);
      var d := t.dialog;
      if d != null { RemoveTransactionFromDialog(d, t); }
      FreeTransaction(t);
    }

    /** delete_transaction_by_pointer */
    method DeleteTransactionByPointer(t: SipTransaction)
      requires Valid() && t in transactions.objects && Attached(Abs(), t.id)
      modifies Repr()
      ensures Valid() && dialogs.objects == old(dialogs.objects) && calls.objects == old(calls.objects)
      ensures Repr() == old(Repr())
      ensures transactions.objects <= old(transactions.objects)
      ensures Abs() == DeleteTxn(old(Abs()), t.id)
    {
      hide Valid, Abs, CleanupTxn;
      var found := UnlinkTransaction(t);
      if found { CleanupTransaction(t); }
    }

    /** The pointer in a slot leads to the allocated transaction the record names. */
    lemma SlotAt(d: SipDialog, i: nat)
      requires Valid() && d in dialogs.objects && i < TXN_SLOTS && SlotsLive(Abs(), d.id)
      ensures i < d.transaction.Length && TxnId(d.transaction[i]) == Abs().dialogs[d.id].slots[i]
      ensures d.transaction[i] != null ==> d.transaction[i] in transactions.objects
    {
      DialogAt(d);
      dialogs.Known(d);
      assert dialogs.slots[d.id][i] == d.transaction[i];
    }

    /** One round of the loop of cleanup_dialog. */
    method DetachTransaction(d: SipDialog, i: nat, o: Oracle)
      requires Valid() && d in dialogs.objects && i < TXN_SLOTS && SlotsLive(Abs(), d.id)
      modifies Repr()
      ensures Valid() && Things() == old(Things())
      ensures Abs() == DetachSlot(old(Abs()), d.id, i, o) && Abs().dialogOrder == old(Abs()).dialogOrder
    {
      hide Valid, Abs;
      SlotAt(d, i);
      var t := d.transaction[i];
      if t != null {
        if t.state != TxnTerminated { SetTransactionState(t, TxnTerminated, o); } else { TransactionAt(t); }
        ClearDialog(t);
        ClearTransactionSlot(d, i);
      }
    }

    /** cleanup_dialog on the attached transactions. */
    method DetachTransactions(d: SipDialog, o: Oracle)
      requires Valid() && d in dialogs.objects && SlotsLive(Abs(), d.id)
      modifies Repr()
      ensures Valid() && Things() == old(Things())
      ensures Abs() == DetachFrom(old(Abs()), d.id, 0, o) && Abs().dialogOrder == old(Abs()).dialogOrder
    {
      hide Valid, Abs, DetachSlot;
      for i := 0 to TXN_SLOTS
        invariant Valid() && Things() == old(Things()) && SlotsLive(Abs(), d.id)
        invariant DetachFrom(old(Abs()), d.id, 0, o) == DetachFrom(Abs(), d.id, i, o)
        invariant Abs().dialogOrder == old(Abs()).dialogOrder
      {
        DetachTransaction(d, i, o);
      }
    }

    /** cleanup_dialog */
    method CleanupDialog(d: SipDialog, o: Oracle)
      requires Valid() && d in dialogs.objects && d.id !in Abs().dialogOrder && SlotsLive(Abs(), d.id)
      requires Abs().dialogs[d.id].call.Some? ==> Abs().dialogs[d.id].call.value in Abs().calls
      modifies Repr()
      ensures Valid()
      ensures Things() == (old(transactions.objects), old(dialogs.objects) - {d}, old(calls.objects), old(Repr()))
      ensures Abs() == WorkerModel.CleanupDialog(old(Abs()), d.id, o)
    {
      hide Valid, Abs;
      DetachTransactions(d, o);
      FollowCall(d);
      var c := d.call;
      if c != null { RemoveDialogFromCall(c, d); }
      FreeDialog(d);
    }

    /** delete_dialog_by_pointer */
    method DeleteDialogByPointer(d: SipDialog, o: Oracle)
      requires Valid() && d in dialogs.objects && SlotsLive(Abs(), d.id)
      requires Abs().dialogs[d.id].call.Some? ==> Abs().dialogs[d.id].call.value in Abs().calls
      modifies Repr()
      ensures Valid() && transactions.objects == old(transactions.objects) && calls.objects == old(calls.objects)
      ensures Repr() == old(Repr())
      ensures dialogs.objects <= old(dialogs.objects)
      ensures Abs() == DeleteDialog(old(Abs()), d.id, o)
    {
      hide Valid, Abs, WorkerModel.CleanupDialog;
      var found := UnlinkDialog(d);
      if found { CleanupDialog(d, o); }
    }

    lemma CallSlotAt(c: SipCall, i: nat)
      requires Valid() && c in calls.objects && i < CALL_SLOTS && CallSlotsLive(Abs(), c.id)
      ensures i < c.dialog.Length && DialogId(c.dialog[i]) == Abs().calls[c.id].slots[i]
      ensures c.dialog[i] != null ==> c.dialog[i] in dialogs.objects
    {
      CallAt(c);
      calls.Known(c);
      assert calls.slots[c.id][i] == c.dialog[i];
    }

    /** One round of the loop of cleanup_call. */
    method DetachDialog(c: SipCall, i: nat)
      requires Valid() && c in calls.objects && i < CALL_SLOTS && CallSlotsLive(Abs(), c.id)
      modifies Repr()
      ensures Valid() && Things() == old(Things())
      ensures Abs() == DetachDialogSlot(old(Abs()), c.id, i)
    {
      hide Valid, Abs;
      CallSlotAt(c, i);
      var d := c.dialog[i];
      if d != null {
        DialogAt(d);
        if d.state != DialogTerminated { SetDialogState(d, DialogTerminated); }
        ClearCall(d);
        ClearDialogSlot(c, i);
      }
    }

    /** cleanup_call on the dialogs it holds. */
    method DetachDialogs(c: SipCall)
      requires Valid() && c in calls.objects && CallSlotsLive(Abs(), c.id)
      modifies Repr()
      ensures Valid() && Things() == old(Things())
      ensures Abs() == DetachDialogsFrom(old(Abs()), c.id, 0)
    {
      hide Valid, Abs, DetachDialogSlot;
      for i := 0 to CALL_SLOTS
        invariant Valid() && Things() == old(Things()) && CallSlotsLive(Abs(), c.id)
        invariant DetachDialogsFrom(old(Abs()), c.id, 0) == DetachDialogsFrom(Abs(), c.id, i)
      {
        DetachDialog(c, i);
      }
    }

    /** delete_call_by_pointer and cleanup_call */
    method DeleteCallByPointer(c: SipCall)
      requires Valid() && c in calls.objects && CallSlotsLive(Abs(), c.id)
      modifies Repr()
      ensures Valid() && transactions.objects == old(transactions.objects) && dialogs.objects == old(dialogs.objects)
      ensures Repr() == old(Repr())
      ensures Abs() == DeleteCall(old(Abs()), c.id)
    {
      hide Valid, Abs;
      var found := UnlinkCall(c);
      if found {
        DetachDialogs(c);
        FreeCall(c);
      }
    }

    /** delete_transaction from the TERMINATED dialog on. */
    method DropDialog(d: SipDialog, o: Oracle)
      requires Valid() && d in dialogs.objects && Droppable(Abs(), d.id)
      modifies Repr()
      ensures Valid() && Repr() == old(Repr())
      ensures Abs() == WorkerModel.DropDialog(old(Abs()), d.id, o)
    {
      hide Valid, Abs, DeleteDialog, DeleteCall;
      FollowCall(d);
      var c := d.call;
      DeleteDialogByPointer(d, o);
      if c != null {
        CallAt(c);
        if c.state == CallTerminated { DeleteCallByPointer(c); }
      }
    }

    method DeleteFound(t: SipTransaction, o: Oracle)
      requires Valid() && t in transactions.objects && t.id in Abs().txns
      requires Closed(Abs()) && BackLinks(Abs()) && CallLinks(Abs())
      modifies Repr()
      ensures Valid() && Repr() == old(Repr())
      ensures Abs() == WorkerModel.DeleteFound(old(Abs()), t.id, o)
    {
      hide Valid, Abs, DeleteTxn, WorkerModel.DropDialog, WorkerModel.DeleteFound, Droppable, Closed, BackLinks, TxnLinks, CallLinks;
      DeleteSteps(Abs(), t.id, o);
      Follow(t);
      var d := t.dialog;
      DeleteTransactionByPointer(t);
      if d != null {
        DialogAt(d);
        if d.state == DialogTerminated { DropDialog(d, o); }
      }
    }

    /** delete_transaction */
    method DeleteTransaction(branch: Ident, o: Oracle)
      requires Valid() && Closed(Abs()) && BackLinks(Abs()) && CallLinks(Abs())
      modifies Repr()
      ensures Valid() && Repr() == old(Repr())
      ensures Abs() == WorkerModel.DeleteTransaction(old(Abs()), branch, o)
    {
      hide Valid, Abs, WorkerModel.DeleteFound;
      var t := FindTransaction(branch.text, branch.length);
      if t != null { DeleteFound(t, o); }
    }

    /** process_sip_messages: one incoming message. */
    method HandleMessage(m: SipMessage, o: Oracle)
      requires Valid() && m !in Repr() && m.Unread()
      requires Closed(Abs()) && BackLinks(Abs()) && CallLinks(Abs())
      modifies Repr(), m
      ensures Valid() && fresh(Repr() - old(Repr()) - {m})
      ensures Abs() == Handle(old(Abs()), Sip(Raw(m.id, m.addr, m.buffer)), o)
    {
      hide Valid, Abs, ProcessRequest, SipText.Parse, SipMessage.Ready, SipMessage.Unread, Closed, BackLinks, TxnLinks,
           CallLinks, SipText.Verdict;
      m.UnreadParsed();
      var err := m.ParseMessage();
      if err != SipText.ERROR_NONE {
        FreeMessage(m.id);
      } else {
        ProcessSipRequest(m, o);
      }
    }

    /** process_sip_messages: one delete event. */
    method HandleEvent(branch: Ident, o: Oracle)
      requires Valid() && Closed(Abs()) && BackLinks(Abs()) && CallLinks(Abs())
      modifies Repr()
      ensures Valid() && Repr() == old(Repr())
      ensures Abs() == Handle(old(Abs()), DeleteEvent(branch), o)
    {
      hide Valid, Abs, WorkerModel.DeleteTransaction;
      DeleteTransaction(branch, o);
    }
  }
}
