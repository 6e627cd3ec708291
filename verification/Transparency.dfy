/** Retransmitted requests leave no trace: only the log and the stored responses can tell. */
module Transparency {
  import opened SipTypes
  import opened WorkerModel
  import opened Invariants
  import opened WorkerSystem
  import SipText
  import Responses

  /** The same lists, transactions, dialogs, calls, links, states and timers. */
  ghost predicate Alike(a: Worker, b: Worker) {
    && a.txnOrder == b.txnOrder && a.txns.Keys == b.txns.Keys
    && (forall t :: t in a.txns ==> a.txns[t] == b.txns[t].(response := a.txns[t].response, code := a.txns[t].code))
    && a.dialogOrder == b.dialogOrder && a.dialogs == b.dialogs
    && a.callOrder == b.callOrder && a.calls == b.calls
    && a.nextId == b.nextId && a.self == b.self && a.timers == b.timers
  }

  lemma AlikeState(a: Worker, b: Worker, t: nat, s: TxnState, o: Oracle)
    requires Alike(a, b) && t in a.txns
    ensures Alike(SetTxnState(a, t, s, o), SetTxnState(b, t, s, o))
  {
  }

  lemma AlikeRespond(a: Worker, b: Worker, t: nat, code: nat, ok: bool)
    requires Alike(a, b) && t in a.txns && StatusCode(code)
    requires a.txns[t].dialog.Some? ==> a.txns[t].dialog.value in a.dialogs
    ensures Alike(Respond(a, t, code, ok), Respond(b, t, code, ok)) && Alike(Respond(a, t, code, ok), b)
  {
  }

  lemma AlikeFail(a: Worker, b: Worker, t: nat, o: Oracle)
    requires Alike(a, b) && t in a.txns
    requires a.txns[t].dialog.Some? ==> a.txns[t].dialog.value in a.dialogs
    ensures Alike(FailTxn(a, t, o), FailTxn(b, t, o))
  {
    AlikeRespond(a, b, t, 500, o.sendError);
    AlikeState(Respond(a, t, 500, o.sendError), Respond(b, t, 500, o.sendError), t, TxnCompleted, o);
  }

  lemma AlikeFailCall(a: Worker, b: Worker, t: nat, d: nat, c: nat, o: Oracle)
    requires Alike(a, b) && t in a.txns && d in a.dialogs && c in a.calls && a.txns[t].dialog == Some(d)
    ensures Alike(FailCall(a, t, d, c, o), FailCall(b, t, d, c, o))
  {
    AlikeFail(a, b, t, o);
  }

  lemma AlikeAnswer(a: Worker, b: Worker, t: nat, d: nat, c: nat, o: Oracle)
    requires Alike(a, b) && t in a.txns && d in a.dialogs && c in a.calls && a.txns[t].dialog == Some(d)
    ensures Alike(SetCallState(SetDialogState(SetTxnState(a, t, TxnTerminated, o), d, DialogConfirmed), c, CallEstablished),
                  SetCallState(SetDialogState(SetTxnState(b, t, TxnTerminated, o), d, DialogConfirmed), c, CallEstablished))
  {
    AlikeState(a, b, t, TxnTerminated, o);
  }

  lemma AlikeRing(a: Worker, b: Worker, t: nat, d: nat, c: nat, o: Oracle)
    requires Alike(a, b) && t in a.txns && d in a.dialogs && c in a.calls && a.txns[t].dialog == Some(d)
    ensures Alike(RingCall(a, t, d, c, o), RingCall(b, t, d, c, o))
  {
    var a1, b1 := Respond(a, t, 180, o.send180), Respond(b, t, 180, o.send180);
    AlikeRespond(a, b, t, 180, o.send180);
    if !o.send180 {
      AlikeFailCall(a1, b1, t, d, c, o);
    } else {
      var a2, b2 := SetCallState(a1, c, CallRinging), SetCallState(b1, c, CallRinging);
      var a3, b3 := Respond(a2, t, 200, o.send200), Respond(b2, t, 200, o.send200);
      AlikeRespond(a2, b2, t, 200, o.send200);
      if !o.send200 { AlikeFailCall(a3, b3, t, d, c, o); } else { AlikeAnswer(a3, b3, t, d, c, o); }
    }
  }

  lemma AlikeInviteCall(a: Worker, b: Worker, t: nat, d: nat, o: Oracle)
    requires Alike(a, b) && t in a.txns && d in a.dialogs && a.txns[t].dialog == Some(d) && a.txns[t].message.Some?
    ensures Alike(InviteCall(a, t, d, o), InviteCall(b, t, d, o))
  {
    var callId := a.txns[t].message.value.req.callId;
    if !o.allocCall || callId == "" {
      AlikeFail(a, b, t, o);
    } else {
      AlikeRing(StartCall(a, d, callId), StartCall(b, d, callId), t, d, a.nextId, o);
    }
  }

  lemma AlikeStartDialog(a: Worker, b: Worker, t: nat, fromTag: Ident, toTag: string)
    requires Alike(a, b) && t in a.txns
    ensures Alike(StartDialog(a, t, fromTag, toTag), StartDialog(b, t, fromTag, toTag))
  {
  }

  lemma AlikeInvite(a: Worker, b: Worker, t: nat, o: Oracle)
    requires Alike(a, b) && t in a.txns && a.txns[t].state == TxnIdle && a.txns[t].message.Some?
    requires a.txns[t].dialog.Some? ==> a.txns[t].dialog.value in a.dialogs
    ensures Alike(ProcessInvite(a, t, o), ProcessInvite(b, t, o))
  {
    var req := a.txns[t].message.value.req;
    if a.txns[t].dialog.None? {
      var a1, b1 := Respond(a, t, 100, o.send100), Respond(b, t, 100, o.send100);
      AlikeRespond(a, b, t, 100, o.send100);
      if !o.send100 {
        AlikeFail(a1, b1, t, o);
      } else {
        var a2, b2 := SetTxnState(a1, t, TxnProceeding, o), SetTxnState(b1, t, TxnProceeding, o);
        AlikeState(a1, b1, t, TxnProceeding, o);
        if !o.allocDialog || req.fromTag.length == 0 {
          AlikeFail(a2, b2, t, o);
        } else {
          AlikeStartDialog(a2, b2, t, req.fromTag, o.toTag);
          AlikeInviteCall(StartDialog(a2, t, req.fromTag, o.toTag), StartDialog(b2, t, req.fromTag, o.toTag), t, a.nextId, o);
        }
      }
    }
  }

  lemma AlikeRespondState(a: Worker, b: Worker, t: nat, code: nat, ok: bool, o: Oracle)
    requires Alike(a, b) && t in a.txns && StatusCode(code)
    requires a.txns[t].dialog.Some? ==> a.txns[t].dialog.value in a.dialogs
    ensures Alike(SetTxnState(Respond(a, t, code, ok), t, TxnTerminated, o),
                  SetTxnState(Respond(b, t, code, ok), t, TxnTerminated, o))
  {
    AlikeRespond(a, b, t, code, ok);
    AlikeState(Respond(a, t, code, ok), Respond(b, t, code, ok), t, TxnTerminated, o);
  }

  lemma AlikeByeAccepted(a: Worker, b: Worker, t: nat, o: Oracle)
    requires Alike(a, b) && ByeAccepted(a, t)
    ensures ByeAccepted(b, t) && Alike(ProcessBye(a, t, o), ProcessBye(b, t, o))
  {
    var d := a.txns[t].dialog.value;
    var c := a.dialogs[d].call.value;
    var a1, b1 := SetCallState(a, c, CallTerminating), SetCallState(b, c, CallTerminating);
    var a2, b2 := Respond(a1, t, 200, o.send200), Respond(b1, t, 200, o.send200);
    AlikeRespond(a1, b1, t, 200, o.send200);
    AlikeState(SetDialogState(SetCallState(a2, c, CallTerminated), d, DialogTerminated),
               SetDialogState(SetCallState(b2, c, CallTerminated), d, DialogTerminated), t, TxnTerminated, o);
  }

  lemma AlikeClosed(a: Worker, b: Worker)
    requires Alike(a, b) && Closed(a) && BackLinks(a) && CallLinks(a)
    ensures Closed(b) && BackLinks(b) && CallLinks(b)
  {
  }

  lemma AlikeBye(a: Worker, b: Worker, t: nat, o: Oracle)
    requires Alike(a, b) && Closed(a) && Closed(b) && t in a.txns
    ensures Alike(ProcessBye(a, t, o), ProcessBye(b, t, o))
  {
    if ByeAccepted(a, t) {
      hide ProcessBye;
      AlikeByeAccepted(a, b, t, o);
    } else {
      hide Alike, Respond, SetTxnState;
      var code := if a.txns[t].dialog.None? || a.dialogs[a.txns[t].dialog.value].call.None? then 404 else 403;
      ByeRefused(a, b, t, code, o);
      AlikeRespondState(a, b, t, code, o.sendError, o);
    }
  }

  lemma ByeRefused(a: Worker, b: Worker, t: nat, code: nat, o: Oracle)
    requires Alike(a, b) && Closed(a) && Closed(b) && t in a.txns && !ByeAccepted(a, t)
    requires code == if a.txns[t].dialog.None? || a.dialogs[a.txns[t].dialog.value].call.None? then 404 else 403
    ensures t in b.txns && (b.txns[t].dialog.Some? ==> b.txns[t].dialog.value in b.dialogs)
    ensures ProcessBye(a, t, o) == SetTxnState(Respond(a, t, code, o.sendError), t, TxnTerminated, o)
    ensures ProcessBye(b, t, o) == SetTxnState(Respond(b, t, code, o.sendError), t, TxnTerminated, o)
  {
    hide SlotsLive, CallSlotsLive, Respond, SetTxnState;
  }

  lemma AlikeServe(a: Worker, b: Worker, t: nat, kind: Method, o: Oracle)
    requires Alike(a, b) && Closed(a) && Closed(b) && t in a.txns
    requires kind.INVITE? ==> a.txns[t].state == TxnIdle
    ensures Alike(Serve(a, t, kind, o), Serve(b, t, kind, o))
  {
    if kind == INVITE {
      AlikeInvite(a, b, t, o);
    } else if kind == ACK {
      AlikeState(a, b, t, TxnTerminated, o);
    } else if kind == BYE {
      AlikeBye(a, b, t, o);
    } else {
      AlikeRespondState(a, b, t, 501, o.sendError, o);
    }
  }

  lemma {:induction false} AlikeFind(a: Worker, b: Worker, order: seq<nat>, text: string, length: nat)
    requires Alike(a, b)
    ensures FindTxn(order, a.txns, text, length) == FindTxn(order, b.txns, text, length)
  {
    if order != [] { AlikeFind(a, b, order[1..], text, length); }
  }

  lemma AlikeAttach(a: Worker, b: Worker, t: nat, req: Request)
    requires Alike(a, b) && t in a.txns
    ensures Alike(AttachByTags(a, t, req), AttachByTags(b, t, req))
  {
    var d := FindDialogOf(a, req);
    assert d == FindDialogOf(b, req);
    if a.txns[t].dialog.None? && d.Some? { AlikeLink(a, b, t, d.value); }
  }

  lemma AlikeLink(a: Worker, b: Worker, t: nat, d: nat)
    requires Alike(a, b) && t in a.txns && d in a.dialogs
    ensures Alike(SetTxnDialog(a, t, d), SetTxnDialog(b, t, d))
  {
  }

  lemma AlikeDispatch(a: Worker, b: Worker, t: nat, req: Request, o: Oracle)
    requires Alike(a, b) && Closed(a) && Closed(b) && t in a.txns
    requires req.kind.INVITE? ==> a.txns[t].state == TxnIdle
    ensures Alike(Dispatch(a, t, req, o), Dispatch(b, t, req, o))
  {
    AttachClosed(a, t, req);
    AttachClosed(b, t, req);
    AlikeAttach(a, b, t, req);
    AlikeServe(AttachByTags(a, t, req), AttachByTags(b, t, req), t, req.kind, o);
  }

  /** The request repeats the branch, CSeq and source address of a live transaction. */
  predicate Retransmission(w: Worker, m: Message)
    requires Closed(w)
  {
    var t := FindTxnOf(w, m.req.branch);
    t.Some? && SameRequest(w.txns[t.value], m)
  }

  lemma ResendAlike(w: Worker, t: nat, o: Oracle)
    requires t in w.txns && w.txns[t].message.Some?
    requires w.txns[t].dialog.Some? ==> w.txns[t].dialog.value in w.dialogs
    ensures Alike(Resend(w, t, o), w)
  {
    AlikeRespond(w, w, t, 500, o.sendError);
  }

  lemma RetransmissionAlike(w: Worker, m: Message, o: Oracle)
    requires Closed(w) && Retransmission(w, m)
    ensures Alike(ProcessRequest(w, m, o), w)
  {
    ResendAlike(w, FindTxnOf(w, m.req.branch).value, o);
  }

  /** A resend that succeeds sends the stored response unchanged, with the length that was stored, to the stored
      address, and changes nothing else. */
  lemma ResendSendsStored(w: Worker, m: Message, o: Oracle)
    requires Closed(w) && Retransmission(w, m) && o.resend
    requires w.txns[FindTxnOf(w, m.req.branch).value].response != Empty
    ensures var t := FindTxnOf(w, m.req.branch).value;
            var x := w.txns[t];
            var r := ProcessRequest(w, m, o);
            && r == w.(history := r.history)
            && r.history.sent == w.history.sent + [
                 Sent(Some(t), x.dialog, x.message.value.req.kind, x.code, x.response, m.addr, true, true)]
            && m.addr == x.message.value.addr
            && BytesOut(r.history.sent[|w.history.sent|]) == Responses.Fill(x.response).1
  {
  }

  lemma AlikeAdopt(a: Worker, b: Worker, m: Message)
    requires Alike(a, b)
    ensures Alike(Adopt(a, m), Adopt(b, m))
  {
  }

  lemma AlikeSetAck(a: Worker, b: Worker, t: nat, m: Message)
    requires Alike(a, b) && t in a.txns
    ensures Alike(SetAck(a, t, m), SetAck(b, t, m)) && (Closed(a) ==> Closed(SetAck(a, t, m)))
  {
  }

  lemma AlikeServed(a: Worker, b: Worker, m: Message, o: Oracle)
    requires Alike(a, b) && Closed(a) && Closed(b) && Served(a, m, o).Some?
    ensures var s, s' := Served(a, m, o), Served(b, m, o);
            s'.Some? && s'.value.1 == s.value.1 && Alike(s.value.0, s'.value.0)
  {
    AlikeFind(a, b, a.txnOrder, m.req.branch.text, m.req.branch.length);
    match FindTxnOf(a, m.req.branch)
    case None => AlikeAdopt(a, b, m);
    case Some(t) => AlikeSetAck(a, b, t, m);
  }

  lemma AlikeUnserved(a: Worker, b: Worker, m: Message, o: Oracle)
    requires Alike(a, b) && Closed(a) && Closed(b) && !Retransmission(a, m) && Served(a, m, o).None?
    ensures Alike(ProcessRequest(a, m, o), ProcessRequest(b, m, o))
  {
    hide Dispatch, Resend, FindTxn, Adopt, SetAck;
    AlikeFind(a, b, a.txnOrder, m.req.branch.text, m.req.branch.length);
  }

  lemma AlikeRequest(a: Worker, b: Worker, m: Message, o: Oracle)
    requires Alike(a, b) && Closed(a) && Closed(b) && !Retransmission(a, m)
    ensures Alike(ProcessRequest(a, m, o), ProcessRequest(b, m, o))
  {
    if Served(a, m, o).Some? {
      AlikeServed(a, b, m, o);
      ServedDispatch(a, m, o);
      ServedDispatch(b, m, o);
      AlikeDispatch(Served(a, m, o).value.0, Served(b, m, o).value.0, Served(a, m, o).value.1, m.req, o);
    } else {
      AlikeUnserved(a, b, m, o);
    }
  }

  lemma AlikeCut(a: Worker, b: Worker, t: nat, d: nat, slots: seq<Option<nat>>)
    requires Alike(a, b) && t in a.txns && d in a.dialogs
    ensures Alike(a.(txns := a.txns[t := a.txns[t].(dialog := None)], dialogs := a.dialogs[d := a.dialogs[d].(slots := slots)]),
                  b.(txns := b.txns[t := b.txns[t].(dialog := None)], dialogs := b.dialogs[d := b.dialogs[d].(slots := slots)]))
  {
  }

  lemma AlikeDetachSlot(a: Worker, b: Worker, d: nat, i: nat, o: Oracle)
    requires Alike(a, b) && SlotsLive(a, d) && SlotsLive(b, d) && i < TXN_SLOTS
    ensures Alike(DetachSlot(a, d, i, o), DetachSlot(b, d, i, o))
  {
    if a.dialogs[d].slots[i].Some? {
      var t := a.dialogs[d].slots[i].value;
      AlikeState(a, b, t, TxnTerminated, o);
      AlikeCut(SetTxnState(a, t, TxnTerminated, o), SetTxnState(b, t, TxnTerminated, o), t, d, a.dialogs[d].slots[i := None]);
      hide SetTxnState, Alike;
    }
  }

  lemma {:induction false} AlikeDetach(a: Worker, b: Worker, d: nat, i: nat, o: Oracle)
    requires Alike(a, b) && SlotsLive(a, d) && SlotsLive(b, d) && i <= TXN_SLOTS
    ensures Alike(DetachFrom(a, d, i, o), DetachFrom(b, d, i, o))
    decreases TXN_SLOTS - i
  {
    if i < TXN_SLOTS {
      AlikeDetachSlot(a, b, d, i, o);
      AlikeDetach(DetachSlot(a, d, i, o), DetachSlot(b, d, i, o), d, i + 1, o);
    }
  }

  lemma AlikeDeleteDialog(a: Worker, b: Worker, d: nat, o: Oracle)
    requires Alike(a, b) && SlotsLive(a, d) && SlotsLive(b, d)
    requires a.dialogs[d].call.Some? ==> a.dialogs[d].call.value in a.calls
    ensures Alike(DeleteDialog(a, d, o), DeleteDialog(b, d, o))
  {
    var order := Unlink(a.dialogOrder, d);
    AlikeDetach(a.(dialogOrder := order), b.(dialogOrder := order), d, 0, o);
  }

  lemma {:induction false} AlikeDetachDialogs(a: Worker, b: Worker, c: nat, i: nat)
    requires Alike(a, b) && CallSlotsLive(a, c) && CallSlotsLive(b, c) && i <= CALL_SLOTS
    ensures Alike(DetachDialogsFrom(a, c, i), DetachDialogsFrom(b, c, i))
    decreases CALL_SLOTS - i
  {
    if i < CALL_SLOTS { AlikeDetachDialogs(DetachDialogSlot(a, c, i), DetachDialogSlot(b, c, i), c, i + 1); }
  }

  lemma AlikeDeleteCall(a: Worker, b: Worker, c: nat)
    requires Alike(a, b) && CallSlotsLive(a, c) && CallSlotsLive(b, c)
    ensures Alike(DeleteCall(a, c), DeleteCall(b, c))
  {
    var order := Unlink(a.callOrder, c);
    AlikeDetachDialogs(a.(callOrder := order), b.(callOrder := order), c, 0);
  }

  lemma AlikeDrop(a: Worker, b: Worker, d: nat, o: Oracle)
    requires Alike(a, b) && SlotsLive(a, d) && SlotsLive(b, d)
    requires a.dialogs[d].call.Some? ==>
               var c := a.dialogs[d].call.value;
               CallSlotsLive(a, c) && Once(a.calls[c].slots)
    ensures Alike(DropDialog(a, d, o), DropDialog(b, d, o))
  {
    AlikeDeleteDialog(a, b, d, o);
    var call := a.dialogs[d].call;
    if call.Some? && DeleteDialog(a, d, o).calls[call.value].state == CallTerminated {
      AlikeDeleteCall(DeleteDialog(a, d, o), DeleteDialog(b, d, o), call.value);
    }
  }

  lemma AlikeDeleteTxn(a: Worker, b: Worker, t: nat)
    requires Alike(a, b) && t in a.txns
    requires a.txns[t].dialog.Some? ==> a.txns[t].dialog.value in a.dialogs
    ensures Alike(DeleteTxn(a, t), DeleteTxn(b, t))
  {
  }

  lemma AlikeDeleteFound(a: Worker, b: Worker, t: nat, o: Oracle)
    requires Alike(a, b) && Closed(a) && BackLinks(a) && CallLinks(a) && Closed(b) && BackLinks(b) && CallLinks(b)
    requires t in a.txns
    ensures Alike(DeleteFound(a, t, o), DeleteFound(b, t, o))
  {
    AlikeDeleteTxn(a, b, t);
    hide DropDialog, DeleteTxn, SlotsLive, CallSlotsLive, TxnLinks, CallLinks, Once;
    var link := a.txns[t].dialog;
    if link.Some? {
      LeftDroppable(a, t, link.value);
      LeftDroppable(b, t, link.value);
      if DeleteTxn(a, t).dialogs[link.value].state == DialogTerminated {
        AlikeDrop(DeleteTxn(a, t), DeleteTxn(b, t), link.value, o);
      }
    }
  }

  lemma AlikeDelete(a: Worker, b: Worker, branch: Ident, o: Oracle)
    requires Alike(a, b) && Closed(a) && BackLinks(a) && CallLinks(a) && Closed(b) && BackLinks(b) && CallLinks(b)
    ensures Alike(DeleteTransaction(a, branch, o), DeleteTransaction(b, branch, o))
  {
    AlikeFind(a, b, a.txnOrder, branch.text, branch.length);
    var found := FindTxnOf(a, branch);
    if found.Some? { AlikeDeleteFound(a, b, found.value, o); }
  }

  // ---------- runs ----------

  lemma AlikeTrans(a: Worker, b: Worker, c: Worker)
    requires Alike(a, b) && Alike(b, c)
    ensures Alike(a, c)
  {
  }

  lemma AlikeRoom(a: Worker, b: Worker, t: nat, req: Request)
    requires Alike(a, b) && t in a.txns && Room(a, t, req)
    ensures t in b.txns && Room(b, t, req)
  {
    assert FindDialogOf(a, req) == FindDialogOf(b, req);
  }

  lemma AlikeServedBack(a: Worker, b: Worker, m: Message, o: Oracle)
    requires Alike(a, b) && Closed(a) && Closed(b)
    ensures Served(a, m, o).Some? <==> Served(b, m, o).Some?
    ensures FindTxnOf(a, m.req.branch) == FindTxnOf(b, m.req.branch)
  {
    hide FindTxn, Adopt, SetAck, SlotsLive, CallSlotsLive;
    AlikeFind(a, b, a.txnOrder, m.req.branch.text, m.req.branch.length);
  }

  lemma AlikeAdmissible(a: Worker, b: Worker, m: Message, o: Oracle)
    requires Alike(a, b) && Closed(a) && Closed(b) && Admissible(a, m, o)
    ensures Admissible(b, m, o)
  {
    hide Closed, Served, Room;
    AlikeServedBack(a, b, m, o);
    if Served(a, m, o).Some? {
      AlikeServed(a, b, m, o);
      AlikeRoom(Served(a, m, o).value.0, Served(b, m, o).value.0, Served(a, m, o).value.1, m.req);
    }
  }

  /** The packet at the front repeats the request of a live transaction. */
  predicate Repeats(s: System)
    requires Closed(s.w)
  {
    Incoming(s).Some? && Retransmission(s.w, Incoming(s).value)
  }

  /** The addresses of the packets that are retransmissions when their turn comes. */
  ghost function Repeated(s: System, steps: seq<Step>): set<nat>
    requires IsRun(s, steps)
    decreases |steps|
  {
    if steps == [] then {}
    else
      (if steps[0].Work? && Repeats(s) then {s.queue[0].raw.id} else {}) + Repeated(Next(s, steps[0]), steps[1..])
  }

  /** A packet with an address in `gone`. */
  predicate Among(p: Packet, gone: set<nat>) {
    p.Sip? && p.raw.id in gone
  }

  /** A step that receives or handles such a packet. */
  predicate Concerns(s: System, step: Step, gone: set<nat>) {
    (step.Arrive? && step.raw.id in gone) || (step.Work? && s.queue != [] && Among(s.queue[0], gone))
  }

  /** The queue has room for a packet or an event with the packets in `gone` exactly when it has room without them. */
  predicate SameRoom(s: System, gone: set<nat>) {
    |s.queue| < QUEUE_CAPACITY <==> |Purged(s.queue, gone)| < QUEUE_CAPACITY
  }

  /** No other packet and no delete event ever finds the queue full because of a packet in `gone`. */
  ghost predicate NeverCrowded(s: System, steps: seq<Step>, gone: set<nat>)
    requires IsRun(s, steps)
    decreases |steps|
  {
    steps != [] ==>
      && ((steps[0].Arrive? || steps[0].FireDelete?) && !Concerns(s, steps[0], gone) ==> SameRoom(s, gone))
      && NeverCrowded(Next(s, steps[0]), steps[1..], gone)
  }

  /** The run as it would have been had those packets never been sent. */
  ghost function Without(s: System, steps: seq<Step>, gone: set<nat>): seq<Step>
    requires IsRun(s, steps)
    decreases |steps|
  {
    if steps == [] then []
    else (if Concerns(s, steps[0], gone) then [] else [steps[0]]) + Without(Next(s, steps[0]), steps[1..], gone)
  }

  function Purged(queue: seq<Packet>, gone: set<nat>): seq<Packet> {
    if queue == [] then []
    else (if Among(queue[0], gone) then [] else [queue[0]]) + Purged(queue[1..], gone)
  }

  lemma {:induction false} PurgedAppend(queue: seq<Packet>, p: Packet, gone: set<nat>)
    ensures Purged(queue + [p], gone) == Purged(queue, gone) + if Among(p, gone) then [] else [p]
  {
    if queue == [] {
      assert queue + [p] == [p];
      assert Purged([], gone) == [];
      assert Purged([p][1..], gone) == [];
    } else {
      PurgedAppend(queue[1..], p, gone);
      assert (queue + [p])[1..] == queue[1..] + [p];
    }
  }

  lemma {:induction false} PurgedShorter(queue: seq<Packet>, gone: set<nat>)
    ensures |Purged(queue, gone)| <= |queue|
  {
    if queue != [] { PurgedShorter(queue[1..], gone); }
  }

  /** `b` is `a` without the packets in `gone`: the same objects, links, states, timers and delete events. */
  ghost predicate Twin(a: System, b: System, gone: set<nat>) {
    && Alike(a.w, b.w) && b.queue == Purged(a.queue, gone)
    && b.received <= a.received && b.handled == a.handled
  }

  /** Exactly the packets in `gone` are retransmissions when their turn comes. */
  ghost predicate Marks(s: System, steps: seq<Step>, gone: set<nat>)
    requires IsRun(s, steps)
    decreases |steps|
  {
    steps != [] ==>
      && (steps[0].Work? ==> (Repeats(s) <==> Among(s.queue[0], gone)))
      && Marks(Next(s, steps[0]), steps[1..], gone)
  }

  lemma TwinAllowed(a: System, b: System, gone: set<nat>, step: Step)
    requires Twin(a, b, gone) && Allowed(a, step) && !Concerns(a, step, gone)
    ensures Allowed(b, step) && (step.Work? ==> b.queue[0] == a.queue[0] && b.queue[1..] == Purged(a.queue[1..], gone))
  {
    hide Alike, Admissible, Closed, BackLinks, TxnLinks, CallLinks, SipText.Parse;
    AlikeClosed(a.w, b.w);
    AlikeTimers(a.w, b.w);
    if step.Work? && Incoming(a).Some? { AlikeAdmissible(a.w, b.w, Incoming(a).value, step.o); }
  }

  lemma AlikeTimers(a: Worker, b: Worker)
    requires Alike(a, b)
    ensures a.timers == b.timers
  {
  }

  lemma AlikeSetTimers(a: Worker, b: Worker, tm: Timers)
    requires Alike(a, b)
    ensures Alike(SetTimers(a, tm), SetTimers(b, tm))
  {
  }

  lemma AlikeFree(a: Worker, b: Worker, id: nat)
    requires Alike(a, b)
    ensures Alike(Free(a, id), Free(b, id)) && Alike(Free(a, id), b)
  {
  }

  lemma TwinWork(a: System, b: System, gone: set<nat>, o: Oracle)
    requires Twin(a, b, gone) && Allowed(a, Work(o)) && Allowed(b, Work(o)) && !Repeats(a)
    requires b.queue[0] == a.queue[0] && b.queue[1..] == Purged(a.queue[1..], gone)
    ensures Twin(Next(a, Work(o)), Next(b, Work(o)), gone)
  {
    hide Alike, ProcessRequest, DeleteTransaction, Admissible, Closed, BackLinks, TxnLinks, CallLinks, SipText.Parse, Retransmission;
    if a.queue[0].DeleteEvent? {
      AlikeDelete(a.w, b.w, a.queue[0].branch, o);
    } else if Incoming(a).Some? {
      AlikeRequest(a.w, b.w, Incoming(a).value, o);
    } else {
      AlikeFree(a.w, b.w, a.queue[0].raw.id);
    }
  }

  lemma TwinArrival(a: System, b: System, gone: set<nat>, raw: Raw)
    requires Twin(a, b, gone) && raw.id !in gone
    ensures Twin(Arrival(a, raw), Arrival(b, raw), gone) <==> SameRoom(a, gone)
  {
    hide Alike;
    PurgedShorter(a.queue, gone);
    PurgedAppend(a.queue, Sip(raw), gone);
    AlikeFree(a.w, b.w, raw.id);
    if |a.queue| >= QUEUE_CAPACITY { AlikeFree(Free(a.w, raw.id), Free(b.w, raw.id), raw.id); }
  }

  lemma TwinExpired(a: System, b: System, gone: set<nat>, x: Timer)
    requires Twin(a, b, gone) && x in a.w.timers.deleting && x in b.w.timers.deleting
    ensures Twin(DeleteExpired(a, x), DeleteExpired(b, x), gone) <==> SameRoom(a, gone)
  {
    hide Alike;
    AlikeTimers(a.w, b.w);
    PurgedShorter(a.queue, gone);
    PurgedAppend(a.queue, DeleteEvent(x.branch), gone);
    var tm := a.w.timers.(deleting := a.w.timers.deleting - multiset{x});
    AlikeSetTimers(a.w, b.w, tm);
    AlikeSetTimers(a.w, b.w, tm.(lost := tm.lost + multiset{x.branch}));
  }

  /** Any other step does the same to both, but that an arrival or an event does so exactly when it finds room in
      both queues or in neither. */
  lemma TwinStepIff(a: System, b: System, gone: set<nat>, step: Step)
    requires Twin(a, b, gone) && Allowed(a, step) && Allowed(b, step) && !Concerns(a, step, gone) && !step.Work?
    ensures Twin(Next(a, step), Next(b, step), gone) <==> (step.Arrive? || step.FireDelete? ==> SameRoom(a, gone))
  {
    hide Alike, Twin, Closed, BackLinks, TxnLinks, CallLinks, Admissible, AckExpired, Arrival, DeleteExpired, SameRoom;
    TwinTimers(a, b, gone);
    match step
    case Arrive(raw) => TwinArrival(a, b, gone, raw);
    case FireAck(x, ok) => TwinSetTimers(a, b, gone, AckExpired(a.w.timers, x, ok));
    case FireDelete(x) => TwinExpired(a, b, gone, x);
    case Tick(ms) => TwinSetTimers(a, b, gone, Later(a.w.timers, ms));
  }

  lemma TwinTimers(a: System, b: System, gone: set<nat>)
    requires Twin(a, b, gone)
    ensures a.w.timers == b.w.timers
  {
    AlikeTimers(a.w, b.w);
  }

  lemma TwinSetTimers(a: System, b: System, gone: set<nat>, tm: Timers)
    requires Twin(a, b, gone)
    ensures Twin(a.(w := SetTimers(a.w, tm)), b.(w := SetTimers(b.w, tm)), gone)
  {
    AlikeSetTimers(a.w, b.w, tm);
  }

  /** A step that concerns a packet in `gone` leaves no trace. */
  lemma TwinWithout(a: System, b: System, gone: set<nat>, step: Step)
    requires Twin(a, b, gone) && Allowed(a, step) && Concerns(a, step, gone)
    requires step.Work? ==> Repeats(a)
    ensures Twin(Next(a, step), b, gone)
  {
    hide Alike, ProcessRequest, Admissible, Closed, BackLinks, TxnLinks, CallLinks, SipText.Parse, Retransmission;
    match step
    case Arrive(raw) =>
      PurgedAppend(a.queue, Sip(raw), gone);
      AlikeFree(a.w, b.w, raw.id);
    case Work(o) =>
      RetransmissionAlike(a.w, Incoming(a).value, o);
      AlikeTrans(Next(a, step).w, a.w, b.w);
  }

  // ---------- the packets that repeat are marked by their addresses ----------

  ghost predicate Waits(queue: seq<Packet>, id: nat) {
    exists i :: 0 <= i < |queue| && queue[i].Sip? && queue[i].raw.id == id
  }

  /** Every waiting packet was received, and no two share an address. */
  ghost predicate UniqueIds(s: System) {
    && (forall i :: 0 <= i < |s.queue| && s.queue[i].Sip? ==> s.queue[i].raw.id in s.received)
    && (forall i, j :: 0 <= i < j < |s.queue| && s.queue[i].Sip? && s.queue[j].Sip? ==>
          s.queue[i].raw.id != s.queue[j].raw.id)
  }

  /** The queue lost its front to the worker, or kept it and perhaps gained an end. */
  lemma QueueMoves(s: System, step: Step)
    requires Allowed(s, step)
    ensures var r := Next(s, step);
            && s.received <= r.received
            && if step.Work? then r.queue == s.queue[1..] && r.received == s.received
               else r.queue == s.queue
                    || (step.Arrive? && r.queue == s.queue + [Sip(step.raw)] && step.raw.id in r.received)
                    || (step.FireDelete? && r.queue == s.queue + [DeleteEvent(step.x.branch)])
  {
    hide Handle, Admissible, Closed, BackLinks, TxnLinks, CallLinks, AckExpired;
  }

  lemma StepUnique(s: System, step: Step)
    requires Allowed(s, step) && UniqueIds(s)
    ensures UniqueIds(Next(s, step))
  {
    hide Next, Admissible, Closed, BackLinks, TxnLinks, CallLinks;
    QueueMoves(s, step);
  }

  lemma StillNotWaiting(s: System, step: Step, id: nat)
    requires Allowed(s, step) && id in s.received && !Waits(s.queue, id)
    ensures id in Next(s, step).received && !Waits(Next(s, step).queue, id)
  {
    hide Next, Admissible, Closed, BackLinks, TxnLinks, CallLinks;
    QueueMoves(s, step);
  }

  lemma {:induction false} NeverRepeated(s: System, steps: seq<Step>, id: nat)
    requires IsRun(s, steps) && id in s.received && !Waits(s.queue, id)
    ensures id !in Repeated(s, steps)
    decreases |steps|
  {
    hide Next, Admissible, Closed, BackLinks, TxnLinks, CallLinks, Retransmission, SipText.Parse;
    if steps != [] {
      StillNotWaiting(s, steps[0], id);
      NeverRepeated(Next(s, steps[0]), steps[1..], id);
    }
  }

  /** The front packet, once taken, neither waits nor repeats again. */
  lemma FrontTaken(s: System, step: Step)
    requires Allowed(s, step) && UniqueIds(s) && step.Work? && s.queue[0].Sip?
    ensures var r := Next(s, step); s.queue[0].raw.id in r.received && !Waits(r.queue, s.queue[0].raw.id)
  {
    hide Next, Admissible, Closed, BackLinks, TxnLinks, CallLinks;
    QueueMoves(s, step);
  }

  lemma {:induction false} RepeatedMarks(s: System, steps: seq<Step>, past: set<nat>)
    requires IsRun(s, steps) && UniqueIds(s)
    requires forall id :: id in past ==> id in s.received && !Waits(s.queue, id)
    ensures Marks(s, steps, Repeated(s, steps) + past)
    decreases |steps|
  {
    hide Next, UniqueIds, Admissible, Closed, BackLinks, TxnLinks, CallLinks, Retransmission, SipText.Parse;
    if steps != [] {
      var step, r := steps[0], Next(s, steps[0]);
      StepUnique(s, step);
      forall id | id in past ensures id in r.received && !Waits(r.queue, id) { StillNotWaiting(s, step, id); }
      var front := if step.Work? && Repeats(s) then {s.queue[0].raw.id} else {};
      if step.Work? && s.queue[0].Sip? {
        FrontTaken(s, step);
        NeverRepeated(r, steps[1..], s.queue[0].raw.id);
        FrontWaits(s);
      }
      RepeatedMarks(r, steps[1..], past + front);
      assert Repeated(s, steps) + past == Repeated(r, steps[1..]) + (past + front);
    }
  }

  lemma FrontWaits(s: System)
    requires s.queue != [] && s.queue[0].Sip?
    ensures Waits(s.queue, s.queue[0].raw.id)
  {
  }

  /** Taking the marked packets out of a run gives a run, and it ends in the same transactions, dialogs,
      calls, links, states, timers and queue, but for those packets. */
  lemma {:induction false} WithoutIsTwin(a: System, b: System, steps: seq<Step>, gone: set<nat>)
    requires IsRun(a, steps) && NeverCrowded(a, steps, gone) && Marks(a, steps, gone) && Twin(a, b, gone)
    ensures IsRun(b, Without(a, steps, gone))
    ensures Twin(Run(a, steps), Run(b, Without(a, steps, gone)), gone)
    decreases |steps|
  {
    hide Next, Twin, Repeats, Closed, BackLinks, TxnLinks, CallLinks, Admissible, SameRoom;
    if steps != [] {
      var step, rest := steps[0], steps[1..];
      var a' := Next(a, step);
      if Concerns(a, step, gone) {
        TwinWithout(a, b, gone, step);
        WithoutIsTwin(a', b, rest, gone);
        assert Without(a, steps, gone) == Without(a', rest, gone);
      } else {
        TwinAllowed(a, b, gone, step);
        if step.Work? { TwinWork(a, b, gone, step.o); } else { TwinStepIff(a, b, gone, step); }
        WithoutIsTwin(a', Next(b, step), rest, gone);
        assert Without(a, steps, gone)[1..] == Without(a', rest, gone);
      }
    }
  }

  /** Retransmissions leave no trace: any run in which they take no place in the queue from another packet or a
      delete event, without the packets that were retransmissions when their turn came, is a run too, and ends in
      the same lists, transactions, dialogs, calls, links, states, timers, losses and handled events. Only the log
      and the stored responses can tell. */
  lemma RetransmissionsLeaveNoTrace(s: System, steps: seq<Step>)
    requires IsRun(s, steps) && UniqueIds(s) && NeverCrowded(s, steps, Repeated(s, steps))
    ensures var gone := Repeated(s, steps);
            var start := s.(queue := Purged(s.queue, gone));
            && IsRun(start, Without(s, steps, gone))
            && var r, r' := Run(s, steps), Run(start, Without(s, steps, gone));
               Alike(r.w, r'.w) && r'.queue == Purged(r.queue, gone) && r'.handled == r.handled
  {
    hide IsRun, Run, Without, Repeated, Purged, NeverCrowded, Marks, UniqueIds;
    var gone := Repeated(s, steps);
    RepeatedMarks(s, steps, {});
    assert gone + {} == gone;
    WithoutIsTwin(s, s.(queue := Purged(s.queue, gone)), steps, gone);
  }

  /** A queue of at most 1024 has the same room exactly when it is not full or holds no packet in `gone`. */
  lemma {:induction false} SameRoomIff(s: System, gone: set<nat>)
    requires |s.queue| <= QUEUE_CAPACITY
    ensures SameRoom(s, gone) <==> |s.queue| < QUEUE_CAPACITY || forall i :: 0 <= i < |s.queue| ==> !Among(s.queue[i], gone)
  {
    PurgedShorter(s.queue, gone);
    PurgedWholeIff(s.queue, gone);
  }

  lemma {:induction false} PurgedWholeIff(queue: seq<Packet>, gone: set<nat>)
    ensures |Purged(queue, gone)| == |queue| <==> forall i :: 0 <= i < |queue| ==> !Among(queue[i], gone)
  {
    if queue != [] {
      PurgedShorter(queue[1..], gone);
      PurgedWholeIff(queue[1..], gone);
      assert forall i :: 0 <= i < |queue[1..]| ==> queue[1..][i] == queue[i + 1];
    }
  }
}
