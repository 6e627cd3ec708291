/** What holds of a worker between packets, and the requests that keep it so. */
module Invariants {
  import opened SipTypes
  import opened WorkerModel
  import opened Outcomes

  /** The linked lists hold exactly the allocated objects, each once, at addresses already handed out. */
  ghost predicate Lists(w: Worker) {
    && Distinct(w.txnOrder) && (forall t :: t in w.txnOrder <==> t in w.txns)
    && Distinct(w.dialogOrder) && (forall d :: d in w.dialogOrder <==> d in w.dialogs)
    && Distinct(w.callOrder) && (forall c :: c in w.callOrder <==> c in w.calls)
    && (forall t :: t in w.txns ==> t < w.nextId)
    && (forall d :: d in w.dialogs ==> d < w.nextId)
    && (forall c :: c in w.calls ==> c < w.nextId)
  }

  /** The next addresses are not in use. */
  lemma AddressUnused(w: Worker)
    requires Lists(w)
    ensures w.nextId !in w.txns && w.nextId !in w.dialogs && w.nextId + 1 !in w.calls
  {
  }

  ghost predicate Settled(s: TxnState) {
    s == TxnCompleted || s == TxnTerminated
  }

  /** A branch as a transaction stores it. */
  ghost predicate StoredBranch(b: Ident) {
    Shown(b) && |b.text| <= MAX_ID_LENGTH && b.length > 0
  }

  /** No two live transactions store the same branch. */
  ghost predicate Branches(w: Worker) {
    && (forall t :: t in w.txns ==> StoredBranch(w.txns[t].branch))
    && (forall t, u :: t in w.txns && u in w.txns && t != u ==> w.txns[t].branch != w.txns[u].branch)
  }

  /** COMPLETED, TERMINATED, or a re-INVITE waiting in its dialog. */
  ghost predicate TxnCoupled(x: Txn) {
    Settled(x.state) ||
    (x.state == TxnIdle && x.dialog.Some? && x.message.Some? && x.message.value.req.kind == INVITE && x.ack.None?)
  }

  /** CONFIRMED with an ESTABLISHED call, or TERMINATED with a call that is absent, FAILED or TERMINATED. */
  ghost predicate DialogCoupled(x: Dialog, calls: map<nat, Call>) {
    || (x.state == DialogConfirmed && x.call.Some? && x.call.value in calls
        && calls[x.call.value].state == CallEstablished)
    || (x.state == DialogTerminated
        && (x.call.Some? && x.call.value in calls ==>
              calls[x.call.value].state == CallFailed || calls[x.call.value].state == CallTerminated))
  }

  /** A TERMINATED dialog still holds a transaction whose deletion will take it along. */
  ghost predicate DialogHeld(x: Dialog, txns: map<nat, Txn>) {
    x.state == DialogTerminated ==>
      exists i :: 0 <= i < |x.slots| && x.slots[i].Some? && x.slots[i].value in txns
                  && Settled(txns[x.slots[i].value].state)
  }

  /** ESTABLISHED, FAILED or TERMINATED; unless FAILED, a dialog still holds the call. */
  ghost predicate CallCoupled(x: Call) {
    || x.state == CallFailed
    || ((x.state == CallEstablished || x.state == CallTerminated)
        && exists i :: 0 <= i < |x.slots| && x.slots[i].Some?)
  }

  ghost predicate Coupled(w: Worker) {
    && (forall t :: t in w.txns ==> TxnCoupled(w.txns[t]))
    && (forall d :: d in w.dialogs ==> DialogCoupled(w.dialogs[d], w.calls))
    && (forall d :: d in w.dialogs ==> DialogHeld(w.dialogs[d], w.txns))
    && (forall c :: c in w.calls ==> CallCoupled(w.calls[c]))
  }

  /** Slot arrays have their fixed sizes, and every transaction has its request. */
  ghost predicate Sizes(w: Worker) {
    && (forall d :: d in w.dialogs ==> |w.dialogs[d].slots| == TXN_SLOTS)
    && (forall c :: c in w.calls ==> |w.calls[c].slots| == CALL_SLOTS)
    && (forall t :: t in w.txns ==> w.txns[t].message.Some?)
  }

  /** The graph itself: lists, slots, and pointers both ways. */
  ghost predicate Graph(w: Worker) {
    Lists(w) && Sizes(w) && TxnLinks(w) && CallLinks(w)
  }

  lemma GraphClosed(w: Worker)
    requires Sizes(w) && TxnLinks(w) && CallLinks(w)
    ensures Closed(w)
  {
  }

  /** The graph, and the three kinds of state in step. */
  ghost predicate Consistent(w: Worker) {
    Graph(w) && Coupled(w)
  }

  ghost predicate Inv(w: Worker) {
    Consistent(w) && Branches(w)
  }

  /** Between the creation of `t` and the end of its handler, `t` alone may be unsettled. */
  ghost predicate CoupledBut(w: Worker, t: nat) {
    && (forall u :: u in w.txns && u != t ==> TxnCoupled(w.txns[u]))
    && (forall d :: d in w.dialogs ==> DialogCoupled(w.dialogs[d], w.calls))
    && (forall d :: d in w.dialogs ==> DialogHeld(w.dialogs[d], w.txns))
    && (forall c :: c in w.calls ==> CallCoupled(w.calls[c]))
  }

  /** A request whose transaction would join a dialog finds a free slot there. */
  ghost predicate Room(w: Worker, t: nat, req: Request)
    requires t in w.txns
  {
    var d := FindDialogOf(w, req);
    w.txns[t].dialog.None? && d.Some? && d.value in w.dialogs ==> None in w.dialogs[d.value].slots
  }

  lemma DistinctCons(x: nat, order: seq<nat>)
    requires Distinct(order) && x !in order
    ensures Distinct([x] + order)
  {
  }

  lemma AdoptLists(w: Worker, m: Message)
    requires Lists(w)
    ensures Lists(Adopt(w, m))
  {
    DistinctCons(w.nextId, w.txnOrder);
  }

  lemma AdoptLinks(w: Worker, m: Message)
    requires Lists(w) && TxnLinks(w)
    ensures TxnLinks(Adopt(w, m))
  {
  }

  lemma AdoptSizes(w: Worker, m: Message)
    requires Sizes(w) && CallLinks(w)
    ensures Sizes(Adopt(w, m)) && CallLinks(Adopt(w, m))
  {
  }

  lemma AdoptKeepsGraph(w: Worker, m: Message)
    requires Graph(w)
    ensures Graph(Adopt(w, m))
  {
    hide Lists, TxnLinks, CallLinks, Sizes;
    AdoptLists(w, m);
    AdoptLinks(w, m);
    AdoptSizes(w, m);
  }

  lemma AdoptKeepsCoupled(w: Worker, m: Message)
    requires Lists(w) && Coupled(w)
    ensures CoupledBut(Adopt(w, m), w.nextId)
  {
  }

  /** Linking a transaction to a dialog with a free slot keeps both directions in step. */
  lemma SetTxnDialogLinks(w: Worker, t: nat, d: nat)
    requires TxnLinks(w) && t in w.txns && d in w.dialogs && w.txns[t].dialog.None?
    requires None in w.dialogs[d].slots
    ensures TxnLinks(SetTxnDialog(w, t, d))
  {
    hide AddSlot;
    assert Some(t) in AddSlot(w.dialogs[d].slots, t);
    assert Some(t) !in w.dialogs[d].slots;
  }

  lemma SetTxnDialogLists(w: Worker, t: nat, d: nat)
    requires Lists(w) && Sizes(w) && t in w.txns && d in w.dialogs
    ensures var r := SetTxnDialog(w, t, d); Lists(r) && Sizes(r)
  {
  }

  lemma SetTxnDialogCalls(w: Worker, t: nat, d: nat)
    requires CallLinks(w) && t in w.txns && d in w.dialogs
    ensures CallLinks(SetTxnDialog(w, t, d))
  {
    hide AddSlot;
    assert forall e :: e in w.dialogs ==> SetTxnDialog(w, t, d).dialogs[e].call == w.dialogs[e].call;
  }

  lemma AttachKeepsGraph(w: Worker, t: nat, req: Request)
    requires Graph(w) && t in w.txns && Room(w, t, req)
    ensures Graph(AttachByTags(w, t, req))
  {
    var d := FindDialogOf(w, req);
    if w.txns[t].dialog.None? && d.Some? {
      SetTxnDialogLinks(w, t, d.value);
      SetTxnDialogLists(w, t, d.value);
      SetTxnDialogCalls(w, t, d.value);
      assert AttachByTags(w, t, req) == SetTxnDialog(w, t, d.value);
    } else {
      assert AttachByTags(w, t, req) == w;
    }
  }

  /** A fuller slot array holds a dialog as well. */
  lemma FullerHeld(x: Dialog, txns: map<nat, Txn>, y: Dialog, txns': map<nat, Txn>)
    requires DialogHeld(x, txns) && y.state == x.state && |y.slots| == |x.slots|
    requires forall i :: 0 <= i < |x.slots| && x.slots[i].Some? ==> y.slots[i] == x.slots[i]
    requires forall u :: u in txns ==> u in txns' && txns'[u].state == txns[u].state
    ensures DialogHeld(y, txns')
  {
  }

  lemma SetTxnDialogCoupled(w: Worker, t: nat, d: nat)
    requires CoupledBut(w, t) && t in w.txns && d in w.dialogs
    ensures CoupledBut(SetTxnDialog(w, t, d), t)
  {
    hide TxnCoupled, DialogHeld, CallCoupled, AddSlot;
    var r := SetTxnDialog(w, t, d);
    forall e | e in r.dialogs ensures DialogHeld(r.dialogs[e], r.txns) && DialogCoupled(r.dialogs[e], r.calls) {
      assert DialogCoupled(w.dialogs[e], w.calls);
      FullerHeld(w.dialogs[e], w.txns, r.dialogs[e], r.txns);
    }
    assert forall u :: u in w.txns && u != t ==> r.txns[u] == w.txns[u];
  }

  lemma AttachKeepsCoupled(w: Worker, t: nat, req: Request)
    requires CoupledBut(w, t) && t in w.txns
    ensures CoupledBut(AttachByTags(w, t, req), t)
  {
    var d := FindDialogOf(w, req);
    if w.txns[t].dialog.None? && d.Some? { SetTxnDialogCoupled(w, t, d.value); }
  }

  /** `r` differs from `w` in states, ACKs, responses, timers and history only. */
  ghost predicate SameShape(w: Worker, r: Worker) {
    && r.txnOrder == w.txnOrder && r.dialogOrder == w.dialogOrder && r.callOrder == w.callOrder
    && r.nextId == w.nextId
    && (forall t :: t in r.txns <==> t in w.txns)
    && (forall d :: d in r.dialogs <==> d in w.dialogs)
    && (forall c :: c in r.calls <==> c in w.calls)
    && (forall t :: t in w.txns ==> r.txns[t].dialog == w.txns[t].dialog && r.txns[t].branch == w.txns[t].branch
                                    && r.txns[t].message == w.txns[t].message)
    && (forall d :: d in w.dialogs ==> r.dialogs[d].slots == w.dialogs[d].slots && r.dialogs[d].call == w.dialogs[d].call)
    && (forall c :: c in w.calls ==> r.calls[c].slots == w.calls[c].slots)
  }

  lemma SameShapeLinks(w: Worker, r: Worker)
    requires SameShape(w, r) && TxnLinks(w) && CallLinks(w)
    ensures TxnLinks(r) && CallLinks(r)
  {
  }

  lemma SameShapeGraph(w: Worker, r: Worker)
    requires SameShape(w, r) && Graph(w)
    ensures Graph(r)
  {
    SameShapeLinks(w, r);
  }

  /** `r` differs from `w` in the state, ACK and response of `t`, and in timers and history. */
  ghost predicate OnlyTxn(w: Worker, r: Worker, t: nat) {
    && t in w.txns && t in r.txns
    && r == w.(txns := r.txns, timers := r.timers, history := r.history)
    && r.txns == w.txns[t := r.txns[t]]
    && r.txns[t].dialog == w.txns[t].dialog && r.txns[t].branch == w.txns[t].branch
    && r.txns[t].message == w.txns[t].message
  }

  lemma OnlyTxnGraph(w: Worker, r: Worker, t: nat)
    requires Graph(w) && OnlyTxn(w, r, t)
    ensures Graph(r)
  {
    assert SameShape(w, r);
    SameShapeGraph(w, r);
  }

  lemma OnlyTxnCoupled(w: Worker, r: Worker, t: nat)
    requires CoupledBut(w, t) && OnlyTxn(w, r, t) && Settled(r.txns[t].state)
    ensures Coupled(r)
  {
  }

  /** A handler that only settles its transaction keeps the invariant. */
  lemma OnlyTxnKeeps(w: Worker, r: Worker, t: nat)
    requires Graph(w) && CoupledBut(w, t) && OnlyTxn(w, r, t) && Settled(r.txns[t].state)
    ensures Consistent(r)
  {
    OnlyTxnGraph(w, r, t);
    OnlyTxnCoupled(w, r, t);
  }

  lemma AckKeeps(w: Worker, t: nat, o: Oracle)
    requires Graph(w) && CoupledBut(w, t) && t in w.txns
    ensures Consistent(ProcessAck(w, t, o))
  {
    OnlyTxnKeeps(w, ProcessAck(w, t, o), t);
  }

  lemma AnswerAndTerminate(w: Worker, t: nat, code: nat, ok: bool, o: Oracle)
    requires t in w.txns && StatusCode(code)
    requires w.txns[t].dialog.Some? ==> w.txns[t].dialog.value in w.dialogs
    ensures var r := SetTxnState(Respond(w, t, code, ok), t, TxnTerminated, o);
            OnlyTxn(w, r, t) && r.txns[t].state == TxnTerminated
  {
  }

  lemma OtherKeeps(w: Worker, t: nat, o: Oracle)
    requires Graph(w) && CoupledBut(w, t) && t in w.txns
    requires w.txns[t].dialog.Some? ==> w.txns[t].dialog.value in w.dialogs
    ensures Consistent(ProcessOther(w, t, o))
  {
    AnswerAndTerminate(w, t, 501, o.sendError, o);
    OnlyTxnKeeps(w, ProcessOther(w, t, o), t);
  }

  /** The BYE of `t` finds its dialog CONFIRMED. */
  ghost predicate ByeAccepted(w: Worker, t: nat) {
    t in w.txns && w.txns[t].dialog.Some? &&
    var d := w.txns[t].dialog.value;
    d in w.dialogs && w.dialogs[d].call.Some? && w.dialogs[d].call.value in w.calls && w.dialogs[d].state == DialogConfirmed
  }

  /** Dialog `d` and its call, ended. */
  function EndCall(w: Worker, d: nat, c: nat): Worker
    requires d in w.dialogs && c in w.calls
  {
    w.(dialogs := w.dialogs[d := w.dialogs[d].(state := DialogTerminated)],
       calls := w.calls[c := w.calls[c].(state := CallTerminated)])
  }

  lemma ByeEffect(w: Worker, t: nat, o: Oracle)
    requires ByeAccepted(w, t) && w.txns[t].message.Some?
    ensures var d := w.txns[t].dialog.value;
            var r := ProcessBye(w, t, o);
            && OnlyTxn(EndCall(w, d, w.dialogs[d].call.value), r, t) && r.txns[t].state == TxnTerminated
            && r.txns[t].response == Printed(200, w.txns[t].message.value.req, Some(w.dialogs[d].toTag))
  {
  }

  /** A call has one dialog only. */
  lemma OneDialog(w: Worker, d: nat, e: nat)
    requires CallLinks(w) && d in w.dialogs && e in w.dialogs
    requires w.dialogs[d].call.Some? && w.dialogs[d].call == w.dialogs[e].call
    ensures d == e
  {
    var s := w.calls[w.dialogs[d].call.value].slots;
    var i := IndexOf(s, Some(d));
    var j := IndexOf(s, Some(e));
    assert s[i] == Some(d) && s[j] == Some(e);
  }

  /** Every dialog still agrees with its call after dialog `d` ended together with its own. */
  lemma EndCallDialogs(w: Worker, d: nat, c: nat)
    requires CallLinks(w) && d in w.dialogs && c in w.calls && w.dialogs[d].call == Some(c)
    requires forall e :: e in w.dialogs ==> DialogCoupled(w.dialogs[e], w.calls)
    ensures var r := EndCall(w, d, c); forall e :: e in r.dialogs ==> DialogCoupled(r.dialogs[e], r.calls)
  {
    forall e | e in w.dialogs && e != d ensures w.dialogs[e].call != Some(c) {
      if w.dialogs[e].call == Some(c) { OneDialog(w, d, e); }
    }
  }

  /** Every TERMINATED dialog is held by a transaction: `d` by the BYE that ended it. */
  lemma EndCallHeld(w: Worker, r: Worker, t: nat, d: nat, c: nat)
    requires TxnLinks(w) && CoupledBut(w, t) && t in w.txns && d in w.dialogs && c in w.calls
    requires w.txns[t].dialog == Some(d) && w.dialogs[d].call == Some(c)
    requires OnlyTxn(EndCall(w, d, c), r, t) && Settled(r.txns[t].state)
    ensures forall e :: e in r.dialogs ==> DialogHeld(r.dialogs[e], r.txns)
  {
    var i := IndexOf(w.dialogs[d].slots, Some(t));
    assert r.dialogs[d].slots[i] == Some(t);
    forall e | e in r.dialogs && e != d ensures DialogHeld(r.dialogs[e], r.txns) {
      assert DialogHeld(w.dialogs[e], w.txns);
    }
  }

  /** The ended call is still held by the dialog. */
  lemma EndCallCalls(w: Worker, r: Worker, t: nat, d: nat, c: nat)
    requires CallLinks(w) && CoupledBut(w, t) && t in w.txns && d in w.dialogs && c in w.calls
    requires w.dialogs[d].call == Some(c) && OnlyTxn(EndCall(w, d, c), r, t)
    ensures forall x :: x in r.calls ==> CallCoupled(r.calls[x])
  {
    var j := IndexOf(w.calls[c].slots, Some(d));
    assert r.calls[c].slots[j] == Some(d);
  }

  lemma EndCallGraph(w: Worker, r: Worker, t: nat, d: nat, c: nat)
    requires Graph(w) && t in w.txns && d in w.dialogs && c in w.calls && OnlyTxn(EndCall(w, d, c), r, t)
    ensures Graph(r)
  {
    SameShapeGraph(w, r);
  }

  lemma EndCallTxns(w: Worker, r: Worker, t: nat, d: nat, c: nat)
    requires CoupledBut(w, t) && t in w.txns && d in w.dialogs && c in w.calls
    requires OnlyTxn(EndCall(w, d, c), r, t) && Settled(r.txns[t].state)
    ensures forall u :: u in r.txns ==> TxnCoupled(r.txns[u])
  {
  }

  lemma EndCallCoupled(w: Worker, r: Worker, t: nat, d: nat, c: nat)
    requires TxnLinks(w) && CallLinks(w) && CoupledBut(w, t) && t in w.txns && d in w.dialogs && c in w.calls
    requires w.txns[t].dialog == Some(d) && w.dialogs[d].call == Some(c)
    requires OnlyTxn(EndCall(w, d, c), r, t) && Settled(r.txns[t].state)
    ensures Coupled(r)
  {
    EndCallTxns(w, r, t, d, c);
    EndCallDialogs(w, d, c);
    EndCallHeld(w, r, t, d, c);
    EndCallCalls(w, r, t, d, c);
    hide TxnCoupled, DialogHeld, DialogCoupled, CallCoupled, TxnLinks, CallLinks;
  }

  lemma EndCallKeeps(w: Worker, r: Worker, t: nat, d: nat, c: nat)
    requires Graph(w) && CoupledBut(w, t) && t in w.txns && d in w.dialogs && c in w.calls
    requires w.txns[t].dialog == Some(d) && w.dialogs[d].call == Some(c)
    requires OnlyTxn(EndCall(w, d, c), r, t) && Settled(r.txns[t].state)
    ensures Consistent(r)
  {
    EndCallGraph(w, r, t, d, c);
    EndCallCoupled(w, r, t, d, c);
  }

  lemma ByeAcceptedKeeps(w: Worker, t: nat, o: Oracle)
    requires Graph(w) && CoupledBut(w, t) && ByeAccepted(w, t)
    ensures Consistent(ProcessBye(w, t, o))
  {
    ByeEffect(w, t, o);
    EndCallKeeps(w, ProcessBye(w, t, o), t, w.txns[t].dialog.value, w.dialogs[w.txns[t].dialog.value].call.value);
  }

  lemma ByeRefusedKeeps(w: Worker, t: nat, o: Oracle)
    requires Graph(w) && Closed(w) && CoupledBut(w, t) && t in w.txns && !ByeAccepted(w, t)
    ensures Consistent(ProcessBye(w, t, o))
  {
    var code := if w.txns[t].dialog.None? || w.dialogs[w.txns[t].dialog.value].call.None? then 404 else 403;
    AnswerAndTerminate(w, t, code, o.sendError, o);
    assert ProcessBye(w, t, o) == SetTxnState(Respond(w, t, code, o.sendError), t, TxnTerminated, o);
    OnlyTxnKeeps(w, ProcessBye(w, t, o), t);
  }

  lemma InviteRefusedKeeps(w: Worker, t: nat, o: Oracle)
    requires Graph(w) && CoupledBut(w, t) && t in w.txns
    requires w.txns[t].state == TxnIdle && w.txns[t].dialog.None? && w.txns[t].message.Some?
    requires NoDialogMade(o, w.txns[t].message.value.req)
    ensures Consistent(ProcessInvite(w, t, o))
  {
    InviteRefused(w, t, o);
    OnlyTxnKeeps(w, ProcessInvite(w, t, o), t);
  }

  /** `r` is `w` with a new dialog holding `t`, and perhaps a new call holding the dialog. */
  ghost predicate Grown(w: Worker, r: Worker, t: nat, d: nat, call: Option<nat>) {
    && t in w.txns && t in r.txns && w.txns[t].dialog.None?
    && r.txns == w.txns[t := r.txns[t]] && r.txnOrder == w.txnOrder
    && r.txns[t].dialog == Some(d) && r.txns[t].branch == w.txns[t].branch && r.txns[t].message == w.txns[t].message
    && d == w.nextId && d in r.dialogs
    && r.dialogs == w.dialogs[d := r.dialogs[d]] && r.dialogOrder == [d] + w.dialogOrder
    && r.dialogs[d].slots == OneSlot(TXN_SLOTS, t) && r.dialogs[d].call == call
    && (match call
        case None => r.calls == w.calls && r.callOrder == w.callOrder && r.nextId == d + 1
        case Some(c) =>
          && c == d + 1 && c in r.calls && r.calls == w.calls[c := r.calls[c]] && r.callOrder == [c] + w.callOrder
          && r.calls[c].slots == OneSlot(CALL_SLOTS, d) && r.nextId == d + 2)
  }

  lemma GrownLists(w: Worker, r: Worker, t: nat, d: nat, call: Option<nat>)
    requires Lists(w) && Grown(w, r, t, d, call)
    ensures Lists(r)
  {
    DistinctCons(d, w.dialogOrder);
    if call.Some? { DistinctCons(call.value, w.callOrder); }
  }

  lemma GrownTxnLinks(w: Worker, r: Worker, t: nat, d: nat, call: Option<nat>)
    requires Lists(w) && TxnLinks(w) && Grown(w, r, t, d, call)
    ensures TxnLinks(r)
  {
    hide Distinct;
    assert r.dialogs[d].slots[0] == Some(t);
    assert forall e :: e in w.dialogs ==> e != d && r.dialogs[e] == w.dialogs[e];
  }

  lemma GrownCallLinks(w: Worker, r: Worker, t: nat, d: nat, call: Option<nat>)
    requires Lists(w) && CallLinks(w) && Grown(w, r, t, d, call)
    ensures CallLinks(r)
  {
    if call.Some? { assert r.calls[call.value].slots[0] == Some(d); }
  }

  lemma GrownSizes(w: Worker, r: Worker, t: nat, d: nat, call: Option<nat>)
    requires Sizes(w) && Grown(w, r, t, d, call)
    ensures Sizes(r)
  {
  }

  lemma GrownGraph(w: Worker, r: Worker, t: nat, d: nat, call: Option<nat>)
    requires Graph(w) && Grown(w, r, t, d, call)
    ensures Graph(r)
  {
    GrownLists(w, r, t, d, call);
    GrownTxnLinks(w, r, t, d, call);
    GrownCallLinks(w, r, t, d, call);
    GrownSizes(w, r, t, d, call);
  }

  lemma GrownDialogs(w: Worker, r: Worker, t: nat, d: nat, call: Option<nat>)
    requires Lists(w) && CallLinks(w) && CoupledBut(w, t) && Grown(w, r, t, d, call)
    requires DialogCoupled(r.dialogs[d], r.calls)
    ensures forall e :: e in r.dialogs ==> DialogCoupled(r.dialogs[e], r.calls)
  {
    forall e | e in r.dialogs && e != d ensures DialogCoupled(r.dialogs[e], r.calls) {
      assert DialogCoupled(w.dialogs[e], w.calls);
    }
  }

  lemma GrownCoupled(w: Worker, r: Worker, t: nat, d: nat, call: Option<nat>)
    requires Lists(w) && CallLinks(w) && CoupledBut(w, t) && Grown(w, r, t, d, call)
    requires Settled(r.txns[t].state) && DialogCoupled(r.dialogs[d], r.calls)
    requires call.Some? ==> CallCoupled(r.calls[call.value])
    ensures Coupled(r)
  {
    GrownDialogs(w, r, t, d, call);
    assert r.dialogs[d].slots[0] == Some(t);
    forall e | e in r.dialogs && e != d ensures DialogHeld(r.dialogs[e], r.txns) {
      assert DialogHeld(w.dialogs[e], w.txns);
    }
  }

  /** What the worker has gained, however the INVITE ended. */
  lemma DialogEndsGrown(w: Worker, r: Worker, t: nat, req: Request, o: Oracle)
    requires t in w.txns && w.txns[t].dialog.None? && w.nextId !in w.dialogs
    requires DialogEnds(StartDialog(w, t, req.fromTag, o.toTag), r, t, w.nextId, req.callId, o)
    ensures w.nextId in r.dialogs && Grown(w, r, t, w.nextId, r.dialogs[w.nextId].call)
  {
    StartDialogEffect(w, t, req.fromTag, o.toTag);
    hide StartDialog;
  }

  /** However the INVITE ended, its new dialog and call agree with each other. */
  lemma DialogEndsCoupled(w: Worker, r: Worker, t: nat, req: Request, o: Oracle)
    requires t in w.txns && w.nextId !in w.dialogs
    requires DialogEnds(StartDialog(w, t, req.fromTag, o.toTag), r, t, w.nextId, req.callId, o)
    ensures t in r.txns && Settled(r.txns[t].state) && w.nextId in r.dialogs
    ensures var x := r.dialogs[w.nextId];
            && DialogCoupled(x, r.calls)
            && (x.call.Some? && x.call.value in r.calls ==> CallCoupled(r.calls[x.call.value]))
  {
    hide StartDialog;
    var call := r.dialogs[w.nextId].call;
    if call.Some? { assert r.calls[call.value].slots[0] == Some(w.nextId); }
  }

  lemma DialogEndsKeeps(w: Worker, r: Worker, t: nat, req: Request, o: Oracle)
    requires Graph(w) && CoupledBut(w, t) && t in w.txns && w.txns[t].dialog.None?
    requires DialogEnds(StartDialog(w, t, req.fromTag, o.toTag), r, t, w.nextId, req.callId, o)
    ensures Consistent(r)
  {
    hide Coupled, CoupledBut, DialogEnds, StartDialog, DialogCoupled, CallCoupled, Distinct, Sizes, TxnLinks, CallLinks;
    DialogEndsGrown(w, r, t, req, o);
    DialogEndsCoupled(w, r, t, req, o);
    GrownGraph(w, r, t, w.nextId, r.dialogs[w.nextId].call);
    GrownCoupled(w, r, t, w.nextId, r.dialogs[w.nextId].call);
  }

  lemma InviteKeeps(w: Worker, t: nat, o: Oracle)
    requires Graph(w) && Closed(w) && CoupledBut(w, t) && t in w.txns
    requires w.txns[t].state == TxnIdle && w.txns[t].message.value.req.kind == INVITE && w.txns[t].ack.None?
    ensures Consistent(ProcessInvite(w, t, o))
  {
    var req := w.txns[t].message.value.req;
    if w.txns[t].dialog.Some? {
      assert TxnCoupled(w.txns[t]);
    } else if NoDialogMade(o, req) {
      InviteRefusedKeeps(w, t, o);
    } else {
      InviteAccepted(w, t, o);
      DialogEndsKeeps(w, ProcessInvite(w, t, o), t, req, o);
    }
  }

  /** The transaction an incoming request is dispatched for, and the state it is dispatched in;
      None when the request is answered or dropped on the spot. */
  function Served(w: Worker, m: Message, o: Oracle): Option<(Worker, nat)>
    requires Closed(w)
  {
    match FindTxnOf(w, m.req.branch)
    case None => if !o.allocTxn || m.req.branch.length == 0 then None else Some((Adopt(w, m), w.nextId))
    case Some(t) =>
      if !SameRequest(w.txns[t], m) && w.txns[t].message.value.req.kind == INVITE && m.req.kind == ACK
      then Some((SetAck(w, t, m), t)) else None
  }

  /** The dialog the request's transaction would join has a free slot. */
  ghost predicate HasRoom(w: Worker, m: Message, o: Oracle)
    requires Closed(w)
  {
    var s := Served(w, m, o);
    s.Some? ==> s.value.1 in s.value.0.txns && Room(s.value.0, s.value.1, m.req)
  }

  /** The branch a new transaction would store is stored by no other. */
  ghost predicate Fits(w: Worker, m: Message, o: Oracle)
    requires Closed(w)
  {
    Served(w, m, o).Some? && FindTxnOf(w, m.req.branch).None? ==>
      Shown(m.req.branch) && forall t :: t in w.txns ==> w.txns[t].branch != Cut(m.req.branch, MAX_ID_LENGTH)
  }

  ghost predicate Admissible(w: Worker, m: Message, o: Oracle)
    requires Closed(w)
  {
    HasRoom(w, m, o) && Fits(w, m, o)
  }

  lemma DispatchKeeps(w: Worker, t: nat, req: Request, o: Oracle)
    requires Graph(w) && Closed(w) && CoupledBut(w, t) && t in w.txns && Room(w, t, req)
    requires req.kind.INVITE? ==> w.txns[t].state == TxnIdle && w.txns[t].message.value.req.kind == INVITE && w.txns[t].ack.None?
    ensures Consistent(Dispatch(w, t, req, o))
  {
    var v := AttachByTags(w, t, req);
    AttachKeepsGraph(w, t, req);
    AttachKeepsCoupled(w, t, req);
    GraphClosed(v);
    if req.kind == INVITE {
      InviteKeeps(v, t, o);
    } else if req.kind == ACK {
      AckKeeps(v, t, o);
    } else if req.kind == BYE {
      if ByeAccepted(v, t) { ByeAcceptedKeeps(v, t, o); } else { ByeRefusedKeeps(v, t, o); }
    } else {
      OtherKeeps(v, t, o);
    }
  }

  lemma SetAckKeeps(w: Worker, t: nat, m: Message)
    requires Consistent(w) && t in w.txns
    ensures Graph(SetAck(w, t, m)) && CoupledBut(SetAck(w, t, m), t)
  {
    OnlyTxnGraph(w, SetAck(w, t, m), t);
    SetAckCoupled(w, t, m);
  }

  lemma SetAckCoupled(w: Worker, t: nat, m: Message)
    requires Coupled(w) && t in w.txns
    ensures CoupledBut(SetAck(w, t, m), t)
  {
  }

  /** A changed response leaves every state alone. */
  lemma SameStateKeeps(w: Worker, r: Worker, t: nat)
    requires Coupled(w) && OnlyTxn(w, r, t) && r.txns[t].state == w.txns[t].state && r.txns[t].ack == w.txns[t].ack
    ensures Coupled(r)
  {
  }

  lemma ResendEffect(w: Worker, t: nat, o: Oracle)
    requires t in w.txns && w.txns[t].message.Some?
    requires w.txns[t].dialog.Some? ==> w.txns[t].dialog.value in w.dialogs
    ensures OnlyTxn(w, Resend(w, t, o), t)
    ensures Resend(w, t, o).txns[t] == w.txns[t].(response := Resend(w, t, o).txns[t].response, code := Resend(w, t, o).txns[t].code)
  {
  }

  lemma ResendKeeps(w: Worker, t: nat, o: Oracle)
    requires Consistent(w) && Closed(w) && t in w.txns
    ensures Consistent(Resend(w, t, o))
  {
    ResendEffect(w, t, o);
    OnlyTxnGraph(w, Resend(w, t, o), t);
    SameStateKeeps(w, Resend(w, t, o), t);
  }

  /** Where an admissible request reaches its handler, everything but its own transaction is settled. */
  lemma ServedReady(w: Worker, m: Message, o: Oracle)
    requires Consistent(w) && Closed(w) && HasRoom(w, m, o) && Served(w, m, o).Some?
    ensures var s := Served(w, m, o);
            var v, t := s.value.0, s.value.1;
            && Graph(v) && Closed(v) && CoupledBut(v, t) && t in v.txns && Room(v, t, m.req)
            && (m.req.kind.INVITE? ==>
                  v.txns[t].state == TxnIdle && v.txns[t].message == Some(m) && v.txns[t].ack.None?)
  {
    match FindTxnOf(w, m.req.branch)
    case None => AdoptKeepsGraph(w, m); AdoptKeepsCoupled(w, m);
    case Some(t) => SetAckKeeps(w, t, m); GraphClosed(SetAck(w, t, m));
  }

  lemma ServedLists(w: Worker, m: Message, o: Oracle)
    requires Consistent(w) && Closed(w) && Served(w, m, o).Some?
    ensures Lists(Served(w, m, o).value.0)
  {
    match FindTxnOf(w, m.req.branch)
    case None => AdoptLists(w, m);
    case Some(t) =>
  }

  lemma ServedDispatch(w: Worker, m: Message, o: Oracle)
    requires Closed(w) && Served(w, m, o).Some?
    ensures var s := Served(w, m, o);
            var v, t := s.value.0, s.value.1;
            && t in v.txns && Closed(v) && (m.req.kind.INVITE? ==> v.txns[t].state == TxnIdle)
            && ProcessRequest(w, m, o) == Dispatch(v, t, m.req, o)
  {
  }

  /** A request that finds room keeps graph and coupling. */
  lemma RequestKeepsConsistent(w: Worker, m: Message, o: Oracle)
    requires Consistent(w) && Closed(w) && HasRoom(w, m, o)
    ensures Consistent(ProcessRequest(w, m, o))
  {
    hide Graph, Coupled, CoupledBut, Room, SameRequest;
    if Served(w, m, o).Some? {
      var s := Served(w, m, o).value;
      ServedReady(w, m, o);
      ServedDispatch(w, m, o);
      DispatchKeeps(s.0, s.1, m.req, o);
    } else {
      UnservedKeeps(w, m, o);
    }
  }

  lemma FreeKeeps(w: Worker, r: Worker)
    requires Consistent(w) && r == w.(history := r.history)
    ensures Consistent(r)
  {
    SameShapeGraph(w, r);
  }

  lemma UnservedKeeps(w: Worker, m: Message, o: Oracle)
    requires Consistent(w) && Closed(w) && Served(w, m, o).None?
    ensures Consistent(ProcessRequest(w, m, o))
  {
    hide Consistent;
    match FindTxnOf(w, m.req.branch)
    case None => FreeKeeps(w, ProcessRequest(w, m, o));
    case Some(t) =>
      if SameRequest(w.txns[t], m) {
        ResendKeeps(w, t, o);
        FreeKeeps(Resend(w, t, o), ProcessRequest(w, m, o));
      } else {
        FreeKeeps(w, ProcessRequest(w, m, o));
      }
  }

  /** The branches are untouched, and so are the slots of `t`'s dialog once it has one. */
  ghost predicate Leaves(v: Worker, r: Worker, t: nat) {
    && r.txns.Keys == v.txns.Keys && (forall u :: u in v.txns ==> r.txns[u].branch == v.txns[u].branch)
    && t in v.txns
    && (v.txns[t].dialog.Some? && v.txns[t].dialog.value in v.dialogs ==>
          var d := v.txns[t].dialog.value;
          r.txns[t].dialog == Some(d) && d in r.dialogs && r.dialogs[d].slots == v.dialogs[d].slots)
  }

  lemma InviteLeaves(v: Worker, t: nat, o: Oracle)
    requires t in v.txns && v.txns[t].state == TxnIdle && v.txns[t].message.Some?
    requires v.txns[t].dialog.Some? ==> v.txns[t].dialog.value in v.dialogs
    requires v.nextId !in v.dialogs && v.nextId + 1 !in v.calls
    ensures Leaves(v, ProcessInvite(v, t, o), t)
  {
    if v.txns[t].dialog.None? {
      hide ProcessInvite;
      if NoDialogMade(o, v.txns[t].message.value.req) {
        InviteRefused(v, t, o);
      } else {
        InviteAccepted(v, t, o);
        AcceptedLeaves(v, ProcessInvite(v, t, o), t, v.txns[t].message.value.req, o);
      }
    }
  }

  lemma AcceptedLeaves(v: Worker, r: Worker, t: nat, req: Request, o: Oracle)
    requires t in v.txns && v.txns[t].dialog.None?
    requires DialogEnds(StartDialog(v, t, req.fromTag, o.toTag), r, t, v.nextId, req.callId, o)
    ensures Leaves(v, r, t)
  {
    assert StartDialog(v, t, req.fromTag, o.toTag).txns == v.txns[t := v.txns[t].(dialog := Some(v.nextId))];
    hide StartDialog;
  }

  lemma ByeLeaves(v: Worker, t: nat, o: Oracle)
    requires Closed(v) && t in v.txns
    ensures Leaves(v, ProcessBye(v, t, o), t)
  {
    hide SlotsLive, CallSlotsLive;
    if ByeAccepted(v, t) {
      hide ProcessBye;
      ByeEffect(v, t, o);
    } else {
      hide ByeAccepted, Respond;
    }
  }

  lemma AnswerLeaves(v: Worker, t: nat, kind: Method, o: Oracle)
    requires Attachment(v, t) && kind != INVITE && kind != BYE
    ensures Leaves(v, if kind == ACK then ProcessAck(v, t, o) else ProcessOther(v, t, o), t)
  {
  }

  /** The dialog of `t` is allocated. */
  ghost predicate Attachment(v: Worker, t: nat) {
    t in v.txns && (v.txns[t].dialog.Some? ==> v.txns[t].dialog.value in v.dialogs)
  }

  lemma ServeLeaves(v: Worker, t: nat, kind: Method, o: Oracle)
    requires Closed(v) && t in v.txns && v.nextId !in v.dialogs && v.nextId + 1 !in v.calls
    requires kind.INVITE? ==> v.txns[t].state == TxnIdle
    ensures Leaves(v, Serve(v, t, kind, o), t)
  {
    if kind == INVITE {
      hide ProcessInvite;
      InviteLeaves(v, t, o);
    } else if kind == BYE {
      hide ProcessBye;
      ByeLeaves(v, t, o);
    } else {
      hide SlotsLive, CallSlotsLive;
      AnswerLeaves(v, t, kind, o);
    }
  }

  lemma DispatchLeaves(w: Worker, t: nat, req: Request, o: Oracle)
    requires Closed(w) && t in w.txns && w.nextId !in w.dialogs && w.nextId + 1 !in w.calls
    requires req.kind.INVITE? ==> w.txns[t].state == TxnIdle
    ensures Leaves(AttachByTags(w, t, req), Dispatch(w, t, req, o), t)
  {
    hide Serve, FindDialogOf;
    AttachClosed(w, t, req);
    ServeLeaves(AttachByTags(w, t, req), t, req.kind, o);
  }

  /** A handler adds no transaction and changes no branch. */
  lemma DispatchBranches(w: Worker, t: nat, req: Request, o: Oracle)
    requires Closed(w) && t in w.txns && w.nextId !in w.dialogs && w.nextId + 1 !in w.calls
    requires req.kind.INVITE? ==> w.txns[t].state == TxnIdle
    ensures var r := Dispatch(w, t, req, o);
            r.txns.Keys == w.txns.Keys && forall u :: u in w.txns ==> r.txns[u].branch == w.txns[u].branch
  {
    hide Serve, FindDialogOf, Closed;
    DispatchLeaves(w, t, req, o);
  }

  lemma NoRoomBreaks(w: Worker, t: nat, req: Request, o: Oracle)
    requires Closed(w) && BackLinks(w) && t in w.txns && w.nextId !in w.dialogs && w.nextId + 1 !in w.calls
    requires req.kind.INVITE? ==> w.txns[t].state == TxnIdle
    requires !Room(w, t, req)
    ensures !TxnLinks(Dispatch(w, t, req, o))
  {
    hide Serve, Dispatch, Closed;
    DispatchLeaves(w, t, req, o);
    assert Some(t) !in w.dialogs[FindDialogOf(w, req).value].slots;
  }

  /** What is known when the handler is reached. */
  lemma ServedGraph(w: Worker, m: Message, o: Oracle)
    requires Consistent(w) && Closed(w) && Served(w, m, o).Some?
    ensures var s := Served(w, m, o);
            var v, t := s.value.0, s.value.1;
            && t in v.txns && Closed(v) && BackLinks(v) && v.nextId !in v.dialogs && v.nextId + 1 !in v.calls
            && (m.req.kind.INVITE? ==> v.txns[t].state == TxnIdle)
  {
    match FindTxnOf(w, m.req.branch)
    case None => AdoptLinks(w, m);
    case Some(t) => SetAckKeeps(w, t, m); GraphClosed(SetAck(w, t, m));
  }

  /** Graph and coupling survive a request exactly when the dialog its transaction joins has a free slot:
      a full slot array is never repaired. */
  lemma RequestKeepsConsistentIff(w: Worker, m: Message, o: Oracle)
    requires Consistent(w) && Closed(w)
    ensures Consistent(ProcessRequest(w, m, o)) <==> HasRoom(w, m, o)
  {
    if HasRoom(w, m, o) {
      RequestKeepsConsistent(w, m, o);
    } else {
      hide Dispatch, Coupled, TxnLinks, Closed;
      var s := Served(w, m, o).value;
      ServedGraph(w, m, o);
      ServedDispatch(w, m, o);
      NoRoomBreaks(s.0, s.1, m.req, o);
    }
  }

  // ---------- branches ----------

  /** The transactions of `r` are those of `w` with the same branches, and `t` with branch `b` if it is new. */
  ghost predicate BranchesAre(w: Worker, r: Worker, t: nat, b: Ident) {
    && t in r.txns && r.txns.Keys == w.txns.Keys + {t}
    && (forall u :: u in w.txns ==> r.txns[u].branch == w.txns[u].branch)
    && (t !in w.txns ==> r.txns[t].branch == b)
  }

  lemma StartBranches(w: Worker, m: Message, o: Oracle)
    requires Consistent(w) && Closed(w) && Served(w, m, o).Some?
    ensures var t := Served(w, m, o).value.1;
            && BranchesAre(w, Served(w, m, o).value.0, t, Cut(m.req.branch, MAX_ID_LENGTH))
            && (t in w.txns <==> FindTxnOf(w, m.req.branch).Some?)
  {
    hide Coupled, TxnLinks, CallLinks, Closed, SameRequest, Sizes;
  }

  /** The transactions after a request that reached a handler. */
  lemma ServedBranches(w: Worker, m: Message, o: Oracle)
    requires Consistent(w) && Closed(w) && Served(w, m, o).Some?
    ensures var t := Served(w, m, o).value.1;
            && BranchesAre(w, ProcessRequest(w, m, o), t, Cut(m.req.branch, MAX_ID_LENGTH))
            && (t in w.txns <==> FindTxnOf(w, m.req.branch).Some?)
  {
    hide Consistent, Closed, Served, Dispatch, TxnLinks;
    var s := Served(w, m, o).value;
    StartBranches(w, m, o);
    ServedGraph(w, m, o);
    ServedDispatch(w, m, o);
    DispatchBranches(s.0, s.1, m.req, o);
  }

  lemma UnservedBranches(w: Worker, m: Message, o: Oracle)
    requires Consistent(w) && Closed(w) && Served(w, m, o).None?
    ensures var r := ProcessRequest(w, m, o);
            r.txns.Keys == w.txns.Keys && forall u :: u in w.txns ==> r.txns[u].branch == w.txns[u].branch
  {
    hide Consistent, FindTxn, Resend, SlotsLive, CallSlotsLive;
    var t := FindTxnOf(w, m.req.branch);
    if t.Some? && SameRequest(w.txns[t.value], m) { ResendEffect(w, t.value, o); }
  }

  /** Branches stay distinct exactly when no live transaction stores what the new one will. */
  lemma RequestKeepsBranchesIff(w: Worker, m: Message, o: Oracle)
    requires Consistent(w) && Closed(w) && Branches(w) && Shown(m.req.branch)
    ensures Branches(ProcessRequest(w, m, o)) <==> Fits(w, m, o)
  {
    hide Consistent, ProcessRequest, Closed;
    if Served(w, m, o).Some? {
      ServedBranches(w, m, o);
      var r, t := ProcessRequest(w, m, o), Served(w, m, o).value.1;
      assert forall u :: u in w.txns ==> u in r.txns;
    } else {
      UnservedBranches(w, m, o);
    }
  }

  /** A branch that fits its buffer is stored by no transaction its search does not find. */
  lemma ShortBranchFits(w: Worker, m: Message, o: Oracle)
    requires Closed(w) && Lists(w) && Shown(m.req.branch) && |m.req.branch.text| <= MAX_ID_LENGTH
    ensures Fits(w, m, o)
  {
    if FindTxnOf(w, m.req.branch).None? && m.req.branch.length > 0 {
      forall t | t in w.txns ensures w.txns[t].branch != m.req.branch {
        assert !Matches(w.txns[t].branch, m.req.branch.text, m.req.branch.length);
      }
    }
  }

  /** A branch longer than its buffer is never found again. */
  lemma LongBranchNotFound(w: Worker, branch: Ident)
    requires Branches(w) && Shown(branch) && |branch.text| > MAX_ID_LENGTH
    ensures FindTxnOf(w, branch).None?
  {
    var t := FindTxnOf(w, branch);
    if t.Some? { MatchIsEquality(w.txns[t.value].branch, branch); }
  }

  /** What a long branch costs: repeating the request opens a second transaction that stores the same. */
  lemma LongBranchOpensTwo(w: Worker, m: Message, o: Oracle, again: Message, o': Oracle)
    requires Inv(w) && Closed(w) && Shown(m.req.branch) && |m.req.branch.text| > MAX_ID_LENGTH
    requires o.allocTxn && HasRoom(w, m, o) && Fits(w, m, o)
    requires again.req == m.req && o'.allocTxn
    ensures var r := ProcessRequest(w, m, o);
            && Closed(r) && w.nextId in r.txns && r.nextId !in r.txns
            && var r' := ProcessRequest(r, again, o');
               && w.nextId in r'.txns && r.nextId in r'.txns
               && r'.txns[w.nextId].branch == r'.txns[r.nextId].branch == Cut(m.req.branch, MAX_ID_LENGTH)
               && !Branches(r')
  {
    hide ProcessRequest, Consistent, Closed, Branches, HasRoom, Fits, Adopt, SetAck;
    var r := ProcessRequest(w, m, o);
    LongBranchNotFound(w, m.req.branch);
    RequestKeepsInv(w, m, o);
    InvClosed(r);
    ServedBranches(w, m, o);
    LongBranchNotFound(r, m.req.branch);
    ServedBranches(r, again, o');
    SharedBranch(ProcessRequest(r, again, o'), w.nextId, r.nextId);
  }

  lemma SharedBranch(w: Worker, t: nat, u: nat)
    requires t in w.txns && u in w.txns && t != u && w.txns[t].branch == w.txns[u].branch
    ensures !Branches(w)
  {
  }

  lemma InvClosed(w: Worker)
    requires Inv(w)
    ensures Closed(w) && TxnLinks(w) && BackLinks(w) && CallLinks(w) && w.nextId !in w.txns
  {
    GraphClosed(w);
  }

  // ---------- the invariant ----------

  /** Every admissible request keeps the invariant. */
  lemma RequestKeepsInv(w: Worker, m: Message, o: Oracle)
    requires Inv(w) && Closed(w) && Admissible(w, m, o)
    ensures Inv(ProcessRequest(w, m, o))
  {
    hide Consistent, Branches, HasRoom, ProcessRequest, Closed;
    RequestKeepsConsistent(w, m, o);
    if Served(w, m, o).Some? && FindTxnOf(w, m.req.branch).None? {
      RequestKeepsBranchesIff(w, m, o);
    } else {
      OldBranches(w, m, o);
    }
  }

  lemma OldBranches(w: Worker, m: Message, o: Oracle)
    requires Inv(w) && Closed(w) && (Served(w, m, o).None? || FindTxnOf(w, m.req.branch).Some?)
    ensures Branches(ProcessRequest(w, m, o))
  {
    hide Consistent, ProcessRequest, Closed;
    if Served(w, m, o).Some? { ServedBranches(w, m, o); } else { UnservedBranches(w, m, o); }
  }

  /** The invariant survives a request exactly when the request is admissible. */
  lemma RequestKeepsInvIff(w: Worker, m: Message, o: Oracle)
    requires Inv(w) && Closed(w) && Shown(m.req.branch)
    ensures Inv(ProcessRequest(w, m, o)) <==> Admissible(w, m, o)
  {
    hide Consistent, Branches, HasRoom, Fits, ProcessRequest, Closed;
    RequestKeepsConsistentIff(w, m, o);
    RequestKeepsBranchesIff(w, m, o);
  }
}
