/** What every request is answered, response by response. */
module Answers {
  import opened SipTypes
  import opened WorkerModel
  import opened Outcomes
  import opened Invariants
  import opened Deletion
  import opened ByeOnce
  import opened Reachability
  import opened Limits

  /** A request on a branch of its own for which a transaction can be made. */
  ghost predicate Fresh(w: Worker, m: Message, o: Oracle) {
    FindTxnOf(w, m.req.branch).None? && o.allocTxn && m.req.branch.length > 0
  }

  /** The tag of a dialog, if there is one. */
  function TagIn(w: Worker, d: Option<nat>): Option<string> {
    if d.Some? && d.value in w.dialogs then Some(w.dialogs[d.value].toTag) else None
  }

  // ---------- methods the server does not serve ----------

  /** A request that is no INVITE, ACK or BYE is answered once, with a 501, and is TERMINATED. */
  lemma OtherGets501(w: Worker, m: Message, o: Oracle)
    requires Closed(w) && Fresh(w, m, o) && m.req.kind != INVITE && m.req.kind != ACK && m.req.kind != BYE
    ensures var r, d := ProcessRequest(w, m, o), FindDialogOf(w, m.req);
            && r.history == w.history.(sent := w.history.sent + [Said(w.nextId, d, m, 501, TagIn(w, d), o.sendError)])
            && w.nextId in r.txns && r.txns[w.nextId].state == TxnTerminated && r.txns[w.nextId].message == Some(m)
            && r.txns[w.nextId].code == 501 && r.txns[w.nextId].response == Printed(501, m.req, TagIn(w, d))
            && r.calls == w.calls
  {
    hide FindTxn, FindDialog, SlotsLive, CallSlotsLive, AddSlot;
  }

  // ---------- BYE ----------

  /** The call of the dialog a request names. */
  function CallOf(w: Worker, req: Request): Option<nat> {
    var d := FindDialogOf(w, req);
    if d.Some? && d.value in w.dialogs then w.dialogs[d.value].call else None
  }

  /** The request names a CONFIRMED dialog with a call. */
  predicate NamesCall(w: Worker, req: Request) {
    CallOf(w, req).Some? && w.dialogs[FindDialogOf(w, req).value].state == DialogConfirmed
  }

  /** A BYE is answered 404 without a dialog or without its call, 200 in a CONFIRMED dialog, and 403 otherwise. */
  lemma ByeAnswers(w: Worker, m: Message, o: Oracle)
    requires Closed(w) && Fresh(w, m, o) && m.req.kind == BYE
    ensures var d := FindDialogOf(w, m.req);
            ProcessRequest(w, m, o).history == w.history.(sent := w.history.sent + [
              if CallOf(w, m.req).None? then Said(w.nextId, d, m, 404, TagIn(w, d), o.sendError)
              else if NamesCall(w, m.req) then Said(w.nextId, d, m, 200, TagIn(w, d), o.send200)
              else Said(w.nextId, d, m, 403, TagIn(w, d), o.sendError)])
  {
    hide FindTxn, FindDialog, SlotsLive, CallSlotsLive, AddSlot, Schedule, ProcessBye;
    var v := AttachByTags(Adopt(w, m), w.nextId, m.req);
    AttachClosed(Adopt(w, m), w.nextId, m.req);
    ByeSends(v, w.nextId, o);
  }

  lemma ByeLeavesStates(v: Worker, t: nat, o: Oracle)
    requires Closed(v) && t in v.txns
    ensures var r := ProcessBye(v, t, o);
            && t in r.txns && r.txns[t].state == TxnTerminated
            && (if ByeAccepted(v, t)
                then var d := v.txns[t].dialog.value;
                     var c := v.dialogs[d].call.value;
                     && r.dialogs == v.dialogs[d := v.dialogs[d].(state := DialogTerminated)]
                     && r.calls == v.calls[c := v.calls[c].(state := CallTerminated)]
                else r.dialogs == v.dialogs && r.calls == v.calls)
  {
    hide SlotsLive, CallSlotsLive, Schedule;
    if ByeAccepted(v, t) {
      hide ProcessBye;
      ByeEffect(v, t, o);
    }
  }

  /** It is TERMINATED; the dialog and the call end exactly when the answer is 200. */
  lemma ByeEndsCall(w: Worker, m: Message, o: Oracle)
    requires Closed(w) && Fresh(w, m, o) && m.req.kind == BYE
    ensures var r, d, c := ProcessRequest(w, m, o), FindDialogOf(w, m.req), CallOf(w, m.req);
            && w.nextId in r.txns && r.txns[w.nextId].state == TxnTerminated
            && (if NamesCall(w, m.req)
                then d.value in r.dialogs && r.dialogs[d.value].state == DialogTerminated
                     && r.calls == w.calls[c.value := w.calls[c.value].(state := CallTerminated)]
                else r.calls == w.calls
                     && forall e :: e in w.dialogs ==> e in r.dialogs && r.dialogs[e].state == w.dialogs[e].state)
  {
    hide FindTxn, FindDialog, SlotsLive, CallSlotsLive, AddSlot, Schedule, ProcessBye;
    var v := AttachByTags(Adopt(w, m), w.nextId, m.req);
    AttachClosed(Adopt(w, m), w.nextId, m.req);
    ByeLeavesStates(v, w.nextId, o);
  }

  // ---------- no transaction ----------

  /** A request for which no transaction can be made is answered with a 500 that has no tag, and freed. */
  lemma NoTransactionGets500(w: Worker, m: Message, o: Oracle)
    requires Closed(w) && FindTxnOf(w, m.req.branch).None? && (!o.allocTxn || m.req.branch.length == 0)
    ensures ProcessRequest(w, m, o) == w.(history := History(
              w.history.freed + multiset{m.id}, w.history.displaced,
              w.history.sent + [Sent(None, None, m.req.kind, 500, Printed(500, m.req, None), m.addr, o.sendError, false)]))
  {
    hide FindTxn, SlotsLive, CallSlotsLive;
  }

  // ---------- INVITEs ----------

  /** What an INVITE without a dialog is sent: every failure ends with a 500. */
  function InviteSays(t: nat, d: nat, m: Message, o: Oracle): seq<Sent> {
    var tag := Some(o.toTag);
    if !o.send100 then [Said(t, None, m, 100, None, false), Said(t, None, m, 500, None, o.sendError)]
    else
      [Said(t, None, m, 100, None, true)] +
      if !o.allocDialog || m.req.fromTag.length == 0 then [Said(t, None, m, 500, None, o.sendError)]
      else if !o.allocCall || m.req.callId == "" then [Said(t, Some(d), m, 500, tag, o.sendError)]
      else if !o.send180 then [Said(t, Some(d), m, 180, tag, false), Said(t, Some(d), m, 500, tag, o.sendError)]
      else
        [Said(t, Some(d), m, 180, tag, true)] +
        if !o.send200 then [Said(t, Some(d), m, 200, tag, false), Said(t, Some(d), m, 500, tag, o.sendError)]
        else [Said(t, Some(d), m, 200, tag, true)]
  }

  lemma CallSays(w: Worker, t: nat, d: nat, m: Message, o: Oracle)
    requires t in w.txns && d in w.dialogs && w.txns[t].dialog == Some(d) && w.txns[t].message == Some(m)
    ensures var tag := Some(w.dialogs[d].toTag);
            InviteCall(w, t, d, o).history.sent == w.history.sent +
              if !o.allocCall || m.req.callId == "" then [Said(t, Some(d), m, 500, tag, o.sendError)]
              else if !o.send180 then [Said(t, Some(d), m, 180, tag, false), Said(t, Some(d), m, 500, tag, o.sendError)]
              else if !o.send200
              then [Said(t, Some(d), m, 180, tag, true), Said(t, Some(d), m, 200, tag, false), Said(t, Some(d), m, 500, tag, o.sendError)]
              else [Said(t, Some(d), m, 180, tag, true), Said(t, Some(d), m, 200, tag, true)]
  {
    hide AddSlot, Schedule;
  }

  lemma FailureSays(w: Worker, t: nat, m: Message, o: Oracle)
    requires t in w.txns && w.txns[t].message == Some(m) && w.txns[t].dialog.None?
    ensures FailTxn(w, t, o).history.sent == w.history.sent + [Said(t, None, m, 500, None, o.sendError)]
  {
    hide Schedule;
  }

  lemma InviteSaysOf(w: Worker, t: nat, m: Message, o: Oracle)
    requires t in w.txns && w.txns[t].state == TxnIdle && w.txns[t].message == Some(m) && w.txns[t].dialog.None?
    requires w.nextId !in w.dialogs
    ensures ProcessInvite(w, t, o).history.sent == w.history.sent + InviteSays(t, w.nextId, m, o)
  {
    hide InviteCall, StartDialog, Schedule, FailTxn;
    if !o.send100 || !o.allocDialog || m.req.fromTag.length == 0 {
      FailureSays(if o.send100 then SetTxnState(Respond(w, t, 100, true), t, TxnProceeding, o) else Respond(w, t, 100, false), t, m, o);
    } else {
      var w1 := SetTxnState(Respond(w, t, 100, true), t, TxnProceeding, o);
      StartDialogEffect(w1, t, m.req.fromTag, o.toTag);
      CallSays(StartDialog(w1, t, m.req.fromTag, o.toTag), t, w.nextId, m, o);
    }
  }

  /** An INVITE on a new branch that names no dialog is sent a 100, a 180 and a 200, up to the first that cannot be
      sent; when that happens, or an allocation fails, a 500 follows. */
  lemma InviteAnswers(w: Worker, m: Message, o: Oracle)
    requires Closed(w) && Lists(w) && Fresh(w, m, o) && m.req.kind == INVITE && FindDialogOf(w, m.req).None?
    ensures ProcessRequest(w, m, o).history.sent == w.history.sent + InviteSays(w.nextId, w.nextId + 1, m, o)
  {
    hide FindTxn, FindDialog, SlotsLive, CallSlotsLive, ProcessInvite, InviteSays;
    var v := Adopt(w, m);
    InviteSaysOf(v, w.nextId, m, o);
  }

  /** An INVITE that names a dialog is not answered: its transaction waits there. */
  lemma ReInviteWaits(w: Worker, m: Message, o: Oracle)
    requires Closed(w) && Fresh(w, m, o) && m.req.kind == INVITE && FindDialogOf(w, m.req).Some?
    ensures var r := ProcessRequest(w, m, o);
            && r.history == w.history && r.timers == w.timers && r.calls == w.calls
            && w.nextId in r.txns && r.txns[w.nextId].state == TxnIdle && r.txns[w.nextId].dialog == FindDialogOf(w, m.req)
            && r.txns[w.nextId].response == Empty
  {
    hide FindTxn, FindDialog, SlotsLive, CallSlotsLive, AddSlot;
  }

  // ---------- requests on a known branch ----------

  /** The request has the CSeq and the sender of the one that made the transaction. */
  predicate Again(m: Message, own: Message) {
    m.req.cseq == own.req.cseq && m.addr.family == own.addr.family && m.addr.port == own.addr.port && m.addr.ip == own.addr.ip
  }

  /** A request received again gets what was sent last, and, if nothing was or it cannot be sent, a 500; it is freed and
      changes nothing but the log and the response kept. */
  lemma AgainAnswered(w: Worker, m: Message, o: Oracle, t: nat)
    requires Closed(w) && FindTxnOf(w, m.req.branch) == Some(t) && Again(m, w.txns[t].message.value)
    ensures var x, own := w.txns[t], w.txns[t].message.value;
            var r := ProcessRequest(w, m, o);
            var last := Sent(Some(t), x.dialog, own.req.kind, x.code, x.response, own.addr, o.resend, true);
            var error := Said(t, x.dialog, own, 500, TagIn(w, x.dialog), o.sendError);
            && r.history.sent == w.history.sent + (if x.response == Empty then [error] else if o.resend then [last] else [last, error])
            && r.history.freed == w.history.freed + multiset{m.id} && r.history.displaced == w.history.displaced
            && r == w.(history := r.history, txns := if x.response != Empty && o.resend then w.txns
                         else w.txns[t := x.(response := Printed(500, own.req, TagIn(w, x.dialog)), code := 500)])
  {
    hide FindTxn, SlotsLive, CallSlotsLive;
  }

  /** Any other request on the branch, unless it is an ACK for an INVITE, is freed and changes nothing. */
  lemma OtherDropped(w: Worker, m: Message, o: Oracle, t: nat)
    requires Closed(w) && FindTxnOf(w, m.req.branch) == Some(t) && !Again(m, w.txns[t].message.value)
    requires w.txns[t].message.value.req.kind != INVITE || m.req.kind != ACK
    ensures ProcessRequest(w, m, o) == w.(history := w.history.(freed := w.history.freed + multiset{m.id}))
  {
    hide FindTxn, SlotsLive, CallSlotsLive;
    assert m.addr == w.txns[t].message.value.addr ==>
             m.addr.family == w.txns[t].message.value.addr.family && m.addr.port == w.txns[t].message.value.addr.port
             && m.addr.ip == w.txns[t].message.value.addr.ip;
  }

  /** An ACK for an INVITE is kept, not answered and not freed, and makes the transaction TERMINATED. */
  lemma AckKept(w: Worker, m: Message, o: Oracle, t: nat)
    requires Closed(w) && FindTxnOf(w, m.req.branch) == Some(t) && !Again(m, w.txns[t].message.value)
    requires w.txns[t].message.value.req.kind == INVITE && m.req.kind == ACK
    ensures var r := ProcessRequest(w, m, o);
            && t in r.txns && r.txns[t].state == TxnTerminated && r.txns[t].ack == Some(m)
            && r.txns[t].response == w.txns[t].response && r.history.sent == w.history.sent && r.history.freed == w.history.freed
  {
    hide FindTxn, FindDialog, SlotsLive, CallSlotsLive, AddSlot;
  }

  lemma CallStores(w: Worker, t: nat, d: nat, m: Message, o: Oracle)
    requires t in w.txns && d in w.dialogs && w.txns[t].dialog == Some(d) && w.txns[t].message == Some(m)
    requires o.allocCall && m.req.callId != "" && o.send180 && o.send200
    ensures t in InviteCall(w, t, d, o).txns
    ensures var x := InviteCall(w, t, d, o).txns[t];
            x.code == 200 && x.response == Printed(200, m.req, Some(w.dialogs[d].toTag)) && x.message == Some(m)
            && x.dialog == Some(d) && x.branch == w.txns[t].branch
    ensures InviteCall(w, t, d, o).txnOrder == w.txnOrder
  {
    hide AddSlot, Schedule;
  }

  /** An INVITE that gets everything: its 100, 180 and 200 go out. */
  ghost predicate Succeeds(w: Worker, m: Message, o: Oracle) {
    && Fresh(w, m, o) && m.req.kind == INVITE && FindDialogOf(w, m.req).None?
    && !NoDialogMade(o, m.req) && o.allocCall && m.req.callId != "" && o.send180 && o.send200
    && Shown(m.req.branch) && |m.req.branch.text| <= MAX_ID_LENGTH
  }

  lemma InviteStores(w: Worker, t: nat, m: Message, o: Oracle)
    requires t in w.txns && w.txns[t].state == TxnIdle && w.txns[t].message == Some(m) && w.txns[t].dialog.None?
    requires w.nextId !in w.dialogs && !NoDialogMade(o, m.req)
    requires o.allocCall && m.req.callId != "" && o.send180 && o.send200
    ensures var r := ProcessInvite(w, t, o);
            && t in r.txns && r.txnOrder == w.txnOrder
            && var x := r.txns[t];
               x.code == 200 && x.response == Printed(200, m.req, Some(o.toTag)) && x.message == Some(m)
               && x.dialog == Some(w.nextId) && x.branch == w.txns[t].branch
  {
    hide InviteCall, StartDialog, Schedule;
    var w1 := SetTxnState(Respond(w, t, 100, true), t, TxnProceeding, o);
    StartDialogEffect(w1, t, m.req.fromTag, o.toTag);
    CallStores(StartDialog(w1, t, m.req.fromTag, o.toTag), t, w.nextId, m, o);
  }

  lemma AnsweredStored(w: Worker, m: Message, o: Oracle)
    requires Inv(w) && Closed(w) && Succeeds(w, m, o)
    ensures var r := ProcessRequest(w, m, o);
            && Closed(r) && FindTxnOf(r, m.req.branch) == Some(w.nextId)
            && var x := r.txns[w.nextId];
               x.code == 200 && x.response == Printed(200, m.req, Some(o.toTag)) && x.message == Some(m)
               && x.dialog == Some(w.nextId + 1)
  {
    hide Graph, Coupled, Branches, Closed, ProcessRequest, ProcessInvite, FindDialog, FindTxn;
    SucceedsOpens(w, m, o);
    OpensInvite(w, m, o);
    AddressFree(w);
    InviteStores(Adopt(w, m), w.nextId, m, o);
    OpenHasRoom(w, m, o);
    RequestKeepsConsistent(w, m, o);
    GraphOf(ProcessRequest(w, m, o));
    FirstFound(ProcessRequest(w, m, o), m.req.branch);
  }

  lemma SucceedsOpens(w: Worker, m: Message, o: Oracle)
    requires Succeeds(w, m, o)
    ensures Opens(w, m, o) && Cut(m.req.branch, MAX_ID_LENGTH) == m.req.branch
  {
  }

  lemma AddressFree(w: Worker)
    requires Inv(w)
    ensures w.nextId + 1 !in w.dialogs
  {
  }

  lemma OpenHasRoom(w: Worker, m: Message, o: Oracle)
    requires Closed(w) && Succeeds(w, m, o)
    ensures HasRoom(w, m, o)
  {
    hide FindTxn, FindDialog, SlotsLive, CallSlotsLive;
  }

  lemma GraphOf(w: Worker)
    requires Consistent(w)
    ensures Closed(w)
  {
    GraphClosed(w);
  }

  /** So an answered INVITE that is received again is sent its 200 again. */
  lemma InviteAgainGets200(w: Worker, m: Message, o: Oracle, again: Message, o': Oracle)
    requires Inv(w) && Closed(w) && Succeeds(w, m, o)
    requires again.req == m.req && again.addr == m.addr && o'.resend
    ensures var r := ProcessRequest(w, m, o);
            && Closed(r)
            && var r' := ProcessRequest(r, again, o');
               && r'.history.sent == r.history.sent +
                    [Sent(Some(w.nextId), Some(w.nextId + 1), INVITE, 200, Printed(200, m.req, Some(o.toTag)), m.addr, true, true)]
               && r'.history.freed == r.history.freed + multiset{again.id} && r'.txns == r.txns && r'.dialogs == r.dialogs
               && r'.calls == r.calls && r'.timers == r.timers
  {
    hide ProcessRequest, Inv, Closed;
    AnsweredStored(w, m, o);
    AgainAnswered(ProcessRequest(w, m, o), again, o', w.nextId);
  }

  // ---------- timers ----------

  /** Entering COMPLETED or TERMINATED, and nothing else, starts a timer of 5000 ms: one that waits for an ACK, or one
      that deletes. It carries the branch and the queue of the transaction, and is lost if it cannot be started. */
  lemma StateStartsTimer(w: Worker, t: nat, s: TxnState, o: Oracle)
    requires t in w.txns
    ensures var r, x, tm := SetTxnState(w, t, s, o), w.txns[t], w.timers;
            var timer := Timer(x.branch, tm.now + 5000, x.queue);
            var starts := x.state != s && (s == TxnCompleted || s == TxnTerminated);
            && r == w.(txns := w.txns[t := x.(state := s)], timers := r.timers) && r.timers.now == tm.now
            && r.timers.waitAck == tm.waitAck + (if starts && s == TxnCompleted && t !in o.lose then multiset{timer} else multiset{})
            && r.timers.deleting == tm.deleting + (if starts && s == TxnTerminated && t !in o.lose then multiset{timer} else multiset{})
            && r.timers.lost == tm.lost + (if starts && t in o.lose then multiset{x.branch} else multiset{})
            && r.timers.created == tm.created + (if starts then multiset{t} else multiset{})
            && r.timers.made == tm.made + (if starts then multiset{x.branch} else multiset{})
  {
    if w.txns[t].state == s { assert w.txns == w.txns[t := w.txns[t]]; }
  }

  // ---------- delete events ----------

  /** The transaction found by the branch leaves the list and its dialog's slots, and its messages are freed; a dialog
      that is not TERMINATED stays, and so do all calls. */
  lemma EventDeletesTransaction(w: Worker, branch: Ident, o: Oracle, t: nat)
    requires Consistent(w) && Closed(w) && BackLinks(w) && FindTxnOf(w, branch) == Some(t)
    requires var d := w.txns[t].dialog; d.Some? ==> w.dialogs[d.value].state != DialogTerminated
    ensures CallLinks(w)
    ensures var r, x := DeleteTransaction(w, branch, o), w.txns[t];
            && r.txns == w.txns - {t} && t !in r.txnOrder && (forall u :: u in w.txnOrder && u != t ==> u in r.txnOrder)
            && r.dialogs.Keys == w.dialogs.Keys && r.calls == w.calls && r.callOrder == w.callOrder && r.timers == w.timers
            && (forall d :: d in w.dialogs ==> r.dialogs[d] == w.dialogs[d].(slots := r.dialogs[d].slots))
            && (x.dialog.Some? ==> Some(t) !in r.dialogs[x.dialog.value].slots)
            && r.history.sent == w.history.sent
            && r.history.freed == w.history.freed + (if x.message.Some? then multiset{x.message.value.id} else multiset{})
                                                  + (if x.ack.Some? then multiset{x.ack.value.id} else multiset{})
  {
    hide Coupled, FindTxn, SlotsLive, CallSlotsLive, DropDialog, IndexOf;
    DeleteTxnEffect(w, t);
    UnlinkDistinct(w.txnOrder, t);
  }

  /** A TERMINATED dialog goes with it: every other transaction in its slots becomes TERMINATED and has no dialog, and the
      call goes exactly when it is TERMINATED. */
  lemma EventDropsDialog(w: Worker, branch: Ident, o: Oracle, t: nat, d: nat)
    requires Consistent(w) && Closed(w) && BackLinks(w) && FindTxnOf(w, branch) == Some(t)
    requires w.txns[t].dialog == Some(d) && w.dialogs[d].state == DialogTerminated
    ensures CallLinks(w)
    ensures var r := DeleteTransaction(w, branch, o);
            && r.txns.Keys == w.txns.Keys - {t} && r.dialogs.Keys == w.dialogs.Keys - {d}
            && (forall u :: u in r.txns ==>
                  if w.txns[u].dialog == Some(d) then r.txns[u] == w.txns[u].(state := TxnTerminated, dialog := None)
                  else r.txns[u] == w.txns[u])
            && (match w.dialogs[d].call
                case None => r.calls == w.calls
                case Some(c) => if w.calls[c].state == CallTerminated then r.calls == w.calls - {c} else c in r.calls)
  {
    hide Coupled, FindTxn, DropDialog, DeleteTxn, Dropped, TxnGone, Lists, Sizes, Closed, BackLinks, CallLinks;
    DeleteFoundEffect(w, t, o);
    TerminatedDrops(w, t, o, d);
    DroppedStates(w, DeleteTxn(w, t), DeleteFound(w, t, o), t, d);
  }

  lemma TerminatedDrops(w: Worker, t: nat, o: Oracle, d: nat)
    requires Consistent(w) && Closed(w) && BackLinks(w) && t in w.txns
    requires w.txns[t].dialog == Some(d) && w.dialogs[d].state == DialogTerminated
    ensures CallLinks(w) && Dropped(DeleteTxn(w, t), DeleteFound(w, t, o), d)
  {
    hide Coupled, Dropped, TxnGone, DropDialog, DeleteTxn, Distinct, CoupledButHeld, SlotsLive, CallSlotsLive, Once;
    DeleteTxnEffect(w, t);
    DeleteTxnKeeps(w, t);
    GoneKeepsDialog(w, DeleteTxn(w, t), t, d);
    DropReady(DeleteTxn(w, t), d, o);
  }

  lemma DropReady(w: Worker, d: nat, o: Oracle)
    requires Graph(w) && d in w.dialogs
    ensures Droppable(w, d) && Dropped(w, DropDialog(w, d, o), d)
  {
    hide Distinct, DropDialog, Dropped;
    GraphClosed(w);
    DropDialogEffect(w, d, o);
  }

  lemma GoneKeepsDialog(w: Worker, v: Worker, t: nat, d: nat)
    requires TxnGone(w, v, t) && w.txns[t].dialog == Some(d)
    ensures d in v.dialogs && v.dialogs[d].state == w.dialogs[d].state && v.dialogs[d].call == w.dialogs[d].call
  {
  }

  lemma DroppedStates(w: Worker, v: Worker, r: Worker, t: nat, d: nat)
    requires Closed(w) && TxnLinks(w) && TxnGone(w, v, t) && Dropped(v, r, d) && w.txns[t].dialog == Some(d)
    ensures r.txns.Keys == w.txns.Keys - {t} && r.dialogs.Keys == w.dialogs.Keys - {d}
    ensures forall u :: u in r.txns ==>
              if w.txns[u].dialog == Some(d) then r.txns[u] == w.txns[u].(state := TxnTerminated, dialog := None)
              else r.txns[u] == w.txns[u]
    ensures match w.dialogs[d].call
            case None => r.calls == w.calls
            case Some(c) => if w.calls[c].state == CallTerminated then r.calls == w.calls - {c} else c in r.calls
  {
    hide SlotsLive, CallSlotsLive, Unlink, IndexOf;
    forall u | u in r.txns ensures Some(u) in v.dialogs[d].slots <==> w.txns[u].dialog == Some(d) {
      if w.txns[u].dialog == Some(d) {
        var i :| 0 <= i < |w.dialogs[d].slots| && w.dialogs[d].slots[i] == Some(u);
        assert v.dialogs[d].slots[i] == Some(u);
      }
    }
  }

  // ---------- the first match ----------

  /** The transaction found is the first of the list with the branch: same length, same text. */
  lemma {:induction false} FirstTxnFound(order: seq<nat>, txns: map<nat, Txn>, branch: Ident, i: nat)
    requires i < |order| && order[i] in txns && branch.length > 0 && Shown(branch)
    requires forall k :: 0 <= k <= i && order[k] in txns ==> Shown(txns[order[k]].branch)
    requires txns[order[i]].branch == branch && forall k :: 0 <= k < i && order[k] in txns ==> txns[order[k]].branch != branch
    ensures FindTxn(order, txns, branch.text, branch.length) == Some(order[i])
    decreases i
  {
    if order[0] in txns { MatchIsEquality(txns[order[0]].branch, branch); }
    if i > 0 { FirstTxnFound(order[1..], txns, branch, i - 1); }
  }

  /** The dialog found is the first of the list with both tags. */
  lemma {:induction false} FirstDialogFound(order: seq<nat>, dialogs: map<nat, Dialog>, from: Ident, to: string, i: nat)
    requires i < |order| && order[i] in dialogs && from.length > 0 && Shown(from)
    requires forall k :: 0 <= k <= i && order[k] in dialogs ==> Shown(dialogs[order[k]].fromTag)
    requires dialogs[order[i]].fromTag == from && dialogs[order[i]].toTag == to
    requires forall k :: 0 <= k < i && order[k] in dialogs ==>
               dialogs[order[k]].fromTag != from || dialogs[order[k]].toTag != to
    ensures FindDialog(order, dialogs, from, Some(Whole(to))) == Some(order[i])
    decreases i
  {
    if order[0] in dialogs {
      MatchIsEquality(dialogs[order[0]].fromTag, from);
      MatchIsEquality(Whole(dialogs[order[0]].toTag), Whole(to));
    }
    if i > 0 { FirstDialogFound(order[1..], dialogs, from, to, i - 1); }
  }
}
