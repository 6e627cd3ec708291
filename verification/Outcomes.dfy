/** What the request handlers of sip_server.c do to a worker, outcome by outcome. */
module Outcomes {
  import opened SipTypes
  import opened WorkerModel

  /** A single slot holding `x`. */
  function OneSlot(n: nat, x: nat): seq<Option<nat>>
    requires n > 0
  {
    EmptySlots(n)[0 := Some(x)]
  }

  /** `r` is `w` after a response and a move of `t` to the settled state `s`. */
  ghost predicate Answered(w: Worker, r: Worker, t: nat, s: TxnState, dialog: Option<nat>, o: Oracle)
    requires t in w.txns
  {
    && t in r.txns
    && r.txns == w.txns[t := w.txns[t].(state := s, dialog := dialog,
                                        response := r.txns[t].response, code := r.txns[t].code)]
    && r.txnOrder == w.txnOrder
    && r.timers == Schedule(w.timers, t, w.txns[t].branch, w.txns[t].queue, s, t in o.lose)
    && r.history.freed == w.history.freed && r.history.displaced == w.history.displaced
    && r.nextId >= w.nextId && r.self == w.self
  }

  /** FailTxn changes the transaction, the timers and the log. */
  lemma FailTxnEffect(w: Worker, t: nat, o: Oracle)
    requires t in w.txns && w.txns[t].state != TxnCompleted
    requires w.txns[t].dialog.Some? ==> w.txns[t].dialog.value in w.dialogs
    ensures Answered(w, FailTxn(w, t, o), t, TxnCompleted, w.txns[t].dialog, o)
  {
  }

  lemma FailCallEffect(w: Worker, t: nat, d: nat, c: nat, o: Oracle)
    requires t in w.txns && d in w.dialogs && c in w.calls
    requires w.txns[t].dialog == Some(d) && w.txns[t].state != TxnCompleted
    ensures var r := FailCall(w, t, d, c, o);
            && Answered(w, r, t, TxnCompleted, Some(d), o)
            && r == w.(txns := r.txns, timers := r.timers, history := r.history,
                       dialogs := w.dialogs[d := w.dialogs[d].(state := DialogTerminated)],
                       calls := w.calls[c := w.calls[c].(state := CallFailed)])
  {
    FailTxnEffect(w, t, o);
  }

  /** `r` is `w` after the transaction, the dialog and the call reached their final states. */
  ghost predicate CallEnds(w: Worker, r: Worker, t: nat, d: nat, c: nat, answered: bool, o: Oracle)
    requires t in w.txns && d in w.dialogs && c in w.calls
  {
    && Answered(w, r, t, if answered then TxnTerminated else TxnCompleted, Some(d), o)
    && r == w.(txns := r.txns, timers := r.timers, history := r.history,
               dialogs := w.dialogs[d := w.dialogs[d].(state := if answered then DialogConfirmed else DialogTerminated)],
               calls := w.calls[c := w.calls[c].(state := if answered then CallEstablished else CallFailed)])
  }

  /** `v` is `w` after responses of `t` and maybe a change of the call's state. */
  ghost predicate Ringing(w: Worker, v: Worker, t: nat, c: nat) {
    && t in w.txns && t in v.txns && c in w.calls && c in v.calls
    && v.txns == w.txns[t := w.txns[t].(response := v.txns[t].response, code := v.txns[t].code)]
    && v.calls == w.calls[c := w.calls[c].(state := v.calls[c].state)]
    && v == w.(txns := v.txns, calls := v.calls, history := w.history.(sent := v.history.sent))
  }

  lemma RingingFails(w: Worker, v: Worker, t: nat, d: nat, c: nat, o: Oracle)
    requires Ringing(w, v, t, c) && d in w.dialogs
    requires w.txns[t].dialog == Some(d) && w.txns[t].state == TxnProceeding
    ensures CallEnds(w, FailCall(v, t, d, c, o), t, d, c, false, o)
  {
    hide FailCall;
    FailCallEffect(v, t, d, c, o);
  }

  lemma RingFails(w: Worker, t: nat, d: nat, c: nat, o: Oracle)
    requires t in w.txns && d in w.dialogs && c in w.calls
    requires w.txns[t].dialog == Some(d) && w.txns[t].state == TxnProceeding
    requires !o.send180
    ensures CallEnds(w, RingCall(w, t, d, c, o), t, d, c, false, o)
  {
    hide CallEnds, FailCall;
    RingingFails(w, Respond(w, t, 180, o.send180), t, d, c, o);
  }

  lemma AnswerFails(w: Worker, t: nat, d: nat, c: nat, o: Oracle)
    requires t in w.txns && d in w.dialogs && c in w.calls
    requires w.txns[t].dialog == Some(d) && w.txns[t].state == TxnProceeding
    requires o.send180 && !o.send200
    ensures CallEnds(w, RingCall(w, t, d, c, o), t, d, c, false, o)
  {
    hide CallEnds, FailCall;
    RingingFails(w, Respond(SetCallState(Respond(w, t, 180, o.send180), c, CallRinging), t, 200, o.send200), t, d, c, o);
  }

  lemma AnswerSucceeds(w: Worker, t: nat, d: nat, c: nat, o: Oracle)
    requires t in w.txns && d in w.dialogs && c in w.calls
    requires w.txns[t].dialog == Some(d) && w.txns[t].state == TxnProceeding
    requires o.send180 && o.send200
    ensures CallEnds(w, RingCall(w, t, d, c, o), t, d, c, true, o)
  {
  }

  /** `r` is `w` after a new call for dialog `d`, if one was made, ended the INVITE. */
  ghost predicate DialogEnds(w: Worker, r: Worker, t: nat, d: nat, callId: string, o: Oracle)
    requires t in w.txns && d in w.dialogs
  {
    var made := o.allocCall && callId != "";
    var answered := made && o.send180 && o.send200;
    && Answered(w, r, t, if answered then TxnTerminated else TxnCompleted, Some(d), o)
    && r.nextId == w.nextId + (if made then 1 else 0)
    && r.dialogOrder == w.dialogOrder
    && r.callOrder == (if made then [w.nextId] + w.callOrder else w.callOrder)
    && r.dialogs == w.dialogs[d := w.dialogs[d].(
         call := if made then Some(w.nextId) else None,
         state := if answered then DialogConfirmed else DialogTerminated)]
    && r.calls == (if made then w.calls[w.nextId :=
         Call(OneSlot(CALL_SLOTS, d), if answered then CallEstablished else CallFailed,
              StoredCallId(callId))] else w.calls)
  }

  lemma FirstSlot(n: nat, x: nat)
    requires n > 0
    ensures AddSlot(EmptySlots(n), x) == OneSlot(n, x)
  {
    assert EmptySlots(n)[0] == None;
  }

  lemma CallMade(w: Worker, r: Worker, t: nat, d: nat, callId: string, o: Oracle)
    requires t in w.txns && d in w.dialogs && w.nextId !in w.calls && o.allocCall && callId != ""
    requires CallEnds(StartCall(w, d, callId), r, t, d, w.nextId, o.send180 && o.send200, o)
    ensures DialogEnds(w, r, t, d, callId, o)
  {
    FirstSlot(CALL_SLOTS, d);
  }

  lemma NoCallMade(w: Worker, t: nat, d: nat, callId: string, o: Oracle)
    requires t in w.txns && d in w.dialogs && w.txns[t].dialog == Some(d)
    requires w.txns[t].state == TxnProceeding && w.dialogs[d].call.None?
    requires !o.allocCall || callId == ""
    ensures DialogEnds(w, SetDialogState(FailTxn(w, t, o), d, DialogTerminated), t, d, callId, o)
  {
    FailTxnEffect(w, t, o);
  }

  lemma InviteCallEffect(w: Worker, t: nat, d: nat, o: Oracle)
    requires t in w.txns && d in w.dialogs && w.txns[t].dialog == Some(d) && w.txns[t].message.Some?
    requires w.txns[t].state == TxnProceeding && w.nextId !in w.calls && w.dialogs[d].call.None?
    ensures DialogEnds(w, InviteCall(w, t, d, o), t, d, w.txns[t].message.value.req.callId, o)
  {
    var callId := w.txns[t].message.value.req.callId;
    if !o.allocCall || callId == "" {
      NoCallMade(w, t, d, callId, o);
    } else {
      var w1 := StartCall(w, d, callId);
      if !o.send180 { RingFails(w1, t, d, w.nextId, o); }
      else if !o.send200 { AnswerFails(w1, t, d, w.nextId, o); }
      else { AnswerSucceeds(w1, t, d, w.nextId, o); }
      CallMade(w, InviteCall(w, t, d, o), t, d, callId, o);
    }
  }

  /** An INVITE that gets no dialog: it is refused before one is made. */
  ghost predicate NoDialogMade(o: Oracle, req: Request) {
    !o.send100 || !o.allocDialog || req.fromTag.length == 0
  }

  /** `v` is `w` after a response of `t` and maybe a first change of its state. */
  ghost predicate Trying(w: Worker, v: Worker, t: nat) {
    && t in w.txns && t in v.txns && v.txns[t].state != TxnCompleted
    && v.txns == w.txns[t := w.txns[t].(state := v.txns[t].state, response := v.txns[t].response, code := v.txns[t].code)]
    && v == w.(txns := v.txns, history := w.history.(sent := v.history.sent))
  }

  lemma TryingFails(w: Worker, v: Worker, t: nat, o: Oracle)
    requires Trying(w, v, t) && w.txns[t].dialog.None?
    ensures var r := FailTxn(v, t, o);
            && Answered(w, r, t, TxnCompleted, None, o)
            && r == w.(txns := r.txns, timers := r.timers, history := r.history)
  {
    FailTxnEffect(v, t, o);
  }

  lemma InviteRefused(w: Worker, t: nat, o: Oracle)
    requires t in w.txns && w.txns[t].state == TxnIdle && w.txns[t].message.Some? && w.txns[t].dialog.None?
    requires NoDialogMade(o, w.txns[t].message.value.req)
    ensures var r := ProcessInvite(w, t, o);
            Answered(w, r, t, TxnCompleted, None, o) &&
            r == w.(txns := r.txns, timers := r.timers, history := r.history)
  {
    hide Answered, FailTxn;
    var w1 := Respond(w, t, 100, o.send100);
    TryingFails(w, if o.send100 then SetTxnState(w1, t, TxnProceeding, o) else w1, t, o);
  }

  lemma StartDialogEffect(w: Worker, t: nat, fromTag: Ident, toTag: string)
    requires t in w.txns && w.nextId !in w.dialogs
    ensures StartDialog(w, t, fromTag, toTag).dialogs == w.dialogs[w.nextId :=
              Dialog(OneSlot(TXN_SLOTS, t), None, DialogEarly, Cut(fromTag, MAX_ID_LENGTH), toTag)]
  {
    FirstSlot(TXN_SLOTS, t);
  }

  /** Responding and moving to PROCEEDING first makes no difference to the outcome. */
  lemma DialogEndsFrom(v: Worker, w: Worker, r: Worker, t: nat, d: nat, callId: string, o: Oracle)
    requires t in v.txns && d in v.dialogs && t in w.txns
    requires w == v.(txns := w.txns, history := w.history)
    requires w.txns == v.txns[t := v.txns[t].(state := TxnProceeding, response := w.txns[t].response, code := w.txns[t].code)]
    requires w.history == v.history.(sent := w.history.sent)
    requires DialogEnds(w, r, t, d, callId, o)
    ensures DialogEnds(v, r, t, d, callId, o)
  {
  }

  /** An INVITE that gets a dialog, and maybe a call. */
  lemma InviteAccepted(w: Worker, t: nat, o: Oracle)
    requires t in w.txns && w.txns[t].state == TxnIdle && w.txns[t].message.Some? && w.txns[t].dialog.None?
    requires w.nextId !in w.dialogs && w.nextId + 1 !in w.calls
    requires !NoDialogMade(o, w.txns[t].message.value.req)
    ensures var req := w.txns[t].message.value.req;
            DialogEnds(StartDialog(w, t, req.fromTag, o.toTag), ProcessInvite(w, t, o), t, w.nextId, req.callId, o)
  {
    hide DialogEnds, InviteCall;
    var req := w.txns[t].message.value.req;
    var w1 := Respond(w, t, 100, o.send100);
    var w2 := SetTxnState(w1, t, TxnProceeding, o);
    var w3 := StartDialog(w2, t, req.fromTag, o.toTag);
    var v := StartDialog(w, t, req.fromTag, o.toTag);
    StartDialogEffect(w, t, req.fromTag, o.toTag);
    StartDialogEffect(w2, t, req.fromTag, o.toTag);
    assert w3 == v.(txns := w3.txns, history := w3.history);
    InviteCallEffect(w3, t, w.nextId, o);
    DialogEndsFrom(v, w3, InviteCall(w3, t, w.nextId, o), t, w.nextId, req.callId, o);
  }
}
