/** The log of responses: a dialog is ended by one BYE only. */
module ByeOnce {
  import opened SipTypes
  import opened WorkerModel
  import opened Invariants
  import opened Deletion
  import opened Progress
  import opened WorkerSystem
  import opened Tokens
  import opened Forward
  import SipText

  /** A first answer 200 to a BYE. */
  predicate Ends(e: Sent) {
    e.kind == BYE && e.code == 200 && !e.resend && e.dialog.Some?
  }

  /** No two BYE answers of 200 concern one dialog, and a dialog so answered is TERMINATED with its call, or gone. */
  ghost predicate EndedOnce(w: Worker) {
    && (forall i, j :: 0 <= i < j < |w.history.sent| && Ends(w.history.sent[i]) && Ends(w.history.sent[j]) ==>
          w.history.sent[i].dialog != w.history.sent[j].dialog)
    && (forall i :: 0 <= i < |w.history.sent| && Ends(w.history.sent[i]) ==>
          var d := w.history.sent[i].dialog.value;
          d < w.nextId && (d in w.dialogs ==> w.dialogs[d].state == DialogTerminated && w.dialogs[d].call.Some?))
  }

  /** `r` sent what `w` sent, and then nothing that ends a dialog. */
  ghost predicate Quiet(w: Worker, r: Worker) {
    && |w.history.sent| <= |r.history.sent|
    && r.history.sent[..|w.history.sent|] == w.history.sent
    && (forall i :: |w.history.sent| <= i < |r.history.sent| ==> !Ends(r.history.sent[i]))
  }

  lemma QuietTrans(w: Worker, v: Worker, r: Worker)
    requires Quiet(w, v) && Quiet(v, r)
    ensures Quiet(w, r)
  {
    assert r.history.sent[..|w.history.sent|] == v.history.sent[..|w.history.sent|];
    forall i | |w.history.sent| <= i < |r.history.sent| ensures !Ends(r.history.sent[i]) {
      if i < |v.history.sent| { assert r.history.sent[i] == r.history.sent[..|v.history.sent|][i]; }
    }
  }

  /** A transaction whose own request is not a BYE. */
  ghost predicate NoBye(w: Worker, t: nat) {
    t in w.txns && (w.txns[t].message.Some? ==> w.txns[t].message.value.req.kind != BYE)
  }

  lemma RespondQuiet(w: Worker, t: nat, code: nat, ok: bool)
    requires t in w.txns && StatusCode(code) && (NoBye(w, t) || code != 200)
    requires w.txns[t].dialog.Some? ==> w.txns[t].dialog.value in w.dialogs
    ensures Quiet(w, Respond(w, t, code, ok)) && (NoBye(w, t) ==> NoBye(Respond(w, t, code, ok), t))
  {
  }

  lemma FailTxnQuiet(w: Worker, t: nat, o: Oracle)
    requires t in w.txns
    requires w.txns[t].dialog.Some? ==> w.txns[t].dialog.value in w.dialogs
    ensures Quiet(w, FailTxn(w, t, o))
  {
    RespondQuiet(w, t, 500, o.sendError);
  }

  lemma FailCallQuiet(w: Worker, t: nat, d: nat, c: nat, o: Oracle)
    requires t in w.txns && d in w.dialogs && c in w.calls && w.txns[t].dialog == Some(d)
    ensures Quiet(w, FailCall(w, t, d, c, o))
  {
    FailTxnQuiet(w, t, o);
  }

  lemma RingQuiet(w: Worker, t: nat, d: nat, c: nat, o: Oracle)
    requires NoBye(w, t) && d in w.dialogs && c in w.calls && w.txns[t].dialog == Some(d)
    ensures Quiet(w, RingCall(w, t, d, c, o))
  {
    var w1 := Respond(w, t, 180, o.send180);
    RespondQuiet(w, t, 180, o.send180);
    if !o.send180 {
      FailCallQuiet(w1, t, d, c, o);
      QuietTrans(w, w1, FailCall(w1, t, d, c, o));
    } else {
      var w2 := SetCallState(w1, c, CallRinging);
      var w3 := Respond(w2, t, 200, o.send200);
      RespondQuiet(w2, t, 200, o.send200);
      QuietTrans(w, w1, w3);
      if !o.send200 {
        FailCallQuiet(w3, t, d, c, o);
        QuietTrans(w, w3, FailCall(w3, t, d, c, o));
      }
    }
  }

  lemma InviteCallQuiet(w: Worker, t: nat, d: nat, o: Oracle)
    requires NoBye(w, t) && d in w.dialogs && w.txns[t].dialog == Some(d) && w.txns[t].message.Some?
    ensures Quiet(w, InviteCall(w, t, d, o))
  {
    var callId := w.txns[t].message.value.req.callId;
    if !o.allocCall || callId == "" {
      FailTxnQuiet(w, t, o);
    } else {
      var v := StartCall(w, d, callId);
      RingQuiet(v, t, d, w.nextId, o);
    }
  }

  lemma InviteQuiet(w: Worker, t: nat, o: Oracle)
    requires NoBye(w, t) && w.txns[t].state == TxnIdle && w.txns[t].message.Some?
    requires w.txns[t].dialog.Some? ==> w.txns[t].dialog.value in w.dialogs
    ensures Quiet(w, ProcessInvite(w, t, o))
  {
    if w.txns[t].dialog.None? {
      var req := w.txns[t].message.value.req;
      var w1 := Respond(w, t, 100, o.send100);
      RespondQuiet(w, t, 100, o.send100);
      if !o.send100 {
        FailTxnQuiet(w1, t, o);
        QuietTrans(w, w1, FailTxn(w1, t, o));
      } else {
        var w2 := SetTxnState(w1, t, TxnProceeding, o);
        if !o.allocDialog || req.fromTag.length == 0 {
          FailTxnQuiet(w2, t, o);
          QuietTrans(w, w2, FailTxn(w2, t, o));
        } else {
          var w3 := StartDialog(w2, t, req.fromTag, o.toTag);
          InviteCallQuiet(w3, t, w.nextId, o);
          QuietTrans(w, w3, InviteCall(w3, t, w.nextId, o));
        }
      }
    }
  }

  /** The answer a BYE gets: 200 in a CONFIRMED dialog, 403 while the TERMINATED dialog has its call, else 404. */
  function ByeCode(w: Worker, d: Option<nat>): nat {
    if d.None? || d.value !in w.dialogs || w.dialogs[d.value].call.None? then 404
    else if w.dialogs[d.value].state == DialogConfirmed then 200
    else 403
  }

  lemma ByeSends(w: Worker, t: nat, o: Oracle)
    requires Closed(w) && t in w.txns
    ensures var r := ProcessBye(w, t, o);
            var x := w.txns[t];
            var m := x.message.value;
            var code := ByeCode(w, x.dialog);
            r.history == Log(w.history, Sent(Some(t), x.dialog, m.req.kind, code, Printed(code, m.req, TagOf(w, x)), m.addr,
                                             if code == 200 then o.send200 else o.sendError, false))
  {
  }

  lemma QuietEnds(w: Worker, r: Worker)
    requires EndedOnce(w) && Quiet(w, r) && MovesForward(w, r)
    ensures EndedOnce(r)
  {
    assert forall i :: 0 <= i < |w.history.sent| ==> r.history.sent[i] == w.history.sent[i];
  }

  /** One more answer: if it ends a dialog, that dialog was CONFIRMED until now. */
  lemma AnswerEnds(w: Worker, r: Worker, e: Sent)
    requires EndedOnce(w) && MovesForward(w, r) && r.history.sent == w.history.sent + [e]
    requires Ends(e) ==>
               var d := e.dialog.value;
               d < w.nextId && d in w.dialogs && w.dialogs[d].state == DialogConfirmed
               && (d in r.dialogs ==> r.dialogs[d].state == DialogTerminated && r.dialogs[d].call.Some?)
    ensures EndedOnce(r)
  {
    assert forall i :: 0 <= i < |w.history.sent| ==> r.history.sent[i] == w.history.sent[i];
  }

  lemma ByeEnds(v: Worker, t: nat, o: Oracle)
    requires Closed(v) && Lists(v) && EndedOnce(v) && t in v.txns && MovesForward(v, ProcessBye(v, t, o))
    ensures EndedOnce(ProcessBye(v, t, o))
  {
    var r := ProcessBye(v, t, o);
    ByeSends(v, t, o);
    if ByeAccepted(v, t) { ByeEffect(v, t, o); }
    AnswerEnds(v, r, r.history.sent[|v.history.sent|]);
  }

  /** The handlers of requests other than BYE send nothing that ends a dialog. */
  lemma ServeQuiet(w: Worker, t: nat, kind: Method, o: Oracle)
    requires Closed(w) && t in w.txns && kind != BYE
    requires kind.INVITE? ==> w.txns[t].state == TxnIdle && NoBye(w, t)
    ensures Quiet(w, Serve(w, t, kind, o))
  {
    if kind == INVITE { InviteQuiet(w, t, o); }
    else if kind != ACK { RespondQuiet(w, t, 501, o.sendError); }
  }

  lemma ServeMovesForward(w: Worker, t: nat, kind: Method, o: Oracle)
    requires Closed(w) && Lists(w) && DialogsCoupled(w) && t in w.txns
    requires kind.INVITE? ==> w.txns[t].state == TxnIdle
    ensures MovesForward(w, Serve(w, t, kind, o))
  {
    hide Serve, DialogsForward;
    ServeForward(w, t, kind, o);
    ServeMovesOne(w, t, kind, o);
  }

  lemma ServeEnds(w: Worker, t: nat, kind: Method, o: Oracle)
    requires Closed(w) && Lists(w) && DialogsCoupled(w) && t in w.txns && EndedOnce(w)
    requires kind.INVITE? ==> w.txns[t].state == TxnIdle && NoBye(w, t)
    ensures EndedOnce(Serve(w, t, kind, o))
  {
    hide EndedOnce, DialogsCoupled, Quiet, MovesForward;
    ServeMovesForward(w, t, kind, o);
    if kind == BYE {
      ByeEnds(w, t, o);
    } else {
      ServeQuiet(w, t, kind, o);
      QuietEnds(w, Serve(w, t, kind, o));
    }
  }

  lemma DispatchEnds(w: Worker, t: nat, req: Request, o: Oracle)
    requires Closed(w) && Lists(w) && DialogsCoupled(w) && t in w.txns && EndedOnce(w)
    requires req.kind.INVITE? ==> w.txns[t].state == TxnIdle && NoBye(w, t)
    ensures EndedOnce(Dispatch(w, t, req, o))
  {
    hide Serve, DialogsCoupled, FindDialogOf, EndedOnce, MovesForward;
    AttachForward(w, t, req);
    QuietEnds(w, AttachByTags(w, t, req));
    AttachClosed(w, t, req);
    ServeEnds(AttachByTags(w, t, req), t, req.kind, o);
  }

  lemma ResendQuiet(w: Worker, t: nat, o: Oracle)
    requires t in w.txns && w.txns[t].message.Some?
    requires w.txns[t].dialog.Some? ==> w.txns[t].dialog.value in w.dialogs
    ensures Quiet(w, Resend(w, t, o))
  {
    hide Respond, TagOf;
    var x := w.txns[t];
    var again := Sent(Some(t), x.dialog, x.message.value.req.kind, x.code, x.response, x.message.value.addr, o.resend, true);
    var v := if x.response == Empty then w else w.(history := Log(w.history, again));
    RespondQuiet(v, t, 500, o.sendError);
    assert Quiet(w, v);
    QuietTrans(w, v, Respond(v, t, 500, o.sendError));
  }

  lemma UnservedQuiet(w: Worker, m: Message, o: Oracle)
    requires Closed(w) && Served(w, m, o).None?
    ensures Quiet(w, ProcessRequest(w, m, o))
  {
    var found := FindTxnOf(w, m.req.branch);
    if found.Some? && SameRequest(w.txns[found.value], m) { ResendQuiet(w, found.value, o); }
  }

  /** Where an admissible request reaches its handler, nothing has been sent for it yet. */
  lemma ServedCalm(w: Worker, m: Message, o: Oracle)
    requires Consistent(w) && Closed(w) && HasRoom(w, m, o) && EndedOnce(w) && Served(w, m, o).Some?
    ensures var s := Served(w, m, o).value;
            && Lists(s.0) && DialogsCoupled(s.0) && EndedOnce(s.0) && s.1 in s.0.txns
            && (m.req.kind.INVITE? ==> NoBye(s.0, s.1))
  {
    ServedReady(w, m, o);
    ServedDialogs(w, m, o);
    SameEnds(w, Served(w, m, o).value.0);
    hide Served, Admissible, Inv, TxnLinks, CallLinks, EndedOnce;
  }

  lemma SameEnds(w: Worker, v: Worker)
    requires EndedOnce(w) && v.dialogs == w.dialogs && v.nextId >= w.nextId && v.history.sent == w.history.sent
    ensures EndedOnce(v)
  {
  }

  lemma ServedEnds(w: Worker, m: Message, o: Oracle)
    requires Consistent(w) && Closed(w) && HasRoom(w, m, o) && EndedOnce(w) && Served(w, m, o).Some?
    ensures EndedOnce(ProcessRequest(w, m, o))
  {
    hide ProcessRequest, Consistent, Served, HasRoom, Dispatch, Closed;
    var s := Served(w, m, o).value;
    ServedDispatch(w, m, o);
    ServedCalm(w, m, o);
    DispatchEnds(s.0, s.1, m.req, o);
  }

  lemma RequestEnds(w: Worker, m: Message, o: Oracle)
    requires Consistent(w) && Closed(w) && HasRoom(w, m, o) && EndedOnce(w)
    ensures EndedOnce(ProcessRequest(w, m, o))
  {
    if Served(w, m, o).Some? {
      ServedEnds(w, m, o);
    } else {
      hide ProcessRequest, EndedOnce, Consistent;
      UnservedQuiet(w, m, o);
      UnservedStays(w, m, o);
      QuietEnds(w, ProcessRequest(w, m, o));
    }
  }

  lemma DeleteFoundQuiet(w: Worker, t: nat, o: Oracle)
    requires Consistent(w) && Closed(w) && t in w.txns
    ensures DeleteFound(w, t, o).history.sent == w.history.sent
  {
    DeleteFoundEffect(w, t, o);
    DeletedQuiet(w, t);
    hide DeleteFound, DeleteTxn, Coupled, Lists;
  }

  lemma DeletedQuiet(w: Worker, t: nat)
    requires t in w.txns && (w.txns[t].dialog.Some? ==> w.txns[t].dialog.value in w.dialogs)
    ensures DeleteTxn(w, t).history.sent == w.history.sent
  {
  }

  /** Over any run, at most one BYE per dialog is answered 200. */
  lemma StepEndsOnce(s: System, step: Step)
    requires Inv(s.w) && Allowed(s, step) && EndedOnce(s.w)
    ensures EndedOnce(Next(s, step).w)
  {
    hide ProcessRequest, DeleteFound, EndedOnce, Graph, Coupled, Branches, Closed, BackLinks, TxnLinks, CallLinks, Fits, HasRoom,
         SipText.Parse;
    if step.Work? && s.queue[0].Sip? && Incoming(s).Some? {
      RequestEnds(s.w, Incoming(s).value, step.o);
    } else {
      StepForward(s, step);
      if step.Work? && s.queue[0].DeleteEvent? {
        var found := FindTxnOf(s.w, s.queue[0].branch);
        if found.Some? { DeleteFoundQuiet(s.w, found.value, step.o); }
      }
      QuietEnds(s.w, Next(s, step).w);
    }
  }

  // ---------- the log over runs ----------

  ghost predicate LogGrows(w: Worker, r: Worker) {
    w.history.sent <= r.history.sent
  }

  lemma ServeLogs(w: Worker, t: nat, kind: Method, o: Oracle)
    requires Closed(w) && t in w.txns && (kind.INVITE? ==> w.txns[t].state == TxnIdle && NoBye(w, t))
    ensures LogGrows(w, Serve(w, t, kind, o))
  {
    hide ProcessInvite, ProcessBye, ProcessAck, ProcessOther, Closed;
    if kind == BYE { ByeSends(w, t, o); } else { ServeQuiet(w, t, kind, o); }
  }

  lemma RequestLogs(w: Worker, m: Message, o: Oracle)
    requires Consistent(w) && Closed(w)
    ensures LogGrows(w, ProcessRequest(w, m, o))
  {
    hide ProcessRequest, Served, Dispatch, Consistent, Closed;
    if Served(w, m, o).Some? {
      var s := Served(w, m, o).value;
      ServedDialogs(w, m, o);
      if m.req.kind == INVITE { ServedMessage(w, m, o); }
      ServedDispatch(w, m, o);
      DispatchLogs(s.0, s.1, m.req, o);
    } else {
      UnservedQuiet(w, m, o);
    }
  }

  lemma ServedMessage(w: Worker, m: Message, o: Oracle)
    requires Closed(w) && Served(w, m, o).Some? && m.req.kind == INVITE
    ensures NoBye(Served(w, m, o).value.0, Served(w, m, o).value.1)
  {
  }

  lemma DispatchLogs(w: Worker, t: nat, req: Request, o: Oracle)
    requires Closed(w) && t in w.txns && (req.kind.INVITE? ==> w.txns[t].state == TxnIdle && NoBye(w, t))
    ensures LogGrows(w, Dispatch(w, t, req, o))
  {
    hide Serve, FindDialogOf, Closed, TxnsForward, DialogsForward;
    AttachForward(w, t, req);
    AttachClosed(w, t, req);
    ServeLogs(AttachByTags(w, t, req), t, req.kind, o);
  }

  /** No step takes anything back from the log. */
  lemma StepLogs(s: System, step: Step)
    requires Inv(s.w) && Allowed(s, step)
    ensures LogGrows(s.w, Next(s, step).w)
  {
    hide ProcessRequest, DeleteFound, Graph, Coupled, Branches, Closed, BackLinks, TxnLinks, CallLinks, Fits, HasRoom, SipText.Parse;
    if step.Work? {
      if s.queue[0].DeleteEvent? {
        var found := FindTxnOf(s.w, s.queue[0].branch);
        if found.Some? { DeleteFoundQuiet(s.w, found.value, step.o); }
      } else if Incoming(s).Some? {
        RequestLogs(s.w, Incoming(s).value, step.o);
      }
    }
  }

  lemma {:induction false} RunEndsOnce(s: System, steps: seq<Step>)
    requires Inv(s.w) && EndedOnce(s.w) && IsRun(s, steps)
    ensures var r := Run(s, steps).w; Inv(r) && EndedOnce(r) && LogGrows(s.w, r)
    decreases |steps|
  {
    hide Inv, EndedOnce, Next, Closed, BackLinks, TxnLinks, CallLinks, Admissible;
    if steps != [] {
      StepEndsOnce(s, steps[0]);
      StepKeepsInv(s, steps[0]);
      StepLogs(s, steps[0]);
      RunEndsOnce(Next(s, steps[0]), steps[1..]);
    }
  }

  // ---------- what a BYE gets ----------

  lemma AdoptFinds(w: Worker, m: Message)
    ensures var v := Adopt(w, m);
            && FindDialogOf(v, m.req) == FindDialogOf(w, m.req) && v.dialogs == w.dialogs && v.calls == w.calls
            && v.history == w.history && v.txns[w.nextId].dialog == None && v.txns[w.nextId].message == Some(m)
  {
  }

  /** A BYE with a new branch is answered once, with the code its dialog calls for. */
  lemma NewByeAnswered(w: Worker, m: Message, o: Oracle)
    requires Inv(w) && Closed(w) && FindTxnOf(w, m.req.branch).None? && m.req.kind == BYE
    requires o.allocTxn && m.req.branch.length > 0
    ensures var r := ProcessRequest(w, m, o);
            var d := FindDialogOf(w, m.req);
            var code := ByeCode(w, d);
            && |r.history.sent| == |w.history.sent| + 1
            && var e := r.history.sent[|w.history.sent|];
            && e.txn == Some(w.nextId) && e.dialog == d && e.kind == BYE && e.code == code && !e.resend
            && e.addr == m.addr
            && (d.Some? && d.value in w.dialogs && w.dialogs[d.value].state == DialogTerminated ==> code != 200)
  {
    hide ProcessBye, TagOf, Graph, Coupled, Branches;
    var v := Adopt(w, m);
    AttachClosed(v, w.nextId, m.req);
    AdoptFinds(w, m);
    ByeSends(AttachByTags(v, w.nextId, m.req), w.nextId, o);
  }

  /** Once a BYE was answered 200 in a dialog, however long ago, a BYE on a new branch that names the
      dialog is answered 403 for as long as the dialog is allocated. */
  lemma LaterByeRefused(s: System, steps: seq<Step>, i: nat, m: Message, o: Oracle)
    requires Inv(s.w) && EndedOnce(s.w) && IsRun(s, steps)
    requires i < |s.w.history.sent| && Ends(s.w.history.sent[i])
    requires var w := Run(s, steps).w;
             && Closed(w) && m.req.kind == BYE && FindTxnOf(w, m.req.branch).None?
             && FindDialogOf(w, m.req) == s.w.history.sent[i].dialog
    requires o.allocTxn && m.req.branch.length > 0
    ensures var w := Run(s, steps).w;
            var sent := ProcessRequest(w, m, o).history.sent;
            && |sent| == |w.history.sent| + 1 && sent[|w.history.sent|].code == 403 && !sent[|w.history.sent|].resend
            && sent[|w.history.sent|].dialog == s.w.history.sent[i].dialog
  {
    hide Inv, Closed, ProcessRequest, IsRun, Run;
    RunEndsOnce(s, steps);
    NewByeAnswered(Run(s, steps).w, m, o);
  }
}
