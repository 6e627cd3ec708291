/** The three state machines move forward only, and an address is never handed out twice. */
module Forward {
  import opened SipTypes
  import opened WorkerModel
  import opened Outcomes
  import opened Invariants
  import opened Deletion
  import opened Progress
  import opened WorkerSystem
  import opened Tokens
  import SipText

  function DialogRank(s: DialogState): nat {
    match s
    case DialogIdle => 0
    case DialogEarly => 1
    case DialogConfirmed => 2
    case DialogTerminated => 3
  }

  function CallRank(s: CallState): nat {
    match s
    case CallIdle => 0
    case CallIncoming => 1
    case CallRinging => 2
    case CallEstablished => 3
    case CallFailed => 4
    case CallTerminating => 5
    case CallTerminated => 6
  }

  ghost predicate TxnsForward(w: Worker, r: Worker) {
    && r.nextId >= w.nextId
    && (forall t :: t in r.txns ==> t in w.txns || t >= w.nextId)
    && (forall t :: t in w.txns && t in r.txns ==>
          && TxnRank(r.txns[t].state) >= TxnRank(w.txns[t].state)
          && r.txns[t].branch == w.txns[t].branch && r.txns[t].message == w.txns[t].message)
  }

  /** Dialogs keep their tags and their call; a FAILED call stays FAILED. */
  ghost predicate DialogsForward(w: Worker, r: Worker) {
    && (forall d :: d in r.dialogs ==> d in w.dialogs || d >= w.nextId)
    && (forall d :: d in w.dialogs && d in r.dialogs ==>
          && DialogRank(r.dialogs[d].state) >= DialogRank(w.dialogs[d].state)
          && r.dialogs[d].fromTag == w.dialogs[d].fromTag && r.dialogs[d].toTag == w.dialogs[d].toTag
          && r.dialogs[d].call == w.dialogs[d].call)
    && (forall c :: c in r.calls ==> c in w.calls || c >= w.nextId)
    && (forall c :: c in w.calls && c in r.calls ==>
          && CallRank(r.calls[c].state) >= CallRank(w.calls[c].state)
          && r.calls[c].callId == w.calls[c].callId
          && (w.calls[c].state == CallFailed ==> r.calls[c].state == CallFailed))
  }

  ghost predicate MovesForward(w: Worker, r: Worker) {
    TxnsForward(w, r) && DialogsForward(w, r)
  }

  /** What is live now, gone in `v`, stays gone; so forwardness carries over whole runs. */
  lemma ForwardTrans(w: Worker, v: Worker, r: Worker)
    requires Lists(w) && MovesForward(w, v) && MovesForward(v, r)
    ensures MovesForward(w, r)
  {
  }

  lemma DialogEndsForward(w: Worker, r: Worker, t: nat, req: Request, o: Oracle)
    requires Lists(w) && t in w.txns
    requires DialogEnds(StartDialog(w, t, req.fromTag, o.toTag), r, t, w.nextId, req.callId, o)
    ensures DialogsForward(w, r)
  {
    StartDialogEffect(w, t, req.fromTag, o.toTag);
    EndsKeepOld(StartDialog(w, t, req.fromTag, o.toTag), r, t, w.nextId, req.callId, o);
    OldForward(w, r);
  }

  /** The new dialog and call leave the others alone. */
  lemma EndsKeepOld(w: Worker, r: Worker, t: nat, d: nat, callId: string, o: Oracle)
    requires t in w.txns && d in w.dialogs && DialogEnds(w, r, t, d, callId, o)
    ensures r.dialogs.Keys == w.dialogs.Keys && forall e :: e in w.dialogs && e != d ==> r.dialogs[e] == w.dialogs[e]
    ensures forall c :: c in r.calls ==> c in w.calls || c == w.nextId
    ensures forall c :: c in w.calls && c != w.nextId ==> c in r.calls && r.calls[c] == w.calls[c]
  {
    hide Answered;
  }

  lemma OldForward(w: Worker, r: Worker)
    requires forall d :: d in r.dialogs ==> d in w.dialogs || d >= w.nextId
    requires forall d :: d in w.dialogs && d in r.dialogs ==> r.dialogs[d] == w.dialogs[d]
    requires forall c :: c in r.calls ==> c in w.calls || c >= w.nextId
    requires forall c :: c in w.calls && c in r.calls ==> r.calls[c] == w.calls[c]
    ensures DialogsForward(w, r)
  {
  }

  lemma InviteForward(w: Worker, t: nat, o: Oracle)
    requires Lists(w) && t in w.txns && w.txns[t].state == TxnIdle && w.txns[t].message.Some?
    requires w.txns[t].dialog.Some? ==> w.txns[t].dialog.value in w.dialogs
    ensures DialogsForward(w, ProcessInvite(w, t, o))
  {
    var req := w.txns[t].message.value.req;
    if w.txns[t].dialog.None? {
      if NoDialogMade(o, req) {
        InviteRefused(w, t, o);
      } else {
        InviteAccepted(w, t, o);
        DialogEndsForward(w, ProcessInvite(w, t, o), t, req, o);
      }
    }
  }

  lemma EndCallForward(w: Worker, d: nat, c: nat)
    requires d in w.dialogs && c in w.calls && w.calls[c].state == CallEstablished
    ensures DialogsForward(w, EndCall(w, d, c))
  {
  }

  ghost predicate DialogsCoupled(w: Worker) {
    forall d :: d in w.dialogs ==> DialogCoupled(w.dialogs[d], w.calls)
  }

  lemma ByeForward(w: Worker, t: nat, o: Oracle)
    requires Closed(w) && t in w.txns && DialogsCoupled(w)
    ensures DialogsForward(w, ProcessBye(w, t, o))
  {
    if ByeAccepted(w, t) {
      var d := w.txns[t].dialog.value;
      assert DialogCoupled(w.dialogs[d], w.calls);
      ByeEffect(w, t, o);
      EndCallForward(w, d, w.dialogs[d].call.value);
    }
  }

  lemma AnswerForward(w: Worker, r: Worker)
    requires r.dialogs == w.dialogs && r.calls == w.calls
    ensures DialogsForward(w, r)
  {
  }

  lemma ServeForward(w: Worker, t: nat, kind: Method, o: Oracle)
    requires Closed(w) && Lists(w) && DialogsCoupled(w) && t in w.txns
    requires kind.INVITE? ==> w.txns[t].state == TxnIdle
    ensures DialogsForward(w, Serve(w, t, kind, o))
  {
    if kind == INVITE {
      hide ProcessInvite;
      InviteForward(w, t, o);
    } else if kind == BYE {
      hide ProcessBye;
      ByeForward(w, t, o);
    } else {
      hide SlotsLive, CallSlotsLive, DialogsForward;
      AnswerForward(w, Serve(w, t, kind, o));
    }
  }

  /** Joining a dialog changes slots only. */
  lemma AttachForward(w: Worker, t: nat, req: Request)
    requires t in w.txns
    ensures var v := AttachByTags(w, t, req);
            && MovesForward(w, v) && (Lists(w) ==> Lists(v)) && (DialogsCoupled(w) ==> DialogsCoupled(v))
            && v.history == w.history
  {
  }

  lemma DispatchForward(w: Worker, t: nat, req: Request, o: Oracle)
    requires Closed(w) && Lists(w) && DialogsCoupled(w) && t in w.txns
    requires req.kind.INVITE? ==> w.txns[t].state == TxnIdle
    ensures DialogsForward(w, Dispatch(w, t, req, o))
  {
    var v := AttachByTags(w, t, req);
    AttachForward(w, t, req);
    AttachClosed(w, t, req);
    ServeForward(v, t, req.kind, o);
    StillForward(w, v, Serve(v, t, req.kind, o));
  }

  lemma StillForward(w: Worker, v: Worker, r: Worker)
    requires MovesForward(w, v) && v.nextId == w.nextId && v.dialogs.Keys == w.dialogs.Keys
    requires v.calls.Keys == w.calls.Keys
    requires DialogsForward(v, r)
    ensures DialogsForward(w, r)
  {
  }

  lemma RequestDialogsForward(w: Worker, m: Message, o: Oracle)
    requires Consistent(w) && Closed(w) && HasRoom(w, m, o)
    ensures DialogsForward(w, ProcessRequest(w, m, o))
  {
    if Served(w, m, o).Some? {
      var s := Served(w, m, o).value;
      ServedReady(w, m, o);
      ServedDispatch(w, m, o);
      DispatchForward(s.0, s.1, m.req, o);
      ServedDialogs(w, m, o);
    } else {
      UnservedStays(w, m, o);
    }
  }

  lemma ServedDialogs(w: Worker, m: Message, o: Oracle)
    requires Closed(w) && Served(w, m, o).Some?
    ensures var v := Served(w, m, o).value.0;
            v.dialogs == w.dialogs && v.calls == w.calls && v.nextId >= w.nextId && v.history.sent == w.history.sent
  {
  }

  lemma MoveForward(w: Worker, v: Worker, r: Worker, t: nat, o: Oracle)
    requires TxnsForward(w, v) && MovesOne(v, r, t, o)
    ensures TxnsForward(w, r)
  {
  }

  lemma ServedForward(w: Worker, m: Message, o: Oracle)
    requires Lists(w) && Closed(w) && Served(w, m, o).Some?
    ensures TxnsForward(w, Served(w, m, o).value.0)
  {
  }

  lemma RequestTxnsForward(w: Worker, m: Message, o: Oracle)
    requires Consistent(w) && Closed(w)
    ensures TxnsForward(w, ProcessRequest(w, m, o))
  {
    if Served(w, m, o).Some? {
      var s := Served(w, m, o).value;
      ServedMoves(w, m, o);
      ServedForward(w, m, o);
      MoveForward(w, s.0, ProcessRequest(w, m, o), s.1, o);
    } else {
      UnservedStays(w, m, o);
    }
  }

  lemma DroppedForward(w: Worker, r: Worker, d: nat)
    requires CallLinks(w) && Dropped(w, r, d)
    ensures MovesForward(w, r)
  {
  }

  lemma TxnGoneForward(w: Worker, v: Worker, t: nat)
    requires TxnGone(w, v, t)
    ensures MovesForward(w, v)
  {
  }

  lemma DeleteFoundForward(w: Worker, t: nat, o: Oracle)
    requires Consistent(w) && Closed(w) && t in w.txns
    ensures MovesForward(w, DeleteFound(w, t, o))
  {
    hide Coupled, Dropped, MovesForward, DeleteTxn, DeleteFound;
    var v, r := DeleteTxn(w, t), DeleteFound(w, t, o);
    DeleteFoundEffect(w, t, o);
    TxnGoneForward(w, v, t);
    if r != v {
      hide TxnGone;
      DroppedForward(v, r, w.txns[t].dialog.value);
      ForwardTrans(w, v, r);
    }
  }

  lemma SameForward(w: Worker, r: Worker)
    requires r.txns == w.txns && r.dialogs == w.dialogs && r.calls == w.calls && r.nextId == w.nextId
    ensures MovesForward(w, r)
  {
  }

  lemma WorkForward(s: System, o: Oracle)
    requires Inv(s.w) && Allowed(s, Work(o))
    ensures MovesForward(s.w, WorkOn(s, o).w)
  {
    hide Graph, Coupled, Branches, ProcessRequest, DeleteFound, Closed, BackLinks, TxnLinks, CallLinks, Fits, HasRoom, TxnsForward,
         DialogsForward, SipText.Parse;
    if s.queue[0].DeleteEvent? {
      var found := FindTxnOf(s.w, s.queue[0].branch);
      if found.Some? { DeleteFoundForward(s.w, found.value, o); } else { SameForward(s.w, s.w); }
    } else if Incoming(s).Some? {
      RequestTxnsForward(s.w, Incoming(s).value, o);
      RequestDialogsForward(s.w, Incoming(s).value, o);
    } else {
      SameForward(s.w, WorkOn(s, o).w);
    }
  }

  /** Every step moves every surviving object forward, if at all. */
  lemma StepForward(s: System, step: Step)
    requires Inv(s.w) && Allowed(s, step)
    ensures MovesForward(s.w, Next(s, step).w)
  {
    hide Inv, Handle, Closed, BackLinks, TxnLinks, CallLinks;
    if step.Work? { WorkForward(s, step.o); }
  }

  /** The same over whole runs. */
  lemma {:induction false} RunForward(s: System, steps: seq<Step>)
    requires Inv(s.w) && IsRun(s, steps)
    ensures MovesForward(s.w, Run(s, steps).w)
    decreases |steps|
  {
    if steps != [] {
      var v := Next(s, steps[0]);
      StepForward(s, steps[0]);
      StepKeepsInv(s, steps[0]);
      RunForward(v, steps[1..]);
      ForwardTrans(s.w, v.w, Run(v, steps[1..]).w);
    }
  }
}
