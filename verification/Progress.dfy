/** How one handler moves transactions forward: states, delete events and messages. */
module Progress {
  import opened SipTypes
  import opened WorkerModel
  import opened Outcomes
  import opened Invariants

  function TxnRank(s: TxnState): nat {
    match s
    case TxnIdle => 0
    case TxnProceeding => 1
    case TxnCompleted => 2
    case TxnTerminated => 3
  }

  /** `r` is `w` after at most one move of `t`, to the state it now has. */
  ghost predicate MovesOne(w: Worker, r: Worker, t: nat, o: Oracle) {
    && t in w.txns && r.txns.Keys == w.txns.Keys && r.txnOrder == w.txnOrder
    && (forall u :: u in w.txns && u != t ==> r.txns[u] == w.txns[u])
    && r.txns[t].branch == w.txns[t].branch && r.txns[t].queue == w.txns[t].queue
    && r.txns[t].message == w.txns[t].message && r.txns[t].ack == w.txns[t].ack
    && (if r.txns[t].state == w.txns[t].state then r.timers == w.timers
        else Settled(r.txns[t].state)
             && r.timers == Schedule(w.timers, t, w.txns[t].branch, w.txns[t].queue, r.txns[t].state, t in o.lose))
    && TxnRank(r.txns[t].state) >= TxnRank(w.txns[t].state)
    && r.history.freed == w.history.freed && r.history.displaced == w.history.displaced
    && r.nextId >= w.nextId && r.self == w.self
  }

  /** `v` is `w` but for the dialog of `t` and other objects. */
  ghost predicate Linked(w: Worker, v: Worker, t: nat) {
    && t in w.txns && t in v.txns && v.txns == w.txns[t := w.txns[t].(dialog := v.txns[t].dialog)]
    && v.txnOrder == w.txnOrder && v.timers == w.timers && v.history == w.history && v.nextId >= w.nextId && v.self == w.self
  }

  lemma LinkedFirst(w: Worker, v: Worker, r: Worker, t: nat, o: Oracle)
    requires Linked(w, v, t) && MovesOne(v, r, t, o)
    ensures MovesOne(w, r, t, o)
  {
  }

  lemma AnsweredMovesOne(w: Worker, r: Worker, t: nat, s: TxnState, dialog: Option<nat>, o: Oracle)
    requires t in w.txns && w.txns[t].state == TxnIdle && Settled(s) && Answered(w, r, t, s, dialog, o)
    ensures MovesOne(w, r, t, o)
  {
  }

  lemma InviteMovesOne(w: Worker, t: nat, o: Oracle)
    requires t in w.txns && w.txns[t].state == TxnIdle && w.txns[t].message.Some?
    requires w.txns[t].dialog.Some? ==> w.txns[t].dialog.value in w.dialogs
    requires w.nextId !in w.dialogs && w.nextId + 1 !in w.calls
    ensures MovesOne(w, ProcessInvite(w, t, o), t, o)
  {
    var r := ProcessInvite(w, t, o);
    var req := w.txns[t].message.value.req;
    if w.txns[t].dialog.None? {
      if NoDialogMade(o, req) {
        InviteRefused(w, t, o);
        AnsweredMovesOne(w, r, t, TxnCompleted, None, o);
      } else {
        InviteAccepted(w, t, o);
        var v := StartDialog(w, t, req.fromTag, o.toTag);
        AnsweredMovesOne(v, r, t, r.txns[t].state, Some(w.nextId), o);
        LinkedFirst(w, v, r, t, o);
      }
    }
  }

  lemma AnswerMovesOne(w: Worker, t: nat, code: nat, ok: bool, o: Oracle)
    requires t in w.txns && StatusCode(code)
    requires w.txns[t].dialog.Some? ==> w.txns[t].dialog.value in w.dialogs
    ensures MovesOne(w, SetTxnState(Respond(w, t, code, ok), t, TxnTerminated, o), t, o)
  {
  }

  lemma ByeMovesOne(w: Worker, t: nat, o: Oracle)
    requires Closed(w) && t in w.txns
    ensures MovesOne(w, ProcessBye(w, t, o), t, o)
  {
    if ByeAccepted(w, t) {
      var d := w.txns[t].dialog.value;
      var c := w.dialogs[d].call.value;
      AnswerMovesOne(SetCallState(w, c, CallTerminating), t, 200, o.send200, o);
    } else {
      AnswerMovesOne(w, t, if w.txns[t].dialog.None? || w.dialogs[w.txns[t].dialog.value].call.None? then 404 else 403,
                     o.sendError, o);
    }
  }

  lemma AttachLinked(w: Worker, t: nat, req: Request)
    requires t in w.txns
    ensures Linked(w, AttachByTags(w, t, req), t)
  {
  }

  /** Whatever the method, the request moves its own transaction only, and at most once. */
  lemma DispatchMovesOne(w: Worker, t: nat, req: Request, o: Oracle)
    requires Closed(w) && t in w.txns && w.nextId !in w.dialogs && w.nextId + 1 !in w.calls
    requires req.kind.INVITE? ==> w.txns[t].state == TxnIdle
    ensures MovesOne(w, Dispatch(w, t, req, o), t, o)
  {
    hide Serve, MovesOne, FindDialogOf;
    var v := AttachByTags(w, t, req);
    AttachLinked(w, t, req);
    AttachClosed(w, t, req);
    ServeMovesOne(v, t, req.kind, o);
    LinkedFirst(w, v, Dispatch(w, t, req, o), t, o);
  }

  lemma ServeMovesOne(w: Worker, t: nat, kind: Method, o: Oracle)
    requires Closed(w) && t in w.txns && w.nextId !in w.dialogs && w.nextId + 1 !in w.calls
    requires kind.INVITE? ==> w.txns[t].state == TxnIdle
    ensures MovesOne(w, Serve(w, t, kind, o), t, o)
  {
    if kind == INVITE { InviteMovesOne(w, t, o); }
    else if kind == BYE { ByeMovesOne(w, t, o); }
    else if kind != ACK { AnswerMovesOne(w, t, 501, o.sendError, o); }
  }

  /** A request that reaches a handler moves the transaction it is served by. */
  lemma ServedMoves(w: Worker, m: Message, o: Oracle)
    requires Consistent(w) && Closed(w) && Served(w, m, o).Some?
    ensures MovesOne(Served(w, m, o).value.0, ProcessRequest(w, m, o), Served(w, m, o).value.1, o)
  {
    hide ProcessRequest, MovesOne, Dispatch, Consistent, Served;
    var s := Served(w, m, o).value;
    ServedGraph(w, m, o);
    ServedDispatch(w, m, o);
    DispatchMovesOne(s.0, s.1, m.req, o);
  }
}
