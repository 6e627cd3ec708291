/** Where the server stops short of what one might expect of it, and exactly when. */
module Limits {
  import opened SipTypes
  import opened WorkerModel
  import opened Outcomes
  import opened Invariants
  import opened Deletion
  import opened WorkerSystem
  import opened Runs
  import opened Theorems
  import opened Forward
  import opened Tokens
  import opened Progress
  import opened Ownership
  import opened Transparency
  import SipText

  // ---------- sizes ----------

  /** The first 64 or 256 characters of a text. */
  predicate Kept(stored: string, text: string, max: nat) {
    stored == if |text| <= max then text else text[..max]
  }

  /** The sizes in numbers: 32 transactions to a dialog and 16 dialogs to a call; 64 characters of a branch or a From tag and
      256 of a Call-ID are kept, with the length of all of it; a queue of 1024. */
  lemma FixedSizes(w: Worker, branch: Ident, fromTag: Ident, toTag: string, callId: string, s: System, raw: Raw)
    ensures var d := CreateDialog(w, fromTag, toTag).dialogs[w.nextId];
            && |d.slots| == 32 && Kept(d.fromTag.text, fromTag.text, 64) && d.fromTag.length == fromTag.length && d.toTag == toTag
    ensures var c := CreateCall(w, callId).calls[w.nextId];
            |c.slots| == 16 && Kept(c.callId.text, callId, 256) && c.callId.length == |callId|
    ensures var t := CreateTxn(w, branch).txns[w.nextId];
            Kept(t.branch.text, branch.text, 64) && t.branch.length == branch.length && t.response == Empty
    ensures Arrival(s, raw) == if |s.queue| < 1024
                               then s.(received := s.received + multiset{raw.id}, queue := s.queue + [Sip(raw)])
                               else s.(received := s.received + multiset{raw.id}, w := Free(s.w, raw.id))
  {
  }

  // ---------- a delete event asks for nothing but the branch ----------

  /** A delete event removes a transaction exactly when it has the branch, whatever its state and age:
      an event left over from an earlier transaction cuts the life of a later one short. */
  lemma EventDeletesIff(w: Worker, branch: Ident, o: Oracle, t: nat)
    requires Inv(w) && Closed(w) && t in w.txns && Shown(branch)
    ensures t !in DeleteTransaction(w, branch, o).txns <==> w.txns[t].branch == branch
  {
    hide Graph, Coupled, Branches, Closed, DeleteFound, FindTxn;
    InvClosed(w);
    EventFindsIff(w, branch, t);
    var found := FindTxnOf(w, branch);
    if found.Some? {
      DeleteFoundKeys(w, found.value, o);
    }
  }

  lemma DeleteFoundKeys(w: Worker, t: nat, o: Oracle)
    requires Consistent(w) && Closed(w) && t in w.txns
    ensures DeleteFound(w, t, o).txns.Keys == w.txns.Keys - {t}
  {
    hide DeleteFound, DeleteTxn, Coupled;
    DeleteFoundAdvances(w, t, o);
    DeleteTxnEffect(w, t);
  }

  lemma EventFindsIff(w: Worker, branch: Ident, t: nat)
    requires Inv(w) && t in w.txns && Shown(branch)
    ensures FindTxnOf(w, branch) == Some(t) <==> w.txns[t].branch == branch
  {
    hide Coupled, TxnLinks, CallLinks, Sizes, FindTxn;
    forall u | u in w.txns ensures Matches(w.txns[u].branch, branch.text, branch.length) <==> w.txns[u].branch == branch {
      MatchIsEquality(w.txns[u].branch, branch);
    }
    hide Matches;
  }

  // ---------- FAILED calls are never freed ----------

  lemma ServeKeepsCalls(w: Worker, t: nat, kind: Method, o: Oracle)
    requires Closed(w) && Lists(w) && t in w.txns && (kind.INVITE? ==> w.txns[t].state == TxnIdle)
    ensures forall c :: c in w.calls ==> c in Serve(w, t, kind, o).calls
  {
    if kind == INVITE {
      if w.txns[t].dialog.None? { InviteKeepsCalls(w, t, o); }
    } else if kind == BYE {
      if ByeAccepted(w, t) { ByeEffect(w, t, o); }
    }
  }

  lemma InviteKeepsCalls(w: Worker, t: nat, o: Oracle)
    requires Lists(w) && t in w.txns && w.txns[t].state == TxnIdle && w.txns[t].message.Some? && w.txns[t].dialog.None?
    ensures forall c :: c in w.calls ==> c in ProcessInvite(w, t, o).calls
  {
    if NoDialogMade(o, w.txns[t].message.value.req) { InviteRefused(w, t, o); } else { InviteAccepted(w, t, o); }
  }

  lemma RequestKeepsCalls(w: Worker, m: Message, o: Oracle)
    requires Consistent(w) && Closed(w)
    ensures forall c :: c in w.calls ==> c in ProcessRequest(w, m, o).calls
  {
    hide ProcessRequest, Serve;
    if Served(w, m, o).Some? {
      var s := Served(w, m, o).value;
      ServedDialogs(w, m, o);
      ServedDispatch(w, m, o);
      ServedLists(w, m, o);
      AttachForward(s.0, s.1, m.req);
      AttachClosed(s.0, s.1, m.req);
      ServeKeepsCalls(AttachByTags(s.0, s.1, m.req), s.1, m.req.kind, o);
    } else {
      UnservedStays(w, m, o);
    }
  }

  lemma DeleteFoundCalls(w: Worker, t: nat, o: Oracle, c: nat)
    requires Consistent(w) && Closed(w) && t in w.txns && c in w.calls && w.calls[c].state != CallTerminated
    ensures c in DeleteFound(w, t, o).calls
  {
    hide DeleteFound, DeleteTxn, Coupled, Dropped;
    var v, r := DeleteTxn(w, t), DeleteFound(w, t, o);
    DeleteFoundEffect(w, t, o);
    if r != v { DroppedKeeps(v, r, w.txns[t].dialog.value, c); }
  }

  lemma DroppedKeeps(w: Worker, r: Worker, d: nat, c: nat)
    requires Dropped(w, r, d) && c in w.calls && w.calls[c].state != CallTerminated
    ensures c in r.calls
  {
  }

  /** Only TERMINATED calls are freed. */
  lemma StepFreesTerminated(s: System, step: Step, c: nat)
    requires Inv(s.w) && Allowed(s, step) && c in s.w.calls && s.w.calls[c].state != CallTerminated
    ensures c in Next(s, step).w.calls
  {
    hide ProcessRequest, DeleteFound, Graph, Coupled, Branches, Closed, BackLinks, TxnLinks, CallLinks, Admissible, SipText.Parse;
    if step.Work? {
      if s.queue[0].DeleteEvent? {
        var found := FindTxnOf(s.w, s.queue[0].branch);
        if found.Some? { DeleteFoundCalls(s.w, found.value, step.o, c); }
      } else if Incoming(s).Some? {
        RequestKeepsCalls(s.w, Incoming(s).value, step.o);
      }
    }
  }

  /** This call is FAILED. */
  ghost predicate Failed(w: Worker, c: nat) {
    c in w.calls && w.calls[c].state == CallFailed
  }

  /** An INVITE that opens a dialog and gets a call, whose 180 or 200 cannot be sent. */
  ghost predicate LosesCall(w: Worker, m: Message, o: Oracle)
    requires Closed(w)
  {
    && FindTxnOf(w, m.req.branch).None? && o.allocTxn && m.req.branch.length > 0 && m.req.kind == INVITE
    && FindDialogOf(w, m.req).None? && !NoDialogMade(o, m.req)
    && o.allocCall && m.req.callId != "" && !(o.send180 && o.send200)
  }

  lemma InviteFailsIff(w: Worker, t: nat, o: Oracle, c: nat)
    requires Lists(w) && t in w.txns && w.txns[t].state == TxnIdle && w.txns[t].message.Some?
    requires w.txns[t].dialog.Some? ==> w.txns[t].dialog.value in w.dialogs
    ensures var req := w.txns[t].message.value.req;
            Failed(ProcessInvite(w, t, o), c) && !Failed(w, c)
            <==> w.txns[t].dialog.None? && !NoDialogMade(o, req) && o.allocCall && req.callId != ""
                 && !(o.send180 && o.send200) && c == w.nextId + 1
  {
    if w.txns[t].dialog.None? {
      hide ProcessInvite, DialogEnds, StartDialog, Lists;
      var req := w.txns[t].message.value.req;
      if NoDialogMade(o, req) {
        InviteRefused(w, t, o);
      } else {
        AddressUnused(w);
        InviteAccepted(w, t, o);
        AcceptedFails(w, ProcessInvite(w, t, o), t, req, o, c);
      }
    }
  }

  lemma AcceptedFails(w: Worker, r: Worker, t: nat, req: Request, o: Oracle, c: nat)
    requires t in w.txns && w.nextId !in w.dialogs && w.nextId + 1 !in w.calls
    requires DialogEnds(StartDialog(w, t, req.fromTag, o.toTag), r, t, w.nextId, req.callId, o)
    ensures Failed(r, c) && !Failed(w, c)
            <==> o.allocCall && req.callId != "" && !(o.send180 && o.send200) && c == w.nextId + 1
  {
    hide StartDialog, OneSlot;
  }

  lemma ByeFailsNone(w: Worker, t: nat, o: Oracle, c: nat)
    requires Closed(w) && t in w.txns && Failed(ProcessBye(w, t, o), c)
    ensures Failed(w, c)
  {
    hide SlotsLive, CallSlotsLive;
    if ByeAccepted(w, t) {
      hide ProcessBye;
      ByeEffect(w, t, o);
    }
  }

  lemma ServeFailsIff(w: Worker, t: nat, kind: Method, o: Oracle, c: nat)
    requires Closed(w) && Lists(w) && t in w.txns && (kind.INVITE? ==> w.txns[t].state == TxnIdle)
    ensures var req := w.txns[t].message.value.req;
            Failed(Serve(w, t, kind, o), c) && !Failed(w, c)
            <==> kind == INVITE && w.txns[t].dialog.None? && !NoDialogMade(o, req) && o.allocCall && req.callId != ""
                 && !(o.send180 && o.send200) && c == w.nextId + 1
  {
    hide ProcessInvite, ProcessBye, SlotsLive, CallSlotsLive, Lists;
    if kind == INVITE {
      InviteFailsIff(w, t, o, c);
    } else if kind == BYE {
      if Failed(ProcessBye(w, t, o), c) { ByeFailsNone(w, t, o, c); }
    }
  }

  /** Where the handler starts, calls are as before, and only a fresh INVITE has no dialog. */
  lemma ServedStart(w: Worker, m: Message, o: Oracle)
    requires Closed(w) && Served(w, m, o).Some?
    ensures var s := Served(w, m, o).value;
            && s.1 in s.0.txns
            && var v := AttachByTags(s.0, s.1, m.req);
               && v.calls == w.calls && v.txns[s.1].message.Some?
               && (m.req.kind == INVITE ==>
                     && FindTxnOf(w, m.req.branch).None? && o.allocTxn && m.req.branch.length > 0
                     && v.txns[s.1].dialog == FindDialogOf(w, m.req) && v.txns[s.1].message == Some(m)
                     && v.nextId == w.nextId + 1)
  {
    hide FindTxn, FindDialog, SlotsLive, CallSlotsLive, AddSlot, SameRequest;
  }

  /** A request makes a call FAILED exactly when it is an INVITE that gets a dialog and a call, and its 180 or
      its 200 cannot be sent. */
  lemma CallFailsIff(w: Worker, m: Message, o: Oracle, c: nat)
    requires Consistent(w) && Closed(w)
    ensures Failed(ProcessRequest(w, m, o), c) && !Failed(w, c) <==> LosesCall(w, m, o) && c == w.nextId + 2
  {
    hide ProcessRequest, Serve, Consistent, Closed, Failed;
    if Served(w, m, o).Some? {
      var v, t := Served(w, m, o).value.0, Served(w, m, o).value.1;
      ServedDispatch(w, m, o);
      ServedLists(w, m, o);
      AttachForward(v, t, m.req);
      AttachClosed(v, t, m.req);
      ServeFailsIff(AttachByTags(v, t, m.req), t, m.req.kind, o, c);
      ServedStart(w, m, o);
      SameCalls(w, AttachByTags(v, t, m.req), c);
    } else {
      UnservedStays(w, m, o);
      SameCalls(w, ProcessRequest(w, m, o), c);
    }
  }

  lemma SameCalls(w: Worker, r: Worker, c: nat)
    requires r.calls == w.calls
    ensures Failed(r, c) <==> Failed(w, c)
  {
  }

  lemma DeleteFailsNone(w: Worker, t: nat, o: Oracle, c: nat)
    requires Consistent(w) && Closed(w) && t in w.txns
    ensures BackLinks(w) && CallLinks(w) && (Failed(DeleteFound(w, t, o), c) ==> Failed(w, c))
  {
    hide DeleteFound, DeleteTxn, Coupled, Lists, SlotsLive, CallSlotsLive, Swept, TxnGone, Dropped;
    DeleteFoundEffect(w, t, o);
    if Failed(DeleteFound(w, t, o), c) { DeletedFailsNone(w, DeleteTxn(w, t), DeleteFound(w, t, o), t, c); }
  }

  lemma DeletedFailsNone(w: Worker, v: Worker, r: Worker, t: nat, c: nat)
    requires Deleted(w, v, r, t) && Failed(r, c)
    ensures Failed(w, c)
  {
    hide Swept, Unlink, RemoveSlot, EmptySlots;
  }

  /** In this step the worker handles a request that loses its call. */
  ghost predicate LosesCallIn(s: System, step: Step)
    requires Closed(s.w)
  {
    step.Work? && Incoming(s).Some? && LosesCall(s.w, Incoming(s).value, step.o)
  }

  /** And no other step makes a call FAILED. */
  lemma StepFailsIff(s: System, step: Step, c: nat)
    requires Inv(s.w) && Allowed(s, step)
    ensures Failed(Next(s, step).w, c) && !Failed(s.w, c) <==> LosesCallIn(s, step) && c == s.w.nextId + 2
  {
    hide ProcessRequest, DeleteFound, Graph, Coupled, Branches, Closed, BackLinks, TxnLinks, CallLinks, Admissible,
         SipText.Parse, Failed, LosesCall;
    if step.Work? && Incoming(s).Some? {
      CallFailsIff(s.w, Incoming(s).value, step.o, c);
    } else if step.Work? && s.queue[0].DeleteEvent? {
      var found := FindTxnOf(s.w, s.queue[0].branch);
      if found.Some? { DeleteFailsNone(s.w, found.value, step.o, c); }
    } else {
      SameCalls(s.w, Next(s, step).w, c);
    }
  }

  /** So a call that FAILED is there for ever, still FAILED. */
  lemma {:induction false} FailedStays(s: System, steps: seq<Step>, c: nat)
    requires Inv(s.w) && IsRun(s, steps) && c in s.w.calls && s.w.calls[c].state == CallFailed
    ensures c in Run(s, steps).w.calls && Run(s, steps).w.calls[c].state == CallFailed
    decreases |steps|
  {
    hide Next, Inv, Closed, BackLinks, TxnLinks, CallLinks, Admissible;
    if steps != [] {
      StepFreesTerminated(s, steps[0], c);
      StepForward(s, steps[0]);
      StepKeepsInv(s, steps[0]);
      FailedStays(Next(s, steps[0]), steps[1..], c);
    }
  }

  /** From the start: a first INVITE whose 180 or 200 cannot be sent leaves a FAILED call behind for ever. */
  lemma FailedFromStart(k: nat, invite: Raw, o: Oracle, more: seq<Step>)
    requires SipText.Parse(invite.text).Some? && MessageOf(invite).req.kind == INVITE && MessageOf(invite).req.callId != ""
    requires o.allocTxn && o.send100 && o.allocDialog && o.allocCall && !(o.send180 && o.send200)
    ensures var first := [Arrive(invite), Work(o)];
            && IsRun(Start(k), first)
            && (IsRun(Run(Start(k), first), more) ==>
                  IsRun(Start(k), first + more) && Failed(Run(Start(k), first + more).w, 2))
  {
    hide SipText.Parse, Closed, BackLinks, TxnLinks, CallLinks, Admissible, ProcessRequest, IsRun, Run, Inv, Good, Failed;
    var s, m := Start(k), MessageOf(invite);
    SipText.ParsedShown(invite.text);
    FirstInvite(k, m, o);
    PacketHandled(s, invite, m, o);
    var r := Run(s, [Arrive(invite), Work(o)]);
    ReachableGood(k, [Arrive(invite), Work(o)]);
    assert Failed(r.w, 2);
    if IsRun(r, more) {
      RunAppend(s, [Arrive(invite), Work(o)], more);
      FailedRuns(r, more, 2);
    }
  }

  lemma FirstInvite(k: nat, m: Message, o: Oracle)
    requires m.req.kind == INVITE && m.req.callId != "" && Shown(m.req.branch) && m.req.branch.length > 0
    requires m.req.fromTag.length > 0
    requires o.allocTxn && o.send100 && o.allocDialog && o.allocCall && !(o.send180 && o.send200)
    ensures var w := Start(k).w; Sound(w) && Admissible(w, m, o) && Failed(ProcessRequest(w, m, o), 2)
  {
    hide ProcessRequest, Failed;
    StartGood(k);
    CallFailsIff(Start(k).w, m, o, 2);
    assert !Failed(Start(k).w, 2) by { NoneFailed(Start(k).w, 2); }
  }

  lemma NoneFailed(w: Worker, c: nat)
    requires w.calls == map[]
    ensures !Failed(w, c)
  {
  }

  lemma FailedRuns(s: System, steps: seq<Step>, c: nat)
    requires Good(s) && IsRun(s, steps) && Failed(s.w, c)
    ensures Failed(Run(s, steps).w, c)
  {
    hide Inv, IsRun, Run;
    FailedStays(s, steps, c);
  }

  // ---------- ACKs are answered ----------

  /** An ACK on a new branch is not answered, and nothing is stored for it. */
  lemma NewAckStoresNothing(w: Worker, m: Message, o: Oracle)
    requires Closed(w) && FindTxnOf(w, m.req.branch).None? && m.req.kind == ACK && o.allocTxn && m.req.branch.length > 0
    ensures var r := ProcessRequest(w, m, o);
            && w.nextId in r.txns && r.txns[w.nextId].response == Empty && r.txns[w.nextId].message == Some(m)
            && r.txnOrder == [w.nextId] + w.txnOrder && r.history == w.history
            && r.txns[w.nextId].branch == Cut(m.req.branch, MAX_ID_LENGTH)
  {
    hide FindTxn, FindDialog, SlotsLive, CallSlotsLive;
  }

  /** So when the ACK is repeated, the repetition is answered with a 500. */
  lemma RepeatedAckGets500(w: Worker, m: Message, o: Oracle, again: Message, o': Oracle)
    requires Consistent(w) && Closed(w) && HasRoom(w, m, o)
    requires FindTxnOf(w, m.req.branch).None? && m.req.kind == ACK && o.allocTxn
    requires 0 < m.req.branch.length && |m.req.branch.text| <= MAX_ID_LENGTH
    requires again.req == m.req && again.addr == m.addr
    ensures var r := ProcessRequest(w, m, o);
            && r.history == w.history && Closed(r) && Retransmission(r, again)
            && var sent := ProcessRequest(r, again, o').history.sent;
               && |sent| == |w.history.sent| + 1
               && var e := sent[|w.history.sent|];
                  e.txn == Some(w.nextId) && e.kind == ACK && e.code == 500 && e.addr == m.addr && !e.resend
  {
    hide ProcessRequest, Closed, Lists, Coupled, HasRoom;
    NewAckStoresNothing(w, m, o);
    RequestKeepsConsistent(w, m, o);
    var r := ProcessRequest(w, m, o);
    GraphClosed(r);
    FirstFound(r, m.req.branch);
    RepetitionAnswered(r, w.nextId, again, o');
  }

  lemma FirstFound(w: Worker, branch: Ident)
    requires w.txnOrder != [] && w.txnOrder[0] in w.txns && w.txns[w.txnOrder[0]].branch == branch && branch.length > 0
    ensures FindTxnOf(w, branch) == Some(w.txnOrder[0])
  {
  }

  lemma RepetitionAnswered(w: Worker, t: nat, m: Message, o: Oracle)
    requires Closed(w) && FindTxnOf(w, m.req.branch) == Some(t) && w.txns[t].message.Some?
    requires SameRequest(w.txns[t], m) && w.txns[t].response == Empty
    ensures var sent := ProcessRequest(w, m, o).history.sent;
            var x := w.txns[t];
            sent == w.history.sent + [Sent(Some(t), x.dialog, x.message.value.req.kind, 500,
                                           Printed(500, x.message.value.req, TagOf(w, x)), m.addr, o.sendError, false)]
  {
    hide SlotsLive, CallSlotsLive, FindTxn;
  }

  /** An ACK is answered exactly when no transaction can be made for it or it is a retransmission. */
  lemma AckAnsweredIff(w: Worker, m: Message, o: Oracle)
    requires Closed(w) && m.req.kind == ACK
    ensures ProcessRequest(w, m, o).history.sent != w.history.sent
            <==> (FindTxnOf(w, m.req.branch).None? && (!o.allocTxn || m.req.branch.length == 0)) || Retransmission(w, m)
  {
    hide FindTxn, FindDialogOf, SlotsLive, CallSlotsLive, AddSlot, Resend, SameRequest;
    var t := FindTxnOf(w, m.req.branch);
    if t.Some? && SameRequest(w.txns[t.value], m) { ResendSends(w, t.value, o); }
  }

  lemma ResendSends(w: Worker, t: nat, o: Oracle)
    requires t in w.txns && w.txns[t].message.Some?
    requires w.txns[t].dialog.Some? ==> w.txns[t].dialog.value in w.dialogs
    ensures |Resend(w, t, o).history.sent| > |w.history.sent|
  {
  }

  /** A retransmission is answered with a new 500 exactly when nothing was sent before, as after an ACK,
      or when the resend fails. */
  lemma RetransmissionGets500Iff(w: Worker, m: Message, o: Oracle)
    requires Closed(w) && Retransmission(w, m)
    ensures var t := FindTxnOf(w, m.req.branch).value;
            var x := w.txns[t];
            var r := ProcessRequest(w, m, o);
            var answer := Sent(Some(t), x.dialog, x.message.value.req.kind, 500,
                               Printed(500, x.message.value.req, TagOf(w, x)), m.addr, o.sendError, false);
            (|r.history.sent| > 0 && r.history.sent[|r.history.sent| - 1] == answer && r.history.sent != w.history.sent)
            <==> x.response == Empty || !o.resend
  {
    hide FindTxn, SlotsLive, CallSlotsLive;
  }

  // ---------- ACKs that are never freed ----------

  /** An ACK for an INVITE whose transaction already holds one. */
  predicate DisplacesAck(w: Worker, m: Message)
    requires Closed(w)
  {
    var t := FindTxnOf(w, m.req.branch);
    t.Some? &&
    var x := w.txns[t.value];
    !SameRequest(x, m) && x.message.value.req.kind == INVITE && m.req.kind == ACK && x.ack.Some?
  }

  /** A message is forgotten without being freed exactly when a further ACK arrives for an INVITE. */
  lemma DisplacedIff(w: Worker, m: Message, o: Oracle)
    requires Consistent(w) && Closed(w)
    ensures var r := ProcessRequest(w, m, o);
            && (r.history.displaced != w.history.displaced <==> DisplacesAck(w, m))
            && (DisplacesAck(w, m) ==>
                  r.history.displaced == w.history.displaced + IdOf(w.txns[FindTxnOf(w, m.req.branch).value].ack))
  {
    hide ProcessRequest, Consistent, MovesOne, SameRequest, SlotsLive, CallSlotsLive, FindTxn;
    if Served(w, m, o).Some? {
      ServedMoves(w, m, o);
      MoveDisplaces(Served(w, m, o).value.0, ProcessRequest(w, m, o), Served(w, m, o).value.1, o);
    } else {
      UnservedStays(w, m, o);
    }
  }

  lemma MoveDisplaces(w: Worker, r: Worker, t: nat, o: Oracle)
    requires MovesOne(w, r, t, o)
    ensures r.history.displaced == w.history.displaced
  {
  }

  /** Once displaced, a message is never freed: it stays received and unfreed over every run. */
  lemma DisplacedForEver(s: System, steps: seq<Step>, id: nat)
    requires Inv(s.w) && Conserved(s) && IsRun(s, steps) && id in s.w.history.displaced
    ensures var r := Run(s, steps); id in r.received && id in r.w.history.displaced && id !in r.w.history.freed
  {
    hide Conserved, IsRun, Run;
    RunConserved(s, steps, id);
    DisplacedUnfreed(Run(s, steps), id);
  }

  lemma DisplacedUnfreed(s: System, id: nat)
    requires Conserved(s) && id in s.w.history.displaced
    ensures id in s.received && id !in s.w.history.freed
  {
    hide Held, Ownership.Queued;
    assert s.received[id] <= 1;
  }

  lemma {:induction false} RunConserved(s: System, steps: seq<Step>, id: nat)
    requires Inv(s.w) && Conserved(s) && IsRun(s, steps) && id in s.w.history.displaced
    ensures Conserved(Run(s, steps)) && id in Run(s, steps).w.history.displaced
    decreases |steps|
  {
    hide Inv, Conserved, Next, Closed, BackLinks, TxnLinks, CallLinks, Admissible;
    if steps != [] {
      StepKeepsConserved(s, steps[0]);
      StepKeepsInv(s, steps[0]);
      StepKeepsDisplaced(s, steps[0], id);
      RunConserved(Next(s, steps[0]), steps[1..], id);
    }
  }

  lemma StepKeepsDisplaced(s: System, step: Step, id: nat)
    requires Inv(s.w) && Allowed(s, step) && id in s.w.history.displaced
    ensures id in Next(s, step).w.history.displaced
  {
    hide ProcessRequest, DeleteFound, Graph, Coupled, Branches, Closed, BackLinks, TxnLinks, CallLinks, Admissible, SipText.Parse,
         DisplacesAck;
    if step.Work? {
      if s.queue[0].DeleteEvent? {
        var found := FindTxnOf(s.w, s.queue[0].branch);
        if found.Some? { DeleteFoundDisplaced(s.w, found.value, step.o); }
      } else if Incoming(s).Some? {
        DisplacedIff(s.w, Incoming(s).value, step.o);
      }
    }
  }

  lemma DeleteFoundDisplaced(w: Worker, t: nat, o: Oracle)
    requires Consistent(w) && Closed(w) && t in w.txns
    ensures DeleteFound(w, t, o).history.displaced == w.history.displaced
  {
    hide DeleteFound, DeleteTxn, Coupled, Lists;
    DeleteFoundAdvances(w, t, o);
    DeleteTxnDisplaced(w, t);
  }

  lemma DeleteTxnDisplaced(w: Worker, t: nat)
    requires t in w.txns && (w.txns[t].dialog.Some? ==> w.txns[t].dialog.value in w.dialogs)
    ensures DeleteTxn(w, t).history.displaced == w.history.displaced
  {
  }
}
