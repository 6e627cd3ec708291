/** What every request keeps, even one that finds no free slot, and when a pointer to a freed dialog is left. */
module Strays {
  import opened SipTypes
  import opened WorkerModel
  import opened Outcomes
  import opened Invariants
  import opened Deletion
  import opened WorkerSystem
  import opened Runs
  import SipText

  /** Every pointer leads to an allocated object, and every slot to one that points back. */
  ghost predicate Safe(w: Worker) {
    Lists(w) && Sizes(w) && Closed(w) && BackLinks(w) && CallLinks(w)
  }

  /** Transaction `t` points at a dialog that has no slot for it. */
  ghost predicate Stray(w: Worker, t: nat) {
    && t in w.txns && w.txns[t].dialog.Some? && w.txns[t].dialog.value in w.dialogs
    && Some(t) !in w.dialogs[w.txns[t].dialog.value].slots
  }

  /** The graph is whole exactly when it is safe and has no strays. */
  lemma GraphIff(w: Worker)
    ensures Graph(w) <==> Safe(w) && forall t :: !Stray(w, t)
  {
    hide Distinct, Once, Sizes, CallLinks, SlotsLive, CallSlotsLive;
    if Graph(w) {
      GraphClosed(w);
    } else if Safe(w) && forall t :: !Stray(w, t) {
      forall t | t in w.txns && w.txns[t].dialog.Some?
        ensures Some(t) in w.dialogs[w.txns[t].dialog.value].slots
      {
        assert !Stray(w, t);
      }
    }
  }

  // ---------- requests ----------

  lemma SameShapeSafe(w: Worker, r: Worker)
    requires SameShape(w, r) && Safe(w)
    ensures Safe(r)
  {
    hide Closed, BackLinks, CallLinks, Distinct;
    SameShapeClosed(w, r);
    SameShapeBack(w, r);
  }

  lemma SameShapeClosed(w: Worker, r: Worker)
    requires SameShape(w, r) && Closed(w)
    ensures Closed(r)
  {
    assert forall d :: d in w.dialogs ==> SlotsLive(w, d);
    assert forall c :: c in w.calls ==> CallSlotsLive(w, c);
  }

  lemma SameShapeBack(w: Worker, r: Worker)
    requires SameShape(w, r) && BackLinks(w) && CallLinks(w)
    ensures BackLinks(r) && CallLinks(r)
  {
  }

  lemma OnlyTxnSafe(w: Worker, r: Worker, t: nat)
    requires Safe(w) && OnlyTxn(w, r, t)
    ensures Safe(r)
  {
    assert SameShape(w, r);
    hide Safe, SameShape;
    SameShapeSafe(w, r);
  }

  lemma AdoptSafe(w: Worker, m: Message)
    requires Safe(w)
    ensures Safe(Adopt(w, m))
  {
    AdoptLists(w, m);
    AdoptSizes(w, m);
    hide Lists, Sizes, Closed, CallLinks;
    assert w.nextId !in w.txns by { AddressUnused(w); }
    AdoptBack(w, m);
  }

  lemma AdoptBack(w: Worker, m: Message)
    requires BackLinks(w) && w.nextId !in w.txns
    ensures BackLinks(Adopt(w, m))
  {
  }

  lemma SetTxnDialogSafe(w: Worker, t: nat, d: nat)
    requires Safe(w) && t in w.txns && d in w.dialogs && w.txns[t].dialog.None?
    ensures Safe(SetTxnDialog(w, t, d))
  {
    SetTxnDialogLists(w, t, d);
    SetTxnDialogCalls(w, t, d);
    SetTxnDialogBack(w, t, d);
    hide Lists, Sizes, CallLinks, BackLinks, AddSlot;
    SetTxnDialogClosed(w, t, d);
  }

  lemma SetTxnDialogBack(w: Worker, t: nat, d: nat)
    requires BackLinks(w) && t in w.txns && d in w.dialogs && w.txns[t].dialog.None?
    ensures BackLinks(SetTxnDialog(w, t, d))
  {
    hide AddSlot;
  }

  lemma SetTxnDialogClosed(w: Worker, t: nat, d: nat)
    requires Closed(w) && t in w.txns && d in w.dialogs
    ensures Closed(SetTxnDialog(w, t, d))
  {
    hide AddSlot;
    assert forall e :: e in w.dialogs ==> SlotsLive(w, e);
    assert forall c :: c in w.calls ==> CallSlotsLive(w, c);
  }

  lemma AttachSafe(w: Worker, t: nat, req: Request)
    requires Safe(w) && t in w.txns
    ensures Safe(AttachByTags(w, t, req))
  {
    var d := FindDialogOf(w, req);
    if w.txns[t].dialog.None? && d.Some? { SetTxnDialogSafe(w, t, d.value); }
    hide Safe;
  }

  lemma GrownBack(w: Worker, r: Worker, t: nat, d: nat, call: Option<nat>)
    requires Lists(w) && BackLinks(w) && Grown(w, r, t, d, call)
    ensures BackLinks(r)
  {
    hide Distinct;
    assert forall e :: e in w.dialogs ==> e != d && r.dialogs[e] == w.dialogs[e];
  }

  lemma GrownClosed(w: Worker, r: Worker, t: nat, d: nat, call: Option<nat>)
    requires Lists(w) && Closed(w) && Grown(w, r, t, d, call)
    ensures Closed(r)
  {
    hide Distinct, SlotsLive, CallSlotsLive;
    GrownLive(w, r, t, d, call);
  }

  lemma GrownLive(w: Worker, r: Worker, t: nat, d: nat, call: Option<nat>)
    requires Lists(w) && Closed(w) && Grown(w, r, t, d, call)
    ensures forall e :: e in r.dialogs ==> SlotsLive(r, e)
    ensures forall c :: c in r.calls ==> CallSlotsLive(r, c)
  {
    hide Distinct;
    forall e | e in r.dialogs && e != d ensures SlotsLive(r, e) { assert SlotsLive(w, e); }
    forall c | c in r.calls && Some(c) != call ensures CallSlotsLive(r, c) { assert CallSlotsLive(w, c); }
  }

  lemma GrownSafe(w: Worker, r: Worker, t: nat, d: nat, call: Option<nat>)
    requires Safe(w) && Grown(w, r, t, d, call)
    ensures Safe(r)
  {
    hide Grown, Lists, Sizes, Closed, BackLinks, CallLinks;
    GrownLists(w, r, t, d, call);
    GrownSizes(w, r, t, d, call);
    GrownBack(w, r, t, d, call);
    GrownCallLinks(w, r, t, d, call);
    GrownClosed(w, r, t, d, call);
  }

  lemma InviteSafe(w: Worker, t: nat, o: Oracle)
    requires Safe(w) && t in w.txns && w.txns[t].state == TxnIdle && w.txns[t].message.Some?
    requires w.txns[t].dialog.Some? ==> w.txns[t].dialog.value in w.dialogs
    ensures Safe(ProcessInvite(w, t, o))
  {
    hide Lists, Sizes, Closed, BackLinks, CallLinks, Grown, DialogEnds, StartDialog, InviteCall, FailTxn, Respond;
    if w.txns[t].dialog.None? {
      hide ProcessInvite;
      var req := w.txns[t].message.value.req;
      AddressUnused(w);
      hide Safe;
      if NoDialogMade(o, req) {
        InviteRefused(w, t, o);
        OnlyTxnSafe(w, ProcessInvite(w, t, o), t);
      } else {
        InviteAccepted(w, t, o);
        DialogEndsGrown(w, ProcessInvite(w, t, o), t, req, o);
        GrownSafe(w, ProcessInvite(w, t, o), t, w.nextId, ProcessInvite(w, t, o).dialogs[w.nextId].call);
      }
    }
  }

  lemma ByeSafe(w: Worker, t: nat, o: Oracle)
    requires Safe(w) && t in w.txns
    requires Closed(w)
    ensures Safe(ProcessBye(w, t, o))
  {
    hide Safe, ProcessBye, SlotsLive, CallSlotsLive, SameShape, OnlyTxn;
    if ByeAccepted(w, t) {
      var d := w.txns[t].dialog.value;
      var c := w.dialogs[d].call.value;
      ByeEffect(w, t, o);
      EndCallShape(w, d, c);
      SameShapeSafe(w, EndCall(w, d, c));
      OnlyTxnSafe(EndCall(w, d, c), ProcessBye(w, t, o), t);
    } else {
      ByeRefusedOnly(w, t, o);
      OnlyTxnSafe(w, ProcessBye(w, t, o), t);
    }
  }

  lemma EndCallShape(w: Worker, d: nat, c: nat)
    requires d in w.dialogs && c in w.calls
    ensures SameShape(w, EndCall(w, d, c))
  {
  }

  lemma ByeRefusedOnly(w: Worker, t: nat, o: Oracle)
    requires Closed(w) && t in w.txns && !ByeAccepted(w, t)
    ensures OnlyTxn(w, ProcessBye(w, t, o), t)
  {
    var code := if w.txns[t].dialog.None? || w.dialogs[w.txns[t].dialog.value].call.None? then 404 else 403;
    AnswerAndTerminate(w, t, code, o.sendError, o);
    assert ProcessBye(w, t, o) == SetTxnState(Respond(w, t, code, o.sendError), t, TxnTerminated, o);
  }

  lemma ServeSafe(w: Worker, t: nat, kind: Method, o: Oracle)
    requires Safe(w) && Closed(w) && t in w.txns && (kind.INVITE? ==> w.txns[t].state == TxnIdle)
    ensures Safe(Serve(w, t, kind, o))
  {
    hide ProcessBye, ProcessInvite, Safe, SlotsLive, CallSlotsLive;
    if kind == INVITE {
      InviteSafe(w, t, o);
    } else if kind == BYE {
      ByeSafe(w, t, o);
    } else if kind == ACK {
      OnlyTxnSafe(w, ProcessAck(w, t, o), t);
    } else {
      AnswerAndTerminate(w, t, 501, o.sendError, o);
      OnlyTxnSafe(w, ProcessOther(w, t, o), t);
    }
  }

  lemma ServedSafe(w: Worker, m: Message, o: Oracle)
    requires Safe(w) && Closed(w) && Served(w, m, o).Some?
    ensures Safe(Served(w, m, o).value.0)
  {
    hide Safe, Closed;
    match FindTxnOf(w, m.req.branch)
    case None => AdoptSafe(w, m);
    case Some(t) => OnlyTxnSafe(w, SetAck(w, t, m), t);
  }

  lemma UnservedSafe(w: Worker, m: Message, o: Oracle)
    requires Safe(w) && Closed(w) && Served(w, m, o).None?
    ensures Safe(ProcessRequest(w, m, o))
  {
    hide Safe, SlotsLive, CallSlotsLive, FindTxn, Resend, SameShape;
    var r := ProcessRequest(w, m, o);
    var t := FindTxnOf(w, m.req.branch);
    if t.Some? && SameRequest(w.txns[t.value], m) {
      ResendEffect(w, t.value, o);
      OnlyTxnSafe(w, Resend(w, t.value, o), t.value);
      LoggedSafe(Resend(w, t.value, o), r);
    } else {
      LoggedSafe(w, r);
    }
  }

  lemma LoggedSafe(w: Worker, r: Worker)
    requires Safe(w) && r == w.(timers := r.timers, history := r.history)
    ensures Safe(r)
  {
    hide Safe;
    assert SameShape(w, r);
    SameShapeSafe(w, r);
  }

  /** Any request at all keeps every pointer valid, whether or not its dialog has a free slot. */
  lemma RequestKeepsSafe(w: Worker, m: Message, o: Oracle)
    requires Safe(w)
    ensures Closed(w) && Safe(ProcessRequest(w, m, o))
  {
    assert Closed(w);
    hide Safe, Closed, ProcessRequest, Serve;
    if Served(w, m, o).Some? {
      var s := Served(w, m, o).value;
      ServedSafe(w, m, o);
      ServedDispatch(w, m, o);
      AttachSafe(s.0, s.1, m.req);
      AttachClosed(s.0, s.1, m.req);
      ServeSafe(AttachByTags(s.0, s.1, m.req), s.1, m.req.kind, o);
    } else {
      UnservedSafe(w, m, o);
    }
  }

  // ---------- delete events ----------

  lemma TxnGoneClosed(w: Worker, r: Worker, t: nat)
    requires Closed(w) && BackLinks(w) && TxnGone(w, r, t)
    ensures Closed(r)
  {
    hide RemoveSlot, IndexOf, Unlink;
    forall d | d in r.dialogs ensures SlotsLive(r, d) { assert SlotsLive(w, d); }
    forall c | c in r.calls ensures CallSlotsLive(r, c) { assert CallSlotsLive(w, c); }
  }

  lemma TxnGoneBack(w: Worker, r: Worker, t: nat)
    requires BackLinks(w) && TxnGone(w, r, t)
    ensures BackLinks(r)
  {
    hide IndexOf, Unlink;
  }

  lemma DeleteTxnSafe(w: Worker, t: nat)
    requires Safe(w) && t in w.txns
    ensures TxnGone(w, DeleteTxn(w, t), t) && Safe(DeleteTxn(w, t))
  {
    DeleteTxnEffect(w, t);
    var r := DeleteTxn(w, t);
    hide DeleteTxn, Lists, Sizes, Closed, BackLinks, CallLinks, TxnGone;
    TxnGoneLists(w, r, t);
    TxnGoneRest(w, r, t);
    TxnGoneBack(w, r, t);
    TxnGoneClosed(w, r, t);
  }

  /** Deleting a transaction makes no strays and cures none but its own. */
  lemma GoneStrays(w: Worker, r: Worker, t: nat, u: nat)
    requires Safe(w) && TxnGone(w, r, t) && u != t
    ensures Stray(r, u) <==> Stray(w, u)
  {
    hide Lists, Sizes, CallLinks, Closed, Unlink, IndexOf;
    if u in w.txns && w.txns[u].dialog.Some? && w.txns[u].dialog.value in w.dialogs && !Stray(w, u) {
      var d := w.txns[u].dialog.value;
      var i :| 0 <= i < |w.dialogs[d].slots| && w.dialogs[d].slots[i] == Some(u);
      assert r.dialogs[d].slots[i] == Some(u);
    }
  }

  lemma DroppedBack(w: Worker, r: Worker, d: nat)
    requires BackLinks(w) && Dropped(w, r, d)
    ensures BackLinks(r)
  {
    forall e, i | e in r.dialogs && 0 <= i < |r.dialogs[e].slots| && r.dialogs[e].slots[i].Some?
      ensures var t := r.dialogs[e].slots[i].value; t in r.txns && r.txns[t].dialog == Some(e)
    {
      assert Some(w.dialogs[e].slots[i].value) !in w.dialogs[d].slots;
    }
  }

  lemma DroppedLive(w: Worker, r: Worker, d: nat)
    requires Closed(w) && CallLinks(w) && CallLinks(r) && Dropped(w, r, d)
    ensures forall e :: e in r.dialogs ==> SlotsLive(r, e)
    ensures forall c :: c in r.calls ==> CallSlotsLive(r, c)
    ensures forall t :: t in r.txns ==> r.txns[t].message.Some?
  {
    forall e | e in r.dialogs ensures SlotsLive(r, e) { assert SlotsLive(w, e); }
    forall c | c in r.calls ensures CallSlotsLive(r, c) { assert CallSlotsLive(w, c); }
  }

  /** The transactions left point at allocated dialogs exactly when none of them strayed from the one dropped. */
  lemma DroppedPointers(w: Worker, r: Worker, d: nat)
    requires Closed(w) && Dropped(w, r, d)
    ensures (forall t :: t in r.txns && r.txns[t].dialog.Some? ==> r.txns[t].dialog.value in r.dialogs)
            <==> forall t :: Stray(w, t) ==> w.txns[t].dialog != Some(d)
  {
    hide SlotsLive, CallSlotsLive;
    if t :| Stray(w, t) && w.txns[t].dialog == Some(d) {
      assert r.txns[t].dialog == Some(d);
    }
    if t :| t in r.txns && r.txns[t].dialog.Some? && r.txns[t].dialog.value !in r.dialogs {
      assert Stray(w, t) && w.txns[t].dialog == Some(d);
    }
  }

  lemma DroppedSafeIff(w: Worker, r: Worker, d: nat)
    requires Safe(w) && Dropped(w, r, d)
    ensures Safe(r) <==> forall t :: Stray(w, t) ==> w.txns[t].dialog != Some(d)
    ensures Safe(r) <==> Closed(r)
  {
    hide Lists, Sizes, BackLinks, CallLinks, Dropped, Stray, SlotsLive, CallSlotsLive;
    DroppedLists(w, r, d);
    DroppedSizes(w, r, d);
    DroppedBack(w, r, d);
    DroppedCallLinks(w, r, d);
    DroppedLive(w, r, d);
    DroppedPointers(w, r, d);
  }

  /** Deleting `t` drops its TERMINATED dialog, and `u` is a stray of that dialog. */
  ghost predicate Strands(w: Worker, t: nat, u: nat) {
    && t in w.txns && u != t && Stray(w, u) && w.txns[u].dialog == w.txns[t].dialog
    && w.dialogs[w.txns[u].dialog.value].state == DialogTerminated
  }

  /** A delete event keeps every pointer valid exactly when the dialog it drops, if any, has no stray left. */
  lemma DeleteKeepsSafeIff(w: Worker, t: nat, o: Oracle)
    requires Safe(w) && t in w.txns
    ensures Closed(w) && BackLinks(w) && CallLinks(w)
    ensures Safe(DeleteFound(w, t, o)) <==> forall u :: !Strands(w, t, u)
    ensures Safe(DeleteFound(w, t, o)) <==> Closed(DeleteFound(w, t, o))
  {
    hide Lists, Sizes, SlotsLive, CallSlotsLive, BackLinks, CallLinks, Stray, DeleteTxn, DropDialog, Dropped, Droppable;
    var v := DeleteTxn(w, t);
    DeleteTxnSafe(w, t);
    forall u | u != t ensures Stray(v, u) <==> Stray(w, u) { GoneStrays(w, v, t, u); }
    StraysOf(w, v, t);
    var link := w.txns[t].dialog;
    if link.Some? && v.dialogs[link.value].state == DialogTerminated {
      LeftDroppable(w, t, link.value);
      SafeDrop(v, link.value, o);
      DroppedSafeIff(v, DropDialog(v, link.value, o), link.value);
    }
  }

  lemma SafeDrop(w: Worker, d: nat, o: Oracle)
    requires Safe(w) && Droppable(w, d)
    ensures Dropped(w, DropDialog(w, d, o), d)
  {
    hide Closed, BackLinks, Sizes, Distinct;
    DropDialogEffect(w, d, o);
  }

  /** Of the dialog of a transaction that is gone, the strays are those it strands, if the dialog is TERMINATED. */
  lemma StraysOf(w: Worker, v: Worker, t: nat)
    requires t in w.txns && TxnGone(w, v, t)
    requires forall u :: u != t ==> (Stray(v, u) <==> Stray(w, u))
    ensures var link := w.txns[t].dialog;
            if link.Some? && v.dialogs[link.value].state == DialogTerminated
            then (forall u :: !Strands(w, t, u)) <==> forall u :: Stray(v, u) ==> v.txns[u].dialog != link
            else forall u :: !Strands(w, t, u)
  {
    var link := w.txns[t].dialog;
    if link.Some? && v.dialogs[link.value].state == DialogTerminated {
      forall u ensures Strands(w, t, u) <==> Stray(v, u) && v.txns[u].dialog == link {}
    }
  }

  /** The stray is left with a pointer to the freed dialog. */
  ghost predicate Dangling(w: Worker, t: nat) {
    t in w.txns && w.txns[t].dialog.Some? && w.txns[t].dialog.value !in w.dialogs
  }

  lemma StrandedDangles(w: Worker, t: nat, u: nat, o: Oracle)
    requires Safe(w) && Strands(w, t, u)
    ensures Closed(w) && BackLinks(w) && CallLinks(w)
    ensures Dangling(DeleteFound(w, t, o), u) && DeleteFound(w, t, o).txns[u].dialog == w.txns[t].dialog
  {
    hide Lists, Sizes, SlotsLive, CallSlotsLive, BackLinks, CallLinks, DeleteTxn, DropDialog, Droppable;
    var v, d := DeleteTxn(w, t), w.txns[t].dialog.value;
    DeleteTxnSafe(w, t);
    GoneStrays(w, v, t, u);
    LeftDroppable(w, t, d);
    SafeDrop(v, d, o);
  }

  // ---------- steps ----------

  /** A request without a free slot leaves a stray. */
  lemma NoRoomStrays(w: Worker, m: Message, o: Oracle)
    requires Safe(w) && Closed(w) && !HasRoom(w, m, o)
    ensures Served(w, m, o).Some?
    ensures var v, t := Served(w, m, o).value.0, Served(w, m, o).value.1;
            var r := ProcessRequest(w, m, o);
            Stray(r, t) && r.txns[t].dialog == FindDialogOf(v, m.req)
  {
    hide Lists, Sizes, Closed, CallLinks, ProcessRequest, Dispatch;
    ServedSafe(w, m, o);
    ServedDispatch(w, m, o);
    var v, t := Served(w, m, o).value.0, Served(w, m, o).value.1;
    AddressUnused(v);
    DispatchLeaves(v, t, m.req, o);
    FullStrays(v, Dispatch(v, t, m.req, o), t, m.req);
  }

  lemma FullStrays(v: Worker, r: Worker, t: nat, req: Request)
    requires BackLinks(v) && t in v.txns && !Room(v, t, req) && Leaves(AttachByTags(v, t, req), r, t)
    ensures Stray(r, t) && r.txns[t].dialog == FindDialogOf(v, req)
  {
    hide BackLinks;
    assert Some(t) !in v.dialogs[FindDialogOf(v, req).value].slots by { NotSlotted(v, t, FindDialogOf(v, req).value); }
  }

  lemma NotSlotted(w: Worker, t: nat, d: nat)
    requires BackLinks(w) && t in w.txns && d in w.dialogs && w.txns[t].dialog != Some(d)
    ensures Some(t) !in w.dialogs[d].slots
  {
  }

  /** The step handles a delete event that drops a dialog while `u` strays from it. */
  ghost predicate Dangles(s: System, step: Step, u: nat) {
    && step.Work? && s.queue != [] && s.queue[0].DeleteEvent?
    && var t := FindTxnOf(s.w, s.queue[0].branch); t.Some? && Strands(s.w, t.value, u)
  }

  /** Every step, whatever slots its request finds, keeps every pointer valid, unless it drops a dialog some
      transaction strayed from. */
  lemma StepKeepsSafeIff(s: System, step: Step)
    requires Safe(s.w) && Enabled(s, step)
    ensures Sound(s.w) && (Safe(Next(s, step).w) <==> forall u :: !Dangles(s, step, u))
  {
    hide Lists, Sizes, Closed, BackLinks, CallLinks, ProcessRequest, DeleteFound, Strands, SipText.Parse;
    if step.Work? {
      if s.queue[0].DeleteEvent? {
        var t := FindTxnOf(s.w, s.queue[0].branch);
        forall u ensures Dangles(s, step, u) <==> t.Some? && Strands(s.w, t.value, u) {}
        if t.Some? { DeleteKeepsSafeIff(s.w, t.value, step.o); }
      } else if Incoming(s).Some? {
        RequestKeepsSafe(s.w, Incoming(s).value, step.o);
      } else {
        LoggedSafe(s.w, Next(s, step).w);
      }
    } else {
      LoggedSafe(s.w, Next(s, step).w);
    }
  }

  /** No step of the path dangles. */
  ghost predicate NeverDangles(s: System, steps: seq<Step>)
    requires IsPath(s, steps)
    decreases |steps|
  {
    steps != [] ==> (forall u :: !Dangles(s, steps[0], u)) && NeverDangles(Next(s, steps[0]), steps[1..])
  }

  /** Over any path. */
  lemma {:induction false} PathKeepsSafe(s: System, steps: seq<Step>)
    requires Safe(s.w) && IsPath(s, steps) && NeverDangles(s, steps)
    ensures Safe(Follow(s, steps).w)
    decreases |steps|
  {
    hide Safe, Next, Closed, BackLinks, CallLinks, Dangles, Enabled;
    if steps != [] {
      StepKeepsSafeIff(s, steps[0]);
      PathKeepsSafe(Next(s, steps[0]), steps[1..]);
    }
  }
}
