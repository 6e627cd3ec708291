/** Deleting a transaction, and with it a TERMINATED dialog and call, keeps the invariant. */
module Deletion {
  import opened SipTypes
  import opened WorkerModel
  import opened Invariants

  /** What cleanup_dialog does to the transactions still in `slots`. */
  function Swept(txns: map<nat, Txn>, slots: seq<Option<nat>>): (r: map<nat, Txn>)
    ensures r.Keys == txns.Keys
  {
    map t | t in txns :: if Some(t) in slots then txns[t].(state := TxnTerminated, dialog := None) else txns[t]
  }

  lemma DetachSlotEffect(w: Worker, d: nat, i: nat, o: Oracle)
    requires SlotsLive(w, d) && i < TXN_SLOTS
    ensures var r := DetachSlot(w, d, i, o);
            && r == w.(txns := r.txns, dialogs := r.dialogs, timers := r.timers)
            && r.txns == Swept(w.txns, [w.dialogs[d].slots[i]])
            && r.dialogs == w.dialogs[d := w.dialogs[d].(slots := w.dialogs[d].slots[i := None])]
  {
    if w.dialogs[d].slots[i].None? {
      assert w.dialogs[d].slots[i := None] == w.dialogs[d].slots;
    }
  }

  lemma SweptTwice(txns: map<nat, Txn>, x: Option<nat>, rest: seq<Option<nat>>)
    ensures Swept(Swept(txns, [x]), rest) == Swept(txns, [x] + rest)
  {
  }

  /** The slots before `i` keep what they hold; the rest are emptied and their transactions swept. */
  lemma {:induction false} DetachFromEffect(w: Worker, d: nat, i: nat, o: Oracle)
    requires SlotsLive(w, d) && i <= TXN_SLOTS
    ensures var r := DetachFrom(w, d, i, o);
            && r == w.(txns := r.txns, dialogs := r.dialogs, timers := r.timers)
            && r.txns == Swept(w.txns, w.dialogs[d].slots[i..])
            && r.dialogs == w.dialogs[d := r.dialogs[d]]
            && r.dialogs[d] == w.dialogs[d].(slots := r.dialogs[d].slots)
    decreases TXN_SLOTS - i
  {
    var slots := w.dialogs[d].slots;
    if i < TXN_SLOTS {
      var v := DetachSlot(w, d, i, o);
      DetachSlotEffect(w, d, i, o);
      DetachFromEffect(v, d, i + 1, o);
      assert v.dialogs[d].slots[i + 1..] == slots[i + 1..];
      SweptTwice(w.txns, slots[i], slots[i + 1..]);
      assert [slots[i]] + slots[i + 1..] == slots[i..];
    }
  }

  /** Removing the only dialog of a call empties its slot array. */
  lemma RemoveLast(w: Worker, d: nat, c: nat)
    requires CallLinks(w) && d in w.dialogs && w.dialogs[d].call == Some(c)
    ensures c in w.calls && RemoveSlot(w.calls[c].slots, d) == EmptySlots(|w.calls[c].slots|)
  {
    var s := w.calls[c].slots;
    var i := IndexOf(s, Some(d));
    assert s[i] == Some(d);
  }

  /** cleanup_call finds nothing to do in an empty slot array. */
  lemma {:induction false} NothingToDetach(w: Worker, c: nat, i: nat)
    requires CallSlotsLive(w, c) && i <= CALL_SLOTS && w.calls[c].slots == EmptySlots(CALL_SLOTS)
    ensures DetachDialogsFrom(w, c, i) == w
    decreases CALL_SLOTS - i
  {
    if i < CALL_SLOTS {
      NothingToDetach(w, c, i + 1);
    }
  }

  /** `r` is `w` without dialog `d`, its transactions swept, and without its call if that was TERMINATED. */
  ghost predicate Dropped(w: Worker, r: Worker, d: nat) {
    && d in w.dialogs && (w.dialogs[d].call.Some? ==> w.dialogs[d].call.value in w.calls)
    && r == w.(txns := r.txns, dialogs := w.dialogs - {d}, dialogOrder := Unlink(w.dialogOrder, d),
               calls := r.calls, callOrder := r.callOrder, timers := r.timers)
    && r.txns == Swept(w.txns, w.dialogs[d].slots)
    && (match w.dialogs[d].call
        case None => r.calls == w.calls && r.callOrder == w.callOrder
        case Some(c) =>
          if w.calls[c].state == CallTerminated
          then r.calls == w.calls - {c} && r.callOrder == Unlink(w.callOrder, c)
          else r.calls == w.calls[c := w.calls[c].(slots := EmptySlots(CALL_SLOTS))] && r.callOrder == w.callOrder)
  }

  lemma CleanupEffect(w: Worker, d: nat, o: Oracle)
    requires SlotsLive(w, d) && (w.dialogs[d].call.Some? ==> w.dialogs[d].call.value in w.calls)
    ensures var r := CleanupDialog(w, d, o);
            && r == w.(txns := r.txns, dialogs := r.dialogs, calls := r.calls, timers := r.timers)
            && r.txns == Swept(w.txns, w.dialogs[d].slots)
            && r.dialogs == w.dialogs - {d}
  {
    hide Swept, DetachFrom;
    var v := DetachFrom(w, d, 0, o);
    DetachFromEffect(w, d, 0, o);
    assert w.dialogs[d].slots[0..] == w.dialogs[d].slots;
    RemoveUpdated(w.dialogs, d, v.dialogs[d]);
    hide SlotsLive;
  }

  lemma CleanupCalls(w: Worker, d: nat, o: Oracle)
    requires SlotsLive(w, d) && CallLinks(w)
    ensures var r := CleanupDialog(w, d, o);
            match w.dialogs[d].call
            case None => r.calls == w.calls
            case Some(c) => c in w.calls && r.calls == w.calls[c := w.calls[c].(slots := EmptySlots(|w.calls[c].slots|))]
  {
    if w.dialogs[d].call.Some? { RemoveLast(w, d, w.dialogs[d].call.value); }
  }

  lemma DeleteDialogEffect(w: Worker, d: nat, o: Oracle)
    requires SlotsLive(w, d) && CallLinks(w) && d in w.dialogOrder
    ensures var r := DeleteDialog(w, d, o);
            && r == w.(txns := r.txns, dialogs := w.dialogs - {d}, dialogOrder := Unlink(w.dialogOrder, d),
                       calls := r.calls, timers := r.timers)
            && r.txns == Swept(w.txns, w.dialogs[d].slots)
            && (match w.dialogs[d].call
                case None => r.calls == w.calls
                case Some(c) => c in w.calls && r.calls == w.calls[c := w.calls[c].(slots := EmptySlots(|w.calls[c].slots|))])
  {
    var v := w.(dialogOrder := Unlink(w.dialogOrder, d));
    CleanupEffect(v, d, o);
    CleanupCalls(v, d, o);
  }

  lemma DeleteCallEffect(w: Worker, c: nat)
    requires CallSlotsLive(w, c) && w.calls[c].slots == EmptySlots(CALL_SLOTS) && c in w.callOrder
    ensures DeleteCall(w, c) == w.(callOrder := Unlink(w.callOrder, c), calls := w.calls - {c})
  {
    NothingToDetach(w.(callOrder := Unlink(w.callOrder, c)), c, 0);
  }

  lemma RemoveUpdated<V>(m: map<nat, V>, k: nat, v: V)
    ensures m[k := v] - {k} == m - {k}
  {
  }

  lemma DropDialogEffect(w: Worker, d: nat, o: Oracle)
    requires SlotsLive(w, d) && CallLinks(w) && d in w.dialogOrder
    requires w.dialogs[d].call.Some? ==>
               var c := w.dialogs[d].call.value;
               CallSlotsLive(w, c) && Once(w.calls[c].slots) && c in w.callOrder
    ensures Dropped(w, DropDialog(w, d, o), d)
  {
    DeleteDialogEffect(w, d, o);
    var call := w.dialogs[d].call;
    if call.Some? && w.calls[call.value].state == CallTerminated {
      DeleteCallEffect(DeleteDialog(w, d, o), call.value);
      RemoveUpdated(w.calls, call.value, DeleteDialog(w, d, o).calls[call.value]);
    }
  }

  // ---------- the graph without the transaction ----------

  /** Unlinking, head first. */
  lemma UnlinkCons(order: seq<nat>, x: nat)
    requires order != []
    ensures Unlink(order, x) == if order[0] == x then order[1..] else [order[0]] + Unlink(order[1..], x)
  {
    if order[0] != x {
      var rest := order[1..];
      var i := IndexOf(rest, x);
      assert IndexOf(order, x) == i + 1;
      hide IndexOf;
      if i < |rest| { SkipHead(order, i); }
    }
  }

  lemma SkipHead(order: seq<nat>, i: nat)
    requires i + 1 < |order|
    ensures order[..i + 1] + order[i + 2..] == [order[0]] + (order[1..][..i] + order[1..][i + 1..])
  {
  }

  lemma UnlinkDistinct(order: seq<nat>, x: nat)
    requires Distinct(order)
    ensures Distinct(Unlink(order, x))
    ensures forall y :: y in Unlink(order, x) <==> y in order && y != x
  {
    var i := IndexOf(order, x);
    var r := Unlink(order, x);
    if i < |order| {
      assert forall j :: 0 <= j < |r| ==> r[j] == order[if j < i then j else j + 1];
      forall y | y in order && y != x ensures y in r {
        var k := IndexOf(order, y);
        assert order[k] == y;
        assert r[if k < i then k else k - 1] == y;
      }
    }
  }

  /** `r` is `w` without transaction `t` and its place in its dialog's slots. */
  ghost predicate TxnGone(w: Worker, r: Worker, t: nat) {
    && t in w.txns && (w.txns[t].dialog.Some? ==> w.txns[t].dialog.value in w.dialogs)
    && r == w.(txns := w.txns - {t}, txnOrder := Unlink(w.txnOrder, t), dialogs := r.dialogs, history := r.history)
    && (match w.txns[t].dialog
        case None => r.dialogs == w.dialogs
        case Some(d) => r.dialogs == w.dialogs[d := w.dialogs[d].(slots := RemoveSlot(w.dialogs[d].slots, t))])
  }

  lemma DeleteTxnEffect(w: Worker, t: nat)
    requires Lists(w) && t in w.txns && (w.txns[t].dialog.Some? ==> w.txns[t].dialog.value in w.dialogs)
    ensures TxnGone(w, DeleteTxn(w, t), t)
  {
  }

  lemma TxnGoneLists(w: Worker, r: Worker, t: nat)
    requires Lists(w) && TxnGone(w, r, t)
    ensures Lists(r)
  {
    UnlinkDistinct(w.txnOrder, t);
  }

  lemma TxnGoneLinks(w: Worker, r: Worker, t: nat)
    requires TxnLinks(w) && t in w.txns && TxnGone(w, r, t)
    ensures TxnLinks(r)
  {
    hide RemoveSlot, IndexOf, Unlink;
    forall u | u in r.txns && r.txns[u].dialog.Some?
      ensures var d := r.txns[u].dialog.value; d in r.dialogs && Some(u) in r.dialogs[d].slots
    {
      var d := w.txns[u].dialog.value;
      var i := IndexOf(w.dialogs[d].slots, Some(u));
      assert w.dialogs[d].slots[i] == Some(u);
      assert r.dialogs[d].slots[i] == Some(u);
    }
  }

  lemma TxnGoneRest(w: Worker, r: Worker, t: nat)
    requires Sizes(w) && CallLinks(w) && TxnGone(w, r, t)
    ensures Sizes(r) && CallLinks(r)
  {
  }

  lemma TxnGoneGraph(w: Worker, r: Worker, t: nat)
    requires Graph(w) && t in w.txns && TxnGone(w, r, t)
    ensures Graph(r)
  {
    TxnGoneLists(w, r, t);
    TxnGoneLinks(w, r, t);
    TxnGoneRest(w, r, t);
  }

  // ---------- the graph without the dialog ----------

  lemma DroppedLists(w: Worker, r: Worker, d: nat)
    requires Lists(w) && Dropped(w, r, d)
    ensures Lists(r)
  {
    UnlinkDistinct(w.dialogOrder, d);
    if w.dialogs[d].call.Some? { UnlinkDistinct(w.callOrder, w.dialogs[d].call.value); }
  }

  lemma DroppedTxnLinks(w: Worker, r: Worker, d: nat)
    requires TxnLinks(w) && CallLinks(w) && d in w.dialogs && Dropped(w, r, d)
    ensures TxnLinks(r)
  {
    assert forall u :: u in w.txns && w.txns[u].dialog != Some(d) ==> Some(u) !in w.dialogs[d].slots;
  }

  lemma DroppedCallLinks(w: Worker, r: Worker, d: nat)
    requires CallLinks(w) && Dropped(w, r, d)
    ensures CallLinks(r)
  {
    forall e | e in w.dialogs && e != d && w.dialogs[d].call.Some? ensures w.dialogs[e].call != w.dialogs[d].call {
      if w.dialogs[e].call == w.dialogs[d].call { OneDialog(w, d, e); }
    }
  }

  lemma DroppedSizes(w: Worker, r: Worker, d: nat)
    requires Sizes(w) && Dropped(w, r, d)
    ensures Sizes(r)
  {
  }

  lemma DroppedGraph(w: Worker, r: Worker, d: nat)
    requires Graph(w) && d in w.dialogs && Dropped(w, r, d)
    ensures Graph(r)
  {
    DroppedLists(w, r, d);
    DroppedTxnLinks(w, r, d);
    DroppedCallLinks(w, r, d);
    DroppedSizes(w, r, d);
  }

  /** Coupled, but for what holds dialog `d`. */
  ghost predicate CoupledButHeld(w: Worker, d: Option<nat>) {
    && (forall t :: t in w.txns ==> TxnCoupled(w.txns[t]))
    && (forall e :: e in w.dialogs ==> DialogCoupled(w.dialogs[e], w.calls))
    && (forall e :: e in w.dialogs && Some(e) != d ==> DialogHeld(w.dialogs[e], w.txns))
    && (forall c :: c in w.calls ==> CallCoupled(w.calls[c]))
  }

  lemma TxnGoneHeld(w: Worker, r: Worker, t: nat)
    requires TxnLinks(w) && t in w.txns && TxnGone(w, r, t)
    requires forall e :: e in w.dialogs ==> DialogHeld(w.dialogs[e], w.txns)
    ensures forall e :: e in r.dialogs && Some(e) != w.txns[t].dialog ==> DialogHeld(r.dialogs[e], r.txns)
  {
    forall e | e in r.dialogs && Some(e) != w.txns[t].dialog ensures DialogHeld(r.dialogs[e], r.txns) {
      assert r.dialogs[e] == w.dialogs[e];
      assert Some(t) !in w.dialogs[e].slots;
    }
  }

  lemma TxnGoneCoupled(w: Worker, r: Worker, t: nat)
    requires TxnLinks(w) && Coupled(w) && t in w.txns && TxnGone(w, r, t)
    ensures CoupledButHeld(r, w.txns[t].dialog)
  {
    TxnGoneHeld(w, r, t);
  }

  lemma DroppedDialogs(w: Worker, r: Worker, d: nat)
    requires CallLinks(w) && d in w.dialogs && Dropped(w, r, d)
    requires forall e :: e in w.dialogs ==> DialogCoupled(w.dialogs[e], w.calls)
    ensures forall e :: e in r.dialogs ==> DialogCoupled(r.dialogs[e], r.calls)
  {
    forall e | e in w.dialogs && e != d && w.dialogs[d].call.Some? ensures w.dialogs[e].call != w.dialogs[d].call {
      if w.dialogs[e].call == w.dialogs[d].call { OneDialog(w, d, e); }
    }
  }

  lemma DroppedHeld(w: Worker, r: Worker, d: nat)
    requires CallLinks(w) && d in w.dialogs && Dropped(w, r, d)
    requires forall e :: e in w.dialogs && e != d ==> DialogHeld(w.dialogs[e], w.txns)
    ensures forall e :: e in r.dialogs ==> DialogHeld(r.dialogs[e], r.txns)
  {
    forall e | e in r.dialogs ensures DialogHeld(r.dialogs[e], r.txns) {
      assert DialogHeld(w.dialogs[e], w.txns);
    }
  }

  lemma DroppedCoupled(w: Worker, r: Worker, d: nat)
    requires CallLinks(w) && d in w.dialogs && w.dialogs[d].state == DialogTerminated && Dropped(w, r, d)
    requires CoupledButHeld(w, Some(d))
    ensures Coupled(r)
  {
    DroppedDialogs(w, r, d);
    DroppedHeld(w, r, d);
    assert DialogCoupled(w.dialogs[d], w.calls);
  }

  lemma DropKeeps(w: Worker, d: nat, o: Oracle)
    requires Graph(w) && Closed(w) && CoupledButHeld(w, Some(d)) && d in w.dialogs
    requires w.dialogs[d].state == DialogTerminated
    ensures Consistent(DropDialog(w, d, o))
  {
    hide DropDialog, Dropped, Coupled, CoupledButHeld, Distinct;
    DropDialogEffect(w, d, o);
    DroppedGraph(w, DropDialog(w, d, o), d);
    DroppedCoupled(w, DropDialog(w, d, o), d);
  }

  lemma DeleteTxnKeeps(w: Worker, t: nat)
    requires Consistent(w) && t in w.txns
    ensures var v := DeleteTxn(w, t); Graph(v) && Closed(v) && CoupledButHeld(v, w.txns[t].dialog)
  {
    var v := DeleteTxn(w, t);
    DeleteTxnEffect(w, t);
    TxnGoneGraph(w, v, t);
    TxnGoneCoupled(w, v, t);
    GraphClosed(v);
  }

  /** Nothing holds a CONFIRMED dialog. */
  lemma HeldAnyway(w: Worker, d: Option<nat>)
    requires CoupledButHeld(w, d)
    requires d.Some? && d.value in w.dialogs ==> w.dialogs[d.value].state != DialogTerminated
    ensures Coupled(w)
  {
    forall e | e in w.dialogs ensures DialogHeld(w.dialogs[e], w.txns) {}
  }

  lemma DeleteFoundKeeps(w: Worker, t: nat, o: Oracle)
    requires Consistent(w) && Closed(w) && t in w.txns
    ensures Consistent(DeleteFound(w, t, o))
  {
    var v := DeleteTxn(w, t);
    DeleteTxnKeeps(w, t);
    var link := w.txns[t].dialog;
    if link.Some? && v.dialogs[link.value].state == DialogTerminated {
      DropKeeps(v, link.value, o);
    } else {
      HeldAnyway(v, link);
    }
  }

  /** `r` has no transaction that `w` has not, and no branch changed. */
  ghost predicate Fewer(w: Worker, r: Worker) {
    forall u :: u in r.txns ==> u in w.txns && r.txns[u].branch == w.txns[u].branch
  }

  /** A deleted transaction leaves, and then perhaps its TERMINATED dialog. */
  ghost predicate Deleted(w: Worker, v: Worker, r: Worker, t: nat) {
    && TxnGone(w, v, t)
    && (r == v || (w.txns[t].dialog.Some? && w.txns[t].dialog.value in v.dialogs
                   && v.dialogs[w.txns[t].dialog.value].state == DialogTerminated
                   && Dropped(v, r, w.txns[t].dialog.value)))
  }

  lemma DeleteFoundEffect(w: Worker, t: nat, o: Oracle)
    requires Consistent(w) && Closed(w) && t in w.txns
    ensures Deleted(w, DeleteTxn(w, t), DeleteFound(w, t, o), t) && CallLinks(DeleteTxn(w, t))
  {
    hide Coupled, CoupledButHeld, Dropped, TxnGone, DropDialog, DeleteTxn, Distinct;
    var v := DeleteTxn(w, t);
    DeleteTxnEffect(w, t);
    DeleteTxnKeeps(w, t);
    var link := w.txns[t].dialog;
    if link.Some? && v.dialogs[link.value].state == DialogTerminated {
      DropDialogEffect(v, link.value, o);
    }
  }

  lemma DeletedFewer(w: Worker, v: Worker, r: Worker, t: nat)
    requires Deleted(w, v, r, t)
    ensures Fewer(w, r)
  {
  }

  lemma FewerBranches(w: Worker, r: Worker)
    requires Branches(w) && Fewer(w, r)
    ensures Branches(r)
  {
  }

  /** Handling a delete event keeps the invariant, whatever transaction it names. */
  lemma DeleteKeepsInv(w: Worker, branch: Ident, o: Oracle)
    requires Inv(w) && Closed(w)
    ensures Inv(DeleteTransaction(w, branch, o))
  {
    hide Consistent, Branches, Fewer, Deleted, DeleteFound, Closed;
    InvClosed(w);
    var found := FindTxnOf(w, branch);
    if found.Some? {
      DeleteFoundKeeps(w, found.value, o);
      DeleteFoundEffect(w, found.value, o);
      DeletedFewer(w, DeleteTxn(w, found.value), DeleteFound(w, found.value, o), found.value);
      FewerBranches(w, DeleteFound(w, found.value, o));
    }
  }
}
