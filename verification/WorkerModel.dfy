/** One worker's transactions, dialogs and calls as a value: each operation of sip_utils.c and
    sip_server.c is a function of the state, the input and the results of foreign calls. */
module WorkerModel {
  import opened SipTypes
  import Responses

  datatype TxnState = TxnIdle | TxnProceeding | TxnCompleted | TxnTerminated
  datatype DialogState = DialogIdle | DialogEarly | DialogConfirmed | DialogTerminated
  datatype CallState =
    CallIdle | CallIncoming | CallRinging | CallEstablished | CallFailed | CallTerminating | CallTerminated

  const TXN_SLOTS := 32
  const CALL_SLOTS := 16
  const WAIT_ACK_TIMEOUT := 5000
  const DELETE_TIMEOUT := 5000

  /** `queue` names the worker whose queue the transaction's delete events go to. */
  datatype Txn = Txn(
    branch: Ident, state: TxnState, dialog: Option<nat>, queue: Option<nat>,
    message: Option<Message>, ack: Option<Message>, response: Response, code: nat)

  datatype Dialog = Dialog(
    slots: seq<Option<nat>>, call: Option<nat>, state: DialogState, fromTag: Ident, toTag: string)

  datatype Call = Call(slots: seq<Option<nat>>, state: CallState, callId: Ident)

  /** A one-shot timer holding a delete event: its branch and the queue it will go to. */
  datatype Timer = Timer(branch: Ident, deadline: nat, queue: Option<nat>)

  /** One `sendto`: for which transaction and dialog, what, where, and whether it was a resend. */
  datatype Sent = Sent(
    txn: Option<nat>, dialog: Option<nat>, kind: Method, code: nat,
    response: Response, addr: Address, ok: bool, resend: bool)

  /** The length passed to `sendto`: that of the whole response, even if the buffer holds less. */
  function BytesOut(e: Sent): nat {
    Responses.Fill(e.response).1
  }

  /** The pending timers: waiting for an ACK, or waiting to hand the delete event to the queue.
      `created` counts the delete events of each transaction and `made` those of each branch; `lost` are
      those that could not be scheduled. */
  datatype Timers = Timers(
    now: nat, waitAck: multiset<Timer>, deleting: multiset<Timer>,
    created: multiset<nat>, made: multiset<Ident>, lost: multiset<Ident>)

  /** What the worker did with messages: freed, or forgotten when a later ACK took their place. */
  datatype History = History(freed: multiset<nat>, displaced: multiset<nat>, sent: seq<Sent>)

  /** The maps hold what is allocated, keyed by address; the `Order` sequences are the linked lists.
      `self` is the worker's number. */
  datatype Worker = Worker(
    txnOrder: seq<nat>, txns: map<nat, Txn>,
    dialogOrder: seq<nat>, dialogs: map<nat, Dialog>,
    callOrder: seq<nat>, calls: map<nat, Call>,
    nextId: nat, self: nat, timers: Timers, history: History)

  const NO_TIMERS := Timers(0, multiset{}, multiset{}, multiset{}, multiset{}, multiset{})
  const NO_HISTORY := History(multiset{}, multiset{}, [])

  /** Worker `self` before its first packet. */
  function Idle(self: nat): Worker {
    Worker([], map[], [], map[], [], map[], 0, self, NO_TIMERS, NO_HISTORY)
  }

  /** Results of the calls the worker makes: allocations, sends, the random tag, and the
      transactions whose delete event cannot be allocated or scheduled. */
  datatype Oracle = Oracle(
    allocTxn: bool, allocDialog: bool, allocCall: bool,
    send100: bool, send180: bool, send200: bool, sendError: bool, resend: bool,
    toTag: string, lose: set<nat>)

  // ---------- slot arrays ----------

  /** The first index holding `x`, or the length. */
  function IndexOf<T(==)>(s: seq<T>, x: T): (i: nat)
    ensures i <= |s|
    ensures i < |s| ==> s[i] == x
    ensures forall j :: 0 <= j < i ==> s[j] != x
  {
    if s == [] || s[0] == x then 0 else 1 + IndexOf(s[1..], x)
  }

  lemma FirstIndex<T>(s: seq<T>, x: T, i: nat)
    requires i < |s| && s[i] == x && x !in s[..i]
    ensures IndexOf(s, x) == i
  {
    assert forall j :: 0 <= j < i ==> s[..i][j] == s[j];
  }

  /** No object sits in two slots. */
  predicate Once(slots: seq<Option<nat>>) {
    forall i, j :: 0 <= i < j < |slots| && slots[i].Some? ==> slots[i] != slots[j]
  }

  /** add_*_to_*: the first free slot, unless `x` is there already or no slot is free. */
  function AddSlot(slots: seq<Option<nat>>, x: nat): (r: seq<Option<nat>>)
    ensures |r| == |slots|
    ensures Some(x) in r <==> Some(x) in slots || None in slots
    ensures forall i :: 0 <= i < |r| ==> r[i] == slots[i] || (slots[i] == None && r[i] == Some(x))
    ensures Once(slots) ==> Once(r)
  {
    var free := IndexOf(slots, None);
    if Some(x) in slots || free == |slots| then slots
    else
      assert slots[free := Some(x)][free] == Some(x);
      slots[free := Some(x)]
  }

  /** remove_*_from_*: clear the first slot holding `x`. */
  function RemoveSlot(slots: seq<Option<nat>>, x: nat): (r: seq<Option<nat>>)
    ensures |r| == |slots|
    ensures forall i :: 0 <= i < |r| ==> r[i] == slots[i] || (slots[i] == Some(x) && r[i] == None)
    ensures Once(slots) ==> Once(r) && Some(x) !in r
  {
    var i := IndexOf(slots, Some(x));
    if i < |slots| then slots[i := None] else slots
  }

  function EmptySlots(n: nat): (r: seq<Option<nat>>)
    ensures |r| == n && forall i :: 0 <= i < n ==> r[i] == None
  {
    seq(n, i => None)
  }

  // ---------- lists ----------

  ghost predicate Distinct(order: seq<nat>) {
    forall i, j :: 0 <= i < j < |order| ==> order[i] != order[j]
  }

  function Unlink(order: seq<nat>, x: nat): (r: seq<nat>)
  {
    var i := IndexOf(order, x);
    if i < |order| then order[..i] + order[i + 1..] else order
  }

  /** find_transaction_by_id: the first match in list order. */
  function FindTxn(order: seq<nat>, txns: map<nat, Txn>, text: string, length: nat): (r: Option<nat>)
    ensures r.Some? ==> r.value in order && r.value in txns && Matches(txns[r.value].branch, text, length)
    ensures r.None? && length > 0 ==> forall t :: t in order && t in txns ==> !Matches(txns[t].branch, text, length)
  {
    if order == [] || length == 0 then None
    else if order[0] in txns && Matches(txns[order[0]].branch, text, length) then Some(order[0])
    else FindTxn(order[1..], txns, text, length)
  }

  /** The test of find_dialog_by_id; a missing To tag has length 0 and matches no stored tag. */
  predicate DialogMatches(d: Dialog, fromTag: Ident, toTag: Option<Ident>) {
    && Matches(d.fromTag, fromTag.text, fromTag.length)
    && toTag.Some? && Matches(Whole(d.toTag), toTag.value.text, toTag.value.length)
  }

  /** find_dialog_by_id: the first match in list order. */
  function FindDialog(order: seq<nat>, dialogs: map<nat, Dialog>, fromTag: Ident, toTag: Option<Ident>): (r: Option<nat>)
    ensures r.Some? ==> r.value in order && r.value in dialogs && DialogMatches(dialogs[r.value], fromTag, toTag)
    ensures r.None? && fromTag.length > 0 ==>
              forall d :: d in order && d in dialogs ==> !DialogMatches(dialogs[d], fromTag, toTag)
  {
    if order == [] || fromTag.length == 0 then None
    else if order[0] in dialogs && DialogMatches(dialogs[order[0]], fromTag, toTag) then Some(order[0])
    else FindDialog(order[1..], dialogs, fromTag, toTag)
  }

  // ---------- creation ----------

  /** What a call keeps of its Call-ID. */
  function StoredCallId(callId: string): Ident {
    Cut(Whole(callId), MAX_CALL_ID_LENGTH)
  }

  function CreateTxn(w: Worker, branch: Ident): Worker {
    w.(txnOrder := [w.nextId] + w.txnOrder,
       txns := w.txns[w.nextId := Txn(Cut(branch, MAX_ID_LENGTH), TxnIdle, None, None, None, None, Empty, 0)],
       nextId := w.nextId + 1)
  }

  function CreateDialog(w: Worker, fromTag: Ident, toTag: string): Worker {
    w.(dialogOrder := [w.nextId] + w.dialogOrder,
       dialogs := w.dialogs[w.nextId :=
         Dialog(EmptySlots(TXN_SLOTS), None, DialogIdle, Cut(fromTag, MAX_ID_LENGTH), toTag)],
       nextId := w.nextId + 1)
  }

  function CreateCall(w: Worker, callId: string): Worker {
    w.(callOrder := [w.nextId] + w.callOrder,
       calls := w.calls[w.nextId := Call(EmptySlots(CALL_SLOTS), CallIdle, StoredCallId(callId))],
       nextId := w.nextId + 1)
  }

  // ---------- states and links ----------

  /** The delete event created on entering COMPLETED or TERMINATED; it is lost when its
      allocation or its timer fails. */
  function Schedule(tm: Timers, t: nat, branch: Ident, queue: Option<nat>, s: TxnState, lose: bool): (r: Timers)
    ensures r.now == tm.now
  {
    if s != TxnCompleted && s != TxnTerminated then tm
    else
      var tm := tm.(created := tm.created + multiset{t}, made := tm.made + multiset{branch});
      if lose then tm.(lost := tm.lost + multiset{branch})
      else if s == TxnCompleted then
        tm.(waitAck := tm.waitAck + multiset{Timer(branch, tm.now + WAIT_ACK_TIMEOUT, queue)})
      else
        tm.(deleting := tm.deleting + multiset{Timer(branch, tm.now + DELETE_TIMEOUT, queue)})
  }

  /** set_transaction_state: nothing happens when the state is already reached. */
  function SetTxnState(w: Worker, t: nat, s: TxnState, o: Oracle): (r: Worker)
    requires t in w.txns
    ensures r.txns == w.txns[t := w.txns[t].(state := s)]
    ensures r == w.(txns := r.txns, timers := r.timers)
  {
    var x := w.txns[t];
    if x.state == s then w
    else w.(txns := w.txns[t := x.(state := s)],
            timers := Schedule(w.timers, t, x.branch, x.queue, s, t in o.lose))
  }

  function SetDialogState(w: Worker, d: nat, s: DialogState): Worker
    requires d in w.dialogs
  {
    w.(dialogs := w.dialogs[d := w.dialogs[d].(state := s)])
  }

  function SetCallState(w: Worker, c: nat, s: CallState): Worker
    requires c in w.calls
  {
    w.(calls := w.calls[c := w.calls[c].(state := s)])
  }

  /** A new transaction gets its message and the worker's own queue. */
  function SetTxnMessage(w: Worker, t: nat, m: Message): Worker
    requires t in w.txns
  {
    w.(txns := w.txns[t := w.txns[t].(message := Some(m), queue := Some(w.self), response := Empty)])
  }

  function IdOf(m: Option<Message>): multiset<nat> {
    if m.Some? then multiset{m.value.id} else multiset{}
  }

  /** The ACK of an INVITE replaces an earlier one without freeing it. */
  function SetAck(w: Worker, t: nat, m: Message): Worker
    requires t in w.txns
  {
    var x := w.txns[t];
    w.(txns := w.txns[t := x.(ack := Some(m))],
       history := w.history.(displaced := w.history.displaced + IdOf(x.ack)))
  }

  function SetTxnDialog(w: Worker, t: nat, d: nat): Worker
    requires t in w.txns && d in w.dialogs
  {
    w.(txns := w.txns[t := w.txns[t].(dialog := Some(d))],
       dialogs := w.dialogs[d := w.dialogs[d].(slots := AddSlot(w.dialogs[d].slots, t))])
  }

  function SetDialogCall(w: Worker, d: nat, c: nat): Worker
    requires d in w.dialogs && c in w.calls
  {
    w.(dialogs := w.dialogs[d := w.dialogs[d].(call := Some(c))],
       calls := w.calls[c := w.calls[c].(slots := AddSlot(w.calls[c].slots, d))])
  }

  function Free(w: Worker, id: nat): Worker {
    w.(history := w.history.(freed := w.history.freed + multiset{id}))
  }

  // ---------- cleanup ----------

  /** cleanup_transaction: leave the dialog's slot array, free the messages and the transaction. */
  function CleanupTxn(w: Worker, t: nat): Worker
    requires t in w.txns
    requires w.txns[t].dialog.Some? ==> w.txns[t].dialog.value in w.dialogs
  {
    var x := w.txns[t];
    w.(txns := w.txns - {t},
       dialogs := if x.dialog.None? then w.dialogs
                  else
                    var d := x.dialog.value;
                    w.dialogs[d := w.dialogs[d].(slots := RemoveSlot(w.dialogs[d].slots, t))],
       history := w.history.(freed := w.history.freed + IdOf(x.message) + IdOf(x.ack)))
  }

  function DeleteTxn(w: Worker, t: nat): (r: Worker)
    requires t in w.txns
    requires w.txns[t].dialog.Some? ==> w.txns[t].dialog.value in w.dialogs
    ensures r.dialogs.Keys == w.dialogs.Keys && r.calls == w.calls
    ensures forall d :: d in w.dialogs ==> r.dialogs[d] == w.dialogs[d].(slots := r.dialogs[d].slots)
    ensures forall d :: (d in w.dialogs && SlotsLive(w, d) && Once(w.dialogs[d].slots)
                         && (w.txns[t].dialog == Some(d) || Some(t) !in w.dialogs[d].slots)) ==> SlotsLive(r, d)
  {
    if t in w.txnOrder then CleanupTxn(w.(txnOrder := Unlink(w.txnOrder, t)), t) else w
  }

  /** Every occupied slot of `d` holds an allocated transaction. */
  predicate SlotsLive(w: Worker, d: nat) {
    d in w.dialogs && |w.dialogs[d].slots| == TXN_SLOTS &&
    forall i :: 0 <= i < TXN_SLOTS && w.dialogs[d].slots[i].Some? ==> w.dialogs[d].slots[i].value in w.txns
  }

  /** One round of the loop of cleanup_dialog. */
  function DetachSlot(w: Worker, d: nat, i: nat, o: Oracle): (r: Worker)
    requires SlotsLive(w, d) && i < TXN_SLOTS
    ensures SlotsLive(r, d)
    ensures r.txns.Keys == w.txns.Keys && r.dialogs.Keys == w.dialogs.Keys
    ensures r.calls == w.calls && r.dialogs[d].call == w.dialogs[d].call
  {
    var slot := w.dialogs[d].slots[i];
    if slot.None? then w
    else
      var t := slot.value;
      var w := SetTxnState(w, t, TxnTerminated, o);
      w.(txns := w.txns[t := w.txns[t].(dialog := None)],
         dialogs := w.dialogs[d := w.dialogs[d].(slots := w.dialogs[d].slots[i := None])])
  }

  /** The loop of cleanup_dialog from slot `i` on. */
  function DetachFrom(w: Worker, d: nat, i: nat, o: Oracle): (r: Worker)
    requires SlotsLive(w, d) && i <= TXN_SLOTS
    ensures SlotsLive(r, d)
    ensures r.txns.Keys == w.txns.Keys && r.dialogs.Keys == w.dialogs.Keys
    ensures r.calls == w.calls && r.dialogs[d].call == w.dialogs[d].call
    decreases TXN_SLOTS - i
  {
    if i == TXN_SLOTS then w else DetachFrom(DetachSlot(w, d, i, o), d, i + 1, o)
  }

  /** Every occupied slot of `c` holds an allocated dialog. */
  predicate CallSlotsLive(w: Worker, c: nat) {
    c in w.calls && |w.calls[c].slots| == CALL_SLOTS &&
    forall i :: 0 <= i < CALL_SLOTS && w.calls[c].slots[i].Some? ==> w.calls[c].slots[i].value in w.dialogs
  }

  /** remove_dialog_from_call followed by the release of the dialog. */
  function ReleaseDialog(w: Worker, d: nat): (r: Worker)
    requires d in w.dialogs && (w.dialogs[d].call.Some? ==> w.dialogs[d].call.value in w.calls)
    ensures r.calls.Keys == w.calls.Keys
    ensures w.dialogs[d].call.Some? ==>
              var c := w.dialogs[d].call.value;
              CallSlotsLive(w, c) && Once(w.calls[c].slots) ==> CallSlotsLive(r, c)
    ensures r == w.(dialogs := r.dialogs, calls := r.calls)
  {
    var x := w.dialogs[d];
    w.(dialogs := w.dialogs - {d},
       calls := if x.call.None? then w.calls
                else
                  var c := x.call.value;
                  w.calls[c := w.calls[c].(slots := RemoveSlot(w.calls[c].slots, d))])
  }

  /** cleanup_dialog: detach and terminate every attached transaction, leave the call, free. */
  function CleanupDialog(w: Worker, d: nat, o: Oracle): (r: Worker)
    requires SlotsLive(w, d)
    requires w.dialogs[d].call.Some? ==> w.dialogs[d].call.value in w.calls
    ensures r.calls.Keys == w.calls.Keys
    ensures w.dialogs[d].call.Some? ==>
              var c := w.dialogs[d].call.value;
              CallSlotsLive(w, c) && Once(w.calls[c].slots) ==> CallSlotsLive(r, c)
  {
    ReleaseDialog(DetachFrom(w, d, 0, o), d)
  }

  function DeleteDialog(w: Worker, d: nat, o: Oracle): (r: Worker)
    requires SlotsLive(w, d)
    requires w.dialogs[d].call.Some? ==> w.dialogs[d].call.value in w.calls
    ensures r.calls.Keys == w.calls.Keys
    ensures w.dialogs[d].call.Some? ==>
              var c := w.dialogs[d].call.value;
              CallSlotsLive(w, c) && Once(w.calls[c].slots) ==> CallSlotsLive(r, c)
  {
    if d in w.dialogOrder then CleanupDialog(w.(dialogOrder := Unlink(w.dialogOrder, d)), d, o) else w
  }

  /** One round of the loop of cleanup_call. */
  function DetachDialogSlot(w: Worker, c: nat, i: nat): (r: Worker)
    requires CallSlotsLive(w, c) && i < CALL_SLOTS
    ensures CallSlotsLive(r, c)
    ensures r == w.(dialogs := r.dialogs, calls := r.calls)
  {
    var slot := w.calls[c].slots[i];
    if slot.None? then w
    else
      var d := slot.value;
      w.(dialogs := w.dialogs[d := w.dialogs[d].(state := DialogTerminated, call := None)],
         calls := w.calls[c := w.calls[c].(slots := w.calls[c].slots[i := None])])
  }

  /** The loop of cleanup_call from slot `i` on. */
  function DetachDialogsFrom(w: Worker, c: nat, i: nat): (r: Worker)
    requires CallSlotsLive(w, c) && i <= CALL_SLOTS
    ensures CallSlotsLive(r, c)
    ensures r == w.(dialogs := r.dialogs, calls := r.calls)
    decreases CALL_SLOTS - i
  {
    if i == CALL_SLOTS then w else DetachDialogsFrom(DetachDialogSlot(w, c, i), c, i + 1)
  }

  function DeleteCall(w: Worker, c: nat): Worker
    requires CallSlotsLive(w, c)
  {
    if c in w.callOrder then
      var w := DetachDialogsFrom(w.(callOrder := Unlink(w.callOrder, c)), c, 0);
      w.(calls := w.calls - {c})
    else w
  }

  // ---------- responses ----------

  function Log(h: History, s: Sent): History {
    h.(sent := h.sent + [s])
  }

  function TagOf(w: Worker, x: Txn): Option<string>
    requires x.dialog.Some? ==> x.dialog.value in w.dialogs
  {
    if x.dialog.None? then None else Some(w.dialogs[x.dialog.value].toTag)
  }

  /** The `send_*_response_over_transaction` family: store the printed response and its code, then send. */
  function Respond(w: Worker, t: nat, code: nat, ok: bool): (r: Worker)
    requires t in w.txns && StatusCode(code)
    requires w.txns[t].dialog.Some? ==> w.txns[t].dialog.value in w.dialogs
    ensures t in r.txns
    ensures r.txns == w.txns[t := w.txns[t].(response := r.txns[t].response, code := r.txns[t].code)]
    ensures r == w.(txns := r.txns, history := r.history)
  {
    var x := w.txns[t];
    if x.message.None? then w
    else
      var m := x.message.value;
      var response := Printed(code, m.req, TagOf(w, x));
      w.(txns := w.txns[t := x.(response := response, code := code)],
         history := Log(w.history, Sent(Some(t), x.dialog, m.req.kind, code, response, m.addr, ok, false)))
  }

  /** send_sip_error_response, used when no transaction could be created. */
  function RespondDirectly(w: Worker, m: Message, code: nat, ok: bool): Worker
    requires StatusCode(code)
  {
    var response := Printed(code, m.req, None);
    w.(history := Log(w.history, Sent(None, None, m.req.kind, code, response, m.addr, ok, false)))
  }

  /** send_last_response_over_transaction, with the 500 that follows a failed resend.
      Nothing can be sent while no response is stored. */
  function Resend(w: Worker, t: nat, o: Oracle): Worker
    requires t in w.txns && w.txns[t].message.Some?
    requires w.txns[t].dialog.Some? ==> w.txns[t].dialog.value in w.dialogs
  {
    var x := w.txns[t];
    var m := x.message.value;
    if x.response == Empty then Respond(w, t, 500, o.sendError)
    else
      var again := Sent(Some(t), x.dialog, m.req.kind, x.code, x.response, m.addr, o.resend, true);
      var w := w.(history := Log(w.history, again));
      if o.resend then w else Respond(w, t, 500, o.sendError)
  }

  // ---------- request handlers ----------

  /** Respond with 500 and wait for the ACK. */
  function FailTxn(w: Worker, t: nat, o: Oracle): (r: Worker)
    requires t in w.txns
    requires w.txns[t].dialog.Some? ==> w.txns[t].dialog.value in w.dialogs
    ensures t in r.txns
    ensures r.txns == w.txns[t := w.txns[t].(state := TxnCompleted, response := r.txns[t].response, code := r.txns[t].code)]
    ensures r == w.(txns := r.txns, timers := r.timers, history := r.history)
  {
    SetTxnState(Respond(w, t, 500, o.sendError), t, TxnCompleted, o)
  }

  /** The failure branches after the call exists. */
  function FailCall(w: Worker, t: nat, d: nat, c: nat, o: Oracle): Worker
    requires t in w.txns && d in w.dialogs && c in w.calls && w.txns[t].dialog == Some(d)
  {
    SetCallState(SetDialogState(FailTxn(w, t, o), d, DialogTerminated), c, CallFailed)
  }

  /** A new call for dialog `d`. */
  function StartCall(w: Worker, d: nat, callId: string): (r: Worker)
    requires d in w.dialogs
    ensures r.dialogs == w.dialogs[d := w.dialogs[d].(call := Some(w.nextId))]
    ensures r == w.(dialogs := r.dialogs, calls := r.calls, callOrder := [w.nextId] + w.callOrder, nextId := w.nextId + 1)
  {
    SetCallState(SetDialogCall(CreateCall(w, callId), d, w.nextId), w.nextId, CallIncoming)
  }

  /** process_invite_request once the call exists: ring, then answer. */
  function RingCall(w: Worker, t: nat, d: nat, c: nat, o: Oracle): Worker
    requires t in w.txns && d in w.dialogs && c in w.calls && w.txns[t].dialog == Some(d)
  {
    var w := Respond(w, t, 180, o.send180);
    if !o.send180 then FailCall(w, t, d, c, o)
    else
      var w := Respond(SetCallState(w, c, CallRinging), t, 200, o.send200);
      if !o.send200 then FailCall(w, t, d, c, o)
      else SetCallState(SetDialogState(SetTxnState(w, t, TxnTerminated, o), d, DialogConfirmed), c, CallEstablished)
  }

  /** process_invite_request from the creation of the call on. */
  function InviteCall(w: Worker, t: nat, d: nat, o: Oracle): Worker
    requires t in w.txns && d in w.dialogs && w.txns[t].dialog == Some(d) && w.txns[t].message.Some?
  {
    var callId := w.txns[t].message.value.req.callId;
    if !o.allocCall || callId == "" then SetDialogState(FailTxn(w, t, o), d, DialogTerminated)
    else RingCall(StartCall(w, d, callId), t, d, w.nextId, o)
  }

  /** A new dialog for transaction `t`. */
  function StartDialog(w: Worker, t: nat, fromTag: Ident, toTag: string): (r: Worker)
    requires t in w.txns
    ensures r.txns == w.txns[t := w.txns[t].(dialog := Some(w.nextId))]
    ensures r == w.(txns := r.txns, dialogs := r.dialogs, dialogOrder := [w.nextId] + w.dialogOrder, nextId := w.nextId + 1)
  {
    SetDialogState(SetTxnDialog(CreateDialog(w, fromTag, toTag), t, w.nextId), w.nextId, DialogEarly)
  }

  /** process_invite_request. It is reached for a fresh IDLE transaction only. */
  function ProcessInvite(w: Worker, t: nat, o: Oracle): Worker
    requires t in w.txns && w.txns[t].state == TxnIdle && w.txns[t].message.Some?
    requires w.txns[t].dialog.Some? ==> w.txns[t].dialog.value in w.dialogs
  {
    var req := w.txns[t].message.value.req;
    if w.txns[t].dialog.Some? then w
    else
      var w := Respond(w, t, 100, o.send100);
      if !o.send100 then FailTxn(w, t, o)
      else
        var w := SetTxnState(w, t, TxnProceeding, o);
        if !o.allocDialog || req.fromTag.length == 0 then FailTxn(w, t, o)
        else InviteCall(StartDialog(w, t, req.fromTag, o.toTag), t, w.nextId, o)
  }

  function ProcessAck(w: Worker, t: nat, o: Oracle): Worker
    requires t in w.txns
  {
    SetTxnState(w, t, TxnTerminated, o)
  }

  function ProcessBye(w: Worker, t: nat, o: Oracle): Worker
    requires t in w.txns
    requires w.txns[t].dialog.Some? ==> w.txns[t].dialog.value in w.dialogs
    requires w.txns[t].dialog.Some? ==> var d := w.txns[t].dialog.value;
               w.dialogs[d].call.Some? ==> w.dialogs[d].call.value in w.calls
  {
    var link := w.txns[t].dialog;
    var w :=
      if link.None? || w.dialogs[link.value].call.None? then Respond(w, t, 404, o.sendError)
      else
        var d := link.value;
        var c := w.dialogs[d].call.value;
        if w.dialogs[d].state == DialogConfirmed then
          var w := Respond(SetCallState(w, c, CallTerminating), t, 200, o.send200);
          SetDialogState(SetCallState(w, c, CallTerminated), d, DialogTerminated)
        else Respond(w, t, 403, o.sendError);
    SetTxnState(w, t, TxnTerminated, o)
  }

  function ProcessOther(w: Worker, t: nat, o: Oracle): Worker
    requires t in w.txns
    requires w.txns[t].dialog.Some? ==> w.txns[t].dialog.value in w.dialogs
  {
    SetTxnState(Respond(w, t, 501, o.sendError), t, TxnTerminated, o)
  }

  /** Every pointer the handlers follow leads to an allocated object. */
  predicate Closed(w: Worker) {
    && (forall t :: t in w.txns && w.txns[t].dialog.Some? ==> w.txns[t].dialog.value in w.dialogs)
    && (forall d :: d in w.dialogs && w.dialogs[d].call.Some? ==> w.dialogs[d].call.value in w.calls)
    && (forall d :: d in w.dialogs ==> SlotsLive(w, d))
    && (forall c :: c in w.calls ==> CallSlotsLive(w, c))
    && (forall t :: t in w.txns ==> w.txns[t].message.Some?)
  }

  function FindDialogOf(w: Worker, req: Request): Option<nat> {
    FindDialog(w.dialogOrder, w.dialogs, req.fromTag, req.toTag)
  }

  /** A transaction without a dialog joins the one its request names. */
  function AttachByTags(w: Worker, t: nat, req: Request): (r: Worker)
    requires t in w.txns
    ensures r.txns.Keys == w.txns.Keys && r.dialogs.Keys == w.dialogs.Keys && r.calls == w.calls
    ensures r.txns[t].state == w.txns[t].state && r.txns[t].message == w.txns[t].message
    ensures forall d :: d in w.dialogs ==> r.dialogs[d].call == w.dialogs[d].call && r.dialogs[d].state == w.dialogs[d].state
    ensures r.txns[t].dialog == if w.txns[t].dialog.Some? then w.txns[t].dialog else FindDialogOf(w, req)
  {
    var d := FindDialogOf(w, req);
    if w.txns[t].dialog.None? && d.Some? then SetTxnDialog(w, t, d.value) else w
  }

  lemma AttachSlots(w: Worker, t: nat, req: Request, d: nat)
    requires t in w.txns && SlotsLive(w, d)
    ensures SlotsLive(AttachByTags(w, t, req), d)
  {
    hide FindDialog;
  }

  lemma AttachClosed(w: Worker, t: nat, req: Request)
    requires Closed(w) && t in w.txns
    ensures Closed(AttachByTags(w, t, req))
  {
    hide SlotsLive, FindDialogOf;
    var r := AttachByTags(w, t, req);
    forall d | d in w.dialogs ensures SlotsLive(r, d) { AttachSlots(w, t, req, d); }
    assert forall c :: c in r.calls ==> CallSlotsLive(w, c) && CallSlotsLive(r, c);
    hide AddSlot, CallSlotsLive;
  }

  /** The handler for a request method. */
  function Serve(w: Worker, t: nat, kind: Method, o: Oracle): Worker
    requires Closed(w) && t in w.txns
    requires kind.INVITE? ==> w.txns[t].state == TxnIdle
  {
    if kind == INVITE then ProcessInvite(w, t, o)
    else if kind == ACK then ProcessAck(w, t, o)
    else if kind == BYE then ProcessBye(w, t, o)
    else ProcessOther(w, t, o)
  }

  /** The second half of process_sip_request. */
  function Dispatch(w: Worker, t: nat, req: Request, o: Oracle): Worker
    requires Closed(w) && t in w.txns
    requires req.kind.INVITE? ==> w.txns[t].state == TxnIdle
  {
    AttachClosed(w, t, req);
    Serve(AttachByTags(w, t, req), t, req.kind, o)
  }

  /** The transaction a branch finds: that of a request, or that of a delete event. */
  function FindTxnOf(w: Worker, branch: Ident): Option<nat> {
    FindTxn(w.txnOrder, w.txns, branch.text, branch.length)
  }

  /** The request repeats the CSeq and source address of the transaction's own request. */
  predicate SameRequest(x: Txn, m: Message)
    requires x.message.Some?
  {
    m.req.cseq == x.message.value.req.cseq && m.addr == x.message.value.addr
  }

  /** A fresh transaction owning `m`. */
  function Adopt(w: Worker, m: Message): (r: Worker)
    ensures w.nextId in r.txns && r.txns[w.nextId].state == TxnIdle
    ensures Closed(w) ==> Closed(r)
  {
    SetTxnMessage(CreateTxn(w, m.req.branch), w.nextId, m)
  }

  function ProcessRequest(w: Worker, m: Message, o: Oracle): Worker
    requires Closed(w)
  {
    match FindTxnOf(w, m.req.branch)
    case None =>
      if !o.allocTxn || m.req.branch.length == 0 then Free(RespondDirectly(w, m, 500, o.sendError), m.id)
      else Dispatch(Adopt(w, m), w.nextId, m.req, o)
    case Some(t) =>
      var x := w.txns[t];
      if SameRequest(x, m) then Free(Resend(w, t, o), m.id)
      else if x.message.value.req.kind == INVITE && m.req.kind == ACK then Dispatch(SetAck(w, t, m), t, m.req, o)
      else Free(w, m.id)
  }

  /** A slot of a dialog holds a transaction that points back, and no transaction sits in two slots. */
  predicate BackLinks(w: Worker) {
    && (forall d, i :: d in w.dialogs && 0 <= i < |w.dialogs[d].slots| && w.dialogs[d].slots[i].Some? ==>
          var t := w.dialogs[d].slots[i].value;
          t in w.txns && w.txns[t].dialog == Some(d))
    && (forall d :: d in w.dialogs ==> Once(w.dialogs[d].slots))
  }

  /** Transactions and dialogs point at each other: a transaction sits in a slot of its dialog,
      once, and in no other slot. */
  predicate TxnLinks(w: Worker) {
    && (forall t :: t in w.txns && w.txns[t].dialog.Some? ==>
          var d := w.txns[t].dialog.value;
          d in w.dialogs && Some(t) in w.dialogs[d].slots)
    && BackLinks(w)
  }

  /** Dialogs and calls point at each other, and a call has at most one dialog. */
  predicate CallLinks(w: Worker) {
    && (forall d :: d in w.dialogs && w.dialogs[d].call.Some? ==>
          var c := w.dialogs[d].call.value;
          c in w.calls && Some(d) in w.calls[c].slots)
    && (forall c, i :: c in w.calls && 0 <= i < |w.calls[c].slots| && w.calls[c].slots[i].Some? ==>
          var d := w.calls[c].slots[i].value;
          d in w.dialogs && w.dialogs[d].call == Some(c))
    && (forall c, i, j :: c in w.calls && 0 <= i < j < |w.calls[c].slots| && w.calls[c].slots[i].Some? ==>
          w.calls[c].slots[j].None?)
  }

  /** The pointers followed when dialog `d` is dropped lead to allocated objects. */
  predicate Droppable(w: Worker, d: nat) {
    SlotsLive(w, d) &&
    (w.dialogs[d].call.Some? ==> var c := w.dialogs[d].call.value; CallSlotsLive(w, c) && Once(w.calls[c].slots))
  }

  /** After the transaction is gone: drop its TERMINATED dialog, then that dialog's TERMINATED call. */
  function DropDialog(w: Worker, d: nat, o: Oracle): Worker
    requires Droppable(w, d)
  {
    var call := w.dialogs[d].call;
    var w := DeleteDialog(w, d, o);
    if call.None? || w.calls[call.value].state != CallTerminated then w
    else DeleteCall(w, call.value)
  }

  lemma LeftDroppable(w: Worker, t: nat, d: nat)
    requires Closed(w) && BackLinks(w) && CallLinks(w) && t in w.txns && w.txns[t].dialog == Some(d)
    ensures Droppable(DeleteTxn(w, t), d)
  {
    hide DeleteTxn;
  }

  /** Delete transaction `t`, and its dialog if that is TERMINATED. */
  function DeleteFound(w: Worker, t: nat, o: Oracle): Worker
    requires Closed(w) && BackLinks(w) && CallLinks(w) && t in w.txns
  {
    var link := w.txns[t].dialog;
    var v := DeleteTxn(w, t);
    if link.None? || v.dialogs[link.value].state != DialogTerminated then v
    else
      LeftDroppable(w, t, link.value);
      DropDialog(v, link.value, o)
  }

  /** delete_transaction: handle a delete event. */
  function DeleteTransaction(w: Worker, branch: Ident, o: Oracle): Worker
    requires Closed(w) && BackLinks(w) && CallLinks(w)
  {
    match FindTxnOf(w, branch)
    case None => w
    case Some(t) => DeleteFound(w, t, o)
  }
}
