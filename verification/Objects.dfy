/** The worker's records as C lays them out: objects linked by pointers, with slot arrays updated in place. */
module Objects {
  import opened SipTypes
  import opened WorkerModel
  import opened Messages

  class SipTransaction {
    const id: nat
    var next: SipTransaction?
    var dialog: SipDialog?
    var state: TxnState
    // The number of the worker whose queue it points to.
    var queue: Option<nat>
    var message: SipMessage?
    var ackMessage: SipMessage?
    const branch: Ident
    var finalResponseCode: nat

    constructor (id: nat, branch: Ident, next: SipTransaction?)
      ensures this.id == id && this.branch == branch && this.next == next
      ensures dialog == null && state == TxnIdle && queue == None && message == null && ackMessage == null && finalResponseCode == 0
    {
      this.id, this.branch, this.next := id, branch, next;
      dialog, state, queue, message, ackMessage, finalResponseCode := null, TxnIdle, None, null, null, 0;
    }

    /** This object holds what the record says. */
    ghost predicate Holds(x: Txn)
      reads this`state, this`finalResponseCode, this`dialog, this`queue, this`message, this`ackMessage
      reads (if message == null then {} else {message})`printed
    {
      && branch == x.branch && state == x.state && queue == x.queue && finalResponseCode == x.code
      && x.dialog == DialogId(dialog)
      && x.message == MessageView(message) && x.ack == MessageView(ackMessage)
      && x.response == (if message == null then Empty else message.printed)
    }
  }

  class SipDialog {
    const id: nat
    var next: SipDialog?
    const transaction: array<SipTransaction?>
    var call: SipCall?
    var state: DialogState
    const fromTag: Ident
    const toTag: string

    constructor (id: nat, fromTag: Ident, toTag: string, next: SipDialog?)
      ensures this.id == id && this.fromTag == fromTag && this.toTag == toTag && this.next == next
      ensures call == null && state == DialogIdle
      ensures fresh(transaction) && SlotsHold(EmptySlots(TXN_SLOTS))
      ensures forall i :: 0 <= i < transaction.Length ==> transaction[i] == null
    {
      this.id, this.fromTag, this.toTag, this.next := id, fromTag, toTag, next;
      call, state := null, DialogIdle;
      transaction := new SipTransaction?[TXN_SLOTS](_ => null);
    }

    /** The slot array holds these transactions. */
    ghost predicate SlotsHold(slots: seq<Option<nat>>)
      reads transaction
    {
      && |slots| == transaction.Length == TXN_SLOTS
      && forall i :: 0 <= i < TXN_SLOTS ==> slots[i] == TxnId(transaction[i])
    }

    ghost predicate Holds(x: Dialog)
      reads this`state, this`call, transaction
    {
      && state == x.state && fromTag == x.fromTag && toTag == x.toTag
      && x.call == CallId(call)
      && SlotsHold(x.slots)
    }

    /** The addresses in the slots tell `t` apart. */
    ghost predicate Knows(t: SipTransaction)
      reads transaction
    {
      forall i :: 0 <= i < transaction.Length && transaction[i] != null && transaction[i].id == t.id ==> transaction[i] == t
    }

    /** add_transaction_to_dialog */
    method AddTransaction(t: SipTransaction, ghost slots: seq<Option<nat>>)
      requires SlotsHold(slots) && Knows(t)
      modifies transaction
      ensures SlotsHold(AddSlot(slots, t.id))
      ensures forall i :: 0 <= i < transaction.Length ==> transaction[i] == old(transaction[i]) || transaction[i] == t
    {
      var reserved := -1;
      for i := 0 to transaction.Length
        invariant -1 <= reserved < i
        invariant reserved == -1 <==> None !in slots[..i]
        invariant reserved != -1 ==> slots[reserved] == None && None !in slots[..reserved]
        invariant Some(t.id) !in slots[..i]
        invariant SlotsHold(slots)
        invariant forall j :: 0 <= j < transaction.Length ==> transaction[j] == old(transaction[j])
      {
        if reserved == -1 && transaction[i] == null {
          reserved := i;
        }
        if transaction[i] == t {
          assert slots[i] == Some(t.id);
          return;
        }
      }
      assert slots[..transaction.Length] == slots;
      if reserved != -1 {
        FirstIndex(slots, None, reserved);
        transaction[reserved] := t;
      }
    }

    /** remove_transaction_from_dialog */
    method RemoveTransaction(t: SipTransaction, ghost slots: seq<Option<nat>>)
      requires SlotsHold(slots) && Knows(t)
      modifies transaction
      ensures SlotsHold(RemoveSlot(slots, t.id))
      ensures forall i :: 0 <= i < transaction.Length ==> transaction[i] == old(transaction[i]) || transaction[i] == null
    {
      for i := 0 to transaction.Length
        invariant Some(t.id) !in slots[..i]
        invariant SlotsHold(slots)
        invariant forall j :: 0 <= j < transaction.Length ==> transaction[j] == old(transaction[j])
      {
        if transaction[i] == t {
          FirstIndex(slots, Some(t.id), i);
          transaction[i] := null;
          return;
        }
      }
      assert slots[..transaction.Length] == slots;
    }
  }

  class SipCall {
    const id: nat
    var next: SipCall?
    const dialog: array<SipDialog?>
    var state: CallState
    const callId: Ident

    constructor (id: nat, callId: Ident, next: SipCall?)
      ensures this.id == id && this.callId == callId && this.next == next && state == CallIdle
      ensures fresh(dialog) && SlotsHold(EmptySlots(CALL_SLOTS))
      ensures forall i :: 0 <= i < dialog.Length ==> dialog[i] == null
    {
      this.id, this.callId, this.next := id, callId, next;
      state := CallIdle;
      dialog := new SipDialog?[CALL_SLOTS](_ => null);
    }

    ghost predicate SlotsHold(slots: seq<Option<nat>>)
      reads dialog
    {
      && |slots| == dialog.Length == CALL_SLOTS
      && forall i :: 0 <= i < CALL_SLOTS ==> slots[i] == DialogId(dialog[i])
    }

    ghost predicate Holds(x: Call)
      reads this`state, dialog
    {
      state == x.state && callId == x.callId && SlotsHold(x.slots)
    }

    ghost predicate Knows(d: SipDialog)
      reads dialog
    {
      forall i :: 0 <= i < dialog.Length && dialog[i] != null && dialog[i].id == d.id ==> dialog[i] == d
    }

    /** add_dialog_to_call */
    method AddDialog(d: SipDialog, ghost slots: seq<Option<nat>>)
      requires SlotsHold(slots) && Knows(d)
      modifies dialog
      ensures SlotsHold(AddSlot(slots, d.id))
      ensures forall i :: 0 <= i < dialog.Length ==> dialog[i] == old(dialog[i]) || dialog[i] == d
    {
      var reserved := -1;
      for i := 0 to dialog.Length
        invariant -1 <= reserved < i
        invariant reserved == -1 <==> None !in slots[..i]
        invariant reserved != -1 ==> slots[reserved] == None && None !in slots[..reserved]
        invariant Some(d.id) !in slots[..i]
        invariant SlotsHold(slots)
        invariant forall j :: 0 <= j < dialog.Length ==> dialog[j] == old(dialog[j])
      {
        if reserved == -1 && dialog[i] == null {
          reserved := i;
        }
        if dialog[i] == d {
          assert slots[i] == Some(d.id);
          return;
        }
      }
      assert slots[..dialog.Length] == slots;
      if reserved != -1 {
        FirstIndex(slots, None, reserved);
        dialog[reserved] := d;
      }
    }

    /** remove_dialog_from_call */
    method RemoveDialog(d: SipDialog, ghost slots: seq<Option<nat>>)
      requires SlotsHold(slots) && Knows(d)
      modifies dialog
      ensures SlotsHold(RemoveSlot(slots, d.id))
      ensures forall i :: 0 <= i < dialog.Length ==> dialog[i] == old(dialog[i]) || dialog[i] == null
    {
      for i := 0 to dialog.Length
        invariant Some(d.id) !in slots[..i]
        invariant SlotsHold(slots)
        invariant forall j :: 0 <= j < dialog.Length ==> dialog[j] == old(dialog[j])
      {
        if dialog[i] == d {
          FirstIndex(slots, Some(d.id), i);
          dialog[i] := null;
          return;
        }
      }
      assert slots[..dialog.Length] == slots;
    }
  }

  /** A message as the model sees it: its address, its sender and what its text parses to. */
  ghost function MessageView(m: SipMessage?): Option<Message> {
    if m == null || m.parsed.None? then None else Some(Message(m.id, m.addr, m.parsed.value))
  }

  // ---------- linked lists ----------

  lemma UnlinkIs(order: seq<nat>, i: nat)
    requires Distinct(order) && i < |order|
    ensures Unlink(order, order[i]) == order[..i] + order[i + 1..] && Distinct(order[..i] + order[i + 1..])
  {
    FirstIndex(order, order[i], i);
    var r := order[..i] + order[i + 1..];
    assert forall j :: 0 <= j < |r| ==> r[j] == order[if j < i then j else j + 1];
  }

  ghost function TxnId(p: SipTransaction?): Option<nat> {
    if p == null then None else Some(p.id)
  }

  ghost function DialogId(p: SipDialog?): Option<nat> {
    if p == null then None else Some(p.id)
  }

  ghost function CallId(p: SipCall?): Option<nat> {
    if p == null then None else Some(p.id)
  }
}
