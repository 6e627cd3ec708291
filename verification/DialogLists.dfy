/** The list of dialogs, by its head pointer. */
module DialogLists {
  import opened SipTypes
  import opened WorkerModel
  import opened Objects

  ghost predicate Ordered(nodes: seq<SipDialog>, order: seq<nat>) {
    |nodes| == |order| && Distinct(order) && forall i :: 0 <= i < |nodes| ==> nodes[i].id == order[i]
  }

  ghost predicate Chained(head: SipDialog?, nodes: seq<SipDialog>)
    reads nodes`next
  {
    && head == (if nodes == [] then null else nodes[0])
    && (forall i :: 0 <= i < |nodes| - 1 ==> nodes[i].next == nodes[i + 1])
    && (nodes != [] ==> nodes[|nodes| - 1].next == null)
  }

  lemma OrderedCons(d: SipDialog, nodes: seq<SipDialog>, order: seq<nat>)
    requires Ordered(nodes, order) && d.id !in order
    ensures Ordered([d] + nodes, [d.id] + order)
  {
  }

  lemma ChainedCons(d: SipDialog, head: SipDialog?, nodes: seq<SipDialog>)
    requires Chained(head, nodes) && d.next == head
    ensures Chained(d, [d] + nodes)
  {
  }

  lemma NotListed(d: SipDialog, nodes: seq<SipDialog>, order: seq<nat>)
    requires Ordered(nodes, order) && d.id !in order
    ensures d !in nodes
  {
    assert forall i :: 0 <= i < |nodes| ==> order[i] in order;
  }

  lemma OrderedUnlink(nodes: seq<SipDialog>, order: seq<nat>, i: nat)
    requires Ordered(nodes, order) && i < |nodes|
    ensures Ordered(nodes[..i] + nodes[i + 1..], order[..i] + order[i + 1..])
    ensures order[i] !in order[..i] + order[i + 1..]
    ensures WorkerModel.Unlink(order, order[i]) == order[..i] + order[i + 1..]
  {
    UnlinkIs(order, i);
  }

  /** An empty slot array. */
  ghost function NoTransactions(): (r: seq<SipTransaction?>)
    ensures |r| == TXN_SLOTS && forall i :: 0 <= i < TXN_SLOTS ==> r[i] == null
  {
    seq(TXN_SLOTS, i => null)
  }

  /** The table leads from each address to the object there. */
  ghost predicate Registered(objects: set<SipDialog>, at: map<nat, SipDialog>) {
    && (forall id :: id in at ==> at[id] in objects && at[id].id == id)
    && (forall d :: d in objects ==> d.id in at && at[d.id] == d)
  }

  lemma RegisteredMore(objects: set<SipDialog>, at: map<nat, SipDialog>, d: SipDialog)
    requires Registered(objects, at) && d.id !in at
    ensures Registered(objects + {d}, at[d.id := d])
  {
  }

  lemma RegisteredLess(objects: set<SipDialog>, at: map<nat, SipDialog>, d: SipDialog)
    requires Registered(objects, at) && d in objects
    ensures Registered(objects - {d}, at - {d.id})
  {
  }

  /** The search from position `i` on. */
  lemma FindDialogFrom(order: seq<nat>, dialogs: map<nat, Dialog>, i: nat, fromTag: Ident, toTag: Option<Ident>)
    requires i <= |order|
    ensures i == 0 ==> order[i..] == order
    ensures var r := FindDialog(order[i..], dialogs, fromTag, toTag);
            r == if i == |order| || fromTag.length == 0 then None
                 else if order[i] in dialogs && DialogMatches(dialogs[order[i]], fromTag, toTag) then Some(order[i])
                 else FindDialog(order[i + 1..], dialogs, fromTag, toTag)
  {
    hide DialogMatches;
    if i < |order| { assert order[i..][1..] == order[i + 1..]; }
  }

  class DialogList {
    var head: SipDialog?

    // The allocated dialogs by address, whose the slot arrays are, what the dialogs hold,
    // where their `call` and their slots point, and the list.
    ghost var objects: set<SipDialog>
    ghost var at: map<nat, SipDialog>
    ghost var owner: map<array<SipTransaction?>, SipDialog>
    ghost var records: map<nat, Dialog>
    ghost var links: map<nat, SipCall?>
    ghost var slots: map<nat, seq<SipTransaction?>>
    ghost var nodes: seq<SipDialog>
    ghost var order: seq<nat>
    ghost var Repr: set<object>

    ghost predicate Valid()
      reads this, Repr
      ensures Valid() ==> this in Repr
    {
      && this in Repr
      && (forall d :: d in objects ==> d in Repr && d.transaction in Repr && Tied(d))
      && (forall i :: 0 <= i < |nodes| ==> nodes[i] in objects)
      && Ordered(nodes, order) && Chained(head, nodes)
    }

    /** `d` is recorded at its address, owns its slot array and holds its record. */
    ghost predicate Tied(d: SipDialog)
      reads this`at, this`owner, this`records, this`links, this`slots, d`state, d`call, d.transaction
    {
      && d.id in at && at[d.id] == d && d.transaction in owner && owner[d.transaction] == d
      && d.id in records && d.Holds(records[d.id])
      && d.id in links && links[d.id] == d.call && d.id in slots && slots[d.id] == d.transaction[..]
    }

    /** The tables hold the allocated dialogs and nothing else. */
    ghost predicate Tables()
      reads this
    {
      && records.Keys == at.Keys && links.Keys == at.Keys && slots.Keys == at.Keys
      && Registered(objects, at)
    }

    lemma Known(d: SipDialog)
      requires Valid() && d in objects
      ensures d.id in at && at[d.id] == d && d.id in records && d.Holds(records[d.id])
      ensures d.id in links && links[d.id] == d.call && d.id in slots && slots[d.id] == d.transaction[..]
    {
    }

    lemma KnowsAll(d: SipDialog, t: SipTransaction)
      requires Valid() && d in objects && d.id in slots
      requires forall p :: p in slots[d.id] && p != null && p.id == t.id ==> p == t
      ensures d.Knows(t)
    {
      assert forall i :: 0 <= i < d.transaction.Length ==> d.transaction[i] == slots[d.id][i];
    }

    constructor ()
      ensures Valid() && Tables() && fresh(Repr) && objects == {} && at == map[]
      ensures records == map[] && links == map[] && slots == map[] && order == []
    {
      head := null;
      objects, at, owner, records, links, slots, nodes, order := {}, map[], map[], map[], map[], map[], [], [];
      Repr := {this};
    }

    /** set_dialog_state */
    method SetState(d: SipDialog, s: DialogState)
      requires Valid() && d in objects
      modifies Repr
      ensures Valid() && Repr == old(Repr) && objects == old(objects) && order == old(order)
      ensures at == old(at) && links == old(links) && slots == old(slots)
      ensures records == old(records)[d.id := old(records)[d.id].(state := s)]
    {
      hide Ordered, Chained, Objects.CallId, TxnId, SipDialog.SlotsHold;
      d.state := s;
      records := records[d.id := records[d.id].(state := s)];
      forall u | u in objects ensures Tied(u) { assert u == d || u.id != d.id; }
    }

    method SetCall(d: SipDialog, c: SipCall?)
      requires Valid() && d in objects
      modifies Repr
      ensures Valid() && Repr == old(Repr) && objects == old(objects) && order == old(order)
      ensures at == old(at) && links == old(links)[d.id := c] && slots == old(slots)
      ensures records == old(records)[d.id := old(records)[d.id].(call := CallId(c))]
    {
      hide Ordered, Chained, Objects.CallId, TxnId, SipDialog.SlotsHold;
      d.call := c;
      links := links[d.id := c];
      records := records[d.id := records[d.id].(call := CallId(c))];
      forall u | u in objects ensures Tied(u) { assert u == d || u.id != d.id; }
    }

    /** add_transaction_to_dialog, in a dialog whose slots tell `t` apart. */
    method AddTransaction(d: SipDialog, t: SipTransaction)
      requires Valid() && d in objects && d.Knows(t)
      modifies Repr
      ensures Valid() && Repr == old(Repr) && objects == old(objects) && order == old(order)
      ensures at == old(at) && links == old(links) && d.id in slots && slots == old(slots)[d.id := slots[d.id]]
      ensures forall p :: p in slots[d.id] ==> p in old(slots)[d.id] || p == t
      ensures records == old(records)[d.id := old(records)[d.id].(slots := AddSlot(old(records)[d.id].slots, t.id))]
    {
      hide Ordered, Chained, AddSlot, SipDialog.Knows, Objects.CallId, TxnId, SipDialog.SlotsHold;
      ghost var was := records[d.id].slots;
      d.AddTransaction(t, was);
      slots := slots[d.id := d.transaction[..]];
      records := records[d.id := records[d.id].(slots := AddSlot(was, t.id))];
      forall u | u in objects ensures Tied(u) { assert u == d || (u.id != d.id && u.transaction != d.transaction); }
    }

    /** remove_transaction_from_dialog */
    method RemoveTransaction(d: SipDialog, t: SipTransaction)
      requires Valid() && d in objects && d.Knows(t)
      modifies Repr
      ensures Valid() && Repr == old(Repr) && objects == old(objects) && order == old(order)
      ensures at == old(at) && links == old(links) && d.id in slots && slots == old(slots)[d.id := slots[d.id]]
      ensures forall p :: p in slots[d.id] ==> p in old(slots)[d.id] || p == null
      ensures records == old(records)[d.id := old(records)[d.id].(slots := RemoveSlot(old(records)[d.id].slots, t.id))]
    {
      hide Ordered, Chained, RemoveSlot, SipDialog.Knows, Objects.CallId, TxnId, SipDialog.SlotsHold;
      ghost var was := records[d.id].slots;
      d.RemoveTransaction(t, was);
      slots := slots[d.id := d.transaction[..]];
      records := records[d.id := records[d.id].(slots := RemoveSlot(was, t.id))];
      forall u | u in objects ensures Tied(u) { assert u == d || (u.id != d.id && u.transaction != d.transaction); }
    }

    method ClearSlot(d: SipDialog, i: nat)
      requires Valid() && d in objects && i < TXN_SLOTS
      modifies Repr
      ensures Valid() && Repr == old(Repr) && objects == old(objects) && order == old(order)
      ensures at == old(at) && links == old(links)
      ensures d.id in old(slots) && |old(slots)[d.id]| == |old(records)[d.id].slots| == TXN_SLOTS
      ensures slots == old(slots)[d.id := old(slots)[d.id][i := null]]
      ensures records == old(records)[d.id := old(records)[d.id].(slots := old(records)[d.id].slots[i := None])]
    {
      hide Ordered, Chained;
      d.transaction[i] := null;
      slots := slots[d.id := slots[d.id][i := null]];
      records := records[d.id := records[d.id].(slots := records[d.id].slots[i := None])];
      forall u | u in objects ensures Tied(u) { assert u == d || (u.id != d.id && u.transaction != d.transaction); }
    }

    /** create_new_dialog: a new head. */
    method Create(id: nat, fromTag: Ident, toTag: string) returns (d: SipDialog)
      requires Valid() && Tables() && id !in records && id !in order
      modifies Repr
      ensures Valid() && Tables() && Repr == old(Repr) + {d, d.transaction} && d in objects && d.id == id && fresh(d)
      ensures fresh(d.transaction)
      ensures objects == old(objects) + {d} && at == old(at)[id := d] && order == [id] + old(order)
      ensures links == old(links)[id := null] && slots == old(slots)[id := NoTransactions()]
      ensures records == old(records)[id :=
                Dialog(EmptySlots(TXN_SLOTS), None, DialogIdle, Cut(fromTag, MAX_ID_LENGTH), toTag)]
    {
      hide Valid, Registered;
      d := Make(id, fromTag, toTag);
      RegisteredMore(old(objects), old(at), d);
    }

    /** The same, for the list without its tables. */
    method Make(id: nat, fromTag: Ident, toTag: string) returns (d: SipDialog)
      requires Valid() && id !in records && id !in order
      modifies Repr
      ensures Valid() && Repr == old(Repr) + {d, d.transaction} && d in objects && d.id == id && fresh(d)
      ensures fresh(d.transaction)
      ensures objects == old(objects) + {d} && at == old(at)[id := d] && order == [id] + old(order)
      ensures links == old(links)[id := null] && slots == old(slots)[id := NoTransactions()]
      ensures records == old(records)[id :=
                Dialog(EmptySlots(TXN_SLOTS), None, DialogIdle, Cut(fromTag, MAX_ID_LENGTH), toTag)]
    {
      d := new SipDialog(id, Cut(fromTag, MAX_ID_LENGTH), toTag, head);
      assert d.transaction[..] == NoTransactions();
      Take(d, Dialog(EmptySlots(TXN_SLOTS), None, DialogIdle, Cut(fromTag, MAX_ID_LENGTH), toTag));
      LinkFirst(d);
    }

    /** A new dialog, in no list yet. */
    ghost method Take(d: SipDialog, x: Dialog)
      requires Valid() && d !in Repr && d.transaction !in Repr && d.id !in records
      requires d.Holds(x) && d.call == null && d.transaction[..] == NoTransactions()
      modifies this
      ensures Valid() && Repr == old(Repr) + {d, d.transaction} && objects == old(objects) + {d}
      ensures at == old(at)[d.id := d]
      ensures head == old(head) && nodes == old(nodes) && order == old(order)
      ensures links == old(links)[d.id := null] && slots == old(slots)[d.id := NoTransactions()]
      ensures records == old(records)[d.id := x]
    {
      hide SipDialog.Holds, Chained, Ordered, NoTransactions;
      Claim(d);
      Record(d, x);
      Admit(d);
    }

    /** The slot array of a new dialog is its own. */
    ghost method Claim(d: SipDialog)
      requires Valid() && d.transaction !in Repr
      modifies this`owner
      ensures Valid() && owner == old(owner)[d.transaction := d]
    {
      hide SipDialog.Holds, Chained, Ordered;
      owner := owner[d.transaction := d];
      forall u | u in objects ensures Tied(u) { assert u.transaction != d.transaction; }
    }

    /** Record a new dialog at its address. */
    ghost method Record(d: SipDialog, x: Dialog)
      requires Valid() && d.id !in records
      modifies this`at, this`links, this`slots, this`records
      ensures Valid() && at == old(at)[d.id := d] && links == old(links)[d.id := null]
      ensures slots == old(slots)[d.id := NoTransactions()] && records == old(records)[d.id := x]
    {
      hide SipDialog.Holds, Chained, Ordered, NoTransactions;
      at, links, slots := at[d.id := d], links[d.id := null], slots[d.id := NoTransactions()];
      records := records[d.id := x];
      forall u | u in objects ensures Tied(u) { assert u.id != d.id; }
    }

    /** The recorded dialog is part of this list's memory, in no list yet. */
    ghost method Admit(d: SipDialog)
      requires Valid() && Tied(d)
      modifies this`objects, this`Repr
      ensures Valid() && Repr == old(Repr) + {d, d.transaction} && objects == old(objects) + {d}
    {
      hide SipDialog.Holds, Chained, Ordered;
      objects, Repr := objects + {d}, Repr + {d, d.transaction};
    }

    /** The dialog becomes the head. */
    method LinkFirst(d: SipDialog)
      requires Valid() && d in objects && d.id !in order && d.next == head
      modifies this`head, this`nodes, this`order
      ensures Valid() && order == [d.id] + old(order)
    {
      hide Tied, Chained, Ordered;
      OrderedCons(d, nodes, order);
      ChainedCons(d, head, nodes);
      head := d;
      nodes := [d] + nodes;
      order := [d.id] + order;
    }

    /** The node at position `i` and the pointer behind it. */
    lemma NodeAt(i: nat)
      requires Valid() && i < |nodes|
      ensures |nodes| == |order| && nodes[i].id == order[i] && nodes[i] in objects
      ensures nodes[i].id in records && nodes[i].Holds(records[nodes[i].id])
      ensures nodes[i].next == if i + 1 < |nodes| then nodes[i + 1] else null
    {
    }

    /** find_dialog_by_id. A missing To tag is compared by its length, which is 0. */
    method Find(fromTag: Ident, toTag: Option<Ident>) returns (d: SipDialog?)
      requires Valid()
      ensures DialogId(d) == FindDialog(order, records, fromTag, toTag)
      ensures d != null ==> d in objects
    {
      d := null;
      assert head == (if nodes == [] then null else nodes[0]) && |nodes| == |order|;
      hide Valid, FindDialog;
      FindDialogFrom(order, records, 0, fromTag, toTag);
      if head == null || fromTag.length == 0 { return; }
      var current := head;
      ghost var i := 0;
      while current != null
        invariant i <= |nodes| && current == (if i < |nodes| then nodes[i] else null)
        invariant FindDialog(order, records, fromTag, toTag) == FindDialog(order[i..], records, fromTag, toTag)
        decreases |nodes| - i
      {
        NodeAt(i);
        FindDialogFrom(order, records, i, fromTag, toTag);
        if current.fromTag.length == fromTag.length && SameN(current.fromTag.text, fromTag.text, fromTag.length) {
          if toTag.Some? && |current.toTag| == toTag.value.length && SameN(current.toTag, toTag.value.text, toTag.value.length) {
            return current;
          }
        }
        current := current.next;
        i := i + 1;
      }
      FindDialogFrom(order, records, i, fromTag, toTag);
    }

    /** delete_dialog_by_pointer, up to the cleanup: unlink `d` if it is in the list. */
    method Unlink(d: SipDialog) returns (found: bool)
      requires Valid() && d in objects
      modifies Repr
      ensures Valid() && Repr == old(Repr) && objects == old(objects) && records == old(records)
      ensures at == old(at) && links == old(links) && slots == old(slots)
      ensures found == (d.id in old(order)) && d.id !in order
      ensures order == if found then WorkerModel.Unlink(old(order), d.id) else old(order)
    {
      var current := head;
      var previous: SipDialog? := null;
      ghost var i := 0;
      while current != null
        invariant i <= |nodes| && current == (if i < |nodes| then nodes[i] else null)
        invariant previous == if i == 0 then null else nodes[i - 1]
        invariant d.id !in order[..i]
        decreases |nodes| - i
      {
        if current == d {
          UnlinkAfter(previous, current, i);
          return true;
        }
        previous := current;
        current := current.next;
        i := i + 1;
      }
      assert order[..i] == order;
      return false;
    }

    /** Bypass the node at position `i`. */
    method Bypass(previous: SipDialog?, d: SipDialog, ghost i: nat)
      requires Ordered(nodes, order) && Chained(head, nodes)
      requires i < |nodes| && d == nodes[i] && previous == if i == 0 then null else nodes[i - 1]
      modifies this`head, nodes`next
      ensures Chained(head, nodes[..i] + nodes[i + 1..])
    {
      ghost var rest := nodes[..i] + nodes[i + 1..];
      if previous == null {
        head := d.next;
      } else {
        previous.next := d.next;
      }
      forall j | 0 <= j < |rest| - 1 ensures rest[j].next == rest[j + 1] {
        assert rest[j] == nodes[if j < i then j else j + 1];
        assert rest[j + 1] == nodes[if j + 1 < i then j + 1 else j + 2];
      }
    }

    method UnlinkAfter(previous: SipDialog?, d: SipDialog, ghost i: nat)
      requires Valid() && i < |nodes| && d == nodes[i] && previous == if i == 0 then null else nodes[i - 1]
      modifies Repr
      ensures Valid() && Repr == old(Repr) && objects == old(objects) && records == old(records)
      ensures at == old(at) && links == old(links) && slots == old(slots)
      ensures d.id in old(order) && order == WorkerModel.Unlink(old(order), d.id) && d.id !in order
    {
      hide Tied, Distinct, Chained;
      ghost var were := nodes;
      OrderedUnlink(nodes, order, i);
      Bypass(previous, d, i);
      nodes := were[..i] + were[i + 1..];
      order := order[..i] + order[i + 1..];
    }

    /** free, once `d` is in no list. */
    ghost method Release(d: SipDialog)
      requires Valid() && d in objects && d.id !in order
      modifies this
      ensures Valid() && Repr == old(Repr) && objects == old(objects) - {d} && order == old(order)
      ensures at == old(at) - {d.id} && links == old(links) - {d.id} && slots == old(slots) - {d.id}
      ensures records == old(records) - {d.id}
    {
      hide Valid;
      OwnAddress(d);
      Withdraw(d);
      Forget(d.id);
    }

    lemma OwnAddress(d: SipDialog)
      requires Valid() && d in objects
      ensures forall u :: u in objects && u != d ==> u.id != d.id
    {
    }

    /** The object is no longer among the allocated ones. */
    ghost method Withdraw(d: SipDialog)
      requires Valid() && d.id !in order
      modifies this`objects
      ensures Valid() && objects == old(objects) - {d}
    {
      NotListed(d, nodes, order);
      hide SipDialog.Holds, Chained, Ordered;
      objects := objects - {d};
    }

    /** Nothing is recorded at its address any more. */
    ghost method Forget(id: nat)
      requires Valid() && forall u :: u in objects ==> u.id != id
      modifies this`at, this`links, this`slots, this`records
      ensures Valid() && at == old(at) - {id} && links == old(links) - {id} && slots == old(slots) - {id}
      ensures records == old(records) - {id}
    {
      hide SipDialog.Holds, Chained, Ordered;
      at, links, slots, records := at - {id}, links - {id}, slots - {id}, records - {id};
      forall u | u in objects ensures Tied(u) { assert u.id != id; }
    }
  }
}
