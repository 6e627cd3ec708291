/** The list of calls, by its head pointer. */
module CallLists {
  import opened SipTypes
  import opened WorkerModel
  import opened Objects

  ghost predicate Ordered(nodes: seq<SipCall>, order: seq<nat>) {
    |nodes| == |order| && Distinct(order) && forall i :: 0 <= i < |nodes| ==> nodes[i].id == order[i]
  }

  ghost predicate Chained(head: SipCall?, nodes: seq<SipCall>)
    reads nodes`next
  {
    && head == (if nodes == [] then null else nodes[0])
    && (forall i :: 0 <= i < |nodes| - 1 ==> nodes[i].next == nodes[i + 1])
    && (nodes != [] ==> nodes[|nodes| - 1].next == null)
  }

  lemma OrderedCons(c: SipCall, nodes: seq<SipCall>, order: seq<nat>)
    requires Ordered(nodes, order) && c.id !in order
    ensures Ordered([c] + nodes, [c.id] + order)
  {
  }

  lemma ChainedCons(c: SipCall, head: SipCall?, nodes: seq<SipCall>)
    requires Chained(head, nodes) && c.next == head
    ensures Chained(c, [c] + nodes)
  {
  }

  lemma NotListed(c: SipCall, nodes: seq<SipCall>, order: seq<nat>)
    requires Ordered(nodes, order) && c.id !in order
    ensures c !in nodes
  {
    assert forall i :: 0 <= i < |nodes| ==> order[i] in order;
  }

  lemma OrderedUnlink(nodes: seq<SipCall>, order: seq<nat>, i: nat)
    requires Ordered(nodes, order) && i < |nodes|
    ensures Ordered(nodes[..i] + nodes[i + 1..], order[..i] + order[i + 1..])
    ensures order[i] !in order[..i] + order[i + 1..]
    ensures WorkerModel.Unlink(order, order[i]) == order[..i] + order[i + 1..]
  {
    UnlinkIs(order, i);
  }

  /** An empty slot array. */
  ghost function NoDialogs(): (r: seq<SipDialog?>)
    ensures |r| == CALL_SLOTS && forall i :: 0 <= i < CALL_SLOTS ==> r[i] == null
  {
    seq(CALL_SLOTS, i => null)
  }

  /** The table leads from each address to the object there. */
  ghost predicate Registered(objects: set<SipCall>, at: map<nat, SipCall>) {
    && (forall id :: id in at ==> at[id] in objects && at[id].id == id)
    && (forall c :: c in objects ==> c.id in at && at[c.id] == c)
  }

  lemma RegisteredMore(objects: set<SipCall>, at: map<nat, SipCall>, c: SipCall)
    requires Registered(objects, at) && c.id !in at
    ensures Registered(objects + {c}, at[c.id := c])
  {
  }

  lemma RegisteredLess(objects: set<SipCall>, at: map<nat, SipCall>, c: SipCall)
    requires Registered(objects, at) && c in objects
    ensures Registered(objects - {c}, at - {c.id})
  {
  }

  class CallList {
    var head: SipCall?

    // The allocated calls by address, whose the slot arrays are, what the calls hold,
    // where their slots point, and the list.
    ghost var objects: set<SipCall>
    ghost var at: map<nat, SipCall>
    ghost var owner: map<array<SipDialog?>, SipCall>
    ghost var records: map<nat, Call>
    ghost var slots: map<nat, seq<SipDialog?>>
    ghost var nodes: seq<SipCall>
    ghost var order: seq<nat>
    ghost var Repr: set<object>

    ghost predicate Valid()
      reads this, Repr
      ensures Valid() ==> this in Repr
    {
      && this in Repr
      && (forall c :: c in objects ==> c in Repr && c.dialog in Repr && Tied(c))
      && (forall i :: 0 <= i < |nodes| ==> nodes[i] in objects)
      && Ordered(nodes, order) && Chained(head, nodes)
    }

    /** `c` is recorded at its address, owns its slot array and holds its record. */
    ghost predicate Tied(c: SipCall)
      reads this`at, this`owner, this`records, this`slots, c`state, c.dialog
    {
      && c.id in at && at[c.id] == c && c.dialog in owner && owner[c.dialog] == c
      && c.id in records && c.Holds(records[c.id])
      && c.id in slots && slots[c.id] == c.dialog[..]
    }

    /** The tables hold the allocated calls and nothing else. */
    ghost predicate Tables()
      reads this
    {
      && records.Keys == at.Keys && slots.Keys == at.Keys
      && Registered(objects, at)
    }

    lemma Known(c: SipCall)
      requires Valid() && c in objects
      ensures c.id in at && at[c.id] == c && c.id in records && c.Holds(records[c.id])
      ensures c.id in slots && slots[c.id] == c.dialog[..]
    {
    }

    lemma KnowsAll(c: SipCall, d: SipDialog)
      requires Valid() && c in objects && c.id in slots
      requires forall p :: p in slots[c.id] && p != null && p.id == d.id ==> p == d
      ensures c.Knows(d)
    {
      assert forall i :: 0 <= i < c.dialog.Length ==> c.dialog[i] == slots[c.id][i];
    }

    constructor ()
      ensures Valid() && Tables() && fresh(Repr) && objects == {} && at == map[]
      ensures records == map[] && slots == map[] && order == []
    {
      head := null;
      objects, at, owner, records, slots, nodes, order := {}, map[], map[], map[], map[], [], [];
      Repr := {this};
    }

    /** set_call_state */
    method SetState(c: SipCall, s: CallState)
      requires Valid() && c in objects
      modifies Repr
      ensures Valid() && Repr == old(Repr) && objects == old(objects) && order == old(order)
      ensures at == old(at) && slots == old(slots)
      ensures records == old(records)[c.id := old(records)[c.id].(state := s)]
    {
      hide Ordered, Chained, DialogId, SipCall.SlotsHold;
      c.state := s;
      records := records[c.id := records[c.id].(state := s)];
      forall u | u in objects ensures Tied(u) { assert u == c || u.id != c.id; }
    }

    /** add_dialog_to_call, in a call whose slots tell `d` apart. */
    method AddDialog(c: SipCall, d: SipDialog)
      requires Valid() && c in objects && c.Knows(d)
      modifies Repr
      ensures Valid() && Repr == old(Repr) && objects == old(objects) && order == old(order)
      ensures at == old(at) && c.id in slots && slots == old(slots)[c.id := slots[c.id]]
      ensures forall p :: p in slots[c.id] ==> p in old(slots)[c.id] || p == d
      ensures records == old(records)[c.id := old(records)[c.id].(slots := AddSlot(old(records)[c.id].slots, d.id))]
    {
      hide Ordered, Chained, AddSlot, SipCall.Knows, DialogId, SipCall.SlotsHold;
      ghost var was := records[c.id].slots;
      c.AddDialog(d, was);
      slots := slots[c.id := c.dialog[..]];
      records := records[c.id := records[c.id].(slots := AddSlot(was, d.id))];
      forall u | u in objects ensures Tied(u) { assert u == c || (u.id != c.id && u.dialog != c.dialog); }
    }

    /** remove_dialog_from_call */
    method RemoveDialog(c: SipCall, d: SipDialog)
      requires Valid() && c in objects && c.Knows(d)
      modifies Repr
      ensures Valid() && Repr == old(Repr) && objects == old(objects) && order == old(order)
      ensures at == old(at) && c.id in slots && slots == old(slots)[c.id := slots[c.id]]
      ensures forall p :: p in slots[c.id] ==> p in old(slots)[c.id] || p == null
      ensures records == old(records)[c.id := old(records)[c.id].(slots := RemoveSlot(old(records)[c.id].slots, d.id))]
    {
      hide Ordered, Chained, RemoveSlot, SipCall.Knows, DialogId, SipCall.SlotsHold;
      ghost var was := records[c.id].slots;
      c.RemoveDialog(d, was);
      slots := slots[c.id := c.dialog[..]];
      records := records[c.id := records[c.id].(slots := RemoveSlot(was, d.id))];
      forall u | u in objects ensures Tied(u) { assert u == c || (u.id != c.id && u.dialog != c.dialog); }
    }

    method ClearSlot(c: SipCall, i: nat)
      requires Valid() && c in objects && i < CALL_SLOTS
      modifies Repr
      ensures Valid() && Repr == old(Repr) && objects == old(objects) && order == old(order)
      ensures at == old(at)
      ensures c.id in old(slots) && |old(slots)[c.id]| == |old(records)[c.id].slots| == CALL_SLOTS
      ensures slots == old(slots)[c.id := old(slots)[c.id][i := null]]
      ensures records == old(records)[c.id := old(records)[c.id].(slots := old(records)[c.id].slots[i := None])]
    {
      hide Ordered, Chained;
      c.dialog[i] := null;
      slots := slots[c.id := slots[c.id][i := null]];
      records := records[c.id := records[c.id].(slots := records[c.id].slots[i := None])];
      forall u | u in objects ensures Tied(u) { assert u == c || (u.id != c.id && u.dialog != c.dialog); }
    }

    /** create_new_call: a new head. */
    method Create(id: nat, callId: string) returns (c: SipCall)
      requires Valid() && Tables() && id !in records && id !in order
      modifies Repr
      ensures Valid() && Tables() && Repr == old(Repr) + {c, c.dialog} && c in objects && c.id == id && fresh(c)
      ensures fresh(c.dialog)
      ensures objects == old(objects) + {c} && at == old(at)[id := c] && order == [id] + old(order)
      ensures slots == old(slots)[id := NoDialogs()]
      ensures records == old(records)[id := Call(EmptySlots(CALL_SLOTS), CallIdle, StoredCallId(callId))]
    {
      hide Valid, Registered;
      c := Make(id, callId);
      RegisteredMore(old(objects), old(at), c);
    }

    /** The same, for the list without its tables. */
    method Make(id: nat, callId: string) returns (c: SipCall)
      requires Valid() && id !in records && id !in order
      modifies Repr
      ensures Valid() && Repr == old(Repr) + {c, c.dialog} && c in objects && c.id == id && fresh(c) && fresh(c.dialog)
      ensures objects == old(objects) + {c} && at == old(at)[id := c] && order == [id] + old(order)
      ensures slots == old(slots)[id := NoDialogs()]
      ensures records == old(records)[id := Call(EmptySlots(CALL_SLOTS), CallIdle, StoredCallId(callId))]
    {
      c := new SipCall(id, StoredCallId(callId), head);
      assert c.dialog[..] == NoDialogs();
      Take(c, Call(EmptySlots(CALL_SLOTS), CallIdle, StoredCallId(callId)));
      LinkFirst(c);
    }

    /** A new call, in no list yet. */
    ghost method Take(c: SipCall, x: Call)
      requires Valid() && c !in Repr && c.dialog !in Repr && c.id !in records
      requires c.Holds(x) && c.dialog[..] == NoDialogs()
      modifies this
      ensures Valid() && Repr == old(Repr) + {c, c.dialog} && objects == old(objects) + {c} && at == old(at)[c.id := c]
      ensures head == old(head) && nodes == old(nodes) && order == old(order)
      ensures slots == old(slots)[c.id := NoDialogs()] && records == old(records)[c.id := x]
    {
      hide SipCall.Holds, Chained, Ordered, NoDialogs;
      Claim(c);
      Record(c, x);
      Admit(c);
    }

    /** The slot array of a new call is its own. */
    ghost method Claim(c: SipCall)
      requires Valid() && c.dialog !in Repr
      modifies this`owner
      ensures Valid() && owner == old(owner)[c.dialog := c]
    {
      hide SipCall.Holds, Chained, Ordered;
      owner := owner[c.dialog := c];
      forall u | u in objects ensures Tied(u) { assert u.dialog != c.dialog; }
    }

    /** Record a new call at its address. */
    ghost method Record(c: SipCall, x: Call)
      requires Valid() && c.id !in records
      modifies this`at, this`slots, this`records
      ensures Valid() && at == old(at)[c.id := c]
      ensures slots == old(slots)[c.id := NoDialogs()] && records == old(records)[c.id := x]
    {
      hide SipCall.Holds, Chained, Ordered, NoDialogs;
      at, slots := at[c.id := c], slots[c.id := NoDialogs()];
      records := records[c.id := x];
      forall u | u in objects ensures Tied(u) { assert u.id != c.id; }
    }

    /** The recorded call is part of this list's memory, in no list yet. */
    ghost method Admit(c: SipCall)
      requires Valid() && Tied(c)
      modifies this`objects, this`Repr
      ensures Valid() && Repr == old(Repr) + {c, c.dialog} && objects == old(objects) + {c}
    {
      hide SipCall.Holds, Chained, Ordered;
      objects, Repr := objects + {c}, Repr + {c, c.dialog};
    }

    /** The call becomes the head. */
    method LinkFirst(c: SipCall)
      requires Valid() && c in objects && c.id !in order && c.next == head
      modifies this`head, this`nodes, this`order
      ensures Valid() && order == [c.id] + old(order)
    {
      hide Tied, Chained, Ordered;
      OrderedCons(c, nodes, order);
      ChainedCons(c, head, nodes);
      head := c;
      nodes := [c] + nodes;
      order := [c.id] + order;
    }

    /** delete_call_by_pointer, up to the cleanup: unlink `c` if it is in the list. */
    method Unlink(c: SipCall) returns (found: bool)
      requires Valid() && c in objects
      modifies Repr
      ensures Valid() && Repr == old(Repr) && objects == old(objects) && records == old(records)
      ensures at == old(at) && slots == old(slots)
      ensures found == (c.id in old(order)) && c.id !in order
      ensures order == if found then WorkerModel.Unlink(old(order), c.id) else old(order)
    {
      var current := head;
      var previous: SipCall? := null;
      ghost var i := 0;
      while current != null
        invariant i <= |nodes| && current == (if i < |nodes| then nodes[i] else null)
        invariant previous == if i == 0 then null else nodes[i - 1]
        invariant c.id !in order[..i]
        decreases |nodes| - i
      {
        if current == c {
          UnlinkAfter(previous, current, i);
          return true;
        }
        previous := current;
        current := current.next;
        i := i + 1;
      }
      assert order[..i] == order;
      return false;
    }

    /** Bypass the node at position `i`. */
    method Bypass(previous: SipCall?, c: SipCall, ghost i: nat)
      requires Ordered(nodes, order) && Chained(head, nodes)
      requires i < |nodes| && c == nodes[i] && previous == if i == 0 then null else nodes[i - 1]
      modifies this`head, nodes`next
      ensures Chained(head, nodes[..i] + nodes[i + 1..])
    {
      ghost var rest := nodes[..i] + nodes[i + 1..];
      if previous == null {
        head := c.next;
      } else {
        previous.next := c.next;
      }
      forall j | 0 <= j < |rest| - 1 ensures rest[j].next == rest[j + 1] {
        assert rest[j] == nodes[if j < i then j else j + 1];
        assert rest[j + 1] == nodes[if j + 1 < i then j + 1 else j + 2];
      }
    }

    method UnlinkAfter(previous: SipCall?, c: SipCall, ghost i: nat)
      requires Valid() && i < |nodes| && c == nodes[i] && previous == if i == 0 then null else nodes[i - 1]
      modifies Repr
      ensures Valid() && Repr == old(Repr) && objects == old(objects) && records == old(records)
      ensures at == old(at) && slots == old(slots)
      ensures c.id in old(order) && order == WorkerModel.Unlink(old(order), c.id) && c.id !in order
    {
      hide Tied, Distinct, Chained;
      ghost var were := nodes;
      OrderedUnlink(nodes, order, i);
      Bypass(previous, c, i);
      nodes := were[..i] + were[i + 1..];
      order := order[..i] + order[i + 1..];
    }

    /** free, once `c` is in no list. */
    ghost method Release(c: SipCall)
      requires Valid() && c in objects && c.id !in order
      modifies this
      ensures Valid() && Repr == old(Repr) && objects == old(objects) - {c} && order == old(order)
      ensures at == old(at) - {c.id} && slots == old(slots) - {c.id} && records == old(records) - {c.id}
    {
      hide Valid;
      OwnAddress(c);
      Withdraw(c);
      Forget(c.id);
    }

    lemma OwnAddress(c: SipCall)
      requires Valid() && c in objects
      ensures forall u :: u in objects && u != c ==> u.id != c.id
    {
    }

    /** The object is no longer among the allocated ones. */
    ghost method Withdraw(c: SipCall)
      requires Valid() && c.id !in order
      modifies this`objects
      ensures Valid() && objects == old(objects) - {c}
    {
      NotListed(c, nodes, order);
      hide SipCall.Holds, Chained, Ordered;
      objects := objects - {c};
    }

    /** Nothing is recorded at its address any more. */
    ghost method Forget(id: nat)
      requires Valid() && forall u :: u in objects ==> u.id != id
      modifies this`at, this`slots, this`records
      ensures Valid() && at == old(at) - {id} && slots == old(slots) - {id} && records == old(records) - {id}
    {
      hide SipCall.Holds, Chained, Ordered;
      at, slots, records := at - {id}, slots - {id}, records - {id};
      forall u | u in objects ensures Tied(u) { assert u.id != id; }
    }
  }
}
