/** The list of transactions, by its head pointer. */
module TransactionLists {
  import opened SipTypes
  import opened WorkerModel
  import opened Messages
  import opened Objects

  /** The addresses of the nodes, each once. */
  ghost predicate Ordered(nodes: seq<SipTransaction>, order: seq<nat>) {
    |nodes| == |order| && Distinct(order) && forall i :: 0 <= i < |nodes| ==> nodes[i].id == order[i]
  }

  /** The `next` pointers from the head spell out the nodes. */
  ghost predicate Chained(head: SipTransaction?, nodes: seq<SipTransaction>)
    reads nodes`next
  {
    && head == (if nodes == [] then null else nodes[0])
    && (forall i :: 0 <= i < |nodes| - 1 ==> nodes[i].next == nodes[i + 1])
    && (nodes != [] ==> nodes[|nodes| - 1].next == null)
  }

  lemma OrderedCons(t: SipTransaction, nodes: seq<SipTransaction>, order: seq<nat>)
    requires Ordered(nodes, order) && t.id !in order
    ensures Ordered([t] + nodes, [t.id] + order)
  {
  }

  lemma ChainedCons(t: SipTransaction, head: SipTransaction?, nodes: seq<SipTransaction>)
    requires Chained(head, nodes) && t.next == head
    ensures Chained(t, [t] + nodes)
  {
  }

  lemma NotListed(t: SipTransaction, nodes: seq<SipTransaction>, order: seq<nat>)
    requires Ordered(nodes, order) && t.id !in order
    ensures t !in nodes
  {
    assert forall i :: 0 <= i < |nodes| ==> order[i] in order;
  }

  lemma OrderedUnlink(nodes: seq<SipTransaction>, order: seq<nat>, i: nat)
    requires Ordered(nodes, order) && i < |nodes|
    ensures Ordered(nodes[..i] + nodes[i + 1..], order[..i] + order[i + 1..])
    ensures order[i] !in order[..i] + order[i + 1..]
    ensures WorkerModel.Unlink(order, order[i]) == order[..i] + order[i + 1..]
  {
    UnlinkIs(order, i);
  }

  /** The table leads from each address to the object there. */
  ghost predicate Registered(objects: set<SipTransaction>, at: map<nat, SipTransaction>) {
    && (forall id :: id in at ==> at[id] in objects && at[id].id == id)
    && (forall t :: t in objects ==> t.id in at && at[t.id] == t)
  }

  lemma RegisteredMore(objects: set<SipTransaction>, at: map<nat, SipTransaction>, t: SipTransaction)
    requires Registered(objects, at) && t.id !in at
    ensures Registered(objects + {t}, at[t.id := t])
  {
  }

  lemma RegisteredLess(objects: set<SipTransaction>, at: map<nat, SipTransaction>, t: SipTransaction)
    requires Registered(objects, at) && t in objects
    ensures Registered(objects - {t}, at - {t.id})
  {
  }

  /** The search from position `i` on. */
  lemma FindTxnFrom(order: seq<nat>, txns: map<nat, Txn>, i: nat, text: string, length: nat)
    requires i <= |order|
    ensures i == 0 ==> order[i..] == order
    ensures var r := FindTxn(order[i..], txns, text, length);
            r == if i == |order| || length == 0 then None
                 else if order[i] in txns && Matches(txns[order[i]].branch, text, length) then Some(order[i])
                 else FindTxn(order[i + 1..], txns, text, length)
  {
    hide Matches;
    if i < |order| { assert order[i..][1..] == order[i + 1..]; }
  }

  /** A transaction as it is created. */
  function NewTxn(branch: Ident): Txn {
    Txn(Cut(branch, MAX_ID_LENGTH), TxnIdle, None, None, None, None, Empty, 0)
  }

  class TransactionList {
    var head: SipTransaction?

    // The allocated transactions by address, whose the messages are, what the transactions hold,
    // where their `dialog` points, and the list.
    ghost var objects: set<SipTransaction>
    ghost var at: map<nat, SipTransaction>
    ghost var owner: map<SipMessage, SipTransaction>
    ghost var records: map<nat, Txn>
    ghost var links: map<nat, SipDialog?>
    ghost var nodes: seq<SipTransaction>
    ghost var order: seq<nat>
    ghost var Repr: set<object>

    ghost predicate Valid()
      reads this, Repr
      ensures Valid() ==> this in Repr
    {
      && this in Repr
      && (forall t :: t in objects ==> t in Repr && (t.message != null ==> t.message in Repr && t.message.Ready()) && Tied(t))
      && (forall i :: 0 <= i < |nodes| ==> nodes[i] in objects)
      && Ordered(nodes, order) && Chained(head, nodes)
    }

    /** `t` is recorded at its address, owns its message and holds its record. */
    ghost predicate Tied(t: SipTransaction)
      reads this`at, this`owner, this`records, this`links
      reads t`state, t`finalResponseCode, t`dialog, t`queue, t`message, t`ackMessage
      reads (if t.message == null then {} else {t.message})`printed
    {
      && t.id in at && at[t.id] == t && (t.message != null ==> t.message in owner && owner[t.message] == t)
      && t.id in records && t.Holds(records[t.id]) && t.id in links && links[t.id] == t.dialog
    }

    /** The tables hold the allocated transactions and nothing else. */
    ghost predicate Tables()
      reads this
    {
      && records.Keys == at.Keys && links.Keys == at.Keys
      && Registered(objects, at)
    }

    lemma Known(t: SipTransaction)
      requires Valid() && t in objects
      ensures t.id in at && at[t.id] == t && t.id in records && t.Holds(records[t.id]) && t.id in links
      ensures links[t.id] == t.dialog
      ensures t in Repr && (t.message != null ==> t.message in Repr && t.message.Ready() && t.message.parsed.Some?)
    {
    }

    constructor ()
      ensures Valid() && Tables() && fresh(Repr)
      ensures objects == {} && at == map[] && records == map[] && links == map[] && order == []
    {
      head := null;
      objects, at, owner, records, links, nodes, order := {}, map[], map[], map[], map[], [], [];
      Repr := {this};
    }

    method SetState(t: SipTransaction, s: TxnState)
      requires Valid() && t in objects
      modifies this`records, t`state
      ensures Valid() && Repr == old(Repr) && objects == old(objects) && at == old(at) && order == old(order)
      ensures records == old(records)[t.id := old(records)[t.id].(state := s)]
    {
      hide SipMessage.Ready, Ordered, Chained, MessageView, DialogId;
      t.state := s;
      records := records[t.id := records[t.id].(state := s)];
      forall u | u in objects ensures Tied(u) { assert u == t || u.id != t.id; }
    }

    method SetDialog(t: SipTransaction, d: SipDialog?)
      requires Valid() && t in objects
      modifies Repr
      ensures Valid() && Repr == old(Repr) && objects == old(objects) && at == old(at) && order == old(order)
      ensures links == old(links)[t.id := d]
      ensures records == old(records)[t.id := old(records)[t.id].(dialog := DialogId(d))]
    {
      hide Valid;
      Known(t);
      Point(t, d);
    }

    method Point(t: SipTransaction, d: SipDialog?)
      requires Valid() && t in objects
      modifies this`links, this`records, t`dialog
      ensures Valid() && Repr == old(Repr) && objects == old(objects) && at == old(at) && order == old(order)
      ensures links == old(links)[t.id := d]
      ensures records == old(records)[t.id := old(records)[t.id].(dialog := DialogId(d))]
    {
      hide SipMessage.Ready, Ordered, Chained, MessageView, DialogId;
      t.dialog := d;
      links := links[t.id := d];
      records := records[t.id := records[t.id].(dialog := DialogId(d))];
      forall u | u in objects ensures Tied(u) { assert u == t || u.id != t.id; }
    }

    method SetQueue(t: SipTransaction, queue: Option<nat>)
      requires Valid() && t in objects
      modifies this`records, t`queue
      ensures Valid() && Repr == old(Repr) && objects == old(objects) && at == old(at) && order == old(order)
      ensures records == old(records)[t.id := old(records)[t.id].(queue := queue)]
    {
      hide SipMessage.Ready, Ordered, Chained, MessageView, DialogId;
      t.queue := queue;
      records := records[t.id := records[t.id].(queue := queue)];
      forall u | u in objects ensures Tied(u) { assert u == t || u.id != t.id; }
    }

    method SetAck(t: SipTransaction, m: SipMessage)
      requires Valid() && t in objects
      modifies this`records, t`ackMessage
      ensures Valid() && Repr == old(Repr) && objects == old(objects) && at == old(at) && order == old(order)
      ensures records == old(records)[t.id := old(records)[t.id].(ack := MessageView(m))]
    {
      hide SipMessage.Ready, Ordered, Chained, MessageView, DialogId;
      t.ackMessage := m;
      records := records[t.id := records[t.id].(ack := MessageView(m))];
      forall u | u in objects ensures Tied(u) { assert u == t || u.id != t.id; }
    }

    /** `m` is going to be the message of `t`. */
    ghost method Own(t: SipTransaction, m: SipMessage)
      requires Valid() && m !in Repr
      modifies this`owner, this`Repr
      ensures Valid() && Repr == old(Repr) + {m} && owner == old(owner)[m := t]
      ensures forall u :: u in objects ==> u.message != m
    {
      hide SipMessage.Ready, Ordered, Chained, MessageView, DialogId, SipTransaction.Holds;
      owner := owner[m := t];
      Repr := Repr + {m};
      forall u | u in objects ensures Tied(u) { assert u.message != m; }
    }

    /** The message becomes the transaction's own. */
    method SetMessage(t: SipTransaction, m: SipMessage)
      requires Valid() && t in objects && m !in Repr && m.Ready()
      modifies this`owner, this`Repr, this`records, t`message
      ensures Valid() && Repr == old(Repr) + {m} && objects == old(objects) && at == old(at) && order == old(order)
      ensures records == old(records)[t.id := old(records)[t.id].(message := MessageView(m), response := m.printed)]
    {
      hide Valid, SipMessage.Ready, MessageView;
      Known(t);
      Own(t, m);
      Give(t, m);
    }

    method Give(t: SipTransaction, m: SipMessage)
      requires Valid() && t in objects && m in Repr && m.Ready() && m in owner && owner[m] == t
      modifies this`records, t`message
      ensures Valid()
      ensures records == old(records)[t.id := old(records)[t.id].(message := MessageView(m), response := m.printed)]
    {
      hide SipMessage.Ready, Ordered, Chained, MessageView, DialogId;
      t.message := m;
      records := records[t.id := records[t.id].(message := MessageView(m), response := m.printed)];
      forall u | u in objects ensures Tied(u) { assert u == t || u.id != t.id; }
    }

    /** Print into the response buffer of the transaction's message. */
    method PrintResponse(t: SipTransaction, m: SipMessage, code: nat, toTag: Option<string>)
      requires Valid() && t in objects && t.message == m && m.parsed.Some? && StatusCode(code)
      modifies this`records, m`response, m`responseLength, m`printed
      ensures Valid() && Repr == old(Repr) && objects == old(objects) && at == old(at) && order == old(order)
      ensures records == old(records)[t.id := old(records)[t.id].(response := Printed(code, m.parsed.value, toTag))]
    {
      hide SipMessage.Ready, Ordered, Chained, MessageView, DialogId;
      m.Print(code, toTag);
      records := records[t.id := records[t.id].(response := m.printed)];
      forall u | u in objects ensures Tied(u) { assert u == t || (u.id != t.id && u.message != m); }
    }

    method SetCode(t: SipTransaction, code: nat)
      requires Valid() && t in objects
      modifies this`records, t`finalResponseCode
      ensures Valid() && Repr == old(Repr) && objects == old(objects) && at == old(at) && order == old(order)
      ensures records == old(records)[t.id := old(records)[t.id].(code := code)]
    {
      hide SipMessage.Ready, Ordered, Chained, MessageView, DialogId;
      t.finalResponseCode := code;
      records := records[t.id := records[t.id].(code := code)];
      forall u | u in objects ensures Tied(u) { assert u == t || u.id != t.id; }
    }

    /** create_new_transaction: a new head. */
    method Create(id: nat, branch: Ident) returns (t: SipTransaction)
      requires Valid() && Tables() && id !in records && id !in order
      modifies Repr
      ensures Valid() && Tables() && Repr == old(Repr) + {t} && t in objects && t.id == id && fresh(t)
      ensures objects == old(objects) + {t} && at == old(at)[id := t] && order == [id] + old(order)
      ensures links == old(links)[id := null]
      ensures records == old(records)[id := NewTxn(branch)]
      ensures t.message == null && t.dialog == null
    {
      hide Valid, Registered;
      t := Make(id, branch);
      RegisteredMore(old(objects), old(at), t);
    }

    /** The same, for the list without its tables. */
    method Make(id: nat, branch: Ident) returns (t: SipTransaction)
      requires Valid() && id !in records && id !in order
      modifies Repr
      ensures Valid() && Repr == old(Repr) + {t} && t in objects && t.id == id && fresh(t)
      ensures objects == old(objects) + {t} && at == old(at)[id := t] && order == [id] + old(order)
      ensures links == old(links)[id := null]
      ensures records == old(records)[id := NewTxn(branch)]
      ensures t.message == null && t.dialog == null
    {
      t := new SipTransaction(id, Cut(branch, MAX_ID_LENGTH), head);
      Take(t, NewTxn(branch));
      LinkFirst(t);
    }

    /** A new transaction, in no list yet. */
    ghost method Take(t: SipTransaction, x: Txn)
      requires Valid() && t !in Repr && t.id !in records && t.Holds(x) && t.message == null && t.dialog == null
      modifies this
      ensures Valid() && Repr == old(Repr) + {t} && objects == old(objects) + {t} && at == old(at)[t.id := t]
      ensures head == old(head) && nodes == old(nodes) && order == old(order)
      ensures links == old(links)[t.id := null] && records == old(records)[t.id := x]
    {
      hide SipMessage.Ready, SipTransaction.Holds, Chained, Ordered;
      Record(t, x);
      Admit(t);
    }

    /** Record a new transaction at its address. */
    ghost method Record(t: SipTransaction, x: Txn)
      requires Valid() && t.id !in records
      modifies this`at, this`links, this`records
      ensures Valid() && at == old(at)[t.id := t] && links == old(links)[t.id := null]
      ensures records == old(records)[t.id := x]
    {
      hide SipMessage.Ready, SipTransaction.Holds, Chained, Ordered;
      at, links, records := at[t.id := t], links[t.id := null], records[t.id := x];
      forall u | u in objects ensures Tied(u) { assert u.id != t.id; }
    }

    /** The recorded transaction is part of this list's memory, in no list yet. */
    ghost method Admit(t: SipTransaction)
      requires Valid() && Tied(t) && t.message == null
      modifies this`objects, this`Repr
      ensures Valid() && Repr == old(Repr) + {t} && objects == old(objects) + {t}
    {
      hide SipMessage.Ready, SipTransaction.Holds, Chained, Ordered;
      objects, Repr := objects + {t}, Repr + {t};
    }

    /** The transaction becomes the head. */
    method LinkFirst(t: SipTransaction)
      requires Valid() && t in objects && t.id !in order && t.next == head
      modifies this`head, this`nodes, this`order
      ensures Valid() && order == [t.id] + old(order)
    {
      hide SipMessage.Ready, Tied, Chained, Ordered;
      OrderedCons(t, nodes, order);
      ChainedCons(t, head, nodes);
      head := t;
      nodes := [t] + nodes;
      order := [t.id] + order;
    }

    /** The node at position `i` and the pointer behind it. */
    lemma NodeAt(i: nat)
      requires Valid() && i < |nodes|
      ensures |nodes| == |order| && nodes[i].id == order[i] && nodes[i] in objects
      ensures nodes[i].id in records && nodes[i].Holds(records[nodes[i].id])
      ensures nodes[i].next == if i + 1 < |nodes| then nodes[i + 1] else null
    {
    }

    /** find_transaction_by_id */
    method Find(text: string, length: nat) returns (t: SipTransaction?)
      requires Valid()
      ensures TxnId(t) == FindTxn(order, records, text, length)
      ensures t != null ==> t in objects
    {
      t := null;
      assert head == (if nodes == [] then null else nodes[0]) && |nodes| == |order|;
      hide Valid, FindTxn;
      FindTxnFrom(order, records, 0, text, length);
      if head == null || length == 0 { return; }
      var current := head;
      ghost var i := 0;
      while current != null
        invariant i <= |nodes| && current == (if i < |nodes| then nodes[i] else null)
        invariant FindTxn(order, records, text, length) == FindTxn(order[i..], records, text, length)
        decreases |nodes| - i
      {
        NodeAt(i);
        FindTxnFrom(order, records, i, text, length);
        if current.branch.length == length && SameN(current.branch.text, text, length) {
          return current;
        }
        current := current.next;
        i := i + 1;
      }
      FindTxnFrom(order, records, i, text, length);
    }

    /** delete_transaction_by_pointer, up to the cleanup: unlink `t` if it is in the list. */
    method Unlink(t: SipTransaction) returns (found: bool)
      requires Valid() && t in objects
      modifies Repr
      ensures Valid() && Repr == old(Repr) && objects == old(objects) && at == old(at)
      ensures links == old(links) && records == old(records)
      ensures found == (t.id in old(order)) && t.id !in order
      ensures order == if found then WorkerModel.Unlink(old(order), t.id) else old(order)
    {
      var current := head;
      var previous: SipTransaction? := null;
      ghost var i := 0;
      while current != null
        invariant i <= |nodes| && current == (if i < |nodes| then nodes[i] else null)
        invariant previous == if i == 0 then null else nodes[i - 1]
        invariant t.id !in order[..i]
        decreases |nodes| - i
      {
        if current == t {
          UnlinkAfter(previous, current, i);
          return true;
        }
        previous := current;
        current := current.next;
        i := i + 1;
      }
      assert order[..i] == order;
      return false;
    }

    /** Bypass the node at position `i`. */
    method Bypass(previous: SipTransaction?, t: SipTransaction, ghost i: nat)
      requires Ordered(nodes, order) && Chained(head, nodes)
      requires i < |nodes| && t == nodes[i] && previous == if i == 0 then null else nodes[i - 1]
      modifies this`head, nodes`next
      ensures Chained(head, nodes[..i] + nodes[i + 1..])
    {
      ghost var rest := nodes[..i] + nodes[i + 1..];
      if previous == null {
        head := t.next;
      } else {
        previous.next := t.next;
      }
      forall j | 0 <= j < |rest| - 1 ensures rest[j].next == rest[j + 1] {
        assert rest[j] == nodes[if j < i then j else j + 1];
        assert rest[j + 1] == nodes[if j + 1 < i then j + 1 else j + 2];
      }
    }

    method UnlinkAfter(previous: SipTransaction?, t: SipTransaction, ghost i: nat)
      requires Valid() && i < |nodes| && t == nodes[i] && previous == if i == 0 then null else nodes[i - 1]
      modifies Repr
      ensures Valid() && Repr == old(Repr) && objects == old(objects) && at == old(at)
      ensures links == old(links) && records == old(records)
      ensures t.id in old(order) && order == WorkerModel.Unlink(old(order), t.id) && t.id !in order
    {
      hide SipMessage.Ready, Tied, Ordered, Chained, WorkerModel.Unlink;
      NodeAt(i);
      ghost var were := nodes;
      OrderedUnlink(nodes, order, i);
      Bypass(previous, t, i);
      nodes := were[..i] + were[i + 1..];
      order := order[..i] + order[i + 1..];
    }

    /** free, once `t` is in no list. */
    ghost method Release(t: SipTransaction)
      requires Valid() && t in objects && t.id !in order
      modifies this
      ensures Valid() && Repr == old(Repr) && objects == old(objects) - {t} && order == old(order)
      ensures at == old(at) - {t.id} && links == old(links) - {t.id} && records == old(records) - {t.id}
    {
      hide Valid;
      OwnAddress(t);
      Withdraw(t);
      Forget(t.id);
    }

    lemma OwnAddress(t: SipTransaction)
      requires Valid() && t in objects
      ensures forall u :: u in objects && u != t ==> u.id != t.id
    {
    }

    /** The object is no longer among the allocated ones. */
    ghost method Withdraw(t: SipTransaction)
      requires Valid() && t.id !in order
      modifies this`objects
      ensures Valid() && objects == old(objects) - {t}
    {
      NotListed(t, nodes, order);
      hide SipMessage.Ready, SipTransaction.Holds, Chained, Ordered;
      objects := objects - {t};
    }

    /** Nothing is recorded at its address any more. */
    ghost method Forget(id: nat)
      requires Valid() && forall u :: u in objects ==> u.id != id
      modifies this`at, this`links, this`records
      ensures Valid() && at == old(at) - {id} && links == old(links) - {id} && records == old(records) - {id}
    {
      hide SipMessage.Ready, SipTransaction.Holds, Chained, Ordered;
      at, links, records := at - {id}, links - {id}, records - {id};
      forall u | u in objects ensures Tied(u) { assert u.id != id; }
    }
  }
}
