/** Requests enough to fill a dialog's slots, and what the next one costs. */
module Overfull {
  import opened SipTypes
  import opened WorkerModel
  import opened Outcomes
  import opened Invariants
  import opened Progress
  import opened WorkerSystem
  import opened Runs
  import opened Strays
  import opened Reachability
  import opened Answered
  import SipText

  // ---------- free slots ----------

  function FreeSlots(slots: seq<Option<nat>>): nat {
    if slots == [] then 0 else (if slots[0].None? then 1 else 0) + FreeSlots(slots[1..])
  }

  lemma {:induction false} FreeIff(slots: seq<Option<nat>>)
    ensures FreeSlots(slots) > 0 <==> None in slots
  {
    if slots != [] { FreeIff(slots[1..]); }
  }

  lemma {:induction false} FreeUpdated(slots: seq<Option<nat>>, i: nat, x: nat)
    requires i < |slots| && slots[i].None?
    ensures FreeSlots(slots[i := Some(x)]) + 1 == FreeSlots(slots)
  {
    if i > 0 {
      assert slots[i := Some(x)][1..] == slots[1..][i - 1 := Some(x)];
      FreeUpdated(slots[1..], i - 1, x);
    } else {
      assert slots[i := Some(x)][1..] == slots[1..];
    }
  }

  lemma FreeAdded(slots: seq<Option<nat>>, x: nat)
    requires None in slots && Some(x) !in slots
    ensures FreeSlots(AddSlot(slots, x)) + 1 == FreeSlots(slots)
  {
    FreeUpdated(slots, IndexOf(slots, None), x);
  }

  lemma {:induction false} FreeEmpty(n: nat)
    ensures FreeSlots(EmptySlots(n)) == n
  {
    if n > 0 {
      assert EmptySlots(n)[1..] == EmptySlots(n - 1);
      FreeEmpty(n - 1);
    }
  }

  lemma FreeOne(n: nat, x: nat)
    requires n > 0
    ensures FreeSlots(OneSlot(n, x)) == n - 1
  {
    FreeEmpty(n);
    FreeUpdated(EmptySlots(n), 0, x);
  }

  // ---------- one more request in the dialog ----------

  /** The packet is an INVITE on a new, short branch whose tags name dialog `d`. */
  ghost predicate Rejoins(w: Worker, raw: Raw, d: nat) {
    && SipText.Parse(raw.text).Some?
    && var req := SipText.Parse(raw.text).value;
       && req.kind == INVITE && Shown(req.branch) && |req.branch.text| <= MAX_ID_LENGTH && req.branch.length > 0
       && FindDialogOf(w, req) == Some(d)
       && forall t :: t in w.txns ==> w.txns[t].branch != req.branch
  }

  /** `r` is `w` with transaction `t` waiting in dialog `d` for message `m`. */
  ghost predicate Joined(w: Worker, r: Worker, t: nat, d: nat, m: Message) {
    && d in w.dialogs
    && r.txns == w.txns[t := Txn(m.req.branch, TxnIdle, Some(d), Some(w.self), Some(m), None, Empty, 0)]
    && r.dialogs == w.dialogs[d := w.dialogs[d].(slots := AddSlot(w.dialogs[d].slots, t))]
    && r == w.(txnOrder := [t] + w.txnOrder, txns := r.txns, dialogs := r.dialogs, nextId := t + 1)
  }

  lemma BranchIsNew(w: Worker, branch: Ident)
    requires Branches(w) && Shown(branch) && forall t :: t in w.txns ==> w.txns[t].branch != branch
    ensures FindTxnOf(w, branch).None?
  {
    var t := FindTxnOf(w, branch);
    if t.Some? { MatchIsEquality(w.txns[t.value].branch, branch); }
  }

  lemma RejoinServed(w: Worker, raw: Raw, d: nat, o: Oracle)
    requires Inv(w) && Rejoins(w, raw, d) && o.allocTxn
    ensures Closed(w) && d in w.dialogs && FindTxnOf(w, MessageOf(raw).req.branch).None?
    ensures var m := MessageOf(raw); Served(w, m, o) == Some((Adopt(w, m), w.nextId)) && Fits(w, m, o)
  {
    hide SipText.Parse, Coupled, FindTxn, FindDialog, Adopt, Lists, Sizes;
    InvClosed(w);
    BranchIsNew(w, MessageOf(raw).req.branch);
  }

  /** A re-INVITE takes a free slot and waits there; no timer is started. */
  lemma RejoinEffect(w: Worker, raw: Raw, d: nat, o: Oracle)
    requires Inv(w) && Rejoins(w, raw, d) && o.allocTxn && d in w.dialogs && None in w.dialogs[d].slots
    ensures Closed(w) && Admissible(w, MessageOf(raw), o)
    ensures Joined(w, ProcessRequest(w, MessageOf(raw), o), w.nextId, d, MessageOf(raw))
  {
    hide SipText.Parse, Graph, Coupled, Branches, SlotsLive, CallSlotsLive, AddSlot, Fits, FindTxn, FindDialog;
    var m := MessageOf(raw);
    RejoinServed(w, raw, d, o);
    AdoptJoins(w, m, d);
    ServedDispatch(w, m, o);
    assert AttachByTags(Adopt(w, m), w.nextId, m.req) == SetTxnDialog(Adopt(w, m), w.nextId, d);
  }

  lemma AdoptJoins(w: Worker, m: Message, d: nat)
    requires d in w.dialogs && Shown(m.req.branch) && |m.req.branch.text| <= MAX_ID_LENGTH
    ensures var v := Adopt(w, m);
            && v.dialogs == w.dialogs && v.dialogOrder == w.dialogOrder && v.txns[w.nextId].dialog.None?
            && Joined(w, SetTxnDialog(v, w.nextId, d), w.nextId, d, m)
  {
    hide AddSlot;
  }

  /** The dialog search looks at tags only. */
  lemma {:induction false} SameTagsFound(order: seq<nat>, a: map<nat, Dialog>, b: map<nat, Dialog>, fromTag: Ident, toTag: Option<Ident>)
    requires a.Keys == b.Keys && forall d :: d in a ==> a[d].fromTag == b[d].fromTag && a[d].toTag == b[d].toTag
    ensures FindDialog(order, a, fromTag, toTag) == FindDialog(order, b, fromTag, toTag)
  {
    if order != [] { SameTagsFound(order[1..], a, b, fromTag, toTag); }
  }

  lemma JoinedFinds(w: Worker, r: Worker, t: nat, d: nat, m: Message, req: Request)
    requires Joined(w, r, t, d, m)
    ensures FindDialogOf(r, req) == FindDialogOf(w, req)
  {
    hide AddSlot;
    SameTagsFound(w.dialogOrder, w.dialogs, r.dialogs, req.fromTag, req.toTag);
  }

  // ---------- as many as there are free slots ----------

  /** Packets with addresses of their own, on different branches, that all name dialog `d`. */
  ghost predicate Batch(s: System, ps: seq<Raw>, d: nat) {
    && (forall i :: 0 <= i < |ps| ==> Rejoins(s.w, ps[i], d) && ps[i].id !in s.received)
    && (forall i, j :: 0 <= i < j < |ps| ==>
          ps[i].id != ps[j].id && BranchOf(ps[i]) != BranchOf(ps[j]))
  }

  function BranchOf(raw: Raw): Ident {
    if SipText.Parse(raw.text).Some? then SipText.Parse(raw.text).value.branch else Ident("", 0)
  }

  /** Each packet is received and handled in turn. */
  function InTurn(ps: seq<Raw>, o: Oracle): seq<Step> {
    if ps == [] then [] else [Arrive(ps[0]), Work(o)] + InTurn(ps[1..], o)
  }

  /** `r` is `s` with more transactions waiting in dialog `d`, `n` slots of which are still free. */
  ghost predicate Filled(s: System, r: System, d: nat, n: nat) {
    && r.queue == [] && d in s.w.dialogs && d in r.w.dialogs && FreeSlots(r.w.dialogs[d].slots) == n
    && r.w.dialogs == s.w.dialogs[d := s.w.dialogs[d].(slots := r.w.dialogs[d].slots)]
    && r.w == s.w.(txnOrder := r.w.txnOrder, txns := r.w.txns, dialogs := r.w.dialogs, nextId := r.w.nextId)
    && (forall t :: t in s.w.txns ==> t in r.w.txns && r.w.txns[t] == s.w.txns[t])
    && (forall t :: Some(t) in s.w.dialogs[d].slots ==> Some(t) in r.w.dialogs[d].slots)
  }

  /** The transactions of `r` have the branches of `s` or of the packets. */
  ghost predicate BranchesFrom(s: System, r: System, ps: seq<Raw>) {
    forall t :: t in r.w.txns ==>
      (t in s.w.txns && r.w.txns[t].branch == s.w.txns[t].branch)
      || exists i :: 0 <= i < |ps| && r.w.txns[t].branch == BranchOf(ps[i])
  }

  ghost predicate IdsFrom(s: System, r: System, ps: seq<Raw>) {
    forall id :: id in r.received ==> id in s.received || exists i :: 0 <= i < |ps| && id == ps[i].id
  }

  lemma OneRejoins(s: System, raw: Raw, d: nat, o: Oracle)
    requires Inv(s.w) && s.queue == [] && Rejoins(s.w, raw, d) && raw.id !in s.received
    requires d in s.w.dialogs && None in s.w.dialogs[d].slots && o.allocTxn
    ensures IsRun(s, [Arrive(raw), Work(o)])
    ensures var r := Run(s, [Arrive(raw), Work(o)]);
            && Inv(r.w) && r.queue == [] && r.received == s.received + multiset{raw.id}
            && Joined(s.w, r.w, s.w.nextId, d, MessageOf(raw)) && s.w.nextId !in s.w.txns
  {
    hide SipText.Parse, Inv, Closed, BackLinks, TxnLinks, CallLinks, Admissible, ProcessRequest, IsRun, Run, Rejoins, Joined;
    assert SipText.Parse(raw.text).Some? by { RejoinParses(s.w, raw, d); }
    InvClosed(s.w);
    RejoinEffect(s.w, raw, d, o);
    PacketHandled(s, raw, MessageOf(raw), o);
    RequestKeepsInv(s.w, MessageOf(raw), o);
  }

  lemma RejoinParses(w: Worker, raw: Raw, d: nat)
    requires Rejoins(w, raw, d)
    ensures SipText.Parse(raw.text).Some?
  {
  }

  /** The other packets still name the dialog. */
  lemma BatchStays(s: System, r: System, ps: seq<Raw>, d: nat)
    requires ps != [] && Batch(s, ps, d)
    requires r.received == s.received + multiset{ps[0].id}
    requires Joined(s.w, r.w, s.w.nextId, d, MessageOf(ps[0]))
    ensures Batch(r, ps[1..], d)
  {
    hide SipText.Parse, FindDialog, AddSlot;
    var rest := ps[1..];
    forall i | 0 <= i < |rest| ensures Rejoins(r.w, rest[i], d) && rest[i].id !in r.received {
      assert Rejoins(s.w, ps[i + 1], d) && BranchOf(ps[0]) != BranchOf(ps[i + 1]) && ps[0].id != ps[i + 1].id;
      JoinedFinds(s.w, r.w, s.w.nextId, d, MessageOf(ps[0]), MessageOf(rest[i]).req);
    }
    assert forall i, j :: 0 <= i < j < |rest| ==> rest[i] == ps[i + 1] && rest[j] == ps[j + 1];
  }

  lemma JoinedFills(s: System, r: System, d: nat, m: Message)
    requires Joined(s.w, r.w, s.w.nextId, d, m) && r.queue == [] && BackLinks(s.w) && s.w.nextId !in s.w.txns
    requires d in s.w.dialogs && None in s.w.dialogs[d].slots
    ensures FreeSlots(s.w.dialogs[d].slots) > 0 && Filled(s, r, d, FreeSlots(s.w.dialogs[d].slots) - 1)
  {
    var slots := s.w.dialogs[d].slots;
    assert Some(s.w.nextId) !in slots;
    FreeAdded(slots, s.w.nextId);
    hide AddSlot, BackLinks;
    forall t | Some(t) in slots ensures Some(t) in AddSlot(slots, s.w.nextId) {
      var i :| 0 <= i < |slots| && slots[i] == Some(t);
      assert AddSlot(slots, s.w.nextId)[i] == Some(t);
    }
  }

  lemma FilledTrans(s: System, v: System, r: System, d: nat, n: nat, n': nat)
    requires Filled(s, v, d, n) && Filled(v, r, d, n')
    ensures Filled(s, r, d, n')
  {
  }

  lemma FromTrans(s: System, v: System, r: System, ps: seq<Raw>, m: Message, d: nat)
    requires ps != [] && Joined(s.w, v.w, s.w.nextId, d, m) && m.req.branch == BranchOf(ps[0])
    requires v.received == s.received + multiset{ps[0].id}
    requires BranchesFrom(v, r, ps[1..]) && IdsFrom(v, r, ps[1..])
    ensures BranchesFrom(s, r, ps) && IdsFrom(s, r, ps)
  {
    hide SipText.Parse;
    forall t | t in r.w.txns
      ensures (t in s.w.txns && r.w.txns[t].branch == s.w.txns[t].branch)
              || exists i :: 0 <= i < |ps| && r.w.txns[t].branch == BranchOf(ps[i])
    {
      if i :| 0 <= i < |ps[1..]| && r.w.txns[t].branch == BranchOf(ps[1..][i]) {
        assert ps[1..][i] == ps[i + 1];
      } else if t == s.w.nextId {
        assert r.w.txns[t].branch == BranchOf(ps[0]);
      }
    }
    forall id | id in r.received ensures id in s.received || exists i :: 0 <= i < |ps| && id == ps[i].id {
      if i :| 0 <= i < |ps[1..]| && id == ps[1..][i].id { assert ps[1..][i] == ps[i + 1]; }
    }
  }

  /** From any state, re-INVITEs take the free slots of a dialog one after the other and keep them. */
  lemma {:induction false} InTurnFills(s: System, ps: seq<Raw>, d: nat, o: Oracle)
    requires Inv(s.w) && s.queue == [] && Batch(s, ps, d) && d in s.w.dialogs && o.allocTxn
    requires |ps| <= FreeSlots(s.w.dialogs[d].slots)
    ensures IsRun(s, InTurn(ps, o))
    ensures var r := Run(s, InTurn(ps, o));
            && Inv(r.w) && Filled(s, r, d, FreeSlots(s.w.dialogs[d].slots) - |ps|)
            && BranchesFrom(s, r, ps) && IdsFrom(s, r, ps)
    decreases |ps|
  {
    hide SipText.Parse, Inv, IsRun, Run, Rejoins, Joined, Filled, FreeSlots, BranchesFrom, IdsFrom, Batch;
    if ps == [] {
      NothingFilled(s, d);
    } else {
      var steps := [Arrive(ps[0]), Work(o)];
      FirstOfBatch(s, ps, d);
      FreeIff(s.w.dialogs[d].slots);
      OneRejoins(s, ps[0], d, o);
      var v := Run(s, steps);
      InvClosed(s.w);
      JoinedFills(s, v, d, MessageOf(ps[0]));
      BatchStays(s, v, ps, d);
      var n := FreeSlots(s.w.dialogs[d].slots);
      FilledSlots(s, v, d, n - 1);
      InTurnFills(v, ps[1..], d, o);
      RunAppend(s, steps, InTurn(ps[1..], o));
      var r := Run(v, InTurn(ps[1..], o));
      FilledTrans(s, v, r, d, n - 1, n - |ps|);
      FromTrans(s, v, r, ps, MessageOf(ps[0]), d);
    }
  }

  lemma FilledSlots(s: System, r: System, d: nat, n: nat)
    requires Filled(s, r, d, n)
    ensures d in r.w.dialogs && FreeSlots(r.w.dialogs[d].slots) == n && r.queue == []
  {
  }

  lemma FirstOfBatch(s: System, ps: seq<Raw>, d: nat)
    requires ps != [] && Batch(s, ps, d)
    ensures Rejoins(s.w, ps[0], d) && ps[0].id !in s.received && SipText.Parse(ps[0].text).Some?
    ensures BranchOf(ps[0]) == MessageOf(ps[0]).req.branch
  {
  }

  lemma NothingFilled(s: System, d: nat)
    requires d in s.w.dialogs && s.queue == []
    ensures Filled(s, s, d, FreeSlots(s.w.dialogs[d].slots)) && BranchesFrom(s, s, []) && IdsFrom(s, s, [])
    ensures IsRun(s, []) && Run(s, []) == s
  {
    assert s.w.dialogs == s.w.dialogs[d := s.w.dialogs[d]];
  }

  // ---------- the next request ----------

  /** A request on a new branch that names dialog `d`, which has no free slot. */
  ghost predicate FindsFull(w: Worker, m: Message, d: nat) {
    && FindDialogOf(w, m.req) == Some(d) && d in w.dialogs && None !in w.dialogs[d].slots
    && Shown(m.req.branch) && |m.req.branch.text| <= MAX_ID_LENGTH && m.req.branch.length > 0
    && forall t :: t in w.txns ==> w.txns[t].branch != m.req.branch
  }

  lemma FullServed(w: Worker, m: Message, d: nat, o: Oracle)
    requires Inv(w) && FindsFull(w, m, d) && o.allocTxn
    ensures Closed(w) && FindTxnOf(w, m.req.branch).None? && Served(w, m, o) == Some((Adopt(w, m), w.nextId))
    ensures !HasRoom(w, m, o) && Fits(w, m, o)
  {
    hide Coupled, FindTxn, FindDialog, Lists, Sizes;
    InvClosed(w);
    BranchIsNew(w, m.req.branch);
  }

  lemma InvSafe(w: Worker)
    requires Inv(w)
    ensures Safe(w) && Closed(w)
  {
    hide Coupled, Branches;
    GraphIff(w);
  }

  /** It breaks the graph: its transaction points at the dialog and has no slot there. */
  lemma FullBreaks(w: Worker, m: Message, d: nat, o: Oracle)
    requires Inv(w) && FindsFull(w, m, d) && o.allocTxn
    ensures Closed(w)
    ensures var r := ProcessRequest(w, m, o);
            !Consistent(r) && Safe(r) && Branches(r) && Stray(r, w.nextId) && r.txns[w.nextId].dialog == Some(d)
  {
    assert Consistent(w) && Branches(w);
    hide Inv, Consistent, Branches, Closed, HasRoom, Fits, ProcessRequest, Stray, Adopt;
    InvSafe(w);
    FullServed(w, m, d, o);
    NoRoomStrays(w, m, o);
    RequestKeepsSafe(w, m, o);
    RequestKeepsConsistentIff(w, m, o);
    RequestKeepsBranchesIff(w, m, o);
    assert FindDialogOf(Adopt(w, m), m.req) == FindDialogOf(w, m.req) by { AdoptFinds(w, m); }
  }

  lemma AdoptFinds(w: Worker, m: Message)
    ensures FindDialogOf(Adopt(w, m), m.req) == FindDialogOf(w, m.req)
  {
  }

  /** After as many re-INVITEs as there were free slots, any further request on a new branch that names the
      dialog breaks the graph. */
  lemma FurtherRequestBreaks(s: System, ps: seq<Raw>, d: nat, o: Oracle, m: Message)
    requires Inv(s.w) && s.queue == [] && Batch(s, ps, d) && d in s.w.dialogs && o.allocTxn
    requires |ps| == FreeSlots(s.w.dialogs[d].slots)
    requires FindDialogOf(s.w, m.req) == Some(d) && NewBranch(s, ps, m.req.branch)
    ensures IsRun(s, InTurn(ps, o))
    ensures var r := Run(s, InTurn(ps, o)).w;
            && Inv(r) && Closed(r) && FindsFull(r, m, d)
            && var r' := ProcessRequest(r, m, o);
               !Consistent(r') && Stray(r', r.nextId) && r'.txns[r.nextId].dialog == Some(d)
  {
    hide Inv, IsRun, Run, Batch, Closed, ProcessRequest, Consistent, Stray, FindsFull;
    InTurnFills(s, ps, d, o);
    StillFull(s, Run(s, InTurn(ps, o)), ps, d, m);
    FullBreaks(Run(s, InTurn(ps, o)).w, m, d, o);
  }

  /** A short branch none of the transactions or packets has. */
  ghost predicate NewBranch(s: System, ps: seq<Raw>, branch: Ident) {
    && Shown(branch) && |branch.text| <= MAX_ID_LENGTH && branch.length > 0
    && (forall t :: t in s.w.txns ==> s.w.txns[t].branch != branch)
    && (forall i :: 0 <= i < |ps| ==> BranchOf(ps[i]) != branch)
  }

  lemma StillFull(s: System, r: System, ps: seq<Raw>, d: nat, m: Message)
    requires Filled(s, r, d, 0) && BranchesFrom(s, r, ps)
    requires FindDialogOf(s.w, m.req) == Some(d) && NewBranch(s, ps, m.req.branch)
    ensures FindsFull(r.w, m, d)
  {
    hide FindDialog, BranchOf;
    FreeIff(r.w.dialogs[d].slots);
    SameTagsFound(s.w.dialogOrder, s.w.dialogs, r.w.dialogs, m.req.fromTag, m.req.toTag);
  }

  // ---------- a BYE that finds no slot ----------

  /** A CONFIRMED dialog and a transaction in its slots whose delete timer `x` is running. */
  ghost predicate Expiring(w: Worker, d: nat, t: nat, x: Timer) {
    && d in w.dialogs && w.dialogs[d].state == DialogConfirmed && Some(t) in w.dialogs[d].slots
    && t in w.txns && w.txns[t].dialog == Some(d) && x.branch == w.txns[t].branch && x in w.timers.deleting
  }

  /** The BYE ends the dialog, and its own transaction strays. */
  lemma FullByeEnds(w: Worker, m: Message, d: nat, o: Oracle, t: nat, x: Timer)
    requires Inv(w) && Closed(w) && FindsFull(w, m, d) && o.allocTxn && m.req.kind == BYE && Expiring(w, d, t, x)
    ensures var r := ProcessRequest(w, m, o);
            Safe(r) && Branches(r) && Strands(r, t, w.nextId) && r.txns[t].branch == x.branch && x in r.timers.deleting
  {
    hide Inv, Consistent, Closed, ProcessRequest, Branches, FindsFull, Safe;
    FullBreaks(w, m, d, o);
    FullByeOthers(w, m, d, o, t, x);
    FullByeTerminates(w, m, d, o);
  }

  lemma FullByeOthers(w: Worker, m: Message, d: nat, o: Oracle, t: nat, x: Timer)
    requires Inv(w) && Closed(w) && FindsFull(w, m, d) && o.allocTxn && Expiring(w, d, t, x)
    ensures var r := ProcessRequest(w, m, o);
            t != w.nextId && t in r.txns && r.txns[t] == w.txns[t] && x in r.timers.deleting
  {
    hide Graph, Coupled, Closed, ProcessRequest, Branches, FindsFull, Adopt, Served;
    FullServed(w, m, d, o);
    ServedMoves(w, m, o);
    InvSafe(w);
    NewAddress(w, t);
    AdoptKeepsOthers(w, m, t);
  }

  lemma NewAddress(w: Worker, t: nat)
    requires Safe(w) && t in w.txns
    ensures t != w.nextId
  {
  }

  lemma AdoptKeepsOthers(w: Worker, m: Message, t: nat)
    requires t in w.txns && t != w.nextId
    ensures var v := Adopt(w, m); t in v.txns && v.txns[t] == w.txns[t] && v.timers == w.timers
  {
  }

  lemma FullByeTerminates(w: Worker, m: Message, d: nat, o: Oracle)
    requires Inv(w) && Closed(w) && FindsFull(w, m, d) && o.allocTxn && m.req.kind == BYE
    requires w.dialogs[d].state == DialogConfirmed
    ensures var r := ProcessRequest(w, m, o); d in r.dialogs && r.dialogs[d].state == DialogTerminated
  {
    assert DialogCoupled(w.dialogs[d], w.calls);
    hide Inv, Coupled, Graph, Branches, SlotsLive, CallSlotsLive, ProcessRequest, ProcessBye, FindDialog, AddSlot, FindTxn;
    FullServed(w, m, d, o);
    ServedDispatch(w, m, o);
    JoinedByeEnds(Adopt(w, m), w.nextId, m.req, d, o);
  }

  lemma JoinedByeEnds(w: Worker, t: nat, req: Request, d: nat, o: Oracle)
    requires Closed(w) && t in w.txns && w.txns[t].dialog.None? && FindDialogOf(w, req) == Some(d) && req.kind == BYE
    requires d in w.dialogs && w.dialogs[d].state == DialogConfirmed && w.dialogs[d].call.Some?
    ensures var r := Dispatch(w, t, req, o); d in r.dialogs && r.dialogs[d].state == DialogTerminated
  {
    hide SlotsLive, CallSlotsLive, ProcessBye, FindDialog, AddSlot;
    AttachClosed(w, t, req);
    AttachAccepts(w, t, req, d);
    ByeEffect(AttachByTags(w, t, req), t, o);
  }

  lemma AttachAccepts(w: Worker, t: nat, req: Request, d: nat)
    requires Closed(w) && t in w.txns && w.txns[t].dialog.None? && FindDialogOf(w, req) == Some(d)
    requires d in w.dialogs && w.dialogs[d].state == DialogConfirmed && w.dialogs[d].call.Some?
    ensures ByeAccepted(AttachByTags(w, t, req), t) && AttachByTags(w, t, req).txns[t].dialog == Some(d)
  {
    hide SlotsLive, CallSlotsLive, FindDialog, AddSlot;
  }

  /** The steps: the BYE is handled, the timer fires, and its event is handled. */
  function ByeThenEvent(bye: Raw, o: Oracle, x: Timer): seq<Step> {
    [Arrive(bye), Work(o)] + [FireDelete(x), Work(o)]
  }

  /** After the BYE, the delete event of the other transaction drops the dialog, and the BYE's own transaction
      is left with a pointer to it: its own delete event, and a response to a retransmission, would follow it. */
  lemma ByeDangles(s: System, bye: Raw, d: nat, o: Oracle, t: nat, x: Timer)
    requires Inv(s.w) && s.queue == [] && bye.id !in s.received && SipText.Parse(bye.text).Some?
    requires FindsFull(s.w, MessageOf(bye), d) && MessageOf(bye).req.kind == BYE && Expiring(s.w, d, t, x) && o.allocTxn
    ensures IsPath(s, ByeThenEvent(bye, o, x))
    ensures var r := Follow(s, ByeThenEvent(bye, o, x)).w;
            Dangling(r, s.w.nextId) && r.txns[s.w.nextId].dialog == Some(d) && !Closed(r)
  {
    hide Inv, IsPath, Follow, FindsFull, Expiring, Safe, Branches, Strands, SipText.Parse, ProcessRequest,
         DeleteTransaction, Dangling, Closed, BackLinks, CallLinks;
    var first, second := [Arrive(bye), Work(o)], [FireDelete(x), Work(o)];
    InvSafe(s.w);
    SafeSound(s.w);
    PacketFollowed(s, bye, o);
    var v := Follow(s, first);
    FullByeEnds(s.w, MessageOf(bye), d, o, t, x);
    FullBreaks(s.w, MessageOf(bye), d, o);
    SafeSound(v.w);
    EventFollowed(v, x, o);
    EventDangles(v.w, SetTimers(v.w, v.w.timers.(deleting := v.w.timers.deleting - multiset{x})), x.branch, o, t, s.w.nextId);
    PathAppend(s, first, second);
    StrandsSame(v.w, t, s.w.nextId);
  }

  lemma SafeSound(w: Worker)
    requires Safe(w)
    ensures Sound(w)
  {
  }

  lemma StrandsSame(w: Worker, t: nat, u: nat)
    requires Strands(w, t, u)
    ensures t in w.txns && u in w.txns && w.txns[u].dialog == w.txns[t].dialog
  {
  }

  lemma EventDangles(w: Worker, v: Worker, branch: Ident, o: Oracle, t: nat, u: nat)
    requires Safe(w) && Branches(w) && Strands(w, t, u) && w.txns[t].branch == branch && v == w.(timers := v.timers) && Sound(v)
    ensures var r := DeleteTransaction(v, branch, o);
            Dangling(r, u) && r.txns[u].dialog == w.txns[u].dialog && !Closed(r)
  {
    hide Sizes, SlotsLive, CallSlotsLive, BackLinks, CallLinks, DeleteFound, Lists;
    LoggedSafe(w, v);
    BranchFound(w, t);
    assert Strands(v, t, u);
    StrandedDangles(v, t, u, o);
  }

  lemma BranchFound(w: Worker, t: nat)
    requires Safe(w) && Branches(w) && t in w.txns
    ensures FindTxnOf(w, w.txns[t].branch) == Some(t)
  {
    hide Closed, BackLinks, CallLinks, Sizes;
    var b := w.txns[t].branch;
    MatchIsEquality(b, b);
    var found := FindTxnOf(w, b);
    if found.Some? { MatchIsEquality(w.txns[found.value].branch, b); }
  }

  // ---------- from the start ----------

  /** A packet with its own short branch that names the dialog of `invite` answered with `tag`. */
  ghost predicate Names(raw: Raw, invite: Raw, tag: string) {
    && SipText.Parse(invite.text).Some? && SipText.Parse(raw.text).Some? && raw.id != invite.id
    && var r, i := SipText.Parse(raw.text).value, SipText.Parse(invite.text).value;
       && r.fromTag == i.fromTag && r.toTag == Some(Whole(tag))
       && Shown(r.branch) && |r.branch.text| <= MAX_ID_LENGTH && r.branch.length > 0 && r.branch != i.branch
  }

  /** An INVITE, as many re-INVITEs as its dialog has slots left, and a BYE. */
  ghost predicate FillScript(invite: Raw, again: seq<Raw>, bye: Raw, tag: string) {
    && SipText.Parse(invite.text).Some? && LeavesWhole(SipText.Parse(invite.text).value)
    && |again| == TXN_SLOTS - 1
    && (forall j :: 0 <= j < |again| ==> Names(again[j], invite, tag) && MessageOf(again[j]).req.kind == INVITE)
    && (forall j, l :: 0 <= j < l < |again| ==> again[j].id != again[l].id && BranchOf(again[j]) != BranchOf(again[l]))
    && Names(bye, invite, tag) && MessageOf(bye).req.kind == BYE
    && (forall j :: 0 <= j < |again| ==> again[j].id != bye.id && BranchOf(again[j]) != BranchOf(bye))
  }

  /** An INVITE with a Call-ID whose branch and From tag are stored uncut. */
  predicate LeavesWhole(i: Request) {
    i.kind == INVITE && i.callId != "" && |i.branch.text| <= MAX_ID_LENGTH && |i.fromTag.text| <= MAX_ID_LENGTH
  }

  lemma InviteOf(invite: Raw, again: seq<Raw>, bye: Raw, tag: string)
    requires FillScript(invite, again, bye, tag)
    ensures SipText.Parse(invite.text).Some? && SipText.Parse(bye.text).Some?
    ensures MessageOf(invite).req.kind == INVITE && MessageOf(invite).req.callId != "" && Names(bye, invite, tag)
    ensures Cut(MessageOf(invite).req.branch, MAX_ID_LENGTH) == MessageOf(invite).req.branch
    ensures Cut(MessageOf(invite).req.fromTag, MAX_ID_LENGTH) == MessageOf(invite).req.fromTag
  {
  }

  lemma NamesFinds(w: Worker, k: nat, raw: Raw, invite: Raw, tag: string)
    requires Names(raw, invite, tag) && Cut(MessageOf(invite).req.fromTag, MAX_ID_LENGTH) == MessageOf(invite).req.fromTag
    requires OneCall(w, k, MessageOf(invite), tag) && Lists(w)
    ensures FindDialogOf(w, MessageOf(raw).req) == Some(1)
  {
    hide SipText.Parse, FindDialog, Lists, Cut;
    SipText.ParsedShown(invite.text);
    SipText.ParsedShown(raw.text);
    var from := MessageOf(invite).req.fromTag;
    FoundByIff(w, 1, from, tag, MessageOf(raw).req.fromTag, MessageOf(raw).req.toTag);
  }

  lemma ScriptIsBatch(s: System, k: nat, invite: Raw, again: seq<Raw>, bye: Raw, tag: string)
    requires FillScript(invite, again, bye, tag)
    requires OneCall(s.w, k, MessageOf(invite), tag) && Lists(s.w) && s.received == multiset{invite.id}
    ensures Batch(s, again, 1) && FindDialogOf(s.w, MessageOf(bye).req) == Some(1)
    ensures NewBranch(s, again, MessageOf(bye).req.branch)
  {
    hide SipText.Parse, FindDialog, Lists, OneSlot, Cut;
    InviteOf(invite, again, bye, tag);
    NamesFinds(s.w, k, bye, invite, tag);
    forall j | 0 <= j < |again| ensures Rejoins(s.w, again[j], 1) && again[j].id !in s.received {
      NamesFinds(s.w, k, again[j], invite, tag);
    }
  }

  /** The dialog with its one slot taken has room for the script. */
  lemma RoomForScript(w: Worker, k: nat, m: Message, tag: string)
    requires OneCall(w, k, m, tag)
    ensures 1 in w.dialogs && FreeSlots(w.dialogs[1].slots) == TXN_SLOTS - 1 && Some(0) in w.dialogs[1].slots
  {
    hide OneSlot, FreeSlots;
    FreeOne(TXN_SLOTS, 0);
    assert OneSlot(TXN_SLOTS, 0)[0] == Some(0) by { SlotTaken(TXN_SLOTS, 0); }
  }

  lemma SlotTaken(n: nat, x: nat)
    requires n > 0
    ensures |OneSlot(n, x)| == n && OneSlot(n, x)[0] == Some(x)
  {
  }

  /** 5000 ms later the first transaction's timer is still running. */
  lemma StillExpiring(s: System, r: System, k: nat, m: Message, tag: string, v: System, x: Timer)
    requires OneCall(s.w, k, m, tag) && Filled(s, r, 1, 0) && v.w == r.w.(timers := v.w.timers)
    requires v.w.timers.deleting == r.w.timers.deleting
    requires x == Timer(Cut(m.req.branch, MAX_ID_LENGTH), DELETE_TIMEOUT, Some(k))
    ensures Expiring(v.w, 1, 0, x)
  {
    hide OneSlot, FreeSlots, Cut;
    RoomForScript(s.w, k, m, tag);
  }

  lemma StillFindsFull(w: Worker, v: Worker, m: Message, d: nat)
    requires FindsFull(w, m, d) && v == w.(timers := v.timers)
    ensures FindsFull(v, m, d)
  {
  }

  /** The steps: the INVITE, the re-INVITEs, 5000 ms, the BYE, and the delete event of the INVITE's transaction. */
  function FillSteps(k: nat, invite: Raw, again: seq<Raw>, bye: Raw, o: Oracle, x: Timer): seq<Step> {
    [Arrive(invite), Work(o)] + InTurn(again, o) + [Tick(5000)] + ByeThenEvent(bye, o, x)
  }

  /** The dialog is full, and its timer due. */
  ghost predicate Ripe(s: System, bye: Raw, x: Timer) {
    && Inv(s.w) && s.queue == [] && bye.id !in s.received && SipText.Parse(bye.text).Some?
    && FindsFull(s.w, MessageOf(bye), 1) && MessageOf(bye).req.kind == BYE && Expiring(s.w, 1, 0, x)
  }

  lemma FillRuns(k: nat, invite: Raw, again: seq<Raw>, bye: Raw, o: Oracle)
    requires FillScript(invite, again, bye, o.toTag) && AllWell(o)
    ensures SipText.Parse(invite.text).Some?
    ensures var steps := [Arrive(invite), Work(o)] + InTurn(again, o) + [Tick(5000)];
            && IsRun(Start(k), steps)
            && Ripe(Run(Start(k), steps), bye, Timer(MessageOf(invite).req.branch, DELETE_TIMEOUT, Some(k)))
  {
    hide SipText.Parse, ProcessRequest, Closed, BackLinks, TxnLinks, CallLinks, Admissible, IsRun, Run, OneCall, Opens, Inv,
         FillScript, Names, Batch, FindsFull, Expiring, Filled, BranchesFrom, NewBranch, FreeSlots, Cut, Lists;
    InviteOf(invite, again, bye, o.toTag);
    var m := MessageOf(invite);
    FirstCallRuns(k, invite, o);
    var s := Run(Start(k), [Arrive(invite), Work(o)]);
    InvLists(s.w);
    ScriptIsBatch(s, k, invite, again, bye, o.toTag);
    RoomForScript(s.w, k, m, o.toTag);
    ScriptLength(invite, again, bye, o.toTag);
    InTurnFills(s, again, 1, o);
    var r := Run(s, InTurn(again, o));
    StillFull(s, r, again, 1, MessageOf(bye));
    FilledSlots(s, r, 1, 0);
    var v := TickAfter(r);
    StillExpiring(s, r, k, m, o.toTag, v, Timer(m.req.branch, DELETE_TIMEOUT, Some(k)));
    StillFindsFull(r.w, v.w, MessageOf(bye), 1);
    RunAppend(Start(k), [Arrive(invite), Work(o)], InTurn(again, o));
    RunAppend(Start(k), [Arrive(invite), Work(o)] + InTurn(again, o), [Tick(5000)]);
  }

  lemma ScriptLength(invite: Raw, again: seq<Raw>, bye: Raw, tag: string)
    requires FillScript(invite, again, bye, tag)
    ensures |again| == TXN_SLOTS - 1 && bye.id != invite.id && MessageOf(bye).req.kind == BYE
    ensures forall j :: 0 <= j < |again| ==> again[j].id != bye.id
  {
  }

  /** The state 5000 ms later. */
  lemma TickAfter(s: System) returns (v: System)
    requires Inv(s.w)
    ensures IsRun(s, [Tick(5000)]) && v == Run(s, [Tick(5000)]) && Inv(v.w)
    ensures v.w == s.w.(timers := v.w.timers) && v.w.timers.deleting == s.w.timers.deleting
    ensures v.queue == s.queue && v.received == s.received
  {
    hide Inv, Closed, BackLinks, TxnLinks, CallLinks, IsRun, Run;
    InvClosed(s.w);
    OneStep(s, Tick(5000));
    StepKeepsInv(s, Tick(5000));
    v := Run(s, [Tick(5000)]);
  }

  /** From the start: an INVITE, 31 re-INVITEs and a BYE, and when the first transaction is deleted the dialog goes
      with it, but a transaction still points at it. */
  lemma FullDialogDangles(k: nat, invite: Raw, again: seq<Raw>, bye: Raw, o: Oracle)
    requires FillScript(invite, again, bye, o.toTag) && AllWell(o)
    ensures SipText.Parse(invite.text).Some?
    ensures var x := Timer(MessageOf(invite).req.branch, DELETE_TIMEOUT, Some(k));
            var steps := FillSteps(k, invite, again, bye, o, x);
            && IsPath(Start(k), steps)
            && var r := Follow(Start(k), steps).w;
               !Closed(r) && exists t :: Dangling(r, t) && r.txns[t].dialog == Some(1)
  {
    hide SipText.Parse, Closed, IsRun, Run, IsPath, Follow, Inv, FillScript, FindsFull, Expiring, Dangling, InTurn,
         ByeThenEvent;
    FillRuns(k, invite, again, bye, o);
    var x := Timer(MessageOf(invite).req.branch, DELETE_TIMEOUT, Some(k));
    var first := [Arrive(invite), Work(o)] + InTurn(again, o) + [Tick(5000)];
    var s := Run(Start(k), first);
    RunIsPath(Start(k), first);
    ByeDangles(s, bye, 1, o, 0, x);
    PathAppend(Start(k), first, ByeThenEvent(bye, o, x));
  }
}
