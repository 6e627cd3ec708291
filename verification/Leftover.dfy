/** A run that shows two limits at work: a delete event left over from one transaction ends a later one with
    the same branch, and a further ACK makes the worker forget the one before. */
module Leftover {
  import opened SipTypes
  import opened WorkerModel
  import opened Outcomes
  import opened Invariants
  import opened WorkerSystem
  import opened Runs
  import opened Limits
  import opened Theorems
  import opened Ownership
  import Requests
  import SipText

  /** No dialogs and no calls. */
  ghost predicate Bare(w: Worker) {
    w.dialogOrder == [] && w.dialogs == map[] && w.callOrder == [] && w.calls == map[]
  }

  /** Nothing is allocated. */
  ghost predicate Vacant(w: Worker) {
    Bare(w) && w.txnOrder == [] && w.txns == map[]
  }

  /** All that is allocated is one transaction with branch `b` in state `s`, without a dialog. */
  ghost predicate Lone(w: Worker, b: Ident, s: TxnState) {
    && Bare(w) && |w.txnOrder| == 1 && w.txns.Keys == {w.txnOrder[0]}
    && var x := w.txns[w.txnOrder[0]];
       && x.branch == b && x.state == s && x.queue == Some(w.self)
       && x.dialog.None? && x.message.Some?
  }

  /** The request of the one transaction. */
  ghost predicate Asked(w: Worker, m: Message) {
    |w.txnOrder| == 1 && w.txnOrder[0] in w.txns && w.txns[w.txnOrder[0]].message == Some(m)
  }

  lemma VacantSound(w: Worker)
    requires Vacant(w)
    ensures Sound(w)
  {
  }

  lemma LoneSound(w: Worker, b: Ident, s: TxnState)
    requires Lone(w, b, s)
    ensures Sound(w)
  {
  }

  /** Whoever has this branch is found by it. */
  lemma LoneFound(w: Worker, b: Ident, s: TxnState)
    requires Lone(w, b, s) && b.length > 0
    ensures FindTxnOf(w, b) == Some(w.txnOrder[0])
  {
  }

  // ---------- requests ----------

  /** A branch a transaction keeps whole. */
  predicate Short(b: Ident) {
    Shown(b) && |b.text| <= MAX_ID_LENGTH && b.length > 0
  }

  lemma NothingToJoin(w: Worker, t: nat, req: Request)
    requires Bare(w) && t in w.txns
    ensures FindDialogOf(w, req).None? && AttachByTags(w, t, req) == w && Room(w, t, req)
  {
  }

  /** A fresh transaction in a worker that had none. */
  lemma AdoptLone(w: Worker, m: Message)
    requires Vacant(w) && Short(m.req.branch)
    ensures Lone(Adopt(w, m), m.req.branch, TxnIdle) && Asked(Adopt(w, m), m) && Adopt(w, m).timers == w.timers
    ensures Adopt(w, m).txnOrder == [w.nextId] && Adopt(w, m).self == w.self
    ensures Adopt(w, m).txns[w.nextId].ack.None? && Adopt(w, m).history == w.history
  {
  }

  lemma NewReady(w: Worker, m: Message, o: Oracle)
    requires Vacant(w) && Short(m.req.branch)
    ensures Closed(w) && Admissible(w, m, o)
    ensures o.allocTxn ==> Served(w, m, o) == Some((Adopt(w, m), w.nextId))
  {
    VacantSound(w);
    AdoptLone(w, m);
    NothingToJoin(Adopt(w, m), w.nextId, m.req);
    hide Adopt;
  }

  /** `r` is `w` with its one transaction moved to a settled state and the timer for it started. */
  ghost predicate Settles(w: Worker, r: Worker, b: Ident, s: TxnState) {
    && Lone(r, b, s) && r.self == w.self && r.timers.now == w.timers.now
    && r.timers.waitAck == w.timers.waitAck + (
         if s == TxnCompleted then multiset{Timer(b, w.timers.now + WAIT_ACK_TIMEOUT, Some(w.self))} else multiset{})
    && r.timers.deleting == w.timers.deleting + (
         if s == TxnTerminated then multiset{Timer(b, w.timers.now + DELETE_TIMEOUT, Some(w.self))} else multiset{})
  }

  /** An INVITE whose 100 cannot be sent is COMPLETED. */
  lemma InviteFails(w: Worker, m: Message, o: Oracle)
    requires Vacant(w) && Short(m.req.branch) && m.req.kind == INVITE && o.allocTxn && !o.send100 && o.lose == {}
    ensures Closed(w) && Admissible(w, m, o)
    ensures var r := ProcessRequest(w, m, o);
            && Settles(w, r, m.req.branch, TxnCompleted) && Asked(r, m) && r.txns[r.txnOrder[0]].ack.None?
            && r.history.displaced == w.history.displaced
  {
    hide Admissible, ProcessInvite, Adopt, ProcessRequest, SlotsLive, CallSlotsLive;
    NewReady(w, m, o);
    var v, t := Adopt(w, m), w.nextId;
    AdoptLone(w, m);
    ServedDispatch(w, m, o);
    NothingToJoin(v, t, m.req);
    InviteRefused(v, t, o);
  }

  /** An ACK for that INVITE finds its transaction and nothing to join. */
  lemma AckReady(w: Worker, m: Message, o: Oracle, invite: Message, st: TxnState)
    requires Lone(w, m.req.branch, st) && Asked(w, invite) && m.req.branch.length > 0
    requires invite.req.kind == INVITE && m.req.kind == ACK && m.req.cseq != invite.req.cseq
    ensures Closed(w) && Admissible(w, m, o) && FindTxnOf(w, m.req.branch) == Some(w.txnOrder[0])
    ensures var v := SetAck(w, w.txnOrder[0], m);
            && Served(w, m, o) == Some((v, w.txnOrder[0])) && AttachByTags(v, w.txnOrder[0], m.req) == v
  {
    hide FindTxn, SlotsLive, CallSlotsLive, TxnLinks, CallLinks, Bounded;
    LoneSound(w, m.req.branch, st);
    LoneFound(w, m.req.branch, st);
    NothingToJoin(SetAck(w, w.txnOrder[0], m), w.txnOrder[0], m.req);
  }

  /** The ACK of that INVITE makes it TERMINATED. */
  lemma AckEnds(w: Worker, m: Message, o: Oracle, invite: Message)
    requires Lone(w, m.req.branch, TxnCompleted) && Asked(w, invite) && m.req.branch.length > 0 && o.lose == {}
    requires invite.req.kind == INVITE && m.req.kind == ACK && m.req.cseq != invite.req.cseq
    requires w.txns[w.txnOrder[0]].ack.None?
    ensures Closed(w) && Admissible(w, m, o)
    ensures var r := ProcessRequest(w, m, o);
            && Settles(w, r, m.req.branch, TxnTerminated) && Holds(r, invite, m)
            && r.history.displaced == w.history.displaced
  {
    hide FindTxnOf, Admissible, Closed, ProcessRequest;
    AckReady(w, m, o, invite, TxnCompleted);
    ServedDispatch(w, m, o);
  }

  /** The one transaction holds an INVITE and its ACK. */
  ghost predicate Holds(w: Worker, invite: Message, ack: Message) {
    Asked(w, invite) && w.txns[w.txnOrder[0]].ack == Some(ack)
  }

  /** An ACK on a branch of its own is TERMINATED at once. */
  lemma NewAckEnds(w: Worker, m: Message, o: Oracle)
    requires Vacant(w) && Short(m.req.branch) && m.req.kind == ACK && o.allocTxn && o.lose == {}
    ensures Closed(w) && Admissible(w, m, o)
    ensures Settles(w, ProcessRequest(w, m, o), m.req.branch, TxnTerminated)
  {
    NewReady(w, m, o);
    var v, t := Adopt(w, m), w.nextId;
    AdoptLone(w, m);
    ServedDispatch(w, m, o);
    NothingToJoin(v, t, m.req);
    hide Admissible, Closed, Adopt;
  }

  /** A delete event for the branch ends the transaction. */
  lemma EventEnds(w: Worker, b: Ident, s: TxnState, o: Oracle)
    requires Lone(w, b, s) && b.length > 0
    ensures Sound(w) && Vacant(DeleteTransaction(w, b, o))
    ensures DeleteTransaction(w, b, o).timers == w.timers && DeleteTransaction(w, b, o).self == w.self
  {
    LoneSound(w, b, s);
    LoneFound(w, b, s);
  }

  // ---------- runs ----------

  /** The system holds one transaction or none, its queue is empty, and these are its clock and timers. */
  ghost predicate At(s: System, k: nat, now: nat, waitAck: multiset<Timer>, deleting: multiset<Timer>) {
    && s.queue == [] && s.w.self == k && s.w.timers.now == now
    && s.w.timers.waitAck == waitAck && s.w.timers.deleting == deleting
  }

  lemma SameLone(w: Worker, tm: Timers, b: Ident, s: TxnState)
    ensures Lone(w, b, s) <==> Lone(SetTimers(w, tm), b, s)
    ensures Vacant(w) <==> Vacant(SetTimers(w, tm))
  {
  }

  /** The timer `x` expires, and its event ends the transaction. */
  lemma EventHandled(s: System, k: nat, now: nat, waitAck: multiset<Timer>, x: Timer, st: TxnState, o: Oracle)
    requires At(s, k, now, waitAck, multiset{x}) && Lone(s.w, x.branch, st) && x.branch.length > 0
    ensures IsRun(s, [FireDelete(x), Work(o)])
    ensures var r := Run(s, [FireDelete(x), Work(o)]);
            At(r, k, now, waitAck, multiset{}) && Vacant(r.w) && r.received == s.received
  {
    hide Closed, BackLinks, TxnLinks, CallLinks, DeleteTransaction, Lone, Vacant;
    var v := SetTimers(s.w, s.w.timers.(deleting := multiset{}));
    assert s.w.timers.deleting - multiset{x} == multiset{};
    SameLone(s.w, v.timers, x.branch, st);
    LoneSound(s.w, x.branch, st);
    EventEnds(v, x.branch, st, o);
    TwoSteps(s, FireDelete(x), Work(o));
  }

  lemma TimePasses(s: System, k: nat, now: nat, waitAck: multiset<Timer>, deleting: multiset<Timer>, ms: nat)
    requires At(s, k, now, waitAck, deleting) && Sound(s.w)
    ensures IsRun(s, [Tick(ms)]) && At(Run(s, [Tick(ms)]), k, now + ms, waitAck, deleting)
    ensures Run(s, [Tick(ms)]) == s.(w := SetTimers(s.w, Run(s, [Tick(ms)]).w.timers))
  {
    hide Closed, BackLinks, TxnLinks, CallLinks;
    OneStep(s, Tick(ms));
  }

  lemma AckTimerFires(s: System, k: nat, now: nat, x: Timer)
    requires At(s, k, now, multiset{x}, multiset{}) && Sound(s.w)
    ensures IsRun(s, [FireAck(x, true)])
    ensures var r := Run(s, [FireAck(x, true)]);
            && At(r, k, now, multiset{}, multiset{Timer(x.branch, now + DELETE_TIMEOUT, x.queue)})
            && r == s.(w := SetTimers(s.w, r.w.timers))
  {
    hide Closed, BackLinks, TxnLinks, CallLinks;
    OneStep(s, FireAck(x, true));
  }

  // ---------- the run ----------

  /** Every allocation and send succeeds but the 100. */
  const REFUSING := Oracle(true, true, true, false, true, true, true, true, "", {})

  /** The packets of the run: an INVITE, its ACK, and an ACK with the same branch much later. */
  ghost predicate Script(invite: Raw, ack: Raw, late: Raw) {
    && invite.id != ack.id && invite.id != late.id && ack.id != late.id
    && var i, a, l := SipText.Parse(invite.text), SipText.Parse(ack.text), SipText.Parse(late.text);
       && i.Some? && i.value.kind == INVITE && Short(i.value.branch)
       && a.Some? && a.value.kind == ACK && a.value.branch == i.value.branch && a.value.cseq != i.value.cseq
       && l.Some? && l.value.kind == ACK && l.value.branch == i.value.branch
  }

  function AckTimer(k: nat, b: Ident): Timer { Timer(b, 5000, Some(k)) }

  /** The INVITE is COMPLETED and its ACK makes it TERMINATED: two events are on their way. */
  function First(invite: Raw, ack: Raw): seq<Step> {
    [Arrive(invite), Work(REFUSING)] + [Arrive(ack), Work(REFUSING)]
  }

  lemma FirstRuns(k: nat, invite: Raw, ack: Raw, late: Raw)
    requires Script(invite, ack, late)
    ensures IsRun(Start(k), First(invite, ack))
    ensures var r := Run(Start(k), First(invite, ack));
            var b := SipText.Parse(invite.text).value.branch;
            && At(r, k, 0, multiset{AckTimer(k, b)}, multiset{Timer(b, 5000, Some(k))})
            && Lone(r.w, b, TxnTerminated) && r.received == multiset{invite.id, ack.id}
            && Holds(r.w, MessageOf(invite), MessageOf(ack)) && r.w.history.displaced == multiset{}
  {
    hide SipText.Parse, Lone, Vacant, Closed, BackLinks, TxnLinks, CallLinks, Admissible, ProcessRequest, IsRun, Run, SameRequest;
    var i, a := SipText.Parse(invite.text).value, SipText.Parse(ack.text).value;
    var m, n := Message(invite.id, invite.addr, i), Message(ack.id, ack.addr, a);
    VacantAtStart(k);
    VacantSound(Start(k).w);
    InviteFails(Start(k).w, m, REFUSING);
    PacketHandled(Start(k), invite, m, REFUSING);
    var s := Run(Start(k), [Arrive(invite), Work(REFUSING)]);
    assert s == System(ProcessRequest(Start(k).w, m, REFUSING), [], multiset{invite.id}, multiset{});
    LoneSound(s.w, i.branch, TxnCompleted);
    AckEnds(s.w, n, REFUSING, m);
    PacketHandled(s, ack, n, REFUSING);
    RunAppend(Start(k), [Arrive(invite), Work(REFUSING)], [Arrive(ack), Work(REFUSING)]);
  }

  lemma VacantAtStart(k: nat)
    ensures Vacant(Start(k).w) && At(Start(k), k, 0, multiset{}, multiset{}) && Start(k).received == multiset{}
    ensures Start(k).handled == multiset{} && Start(k).w.history.displaced == multiset{}
  {
  }

  /** The event of TERMINATED deletes the transaction; that of COMPLETED is still a timer. */
  function Second(k: nat, b: Ident): seq<Step> {
    [Tick(5000)] + [FireDelete(Timer(b, 5000, Some(k))), Work(REFUSING)] + [FireAck(AckTimer(k, b), true)] + [Tick(4999)]
  }

  lemma SecondRuns(s: System, k: nat, b: Ident)
    requires At(s, k, 0, multiset{AckTimer(k, b)}, multiset{Timer(b, 5000, Some(k))})
    requires Lone(s.w, b, TxnTerminated) && b.length > 0
    ensures IsRun(s, Second(k, b))
    ensures var r := Run(s, Second(k, b));
            At(r, k, 9999, multiset{}, multiset{Timer(b, 10000, Some(k))}) && Vacant(r.w) && r.received == s.received
  {
    hide Lone, Vacant, IsRun, Run, At, Closed, BackLinks, TxnLinks, CallLinks;
    var x, y := Timer(b, 5000, Some(k)), AckTimer(k, b);
    LoneSound(s.w, b, TxnTerminated);
    TimePasses(s, k, 0, multiset{y}, multiset{x}, 5000);
    var s1 := Run(s, [Tick(5000)]);
    SameLone(s.w, s1.w.timers, b, TxnTerminated);
    EventHandled(s1, k, 5000, multiset{y}, x, TxnTerminated, REFUSING);
    var s2 := Run(s1, [FireDelete(x), Work(REFUSING)]);
    VacantSound(s2.w);
    AckTimerFires(s2, k, 5000, y);
    var s3 := Run(s2, [FireAck(y, true)]);
    SameLone(s2.w, s3.w.timers, b, TxnTerminated);
    VacantSound(s3.w);
    TimePasses(s3, k, 5000, multiset{}, multiset{Timer(b, 10000, Some(k))}, 4999);
    SameLone(s3.w, Run(s3, [Tick(4999)]).w.timers, b, TxnTerminated);
    RunAppend(s, [Tick(5000)], [FireDelete(x), Work(REFUSING)]);
    RunAppend(s, [Tick(5000)] + [FireDelete(x), Work(REFUSING)], [FireAck(y, true)]);
    RunAppend(s, [Tick(5000)] + [FireDelete(x), Work(REFUSING)] + [FireAck(y, true)], [Tick(4999)]);
  }

  /** A later request makes a new transaction with the branch, TERMINATED at once; a millisecond later
      the event of the first one's COMPLETED arrives. */
  function Third(k: nat, b: Ident, late: Raw): seq<Step> {
    [Arrive(late), Work(REFUSING)] + [Tick(1)] + [FireDelete(Timer(b, 10000, Some(k)))]
  }

  lemma ThirdRuns(s: System, k: nat, b: Ident, late: Raw)
    requires At(s, k, 9999, multiset{}, multiset{Timer(b, 10000, Some(k))}) && Vacant(s.w) && late.id !in s.received
    requires Short(b) && SipText.Parse(late.text).Some?
    requires SipText.Parse(late.text).value.kind == ACK && SipText.Parse(late.text).value.branch == b
    ensures IsRun(s, Third(k, b, late))
    ensures var r := Run(s, Third(k, b, late));
            && Lone(r.w, b, TxnTerminated) && r.queue == [DeleteEvent(b)]
            && r.w.timers.now == 10000 && r.w.timers.deleting == multiset{Timer(b, 14999, Some(k))}
  {
    hide Lone, Vacant, IsRun, Run, Closed, BackLinks, TxnLinks, CallLinks, SipText.Parse, ProcessRequest, Admissible;
    var l := Message(late.id, late.addr, SipText.Parse(late.text).value);
    VacantSound(s.w);
    NewAckEnds(s.w, l, REFUSING);
    PacketHandled(s, late, l, REFUSING);
    var s1 := Run(s, [Arrive(late), Work(REFUSING)]);
    var x, y := Timer(b, 10000, Some(k)), Timer(b, 14999, Some(k));
    LoneSound(s1.w, b, TxnTerminated);
    TimePasses(s1, k, 9999, multiset{}, multiset{x, y}, 1);
    var s2 := Run(s1, [Tick(1)]);
    SameLone(s1.w, s2.w.timers, b, TxnTerminated);
    LoneSound(s2.w, b, TxnTerminated);
    OneStep(s2, FireDelete(x));
    SameLone(s2.w, Next(s2, FireDelete(x)).w.timers, b, TxnTerminated);
    assert multiset{x, y} - multiset{x} == multiset{y};
    RunAppend(s, [Arrive(late), Work(REFUSING)], [Tick(1)]);
    RunAppend(s, [Arrive(late), Work(REFUSING)] + [Tick(1)], [FireDelete(x)]);
  }

  function Steps(k: nat, invite: Raw, ack: Raw, late: Raw, b: Ident): seq<Step> {
    First(invite, ack) + Second(k, b) + Third(k, b, late)
  }

  /** The delete event left over from a COMPLETED transaction deletes a later transaction with the same
      branch one millisecond after that became TERMINATED; its own event is due at 14999. */
  lemma LeftoverEventDeletes(k: nat, invite: Raw, ack: Raw, late: Raw)
    requires Script(invite, ack, late)
    ensures var b := SipText.Parse(invite.text).value.branch;
            && IsRun(Start(k), Steps(k, invite, ack, late, b))
            && var s := Run(Start(k), Steps(k, invite, ack, late, b));
               && Lone(s.w, b, TxnTerminated) && s.w.timers.now == 10000
               && s.w.timers.deleting == multiset{Timer(b, 14999, Some(k))}
               && Allowed(s, Work(REFUSING)) && Next(s, Work(REFUSING)).w.txns == map[]
  {
    hide IsRun, Run, Lone, SipText.Parse, First, Second, Third, Closed, BackLinks, TxnLinks, CallLinks, At;
    var b := SipText.Parse(invite.text).value.branch;
    FirstRuns(k, invite, ack, late);
    var s1 := Run(Start(k), First(invite, ack));
    SecondRuns(s1, k, b);
    var s2 := Run(s1, Second(k, b));
    ThirdRuns(s2, k, b, late);
    var s3 := Run(s2, Third(k, b, late));
    RunAppend(Start(k), First(invite, ack), Second(k, b));
    RunAppend(Start(k), First(invite, ack) + Second(k, b), Third(k, b, late));
    EventEnds(s3.w, b, TxnTerminated, REFUSING);
  }

  /** A further ACK is handled in the state the first one left. */
  lemma FurtherAckRuns(s: System, late: Raw, invite: Message, ack: Message, b: Ident)
    requires Inv(s.w) && s.queue == [] && Lone(s.w, b, TxnTerminated) && Holds(s.w, invite, ack) && b.length > 0
    requires late.id !in s.received && SipText.Parse(late.text).Some? && SipText.Parse(late.text).value.branch == b
    requires invite.req.kind == INVITE && SipText.Parse(late.text).value.kind == ACK
    requires SipText.Parse(late.text).value.cseq != invite.req.cseq
    ensures var steps := [Arrive(late), Work(REFUSING)];
            IsRun(s, steps) && Run(s, steps).w.history.displaced == s.w.history.displaced + multiset{ack.id}
  {
    hide IsRun, Run, Lone, SipText.Parse, Closed, BackLinks, TxnLinks, CallLinks, Admissible, ProcessRequest, Inv, SameRequest;
    LoneSound(s.w, b, TxnTerminated);
    var l := MessageOf(late);
    AckReady(s.w, l, REFUSING, invite, TxnTerminated);
    PacketHandled(s, late, l, REFUSING);
    FurtherAck(s.w, l, REFUSING, invite, ack);
  }

  /** A further ACK for the same INVITE makes the worker forget the first one: it is never freed. */
  lemma SecondAckDisplaces(k: nat, invite: Raw, ack: Raw, late: Raw)
    requires Script(invite, ack, late) && SipText.Parse(late.text).value.cseq != SipText.Parse(invite.text).value.cseq
    ensures var steps := First(invite, ack) + [Arrive(late), Work(REFUSING)];
            && IsRun(Start(k), steps)
            && var r := Run(Start(k), steps);
               ack.id in r.received && r.w.history.displaced == multiset{ack.id} && ack.id !in r.w.history.freed
  {
    hide IsRun, Run, Lone, SipText.Parse, First, Inv, Conserved, At;
    var first, second := First(invite, ack), [Arrive(late), Work(REFUSING)];
    FirstRuns(k, invite, ack, late);
    var s := Run(Start(k), first);
    var b := SipText.Parse(invite.text).value.branch;
    ReachableGood(k, first);
    EmptyAt(s, k, 0, multiset{AckTimer(k, b)}, multiset{Timer(b, 5000, Some(k))});
    FurtherAckRuns(s, late, MessageOf(invite), MessageOf(ack), b);
    RunAppend(Start(k), first, second);
    ReachableGood(k, first + second);
    DisplacedUnfreed(Run(Start(k), first + second), ack.id);
  }

  lemma EmptyAt(s: System, k: nat, now: nat, waitAck: multiset<Timer>, deleting: multiset<Timer>)
    requires At(s, k, now, waitAck, deleting)
    ensures s.queue == []
  {
  }

  lemma FurtherAck(w: Worker, m: Message, o: Oracle, invite: Message, ack: Message)
    requires Inv(w) && Closed(w) && Holds(w, invite, ack) && FindTxnOf(w, m.req.branch) == Some(w.txnOrder[0])
    requires invite.req.kind == INVITE && m.req.kind == ACK && m.req.cseq != invite.req.cseq
    ensures ProcessRequest(w, m, o).history.displaced == w.history.displaced + multiset{ack.id}
  {
    hide Consistent, Branches, Closed, ProcessRequest, FindTxn;
    DisplacedIff(w, m, o);
  }

  /** A request with branch "z9", written out. */
  function Line(verb: string, cseq: string): Requests.Parts {
    Requests.Parts(verb, "sip:b", "UDP h" + ";" + "branch=" + "z9", "a" + ";" + "tag=" + "1", "b", "c", cseq)
  }

  lemma LineParses(verb: string, cseq: string)
    requires Requests.Verb(verb) && Requests.Tidy(cseq) && cseq != "" && ';' !in cseq
    ensures var p := SipText.Parse(Requests.Written(Line(verb, cseq)));
            && p.Some? && p.value.branch == Whole("z9") && p.value.cseq == cseq && p.value.kind == SipText.Classify(verb)
  {
    var x := Line(verb, cseq);
    assert Requests.Tidy("UDP h") && Requests.Tidy("a") && Requests.Tidy("b") && Requests.Tidy("c");
    assert ';' !in "UDP h" && ' ' !in x.uri && '\r' !in x.uri;
    hide Requests.Verb, Requests.Tidy, Requests.Proper, Requests.Written, SipText.Parse, SipText.Classify, Requests.ToTagOf;
    Requests.FirstRequestIsProper(x, "UDP h", "z9", "a", "1");
    Requests.WrittenParses(x);
  }

  lemma InviteLine()
    ensures var p := SipText.Parse(Requests.Written(Line("INVITE", "1 INVITE")));
            p.Some? && p.value.branch == Whole("z9") && p.value.cseq == "1 INVITE" && p.value.kind == INVITE
  {
    Requests.ProperVerb();
    assert Requests.Tidy("1 INVITE") && ';' !in "1 INVITE";
    hide Requests.Verb, Requests.Tidy, Requests.Written, SipText.Parse, SipText.Classify, Line;
    LineParses("INVITE", "1 INVITE");
  }

  lemma AckLine()
    ensures var p := SipText.Parse(Requests.Written(Line("ACK", "1 ACK")));
            p.Some? && p.value.branch == Whole("z9") && p.value.cseq == "1 ACK" && p.value.kind == ACK
  {
    Requests.AckVerb();
    assert Requests.Tidy("1 ACK") && ';' !in "1 ACK";
    hide Requests.Verb, Requests.Tidy, Requests.Written, SipText.Parse, SipText.Classify, Line;
    LineParses("ACK", "1 ACK");
  }

  /** There are such packets. */
  lemma ScriptExample(invite: Raw, ack: Raw, late: Raw)
    requires invite.id == 0 && invite.text == Requests.Written(Line("INVITE", "1 INVITE"))
    requires ack.id == 1 && late.id == 2 && ack.text == late.text == Requests.Written(Line("ACK", "1 ACK"))
    ensures Script(invite, ack, late)
  {
    hide Requests.Written, SipText.Parse, Line;
    InviteLine();
    AckLine();
    assert |"1 INVITE"| != |"1 ACK"|;
  }
}
