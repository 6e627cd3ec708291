/** The state that an answered first INVITE leaves, and a BYE that does not find its dialog. */
module Answered {
  import opened SipTypes
  import opened SipText
  import opened WorkerModel
  import opened Outcomes
  import opened Invariants
  import opened WorkerSystem
  import opened Runs
  import opened ByeOnce
  import opened Reachability
  import opened Theorems

  /** Every allocation and every send succeeds, and no event is lost. */
  ghost predicate AllWell(o: Oracle) {
    o.allocTxn && o.allocDialog && o.allocCall && o.send100 && o.send180 && o.send200 && o.lose == {}
  }

  /** A request that opens a call in a worker that has none. */
  ghost predicate Opening(m: Message) {
    && m.req.kind == INVITE && m.req.callId != "" && m.req.fromTag.length > 0
    && Shown(m.req.branch) && m.req.branch.length > 0
  }

  /** One transaction, 0, in one CONFIRMED dialog, 1, with one ESTABLISHED call, 2, opened by `m`. */
  ghost predicate OneCall(w: Worker, k: nat, m: Message, tag: string) {
    && w.self == k && w.nextId == 3 && w.txns.Keys == {0} && w.dialogs.Keys == {1} && w.calls.Keys == {2}
    && w.txns[0].state == TxnTerminated && w.txns[0].dialog == Some(1)
    && w.txns[0].branch == Cut(m.req.branch, MAX_ID_LENGTH)
    && w.dialogOrder == [1]
    && w.dialogs[1] == Dialog(OneSlot(TXN_SLOTS, 0), Some(2), DialogConfirmed, Cut(m.req.fromTag, MAX_ID_LENGTH), tag)
    && w.calls[2].state == CallEstablished
    && w.timers.now == 0 && w.timers.waitAck == multiset{}
    && w.timers.deleting == multiset{Timer(Cut(m.req.branch, MAX_ID_LENGTH), DELETE_TIMEOUT, Some(k))}
  }

  lemma FirstOpens(k: nat, m: Message, o: Oracle)
    requires Opening(m) && AllWell(o)
    ensures var w := Start(k).w; Sound(w) && Admissible(w, m, o) && Opens(w, m, o)
  {
  }

  lemma FirstAnswered(k: nat, m: Message, o: Oracle)
    requires Opening(m) && AllWell(o)
    ensures var w := Start(k).w;
            Sound(w) && Admissible(w, m, o) && Opens(w, m, o) && OneCall(ProcessRequest(w, m, o), k, m, o.toTag)
  {
    hide ProcessRequest, ProcessInvite, DialogEnds, StartDialog, OneCall;
    var w := Start(k).w;
    FirstOpens(k, m, o);
    OpensInvite(w, m, o);
    InviteAccepted(Adopt(w, m), 0, o);
    FirstEnds(k, m, o, ProcessInvite(Adopt(w, m), 0, o));
  }

  lemma FirstEnds(k: nat, m: Message, o: Oracle, r: Worker)
    requires Opening(m) && AllWell(o)
    requires DialogEnds(StartDialog(Adopt(Start(k).w, m), 0, m.req.fromTag, o.toTag), r, 0, 1, m.req.callId, o)
    ensures OneCall(r, k, m, o.toTag)
  {
    hide OneSlot, Cut;
    StartDialogEffect(Adopt(Start(k).w, m), 0, m.req.fromTag, o.toTag);
  }

  /** The packet is received and handled, and the call stands. */
  lemma FirstCallRuns(k: nat, invite: Raw, o: Oracle)
    requires Parse(invite.text).Some? && MessageOf(invite).req.kind == INVITE && MessageOf(invite).req.callId != ""
    requires AllWell(o)
    ensures var steps := [Arrive(invite), Work(o)];
            && IsRun(Start(k), steps) && Opens(Start(k).w, MessageOf(invite), o)
            && var s := Run(Start(k), steps);
               s == System(ProcessRequest(Start(k).w, MessageOf(invite), o), [], multiset{invite.id}, multiset{})
               && OneCall(s.w, k, MessageOf(invite), o.toTag) && Inv(s.w)
  {
    hide Parse, ProcessRequest, Closed, BackLinks, TxnLinks, CallLinks, Admissible, IsRun, Run, OneCall, Opens, Good, Inv;
    var m := MessageOf(invite);
    ParsedShown(invite.text);
    FirstAnswered(k, m, o);
    PacketHandled(Start(k), invite, m, o);
    ReachableGood(k, [Arrive(invite), Work(o)]);
    GoodGraph(Run(Start(k), [Arrive(invite), Work(o)]));
  }

  // ---------- a BYE that misses its dialog ----------

  /** A BYE that names no dialog is answered 404, and changes no dialog and no call. */
  lemma StrangerByeGets404(w: Worker, m: Message, o: Oracle)
    requires Inv(w) && Closed(w) && FindTxnOf(w, m.req.branch).None? && m.req.kind == BYE
    requires o.allocTxn && m.req.branch.length > 0 && FindDialogOf(w, m.req).None?
    ensures var r := ProcessRequest(w, m, o);
            && r.dialogs == w.dialogs && r.calls == w.calls && |r.history.sent| == |w.history.sent| + 1
            && r.history.sent[|w.history.sent|].code == 404 && r.history.sent[|w.history.sent|].txn == Some(w.nextId)
  {
    NewByeAnswered(w, m, o);
    hide Inv, FindTxn, FindDialog, SlotsLive, CallSlotsLive;
  }

  /** Packets of which the second is a BYE, on a branch of its own, that copies From and To from the 200 for the
      first. */
  ghost predicate ByeScript(invite: Raw, bye: Raw, tag: string) {
    && invite.id != bye.id && Parse(invite.text).Some? && Parse(bye.text).Some?
    && var i, b := Parse(invite.text).value, Parse(bye.text).value;
       && i.kind == INVITE && i.callId != "" && b.kind == BYE
       && |b.branch.text| <= MAX_ID_LENGTH && b.branch != Cut(i.branch, MAX_ID_LENGTH)
       && TagShown(i, 200, tag) && CopiesResponse(bye.text, i, 200, tag)
  }

  lemma OtherTagMisses(k: nat, invite: Raw, bye: Raw, o: Oracle, w: Worker)
    requires ByeScript(invite, bye, o.toTag) && ';' in MessageOf(invite).req.to
    requires OneCall(w, k, MessageOf(invite), o.toTag) && Inv(w)
    ensures FindDialogOf(w, MessageOf(bye).req).None?
  {
    hide Parse, TagShown, CopiesResponse, FindDialog, Coupled, Branches, Sizes, TxnLinks, CallLinks;
    var i, b := MessageOf(invite).req, MessageOf(bye).req;
    ParsedShown(invite.text);
    ParsedShown(bye.text);
    ResponseTags(invite.text, bye.text, i, b, 200, o.toTag);
    FoundByIff(w, 1, i.fromTag, o.toTag, b.fromTag, b.toTag);
  }

  /** The last response was a 404 for transaction 3, and the call is still there. */
  ghost predicate CallStays(w: Worker) {
    && w.history.sent != [] && w.history.sent[|w.history.sent| - 1].code == 404
    && w.history.sent[|w.history.sent| - 1].txn == Some(3)
    && 1 in w.dialogs && w.dialogs[1].state == DialogConfirmed && 2 in w.calls && w.calls[2].state == CallEstablished
  }

  lemma ByeMisses(k: nat, invite: Raw, bye: Raw, o: Oracle, w: Worker)
    requires ByeScript(invite, bye, o.toTag) && ';' in MessageOf(invite).req.to && AllWell(o)
    requires OneCall(w, k, MessageOf(invite), o.toTag) && Inv(w)
    ensures Sound(w) && Admissible(w, MessageOf(bye), o) && CallStays(ProcessRequest(w, MessageOf(bye), o))
  {
    hide Parse, ProcessRequest, Closed, BackLinks, TxnLinks, CallLinks, Admissible, Inv, TagShown, CopiesResponse, OneSlot;
    OtherTagMisses(k, invite, bye, o, w);
    ByeReady(k, invite, bye, o, w);
    StrangerByeGets404(w, MessageOf(bye), o);
  }

  /** From the start: when the INVITE's To has a ';', be it in its URI, the BYE that copies the To of the 200 is
      answered 404, and the call stays ESTABLISHED. */
  lemma ByeMissesDialog(k: nat, invite: Raw, bye: Raw, o: Oracle)
    requires ByeScript(invite, bye, o.toTag) && ';' in MessageOf(invite).req.to && AllWell(o)
    ensures var steps := [Arrive(invite), Work(o)] + [Arrive(bye), Work(o)];
            IsRun(Start(k), steps) && CallStays(Run(Start(k), steps).w)
  {
    hide Parse, ProcessRequest, Closed, BackLinks, TxnLinks, CallLinks, Admissible, IsRun, Run, Inv, Opens, TagShown,
         CopiesResponse, OneCall, CallStays;
    FirstCallRuns(k, invite, o);
    var s := Run(Start(k), [Arrive(invite), Work(o)]);
    ByeMisses(k, invite, bye, o, s.w);
    ByeHandled(s, bye, o);
    RunAppend(Start(k), [Arrive(invite), Work(o)], [Arrive(bye), Work(o)]);
  }

  lemma ByeHandled(s: System, bye: Raw, o: Oracle)
    requires s.queue == [] && bye.id !in s.received && Sound(s.w) && Parse(bye.text).Some?
    requires Admissible(s.w, MessageOf(bye), o)
    ensures IsRun(s, [Arrive(bye), Work(o)])
    ensures Run(s, [Arrive(bye), Work(o)]).w == ProcessRequest(s.w, MessageOf(bye), o)
  {
    hide Parse, ProcessRequest, Closed, BackLinks, TxnLinks, CallLinks, Admissible, IsRun, Run;
    PacketHandled(s, bye, MessageOf(bye), o);
  }

  lemma ByeReady(k: nat, invite: Raw, bye: Raw, o: Oracle, w: Worker)
    requires ByeScript(invite, bye, o.toTag) && OneCall(w, k, MessageOf(invite), o.toTag) && Inv(w)
    requires FindDialogOf(w, MessageOf(bye).req).None? && o.allocTxn
    ensures var m := MessageOf(bye);
            && Sound(w) && FindTxnOf(w, m.req.branch).None? && Admissible(w, m, o) && m.req.kind == BYE
            && m.req.branch.length > 0
  {
    hide Parse, TagShown, CopiesResponse, Coupled, FindDialog, FindTxn;
    ParsedShown(bye.text);
    InvClosed(w);
    var b := MessageOf(bye).req.branch;
    var t := FindTxnOf(w, b);
    if t.Some? { MatchIsEquality(w.txns[0].branch, b); }
  }
}
