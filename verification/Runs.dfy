/** Runs put together from steps, and runs on which a request may find no free slot. */
module Runs {
  import opened SipTypes
  import opened WorkerModel
  import opened Invariants
  import opened WorkerSystem
  import SipText

  /** The pointers a step may follow are valid. */
  ghost predicate Sound(w: Worker) {
    Closed(w) && BackLinks(w) && CallLinks(w)
  }

  lemma {:induction false} RunAppend(s: System, a: seq<Step>, b: seq<Step>)
    requires IsRun(s, a) && IsRun(Run(s, a), b)
    ensures IsRun(s, a + b) && Run(s, a + b) == Run(Run(s, a), b)
    decreases |a|
  {
    hide Next, Closed, BackLinks, CallLinks, Admissible, Enabled;
    if a == [] {
      assert a + b == b;
    } else {
      RunAppend(Next(s, a[0]), a[1..], b);
      assert (a + b)[1..] == a[1..] + b;
    }
  }

  lemma OneStep(s: System, step: Step)
    requires Allowed(s, step)
    ensures IsRun(s, [step]) && Run(s, [step]) == Next(s, step)
  {
    hide Next, Closed, BackLinks, CallLinks, Admissible, Enabled;
  }

  lemma TwoSteps(s: System, a: Step, b: Step)
    requires Allowed(s, a) && Allowed(Next(s, a), b)
    ensures IsRun(s, [a, b]) && Run(s, [a, b]) == Next(Next(s, a), b)
  {
    hide Next, Closed, BackLinks, CallLinks, Admissible, Enabled;
    OneStep(s, a);
    OneStep(Next(s, a), b);
    RunAppend(s, [a], [b]);
    assert [a] + [b] == [a, b];
  }

  /** The message a packet parses to. */
  function MessageOf(raw: Raw): Message
    requires SipText.Parse(raw.text).Some?
  {
    Message(raw.id, raw.addr, SipText.Parse(raw.text).value)
  }

  /** A packet is received and handled. */
  lemma PacketHandled(s: System, raw: Raw, m: Message, o: Oracle)
    requires s.queue == [] && Sound(s.w) && raw.id !in s.received
    requires SipText.Parse(raw.text) == Some(m.req) && m.id == raw.id && m.addr == raw.addr && Admissible(s.w, m, o)
    ensures IsRun(s, [Arrive(raw), Work(o)])
    ensures Run(s, [Arrive(raw), Work(o)])
            == System(ProcessRequest(s.w, m, o), [], s.received + multiset{raw.id}, s.handled)
  {
    hide Admissible, Closed, BackLinks, CallLinks, SipText.Parse, ProcessRequest;
    TwoSteps(s, Arrive(raw), Work(o));
  }

  // ---------- paths ----------

  /** Steps that may be taken, whatever slots the requests find. */
  ghost predicate IsPath(s: System, steps: seq<Step>)
    decreases |steps|
  {
    steps == [] || (Enabled(s, steps[0]) && Sound(s.w) && IsPath(Next(s, steps[0]), steps[1..]))
  }

  ghost function Follow(s: System, steps: seq<Step>): System
    requires IsPath(s, steps)
    decreases |steps|
  {
    if steps == [] then s else Follow(Next(s, steps[0]), steps[1..])
  }

  /** Every run is a path. */
  lemma {:induction false} RunIsPath(s: System, steps: seq<Step>)
    requires IsRun(s, steps)
    ensures IsPath(s, steps) && Follow(s, steps) == Run(s, steps)
    decreases |steps|
  {
    hide Next, Closed, BackLinks, CallLinks, Admissible, Enabled;
    if steps != [] { RunIsPath(Next(s, steps[0]), steps[1..]); }
  }

  lemma {:induction false} PathAppend(s: System, a: seq<Step>, b: seq<Step>)
    requires IsPath(s, a) && IsPath(Follow(s, a), b)
    ensures IsPath(s, a + b) && Follow(s, a + b) == Follow(Follow(s, a), b)
    decreases |a|
  {
    hide Next, Closed, BackLinks, CallLinks, Enabled;
    if a == [] {
      assert a + b == b;
    } else {
      PathAppend(Next(s, a[0]), a[1..], b);
      assert (a + b)[1..] == a[1..] + b;
    }
  }

  lemma OnePath(s: System, step: Step)
    requires Enabled(s, step) && Sound(s.w)
    ensures IsPath(s, [step]) && Follow(s, [step]) == Next(s, step)
  {
    hide Next, Closed, BackLinks, CallLinks, Enabled;
  }

  lemma TwoPath(s: System, a: Step, b: Step)
    requires Enabled(s, a) && Sound(s.w) && Enabled(Next(s, a), b) && Sound(Next(s, a).w)
    ensures IsPath(s, [a, b]) && Follow(s, [a, b]) == Next(Next(s, a), b)
  {
    hide Next, Closed, BackLinks, CallLinks, Enabled;
    OnePath(s, a);
    OnePath(Next(s, a), b);
    PathAppend(s, [a], [b]);
    assert [a] + [b] == [a, b];
  }

  /** A packet is received and handled, whatever slots it finds. */
  lemma PacketFollowed(s: System, raw: Raw, o: Oracle)
    requires s.queue == [] && Sound(s.w) && raw.id !in s.received && SipText.Parse(raw.text).Some?
    ensures IsPath(s, [Arrive(raw), Work(o)])
    ensures Follow(s, [Arrive(raw), Work(o)])
            == System(ProcessRequest(s.w, MessageOf(raw), o), [], s.received + multiset{raw.id}, s.handled)
  {
    hide Closed, BackLinks, CallLinks, SipText.Parse, ProcessRequest;
    TwoPath(s, Arrive(raw), Work(o));
  }

  /** A delete timer fires, and its event is handled. */
  lemma EventFollowed(s: System, x: Timer, o: Oracle)
    requires s.queue == [] && Sound(s.w) && x in s.w.timers.deleting
    ensures var v := SetTimers(s.w, s.w.timers.(deleting := s.w.timers.deleting - multiset{x}));
            && Sound(v) && IsPath(s, [FireDelete(x), Work(o)])
            && Follow(s, [FireDelete(x), Work(o)]).w == DeleteTransaction(v, x.branch, o)
  {
    hide DeleteTransaction, SlotsLive, CallSlotsLive;
    var v := SetTimers(s.w, s.w.timers.(deleting := s.w.timers.deleting - multiset{x}));
    SameObjectsSound(s.w, v);
    TwoPath(s, FireDelete(x), Work(o));
  }

  lemma SameObjectsSound(w: Worker, v: Worker)
    requires Sound(w) && v == w.(timers := v.timers)
    ensures Sound(v)
  {
    forall d | d in v.dialogs ensures SlotsLive(v, d) { assert SlotsLive(w, d); }
    forall c | c in v.calls ensures CallSlotsLive(v, c) { assert CallSlotsLive(w, c); }
  }
}
