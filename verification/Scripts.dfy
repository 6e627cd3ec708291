/** Packets, written out, that make the runs of which the other modules speak. */
module Scripts {
  import opened SipTypes
  import opened Scanner
  import opened SipText
  import opened Responses
  import opened RoundTrip
  import opened WorkerModel
  import opened Invariants
  import opened WorkerSystem
  import opened Runs
  import opened Reachability
  import opened Requests
  import opened Answered
  import opened Overfull
  import opened Theorems
  import Partition
  import opened Dispatch

  /** A tag such as the server makes: sixteen digits. */
  function Tag(): (r: string)
    ensures |r| == BUILD_TAG_LENGTH && '\r' !in r && forall i :: 0 <= i < |r| ==> r[i] == '9'
  {
    "9999999999999999"
  }

  /** A request from one sender, with its own branch, To, Call-ID and CSeq. */
  function Call(verb: string, branch: string, to: string, callId: string, cseq: string): Parts {
    Parts(verb, "sip:b", "h" + ";" + "branch=" + branch, "a" + ";" + "tag=" + "1", to, callId, cseq)
  }

  lemma CallIsProper(verb: string, branch: string, to: string, callId: string, cseq: string)
    requires Verb(verb) && branch != "" && '\r' !in branch && Tidy(to) && to != "" && (';' !in to || ParamWithin(to, TAG_SKIP))
    requires Tidy(callId) && ';' !in callId && Tidy(cseq) && cseq != "" && ';' !in cseq
    ensures var x := Call(verb, branch, to, callId, cseq);
            && Proper(x) && Meant(x).branch == Whole(branch) && Meant(x).fromTag == Whole("1")
            && Parse(Written(x)) == Some(Meant(x)) && Meant(x).kind == Classify(verb)
  {
    var x := Call(verb, branch, to, callId, cseq);
    assert Tidy("h") && Tidy("a") && ' ' !in x.uri && '\r' !in x.uri && ToSettled(x);
    hide Verb, Tidy, Proper, Written, Parse, Classify, ToTagOf, ToSettled, ParamWithin, BehindTo;
    FirstRequestIsProper(x, "h", branch, "a", "1");
    WrittenParses(x);
  }

  lemma ByeVerb()
    ensures Verb("BYE") && Classify("BYE") == BYE
  {
    assert MatchesAt("BYE", 0, "BYE") && Lower("BYE"[0]) != Lower("ACK"[0]);
    assert "BYE"[..3][0] != "SIP"[0];
  }

  lemma NoNine(text: string)
    requires '9' !in text
    ensures !Contains(text, Tag())
  {
    forall i: nat | i <= |text| ensures !OccursAt(text, i, Tag()) {
      if i + |Tag()| <= |text| { assert text[i..i + |Tag()|][0] == text[i] && Tag()[0] == '9'; }
    }
  }

  /** Nothing in such a request hides the tag from the answer. */
  lemma TagIsShown(x: Parts)
    requires Proper(x) && '9' !in x.to && '9' !in x.callId && '9' !in x.cseq
    requires |x.via| + |x.from| + |x.to| + |x.callId| + |x.cseq| <= 900
    ensures TagShown(Meant(x), 200, Tag())
  {
    hide Clean, Verb, ParamWithin, Contains, ParamOf, Classify, ToTagOf, Layout, StatusLine, TagSuffix, BehindTo;
    NotBehind(x, '9');
    NoNine(BehindTo(x));
    var r := Meant(x);
    StatusLineIsFree(200);
    SuffixLength(r, Some(Tag()));
    LayoutLength(200, r.via, r.from, r.to + TagSuffix(r, Some(Tag())), r.callId, r.cseq);
  }

  /** A request written with the From and the answered To of another copies them from the response. */
  lemma WrittenCopiesResponse(x: Parts, y: Parts, tag: string)
    requires Proper(x) && Proper(y) && y.from == x.from && y.to == x.to + ";tag=" + tag && TagShown(Meant(x), 200, tag)
    ensures CopiesResponse(Written(y), Meant(x), 200, tag)
  {
    hide Clean, Verb, ParamWithin, Written, Header, FindHeader, Lines, Fill, Print, Contains, Parse, ParamOf, BehindTo,
         ToTagOf, Classify, Echoes;
    WrittenParses(x);
    SuffixAdded(Meant(x), tag);
    ResponseReadsBack(Written(x), Meant(x), 200, Some(tag));
    EchoedHeaders(Fill(Printed(200, Meant(x), Some(tag))).0, Meant(x), x.to + ";tag=" + tag);
    HeaderReadsBack(y, 1);
    HeaderReadsBack(y, 2);
  }

  lemma SuffixAdded(r: Request, tag: string)
    requires !Contains(r.afterTo, tag)
    ensures r.to + TagSuffix(r, Some(tag)) == r.to + ";tag=" + tag
  {
    assert r.to + (";tag=" + tag) == r.to + ";tag=" + tag;
  }

  lemma EchoedHeaders(s: string, r: Request, to: string)
    requires Echoes(s, r, to)
    ensures Header(s, FROM) == Some(r.from) && Header(s, TO) == Some(to)
  {
  }

  // ---------- a To whose URI has a parameter ----------

  function Phone(): string {
    "<sip:b" + ";" + "user" + "=phone>"
  }

  lemma PhoneHasParam()
    ensures ParamWithin(Phone(), TAG_SKIP)
  {
    AddedParam("<sip:b", "user", "=phone>");
  }

  lemma PhoneIsTidy()
    ensures Tidy(Phone()) && Phone() != "" && ';' in Phone() && '9' !in Phone() && |Phone()| == 18
    ensures Phone() == "<sip:b;user=phone>"
  {
    assert Phone() == "<sip:b;user=phone>";
  }

  lemma TaggedIsTidy(to: string)
    requires Tidy(to) && to != ""
    ensures var v := to + ";tag=" + Tag(); Tidy(v) && v != "" && ParamWithin(v, TAG_SKIP)
  {
    var v := to + ";tag=" + Tag();
    assert v[0] == to[0];
    AddedIsParam(to, Tag());
    assert '\r' !in "tag=" + Tag();
    ParamReadIff(to, "", "tag=", Tag(), "");
  }

  lemma SmallParts()
    ensures Tidy("c") && Tidy("1 INVITE") && Tidy("2 BYE") && '9' !in "1 INVITE" && '9' !in "c"
    ensures ';' !in "c" && ';' !in "1 INVITE" && ';' !in "2 BYE"
  {
  }

  /** There are packets that make the run of `Answered.ByeMissesDialog`: the INVITE's To is a URI with a parameter. */
  lemma ByeScriptExample(invite: Raw, bye: Raw)
    requires invite.id == 0 && invite.text == Written(Call("INVITE", "z9", Phone(), "c", "1 INVITE"))
    requires bye.id == 1 && bye.text == Written(Call("BYE", "z8", Phone() + ";tag=" + Tag(), "c", "2 BYE"))
    ensures ByeScript(invite, bye, Tag()) && ';' in MessageOf(invite).req.to && Phone() == "<sip:b;user=phone>"
  {
    hide Verb, Tidy, Proper, Written, Parse, Classify, ParamWithin, ParamOf, TagShown, CopiesResponse, Tag, Phone, ToTagOf,
         BehindTo;
    var x := Call("INVITE", "z9", Phone(), "c", "1 INVITE");
    var y := Call("BYE", "z8", Phone() + ";tag=" + Tag(), "c", "2 BYE");
    PhoneIsTidy();
    PhoneHasParam();
    TaggedIsTidy(Phone());
    ProperVerb();
    ByeVerb();
    SmallParts();
    CallIsProper("INVITE", "z9", Phone(), "c", "1 INVITE");
    CallIsProper("BYE", "z8", Phone() + ";tag=" + Tag(), "c", "2 BYE");
    TagIsShown(x);
    WrittenCopiesResponse(x, y, Tag());
  }

  // ---------- a dialog that is filled ----------

  function Branch(n: nat): (r: string)
    ensures |r| == n && '\r' !in r
  {
    seq(n, i => 'z')
  }

  /** A request in the dialog of the first INVITE, with a branch of its own. */
  function Inside(verb: string, n: nat): string {
    Written(Call(verb, Branch(n), "b" + ";tag=" + Tag(), "c", if verb == "BYE" then "2 BYE" else "1 INVITE"))
  }

  lemma InsideParses(verb: string, n: nat)
    requires (verb == "INVITE" || verb == "BYE") && n > 0
    ensures Parse(Inside(verb, n)).Some?
    ensures var r := Parse(Inside(verb, n)).value;
            && r.kind == (if verb == "BYE" then BYE else INVITE) && r.branch == Whole(Branch(n))
            && r.fromTag == Whole("1") && r.toTag == Some(Whole(Tag()))
  {
    hide Verb, Tidy, Proper, Written, Parse, Classify, ParamWithin, ParamOf, Tag, BehindTo, Branch;
    ProperVerb();
    ByeVerb();
    SmallParts();
    assert Tidy("b") by { ShortTo(); }
    TaggedIsTidy("b");
    AddedTag("b", Tag());
    CallIsProper(verb, Branch(n), "b" + ";tag=" + Tag(), "c", if verb == "BYE" then "2 BYE" else "1 INVITE");
  }

  lemma ShortTo()
    ensures Tidy("b") && ';' !in "b"
  {
  }

  lemma OutsideParses()
    ensures var p := Parse(Written(Call("INVITE", Branch(1), "b", "c", "1 INVITE")));
            && p.Some? && LeavesWhole(p.value) && p.value.branch == Whole(Branch(1)) && p.value.fromTag == Whole("1")
  {
    hide Verb, Tidy, Proper, Written, Parse, Classify, ParamWithin, ParamOf, BehindTo, Branch, ToTagOf;
    ProperVerb();
    SmallParts();
    ShortTo();
    CallIsProper("INVITE", Branch(1), "b", "c", "1 INVITE");
  }

  /** There are packets that make the run of `Overfull.FullDialogDangles`. */
  lemma FillScriptExample(invite: Raw, again: seq<Raw>, bye: Raw)
    requires invite.id == 0 && invite.text == Written(Call("INVITE", Branch(1), "b", "c", "1 INVITE"))
    requires |again| == TXN_SLOTS - 1
    requires forall j :: 0 <= j < |again| ==> again[j].id == j + 1 && again[j].text == Inside("INVITE", j + 2)
    requires bye.id == TXN_SLOTS && bye.text == Inside("BYE", TXN_SLOTS + 1)
    ensures FillScript(invite, again, bye, Tag())
  {
    hide Written, Parse, Inside, Tag;
    OutsideParses();
    InsideParses("BYE", TXN_SLOTS + 1);
    assert BranchOf(bye) == Whole(Branch(TXN_SLOTS + 1));
    forall j | 0 <= j < |again|
      ensures Names(again[j], invite, Tag()) && MessageOf(again[j]).req.kind == INVITE
      ensures BranchOf(again[j]) == Whole(Branch(j + 2)) && again[j].id == j + 1
    {
      InsideParses("INVITE", j + 2);
    }
  }

  // ---------- a Call-ID that names no worker ----------

  function Odd(): string {
    [255 as char]
  }

  /** There is a packet the parser would accept that is dispatched to worker -1. */
  lemma OutOfRangePacket(raw: Raw)
    requires raw.text == Written(Call("INVITE", "z9", "b", Odd(), "1 INVITE"))
    ensures Parse(raw.text).Some? && Partition.Target(raw) == Some(-1)
  {
    hide Verb, Tidy, Proper, Written, Parse, Classify, ParamWithin, ParamOf, BehindTo, ToTagOf, Header, FindHeader, Odd;
    OddIsTidy();
    ProperVerb();
    SmallParts();
    ShortTo();
    CallIsProper("INVITE", "z9", "b", Odd(), "1 INVITE");
    HeaderReadsBack(Call("INVITE", "z9", "b", Odd(), "1 INVITE"), 3);
  }

  lemma OddIsTidy()
    ensures Tidy(Odd()) && ';' !in Odd() && WorkerOf(Odd()) == -1
  {
    OutOfRangeExample();
  }

  // ---------- a response longer than its buffer ----------

  lemma LineSum(hs: seq<(string, string)>, tail: string)
    requires hs != []
    ensures |Lines(hs, tail)| == |hs[0].0| + |hs[0].1| + 4 + |Lines(hs[1..], tail)|
  {
  }

  lemma WrittenLength(x: Parts)
    ensures |Written(x)|
            == |x.verb| + |x.uri| + |x.via| + |x.from| + |x.to| + |x.callId| + |x.cseq| + 90
  {
    hide Lines;
    var hs := HeadersOf(x);
    LineSum(hs, CRLF);
    LineSum(hs[1..], CRLF);
    LineSum(hs[2..], CRLF);
    LineSum(hs[3..], CRLF);
    LineSum(hs[4..], CRLF);
    LineSum(hs[5..], CRLF);
    LineSum(hs[6..], CRLF);
    assert hs[1..][1..] == hs[2..] && hs[2..][1..] == hs[3..] && hs[3..][1..] == hs[4..] && hs[4..][1..] == hs[5..];
    assert hs[5..][1..] == hs[6..] && hs[6..][1..] == [];
    assert |Lines([], CRLF)| == 2 by { NoLinesLeft(); }
  }

  lemma NoLinesLeft()
    ensures Lines([], CRLF) == CRLF
  {
  }

  /** A Call-ID of 895 characters. */
  function LongCallId(): (r: string)
    ensures |r| == 895 && forall i :: 0 <= i < |r| ==> r[i] == 'c'
  {
    seq(895, i => 'c')
  }

  lemma LongIsTidy()
    ensures Tidy(LongCallId()) && ';' !in LongCallId() && '9' !in LongCallId()
  {
  }

  /** There is a packet of 1023 bytes, as long as one can be, whose 180 has 1025: one is sent from behind the buffer. */
  lemma SentBehindExample(text: string)
    requires text == Written(Call("INVITE", "z9", "b", LongCallId(), "1 INVITE"))
    ensures |text| == 1023 && Parse(text).Some?
    ensures var p := Printed(180, Parse(text).value, Some(Tag()));
            Fill(p).1 == 1025 && |Fill(p).0| == 1023 && SentBehind(p) == 1
  {
    hide Verb, Tidy, Clean, Written, Parse, Classify, ParamWithin, ParamOf, BehindTo, ToTagOf, Print, StatusLine,
         LongCallId, Tag, Contains;
    var x := Call("INVITE", "z9", "b", LongCallId(), "1 INVITE");
    ProperVerb();
    SmallParts();
    ShortTo();
    LongIsTidy();
    CallIsProper("INVITE", "z9", "b", LongCallId(), "1 INVITE");
    WrittenLength(x);
    NotBehind(x, '9');
    NoNine(BehindTo(x));
    SuffixAdded(Meant(x), Tag());
    assert |StatusLine(180)| == 19 by { RingingLine(); }
    SentBehindIff(180, Meant(x), Some(Tag()));
  }

  lemma RingingLine()
    ensures |StatusLine(180)| == 19
  {
  }

  // ---------- a long branch ----------

  /** There is an INVITE whose branch has 65 characters; received twice, it opens two transactions that store the same. */
  lemma LongBranchExample(k: nat, raw: Raw, again: Raw, o: Oracle)
    requires raw.text == Written(Call("INVITE", Branch(65), "b", "c", "1 INVITE")) == again.text && AllWell(o)
    ensures Parse(raw.text).Some?
    ensures var w := Start(k).w;
            Closed(w) &&
            var r := ProcessRequest(w, MessageOf(raw), o);
            Closed(r) &&
            var r' := ProcessRequest(r, MessageOf(again), o);
            0 in r'.txns && r.nextId in r'.txns && r.nextId != 0 && r'.txns[0].branch == r'.txns[r.nextId].branch
  {
    hide Verb, Tidy, Proper, Written, Parse, Classify, ParamWithin, ParamOf, BehindTo, Branch, ToTagOf, ProcessRequest,
         Closed, Branches, Inv;
    ProperVerb();
    SmallParts();
    ShortTo();
    CallIsProper("INVITE", Branch(65), "b", "c", "1 INVITE");
    FirstOpens(k, MessageOf(raw), o);
    StartGood(k);
    LongBranchOpensTwo(Start(k).w, MessageOf(raw), o, MessageOf(again), o);
  }
}
