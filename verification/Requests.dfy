/** Requests written in the usual layout are accepted, and parse to what was written. */
module Requests {
  import opened SipTypes
  import opened Scanner
  import opened SipText
  import opened Responses
  import opened RoundTrip
  import opened Reachability
  import opened FirstLines
  import opened WorkerModel
  import opened Invariants
  import opened WorkerSystem

  /** The parts of a request as its sender chose them. */
  datatype Parts = Parts(verb: string, uri: string, via: string, from: string, to: string, callId: string, cseq: string)

  function StartLine(x: Parts): string {
    x.verb + " " + x.uri + " SIP/2.0"
  }

  function HeadersOf(x: Parts): seq<(string, string)> {
    [(VIA, x.via), (FROM, x.from), (TO, x.to), (CALL_ID, x.callId), (CSEQ, x.cseq),
     (MAX_FORWARDS, "70"), (CONTENT_LENGTH, "0")]
  }

  function Written(x: Parts): string {
    StartLine(x) + CRLF + Lines(HeadersOf(x), CRLF)
  }

  /** The text from the To value on. */
  function BehindTo(x: Parts): string {
    x.to + CRLF + Lines(HeadersOf(x)[3..], CRLF)
  }

  /** A known method word that cannot be taken for a header or a response. */
  predicate Verb(verb: string) {
    && |verb| >= 3 && verb[..3] != "SIP" && Classify(verb) != UNKNOWN && ' ' !in verb && '\r' !in verb
    && Lower(verb[0]) != 'v' && Lower(verb[0]) != 'f' && Lower(verb[0]) != 't'
    && Lower(verb[0]) != 'c' && Lower(verb[0]) != 'm'
  }

  /** What the sender keeps to: clean, non-empty values, the tag first in From, the branch first in Via; and
      the first semicolon from To on is in front of the tag in To, or there is none, or it is in Call-ID. */
  ghost predicate Proper(x: Parts) {
    && Verb(x.verb) && x.uri != "" && ' ' !in x.uri && '\r' !in x.uri
    && Clean(x.via) && Clean(x.from) && Clean(x.to) && Clean(x.callId) && Clean(x.cseq)
    && x.to != "" && x.cseq != ""
    && ParamWithin(x.via, BRANCH_SKIP) && ParamOf(x.via, BRANCH_SKIP) != ""
    && ParamWithin(x.from, TAG_SKIP) && ParamOf(x.from, TAG_SKIP) != ""
    && (ParamWithin(x.to, TAG_SKIP) || ';' !in BehindTo(x) || Borrows(x))
  }

  /** To has no parameter, and Call-ID has something that looks like one. */
  predicate Borrows(x: Parts) {
    ';' !in x.to && ParamWithin(x.callId, TAG_SKIP)
  }

  /** The To tag the parser will see. */
  function ToTagOf(x: Parts): Option<Ident> {
    if ParamWithin(x.to, TAG_SKIP) then Some(Whole(ParamOf(x.to, TAG_SKIP)))
    else if Borrows(x) then Some(Whole(ParamOf(x.callId, TAG_SKIP)))
    else None
  }

  /** The request that was meant, but for a To tag taken from the Call-ID. */
  function Meant(x: Parts): Request
    requires ParamWithin(x.via, BRANCH_SKIP) && ParamWithin(x.from, TAG_SKIP)
  {
    Request(Classify(x.verb), x.via, x.from, x.to, BehindTo(x), x.callId, x.cseq,
            Whole(ParamOf(x.from, TAG_SKIP)), ToTagOf(x), Whole(ParamOf(x.via, BRANCH_SKIP)))
  }

  // ---------- the first line ----------

  lemma StartIsVersioned(x: Parts)
    ensures StartLine(x) == VersionedLine(x.verb, x.uri, '2', '0') && |StartLine(x)| == |x.verb| + |x.uri| + 9
  {
    assert x.verb + " " + x.uri + " SIP/2.0" == x.verb + " " + x.uri + " SIP/" + ['2'] + "." + ['0'];
  }

  lemma StartEnds(text: string, x: Parts, rest: string)
    requires text == StartLine(x) + CRLF + rest && '\r' !in x.verb && '\r' !in x.uri
    ensures FreeOfCrlf(StartLine(x)) && LineEnd(text, 0) == Some(|StartLine(x)|) && |StartLine(x)| == |x.verb| + |x.uri| + 9
  {
    hide FreeOfCrlf, LineEnd, StartLine;
    StartIsVersioned(x);
    LineEnds(text, x.verb, x.uri, '2', '0', rest);
  }

  lemma StartParses(text: string, x: Parts, rest: string)
    requires text == StartLine(x) + CRLF + rest && Verb(x.verb) && x.uri != "" && ' ' !in x.uri && '\r' !in x.uri
    ensures FirstLine(text) == ERROR_NONE && MethodEnd(text) == Some(|x.verb|) && text[..|x.verb|] == x.verb
  {
    hide FirstLine, MethodEnd, StartLine, VersionedLine, Classify;
    StartIsVersioned(x);
    VersionedVerdict(text, x.verb, x.uri, '2', '0', rest);
  }

  // ---------- the headers ----------

  /** Every header reads back as it was written, with the rest of the text behind it. */
  lemma HeaderReadsBack(x: Parts, k: nat)
    requires Proper(x) && k < 7
    ensures var text, h := Written(x), HeadersOf(x)[k];
            && '\r' !in h.0 && FindHeader(text, 0, h.0).Some? && Header(text, h.0) == Some(h.1)
            && text[FindHeader(text, 0, h.0).value.at..] == h.1 + CRLF + Lines(HeadersOf(x)[k + 1..], CRLF)
  {
    StartEnds(Written(x), x, Lines(HeadersOf(x), CRLF));
    NamesReady(x, k);
    StartDiffers(x, k);
    CleanHeaders(x);
    hide HeadersOf, Lines, FindHeader, Clean, Differ, FreeOfCrlf, StartLine, Proper, LineEnd, Header;
    ReadBehind(Written(x), StartLine(x), HeadersOf(x), CRLF, k);
    RestBehind(Written(x), StartLine(x), HeadersOf(x), CRLF, k);
  }

  lemma NamesReady(x: Parts, k: nat)
    requires k < 7
    ensures |HeadersOf(x)| == 7
    ensures forall i :: 0 <= i <= k ==> '\r' !in HeadersOf(x)[i].0
    ensures forall i :: 0 <= i < k ==> Differ(HeadersOf(x)[i].0, HeadersOf(x)[k].0)
  {
    hide Differ;
    SevenNames();
    var names := [VIA, FROM, TO, CALL_ID, CSEQ, MAX_FORWARDS, CONTENT_LENGTH];
    assert forall i :: 0 <= i < 7 ==> HeadersOf(x)[i].0 == names[i];
  }

  lemma CleanHeaders(x: Parts)
    requires Proper(x)
    ensures forall i :: 0 <= i < 7 ==> Clean(HeadersOf(x)[i].1)
  {
    assert Clean("70") && Clean("0");
    hide Clean;
  }

  lemma StartDiffers(x: Parts, k: nat)
    requires Proper(x) && k < 7
    ensures Differ(StartLine(x), HeadersOf(x)[k].0)
  {
    var name := HeadersOf(x)[k].0;
    assert StartLine(x)[0] == x.verb[0];
    assert name[0] == 'V' || name[0] == 'F' || name[0] == 'T' || name[0] == 'C' || name[0] == 'M';
    assert Lower(StartLine(x)[0]) != Lower(name[0]);
  }

  lemma ValueRead(x: Parts, k: nat)
    requires Proper(x) && k < 7
    ensures var text, h := Written(x), HeadersOf(x)[k];
            '\r' !in h.0 && HeaderText(text, h.0) == h.1 && (HasHeader(text, h.0) <==> h.1 != "")
  {
    HeaderReadsBack(x, k);
  }

  lemma ParamRead(x: Parts, k: nat, skip: nat)
    requires Proper(x) && k < 7 && ParamWithin(HeadersOf(x)[k].1, skip)
    ensures var text, h := Written(x), HeadersOf(x)[k];
            && '\r' !in h.0 && ParamIdent(text, h.0, skip) == Some(Whole(ParamOf(h.1, skip)))
            && (HasParam(text, h.0, skip) <==> ParamOf(h.1, skip) != "")
  {
    hide Written, Proper, FindHeader, FindParam, ParamWithin, ParamOf;
    HeaderReadsBack(x, k);
    HeaderParamIs(Written(x), HeadersOf(x)[k].0, HeadersOf(x)[k].1, skip);
  }

  lemma NoParamRead(x: Parts, k: nat, skip: nat)
    requires Proper(x) && k < 7 && ';' !in HeadersOf(x)[k].1 + CRLF + Lines(HeadersOf(x)[k + 1..], CRLF)
    ensures var text, h := Written(x), HeadersOf(x)[k]; '\r' !in h.0 && ParamIdent(text, h.0, skip).None?
  {
    hide Written, Proper, FindHeader;
    HeaderReadsBack(x, k);
    NoChar(Written(x), FindHeader(Written(x), 0, HeadersOf(x)[k].0).value.at, ';');
  }

  // ---------- a tag taken from another header ----------

  lemma {:induction false} CharSkip(s: string, p: nat, q: nat, c: char)
    requires p <= q <= |s| && c !in s[p..q]
    ensures CharFrom(s, p, c) == CharFrom(s, q, c)
    decreases q - p
  {
    if p < q {
      assert s[p..q] == [s[p]] + s[p + 1..q];
      CharSkip(s, p + 1, q, c);
    }
  }

  /** A search from further ahead finds the same parameter, if it finds the carriage return behind it. */
  lemma ParamSkip(s: string, v: Span, u: Span, skip: nat)
    requires InText(s, v) && InText(s, u) && v.at <= u.at && ';' !in s[v.at..u.at]
    requires var i := CharFrom(s, u.at, ';');
             i.Some? && PastBlanks(s, i.value + 1) + skip <= |s|
             && CharFrom(s, PastBlanks(s, i.value + 1) + skip, '\r').Some?
    ensures FindParam(s, v, skip) == FindParam(s, u, skip)
  {
    hide CharFrom, PastBlanks;
    CharSkip(s, v.at, u.at, ';');
  }

  /** Where a parameter inside a value ends, the text goes on with a carriage return. */
  lemma ReturnBehind(s: string, at: nat, value: string, skip: nat)
    requires StandsAt(s, at, value) && ParamWithin(value, skip)
    ensures var i := CharFrom(s, at, ';');
            i.Some? && PastBlanks(s, i.value + 1) + skip <= |s|
            && CharFrom(s, PastBlanks(s, i.value + 1) + skip, '\r').Some?
  {
    hide PastBlanks, CharFrom, Blank;
    CharAt(s, at, value, 0, ';');
    BlanksAt(s, at, value, CharFrom(value, 0, ';').value + 1);
    CharAt(s, at, value, ParamStart(value, skip), '\r');
  }

  /** Where the values of two neighbouring headers stand. */
  lemma CallIdBehindTo(x: Parts)
    requires Proper(x)
    ensures var text := Written(x);
            && FindHeader(text, 0, TO).Some? && FindHeader(text, 0, CALL_ID).Some?
            && var v, u := FindHeader(text, 0, TO).value, FindHeader(text, 0, CALL_ID).value;
               && v.at <= u.at <= |text| && text[v.at..u.at] == x.to + CRLF + CALL_ID + ": "
               && v.len == |x.to| && StandsAt(text, u.at, x.callId) && u.len == |x.callId|
  {
    hide Written, Proper, FindHeader, Lines, StandsAt;
    var text := Written(x);
    TextFromTo(x);
    TextFromCallId(x);
    ValueStands(text, CALL_ID);
    Between(text, FindHeader(text, 0, TO).value.at, FindHeader(text, 0, CALL_ID).value.at,
            x.to + CRLF + CALL_ID + ": ", x.callId + CRLF + Lines(HeadersOf(x)[4..], CRLF));
  }

  lemma TextFromTo(x: Parts)
    requires Proper(x)
    ensures var v := FindHeader(Written(x), 0, TO);
            && v.Some? && v.value.len == |x.to|
            && Written(x)[v.value.at..] == (x.to + CRLF + CALL_ID + ": ") + (x.callId + CRLF + Lines(HeadersOf(x)[4..], CRLF))
  {
    hide Written, Proper, FindHeader, Lines;
    HeaderReadsBack(x, 2);
    LinesFromCallId(x);
  }

  lemma TextFromCallId(x: Parts)
    requires Proper(x)
    ensures var v := FindHeader(Written(x), 0, CALL_ID);
            && v.Some? && Text(Written(x), v.value) == x.callId
            && Written(x)[v.value.at..] == x.callId + CRLF + Lines(HeadersOf(x)[4..], CRLF)
  {
    hide Written, Proper, FindHeader, Lines;
    HeaderReadsBack(x, 3);
  }

  lemma LinesFromCallId(x: Parts)
    ensures x.to + CRLF + Lines(HeadersOf(x)[3..], CRLF)
            == (x.to + CRLF + CALL_ID + ": ") + (x.callId + CRLF + Lines(HeadersOf(x)[4..], CRLF))
  {
    var hs := HeadersOf(x);
    var rest := Lines(hs[4..], CRLF);
    assert hs[3..][1..] == hs[4..] && hs[3..][0] == (CALL_ID, x.callId);
    assert Lines(hs[3..], CRLF) == Responses.HeaderLine(CALL_ID, x.callId, rest);
    hide Lines, HeadersOf;
    LineSplits(CALL_ID, x.callId, rest);
  }

  lemma LineSplits(name: string, value: string, rest: string)
    ensures Responses.HeaderLine(name, value, rest) == name + ": " + (value + CRLF + rest)
  {
  }

  lemma Between(text: string, p: nat, q: nat, front: string, back: string)
    requires p <= |text| && q <= |text| && text[p..] == front + back && text[q..] == back
    ensures p <= q && text[p..q] == front
  {
    assert |text| - p == |front| + |back| && |text| - q == |back|;
    assert text[p..q] == text[p..][..q - p];
  }

  lemma NoSemicolonBetween(x: Parts)
    requires ';' !in x.to
    ensures ';' !in x.to + CRLF + CALL_ID + ": "
  {
    assert ';' !in CRLF + CALL_ID + ": ";
    assert x.to + CRLF + CALL_ID + ": " == x.to + (CRLF + CALL_ID + ": ");
  }

  lemma BorrowedParam(x: Parts, v: Span)
    requires Proper(x) && Borrows(x) && FindHeader(Written(x), 0, TO) == Some(v)
    ensures var text := Written(x);
            && InText(text, v) && v.len == |x.to|
            && var p := FindParam(text, v, TAG_SKIP);
               p.Some? && IdentAt(text, p.value) == Whole(ParamOf(x.callId, TAG_SKIP))
  {
    hide Written, Proper, FindHeader, FindParam, ParamOf, ParamWithin, CharFrom, PastBlanks;
    var text := Written(x);
    CallIdBehindTo(x);
    var u := FindHeader(text, 0, CALL_ID).value;
    NoSemicolonBetween(x);
    ReturnBehind(text, u.at, x.callId, TAG_SKIP);
    ParamSkip(text, v, u, TAG_SKIP);
    ParamInside(text, u.at, x.callId, TAG_SKIP);
  }

  /** The search for a To tag runs on into Call-ID. */
  lemma ToParamBorrowed(x: Parts)
    requires Proper(x) && Borrows(x)
    ensures ParamIdent(Written(x), TO, TAG_SKIP) == Some(Whole(ParamOf(x.callId, TAG_SKIP)))
    ensures var text := Written(x);
            FindHeader(text, 0, TO).Some? && HeaderParam(text, TO, TAG_SKIP).Some? &&
            var v := FindHeader(text, 0, TO).value;
            HeaderParam(text, TO, TAG_SKIP).value.at > v.at + v.len
  {
    assert x.to != "";
    hide Written, Proper, FindHeader, FindParam, ParamOf, ParamWithin;
    var text := Written(x);
    HeaderReadsBack(x, 2);
    BorrowedParam(x, FindHeader(text, 0, TO).value);
    NoneInside(x.to, TAG_SKIP);
    HeaderParamIff(text, TO, x.to, TAG_SKIP);
  }

  lemma NoneInside(value: string, skip: nat)
    requires ';' !in value
    ensures !ParamWithin(value, skip)
  {
    NoChar(value, 0, ';');
  }

  /** The values read are the values written. */
  ghost predicate ValuesRead(text: string, x: Parts) {
    && HeaderText(text, VIA) == x.via && HeaderText(text, FROM) == x.from && HeaderText(text, TO) == x.to
    && HeaderText(text, CALL_ID) == x.callId && HeaderText(text, CSEQ) == x.cseq
  }

  /** And so are the parameters. */
  ghost predicate ParamsRead(text: string, x: Parts)
    requires ParamWithin(x.from, TAG_SKIP) && ParamWithin(x.via, BRANCH_SKIP)
  {
    && ParamIdent(text, FROM, TAG_SKIP) == Some(Whole(ParamOf(x.from, TAG_SKIP)))
    && ParamIdent(text, VIA, BRANCH_SKIP) == Some(Whole(ParamOf(x.via, BRANCH_SKIP)))
    && ParamIdent(text, TO, TAG_SKIP) == ToTagOf(x)
  }

  lemma AllValuesRead(x: Parts)
    requires Proper(x)
    ensures ValuesRead(Written(x), x)
  {
    hide Written, Proper, HeaderText, HasHeader;
    ValueRead(x, 0);
    ValueRead(x, 1);
    ValueRead(x, 2);
    ValueRead(x, 3);
    ValueRead(x, 4);
  }

  lemma ToParamRead(x: Parts)
    requires Proper(x)
    ensures ParamIdent(Written(x), TO, TAG_SKIP) == ToTagOf(x)
  {
    assert HeadersOf(x)[2 + 1..] == HeadersOf(x)[3..];
    assert ParamWithin(x.to, TAG_SKIP) || ';' !in BehindTo(x) || Borrows(x);
    if ParamWithin(x.to, TAG_SKIP) {
      hide Written, ParamIdent, ParamOf, ParamWithin, Proper;
      ParamRead(x, 2, TAG_SKIP);
    } else if Borrows(x) {
      hide Written, ParamIdent, ParamOf, ParamWithin, Proper;
      ToParamBorrowed(x);
    } else {
      hide Written, ParamIdent, ParamOf, ParamWithin, Proper;
      NoParamRead(x, 2, TAG_SKIP);
    }
  }

  lemma AllParamsRead(x: Parts)
    requires Proper(x)
    ensures ParamsRead(Written(x), x)
  {
    hide Written, ParamIdent, ParamOf, ParamWithin, HasParam, Clean, Verb, ToTagOf;
    ParamRead(x, 1, TAG_SKIP);
    ParamRead(x, 0, BRANCH_SKIP);
    ToParamRead(x);
  }

  lemma NothingMissing(x: Parts)
    requires Proper(x)
    ensures Headers(Written(x)) == ERROR_NONE
  {
    assert x.via != "" && x.from != "" by { EmptyHasNone(BRANCH_SKIP); EmptyHasNone(TAG_SKIP); }
    hide Written, HasHeader, HasParam, ParamIdent, ParamOf, ParamWithin, Clean, Verb, HeaderText;
    ValueRead(x, 0);
    ValueRead(x, 1);
    ValueRead(x, 2);
    ValueRead(x, 4);
    ValueRead(x, 5);
    ValueRead(x, 6);
    ParamRead(x, 1, TAG_SKIP);
    ParamRead(x, 0, BRANCH_SKIP);
  }

  lemma ToIsThere(x: Parts)
    requires Proper(x)
    ensures FindHeader(Written(x), 0, TO).Some?
    ensures Written(x)[FindHeader(Written(x), 0, TO).value.at..] == BehindTo(x)
  {
    hide Written, Proper, FindHeader;
    HeaderReadsBack(x, 2);
  }

  lemma StartIsRead(x: Parts)
    requires Proper(x)
    ensures FirstLine(Written(x)) == ERROR_NONE && MethodWord(Written(x)) == x.verb
  {
    hide FirstLine, MethodEnd, Classify, Lines, HeadersOf, StartLine;
    StartParses(Written(x), x, Lines(HeadersOf(x), CRLF));
  }

  lemma NotAResponse(x: Parts)
    requires Verb(x.verb)
    ensures !IsResponse(Written(x))
  {
    assert Written(x)[..3] == x.verb[..3];
  }

  /** Every properly written request is accepted, and parses to what was meant. */
  lemma WrittenParses(x: Parts)
    requires Proper(x)
    ensures Parse(Written(x)) == Some(Meant(x))
  {
    hide Written, FindHeader, HeaderText, ParamIdent, ParamOf, ParamWithin, Clean, Verb, FirstLine, MethodEnd, Classify,
         Headers, Lines, HeadersOf, IsResponse, ToTagOf;
    StartIsRead(x);
    NotAResponse(x);
    AllValuesRead(x);
    AllParamsRead(x);
    NothingMissing(x);
    ToIsThere(x);
  }

  lemma WrittenCopies(x: Parts, first: Request, tag: string)
    requires Proper(x) && x.from == first.from && x.to == first.to + ";tag=" + tag
    ensures Copies(Written(x), first, tag)
  {
    hide Proper, Written, Header, FindHeader, Lines;
    HeaderReadsBack(x, 1);
    HeaderReadsBack(x, 2);
  }

  /** A proper request that copies From and the answered To of an INVITE is accepted and finds its dialog,
      whatever happened in between, as long as the dialog is there: exactly when the INVITE's To has no ';' and
      its From tag was not cut. */
  lemma FollowUpFindsDialog(s: System, o: Oracle, m: Message, first: System, steps: seq<Step>, last: System,
                            code: nat, x: Parts)
    requires OpensIn(s, o, m) && first == Next(s, Work(o))
    requires IsRun(first, steps) && last == Run(first, steps)
    requires s.w.nextId + 1 in last.w.dialogs && Alone(last.w, s.w.nextId + 1, m.req.fromTag, o.toTag)
    requires TagShown(m.req, code, o.toTag)
    requires Proper(x) && x.from == m.req.from && x.to == m.req.to + ";tag=" + o.toTag
    ensures ParamWithin(x.via, BRANCH_SKIP) && ParamWithin(x.from, TAG_SKIP) && Parse(Written(x)) == Some(Meant(x))
    ensures FindDialogOf(last.w, Meant(x)) == Some(s.w.nextId + 1)
            <==> ';' !in m.req.to && |m.req.fromTag.text| <= MAX_ID_LENGTH
  {
    hide Parse, Next, Inv, OpensIn, Tagged, Alone, IsRun, Run, Written, Proper, Meant, TagShown, Closed, BackLinks, TxnLinks,
         CallLinks, Admissible;
    FollowUpTags(s, o, m, code, x);
    OpeningStep(s, o, m);
    TagsStay(first, steps, s.w.nextId + 1, m.req.fromTag, o.toTag);
    InvLists(last.w);
    ParsedShown(Written(x));
    FoundByIff(last.w, s.w.nextId + 1, m.req.fromTag, o.toTag, Meant(x).fromTag, Meant(x).toTag);
  }

  lemma FollowUpTags(s: System, o: Oracle, m: Message, code: nat, x: Parts)
    requires OpensIn(s, o, m) && TagShown(m.req, code, o.toTag)
    requires Proper(x) && x.from == m.req.from && x.to == m.req.to + ";tag=" + o.toTag
    ensures ParamWithin(x.via, BRANCH_SKIP) && ParamWithin(x.from, TAG_SKIP) && Parse(Written(x)) == Some(Meant(x))
    ensures Meant(x).fromTag == m.req.fromTag && (Meant(x).toTag == Some(Whole(o.toTag)) <==> ';' !in m.req.to)
  {
    assert ParamWithin(x.via, BRANCH_SKIP) && ParamWithin(x.from, TAG_SKIP);
    assert '\r' !in o.toTag && !Contains(m.req.afterTo, o.toTag);
    hide Parse, Next, Inv, OpensIn, TagShown, Written, Proper, Meant, Copies, ParamWithin, Closed, BackLinks, TxnLinks,
         CallLinks, Admissible, Contains;
    WrittenParses(x);
    WrittenCopies(x, m.req, o.toTag);
    OpeningStep(s, o, m);
    NotInTo(s.queue[0].raw.text, o.toTag);
    CopiedTags(s.queue[0].raw.text, Written(x), m.req, Meant(x), o.toTag);
  }

  /** A parameter written behind a value without parameters is that value's first. */
  lemma AddedParam(value: string, word: string, content: string)
    requires ';' !in value && '\r' !in content && word != "" && !Blank(word[0])
    ensures var v := value + ";" + word + content; ParamWithin(v, |word|) && ParamOf(v, |word|) == content
  {
    var v := value + ";" + word + content;
    FirstChar(v, 0, ';', |value|);
    assert v[|value| + 1] == word[0];
    assert v[|value| + 1 + |word|..] == content;
    NoChar(v, |value| + 1 + |word|, '\r');
  }

  /** No line break, and no separator in front. */
  predicate Tidy(v: string) {
    '\r' !in v && (v != "" ==> !Separator(v[0]))
  }

  lemma TidyIsClean(v: string)
    requires Tidy(v)
    ensures Clean(v)
  {
    assert forall i: nat :: i < |v| ==> v[i] in v;
  }

  lemma NotBehind(x: Parts, c: char)
    requires c !in x.to && c !in x.callId && c !in x.cseq && c !in CALL_ID && c !in CSEQ
    requires c !in MAX_FORWARDS && c !in CONTENT_LENGTH && c !in CRLF && c != ':' && c != ' ' && c != '7' && c != '0'
    ensures c !in BehindTo(x)
  {
    var hs := HeadersOf(x);
    assert hs[3..][1..] == hs[4..] && hs[4..][1..] == hs[5..] && hs[5..][1..] == hs[6..] && hs[6..][1..] == [];
    assert c !in Lines([], CRLF);
    assert c !in Lines(hs[6..], CRLF);
    assert c !in Lines(hs[5..], CRLF);
    assert c !in Lines(hs[4..], CRLF);
    assert c !in Lines(hs[3..], CRLF);
  }

  lemma AddedIsTidy(value: string, word: string, content: string)
    requires Tidy(value) && '\r' !in word && '\r' !in content
    ensures Tidy(value + ";" + word + content)
  {
    var v := value + ";" + word + content;
    assert v[0] == if value != "" then value[0] else ';';
  }

  /** The To is read as it is meant: its first parameter starts inside it, or there is none behind it either. */
  predicate ToSettled(x: Parts) {
    ParamWithin(x.to, TAG_SKIP) || (';' !in x.to && ';' !in x.callId && ';' !in x.cseq)
  }

  /** A request with branch and tag written behind values without parameters. What stands in the place of "tag="
      and "branch=" may be anything of the same length that does not start with a blank. */
  lemma WordedIsProper(x: Parts, via: string, viaWord: string, branch: string, from: string, fromWord: string, tag: string)
    requires Verb(x.verb) && x.uri != "" && ' ' !in x.uri && '\r' !in x.uri
    requires x.via == via + ";" + viaWord + branch && x.from == from + ";" + fromWord + tag
    requires |viaWord| == BRANCH_SKIP && !Blank(viaWord[0]) && |fromWord| == TAG_SKIP && !Blank(fromWord[0])
    requires '\r' !in viaWord && '\r' !in fromWord
    requires Tidy(via) && ';' !in via && Tidy(from) && ';' !in from && branch != "" && tag != ""
    requires '\r' !in branch && '\r' !in tag
    requires Tidy(x.to) && Tidy(x.callId) && Tidy(x.cseq) && x.to != "" && x.cseq != "" && ToSettled(x)
    ensures Proper(x) && Meant(x).branch == Whole(branch) && Meant(x).fromTag == Whole(tag)
  {
    assert ParamWithin(x.to, TAG_SKIP) || ';' !in BehindTo(x) by { if !ParamWithin(x.to, TAG_SKIP) { NotBehind(x, ';'); } }
    hide Clean, Verb, BehindTo, ParamWithin, ParamOf, Classify, Tidy, ToSettled;
    AddedParam(via, viaWord, branch);
    AddedParam(from, fromWord, tag);
    AddedIsTidy(via, viaWord, branch);
    AddedIsTidy(from, fromWord, tag);
    TidyIsClean(x.via);
    TidyIsClean(x.from);
    TidyIsClean(x.to);
    TidyIsClean(x.callId);
    TidyIsClean(x.cseq);
  }

  /** A first request: branch and tag written behind values without parameters, and a To without any. */
  lemma FirstRequestIsProper(x: Parts, via: string, branch: string, from: string, tag: string)
    requires Verb(x.verb) && x.uri != "" && ' ' !in x.uri && '\r' !in x.uri
    requires x.via == via + ";" + "branch=" + branch && x.from == from + ";" + "tag=" + tag
    requires Tidy(via) && ';' !in via && Tidy(from) && ';' !in from && branch != "" && tag != ""
    requires '\r' !in branch && '\r' !in tag
    requires Tidy(x.to) && Tidy(x.callId) && Tidy(x.cseq) && x.to != "" && x.cseq != ""
    requires ToSettled(x)
    ensures Proper(x) && Meant(x).branch == Whole(branch) && Meant(x).fromTag == Whole(tag)
  {
    hide Verb, Tidy, Proper, Meant, ToSettled;
    WordedIsProper(x, via, "branch=", branch, from, "tag=", tag);
  }

  /** The tag is read from another parameter's text: in this From it is "ag=1", in this Via the branch is "ranch=z9". */
  lemma MisreadExample() returns (x: Parts)
    ensures x == Parts("INVITE", "sip:b", "h" + ";" + "rport;b" + "ranch=z9", "a" + ";" + "lr;t" + "ag=1", "b", "c", "1 INVITE")
    ensures Proper(x) && Parse(Written(x)) == Some(Meant(x))
    ensures Meant(x).fromTag == Whole("ag=1") && Meant(x).branch == Whole("ranch=z9")
  {
    x := Parts("INVITE", "sip:b", "h" + ";" + "rport;b" + "ranch=z9", "a" + ";" + "lr;t" + "ag=1", "b", "c", "1 INVITE");
    ProperVerb();
    assert Tidy("h") && Tidy("a") && Tidy("b") && Tidy("c") && Tidy("1 INVITE");
    assert ' ' !in x.uri && '\r' !in x.uri && ToSettled(x);
    hide Verb, Tidy, Proper, Meant, Written, Parse, ToSettled;
    WordedIsProper(x, "h", "rport;b", "ranch=z9", "a", "lr;t", "ag=1");
    WrittenParses(x);
  }

  /** There are such requests. */
  lemma ProperExample() returns (x: Parts)
    ensures Proper(x) && x.verb == "INVITE" && Meant(x).branch == Whole("z9") && Meant(x).fromTag == Whole("1")
  {
    x := Parts("INVITE", "sip:b", "UDP h" + ";" + "branch=" + "z9", "a" + ";" + "tag=" + "1", "b", "c", "1 INVITE");
    ProperVerb();
    assert Tidy("UDP h") && Tidy("a") && Tidy("b") && Tidy("c") && Tidy("1 INVITE");
    assert ';' !in "UDP h" && ';' !in "1 INVITE" && ' ' !in x.uri && '\r' !in x.uri;
    hide Verb, Tidy, Proper, Meant;
    FirstRequestIsProper(x, "UDP h", "z9", "a", "1");
  }

  lemma AckVerb()
    ensures Verb("ACK") && Classify("ACK") == ACK
  {
    assert MatchesAt("ACK", 0, "ACK") && "ACK"[..3] == "ACK";
    assert "ACK"[..3][0] != "SIP"[0];
  }

  lemma ProperVerb()
    ensures Verb("INVITE") && Classify("INVITE") == INVITE
  {
    assert MatchesAt("INVITE", 0, "INVITE");
    assert "INVITE"[..3][0] != "SIP"[0];
  }

  /** A first request whose Call-ID looks as if it had a tag. */
  lemma BorrowingIsProper(x: Parts, via: string, branch: string, from: string, tag: string, callId: string, stray: string)
    requires Verb(x.verb) && x.uri != "" && ' ' !in x.uri && '\r' !in x.uri
    requires x.via == via + ";" + "branch=" + branch && x.from == from + ";" + "tag=" + tag
    requires x.callId == callId + ";" + "tag=" + stray
    requires Tidy(via) && ';' !in via && Tidy(from) && ';' !in from && branch != "" && tag != ""
    requires Tidy(callId) && ';' !in callId
    requires '\r' !in branch && '\r' !in tag && '\r' !in stray
    requires Tidy(x.to) && Tidy(x.cseq) && x.to != "" && x.cseq != "" && ';' !in x.to
    ensures Proper(x) && Borrows(x) && ParamOf(x.callId, TAG_SKIP) == stray
    ensures ToTagOf(x) == Some(Whole(stray))
  {
    hide Clean, Verb, BehindTo, ParamWithin, ParamOf, Classify, Tidy;
    AddedParam(via, "branch=", branch);
    AddedParam(from, "tag=", tag);
    AddedParam(callId, "tag=", stray);
    AddedIsTidy(via, "branch=", branch);
    AddedIsTidy(from, "tag=", tag);
    AddedIsTidy(callId, "tag=", stray);
    TidyIsClean(x.via);
    TidyIsClean(x.from);
    TidyIsClean(x.to);
    TidyIsClean(x.callId);
    TidyIsClean(x.cseq);
    NoneInside(x.to, TAG_SKIP);
  }

  /** There is a request whose To has no parameters and whose Call-ID looks as if it had: it is accepted, and
      its To tag, by which its dialog is searched, is text of the Call-ID. */
  lemma BorrowedTagExample() returns (x: Parts)
    ensures x == Parts("INVITE", "sip:b", "h" + ";" + "branch=" + "z", "a" + ";" + "tag=" + "1", "b",
                       "c" + ";" + "tag=" + "7", "1 INVITE")
    ensures Proper(x) && Parse(Written(x)) == Some(Meant(x)) && Meant(x).toTag == Some(Whole("7"))
    ensures var text := Written(x);
            FindHeader(text, 0, TO).Some? && HeaderParam(text, TO, TAG_SKIP).Some? &&
            var v := FindHeader(text, 0, TO).value;
            HeaderParam(text, TO, TAG_SKIP).value.at > v.at + v.len
  {
    x := Parts("INVITE", "sip:b", "h" + ";" + "branch=" + "z", "a" + ";" + "tag=" + "1", "b", "c" + ";" + "tag=" + "7",
               "1 INVITE");
    ProperVerb();
    assert Tidy("h") && Tidy("a") && Tidy("b") && Tidy("c") && Tidy("1 INVITE");
    assert ' ' !in x.uri && '\r' !in x.uri;
    hide Verb, Tidy, Proper, Borrows, ToTagOf, Written, Parse, FindHeader, HeaderParam, ParamOf, ParamWithin;
    BorrowingIsProper(x, "h", "z", "a", "1", "c", "7");
    ToParamBorrowed(x);
    WrittenParses(x);
  }
}
