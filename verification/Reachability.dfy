/** The To tag in a printed response leads later requests back to the dialog of the INVITE. */
module Reachability {
  import opened SipTypes
  import opened Scanner
  import opened SipText
  import opened Responses
  import opened RoundTrip
  import opened WorkerModel
  import opened Outcomes
  import opened Invariants
  import opened WorkerSystem
  import opened Forward
  import opened ByeOnce

  // ---------- parameters inside a header value ----------

  /** The first parameter of a value starts inside the value. */
  predicate ParamWithin(value: string, skip: nat) {
    var i := CharFrom(value, 0, ';');
    i.Some? && PastBlanks(value, i.value + 1) + skip <= |value|
  }

  function ParamStart(value: string, skip: nat): nat
    requires ParamWithin(value, skip)
  {
    PastBlanks(value, CharFrom(value, 0, ';').value + 1) + skip
  }

  /** The first parameter of a value, up to a carriage return. */
  function ParamOf(value: string, skip: nat): string
    requires ParamWithin(value, skip)
  {
    value[ParamStart(value, skip)..ParamEnd(value, skip)]
  }

  lemma ParamFrom(s: string, v: Span, skip: nat, i: nat, q: nat)
    requires InText(s, v) && v.at <= i < q <= |s| && s[i] == ';' && forall k :: v.at <= k < i ==> s[k] != ';'
    requires (forall k :: i < k < q ==> s[k] == ' ' || s[k] == '\t') && (q < |s| ==> s[q] != ' ' && s[q] != '\t')
    ensures var start := q + skip;
            var end := if start <= |s| then CharFrom(s, start, '\r') else None;
            FindParam(s, v, skip) == Some(Span(start, Distance(start, if end.Some? then end.value else v.at + v.len)))
  {
    hide CharFrom, PastBlanks;
    FirstChar(s, v.at, ';', i);
    BlanksPassed(s, i + 1, q - i - 1);
  }

  /** The parameter of a header in full: behind the first ';' from the header on, blanks and tabs and the skipped
      characters; up to the next carriage return, or, where there is none, to the end of the header, modulo 2^64. */
  lemma FindParamIs(s: string, v: Span, skip: nat, i: nat, q: nat)
    requires InText(s, v) && v.at <= i < q <= |s| && s[i] == ';' && forall k :: v.at <= k < i ==> s[k] != ';'
    requires (forall k :: i < k < q ==> s[k] == ' ' || s[k] == '\t') && (q < |s| ==> s[q] != ' ' && s[q] != '\t')
    ensures FindParam(s, v, skip).Some? && FindParam(s, v, skip).value.at == q + skip
    ensures var p, end := FindParam(s, v, skip).value, v.at + v.len;
            && (forall e: nat :: q + skip <= e < |s| && s[e] == '\r' && (forall k :: q + skip <= k < e ==> s[k] != '\r') ==>
                  p.at + p.len == e)
            && ((forall k :: q + skip <= k < |s| ==> s[k] != '\r') ==>
                  p.len == if q + skip <= end then end - (q + skip) else (end - (q + skip)) % 18446744073709551616)
  {
    hide CharFrom, PastBlanks, Blank;
    ParamFrom(s, v, skip, i, q);
    var start := q + skip;
    if start <= |s| {
      var found := CharFrom(s, start, '\r');
      forall e: nat | start <= e < |s| && s[e] == '\r' && (forall k :: start <= k < e ==> s[k] != '\r')
        ensures found == Some(e)
      {
        FirstChar(s, start, '\r', e);
      }
      if forall k :: start <= k < |s| ==> s[k] != '\r' { NoChar(s, start, '\r'); }
    }
  }

  /** There is none exactly when there is no ';' from the header on. */
  lemma NoParamIff(s: string, v: Span, skip: nat)
    requires InText(s, v)
    ensures FindParam(s, v, skip).None? <==> forall k :: v.at <= k < |s| ==> s[k] != ';'
  {
    if forall k :: v.at <= k < |s| ==> s[k] != ';' { NoChar(s, v.at, ';'); }
  }

  /** `value` stands at `at` in `s`, with a carriage return behind it. */
  ghost predicate StandsAt(s: string, at: nat, value: string) {
    at + |value| < |s| && s[at..at + |value|] == value && s[at + |value|] == '\r'
  }

  lemma CharAt(s: string, at: nat, value: string, p: nat, c: char)
    requires StandsAt(s, at, value) && p <= |value|
    ensures match CharFrom(value, p, c)
            case Some(i) => CharFrom(s, at + p, c) == Some(at + i)
            case None => c == '\r' ==> CharFrom(s, at + p, c) == Some(at + |value|)
    decreases |value| - p
  {
    if p < |value| {
      assert s[at + p] == s[at..at + |value|][p];
      if value[p] != c { CharAt(s, at, value, p + 1, c); }
    }
  }

  lemma BlanksAt(s: string, at: nat, value: string, p: nat)
    requires StandsAt(s, at, value) && p <= |value|
    ensures PastBlanks(s, at + p) == at + PastBlanks(value, p)
    decreases |value| - p
  {
    if p < |value| {
      assert s[at + p] == s[at..at + |value|][p];
      if Blank(value[p]) { BlanksAt(s, at, value, p + 1); }
    }
  }

  /** Where the parameter of a value ends. */
  function ParamEnd(value: string, skip: nat): (e: nat)
    requires ParamWithin(value, skip)
    ensures ParamStart(value, skip) <= e <= |value|
  {
    var end := CharFrom(value, ParamStart(value, skip), '\r');
    if end.Some? then end.value else |value|
  }

  lemma ParamSpan(s: string, at: nat, value: string, skip: nat)
    requires StandsAt(s, at, value) && ParamWithin(value, skip)
    ensures var start := ParamStart(value, skip);
            FindParam(s, Span(at, |value|), skip) == Some(Span(at + start, ParamEnd(value, skip) - start))
  {
    hide PastBlanks, CharFrom, Blank;
    var i := CharFrom(value, 0, ';').value;
    CharAt(s, at, value, 0, ';');
    assert CharFrom(s, at, ';') == Some(at + i);
    BlanksAt(s, at, value, i + 1);
    CharAt(s, at, value, ParamStart(value, skip), '\r');
  }

  lemma SliceAt(s: string, at: nat, value: string, a: nat, b: nat)
    requires StandsAt(s, at, value) && a <= b <= |value|
    ensures s[at + a..at + b] == value[a..b]
  {
    var window := s[at..at + |value|];
    assert forall k :: a <= k < b ==> s[at + k] == window[k];
    assert forall k :: 0 <= k < b - a ==> s[at + a..at + b][k] == s[at + (a + k)] && window[a..b][k] == window[a + k];
  }

  /** Inside a text the parameter is the one of the value alone. */
  lemma ParamInside(s: string, at: nat, value: string, skip: nat)
    requires StandsAt(s, at, value) && ParamWithin(value, skip)
    ensures var p := FindParam(s, Span(at, |value|), skip);
            p.Some? && IdentAt(s, p.value) == Whole(ParamOf(value, skip))
  {
    hide FindParam, ParamWithin, ParamStart;
    ParamSpan(s, at, value, skip);
    SliceAt(s, at, value, ParamStart(value, skip), ParamEnd(value, skip));
  }

  /** The parameter the search finds starts in its header exactly when the header has one that starts inside. */
  lemma ParamInsideIff(s: string, at: nat, value: string, skip: nat)
    requires StandsAt(s, at, value) && FindParam(s, Span(at, |value|), skip).Some?
    ensures FindParam(s, Span(at, |value|), skip).value.at <= at + |value| <==> ParamWithin(value, skip)
  {
    hide PastBlanks, CharFrom, Blank;
    CharAt(s, at, value, 0, ';');
    var i := CharFrom(value, 0, ';');
    if i.Some? { BlanksAt(s, at, value, i.value + 1); } else { NotInValue(s, at, value); }
  }

  lemma NotInValue(s: string, at: nat, value: string)
    requires StandsAt(s, at, value) && CharFrom(value, 0, ';').None? && CharFrom(s, at, ';').Some?
    ensures CharFrom(s, at, ';').value > at + |value|
  {
    assert value[0..] == value;
  }

  /** A header value that was found stands in the text before a carriage return. */
  lemma ValueStands(s: string, name: string)
    requires '\r' !in name && FindHeader(s, 0, name).Some?
    ensures var v := FindHeader(s, 0, name).value; StandsAt(s, v.at, Text(s, v))
  {
    ScanFindsFirst(s, 0, name);
    assert ValueOfLine(s, Scanner.HeaderLine(s, 0, name), name, FindHeader(s, 0, name).value);
  }

  lemma HeaderParamIs(s: string, name: string, value: string, skip: nat)
    requires '\r' !in name && Header(s, name) == Some(value) && ParamWithin(value, skip)
    ensures HeaderParam(s, name, skip).Some? && ParamIdent(s, name, skip) == Some(Whole(ParamOf(value, skip)))
  {
    hide FindParam, ParamOf, ParamWithin, FindHeader;
    ValueStands(s, name);
    ParamInside(s, FindHeader(s, 0, name).value.at, value, skip);
    assert value != "" by { EmptyHasNone(skip); }
  }

  /** A header's parameter is text of another header, or of the body, exactly when the header itself has none
      that starts inside it. */
  lemma HeaderParamIff(s: string, name: string, value: string, skip: nat)
    requires '\r' !in name && Header(s, name) == Some(value) && HeaderParam(s, name, skip).Some?
    ensures var v := FindHeader(s, 0, name).value;
            HeaderParam(s, name, skip).value.at > v.at + v.len <==> !ParamWithin(value, skip)
  {
    hide FindParam, ParamWithin, FindHeader;
    ValueStands(s, name);
    ParamInsideIff(s, FindHeader(s, 0, name).value.at, value, skip);
  }

  lemma EmptyHasNone(skip: nat)
    ensures !ParamWithin("", skip)
  {
  }

  /** A value with a parameter: what stands in front, blanks, the skipped characters, the content, and more. */
  function WithParam(front: string, blanks: string, word: string, content: string, rest: string): string {
    front + ";" + blanks + word + content + rest
  }

  lemma ParamChars(front: string, blanks: string, word: string, content: string, rest: string)
    ensures var v, q := WithParam(front, blanks, word, content, rest), |front| + 1 + |blanks| + |word|;
            && v[..|front|] == front && v[|front|] == ';' && v[|front| + 1..|front| + 1 + |blanks|] == blanks
            && (word != "" ==> v[|front| + 1 + |blanks|] == word[0])
            && |v| == q + |content| + |rest| && v[q..] == content + rest
            && forall k :: |front| < k < |v| ==> v[k] in blanks + word + content + rest
  {
    var v := WithParam(front, blanks, word, content, rest);
    var tail := blanks + word + content + rest;
    assert v == front + ";" + tail;
    assert forall k :: |front| < k < |v| ==> v[k] == tail[k - |front| - 1];
  }

  /** The search starts in front of the content, and right in front of it only if there is no earlier ';'. */
  lemma ParamStarts(front: string, blanks: string, word: string, content: string, rest: string)
    requires word != "" && !Blank(word[0]) && forall i :: 0 <= i < |blanks| ==> Blank(blanks[i])
    ensures var v, q := WithParam(front, blanks, word, content, rest), |front| + 1 + |blanks| + |word|;
            && ParamWithin(v, |word|) && ParamStart(v, |word|) <= q
            && (ParamStart(v, |word|) == q <==> ';' !in front)
  {
    ParamChars(front, blanks, word, content, rest);
    var v := WithParam(front, blanks, word, content, rest);
    assert v[0..] == v;
    var i := CharFrom(v, 0, ';').value;
    if ';' in front { FirstWithin(v, front, ';'); }
    hide WithParam, CharFrom;
    if ';' !in front {
      FirstChar(v, 0, ';', |front|);
      BlanksPassed(v, |front| + 1, |blanks|);
    } else {
      assert !Blank(v[|front|]);
    }
  }

  lemma FirstWithin(v: string, front: string, c: char)
    requires |front| <= |v| && v[..|front|] == front && c in front
    ensures CharFrom(v, 0, c).Some? && CharFrom(v, 0, c).value < |front|
  {
    var k :| 0 <= k < |front| && front[k] == c;
    assert v[k] == c && v[0..] == v;
    assert c in v[0..];
  }

  lemma {:induction false} BlanksPassed(s: string, p: nat, n: nat)
    requires p + n <= |s| && (p + n < |s| ==> !Blank(s[p + n])) && forall i :: p <= i < p + n ==> Blank(s[i])
    ensures PastBlanks(s, p) == p + n
    decreases n
  {
    if n > 0 { BlanksPassed(s, p + 1, n - 1); }
  }

  /** What is read is the content of this parameter exactly when it is the first, whatever it is called, and the
      last. In front of it no carriage return may cut the search short with the same text. */
  lemma ParamReadIff(front: string, blanks: string, word: string, content: string, rest: string)
    requires word != "" && !Blank(word[0]) && forall i :: 0 <= i < |blanks| ==> Blank(blanks[i])
    requires '\r' !in blanks + word + content + rest
    ensures var v := WithParam(front, blanks, word, content, rest);
            && ParamWithin(v, |word|)
            && (';' !in front && rest == "" ==> ParamOf(v, |word|) == content)
            && ('\r' !in front || !Contains(front, content) ==>
                  (ParamOf(v, |word|) == content <==> ';' !in front && rest == ""))
  {
    var v := WithParam(front, blanks, word, content, rest);
    ParamChars(front, blanks, word, content, rest);
    ParamStarts(front, blanks, word, content, rest);
    hide WithParam, ParamStart, ParamWithin, CharFrom, Blank;
    var start, e := ParamStart(v, |word|), ParamEnd(v, |word|);
    EndBehind(v, |front|, |word|);
    if e == |v| {
      if start == |front| + 1 + |blanks| + |word| { assert content + "" == content; }
    } else {
      assert OccursAt(front, start, front[start..e]);
      assert v[start..e] == front[start..e] by { assert v[..|front|][start..e] == v[start..e]; }
    }
  }

  /** A parameter ends where the value does, or at a carriage return in front of `n`. */
  lemma EndBehind(v: string, n: nat, skip: nat)
    requires ParamWithin(v, skip) && n < |v| && v[n] != '\r' && forall k :: n < k < |v| ==> v[k] != '\r'
    ensures var e := ParamEnd(v, skip); e == |v| || (e < n && v[e] == '\r')
  {
  }

  /** So a text's tag or branch is the content of the parameter meant exactly when that is the first of its
      header and the last; the word in front of it is not looked at. */
  lemma HeaderParamReadIff(s: string, name: string, front: string, blanks: string, word: string, content: string, rest: string)
    requires '\r' !in name && Header(s, name) == Some(WithParam(front, blanks, word, content, rest))
    requires word != "" && !Blank(word[0]) && forall i :: 0 <= i < |blanks| ==> Blank(blanks[i])
    requires '\r' !in blanks + word + content + rest && ('\r' !in front || !Contains(front, content))
    ensures ParamIdent(s, name, |word|) == Some(Whole(content)) <==> ';' !in front && rest == ""
  {
    hide Header, ParamIdent, HeaderParam, ParamOf, ParamWithin, Contains, WithParam;
    ParamReadIff(front, blanks, word, content, rest);
    HeaderParamIs(s, name, WithParam(front, blanks, word, content, rest), |word|);
  }

  /** The tag added to a To value without parameters is its first parameter. */
  lemma AddedTag(to: string, tag: string)
    requires ';' !in to && '\r' !in tag
    ensures var value := to + ";tag=" + tag; ParamWithin(value, TAG_SKIP) && ParamOf(value, TAG_SKIP) == tag
  {
    AddedIsParam(to, tag);
    ParamReadIff(to, "", "tag=", tag, "");
  }

  lemma AddedIsParam(to: string, tag: string)
    ensures WithParam(to, "", "tag=", tag, "") == to + ";tag=" + tag
  {
    assert ";" + "" + "tag=" == ";tag=";
    assert to + ";" + "" + "tag=" + tag + "" == to + ";tag=" + tag;
  }

  /** An added tag is read back exactly when the To value in front of it has no ';', be it that of a parameter
      or one of its URI. */
  lemma AddedTagIff(to: string, tag: string)
    requires '\r' !in tag && !Contains(to, tag)
    ensures var value := to + ";tag=" + tag;
            ParamWithin(value, TAG_SKIP) && (ParamOf(value, TAG_SKIP) == tag <==> ';' !in to)
  {
    AddedIsParam(to, tag);
    ParamReadIff(to, "", "tag=", tag, "");
  }

  lemma FirstChar(s: string, p: nat, c: char, i: nat)
    requires p <= i < |s| && s[i] == c && c !in s[p..i]
    ensures CharFrom(s, p, c) == Some(i)
    decreases i - p
  {
    if p < i {
      assert s[p..i] == [s[p]] + s[p + 1..i];
      FirstChar(s, p + 1, c, i);
    }
  }

  lemma NoChar(s: string, p: nat, c: char)
    requires p <= |s| && c !in s[p..]
    ensures CharFrom(s, p, c).None?
    decreases |s| - p
  {
    if p < |s| {
      assert s[p..] == [s[p]] + s[p + 1..];
      NoChar(s, p + 1, c);
    }
  }

  // ---------- the tags of a later request ----------

  /** A request that copies the From of `first`, and the To of a response that added `tag`. */
  ghost predicate Copies(text: string, first: Request, tag: string) {
    Header(text, FROM) == Some(first.from) && Header(text, TO) == Some(first.to + ";tag=" + tag)
  }

  /** Copying the headers read from the response is copying them from the request and the tag. */
  lemma CopiedFromResponse(text: string, later: string, first: Request, code: nat, tag: string)
    requires StatusCode(code) && Parse(text) == Some(first) && '\r' !in tag && !Contains(first.afterTo, tag)
    requires |Print(code, first, Some(tag))| < BUFFER_SIZE
    requires var s := Fill(Printed(code, first, Some(tag))).0;
             Header(later, FROM) == Header(s, FROM) && Header(later, TO) == Header(s, TO)
    ensures Copies(later, first, tag)
  {
    hide Fill, Header, Parse, Contains, Print;
    ResponseReadsBack(text, first, code, Some(tag));
    assert first.to + (";tag=" + tag) == first.to + ";tag=" + tag;
  }

  lemma ParsedParams(text: string)
    requires Parse(text).Some?
    ensures Header(text, FROM) == Some(Parse(text).value.from)
    ensures Some(Parse(text).value.fromTag) == ParamIdent(text, FROM, TAG_SKIP)
    ensures Parse(text).value.toTag == ParamIdent(text, TO, TAG_SKIP)
  {
    hide FindHeader, FindParam, FirstLine, Headers, Behind, MethodWord, Classify;
    CheckedHeaders(text);
  }

  lemma ToIsBehind(text: string)
    requires Parse(text).Some?
    ensures var r := Parse(text).value; r.to == r.afterTo[..|r.to|] && |r.to| <= |r.afterTo|
  {
    hide FindHeader, FindParam, FirstLine, MethodWord, Classify, ParamIdent;
    CheckedHeaders(text);
    assert HasHeader(text, TO);
  }

  lemma ContainsMore(text: string, front: string, word: string)
    requires |front| <= |text| && front == text[..|front|] && Contains(front, word)
    ensures Contains(text, word)
  {
    var i: nat :| i <= |front| && OccursAt(front, i, word);
    assert text[i..i + |word|] == front[i..i + |word|];
    assert OccursAt(text, i, word);
  }

  /** Such a request parses to the From tag of the first one, if that starts inside its From, and to the tag that
      was handed out exactly when the To it was added to has no ';'. */
  lemma CopiedTags(text: string, later: string, first: Request, r: Request, tag: string)
    requires Parse(text) == Some(first) && Parse(later) == Some(r)
    requires '\r' !in tag && !Contains(first.to, tag) && Copies(later, first, tag)
    ensures ParamWithin(first.from, TAG_SKIP) ==> r.fromTag == first.fromTag
    ensures r.toTag == Some(Whole(tag)) <==> ';' !in first.to
  {
    hide Parse, Header, HeaderParam, ParamIdent, ParamOf, ParamWithin, Contains;
    ParsedParams(text);
    ParsedParams(later);
    AddedTagIff(first.to, tag);
    if ParamWithin(first.from, TAG_SKIP) {
      HeaderParamIs(text, FROM, first.from, TAG_SKIP);
      HeaderParamIs(later, FROM, first.from, TAG_SKIP);
    }
    HeaderParamIs(later, TO, first.to + ";tag=" + tag, TAG_SKIP);
  }

  // ---------- the dialog they lead to ----------

  /** Dialog `d` was created with these tags. */
  ghost predicate Tagged(w: Worker, d: nat, fromTag: Ident, toTag: string) {
    d in w.dialogs && w.dialogs[d].fromTag == Cut(fromTag, MAX_ID_LENGTH) && w.dialogs[d].toTag == toTag
  }

  /** No other dialog answers to these tags. */
  ghost predicate Alone(w: Worker, d: nat, fromTag: Ident, toTag: string) {
    forall e :: e in w.dialogs && e != d ==> !DialogMatches(w.dialogs[e], fromTag, Some(Whole(toTag)))
  }

  /** The tags lead to the dialog exactly when its From tag was not cut. */
  lemma FoundIff(w: Worker, d: nat, fromTag: Ident, toTag: string)
    requires Lists(w) && Tagged(w, d, fromTag, toTag) && Alone(w, d, fromTag, toTag) && Shown(fromTag) && fromTag.length > 0
    ensures FindDialog(w.dialogOrder, w.dialogs, fromTag, Some(Whole(toTag))) == Some(d) <==> |fromTag.text| <= MAX_ID_LENGTH
  {
    hide FindDialog;
    FoundAgainIff(fromTag, MAX_ID_LENGTH);
    assert DialogMatches(w.dialogs[d], fromTag, Some(Whole(toTag))) <==> |fromTag.text| <= MAX_ID_LENGTH;
  }

  /** Any tags lead to the dialog exactly when they are the ones it stores. */
  lemma FoundByIff(w: Worker, d: nat, fromTag: Ident, toTag: string, from: Ident, to: Option<Ident>)
    requires Lists(w) && Tagged(w, d, fromTag, toTag) && Alone(w, d, from, toTag)
    requires Shown(fromTag) && Shown(from) && from.length > 0 && (to.Some? ==> Shown(to.value))
    ensures FindDialog(w.dialogOrder, w.dialogs, from, to) == Some(d)
            <==> from == Cut(fromTag, MAX_ID_LENGTH) && to == Some(Whole(toTag))
  {
    hide FindDialog;
    MatchIsEquality(Cut(fromTag, MAX_ID_LENGTH), from);
    if to.Some? { MatchIsEquality(Whole(toTag), to.value); }
  }

  /** Over any run, a dialog that is still there keeps its tags. */
  lemma TagsStay(s: System, steps: seq<Step>, d: nat, fromTag: Ident, toTag: string)
    requires Inv(s.w) && IsRun(s, steps) && Tagged(s.w, d, fromTag, toTag) && d in Run(s, steps).w.dialogs
    ensures Tagged(Run(s, steps).w, d, fromTag, toTag) && Inv(Run(s, steps).w)
  {
    RunForward(s, steps);
    RunKeepsInv(s, steps);
  }

  /** The INVITE opens a dialog tagged with its From tag and the tag it is answered with. */
  lemma InviteTags(w: Worker, m: Message, o: Oracle)
    requires Inv(w) && Closed(w) && Opens(w, m, o)
    ensures var r := ProcessRequest(w, m, o);
            var t, d := w.nextId, w.nextId + 1;
            && Tagged(r, d, m.req.fromTag, o.toTag) && t in r.txns && r.txns[t].dialog == Some(d)
            && (o.allocCall && m.req.callId != "" && o.send180 && o.send200 ==> r.dialogs[d].state == DialogConfirmed)
  {
    hide Coupled, CallLinks, TxnLinks;
    var v, t := WorkerModel.Adopt(w, m), w.nextId;
    OpensInvite(w, m, o);
    assert Lists(v) by { AdoptLists(w, m); }
    hide Inv, ProcessRequest, ProcessInvite, DialogEnds, Tagged;
    InviteAccepted(v, t, o);
    EndsTagged(v, ProcessInvite(v, t, o), t, m.req, o);
  }

  lemma EndsTagged(w: Worker, r: Worker, t: nat, req: Request, o: Oracle)
    requires t in w.txns && w.nextId !in w.dialogs
    requires DialogEnds(StartDialog(w, t, req.fromTag, o.toTag), r, t, w.nextId, req.callId, o)
    ensures Tagged(r, w.nextId, req.fromTag, o.toTag) && t in r.txns && r.txns[t].dialog == Some(w.nextId)
    ensures o.allocCall && req.callId != "" && o.send180 && o.send200 ==> r.dialogs[w.nextId].state == DialogConfirmed
  {
    StartDialogEffect(w, t, req.fromTag, o.toTag);
  }

  lemma OpensInvite(w: Worker, m: Message, o: Oracle)
    requires Closed(w) && Opens(w, m, o)
    ensures var v := WorkerModel.Adopt(w, m);
            && w.nextId in v.txns && v.txns[w.nextId].state == TxnIdle && v.txns[w.nextId].dialog.None?
            && v.txns[w.nextId].message == Some(m) && v.nextId == w.nextId + 1
            && ProcessRequest(w, m, o) == ProcessInvite(v, w.nextId, o)
  {
    hide ProcessInvite;
    assert AttachByTags(WorkerModel.Adopt(w, m), w.nextId, m.req) == WorkerModel.Adopt(w, m);
  }

  /** An INVITE on a new branch that gets a dialog. */
  ghost predicate Opens(w: Worker, m: Message, o: Oracle) {
    && FindTxnOf(w, m.req.branch).None? && o.allocTxn && m.req.branch.length > 0 && m.req.kind == INVITE
    && FindDialogOf(w, m.req).None? && !NoDialogMade(o, m.req)
  }

  /** What a transaction sends for its own request. */
  function Said(t: nat, d: Option<nat>, m: Message, code: nat, tag: Option<string>, ok: bool): Sent {
    Sent(Some(t), d, m.req.kind, code, Printed(code, m.req, tag), m.addr, ok, false)
  }

  /** An INVITE that is answered: 100 without a tag, then 180 and 200 with the tag of the new dialog. */
  lemma InviteSends(w: Worker, m: Message, o: Oracle)
    requires Inv(w) && Closed(w) && Opens(w, m, o)
    requires o.allocCall && m.req.callId != "" && o.send180 && o.send200
    ensures var r := ProcessRequest(w, m, o);
            var t, d, tag := w.nextId, Some(w.nextId + 1), Some(o.toTag);
            && r.history.sent == w.history.sent
                 + [Said(t, None, m, 100, None, true), Said(t, d, m, 180, tag, true), Said(t, d, m, 200, tag, true)]
            && t in r.txns && r.txns[t].response == Printed(200, m.req, tag)
  {
    var v, t := WorkerModel.Adopt(w, m), w.nextId;
    OpensInvite(w, m, o);
    hide Inv, ProcessRequest, Closed, Opens, WorkerModel.Adopt, InviteCall;
    DialogAnswered(v, t, m, o);
  }

  lemma DialogAnswered(w: Worker, t: nat, m: Message, o: Oracle)
    requires t in w.txns && w.txns[t].state == TxnIdle && w.txns[t].message == Some(m) && w.txns[t].dialog.None?
    requires w.nextId !in w.dialogs && !NoDialogMade(o, m.req)
    requires o.allocCall && m.req.callId != "" && o.send180 && o.send200
    ensures var r := ProcessInvite(w, t, o);
            var d, tag := Some(w.nextId), Some(o.toTag);
            && r.history.sent == w.history.sent
                 + [Said(t, None, m, 100, None, true), Said(t, d, m, 180, tag, true), Said(t, d, m, 200, tag, true)]
            && t in r.txns && r.txns[t].response == Printed(200, m.req, tag)
  {
    hide InviteCall, StartDialog;
    var w1 := SetTxnState(Respond(w, t, 100, true), t, TxnProceeding, o);
    var w2 := StartDialog(w1, t, m.req.fromTag, o.toTag);
    StartDialogEffect(w1, t, m.req.fromTag, o.toTag);
    CallAnswered(w2, t, w.nextId, m, o);
  }

  lemma CallAnswered(w: Worker, t: nat, d: nat, m: Message, o: Oracle)
    requires t in w.txns && d in w.dialogs && w.txns[t].dialog == Some(d) && w.txns[t].message == Some(m)
    requires o.allocCall && m.req.callId != "" && o.send180 && o.send200
    ensures var r := InviteCall(w, t, d, o);
            var tag := Some(w.dialogs[d].toTag);
            && r.history.sent == w.history.sent + [Said(t, Some(d), m, 180, tag, true), Said(t, Some(d), m, 200, tag, true)]
            && t in r.txns && r.txns[t].response == Printed(200, m.req, tag)
  {
  }

  /** In this step the worker handles an INVITE that opens a dialog. */
  ghost predicate OpensIn(s: System, o: Oracle, m: Message) {
    Inv(s.w) && Allowed(s, Work(o)) && Incoming(s) == Some(m) && Opens(s.w, m, o)
  }

  /** The tag of a response to `first` can be told apart: the request does not contain it already, and the
      response fits its buffer. */
  ghost predicate TagShown(first: Request, code: nat, tag: string) {
    && '\r' !in tag && !Contains(first.afterTo, tag)
    && StatusCode(code) && |Print(code, first, Some(tag))| < BUFFER_SIZE
  }

  /** `later` has the From and the To of the response. */
  ghost predicate CopiesResponse(later: string, first: Request, code: nat, tag: string) {
    var sent := Fill(Printed(code, first, Some(tag))).0;
    Header(later, FROM) == Header(sent, FROM) && Header(later, TO) == Header(sent, TO)
  }

  lemma OpeningStep(s: System, o: Oracle, m: Message)
    requires OpensIn(s, o, m)
    ensures s.queue != [] && s.queue[0].Sip? && Parse(s.queue[0].raw.text) == Some(m.req) && Shown(m.req.fromTag) && m.req.fromTag.length > 0
    ensures var first := Next(s, Work(o)); Inv(first.w) && Tagged(first.w, s.w.nextId + 1, m.req.fromTag, o.toTag)
  {
    hide Parse, Inv, ProcessRequest, Closed, BackLinks, TxnLinks, CallLinks, Admissible;
    ParsedShown(s.queue[0].raw.text);
    InviteTags(s.w, m, o);
    StepKeepsInv(s, Work(o));
  }

  lemma ResponseTags(text: string, later: string, first: Request, r: Request, code: nat, tag: string)
    requires Parse(text) == Some(first) && Parse(later) == Some(r)
    requires TagShown(first, code, tag) && CopiesResponse(later, first, code, tag)
    ensures ParamWithin(first.from, TAG_SKIP) ==> r.fromTag == first.fromTag
    ensures r.toTag == Some(Whole(tag)) <==> ';' !in first.to
  {
    hide Parse, Header, Fill, Contains, Print, ParamWithin;
    CopiedFromResponse(text, later, first, code, tag);
    NotInTo(text, tag);
    CopiedTags(text, later, first, r, tag);
  }

  lemma NotInTo(text: string, tag: string)
    requires Parse(text).Some? && !Contains(Parse(text).value.afterTo, tag)
    ensures !Contains(Parse(text).value.to, tag)
  {
    hide Parse, Contains;
    var r := Parse(text).value;
    ToIsBehind(text);
    if Contains(r.to, tag) { ContainsMore(r.afterTo, r.to, tag); }
  }

  /** Section 12.1.1 of RFC 3261 end to end: whatever happens after the INVITE, as long as its dialog is
      there, a request that copies From and To from the 180 or 200 finds that dialog exactly when the INVITE's To
      has no ';' and its From tag is read again as the dialog stores it: for a tag inside From, when it was not
      cut. */
  lemma LaterRequestFindsDialog(s: System, o: Oracle, m: Message, first: System, steps: seq<Step>, last: System,
                                code: nat, later: string, r: Request)
    requires OpensIn(s, o, m) && first == Next(s, Work(o))
    requires IsRun(first, steps) && last == Run(first, steps)
    requires s.w.nextId + 1 in last.w.dialogs && Alone(last.w, s.w.nextId + 1, r.fromTag, o.toTag)
    requires TagShown(m.req, code, o.toTag) && CopiesResponse(later, m.req, code, o.toTag) && Parse(later) == Some(r)
    ensures FindDialogOf(last.w, r) == Some(s.w.nextId + 1)
            <==> ';' !in m.req.to && r.fromTag == Cut(m.req.fromTag, MAX_ID_LENGTH)
    ensures ParamWithin(m.req.from, TAG_SKIP) ==>
              (FindDialogOf(last.w, r) == Some(s.w.nextId + 1)
               <==> ';' !in m.req.to && |m.req.fromTag.text| <= MAX_ID_LENGTH)
  {
    hide Parse, Next, Inv, OpensIn, TagShown, CopiesResponse, Tagged, Alone, IsRun, Run, ParamWithin;
    OpeningStep(s, o, m);
    ResponseTags(s.queue[0].raw.text, later, m.req, r, code, o.toTag);
    TagsStay(first, steps, s.w.nextId + 1, m.req.fromTag, o.toTag);
    InvLists(last.w);
    ParsedShown(later);
    FoundByIff(last.w, s.w.nextId + 1, m.req.fromTag, o.toTag, r.fromTag, r.toTag);
  }

  lemma InvLists(w: Worker)
    requires Inv(w)
    ensures Lists(w)
  {
  }

  /** And if it is a BYE on a new branch and the dialog is CONFIRMED, it is answered 200. */
  lemma ByeFindsDialog(w: Worker, m: Message, o: Oracle, d: nat)
    requires Inv(w) && Closed(w) && FindTxnOf(w, m.req.branch).None? && m.req.kind == BYE && o.allocTxn
    requires m.req.branch.length > 0
    requires FindDialogOf(w, m.req) == Some(d) && d in w.dialogs && w.dialogs[d].state == DialogConfirmed
    ensures var r := ProcessRequest(w, m, o);
            |r.history.sent| == |w.history.sent| + 1 &&
            var e := r.history.sent[|w.history.sent|];
            e.txn == Some(w.nextId) && e.dialog == Some(d) && e.kind == BYE && e.code == 200 && e.addr == m.addr
  {
    assert DialogCoupled(w.dialogs[d], w.calls);
    hide ProcessRequest;
    NewByeAnswered(w, m, o);
  }
}
