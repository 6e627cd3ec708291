/** sip_message_t: the received text, the pointers cached while parsing it, and the response buffer. */
module Messages {
  import opened SipTypes
  import opened Scanner
  import opened SipText
  import opened Responses

  class SipMessage {
    const id: nat
    const addr: Address
    const buffer: string
    var response: string
    var responseLength: nat
    var callId: Option<Span>
    var from: Option<Span>
    var fromTag: Option<Span>
    var to: Option<Span>
    var toTag: Option<Span>
    var via: Option<Span>
    var branch: Option<Span>
    var cseq: Option<Span>
    var isRequest: bool
    var methodLength: nat
    var kind: Method

    // What the text parses to, and what the response buffer was filled with.
    ghost const parsed: Option<Request>
    ghost var printed: Response

    constructor (id: nat, addr: Address, buffer: string)
      ensures this.id == id && this.addr == addr && this.buffer == buffer && Fresh()
    {
      this.id, this.addr, this.buffer := id, addr, buffer;
      response, responseLength := "", 0;
      callId, from, fromTag, to, toTag, via, branch, cseq := None, None, None, None, None, None, None, None;
      isRequest, methodLength, kind := false, 0, UNKNOWN;
      parsed, printed := Parse(buffer), Empty;
    }

    /** Nothing but the Call-ID has been looked at. */
    ghost predicate Fresh()
      reads this
    {
      && parsed == Parse(buffer) && printed == Empty && response == "" && responseLength == 0
      && kind == UNKNOWN && methodLength == 0
      && (callId.Some? ==> callId == FindHeader(buffer, 0, CALL_ID))
      && from == fromTag == to == toTag == via == branch == cseq == None
    }

    /** get_message_call_id */
    method GetCallId() returns (v: Option<Span>)
      requires callId.Some? ==> callId == FindHeader(buffer, 0, CALL_ID)
      modifies this`callId
      ensures v == FindHeader(buffer, 0, CALL_ID)
      ensures callId == v
    {
      if callId.Some? && callId.value.len > 0 { return callId; }
      v := GetHeaderValue(buffer, CALL_ID);
      if v.Some? { callId := v; }
    }

    /** get_message_from */
    method GetFrom() returns (v: Option<Span>)
      requires from.Some? ==> from == FindHeader(buffer, 0, FROM)
      modifies this`from
      ensures v == FindHeader(buffer, 0, FROM) && from == v
    {
      if from.Some? && from.value.len > 0 { return from; }
      v := GetHeaderValue(buffer, FROM);
      if v.Some? { from := v; }
    }

    /** get_message_to */
    method GetTo() returns (v: Option<Span>)
      requires to.Some? ==> to == FindHeader(buffer, 0, TO)
      modifies this`to
      ensures v == FindHeader(buffer, 0, TO) && to == v
    {
      if to.Some? && to.value.len > 0 { return to; }
      v := GetHeaderValue(buffer, TO);
      if v.Some? { to := v; }
    }

    /** get_message_via */
    method GetVia() returns (v: Option<Span>)
      requires via.Some? ==> via == FindHeader(buffer, 0, VIA)
      modifies this`via
      ensures v == FindHeader(buffer, 0, VIA) && via == v
    {
      if via.Some? && via.value.len > 0 { return via; }
      v := GetHeaderValue(buffer, VIA);
      if v.Some? { via := v; }
    }

    /** get_message_cseq */
    method GetCseq() returns (v: Option<Span>)
      requires cseq.Some? ==> cseq == FindHeader(buffer, 0, CSEQ)
      modifies this`cseq
      ensures v == FindHeader(buffer, 0, CSEQ) && cseq == v
    {
      if cseq.Some? && cseq.value.len > 0 { return cseq; }
      v := GetHeaderValue(buffer, CSEQ);
      if v.Some? { cseq := v; }
    }

    /** get_message_method, which looks at the method word once; a response has none. */
    method GetMethod() returns (m: Method)
      requires methodLength <= |buffer|
      requires isRequest && kind != UNKNOWN ==> kind == Classify(buffer[..methodLength])
      modifies this`kind
      ensures m == if isRequest then Classify(buffer[..methodLength]) else UNKNOWN
      ensures kind == if isRequest then m else old(kind)
    {
      if !isRequest { return UNKNOWN; }
      if kind != UNKNOWN { return kind; }
      kind := Classify(buffer[..methodLength]);
      m := kind;
    }

    /** parse_first_line. The version, the URI, the status code and the reason are checked, not kept. */
    method ParseFirstLine() returns (err: ParseError)
      requires kind == UNKNOWN
      modifies this`isRequest, this`methodLength, this`kind
      ensures err == FirstLine(buffer)
      ensures err == ERROR_NONE ==> isRequest == !IsResponse(buffer) && (!isRequest ==> methodLength == old(methodLength))
      ensures err == ERROR_NONE && isRequest ==>
                MethodEnd(buffer) == Some(methodLength) && kind == Classify(buffer[..methodLength]) && kind != UNKNOWN
    {
      var lineEnd := LineEnd(buffer, 0);
      if lineEnd.None? { return ERROR_MALFORMED_MESSAGE; }
      if IsResponse(buffer) {
        isRequest := false;
        err := CheckResponse(lineEnd.value);
        return;
      }
      isRequest := true;
      var space := CharFrom(buffer, 0, ' ');
      if space.None? || space.value >= lineEnd.value { return ERROR_MALFORMED_MESSAGE; }
      methodLength := space.value;
      var m := GetMethod();
      if m == UNKNOWN { return ERROR_UNKNOWN_METHOD; }
      var uri := space.value + 1;
      while uri < lineEnd.value && buffer[uri] == ' '
        invariant space.value < uri <= lineEnd.value
        invariant PastSpaces(buffer, space.value + 1, lineEnd.value) == PastSpaces(buffer, uri, lineEnd.value)
      {
        uri := uri + 1;
      }
      err := CheckUri(uri, lineEnd.value);
    }

    /** The half of parse_first_line that reads a response. */
    method CheckResponse(lineEnd: nat) returns (err: ParseError)
      requires LineEnd(buffer, 0) == Some(lineEnd)
      ensures err == ResponseLine(buffer)
    {
      var dash := CharFrom(buffer, 0, '/');
      if dash.None? || dash.value + 2 >= lineEnd { return ERROR_MALFORMED_MESSAGE; }
      if Atoi(buffer, dash.value + 1) != 2 || Atoi(buffer, dash.value + 3) != 0 { return ERROR_UNSUPPORTED_SIP_VERSION; }
      err := CheckStatus(dash.value + 4, lineEnd);
    }

    /** The status code and the reason. */
    method CheckStatus(p: nat, lineEnd: nat) returns (err: ParseError)
      requires lineEnd < |buffer|
      ensures err == StatusCheck(buffer, p, lineEnd)
    {
      if p >= lineEnd { return ERROR_MALFORMED_MESSAGE; }
      var status := p;
      while status < lineEnd && buffer[status] == ' '
        invariant p <= status <= lineEnd && PastSpaces(buffer, p, lineEnd) == PastSpaces(buffer, status, lineEnd)
      {
        status := status + 1;
      }
      if status >= lineEnd { return ERROR_MALFORMED_MESSAGE; }
      var reason := status;
      while reason < lineEnd && buffer[reason] != ' '
        invariant status <= reason <= lineEnd && PastWord(buffer, status, lineEnd) == PastWord(buffer, reason, lineEnd)
      {
        reason := reason + 1;
      }
      if reason >= lineEnd { return ERROR_MALFORMED_MESSAGE; }
      return ERROR_NONE;
    }

    /** The URI and the version behind it. */
    method CheckUri(uri: nat, lineEnd: nat) returns (err: ParseError)
      requires uri <= lineEnd < |buffer|
      ensures err == if uri >= lineEnd then ERROR_MALFORMED_MESSAGE
                     else
                       var uriEnd := CharFrom(buffer, uri, ' ');
                       if uriEnd.None? || uriEnd.value >= lineEnd then ERROR_MALFORMED_MESSAGE
                       else VersionCheck(buffer, uriEnd.value, lineEnd)
    {
      if uri >= lineEnd { return ERROR_MALFORMED_MESSAGE; }
      var uriEnd := CharFrom(buffer, uri, ' ');
      if uriEnd.None? || uriEnd.value >= lineEnd { return ERROR_MALFORMED_MESSAGE; }
      var dash := CharFrom(buffer, uriEnd.value, '/');
      if dash.None? || dash.value + 2 >= lineEnd { return ERROR_MALFORMED_MESSAGE; }
      if Atoi(buffer, dash.value + 1) != 2 || Atoi(buffer, dash.value + 3) != 0 { return ERROR_UNSUPPORTED_SIP_VERSION; }
      return ERROR_NONE;
    }

    /** What get_from_tag, get_to_tag and get_branch_param have in common. */
    method ScanParam(value: Option<Span>, skip: nat) returns (v: Option<Span>)
      requires value.Some? ==> InText(buffer, value.value)
      ensures v == if value.Some? && value.value.len > 0 then FindParam(buffer, value.value, skip) else None
    {
      if value.None? || value.value.len == 0 { return None; }
      var semicolon := CharFrom(buffer, value.value.at, ';');
      if semicolon.None? { return None; }
      var start := semicolon.value + 1;
      while start < |buffer| && Blank(buffer[start])
        invariant semicolon.value < start <= |buffer|
        invariant PastBlanks(buffer, semicolon.value + 1) == PastBlanks(buffer, start)
      {
        start := start + 1;
      }
      start := start + skip;
      var end := if start <= |buffer| then CharFrom(buffer, start, '\r') else None;
      if end.None? { end := Some(value.value.at + value.value.len); }
      return Some(Span(start, Distance(start, end.value)));
    }

    /** get_from_tag */
    method GetFromTag() returns (v: Option<Span>)
      requires from == FindHeader(buffer, 0, FROM) && fromTag == None
      modifies this`fromTag
      ensures v == fromTag == HeaderParam(buffer, FROM, TAG_SKIP)
    {
      v := ScanParam(from, TAG_SKIP);
      if v.Some? { fromTag := v; }
    }

    /** get_to_tag */
    method GetToTag() returns (v: Option<Span>)
      requires to == FindHeader(buffer, 0, TO) && toTag == None
      modifies this`toTag
      ensures v == toTag == HeaderParam(buffer, TO, TAG_SKIP)
    {
      v := ScanParam(to, TAG_SKIP);
      if v.Some? { toTag := v; }
    }

    /** get_branch_param */
    method GetBranch() returns (v: Option<Span>)
      requires via == FindHeader(buffer, 0, VIA) && branch == None
      modifies this`branch
      ensures v == branch == HeaderParam(buffer, VIA, BRANCH_SKIP)
    {
      v := ScanParam(via, BRANCH_SKIP);
      if v.Some? { branch := v; }
    }

    /** parse_message on From and its tag. */
    method ParseFrom() returns (err: ParseError)
      requires from == fromTag == None
      modifies this`from, this`fromTag
      ensures err == CheckParam(buffer, FROM, TAG_SKIP)
      ensures err == ERROR_NONE ==> from == FindHeader(buffer, 0, FROM) && fromTag == HeaderParam(buffer, FROM, TAG_SKIP)
    {
      var header := GetFrom();
      if header.None? || header.value.len == 0 { return ERROR_MISSING_MANDATORY_HEADER; }
      header := GetFromTag();
      if header.None? || header.value.len == 0 { return ERROR_MISSING_MANDATORY_PARAMETER; }
      return ERROR_NONE;
    }

    /** parse_message on To; its tag is optional. */
    method ParseTo() returns (err: ParseError)
      requires to == toTag == None
      modifies this`to, this`toTag
      ensures err == CheckHeader(buffer, TO)
      ensures err == ERROR_NONE ==> to == FindHeader(buffer, 0, TO) && toTag == HeaderParam(buffer, TO, TAG_SKIP)
    {
      var header := GetTo();
      if header.None? || header.value.len == 0 { return ERROR_MISSING_MANDATORY_HEADER; }
      var _ := GetToTag();
      return ERROR_NONE;
    }

    /** parse_message on Via and its branch. */
    method ParseVia() returns (err: ParseError)
      requires via == branch == None
      modifies this`via, this`branch
      ensures err == CheckParam(buffer, VIA, BRANCH_SKIP)
      ensures err == ERROR_NONE ==> via == FindHeader(buffer, 0, VIA) && branch == HeaderParam(buffer, VIA, BRANCH_SKIP)
    {
      var header := GetVia();
      if header.None? || header.value.len == 0 { return ERROR_MISSING_MANDATORY_HEADER; }
      header := GetBranch();
      if header.None? || header.value.len == 0 { return ERROR_MISSING_MANDATORY_PARAMETER; }
      return ERROR_NONE;
    }

    /** parse_message on CSeq. */
    method ParseCseq() returns (err: ParseError)
      requires cseq == None
      modifies this`cseq
      ensures err == CheckHeader(buffer, CSEQ)
      ensures err == ERROR_NONE ==> cseq == FindHeader(buffer, 0, CSEQ)
    {
      var header := GetCseq();
      if header.None? || header.value.len == 0 { return ERROR_MISSING_MANDATORY_HEADER; }
      return ERROR_NONE;
    }

    /** parse_message on the headers it only asks for. */
    method ParseRest() returns (err: ParseError)
      ensures err == Then(CheckHeader(buffer, MAX_FORWARDS), CheckHeader(buffer, CONTENT_LENGTH))
    {
      var header := GetHeaderValue(buffer, MAX_FORWARDS);
      if header.None? || header.value.len == 0 { return ERROR_MISSING_MANDATORY_HEADER; }
      header := GetHeaderValue(buffer, CONTENT_LENGTH);
      if header.None? || header.value.len == 0 { return ERROR_MISSING_MANDATORY_HEADER; }
      return ERROR_NONE;
    }

    /** The headers parse_message looks for. */
    method ParseHeaders() returns (err: ParseError)
      requires from == fromTag == to == toTag == via == branch == cseq == None
      modifies this`from, this`fromTag, this`to, this`toTag, this`via, this`branch, this`cseq
      ensures err == Headers(buffer)
      ensures err == ERROR_NONE ==> Cached()
    {
      hide FindHeader, HeaderParam, CheckHeader, CheckParam;
      err := ParseFrom();
      if err != ERROR_NONE { return; }
      err := ParseTo();
      if err != ERROR_NONE { return; }
      err := ParseVia();
      if err != ERROR_NONE { return; }
      err := ParseCseq();
      if err != ERROR_NONE { return; }
      err := ParseRest();
    }

    /** Every cached pointer is what a fresh scan of the text finds. */
    ghost predicate Cached()
      reads this
    {
      && from == FindHeader(buffer, 0, FROM) && fromTag == HeaderParam(buffer, FROM, TAG_SKIP)
      && to == FindHeader(buffer, 0, TO) && toTag == HeaderParam(buffer, TO, TAG_SKIP)
      && via == FindHeader(buffer, 0, VIA) && branch == HeaderParam(buffer, VIA, BRANCH_SKIP)
      && cseq == FindHeader(buffer, 0, CSEQ)
    }

    /** The pointer leads to this text. */
    predicate Shows(v: Option<Span>, text: string) {
      v.Some? && InText(buffer, v.value) && Text(buffer, v.value) == text
    }

    /** The pointer and its length make this identifier. */
    predicate Names(v: Option<Span>, id: Ident) {
      v.Some? && IdentAt(buffer, v.value) == id
    }

    /** The cached pointers show this request. */
    ghost predicate Showing(r: Request)
      reads this
    {
      && kind == r.kind && Shows(via, r.via) && Shows(from, r.from) && Shows(to, r.to) && Shows(cseq, r.cseq)
      && buffer[to.value.at..] == r.afterTo
      && (if callId.Some? then Shows(callId, r.callId) else r.callId == "")
      && Names(fromTag, r.fromTag) && Names(branch, r.branch)
      && (if r.toTag.None? then toTag.None? else Names(toTag, r.toTag.value))
    }

    /** The response buffer holds what was printed. */
    ghost predicate Filled()
      reads this
    {
      && (printed.Printed? ==> StatusCode(printed.code))
      && response == Fill(printed).0 && responseLength == Fill(printed).1
    }

    /** The pointers show the request the text parses to. */
    ghost predicate Ready()
      reads this
    {
      parsed.Some? && Showing(parsed.value) && Filled()
    }

    function CseqText(): (s: string)
      requires Ready()
      reads this
      ensures s == parsed.value.cseq
    {
      Text(buffer, cseq.value)
    }

    function FromTagIdent(): (id: Ident)
      requires Ready()
      reads this
      ensures id == parsed.value.fromTag
    {
      IdentAt(buffer, fromTag.value)
    }

    function ToTagIdent(): (id: Option<Ident>)
      requires Ready()
      reads this
      ensures id == parsed.value.toTag
    {
      if toTag.None? then None else Some(IdentAt(buffer, toTag.value))
    }

    function BranchIdent(): (id: Ident)
      requires Ready()
      reads this
      ensures id == parsed.value.branch
    {
      IdentAt(buffer, branch.value)
    }

    function CallIdText(): (s: string)
      requires Ready()
      reads this
      ensures s == parsed.value.callId
    {
      if callId.None? then "" else Text(buffer, callId.value)
    }

    lemma HeaderShown(v: Option<Span>, name: string)
      requires '\r' !in name && v == FindHeader(buffer, 0, name) && CheckHeader(buffer, name) == ERROR_NONE
      ensures Shows(v, HeaderText(buffer, name))
    {
    }

    lemma ParamShown(v: Option<Span>, name: string, skip: nat)
      requires '\r' !in name && v == HeaderParam(buffer, name, skip) && CheckParam(buffer, name, skip) == ERROR_NONE
      ensures Names(v, Given(ParamIdent(buffer, name, skip)))
    {
    }

    lemma CachedShows()
      requires Cached() && callId == FindHeader(buffer, 0, CALL_ID) && Verdict(buffer) == ERROR_NONE
      requires MethodEnd(buffer) == Some(methodLength) && kind == Classify(buffer[..methodLength])
      ensures Showing(RequestOf(buffer))
    {
      hide FindHeader, HeaderParam, FirstLine, CheckHeader, CheckParam, CText;
      CheckedHeaders(buffer);
      MethodFound(buffer);
      HeaderShown(via, VIA);
      HeaderShown(from, FROM);
      HeaderShown(to, TO);
      HeaderShown(cseq, CSEQ);
      ParamShown(fromTag, FROM, TAG_SKIP);
      ParamShown(branch, VIA, BRANCH_SKIP);
    }

    /** As it waits in a queue: only its Call-ID was looked up. */
    ghost predicate Unread()
      reads this
    {
      Fresh() && callId == FindHeader(buffer, 0, CALL_ID)
    }

    lemma UnreadParsed()
      requires Unread()
      ensures parsed == Parse(buffer)
    {
    }

    /** parse_message */
    method ParseMessage() returns (err: ParseError)
      requires Unread()
      modifies this
      ensures err == Verdict(buffer)
      ensures err == ERROR_NONE <==> parsed.Some?
      ensures err == ERROR_NONE ==> Ready() && printed == Empty
    {
      hide FindHeader, HeaderParam, Headers, FirstLine, Classify, RequestOf, MethodEnd, Showing;
      err := ParseFirstLine();
      if err != ERROR_NONE { return; }
      var m := GetMethod();
      if m == UNKNOWN { return ERROR_UNKNOWN_METHOD; }
      err := ParseHeaders();
      if err == ERROR_NONE { CachedShows(); }
    }

    /** The snprintf of every response: the echoed headers, then the To tag unless it already occurs
        behind the To value. */
    method Print(code: nat, toTag: Option<string>)
      requires Ready() && StatusCode(code)
      modifies this`response, this`responseLength, this`printed
      ensures Ready() && printed == Printed(code, parsed.value, toTag)
    {
      hide Layout, Contains;
      var suffix := "";
      if toTag.Some? && !Contains(buffer[to.value.at..], toTag.value) {
        suffix := ";tag=" + toTag.value;
      }
      var callIdText := if callId.Some? then Text(buffer, callId.value) else "";
      var full := Layout(code, Text(buffer, via.value), Text(buffer, from.value), Text(buffer, to.value) + suffix,
                         callIdText, Text(buffer, cseq.value));
      response, responseLength := Bounded(full, BUFFER_SIZE - 1), |full|;
      printed := Printed(code, parsed.value, toTag);
    }
  }
}
