/** parse_message: what the parser accepts, and the request it finds, as functions of the text. */
module SipText {
  import opened SipTypes
  import opened Scanner

  const VIA := "Via"
  const FROM := "From"
  const TO := "To"
  const CALL_ID := "Call-ID"
  const CSEQ := "CSeq"
  const MAX_FORWARDS := "Max-Forwards"
  const CONTENT_LENGTH := "Content-Length"

  /** How many characters the parser skips for "tag=" and "branch=", whatever they are. */
  const TAG_SKIP := 4
  const BRANCH_SKIP := 7

  datatype ParseError =
    | ERROR_NONE
    | ERROR_UNSUPPORTED_SIP_VERSION
    | ERROR_MALFORMED_MESSAGE
    | ERROR_UNKNOWN_METHOD
    | ERROR_MISSING_MANDATORY_HEADER
    | ERROR_MISSING_MANDATORY_PARAMETER

  // ---------- the first line ----------

  predicate SameWord(a: string, b: string) {
    |a| == |b| && MatchesAt(a, 0, b)
  }

  /** get_message_method */
  function Classify(word: string): Method {
    if SameWord(word, "INVITE") then INVITE
    else if SameWord(word, "ACK") then ACK
    else if SameWord(word, "BYE") then BYE
    else if SameWord(word, "CANCEL") then CANCEL
    else if SameWord(word, "OPTIONS") then OPTIONS
    else if SameWord(word, "REGISTER") then REGISTER
    else if SameWord(word, "PRACK") then PRACK
    else if SameWord(word, "UPDATE") then UPDATE
    else if SameWord(word, "SUBSCRIBE") then SUBSCRIBE
    else if SameWord(word, "NOTIFY") then NOTIFY
    else if SameWord(word, "PUBLISH") then PUBLISH
    else if SameWord(word, "INFO") then INFO
    else if SameWord(word, "REFER") then REFER
    else if SameWord(word, "MESSAGE") then MESSAGE
    else UNKNOWN
  }

  predicate IsDigit(c: char) {
    '0' <= c <= '9'
  }

  predicate IsSpace(c: char) {
    c == ' ' || 9 as char <= c <= 13 as char
  }

  function Digits(s: string, p: nat, acc: nat): nat
    requires p <= |s|
    decreases |s| - p
  {
    if p < |s| && IsDigit(s[p]) then Digits(s, p + 1, 10 * acc + (s[p] - '0') as nat) else acc
  }

  /** `atoi(s + p)`, without an upper bound. */
  function Atoi(s: string, p: nat): int
    requires p <= |s|
    decreases |s| - p
  {
    if p < |s| && IsSpace(s[p]) then Atoi(s, p + 1)
    else if p < |s| && s[p] == '-' then (0 as int) - Digits(s, p + 1, 0)
    else if p < |s| && s[p] == '+' then Digits(s, p + 1, 0)
    else Digits(s, p, 0)
  }

  /** The "SIP/2.0" at the next slash after `p`, in the first line ending at `e`. */
  function VersionCheck(s: string, p: nat, e: nat): ParseError
    requires p <= e < |s|
  {
    var dash := CharFrom(s, p, '/');
    if dash.None? || dash.value + 2 >= e then ERROR_MALFORMED_MESSAGE
    else if Atoi(s, dash.value + 1) != 2 || Atoi(s, dash.value + 3) != 0 then ERROR_UNSUPPORTED_SIP_VERSION
    else ERROR_NONE
  }

  function PastSpaces(s: string, p: nat, e: nat): (r: nat)
    requires p <= e <= |s|
    ensures p <= r <= e
    decreases e - p
  {
    if p < e && s[p] == ' ' then PastSpaces(s, p + 1, e) else p
  }

  /** The end of the method word, if the first line has one. */
  function MethodEnd(s: string): (r: Option<nat>)
    ensures r.Some? ==> LineEnd(s, 0).Some? && r.value < LineEnd(s, 0).value
  {
    var e := LineEnd(s, 0);
    var space := CharFrom(s, 0, ' ');
    if e.Some? && space.Some? && space.value < e.value then space else None
  }

  /** parse_first_line for requests. */
  function RequestLine(s: string): ParseError {
    match MethodEnd(s)
    case None => ERROR_MALFORMED_MESSAGE
    case Some(space) =>
      var e := LineEnd(s, 0).value;
      if Classify(s[..space]) == UNKNOWN then ERROR_UNKNOWN_METHOD
      else
        var uri := PastSpaces(s, space + 1, e);
        if uri >= e then ERROR_MALFORMED_MESSAGE
        else
          var uriEnd := CharFrom(s, uri, ' ');
          if uriEnd.None? || uriEnd.value >= e then ERROR_MALFORMED_MESSAGE
          else VersionCheck(s, uriEnd.value, e)
  }

  function PastWord(s: string, p: nat, e: nat): (r: nat)
    requires p <= e <= |s|
    ensures p <= r <= e
    decreases e - p
  {
    if p < e && s[p] != ' ' then PastWord(s, p + 1, e) else p
  }

  /** The status code and the reason from `p` on, in the first line ending at `e`. */
  function StatusCheck(s: string, p: nat, e: nat): ParseError
    requires e < |s|
  {
    if p >= e then ERROR_MALFORMED_MESSAGE
    else
      var status := PastSpaces(s, p, e);
      if status >= e || PastWord(s, status, e) >= e then ERROR_MALFORMED_MESSAGE else ERROR_NONE
  }

  /** parse_first_line for responses. */
  function ResponseLine(s: string): ParseError
    requires LineEnd(s, 0).Some?
  {
    var e := LineEnd(s, 0).value;
    Then(VersionCheck(s, 0, e), StatusCheck(s, if CharFrom(s, 0, '/').Some? then CharFrom(s, 0, '/').value + 4 else e, e))
  }

  predicate IsResponse(s: string) {
    |s| >= 3 && s[..3] == "SIP"
  }

  /** parse_first_line */
  function FirstLine(s: string): ParseError {
    if LineEnd(s, 0).None? then ERROR_MALFORMED_MESSAGE
    else if IsResponse(s) then ResponseLine(s)
    else RequestLine(s)
  }

  // ---------- parameters ----------

  predicate Blank(c: char) {
    c == ' ' || c == '\t'
  }

  function PastBlanks(s: string, p: nat): (r: nat)
    requires p <= |s|
    ensures p <= r <= |s| && (r < |s| ==> !Blank(s[r]))
    ensures forall i :: p <= i < r ==> Blank(s[i])
    decreases |s| - p
  {
    if p < |s| && Blank(s[p]) then PastBlanks(s, p + 1) else p
  }

  const SIZE_MODULUS := 0x1_0000_0000_0000_0000

  /** `end - start` as a size_t. */
  function Distance(start: nat, end: nat): nat {
    if start <= end then end - start else (end - start) % SIZE_MODULUS
  }

  /** The text at a pointer, up to a length; behind the text the buffer holds zeros. */
  function CText(s: string, v: Span): (r: string)
    ensures |r| <= v.len
  {
    if v.at >= |s| then "" else if v.at + v.len <= |s| then s[v.at..v.at + v.len] else s[v.at..]
  }

  function IdentAt(s: string, v: Span): (r: Ident)
    ensures Shown(r)
  {
    Ident(CText(s, v), v.len)
  }

  /** get_from_tag, get_to_tag and get_branch_param: the first parameter behind a header value's start.
      The search runs to the end of the text, not of the header. A parameter that starts behind the last
      carriage return is taken to end where the header does, in front of its start: its length wraps. */
  function FindParam(s: string, v: Span, skip: nat): Option<Span>
    requires InText(s, v)
  {
    match CharFrom(s, v.at, ';')
    case None => None
    case Some(i) =>
      var start := PastBlanks(s, i + 1) + skip;
      var end := if start <= |s| then CharFrom(s, start, '\r') else None;
      Some(Span(start, Distance(start, if end.Some? then end.value else v.at + v.len)))
  }

  /** The first parameter of a header; a header that is missing or empty has none. */
  function HeaderParam(s: string, name: string, skip: nat): Option<Span>
    requires '\r' !in name
  {
    var v := FindHeader(s, 0, name);
    if v.None? || v.value.len == 0 then None else FindParam(s, v.value, skip)
  }

  // ---------- the whole message ----------

  predicate HasHeader(s: string, name: string)
    requires '\r' !in name
  {
    var v := FindHeader(s, 0, name);
    v.Some? && v.value.len > 0
  }

  predicate HasParam(s: string, name: string, skip: nat)
    requires '\r' !in name
  {
    var v := HeaderParam(s, name, skip);
    v.Some? && v.value.len > 0
  }

  function CheckHeader(s: string, name: string): ParseError
    requires '\r' !in name
  {
    if HasHeader(s, name) then ERROR_NONE else ERROR_MISSING_MANDATORY_HEADER
  }

  function CheckParam(s: string, name: string, skip: nat): ParseError
    requires '\r' !in name
  {
    if !HasHeader(s, name) then ERROR_MISSING_MANDATORY_HEADER
    else if HasParam(s, name, skip) then ERROR_NONE
    else ERROR_MISSING_MANDATORY_PARAMETER
  }

  /** The earlier error wins. */
  function Then(first: ParseError, second: ParseError): ParseError {
    if first != ERROR_NONE then first else second
  }

  /** The mandatory headers and parameters, in the order they are checked. */
  function Headers(s: string): ParseError {
    Then(CheckParam(s, FROM, TAG_SKIP),
    Then(CheckHeader(s, TO),
    Then(CheckParam(s, VIA, BRANCH_SKIP),
    Then(CheckHeader(s, CSEQ),
    Then(CheckHeader(s, MAX_FORWARDS), CheckHeader(s, CONTENT_LENGTH))))))
  }

  /** parse_message */
  function Verdict(s: string): ParseError {
    Then(FirstLine(s), if IsResponse(s) then ERROR_UNKNOWN_METHOD else Headers(s))
  }

  function HeaderText(s: string, name: string): string
    requires '\r' !in name
  {
    var v := FindHeader(s, 0, name);
    if v.Some? then Text(s, v.value) else ""
  }

  function ParamIdent(s: string, name: string, skip: nat): Option<Ident>
    requires '\r' !in name
  {
    var v := HeaderParam(s, name, skip);
    if v.Some? then Some(IdentAt(s, v.value)) else None
  }

  function CallIdOf(s: string): Option<string> {
    Header(s, CALL_ID)
  }

  /** The text from a header's value on. */
  function Behind(s: string, name: string): string
    requires '\r' !in name
  {
    var v := FindHeader(s, 0, name);
    if v.Some? then s[v.value.at..] else ""
  }

  function MethodWord(s: string): string {
    if MethodEnd(s).Some? then s[..MethodEnd(s).value] else ""
  }

  function Given(id: Option<Ident>): Ident {
    if id.Some? then id.value else Ident("", 0)
  }

  /** What the cached pointers of a message show, read after it was accepted. */
  function RequestOf(s: string): Request {
    Request(Classify(MethodWord(s)),
            HeaderText(s, VIA), HeaderText(s, FROM), HeaderText(s, TO), Behind(s, TO),
            HeaderText(s, CALL_ID), HeaderText(s, CSEQ),
            Given(ParamIdent(s, FROM, TAG_SKIP)), ParamIdent(s, TO, TAG_SKIP), Given(ParamIdent(s, VIA, BRANCH_SKIP)))
  }

  /** The request in a text, if the parser accepts it. */
  function Parse(s: string): Option<Request> {
    if Verdict(s) == ERROR_NONE then Some(RequestOf(s)) else None
  }

  /** What was checked on the way to a request. */
  lemma CheckedHeaders(s: string)
    requires Headers(s) == ERROR_NONE
    ensures CheckParam(s, FROM, TAG_SKIP) == CheckParam(s, VIA, BRANCH_SKIP) == ERROR_NONE
    ensures CheckHeader(s, FROM) == CheckHeader(s, TO) == CheckHeader(s, VIA) == CheckHeader(s, CSEQ) == ERROR_NONE
  {
    hide HasHeader, HasParam;
  }

  lemma MethodFound(s: string)
    requires FirstLine(s) == ERROR_NONE && !IsResponse(s)
    ensures MethodEnd(s).Some? && Classify(MethodWord(s)) != UNKNOWN
  {
    hide VersionCheck, CharFrom, PastSpaces;
  }

  /** A response is turned away: by its own first line, or for having no method. */
  lemma ResponsesRejected(s: string)
    requires IsResponse(s)
    ensures Parse(s).None?
    ensures Verdict(s) == ERROR_UNKNOWN_METHOD <==> LineEnd(s, 0).Some? && ResponseLine(s) == ERROR_NONE
  {
  }

  /** A parsed request's identifiers show no more text than their lengths say, and the two it must have
      are not empty. */
  lemma ParsedShown(s: string)
    requires Parse(s).Some?
    ensures var r := Parse(s).value;
            && Shown(r.fromTag) && Shown(r.branch) && (r.toTag.Some? ==> Shown(r.toTag.value))
            && r.fromTag.length > 0 && r.branch.length > 0
  {
    hide FindHeader, FindParam;
  }
}
