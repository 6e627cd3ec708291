/** The printed responses of sip_server.c as text. */
module Responses {
  import opened SipTypes

  const CRLF := "\r\n"

  function Digit(d: nat): char
    requires d < 10
  {
    '0' + (d as char)
  }

  /** "%d" for the three-digit status codes the server prints. */
  function Code(code: nat): string
    requires 100 <= code < 1000
  {
    [Digit(code / 100), Digit(code / 10 % 10), Digit(code % 10)]
  }

  function Reason(code: nat): string {
    if code == 100 then "Trying"
    else if code == 180 then "Ringing"
    else if code == 200 then "OK"
    else if code == 403 then "Forbidden"
    else if code == 404 then "Not Found"
    else if code == 500 then "Internal Server Error"
    else "Not Implemented"
  }

  function HeaderLine(name: string, value: string, rest: string): string {
    name + ": " + value + CRLF + rest
  }

  /** The layout every response shares. */
  function Layout(code: nat, via: string, from: string, to: string, callId: string, cseq: string): string
    requires StatusCode(code)
  {
    "SIP/2.0 " + Code(code) + " " + Reason(code) + CRLF +
    HeaderLine("Via", via,
    HeaderLine("From", from,
    HeaderLine("To", to,
    HeaderLine("Call-ID", callId,
    HeaderLine("CSeq", cseq,
    HeaderLine("Content-Length", "0", CRLF))))))
  }

  /** The tag parameter added to To, unless the tag already occurs in the request from its To value on. */
  function TagSuffix(r: Request, toTag: Option<string>): string {
    if toTag.Some? && !Contains(r.afterTo, toTag.value) then ";tag=" + toTag.value else ""
  }

  function Print(code: nat, r: Request, toTag: Option<string>): string
    requires StatusCode(code)
  {
    Layout(code, r.via, r.from, r.to + TagSuffix(r, toTag), r.callId, r.cseq)
  }

  /** The response buffer and the length snprintf reports. Text that does not fit is cut; the
      length still counts all of it. */
  function Fill(r: Response): (string, nat) {
    match r
    case Empty => ("", 0)
    case Printed(code, request, toTag) =>
      if StatusCode(code) then
        var text := Print(code, request, toTag);
        (Bounded(text, BUFFER_SIZE - 1), |text|)
      else ("", 0)
  }

  /** Only an empty buffer has nothing to send. */
  lemma NothingToSendIff(r: Response)
    requires r.Printed? ==> StatusCode(r.code)
    ensures Fill(r).1 == 0 <==> r.Empty?
  {
  }

  /** What is sent is what the buffer holds exactly when the response fits it. */
  lemma SentWholeIff(code: nat, r: Request, toTag: Option<string>)
    requires StatusCode(code)
    ensures var p := Printed(code, r, toTag);
            && (Fill(p).1 == |Fill(p).0| <==> |Print(code, r, toTag)| < BUFFER_SIZE)
            && (Fill(p).0 == Print(code, r, toTag) <==> |Print(code, r, toTag)| < BUFFER_SIZE)
  {
    hide Print;
  }

  /** How many of the bytes sent lie behind the buffer. */
  function SentBehind(r: Response): nat {
    if Fill(r).1 <= BUFFER_SIZE then 0 else Fill(r).1 - BUFFER_SIZE
  }
}
