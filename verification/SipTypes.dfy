/** Values shared by every part of the model: parsed requests, responses and stored identifiers. */
module SipTypes {

  datatype Option<+T> = None | Some(value: T)

  /** The methods the parser knows; the server serves the first three. */
  datatype Method =
    | UNKNOWN | INVITE | ACK | BYE | CANCEL | OPTIONS | REGISTER | PRACK | UPDATE | SUBSCRIBE | NOTIFY | PUBLISH | INFO
    | REFER | MESSAGE

  /** The three fields of a socket address that are compared. */
  datatype Address = Address(family: int, port: int, ip: int)

  /** Text at a pointer beside the length that goes with it. The length is the untruncated one, or one
      that wrapped around; the text is what strncmp or "%.*s" see of it. */
  datatype Ident = Ident(text: string, length: nat)

  /** A parsed request: the header values and parameters cached in the message.
      `afterTo` is the text from the start of the To value to the end of the packet. */
  datatype Request = Request(
    kind: Method, via: string, from: string, to: string, afterTo: string,
    callId: string, cseq: string, fromTag: Ident, toTag: Option<Ident>, branch: Ident)

  /** A received message; `id` stands for its address in memory. */
  datatype Message = Message(id: nat, addr: Address, req: Request)

  /** The status codes the server prints. */
  predicate StatusCode(code: nat) {
    code == 100 || code == 180 || code == 200 || code == 403 || code == 404 || code == 500 || code == 501
  }

  /** A message's response buffer: still empty, or filled by one snprintf with these arguments.
      `Responses.Fill` gives its bytes. */
  datatype Response = Empty | Printed(code: nat, request: Request, toTag: Option<string>)

  const BUFFER_SIZE := 1024
  const MAX_ID_LENGTH := 64
  const MAX_CALL_ID_LENGTH := 256
  const BUILD_TAG_LENGTH := 16

  /** What `snprintf(buf, max + 1, "%.*s", |s|, s)` leaves in `buf`. */
  function Bounded(s: string, max: nat): string {
    if |s| <= max then s else s[..max]
  }

  /** What is kept of an identifier in a char array for `max` characters. */
  function Cut(id: Ident, max: nat): Ident {
    Ident(Bounded(id.text, max), id.length)
  }

  /** All of `s`. */
  function Whole(s: string): Ident {
    Ident(s, |s|)
  }

  /** `strncmp(a, b, n) == 0` on C strings. */
  predicate SameN(a: string, b: string, n: nat) {
    Bounded(a, n) == Bounded(b, n)
  }

  /** The test every list search makes: equal lengths, then strncmp over that length. */
  predicate Matches(stored: Ident, text: string, length: nat) {
    stored.length == length && SameN(stored.text, text, length)
  }

  /** A pointer never shows more text than its length. */
  predicate Shown(id: Ident) {
    |id.text| <= id.length
  }

  /** A stored identifier is found again under its own text exactly when it was not cut. */
  lemma FoundAgainIff(id: Ident, max: nat)
    requires Shown(id)
    ensures Matches(Cut(id, max), id.text, id.length) <==> |id.text| <= max
  {
    if |id.text| > max {
      assert |Bounded(Bounded(id.text, max), id.length)| == max;
    }
  }

  /** Two identifiers match exactly when they are equal. */
  lemma MatchIsEquality(a: Ident, b: Ident)
    requires Shown(a) && Shown(b)
    ensures Matches(a, b.text, b.length) <==> a == b
  {
  }

  /** `strstr(text, word) != NULL`. */
  predicate OccursAt(text: string, i: nat, word: string) {
    i + |word| <= |text| && text[i..i + |word|] == word
  }

  predicate Contains(text: string, word: string) {
    exists i: nat | i <= |text| :: OccursAt(text, i, word)
  }
}
