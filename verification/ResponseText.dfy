/** The text of a response, said in the words of the packet. */
module ResponseText {
  import opened SipTypes
  import Scanner
  import opened SipText
  import opened Responses
  import opened RoundTrip

  /** `text` begins with this line. */
  predicate FirstIs(text: string, line: string) {
    |line| + 2 <= |text| && text[..|line|] == line && text[|line|] == '\r' && text[|line| + 1] == '\n'
  }

  lemma Status100()
    ensures StatusLine(100) == "SIP/2.0 100 " + "Trying"
  {
    assert Code(100) == ['1', '0', '0'] && Reason(100) == "Trying";
    assert "SIP/2.0 " + ['1', '0', '0'] + " " == "SIP/2.0 100 ";
    hide Code, Reason;
  }

  lemma Status180()
    ensures StatusLine(180) == "SIP/2.0 180 " + "Ringing"
  {
    assert Code(180) == ['1', '8', '0'] && Reason(180) == "Ringing";
    assert "SIP/2.0 " + ['1', '8', '0'] + " " == "SIP/2.0 180 ";
    hide Code, Reason;
  }

  lemma Status200()
    ensures StatusLine(200) == "SIP/2.0 200 " + "OK"
  {
    assert Code(200) == ['2', '0', '0'] && Reason(200) == "OK";
    assert "SIP/2.0 " + ['2', '0', '0'] + " " == "SIP/2.0 200 ";
    hide Code, Reason;
  }

  lemma Status403()
    ensures StatusLine(403) == "SIP/2.0 403 " + "Forbidden"
  {
    assert Code(403) == ['4', '0', '3'] && Reason(403) == "Forbidden";
    assert "SIP/2.0 " + ['4', '0', '3'] + " " == "SIP/2.0 403 ";
    hide Code, Reason;
  }

  lemma Status404()
    ensures StatusLine(404) == "SIP/2.0 404 " + "Not Found"
  {
    assert Code(404) == ['4', '0', '4'] && Reason(404) == "Not Found";
    assert "SIP/2.0 " + ['4', '0', '4'] + " " == "SIP/2.0 404 ";
    hide Code, Reason;
  }

  lemma Status500()
    ensures StatusLine(500) == "SIP/2.0 500 " + "Internal Server Error"
  {
    assert Code(500) == ['5', '0', '0'] && Reason(500) == "Internal Server Error";
    assert "SIP/2.0 " + ['5', '0', '0'] + " " == "SIP/2.0 500 ";
    hide Code, Reason;
  }

  lemma Status501()
    ensures StatusLine(501) == "SIP/2.0 501 " + "Not Implemented"
  {
    assert Code(501) == ['5', '0', '1'] && Reason(501) == "Not Implemented";
    assert "SIP/2.0 " + ['5', '0', '1'] + " " == "SIP/2.0 501 ";
    hide Code, Reason;
  }

  lemma BeginsWithStatus(code: nat, r: Request, toTag: Option<string>)
    requires StatusCode(code)
    ensures FirstIs(Print(code, r, toTag), StatusLine(code))
  {
    LayoutIsLines(code, r.via, r.from, r.to + TagSuffix(r, toTag), r.callId, r.cseq);
    hide Layout, StatusLine, Lines, TagSuffix;
  }

  /** Every response begins with the version, its own status code in three digits, and the words that go with it. */
  lemma PrintedStatus(code: nat, r: Request, toTag: Option<string>)
    requires StatusCode(code)
    ensures var t := Print(code, r, toTag);
            && |t| > 12 && t[..8] == "SIP/2.0 " && t[11] == ' '
            && '0' <= t[8] <= '9' && '0' <= t[9] <= '9' && '0' <= t[10] <= '9'
            && 100 * (t[8] as int - '0' as int) + 10 * (t[9] as int - '0' as int) + (t[10] as int - '0' as int) == code
            && Atoi(t, 8) == code
    ensures var t := Print(code, r, toTag);
            && (code == 100 ==> FirstIs(t, "SIP/2.0 100 " + "Trying")) && (code == 180 ==> FirstIs(t, "SIP/2.0 180 " + "Ringing"))
            && (code == 200 ==> FirstIs(t, "SIP/2.0 200 " + "OK")) && (code == 403 ==> FirstIs(t, "SIP/2.0 403 " + "Forbidden"))
            && (code == 404 ==> FirstIs(t, "SIP/2.0 404 " + "Not Found"))
            && (code == 500 ==> FirstIs(t, "SIP/2.0 500 " + "Internal Server Error"))
            && (code == 501 ==> FirstIs(t, "SIP/2.0 501 " + "Not Implemented"))
  {
    hide Print, StatusLine;
    Status100();
    Status180();
    Status200();
    Status403();
    Status404();
    Status500();
    Status501();
    BeginsWithStatus(code, r, toTag);
    CodeRead(Print(code, r, toTag), StatusLine(code), code);
  }

  /** And so does what the buffer holds of it. */
  lemma BufferStatus(code: nat, r: Request, toTag: Option<string>)
    requires StatusCode(code)
    ensures var b := Fill(Printed(code, r, toTag)).0;
            |b| > 12 && b[..8] == "SIP/2.0 " && b[11] == ' ' && Atoi(b, 8) == code
  {
    hide Print;
    PrintedStatus(code, r, toTag);
    var t, b := Print(code, r, toTag), Fill(Printed(code, r, toTag)).0;
    assert b[..8] == t[..8] && b[8] == t[8] && b[9] == t[9] && b[10] == t[10] && b[11] == t[11];
    ThreeDigits(t, 8);
    ThreeDigits(b, 8);
  }

  lemma CodeRead(t: string, line: string, code: nat)
    requires FirstIs(t, line) && StatusCode(code) && line == StatusLine(code)
    ensures |t| > 12 && t[..8] == "SIP/2.0 " && t[11] == ' '
    ensures '0' <= t[8] <= '9' && '0' <= t[9] <= '9' && '0' <= t[10] <= '9'
    ensures 100 * (t[8] as int - '0' as int) + 10 * (t[9] as int - '0' as int) + (t[10] as int - '0' as int) == code
    ensures Atoi(t, 8) == code
  {
    StatusChars(code);
    assert t[..8] == t[..|line|][..8] == line[..8];
    assert t[8] == t[..|line|][8] && t[9] == t[..|line|][9] && t[10] == t[..|line|][10] && t[11] == t[..|line|][11];
    ThreeDigits(t, 8);
    hide StatusLine;
  }

  lemma StatusChars(code: nat)
    requires StatusCode(code)
    ensures var s := StatusLine(code);
            && |s| > 12 && s[..8] == "SIP/2.0 " && s[11] == ' ' && IsDigit(s[8]) && IsDigit(s[9]) && IsDigit(s[10])
            && 100 * (s[8] - '0') as nat + 10 * (s[9] - '0') as nat + (s[10] - '0') as nat == code
  {
    assert Code(code)[0] == Digit(code / 100) && Code(code)[1] == Digit(code / 10 % 10) && Code(code)[2] == Digit(code % 10);
    assert StatusLine(code)[8..11] == Code(code);
    assert StatusLine(code)[..8] == "SIP/2.0 ";
  }

  lemma ThreeDigits(t: string, p: nat)
    requires p + 4 <= |t| && IsDigit(t[p]) && IsDigit(t[p + 1]) && IsDigit(t[p + 2]) && !IsDigit(t[p + 3])
    ensures Atoi(t, p) == 100 * (t[p] - '0') as nat + 10 * (t[p + 1] - '0') as nat + (t[p + 2] - '0') as nat
  {
    var a, b, c := (t[p] - '0') as nat, (t[p + 1] - '0') as nat, (t[p + 2] - '0') as nat;
    assert Digits(t, p + 3, 10 * (10 * a + b) + c) == 10 * (10 * a + b) + c;
    assert Digits(t, p + 2, 10 * a + b) == Digits(t, p + 3, 10 * (10 * a + b) + c);
    assert Digits(t, p + 1, a) == Digits(t, p + 2, 10 * a + b);
    assert Digits(t, p, 0) == Digits(t, p + 1, a);
  }

  /** The word stands somewhere in the text. */
  lemma ContainsIff(text: string, word: string)
    ensures Contains(text, word) <==> exists front: string, back: string :: text == front + word + back
  {
    if Contains(text, word) {
      var i: nat :| i <= |text| && OccursAt(text, i, word);
      assert text == text[..i] + word + text[i + |word|..];
    }
    if front: string, back: string :| text == front + word + back {
      assert text[|front|..|front| + |word|] == word;
      assert OccursAt(text, |front|, word);
    }
  }

  /** What stands behind To in a response: the request's value, and the tag if there is one that does not occur from
      the To value to the end of the request. */
  function AnsweredTo(r: Request, toTag: Option<string>): string {
    if toTag.Some? && !Contains(r.afterTo, toTag.value) then r.to + ";tag=" + toTag.value else r.to
  }

  lemma AnsweredToIs(r: Request, toTag: Option<string>)
    ensures r.to + TagSuffix(r, toTag) == AnsweredTo(r, toTag)
  {
    hide Contains;
    if toTag.Some? { assert r.to + (";tag=" + toTag.value) == r.to + ";tag=" + toTag.value; }
    assert r.to + "" == r.to;
  }

  /** Behind the first line come the five echoed headers in this order, an empty body's length, and an empty line. */
  lemma PrintedHeaders(code: nat, r: Request, toTag: Option<string>)
    requires StatusCode(code)
    ensures var t := Print(code, r, toTag);
            && Scanner.LineEnd(t, 0).Some?
            && t[Scanner.LineEnd(t, 0).value..] ==
               "\r\n" + ("Via: " + r.via + "\r\n" + ("From: " + r.from + "\r\n" + ("To: " + AnsweredTo(r, toTag) + "\r\n" +
               ("Call-ID: " + r.callId + "\r\n" + ("CSeq: " + r.cseq + "\r\n" + ("Content-Length: 0\r\n" + "\r\n"))))))
  {
    hide TagSuffix, AnsweredTo, StatusLine, Code, Reason;
    AnsweredToIs(r, toTag);
    LayoutBehind(code, r.via, r.from, AnsweredTo(r, toTag), r.callId, r.cseq);
  }

  lemma LayoutBehind(code: nat, via: string, from: string, to: string, callId: string, cseq: string)
    requires StatusCode(code)
    ensures var t := Layout(code, via, from, to, callId, cseq);
            && Scanner.LineEnd(t, 0).Some?
            && t[Scanner.LineEnd(t, 0).value..] ==
               "\r\n" + ("Via: " + via + "\r\n" + ("From: " + from + "\r\n" + ("To: " + to + "\r\n" +
               ("Call-ID: " + callId + "\r\n" + ("CSeq: " + cseq + "\r\n" + ("Content-Length: 0\r\n" + "\r\n"))))))
  {
    var t := Layout(code, via, from, to, callId, cseq);
    StatusLineIsFree(code);
    var rest := HeaderLine("Via", via, HeaderLine("From", from, HeaderLine("To", to, HeaderLine("Call-ID", callId,
                HeaderLine("CSeq", cseq, HeaderLine("Content-Length", "0", CRLF))))));
    hide StatusLine, HeaderLine, Scanner.FreeOfCrlf;
    LayoutSplits(code, via, from, to, callId, cseq);
    assert t[0..] == t;
    LineEndsAt(t, 0, StatusLine(code), rest);
    assert t[|StatusLine(code)|..] == CRLF + rest;
    HeaderLineIs("Via", via, HeaderLine("From", from, HeaderLine("To", to, HeaderLine("Call-ID", callId,
                 HeaderLine("CSeq", cseq, HeaderLine("Content-Length", "0", CRLF))))));
    HeaderLineIs("From", from, HeaderLine("To", to, HeaderLine("Call-ID", callId,
                 HeaderLine("CSeq", cseq, HeaderLine("Content-Length", "0", CRLF)))));
    HeaderLineIs("To", to, HeaderLine("Call-ID", callId, HeaderLine("CSeq", cseq, HeaderLine("Content-Length", "0", CRLF))));
    HeaderLineIs("Call-ID", callId, HeaderLine("CSeq", cseq, HeaderLine("Content-Length", "0", CRLF)));
    HeaderLineIs("CSeq", cseq, HeaderLine("Content-Length", "0", CRLF));
    HeaderLineIs("Content-Length", "0", CRLF);
    assert "Content-Length" + ": " + "0" + "\r\n" == "Content-Length: 0\r\n";
    assert "Via" + ": " == "Via: " && "From" + ": " == "From: " && "To" + ": " == "To: " && "CSeq" + ": " == "CSeq: ";
    assert "Call-ID" + ": " == "Call-ID: ";
  }

  lemma HeaderLineIs(name: string, value: string, rest: string)
    ensures HeaderLine(name, value, rest) == name + ": " + value + "\r\n" + rest
  {
  }

  lemma LayoutSplits(code: nat, via: string, from: string, to: string, callId: string, cseq: string)
    requires StatusCode(code)
    ensures Layout(code, via, from, to, callId, cseq) == StatusLine(code) + CRLF +
            HeaderLine("Via", via, HeaderLine("From", from, HeaderLine("To", to, HeaderLine("Call-ID", callId,
            HeaderLine("CSeq", cseq, HeaderLine("Content-Length", "0", CRLF))))))
  {
    hide HeaderLine;
  }

  // ---------- the last header ----------

  lemma {:induction false} LinesMore(hs: seq<(string, string)>, name: string, value: string, rest: string)
    ensures Lines(hs, HeaderLine(name, value, rest)) == Lines(hs + [(name, value)], rest)
  {
    hide HeaderLine;
    var more := hs + [(name, value)];
    if hs == [] {
      assert more[1..] == [];
      assert Lines([], HeaderLine(name, value, rest)) == HeaderLine(name, value, rest);
      assert Lines(more, rest) == HeaderLine(name, value, Lines([], rest));
    } else {
      assert more[1..] == hs[1..] + [(name, value)];
      LinesMore(hs[1..], name, value, rest);
    }
  }

  lemma SixNames(hs: seq<(string, string)>)
    requires |hs| == 6 && hs[0].0 == VIA && hs[1].0 == FROM && hs[2].0 == TO && hs[3].0 == CALL_ID && hs[4].0 == CSEQ
    requires hs[5].0 == CONTENT_LENGTH
    ensures forall i :: 0 <= i <= 5 ==> '\r' !in hs[i].0
    ensures forall i :: 0 <= i < 5 ==> Differ(hs[i].0, hs[5].0)
  {
    hide Differ;
    NamesHaveNoReturn();
    ContentLengthDiffers();
  }

  /** The length of the body reads back as 0. */
  lemma PrintedLength(code: nat, r: Request, toTag: Option<string>)
    requires StatusCode(code) && CleanRequest(r) && (toTag.Some? ==> '\r' !in toTag.value)
    ensures Scanner.Header(Print(code, r, toTag), "Content-Length") == Some("0")
  {
    hide Layout, Lines, StatusLine, Scanner.Header, Clean, Scanner.FreeOfCrlf, TagSuffix, HeaderLine, Differ;
    var to := r.to + TagSuffix(r, toTag);
    var hs := Echoed(r.via, r.from, to, r.callId, r.cseq) + [(CONTENT_LENGTH, "0")];
    LayoutIsLines(code, r.via, r.from, to, r.callId, r.cseq);
    LinesMore(Echoed(r.via, r.from, to, r.callId, r.cseq), CONTENT_LENGTH, "0", CRLF);
    StatusLineIsFree(code);
    StatusDiffers(code);
    ZeroIsClean();
    AnsweredIsClean(r, toTag);
    SixNames(hs);
    ReadBehind(Print(code, r, toTag), StatusLine(code), hs, CRLF, 5);
  }

  lemma StatusDiffers(code: nat)
    requires StatusCode(code)
    ensures Differ(StatusLine(code), CONTENT_LENGTH)
  {
    StatusLineIsFree(code);
    assert Scanner.Lower(StatusLine(code)[0]) == 's' && Scanner.Lower(CONTENT_LENGTH[0]) == 'c';
  }

  lemma ZeroIsClean()
    ensures Clean("0")
  {
  }

  lemma AnsweredIsClean(r: Request, toTag: Option<string>)
    requires Clean(r.to) && (toTag.Some? ==> '\r' !in toTag.value)
    ensures Clean(r.to + TagSuffix(r, toTag))
  {
    hide Clean, TagSuffix;
    AnsweredToIs(r, toTag);
    if toTag.Some? { SuffixedIsClean(r.to, toTag.value); }
  }
}
