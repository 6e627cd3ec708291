/** Reading a printed response back with the scanner gives the headers of the request. */
module RoundTrip {
  import opened SipTypes
  import opened Scanner
  import opened SipText
  import opened Responses

  /** What get_header_value can return: no line break inside, no separator in front. */
  ghost predicate Clean(v: string) {
    FreeOfCrlf(v) && (v != "" ==> !Separator(v[0]))
  }

  /** Every value the scanner returns is clean. */
  lemma ValuesAreClean(s: string, name: string)
    requires '\r' !in name && FindHeader(s, 0, name).Some?
    ensures Clean(Text(s, FindHeader(s, 0, name).value))
  {
    ScanFindsFirst(s, 0, name);
    var v := FindHeader(s, 0, name).value;
    var q := Scanner.HeaderLine(s, 0, name);
    assert ValueOfLine(s, q, name, v);
    forall i: nat | i < v.len ensures !CrlfAt(Text(s, v), i) {
      assert !CrlfAt(s, v.at + i);
    }
  }

  /** The two names differ within the shorter one. */
  predicate Differ(a: string, b: string) {
    exists k: nat | k < |a| && k < |b| :: Lower(a[k]) != Lower(b[k])
  }

  /** Header lines, one after the other. */
  function Lines(hs: seq<(string, string)>, tail: string): string {
    if hs == [] then tail else Responses.HeaderLine(hs[0].0, hs[0].1, Lines(hs[1..], tail))
  }

  /** A line ends at the CRLF behind it. */
  lemma LineEndsAt(s: string, p: nat, line: string, rest: string)
    requires p <= |s| && s[p..] == line + CRLF + rest && FreeOfCrlf(line)
    ensures LineEnd(s, p) == Some(p + |line|)
    ensures s[p + |line| + 2..] == rest
  {
    var e := p + |line|;
    assert forall i :: 0 <= i < |s| - p ==> s[p + i] == s[p..][i];
    assert s[e] == s[p..][|line|] && s[e + 1] == s[p..][|line| + 1];
    assert CrlfAt(s, e);
    forall i: nat | p <= i < e ensures !CrlfAt(s, i) {
      assert s[i] == line[i - p];
      assert i + 1 < e ==> s[i + 1] == line[i + 1 - p];
      assert !CrlfAt(line, i - p);
    }
    assert s[e + 2..] == s[p..][|line| + 2..];
  }

  lemma LineIsFree(name: string, value: string)
    requires '\r' !in name && FreeOfCrlf(value)
    ensures FreeOfCrlf(name + ": " + value)
  {
    var line := name + ": " + value;
    forall i: nat | i < |line| ensures !CrlfAt(line, i) {
      if i < |name| {
        assert line[i] == name[i] && name[i] in name;
      } else if i >= |name| + 2 {
        assert !CrlfAt(value, i - |name| - 2);
      }
    }
  }

  /** A line that starts otherwise is passed over. */
  lemma PassOther(s: string, p: nat, line: string, rest: string, other: string)
    requires p <= |s| && s[p..] == line + CRLF + rest && '\r' !in other
    requires FreeOfCrlf(line) && Differ(line, other)
    ensures var q := p + |line| + 2;
            q <= |s| && s[q..] == rest && FindHeader(s, p, other) == FindHeader(s, q, other)
  {
    LineEndsAt(s, p, line, rest);
    var k: nat :| k < |line| && k < |other| && Lower(line[k]) != Lower(other[k]);
    assert s[p + k] == s[p..][k] == line[k];
    assert !MatchesAt(s, p, other);
  }

  lemma LineDiffers(name: string, value: string, other: string)
    requires Differ(name, other)
    ensures Differ(name + ": " + value, other)
  {
    hide Lower;
    var k: nat :| k < |name| && k < |other| && Lower(name[k]) != Lower(other[k]);
    assert (name + ": " + value)[k] == name[k];
  }

  /** A line with another name is passed over. */
  lemma PassLine(s: string, p: nat, name: string, value: string, rest: string, other: string)
    requires p <= |s| && s[p..] == Responses.HeaderLine(name, value, rest) && '\r' !in name && '\r' !in other
    requires FreeOfCrlf(value) && Differ(name, other)
    ensures var q := p + |name| + |value| + 4;
            q <= |s| && s[q..] == rest && FindHeader(s, p, other) == FindHeader(s, q, other)
  {
    hide FindHeader, FreeOfCrlf, Differ;
    LineIsFree(name, value);
    LineDiffers(name, value, other);
    PassOther(s, p, name + ": " + value, rest, other);
  }

  /** The name is there, and its separators end where the value starts. */
  lemma NameAndSeparators(s: string, p: nat, name: string, value: string, rest: string)
    requires p <= |s| && s[p..] == (name + ": " + value) + CRLF + rest && (value != "" ==> !Separator(value[0]))
    ensures MatchesAt(s, p, name) && SkipSeparators(s, p + |name|) == p + |name| + 2
  {
    hide Lower;
    var at := p + |name| + 2;
    forall k: nat | k < |name| ensures Lower(s[p + k]) == Lower(name[k]) {
      assert s[p + k] == s[p..][k] == name[k];
    }
    assert s[at - 2] == s[p..][|name|] == ':' && s[at - 1] == s[p..][|name| + 1] == ' ';
    assert s[at] == s[p..][|name| + 2];
    assert SkipSeparators(s, at - 1) == SkipSeparators(s, at) == at;
  }

  lemma ValueInLine(s: string, p: nat, name: string, value: string, rest: string)
    requires p <= |s| && s[p..] == Responses.HeaderLine(name, value, rest)
    ensures p + |name| + 2 + |value| <= |s| && s[p + |name| + 2..p + |name| + 2 + |value|] == value
  {
    assert s[p..][|name| + 2..|name| + 2 + |value|] == value;
  }

  lemma HeaderEndsAt(s: string, p: nat, name: string, value: string, rest: string)
    requires p <= |s| && s[p..] == Responses.HeaderLine(name, value, rest) && '\r' !in name && FreeOfCrlf(value)
    ensures LineEnd(s, p) == Some(p + |name| + 2 + |value|)
  {
    var line := name + ": " + value;
    assert |line| == |name| + 2 + |value|;
    hide LineEnd, FreeOfCrlf;
    LineIsFree(name, value);
    LineEndsAt(s, p, line, rest);
  }

  lemma FoundHere(s: string, p: nat, e: nat, name: string, v: nat)
    requires p <= |s| && '\r' !in name && LineEnd(s, p) == Some(e) && MatchesAt(s, p, name)
    requires SkipSeparators(s, p + |name|) == v && v <= e
    ensures FindHeader(s, p, name) == Some(Span(v, e - v))
  {
  }

  /** The line with the name gives its value. */
  lemma ReadLine(s: string, p: nat, name: string, value: string, rest: string)
    requires p <= |s| && s[p..] == Responses.HeaderLine(name, value, rest) && '\r' !in name && Clean(value)
    ensures FindHeader(s, p, name) == Some(Span(p + |name| + 2, |value|))
    ensures InText(s, Span(p + |name| + 2, |value|)) && Text(s, Span(p + |name| + 2, |value|)) == value
  {
    hide MatchesAt, SkipSeparators, LineEnd, FreeOfCrlf, CrlfAt, FindHeader;
    ValueInLine(s, p, name, value, rest);
    HeaderEndsAt(s, p, name, value, rest);
    NameAndSeparators(s, p, name, value, rest);
    FoundHere(s, p, p + |name| + 2 + |value|, name, p + |name| + 2);
  }

  /** The first line of the list with the name is found. */
  lemma {:induction false} ReadFromLines(s: string, p: nat, hs: seq<(string, string)>, tail: string, k: nat)
    requires p <= |s| && s[p..] == Lines(hs, tail) && k < |hs|
    requires forall i :: 0 <= i <= k ==> '\r' !in hs[i].0 && Clean(hs[i].1)
    requires forall i :: 0 <= i < k ==> Differ(hs[i].0, hs[k].0)
    ensures FindHeader(s, p, hs[k].0).Some? && Text(s, FindHeader(s, p, hs[k].0).value) == hs[k].1
    decreases k
  {
    hide FindHeader, Differ, FreeOfCrlf;
    if k == 0 {
      ReadLine(s, p, hs[0].0, hs[0].1, Lines(hs[1..], tail));
    } else {
      PassLine(s, p, hs[0].0, hs[0].1, Lines(hs[1..], tail), hs[k].0);
      ReadFromLines(s, p + |hs[0].0| + |hs[0].1| + 4, hs[1..], tail, k - 1);
    }
  }

  /** And behind the value comes the rest of the text. */
  lemma {:induction false} RestOfLines(s: string, p: nat, hs: seq<(string, string)>, tail: string, k: nat)
    requires p <= |s| && s[p..] == Lines(hs, tail) && k < |hs|
    requires forall i :: 0 <= i <= k ==> '\r' !in hs[i].0 && Clean(hs[i].1)
    requires forall i :: 0 <= i < k ==> Differ(hs[i].0, hs[k].0)
    ensures FindHeader(s, p, hs[k].0).Some?
    ensures s[FindHeader(s, p, hs[k].0).value.at..] == hs[k].1 + CRLF + Lines(hs[k + 1..], tail)
    decreases k
  {
    hide FindHeader, Differ, FreeOfCrlf;
    if k == 0 {
      var rest := Lines(hs[1..], tail);
      ReadLine(s, p, hs[0].0, hs[0].1, rest);
      BehindName(s, p, hs[0].0, hs[0].1, rest);
    } else {
      PassLine(s, p, hs[0].0, hs[0].1, Lines(hs[1..], tail), hs[k].0);
      RestOfLines(s, p + |hs[0].0| + |hs[0].1| + 4, hs[1..], tail, k - 1);
      assert hs[1..][k..] == hs[k + 1..];
    }
  }

  lemma BehindName(s: string, p: nat, name: string, value: string, rest: string)
    requires p <= |s| && s[p..] == Responses.HeaderLine(name, value, rest)
    ensures p + |name| + 2 <= |s| && s[p + |name| + 2..] == value + CRLF + rest
  {
    assert s[p..][|name| + 2..] == value + CRLF + rest;
  }

  // ---------- printed responses ----------

  ghost predicate CleanRequest(r: Request) {
    Clean(r.via) && Clean(r.from) && Clean(r.to) && Clean(r.callId) && Clean(r.cseq)
  }

  /** The requests the parser yields are clean. */
  lemma ParsedIsClean(text: string)
    requires Parse(text).Some?
    ensures CleanRequest(Parse(text).value)
  {
    hide FindHeader, Clean, ParamIdent, Verdict, Behind, MethodWord, Classify, HeaderText;
    TextIsClean(text, VIA);
    TextIsClean(text, FROM);
    TextIsClean(text, TO);
    TextIsClean(text, CALL_ID);
    TextIsClean(text, CSEQ);
  }

  lemma TextIsClean(text: string, name: string)
    requires '\r' !in name
    ensures Clean(HeaderText(text, name))
  {
    if FindHeader(text, 0, name).Some? { ValuesAreClean(text, name); }
  }

  /** Adding the tag parameter keeps the To value clean. */
  lemma SuffixedIsClean(to: string, tag: string)
    requires Clean(to) && '\r' !in tag
    ensures Clean(to + ";tag=" + tag)
  {
    var s := to + ";tag=" + tag;
    forall i: nat | i < |s| ensures !CrlfAt(s, i) {
      if i < |to| {
        assert !CrlfAt(to, i);
      } else if i >= |to| + 5 {
        assert s[i] == tag[i - |to| - 5] && s[i] in tag;
      }
    }
  }

  function StatusLine(code: nat): string
    requires StatusCode(code)
  {
    "SIP/2.0 " + Code(code) + " " + Reason(code)
  }

  lemma StatusLineIsFree(code: nat)
    requires StatusCode(code)
    ensures FreeOfCrlf(StatusLine(code)) && StatusLine(code)[0] == 'S'
    ensures 0 < |StatusLine(code)| <= 33
  {
    assert '\r' !in Code(code) && '\r' !in Reason(code);
    var s := StatusLine(code);
    assert '\r' !in s;
    assert forall i: nat :: i < |s| ==> s[i] in s;
  }

  /** The five echoed headers of a response. */
  function Echoed(via: string, from: string, to: string, callId: string, cseq: string): seq<(string, string)> {
    [(VIA, via), (FROM, from), (TO, to), (CALL_ID, callId), (CSEQ, cseq)]
  }

  lemma LayoutIsLines(code: nat, via: string, from: string, to: string, callId: string, cseq: string)
    requires StatusCode(code)
    ensures Layout(code, via, from, to, callId, cseq)
            == StatusLine(code) + CRLF + Lines(Echoed(via, from, to, callId, cseq), Responses.HeaderLine(CONTENT_LENGTH, "0", CRLF))
  {
    hide Responses.HeaderLine;
    var hs := Echoed(via, from, to, callId, cseq);
    var tail := Responses.HeaderLine(CONTENT_LENGTH, "0", CRLF);
    assert hs[4..] == [(CSEQ, cseq)] && hs[4..][1..] == [];
    assert Lines(hs[4..], tail) == Responses.HeaderLine(CSEQ, cseq, tail);
    assert hs[3..][1..] == hs[4..] && hs[2..][1..] == hs[3..] && hs[1..][1..] == hs[2..];
    assert Lines(hs[3..], tail) == Responses.HeaderLine(CALL_ID, callId, Lines(hs[4..], tail));
    assert Lines(hs[2..], tail) == Responses.HeaderLine(TO, to, Lines(hs[3..], tail));
    assert Lines(hs[1..], tail) == Responses.HeaderLine(FROM, from, Lines(hs[2..], tail));
  }

  lemma NamesDiffer()
    ensures Differ(VIA, FROM) && Differ(VIA, TO) && Differ(VIA, CALL_ID) && Differ(VIA, CSEQ)
    ensures Differ(FROM, TO) && Differ(FROM, CALL_ID) && Differ(FROM, CSEQ)
    ensures Differ(TO, CALL_ID) && Differ(TO, CSEQ) && Differ(CALL_ID, CSEQ)
  {
    assert Lower(VIA[0]) == 'v' && Lower(FROM[0]) == 'f' && Lower(TO[0]) == 't';
    assert Lower(CALL_ID[0]) == 'c' && Lower(CSEQ[0]) == 'c' && Lower(CALL_ID[1]) == 'a' && Lower(CSEQ[1]) == 's';
  }

  /** A name without line breaks that does not start like a status line. */
  predicate Plain(name: string) {
    '\r' !in name && |name| > 0 && Lower(name[0]) != 's'
  }

  lemma NamesPlain()
    ensures Plain(VIA) && Plain(FROM) && Plain(TO) && Plain(CALL_ID) && Plain(CSEQ)
  {
  }

  lemma EchoedNames(via: string, from: string, to: string, callId: string, cseq: string, k: nat)
    requires k < 5
    ensures var hs := Echoed(via, from, to, callId, cseq);
            && (forall i :: 0 <= i <= k ==> Plain(hs[i].0))
            && (forall i :: 0 <= i < k ==> Differ(hs[i].0, hs[k].0))
  {
    NamesDiffer();
    var names := [VIA, FROM, TO, CALL_ID, CSEQ];
    NamesPlain();
    hide Differ, Plain;
    assert forall i :: 0 <= i < 5 ==> Plain(names[i]);
    assert forall i, j :: 0 <= i < j < 5 ==> Differ(names[i], names[j]);
    var hs := Echoed(via, from, to, callId, cseq);
    assert forall i :: 0 <= i < 5 ==> hs[i].0 == names[i];
  }

  /** The first header of its name behind a first line that is none of them. */
  lemma ReadBehind(s: string, first: string, hs: seq<(string, string)>, tail: string, k: nat)
    requires s == first + CRLF + Lines(hs, tail) && FreeOfCrlf(first) && k < |hs|
    requires forall i :: 0 <= i <= k ==> '\r' !in hs[i].0 && Clean(hs[i].1)
    requires forall i :: 0 <= i < k ==> Differ(hs[i].0, hs[k].0)
    requires Differ(first, hs[k].0)
    ensures Header(s, hs[k].0) == Some(hs[k].1)
  {
    hide Lines, FindHeader, Clean, Lower;
    assert s[0..] == s;
    PassOther(s, 0, first, Lines(hs, tail), hs[k].0);
    ReadFromLines(s, |first| + 2, hs, tail, k);
  }

  lemma RestBehind(s: string, first: string, hs: seq<(string, string)>, tail: string, k: nat)
    requires s == first + CRLF + Lines(hs, tail) && FreeOfCrlf(first) && k < |hs|
    requires forall i :: 0 <= i <= k ==> '\r' !in hs[i].0 && Clean(hs[i].1)
    requires forall i :: 0 <= i < k ==> Differ(hs[i].0, hs[k].0)
    requires Differ(first, hs[k].0)
    ensures FindHeader(s, 0, hs[k].0).Some?
    ensures s[FindHeader(s, 0, hs[k].0).value.at..] == hs[k].1 + CRLF + Lines(hs[k + 1..], tail)
  {
    hide Lines, FindHeader, Clean, Lower;
    assert s[0..] == s;
    PassOther(s, 0, first, Lines(hs, tail), hs[k].0);
    RestOfLines(s, |first| + 2, hs, tail, k);
  }

  /** Header `k` of a printed response reads back as its value. */
  lemma EchoReadsBack(code: nat, via: string, from: string, to: string, callId: string, cseq: string, k: nat)
    requires StatusCode(code) && k < 5
    requires Clean(via) && Clean(from) && Clean(to) && Clean(callId) && Clean(cseq)
    ensures var h := Echoed(via, from, to, callId, cseq)[k];
            '\r' !in h.0 && Header(Layout(code, via, from, to, callId, cseq), h.0) == Some(h.1)
  {
    var hs := Echoed(via, from, to, callId, cseq);
    LayoutIsLines(code, via, from, to, callId, cseq);
    StatusLineIsFree(code);
    EchoedNames(via, from, to, callId, cseq, k);
    assert Lower(StatusLine(code)[0]) == 's';
    hide Layout, Lines, StatusLine, Header, Clean, Lower, FreeOfCrlf, Code, Reason;
    assert Differ(StatusLine(code), hs[k].0);
    hide Differ;
    ReadBehind(Layout(code, via, from, to, callId, cseq), StatusLine(code), hs,
               Responses.HeaderLine(CONTENT_LENGTH, "0", CRLF), k);
  }

  /** `s` repeats the headers of `r`, with this To. */
  ghost predicate Echoes(s: string, r: Request, to: string) {
    && Header(s, VIA) == Some(r.via) && Header(s, FROM) == Some(r.from)
    && Header(s, CALL_ID) == Some(r.callId) && Header(s, CSEQ) == Some(r.cseq)
    && Header(s, TO) == Some(to)
  }

  /** From a printed response, Via, From, Call-ID and CSeq read back as in the request, and To reads
      back with the tag parameter if one was added. */
  lemma PrintReadsBack(code: nat, r: Request, toTag: Option<string>)
    requires StatusCode(code) && CleanRequest(r) && (toTag.Some? ==> '\r' !in toTag.value)
    ensures Echoes(Print(code, r, toTag), r, r.to + TagSuffix(r, toTag))
  {
    var to := r.to + TagSuffix(r, toTag);
    if toTag.Some? && !Contains(r.afterTo, toTag.value) {
      SuffixedIsClean(r.to, toTag.value);
      assert to == r.to + ";tag=" + toTag.value;
    } else {
      assert to == r.to;
    }
    hide Layout, Header, Clean, Contains;
    EchoReadsBack(code, r.via, r.from, to, r.callId, r.cseq, 0);
    EchoReadsBack(code, r.via, r.from, to, r.callId, r.cseq, 1);
    EchoReadsBack(code, r.via, r.from, to, r.callId, r.cseq, 2);
    EchoReadsBack(code, r.via, r.from, to, r.callId, r.cseq, 3);
    EchoReadsBack(code, r.via, r.from, to, r.callId, r.cseq, 4);
  }

  // ---------- lengths ----------

  /** The length of the line a header is found in, without what lies between name and value. */
  function LineLength(s: string, p: nat, name: string): nat
    requires p <= |s| && '\r' !in name
  {
    var v := FindHeader(s, p, name);
    if v.Some? then |name| + v.value.len + 2 else 0
  }

  /** A line serves the header it carries; the others are found behind it. */
  lemma LineServesOne(s: string, p: nat, e: nat, name: string)
    requires p <= |s| && LineEnd(s, p) == Some(e) && '\r' !in name
    ensures LineLength(s, p, name) <= if MatchesAt(s, p, name) then e + 2 - p else LineLength(s, e + 2, name)
  {
  }

  lemma OnlyOneMatches(s: string, p: nat, a: string, b: string)
    requires Differ(a, b)
    ensures !(MatchesAt(s, p, a) && MatchesAt(s, p, b))
  {
  }

  /** The lengths of the lines that serve these headers. */
  function LengthsOf(s: string, p: nat, names: seq<string>): nat
    requires p <= |s| && forall i :: 0 <= i < |names| ==> '\r' !in names[i]
  {
    if names == [] then 0 else LineLength(s, p, names[0]) + LengthsOf(s, p, names[1..])
  }

  lemma {:induction false} NoneServed(s: string, p: nat, e: nat, names: seq<string>)
    requires p <= |s| && LineEnd(s, p) == Some(e) && forall i :: 0 <= i < |names| ==> '\r' !in names[i]
    requires forall i :: 0 <= i < |names| ==> !MatchesAt(s, p, names[i])
    ensures LengthsOf(s, p, names) <= LengthsOf(s, e + 2, names)
  {
    if names != [] {
      LineServesOne(s, p, e, names[0]);
      NoneServed(s, p, e, names[1..]);
    }
  }

  /** A line serves at most one of several different headers. */
  lemma {:induction false} OneLineServesOne(s: string, p: nat, e: nat, names: seq<string>)
    requires p <= |s| && LineEnd(s, p) == Some(e) && forall i :: 0 <= i < |names| ==> '\r' !in names[i]
    requires forall i, j :: 0 <= i < j < |names| ==> Differ(names[i], names[j])
    ensures LengthsOf(s, p, names) <= e + 2 - p + LengthsOf(s, e + 2, names)
  {
    hide Differ, MatchesAt, LineLength, LineEnd;
    if names != [] {
      LineServesOne(s, p, e, names[0]);
      if MatchesAt(s, p, names[0]) {
        forall i | 0 <= i < |names[1..]| ensures !MatchesAt(s, p, names[1..][i]) {
          assert Differ(names[0], names[i + 1]);
          OnlyOneMatches(s, p, names[0], names[i + 1]);
        }
        NoneServed(s, p, e, names[1..]);
      } else {
        OneLineServesOne(s, p, e, names[1..]);
      }
    }
  }

  /** Different headers come from different lines, so together they fit in the text. */
  lemma {:induction false} HeadersFit(s: string, p: nat, names: seq<string>)
    requires p <= |s| && forall i :: 0 <= i < |names| ==> '\r' !in names[i]
    requires forall i, j :: 0 <= i < j < |names| ==> Differ(names[i], names[j])
    ensures LengthsOf(s, p, names) <= |s| - p
    decreases |s| - p
  {
    match LineEnd(s, p)
    case None => NoLines(s, p, names);
    case Some(e) =>
      OneLineServesOne(s, p, e, names);
      HeadersFit(s, e + 2, names);
  }

  lemma {:induction false} NoLines(s: string, p: nat, names: seq<string>)
    requires p <= |s| && LineEnd(s, p).None? && forall i :: 0 <= i < |names| ==> '\r' !in names[i]
    ensures LengthsOf(s, p, names) == 0
  {
    if names != [] { NoLines(s, p, names[1..]); }
  }

  // ---------- the mandatory lines ----------

  const MANDATORY := [VIA, FROM, TO, CALL_ID, CSEQ, MAX_FORWARDS, CONTENT_LENGTH]

  lemma SevenNames()
    ensures var names := MANDATORY;
            && (forall i, j :: 0 <= i < j < 7 ==> Differ(names[i], names[j]))
            && (forall i :: 0 <= i < 7 ==> '\r' !in names[i])
  {
    hide Differ, Lower;
    NamesDiffer();
    MaxForwardsDiffers();
    ContentLengthDiffers();
    NamesHaveNoReturn();
  }

  lemma MaxForwardsDiffers()
    ensures Differ(VIA, MAX_FORWARDS) && Differ(FROM, MAX_FORWARDS) && Differ(TO, MAX_FORWARDS)
    ensures Differ(CALL_ID, MAX_FORWARDS) && Differ(CSEQ, MAX_FORWARDS) && Differ(MAX_FORWARDS, CONTENT_LENGTH)
  {
    assert Lower(MAX_FORWARDS[0]) == 'm' && Lower(CONTENT_LENGTH[0]) == 'c';
    assert Lower(VIA[0]) == 'v' && Lower(FROM[0]) == 'f' && Lower(TO[0]) == 't';
    assert Lower(CALL_ID[0]) == 'c' && Lower(CSEQ[0]) == 'c';
  }

  lemma ContentLengthDiffers()
    ensures Differ(VIA, CONTENT_LENGTH) && Differ(FROM, CONTENT_LENGTH) && Differ(TO, CONTENT_LENGTH)
    ensures Differ(CALL_ID, CONTENT_LENGTH) && Differ(CSEQ, CONTENT_LENGTH)
  {
    assert Lower(CONTENT_LENGTH[0]) == 'c' && Lower(CONTENT_LENGTH[1]) == 'o';
    assert Lower(VIA[0]) == 'v' && Lower(FROM[0]) == 'f' && Lower(TO[0]) == 't';
    assert Lower(CALL_ID[0]) == 'c' && Lower(CSEQ[0]) == 'c' && Lower(CALL_ID[1]) == 'a' && Lower(CSEQ[1]) == 's';
  }

  lemma NamesHaveNoReturn()
    ensures '\r' !in VIA && '\r' !in FROM && '\r' !in TO && '\r' !in CALL_ID && '\r' !in CSEQ
    ensures '\r' !in MAX_FORWARDS && '\r' !in CONTENT_LENGTH
  {
  }

  lemma {:induction false} PastSpacesStops(s: string, p: nat, e: nat)
    requires p <= e <= |s|
    ensures PastSpaces(s, p, e) < e ==> s[PastSpaces(s, p, e)] != ' '
    decreases e - p
  {
    if p < e && s[p] == ' ' { PastSpacesStops(s, p + 1, e); }
  }

  lemma KnownWord(word: string)
    requires Classify(word) != UNKNOWN
    ensures |word| >= 3 && Lower(word[0]) != 'v' && Lower(word[0]) != 'f' && Lower(word[0]) != 't'
    ensures Lower(word[0]) == 'c' ==> Lower(word[1]) == 'a' && Lower(word[2]) == 'n'
    ensures Lower(word[0]) == 'm' ==> Lower(word[1]) == 'e'
    ensures Lower(word[0]) == 's' ==> Lower(word[1]) == 'u'
  {
    hide SameWord;
    if SameWord(word, "INVITE") { WordStarts(word, "INVITE"); }
    else if SameWord(word, "ACK") { WordStarts(word, "ACK"); }
    else if SameWord(word, "BYE") { WordStarts(word, "BYE"); }
    else if SameWord(word, "CANCEL") { WordStarts(word, "CANCEL"); }
    else if SameWord(word, "OPTIONS") { WordStarts(word, "OPTIONS"); }
    else if SameWord(word, "REGISTER") { WordStarts(word, "REGISTER"); }
    else if SameWord(word, "PRACK") { WordStarts(word, "PRACK"); }
    else if SameWord(word, "UPDATE") { WordStarts(word, "UPDATE"); }
    else if SameWord(word, "SUBSCRIBE") { WordStarts(word, "SUBSCRIBE"); }
    else if SameWord(word, "NOTIFY") { WordStarts(word, "NOTIFY"); }
    else if SameWord(word, "PUBLISH") { WordStarts(word, "PUBLISH"); }
    else if SameWord(word, "INFO") { WordStarts(word, "INFO"); }
    else if SameWord(word, "REFER") { WordStarts(word, "REFER"); }
    else if SameWord(word, "MESSAGE") { WordStarts(word, "MESSAGE"); }
  }

  lemma WordStarts(word: string, known: string)
    requires SameWord(word, known) && |known| >= 3
    ensures |word| >= 3 && Lower(word[0]) == Lower(known[0]) && Lower(word[1]) == Lower(known[1])
    ensures Lower(word[2]) == Lower(known[2])
  {
  }

  /** A request line that is accepted has at least nine characters and is none of the headers. */
  lemma RequestLineFound(s: string)
    requires FirstLine(s) == ERROR_NONE && !IsResponse(s)
    ensures LineEnd(s, 0).Some? && LineEnd(s, 0).value >= 9
    ensures forall i :: 0 <= i < 7 ==> !MatchesAt(s, 0, MANDATORY[i])
  {
    hide Classify, LineEnd, Atoi, MatchesAt, Lower;
    MethodFound(s);
    KnownWord(MethodWord(s));
    PastSpacesStops(s, MethodEnd(s).value + 1, LineEnd(s, 0).value);
    NoHeaderWord(s, MethodEnd(s).value);
  }

  lemma NoHeaderWord(s: string, n: nat)
    requires 3 <= n <= |s| && Lower(s[0]) != 'v' && Lower(s[0]) != 'f' && Lower(s[0]) != 't'
    requires Lower(s[0]) == 'c' ==> Lower(s[1]) == 'a' && Lower(s[2]) == 'n'
    requires Lower(s[0]) == 'm' ==> Lower(s[1]) == 'e'
    ensures forall i :: 0 <= i < 7 ==> !MatchesAt(s, 0, MANDATORY[i])
  {
    assert Lower(VIA[0]) == 'v' && Lower(FROM[0]) == 'f' && Lower(TO[0]) == 't' && Lower(CALL_ID[0]) == 'c';
    assert Lower(CALL_ID[2]) == 'l' && Lower(CSEQ[0]) == 'c' && Lower(CSEQ[1]) == 's' && Lower(MAX_FORWARDS[0]) == 'm';
    assert Lower(MAX_FORWARDS[1]) == 'a' && Lower(CONTENT_LENGTH[0]) == 'c' && Lower(CONTENT_LENGTH[1]) == 'o';
    hide Lower;
  }

  /** The request line and the seven headers share the text without overlap. */
  lemma MandatoryFit(s: string)
    requires FirstLine(s) == ERROR_NONE && !IsResponse(s)
    ensures forall i :: 0 <= i < 7 ==> '\r' !in MANDATORY[i]
    ensures LengthsOf(s, 0, MANDATORY) + 11 <= |s|
  {
    hide FirstLine, IsResponse, Differ, MatchesAt, LengthsOf, LineEnd;
    SevenNames();
    RequestLineFound(s);
    var e := LineEnd(s, 0).value;
    NoneServed(s, 0, e, MANDATORY);
    HeadersFit(s, e + 2, MANDATORY);
  }

  lemma LayoutLength(code: nat, via: string, from: string, to: string, callId: string, cseq: string)
    requires StatusCode(code)
    ensures |Layout(code, via, from, to, callId, cseq)|
            == |StatusLine(code)| + |via| + |from| + |to| + |callId| + |cseq| + 63
  {
  }

  lemma LengthsOfSeven(s: string)
    requires forall i :: 0 <= i < 7 ==> '\r' !in MANDATORY[i]
    ensures LengthsOf(s, 0, MANDATORY)
            == LineLength(s, 0, VIA) + LineLength(s, 0, FROM) + LineLength(s, 0, TO) + LineLength(s, 0, CALL_ID)
               + LineLength(s, 0, CSEQ) + LineLength(s, 0, MAX_FORWARDS) + LineLength(s, 0, CONTENT_LENGTH)
  {
    hide LineLength, FindHeader;
    var n := MANDATORY;
    assert n[1..][1..] == n[2..] && n[2..][1..] == n[3..] && n[3..][1..] == n[4..] && n[4..][1..] == n[5..];
    assert n[5..][1..] == n[6..] && n[6..][1..] == [];
    assert LengthsOf(s, 0, n[6..]) == LineLength(s, 0, CONTENT_LENGTH);
    assert LengthsOf(s, 0, n[5..]) == LineLength(s, 0, MAX_FORWARDS) + LengthsOf(s, 0, n[6..]);
    assert LengthsOf(s, 0, n[4..]) == LineLength(s, 0, CSEQ) + LengthsOf(s, 0, n[5..]);
    assert LengthsOf(s, 0, n[3..]) == LineLength(s, 0, CALL_ID) + LengthsOf(s, 0, n[4..]);
    assert LengthsOf(s, 0, n[2..]) == LineLength(s, 0, TO) + LengthsOf(s, 0, n[3..]);
    assert LengthsOf(s, 0, n[1..]) == LineLength(s, 0, FROM) + LengthsOf(s, 0, n[2..]);
  }

  lemma MandatoryChecked(s: string)
    requires Headers(s) == ERROR_NONE
    ensures HasHeader(s, VIA) && HasHeader(s, FROM) && HasHeader(s, TO) && HasHeader(s, CSEQ)
    ensures HasHeader(s, MAX_FORWARDS) && HasHeader(s, CONTENT_LENGTH)
  {
    hide HasHeader, HasParam;
  }

  /** The lines of the echoed headers hold their names, their values and five CRLFs; Max-Forwards and Content-Length
      take at least 15 and 17 characters. */
  lemma EchoedOf(text: string)
    requires Parse(text).Some? && CallIdOf(text).Some?
    requires forall i :: 0 <= i < 7 ==> '\r' !in MANDATORY[i]
    ensures var r := Parse(text).value;
            |r.via| + |r.from| + |r.to| + |r.callId| + |r.cseq| + 62 <= LengthsOf(text, 0, MANDATORY)
  {
    hide FindHeader, ParamIdent, FirstLine, Headers, Behind, MethodWord, Classify, LengthsOf;
    MandatoryChecked(text);
    LengthsOfSeven(text);
  }

  lemma SuffixLength(r: Request, toTag: Option<string>)
    requires toTag.Some? ==> |toTag.value| == BUILD_TAG_LENGTH
    ensures |TagSuffix(r, toTag)| <= 21
  {
    hide Contains;
  }

  /** A response is at most 44 bytes longer than the request it answers. */
  lemma ResponseLength(text: string, code: nat, toTag: Option<string>)
    requires StatusCode(code) && Parse(text).Some? && CallIdOf(text).Some?
    requires toTag.Some? ==> |toTag.value| == BUILD_TAG_LENGTH
    ensures |Print(code, Parse(text).value, toTag)| <= |text| + 44
  {
    var r := Parse(text).value;
    hide Layout, StatusLine, Parse, LengthsOf, TagSuffix, CallIdOf, FirstLine, IsResponse;
    ParsedFirstLine(text);
    MandatoryFit(text);
    EchoedOf(text);
    StatusLineIsFree(code);
    SuffixLength(r, toTag);
    LayoutLength(code, r.via, r.from, r.to + TagSuffix(r, toTag), r.callId, r.cseq);
  }

  lemma ParsedFirstLine(text: string)
    requires Parse(text).Some?
    ensures FirstLine(text) == ERROR_NONE && !IsResponse(text)
  {
    hide FirstLine, Headers, RequestOf;
  }

  /** The answer to a request of at most 979 bytes is stored and sent whole. */
  lemma NeverCut(text: string, code: nat, toTag: Option<string>)
    requires StatusCode(code) && Parse(text).Some? && CallIdOf(text).Some? && |text| <= 979
    requires toTag.Some? ==> |toTag.value| == BUILD_TAG_LENGTH
    ensures var full := Print(code, Parse(text).value, toTag);
            Fill(Printed(code, Parse(text).value, toTag)) == (full, |full|)
  {
    hide Parse, Print, CallIdOf;
    ResponseLength(text, code, toTag);
  }

  /** The length that is sent, in terms of the request: what exceeds 1024 is read from behind the buffer. */
  lemma SentBehindIff(code: nat, r: Request, toTag: Option<string>)
    requires StatusCode(code)
    ensures Fill(Printed(code, r, toTag)).1
            == |StatusLine(code)| + |r.via| + |r.from| + |r.to| + |TagSuffix(r, toTag)| + |r.callId| + |r.cseq| + 63
    ensures SentBehind(Printed(code, r, toTag)) > 0
            <==> |StatusLine(code)| + |r.via| + |r.from| + |r.to| + |TagSuffix(r, toTag)| + |r.callId| + |r.cseq| > 961
  {
    hide Layout, StatusLine, TagSuffix;
    LayoutLength(code, r.via, r.from, r.to + TagSuffix(r, toTag), r.callId, r.cseq);
  }

  /** What any response that fits its buffer says, read back from the buffer. */
  lemma ResponseReadsBack(text: string, r: Request, code: nat, toTag: Option<string>)
    requires StatusCode(code) && Parse(text) == Some(r) && (toTag.Some? ==> '\r' !in toTag.value)
    requires |Print(code, r, toTag)| < BUFFER_SIZE
    ensures Echoes(Fill(Printed(code, r, toTag)).0, r, r.to + TagSuffix(r, toTag))
  {
    hide Parse, Print, Echoes, TagSuffix, CleanRequest;
    ParsedIsClean(text);
    PrintReadsBack(code, r, toTag);
  }
}
