/** parse_first_line and the checks behind it, verdict by verdict, for first lines as they are written. */
module FirstLines {
  import opened SipTypes
  import opened Scanner
  import opened SipText
  import opened Responses
  import opened RoundTrip
  import opened Reachability
  import opened Letters

  // ---------- numbers ----------

  /** The value of decimal digits read from the left, with what came before them. */
  function NumberFrom(acc: nat, digits: string): nat
    requires forall i :: 0 <= i < |digits| ==> '0' <= digits[i] <= '9'
  {
    if digits == "" then acc
    else 10 * NumberFrom(acc, digits[..|digits| - 1]) + (digits[|digits| - 1] as int - '0' as int)
  }

  lemma {:induction false} NumberFirst(acc: nat, digits: string)
    requires digits != "" && forall i :: 0 <= i < |digits| ==> '0' <= digits[i] <= '9'
    ensures NumberFrom(acc, digits) == NumberFrom(10 * acc + (digits[0] as int - '0' as int), digits[1..])
    decreases |digits|
  {
    var front := digits[..|digits| - 1];
    if front == "" {
      assert digits[1..] == "";
    } else {
      NumberFirst(acc, front);
      assert digits[1..][..|digits| - 2] == front[1..];
    }
  }

  lemma {:induction false} DigitsRead(s: string, p: nat, acc: nat, digits: string, rest: string)
    requires p <= |s| && s[p..] == digits + rest && (forall i :: 0 <= i < |digits| ==> '0' <= digits[i] <= '9')
    requires rest != "" ==> !('0' <= rest[0] <= '9')
    ensures Digits(s, p, acc) == NumberFrom(acc, digits)
    decreases |digits|
  {
    if digits == "" {
      assert p < |s| ==> s[p] == s[p..][0] == rest[0];
    } else {
      assert s[p] == s[p..][0] == digits[0];
      assert s[p + 1..] == s[p..][1..] == digits[1..] + rest;
      NumberFirst(acc, digits);
      DigitsRead(s, p + 1, 10 * acc + (digits[0] as int - '0' as int), digits[1..], rest);
    }
  }

  /** `atoi`: white space, a sign or none, and digits up to the first other character. */
  lemma {:induction false} AtoiReads(s: string, p: nat, blanks: string, sign: string, digits: string, rest: string)
    requires p <= |s| && s[p..] == blanks + (sign + (digits + rest))
    requires forall i :: 0 <= i < |blanks| ==> blanks[i] == ' ' || 9 <= blanks[i] as int <= 13
    requires (sign == "" && digits != "") || sign == "-" || sign == "+"
    requires (forall i :: 0 <= i < |digits| ==> '0' <= digits[i] <= '9') && (rest != "" ==> !('0' <= rest[0] <= '9'))
    ensures Atoi(s, p) == if sign == "-" then (0 as int) - NumberFrom(0, digits) else NumberFrom(0, digits)
    decreases |blanks|
  {
    if blanks != "" {
      assert s[p] == s[p..][0] == blanks[0];
      assert s[p + 1..] == s[p..][1..] == blanks[1..] + (sign + (digits + rest));
      AtoiReads(s, p + 1, blanks[1..], sign, digits, rest);
    } else if sign != "" {
      assert s[p] == s[p..][0] == sign[0];
      assert s[p + 1..] == s[p..][1..] == digits + rest;
      DigitsRead(s, p + 1, 0, digits, rest);
    } else {
      assert s[p] == s[p..][0] == digits[0];
      assert s[p..] == digits + rest;
      DigitsRead(s, p, 0, digits, rest);
    }
  }

  // ---------- the version ----------

  /** A first line with a version of two digits. */
  function VersionedLine(verb: string, uri: string, a: char, b: char): string {
    verb + " " + uri + " SIP/" + [a] + "." + [b]
  }

  /** `text` begins with such a line. */
  ghost predicate Begins(text: string, verb: string, uri: string, a: char, b: char, rest: string) {
    text == VersionedLine(verb, uri, a, b) + CRLF + rest
  }

  lemma LineChars(text: string, verb: string, uri: string, a: char, b: char, rest: string)
    requires Begins(text, verb, uri, a, b, rest)
    ensures var u := |verb| + 1 + |uri|;
            && |text| > u + 9 && text[..|verb|] == verb && text[|verb|] == ' '
            && text[|verb| + 1..u] == uri && text[u] == ' ' && text[u + 4] == '/' && text[u + 5] == a
            && text[u + 6] == '.' && text[u + 7] == b && text[u + 8] == '\r'
            && text[u + 1] == 'S' && text[u + 2] == 'I' && text[u + 3] == 'P'
  {
  }

  lemma LineEnds(text: string, verb: string, uri: string, a: char, b: char, rest: string)
    requires Begins(text, verb, uri, a, b, rest) && '\r' !in verb && '\r' !in uri && IsDigit(a) && IsDigit(b)
    ensures var line := VersionedLine(verb, uri, a, b);
            FreeOfCrlf(line) && LineEnd(text, 0) == Some(|line|) && |line| == |verb| + |uri| + 9
  {
    var line := VersionedLine(verb, uri, a, b);
    assert '\r' !in line;
    assert forall i: nat :: i < |line| ==> line[i] in line;
    assert text[0..] == text;
    LineEndsAt(text, 0, line, rest);
  }

  lemma VersionVerdict(text: string, u: nat, e: nat, a: char, b: char)
    requires u + 8 == e < |text| && text[u] == ' ' && text[u + 1] == 'S' && text[u + 2] == 'I' && text[u + 3] == 'P'
    requires text[u + 4] == '/' && text[u + 5] == a && text[u + 6] == '.' && text[u + 7] == b && text[u + 8] == '\r'
    requires IsDigit(a) && IsDigit(b)
    ensures VersionCheck(text, u, e) == if a == '2' && b == '0' then ERROR_NONE else ERROR_UNSUPPORTED_SIP_VERSION
  {
    assert text[u..u + 4] == " SIP";
    FirstChar(text, u, '/', u + 4);
    assert Digits(text, u + 5, 0) == Digits(text, u + 6, (a - '0') as nat) == (a - '0') as nat;
    assert Digits(text, u + 7, 0) == Digits(text, u + 8, (b - '0') as nat) == (b - '0') as nat;
  }

  lemma NotSip(verb: string)
    requires Classify(verb) != UNKNOWN
    ensures |verb| >= 3 && verb[..3] != "SIP"
  {
    KnownWord(verb);
  }

  /** A first line with a known method, in any case, and any URI is accepted exactly in version 2.0; another version
      is the error. */
  lemma VersionedVerdict(text: string, verb: string, uri: string, a: char, b: char, rest: string)
    requires Begins(text, verb, uri, a, b, rest) && Classify(verb) != UNKNOWN && IsDigit(a) && IsDigit(b)
    requires ' ' !in verb && '\r' !in verb && uri != "" && ' ' !in uri && '\r' !in uri
    ensures FirstLine(text) == if a == '2' && b == '0' then ERROR_NONE else ERROR_UNSUPPORTED_SIP_VERSION
    ensures MethodEnd(text) == Some(|verb|) && text[..|verb|] == verb && !IsResponse(text)
  {
    hide Classify, FreeOfCrlf, LineEnd, Begins, VersionedLine, CharFrom, VersionCheck;
    LineChars(text, verb, uri, a, b, rest);
    LineEnds(text, verb, uri, a, b, rest);
    NotSip(verb);
    var m := |verb|;
    var u := m + 1 + |uri|;
    assert text[0..m] == verb;
    FirstChar(text, 0, ' ', m);
    assert text[..3] == verb[..3];
    assert text[m + 1] == uri[0];
    FirstChar(text, m + 1, ' ', u);
    VersionVerdict(text, u, u + 8, a, b);
  }

  /** So a request in another version is turned away with that error, whatever follows. */
  lemma OtherVersionRejected(text: string, verb: string, uri: string, a: char, b: char, rest: string)
    requires Begins(text, verb, uri, a, b, rest) && Classify(verb) != UNKNOWN && IsDigit(a) && IsDigit(b)
    requires ' ' !in verb && '\r' !in verb && uri != "" && ' ' !in uri && '\r' !in uri
    ensures Verdict(text) == ERROR_UNSUPPORTED_SIP_VERSION <==> a != '2' || b != '0'
    ensures a != '2' || b != '0' ==> Parse(text).None?
  {
    hide FirstLine, Begins, VersionedLine, Classify, HasHeader, HasParam, RequestOf;
    VersionedVerdict(text, verb, uri, a, b, rest);
  }

  // ---------- what a request line must have ----------

  /** `text` begins with `line`, which is not that of a response. */
  ghost predicate BeginsWith(text: string, line: string, rest: string) {
    text == line + "\r\n" + rest && FreeOfCrlf(line) && (|line| < 3 || line[0] != 'S' || line[1] != 'I' || line[2] != 'P')
  }

  lemma LineFound(text: string, line: string, rest: string)
    requires BeginsWith(text, line, rest)
    ensures LineEnd(text, 0) == Some(|line|) && |line| + 2 <= |text| && text[..|line|] == line && !IsResponse(text)
  {
    assert text[0..] == text;
    LineEndsAt(text, 0, line, rest);
    assert text[|line|] == '\r';
    assert forall i :: 0 <= i < |line| ==> text[i] == line[i];
  }

  /** Without a line there is no first line. */
  lemma NoLine(text: string)
    requires forall i :: 0 <= i < |text| - 1 ==> text[i] != '\r' || text[i + 1] != '\n'
    ensures Verdict(text) == ERROR_MALFORMED_MESSAGE
  {
  }

  /** A line without a blank. */
  lemma NoBlank(text: string, line: string, rest: string)
    requires BeginsWith(text, line, rest) && ' ' !in line
    ensures FirstLine(text) == ERROR_MALFORMED_MESSAGE
  {
    LineFound(text, line, rest);
    NotWithin(text, line, 0, ' ');
    hide LineEnd, Classify, VersionCheck;
  }

  lemma SliceOf(text: string, line: string, a: nat, b: nat)
    requires |line| <= |text| && text[..|line|] == line && a <= b <= |line|
    ensures text[a..b] == line[a..b] && forall i :: a <= i < b ==> text[i] == line[i]
  {
    forall i | a <= i < b ensures text[i] == line[i] { assert text[i] == text[..|line|][i]; }
    assert forall i :: 0 <= i < b - a ==> text[a..b][i] == text[a + i] == line[a + i] == line[a..b][i];
  }

  /** A character that is not in the line is found behind it or not at all. */
  lemma NotWithin(text: string, line: string, p: nat, c: char)
    requires |line| <= |text| && text[..|line|] == line && p <= |line| && c !in line[p..]
    ensures CharFrom(text, p, c).Some? ==> CharFrom(text, p, c).value >= |line|
  {
    forall k | p <= k < |line| ensures text[k] != c {
      assert text[k] == text[..|line|][k] == line[p..][k - p];
      assert line[p..][k - p] in line[p..];
    }
  }

  /** The word in front of the first blank. */
  lemma WordFound(text: string, word: string, tail: string, rest: string)
    requires BeginsWith(text, word + " " + tail, rest) && ' ' !in word
    ensures MethodEnd(text) == Some(|word|) && text[..|word|] == word
  {
    var line := word + " " + tail;
    LineFound(text, line, rest);
    assert text[..|word|] == line[..|word|] == word;
    assert text[|word|] == line[|word|] == ' ';
    assert text[0..|word|] == word;
    FirstChar(text, 0, ' ', |word|);
  }

  /** A word that is none of the fourteen methods in any case. */
  lemma NoMethod(text: string, word: string, tail: string, rest: string)
    requires BeginsWith(text, word + " " + tail, rest) && ' ' !in word
    requires forall m: Method :: m != UNKNOWN ==> !InAnyCase(word, NameOf(m))
    ensures FirstLine(text) == ERROR_UNKNOWN_METHOD
  {
    hide LineEnd, Classify, VersionCheck, InAnyCase, BeginsWith, MethodEnd;
    LineFound(text, word + " " + tail, rest);
    WordFound(text, word, tail, rest);
    ClassifyIff(word, UNKNOWN);
  }

  predicate Spaces(s: string) {
    forall i :: 0 <= i < |s| ==> s[i] == ' '
  }

  lemma {:induction false} SpacesPassed(s: string, p: nat, e: nat, n: nat)
    requires p + n <= e <= |s| && (forall i :: p <= i < p + n ==> s[i] == ' ') && (p + n == e || s[p + n] != ' ')
    ensures PastSpaces(s, p, e) == p + n
    decreases n
  {
    if n > 0 { SpacesPassed(s, p + 1, e, n - 1); }
  }

  /** A method, blanks and a URI, with what follows it in the line. */
  function RequestLineOf(word: string, spaces: string, uri: string, tail: string): string {
    word + " " + (spaces + uri + tail)
  }

  /** What the request line comes to once its method is known: malformed without a URI or without a blank behind it;
      otherwise the version decides. */
  lemma KnownMethod(text: string, m: Method, word: string, spaces: string, uri: string, tail: string, rest: string)
    requires BeginsWith(text, RequestLineOf(word, spaces, uri, tail), rest)
    requires ' ' !in word && m != UNKNOWN && InAnyCase(word, NameOf(m)) && Spaces(spaces) && ' ' !in uri
    requires (tail == "" || tail[0] == ' ') && (uri == "" ==> tail == "")
    ensures var line := RequestLineOf(word, spaces, uri, tail);
            && |line| < |text|
            && FirstLine(text) == if tail == "" then ERROR_MALFORMED_MESSAGE
                                  else VersionCheck(text, |line| - |tail|, |line|)
  {
    hide LineEnd, Classify, VersionCheck, InAnyCase, BeginsWith, MethodEnd;
    var line := RequestLineOf(word, spaces, uri, tail);
    LineFound(text, line, rest);
    WordFound(text, word, spaces + uri + tail, rest);
    ClassifyIff(word, m);
    UriFound(text, word, spaces, uri, tail);
  }

  lemma UriFound(text: string, word: string, spaces: string, uri: string, tail: string)
    requires var line := RequestLineOf(word, spaces, uri, tail); |line| < |text| && text[..|line|] == line
    requires Spaces(spaces) && ' ' !in uri && (tail == "" || tail[0] == ' ') && (uri == "" ==> tail == "")
    ensures var e := |RequestLineOf(word, spaces, uri, tail)|;
            var at := |word| + 1 + |spaces|;
            && PastSpaces(text, |word| + 1, e) == at && at + |uri| + |tail| == e
            && (if tail == "" then CharFrom(text, at, ' ').Some? ==> CharFrom(text, at, ' ').value >= e
                else CharFrom(text, at, ' ') == Some(at + |uri|))
  {
    hide RequestLineOf, CharFrom, PastSpaces;
    var line := RequestLineOf(word, spaces, uri, tail);
    var at := |word| + 1 + |spaces|;
    LineParts(word, spaces, uri, tail);
    SliceOf(text, line, |word| + 1, at);
    SliceOf(text, line, at, at + |uri|);
    if uri != "" { NotInside(text, at, uri, ' '); }
    SpacesRead(text, |word| + 1, |line|, spaces);
    UriEnds(text, line, at, uri, tail);
  }

  lemma UriEnds(text: string, line: string, at: nat, uri: string, tail: string)
    requires |line| < |text| && text[..|line|] == line && at + |uri| + |tail| == |line| && ' ' !in uri
    requires line[at..at + |uri|] == uri && text[at..at + |uri|] == uri
    requires tail != "" ==> line[at + |uri|] == ' '
    ensures if tail == "" then CharFrom(text, at, ' ').Some? ==> CharFrom(text, at, ' ').value >= |line|
            else CharFrom(text, at, ' ') == Some(at + |uri|)
  {
    hide CharFrom;
    if tail == "" {
      assert line[at..] == line[at..at + |uri|];
      NotWithin(text, line, at, ' ');
    } else {
      assert text[at + |uri|] == text[..|line|][at + |uri|];
      FirstChar(text, at, ' ', at + |uri|);
    }
  }

  lemma NotInside(text: string, at: nat, word: string, c: char)
    requires word != "" && at + |word| <= |text| && text[at..at + |word|] == word && c !in word
    ensures text[at] != c
  {
    assert text[at] == text[at..at + |word|][0] && word[0] in word;
  }

  lemma SpacesRead(text: string, p: nat, e: nat, spaces: string)
    requires p + |spaces| <= e <= |text| && text[p..p + |spaces|] == spaces && Spaces(spaces)
    requires p + |spaces| == e || text[p + |spaces|] != ' '
    ensures PastSpaces(text, p, e) == p + |spaces|
  {
    assert forall i :: p <= i < p + |spaces| ==> text[i] == text[p..p + |spaces|][i - p];
    SpacesPassed(text, p, e, |spaces|);
  }

  lemma LineParts(word: string, spaces: string, uri: string, tail: string)
    ensures var line, at := RequestLineOf(word, spaces, uri, tail), |word| + 1 + |spaces|;
            && |line| == at + |uri| + |tail| && line[|word| + 1..at] == spaces && line[at..at + |uri|] == uri
            && (tail != "" ==> line[at + |uri|] == tail[0])
  {
    var line, at := RequestLineOf(word, spaces, uri, tail), |word| + 1 + |spaces|;
    assert line[at..at + |uri|] == uri;
  }

  /** A version part without a slash, or with less than two characters behind its first one. */
  lemma NoVersion(text: string, u: nat, line: string)
    requires |line| < |text| && text[..|line|] == line && u <= |line|
    requires '/' !in line[u..] || exists k :: u <= k && |line| - 2 <= k < |line| && line[k] == '/' && '/' !in line[u..k]
    ensures VersionCheck(text, u, |line|) == ERROR_MALFORMED_MESSAGE
  {
    if '/' !in line[u..] {
      NotWithin(text, line, u, '/');
    } else {
      var k :| u <= k && |line| - 2 <= k < |line| && line[k] == '/' && '/' !in line[u..k];
      SliceOf(text, line, u, k);
      assert text[k] == text[..|line|][k];
      FirstChar(text, u, '/', k);
    }
  }

  // ---------- responses ----------

  /** A status line: version, blanks, a status code, and what follows it. */
  function StatusLineOf(a: char, b: char, spaces: string, status: string, tail: string): string {
    "SIP/" + [a] + "." + [b] + (spaces + status + tail)
  }

  lemma StatusParts(a: char, b: char, spaces: string, status: string, tail: string)
    ensures var line, at := StatusLineOf(a, b, spaces, status, tail), 7 + |spaces|;
            && |line| == at + |status| + |tail| && line[0] == 'S' && line[1] == 'I' && line[2] == 'P' && line[3] == '/'
            && line[4] == a && line[5] == '.' && line[6] == b && line[7..at] == spaces
            && line[at..at + |status|] == status && (tail != "" ==> line[at + |status|] == tail[0])
            && (spaces + status + tail != "" ==> line[7] == (spaces + status + tail)[0])
  {
    var line, at := StatusLineOf(a, b, spaces, status, tail), 7 + |spaces|;
    assert line[7..] == spaces + status + tail;
    assert line[at..at + |status|] == status;
  }

  lemma {:induction false} WordPassed(s: string, p: nat, e: nat, n: nat)
    requires p + n <= e <= |s| && (forall i :: p <= i < p + n ==> s[i] != ' ') && (p + n == e || s[p + n] == ' ')
    ensures PastWord(s, p, e) == p + n
    decreases n
  {
    if n > 0 { WordPassed(s, p + 1, e, n - 1); }
  }

  lemma StatusVersion(text: string, e: nat, a: char, b: char)
    requires 7 <= e < |text| && text[0] == 'S' && text[1] == 'I' && text[2] == 'P' && text[3] == '/' && text[4] == a
    requires text[5] == '.' && text[6] == b && IsDigit(a) && IsDigit(b) && !IsDigit(text[7])
    ensures CharFrom(text, 0, '/') == Some(3)
    ensures VersionCheck(text, 0, e) == if a == '2' && b == '0' then ERROR_NONE else ERROR_UNSUPPORTED_SIP_VERSION
  {
    assert text[0..3] == "SIP";
    FirstChar(text, 0, '/', 3);
    assert Digits(text, 4, 0) == Digits(text, 5, (a - '0') as nat) == (a - '0') as nat;
    assert Digits(text, 6, 0) == Digits(text, 7, (b - '0') as nat) == (b - '0') as nat;
  }

  lemma StatusFound(text: string, e: nat, spaces: string, status: string, tail: string)
    requires e == 7 + |spaces| + |status| + |tail| < |text| && Spaces(spaces) && ' ' !in status
    requires text[7..7 + |spaces|] == spaces && text[7 + |spaces|..7 + |spaces| + |status|] == status
    requires tail != "" ==> text[7 + |spaces| + |status|] == ' '
    requires status == "" ==> tail == ""
    ensures StatusCheck(text, 7, e) == if tail == "" then ERROR_MALFORMED_MESSAGE else ERROR_NONE
  {
    var at := 7 + |spaces|;
    assert forall i :: 7 <= i < at ==> text[i] == text[7..at][i - 7];
    assert forall i :: at <= i < at + |status| ==> text[i] == text[at..at + |status|][i - at];
    SpacesPassed(text, 7, e, |spaces|);
    WordPassed(text, at, e, |status|);
  }

  /** Every response is turned away: for its version, for a missing status code or reason, or else for having no method. */
  lemma StatusLineVerdict(text: string, a: char, b: char, spaces: string, status: string, tail: string, rest: string)
    requires var line := StatusLineOf(a, b, spaces, status, tail); text == line + "\r\n" + rest && FreeOfCrlf(line)
    requires IsDigit(a) && IsDigit(b) && Spaces(spaces) && ' ' !in status && (tail == "" || tail[0] == ' ')
    requires (status == "" ==> tail == "") && (spaces == "" && status != "" ==> !IsDigit(status[0]))
    ensures Verdict(text) == if a != '2' || b != '0' then ERROR_UNSUPPORTED_SIP_VERSION
                             else if tail == "" then ERROR_MALFORMED_MESSAGE else ERROR_UNKNOWN_METHOD
  {
    hide StatusLineOf, CharFrom, VersionCheck, StatusCheck, FreeOfCrlf, LineEnd, Headers, RequestLine;
    var line := StatusLineOf(a, b, spaces, status, tail);
    StatusParts(a, b, spaces, status, tail);
    assert text[0..] == text;
    LineEndsAt(text, 0, line, rest);
    var at := 7 + |spaces|;
    assert text[..|line|] == line && text[|line|] == '\r';
    SliceOf(text, line, 7, at);
    SliceOf(text, line, at, at + |status|);
    SliceOf(text, line, 0, |line|);
    assert text[..3] == "SIP";
    StatusVersion(text, |line|, a, b);
    StatusFound(text, |line|, spaces, status, tail);
  }

  // ---------- the headers ----------

  /** The text has this header, and something in it. */
  ghost predicate Filled(s: string, name: string)
    requires '\r' !in name
  {
    Header(s, name).Some? && Header(s, name).value != ""
  }

  /** And a parameter of some length behind its name. */
  ghost predicate FilledParam(s: string, name: string, skip: nat)
    requires '\r' !in name
  {
    HeaderParam(s, name, skip).Some? && HeaderParam(s, name, skip).value.len > 0
  }

  lemma FilledIs(s: string, name: string, skip: nat)
    requires '\r' !in name
    ensures HasHeader(s, name) <==> Filled(s, name)
    ensures HasParam(s, name, skip) <==> FilledParam(s, name, skip)
  {
  }

  lemma HeaderNames()
    ensures '\r' !in "From" && '\r' !in "To" && '\r' !in "Via" && '\r' !in "CSeq" && '\r' !in "Max-Forwards"
    ensures '\r' !in "Content-Length"
  {
  }

  /** What a request with a good first line must have, in the order in which it is missed: six headers that are not
      empty, a parameter four characters behind the first ';' from From on, and one seven characters behind it from
      Via on. */
  lemma MandatoryVerdict(s: string)
    requires FirstLine(s) == ERROR_NONE && !IsResponse(s)
    ensures '\r' !in "From" && '\r' !in "To" && '\r' !in "Via" && '\r' !in "CSeq" && '\r' !in "Max-Forwards"
            && '\r' !in "Content-Length"
    ensures Verdict(s) ==
            if !Filled(s, "From") then ERROR_MISSING_MANDATORY_HEADER
            else if !FilledParam(s, "From", 4) then ERROR_MISSING_MANDATORY_PARAMETER
            else if !Filled(s, "To") || !Filled(s, "Via") then ERROR_MISSING_MANDATORY_HEADER
            else if !FilledParam(s, "Via", 7) then ERROR_MISSING_MANDATORY_PARAMETER
            else if !Filled(s, "CSeq") || !Filled(s, "Max-Forwards") || !Filled(s, "Content-Length")
            then ERROR_MISSING_MANDATORY_HEADER
            else ERROR_NONE
  {
    hide FirstLine, IsResponse, HasHeader, HasParam, Filled, FilledParam;
    HeaderNames();
    FilledIs(s, "From", 4);
    FilledIs(s, "To", 4);
    FilledIs(s, "Via", 7);
    FilledIs(s, "CSeq", 4);
    FilledIs(s, "Max-Forwards", 4);
    FilledIs(s, "Content-Length", 4);
  }
}
