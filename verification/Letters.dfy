/** What it means that names are compared in any case, said without the comparison of the code. */
module Letters {
  import opened SipTypes
  import opened Scanner
  import opened SipText
  import opened RoundTrip

  const UPPER := "ABCDEFGHIJKLMNOPQRSTUVWXYZ"
  const LOWER := "abcdefghijklmnopqrstuvwxyz"

  /** Equal, or the same letter in two cases. */
  ghost predicate SameLetter(a: char, b: char) {
    a == b || exists i | 0 <= i < 26 :: (a == UPPER[i] && b == LOWER[i]) || (a == LOWER[i] && b == UPPER[i])
  }

  /** The same word, in any case. */
  ghost predicate InAnyCase(word: string, name: string) {
    |word| == |name| && forall i :: 0 <= i < |name| ==> SameLetter(word[i], name[i])
  }

  lemma LetterAt(i: int)
    requires 0 <= i < 26
    ensures UPPER[i] as int == 65 + i && LOWER[i] as int == 97 + i
  {
    UpperLetters();
    LowerLetters();
  }

  lemma UpperLetters()
    ensures |UPPER| == 26 && forall i :: 0 <= i < 26 ==> UPPER[i] as int == 65 + i
  {
    assert UPPER == seq(26, i requires 0 <= i < 26 => (65 + i) as char);
  }

  lemma LowerLetters()
    ensures |LOWER| == 26 && forall i :: 0 <= i < 26 ==> LOWER[i] as int == 97 + i
  {
    assert LOWER == seq(26, i requires 0 <= i < 26 => (97 + i) as char);
  }

  lemma SameLetterIff(a: char, b: char)
    ensures Lower(a) == Lower(b) <==> SameLetter(a, b)
  {
    UpperLetters();
    LowerLetters();
    if Lower(a) == Lower(b) && a != b {
      var i := if a < b then a as int - 65 else b as int - 65;
      LetterAt(i);
    }
  }

  /** A name matches exactly when it stands there in any case. */
  lemma MatchesAtIff(s: string, p: nat, name: string)
    ensures MatchesAt(s, p, name) <==> p + |name| <= |s| && InAnyCase(s[p..p + |name|], name)
  {
    hide Lower, SameLetter;
    if p + |name| <= |s| {
      forall k | 0 <= k < |name| ensures Lower(s[p + k]) == Lower(name[k]) <==> SameLetter(s[p..p + |name|][k], name[k]) {
        SameLetterIff(s[p + k], name[k]);
      }
    }
  }

  // ---------- method words ----------

  function NameOf(m: Method): string {
    match m
    case UNKNOWN => ""
    case INVITE => "INVITE"
    case ACK => "ACK"
    case BYE => "BYE"
    case CANCEL => "CANCEL"
    case OPTIONS => "OPTIONS"
    case REGISTER => "REGISTER"
    case PRACK => "PRACK"
    case UPDATE => "UPDATE"
    case SUBSCRIBE => "SUBSCRIBE"
    case NOTIFY => "NOTIFY"
    case PUBLISH => "PUBLISH"
    case INFO => "INFO"
    case REFER => "REFER"
    case MESSAGE => "MESSAGE"
  }

  lemma WordIff(word: string, name: string)
    requires name != ""
    ensures SameWord(word, name) <==> InAnyCase(word, name)
    ensures SameWord(word, name) ==> |word| == |name| && Lower(word[0]) == Lower(name[0])
  {
    hide InAnyCase;
    MatchesAtIff(word, 0, name);
    if |word| == |name| { assert word[0..0 + |name|] == word; }
    if InAnyCase(word, name) { AnyCaseLength(word, name); }
  }

  lemma AnyCaseLength(word: string, name: string)
    requires InAnyCase(word, name)
    ensures |word| == |name|
  {
  }

  lemma ClassifyIs(word: string, m: Method)
    requires m != UNKNOWN
    ensures Classify(word) == m <==> SameWord(word, NameOf(m))
  {
    hide SameWord, InAnyCase, Lower;
    FirstLetters();
    WordIff(word, "INVITE");
    WordIff(word, "ACK");
    WordIff(word, "BYE");
    WordIff(word, "CANCEL");
    WordIff(word, "OPTIONS");
    WordIff(word, "REGISTER");
    WordIff(word, "PRACK");
    WordIff(word, "UPDATE");
    WordIff(word, "SUBSCRIBE");
    WordIff(word, "NOTIFY");
    WordIff(word, "PUBLISH");
    WordIff(word, "INFO");
    WordIff(word, "REFER");
    WordIff(word, "MESSAGE");
  }

  /** A word is one of the fourteen methods exactly when it is its name, in any case. */
  lemma ClassifyIff(word: string, m: Method)
    ensures m != UNKNOWN ==> (Classify(word) == m <==> InAnyCase(word, NameOf(m)))
    ensures Classify(word) == UNKNOWN <==> forall k: Method :: k != UNKNOWN ==> !InAnyCase(word, NameOf(k))
  {
    hide SameWord, InAnyCase, Classify;
    forall k: Method | k != UNKNOWN ensures Classify(word) == k <==> InAnyCase(word, NameOf(k)) {
      ClassifyIs(word, k);
      WordIff(word, NameOf(k));
    }
    if Classify(word) != UNKNOWN { assert InAnyCase(word, NameOf(Classify(word))); }
  }

  lemma FirstLetters()
    ensures Lower('I') == 'i' && Lower('A') == 'a' && Lower('B') == 'b' && Lower('C') == 'c' && Lower('O') == 'o'
    ensures Lower('R') == 'r' && Lower('P') == 'p' && Lower('U') == 'u' && Lower('S') == 's' && Lower('N') == 'n'
    ensures Lower('M') == 'm'
  {
  }

  // ---------- headers ----------

  predicate Colons(seps: string) {
    forall i :: 0 <= i < |seps| ==> seps[i] == ':' || seps[i] == ' ' || seps[i] == '\t'
  }

  /** A line that does not start with the name, in whatever case. */
  ghost predicate Elsewhere(line: string, name: string) {
    FreeOfCrlf(line) && !(|name| <= |line| && InAnyCase(line[..|name|], name))
  }

  /** Lines, each with its CRLF. */
  function Joined(lines: seq<string>): string {
    if lines == [] then "" else lines[0] + "\r\n" + Joined(lines[1..])
  }

  lemma ElsewherePassed(s: string, p: nat, line: string, rest: string, name: string)
    requires p <= |s| && s[p..] == line + "\r\n" + rest && Elsewhere(line, name) && '\r' !in name
    ensures var q := p + |line| + 2; q <= |s| && s[q..] == rest && FindHeader(s, p, name) == FindHeader(s, q, name)
  {
    hide FindHeader, InAnyCase;
    LineEndsAt(s, p, line, rest);
    MatchesAtIff(s, p, name);
    if |name| <= |line| { assert s[p..p + |name|] == s[p..][..|name|] == line[..|name|]; }
    if MatchesAt(s, p, name) { NameInLine(s, p, p + |line|, name); }
    NotHere(s, p, p + |line|, name);
  }

  lemma NotHere(s: string, p: nat, e: nat, name: string)
    requires p <= |s| && '\r' !in name && LineEnd(s, p) == Some(e) && !MatchesAt(s, p, name)
    ensures FindHeader(s, p, name) == FindHeader(s, e + 2, name)
  {
  }

  lemma {:induction false} AllPassed(s: string, p: nat, lines: seq<string>, rest: string, name: string)
    requires p <= |s| && s[p..] == Joined(lines) + rest && '\r' !in name
    requires forall i :: 0 <= i < |lines| ==> Elsewhere(lines[i], name)
    ensures var q := p + |Joined(lines)|; q <= |s| && s[q..] == rest && FindHeader(s, p, name) == FindHeader(s, q, name)
    decreases |lines|
  {
    hide FindHeader, Elsewhere;
    if lines == [] {
      assert Joined(lines) + rest == rest;
    } else {
      assert Joined(lines) + rest == lines[0] + "\r\n" + (Joined(lines[1..]) + rest);
      ElsewherePassed(s, p, lines[0], Joined(lines[1..]) + rest, name);
      AllPassed(s, p + |lines[0]| + 2, lines[1..], rest, name);
    }
  }

  /** The first line with the name in any case, any colons, blanks and tabs behind it, and the value. */
  ghost predicate NamedLine(line: string, name: string, seps: string, value: string) {
    && |line| == |name| + |seps| + |value| && InAnyCase(line[..|name|], name)
    && line[|name|..|name| + |seps|] == seps && line[|name| + |seps|..] == value && Colons(seps)
    && (value != "" ==> value[0] != ':' && value[0] != ' ' && value[0] != '\t')
    && FreeOfCrlf(line)
  }

  lemma {:induction false} SeparatorsEnd(s: string, p: nat, q: nat)
    requires p <= q < |s| && (forall i :: p <= i < q ==> s[i] == ':' || s[i] == ' ' || s[i] == '\t')
    requires s[q] != ':' && s[q] != ' ' && s[q] != '\t'
    ensures SkipSeparators(s, p) == q
    decreases q - p
  {
    if p < q { SeparatorsEnd(s, p + 1, q); }
  }

  /** Where the parts of such a line stand in the text. */
  lemma PartsStand(s: string, p: nat, line: string, rest: string, name: string, seps: string, value: string)
    requires p <= |s| && s[p..] == line + "\r\n" + rest && NamedLine(line, name, seps, value)
    ensures var v := p + |name| + |seps|;
            && v <= p + |line| < |s| && s[p..p + |name|] == line[..|name|] && s[p + |name|..v] == seps
            && s[v..p + |line|] == value && s[p + |line|] == '\r'
  {
    hide InAnyCase, FreeOfCrlf;
    var t := s[p..];
    assert t[..|line|] == line;
    assert s[p..p + |name|] == t[..|name|] == line[..|name|];
    assert s[p + |name|..p + |name| + |seps|] == t[|name|..|name| + |seps|] == line[|name|..|name| + |seps|];
    assert s[p + |name| + |seps|..p + |line|] == t[|name| + |seps|..|line|] == line[|name| + |seps|..];
    assert s[p + |line|] == t[|line|];
  }

  lemma ValueStarts(s: string, p: nat, e: nat, seps: string, value: string)
    requires p + |seps| + |value| == e < |s| && s[p..p + |seps|] == seps && s[p + |seps|..e] == value && s[e] == '\r'
    requires Colons(seps) && (value != "" ==> value[0] != ':' && value[0] != ' ' && value[0] != '\t')
    ensures SkipSeparators(s, p) == p + |seps|
  {
    var q := p + |seps|;
    forall i | p <= i < q ensures s[i] == ':' || s[i] == ' ' || s[i] == '\t' { assert s[i] == s[p..q][i - p]; }
    if value != "" { assert s[q] == s[q..e][0]; }
    SeparatorsEnd(s, p, q);
  }

  lemma LineGives(s: string, p: nat, line: string, rest: string, name: string, seps: string, value: string)
    requires p <= |s| && s[p..] == line + "\r\n" + rest && '\r' !in name && NamedLine(line, name, seps, value)
    ensures FindHeader(s, p, name).Some? && Text(s, FindHeader(s, p, name).value) == value
  {
    hide FindHeader, InAnyCase, MatchesAt, SkipSeparators, FreeOfCrlf, LineEnd, CrlfAt;
    LineEndsAt(s, p, line, rest);
    PartsStand(s, p, line, rest, name, seps, value);
    MatchesAtIff(s, p, name);
    ValueStarts(s, p + |name|, p + |line|, seps, value);
    FoundHere(s, p, p + |line|, name, p + |name| + |seps|);
  }

  /** A header is found by its name in any case, behind any other lines, and its value is all that stands behind
      colons, blanks and tabs. */
  lemma HeaderInAnyCase(s: string, lines: seq<string>, line: string, rest: string, name: string, seps: string, value: string)
    requires s == Joined(lines) + (line + "\r\n" + rest) && '\r' !in name
    requires (forall i :: 0 <= i < |lines| ==> Elsewhere(lines[i], name)) && NamedLine(line, name, seps, value)
    ensures Header(s, name) == Some(value)
  {
    hide FindHeader, Elsewhere, NamedLine, Joined;
    assert s[0..] == s;
    AllPassed(s, 0, lines, line + "\r\n" + rest, name);
    LineGives(s, |Joined(lines)|, line, rest, name, seps, value);
  }
}
