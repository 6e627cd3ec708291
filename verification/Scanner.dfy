/** get_header_value: lines, header names and values in a C string.
    A buffer is the text before its terminating NUL, so a pointer into it is an index. */
module Scanner {
  import opened SipTypes

  /** A pointer into the buffer and a length. */
  datatype Span = Span(at: nat, len: nat)

  predicate InText(s: string, v: Span) {
    v.at + v.len <= |s|
  }

  function Text(s: string, v: Span): string
    requires InText(s, v)
  {
    s[v.at..v.at + v.len]
  }

  predicate CrlfAt(s: string, i: nat) {
    i + 2 <= |s| && s[i] == '\r' && s[i + 1] == '\n'
  }

  predicate FreeOfCrlf(s: string) {
    forall i: nat | i < |s| :: !CrlfAt(s, i)
  }

  /** `strstr(s + p, "\r\n")`. */
  function LineEnd(s: string, p: nat): (r: Option<nat>)
    requires p <= |s|
    ensures r.Some? ==> p <= r.value && CrlfAt(s, r.value) && forall i: nat :: p <= i < r.value ==> !CrlfAt(s, i)
    ensures r.None? ==> forall i: nat :: p <= i ==> !CrlfAt(s, i)
    decreases |s| - p
  {
    if |s| < p + 2 then None
    else if s[p] == '\r' && s[p + 1] == '\n' then Some(p)
    else LineEnd(s, p + 1)
  }

  /** `strchr(s + p, c)`. */
  function CharFrom(s: string, p: nat, c: char): (r: Option<nat>)
    requires p <= |s|
    ensures r.Some? ==> p <= r.value < |s| && s[r.value] == c && c !in s[p..r.value]
    ensures r.None? ==> c !in s[p..]
    decreases |s| - p
  {
    if p == |s| then None
    else if s[p] == c then Some(p)
    else
      var r := CharFrom(s, p + 1, c);
      assert s[p..] == [s[p]] + s[p + 1..];
      assert r.Some? ==> s[p..r.value] == [s[p]] + s[p + 1..r.value];
      r
  }

  function Lower(c: char): char {
    if 'A' <= c <= 'Z' then c + ('a' - 'A') else c
  }

  /** `strncasecmp(s + p, word, strlen(word)) == 0`. */
  predicate MatchesAt(s: string, p: nat, word: string) {
    p + |word| <= |s| && forall k: nat | k < |word| :: Lower(s[p + k]) == Lower(word[k])
  }

  predicate Separator(c: char) {
    c == ':' || c == ' ' || c == '\t'
  }

  /** Past the separators from `p` on. */
  function SkipSeparators(s: string, p: nat): (r: nat)
    requires p <= |s|
    ensures p <= r <= |s| && (r < |s| ==> !Separator(s[r])) && forall i :: p <= i < r ==> Separator(s[i])
    decreases |s| - p
  {
    if p < |s| && Separator(s[p]) then SkipSeparators(s, p + 1) else p
  }

  /** The value after `name` in the line from `p` to `e`. */
  function ValueSpan(s: string, p: nat, e: nat, name: string): (v: Span)
    requires CrlfAt(s, e) && p <= e && MatchesAt(s, p, name) && '\r' !in name
    requires forall i: nat :: p <= i < e ==> !CrlfAt(s, i)
    ensures p + |name| <= v.at && v.at + v.len == e && InText(s, v)
  {
    NameInLine(s, p, e, name);
    var v := SkipSeparators(s, p + |name|);
    assert e < v ==> Separator(s[e]);
    Span(v, e - v)
  }

  /** A header name that matches at the start of a line ends within the line. */
  lemma NameInLine(s: string, p: nat, e: nat, name: string)
    requires CrlfAt(s, e) && p <= e && MatchesAt(s, p, name) && '\r' !in name
    ensures p + |name| <= e
  {
    var k := 0;
    while k < |name|
      invariant k <= |name| && p + k <= e
    {
      assert name[k] in name && Lower(s[p + k]) == Lower(name[k]);
      k := k + 1;
    }
  }

  /** get_header_value, from the line at `p` on. */
  function FindHeader(s: string, p: nat, name: string): (r: Option<Span>)
    requires p <= |s| && '\r' !in name
    ensures r.Some? ==> InText(s, r.value) && p <= r.value.at
    decreases |s| - p
  {
    match LineEnd(s, p)
    case None => None
    case Some(e) =>
      if MatchesAt(s, p, name) then Some(ValueSpan(s, p, e, name)) else FindHeader(s, e + 2, name)
  }

  /** The loop over separators; the text is not left, since the line ends in CRLF. */
  method PastSeparators(buffer: string, p: nat, lineEnd: nat) returns (v: nat)
    requires p <= lineEnd && CrlfAt(buffer, lineEnd)
    ensures v == SkipSeparators(buffer, p) && v <= lineEnd
  {
    v := p;
    while Separator(buffer[v])
      invariant p <= v <= lineEnd && SkipSeparators(buffer, p) == SkipSeparators(buffer, v)
      decreases lineEnd - v
    {
      v := v + 1;
    }
  }

  /** get_header_value */
  method GetHeaderValue(buffer: string, name: string) returns (v: Option<Span>)
    requires '\r' !in name
    ensures v == FindHeader(buffer, 0, name)
  {
    var lineStart := 0;
    var lineEnd := LineEnd(buffer, lineStart);
    while lineEnd.Some?
      invariant lineStart <= |buffer| && lineEnd == LineEnd(buffer, lineStart)
      invariant FindHeader(buffer, 0, name) == FindHeader(buffer, lineStart, name)
      decreases |buffer| - lineStart
    {
      if MatchesAt(buffer, lineStart, name) {
        NameInLine(buffer, lineStart, lineEnd.value, name);
        var valueStart := PastSeparators(buffer, lineStart + |name|, lineEnd.value);
        return Some(Span(valueStart, lineEnd.value - valueStart));
      }
      lineStart := lineEnd.value + 2;
      lineEnd := LineEnd(buffer, lineStart);
    }
    return None;
  }

  /** The value of a header, if the text has one. */
  function Header(s: string, name: string): Option<string>
    requires '\r' !in name
  {
    var v := FindHeader(s, 0, name);
    if v.None? then None else Some(Text(s, v.value))
  }

  // ---------- what the scan finds ----------

  /** A line starts at the beginning of the text and after every CRLF. */
  ghost predicate LineStart(s: string, p: nat) {
    p <= |s| && (p == 0 || (p >= 2 && CrlfAt(s, p - 2)))
  }

  /** A CRLF-terminated line starting at `p` carries the header. */
  ghost predicate HeaderLineAt(s: string, p: nat, name: string) {
    LineStart(s, p) && LineEnd(s, p).Some? && MatchesAt(s, p, name)
  }

  /** `v` is the rest of the line at `p` after the name and its separators. */
  ghost predicate ValueOfLine(s: string, p: nat, name: string, v: Span)
  {
    && InText(s, v) && p + |name| <= v.at && CrlfAt(s, v.at + v.len)
    && (forall i: nat :: p <= i < v.at + v.len ==> !CrlfAt(s, i))
    && (forall i :: p + |name| <= i < v.at ==> Separator(s[i]))
    && (v.len > 0 ==> !Separator(s[v.at]))
  }

  /** No line starts strictly inside a line or its CRLF. */
  lemma NoLineInside(s: string, p: nat, e: nat, q: nat)
    requires LineStart(s, p) && LineEnd(s, p) == Some(e) && LineStart(s, q) && p < q
    ensures e + 2 <= q
  {
  }

  /** No line from `p` up to `q` carries the header. */
  ghost predicate NoneBefore(s: string, p: nat, q: nat, name: string) {
    forall u :: p <= u < q ==> !HeaderLineAt(s, u, name)
  }

  lemma NoneInLine(s: string, p: nat, e: nat, name: string)
    requires LineStart(s, p) && LineEnd(s, p) == Some(e) && !MatchesAt(s, p, name)
    ensures NoneBefore(s, p, e + 2, name)
  {
    forall u | p <= u < e + 2 ensures !HeaderLineAt(s, u, name) {
      if p < u && LineStart(s, u) { NoLineInside(s, p, e, u); }
    }
  }

  lemma NoneJoined(s: string, p: nat, m: nat, q: nat, name: string)
    requires NoneBefore(s, p, m, name) && NoneBefore(s, m, q, name)
    ensures NoneBefore(s, p, q, name)
  {
  }

  /** Where the scan stops: at the first line that carries the header, or at the end of the text. */
  ghost function HeaderLine(s: string, p: nat, name: string): nat
    requires p <= |s|
    decreases |s| - p
  {
    match LineEnd(s, p)
    case None => |s|
    case Some(e) => if MatchesAt(s, p, name) then p else HeaderLine(s, e + 2, name)
  }

  /** Where `q` says the scan from `p` stops, `v` is the value there, if any. */
  ghost predicate Found(s: string, p: nat, q: nat, name: string, v: Option<Span>) {
    && p <= q && NoneBefore(s, p, q, name)
    && (v.None? ==> forall u :: q <= u ==> !HeaderLineAt(s, u, name))
    && (v.Some? ==> HeaderLineAt(s, q, name) && ValueOfLine(s, q, name, v.value))
  }

  lemma FoundLater(s: string, p: nat, m: nat, q: nat, name: string, v: Option<Span>)
    requires p <= m && NoneBefore(s, p, m, name) && Found(s, m, q, name, v)
    ensures Found(s, p, q, name, v)
  {
    NoneJoined(s, p, m, q, name);
    hide NoneBefore, HeaderLineAt, ValueOfLine;
  }

  /** From a line start on, the scan finds the value of the first line that carries the header,
      and fails exactly when there is none. */
  lemma {:induction false} ScanFindsFirst(s: string, p: nat, name: string)
    requires LineStart(s, p) && '\r' !in name
    ensures Found(s, p, HeaderLine(s, p, name), name, FindHeader(s, p, name))
    decreases |s| - p
  {
    match LineEnd(s, p)
    case None =>
    case Some(e) =>
      if !MatchesAt(s, p, name) {
        hide Found, NoneBefore;
        ScanFindsFirst(s, e + 2, name);
        NoneInLine(s, p, e, name);
        FoundLater(s, p, e + 2, HeaderLine(s, e + 2, name), name, FindHeader(s, e + 2, name));
      }
  }
}
