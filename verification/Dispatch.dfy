/** string_to_int_hash and the choice of a worker in handle_new_message. */
module Dispatch {

  const MAX_THREADS := 7
  const MAX_PACKET := 1023
  const INT_MAX := 0x7FFF_FFFF

  /** A byte as the plain `char` the hash adds up, which is signed. */
  function SignedChar(c: char): int {
    if c < 128 as char then c as int else c as int - 256
  }

  predicate Bytes(s: string) {
    forall i | 0 <= i < |s| :: s[i] < 256 as char
  }

  predicate Ascii(s: string) {
    forall i | 0 <= i < |s| :: s[i] < 128 as char
  }

  function Hash(s: string): int {
    if s == [] then 0 else Hash(s[..|s| - 1]) + SignedChar(s[|s| - 1])
  }

  /** What C's `%` leaves, truncating toward zero. */
  function Remainder(a: int, b: int): int
    requires b > 0
  {
    if a >= 0 then a % b else -((-a) % b)
  }

  /** The worker a Call-ID is handed to. */
  function WorkerOf(callId: string): int {
    Remainder(Hash(callId), MAX_THREADS)
  }

  /** The hash of one byte is the byte, as a signed number. */
  lemma HashOne(c: char)
    ensures c < 128 as char ==> Hash([c]) == c as int
    ensures 128 as char <= c < 256 as char ==> Hash([c]) == c as int - 256
  {
    assert [c][..0] == [];
    assert Hash([c]) == Hash([c][..0]) + SignedChar(c);
  }

  /** The hash of two texts behind each other is the sum of theirs; with `HashOne` this fixes it. */
  lemma {:induction false} HashAppend(a: string, b: string)
    ensures Hash(a + b) == Hash(a) + Hash(b) && Hash([]) == 0
    decreases |b|
  {
    if b == [] {
      assert a + b == a;
    } else {
      var front := b[..|b| - 1];
      assert (a + b)[..|a + b| - 1] == a + front;
      HashAppend(a, front);
    }
  }

  /** The index is what is left of the hash by seven, with the sign of the hash. */
  lemma WorkerOfIs(callId: string)
    ensures var w := WorkerOf(callId);
            -7 < w < 7 && (Hash(callId) - w) % 7 == 0 && (w > 0 ==> Hash(callId) > 0) && (w < 0 ==> Hash(callId) < 0)
  {
    var h := Hash(callId);
    if h < 0 { assert h - WorkerOf(callId) == -((-h) / 7 * 7); }
  }

  /** "ab" is handed to worker 6. */
  lemma WorkerExample()
    ensures Hash("ab") == 195 && WorkerOf("ab") == 6
  {
    HashOne('a');
    HashOne('b');
    HashAppend("a", "b");
    assert "a" + "b" == "ab";
  }

  /** The sum stays in the range of `int` for anything a packet can hold. */
  lemma {:induction false} HashBounds(s: string)
    requires Bytes(s)
    ensures -128 * |s| <= Hash(s) <= 127 * |s|
    ensures Ascii(s) ==> 0 <= Hash(s)
  {
    if s != [] {
      HashBounds(s[..|s| - 1]);
    }
  }

  /** string_to_int_hash: every partial sum fits an `int`. */
  method StringToIntHash(str: string) returns (hash: int)
    requires |str| <= MAX_PACKET && Bytes(str)
    ensures hash == Hash(str) && -INT_MAX <= hash <= INT_MAX
  {
    hash := 0;
    if str == "" { return; }
    for i := 0 to |str|
      invariant hash == Hash(str[..i]) && -128 * i <= hash <= 127 * i
    {
      assert str[..i + 1][..i] == str[..i];
      hash := hash + SignedChar(str[i]);
    }
    assert str[..|str|] == str;
  }

  /** The index is one of the seven workers exactly when the hash is not negative or divides evenly. */
  lemma IndexInRangeIff(callId: string)
    ensures 0 <= WorkerOf(callId) < MAX_THREADS <==> Hash(callId) >= 0 || Hash(callId) % MAX_THREADS == 0
  {
    var h := Hash(callId);
    if h < 0 {
      assert (-h) % 7 == 0 <==> h % 7 == 0;
    }
  }

  lemma AsciiInRange(callId: string)
    requires Ascii(callId)
    ensures 0 <= WorkerOf(callId) < MAX_THREADS
  {
    HashBounds(callId);
    IndexInRangeIff(callId);
  }

  /** A byte above 127 can lead in front of the worker array. */
  lemma OutOfRangeExample()
    ensures var callId := [255 as char]; Bytes(callId) && WorkerOf(callId) == -1
  {
    var callId := [255 as char];
    assert callId[..0] == [];
    assert Hash(callId) == Hash(callId[..0]) + SignedChar(callId[0]);
  }
}
