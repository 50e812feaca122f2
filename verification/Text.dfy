/** The string operations the skill modules use, for ASCII white space and letters. */
module Text {

  predicate IsSpace(c: char) {
    c == ' ' || '\t' <= c <= '\r'
  }

  function TrimLeft(s: string): string {
    if s != "" && IsSpace(s[0]) then TrimLeft(s[1..]) else s
  }

  function TrimRight(s: string): string {
    if s != "" && IsSpace(s[|s| - 1]) then TrimRight(s[..|s| - 1]) else s
  }

  function TrimSpace(s: string): string {
    TrimRight(TrimLeft(s))
  }

  /** No white space at either end. */
  predicate IsTrimmed(s: string) {
    s != "" ==> !IsSpace(s[0]) && !IsSpace(s[|s| - 1])
  }

  predicate AllSpace(s: string) {
    forall c | c in s :: IsSpace(c)
  }

  function LowerChar(c: char): char {
    if 'A' <= c <= 'Z' then c - 'A' + 'a' else c
  }

  function ToLower(s: string): (r: string)
    ensures |r| == |s| && forall i | 0 <= i < |s| :: r[i] == LowerChar(s[i])
  {
    seq(|s|, i requires 0 <= i < |s| => LowerChar(s[i]))
  }

  predicate HasPrefix(s: string, prefix: string) {
    prefix <= s
  }

  predicate HasSuffix(s: string, suffix: string) {
    |suffix| <= |s| && s[|s| - |suffix|..] == suffix
  }

  function TrimPrefix(s: string, prefix: string): string {
    if HasPrefix(s, prefix) then s[|prefix|..] else s
  }

  function TrimSuffix(s: string, suffix: string): string {
    if HasSuffix(s, suffix) then s[..|s| - |suffix|] else s
  }

  predicate OccursAt(s: string, part: string, i: nat) {
    i + |part| <= |s| && s[i..i + |part|] == part
  }

  predicate Contains(s: string, part: string) {
    exists i: nat | i <= |s| :: OccursAt(s, part, i)
  }

  function Join(parts: seq<string>, separator: string): string {
    if parts == [] then ""
    else if |parts| == 1 then parts[0]
    else parts[0] + separator + Join(parts[1..], separator)
  }

  // ----- Laws -----

  lemma {:induction false} TrimLeftStarts(s: string)
    ensures TrimLeft(s) != "" ==> !IsSpace(TrimLeft(s)[0])
    ensures |TrimLeft(s)| <= |s| && s[|s| - |TrimLeft(s)|..] == TrimLeft(s)
  {
    if s != "" && IsSpace(s[0]) {
      TrimLeftStarts(s[1..]);
    }
  }

  lemma {:induction false} TrimRightEnds(s: string)
    ensures TrimRight(s) <= s
    ensures TrimRight(s) != "" ==> !IsSpace(TrimRight(s)[|TrimRight(s)| - 1])
  {
    if s != "" && IsSpace(s[|s| - 1]) {
      TrimRightEnds(s[..|s| - 1]);
    }
  }

  lemma TrimSpaceTrims(s: string)
    ensures IsTrimmed(TrimSpace(s))
    ensures |TrimSpace(s)| <= |s|
  {
    TrimLeftStarts(s);
    TrimRightEnds(TrimLeft(s));
  }

  lemma TrimPrefixOf(prefix: string, rest: string)
    ensures HasPrefix(prefix + rest, prefix) && TrimPrefix(prefix + rest, prefix) == rest
  {
  }

  lemma TrimSuffixOf(rest: string, suffix: string)
    ensures HasSuffix(rest + suffix, suffix) && TrimSuffix(rest + suffix, suffix) == rest
  {
  }

  lemma {:induction false} TrimLeftSkips(lead: string, s: string)
    requires AllSpace(lead)
    ensures TrimLeft(lead + s) == TrimLeft(s)
  {
    if lead == "" {
      assert lead + s == s;
    } else {
      assert lead[0] in lead && (lead + s)[1..] == lead[1..] + s;
      TrimLeftSkips(lead[1..], s);
    }
  }

  lemma {:induction false} TrimRightSkips(s: string, tail: string)
    requires AllSpace(tail)
    ensures TrimRight(s + tail) == TrimRight(s)
  {
    if tail == "" {
      assert s + tail == s;
    } else {
      var n := |tail| - 1;
      assert tail[n] in tail && (s + tail)[..|s + tail| - 1] == s + tail[..n];
      TrimRightSkips(s, tail[..n]);
    }
  }

  lemma TrimSpaceSkips(lead: string, s: string, tail: string)
    requires AllSpace(lead) && AllSpace(tail) && s != "" && IsTrimmed(s)
    ensures TrimSpace(lead + s + tail) == s
  {
    assert lead + s + tail == lead + (s + tail);
    TrimLeftSkips(lead, s + tail);
    TrimRightSkips(s, tail);
  }

  lemma {:induction false} TrimLeftSplits(s: string) returns (lead: string)
    ensures AllSpace(lead) && s == lead + TrimLeft(s)
  {
    lead := "";
    if s != "" && IsSpace(s[0]) {
      var more := TrimLeftSplits(s[1..]);
      lead := [s[0]] + more;
    }
  }

  lemma {:induction false} TrimRightSplits(s: string) returns (tail: string)
    ensures AllSpace(tail) && s == TrimRight(s) + tail
  {
    tail := "";
    if s != "" && IsSpace(s[|s| - 1]) {
      var more := TrimRightSplits(s[..|s| - 1]);
      tail := more + [s[|s| - 1]];
    }
  }

  lemma TrimSpaceSplits(s: string) returns (lead: string, tail: string)
    ensures AllSpace(lead) && AllSpace(tail) && s == lead + TrimSpace(s) + tail
  {
    lead := TrimLeftSplits(s);
    tail := TrimRightSplits(TrimLeft(s));
  }

  lemma AllSpaceJoin(a: string, b: string)
    requires AllSpace(a) && AllSpace(b)
    ensures AllSpace(a + b)
  {
  }

  lemma TrimSpaceSkipsBehind(s: string, tail: string)
    requires AllSpace(tail) && s != "" && IsTrimmed(s)
    ensures TrimSpace(s + tail) == s
  {
    assert "" + s + tail == s + tail;
    TrimSpaceSkips("", s, tail);
  }

  lemma TrimSpaceSkipsBefore(lead: string, s: string)
    requires AllSpace(lead) && s != "" && IsTrimmed(s)
    ensures TrimSpace(lead + s) == s
  {
    assert lead + s + "" == lead + s;
    TrimSpaceSkips(lead, s, "");
  }

  lemma TrimsToItself(s: string)
    requires s != "" && IsTrimmed(s)
    ensures TrimSpace(s) == s
  {
    assert s + "" == s;
    TrimSpaceSkipsBehind(s, "");
  }

  /** What does not end in white space survives in front. */
  lemma {:induction false} TrimRightKeepsFront(front: string, rest: string)
    requires front != "" && !IsSpace(front[|front| - 1])
    ensures front <= TrimRight(front + rest)
  {
    if rest == "" {
      assert front + rest == front;
    } else if IsSpace(rest[|rest| - 1]) {
      assert (front + rest)[..|front + rest| - 1] == front + rest[..|rest| - 1];
      TrimRightKeepsFront(front, rest[..|rest| - 1]);
    }
  }

  lemma NonSpaceStays(s: string, i: nat)
    requires i < |s| && !IsSpace(s[i])
    ensures TrimSpace(s) != ""
  {
    var lead, tail := TrimSpaceSplits(s);
    var c := s[i];
    assert c in lead + TrimSpace(s) + tail;
    assert c in lead || c in TrimSpace(s) || c in tail;
  }
}
