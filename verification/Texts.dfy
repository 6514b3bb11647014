/** Stripping and searching of ASCII texts, and what is written in them. */
module Texts {

  predicate IsSpace(c: char) {
    c == ' ' || '\t' <= c <= '\r' || '\U{1C}' <= c <= '\U{1F}'
  }

  function StripLeft(s: string): string {
    if s != [] && IsSpace(s[0]) then StripLeft(s[1..]) else s
  }

  function StripRight(s: string): string {
    if s != [] && IsSpace(s[|s|-1]) then StripRight(s[..|s|-1]) else s
  }

  function Strip(s: string): string { StripRight(StripLeft(s)) }

  /** What is written in a text: its characters other than white space, in order. */
  function Ink(s: string): string {
    if s == [] then [] else (if IsSpace(s[0]) then [] else [s[0]]) + Ink(s[1..])
  }

  lemma {:induction false} InkConcat(a: string, b: string)
    ensures Ink(a + b) == Ink(a) + Ink(b)
    decreases |a|
  {
    hide IsSpace;
    if a == [] {
      assert a + b == b;
    } else {
      var first := if IsSpace(a[0]) then [] else [a[0]];
      InkConcat(a[1..], b);
      assert (a + b)[1..] == a[1..] + b && (a + b)[0] == a[0];
      assert first + (Ink(a[1..]) + Ink(b)) == (first + Ink(a[1..])) + Ink(b);
    }
  }

  lemma {:induction false} InkStripLeft(s: string)
    ensures Ink(StripLeft(s)) == Ink(s) && |StripLeft(s)| <= |s|
    decreases |s|
  {
    if s != [] && IsSpace(s[0]) {
      InkStripLeft(s[1..]);
    }
  }

  lemma {:induction false} InkStripRight(s: string)
    ensures Ink(StripRight(s)) == Ink(s) && |StripRight(s)| <= |s|
    decreases |s|
  {
    if s != [] && IsSpace(s[|s|-1]) {
      InkStripRight(s[..|s|-1]);
      InkConcat(s[..|s|-1], [s[|s|-1]]);
      assert s == s[..|s|-1] + [s[|s|-1]];
    }
  }

  /** Stripping a text keeps all that is written in it. */
  lemma InkStrip(s: string)
    ensures Ink(Strip(s)) == Ink(s) && |Strip(s)| <= |s|
  {
    InkStripLeft(s);
    InkStripRight(StripLeft(s));
  }

  lemma {:induction false} StripRightEnds(s: string)
    ensures StripRight(s) != "" ==> !IsSpace(StripRight(s)[|StripRight(s)|-1])
    decreases |s|
  {
    if s != [] && IsSpace(s[|s|-1]) {
      StripRightEnds(s[..|s|-1]);
    }
  }

  lemma {:induction false} StripLeftIsSuffix(s: string)
    ensures StripLeft(s) != "" ==> !IsSpace(StripLeft(s)[0])
    decreases |s|
  {
    if s != [] && IsSpace(s[0]) {
      StripLeftIsSuffix(s[1..]);
    }
  }

  lemma {:induction false} StripRightIsPrefix(s: string)
    ensures StripRight(s) <= s
    decreases |s|
  {
    if s != [] && IsSpace(s[|s|-1]) {
      StripRightIsPrefix(s[..|s|-1]);
    }
  }

  /** A stripped text begins and ends with a written character. */
  lemma StripEnds(value: string)
    ensures var s := Strip(value); s != "" ==> !IsSpace(s[0]) && !IsSpace(s[|s|-1])
  {
    StripLeftIsSuffix(value);
    StripRightIsPrefix(StripLeft(value));
    StripRightEnds(StripLeft(value));
  }

  lemma StripBlank(s: string)
    ensures Strip(s) == "" <==> Ink(s) == ""
  {
    InkStrip(s);
    StripRightEnds(StripLeft(s));
    if Strip(s) != "" {
      var t := Strip(s);
      InkConcat(t[..|t|-1], [t[|t|-1]]);
      assert t == t[..|t|-1] + [t[|t|-1]];
    }
  }

  lemma BlankIsNotWritten()
    ensures Strip("") == ""
  {
  }

  // ---------------------------------------------------------------- finding

  predicate At(s: string, p: string, i: nat) {
    i + |p| <= |s| && s[i..i + |p|] == p
  }

  ghost predicate Contains(s: string, p: string) {
    exists i: nat :: At(s, p, i)
  }

  /** s.find(p, i), -1 if there is none. */
  function Find(s: string, p: string, i: nat): (r: int)
    ensures r == -1 || (i <= r && At(s, p, r))
    decreases |s| - i
  {
    if i + |p| > |s| then -1 else if At(s, p, i) then i else Find(s, p, i + 1)
  }

  lemma {:induction false} FindFacts(s: string, p: string, i: nat)
    ensures forall j: nat :: i <= j && At(s, p, j) ==> 0 <= Find(s, p, i) <= j
    decreases |s| - i
  {
    if i + |p| <= |s| && !At(s, p, i) {
      FindFacts(s, p, i + 1);
    }
  }

  /** The first place where p occurs is where find says. */
  lemma FindIs(s: string, p: string, i: nat, r: nat)
    requires i <= r && At(s, p, r) && forall j: nat :: i <= j < r ==> !At(s, p, j)
    ensures Find(s, p, i) == r
  {
    FindFacts(s, p, i);
  }

  lemma ContainsIff(s: string, p: string)
    ensures Contains(s, p) <==> Find(s, p, 0) >= 0
  {
    FindFacts(s, p, 0);
  }
}
