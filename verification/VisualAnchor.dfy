/**
 Visual anchors: the printer that puts a token into the text of a chunk (text_normalization.py) and the
 parser that gets it back (integrator.py), on ASCII text.
 */
module VisualAnchor {
  import opened Basics
  import opened Texts

  // ---------------------------------------------------------------- sanitising

  /** re.sub(r"\s+", " ", s) */
  function Collapse(s: string): string {
    if s == [] then []
    else if !IsSpace(s[0]) then [s[0]] + Collapse(s[1..])
    else if |s| > 1 && IsSpace(s[1]) then Collapse(s[1..])
    else " " + Collapse(s[1..])
  }

  /** s.replace("cc", "r"): leftmost pairs, without overlap. */
  function ReplacePair(s: string, c: char, r: char): string {
    if |s| < 2 then s
    else if s[0] == c && s[1] == c then [r] + ReplacePair(s[2..], c, r)
    else [s[0]] + ReplacePair(s[1..], c, r)
  }

  function ReplaceChar(s: string, c: char, r: char): string {
    seq(|s|, i requires 0 <= i < |s| => if s[i] == c then r else s[i])
  }

  const DEFAULT_DESC := "Visual node"
  const DESC_LIMIT := 180

  function SanitizeDesc(value: string): string {
    var cleaned := ReplacePair(ReplacePair(ReplaceChar(Strip(Collapse(value)), '|', '/'), '>', ']'), '<', '[');
    var desc := if cleaned == "" then DEFAULT_DESC else cleaned;
    desc[..Min(DESC_LIMIT, |desc|)]
  }

  predicate IsLabelChar(c: char) {
    'a' <= c <= 'z' || 'A' <= c <= 'Z' || '0' <= c <= '9' || c == '_' || c == '-'
  }

  function Lower(c: char): char { if 'A' <= c <= 'Z' then c - 'A' + 'a' else c }

  /** Lower case, without the characters a label must not have. */
  function LabelChars(s: string): string {
    if s == [] then [] else (if IsLabelChar(Lower(s[0])) then [Lower(s[0])] else []) + LabelChars(s[1..])
  }

  function SanitizeLabel(value: string, fallback: string): string {
    var cleaned := LabelChars(Strip(value));
    if cleaned == "" then fallback else cleaned
  }

  predicate NoPair(s: string, c: char) {
    forall i :: 0 <= i < |s| - 1 ==> !(s[i] == c && s[i + 1] == c)
  }

  predicate Lacks(s: string, c: char) {
    forall i :: 0 <= i < |s| ==> s[i] != c
  }

  lemma {:induction false} ReplacedHasNoPair(s: string, c: char, r: char)
    requires r != c
    ensures NoPair(ReplacePair(s, c, r), c)
    ensures var t := ReplacePair(s, c, r); t != [] && t[0] == c ==> s != [] && s[0] == c && (|s| == 1 || s[1] != c)
    decreases |s|
  {
    if |s| >= 2 {
      if s[0] == c && s[1] == c {
        ReplacedHasNoPair(s[2..], c, r);
      } else {
        ReplacedHasNoPair(s[1..], c, r);
      }
    }
  }

  /** Replacing pairs of c by r keeps a text free of pairs of another character. */
  lemma {:induction false} ReplaceKeepsNoPair(s: string, c: char, r: char, d: char)
    requires NoPair(s, d) && c != d && r != d
    ensures NoPair(ReplacePair(s, c, r), d)
    ensures var t := ReplacePair(s, c, r); t != [] && t[0] == d ==> s != [] && s[0] == d
    decreases |s|
  {
    if |s| >= 2 {
      if s[0] == c && s[1] == c {
        ReplaceKeepsNoPair(s[2..], c, r, d);
      } else {
        ReplaceKeepsNoPair(s[1..], c, r, d);
      }
    }
  }

  lemma {:induction false} ReplaceKeepsLacks(s: string, c: char, r: char, d: char)
    requires Lacks(s, d) && r != d
    ensures Lacks(ReplacePair(s, c, r), d)
    decreases |s|
  {
    if |s| >= 2 {
      if s[0] == c && s[1] == c {
        ReplaceKeepsLacks(s[2..], c, r, d);
      } else {
        ReplaceKeepsLacks(s[1..], c, r, d);
      }
    }
  }

  lemma {:induction false} CollapseLacks(s: string, d: char)
    requires IsSpace(d) && d != ' '
    ensures Lacks(Collapse(s), d)
    decreases |s|
  {
    if s != [] {
      CollapseLacks(s[1..], d);
    }
  }

  lemma {:induction false} StripKeepsLacks(s: string, d: char)
    requires Lacks(s, d)
    ensures Lacks(StripLeft(s), d) && Lacks(StripRight(s), d)
    decreases |s|
  {
    if s != [] {
      if IsSpace(s[0]) {
        StripKeepsLacks(s[1..], d);
      }
      if IsSpace(s[|s|-1]) {
        StripKeepsLacks(s[..|s|-1], d);
      }
    }
  }

  /** Theorem: a sanitised description never closes or opens a token, separates fields or breaks a line. */
  lemma DescIsSafe(value: string)
    ensures var d := SanitizeDesc(value);
            NoPair(d, '>') && NoPair(d, '<') && Lacks(d, '|') && Lacks(d, '\n') && 1 <= |d| <= DESC_LIMIT
  {
    var stripped := Strip(Collapse(value));
    CollapseLacks(value, '\n');
    StripKeepsLacks(Collapse(value), '\n');
    StripKeepsLacks(StripLeft(Collapse(value)), '\n');
    var plain := ReplaceChar(stripped, '|', '/');
    var closed := ReplacePair(plain, '>', ']');
    ReplacedHasNoPair(plain, '>', ']');
    ReplacedHasNoPair(closed, '<', '[');
    ReplaceKeepsNoPair(closed, '<', '[', '>');
    ReplaceKeepsLacks(plain, '>', ']', '|');
    ReplaceKeepsLacks(closed, '<', '[', '|');
    ReplaceKeepsLacks(plain, '>', ']', '\n');
    ReplaceKeepsLacks(closed, '<', '[', '\n');
  }

  lemma {:induction false} LabelCharsAreSafe(s: string)
    ensures forall i :: 0 <= i < |LabelChars(s)| ==> IsLabelChar(LabelChars(s)[i])
    decreases |s|
  {
    if s != [] {
      LabelCharsAreSafe(s[1..]);
    }
  }

  /** Collapsing keeps what is written, with single blanks for all white space between. */
  lemma {:induction false} CollapseKeepsInk(s: string)
    ensures Ink(Collapse(s)) == Ink(s) && NoPair(Collapse(s), ' ')
    ensures forall i :: 0 <= i < |Collapse(s)| && IsSpace(Collapse(s)[i]) ==> Collapse(s)[i] == ' '
    ensures Collapse(s) != [] && IsSpace(Collapse(s)[0]) ==> s != [] && IsSpace(s[0])
    decreases |s|
  {
    if s != [] {
      CollapseKeepsInk(s[1..]);
    }
  }

  /** s with every r replaced by two c. */
  function Doubled(s: string, c: char, r: char): string {
    if s == [] then [] else (if s[0] == r then [c, c] else [s[0]]) + Doubled(s[1..], c, r)
  }

  /** Replacing pairs loses nothing: in a text without r, putting the pairs back gives the text. */
  lemma {:induction false} ReplaceIsUndone(s: string, c: char, r: char)
    requires Lacks(s, r)
    ensures Doubled(ReplacePair(s, c, r), c, r) == s
    decreases |s|
  {
    if |s| == 1 {
      assert Doubled(s[1..], c, r) == [];
    } else if |s| >= 2 {
      if s[0] == c && s[1] == c {
        ReplaceIsUndone(s[2..], c, r);
        assert ([r] + ReplacePair(s[2..], c, r))[1..] == ReplacePair(s[2..], c, r);
      } else {
        ReplaceIsUndone(s[1..], c, r);
        assert ([s[0]] + ReplacePair(s[1..], c, r))[1..] == ReplacePair(s[1..], c, r);
      }
    }
  }

  lemma {:induction false} NothingToCollapse(s: string)
    requires NoPair(s, ' ') && forall i :: 0 <= i < |s| && IsSpace(s[i]) ==> s[i] == ' '
    ensures Collapse(s) == s
    decreases |s|
  {
    if s != [] {
      NothingToCollapse(s[1..]);
    }
  }

  lemma {:induction false} NothingToReplace(s: string, c: char, r: char)
    requires NoPair(s, c)
    ensures ReplacePair(s, c, r) == s
    decreases |s|
  {
    if |s| >= 2 {
      NothingToReplace(s[1..], c, r);
    }
  }

  /** A blank description becomes "Visual node". */
  lemma BlankDescIsNamed(value: string)
    requires Ink(value) == ""
    ensures SanitizeDesc(value) == "Visual node"
  {
    CollapseKeepsInk(value);
    StripBlank(Collapse(value));
    hide Strip, Collapse, Ink;
    assert ReplaceChar("", '|', '/') == "";
  }

  lemma NothingToStrip(value: string)
    requires value != "" && !IsSpace(value[0]) && !IsSpace(value[|value|-1])
    ensures Strip(value) == value
  {
  }

  /**
   Theorem: a description that is safe, and has single blanks only and none at its ends, is kept, up to 180
   characters.
   */
  lemma SafeDescIsKept(value: string)
    requires value != "" && !IsSpace(value[0]) && !IsSpace(value[|value|-1])
    requires NoPair(value, ' ') && forall i :: 0 <= i < |value| && IsSpace(value[i]) ==> value[i] == ' '
    requires NoPair(value, '>') && NoPair(value, '<') && Lacks(value, '|')
    ensures SanitizeDesc(value) == if |value| <= 180 then value else value[..180]
  {
    NothingToCollapse(value);
    NothingToStrip(value);
    NothingToReplace(value, '>', ']');
    NothingToReplace(value, '<', '[');
    assert ReplaceChar(value, '|', '/') == value;
    hide Strip, Collapse, ReplacePair, ReplaceChar, NoPair, Lacks;
  }

  /** Theorem: a label has the letters, digits, underscores and hyphens of the value in order, letters in lower case. */
  lemma {:induction false} LabelCharsAre(a: string, b: string)
    ensures LabelChars(a + b) == LabelChars(a) + LabelChars(b)
    ensures |a| == 1 ==>
              var c := a[0];
              LabelChars(a) == if 'A' <= c <= 'Z' then [(c as int + 32) as char]
                               else if 'a' <= c <= 'z' || '0' <= c <= '9' || c in {'_', '-'} then [c]
                               else []
    decreases |a|
  {
    if |a| == 1 {
      assert LabelChars(a[1..]) == [];
    }
    if a == [] {
      assert a + b == b;
    } else {
      LabelCharsAre(a[1..], b);
      assert (a + b)[0] == a[0] && (a + b)[1..] == a[1..] + b;
    }
  }

  /** A value without such characters has the fallback for a label. */
  lemma LabelOrFallback(value: string, fallback: string)
    ensures SanitizeLabel(value, fallback) == if LabelChars(Strip(value)) != "" then LabelChars(Strip(value)) else fallback
  {
  }

  // ---------------------------------------------------------------- printer and parser

  /** The context of a visual: its type and summary, and where its token belongs, if that is known. */
  datatype Context = Context(kind: string, summary: string, placeholder: Option<string>, anchorAfter: Option<string>)

  const OPEN := "<<VISUAL_ANCHOR: "
  const CLOSE := ">>"

  function Marker(id: string): string { OPEN + id }

  /** The token without its end. */
  function Fields(ctx: Context, id: string): string {
    Marker(id) + " | TYPE: " + SanitizeLabel(ctx.kind, "table") + " | DESC: " + SanitizeDesc(ctx.summary)
  }

  function Token(ctx: Context, id: string): string { Fields(ctx, id) + CLOSE }

  /** The token reads: the identifier, the type and the description, each behind its mark. */
  lemma TokenReads(ctx: Context, id: string)
    ensures Token(ctx, id) == "<<VISUAL_ANCHOR: " + id + " | TYPE: " + SanitizeLabel(ctx.kind, "table")
                              + " | DESC: " + SanitizeDesc(ctx.summary) + ">>"
  {
  }

  function Inject(text: string, ctx: Context, id: string): string {
    if Find(text, id, 0) >= 0 then text else Place(text, ctx, Token(ctx, id))
  }

  function Place(text: string, ctx: Context, token: string): string {
    var hole := if ctx.placeholder.Some? && ctx.placeholder.value != "" then Find(text, ctx.placeholder.value, 0) else -1;
    var after := if ctx.anchorAfter.Some? && ctx.anchorAfter.value != "" then Find(text, ctx.anchorAfter.value, 0) else -1;
    if hole >= 0 then PutInPlace(text, hole, |ctx.placeholder.value|, token)
    else if after >= 0 then PutInPlace(text, after + |ctx.anchorAfter.value|, 0, "\n" + token)
    else if text != "" && text[|text|-1] == '\n' then text + token
    else if text != "" then text + "\n\n" + token
    else token
  }

  /** The text with `length` characters at i replaced by s. */
  function PutInPlace(text: string, i: nat, length: nat, s: string): string
    requires i + length <= |text|
  {
    text[..i] + s + text[i + length..]
  }

  function Extract(text: string, id: string): string {
    var start := Find(text, Marker(id), 0);
    if start < 0 then Marker(id)
    else
      var end := Find(text, CLOSE, start);
      if end < 0 then text[start..] else text[start..end + 2]
  }

  /** The text of an identifier: hexadecimal digits and hyphens. */
  predicate IsUuidText(id: string) {
    id != "" && forall i :: 0 <= i < |id| ==> '0' <= id[i] <= '9' || 'a' <= id[i] <= 'f' || id[i] == '-'
  }

  // ---------------------------------------------------------------- where the token is

  lemma LacksConcat(a: string, b: string, c: char)
    requires Lacks(a, c) && Lacks(b, c)
    ensures Lacks(a + b, c)
  {
  }

  lemma NoPairConcat(a: string, b: string, c: char)
    requires Lacks(a, c) && NoPair(b, c)
    ensures NoPair(a + b, c)
  {
  }

  lemma SafeLabel(value: string)
    ensures Lacks(SanitizeLabel(value, "table"), '>')
  {
    LabelCharsAreSafe(Strip(value));
  }

  /** The fields of a token do not contain its end. */
  lemma FieldsHaveNoClose(ctx: Context, id: string)
    requires IsUuidText(id)
    ensures NoPair(Fields(ctx, id), '>')
    ensures |Fields(ctx, id)| > 0 && Fields(ctx, id)[|Fields(ctx, id)|-1] == SanitizeDesc(ctx.summary)[|SanitizeDesc(ctx.summary)|-1]
  {
    var kind, desc := SanitizeLabel(ctx.kind, "table"), SanitizeDesc(ctx.summary);
    SafeLabel(ctx.kind);
    DescIsSafe(ctx.summary);
    LacksConcat(OPEN, id, '>');
    LacksConcat(Marker(id), " | TYPE: ", '>');
    LacksConcat(Marker(id) + " | TYPE: ", kind, '>');
    LacksConcat(Marker(id) + " | TYPE: " + kind, " | DESC: ", '>');
    NoPairConcat(Marker(id) + " | TYPE: " + kind + " | DESC: ", desc, '>');
  }

  lemma PrefixLacks(text: string, n: nat, id: string)
    requires n <= |text| && !Contains(text, id)
    ensures !Contains(text[..n], id)
  {
    forall i: nat ensures !At(text[..n], id, i) {
      assert At(text[..n], id, i) ==> At(text, id, i);
    }
  }

  lemma NewlineLacks(text: string, id: string)
    requires IsUuidText(id) && !Contains(text, id)
    ensures !Contains(text + "\n", id)
  {
    var longer := text + "\n";
    forall i: nat ensures !At(longer, id, i) {
      if i + |id| == |longer| {
        Differs(longer, id, i, |id| - 1);
      } else if i + |id| < |longer| {
        assert longer[i..i + |id|] == text[i..i + |id|];
        assert !At(text, id, i);
      }
    }
  }

  lemma Differs(s: string, p: string, i: nat, x: nat)
    requires x < |p| && i + |p| <= |s| && s[i + x] != p[x]
    ensures !At(s, p, i)
  {
    assert s[i..i + |p|][x] == s[i + x];
  }

  predicate EndsWith(s: string, c: char) { s != "" && s[|s|-1] == c }

  predicate Asks(text: string, place: Option<string>) {
    place.Some? && place.value != "" && Find(text, place.value, 0) >= 0
  }

  /** p occurs in the text after `a`, and not before. */
  ghost predicate FirstAfter(text: string, p: string, a: string) {
    a + p <= text && forall i: nat :: i < |a| ==> !At(text, p, i)
  }

  lemma FoundFirst(text: string, p: string, i: nat)
    requires Find(text, p, 0) == i
    ensures FirstAfter(text, p, text[..i])
  {
    FindFacts(text, p, 0);
    assert text[..i] + p == text[..i + |p|];
  }

  /**
   Theorem: the token takes the place of the first placeholder; without one it goes behind the first anchor
   text and a line break, in front of what follows the anchor; without that, to the end, behind a blank line
   if the text does not end a line and is not empty. Nothing else changes.
   */
  lemma WhereTheTokenGoes(text: string, ctx: Context, token: string) returns (a: string, b: string)
    ensures var p, q, got := ctx.placeholder, ctx.anchorAfter, Place(text, ctx, token);
            if Asks(text, p) then text == a + p.value + b && FirstAfter(text, p.value, a) && got == a + token + b
            else if Asks(text, q) then text == a + q.value + b && FirstAfter(text, q.value, a)
                                       && got == a + q.value + "\n" + token + b
            else text == a && b == "" && got == a + (if EndsWith(a, '\n') || a == "" then "" else "\n\n") + token
  {
    if Asks(text, ctx.placeholder) {
      var i := Find(text, ctx.placeholder.value, 0);
      a, b := text[..i], text[i + |ctx.placeholder.value|..];
      FoundFirst(text, ctx.placeholder.value, i);
    } else if Asks(text, ctx.anchorAfter) {
      var i := Find(text, ctx.anchorAfter.value, 0);
      a, b := text[..i], text[i + |ctx.anchorAfter.value|..];
      FoundFirst(text, ctx.anchorAfter.value, i);
      assert text[..i + |ctx.anchorAfter.value|] == a + ctx.anchorAfter.value;
      assert a + ctx.anchorAfter.value + ("\n" + token) + b == a + ctx.anchorAfter.value + "\n" + token + b;
    } else {
      a, b := text, "";
      assert a + "" == a && "" + token == token;
    }
  }

  /** Wherever the token goes, the text before it does not contain the identifier. */
  lemma Injected(text: string, ctx: Context, id: string, token: string) returns (pre: string, post: string)
    requires IsUuidText(id) && !Contains(text, id)
    ensures Place(text, ctx, token) == pre + token + post && !Contains(pre, id)
  {
    var a, b := WhereTheTokenGoes(text, ctx, token);
    post := b;
    if Asks(text, ctx.placeholder) {
      pre := a;
      PrefixLacks(text, |a|, id);
      assert text[..|a|] == a;
    } else if Asks(text, ctx.anchorAfter) {
      var upTo := a + ctx.anchorAfter.value;
      pre := upTo + "\n";
      PrefixLacks(text, |upTo|, id);
      assert text[..|upTo|] == upTo;
      NewlineLacks(upTo, id);
    } else {
      pre := a + if EndsWith(a, '\n') || a == "" then "" else "\n\n";
      NewlineLacks(a, id);
      NewlineLacks(a + "\n", id);
      assert a + "\n" + "\n" == a + "\n\n" && a + "" == a;
      assert pre + token + "" == pre + token;
    }
  }

  /** The marker does not occur earlier, not even partly in the text before the token. */
  lemma MarkerIsFirst(pre: string, rest: string, id: string, j: nat)
    requires IsUuidText(id) && !Contains(pre, id) && Marker(id) <= rest && j < |pre|
    ensures !At(pre + rest, Marker(id), j)
  {
    var s, m, k := pre + rest, Marker(id), |pre| - j;
    if k >= |m| {
      var i: nat := j + |OPEN|;
      assert !At(pre, id, i);
      assert s[i..j + |m|] == pre[i..j + |m|];
      assert s[j..j + |m|][|OPEN|..] == s[i..j + |m|];
      assert m[|OPEN|..] == id;
    } else if k == 1 {
      assert s[j + 2] == rest[1] == m[1] == '<' && m[2] == 'V';
      Differs(s, m, j, 2);
    } else {
      assert s[j + k] == rest[0] == m[0] == '<' && m[k] != '<';
      Differs(s, m, j, k);
    }
  }

  /** Where the parser sees the token end: one character early if the description ends with '>'. */
  function SeenEnd(fields: string): nat {
    if EndsWith(fields, '>') then |fields| - 1 else |fields|
  }

  lemma CloseIsSeen(pre: string, fields: string, post: string)
    requires NoPair(fields, '>')
    ensures Find(pre + (fields + CLOSE) + post, CLOSE, |pre|) == |pre| + SeenEnd(fields)
  {
    var s, e := pre + (fields + CLOSE) + post, SeenEnd(fields);
    assert forall x :: 0 <= x < |fields| ==> s[|pre| + x] == fields[x];
    assert s[|pre| + |fields|] == '>' && s[|pre| + |fields| + 1] == '>';
    assert s[|pre| + e..|pre| + e + 2] == [s[|pre| + e], s[|pre| + e + 1]] == CLOSE;
    forall j: nat | |pre| <= j < |pre| + e ensures !At(s, CLOSE, j) {
      var x := j - |pre|;
      assert s[j] == fields[x];
      if fields[x] != '>' {
        Differs(s, CLOSE, j, 0);
      } else {
        assert s[j + 1] == fields[x + 1];
        Differs(s, CLOSE, j, 1);
      }
    }
    FindIs(s, CLOSE, |pre|, |pre| + e);
  }

  lemma ExtractFrom(pre: string, ctx: Context, id: string, post: string)
    requires IsUuidText(id) && !Contains(pre, id)
    ensures Extract(pre + Token(ctx, id) + post, id) == Token(ctx, id)[..SeenEnd(Fields(ctx, id)) + 2]
  {
    var fields := Fields(ctx, id);
    FieldsHaveNoClose(ctx, id);
    assert Marker(id) <= fields;
    ExtractWithMarker(pre, fields, id, post);
  }

  lemma MarkerIsFound(pre: string, rest: string, id: string)
    requires IsUuidText(id) && !Contains(pre, id) && Marker(id) <= rest
    ensures Find(pre + rest, Marker(id), 0) == |pre|
  {
    var s := pre + rest;
    forall j: nat | j < |pre| ensures !At(s, Marker(id), j) {
      MarkerIsFirst(pre, rest, id, j);
    }
    assert s[|pre|..|pre| + |Marker(id)|] == Marker(id);
    FindIs(s, Marker(id), 0, |pre|);
  }

  lemma ExtractWithMarker(pre: string, fields: string, id: string, post: string)
    requires IsUuidText(id) && !Contains(pre, id) && Marker(id) <= fields && NoPair(fields, '>')
    ensures Extract(pre + (fields + CLOSE) + post, id) == (fields + CLOSE)[..SeenEnd(fields) + 2]
  {
    var token := fields + CLOSE;
    var s := pre + token + post;
    assert s == pre + (token + post) && Marker(id) <= token + post;
    MarkerIsFound(pre, token + post, id);
    CloseIsSeen(pre, fields, post);
    assert s[|pre|..|pre| + SeenEnd(fields) + 2] == token[..SeenEnd(fields) + 2];
  }

  /**
   Theorem: the parser gives back the injected token, wherever it was put, exactly when the description does
   not end with '>'; otherwise its last character is missing.
   */
  lemma RoundTrip(text: string, ctx: Context, id: string)
    requires IsUuidText(id) && !Contains(text, id)
    ensures var token, got := Token(ctx, id), Extract(Inject(text, ctx, id), id);
            && (got == token <==> !EndsWith(SanitizeDesc(ctx.summary), '>'))
            && (EndsWith(SanitizeDesc(ctx.summary), '>') ==> got == token[..|token|-1])
  {
    var pre, post := Injected(text, ctx, id, Token(ctx, id));
    ContainsIff(text, id);
    ExtractFrom(pre, ctx, id, post);
    FieldsHaveNoClose(ctx, id);
    DescIsSafe(ctx.summary);
    var token := Token(ctx, id);
    assert token[..|token|] == token && |token[..|token|-1]| < |token|;
  }

  lemma ConcatContains(pre: string, middle: string, post: string, id: string, i: nat)
    requires At(middle, id, i)
    ensures Contains(pre + middle + post, id)
  {
    var s := pre + middle + post;
    assert s[|pre| + i..|pre| + i + |id|] == middle[i..i + |id|];
    assert At(s, id, |pre| + i);
  }

  /** Theorem: a second injection of the same identifier changes nothing, whatever its context. */
  lemma InjectOnce(text: string, first: Context, second: Context, id: string)
    requires IsUuidText(id)
    ensures Inject(Inject(text, first, id), second, id) == Inject(text, first, id)
  {
    ContainsIff(text, id);
    if !Contains(text, id) {
      var token := Token(first, id);
      var pre, post := Injected(text, first, id, token);
      assert token[|OPEN|..|OPEN| + |id|] == id;
      ConcatContains(pre, token, post, id, |OPEN|);
      ContainsIff(Inject(text, first, id), id);
    }
  }

  /** A description whose last character is '>' loses the end of its token. */
  lemma TrailingAngleIsLost()
    ensures EndsWith(SanitizeDesc("a>"), '>')
  {
    assert Collapse("a>") == "a>" by {
      assert "a>"[1..] == ">" && ">"[1..] == "";
    }
    assert Strip("a>") == "a>";
    assert ReplaceChar("a>", '|', '/') == "a>";
    assert ReplacePair("a>", '>', ']') == "a>" by {
      assert "a>"[1..] == ">";
    }
    assert ReplacePair("a>", '<', '[') == "a>" by {
      assert "a>"[1..] == ">";
    }
  }
}
