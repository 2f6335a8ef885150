/** What of a prompt's text reaches a terminal: cleaning, flattening and the
    bracketed paste around it. */
module PromptText {
  import opened Options

  const MAX_PROMPT_BYTES := 8192

  const PASTE_START: string := "\U{1b}[200~"
  const PASTE_END: string := "\U{1b}[201~"

  /** General category Cc. */
  predicate IsControl(c: char) {
    c as int < 0x20 || 0x7f <= c as int < 0xa0
  }

  predicate IsWhitespace(c: char) {
    var u := c as int;
    || 9 <= u <= 13 || u == 0x20 || u == 0x85 || u == 0xa0 || u == 0x1680
    || 0x2000 <= u <= 0x200a || u == 0x2028 || u == 0x2029 || u == 0x202f || u == 0x205f || u == 0x3000
  }

  function Utf8Len(s: string): nat {
    if s == [] then 0
    else var u := s[0] as int;
      (if u < 0x80 then 1 else if u < 0x800 then 2 else if u < 0x10000 then 3 else 4) + Utf8Len(s[1..])
  }

  predicate Kept(c: char) {
    !IsControl(c) || c == '\n' || c == '\t'
  }

  function Filter(s: string): string {
    if s == [] then [] else if Kept(s[0]) then [s[0]] + Filter(s[1..]) else Filter(s[1..])
  }

  /** `clean_text`: too long and blank are refused, control characters other
      than LF and TAB are dropped. */
  function CleanText(text: string): Option<string> {
    if Utf8Len(text) > MAX_PROMPT_BYTES then None
    else if forall c :: c in Filter(text) ==> IsWhitespace(c) then None
    else Some(Filter(text))
  }

  function Flatten(s: string): string {
    seq(|s|, i requires 0 <= i < |s| => if s[i] == '\n' || s[i] == '\t' then ' ' else s[i])
  }

  predicate EndsWith(s: string, tail: string) {
    |tail| <= |s| && s[|s| - |tail|..] == tail
  }

  /** One more character, and the terminator cut off again if that completes it. */
  function Push(v: string, c: char, tail: string): string {
    var w := v + [c];
    if EndsWith(w, tail) then w[..|w| - |tail|] else w
  }

  /** The body of a bracketed paste after `n` characters of the text. */
  function Pasted(text: string, n: nat): string
    requires n <= |text|
  {
    if n == 0 then PASTE_START
    else Push(Pasted(text, n - 1), text[n - 1], PASTE_END)
  }

  function PasteOf(text: string, bracketed: bool): string {
    if bracketed then Pasted(text, |text|) + PASTE_END else text
  }

  method Paste(text: string, bracketed: bool) returns (v: string)
    ensures v == PasteOf(text, bracketed)
  {
    if !bracketed { return text; }
    v := PASTE_START;
    for i := 0 to |text|
      invariant v == Pasted(text, i)
    {
      v := v + [text[i]];
      if EndsWith(v, PASTE_END) {
        v := v[..|v| - |PASTE_END|];
      }
    }
    v := v + PASTE_END;
  }

  /** What `deliver` writes before any carriage return. */
  function Rendered(text: string, bracketed: bool): string {
    PasteOf(if bracketed then text else Flatten(text), bracketed)
  }

  ghost predicate Clean(text: string) {
    forall c :: c in text ==> Kept(c)
  }

  lemma {:induction false} FilterKeepsOnly(s: string)
    ensures Clean(Filter(s))
    decreases |s|
  {
    if s != [] { FilterKeepsOnly(s[1..]); }
  }

  predicate Loud(c: char) {
    Kept(c) && !IsWhitespace(c)
  }

  lemma {:induction false} FilterKeepsAll(s: string, c: char)
    ensures c in Filter(s) <==> c in s && Kept(c)
    decreases |s|
  {
    if s != [] {
      FilterKeepsAll(s[1..], c);
      assert c in s <==> c == s[0] || c in s[1..];
    }
  }

  lemma {:induction false} FilterSplits(a: string, b: string)
    ensures Filter(a + b) == Filter(a) + Filter(b)
    decreases |a|
  {
    if a == [] {
      assert a + b == b;
    } else {
      FilterSplits(a[1..], b);
      assert (a + b)[1..] == a[1..] + b;
    }
  }

  lemma {:induction false} CleanIsFixed(s: string)
    requires Clean(s)
    ensures Filter(s) == s
    decreases |s|
  {
    if s != [] {
      assert s[0] in s && forall c :: c in s[1..] ==> c in s;
      CleanIsFixed(s[1..]);
    }
  }

  /** A prompt is accepted exactly if it fits in 8 KiB and holds something to
      read besides what is dropped; clean text then goes through unchanged. */
  lemma AcceptedIff(text: string)
    ensures CleanText(text).Some? <==> Utf8Len(text) <= MAX_PROMPT_BYTES && exists c :: c in text && Loud(c)
    ensures CleanText(text).Some? && Clean(text) ==> CleanText(text).value == text
  {
    forall c ensures c in Filter(text) <==> c in text && Kept(c) { FilterKeepsAll(text, c); }
    if Clean(text) { CleanIsFixed(text); }
  }

  /** Cleaning drops control characters wherever they stand, and no others. */
  lemma CleaningDropsInPlace(a: string, c: char, b: string)
    ensures Filter(a + [c] + b) == Filter(a) + (if Kept(c) then [c] else []) + Filter(b)
  {
    FilterSplits(a + [c], b);
    FilterSplits(a, [c]);
  }

  /** Unbracketed, a prompt keeps its length and every character but LF and
      TAB, which become spaces. */
  lemma UnbracketedIsFlat(text: string, i: nat)
    requires i < |text|
    ensures var r := Rendered(text, false);
            && |r| == |text|
            && (text[i] in "\n\t" ==> r[i] == ' ') && (text[i] !in "\n\t" ==> r[i] == text[i])
  {
  }

  ghost predicate OccursAt(s: string, i: int, part: string) {
    0 <= i <= |s| - |part| && s[i..i + |part|] == part
  }

  ghost predicate Contains(s: string, part: string) {
    exists i :: OccursAt(s, i, part)
  }

  lemma PushKeepsOut(v: string, c: char, tail: string)
    requires |tail| > 0 && !Contains(v, tail)
    ensures !Contains(Push(v, c, tail), tail)
  {
    var w, r := v + [c], Push(v, c, tail);
    forall i ensures !OccursAt(r, i, tail) {
      assert !OccursAt(v, i, tail);
      if 0 <= i && i + |tail| <= |r| {
        if i + |tail| <= |v| {
          assert v[i..i + |tail|] == w[i..i + |tail|] == r[i..i + |tail|];
        } else {
          assert r == w && i == |w| - |tail| && w[i..] == w[i..i + |tail|];
        }
      }
    }
  }

  /** Whatever the text, the end bracket is not in the body. */
  lemma {:induction false} BodyHoldsNoEnd(text: string, n: nat)
    requires n <= |text|
    ensures !Contains(Pasted(text, n), PASTE_END)
  {
    if n == 0 {
      forall i ensures !OccursAt(PASTE_START, i, PASTE_END) {
        if i == 0 {
          assert PASTE_START[i..i + |PASTE_END|][4] == '0' && PASTE_END[4] == '1';
        }
      }
    } else {
      BodyHoldsNoEnd(text, n - 1);
      PushKeepsOut(Pasted(text, n - 1), text[n - 1], PASTE_END);
    }
  }

  /** Nor does one straddle the seam: the end bracket begins with its only ESC. */
  lemma SeamHoldsNoEnd(body: string, i: int)
    requires !Contains(body, PASTE_END)
    ensures OccursAt(body + PASTE_END, i, PASTE_END) <==> i == |body|
  {
    var whole := body + PASTE_END;
    assert !OccursAt(body, i, PASTE_END);
    if 0 <= i <= |body| - |PASTE_END| {
      assert whole[i..i + |PASTE_END|] == body[i..i + |PASTE_END|];
    } else if |body| - |PASTE_END| < i < |body| && 0 <= i {
      assert whole[i..i + |PASTE_END|][|body| - i] == whole[|body|] == PASTE_END[0];
      assert forall k :: 1 <= k < |PASTE_END| ==> PASTE_END[k] != PASTE_END[0];
    } else if i == |body| {
      assert whole[i..i + |PASTE_END|] == PASTE_END;
    }
  }

  /** Whatever the text, a bracketed paste ends once: its end bracket occurs at
      its very end and nowhere else. */
  lemma PasteEndsOnce(text: string, i: int)
    ensures OccursAt(PasteOf(text, true), i, PASTE_END) <==> i == |PasteOf(text, true)| - |PASTE_END|
  {
    BodyHoldsNoEnd(text, |text|);
    SeamHoldsNoEnd(Pasted(text, |text|), i);
  }

  /** Clean text passes whole: it holds no ESC, so it can neither end its own
      paste nor lose a character to the guard against that. */
  lemma {:induction false} CleanPastesWhole(text: string, n: nat)
    requires Clean(text) && n <= |text|
    ensures Pasted(text, n) == PASTE_START + text[..n]
  {
    if n > 0 {
      CleanPastesWhole(text, n - 1);
      var v := Pasted(text, n - 1) + [text[n - 1]];
      assert v == PASTE_START + text[..n];
      var at := |v| - |PASTE_END|;
      assert v[at] != '\U{1b}' by {
        if at < |PASTE_START| {
          assert v[at] == PASTE_START[at];
        } else {
          assert v[at] == text[at - |PASTE_START|] && v[at] in text;
        }
      }
      assert v[at..][0] == v[at];
    }
  }

  /** A cleaned prompt puts no carriage return on a terminal, and outside a
      bracketed paste no control character at all: the only submission is the
      separate carriage return. */
  lemma PromptNeverSubmitsItself(raw: string, bracketed: bool)
    requires CleanText(raw).Some?
    ensures var text := CleanText(raw).value;
            && '\r' !in Rendered(text, bracketed)
            && (!bracketed ==> forall c :: c in Rendered(text, false) ==> !IsControl(c))
            && (bracketed ==> Rendered(text, true) == PASTE_START + text + PASTE_END)
  {
    var text := CleanText(raw).value;
    FilterKeepsOnly(raw);
    if bracketed {
      CleanPastesWhole(text, |text|);
      assert text[..|text|] == text;
      assert '\r' !in PASTE_START && '\r' !in PASTE_END;
    } else {
      forall c | c in Flatten(text) ensures !IsControl(c) {
        var i :| 0 <= i < |text| && Flatten(text)[i] == c;
        assert text[i] in text;
      }
      assert IsControl('\r');
    }
  }
}
