/** Python's whitespace handling on strings: `str.isspace`, `str.strip`, and run squeezing. */
module Text {
  /** The characters that `str.isspace`, `str.strip` and the regular expression `\s` treat as blank. */
  predicate IsSpace(c: char) {
    || '\t' <= c <= '\r'
    || '\U{1C}' <= c <= ' '
    || c == '\U{85}' || c == '\U{A0}' || c == '\U{1680}'
    || '\U{2000}' <= c <= '\U{200A}'
    || c == '\U{2028}' || c == '\U{2029}' || c == '\U{202F}' || c == '\U{205F}' || c == '\U{3000}'
  }

  /** Index of the first non-blank character, or the length. */
  function LeadingSpace(s: string): (n: nat)
    ensures n <= |s|
    ensures forall k | 0 <= k < n :: IsSpace(s[k])
    ensures n < |s| ==> !IsSpace(s[n])
  {
    if s == [] || !IsSpace(s[0]) then 0 else 1 + LeadingSpace(s[1..])
  }

  /** Length of `s` without its trailing blanks. */
  function TrimmedEnd(s: string): (n: nat)
    ensures n <= |s|
    ensures forall k | n <= k < |s| :: IsSpace(s[k])
    ensures n > 0 ==> !IsSpace(s[n - 1])
  {
    if s == [] || !IsSpace(s[|s| - 1]) then |s| else TrimmedEnd(s[..|s| - 1])
  }

  /** `str.strip()`: the longest slice that neither starts nor ends in a blank. */
  function Strip(s: string): (r: string)
    ensures |r| <= |s|
    ensures r != [] ==> !IsSpace(r[0]) && !IsSpace(r[|r| - 1])
    ensures r == [] <==> forall k | 0 <= k < |s| :: IsSpace(s[k])
  {
    var lo, hi := LeadingSpace(s), TrimmedEnd(s);
    if lo < hi then s[lo..hi] else []
  }

  /** Replaces every maximal run of characters satisfying `blank` by one space. */
  function Squeeze(s: string, blank: char -> bool, inRun: bool): string {
    if s == [] then []
    else if blank(s[0]) then (if inRun then [] else [' ']) + Squeeze(s[1..], blank, true)
    else [s[0]] + Squeeze(s[1..], blank, false)
  }

  /** `" ".join(value.strip().split())`. */
  function NormalizeText(s: string): string {
    Squeeze(Strip(s), IsSpace, false)
  }

  /** Stripping takes blanks off both ends and nothing else. */
  lemma StripSplits(s: string) returns (lead: string, trail: string)
    ensures s == lead + Strip(s) + trail
    ensures (forall c | c in lead :: IsSpace(c)) && (forall c | c in trail :: IsSpace(c))
  {
    var lo, hi := LeadingSpace(s), TrimmedEnd(s);
    if lo < hi {
      lead, trail := s[..lo], s[hi..];
    } else {
      lead, trail := s, "";
    }
  }

  // ---- Runs of blanks ----

  function EndsBlank(s: string, blank: char -> bool, inRun: bool): bool {
    if s == [] then inRun else blank(s[|s| - 1])
  }

  lemma {:induction false} SqueezeConcat(a: string, b: string, blank: char -> bool, inRun: bool)
    ensures Squeeze(a + b, blank, inRun) == Squeeze(a, blank, inRun) + Squeeze(b, blank, EndsBlank(a, blank, inRun))
    decreases |a|
  {
    if a == [] {
      assert a + b == b;
    } else {
      assert (a + b)[1..] == a[1..] + b;
      SqueezeConcat(a[1..], b, blank, blank(a[0]));
    }
  }

  /** Text without blanks stays as it is. */
  lemma {:induction false} SqueezeKeepsVisible(s: string, blank: char -> bool, inRun: bool)
    requires forall k | 0 <= k < |s| :: !blank(s[k])
    ensures Squeeze(s, blank, inRun) == s
    decreases |s|
  {
    if s != [] { SqueezeKeepsVisible(s[1..], blank, false); }
  }

  lemma {:induction false} SqueezeSkipsRun(run: string, blank: char -> bool)
    requires forall k | 0 <= k < |run| :: blank(run[k])
    ensures Squeeze(run, blank, true) == []
    decreases |run|
  {
    if run != [] { SqueezeSkipsRun(run[1..], blank); }
  }

  /** Where text is blank for a while, one space remains. */
  lemma SqueezeRun(a: string, run: string, b: string, blank: char -> bool)
    requires run != [] && forall k | 0 <= k < |run| :: blank(run[k])
    requires (a == [] || !blank(a[|a| - 1])) && (b == [] || !blank(b[0]))
    ensures Squeeze(a + run + b, blank, false) == Squeeze(a, blank, false) + [' '] + Squeeze(b, blank, false)
  {
    SqueezeConcat(a + run, b, blank, false);
    SqueezeConcat(a, run, blank, false);
    SqueezeSkipsRun(run[1..], blank);
    assert Squeeze(run, blank, false) == [' '];
  }

  // ---- Words ----

  /** Length of the first word of a text that does not start blank. */
  function WordEnd(s: string): (n: nat)
    ensures n <= |s| && (forall k | 0 <= k < n :: !IsSpace(s[k])) && (n < |s| ==> IsSpace(s[n]))
    ensures n > 0 <==> s != [] && !IsSpace(s[0])
  {
    if s == [] || IsSpace(s[0]) then 0 else 1 + WordEnd(s[1..])
  }

  /** `str.split()`. */
  function Words(s: string): seq<string>
    decreases |s|
  {
    var t := s[LeadingSpace(s)..];
    if t == [] then [] else [t[..WordEnd(t)]] + Words(t[WordEnd(t)..])
  }

  /** `" ".join(words)`. */
  function Join(words: seq<string>): string {
    if words == [] then "" else if |words| == 1 then words[0] else words[0] + [' '] + Join(words[1..])
  }

  /** The text has the same words after its trailing blanks are gone. */
  lemma {:induction false} TrailingBlanksHaveNoWords(s: string, trail: string)
    requires forall k | 0 <= k < |trail| :: IsSpace(trail[k])
    ensures Words(s + trail) == Words(s)
    decreases |s|
  {
    LeadingSpaceOf(s, trail);
    var lo := LeadingSpace(s);
    var t := s[lo..];
    if t == [] {
      assert Words(s) == [];
      assert (s + trail)[LeadingSpace(s + trail)..] == [];
    } else {
      assert (s + trail)[lo..] == t + trail;
      WordEndOf(t, trail);
      var n := WordEnd(t);
      assert (t + trail)[..n] == t[..n] && (t + trail)[n..] == t[n..] + trail;
      TrailingBlanksHaveNoWords(t[n..], trail);
    }
  }

  lemma {:induction false} LeadingSpaceOf(s: string, trail: string)
    requires forall k | 0 <= k < |trail| :: IsSpace(trail[k])
    ensures LeadingSpace(s + trail) == if LeadingSpace(s) < |s| then LeadingSpace(s) else |s + trail|
  {
    var lo, both := LeadingSpace(s), LeadingSpace(s + trail);
    assert forall k | 0 <= k < |s| :: (s + trail)[k] == s[k];
    assert forall k | |s| <= k < |s + trail| :: (s + trail)[k] == trail[k - |s|];
    if lo < |s| { assert both == lo; }
  }

  lemma {:induction false} WordEndOf(t: string, trail: string)
    requires t != [] && !IsSpace(t[0]) && forall k | 0 <= k < |trail| :: IsSpace(trail[k])
    ensures WordEnd(t + trail) == WordEnd(t) > 0
  {
    var n, both := WordEnd(t), WordEnd(t + trail);
    assert n > 0;
    assert n < |t| ==> (t + trail)[n] == t[n];
    assert n == |t| && trail != [] ==> (t + trail)[n] == trail[0];
    assert both < |t| ==> (t + trail)[both] == t[both];
  }

  lemma WordsSkipLead(s: string)
    ensures Words(s[LeadingSpace(s)..]) == Words(s)
  {
    hide WordEnd;
    var t := s[LeadingSpace(s)..];
    assert LeadingSpace(t) == 0;
    assert t[0..] == t;
  }

  /** Squeezing a text that starts and ends visibly joins its words with single spaces. */
  lemma {:induction false} SqueezeJoins(s: string)
    requires s == [] || (!IsSpace(s[0]) && !IsSpace(s[|s| - 1]))
    ensures Squeeze(s, IsSpace, false) == Join(Words(s))
    decreases |s|
  {
    if s != [] {
      assert LeadingSpace(s) == 0 && s[0..] == s;
      var n := WordEnd(s);
      assert n > 0;
      var word, more := s[..n], s[n..];
      SqueezeKeepsVisible(word, IsSpace, false);
      if more == [] {
        assert word == s && Words(s) == [word];
      } else {
        var lo := LeadingSpace(more);
        assert more[|more| - 1] == s[|s| - 1];
        var run, rest := more[..lo], more[lo..];
        assert s == word + run + rest;
        SqueezeRun(word, run, rest, IsSpace);
        SqueezeJoins(rest);
        assert Words(more) == Words(rest) by { assert LeadingSpace(rest) == 0 && rest[0..] == rest; }
        assert Words(s) == [word] + Words(rest) && Words(rest) != [];
        assert Words(s)[1..] == Words(rest);
      }
    }
  }

  lemma SlicesMeet(s: string, lo: nat, hi: nat)
    requires lo <= hi <= |s|
    ensures s[lo..] == s[lo..hi] + s[hi..]
  {}

  lemma TailIsBlank(s: string, hi: nat)
    requires hi <= |s| && forall k | hi <= k < |s| :: IsSpace(s[k])
    ensures forall k | 0 <= k < |s[hi..]| :: IsSpace(s[hi..][k])
  {
    hide IsSpace;
  }

  lemma StripKeepsWords(s: string)
    ensures Words(Strip(s)) == Words(s)
  {
    hide Words, IsSpace, LeadingSpace, TrimmedEnd;
    var lo, hi := LeadingSpace(s), TrimmedEnd(s);
    WordsSkipLead(s);
    if lo < hi {
      TailIsBlank(s, hi);
      TrailingBlanksHaveNoWords(s[lo..hi], s[hi..]);
      SlicesMeet(s, lo, hi);
    } else {
      NothingVisible(s);
    }
  }

  /** Normalised text is the words of the original, joined by single spaces. */
  lemma NormalizeJoinsWords(s: string)
    ensures NormalizeText(s) == Join(Words(s))
  {
    hide Words, Squeeze, Join, IsSpace, Strip;
    SqueezeJoins(Strip(s));
    StripKeepsWords(s);
  }

  lemma NothingVisible(s: string)
    requires LeadingSpace(s) >= TrimmedEnd(s)
    ensures s[LeadingSpace(s)..] == [] && Strip(s) == []
  {}
}
