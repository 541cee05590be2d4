/** The prompt-injection marker, and why chunking never hides what the whole document shows. */
module Injection {
  import opened Text
  import opened Chunker

  const VERBS: seq<string> := ["ignore", "disregard", "reveal", "override"]
  const TARGETS: seq<string> := ["instruction", "prompt", "system", "secret"]
  const GAP: nat := 40

  /** A lower-case ASCII letter of the pattern against a character, under `re.IGNORECASE`. */
  predicate LetterMatches(letter: char, c: char) {
    || c == letter
    || ('a' <= letter <= 'z' && c as int == letter as int - 32)
    || (letter == 'i' && (c == '\U{130}' || c == '\U{131}'))
    || (letter == 's' && c == '\U{17F}')
  }

  predicate WordMatches(word: string, s: string) {
    |s| == |word| && forall k | 0 <= k < |s| :: LetterMatches(word[k], s[k])
  }

  /** `verb.{0,40}target`, matched against the whole of `p`; the dot matches anything but a line feed. */
  predicate Fits(verb: string, target: string, p: string) {
    && |verb| + |target| <= |p| <= |verb| + |target| + GAP
    && WordMatches(verb, p[..|verb|]) && WordMatches(target, p[|p| - |target|..])
    && '\n' !in p[|verb|..|p| - |target|]
  }

  predicate Triggers(p: string) {
    exists v, t :: 0 <= v < |VERBS| && 0 <= t < |TARGETS| && Fits(VERBS[v], TARGETS[t], p)
  }

  /** `INJECTION_PATTERN.search(s)` finds something. */
  predicate Flagged(s: string) {
    exists i, j :: 0 <= i <= j <= |s| && Triggers(s[i..j])
  }

  // ---- What the pattern finds ----

  /**
   * One letter in either case: the same place in the alphabet. Python also folds the dotted and dotless i and
   * the long s.
   */
  predicate EitherCase(letter: char, c: char) {
    || c == letter || ('A' <= c <= 'Z' && c as int - 'A' as int == letter as int - 'a' as int)
    || (letter == 'i' && c in "\U{130}\U{131}") || (letter == 's' && c == '\U{17F}')
  }

  predicate Reads(word: string, s: string) {
    |s| == |word| && forall k | 0 <= k < |word| :: EitherCase(word[k], s[k])
  }

  predicate IsVerb(s: string) {
    Reads("ignore", s) || Reads("disregard", s) || Reads("reveal", s) || Reads("override", s)
  }

  predicate IsTarget(s: string) {
    Reads("instruction", s) || Reads("prompt", s) || Reads("system", s) || Reads("secret", s)
  }

  /** A verb, at most 40 characters of the same line, and a target. */
  predicate Phrase(s: string, i: nat, j: nat, k: nat, l: nat) {
    && i <= j <= k <= l <= |s| && IsVerb(s[i..j]) && IsTarget(s[k..l])
    && k - j <= 40 && forall m | j <= m < k :: s[m] != '\n'
  }

  lemma LetterInEitherCase(letter: char, c: char)
    requires 'a' <= letter <= 'z'
    ensures LetterMatches(letter, c) <==> EitherCase(letter, c)
  {}

  lemma WordReads(word: string, s: string)
    requires Lower(word)
    ensures WordMatches(word, s) <==> Reads(word, s)
  {
    hide LetterMatches, EitherCase;
    forall k | 0 <= k < |word| && |s| == |word| ensures LetterMatches(word[k], s[k]) <==> EitherCase(word[k], s[k]) {
      LetterInEitherCase(word[k], s[k]);
    }
  }

  lemma WordsRead(s: string)
    ensures IsVerb(s) <==> exists v :: 0 <= v < |VERBS| && WordMatches(VERBS[v], s)
    ensures IsTarget(s) <==> exists t :: 0 <= t < |TARGETS| && WordMatches(TARGETS[t], s)
  {
    hide WordMatches, Reads;
    assert |VERBS| == 4 && VERBS[0] == "ignore" && VERBS[1] == "disregard";
    assert VERBS[2] == "reveal" && VERBS[3] == "override";
    assert |TARGETS| == 4 && TARGETS[0] == "instruction" && TARGETS[1] == "prompt";
    assert TARGETS[2] == "system" && TARGETS[3] == "secret";
    forall v | 0 <= v < 4 ensures WordMatches(VERBS[v], s) <==> Reads(VERBS[v], s) { WordReads(VERBS[v], s); }
    forall t | 0 <= t < 4 ensures WordMatches(TARGETS[t], s) <==> Reads(TARGETS[t], s) { WordReads(TARGETS[t], s); }
  }

  lemma PhraseTriggers(s: string, i: nat, j: nat, k: nat, l: nat)
    requires Phrase(s, i, j, k, l)
    ensures Triggers(s[i..l])
  {
    hide IsVerb, IsTarget, WordMatches;
    WordsRead(s[i..j]);
    WordsRead(s[k..l]);
    var v :| 0 <= v < |VERBS| && WordMatches(VERBS[v], s[i..j]);
    var t :| 0 <= t < |TARGETS| && WordMatches(TARGETS[t], s[k..l]);
    MatchedLength(VERBS[v], s[i..j]);
    MatchedLength(TARGETS[t], s[k..l]);
    PartsFit(VERBS[v], TARGETS[t], s[i..j], s[j..k], s[k..l]);
    assert s[i..l] == s[i..j] + s[j..k] + s[k..l];
  }

  lemma TriggerIsPhrase(s: string, i: nat, l: nat) returns (j: nat, k: nat)
    requires i <= l <= |s| && Triggers(s[i..l])
    ensures Phrase(s, i, j, k, l)
  {
    hide IsVerb, IsTarget, WordMatches, Fits;
    var v, t :| 0 <= v < |VERBS| && 0 <= t < |TARGETS| && Fits(VERBS[v], TARGETS[t], s[i..l]);
    var x, gap, y := FitsParts(VERBS[v], TARGETS[t], s[i..l]);
    j, k := i + |x|, l - |y|;
    assert s[i..l][..|x|] == x && s[i..j] == s[i..l][..|x|];
    assert s[i..l][|x| + |gap|..] == y && s[k..l] == s[i..l][|x| + |gap|..];
    assert s[i..l][|x|..|x| + |gap|] == gap && s[j..k] == s[i..l][|x|..|x| + |gap|];
    forall m | j <= m < k ensures s[m] != '\n' { assert s[m] == gap[m - j]; }
    WordsRead(x);
    WordsRead(y);
  }

  /** The marker is set exactly for a text with such a phrase in it. */
  lemma FlaggedIffPhrase(s: string)
    ensures Flagged(s) <==> exists i: nat, j: nat, k: nat, l: nat :: Phrase(s, i, j, k, l)
  {
    hide Phrase, Triggers;
    if Flagged(s) {
      var i, l :| 0 <= i <= l <= |s| && Triggers(s[i..l]);
      var j, k := TriggerIsPhrase(s, i, l);
      assert Phrase(s, i, j, k, l);
    }
    if i: nat, j: nat, k: nat, l: nat :| Phrase(s, i, j, k, l) {
      PhraseTriggers(s, i, j, k, l);
      PhraseInside(s, i, j, k, l);
    }
  }

  lemma PhraseInside(s: string, i: nat, j: nat, k: nat, l: nat)
    requires Phrase(s, i, j, k, l)
    ensures i <= l <= |s|
  {}

  // ---- Letters ----

  predicate Visible(c: char) { !IsSpace(c) }

  predicate Lower(word: string) { word != [] && forall k | 0 <= k < |word| :: 'a' <= word[k] <= 'z' }

  lemma WordsAreShortAndLower(v: nat, t: nat)
    requires v < |VERBS| && t < |TARGETS|
    ensures Lower(VERBS[v]) && Lower(TARGETS[t]) && |VERBS[v]| <= 9 && |TARGETS[t]| <= 11
  {}

  lemma MatchedIsVisible(word: string, s: string)
    requires Lower(word) && WordMatches(word, s)
    ensures s != [] && forall k | 0 <= k < |s| :: Visible(s[k])
  {
    forall k | 0 <= k < |s| ensures Visible(s[k]) {
      assert LetterMatches(word[k], s[k]);
    }
  }

  // ---- Runs of blanks ----

  lemma {:induction false} SqueezeShortens(s: string, inRun: bool)
    ensures |Squeeze(s, Blank, inRun)| <= |s|
    ensures '\n' !in s ==> '\n' !in Squeeze(s, Blank, inRun)
    decreases |s|
  {
    if s != [] {
      SqueezeShortens(s[1..], Blank(s[0]));
      assert '\n' !in s ==> s[0] != '\n' && '\n' !in s[1..];
    }
  }

  // ---- The whole document ----

  /** A trigger taken apart: verb, gap, target. */
  lemma FitsParts(verb: string, target: string, p: string) returns (x: string, gap: string, y: string)
    requires Fits(verb, target, p)
    ensures p == x + gap + y && WordMatches(verb, x) && WordMatches(target, y) && |gap| <= GAP && '\n' !in gap
  {
    x, gap, y := p[..|verb|], p[|verb|..|p| - |target|], p[|p| - |target|..];
  }

  lemma PartsFit(verb: string, target: string, x: string, gap: string, y: string)
    requires WordMatches(verb, x) && WordMatches(target, y) && |gap| <= GAP && '\n' !in gap
    ensures Fits(verb, target, x + gap + y)
  {
    var p := x + gap + y;
    assert p[..|verb|] == x && p[|p| - |target|..] == y && p[|verb|..|p| - |target|] == gap;
  }

  /** Replacing line ends around a trigger leaves the trigger alone. */
  lemma NewlinesKeepTrigger(pre: string, x: string, gap: string, y: string, post: string)
    requires x != [] && y != [] && '\n' !in gap
    requires forall k | 0 <= k < |x| :: Visible(x[k])
    requires forall k | 0 <= k < |y| :: Visible(y[k])
    ensures UnixNewlines(pre + (x + gap + y) + post) == UnixNewlines(pre) + (x + gap + y) + UnixNewlines(post)
  {
    hide UnixNewlines;
    var p := x + gap + y;
    assert p[0] == x[0] && p[|p| - 1] == y[|y| - 1];
    assert '\n' !in x && '\n' !in y;
    UnixNewlinesKeepsLine(p);
    UnixNewlinesConcat(pre, p);
    assert (pre + p)[|pre + p| - 1] == y[|y| - 1];
    UnixNewlinesConcat(pre + p, post);
  }

  /** Squeezing blanks can only shorten the gap of a trigger. */
  lemma SqueezeKeepsTrigger(pre: string, x: string, gap: string, y: string, post: string)
    returns (before: string, gap': string, after: string)
    requires '\n' !in gap
    requires forall k | 0 <= k < |x| :: Visible(x[k])
    requires forall k | 0 <= k < |y| :: Visible(y[k])
    ensures Squeeze(pre + (x + gap + y) + post, Blank, false) == before + (x + gap' + y) + after
    ensures |gap'| <= |gap| && '\n' !in gap'
  {
    hide Squeeze;
    var r1 := EndsBlank(pre, Blank, false);
    SqueezeConcat(pre, x + gap + y, Blank, false);
    SqueezeConcat(x + gap, y, Blank, r1);
    SqueezeConcat(x, gap, Blank, r1);
    SqueezeKeepsVisible(x, Blank, r1);
    SqueezeKeepsVisible(y, Blank, EndsBlank(x + gap, Blank, r1));
    SqueezeShortens(gap, EndsBlank(x, Blank, r1));
    SqueezeConcat(pre + (x + gap + y), post, Blank, false);
    before := Squeeze(pre, Blank, false);
    gap' := Squeeze(gap, Blank, EndsBlank(x, Blank, r1));
    after := Squeeze(post, Blank, EndsBlank(pre + (x + gap + y), Blank, false));
  }

  /** A trigger in the document leaves a trigger, visible at both ends, in the normalised text. */
  lemma NormalizedKeepsTrigger(content: string) returns (a: nat, b: nat)
    requires Flagged(content)
    ensures a < b <= |Normalize(content)| && b - a <= 60 && Triggers(Normalize(content)[a..b])
    ensures !IsSpace(Normalize(content)[a]) && !IsSpace(Normalize(content)[b - 1])
  {
    hide Normalize, Fits, IsSpace;
    var i, j :| 0 <= i <= j <= |content| && Triggers(content[i..j]);
    var v, t :| 0 <= v < |VERBS| && 0 <= t < |TARGETS| && Fits(VERBS[v], TARGETS[t], content[i..j]);
    a, b := TriggerSurvives(content, i, j, v, t);
  }

  lemma TriggerSurvives(content: string, i: nat, j: nat, v: nat, t: nat) returns (a: nat, b: nat)
    requires i <= j <= |content| && v < |VERBS| && t < |TARGETS| && Fits(VERBS[v], TARGETS[t], content[i..j])
    ensures a < b <= |Normalize(content)| && b - a <= 60 && Triggers(Normalize(content)[a..b])
    ensures !IsSpace(Normalize(content)[a]) && !IsSpace(Normalize(content)[b - 1])
  {
    hide UnixNewlines, Squeeze, Strip, WordMatches, Fits, IsSpace;
    var verb, target := VERBS[v], TARGETS[t];
    WordsAreShortAndLower(v, t);
    var x, gap, y := FitsParts(verb, target, content[i..j]);
    MatchedIsVisible(verb, x);
    MatchedIsVisible(target, y);
    var pre, post := content[..i], content[j..];
    assert content == pre + (x + gap + y) + post;
    NewlinesKeepTrigger(pre, x, gap, y, post);
    var before, gap', after := SqueezeKeepsTrigger(UnixNewlines(pre), x, gap, y, UnixNewlines(post));
    var p, text := x + gap' + y, before + (x + gap' + y) + after;
    PartsFit(verb, target, x, gap', y);
    MatchedLength(verb, x);
    MatchedLength(target, y);
    assert Triggers(p);
    a := StripKeepsPassage(before, p, after);
    b := a + |p|;
    assert Normalize(content) == Strip(text);
    assert p[0] == x[0] && p[|p| - 1] == y[|y| - 1];
    assert Normalize(content)[a..b][0] == Normalize(content)[a];
  }

  lemma StripKeepsPassage(before: string, p: string, after: string) returns (a: nat)
    requires p != [] && !IsSpace(p[0]) && !IsSpace(p[|p| - 1])
    ensures a + |p| <= |Strip(before + p + after)| && Strip(before + p + after)[a..a + |p|] == p
  {
    hide Strip, IsSpace;
    var text := before + p + after;
    assert text[|before|..|before| + |p|] == p;
    assert text[|before|] == p[0] && text[|before| + |p| - 1] == p[|p| - 1];
    StripKeeps(text, |before|, |before| + |p|);
    a :| 0 <= a <= |Strip(text)| && At(Strip(text), p, a);
  }

  lemma MatchedLength(word: string, s: string)
    requires WordMatches(word, s)
    ensures |s| == |word|
  {}

  lemma ContainedTriggerFlags(text: string, p: string)
    requires Contains(text, p) && Triggers(p)
    ensures Flagged(text)
  {
    hide Triggers;
    var i :| 0 <= i <= |text| && At(text, p, i);
    assert text[i..i + |p|] == p;
  }

  /** A document that the pattern flags always has a chunk that the pattern flags. */
  lemma FlaggedDocumentHasFlaggedChunk(content: string)
    requires Flagged(content) && Chunks(content).Some?
    ensures exists k :: 0 <= k < |Chunks(content).value| && Flagged(Chunks(content).value[k])
  {
    hide Flagged, Triggers, Normalize, Windows, ChunksOf, Contains;
    var a, b := NormalizedKeepsTrigger(content);
    var s := Normalize(content);
    PassageInOneChunk(s, a, b);
    var k :| 0 <= k < |ChunksOf(s, Windows(s, 0))| && Contains(ChunksOf(s, Windows(s, 0))[k], s[a..b]);
    ContainedTriggerFlags(ChunksOf(s, Windows(s, 0))[k], s[a..b]);
    assert Chunks(content).value == ChunksOf(s, Windows(s, 0));
  }
}
