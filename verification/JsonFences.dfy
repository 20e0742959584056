/** Code fences around a reply, and when a value inside them is recovered. */
module JsonFences {
  import opened Common
  import opened JsonText
  import opened JsonExtraction
  import opened JsonRecovery

  /** The first occurrence of `p` in `s`. */
  function Find(s: string, p: string): Option<nat> {
    if p <= s then Some(0)
    else if s == [] then None
    else match Find(s[1..], p) case Some(i) => Some(i + 1) case None => None
  }

  const FENCE := "```"

  function StripCodeFences(input: string): string {
    match Find(input, FENCE)
    case None => input
    case Some(start) =>
      var after := if start + 3 <= |input| then input[start + 3..] else [];
      var content := match Find(after, "\n") case Some(i) => (if i + 1 <= |after| then after[i + 1..] else []) case None => after;
      match Find(content, FENCE)
      case Some(end) => if end <= |content| then content[..end] else input
      case None => input
  }

  predicate At(s: string, p: string, i: nat) {
    i <= |s| && p <= s[i..]
  }

  /** `Find` returns the first place where `p` stands, and nothing when there is none. */
  lemma {:induction false} FindExactly(s: string, p: string)
    ensures match Find(s, p)
            case Some(i) => At(s, p, i) && forall j: nat :: j < i ==> !At(s, p, j)
            case None => forall j: nat :: !At(s, p, j)
  {
    assert s[0..] == s;
    if !(p <= s) && s != [] {
      FindExactly(s[1..], p);
      forall j: nat | 1 <= j
        ensures At(s, p, j) <==> At(s[1..], p, j - 1)
      {
        if j <= |s| {
          assert s[j..] == s[1..][j - 1..];
        }
      }
    }
  }

  lemma FindFirst(s: string, p: string, i: nat)
    requires At(s, p, i) && forall j: nat :: j < i ==> !At(s, p, j)
    ensures Find(s, p) == Some(i)
  {
    hide At, Find;
    FindExactly(s, p);
  }

  /** Three backticks from `i` on. */
  predicate Ticks(s: string, i: nat) {
    i + 3 <= |s| && s[i] == '`' && s[i + 1] == '`' && s[i + 2] == '`'
  }

  lemma FenceTicks(s: string, i: nat)
    ensures At(s, FENCE, i) <==> Ticks(s, i)
  {
    if i <= |s| {
      assert FENCE == ['`', '`', '`'];
      if i + 3 <= |s| {
        assert s[i..][..3] == [s[i], s[i + 1], s[i + 2]];
      }
    }
  }

  /** `k` is where the first fence of `s` starts. */
  predicate FirstFence(s: string, k: nat) {
    Ticks(s, k) && forall j: nat :: j < k ==> !Ticks(s, j)
  }

  ghost predicate Unfenced(s: string) {
    forall j: nat :: !Ticks(s, j)
  }

  lemma FenceFound(s: string)
    ensures match Find(s, FENCE) case Some(k) => FirstFence(s, k) case None => Unfenced(s)
  {
    hide At, Find, Ticks;
    FindExactly(s, FENCE);
    forall j: nat
      ensures At(s, FENCE, j) <==> Ticks(s, j)
    {
      FenceTicks(s, j);
    }
  }

  predicate OneLine(s: string) {
    forall i :: 0 <= i < |s| ==> s[i] != '\n'
  }

  lemma FindLine(tag: string, rest: string)
    requires OneLine(tag)
    ensures Find(tag + (['\n'] + rest), "\n") == Some(|tag|)
  {
    var s := tag + (['\n'] + rest);
    assert s[|tag|..] == ['\n'] + rest;
    assert At(s, "\n", |tag|);
    forall j: nat | j < |tag|
      ensures !At(s, "\n", j)
    {
      assert s[j..][0] == tag[j];
    }
    FindFirst(s, "\n", |tag|);
  }

  /** A fenced block: text, a fence with the rest of its line, the content, and another fence with what follows. */
  function Fenced(pre: string, tag: string, body: string, post: string): string {
    pre + (FENCE + (tag + (['\n'] + (body + (FENCE + post)))))
  }

  /** Stripping returns the body up to the first fence behind the opening line, which may be its own. */
  lemma StripsFence(pre: string, tag: string, body: string, post: string) returns (k: nat)
    requires FirstFence(pre + FENCE, |pre|) && OneLine(tag)
    ensures k <= |body| && FirstFence(body + FENCE, k) && StripCodeFences(Fenced(pre, tag, body, post)) == body[..k]
  {
    hide Find, FirstFence;
    assert |FENCE| == 3;
    var content := body + (FENCE + post);
    var after := tag + (['\n'] + content);
    var input := pre + (FENCE + after);
    FenceBefore(pre, after);
    OnlyFirst(input, |pre|);
    assert input[|pre| + 3..] == after;
    FindLine(tag, content);
    assert after[|tag| + 1..] == content;
    k := FenceWithin(body, post);
    OnlyFirst(content, k);
    assert content[..k] == body[..k];
  }

  lemma OnlyFirst(s: string, k: nat)
    requires FirstFence(s, k)
    ensures Find(s, FENCE) == Some(k)
  {
    hide Find, Ticks;
    FenceFound(s);
    match Find(s, FENCE) {
      case Some(i) => assert !(i < k) && !(k < i);
      case None =>
    }
  }

  /** What follows the fence after `s` does not move the first fence. */
  lemma FenceBefore(s: string, rest: string)
    requires FirstFence(s + FENCE, |s|)
    ensures FirstFence(s + (FENCE + rest), |s|)
  {
    assert s + (FENCE + rest) == (s + FENCE) + rest;
    forall j: nat | j <= |s|
      ensures Ticks((s + FENCE) + rest, j) <==> Ticks(s + FENCE, j)
    {
    }
  }

  lemma FenceWithin(body: string, post: string) returns (k: nat)
    ensures k <= |body| && FirstFence(body + FENCE, k) && FirstFence(body + (FENCE + post), k)
  {
    var closed := body + FENCE;
    assert Ticks(closed, |body|);
    FenceFound(closed);
    k := Find(closed, FENCE).value;
    assert !(|body| < k);
    assert body + (FENCE + post) == closed + post;
    forall j: nat | j <= k
      ensures Ticks(closed + post, j) <==> Ticks(closed, j)
    {
    }
  }

  // ---------------------------------------------------------------- extraction from a cut text

  lemma {:induction false} BalancedFits(input: string, open: char, close: char, i: nat, m: Matcher)
    requires i <= |input| && m.start <= i
    ensures var r := Balanced(input, open, close, i, m); r.Some? ==> |r.value| <= |input|
    decreases |input| - i
  {
    if i < |input| {
      var c := input[i];
      if m.inString {
        BalancedFits(input, open, close, i + 1, InsideString(m, c));
      } else if c == '"' {
        BalancedFits(input, open, close, i + 1, m.(inString := true));
      } else if c == open {
        BalancedFits(input, open, close, i + 1, m.(depth := m.depth + 1, start := if m.depth == 0 then i else m.start));
      } else if c == close && m.depth > 1 {
        BalancedFits(input, open, close, i + 1, m.(depth := m.depth - 1));
      } else {
        BalancedFits(input, open, close, i + 1, m);
      }
    }
  }

  /** What is found from `i` on is no longer than the text from there. */
  lemma {:induction false} ExtractedFits(input: string, i: nat, inString: bool, escape: bool)
    requires i <= |input|
    ensures var r := ExtractFrom(input, i, inString, escape); r.Some? ==> |r.value| <= |input| - i
    decreases |input| - i
  {
    if i < |input| {
      var c := input[i];
      if inString {
        ExtractedFits(input, i + 1, escape || c != '"', !escape && c == '\\');
      } else if c == '"' {
        ExtractedFits(input, i + 1, true, escape);
      } else {
        ExtractedFits(input, i + 1, false, escape);
        if c == '{' || c == '[' {
          BalancedFits(input[i..], c, Closing(c).value, 0, FRESH);
        }
      }
    }
  }

  /** In a beginning of a quiet text nothing is found. */
  lemma {:induction false} QuietSilent(input: string, i: nat, rest: string, inString: bool, escape: bool)
    requires i <= |input| && Quiet(input[i..] + rest, inString, escape)
    ensures ExtractFrom(input, i, inString, escape) == None
    decreases |input| - i
  {
    if i < |input| {
      var pre, c := input[i..] + rest, input[i];
      assert pre[0] == c && pre[1..] == input[i + 1..] + rest;
      if inString {
        QuietSilent(input, i + 1, rest, escape || c != '"', !escape && c == '\\');
      } else {
        QuietSilent(input, i + 1, rest, c == '"', escape);
      }
    }
  }

  /** A text that is cut inside the value behind a quiet prefix does not give the value. */
  lemma CutValueLost(lead: string, text: string, k: nat)
    requires Quiet(lead, false, false) && k < |lead + text|
    ensures Extract((lead + text)[..k]) != Some(text)
  {
    var cut := (lead + text)[..k];
    if k <= |lead| {
      assert cut[0..] + lead[k..] == lead;
      QuietSilent(cut, 0, lead[k..], false, false);
      assert Extract(cut) == None;
    } else {
      assert cut[0..0 + |lead|] == lead;
      QuietSkipped(cut, 0, lead, false, false);
      ExtractedFits(cut, |lead|, false, false);
    }
  }

  // ---------------------------------------------------------------- main theorems

  lemma ContainerEnds(v: Value)
    requires Valid(v) && Container(v)
    ensures TextOf(v) != [] && TextOf(v)[|TextOf(v)| - 1] != '`'
  {
  }

  /** A fence that starts before the end of `s`, whose last character is no backtick, lies within `s`. */
  lemma FenceInside(s: string, rest: string, j: nat)
    requires s != [] && s[|s| - 1] != '`' && j < |s|
    ensures Ticks(s + rest, j) <==> Ticks(s, j)
  {
  }

  /** Extraction from a body cut at its first fence gives the value exactly when the cut comes after the value. */
  lemma CutExactly(lead: string, v: Value, tail: string, k: nat)
    requires Quiet(lead, false, false) && Valid(v) && Container(v)
    requires k <= |lead + TextOf(v) + tail| && FirstFence(lead + TextOf(v) + tail + FENCE, k)
    ensures Extract((lead + TextOf(v) + tail)[..k]) == Some(TextOf(v)) <==> Unfenced(lead + TextOf(v))
  {
    hide Extract, Valid, TextOf, Quiet, Ticks;
    var block := lead + TextOf(v);
    var body := block + tail;
    ContainerEnds(v);
    assert block[|block| - 1] == TextOf(v)[|TextOf(v)| - 1];
    assert body + FENCE == block + (tail + FENCE);
    forall j: nat | j < |block|
      ensures Ticks(body + FENCE, j) <==> Ticks(block, j)
    {
      FenceInside(block, tail + FENCE, j);
    }
    if k < |block| {
      assert body[..k] == block[..k];
      CutValueLost(lead, TextOf(v), k);
    } else {
      assert body[..k] == lead + TextOf(v) + tail[..k - |block|];
      ExtractsEmbedded(lead, v, tail[..k - |block|]);
      TicksInside(block);
    }
  }

  /**
   * Exact condition: a value behind a quiet lead in a fenced block is recovered from the whole reply if and
   * only if no three backticks stand in the lead or in the value's own text.
   */
  lemma FencedExactly(pre: string, tag: string, lead: string, v: Value, tail: string, post: string)
    requires FirstFence(pre + FENCE, |pre|) && OneLine(tag)
    requires Quiet(lead, false, false) && Valid(v) && Container(v)
    ensures Extract(StripCodeFences(Fenced(pre, tag, lead + TextOf(v) + tail, post))) == Some(TextOf(v))
            <==> Unfenced(lead + TextOf(v))
  {
    hide Extract, StripCodeFences, Fenced, Valid, TextOf, Quiet, OneLine, FirstFence, Unfenced;
    var k := StripsFence(pre, tag, lead + TextOf(v) + tail, post);
    CutExactly(lead, v, tail, k);
  }

  /** The same for a fence with the rest of the reply in one line, where the language tag belongs to the lead. */
  lemma InlineExactly(pre: string, lead: string, v: Value, tail: string, post: string)
    requires FirstFence(pre + FENCE, |pre|) && OneLine(lead + TextOf(v) + tail + (FENCE + post))
    requires Quiet(lead, false, false) && Valid(v) && Container(v)
    ensures Extract(StripCodeFences(pre + (FENCE + (lead + TextOf(v) + tail + (FENCE + post))))) == Some(TextOf(v))
            <==> Unfenced(lead + TextOf(v))
  {
    hide Extract, StripCodeFences, Valid, TextOf, Quiet, OneLine, FirstFence, Unfenced;
    var k := StripsInline(pre, lead + TextOf(v) + tail, post);
    CutExactly(lead, v, tail, k);
  }

  lemma StripsInline(pre: string, body: string, post: string) returns (k: nat)
    requires FirstFence(pre + FENCE, |pre|) && OneLine(body + (FENCE + post))
    ensures k <= |body| && FirstFence(body + FENCE, k)
    ensures StripCodeFences(pre + (FENCE + (body + (FENCE + post)))) == body[..k]
  {
    hide Find, FirstFence;
    assert |FENCE| == 3;
    var after := body + (FENCE + post);
    var input := pre + (FENCE + after);
    FenceBefore(pre, after);
    OnlyFirst(input, |pre|);
    assert input[|pre| + 3..] == after;
    NoLine(after);
    k := FenceWithin(body, post);
    OnlyFirst(after, k);
    assert after[..k] == body[..k];
  }

  lemma NoLine(s: string)
    requires OneLine(s)
    ensures Find(s, "\n") == None
  {
    hide Find;
    FindExactly(s, "\n");
    forall j: nat
      ensures !At(s, "\n", j)
    {
      if j < |s| {
        assert s[j..][0] == s[j];
      }
    }
  }

  lemma TicksInside(s: string)
    ensures forall j: nat :: Ticks(s, j) ==> j < |s|
  {
  }

  /** Every unfenced value is recovered after this lead of a fenced block, whatever follows it in the block. */
  ghost predicate FencedRecovers(pre: string, tag: string, lead: string) {
    forall v, tail, post :: Valid(v) && Container(v) && Unfenced(lead + TextOf(v)) ==>
      Extract(StripCodeFences(Fenced(pre, tag, lead + TextOf(v) + tail, post))) == Some(TextOf(v))
  }

  /** Exact condition on the lead: fenced recovery never fails behind it if and only if it is quiet. */
  lemma FencedQuietExactly(pre: string, tag: string, lead: string)
    requires FirstFence(pre + FENCE, |pre|) && OneLine(tag) && Unfenced(lead)
    ensures FencedRecovers(pre, tag, lead) <==> Quiet(lead, false, false)
  {
    hide TextOf, Valid, Extract, StripCodeFences, Fenced, Quiet, FirstFence, OneLine, Unfenced, Ticks;
    if Quiet(lead, false, false) {
      forall v, tail, post | Valid(v) && Container(v) && Unfenced(lead + TextOf(v))
        ensures Extract(StripCodeFences(Fenced(pre, tag, lead + TextOf(v) + tail, post))) == Some(TextOf(v))
      {
        FencedExactly(pre, tag, lead, v, tail, post);
      }
    } else {
      assert lead[0..] == lead;
      var v, tail := Hides(lead, 0, false, false);
      ExtractStarts(lead + TextOf(v) + tail);
      ContainerEnds(v);
      StaysUnfenced(lead, TextOf(v), tail);
      LostInFence(pre, tag, lead + TextOf(v) + tail, TextOf(v));
    }
  }

  lemma StaysUnfenced(lead: string, text: string, tail: string)
    requires Unfenced(lead) && text != [] && '`' !in text && '`' !in tail
    ensures Unfenced(lead + text) && FirstFence(lead + text + tail + FENCE, |lead + text + tail|)
  {
    var body := lead + text + tail;
    forall j: nat | j < |body|
      ensures !Ticks(body + FENCE, j) && !Ticks(lead + text, j)
    {
      if j < |lead| {
        assert !Ticks(lead, j);
        assert body[|lead|] == text[0];
      } else {
        assert body[j] in text || body[j] in tail;
      }
    }
  }

  lemma LostInFence(pre: string, tag: string, body: string, text: string)
    requires FirstFence(pre + FENCE, |pre|) && OneLine(tag) && FirstFence(body + FENCE, |body|)
    requires Extract(body) != Some(text)
    ensures Extract(StripCodeFences(Fenced(pre, tag, body, ""))) != Some(text)
  {
    hide Extract, StripCodeFences, Fenced, OneLine, Ticks;
    var k := StripsFence(pre, tag, body, "");
    assert k == |body| by { assert !(k < |body|); }
    assert body[..k] == body;
  }

  /** A reply without a fence, or with one that nothing closes, stays as it is. */
  lemma KeepsUnclosed(pre: string, after: string)
    requires FirstFence(pre + FENCE, |pre|) && Unfenced(after)
    ensures StripCodeFences(pre + (FENCE + after)) == pre + (FENCE + after)
    ensures StripCodeFences(after) == after
  {
    hide Find, FirstFence, Ticks;
    assert |FENCE| == 3;
    var input := pre + (FENCE + after);
    FenceBefore(pre, after);
    OnlyFirst(input, |pre|);
    assert input[|pre| + 3..] == after;
    forall i: nat | i <= |after|
      ensures Find(after[i..], FENCE) == None
    {
      SuffixUnfenced(after, i);
      NoneFound(after[i..]);
    }
    assert after[0..] == after;
    FindExactly(after, "\n");
  }

  lemma SuffixUnfenced(s: string, i: nat)
    requires Unfenced(s) && i <= |s|
    ensures Unfenced(s[i..])
  {
    forall j: nat
      ensures !Ticks(s[i..], j)
    {
      assert !Ticks(s, i + j);
    }
  }

  lemma NoneFound(s: string)
    requires Unfenced(s)
    ensures Find(s, FENCE) == None
  {
    hide Find, Ticks;
    FenceFound(s);
  }

  /** The shortest kind of value that its own fence cuts: an array of one string of three backticks. */
  lemma BackticksCutTheValue()
    ensures var v := Array("", [Item("", Text([Plain('`'), Plain('`'), Plain('`')]), "")]);
            && Valid(v) && TextOf(v) == "[\"```\"]"
            && Extract(StripCodeFences(Fenced("", "json", "" + TextOf(v) + "\n", ""))) != Some(TextOf(v))
  {
    var chars := [Plain('`'), Plain('`'), Plain('`')];
    TicksText();
    var item := Item("", Text(chars), "");
    var v := Array("", [item]);
    OneItemText(item);
    assert TextOf(v) == ['['] + StringText(chars) + [']'] == "[\"```\"]";
    assert Ticks("" + TextOf(v), 2);
    assert "" + FENCE == FENCE && Ticks("" + FENCE, 0);
    FencedExactly("", "json", "", v, "\n", "");
  }

  lemma TicksText()
    ensures StringText([Plain('`'), Plain('`'), Plain('`')]) == "\"```\""
  {
    var chars := [Plain('`'), Plain('`'), Plain('`')];
    assert chars[1..] == [Plain('`'), Plain('`')] && chars[1..][1..] == [Plain('`')] && chars[1..][1..][1..] == [];
    assert CharsText(chars) == "```";
  }

  lemma OneItemText(item: Item)
    ensures TextOf(Array("", [item])) == ['['] + (item.before + TextOf(item.value) + item.after) + [']']
  {
    assert ItemsText([item]) == ItemText(item);
  }
}
