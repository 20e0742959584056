/** The string operations of the standard library that the repository's decisions rest on. */
module Text {
  /** The characters with the Unicode White_Space property. */
  predicate IsSpace(c: char) {
    || '\U{9}' <= c <= '\U{D}'
    || c == ' ' || c == '\U{85}' || c == '\U{A0}' || c == '\U{1680}'
    || '\U{2000}' <= c <= '\U{200A}'
    || c == '\U{2028}' || c == '\U{2029}' || c == '\U{202F}' || c == '\U{205F}' || c == '\U{3000}'
  }

  function TrimStart(s: string): string {
    if s != [] && IsSpace(s[0]) then TrimStart(s[1..]) else s
  }

  function TrimEnd(s: string): string {
    if s != [] && IsSpace(s[|s| - 1]) then TrimEnd(s[..|s| - 1]) else s
  }

  function Trim(s: string): string {
    TrimEnd(TrimStart(s))
  }

  predicate IsBlank(s: string) {
    Trim(s) == []
  }

  /** `p` occurs somewhere in `s`. */
  predicate Contains(s: string, p: string) {
    p <= s || (s != [] && Contains(s[1..], p))
  }

  /** `p` stands at some position of `s`. */
  ghost predicate Occurs(s: string, p: string) {
    exists k :: 0 <= k <= |s| && p <= s[k..]
  }

  lemma {:induction false} ContainsExactly(s: string, p: string)
    ensures Contains(s, p) <==> Occurs(s, p)
  {
    assert s[0..] == s;
    if s != [] {
      ContainsExactly(s[1..], p);
      if Contains(s[1..], p) {
        var k :| 0 <= k <= |s[1..]| && p <= s[1..][k..];
        assert s[k + 1..] == s[1..][k..];
      }
      if k :| 1 <= k <= |s| && p <= s[k..] {
        assert s[1..][k - 1..] == s[k..];
      }
    }
  }

  ghost predicate AllSpace(s: string) {
    forall i :: 0 <= i < |s| ==> IsSpace(s[i])
  }

  /** Trimming takes white space off both ends and leaves none there. */
  lemma TrimExactly(s: string) returns (before: string, after: string)
    ensures s == before + Trim(s) + after && AllSpace(before) && AllSpace(after)
    ensures Trim(s) != [] ==> !IsSpace(Trim(s)[0]) && !IsSpace(Trim(s)[|Trim(s)| - 1])
  {
    before := TrimStartExactly(s);
    after := TrimEndExactly(TrimStart(s));
    assert Trim(s) != [] ==> Trim(s)[0] == TrimStart(s)[0];
  }

  lemma {:induction false} TrimStartExactly(s: string) returns (before: string)
    ensures s == before + TrimStart(s) && AllSpace(before)
    ensures TrimStart(s) != [] ==> !IsSpace(TrimStart(s)[0])
  {
    before := [];
    if s != [] && IsSpace(s[0]) {
      var more := TrimStartExactly(s[1..]);
      before := [s[0]] + more;
    }
  }

  lemma {:induction false} TrimEndExactly(s: string) returns (after: string)
    ensures s == TrimEnd(s) + after && AllSpace(after)
    ensures TrimEnd(s) != [] ==> !IsSpace(TrimEnd(s)[|TrimEnd(s)| - 1])
  {
    after := [];
    if s != [] && IsSpace(s[|s| - 1]) {
      var more := TrimEndExactly(s[..|s| - 1]);
      after := more + [s[|s| - 1]];
    }
  }

  lemma BlankExactly(s: string)
    ensures IsBlank(s) <==> AllSpace(s)
  {
    var before, after := TrimExactly(s);
    assert Trim(s) != [] ==> s[|before|] == Trim(s)[0];
  }

  predicate ContainsAny(s: string, needles: seq<string>) {
    exists i :: 0 <= i < |needles| && Contains(s, needles[i])
  }

  function Join(parts: seq<string>, sep: string): string {
    if parts == [] then []
    else if |parts| == 1 then parts[0]
    else parts[0] + sep + Join(parts[1..], sep)
  }

  /** Every occurrence of `pattern`, scanned left to right, replaced by `value`. */
  function Replace(s: string, pattern: string, value: string): string
    requires pattern != []
  {
    if |s| < |pattern| then s
    else if pattern <= s then value + Replace(s[|pattern|..], pattern, value)
    else [s[0]] + Replace(s[1..], pattern, value)
  }

  lemma ReplaceStep(s: string, pattern: string, value: string)
    requires pattern != [] && s != [] && !(pattern <= s)
    ensures Replace(s, pattern, value) == [s[0]] + Replace(s[1..], pattern, value)
  {
  }

  /** Replacing takes the leftmost occurrence, and goes on behind it. */
  lemma {:induction false} ReplaceLeftmost(s: string, pattern: string, value: string, k: nat)
    requires pattern != [] && k + |pattern| <= |s| && pattern <= s[k..]
    requires forall j :: 0 <= j < k ==> !(pattern <= s[j..])
    ensures Replace(s, pattern, value) == s[..k] + value + Replace(s[k + |pattern|..], pattern, value)
  {
    hide Replace;
    assert s[0..] == s && s[..0] == [];
    if k == 0 {
      ReplaceHit(s, pattern, value);
    } else {
      var t := s[1..];
      ReplaceStep(s, pattern, value);
      forall j | 0 <= j < k - 1
        ensures !(pattern <= t[j..])
      {
        assert t[j..] == s[j + 1..];
      }
      assert t[k - 1..] == s[k..];
      ReplaceLeftmost(t, pattern, value, k - 1);
      var behind := Replace(s[k + |pattern|..], pattern, value);
      assert t[k - 1 + |pattern|..] == s[k + |pattern|..];
      assert s[..k] == [s[0]] + t[..k - 1];
      assert [s[0]] + (t[..k - 1] + value + behind) == s[..k] + value + behind;
    }
  }

  lemma ReplaceHit(s: string, pattern: string, value: string)
    requires pattern != [] && pattern <= s
    ensures Replace(s, pattern, value) == value + Replace(s[|pattern|..], pattern, value)
  {
  }

  /** Where the pattern does not occur nothing changes. */
  lemma {:induction false} ReplaceNothing(s: string, pattern: string, value: string)
    requires pattern != [] && !Contains(s, pattern)
    ensures Replace(s, pattern, value) == s
  {
    if s != [] {
      ReplaceNothing(s[1..], pattern, value);
    }
  }
}
