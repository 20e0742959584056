/** The text and tag normalisations that every stored record passes through. */
module Normalization {
  import opened Text

  // ---------------------------------------------------------------- white space

  function WordLength(s: string): (n: nat)
    ensures n <= |s|
    ensures forall i :: 0 <= i < n ==> !IsSpace(s[i])
    ensures n < |s| ==> IsSpace(s[n])
  {
    if s == [] || IsSpace(s[0]) then 0 else 1 + WordLength(s[1..])
  }

  /** The maximal runs of characters that are not white space. */
  function Words(s: string): seq<string>
    decreases |s|
  {
    if s == [] then []
    else if IsSpace(s[0]) then Words(s[1..])
    else [s[..WordLength(s)]] + Words(s[WordLength(s)..])
  }

  function NormalizeWhitespace(s: string): string {
    Join(Words(s), " ")
  }

  predicate IsWord(w: string) {
    w != [] && forall i :: 0 <= i < |w| ==> !IsSpace(w[i])
  }

  predicate AreWords(ws: seq<string>) {
    forall i :: 0 <= i < |ws| ==> IsWord(ws[i])
  }

  /** Single blanks only, and none at either end. */
  predicate Settled(s: string) {
    forall i :: 0 <= i < |s| && IsSpace(s[i]) ==> s[i] == ' ' && 0 < i < |s| - 1 && !IsSpace(s[i + 1])
  }

  lemma {:induction false} WordsAreWords(s: string)
    ensures AreWords(Words(s))
    decreases |s|
  {
    if s != [] {
      WordsAreWords(if IsSpace(s[0]) then s[1..] else s[WordLength(s)..]);
    }
  }

  lemma {:induction false} WordLengthOf(w: string, rest: string)
    requires forall i :: 0 <= i < |w| ==> !IsSpace(w[i])
    requires rest != [] ==> IsSpace(rest[0])
    ensures WordLength(w + rest) == |w|
    decreases |w|
  {
    if w == [] {
      assert w + rest == rest;
    } else {
      assert (w + rest)[1..] == w[1..] + rest;
      WordLengthOf(w[1..], rest);
    }
  }

  /** Splitting undoes joining. */
  lemma {:induction false} WordsOfJoin(ws: seq<string>)
    requires AreWords(ws)
    ensures Words(Join(ws, " ")) == ws
    decreases |ws|
  {
    if ws != [] {
      var w := ws[0];
      var rest := if |ws| == 1 then [] else " " + Join(ws[1..], " ");
      assert Join(ws, " ") == w + rest;
      WordLengthOf(w, rest);
      assert (w + rest)[..|w|] == w && (w + rest)[|w|..] == rest;
      if |ws| > 1 {
        assert rest[1..] == Join(ws[1..], " ");
        WordsOfJoin(ws[1..]);
      }
      assert ws == [w] + ws[1..];
    }
  }

  /** Normalising again changes nothing. */
  lemma NormalizeTwice(s: string)
    ensures NormalizeWhitespace(NormalizeWhitespace(s)) == NormalizeWhitespace(s)
  {
    WordsAreWords(s);
    WordsOfJoin(Words(s));
  }

  lemma {:induction false} NormalizeShrinks(s: string)
    ensures |NormalizeWhitespace(s)| <= |s|
    decreases |s|
  {
    if s != [] {
      var n := WordLength(s);
      var rest := if IsSpace(s[0]) then s[1..] else s[n..];
      NormalizeShrinks(rest);
      if !IsSpace(s[0]) && Words(rest) != [] {
        assert Join([s[..n]] + Words(rest), " ") == s[..n] + " " + Join(([s[..n]] + Words(rest))[1..], " ");
        assert ([s[..n]] + Words(rest))[1..] == Words(rest);
        assert rest != [] && IsSpace(rest[0]);
        NormalizeShrinks(rest[1..]);
      }
    }
  }

  /** The characters of a text that are not white space. */
  function Ink(s: string): string {
    if s == [] then [] else (if IsSpace(s[0]) then [] else [s[0]]) + Ink(s[1..])
  }

  lemma {:induction false} InkConcat(a: string, b: string)
    ensures Ink(a + b) == Ink(a) + Ink(b)
  {
    if a == [] {
      assert a + b == b;
    } else {
      assert (a + b)[1..] == a[1..] + b;
      InkConcat(a[1..], b);
    }
  }

  lemma {:induction false} InkOfWord(w: string)
    requires forall i :: 0 <= i < |w| ==> !IsSpace(w[i])
    ensures Ink(w) == w
  {
    if w != [] {
      InkOfWord(w[1..]);
    }
  }

  /** The concatenation of the words. */
  function Glue(ws: seq<string>): string {
    if ws == [] then [] else ws[0] + Glue(ws[1..])
  }

  lemma {:induction false} InkOfJoin(ws: seq<string>)
    requires AreWords(ws)
    ensures Ink(Join(ws, " ")) == Glue(ws)
  {
    if ws != [] {
      assert IsWord(ws[0]);
      InkOfWord(ws[0]);
      if |ws| > 1 {
        InkOfJoin(ws[1..]);
        InkAcrossBlank(ws[0], Join(ws[1..], " "));
      } else {
        assert ws[1..] == [];
      }
    }
  }

  lemma InkAcrossBlank(a: string, b: string)
    ensures Ink(a + " " + b) == Ink(a) + Ink(b)
  {
    InkConcat(a + " ", b);
    InkConcat(a, " ");
    assert " "[1..] == [];
  }

  lemma {:induction false} InkOfText(s: string)
    ensures Ink(s) == Glue(Words(s))
    decreases |s|
  {
    if s != [] {
      if IsSpace(s[0]) {
        InkOfText(s[1..]);
      } else {
        var n := WordLength(s);
        assert s == s[..n] + s[n..];
        InkConcat(s[..n], s[n..]);
        InkOfWord(s[..n]);
        InkOfText(s[n..]);
        assert ([s[..n]] + Words(s[n..]))[1..] == Words(s[n..]);
      }
    }
  }

  /** Normalising loses and reorders no visible character. */
  lemma NormalizeKeepsInk(s: string)
    ensures Ink(NormalizeWhitespace(s)) == Ink(s)
  {
    WordsAreWords(s);
    InkOfJoin(Words(s));
    InkOfText(s);
  }

  /** For each visible character, whether it follows white space or begins the text. */
  function Starts(s: string, apart: bool): seq<bool> {
    if s == [] then [] else if IsSpace(s[0]) then Starts(s[1..], true) else [apart] + Starts(s[1..], false)
  }

  /** What the words say about it: only their first characters do. */
  function WordStarts(ws: seq<string>): seq<bool> {
    if ws == [] then [] else Starts(ws[0], true) + WordStarts(ws[1..])
  }

  lemma {:induction false} StartsAfterWord(w: string, rest: string, apart: bool)
    requires forall i :: 0 <= i < |w| ==> !IsSpace(w[i])
    requires rest != [] ==> IsSpace(rest[0])
    ensures Starts(w + rest, apart) == Starts(w, apart) + Starts(rest, true)
  {
    if w == [] {
      assert w + rest == rest;
    } else {
      assert (w + rest)[1..] == w[1..] + rest;
      StartsAfterWord(w[1..], rest, false);
    }
  }

  lemma {:induction false} StartsOfText(s: string)
    ensures Starts(s, true) == WordStarts(Words(s))
    decreases |s|
  {
    if s != [] {
      if IsSpace(s[0]) {
        StartsOfText(s[1..]);
      } else {
        var n := WordLength(s);
        assert s == s[..n] + s[n..];
        StartsAfterWord(s[..n], s[n..], true);
        StartsOfText(s[n..]);
        assert ([s[..n]] + Words(s[n..]))[1..] == Words(s[n..]);
      }
    }
  }

  /** Normalising keeps the words: a visible character begins a word afterwards if and only if it did before. */
  lemma NormalizeKeepsWords(s: string)
    ensures Starts(NormalizeWhitespace(s), true) == Starts(s, true)
  {
    WordsAreWords(s);
    WordsOfJoin(Words(s));
    StartsOfText(s);
    StartsOfText(NormalizeWhitespace(s));
  }

  // Normalising fixes exactly the settled texts.

  lemma {:induction false} JoinSettled(ws: seq<string>)
    requires AreWords(ws)
    ensures Settled(Join(ws, " "))
    ensures ws != [] ==> Join(ws, " ") != [] && !IsSpace(Join(ws, " ")[0])
    decreases |ws|
  {
    if |ws| > 1 {
      JoinSettled(ws[1..]);
      SettledAppend(ws[0], Join(ws[1..], " "));
    } else if |ws| == 1 {
      assert IsWord(ws[0]);
    }
  }

  lemma SettledAppend(w: string, t: string)
    requires IsWord(w) && Settled(t) && t != [] && !IsSpace(t[0])
    ensures Settled(w + " " + t)
  {
    var s := w + " " + t;
    forall i | 0 <= i < |s| && IsSpace(s[i])
      ensures s[i] == ' ' && 0 < i < |s| - 1 && !IsSpace(s[i + 1])
    {
      if i > |w| {
        assert s[i] == t[i - |w| - 1];
      }
    }
  }

  lemma {:induction false} SettledIsFixed(s: string)
    requires Settled(s)
    ensures NormalizeWhitespace(s) == s
    decreases |s|
  {
    if s != [] {
      var n := WordLength(s);
      var rest := s[n..];
      if rest == [] {
        assert s[..n] == s;
        assert Words(s) == [s];
      } else {
        var tail := s[n + 1..];
        SettledTail(s, n);
        SettledIsFixed(tail);
        assert rest[1..] == tail;
        assert Words(s) == [s[..n]] + Words(tail);
        assert Words(tail) != [];
        assert ([s[..n]] + Words(tail))[1..] == Words(tail);
        assert s == s[..n] + " " + tail;
      }
    }
  }

  lemma SettledTail(s: string, n: nat)
    requires Settled(s) && n < |s| && IsSpace(s[n])
    ensures s[n] == ' ' && n + 1 < |s| && Settled(s[n + 1..])
  {
    var t := s[n + 1..];
    forall i | 0 <= i < |t| && IsSpace(t[i])
      ensures t[i] == ' ' && 0 < i < |t| - 1 && !IsSpace(t[i + 1])
    {
      assert t[i] == s[n + 1 + i];
    }
  }

  lemma FixedIffSettled(s: string)
    ensures NormalizeWhitespace(s) == s <==> Settled(s)
  {
    WordsAreWords(s);
    JoinSettled(Words(s));
    if Settled(s) {
      SettledIsFixed(s);
    }
  }

  // ---------------------------------------------------------------- tags

  /** The code-point order of strings. */
  predicate Below(a: string, b: string) {
    if a == [] then b != []
    else b != [] && (a[0] < b[0] || (a[0] == b[0] && Below(a[1..], b[1..])))
  }

  function Trimmed(tags: seq<string>): seq<string> {
    if tags == [] then []
    else if IsBlank(tags[0]) then Trimmed(tags[1..])
    else [Trim(tags[0])] + Trimmed(tags[1..])
  }

  function InsertTag(tag: string, sorted: seq<string>): seq<string> {
    if sorted == [] || Below(tag, sorted[0]) then [tag] + sorted else [sorted[0]] + InsertTag(tag, sorted[1..])
  }

  function SortTags(tags: seq<string>): seq<string> {
    if tags == [] then [] else InsertTag(tags[0], SortTags(tags[1..]))
  }

  /** Drops every element equal to its predecessor. */
  function Dedup(tags: seq<string>): seq<string> {
    if |tags| < 2 then tags
    else if tags[0] == tags[1] then Dedup(tags[1..])
    else [tags[0]] + Dedup(tags[1..])
  }

  function NormalizeTags(tags: seq<string>): seq<string> {
    Dedup(SortTags(Trimmed(tags)))
  }

  predicate Ascending(tags: seq<string>) {
    forall i :: 0 < i < |tags| ==> Below(tags[i - 1], tags[i])
  }

  predicate Weakly(tags: seq<string>) {
    forall i :: 0 < i < |tags| ==> !Below(tags[i], tags[i - 1])
  }

  predicate Clean(tag: string) {
    tag != [] && Trim(tag) == tag
  }

  predicate AllClean(tags: seq<string>) {
    forall i :: 0 <= i < |tags| ==> Clean(tags[i])
  }

  lemma {:induction false} BelowStrict(a: string, b: string)
    ensures !(Below(a, b) && Below(b, a))
    ensures Below(a, b) || a == b || Below(b, a)
    ensures !Below(a, a)
    decreases |a|
  {
    if a != [] {
      BelowStrict(a[1..], a[1..]);
      if b != [] {
        BelowStrict(a[1..], b[1..]);
        if a[0] == b[0] && a[1..] == b[1..] {
          assert a == [a[0]] + a[1..] && b == [b[0]] + b[1..];
        }
      }
    }
  }

  lemma {:induction false} TrimIdempotent(s: string)
    ensures Trim(Trim(s)) == Trim(s)
  {
    TrimStartBare(s);
    TrimEndKeepsHead(TrimStart(s));
    TrimEndTwice(TrimStart(s));
  }

  lemma {:induction false} TrimStartBare(s: string)
    ensures TrimStart(s) != [] ==> !IsSpace(TrimStart(s)[0])
  {
    if s != [] {
      TrimStartBare(s[1..]);
    }
  }

  lemma {:induction false} TrimEndKeepsHead(s: string)
    ensures TrimEnd(s) != [] ==> s != [] && TrimEnd(s)[0] == s[0]
    decreases |s|
  {
    if s != [] {
      TrimEndKeepsHead(s[..|s| - 1]);
    }
  }

  lemma {:induction false} TrimEndTwice(s: string)
    ensures TrimEnd(TrimEnd(s)) == TrimEnd(s)
    decreases |s|
  {
    if s != [] {
      TrimEndTwice(s[..|s| - 1]);
    }
  }

  lemma {:induction false} TrimmedClean(tags: seq<string>)
    ensures AllClean(Trimmed(tags))
  {
    if tags != [] {
      TrimmedClean(tags[1..]);
      TrimIdempotent(tags[0]);
    }
  }

  lemma {:induction false} InsertTagKeeps(tag: string, sorted: seq<string>)
    requires AllClean(sorted) && Clean(tag) && Weakly(sorted)
    ensures AllClean(InsertTag(tag, sorted)) && Weakly(InsertTag(tag, sorted))
    ensures InsertTag(tag, sorted)[0] == tag || (sorted != [] && InsertTag(tag, sorted)[0] == sorted[0])
  {
    if sorted != [] {
      BelowStrict(tag, sorted[0]);
      if !Below(tag, sorted[0]) {
        InsertTagKeeps(tag, sorted[1..]);
      }
    }
  }

  lemma {:induction false} SortTagsKeeps(tags: seq<string>)
    requires AllClean(tags)
    ensures AllClean(SortTags(tags)) && Weakly(SortTags(tags))
  {
    if tags != [] {
      SortTagsKeeps(tags[1..]);
      InsertTagKeeps(tags[0], SortTags(tags[1..]));
    }
  }

  lemma {:induction false} DedupAscending(tags: seq<string>)
    requires AllClean(tags) && Weakly(tags)
    ensures AllClean(Dedup(tags)) && Ascending(Dedup(tags))
    ensures tags != [] ==> Dedup(tags) != [] && Dedup(tags)[0] == tags[0]
  {
    if |tags| >= 2 {
      DedupAscending(tags[1..]);
      BelowStrict(tags[0], tags[1]);
    }
  }

  lemma NormalizedTags(tags: seq<string>)
    ensures AllClean(NormalizeTags(tags)) && Ascending(NormalizeTags(tags))
  {
    TrimmedClean(tags);
    SortTagsKeeps(Trimmed(tags));
    DedupAscending(SortTags(Trimmed(tags)));
  }

  lemma {:induction false} TrimmedExactly(tags: seq<string>, t: string)
    ensures t in Trimmed(tags) <==> exists i :: 0 <= i < |tags| && !IsBlank(tags[i]) && Trim(tags[i]) == t
  {
    hide IsBlank, Trim;
    if tags != [] {
      TrimmedExactly(tags[1..], t);
      assert forall i :: 0 < i < |tags| ==> tags[i] == tags[1..][i - 1];
      assert tags == [tags[0]] + tags[1..];
    }
  }

  lemma {:induction false} InsertTagHas(tag: string, sorted: seq<string>, t: string)
    ensures t in InsertTag(tag, sorted) <==> t == tag || t in sorted
  {
    hide Below;
    if sorted != [] && !Below(tag, sorted[0]) {
      InsertTagHas(tag, sorted[1..], t);
      assert sorted == [sorted[0]] + sorted[1..];
    }
  }

  lemma {:induction false} SortTagsHas(tags: seq<string>, t: string)
    ensures t in SortTags(tags) <==> t in tags
  {
    if tags != [] {
      SortTagsHas(tags[1..], t);
      InsertTagHas(tags[0], SortTags(tags[1..]), t);
      assert tags == [tags[0]] + tags[1..];
    }
  }

  lemma {:induction false} DedupHas(tags: seq<string>, t: string)
    ensures t in Dedup(tags) <==> t in tags
  {
    if |tags| >= 2 {
      DedupHas(tags[1..], t);
      assert tags == [tags[0]] + tags[1..];
    }
  }

  /** The stored tags are the given ones, trimmed and without the blank ones, each once and in ascending order. */
  lemma NormalizeTagsExactly(tags: seq<string>)
    ensures Ascending(NormalizeTags(tags))
    ensures forall t :: t in NormalizeTags(tags) <==> exists i :: 0 <= i < |tags| && !IsBlank(tags[i]) && Trim(tags[i]) == t
  {
    NormalizedTags(tags);
    hide IsBlank, Trim;
    forall t
      ensures t in NormalizeTags(tags) <==> exists i :: 0 <= i < |tags| && !IsBlank(tags[i]) && Trim(tags[i]) == t
    {
      DedupHas(SortTags(Trimmed(tags)), t);
      SortTagsHas(Trimmed(tags), t);
      TrimmedExactly(tags, t);
    }
  }

  lemma {:induction false} FixedTags(tags: seq<string>)
    requires AllClean(tags) && Ascending(tags)
    ensures Trimmed(tags) == tags && SortTags(tags) == tags && Dedup(tags) == tags
  {
    if tags != [] {
      FixedTags(tags[1..]);
      assert tags == [tags[0]] + tags[1..];
      assert Clean(tags[0]);
      if |tags| > 1 {
        assert Below(tags[0], tags[1]);
        BelowStrict(tags[0], tags[1]);
      }
    }
  }

  /** Stored tags are fixed points: sorted strictly, trimmed, none blank. */
  lemma NormalizeTagsTwice(tags: seq<string>)
    ensures NormalizeTags(NormalizeTags(tags)) == NormalizeTags(tags)
  {
    NormalizedTags(tags);
    FixedTags(NormalizeTags(tags));
  }
}
