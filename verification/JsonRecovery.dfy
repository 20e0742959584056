/** Extraction returns exactly the embedded value. */
module JsonRecovery {
  import opened Common
  import opened JsonText
  import opened JsonExtraction

  // ---------------------------------------------------------------- the matcher as an automaton

  /** The matcher's state below its first bracket; `Closed` once that bracket is closed. */
  datatype Mode = InString(escape: bool, depth: nat) | Outside(depth: nat) | Closed

  function Advance(open: char, close: char, m: Mode, c: char): Mode {
    match m
    case Closed => Closed
    case InString(escape, d) =>
      if escape then InString(false, d)
      else if c == '\\' then InString(true, d)
      else if c == '"' then Outside(d)
      else m
    case Outside(d) =>
      if c == '"' then InString(false, d)
      else if c == open then Outside(d + 1)
      else if c == close && d > 0 then (if d == 1 then Closed else Outside(d - 1))
      else m
  }

  function Run(open: char, close: char, m: Mode, s: string): Mode
    decreases |s|
  {
    if s == [] then m else Run(open, close, Advance(open, close, m, s[0]), s[1..])
  }

  /** The bracket kinds the scanner starts at. */
  predicate Pair(open: char, close: char) {
    (open == '{' && close == '}') || (open == '[' && close == ']')
  }

  lemma {:induction false} RunConcat(open: char, close: char, m: Mode, s: string, t: string)
    ensures Run(open, close, m, s + t) == Run(open, close, Run(open, close, m, s), t)
    decreases |s|
  {
    if s == [] {
      assert s + t == t;
    } else {
      assert (s + t)[1..] == s[1..] + t;
      RunConcat(open, close, Advance(open, close, m, s[0]), s[1..], t);
    }
  }

  predicate Inert(c: char) {
    c != '"' && c != '{' && c != '}' && c != '[' && c != ']'
  }

  lemma {:induction false} InertRun(open: char, close: char, d: nat, s: string)
    requires Pair(open, close) && forall i :: 0 <= i < |s| ==> Inert(s[i])
    ensures Run(open, close, Outside(d), s) == Outside(d)
  {
    if s != [] {
      InertRun(open, close, d, s[1..]);
    }
  }

  lemma CharRun(open: char, close: char, d: nat, c: StringChar)
    requires ValidChar(c)
    ensures Run(open, close, InString(false, d), CharText(c)) == InString(false, d)
  {
    var s := CharText(c);
    match c {
      case Plain(p) =>
        assert s[1..] == [];
      case Escaped(e) =>
        assert s[1..] == [e] && [e][1..] == [];
        assert Run(open, close, InString(true, d), [e]) == Run(open, close, InString(false, d), []);
      case Unicode(h0, h1, h2, h3) =>
        assert s == ['\\', 'u'] + [h0, h1, h2, h3];
        RunConcat(open, close, InString(false, d), ['\\', 'u'], [h0, h1, h2, h3]);
        HexRun(open, close, d, [h0, h1, h2, h3]);
        assert ['\\', 'u'][1..] == ['u'] && ['u'][1..] == [];
    }
  }

  lemma {:induction false} HexRun(open: char, close: char, d: nat, s: string)
    requires forall i :: 0 <= i < |s| ==> IsHex(s[i])
    ensures Run(open, close, InString(false, d), s) == InString(false, d)
  {
    if s != [] {
      HexRun(open, close, d, s[1..]);
    }
  }

  lemma {:induction false} CharsRun(open: char, close: char, d: nat, chars: seq<StringChar>)
    requires ValidString(chars)
    ensures Run(open, close, InString(false, d), CharsText(chars)) == InString(false, d)
  {
    if chars != [] {
      CharRun(open, close, d, chars[0]);
      CharsRun(open, close, d, chars[1..]);
      RunConcat(open, close, InString(false, d), CharText(chars[0]), CharsText(chars[1..]));
    }
  }

  /** A string literal leaves the matcher where it was, whatever brackets it holds. */
  lemma StringRun(open: char, close: char, d: nat, chars: seq<StringChar>)
    requires Pair(open, close) && ValidString(chars)
    ensures Run(open, close, Outside(d), StringText(chars)) == Outside(d)
  {
    var body := CharsText(chars);
    CharsRun(open, close, d, chars);
    assert StringText(chars)[1..] == body + ['"'];
    RunConcat(open, close, InString(false, d), body, ['"']);
    assert ['"'][1..] == [];
  }

  lemma NumberRun(open: char, close: char, d: nat, n: Number)
    requires Pair(open, close) && ValidNumber(n)
    ensures Run(open, close, Outside(d), NumberText(n)) == Outside(d)
  {
    forall i | 0 <= i < |NumberText(n)|
      ensures Inert(NumberText(n)[i])
    {
      NumberInert(n, NumberText(n)[i]);
    }
    InertRun(open, close, d, NumberText(n));
  }

  lemma NumberInert(n: Number, c: char)
    requires ValidNumber(n) && c in NumberText(n)
    ensures Inert(c)
  {
    if c in n.fraction && c != '.' {
      assert c in n.fraction[1..];
    } else if c in n.exponent {
      assert n.exponent == [n.exponent[0], n.exponent[1]] + n.exponent[2..];
    }
  }

  lemma WsRun(open: char, close: char, d: nat, s: string)
    requires Pair(open, close) && IsWs(s)
    ensures Run(open, close, Outside(d), s) == Outside(d)
  {
    InertRun(open, close, d, s);
  }

  // ---------------------------------------------------------------- values are balanced

  /** Below the first bracket, a whole value leaves the matcher at the depth where it met it. */
  lemma {:induction false} ValueRun(open: char, close: char, d: nat, v: Value)
    requires Pair(open, close) && Valid(v) && d >= 1
    ensures Run(open, close, Outside(d), TextOf(v)) == Outside(d)
    decreases v, 1
  {
    match v {
      case True => InertRun(open, close, d, "true");
      case False => InertRun(open, close, d, "false");
      case Null => InertRun(open, close, d, "null");
      case Numeral(n) => NumberRun(open, close, d, n);
      case Text(chars) => StringRun(open, close, d, chars);
      case Array(lead, items) =>
        var inner := if open == '[' then d + 1 else d;
        WsRun(open, close, inner, lead);
        ItemsRun(open, close, inner, items);
        RunConcat(open, close, Outside(inner), lead, ItemsText(items));
        BracketRun(open, close, d, '[', lead + ItemsText(items), ']');
      case Object(lead, members) =>
        var inner := if open == '{' then d + 1 else d;
        WsRun(open, close, inner, lead);
        MembersRun(open, close, inner, members);
        RunConcat(open, close, Outside(inner), lead, MembersText(members));
        BracketRun(open, close, d, '{', lead + MembersText(members), '}');
    }
  }

  lemma BracketRun(open: char, close: char, d: nat, left: char, body: string, right: char)
    requires Pair(open, close) && Pair(left, right) && d >= 1
    requires var inner := if open == left then d + 1 else d; Run(open, close, Outside(inner), body) == Outside(inner)
    ensures Run(open, close, Outside(d), [left] + body + [right]) == Outside(d)
  {
    var inner := if open == left then d + 1 else d;
    assert ([left] + body + [right])[1..] == body + [right];
    RunConcat(open, close, Outside(inner), body, [right]);
    assert [right][1..] == [];
  }

  lemma {:induction false} ItemsRun(open: char, close: char, d: nat, items: seq<Item>)
    requires Pair(open, close) && d >= 1 && forall i :: 0 <= i < |items| ==> ValidItem(items[i])
    ensures Run(open, close, Outside(d), ItemsText(items)) == Outside(d)
    decreases items, 0
  {
    if items != [] {
      var item := items[0];
      WsRun(open, close, d, item.before);
      ValueRun(open, close, d, item.value);
      WsRun(open, close, d, item.after);
      RunConcat(open, close, Outside(d), item.before, TextOf(item.value));
      RunConcat(open, close, Outside(d), item.before + TextOf(item.value), item.after);
      if |items| > 1 {
        ItemsRun(open, close, d, items[1..]);
        SeparatedRun(open, close, d, ItemText(item), ItemsText(items[1..]));
      }
    }
  }

  lemma SeparatedRun(open: char, close: char, d: nat, first: string, rest: string)
    requires Pair(open, close)
    requires Run(open, close, Outside(d), first) == Outside(d) && Run(open, close, Outside(d), rest) == Outside(d)
    ensures Run(open, close, Outside(d), first + ([','] + rest)) == Outside(d)
  {
    RunConcat(open, close, Outside(d), first, [','] + rest);
    assert ([','] + rest)[1..] == rest;
  }

  lemma {:induction false} MembersRun(open: char, close: char, d: nat, members: seq<Member>)
    requires Pair(open, close) && d >= 1 && forall i :: 0 <= i < |members| ==> ValidMember(members[i])
    ensures Run(open, close, Outside(d), MembersText(members)) == Outside(d)
    decreases members, 0
  {
    if members != [] {
      var m := members[0];
      ValueRun(open, close, d, m.value);
      MemberRun(open, close, d, m);
      if |members| > 1 {
        MembersRun(open, close, d, members[1..]);
        SeparatedRun(open, close, d, MemberText(m), MembersText(members[1..]));
      }
    }
  }

  lemma MemberRun(open: char, close: char, d: nat, m: Member)
    requires Pair(open, close) && ValidMember(m)
    requires Run(open, close, Outside(d), TextOf(m.value)) == Outside(d)
    ensures Run(open, close, Outside(d), MemberText(m)) == Outside(d)
  {
    var key := m.before + StringText(m.key);
    WsRun(open, close, d, m.before);
    StringRun(open, close, d, m.key);
    RunConcat(open, close, Outside(d), m.before, StringText(m.key));
    WsRun(open, close, d, m.gap);
    RunConcat(open, close, Outside(d), key, m.gap);
    InertRun(open, close, d, [':']);
    RunConcat(open, close, Outside(d), key + m.gap, [':']);
    WsRun(open, close, d, m.pad);
    RunConcat(open, close, Outside(d), key + m.gap + [':'], m.pad);
    RunConcat(open, close, Outside(d), key + m.gap + [':'] + m.pad, TextOf(m.value));
    WsRun(open, close, d, m.after);
    RunConcat(open, close, Outside(d), key + m.gap + [':'] + m.pad + TextOf(m.value), m.after);
  }

  // ---------------------------------------------------------------- from the automaton to the matcher

  function ModeOf(m: Matcher): Mode {
    if m.inString then InString(m.escape, m.depth) else Outside(m.depth)
  }

  /** If the automaton first closes at the end of `s`, the matcher returns what `s` completes. */
  lemma {:induction false} MatcherCloses(input: string, open: char, close: char, i: nat, m: Matcher, s: string)
    requires Pair(open, close) && m.depth >= 1 && (m.inString || !m.escape) && m.start <= i
    requires i + |s| <= |input| && input[i..i + |s|] == s && s != []
    requires Run(open, close, ModeOf(m), s) == Closed && Run(open, close, ModeOf(m), s[..|s| - 1]) != Closed
    ensures Balanced(input, open, close, i, m) == Some(input[m.start..i + |s|])
    decreases |s|
  {
    var c := input[i];
    assert c == s[0];
    if |s| == 1 {
      assert s[1..] == [];
    } else {
      assert s[1..][..|s[1..]| - 1] == s[..|s| - 1][1..];
      StaysOpen(open, close, Advance(open, close, ModeOf(m), c), s[1..][..|s[1..]| - 1]);
      var next :=
        if m.inString then InsideString(m, c)
        else if c == '"' then m.(inString := true)
        else if c == open then m.(depth := m.depth + 1)
        else if c == close then m.(depth := m.depth - 1)
        else m;
      MatcherCloses(input, open, close, i + 1, next, s[1..]);
    }
  }

  lemma {:induction false} StaysOpen(open: char, close: char, m: Mode, s: string)
    requires Run(open, close, m, s) != Closed
    ensures m != Closed
    decreases |s|
  {
    if m == Closed && s != [] {
      StaysOpen(open, close, Advance(open, close, m, s[0]), s[1..]);
    }
  }

  predicate Container(v: Value) {
    v.Array? || v.Object?
  }

  /** From the first bracket of an object or array, matching returns its text, whatever follows. */
  lemma ContainerBalanced(v: Value, post: string)
    requires Valid(v) && Container(v)
    ensures BalancedJson(TextOf(v) + post, TextOf(v)[0]) == Some(TextOf(v))
  {
    var open, close, body := ContainerBody(v);
    assert TextOf(v) == [open] + (body + [close]);
    BodyBalanced(open, close, body, post);
  }

  lemma BodyBalanced(open: char, close: char, body: string, post: string)
    requires Pair(open, close) && Run(open, close, Outside(1), body) == Outside(1)
    ensures BalancedJson([open] + (body + [close]) + post, open) == Some([open] + (body + [close]))
  {
    var s := body + [close];
    var input := [open] + s + post;
    assert input[1..1 + |s|] == s && s[..|s| - 1] == body;
    RunConcat(open, close, Outside(1), body, [close]);
    assert [close][1..] == [];
    var begun := Matcher(false, false, 1, 0);
    MatcherCloses(input, open, close, 1, begun, s);
    assert Balanced(input, open, close, 0, FRESH) == Balanced(input, open, close, 1, begun);
    assert input[0..1 + |s|] == [open] + s;
  }

  lemma ContainerBody(v: Value) returns (open: char, close: char, body: string)
    requires Valid(v) && Container(v)
    ensures Pair(open, close) && TextOf(v) == [open] + body + [close]
    ensures Run(open, close, Outside(1), body) == Outside(1)
  {
    match v {
      case Array(lead, items) =>
        open, close, body := '[', ']', lead + ItemsText(items);
        WsRun(open, close, 1, lead);
        ItemsRun(open, close, 1, items);
        RunConcat(open, close, Outside(1), lead, ItemsText(items));
      case Object(lead, members) =>
        open, close, body := '{', '}', lead + MembersText(members);
        WsRun(open, close, 1, lead);
        MembersRun(open, close, 1, members);
        RunConcat(open, close, Outside(1), lead, MembersText(members));
    }
  }

  // ---------------------------------------------------------------- the prefix

  /** A prefix whose quotes close and which shows no opening bracket outside them. */
  predicate Quiet(pre: string, inString: bool, escape: bool)
    decreases |pre|
  {
    if pre == [] then !inString
    else if inString then Quiet(pre[1..], escape || pre[0] != '"', !escape && pre[0] == '\\')
    else if pre[0] == '"' then Quiet(pre[1..], true, escape)
    else pre[0] != '{' && pre[0] != '[' && Quiet(pre[1..], false, escape)
  }

  lemma {:induction false} QuietSkipped(input: string, i: nat, pre: string, inString: bool, escape: bool)
    requires i + |pre| <= |input| && input[i..i + |pre|] == pre && Quiet(pre, inString, escape) && (inString || !escape)
    ensures ExtractFrom(input, i, inString, escape) == ExtractFrom(input, i + |pre|, false, false)
    decreases |pre|
  {
    if pre != [] {
      assert input[i] == pre[0] && input[i + 1..i + 1 + |pre[1..]|] == pre[1..];
      if inString {
        QuietSkipped(input, i + 1, pre[1..], escape || pre[0] != '"', !escape && pre[0] == '\\');
      } else {
        QuietSkipped(input, i + 1, pre[1..], pre[0] == '"', escape);
      }
    }
  }

  /**
   * Extraction round trip: an object or array after a quiet prefix is returned exactly, whatever
   * follows it.
   */
  lemma ExtractsEmbedded(pre: string, v: Value, post: string)
    requires Quiet(pre, false, false) && Valid(v) && Container(v)
    ensures Extract(pre + TextOf(v) + post) == Some(TextOf(v))
  {
    var input := pre + TextOf(v) + post;
    assert input[0..|pre|] == pre;
    QuietSkipped(input, 0, pre, false, false);
    assert input[|pre|..] == TextOf(v) + post && input[|pre|] == TextOf(v)[0];
    ContainerBalanced(v, post);
  }

  /** Text without quotes and opening brackets is quiet. */
  lemma {:induction false} PlainIsQuiet(pre: string)
    requires forall i :: 0 <= i < |pre| ==> pre[i] != '"' && pre[i] != '{' && pre[i] != '['
    ensures Quiet(pre, false, false)
  {
    if pre != [] {
      PlainIsQuiet(pre[1..]);
    }
  }

  // ---------------------------------------------------------------- no other prefix is safe

  /** If the automaton has closed by the end of the input, the matcher returns text from its start on. */
  lemma {:induction false} MatcherAnswers(input: string, open: char, close: char, i: nat, m: Matcher)
    requires Pair(open, close) && m.depth >= 1 && (m.inString || !m.escape) && m.start < i <= |input|
    requires Run(open, close, ModeOf(m), input[i..]) == Closed
    ensures Balanced(input, open, close, i, m).Some?
    ensures var s := Balanced(input, open, close, i, m).value; s != [] && s[0] == input[m.start]
    decreases |input| - i
  {
    if i < |input| {
      var c := input[i];
      assert input[i..][1..] == input[i + 1..];
      var next :=
        if m.inString then InsideString(m, c)
        else if c == '"' then m.(inString := true)
        else if c == open then m.(depth := m.depth + 1)
        else if c == close then m.(depth := m.depth - 1)
        else m;
      if next.depth > 0 {
        MatcherAnswers(input, open, close, i + 1, next);
      }
    }
  }

  lemma {:induction false} ClosersClose(open: char, close: char, d: nat) returns (s: string)
    requires Pair(open, close) && d >= 1
    ensures Run(open, close, Outside(d), s) == Closed && '`' !in s
  {
    if d == 1 {
      s := [close];
      assert s[1..] == [];
    } else {
      var rest := ClosersClose(open, close, d - 1);
      s := [close] + rest;
      assert s[1..] == rest;
    }
  }

  /** Whatever state the automaton is in, some text closes its first bracket. */
  lemma Closes(open: char, close: char, m: Mode) returns (s: string)
    requires Pair(open, close) && (m.Closed? || m.depth >= 1)
    ensures Run(open, close, m, s) == Closed && '`' !in s
  {
    match m {
      case Closed => s := [];
      case Outside(d) => s := ClosersClose(open, close, d);
      case InString(escape, d) =>
        var rest := ClosersClose(open, close, d);
        s := ['"'] + rest;
        assert s[1..] == rest;
        if escape {
          s := ['x'] + s;
          assert s[1..] == ['"'] + rest;
        }
    }
  }

  lemma {:induction false} DepthStays(open: char, close: char, m: Mode, s: string)
    requires m.Closed? || m.depth >= 1
    ensures Run(open, close, m, s).Closed? || Run(open, close, m, s).depth >= 1
    decreases |s|
  {
    if s != [] {
      DepthStays(open, close, Advance(open, close, m, s[0]), s[1..]);
    }
  }

  /** After an opening bracket and any text, some suffix makes the bracket's own candidate balance. */
  lemma BracketAnswers(open: char, close: char, body: string) returns (post: string)
    requires Pair(open, close)
    ensures var found := BalancedJson([open] + body + post, open); found.Some? && found.value != [] && found.value[0] == open
    ensures '`' !in post
  {
    DepthStays(open, close, Outside(1), body);
    post := Closes(open, close, Run(open, close, Outside(1), body));
    RunConcat(open, close, Outside(1), body, post);
    var input, begun := [open] + body + post, Matcher(false, false, 1, 0);
    assert input[1..] == body + post;
    MatcherAnswers(input, open, close, 1, begun);
    assert Balanced(input, open, close, 0, FRESH) == Balanced(input, open, close, 1, begun);
  }

  /** Inside a string that no quote ends, the scanner finds nothing. */
  lemma {:induction false} StringSwallows(input: string, i: nat, escape: bool)
    requires i <= |input| && forall k :: i <= k < |input| ==> input[k] != '"'
    ensures ExtractFrom(input, i, true, escape) == None
    decreases |input| - i
  {
    if i < |input| {
      StringSwallows(input, i + 1, !escape && input[i] == '\\');
    }
  }

  /** The shortest object and the shortest array. */
  function Shortest(braces: bool): (v: Value)
    ensures Valid(v) && Container(v) && TextOf(v) == if braces then "{}" else "[]"
  {
    if braces then
      assert ['{'] + ([] + []) + ['}'] == "{}"; Object("", [])
    else
      assert ['['] + ([] + []) + [']'] == "[]"; Array("", [])
  }

  /** From where a prefix stops being quiet, some value and suffix are lost. */
  lemma {:induction false} Hides(pre: string, i: nat, inString: bool, escape: bool) returns (v: Value, post: string)
    requires i <= |pre| && !Quiet(pre[i..], inString, escape)
    ensures Valid(v) && Container(v) && '`' !in TextOf(v) && '`' !in post
    ensures ExtractFrom(pre + TextOf(v) + post, i, inString, escape) != Some(TextOf(v))
    decreases |pre| - i
  {
    hide TextOf, Valid, BalancedJson;
    if i == |pre| {
      v, post := Shortest(true), "";
      var input := pre + TextOf(v) + post;
      assert forall k :: i <= k < |input| ==> input[k] == "{}"[k - i];
      StringSwallows(input, i, escape);
    } else {
      var c := pre[i];
      assert pre[i..][1..] == pre[i + 1..] && pre[i..][0] == c;
      if !inString && (c == '{' || c == '[') {
        v := Shortest(c == '[');
        post := BracketAnswers(c, if c == '{' then '}' else ']', pre[i + 1..] + TextOf(v));
        var input := pre + TextOf(v) + post;
        assert input[i..] == [c] + (pre[i + 1..] + TextOf(v)) + post;
      } else if inString {
        v, post := Hides(pre, i + 1, escape || c != '"', !escape && c == '\\');
        assert (pre + TextOf(v) + post)[i] == c;
      } else {
        v, post := Hides(pre, i + 1, c == '"', escape);
        assert (pre + TextOf(v) + post)[i] == c;
      }
    }
  }

  /** Every value is recovered exactly after this prefix, whatever follows. */
  ghost predicate Recovers(pre: string) {
    forall v, post :: Valid(v) && Container(v) ==> Extract(pre + TextOf(v) + post) == Some(TextOf(v))
  }

  /**
   * Exact condition: extraction recovers every object and array behind a prefix, with every suffix, if
   * and only if the prefix closes its quotes and opens no bracket outside them.
   */
  lemma QuietExactly(pre: string)
    ensures Recovers(pre) <==> Quiet(pre, false, false)
  {
    hide TextOf, Valid, Extract;
    if Quiet(pre, false, false) {
      forall v, post | Valid(v) && Container(v)
        ensures Extract(pre + TextOf(v) + post) == Some(TextOf(v))
      {
        ExtractsEmbedded(pre, v, post);
      }
    } else {
      assert pre[0..] == pre;
      var v, post := Hides(pre, 0, false, false);
      ExtractStarts(pre + TextOf(v) + post);
    }
  }

  lemma ExtractStarts(input: string)
    ensures Extract(input) == ExtractFrom(input, 0, false, false)
  {
  }

  /** One of each kind: an open quote hides the value, and an open bracket takes it for its content. */
  lemma UnclosedQuoteHides()
    ensures TextOf(Shortest(true)) == "{}" && Extract("\"{}") == None
  {
    assert ExtractFrom("\"{}", 0, false, false) == ExtractFrom("\"{}", 1, true, false);
    StringSwallows("\"{}", 1, false);
  }

  lemma OpenBracketSwallows()
    ensures TextOf(Shortest(false)) == "[]" && Extract("{[]}") == Some("{[]}")
  {
    var input := "{[]}";
    assert input[..] == input && input[0..4] == input;
    assert Balanced(input, '{', '}', 3, Matcher(false, false, 1, 0)) == Some(input);
    assert Balanced(input, '{', '}', 2, Matcher(false, false, 1, 0)) == Some(input);
    assert Balanced(input, '{', '}', 1, Matcher(false, false, 1, 0)) == Some(input);
    assert BalancedJson(input, '{') == Some(input);
    assert input[0..] == input;
  }
}
