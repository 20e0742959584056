/** Recovering an embedded JSON value from free text: fences, prefix scan and bracket matching. */
module JsonExtraction {
  import opened Common

  // ---------------------------------------------------------------- what is to be found

  /** Position `i` lies inside a string literal: an odd number of quotes before it delimit literals. */
  predicate Inside(input: string, i: nat)
    requires i <= |input|
    decreases i, 1
  {
    i > 0 && (if Delimits(input, i - 1) then !Inside(input, i - 1) else Inside(input, i - 1))
  }

  /** A quote opens or closes a literal unless it is escaped. */
  predicate Delimits(input: string, i: nat)
    requires i < |input|
    decreases i, 3
  {
    input[i] == '"' && !Escaped(input, i)
  }

  /** Inside a literal a character is escaped by a backslash that is not escaped itself. */
  predicate Escaped(input: string, i: nat)
    requires i <= |input|
    decreases i, 2
  {
    i > 0 && Inside(input, i) && input[i - 1] == '\\' && !Escaped(input, i - 1)
  }

  /** The brackets of one kind that are open at `j`, counted from `i` outside string literals. */
  function Depth(input: string, open: char, close: char, i: nat, j: nat): int
    requires i <= j <= |input|
    decreases j
  {
    if j == i then 0
    else
      Depth(input, open, close, i, j - 1)
      + if Inside(input, j - 1) then 0 else if input[j - 1] == open then 1 else if input[j - 1] == close then -1 else 0
  }

  /** The bracket at `i` is first closed right before `j`. */
  ghost predicate ClosesAt(input: string, open: char, close: char, i: nat, j: nat) {
    && i < j <= |input| && input[i] == open
    && Depth(input, open, close, i, j) == 0
    && forall k :: i < k < j ==> Depth(input, open, close, i, k) > 0
  }

  /** The text from the first bracket to where it is closed, and nothing when it is not. */
  ghost predicate FirstClosed(input: string, open: char, close: char, r: Option<string>) {
    match r
    case Some(text) => |text| <= |input| && text == input[..|text|] && ClosesAt(input, open, close, 0, |text|)
    case None => forall j: nat :: !ClosesAt(input, open, close, 0, j)
  }

  /** A bracket outside literals at `i` with the shortest text that balances it, up to `j`. */
  ghost predicate Candidate(input: string, i: nat, j: nat) {
    i < |input| && !Inside(input, i) && (ClosesAt(input, '{', '}', i, j) || ClosesAt(input, '[', ']', i, j))
  }

  /** The candidate of the first bracket that has one, and nothing when no bracket has one. */
  ghost predicate Extracted(input: string, r: Option<string>) {
    match r
    case Some(text) =>
      exists i: nat, j: nat :: Candidate(input, i, j) && text == input[i..j] && forall k: nat, l: nat :: k < i ==> !Candidate(input, k, l)
    case None => forall i: nat, j: nat :: !Candidate(input, i, j)
  }

  // ---------------------------------------------------------------- bracket matching

  function Closing(open: char): Option<char> {
    if open == '{' then Some('}') else if open == '[' then Some(']') else None
  }

  /** Where the matcher is: inside a string literal, or at a depth of the brackets it counts. */
  datatype Matcher = Matcher(inString: bool, escape: bool, depth: nat, start: nat)

  /** Scanning `input` from `i`: the text from the first counted bracket to the one that closes it. */
  function Balanced(input: string, open: char, close: char, i: nat, m: Matcher): Option<string>
    requires i <= |input| && m.start <= i
    decreases |input| - i
  {
    if i == |input| then None
    else
      var c := input[i];
      if m.inString then
        Balanced(input, open, close, i + 1, InsideString(m, c))
      else if c == '"' then
        Balanced(input, open, close, i + 1, m.(inString := true))
      else if c == open then
        Balanced(input, open, close, i + 1, m.(depth := m.depth + 1, start := if m.depth == 0 then i else m.start))
      else if c == close && m.depth > 0 then
        if m.depth == 1 then Some(input[m.start..i + 1])
        else Balanced(input, open, close, i + 1, m.(depth := m.depth - 1))
      else
        Balanced(input, open, close, i + 1, m)
  }

  function InsideString(m: Matcher, c: char): Matcher {
    if m.escape then m.(escape := false)
    else if c == '\\' then m.(escape := true)
    else if c == '"' then m.(inString := false)
    else m
  }

  const FRESH := Matcher(false, false, 0, 0)

  function BalancedJson(input: string, open: char): Option<string> {
    match Closing(open)
    case None => None
    case Some(close) => Balanced(input, open, close, 0, FRESH)
  }

  method ExtractBalancedJson(input: string, open: char) returns (r: Option<string>)
    ensures r == BalancedJson(input, open)
    ensures Closing(open).Some? && input != [] && input[0] == open ==> FirstClosed(input, open, Closing(open).value, r)
  {
    if Closing(open).Some? && input != [] && input[0] == open {
      BalancesFirst(input, open, Closing(open).value);
    }
    hide FirstClosed;
    if Closing(open).None? {
      return None;
    }
    var close := Closing(open).value;
    var inString, escape, depth: nat := false, false, 0;
    var start: Option<nat> := None;
    for i := 0 to |input|
      invariant start.None? ==> depth == 0
      invariant start.Some? ==> start.value <= i
      invariant Balanced(input, open, close, 0, FRESH)
             == Balanced(input, open, close, i, Matcher(inString, escape, depth, start.GetOr(0)))
    {
      var c := input[i];
      if inString {
        if escape {
          escape := false;
          continue;
        }
        if c == '\\' {
          escape := true;
        } else if c == '"' {
          inString := false;
        }
        continue;
      }
      if c == '"' {
        inString := true;
      } else if c == open {
        if depth == 0 {
          start := Some(i);
        }
        depth := depth + 1;
      } else if c == close && depth > 0 {
        depth := depth - 1;
        if depth == 0 && start.Some? {
          return Some(input[start.value..i + 1]);
        }
      }
    }
    return None;
  }

  // ---------------------------------------------------------------- the prefix scan

  /** Scanning from `i`, inside a string literal or not: the first bracket that yields a candidate. */
  function ExtractFrom(input: string, i: nat, inString: bool, escape: bool): Option<string>
    requires i <= |input|
    decreases |input| - i
  {
    if i == |input| then None
    else
      var c := input[i];
      if inString then
        ExtractFrom(input, i + 1, escape || c != '"', !escape && c == '\\')
      else if c == '"' then
        ExtractFrom(input, i + 1, true, escape)
      else if (c == '{' || c == '[') && BalancedJson(input[i..], c).Some? then
        BalancedJson(input[i..], c)
      else
        ExtractFrom(input, i + 1, false, escape)
  }

  function Extract(input: string): Option<string> {
    ExtractFrom(input, 0, false, false)
  }

  method ExtractJsonValue(input: string) returns (r: Option<string>)
    ensures r == Extract(input) && Extracted(input, r)
  {
    ExtractsFirst(input);
    hide Extracted;
    var inString, escape := false, false;
    for i := 0 to |input|
      invariant Extract(input) == ExtractFrom(input, i, inString, escape)
    {
      var c := input[i];
      if inString {
        if escape {
          escape := false;
          continue;
        }
        if c == '\\' {
          escape := true;
        } else if c == '"' {
          inString := false;
        }
        continue;
      }
      if c == '"' {
        inString := true;
      } else if c == '{' || c == '[' {
        var candidate := ExtractBalancedJson(input[i..], c);
        if candidate.Some? {
          return candidate;
        }
      }
    }
    return None;
  }

  // ---------------------------------------------------------------- the scan finds just that

  lemma {:induction false} SuffixLiterals(input: string, i: nat, k: nat)
    requires i + k <= |input| && !Inside(input, i)
    ensures Inside(input[i..], k) == Inside(input, i + k) && Escaped(input[i..], k) == Escaped(input, i + k)
  {
    if k > 0 {
      SuffixLiterals(input, i, k - 1);
      assert input[i..][k - 1] == input[i + k - 1];
    }
  }

  lemma {:induction false} SuffixDepth(input: string, open: char, close: char, i: nat, k: nat)
    requires i + k <= |input| && !Inside(input, i)
    ensures Depth(input[i..], open, close, 0, k) == Depth(input, open, close, i, i + k)
  {
    if k > 0 {
      SuffixDepth(input, open, close, i, k - 1);
      SuffixLiterals(input, i, k - 1);
    }
  }

  /** The matcher's flags at `i` are the literals and the depth there. */
  predicate Tracks(input: string, open: char, close: char, i: nat, m: Matcher)
    requires i <= |input|
  {
    m.start == 0 && m.inString == Inside(input, i) && m.escape == Escaped(input, i) && m.depth == Depth(input, open, close, 0, i)
  }

  function Matched(m: Matcher, open: char, close: char, c: char): Matcher {
    if m.inString then InsideString(m, c)
    else if c == '"' then m.(inString := true)
    else if c == open then m.(depth := m.depth + 1)
    else if c == close && m.depth > 0 then m.(depth := m.depth - 1)
    else m
  }

  lemma TracksNext(input: string, open: char, close: char, i: nat, m: Matcher)
    requires open != '"' && close != '"' && open != close
    requires i < |input| && Tracks(input, open, close, i, m) && m.depth > 0
    ensures Tracks(input, open, close, i + 1, Matched(m, open, close, input[i]))
  {
  }

  /** From below its first bracket on, the matcher finds where that bracket is first closed. */
  lemma {:induction false} MatcherFinds(input: string, open: char, close: char, i: nat, m: Matcher)
    requires open != '"' && close != '"' && open != close
    requires 0 < i <= |input| && input[0] == open && Tracks(input, open, close, i, m)
    requires forall k :: 0 < k <= i ==> Depth(input, open, close, 0, k) > 0
    ensures FirstClosed(input, open, close, Balanced(input, open, close, i, m))
    decreases |input| - i
  {
    if i < |input| {
      var next := Matched(m, open, close, input[i]);
      TracksNext(input, open, close, i, m);
      if next.depth > 0 {
        MatcherFinds(input, open, close, i + 1, next);
      } else {
        assert input[0..i + 1] == input[..i + 1];
      }
    }
  }

  /** At a bracket the matcher yields the shortest text that balances it, if there is one. */
  lemma BalancesFirst(input: string, open: char, close: char)
    requires Closing(open) == Some(close) && input != [] && input[0] == open
    ensures FirstClosed(input, open, close, BalancedJson(input, open))
  {
    assert Depth(input, open, close, 0, 1) == 1;
    MatcherFinds(input, open, close, 1, Matcher(false, false, 1, 0));
  }

  lemma ClosesSuffix(input: string, open: char, close: char, i: nat, j: nat)
    requires i < |input| && !Inside(input, i)
    ensures ClosesAt(input[i..], open, close, 0, j) <==> ClosesAt(input, open, close, i, i + j)
  {
    if 0 < j <= |input| - i {
      forall k: nat | k <= j
        ensures Depth(input[i..], open, close, 0, k) == Depth(input, open, close, i, i + k)
      {
        SuffixDepth(input, open, close, i, k);
      }
      assert forall k :: i < k < i + j ==> Depth(input, open, close, i, k) == Depth(input[i..], open, close, 0, k - i);
    }
  }

  /** What the scan meets at a position outside literals. */
  lemma FoundAt(input: string, i: nat)
    requires i < |input| && !Inside(input, i)
    ensures match (if input[i] == '{' || input[i] == '[' then BalancedJson(input[i..], input[i]) else None)
            case Some(text) => i + |text| <= |input| && text == input[i..i + |text|] && Candidate(input, i, i + |text|)
            case None => forall j: nat :: !Candidate(input, i, j)
  {
    hide Depth, Inside, BalancedJson;
    forall open, close, j: nat | i <= j
      ensures ClosesAt(input[i..], open, close, 0, j - i) <==> ClosesAt(input, open, close, i, j)
    {
      ClosesSuffix(input, open, close, i, j - i);
    }
    if input[i] == '{' {
      BalancesFirst(input[i..], '{', '}');
    } else if input[i] == '[' {
      BalancesFirst(input[i..], '[', ']');
    }
  }

  lemma {:induction false} ScanFinds(input: string, i: nat)
    requires i <= |input| && forall k: nat, l: nat :: k < i ==> !Candidate(input, k, l)
    ensures Extracted(input, ExtractFrom(input, i, Inside(input, i), Escaped(input, i)))
    decreases |input| - i
  {
    hide Candidate;
    if i == |input| {
      NoneBeyond(input);
    } else if Inside(input, i) {
      NoneInside(input, i);
      NextFlags(input, i);
      ScanFinds(input, i + 1);
    } else {
      FoundAt(input, i);
      NextFlags(input, i);
      if (input[i] == '{' || input[i] == '[') && BalancedJson(input[i..], input[i]).Some? {
        var text := BalancedJson(input[i..], input[i]).value;
        assert Candidate(input, i, i + |text|);
      } else {
        ScanFinds(input, i + 1);
      }
    }
  }

  lemma NoneBeyond(input: string)
    ensures forall k: nat, l: nat :: |input| <= k ==> !Candidate(input, k, l)
  {
  }

  lemma NoneInside(input: string, i: nat)
    requires i <= |input| && Inside(input, i)
    ensures forall j: nat :: !Candidate(input, i, j)
  {
  }

  lemma NextFlags(input: string, i: nat)
    requires i < |input|
    ensures var inString, escape, c := Inside(input, i), Escaped(input, i), input[i];
            if inString then
              Inside(input, i + 1) == (escape || c != '"') && Escaped(input, i + 1) == (!escape && c == '\\')
            else Inside(input, i + 1) == (c == '"') && !Escaped(input, i) && !Escaped(input, i + 1)
  {
    assert Delimits(input, i) <==> input[i] == '"' && !Escaped(input, i);
    assert Inside(input, i + 1) <==> if Delimits(input, i) then !Inside(input, i) else Inside(input, i);
    assert Escaped(input, i) ==> Inside(input, i);
  }

  /**
   * Extraction returns the shortest balanced text of the first bracket outside string literals that has one,
   * and nothing exactly when no bracket outside string literals has one.
   */
  lemma ExtractsFirst(input: string)
    ensures Extracted(input, Extract(input))
  {
    ScanFinds(input, 0);
  }
}
