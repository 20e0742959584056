/** What the host reads in the final text of a graph. */
module FinalTexts {
  import opened Common
  import opened Text
  import opened TaskGraphs
  import opened GraphRuntime
  import opened Synthesis

  // ---------------------------------------------------------------- what the text shows

  function Flatten(parts: seq<string>): string {
    if parts == [] then [] else parts[0] + Flatten(parts[1..])
  }

  /** `s` stands somewhere before `t`, and they do not overlap. */
  ghost predicate Ahead(text: string, s: string, t: string) {
    exists k :: 0 <= k <= |text| && Contains(text[..k], s) && Contains(text[k..], t)
  }

  /** Nothing for no items; otherwise a captioned line with every item that is not blank, trimmed and in order. */
  ghost predicate Listed(block: string, caption: string, items: seq<string>) {
    && (items == [] ==> block == [])
    && (items != [] ==> "\n" + caption + ": " <= block)
    && (forall i :: 0 <= i < |items| && !IsBlank(items[i]) ==> Contains(block, Trim(items[i])))
    && (forall i, j :: 0 <= i < j < |items| && !IsBlank(items[i]) && !IsBlank(items[j]) ==>
          Ahead(block, Trim(items[i]), Trim(items[j])))
  }

  /** Title, role and trimmed summary, then findings, recommendations, risks and open questions. */
  ghost predicate OutputShown(section: string, n: TaskNode, o: RoleWorkOutput) {
    exists findings, recommendations, risks, questions ::
      && section == "\n- " + n.title + "(" + n.role + "): " + Trim(o.summary) + findings + recommendations + risks + questions
      && Listed(findings, "  发现", o.findings)
      && Listed(recommendations, "  建议", o.recommendations)
      && Listed(risks, "  风险", o.risks)
      && Listed(questions, "  缺口", o.openQuestions)
  }

  /** A report without structured output shows its content, and a missing one that there is none. */
  ghost predicate ProductShown(section: string, n: TaskNode, reports: map<string, WorkerReport>) {
    if n.id in reports && reports[n.id].roleOutput.Some? then OutputShown(section, n, reports[n.id].roleOutput.value)
    else
      section == "\n- " + n.title + "(" + n.role + "): "
                 + if n.id in reports && !IsBlank(reports[n.id].content) then Trim(reports[n.id].content) else "无内容"
  }

  ghost predicate GapShown(line: string, n: TaskNode, states: map<string, NodeState>) {
    n.id in states &&
    match states[n.id]
    case Failed(reason) => line == "\n- " + n.title + "(" + n.role + ") failed: " + reason
    case Skipped(reason) => line == "\n- " + n.title + "(" + n.role + ") skipped: " + reason
    case _ => false
  }

  /** The task, one section for each passed node, and after them one line for each gap. */
  ghost predicate Shown(g: TaskGraph, states: map<string, NodeState>, reports: map<string, WorkerReport>, text: string,
      head: string, sections: seq<string>, middle: string, gaps: seq<string>)
  {
    var passed, missing := PassedNodes(g.nodes, states), GapNodes(g.nodes, states);
    && text == head + Flatten(sections) + middle + Flatten(gaps)
    && Contains(head, g.rootTask)
    && |sections| == |passed| && (forall i :: 0 <= i < |passed| ==> ProductShown(sections[i], passed[i], reports))
    && |gaps| == |missing| && (forall i :: 0 <= i < |missing| ==> GapShown(gaps[i], missing[i], states))
  }

  ghost predicate Tells(g: TaskGraph, states: map<string, NodeState>, reports: map<string, WorkerReport>, text: string) {
    exists head, sections, middle, gaps :: Shown(g, states, reports, text, head, sections, middle, gaps)
  }

  // ---------------------------------------------------------------- finding texts in texts

  lemma {:induction false} ContainsMiddle(a: string, p: string, b: string)
    ensures Contains(a + p + b, p)
  {
    if a == [] {
      assert a + p + b == p + b;
    } else {
      assert (a + p + b)[1..] == a[1..] + p + b;
      ContainsMiddle(a[1..], p, b);
    }
  }

  lemma {:induction false} ContainsWithin(a: string, s: string, b: string, p: string)
    requires Contains(s, p)
    ensures Contains(a + s + b, p)
    decreases |a| + |s|
  {
    if a != [] {
      assert (a + s + b)[1..] == a[1..] + s + b;
      ContainsWithin(a[1..], s, b, p);
    } else {
      assert a + s + b == s + b;
      if p <= s {
        assert (s + b)[..|p|] == s[..|p|];
      } else {
        assert (s + b)[1..] == s[1..] + b;
        assert [] + s[1..] + b == s[1..] + b;
        ContainsWithin([], s[1..], b, p);
      }
    }
  }

  lemma {:induction false} JoinSplit(parts: seq<string>, sep: string, k: nat)
    requires 0 < k < |parts|
    ensures Join(parts, sep) == Join(parts[..k], sep) + sep + Join(parts[k..], sep)
  {
    if k > 1 {
      JoinSplit(parts[1..], sep, k - 1);
      assert parts[1..][..k - 1] == parts[..k][1..];
      assert parts[1..][k - 1..] == parts[k..];
      assert parts[..k][0] == parts[0];
    } else {
      assert parts[..k] == [parts[0]];
    }
  }

  lemma {:induction false} JoinContains(parts: seq<string>, sep: string, i: nat)
    requires i < |parts|
    ensures Contains(Join(parts, sep), parts[i])
  {
    if i == 0 {
      if |parts| == 1 {
        ContainsMiddle([], parts[0], []);
        assert [] + parts[0] + [] == parts[0];
      } else {
        ContainsMiddle([], parts[0], sep + Join(parts[1..], sep));
        assert [] + parts[0] + (sep + Join(parts[1..], sep)) == Join(parts, sep);
      }
    } else {
      JoinContains(parts[1..], sep, i - 1);
      ContainsWithin(parts[0] + sep, Join(parts[1..], sep), [], parts[i]);
      assert parts[0] + sep + Join(parts[1..], sep) + [] == Join(parts, sep);
    }
  }

  lemma JoinOrder(parts: seq<string>, sep: string, i: nat, j: nat)
    requires i < j < |parts|
    ensures Ahead(Join(parts, sep), parts[i], parts[j])
  {
    JoinSplit(parts, sep, j);
    JoinContains(parts[..j], sep, i);
    JoinContains(parts[j..], sep, 0);
    var text, front, back := Join(parts, sep), Join(parts[..j], sep), Join(parts[j..], sep);
    var k := |front|;
    assert text[..k] == front;
    assert text[k..] == sep + back + [];
    ContainsWithin(sep, back, [], parts[j]);
  }

  lemma AheadWithin(a: string, text: string, s: string, t: string)
    requires Ahead(text, s, t)
    ensures Ahead(a + text, s, t)
  {
    var k :| 0 <= k <= |text| && Contains(text[..k], s) && Contains(text[k..], t);
    var whole, m := a + text, |a| + k;
    assert whole[..m] == a + text[..k] + [];
    assert whole[m..] == text[k..];
    ContainsWithin(a, text[..k], [], s);
  }

  // ---------------------------------------------------------------- one line of items

  /** A kept item stands where the kept ones before it end. */
  lemma {:induction false} TrimmedAt(items: seq<string>, i: nat)
    requires i < |items| && !IsBlank(items[i])
    ensures var kept, k := TrimmedItems(items), |TrimmedItems(items[..i])|;
            && k < |kept| && kept[k] == Trim(items[i])
            && (forall j :: i < j <= |items| ==> k < |TrimmedItems(items[..j])|)
  {
    hide IsBlank, Trim;
    var front := items[..|items| - 1];
    assert items[..|items|] == items;
    if i < |front| {
      TrimmedAt(front, i);
      assert forall j :: 0 <= j <= |front| ==> front[..j] == items[..j];
    } else {
      assert items[..i] == front;
    }
  }

  lemma ItemsListed(caption: string, items: seq<string>) returns (block: string)
    ensures Listed(block, caption, items)
    ensures block == if items == [] then [] else "\n" + (caption + ": " + Join(TrimmedItems(items), "；"))
  {
    hide IsBlank, Trim, Contains, Ahead, TrimmedItems;
    block := if items == [] then [] else "\n" + (caption + ": " + Join(TrimmedItems(items), "；"));
    if items != [] {
      var start, kept := "\n" + caption + ": ", TrimmedItems(items);
      assert block == start + Join(kept, "；");
      forall i | 0 <= i < |items| && !IsBlank(items[i])
        ensures Contains(block, Trim(items[i]))
      {
        TrimmedAt(items, i);
        JoinContains(kept, "；", |TrimmedItems(items[..i])|);
        ContainsWithin(start, Join(kept, "；"), [], Trim(items[i]));
        assert start + Join(kept, "；") + [] == block;
      }
      forall i, j | 0 <= i < j < |items| && !IsBlank(items[i]) && !IsBlank(items[j])
        ensures Ahead(block, Trim(items[i]), Trim(items[j]))
      {
        TrimmedAt(items, i);
        TrimmedAt(items, j);
        JoinOrder(kept, "；", |TrimmedItems(items[..i])|, |TrimmedItems(items[..j])|);
        AheadWithin(start, Join(kept, "；"), Trim(items[i]), Trim(items[j]));
      }
    }
  }

  // ---------------------------------------------------------------- sections

  /** The lines, each on a new line. */
  function Broken(lines: seq<string>): string {
    if lines == [] then [] else "\n" + lines[0] + Broken(lines[1..])
  }

  lemma {:induction false} BrokenConcat(a: seq<string>, b: seq<string>)
    ensures Broken(a + b) == Broken(a) + Broken(b)
  {
    if a == [] {
      assert a + b == b;
    } else {
      assert (a + b)[1..] == a[1..] + b;
      BrokenConcat(a[1..], b);
    }
  }

  lemma {:induction false} JoinBroken(lines: seq<string>)
    requires lines != []
    ensures Join(lines, "\n") == lines[0] + Broken(lines[1..])
  {
    if |lines| > 1 {
      JoinBroken(lines[1..]);
    }
  }

  lemma JoinAfter(first: string, rest: seq<string>)
    ensures Join([first] + rest, "\n") == first + Broken(rest)
  {
    JoinBroken([first] + rest);
    assert ([first] + rest)[1..] == rest;
  }

  lemma BrokenOne(line: string)
    ensures Broken([line]) == "\n" + line
  {
    assert [line][1..] == [];
  }

  lemma BrokenItems(caption: string, items: seq<string>)
    ensures Broken(ItemsLine(caption, items))
         == if items == [] then [] else "\n" + (caption + ": " + Join(TrimmedItems(items), "；"))
  {
    hide TrimmedItems;
    if items != [] {
      BrokenOne(caption + ": " + Join(TrimmedItems(items), "；"));
    }
  }

  lemma SectionShown(n: TaskNode, reports: map<string, WorkerReport>)
    ensures ProductShown(Broken(ProductLines(n, reports)), n, reports)
  {
    hide IsBlank, Trim, ItemsLine, Broken, OutputShown;
    if n.id in reports && reports[n.id].roleOutput.Some? {
      OutputSection(n, reports[n.id].roleOutput.value);
    } else {
      PlainSection(n, reports);
    }
  }

  lemma PlainSection(n: TaskNode, reports: map<string, WorkerReport>)
    requires !(n.id in reports && reports[n.id].roleOutput.Some?)
    ensures ProductShown(Broken(ProductLines(n, reports)), n, reports)
  {
    hide IsBlank, Trim, Broken, OutputShown;
    var content := if n.id in reports then reports[n.id].content else "";
    BlankIsTrimmed(content);
    if n.id in reports && !IsBlank(content) {
      PlainLine(n, Trim(content));
    } else {
      PlainLine(n, "无内容");
      assert Heading(n) + ": 无内容" == Heading(n) + ": " + "无内容";
    }
  }

  lemma PlainLine(n: TaskNode, said: string)
    ensures Broken([Heading(n) + ": " + said]) == "\n- " + n.title + "(" + n.role + "): " + said
  {
    hide Broken;
    BrokenOne(Heading(n) + ": " + said);
  }

  lemma BlankIsTrimmed(s: string)
    ensures IsBlank(s) <==> Trim(s) == ""
  {
  }

  function OutputLines(n: TaskNode, o: RoleWorkOutput): seq<string> {
    [Heading(n) + ": " + Trim(o.summary)]
    + ItemsLine("  发现", o.findings)
    + ItemsLine("  建议", o.recommendations)
    + ItemsLine("  风险", o.risks)
    + ItemsLine("  缺口", o.openQuestions)
  }

  lemma OutputSection(n: TaskNode, o: RoleWorkOutput)
    ensures OutputShown(Broken(OutputLines(n, o)), n, o)
  {
    hide Trim, TrimmedItems, Listed, ItemsLine, Broken;
    var first := Heading(n) + ": " + Trim(o.summary);
    var a, b, c, d := ItemsLine("  发现", o.findings), ItemsLine("  建议", o.recommendations),
                      ItemsLine("  风险", o.risks), ItemsLine("  缺口", o.openQuestions);
    BrokenConcat([first] + a + b + c, d);
    BrokenConcat([first] + a + b, c);
    BrokenConcat([first] + a, b);
    BrokenConcat([first], a);
    BrokenOne(first);
    var findings := ItemsListed("  发现", o.findings);
    var recommendations := ItemsListed("  建议", o.recommendations);
    var risks := ItemsListed("  风险", o.risks);
    var questions := ItemsListed("  缺口", o.openQuestions);
    BrokenItems("  发现", o.findings);
    BrokenItems("  建议", o.recommendations);
    BrokenItems("  风险", o.risks);
    BrokenItems("  缺口", o.openQuestions);
    assert "\n" + first == "\n- " + n.title + "(" + n.role + "): " + Trim(o.summary);
  }

  lemma {:induction false} FlattenLast(parts: seq<string>, last: string)
    ensures Flatten(parts + [last]) == Flatten(parts) + last
  {
    if parts == [] {
      assert parts + [last] == [last];
    } else {
      assert (parts + [last])[1..] == parts[1..] + [last];
      FlattenLast(parts[1..], last);
    }
  }

  lemma {:induction false} ProductSections(passed: seq<TaskNode>, reports: map<string, WorkerReport>)
      returns (sections: seq<string>)
    ensures Broken(Products(passed, reports)) == Flatten(sections) && |sections| == |passed|
    ensures forall i :: 0 <= i < |passed| ==> ProductShown(sections[i], passed[i], reports)
    decreases |passed|
  {
    hide ProductShown, ProductLines;
    if passed == [] {
      sections := [];
    } else {
      var front, n := passed[..|passed| - 1], passed[|passed| - 1];
      var earlier := ProductSections(front, reports);
      sections := earlier + [Broken(ProductLines(n, reports))];
      BrokenConcat(Products(front, reports), ProductLines(n, reports));
      FlattenLast(earlier, Broken(ProductLines(n, reports)));
      SectionShown(n, reports);
    }
  }

  lemma {:induction false} GapSections(missing: seq<TaskNode>, states: map<string, NodeState>)
      returns (sections: seq<string>)
    requires forall i :: 0 <= i < |missing| ==> IsGap(states, missing[i])
    ensures Broken(Gaps(missing, states)) == Flatten(sections) && |sections| == |missing|
    ensures forall i :: 0 <= i < |missing| ==> GapShown(sections[i], missing[i], states)
    decreases |missing|
  {
    hide GapShown, GapLine, IsGap;
    if missing == [] {
      sections := [];
    } else {
      var front, n := missing[..|missing| - 1], missing[|missing| - 1];
      var earlier := GapSections(front, states);
      var line := "\n" + GapLine(n, states);
      sections := earlier + [line];
      GapLineShown(n, states);
      BrokenOne(GapLine(n, states));
      BrokenConcat(Gaps(front, states), [GapLine(n, states)]);
      FlattenLast(earlier, line);
    }
  }

  lemma GapLineShown(n: TaskNode, states: map<string, NodeState>)
    requires IsGap(states, n)
    ensures GapShown("\n" + GapLine(n, states), n, states)
  {
    hide Heading;
    HeadingStarts(n);
    match states[n.id] {
      case Failed(reason) => assert "\n" + (Heading(n) + " failed: " + reason) == "\n" + Heading(n) + " failed: " + reason;
      case Skipped(reason) => assert "\n" + (Heading(n) + " skipped: " + reason) == "\n" + Heading(n) + " skipped: " + reason;
    }
  }

  lemma HeadingStarts(n: TaskNode)
    ensures "\n" + Heading(n) == "\n- " + n.title + "(" + n.role + ")"
  {
    assert "\n" + "- " == "\n- ";
  }

  // ---------------------------------------------------------------- the whole text

  lemma {:induction false} GapsAreGaps(nodes: seq<TaskNode>, states: map<string, NodeState>)
    ensures forall n :: n in GapNodes(nodes, states) ==> IsGap(states, n)
  {
    hide IsGap;
    if nodes != [] {
      GapsAreGaps(nodes[..|nodes| - 1], states);
    }
  }

  /**
   * The final text names the task, then shows every passed node with its title, role and trimmed summary and
   * with every finding, recommendation, risk and open question that is not blank, and after all of them
   * every failed or skipped node with its title, role and reason.
   */
  lemma TextTells(g: TaskGraph, states: map<string, NodeState>, reports: map<string, WorkerReport>)
    ensures Tells(g, states, reports, Synthesize(g, states, reports))
  {
    hide Broken, Flatten, PassedNodes, GapNodes, Products, Gaps, ProductShown, GapShown, Join, Contains;
    var passed, missing := PassedNodes(g.nodes, states), GapNodes(g.nodes, states);
    var sections := ProductSections(passed, reports);
    GapsAreGaps(g.nodes, states);
    var gaps := GapSections(missing, states);
    var head, middle := HeadAndMiddle(g, Products(passed, reports), |passed|, Gaps(missing, states));
    if missing == [] {
      assert Flatten(gaps) == [] by { NothingFlat(gaps); }
    }
    assert Shown(g, states, reports, Synthesize(g, states, reports), head, sections, middle, gaps);
  }

  lemma NothingFlat(parts: seq<string>)
    ensures parts == [] ==> Flatten(parts) == []
  {
  }

  lemma HeadAndMiddle(g: TaskGraph, products: seq<string>, passed: nat, gaps: seq<string>) returns (head: string, middle: string)
    ensures Join(WithGaps(OrNone(Header(g) + products, passed), gaps), "\n") == head + Broken(products) + middle + Broken(gaps)
    ensures Contains(head, g.rootTask)
  {
    hide Broken, Join, Contains;
    var header := Header(g);
    var none := if passed == 0 then ["- 无。"] else [];
    var caption := if gaps == [] then [] else ["", "未完成节点："];
    var rest := header[1..] + products + none + caption + gaps;
    LinesInParts(g, products, passed, gaps, none, caption);
    JoinAfter(header[0], rest);
    head := header[0] + Broken(header[1..]);
    middle := Broken(none) + Broken(caption);
    hide Header;
    BrokenParts(header[1..], products, none, caption, gaps);
    HeadNamesTask(g);
  }

  lemma LinesInParts(g: TaskGraph, products: seq<string>, passed: nat, gaps: seq<string>, none: seq<string>, caption: seq<string>)
    requires none == (if passed == 0 then ["- 无。"] else []) && caption == if gaps == [] then [] else ["", "未完成节点："]
    ensures WithGaps(OrNone(Header(g) + products, passed), gaps)
         == [Header(g)[0]] + (Header(g)[1..] + products + none + caption + gaps)
  {
    hide Header;
    HeaderStarts(g);
    var h := Header(g);
    assert h == [h[0]] + h[1..];
    Reassociated(h[0], h[1..], products, none, caption, gaps);
    assert h + products + [] == h + products;
  }

  lemma Reassociated(x: string, a: seq<string>, b: seq<string>, c: seq<string>, d: seq<string>, e: seq<string>)
    ensures [x] + a + b + c + (d + e) == [x] + (a + b + c + d + e)
    ensures d == [] && e == [] ==> [x] + a + b + c == [x] + (a + b + c + d + e)
  {
  }

  lemma HeaderStarts(g: TaskGraph)
    ensures Header(g) != []
  {
  }

  lemma BrokenParts(a: seq<string>, b: seq<string>, c: seq<string>, d: seq<string>, e: seq<string>)
    ensures Broken(a + b + c + d + e) == Broken(a) + Broken(b) + Broken(c) + Broken(d) + Broken(e)
  {
    hide Broken;
    BrokenConcat(a + b + c + d, e);
    BrokenConcat(a + b + c, d);
    BrokenConcat(a + b, c);
    BrokenConcat(a, b);
  }

  lemma HeadNamesTask(g: TaskGraph)
    ensures Contains(Header(g)[0] + Broken(Header(g)[1..]), g.rootTask)
  {
    hide Contains, Broken;
    var header := Header(g);
    var after := header[2..];
    assert header[1..] == [header[1]] + after;
    BrokenConcat([header[1]], after);
    BrokenOne(header[1]);
    var before := header[0] + "\n" + "原始任务：";
    assert header[0] + Broken(header[1..]) == before + g.rootTask + Broken(after);
    ContainsMiddle(before, g.rootTask, Broken(after));
  }

  lemma {:induction false} PassedInOrder(nodes: seq<TaskNode>, states: map<string, NodeState>)
    ensures InOrderOf(PassedNodes(nodes, states), nodes) && InOrderOf(GapNodes(nodes, states), nodes)
  {
    hide InOrderOf, IsPassed, IsGap;
    if nodes == [] {
      NothingInOrder<TaskNode>([]);
    } else {
      var front, n := nodes[..|nodes| - 1], nodes[|nodes| - 1];
      PassedInOrder(front, states);
      MoreInOrder(PassedNodes(front, states), front, n);
      MoreInOrder(GapNodes(front, states), front, n);
      assert front + [n] == nodes;
    }
  }
}
