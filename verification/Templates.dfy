/** Objective templates of configured rules: what rendering makes of them. */
module Templates {
  import opened Text
  import opened Rules

  /** A template in pieces: words, and places for the task and for the rule's id and description. */
  datatype Piece = Words(text: string) | TaskSlot | RuleIdSlot | DescriptionSlot

  function TemplateOf(pieces: seq<Piece>): string {
    if pieces == [] then []
    else
      (match pieces[0]
       case Words(text) => text
       case TaskSlot => "{{task}}"
       case RuleIdSlot => "{{rule_id}}"
       case DescriptionSlot => "{{rule_description}}")
      + TemplateOf(pieces[1..])
  }

  /** The pieces with the values in their places. */
  function Filled(pieces: seq<Piece>, task: string, rule: Rule): string {
    if pieces == [] then []
    else
      (match pieces[0]
       case Words(text) => text
       case TaskSlot => task
       case RuleIdSlot => rule.id
       case DescriptionSlot => rule.description)
      + Filled(pieces[1..], task, rule)
  }

  predicate PlainWords(pieces: seq<Piece>) {
    forall i :: 0 <= i < |pieces| && pieces[i].Words? ==> '{' !in pieces[i].text
  }

  /** One kind of slot replaced by words. */
  function Fill(pieces: seq<Piece>, slot: Piece, value: string): seq<Piece> {
    seq(|pieces|, i requires 0 <= i < |pieces| => if pieces[i] == slot then Words(value) else pieces[i])
  }

  lemma {:induction false} SkipsWords(words: string, s: string, pattern: string, value: string)
    requires pattern != [] && pattern[0] == '{' && '{' !in words
    ensures Replace(words + s, pattern, value) == words + Replace(s, pattern, value)
  {
    if words == [] {
      assert words + s == s;
    } else {
      assert (words + s)[1..] == words[1..] + s;
      assert (words + s)[0] == words[0] && words[0] in words;
      SkipsWords(words[1..], s, pattern, value);
    }
  }

  /** A slot that is not the pattern stays. */
  lemma SkipsSlot(slot: string, s: string, pattern: string, value: string, k: nat)
    requires 2 < |pattern| && pattern[..2] == "{{" && 2 < |slot| && slot[..2] == "{{" && '{' !in slot[2..]
    requires k < |slot| && k < |pattern| && slot[k] != pattern[k]
    ensures Replace(slot + s, pattern, value) == slot + Replace(s, pattern, value)
  {
    hide Replace;
    var words := slot[2..];
    var tail := words + s;
    var second := ['{'] + tail;
    var all := ['{'] + second;
    SlotParts(slot, s);
    assert pattern[1] == pattern[..2][1];
    Mismatch(pattern, all, k);
    ReplaceStep(all, pattern, value);
    assert words[0] in words;
    Mismatch(pattern, second, 1);
    ReplaceStep(second, pattern, value);
    SkipsWords(words, s, pattern, value);
    SlotParts(slot, Replace(s, pattern, value));
  }

  lemma SlotParts(slot: string, s: string)
    requires 2 <= |slot| && slot[..2] == "{{"
    ensures slot + s == ['{'] + (['{'] + (slot[2..] + s))
  {
    assert slot == "{{" + slot[2..];
  }

  lemma Mismatch(p: string, t: string, k: nat)
    requires k < |p| && k < |t| && p[k] != t[k]
    ensures !(p <= t)
  {
  }

  lemma HitsSlot(s: string, pattern: string, value: string)
    requires pattern != []
    ensures Replace(pattern + s, pattern, value) == value + Replace(s, pattern, value)
  {
    assert (pattern + s)[|pattern|..] == s;
  }

  function SlotText(slot: Piece): string
    requires !slot.Words?
  {
    match slot
    case TaskSlot => "{{task}}"
    case RuleIdSlot => "{{rule_id}}"
    case DescriptionSlot => "{{rule_description}}"
  }

  lemma SlotTexts(slot: Piece)
    requires !slot.Words?
    ensures 2 < |SlotText(slot)| && SlotText(slot)[..2] == "{{" && '{' !in SlotText(slot)[2..]
  {
    match slot {
      case TaskSlot =>
        Braced("{{task}}", "task}}");
      case RuleIdSlot =>
        Braced("{{rule_id}}", "rule_id}}");
      case DescriptionSlot =>
        Braced("{{rule_description}}", "rule_description}}");
    }
  }

  lemma Braced(text: string, words: string)
    requires text == "{{" + words && words != [] && '{' !in words
    ensures 2 < |text| && text[..2] == "{{" && '{' !in text[2..]
  {
    assert text[2..] == words;
  }

  /** Where the texts of two slots differ. */
  function Difference(a: Piece, b: Piece): nat {
    if a.TaskSlot? || b.TaskSlot? then 2 else 7
  }

  lemma SlotsDiffer(a: Piece, b: Piece)
    requires !a.Words? && !b.Words? && a != b
    ensures var k := Difference(a, b);
            k < |SlotText(a)| && k < |SlotText(b)| && SlotText(a)[k] != SlotText(b)[k]
  {
    match a {
      case TaskSlot => assert SlotText(a)[2] == 't' && SlotText(b)[2] == 'r';
      case RuleIdSlot =>
        if b.DescriptionSlot? {
          assert SlotText(a)[7] == 'i' && SlotText(b)[7] == 'd';
        }
      case DescriptionSlot =>
        if b.RuleIdSlot? {
          assert SlotText(a)[7] == 'd' && SlotText(b)[7] == 'i';
        }
    }
  }

  lemma {:induction false} ReplaceFills(pieces: seq<Piece>, slot: Piece, value: string)
    requires PlainWords(pieces) && !slot.Words?
    ensures Replace(TemplateOf(pieces), SlotText(slot), value) == TemplateOf(Fill(pieces, slot, value))
  {
    SlotTexts(slot);
    hide Replace, SlotText;
    if pieces == [] {
      NothingToReplace(SlotText(slot), value);
    } else {
      var first, rest := pieces[0], pieces[1..];
      ReplaceFills(rest, slot, value);
      assert Fill(pieces, slot, value)[1..] == Fill(rest, slot, value);
      var pattern := SlotText(slot);
      if first.Words? {
        SkipsWords(first.text, TemplateOf(rest), pattern, value);
      } else if first == slot {
        HitsSlot(TemplateOf(rest), pattern, value);
        SlotIsTemplate(first);
      } else {
        SlotTexts(first);
        SlotsDiffer(first, slot);
        SkipsSlot(SlotText(first), TemplateOf(rest), pattern, value, Difference(first, slot));
        SlotIsTemplate(first);
      }
    }
  }

  lemma SlotIsTemplate(slot: Piece)
    requires !slot.Words?
    ensures SlotText(slot) == match slot
                              case Words(text) => text
                              case TaskSlot => "{{task}}"
                              case RuleIdSlot => "{{rule_id}}"
                              case DescriptionSlot => "{{rule_description}}"
  {
  }

  lemma NothingToReplace(pattern: string, value: string)
    requires pattern != []
    ensures Replace([], pattern, value) == []
  {
  }

  lemma {:induction false} AllFilled(pieces: seq<Piece>, task: string, rule: Rule)
    ensures TemplateOf(Fill(Fill(Fill(pieces, TaskSlot, task), RuleIdSlot, rule.id), DescriptionSlot, rule.description))
         == Filled(pieces, task, rule)
  {
    if pieces != [] {
      var rest := pieces[1..];
      var filled := Fill(Fill(Fill(pieces, TaskSlot, task), RuleIdSlot, rule.id), DescriptionSlot, rule.description);
      assert filled[1..] == Fill(Fill(Fill(rest, TaskSlot, task), RuleIdSlot, rule.id), DescriptionSlot, rule.description);
      AllFilled(rest, task, rule);
    }
  }

  /** Rendering puts each value into every one of its places and changes nothing else. */
  lemma RenderFills(pieces: seq<Piece>, task: string, rule: Rule)
    requires PlainWords(pieces) && '{' !in task && '{' !in rule.id
    ensures Render(TemplateOf(pieces), task, rule) == Filled(pieces, task, rule)
  {
    hide Replace, TemplateOf, Filled;
    var tasked := Fill(pieces, TaskSlot, task);
    var named := Fill(tasked, RuleIdSlot, rule.id);
    ReplaceFills(pieces, TaskSlot, task);
    ReplaceFills(tasked, RuleIdSlot, rule.id);
    ReplaceFills(named, DescriptionSlot, rule.description);
    AllFilled(pieces, task, rule);
  }

  /** The values are filled in one after the other, so a task that names a slot is rendered itself. */
  lemma TaskIsRenderedToo(rule: Rule)
    requires '{' !in rule.id
    ensures Render(TemplateOf([TaskSlot]), TemplateOf([RuleIdSlot]), rule) == rule.id
  {
    hide Replace;
    var task, named := TemplateOf([RuleIdSlot]), [Words(rule.id)];
    ReplaceFills([TaskSlot], TaskSlot, task);
    assert Fill([TaskSlot], TaskSlot, task) == [Words(task)];
    ReplaceFills([RuleIdSlot], RuleIdSlot, rule.id);
    assert Fill([RuleIdSlot], RuleIdSlot, rule.id) == named;
    ReplaceFills(named, DescriptionSlot, rule.description);
    assert Fill(named, DescriptionSlot, rule.description) == named;
    assert TemplateOf([Words(task)]) == task && TemplateOf(named) == rule.id;
  }
}
