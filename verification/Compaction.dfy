/** Compaction of one record, and of all records that share a scope and a kind. */
module Compaction {
  import opened Common
  import opened Normalization
  import opened MemoryRecords

  // ---------------------------------------------------------------- one record

  const MARKER := "\n\n[...memory compacted...]\n\n"

  function Clamp(x: real): real {
    if x < 0.0 then 0.0 else if x > 1.0 then 1.0 else x
  }

  function TruncateChars(s: string, max: nat): string {
    if |s| <= max then s else s[..max]
  }

  function LastChars(s: string, max: nat): string {
    if |s| <= max then s else s[|s| - max..]
  }

  function TruncateHeadTail(s: string, max: nat): string {
    if max == 0 then []
    else if max <= |MARKER| + 2 then TruncateChars(s, max)
    else
      var available := max - |MARKER|;
      TruncateChars(s, available / 2) + MARKER + LastChars(s, available - available / 2)
  }

  /** The content a record is stored with; a record without content is dropped. */
  function StoredContent(content: string, max: nat): string {
    var normal := NormalizeWhitespace(content);
    if |normal| > max then TruncateHeadTail(normal, max) else normal
  }

  function CompactRecord(r: Record, policy: Policy): (Option<Record>, Stats) {
    var normal := NormalizeWhitespace(r.content);
    if normal == [] then
      (None, NO_STATS.(input := 1, beforeChars := |r.content|, dropped := 1))
    else
      var stored := StoredContent(r.content, policy.maxRecordChars);
      (Some(r.(content := stored, confidence := Clamp(r.confidence), tags := NormalizeTags(r.tags))),
       NO_STATS.(input := 1, output := 1, beforeChars := |r.content|, afterChars := |stored|,
                 truncated := if |normal| > policy.maxRecordChars then 1 else 0))
  }

  /** A truncated content has exactly the allowed length, and none is longer. */
  lemma StoredLength(content: string, max: nat)
    ensures |StoredContent(content, max)| <= max
    ensures |NormalizeWhitespace(content)| >= max ==> |StoredContent(content, max)| == max
    ensures |StoredContent(content, max)| <= |content|
  {
    hide NormalizeWhitespace;
    NormalizeShrinks(content);
  }

  /** A content cut around the marker keeps its two ends, the second at most one character longer. */
  lemma TruncationKeepsEnds(content: string, max: nat) returns (head: nat, tail: nat)
    requires |NormalizeWhitespace(content)| > max > |MARKER| + 2
    ensures head + |MARKER| + tail == max && head <= tail <= head + 1
    ensures var normal := NormalizeWhitespace(content);
            && head + tail < |normal|
            && StoredContent(content, max) == normal[..head] + MARKER + normal[|normal| - tail..]
  {
    hide NormalizeWhitespace;
    head := (max - |MARKER|) / 2;
    tail := max - |MARKER| - head;
  }

  /** A content that fits is stored whole, and one with no room for the marker is cut to its beginning. */
  lemma ShortTruncation(content: string, max: nat)
    ensures |NormalizeWhitespace(content)| <= max ==> StoredContent(content, max) == NormalizeWhitespace(content)
    ensures max <= |MARKER| + 2 ==> StoredContent(content, max) <= NormalizeWhitespace(content)
  {
    hide NormalizeWhitespace;
  }

  lemma CompactRecordBalanced(r: Record, policy: Policy)
    ensures CompactRecord(r, policy).1.Balanced()
  {
    hide NormalizeWhitespace, StoredContent;
    StoredLength(r.content, policy.maxRecordChars);
  }

  function Distance(x: real, y: real): real {
    if x <= y then y - x else x - y
  }

  /** Compaction keeps what a record is and when it was made, and moves its confidence as little as it must. */
  lemma CompactRecordKeeps(r: Record, policy: Policy)
    ensures CompactRecord(r, policy).0.Some? <==> NormalizeWhitespace(r.content) != []
    ensures CompactRecord(r, policy).0.Some? ==>
              var kept := CompactRecord(r, policy).0.value;
              && kept.id == r.id && kept.scope == r.scope && kept.kind == r.kind && kept.key == r.key
              && kept.source == r.source && kept.createdAt == r.createdAt && kept.updatedAt == r.updatedAt
              && 0.0 <= kept.confidence <= 1.0
              && forall y: real :: 0.0 <= y <= 1.0 ==> Distance(r.confidence, kept.confidence) <= Distance(r.confidence, y)
  {
    hide NormalizeWhitespace, StoredContent, NormalizeTags;
  }

  /**
   * Which records pass through compaction unchanged: those whose content is non-empty, settled and short
   * enough, whose confidence is a probability and whose tags are already normal.
   */
  lemma CompactionFixes(r: Record, policy: Policy)
    ensures CompactRecord(r, policy).0 == Some(r)
       <==> r.content != [] && Settled(r.content) && |r.content| <= policy.maxRecordChars
            && 0.0 <= r.confidence <= 1.0 && NormalizeTags(r.tags) == r.tags
  {
    hide NormalizeWhitespace, NormalizeTags, Settled, TruncateHeadTail;
    FixedIffSettled(r.content);
    NormalizeShrinks(r.content);
    StoredLength(r.content, policy.maxRecordChars);
  }

  // ---------------------------------------------------------------- retention priority

  datatype Ordering = Less | Equal | Greater

  function ThenWith(first: Ordering, second: Ordering): Ordering {
    if first.Equal? then second else first
  }

  function CompareBool(a: bool, b: bool): Ordering {
    if a == b then Equal else if b then Less else Greater
  }

  function CompareReal(a: real, b: real): Ordering {
    if a < b then Less else if a > b then Greater else Equal
  }

  function CompareNat(a: nat, b: nat): Ordering {
    if a < b then Less else if a > b then Greater else Equal
  }

  /** `Less` puts `left` in front. */
  function ComparePriority(left: Record, right: Record): Ordering {
    ThenWith(CompareBool(right.key.Some?, left.key.Some?),
    ThenWith(CompareReal(right.confidence, left.confidence),
    ThenWith(if right.updatedAt >= left.updatedAt then Greater else Less,
             CompareNat(|left.content|, |right.content|))))
  }

  predicate Before(left: Record, right: Record) {
    ComparePriority(left, right).Less?
  }

  predicate SameRank(a: Record, b: Record) {
    a.key.Some? == b.key.Some? && a.confidence == b.confidence && a.updatedAt == b.updatedAt
  }

  /**
   * The comparator is no order: it answers `Greater` both ways exactly on records of the same keyedness,
   * confidence and update time, itself included, and never reaches its last component.
   */
  lemma ComparatorClash(a: Record, b: Record)
    ensures (ComparePriority(a, b).Greater? && ComparePriority(b, a).Greater?) <==> SameRank(a, b)
    ensures !ComparePriority(a, b).Equal?
  {
  }

  /** In front goes what has a key, then what has the higher confidence, then what was updated later. */
  lemma BeforeExactly(a: Record, b: Record)
    ensures Before(a, b) <==>
            || (a.key.Some? && b.key.None?)
            || ((a.key.Some? <==> b.key.Some?)
                && (a.confidence > b.confidence || (a.confidence == b.confidence && a.updatedAt > b.updatedAt)))
  {
  }

  /** Its answer `Less` is a strict weak order whose ties are exactly the clashes. */
  lemma ComparatorOrders(a: Record, b: Record, c: Record)
    ensures Before(a, b) && Before(b, c) ==> Before(a, c)
    ensures !Before(b, a) && !Before(c, b) ==> !Before(c, a)
    ensures !(Before(a, b) && Before(b, a))
    ensures !Before(a, b) && !Before(b, a) <==> SameRank(a, b)
  {
  }

  // ---------------------------------------------------------------- sorting

  /** No two of the records have the same rank. */
  ghost predicate Ranked(records: seq<Record>) {
    forall i, j :: 0 <= i < j < |records| ==> !SameRank(records[i], records[j])
  }

  ghost predicate Sorted(records: seq<Record>) {
    forall i, j :: 0 <= i < j < |records| ==> !Before(records[j], records[i])
  }

  function Insert(r: Record, sorted: seq<Record>): seq<Record> {
    if sorted == [] || Before(r, sorted[0]) then [r] + sorted else [sorted[0]] + Insert(r, sorted[1..])
  }

  /** The records in retention order, later ones placed among the earlier. */
  function Arrange(records: seq<Record>): seq<Record> {
    if records == [] then [] else Insert(records[|records| - 1], Arrange(records[..|records| - 1]))
  }

  lemma {:induction false} InsertMultiset(r: Record, sorted: seq<Record>)
    ensures multiset(Insert(r, sorted)) == multiset(sorted) + multiset{r}
  {
    if sorted != [] && !Before(r, sorted[0]) {
      InsertMultiset(r, sorted[1..]);
      assert sorted == [sorted[0]] + sorted[1..];
    }
  }

  lemma {:induction false} ArrangeMultiset(records: seq<Record>)
    ensures multiset(Arrange(records)) == multiset(records)
    ensures |Arrange(records)| == |records|
    decreases |records|
  {
    if records != [] {
      var n := |records| - 1;
      ArrangeMultiset(records[..n]);
      InsertMultiset(records[n], Arrange(records[..n]));
      assert records == records[..n] + [records[n]];
    }
    assert |multiset(Arrange(records))| == |multiset(records)|;
  }

  lemma InArrange(records: seq<Record>, r: Record)
    ensures r in Arrange(records) <==> r in records
  {
    ArrangeMultiset(records);
    assert r in Arrange(records) <==> r in multiset(Arrange(records));
    assert r in records <==> r in multiset(records);
  }

  lemma {:induction false} InsertSorts(r: Record, sorted: seq<Record>)
    requires Sorted(sorted)
    ensures Sorted(Insert(r, sorted))
  {
    hide Before, SameRank;
    if sorted != [] {
      if Before(r, sorted[0]) {
        ComparatorOrders(r, sorted[0], r);
        forall j | 1 <= j < |sorted|
          ensures !Before(sorted[j], r)
        {
          ComparatorOrders(sorted[j], r, sorted[0]);
        }
      } else {
        InsertSorts(r, sorted[1..]);
        InsertMultiset(r, sorted[1..]);
        var tail := Insert(r, sorted[1..]);
        forall j | 0 <= j < |tail|
          ensures !Before(tail[j], sorted[0])
        {
          assert tail[j] in multiset(tail);
          assert tail[j] == r || tail[j] in sorted[1..];
        }
      }
    }
  }

  lemma {:induction false} ArrangeSorts(records: seq<Record>)
    ensures Sorted(Arrange(records))
    decreases |records|
  {
    hide Before;
    if records != [] {
      ArrangeSorts(records[..|records| - 1]);
      InsertSorts(records[|records| - 1], Arrange(records[..|records| - 1]));
    }
  }

  /** Sorting a sorted list changes nothing. */
  lemma {:induction false} ArrangeSorted(records: seq<Record>)
    requires Sorted(records)
    ensures Arrange(records) == records
    decreases |records|
  {
    hide Before;
    if records != [] {
      var n := |records| - 1;
      ArrangeSorted(records[..n]);
      InsertLast(records[n], records[..n]);
      assert records == records[..n] + [records[n]];
    }
  }

  lemma {:induction false} InsertLast(r: Record, sorted: seq<Record>)
    requires forall i :: 0 <= i < |sorted| ==> !Before(r, sorted[i])
    ensures Insert(r, sorted) == sorted + [r]
  {
    hide Before;
    if sorted != [] {
      InsertLast(r, sorted[1..]);
    }
  }

  /**
   * Sorted permutations of records without clashes agree, so there the order does not depend on the
   * sorting algorithm.
   */
  lemma {:induction false} SortedUnique(a: seq<Record>, b: seq<Record>)
    requires Ranked(a) && Sorted(a) && Sorted(b) && multiset(a) == multiset(b)
    ensures a == b
  {
    hide Before, SameRank;
    if a == [] {
      assert |multiset(b)| == 0;
    } else {
      assert a[0] in multiset(b) && |multiset(a)| == |multiset(b)|;
      SortedHeads(a, b);
      DropHead(a);
      DropHead(b);
      SortedTail(a);
      SortedTail(b);
      hide Ranked, Sorted;
      SortedUnique(a[1..], b[1..]);
    }
  }

  lemma DropHead(a: seq<Record>)
    requires a != []
    ensures a == [a[0]] + a[1..] && multiset(a[1..]) == multiset(a) - multiset{a[0]}
  {
    assert a == [a[0]] + a[1..];
  }

  lemma SortedTail(a: seq<Record>)
    requires a != []
    ensures Ranked(a) ==> Ranked(a[1..])
    ensures Sorted(a) ==> Sorted(a[1..])
  {
    hide Before, SameRank;
  }

  lemma SortedHeads(a: seq<Record>, b: seq<Record>)
    requires Ranked(a) && Sorted(a) && Sorted(b) && multiset(a) == multiset(b) && a != [] && b != []
    ensures a[0] == b[0]
  {
    hide Before, SameRank;
    assert a[0] in multiset(b) && b[0] in multiset(a);
    assert a[0] in b && b[0] in a;
    if a[0] != b[0] {
      ComparatorOrders(a[0], b[0], a[0]);
    }
  }

  // ---------------------------------------------------------------- the caps

  function Keyed(records: seq<Record>): seq<Record> {
    if records == [] then [] else (if records[0].key.Some? then [records[0]] else []) + Keyed(records[1..])
  }

  function Unkeyed(records: seq<Record>): seq<Record> {
    if records == [] then [] else (if records[0].key.None? then [records[0]] else []) + Unkeyed(records[1..])
  }

  /** What is kept of `records` once `total` records, `unkeyed` of them without a key, are kept already. */
  function Keep(records: seq<Record>, policy: Policy, total: nat, unkeyed: nat): seq<Record> {
    if records == [] then []
    else if total >= policy.maxPerGroup then []
    else if records[0].key.Some? then [records[0]] + Keep(records[1..], policy, total + 1, unkeyed)
    else if unkeyed >= policy.maxUnkeyed then Keep(records[1..], policy, total, unkeyed)
    else [records[0]] + Keep(records[1..], policy, total + 1, unkeyed + 1)
  }

  function Compacted(group: seq<Record>, policy: Policy): seq<Record> {
    Keep(Arrange(group), policy, 0, 0)
  }

  function GroupStats(group: seq<Record>, kept: seq<Record>): Stats {
    NO_STATS.(input := |group|, output := |kept|, dropped := if |kept| <= |group| then |group| - |kept| else 0,
              beforeChars := Chars(group), afterChars := Chars(kept))
  }

  method CompactScopeKind(group: seq<Record>, policy: Policy) returns (kept: seq<Record>, stats: Stats)
    ensures kept == Compacted(group, policy)
    ensures stats == GroupStats(group, kept)
  {
    hide Arrange, Keep;
    var records := Arrange(group);
    kept := [];
    var unkeyedCount := 0;
    var i := 0;
    assert records[0..] == records;
    while i < |records|
      invariant 0 <= i <= |records|
      invariant kept + Keep(records[i..], policy, |kept|, unkeyedCount) == Keep(records, policy, 0, 0)
    {
      KeepStep(records[i..], policy, |kept|, unkeyedCount);
      assert records[i..][1..] == records[i + 1..];
      var record := records[i];
      i := i + 1;
      if |kept| >= policy.maxPerGroup {
        FullKeepsNothing(records[i..], policy, |kept|, unkeyedCount);
        continue;
      }
      if record.key.None? {
        if unkeyedCount >= policy.maxUnkeyed {
          continue;
        }
        unkeyedCount := unkeyedCount + 1;
      }
      kept := kept + [record];
    }
    KeepEnds(records[i..], policy, |kept|, unkeyedCount);
    stats := GroupStats(group, kept);
  }

  lemma KeepStep(records: seq<Record>, policy: Policy, total: nat, unkeyed: nat)
    requires records != []
    ensures Keep(records, policy, total, unkeyed)
         == if total >= policy.maxPerGroup then []
            else if records[0].key.Some? then [records[0]] + Keep(records[1..], policy, total + 1, unkeyed)
            else if unkeyed >= policy.maxUnkeyed then Keep(records[1..], policy, total, unkeyed)
            else [records[0]] + Keep(records[1..], policy, total + 1, unkeyed + 1)
  {
  }

  lemma KeepEnds(records: seq<Record>, policy: Policy, total: nat, unkeyed: nat)
    ensures records == [] ==> Keep(records, policy, total, unkeyed) == []
  {
  }

  lemma FullKeepsNothing(records: seq<Record>, policy: Policy, total: nat, unkeyed: nat)
    requires total >= policy.maxPerGroup
    ensures Keep(records, policy, total, unkeyed) == []
  {
  }
}
