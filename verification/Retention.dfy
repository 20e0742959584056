/** Which records a compaction keeps: the caps, the best of each kind, and stability. */
module Retention {
  import opened MemoryRecords
  import opened Compaction

  // ---------------------------------------------------------------- keyed records come first

  ghost predicate KeyedFirst(records: seq<Record>) {
    forall i, j :: 0 <= i < j < |records| && records[j].key.Some? ==> records[i].key.Some?
  }

  lemma {:induction false} InsertKeyedFirst(r: Record, sorted: seq<Record>)
    requires KeyedFirst(sorted)
    ensures KeyedFirst(Insert(r, sorted))
  {
    if sorted != [] && !Before(r, sorted[0]) {
      InsertKeyedFirst(r, sorted[1..]);
      InsertMultiset(r, sorted[1..]);
      var tail := Insert(r, sorted[1..]);
      forall j | 0 <= j < |tail| && tail[j].key.Some?
        ensures sorted[0].key.Some?
      {
        assert tail[j] in multiset(tail);
        assert tail[j] == r || tail[j] in sorted[1..];
      }
    }
  }

  /** Sorting puts every keyed record before every unkeyed one, even where the comparator clashes. */
  lemma {:induction false} ArrangeKeyedFirst(records: seq<Record>)
    ensures KeyedFirst(Arrange(records))
    decreases |records|
  {
    if records != [] {
      ArrangeKeyedFirst(records[..|records| - 1]);
      InsertKeyedFirst(records[|records| - 1], Arrange(records[..|records| - 1]));
    }
  }

  lemma {:induction false} AllUnkeyed(records: seq<Record>)
    requires forall i :: 0 <= i < |records| ==> records[i].key.None?
    ensures Keyed(records) == [] && Unkeyed(records) == records
  {
    if records != [] {
      AllUnkeyed(records[1..]);
    }
  }

  // ---------------------------------------------------------------- what exactly is kept

  function Min(a: nat, b: nat): nat {
    if a <= b then a else b
  }

  function Left(cap: nat, used: nat): nat {
    if used <= cap then cap - used else 0
  }

  lemma {:induction false} KeepUnkeyed(records: seq<Record>, policy: Policy, total: nat, unkeyed: nat)
    requires forall i :: 0 <= i < |records| ==> records[i].key.None?
    ensures Keep(records, policy, total, unkeyed)
         == records[..Min(|records|, Min(Left(policy.maxUnkeyed, unkeyed), Left(policy.maxPerGroup, total)))]
  {
    if records != [] && total < policy.maxPerGroup {
      if unkeyed < policy.maxUnkeyed {
        KeepUnkeyed(records[1..], policy, total + 1, unkeyed + 1);
      } else {
        KeepUnkeyed(records[1..], policy, total, unkeyed);
      }
    }
  }

  /** Keyed records up to the cap of the group, then unkeyed ones up to both caps. */
  function Retained(keyed: seq<Record>, unkeyed: seq<Record>, policy: Policy, total: nat): seq<Record> {
    var a := Min(|keyed|, Left(policy.maxPerGroup, total));
    keyed[..a] + unkeyed[..Min(|unkeyed|, Min(policy.maxUnkeyed, Left(policy.maxPerGroup, total + a)))]
  }

  lemma {:induction false} KeepSplits(records: seq<Record>, policy: Policy, total: nat)
    requires KeyedFirst(records)
    ensures Keep(records, policy, total, 0) == Retained(Keyed(records), Unkeyed(records), policy, total)
  {
    if records == [] || total >= policy.maxPerGroup {
      KeepsNothing(records, policy, total);
    } else if records[0].key.None? {
      AllUnkeyed(records);
      KeepUnkeyed(records, policy, total, 0);
    } else {
      hide Retained;
      KeepSplits(records[1..], policy, total + 1);
      RetainedFirst(records[0], Keyed(records[1..]), Unkeyed(records[1..]), policy, total);
    }
  }

  lemma KeepsNothing(records: seq<Record>, policy: Policy, total: nat)
    requires records == [] || total >= policy.maxPerGroup
    ensures Keep(records, policy, total, 0) == [] == Retained(Keyed(records), Unkeyed(records), policy, total)
  {
  }

  lemma RetainedFirst(first: Record, keyed: seq<Record>, unkeyed: seq<Record>, policy: Policy, total: nat)
    requires total < policy.maxPerGroup
    ensures Retained([first] + keyed, [] + unkeyed, policy, total) == [first] + Retained(keyed, unkeyed, policy, total + 1)
  {
    assert [] + unkeyed == unkeyed;
  }

  function KeptKeyed(group: seq<Record>, policy: Policy): nat {
    Min(|Keyed(Arrange(group))|, policy.maxPerGroup)
  }

  function KeptUnkeyed(group: seq<Record>, policy: Policy): nat {
    Min(|Unkeyed(Arrange(group))|, Min(policy.maxUnkeyed, Left(policy.maxPerGroup, KeptKeyed(group, policy))))
  }

  lemma CompactedExactly(group: seq<Record>, policy: Policy)
    ensures Compacted(group, policy)
         == Keyed(Arrange(group))[..KeptKeyed(group, policy)] + Unkeyed(Arrange(group))[..KeptUnkeyed(group, policy)]
  {
    ArrangeKeyedFirst(group);
    KeepSplits(Arrange(group), policy, 0);
  }

  // ---------------------------------------------------------------- caps, sizes and totals

  lemma {:induction false} KeepCaps(records: seq<Record>, policy: Policy, total: nat, unkeyed: nat)
    ensures |Keep(records, policy, total, unkeyed)| <= Left(policy.maxPerGroup, total)
    ensures |Unkeyed(Keep(records, policy, total, unkeyed))| <= Left(policy.maxUnkeyed, unkeyed)
    ensures |Keep(records, policy, total, unkeyed)| <= |records|
    ensures Chars(Keep(records, policy, total, unkeyed)) <= Chars(records)
    ensures forall r :: r in Keep(records, policy, total, unkeyed) ==> r in records
    decreases |records|
  {
    if records != [] && total < policy.maxPerGroup {
      if records[0].key.Some? {
        KeepCaps(records[1..], policy, total + 1, unkeyed);
      } else if unkeyed < policy.maxUnkeyed {
        KeepCaps(records[1..], policy, total + 1, unkeyed + 1);
      } else {
        KeepCaps(records[1..], policy, total, unkeyed);
      }
    }
  }

  ghost predicate WithinCaps(group: seq<Record>, policy: Policy) {
    |group| <= policy.maxPerGroup && |Unkeyed(group)| <= policy.maxUnkeyed
  }

  lemma CompactedCaps(group: seq<Record>, policy: Policy)
    ensures WithinCaps(Compacted(group, policy), policy)
    ensures forall r :: r in Compacted(group, policy) ==> r in group
    ensures |Compacted(group, policy)| <= |group|
  {
    hide Keep, Arrange;
    KeepCaps(Arrange(group), policy, 0, 0);
    ArrangeMultiset(group);
    forall r | r in Compacted(group, policy)
      ensures r in group
    {
      InArrange(group, r);
    }
  }

  lemma {:induction false} InsertChars(r: Record, sorted: seq<Record>)
    ensures Chars(Insert(r, sorted)) == Chars(sorted) + |r.content|
  {
    if sorted != [] && !Before(r, sorted[0]) {
      InsertChars(r, sorted[1..]);
    }
  }

  lemma {:induction false} ArrangeChars(records: seq<Record>)
    ensures Chars(Arrange(records)) == Chars(records)
    decreases |records|
  {
    if records != [] {
      var n := |records| - 1;
      ArrangeChars(records[..n]);
      InsertChars(records[n], Arrange(records[..n]));
      CharsConcat(records[..n], [records[n]]);
      assert records == records[..n] + [records[n]];
    }
  }

  lemma GroupStatsBalanced(group: seq<Record>, policy: Policy)
    ensures GroupStats(group, Compacted(group, policy)).Balanced()
  {
    hide Keep, Arrange, Chars;
    KeepCaps(Arrange(group), policy, 0, 0);
    ArrangeMultiset(group);
    ArrangeChars(group);
  }

  // ---------------------------------------------------------------- the best are retained

  lemma {:induction false} InKeyed(records: seq<Record>, r: Record)
    ensures r in Keyed(records) <==> r in records && r.key.Some?
    ensures r in Unkeyed(records) <==> r in records && r.key.None?
  {
    if records != [] {
      InKeyed(records[1..], r);
    }
  }

  lemma {:induction false} PartsSorted(records: seq<Record>)
    requires Sorted(records)
    ensures Sorted(Keyed(records)) && Sorted(Unkeyed(records))
  {
    hide Before;
    if records != [] {
      PartsSorted(records[1..]);
      forall r | r in Keyed(records[1..]) || r in Unkeyed(records[1..])
        ensures !Before(r, records[0])
      {
        InKeyed(records[1..], r);
      }
    }
  }

  /** In a sorted list, nothing a cut drops outranks what it keeps. */
  lemma CutKeepsBest(records: seq<Record>, n: nat, kept: Record, dropped: Record)
    requires Sorted(records) && n <= |records|
    requires kept in records[..n] && dropped in records && dropped !in records[..n]
    ensures !Before(dropped, kept)
  {
    var i :| 0 <= i < n && records[..n][i] == kept;
    var j :| 0 <= j < |records| && records[j] == dropped;
    assert j >= n;
  }

  ghost predicate Dropped(group: seq<Record>, policy: Policy, r: Record) {
    r in group && r !in Compacted(group, policy)
  }

  /** A dropped record met a full group, or had no key and met its own cap. */
  lemma DroppedOnlyWhenFull(group: seq<Record>, policy: Policy, r: Record)
    requires Dropped(group, policy, r)
    ensures |Compacted(group, policy)| == policy.maxPerGroup
         || (r.key.None? && |Unkeyed(Compacted(group, policy))| == policy.maxUnkeyed)
  {
    hide Keep, Arrange;
    CompactedExactly(group, policy);
    InArrange(group, r);
    InKeyed(Arrange(group), r);
    var keyed, unkeyed := Keyed(Arrange(group)), Unkeyed(Arrange(group));
    var a, b := KeptKeyed(group, policy), KeptUnkeyed(group, policy);
    if r.key.Some? {
      assert r !in keyed[..a] && keyed[..|keyed|] == keyed;
    } else {
      assert r !in unkeyed[..b] && unkeyed[..|unkeyed|] == unkeyed;
      CutParts(group, a, b);
    }
  }

  lemma CutParts(group: seq<Record>, a: nat, b: nat)
    requires a <= |Keyed(Arrange(group))| && b <= |Unkeyed(Arrange(group))|
    ensures Unkeyed(Keyed(Arrange(group))[..a] + Unkeyed(Arrange(group))[..b]) == Unkeyed(Arrange(group))[..b]
  {
    hide Arrange;
    var keyed, unkeyed := Keyed(Arrange(group))[..a], Unkeyed(Arrange(group))[..b];
    forall i | 0 <= i < |keyed|
      ensures keyed[i].key.Some?
    {
      InKeyed(Arrange(group), keyed[i]);
    }
    forall i | 0 <= i < |unkeyed|
      ensures unkeyed[i].key.None?
    {
      InKeyed(Arrange(group), unkeyed[i]);
    }
    UnkeyedOf(keyed, unkeyed);
  }

  lemma {:induction false} UnkeyedOf(keyed: seq<Record>, unkeyed: seq<Record>)
    requires forall i :: 0 <= i < |keyed| ==> keyed[i].key.Some?
    requires forall i :: 0 <= i < |unkeyed| ==> unkeyed[i].key.None?
    ensures Unkeyed(keyed + unkeyed) == unkeyed
  {
    if keyed == [] {
      assert keyed + unkeyed == unkeyed;
      AllUnkeyed(unkeyed);
    } else {
      assert (keyed + unkeyed)[1..] == keyed[1..] + unkeyed;
      UnkeyedOf(keyed[1..], unkeyed);
    }
  }

  /** No keyed record is dropped while an unkeyed one stays. */
  lemma KeyedSurviveUnkeyed(group: seq<Record>, policy: Policy, kept: Record, dropped: Record)
    requires kept in Compacted(group, policy) && Dropped(group, policy, dropped) && dropped.key.Some?
    ensures kept.key.Some?
  {
    hide Keep, Arrange;
    CompactedExactly(group, policy);
    InArrange(group, dropped);
    InKeyed(Arrange(group), dropped);
    var keyed := Keyed(Arrange(group));
    assert dropped !in keyed[..KeptKeyed(group, policy)] && keyed[..|keyed|] == keyed;
    assert KeptUnkeyed(group, policy) == 0;
    assert kept in keyed;
    InKeyed(Arrange(group), kept);
  }

  /**
   * Among records of one keyedness, nothing dropped outranks anything kept: what is kept has at least the
   * confidence of what is dropped, and with equal confidence was updated no earlier.
   */
  lemma BestRetained(group: seq<Record>, policy: Policy, kept: Record, dropped: Record)
    requires kept in Compacted(group, policy) && Dropped(group, policy, dropped)
    requires kept.key.Some? == dropped.key.Some?
    ensures !Before(dropped, kept)
    ensures !SameRank(kept, dropped) ==> Before(kept, dropped)
    ensures kept.confidence >= dropped.confidence
    ensures kept.confidence == dropped.confidence ==> kept.updatedAt >= dropped.updatedAt
  {
    hide Keep, Arrange, Before, SameRank;
    ComparatorOrders(kept, dropped, kept);
    BeforeExactly(dropped, kept);
    ArrangeSorts(group);
    PartsSorted(Arrange(group));
    CompactedExactly(group, policy);
    InArrange(group, dropped);
    InKeyed(Arrange(group), dropped);
    InKeyed(Arrange(group), kept);
    var keyed, unkeyed := Keyed(Arrange(group)), Unkeyed(Arrange(group));
    if kept.key.Some? {
      NotInPrefix(unkeyed, KeptUnkeyed(group, policy), kept);
      CutKeepsBest(keyed, KeptKeyed(group, policy), kept, dropped);
    } else {
      NotInPrefix(keyed, KeptKeyed(group, policy), kept);
      CutKeepsBest(unkeyed, KeptUnkeyed(group, policy), kept, dropped);
    }
  }

  lemma NotInPrefix(records: seq<Record>, n: nat, r: Record)
    requires n <= |records| && r !in records
    ensures r !in records[..n]
  {
  }

  // ---------------------------------------------------------------- stability

  lemma {:induction false} KeepAll(records: seq<Record>, policy: Policy, total: nat, unkeyed: nat)
    requires total + |records| <= policy.maxPerGroup && unkeyed + |Unkeyed(records)| <= policy.maxUnkeyed
    ensures Keep(records, policy, total, unkeyed) == records
  {
    if records != [] {
      KeepAll(records[1..], policy, total + 1, if records[0].key.None? then unkeyed + 1 else unkeyed);
    }
  }

  /** A sorted group within its caps is left as it is. */
  lemma CompactedFixed(group: seq<Record>, policy: Policy)
    requires Sorted(group) && WithinCaps(group, policy)
    ensures Compacted(group, policy) == group
  {
    ArrangeSorted(group);
    KeepAll(group, policy, 0, 0);
  }

  lemma SortedPrepend(first: Record, all: seq<Record>, rest: seq<Record>)
    requires Sorted([first] + all) && Sorted(rest) && forall r :: r in rest ==> r in all
    ensures Sorted([first] + rest)
  {
    hide Before;
    forall j | 0 <= j < |rest|
      ensures !Before(rest[j], first)
    {
      assert rest[j] in rest;
      var k :| 0 <= k < |all| && all[k] == rest[j];
      var whole := [first] + all;
      assert whole[0] == first && whole[k + 1] == rest[j];
    }
  }

  lemma {:induction false} KeepSorted(records: seq<Record>, policy: Policy, total: nat, unkeyed: nat)
    requires Sorted(records)
    ensures Sorted(Keep(records, policy, total, unkeyed))
  {
    hide Before;
    if records != [] && total < policy.maxPerGroup {
      var rest := records[1..];
      assert records == [records[0]] + rest;
      if records[0].key.Some? || unkeyed < policy.maxUnkeyed {
        var next := if records[0].key.Some? then unkeyed else unkeyed + 1;
        KeepSorted(rest, policy, total + 1, next);
        KeepCaps(rest, policy, total + 1, next);
        SortedPrepend(records[0], rest, Keep(rest, policy, total + 1, next));
      } else {
        KeepSorted(rest, policy, total, unkeyed);
      }
    }
  }

  lemma CompactedSorted(group: seq<Record>, policy: Policy)
    ensures Sorted(Compacted(group, policy))
  {
    hide Before;
    ArrangeSorts(group);
    KeepSorted(Arrange(group), policy, 0, 0);
  }

  /** Compaction is idempotent. */
  lemma CompactedTwice(group: seq<Record>, policy: Policy)
    ensures Compacted(Compacted(group, policy), policy) == Compacted(group, policy)
  {
    CompactedSorted(group, policy);
    CompactedCaps(group, policy);
    CompactedFixed(Compacted(group, policy), policy);
  }
}
