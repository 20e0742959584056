/** The in-memory list of records under upserts: what every upsert keeps and accounts for. */
module Upserts {
  import opened Common
  import opened MemoryRecords
  import opened Normalization
  import opened Compaction
  import opened Retention

  // ---------------------------------------------------------------- one upsert

  function Members(records: seq<Record>, g: Group): seq<Record> {
    if records == [] then [] else (if GroupOf(records[0]) == g then [records[0]] else []) + Members(records[1..], g)
  }

  function Others(records: seq<Record>, g: Group): seq<Record> {
    if records == [] then [] else (if GroupOf(records[0]) == g then [] else [records[0]]) + Others(records[1..], g)
  }

  predicate SameKey(a: Record, b: Record) {
    GroupOf(a) == GroupOf(b) && a.key.Some? && a.key == b.key
  }

  /** The first stored record with the key of `r`. */
  function KeyPosition(records: seq<Record>, r: Record): (p: Option<nat>)
    ensures p.Some? ==> p.value < |records| && SameKey(records[p.value], r)
    ensures p.None? ==> forall i :: 0 <= i < |records| ==> !SameKey(records[i], r)
  {
    if records == [] then None
    else if SameKey(records[0], r) then Some(0)
    else match KeyPosition(records[1..], r) case Some(i) => Some(i + 1) case None => None
  }

  /** A rewritten record keeps its identity and creation time. */
  function Merge(existing: Record, r: Record, now: int): Record {
    existing.(content := r.content, confidence := r.confidence, tags := r.tags, source := r.source, updatedAt := now)
  }

  function Placed(records: seq<Record>, r: Record, now: int): seq<Record> {
    match KeyPosition(records, r)
    case Some(i) => records[i := Merge(records[i], r, now)]
    case None => records + [r]
  }

  function Regrouped(records: seq<Record>, g: Group, policy: Policy): seq<Record> {
    Others(records, g) + Compacted(Members(records, g), policy)
  }

  function Upsert(records: seq<Record>, policy: Policy, r: Record, now: int): (seq<Record>, Outcome) {
    match CompactRecord(r, policy)
    case (None, stats) => (records, Outcome(0, stats))
    case (Some(c), stats) =>
      var placed := Placed(records, c, now);
      var merged := NO_STATS.(merged := if KeyPosition(records, c).Some? then 1 else 0);
      var group := Members(placed, GroupOf(c));
      (Regrouped(placed, GroupOf(c), policy),
       Outcome(1, stats.Plus(merged).Plus(GroupStats(group, Compacted(group, policy)))))
  }

  // ---------------------------------------------------------------- sequences of upserts

  /** A record and the time at which the store handles it. */
  datatype Write = Write(record: Record, now: int)

  /** The list after `writes` into an empty store. */
  function After(writes: seq<Write>, policy: Policy): seq<Record>
    decreases |writes|
  {
    if writes == [] then []
    else
      var n := |writes| - 1;
      Upsert(After(writes[..n], policy), policy, writes[n].record, writes[n].now).0
  }

  /** The summed outcome of `writes` into an empty store. */
  function Totals(writes: seq<Write>, policy: Policy): Outcome
    decreases |writes|
  {
    if writes == [] then Outcome(0, NO_STATS)
    else
      var n := |writes| - 1;
      var before, last := Totals(writes[..n], policy), Upsert(After(writes[..n], policy), policy, writes[n].record, writes[n].now).1;
      Outcome(before.written + last.written, before.compaction.Plus(last.compaction))
  }

  // ---------------------------------------------------------------- members and others

  lemma {:induction false} InMembers(records: seq<Record>, g: Group, r: Record)
    ensures r in Members(records, g) <==> r in records && GroupOf(r) == g
    ensures r in Others(records, g) <==> r in records && GroupOf(r) != g
  {
    if records != [] {
      InMembers(records[1..], g, r);
    }
  }

  lemma {:induction false} MembersConcat(a: seq<Record>, b: seq<Record>, g: Group)
    ensures Members(a + b, g) == Members(a, g) + Members(b, g)
    ensures Others(a + b, g) == Others(a, g) + Others(b, g)
  {
    if a == [] {
      assert a + b == b;
    } else {
      assert (a + b)[1..] == a[1..] + b;
      MembersConcat(a[1..], b, g);
    }
  }

  lemma {:induction false} AllMembers(records: seq<Record>, g: Group)
    requires forall r :: r in records ==> GroupOf(r) == g
    ensures Members(records, g) == records && Others(records, g) == []
  {
    if records != [] {
      AllMembers(records[1..], g);
    }
  }

  lemma {:induction false} NoMembers(records: seq<Record>, g: Group)
    requires forall r :: r in records ==> GroupOf(r) != g
    ensures Members(records, g) == [] && Others(records, g) == records
  {
    if records != [] {
      assert records == [records[0]] + records[1..];
      NoMembers(records[1..], g);
    }
  }

  lemma {:induction false} MembersOfOthers(records: seq<Record>, g: Group, h: Group)
    requires g != h
    ensures Members(Others(records, g), h) == Members(records, h)
  {
    if records != [] {
      MembersOfOthers(records[1..], g, h);
      if GroupOf(records[0]) != g {
        assert Others(records, g)[1..] == Others(records[1..], g);
      } else {
        assert Others(records, g) == Others(records[1..], g);
      }
    }
  }

  lemma {:induction false} MembersSplit(records: seq<Record>, g: Group)
    ensures |Members(records, g)| + |Others(records, g)| == |records|
  {
    if records != [] {
      MembersSplit(records[1..], g);
    }
  }

  lemma RegroupedMembers(records: seq<Record>, g: Group, policy: Policy, h: Group)
    ensures Members(Regrouped(records, g, policy), h)
         == if h == g then Compacted(Members(records, g), policy) else Members(records, h)
  {
    hide Compacted;
    var kept := Compacted(Members(records, g), policy);
    MembersConcat(Others(records, g), kept, h);
    KeptInGroup(records, g, policy);
    if h == g {
      OthersOutside(records, g);
      NoMembers(Others(records, g), g);
      AllMembers(kept, g);
    } else {
      MembersOfOthers(records, g, h);
      NoMembers(kept, h);
    }
  }

  lemma KeptInGroup(records: seq<Record>, g: Group, policy: Policy)
    ensures forall r :: r in Compacted(Members(records, g), policy) ==> r in records && GroupOf(r) == g
  {
    hide Compacted, Members;
    CompactedCaps(Members(records, g), policy);
    forall r | r in Members(records, g)
      ensures r in records && GroupOf(r) == g
    {
      InMembers(records, g, r);
    }
  }

  lemma OthersOutside(records: seq<Record>, g: Group)
    ensures forall r :: r in Others(records, g) ==> r in records && GroupOf(r) != g
  {
    forall r | r in Others(records, g)
      ensures r in records && GroupOf(r) != g
    {
      InMembers(records, g, r);
    }
  }

  /** Everything a regrouped list holds was there before. */
  lemma RegroupedSubset(records: seq<Record>, g: Group, policy: Policy, r: Record)
    requires r in Regrouped(records, g, policy)
    ensures r in records
  {
    KeptInGroup(records, g, policy);
    OthersOutside(records, g);
  }

  /** An update in place of one member of `g`. */
  lemma {:induction false} OthersOfUpdate(records: seq<Record>, i: nat, r: Record, g: Group, h: Group)
    requires i < |records| && GroupOf(records[i]) == g && GroupOf(r) == g
    ensures Others(records[i := r], g) == Others(records, g)
    ensures h != g ==> Members(records[i := r], h) == Members(records, h)
  {
    if i == 0 {
      assert records[0 := r][1..] == records[1..];
    } else {
      assert records[i := r][1..] == records[1..][i - 1 := r];
      OthersOfUpdate(records[1..], i - 1, r, g, h);
    }
  }

  lemma PlacedOthers(records: seq<Record>, r: Record, now: int, h: Group)
    ensures Others(Placed(records, r, now), GroupOf(r)) == Others(records, GroupOf(r))
    ensures h != GroupOf(r) ==> Members(Placed(records, r, now), h) == Members(records, h)
  {
    hide KeyPosition;
    match KeyPosition(records, r)
    case Some(i) => OthersOfUpdate(records, i, Merge(records[i], r, now), GroupOf(r), h);
    case None =>
      MembersConcat(records, [r], GroupOf(r));
      MembersConcat(records, [r], h);
      AllMembers([r], GroupOf(r));
      if h != GroupOf(r) {
        NoMembers([r], h);
      }
  }

  /** An upsert into one group leaves every other group alone. */
  lemma OtherGroupsUntouched(records: seq<Record>, policy: Policy, r: Record, now: int, h: Group)
    requires h != GroupOf(r)
    ensures Members(Upsert(records, policy, r, now).0, h) == Members(records, h)
  {
    hide Placed, Compacted, Members, Others;
    match CompactRecord(r, policy).0
    case None =>
    case Some(c) =>
      RegroupedMembers(Placed(records, c, now), GroupOf(c), policy, h);
      PlacedOthers(records, c, now, h);
  }

  // ---------------------------------------------------------------- the invariant

  /** Each group is one block. */
  ghost predicate Blocks(records: seq<Record>) {
    forall i, j, k :: 0 <= i < j < k < |records| && GroupOf(records[i]) == GroupOf(records[k])
                  ==> GroupOf(records[j]) == GroupOf(records[i])
  }

  ghost predicate KeysUnique(records: seq<Record>) {
    forall i, j :: 0 <= i < j < |records| ==> !SameKey(records[i], records[j])
  }

  ghost predicate GroupFits(group: seq<Record>, policy: Policy) {
    Sorted(group) && WithinCaps(group, policy)
  }

  ghost predicate GroupsFit(records: seq<Record>, policy: Policy) {
    forall g :: GroupFits(Members(records, g), policy)
  }

  predicate Compact(r: Record, policy: Policy) {
    |r.content| <= policy.maxRecordChars && 0.0 <= r.confidence <= 1.0 && NormalizeTags(r.tags) == r.tags
  }

  ghost predicate AllCompact(records: seq<Record>, policy: Policy) {
    forall r :: r in records ==> Compact(r, policy)
  }

  ghost predicate StoreOk(records: seq<Record>, policy: Policy) {
    Blocks(records) && KeysUnique(records) && GroupsFit(records, policy) && AllCompact(records, policy)
  }

  // Blocks

  lemma {:induction false} OthersBlocks(records: seq<Record>, g: Group)
    requires Blocks(records)
    ensures Blocks(Others(records, g))
  {
    if records != [] {
      var rest := records[1..];
      OthersBlocks(rest, g);
      if GroupOf(records[0]) != g {
        BlocksPrepend(records[0], rest, g);
      }
    }
  }

  lemma BlocksPrepend(first: Record, rest: seq<Record>, g: Group)
    requires Blocks([first] + rest) && Blocks(Others(rest, g)) && GroupOf(first) != g
    ensures Blocks([first] + Others(rest, g))
  {
    var others := Others(rest, g);
    forall j, k | 0 <= j < k < |others| && GroupOf(others[k]) == GroupOf(first)
      ensures GroupOf(others[j]) == GroupOf(first)
    {
      FirstBlock(first, rest, g, j, k);
    }
  }

  /** In `rest`, the records of the group of `first` come before all others. */
  lemma {:induction false} FirstBlock(first: Record, rest: seq<Record>, g: Group, j: nat, k: nat)
    requires Blocks([first] + rest) && GroupOf(first) != g
    requires j < k < |Others(rest, g)| && GroupOf(Others(rest, g)[k]) == GroupOf(first)
    ensures GroupOf(Others(rest, g)[j]) == GroupOf(first)
    decreases |rest|
  {
    var whole, tail := [first] + rest, rest[1..];
    InMembers(rest, g, Others(rest, g)[k]);
    var at :| 0 <= at < |rest| && rest[at] == Others(rest, g)[k];
    assert whole[at + 1] == rest[at] && whole[1] == rest[0] && whole[0] == first;
    assert at > 0 ==> GroupOf(rest[0]) == GroupOf(first);
    assert GroupOf(rest[0]) == GroupOf(first);
    assert Others(rest, g) == [rest[0]] + Others(tail, g);
    if j > 0 {
      BlocksDrop(first, rest);
      FirstBlock(first, tail, g, j - 1, k - 1);
    }
  }

  lemma BlocksDrop(first: Record, rest: seq<Record>)
    requires Blocks([first] + rest) && rest != []
    ensures Blocks([first] + rest[1..])
  {
    var whole, short := [first] + rest, [first] + rest[1..];
    forall i, j, k | 0 <= i < j < k < |short| && GroupOf(short[i]) == GroupOf(short[k])
      ensures GroupOf(short[j]) == GroupOf(short[i])
    {
      var i' := if i == 0 then 0 else i + 1;
      assert whole[i'] == short[i] && whole[j + 1] == short[j] && whole[k + 1] == short[k];
    }
  }

  lemma BlocksAppend(others: seq<Record>, block: seq<Record>, g: Group)
    requires Blocks(others)
    requires forall r :: r in others ==> GroupOf(r) != g
    requires forall r :: r in block ==> GroupOf(r) == g
    ensures Blocks(others + block)
  {
    var whole := others + block;
    forall i | 0 <= i < |whole|
      ensures i < |others| ==> whole[i] in others
      ensures i >= |others| ==> whole[i] in block
    {
    }
  }

  lemma RegroupedBlocks(records: seq<Record>, g: Group, policy: Policy)
    requires Blocks(Others(records, g))
    ensures Blocks(Regrouped(records, g, policy))
  {
    hide Blocks, Compacted, Members, Others;
    KeptInGroup(records, g, policy);
    OthersOutside(records, g);
    BlocksAppend(Others(records, g), Compacted(Members(records, g), policy), g);
  }

  // Unique keys

  lemma PlacedUnique(records: seq<Record>, r: Record, now: int)
    requires KeysUnique(records)
    ensures KeysUnique(Placed(records, r, now))
  {
    hide KeyPosition;
    var placed := Placed(records, r, now);
    forall i, j | 0 <= i < j < |placed|
      ensures !SameKey(placed[i], placed[j])
    {
      if KeyPosition(records, r).Some? {
        assert !SameKey(records[i], records[j]);
      }
    }
  }

  lemma {:induction false} PartsUnique(records: seq<Record>, g: Group)
    requires KeysUnique(records)
    ensures KeysUnique(Members(records, g)) && KeysUnique(Others(records, g))
  {
    hide SameKey;
    if records != [] {
      var rest := records[1..];
      PartsUnique(rest, g);
      forall r | r in Members(rest, g) || r in Others(rest, g)
        ensures !SameKey(records[0], r)
      {
        InMembers(rest, g, r);
      }
    }
  }

  lemma SameKeySymmetric(a: Record, b: Record)
    ensures SameKey(a, b) <==> SameKey(b, a)
  {
  }

  lemma {:induction false} InsertUnique(r: Record, sorted: seq<Record>)
    requires KeysUnique(sorted) && forall s :: s in sorted ==> !SameKey(r, s)
    ensures KeysUnique(Insert(r, sorted))
  {
    hide Before, SameKey;
    if sorted != [] && !Before(r, sorted[0]) {
      InsertUnique(r, sorted[1..]);
      InsertMultiset(r, sorted[1..]);
      SameKeySymmetric(r, sorted[0]);
      var tail := Insert(r, sorted[1..]);
      forall j | 0 <= j < |tail|
        ensures !SameKey(sorted[0], tail[j])
      {
        assert tail[j] in multiset(tail);
        assert tail[j] == r || tail[j] in sorted[1..];
      }
    }
  }

  lemma {:induction false} ArrangeUnique(records: seq<Record>)
    requires KeysUnique(records)
    ensures KeysUnique(Arrange(records))
    decreases |records|
  {
    if records != [] {
      var n := |records| - 1;
      ArrangeUnique(records[..n]);
      forall s | s in Arrange(records[..n])
        ensures !SameKey(records[n], s)
      {
        InArrange(records[..n], s);
        assert !SameKey(s, records[n]);
      }
      InsertUnique(records[n], Arrange(records[..n]));
    }
  }

  lemma {:induction false} KeepUnique(records: seq<Record>, policy: Policy, total: nat, unkeyed: nat)
    requires KeysUnique(records)
    ensures KeysUnique(Keep(records, policy, total, unkeyed))
  {
    hide SameKey;
    if records != [] && total < policy.maxPerGroup {
      var rest := records[1..];
      if records[0].key.Some? || unkeyed < policy.maxUnkeyed {
        var next := if records[0].key.Some? then unkeyed else unkeyed + 1;
        KeepUnique(rest, policy, total + 1, next);
        KeepCaps(rest, policy, total + 1, next);
        UniquePrepend(records[0], rest, Keep(rest, policy, total + 1, next));
      } else {
        KeepUnique(rest, policy, total, unkeyed);
      }
    }
  }

  lemma UniquePrepend(first: Record, all: seq<Record>, rest: seq<Record>)
    requires KeysUnique([first] + all) && KeysUnique(rest) && forall r :: r in rest ==> r in all
    ensures KeysUnique([first] + rest)
  {
    hide SameKey;
    forall j | 0 <= j < |rest|
      ensures !SameKey(first, rest[j])
    {
      assert rest[j] in rest;
      var k :| 0 <= k < |all| && all[k] == rest[j];
      var whole := [first] + all;
      assert whole[0] == first && whole[k + 1] == rest[j];
    }
  }

  lemma RegroupedUnique(records: seq<Record>, g: Group, policy: Policy)
    requires KeysUnique(records)
    ensures KeysUnique(Regrouped(records, g, policy))
  {
    hide SameKey, Members, Others, Keep, Arrange;
    PartsUnique(records, g);
    ArrangeUnique(Members(records, g));
    KeepUnique(Arrange(Members(records, g)), policy, 0, 0);
    KeptInGroup(records, g, policy);
    OthersOutside(records, g);
    UniqueAppend(Others(records, g), Compacted(Members(records, g), policy), g);
  }

  lemma UniqueAppend(others: seq<Record>, block: seq<Record>, g: Group)
    requires KeysUnique(others) && KeysUnique(block)
    requires forall r :: r in others ==> GroupOf(r) != g
    requires forall r :: r in block ==> GroupOf(r) == g
    ensures KeysUnique(others + block)
  {
    forall i, j | 0 <= i < |others| && 0 <= j < |block|
      ensures !SameKey(others[i], block[j])
    {
      assert others[i] in others && block[j] in block;
    }
  }

  // Groups and records

  lemma CompactedIsCompact(r: Record, policy: Policy)
    requires CompactRecord(r, policy).0.Some?
    ensures Compact(CompactRecord(r, policy).0.value, policy)
  {
    hide NormalizeWhitespace, StoredContent, NormalizeTags;
    StoredLength(r.content, policy.maxRecordChars);
    NormalizeTagsTwice(r.tags);
  }

  lemma PlacedSources(records: seq<Record>, c: Record, now: int, r: Record)
    requires r in Placed(records, c, now)
    ensures r in records || (r.content == c.content && r.confidence == c.confidence && r.tags == c.tags)
  {
    hide KeyPosition;
  }

  lemma RegroupedFits(records: seq<Record>, placed: seq<Record>, g: Group, policy: Policy)
    requires GroupsFit(records, policy)
    requires forall h :: h != g ==> Members(placed, h) == Members(records, h)
    ensures GroupsFit(Regrouped(placed, g, policy), policy)
  {
    hide Sorted, Compacted, Members, Regrouped;
    CompactedSorted(Members(placed, g), policy);
    CompactedCaps(Members(placed, g), policy);
    forall h
      ensures GroupFits(Members(Regrouped(placed, g, policy), h), policy)
    {
      RegroupedMembers(placed, g, policy, h);
    }
  }

  lemma PlacedRegrouped(records: seq<Record>, policy: Policy, c: Record, now: int)
    requires StoreOk(records, policy) && Compact(c, policy)
    ensures StoreOk(Regrouped(Placed(records, c, now), GroupOf(c), policy), policy)
  {
    hide Members, Others, Placed, Compact, Sorted, WithinCaps, SameKey, Blocks, KeysUnique, Regrouped, GroupsFit;
    var g, placed := GroupOf(c), Placed(records, c, now);
    OthersBlocks(records, g);
    PlacedOthers(records, c, now, g);
    RegroupedBlocks(placed, g, policy);
    PlacedUnique(records, c, now);
    RegroupedUnique(placed, g, policy);
    forall h | h != g
      ensures Members(placed, h) == Members(records, h)
    {
      PlacedOthers(records, c, now, h);
    }
    RegroupedFits(records, placed, g, policy);
    forall r | r in Regrouped(placed, g, policy)
      ensures Compact(r, policy)
    {
      RegroupedSubset(placed, g, policy, r);
      PlacedCompact(records, policy, c, now, r);
    }
  }

  lemma PlacedCompact(records: seq<Record>, policy: Policy, c: Record, now: int, r: Record)
    requires AllCompact(records, policy) && Compact(c, policy) && r in Placed(records, c, now)
    ensures Compact(r, policy)
  {
    hide Placed, NormalizeTags;
    PlacedSources(records, c, now, r);
  }

  /** Every upsert keeps the store's invariant. */
  lemma UpsertKeeps(records: seq<Record>, policy: Policy, r: Record, now: int)
    requires StoreOk(records, policy)
    ensures StoreOk(Upsert(records, policy, r, now).0, policy)
  {
    hide StoreOk, Placed, Compact, Regrouped;
    if CompactRecord(r, policy).0.Some? {
      CompactedIsCompact(r, policy);
      PlacedRegrouped(records, policy, CompactRecord(r, policy).0.value, now);
    }
  }

  /** The invariant holds after any writes. */
  lemma {:induction false} ReachableOk(writes: seq<Write>, policy: Policy)
    ensures StoreOk(After(writes, policy), policy)
    decreases |writes|
  {
    if writes == [] {
      EmptyOk(policy);
    } else {
      hide StoreOk, Upsert;
      var n := |writes| - 1;
      ReachableOk(writes[..n], policy);
      UpsertKeeps(After(writes[..n], policy), policy, writes[n].record, writes[n].now);
    }
  }

  lemma EmptyOk(policy: Policy)
    ensures StoreOk([], policy)
  {
    forall g
      ensures GroupFits(Members([], g), policy)
    {
    }
  }

  // ---------------------------------------------------------------- conservation

  lemma PlacedSize(records: seq<Record>, r: Record, now: int)
    ensures |Placed(records, r, now)| + (if KeyPosition(records, r).Some? then 1 else 0) == |records| + 1
  {
    hide KeyPosition;
  }

  lemma RegroupedSize(records: seq<Record>, g: Group, policy: Policy)
    ensures |Regrouped(records, g, policy)| + GroupStats(Members(records, g), Compacted(Members(records, g), policy)).dropped
         == |records|
  {
    hide Compacted, Members, Others, Chars;
    MembersSplit(records, g);
    CompactedCaps(Members(records, g), policy);
  }

  /** One upsert adds one record, less what it merges and drops, and its statistics balance. */
  lemma UpsertAccounts(records: seq<Record>, policy: Policy, r: Record, now: int)
    ensures
      var (after, outcome) := Upsert(records, policy, r, now);
      && |after| + outcome.compaction.merged + outcome.compaction.dropped == |records| + 1
      && outcome.compaction.Balanced()
      && (outcome.written == 0 ==> after == records)
  {
    CompactRecordBalanced(r, policy);
    if CompactRecord(r, policy).0.Some? {
      hide Compacted, Members, KeyPosition, Placed, Regrouped, Chars;
      var c := CompactRecord(r, policy).0.value;
      PlacedSize(records, c, now);
      RegroupedSize(Placed(records, c, now), GroupOf(c), policy);
      GroupStatsBalanced(Members(Placed(records, c, now), GroupOf(c)), policy);
    }
  }

  lemma PlusAdds(a: Stats, b: Stats)
    ensures a.Plus(b).merged == a.merged + b.merged && a.Plus(b).dropped == a.dropped + b.dropped
    ensures a.Balanced() && b.Balanced() ==> a.Plus(b).Balanced()
  {
  }

  /** Over any writes: the store holds what was written, less what was merged and dropped. */
  lemma {:induction false} Conservation(writes: seq<Write>, policy: Policy)
    ensures
      var total := Totals(writes, policy).compaction;
      && |After(writes, policy)| + total.merged + total.dropped == |writes|
      && total.Balanced()
    decreases |writes|
  {
    if writes != [] {
      hide Upsert, Stats.Plus, Stats.Balanced;
      var n := |writes| - 1;
      Conservation(writes[..n], policy);
      var before, last := Totals(writes[..n], policy).compaction,
                          Upsert(After(writes[..n], policy), policy, writes[n].record, writes[n].now).1.compaction;
      UpsertAccounts(After(writes[..n], policy), policy, writes[n].record, writes[n].now);
      PlusAdds(before, last);
    }
  }
}
