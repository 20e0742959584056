/** Keyed records as a map: what was last written under each key, unless a group has too many keys. */
module KeyedMap {
  import opened Normalization
  import opened MemoryRecords
  import opened Compaction
  import opened Retention
  import opened Upserts
  import opened Reload

  datatype Slot = Slot(group: Group, key: string)

  function SlotOf(r: Record): Slot
    requires r.key.Some?
  {
    Slot(GroupOf(r), r.key.value)
  }

  /** The plain map that the store should agree with. */
  function Put(m: map<Slot, Record>, c: Record, now: int): map<Slot, Record> {
    if c.key.None? then m
    else m[SlotOf(c) := if SlotOf(c) in m then Merge(m[SlotOf(c)], c, now) else c]
  }

  function Dictionary(writes: seq<Write>, policy: Policy): map<Slot, Record>
    decreases |writes|
  {
    if writes == [] then map[]
    else
      var n := |writes| - 1;
      match CompactRecord(writes[n].record, policy).0
      case None => Dictionary(writes[..n], policy)
      case Some(c) => Put(Dictionary(writes[..n], policy), c, writes[n].now)
  }

  predicate Touches(w: Write, slot: Slot, policy: Policy) {
    var c := CompactRecord(w.record, policy).0;
    c.Some? && c.value.key.Some? && SlotOf(c.value) == slot
  }

  /** The entry made by a first write and, if `again`, rewritten by a last one. */
  predicate EntryOf(entry: Record, first: Write, last: Write, again: bool, policy: Policy) {
    && entry.content == StoredContent(last.record.content, policy.maxRecordChars)
    && entry.confidence == Clamp(last.record.confidence)
    && entry.tags == NormalizeTags(last.record.tags)
    && entry.source == last.record.source
    && entry.id == first.record.id
    && entry.createdAt == first.record.createdAt
    && entry.updatedAt == (if again then last.now else last.record.updatedAt)
  }

  /** A slot holds the content last written to it under the id and creation time of its first write. */
  lemma {:induction false} EntryMeaning(writes: seq<Write>, policy: Policy, slot: Slot, first: nat, last: nat)
    requires first <= last < |writes|
    requires Touches(writes[first], slot, policy) && forall i :: 0 <= i < first ==> !Touches(writes[i], slot, policy)
    requires Touches(writes[last], slot, policy) && forall i :: last < i < |writes| ==> !Touches(writes[i], slot, policy)
    ensures slot in Dictionary(writes, policy)
    ensures EntryOf(Dictionary(writes, policy)[slot], writes[first], writes[last], first < last, policy)
    decreases |writes|
  {
    hide EntryOf, Touches, Dictionary;
    var n := |writes| - 1;
    LastStep(writes, policy, slot);
    if last < n {
      EntryMeaning(writes[..n], policy, slot, first, last);
    } else if first < n {
      var previous := PreviousTouch(writes, policy, slot, n, first);
      EntryMeaning(writes[..n], policy, slot, first, previous);
      Rewritten(Dictionary(writes[..n], policy)[slot], writes, policy, slot, first, previous);
    } else {
      Untouched(writes[..n], policy, slot);
      FirstWritten(writes[n], policy, slot);
    }
  }

  function Accepted(w: Write, slot: Slot, policy: Policy): Record
    requires Touches(w, slot, policy)
  {
    CompactRecord(w.record, policy).0.value
  }

  lemma LastStep(writes: seq<Write>, policy: Policy, slot: Slot)
    requires writes != []
    ensures
      var n := |writes| - 1;
      var before, after := Dictionary(writes[..n], policy), Dictionary(writes, policy);
      if Touches(writes[n], slot, policy) then
        slot in after && after[slot] ==
          if slot in before then Merge(before[slot], Accepted(writes[n], slot, policy), writes[n].now)
          else Accepted(writes[n], slot, policy)
      else (slot in after <==> slot in before) && (slot in before ==> after[slot] == before[slot])
  {
    hide CompactRecord, Put, Merge;
    var n := |writes| - 1;
    match CompactRecord(writes[n].record, policy).0
    case None =>
    case Some(c) => PutAt(Dictionary(writes[..n], policy), c, writes[n].now, slot);
  }

  lemma PutAt(m: map<Slot, Record>, c: Record, now: int, slot: Slot)
    ensures
      var after := Put(m, c, now);
      if c.key.Some? && SlotOf(c) == slot then
        slot in after && after[slot] == if slot in m then Merge(m[slot], c, now) else c
      else (slot in after <==> slot in m) && (slot in m ==> after[slot] == m[slot])
  {
  }

  lemma Rewritten(entry: Record, writes: seq<Write>, policy: Policy, slot: Slot, first: nat, previous: nat)
    requires first <= previous < |writes| - 1 && Touches(writes[|writes| - 1], slot, policy)
    requires EntryOf(entry, writes[first], writes[previous], first < previous, policy)
    ensures var w := writes[|writes| - 1];
            EntryOf(Merge(entry, Accepted(w, slot, policy), w.now), writes[first], w, true, policy)
  {
    hide StoredContent, NormalizeTags;
  }

  lemma FirstWritten(w: Write, policy: Policy, slot: Slot)
    requires Touches(w, slot, policy)
    ensures EntryOf(Accepted(w, slot, policy), w, w, false, policy)
  {
    hide StoredContent, NormalizeTags;
  }

  lemma {:induction false} PreviousTouch(writes: seq<Write>, policy: Policy, slot: Slot, n: nat, first: nat)
    returns (previous: nat)
    requires first < n <= |writes| && Touches(writes[first], slot, policy)
    ensures first <= previous < n && Touches(writes[previous], slot, policy)
    ensures forall i :: previous < i < n ==> !Touches(writes[i], slot, policy)
  {
    hide Touches;
    if Touches(writes[n - 1], slot, policy) {
      previous := n - 1;
    } else {
      previous := PreviousTouch(writes, policy, slot, n - 1, first);
    }
  }

  lemma {:induction false} Untouched(writes: seq<Write>, policy: Policy, slot: Slot)
    requires forall i :: 0 <= i < |writes| ==> !Touches(writes[i], slot, policy)
    ensures slot !in Dictionary(writes, policy)
    decreases |writes|
  {
    hide CompactRecord;
    if writes != [] {
      Untouched(writes[..|writes| - 1], policy, slot);
    }
  }

  /** The keyed records of the list are exactly the entries of the map. */
  ghost predicate Represents(records: seq<Record>, m: map<Slot, Record>) {
    && (forall r :: r in records && r.key.Some? ==> SlotOf(r) in m && m[SlotOf(r)] == r)
    && (forall s :: s in m ==> m[s] in records && m[s].key.Some? && SlotOf(m[s]) == s)
  }

  function SlotsIn(m: map<Slot, Record>, g: Group): set<Slot> {
    set s | s in m && s.group == g
  }

  /** No group has more keys than records it may hold. */
  ghost predicate Fits(m: map<Slot, Record>, policy: Policy) {
    forall g :: |SlotsIn(m, g)| <= policy.maxPerGroup
  }

  // ---------------------------------------------------------------- placing a record

  lemma PlacedNew(records: seq<Record>, m: map<Slot, Record>, c: Record, now: int)
    requires Represents(records, m) && KeyPosition(records, c).None?
    ensures Represents(Placed(records, c, now), Put(m, c, now))
  {
    hide KeyPosition;
    var placed := Placed(records, c, now);
    assert placed == records + [c];
    assert forall r :: r in placed <==> r in records || r == c;
    if c.key.Some? {
      NoSlot(records, m, c);
    }
  }

  lemma NoSlot(records: seq<Record>, m: map<Slot, Record>, c: Record)
    requires Represents(records, m) && c.key.Some? && KeyPosition(records, c).None?
    ensures SlotOf(c) !in m
  {
  }

  lemma PlacedOver(records: seq<Record>, m: map<Slot, Record>, c: Record, now: int)
    requires Represents(records, m) && KeysUnique(records) && KeyPosition(records, c).Some?
    ensures Represents(Placed(records, c, now), Put(m, c, now))
  {
    var i := KeyPosition(records, c).value;
    hide KeyPosition;
    var placed, previous, updated := Placed(records, c, now), records[i], Merge(records[i], c, now);
    assert previous in records && SlotOf(previous) == SlotOf(c) && m[SlotOf(c)] == previous && placed == records[i := updated];
    forall r | r in placed && r.key.Some?
      ensures SlotOf(r) in Put(m, c, now) && Put(m, c, now)[SlotOf(r)] == r
    {
      var k :| 0 <= k < |placed| && placed[k] == r;
      if k != i {
        assert records[k] == r && r in records;
        assert !SameKey(records[k], records[i]) && !SameKey(records[i], records[k]);
      }
    }
    forall s | s in Put(m, c, now)
      ensures Put(m, c, now)[s] in placed && Put(m, c, now)[s].key.Some? && SlotOf(Put(m, c, now)[s]) == s
    {
      if s == SlotOf(c) {
        assert placed[i] == updated;
      } else {
        assert s in m;
        var k :| 0 <= k < |records| && records[k] == m[s];
        assert placed[k] == m[s];
      }
    }
  }

  // ---------------------------------------------------------------- counting keys

  lemma {:induction false} CountKeyed(records: seq<Record>, slots: set<Slot>)
    requires KeysUnique(records)
    requires forall r :: r in records && r.key.Some? ==> SlotOf(r) in slots
    ensures |Keyed(records)| <= |slots|
  {
    if records != [] {
      var first, rest := records[0], records[1..];
      if first.key.None? {
        CountKeyed(rest, slots);
      } else {
        forall r | r in rest && r.key.Some?
          ensures SlotOf(r) in slots - {SlotOf(first)}
        {
          var k :| 0 <= k < |rest| && rest[k] == r;
          assert !SameKey(records[0], records[k + 1]);
        }
        CountKeyed(rest, slots - {SlotOf(first)});
      }
    }
  }

  lemma {:induction false} CountSlots(records: seq<Record>, slots: set<Slot>)
    requires forall s :: s in slots ==> exists r :: r in records && r.key.Some? && SlotOf(r) == s
    ensures |slots| <= |records|
  {
    if records == [] {
      assert slots == {};
    } else {
      var rest := records[1..];
      var fewer := if records[0].key.Some? then slots - {SlotOf(records[0])} else slots;
      forall s | s in fewer
        ensures exists r :: r in rest && r.key.Some? && SlotOf(r) == s
      {
        var r :| r in records && r.key.Some? && SlotOf(r) == s;
        assert r in rest;
      }
      CountSlots(rest, fewer);
    }
  }

  // ---------------------------------------------------------------- compaction keeps every keyed record

  lemma KeyedKept(records: seq<Record>, m: map<Slot, Record>, g: Group, policy: Policy, r: Record)
    requires Represents(records, m) && KeysUnique(records) && |SlotsIn(m, g)| <= policy.maxPerGroup
    requires r in records && r.key.Some?
    ensures r in Regrouped(records, g, policy)
  {
    hide Keep, SameKey, KeysUnique;
    var members := Members(records, g);
    InMembers(records, g, r);
    PartsUnique(records, g);
    ArrangeUnique(members);
    forall x | x in Arrange(members) && x.key.Some?
      ensures SlotOf(x) in SlotsIn(m, g)
    {
      InArrange(members, x);
      InMembers(records, g, x);
    }
    CountKeyed(Arrange(members), SlotsIn(m, g));
    CompactedExactly(members, policy);
    InArrange(members, r);
    InKeyed(Arrange(members), r);
    assert Keyed(Arrange(members))[..KeptKeyed(members, policy)] == Keyed(Arrange(members));
  }

  lemma RegroupedRepresents(records: seq<Record>, m: map<Slot, Record>, g: Group, policy: Policy)
    requires Represents(records, m) && KeysUnique(records) && |SlotsIn(m, g)| <= policy.maxPerGroup
    ensures Represents(Regrouped(records, g, policy), m)
  {
    hide Regrouped, KeysUnique, SlotsIn;
    forall r | r in Regrouped(records, g, policy) && r.key.Some?
      ensures SlotOf(r) in m && m[SlotOf(r)] == r
    {
      RegroupedSubset(records, g, policy, r);
    }
    forall s | s in m
      ensures m[s] in Regrouped(records, g, policy)
    {
      KeyedKept(records, m, g, policy, m[s]);
    }
  }

  lemma UpsertRepresents(records: seq<Record>, m: map<Slot, Record>, policy: Policy, c: Record, now: int)
    requires Represents(records, m) && KeysUnique(records) && Fits(Put(m, c, now), policy)
    ensures Represents(Regrouped(Placed(records, c, now), GroupOf(c), policy), Put(m, c, now))
  {
    hide Represents, KeysUnique, Placed, Put, Regrouped, KeyPosition;
    if KeyPosition(records, c).Some? {
      PlacedOver(records, m, c, now);
    } else {
      PlacedNew(records, m, c, now);
    }
    PlacedUnique(records, c, now);
    RegroupedRepresents(Placed(records, c, now), Put(m, c, now), GroupOf(c), policy);
  }

  // ---------------------------------------------------------------- whole runs

  lemma FitsShrinks(m: map<Slot, Record>, n: map<Slot, Record>, policy: Policy)
    requires m.Keys <= n.Keys && Fits(n, policy)
    ensures Fits(m, policy)
  {
    forall g
      ensures |SlotsIn(m, g)| <= policy.maxPerGroup
    {
      Subset(SlotsIn(m, g), SlotsIn(n, g));
    }
  }

  lemma {:induction false} Subset(a: set<Slot>, b: set<Slot>)
    requires a <= b
    ensures |a| <= |b|
  {
    if a != {} {
      var x :| x in a;
      Subset(a - {x}, b - {x});
    }
  }

  lemma {:induction false} FittingRunRepresents(writes: seq<Write>, policy: Policy)
    requires Fits(Dictionary(writes, policy), policy)
    ensures Represents(After(writes, policy), Dictionary(writes, policy))
    decreases |writes|
  {
    if writes != [] {
      hide Represents, StoreOk, Fits, CompactRecord, Regrouped;
      var n := |writes| - 1;
      var before := writes[..n];
      FitsShrinks(Dictionary(before, policy), Dictionary(writes, policy), policy);
      FittingRunRepresents(before, policy);
      UniqueAfter(before, policy);
      if CompactRecord(writes[n].record, policy).0.Some? {
        var c := CompactRecord(writes[n].record, policy).0.value;
        UpsertRepresents(After(before, policy), Dictionary(before, policy), policy, c, writes[n].now);
      }
    }
  }

  lemma UniqueAfter(writes: seq<Write>, policy: Policy)
    ensures KeysUnique(After(writes, policy)) && GroupsFit(After(writes, policy), policy)
  {
    ReachableOk(writes, policy);
  }

  lemma RepresentedFits(records: seq<Record>, m: map<Slot, Record>, policy: Policy)
    requires Represents(records, m) && GroupsFit(records, policy)
    ensures Fits(m, policy)
  {
    hide Members;
    forall g
      ensures |SlotsIn(m, g)| <= policy.maxPerGroup
    {
      var members := Members(records, g);
      forall s | s in SlotsIn(m, g)
        ensures exists r :: r in members && r.key.Some? && SlotOf(r) == s
      {
        InMembers(records, g, m[s]);
      }
      CountSlots(members, SlotsIn(m, g));
      assert GroupFits(members, policy);
    }
  }

  /**
   * Map refinement: after any writes the keyed records are the plain map's entries, the last content under
   * the first id and creation time, exactly when no group received more keys than it may hold.
   */
  lemma MapRefinement(writes: seq<Write>, policy: Policy)
    ensures Represents(After(writes, policy), Dictionary(writes, policy)) <==> Fits(Dictionary(writes, policy), policy)
  {
    hide Represents, Fits, GroupsFit;
    if Fits(Dictionary(writes, policy), policy) {
      FittingRunRepresents(writes, policy);
    }
    if Represents(After(writes, policy), Dictionary(writes, policy)) {
      UniqueAfter(writes, policy);
      RepresentedFits(After(writes, policy), Dictionary(writes, policy), policy);
    }
  }

  // ---------------------------------------------------------------- a group with too many keys

  lemma TwoSlotsDoNotFit(m: map<Slot, Record>, a: Slot, b: Slot, policy: Policy)
    requires a in m && b in m && a != b && a.group == b.group && policy.maxPerGroup < 2
    ensures !Fits(m, policy)
  {
    Subset({a, b}, SlotsIn(m, a.group));
    assert |{a, b}| == 2;
  }

  /** Two keys in a group that may hold one record: the list is not the map. */
  lemma OverflowLosesAKey(now: int)
    ensures
      var policy, written := Policy(2, 1, 1), [Write(Note("j", "x"), now), Write(Note("k", "y"), now)];
      !Represents(After(written, policy), Dictionary(written, policy))
  {
    var policy := Policy(2, 1, 1);
    var first, second := Write(Note("j", "x"), now), Write(Note("k", "y"), now);
    assert Settled("x") && Settled("y");
    SettledIsFixed("x");
    SettledIsFixed("y");
    var a, b := Slot(GroupOf(first.record), "j"), Slot(GroupOf(first.record), "k");
    Accepts(first, policy);
    Accepts(second, policy);
    assert Touches(first, a, policy) && Touches(second, b, policy);
    hide CompactRecord, After, Represents, Fits, Touches;
    var written := [first, second];
    assert written[..1] == [first];
    LastStep([first], policy, a);
    LastStep(written, policy, a);
    LastStep(written, policy, b);
    assert "j"[0] != "k"[0];
    TwoSlotsDoNotFit(Dictionary(written, policy), a, b, policy);
    MapRefinement(written, policy);
  }

  lemma Accepts(w: Write, policy: Policy)
    requires NormalizeWhitespace(w.record.content) != []
    ensures var c := CompactRecord(w.record, policy).0;
            c.Some? && c.value.key == w.record.key && GroupOf(c.value) == GroupOf(w.record)
  {
  }
}
