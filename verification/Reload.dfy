/** Opening a store from its own records: when it restores the same list, and what it settles to. */
module Reload {
  import opened Common
  import opened Text
  import opened Normalization
  import opened MemoryRecords
  import opened Compaction
  import opened Retention
  import opened Upserts

  /** The writes that opening a store performs: every stored record, in order. */
  function Replay(records: seq<Record>, times: seq<int>): (ws: seq<Write>)
    requires |times| == |records|
    ensures |ws| == |records| && forall i :: 0 <= i < |ws| ==> ws[i] == Write(records[i], times[i])
  {
    seq(|records|, i requires 0 <= i < |records| => Write(records[i], times[i]))
  }

  function Reloaded(records: seq<Record>, times: seq<int>, policy: Policy): seq<Record>
    requires |times| == |records|
  {
    After(Replay(records, times), policy)
  }

  /** Content that a second pass through compaction would not rewrite. */
  predicate Stable(r: Record) {
    r.content != [] && Settled(r.content)
  }

  ghost predicate AllStable(records: seq<Record>) {
    forall r :: r in records ==> Stable(r)
  }

  // ---------------------------------------------------------------- prefixes of a good store

  lemma {:induction false} LastBlock(records: seq<Record>, g: Group)
    requires Blocks(records) && records != [] && GroupOf(records[|records| - 1]) == g
    ensures Others(records, g) + Members(records, g) == records
  {
    if GroupOf(records[0]) == g {
      OneBlock(records, g);
      AllMembers(records, g);
    } else {
      var rest := records[1..];
      BlocksTail(records);
      hide Blocks;
      LastBlock(rest, g);
      assert Others(records, g) == [records[0]] + Others(rest, g) && Members(records, g) == Members(rest, g);
      assert records == [records[0]] + rest;
    }
  }

  lemma BlocksTail(records: seq<Record>)
    requires Blocks(records) && records != []
    ensures Blocks(records[1..])
  {
  }

  lemma OneBlock(records: seq<Record>, g: Group)
    requires Blocks(records) && records != []
    requires GroupOf(records[0]) == g && GroupOf(records[|records| - 1]) == g
    ensures forall r :: r in records ==> GroupOf(r) == g
  {
    forall r | r in records
      ensures GroupOf(r) == g
    {
      var k :| 0 <= k < |records| && records[k] == r;
    }
  }

  lemma PrefixFits(group: seq<Record>, rest: seq<Record>, policy: Policy)
    requires GroupFits(group + rest, policy)
    ensures GroupFits(group, policy)
  {
    hide Before;
    UnkeyedConcat(group, rest);
    forall i, j | 0 <= i < j < |group|
      ensures !Before(group[j], group[i])
    {
      assert (group + rest)[i] == group[i] && (group + rest)[j] == group[j];
    }
  }

  lemma {:induction false} UnkeyedConcat(a: seq<Record>, b: seq<Record>)
    ensures Unkeyed(a + b) == Unkeyed(a) + Unkeyed(b)
  {
    if a == [] {
      assert a + b == b;
    } else {
      assert (a + b)[1..] == a[1..] + b;
      UnkeyedConcat(a[1..], b);
    }
  }

  /** Regrouping a prefix by the group of its last record changes nothing. */
  lemma PrefixFixed(records: seq<Record>, k: nat, policy: Policy)
    requires Blocks(records) && GroupsFit(records, policy) && 0 < k <= |records|
    ensures Regrouped(records[..k], GroupOf(records[k - 1]), policy) == records[..k]
  {
    hide Sorted, WithinCaps, Members, Others, Compacted;
    var g, prefix := GroupOf(records[k - 1]), records[..k];
    assert records == prefix + records[k..];
    MembersConcat(prefix, records[k..], g);
    assert GroupFits(Members(records, g), policy);
    PrefixFits(Members(prefix, g), Members(records[k..], g), policy);
    CompactedFixed(Members(prefix, g), policy);
    BlocksPrefix(records, k);
    LastBlock(prefix, g);
  }

  lemma BlocksPrefix(records: seq<Record>, k: nat)
    requires Blocks(records) && k <= |records|
    ensures Blocks(records[..k])
  {
  }

  /** Replaying the next record appends it unchanged. */
  lemma ReplayStep(records: seq<Record>, k: nat, policy: Policy, now: int)
    requires StoreOk(records, policy) && k < |records| && Stable(records[k])
    ensures Upsert(records[..k], policy, records[k], now).0 == records[..k + 1]
  {
    hide Blocks, GroupsFit, Members, Others, Compacted, Settled, NormalizeTags, NormalizeWhitespace, Regrouped;
    var r := records[k];
    assert Compact(r, policy);
    CompactionFixes(r, policy);
    NewKey(records, k);
    assert Placed(records[..k], r, now) == records[..k + 1];
    PrefixFixed(records, k + 1, policy);
  }

  lemma NewKey(records: seq<Record>, k: nat)
    requires KeysUnique(records) && k < |records|
    ensures KeyPosition(records[..k], records[k]).None?
  {
    hide SameKey;
  }

  lemma {:induction false} ReplayPrefix(records: seq<Record>, times: seq<int>, k: nat, policy: Policy)
    requires |times| == |records| && StoreOk(records, policy) && AllStable(records) && k <= |records|
    ensures After(Replay(records, times)[..k], policy) == records[..k]
  {
    if k > 0 {
      hide StoreOk, Stable, Upsert;
      var writes := Replay(records, times)[..k];
      assert writes[..k - 1] == Replay(records, times)[..k - 1] && writes[k - 1] == Write(records[k - 1], times[k - 1]);
      ReplayPrefix(records, times, k - 1, policy);
      ReplayStep(records, k - 1, policy, times[k - 1]);
    }
  }

  // ---------------------------------------------------------------- replaying settles

  /** An upsert that truncates nothing stores stable content. */
  lemma UpsertSettles(records: seq<Record>, policy: Policy, r: Record, now: int)
    requires AllStable(records) && |NormalizeWhitespace(r.content)| <= policy.maxRecordChars
    ensures AllStable(Upsert(records, policy, r, now).0)
  {
    hide Placed, Settled, NormalizeWhitespace, Regrouped, NormalizeTags;
    match CompactRecord(r, policy).0
    case None =>
    case Some(c) =>
      NormalizeTwice(r.content);
      FixedIffSettled(c.content);
      forall x | x in Regrouped(Placed(records, c, now), GroupOf(c), policy)
        ensures Stable(x)
      {
        RegroupedSubset(Placed(records, c, now), GroupOf(c), policy, x);
        PlacedSources(records, c, now, x);
      }
  }

  predicate NothingTruncated(writes: seq<Write>, policy: Policy) {
    forall i :: 0 <= i < |writes| ==> |NormalizeWhitespace(writes[i].record.content)| <= policy.maxRecordChars
  }

  lemma {:induction false} ReplaySettles(writes: seq<Write>, policy: Policy)
    requires NothingTruncated(writes, policy)
    ensures AllStable(After(writes, policy))
    decreases |writes|
  {
    if writes != [] {
      hide Upsert, AllStable, NormalizeWhitespace;
      var n := |writes| - 1;
      ReplaySettles(writes[..n], policy);
      UpsertSettles(After(writes[..n], policy), policy, writes[n].record, writes[n].now);
    }
  }

  // ---------------------------------------------------------------- main results

  /**
   * Reload identity: reopening a store from its own records restores the same list exactly when every
   * stored content is non-empty with single blanks inside it only.
   */
  lemma ReloadIdentity(records: seq<Record>, times: seq<int>, policy: Policy)
    requires |times| == |records| && StoreOk(records, policy)
    ensures Reloaded(records, times, policy) == records <==> AllStable(records)
  {
    var writes := Replay(records, times);
    if AllStable(records) {
      hide StoreOk, Stable;
      ReplayPrefix(records, times, |records|, policy);
      assert writes[..|records|] == writes && records[..|records|] == records;
    }
    ContentsShort(records, times, policy);
    ReplaySettles(writes, policy);
  }

  lemma ContentsShort(records: seq<Record>, times: seq<int>, policy: Policy)
    requires |times| == |records| && AllCompact(records, policy)
    ensures NothingTruncated(Replay(records, times), policy)
  {
    hide NormalizeTags, NormalizeWhitespace;
    forall i | 0 <= i < |records|
      ensures |NormalizeWhitespace(records[i].content)| <= policy.maxRecordChars
    {
      assert Compact(records[i], policy);
      NormalizeShrinks(records[i].content);
    }
  }

  /** Whatever was stored, one reload reaches a list that every later reload restores. */
  lemma SecondReload(records: seq<Record>, times: seq<int>, later: seq<int>, policy: Policy)
    requires |times| == |records| && StoreOk(records, policy)
    requires |later| == |Reloaded(records, times, policy)|
    ensures Reloaded(Reloaded(records, times, policy), later, policy) == Reloaded(records, times, policy)
  {
    hide StoreOk, AllStable, After;
    var writes := Replay(records, times);
    assert AllCompact(records, policy) by { CompactPart(records, policy); }
    ContentsShort(records, times, policy);
    ReplaySettles(writes, policy);
    ReachableOk(writes, policy);
    ReloadIdentity(After(writes, policy), later, policy);
  }

  lemma CompactPart(records: seq<Record>, policy: Policy)
    requires StoreOk(records, policy)
    ensures AllCompact(records, policy)
  {
  }

  /** After writes that truncate nothing, reopening the store restores it. */
  lemma UntruncatedRunsReload(writes: seq<Write>, times: seq<int>, policy: Policy)
    requires NothingTruncated(writes, policy) && |times| == |After(writes, policy)|
    ensures Reloaded(After(writes, policy), times, policy) == After(writes, policy)
  {
    hide StoreOk, AllStable, After, NothingTruncated;
    ReplaySettles(writes, policy);
    ReachableOk(writes, policy);
    ReloadIdentity(After(writes, policy), times, policy);
  }

  /**
   * When the content a write stores is stable: nothing was cut, or the cut was too short for the marker
   * and did not end in a blank.
   */
  lemma StoredStable(content: string, max: nat)
    requires NormalizeWhitespace(content) != []
    ensures
      var normal, stored := NormalizeWhitespace(content), StoredContent(content, max);
      stored != [] && Settled(stored)
      <==> |normal| <= max || (0 < max <= |MARKER| + 2 && !IsSpace(normal[max - 1]))
  {
    var normal := NormalizeWhitespace(content);
    NormalizeTwice(content);
    FixedIffSettled(normal);
    hide NormalizeWhitespace;
    if |normal| > max && max > 0 {
      if max <= |MARKER| + 2 {
        PrefixSettled(normal, max);
      } else {
        MarkerUnsettles(normal, max);
      }
    }
  }

  lemma PrefixSettled(s: string, n: nat)
    requires Settled(s) && 0 < n < |s|
    ensures Settled(s[..n]) <==> !IsSpace(s[n - 1])
  {
    var p := s[..n];
    if IsSpace(s[n - 1]) {
      assert IsSpace(p[n - 1]);
    } else {
      forall i | 0 <= i < |p| && IsSpace(p[i])
        ensures p[i] == ' ' && 0 < i < |p| - 1 && !IsSpace(p[i + 1])
      {
        assert p[i] == s[i] && p[i + 1] == s[i + 1];
      }
    }
  }

  lemma MarkerUnsettles(s: string, max: nat)
    requires |s| > max > |MARKER| + 2
    ensures !Settled(TruncateHeadTail(s, max))
  {
    hide Settled, TruncateChars, LastChars;
    var available := max - |MARKER|;
    LineBreakUnsettles(TruncateChars(s, available / 2), MARKER, LastChars(s, available - available / 2));
  }

  lemma LineBreakUnsettles(head: string, marker: string, tail: string)
    requires marker != [] && marker[0] == '\n'
    ensures !Settled(head + marker + tail)
  {
    assert (head + marker + tail)[|head|] == '\n';
  }

  // ---------------------------------------------------------------- a store that does not survive

  /** A keyed record in the empty scope. */
  function Note(key: string, content: string): Record {
    Record("mem-" + key, Scope(None, None, None, None, None), WorkspaceFact, Some(key), content, 1.0, [],
           Source("note", "note"), 0, 0)
  }

  lemma FirstWrite(w: Write, policy: Policy, c: Record)
    requires CompactRecord(w.record, policy).0 == Some(c) && c.key.Some? && policy.maxPerGroup > 0
    ensures After([w], policy) == [c]
  {
    SingleRegrouped(c, policy);
    hide CompactRecord, Regrouped, Placed;
    assert [w][..0] == [];
    assert Placed([], c, w.now) == [c] by { FirstPlaced(c, w.now); }
  }

  lemma FirstPlaced(c: Record, now: int)
    ensures Placed([], c, now) == [c]
  {
    assert [] + [c] == [c];
  }

  lemma SingleRegrouped(c: Record, policy: Policy)
    requires c.key.Some? && policy.maxPerGroup > 0
    ensures Regrouped([c], GroupOf(c), policy) == [c]
  {
    AllMembers([c], GroupOf(c));
    assert Unkeyed([c]) == [];
    CompactedFixed([c], policy);
    hide Compacted, Members, Others;
    assert [] + [c] == [c];
  }

  /** With a limit of two characters, a content of two letters and a blank is cut to end in that blank. */
  lemma CutContentIsRewritten(now: int, later: int)
    ensures
      var policy, written := Policy(2, 1, 1), [Write(Note("k", "a b"), now)];
      && |After(written, policy)| == 1
      && Reloaded(After(written, policy), [later], policy) != After(written, policy)
  {
    var policy, w := Policy(2, 1, 1), Write(Note("k", "a b"), now);
    assert Settled("a b");
    SettledIsFixed("a b");
    StoredStable("a b", 2);
    hide NormalizeWhitespace, StoredContent, Settled, NormalizeTags;
    var c := CompactRecord(w.record, policy).0.value;
    FirstWrite(w, policy, c);
    ReachableOk([w], policy);
    hide StoreOk, After;
    ReloadIdentity([c], [later], policy);
    assert !Stable(c) && c in [c];
  }
}
