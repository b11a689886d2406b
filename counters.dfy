/** The per-label unread counters of the counter store (`lastUpdatedStore`),
    and the two ways the data service changes them: a clamped step of one
    (`updateCounter`) and the wholesale replacement from a server snapshot
    (`processEvents(counts:)`). */
module Counters {
  import opened Common

  /** Unread count per label id. */
  type Store = map<string, int>

  /** The store answers 0 for a label it holds no counter for. */
  function Get(s: Store, k: string): int {
    if k in s then s[k] else 0
  }

  function Max0(x: int): int {
    if x < 0 then 0 else x
  }

  /** One step of `updateCounter(plus:with:)`: the label's counter moves by
      one, and a result below zero is stored as zero. */
  function Bump(s: Store, k: string, plus: bool): (r: Store)
    ensures r.Keys == s.Keys + {k}
    ensures Get(r, k) >= 0
    ensures plus && Get(s, k) >= 0 ==> Get(r, k) == Get(s, k) + 1
    ensures !plus ==> Get(r, k) == Max0(Get(s, k) - 1)
    ensures !plus && Get(s, k) == 0 ==> Get(r, k) == 0
    ensures forall j :: j != k ==> Get(r, j) == Get(s, j)
  {
    var c := Get(s, k) + (if plus then 1 else -1);
    s[k := if c < 0 then 0 else c]
  }

  /** Counters stepped one label after the other, in sequence order. */
  function BumpSeq(s: Store, ks: seq<string>, plus: bool): Store
    decreases |ks|
  {
    if ks == [] then s
    else Bump(BumpSeq(s, ks[..|ks| - 1], plus), ks[|ks| - 1], plus)
  }

  /** Stepping a duplicate-free list of labels moves each listed label's
      counter by exactly one step (clamped) and leaves every other
      counter alone. */
  lemma {:induction false} BumpSeqEffect(s: Store, ks: seq<string>, plus: bool, k: string)
    requires Distinct(ks)
    ensures k in ks && plus && Get(s, k) >= 0 ==> Get(BumpSeq(s, ks, plus), k) == Get(s, k) + 1
    ensures k in ks && !plus ==> Get(BumpSeq(s, ks, plus), k) == Max0(Get(s, k) - 1)
    ensures k !in ks ==> Get(BumpSeq(s, ks, plus), k) == Get(s, k)
    decreases |ks|
  {
    if ks != [] {
      var init := ks[..|ks| - 1];
      var last := ks[|ks| - 1];
      assert ks == init + [last];
      assert Distinct(init);
      assert last !in init;
      BumpSeqEffect(s, init, plus, k);
    }
  }

  /** Every counter of the store is non-negative. */
  predicate NonNegative(s: Store) {
    forall k :: k in s ==> s[k] >= 0
  }

  lemma {:induction false} BumpSeqNonNegative(s: Store, ks: seq<string>, plus: bool)
    requires NonNegative(s)
    ensures NonNegative(BumpSeq(s, ks, plus))
    decreases |ks|
  {
    if ks != [] {
      BumpSeqNonNegative(s, ks[..|ks| - 1], plus);
    }
  }

  /** Several clamped decrements at once: label k goes down by the number
      of times it occurs in d, never below zero. */
  function DecBy(s: Store, d: multiset<string>): (r: Store)
    ensures forall k :: k !in d ==> Get(r, k) == Get(s, k)
    ensures forall k :: k in d ==> Get(r, k) == Max0(Get(s, k) - d[k])
  {
    map k | k in s.Keys + (set x | x in d) :: if k in d then Max0(Get(s, k) - d[k]) else Get(s, k)
  }

  /** A clamped decrement after a batch of clamped decrements is the same
      as one batch with one more decrement: the order in which clamped
      decrements happen never matters. */
  lemma DecByThenBump(s: Store, d: multiset<string>, k: string)
    ensures Bump(DecBy(s, d), k, false) == DecBy(s, d + multiset{k})
  {
    var l := Bump(DecBy(s, d), k, false);
    var r := DecBy(s, d + multiset{k});
    forall j | j in l.Keys
      ensures j in r.Keys
    {
      if j != k && j !in d { assert j in s; }
    }
    forall j | j in r.Keys
      ensures j in l.Keys && l[j] == r[j]
    {
      if j == k {
        assert Get(l, j) == Max0(Get(DecBy(s, d), k) - 1);
      } else if j in d {
        assert Get(l, j) == Get(DecBy(s, d), j);
      } else {
        assert j in s;
        assert Get(l, j) == Get(s, j);
      }
    }
    assert l.Keys == r.Keys;
  }

  /** Decrementing with no decrements at all leaves the store as it is. */
  lemma DecByNone(s: Store)
    ensures DecBy(s, multiset{}) == s
  {
    var r := DecBy(s, multiset{});
    assert r.Keys == s.Keys;
    forall k | k in s ensures r[k] == s[k] { assert Get(r, k) == Get(s, k); }
  }

  // ---------------------------------------------------------------------
  // The message-count snapshot of the event log.

  /** One element of the `Counts` array: `LabelID` and `Unread` are each
      optional in the dictionary. */
  datatype CountEntry = CountEntry(labelID: Option<string>, unread: Option<int>)

  /** `resetUnreadCounts()`: every counter the store knows goes to zero. */
  function ResetAll(s: Store): (r: Store)
    ensures r.Keys == s.Keys
    ensures forall k :: Get(r, k) == 0
  {
    map k | k in s :: 0
  }

  /** The loop of `processEvents(counts:)`: entries with both a label id and
      an unread count overwrite that label's counter verbatim; the others
      are skipped. Applied in array order. */
  function ApplyCounts(s: Store, es: seq<CountEntry>): Store
    decreases |es|
  {
    if es == [] then s
    else
      var r := ApplyCounts(s, es[..|es| - 1]);
      var e := es[|es| - 1];
      if e.labelID.Some? && e.unread.Some? then r[e.labelID.value := e.unread.value] else r
  }

  /** The unread count the snapshot gives label k: the last entry for k
      that carries an `Unread` value, if any. */
  function SnapshotValue(es: seq<CountEntry>, k: string): Option<int>
    decreases |es|
  {
    if es == [] then None
    else
      var e := es[|es| - 1];
      if e.labelID == Some(k) && e.unread.Some? then Some(e.unread.value)
      else SnapshotValue(es[..|es| - 1], k)
  }

  /** After a reset, applying the snapshot leaves every counter equal to
      the server's value for it, or zero where the server sent none: the
      old counter values never leak through. */
  lemma {:induction false} SnapshotReplaces(s: Store, es: seq<CountEntry>, k: string)
    ensures Get(ApplyCounts(ResetAll(s), es), k) == SnapshotValue(es, k).GetOr(0)
    decreases |es|
  {
    if es != [] {
      SnapshotReplaces(s, es[..|es| - 1], k);
    }
  }

  /** Whatever the counters were before, two stores end equal on every
      label once the same snapshot is applied after the reset. */
  lemma SnapshotIgnoresOldCounts(s1: Store, s2: Store, es: seq<CountEntry>, k: string)
    ensures Get(ApplyCounts(ResetAll(s1), es), k) == Get(ApplyCounts(ResetAll(s2), es), k)
  {
    SnapshotReplaces(s1, es, k);
    SnapshotReplaces(s2, es, k);
  }

  /** The counters stay non-negative through a snapshot when the server
      sends no negative unread count. */
  lemma {:induction false} SnapshotNonNegative(s: Store, es: seq<CountEntry>)
    requires forall i :: 0 <= i < |es| && es[i].unread.Some? ==> es[i].unread.value >= 0
    ensures NonNegative(ApplyCounts(ResetAll(s), es))
    decreases |es|
  {
    if es != [] {
      SnapshotNonNegative(s, es[..|es| - 1]);
    }
  }
}
