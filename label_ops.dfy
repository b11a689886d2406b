/** What the local mutations `remove(labels:on:cleanUnread:)`, `move` and
    `delete(message:label:)` do to one message's label relation, its unread
    flag and the unread counters, as functions of the state before. The
    imperative methods of the data service are proved equal to these. */
module LabelOps {
  import opened Common
  import opened Counters
  import opened Locations

  /** The label relation (duplicate-free), the unread flag and the counter store. */
  datatype Local = Local(labels: seq<string>, unRead: bool, counters: Store)

  /** `message.selfSent(labelID:)`: for a message sent to one's own address,
      the second label whose counter follows the first. */
  type Peers = map<string, string>

  /** `message.remove(labelID:)` on the relation. */
  function Without(ls: seq<string>, x: string): (r: seq<string>)
    ensures forall y :: y in r <==> y in ls && y != x
    ensures Distinct(ls) ==> Distinct(r)
    ensures x !in ls ==> r == ls
    decreases |ls|
  {
    if ls == [] then []
    else if ls[0] == x then Without(ls[1..], x)
    else
      var rest := Without(ls[1..], x);
      assert Distinct(ls) ==> Distinct(ls[1..]) && ls[0] !in ls[1..] by {
        if Distinct(ls) {
          forall j | 0 <= j < |ls[1..]| ensures ls[1..][j] != ls[0] { assert ls[1..][j] == ls[j + 1]; }
        }
      }
      [ls[0]] + rest
  }

  /** `getNormalLableIDs()`: the user labels of the relation. */
  function NormalLabels(ls: seq<string>): (r: seq<string>)
    ensures forall y :: y in r <==> y in ls && IsNormalLabel(y)
    decreases |ls|
  {
    if ls == [] then []
    else (if IsNormalLabel(ls[0]) then [ls[0]] else []) + NormalLabels(ls[1..])
  }

  /** `labelsFound`: the user labels, then starred, then all-mail. */
  function Found(ls: seq<string>): seq<string> {
    NormalLabels(ls) + [StarredID, AllMailID]
  }

  /** The clamped decrements one removed label causes: its own, and its
      self-sent peer's. */
  function PeerDecs(l: string, peers: Peers): multiset<string> {
    multiset{l} + (if l in peers then multiset{peers[l]} else multiset{})
  }

  function DecPeer(c: Store, l: string, peers: Peers): Store {
    var c1 := Bump(c, l, false);
    if l in peers then Bump(c1, peers[l], false) else c1
  }

  function IncPeer(c: Store, l: string, peers: Peers): Store {
    var c1 := Bump(c, l, true);
    if l in peers then Bump(c1, peers[l], true) else c1
  }

  /** One turn of the loop of `remove(labels:on:cleanUnread:)`: when the label
      was present it is removed, and when `unread` holds its counter and its
      peer's counter go down. */
  function RemoveOne(s: Local, l: string, unread: bool, peers: Peers): Local {
    if l in s.labels then
      Local(Without(s.labels, l), s.unRead, if unread then DecPeer(s.counters, l, peers) else s.counters)
    else s
  }

  /** The whole loop, over the list in order. */
  function RemoveAll(s: Local, list: seq<string>, unread: bool, peers: Peers): Local
    decreases |list|
  {
    if list == [] then s
    else RemoveOne(RemoveAll(s, list[..|list| - 1], unread, peers), list[|list| - 1], unread, peers)
  }

  /** The relation with every listed label removed. */
  function Strip(ls: seq<string>, list: seq<string>): (r: seq<string>)
    ensures forall y :: y in r <==> y in ls && y !in list
    ensures Distinct(ls) ==> Distinct(r)
    decreases |list|
  {
    if list == [] then ls else Without(Strip(ls, list[..|list| - 1]), list[|list| - 1])
  }

  /** Every decrement the loop performs, in one multiset. */
  function RemovalDecs(ls: seq<string>, list: seq<string>, peers: Peers): multiset<string>
    decreases |list|
  {
    if list == [] then multiset{}
    else
      var init := list[..|list| - 1];
      var l := list[|list| - 1];
      RemovalDecs(ls, init, peers) + (if l in Strip(ls, init) then PeerDecs(l, peers) else multiset{})
  }

  /** Two batches of clamped decrements are one batch. */
  lemma DecByCompose(c: Store, a: multiset<string>, b: multiset<string>)
    ensures DecBy(DecBy(c, a), b) == DecBy(c, a + b)
  {
    var l := DecBy(DecBy(c, a), b);
    var r := DecBy(c, a + b);
    forall k | k in l.Keys ensures k in r.Keys {
      if k !in a && k !in b { assert k in DecBy(c, a).Keys; assert k in c; }
    }
    forall k | k in r.Keys ensures k in l.Keys && l[k] == r[k] {
      if k !in a && k !in b { assert k in c; }
      assert Get(l, k) == Get(r, k);
    }
    assert l.Keys == r.Keys;
  }

  lemma DecPeerIsDecBy(c: Store, l: string, peers: Peers)
    ensures DecPeer(c, l, peers) == DecBy(c, PeerDecs(l, peers))
  {
    DecByNone(c);
    DecByThenBump(c, multiset{}, l);
    assert multiset{} + multiset{l} == multiset{l};
    if l in peers {
      DecByThenBump(c, multiset{l}, peers[l]);
    } else {
      assert PeerDecs(l, peers) == multiset{l};
    }
  }

  /** The loop removes exactly the listed labels, keeps the unread flag, and
      performs its decrements as one clamped batch when `unread` holds and
      none at all otherwise. */
  lemma {:induction false} RemoveAllShape(s: Local, list: seq<string>, unread: bool, peers: Peers)
    ensures RemoveAll(s, list, unread, peers).labels == Strip(s.labels, list)
    ensures RemoveAll(s, list, unread, peers).unRead == s.unRead
    ensures !unread ==> RemoveAll(s, list, unread, peers).counters == s.counters
    ensures unread ==> RemoveAll(s, list, unread, peers).counters == DecBy(s.counters, RemovalDecs(s.labels, list, peers))
    decreases |list|
  {
    if list == [] {
      DecByNone(s.counters);
    } else {
      var init := list[..|list| - 1];
      var l := list[|list| - 1];
      RemoveAllShape(s, init, unread, peers);
      var mid := RemoveAll(s, init, unread, peers);
      assert RemoveAll(s, list, unread, peers) == RemoveOne(mid, l, unread, peers);
      var d := RemovalDecs(s.labels, init, peers);
      assert mid.labels == Strip(s.labels, init);
      if unread && l in mid.labels {
        assert mid.counters == DecBy(s.counters, d);
        assert RemovalDecs(s.labels, list, peers) == d + PeerDecs(l, peers);
        DecPeerIsDecBy(mid.counters, l, peers);
        DecByCompose(s.counters, d, PeerDecs(l, peers));
      } else if unread {
        assert RemovalDecs(s.labels, list, peers) == d + multiset{};
        assert d + multiset{} == d;
      }
    }
  }

  /** Every label that is both on the message and in the list is
      decremented at least once. */
  lemma {:induction false} RemovalDecsCover(ls: seq<string>, list: seq<string>, peers: Peers, l: string)
    requires l in ls && l in list
    ensures l in RemovalDecs(ls, list, peers)
    decreases |list|
  {
    var init := list[..|list| - 1];
    var last := list[|list| - 1];
    assert list == init + [last];
    if l in init {
      RemovalDecsCover(ls, init, peers, l);
    } else {
      assert l == last;
      assert l in Strip(ls, init);
    }
  }

  /** Only removed labels and self-sent peers are ever decremented. */
  lemma {:induction false} RemovalDecsWithin(ls: seq<string>, list: seq<string>, peers: Peers, k: string)
    requires k in RemovalDecs(ls, list, peers)
    ensures (k in ls && k in list) || k in peers.Values
    decreases |list|
  {
    var init := list[..|list| - 1];
    var last := list[|list| - 1];
    if k in RemovalDecs(ls, init, peers) {
      RemovalDecsWithin(ls, init, peers, k);
      assert k in ls && k in init ==> k in list;
    } else {
      assert last in Strip(ls, init) && k in PeerDecs(last, peers);
      if k != last {
        assert last in peers && k == peers[last];
      }
    }
  }

  // ---------------------------------------------------------------------
  // move(message:from:to:queue:) and delete(message:label:)

  /** The state after `move(message:from:to:)`: take the source label away
      (decrementing when unread), and if the destination label is new, add
      it; moving to trash strips user labels, starred and all-mail with their
      counters and marks the message read, moving to spam strips the same
      labels without counters; a message still unread then counts in the
      destination and its peer. */
  function MoveSpec(s: Local, f: string, t: string, peers: Peers): Local {
    Arrive(RemoveOne(s, f, s.unRead, peers), t, peers)
  }

  /** The second half of a move: when t is new, add it, strip the user
      labels, starred and all-mail for trash (clearing the unread flag) or
      spam (without decrements), then count the arrival when unread. */
  function Arrive(s1: Local, t: string, peers: Peers): Local {
    if t in s1.labels then s1
    else
      var s2 := s1.(labels := s1.labels + [t]);
      var found := Found(s2.labels);
      var s3 :=
        if t == TrashID then RemoveAll(s2, found, s2.unRead, peers).(unRead := false)
        else if t == SpamID then RemoveAll(s2, found, false, peers)
        else s2;
      if s3.unRead then s3.(counters := IncPeer(s3.counters, t, peers)) else s3
  }

  /** The state after `delete(message:label:)`: the given label is taken away
      (decrementing when unread), then the user labels, starred and all-mail
      (the same), and finally the whole relation is cleared. */
  function DeleteSpec(s: Local, lid: string, peers: Peers): Local {
    var s1 := RemoveOne(s, lid, s.unRead, peers);
    var s2 := RemoveAll(s1, Found(s1.labels), s1.unRead, peers);
    s2.(labels := [])
  }

  /** The label a trash or spam move strips. */
  predicate Stripped(x: string) {
    IsNormalLabel(x) || x == StarredID || x == AllMailID
  }

  /** The decrements of one `remove(labelID:)` performed with the message's
      own unread flag, as the first step of `move` and `delete` does. */
  function FirstDecs(s: Local, l: string, peers: Peers): multiset<string> {
    if l in s.labels && s.unRead then PeerDecs(l, peers) else multiset{}
  }

  lemma RemoveOneShape(s: Local, l: string, peers: Peers)
    ensures RemoveOne(s, l, s.unRead, peers)
         == Local(Without(s.labels, l), s.unRead, DecBy(s.counters, FirstDecs(s, l, peers)))
  {
    if l in s.labels && s.unRead {
      DecPeerIsDecBy(s.counters, l, peers);
    } else {
      DecByNone(s.counters);
    }
  }

  /** The decrements of the strip of user labels, starred and all-mail. */
  function StripDecs(ls: seq<string>, unread: bool, peers: Peers): multiset<string> {
    if unread then RemovalDecs(ls, Found(ls), peers) else multiset{}
  }

  /** A trash move, as one batch of decrements. */
  lemma TrashShape(s: Local, f: string, peers: Peers)
    requires TrashID !in Without(s.labels, f)
    ensures var ls2 := Without(s.labels, f) + [TrashID];
      MoveSpec(s, f, TrashID, peers)
        == Local(Strip(ls2, Found(ls2)), false,
                 DecBy(s.counters, FirstDecs(s, f, peers) + StripDecs(ls2, s.unRead, peers)))
  {
    RemoveOneShape(s, f, peers);
    var s1 := RemoveOne(s, f, s.unRead, peers);
    var ls2 := Without(s.labels, f) + [TrashID];
    var s2 := s1.(labels := ls2);
    RemoveAllShape(s2, Found(ls2), s2.unRead, peers);
    if !s.unRead { DecByNone(s1.counters); }
    DecByCompose(s.counters, FirstDecs(s, f, peers), StripDecs(ls2, s.unRead, peers));
  }

  /** A delete, as one batch of decrements. */
  lemma DeleteShape(s: Local, lid: string, peers: Peers)
    ensures var ls1 := Without(s.labels, lid);
      DeleteSpec(s, lid, peers)
        == Local([], s.unRead, DecBy(s.counters, FirstDecs(s, lid, peers) + StripDecs(ls1, s.unRead, peers)))
  {
    RemoveOneShape(s, lid, peers);
    var s1 := RemoveOne(s, lid, s.unRead, peers);
    RemoveAllShape(s1, Found(s1.labels), s1.unRead, peers);
    if !s.unRead { DecByNone(s1.counters); }
    DecByCompose(s.counters, FirstDecs(s, lid, peers), StripDecs(s1.labels, s.unRead, peers));
  }

  /** Which labels one batch of decrements can reach, and how far. */
  lemma BatchFacts(s: Local, l: string, ls: seq<string>, peers: Peers, k: string)
    requires NonNegative(s.counters)
    requires forall x :: x in ls ==> x in s.labels || x !in Found(ls)
    ensures var d := FirstDecs(s, l, peers) + StripDecs(ls, s.unRead, peers);
      var r := DecBy(s.counters, d);
      && Get(r, k) <= Get(s.counters, k)
      && (s.unRead && k in s.labels && (k == l || (k in ls && k in Found(ls))) ==> Get(r, k) <= Max0(Get(s.counters, k) - 1))
      && (k !in s.labels && k !in peers.Values ==> Get(r, k) == Get(s.counters, k))
  {
    var a := FirstDecs(s, l, peers);
    var b := StripDecs(ls, s.unRead, peers);
    assert Get(s.counters, k) >= 0;
    if s.unRead && k in s.labels {
      if k == l {
        assert k in a;
      } else if k in ls && k in Found(ls) {
        RemovalDecsCover(ls, Found(ls), peers, k);
        assert k in b;
      }
    }
    if k !in s.labels && k !in peers.Values {
      if k in b {
        RemovalDecsWithin(ls, Found(ls), peers, k);
      }
      assert k !in a;
      assert k !in a + b;
    }
  }

  /** Moving a message that still carries the target label once the
      source label is gone: the arrival adds nothing, so nothing is stripped,
      the unread flag is kept and no counter goes up; only the source label
      leaves, decremented when unread. This is the case the two lemmas below
      exclude for trash and spam. */
  lemma MoveToHeldLabel(s: Local, f: string, t: string, peers: Peers)
    requires t in Without(s.labels, f)
    ensures var r := MoveSpec(s, f, t, peers);
      && r.unRead == s.unRead
      && r.labels == Without(s.labels, f)
      && r.counters == (if f in s.labels && s.unRead then DecPeer(s.counters, f, peers) else s.counters)
  {
  }

  /** Moving a message to trash when it does not already carry trash other
      than as the source label (from trash itself included, where the label
      is removed and added back): it ends read, in trash, without user
      labels, starred or all-mail; no counter goes up (trash's included);
      when it was unread every label it lost is decremented, and no counter
      outside its labels and their self-sent peers changes; when it was read
      no counter changes at all. */
  lemma MoveToTrash(s: Local, f: string, peers: Peers)
    requires NonNegative(s.counters)
    requires TrashID !in Without(s.labels, f)
    ensures var r := MoveSpec(s, f, TrashID, peers);
      && !r.unRead
      && (forall x :: x in r.labels <==> x == TrashID || (x in s.labels && x != f && !Stripped(x)))
      && (!s.unRead ==> r.counters == s.counters)
      && (forall k :: Get(r.counters, k) <= Get(s.counters, k))
      && (s.unRead ==> forall l :: l in s.labels && (l == f || Stripped(l)) ==>
            Get(r.counters, l) <= Max0(Get(s.counters, l) - 1))
      && (forall k :: k !in s.labels && k !in peers.Values ==> Get(r.counters, k) == Get(s.counters, k))
  {
    var r := MoveSpec(s, f, TrashID, peers);
    var ls2 := Without(s.labels, f) + [TrashID];
    TrashShape(s, f, peers);
    LocationsAreNotNormal(Trash);
    assert forall x :: x in Found(ls2) <==> (x in ls2 && IsNormalLabel(x)) || x == StarredID || x == AllMailID;
    if !s.unRead {
      assert FirstDecs(s, f, peers) + StripDecs(ls2, s.unRead, peers) == multiset{};
      DecByNone(s.counters);
    }
    forall k ensures
      && Get(r.counters, k) <= Get(s.counters, k)
      && (s.unRead && k in s.labels && (k == f || Stripped(k)) ==> Get(r.counters, k) <= Max0(Get(s.counters, k) - 1))
      && (k !in s.labels && k !in peers.Values ==> Get(r.counters, k) == Get(s.counters, k))
    {
      BatchFacts(s, f, ls2, peers, k);
      if k in s.labels && k != f && Stripped(k) {
        assert k in ls2 && k in Found(ls2);
      }
    }
  }

  /** Moving a message to spam, when it does not already carry spam other
      than as the source label, strips the same labels as a trash move, but
      the strip touches no counter: the only counter changes are the source
      label's decrement and, for an unread message, spam's increment. */
  lemma MoveToSpam(s: Local, f: string, peers: Peers)
    requires SpamID !in Without(s.labels, f)
    ensures var r := MoveSpec(s, f, SpamID, peers);
      var c1 := if f in s.labels && s.unRead then DecPeer(s.counters, f, peers) else s.counters;
      && r.unRead == s.unRead
      && (forall x :: x in r.labels <==> x == SpamID || (x in s.labels && x != f && !Stripped(x)))
      && r.counters == (if s.unRead then IncPeer(c1, SpamID, peers) else c1)
  {
    var s1 := RemoveOne(s, f, s.unRead, peers);
    assert SpamID !in s1.labels by { assert s1.labels == Without(s.labels, f); }
    var s2 := s1.(labels := s1.labels + [SpamID]);
    RemoveAllShape(s2, Found(s2.labels), false, peers);
    LocationsAreNotNormal(Spam);
  }

  /** Deleting a message clears its label relation; no counter goes up;
      when it was unread, the given label and every user label, starred or
      all-mail label it had are decremented; other location labels lose the
      relation without a decrement. */
  lemma DeleteEffect(s: Local, lid: string, peers: Peers)
    requires NonNegative(s.counters)
    ensures var r := DeleteSpec(s, lid, peers);
      && r.labels == []
      && r.unRead == s.unRead
      && (!s.unRead ==> r.counters == s.counters)
      && (forall k :: Get(r.counters, k) <= Get(s.counters, k))
      && (s.unRead ==> forall l :: l in s.labels && (l == lid || Stripped(l)) ==>
            Get(r.counters, l) <= Max0(Get(s.counters, l) - 1))
      && (forall k :: k !in s.labels && k !in peers.Values ==> Get(r.counters, k) == Get(s.counters, k))
  {
    var r := DeleteSpec(s, lid, peers);
    var ls1 := Without(s.labels, lid);
    DeleteShape(s, lid, peers);
    if !s.unRead {
      assert FirstDecs(s, lid, peers) + StripDecs(ls1, s.unRead, peers) == multiset{};
      DecByNone(s.counters);
    }
    forall k ensures
      && Get(r.counters, k) <= Get(s.counters, k)
      && (s.unRead && k in s.labels && (k == lid || Stripped(k)) ==> Get(r.counters, k) <= Max0(Get(s.counters, k) - 1))
      && (k !in s.labels && k !in peers.Values ==> Get(r.counters, k) == Get(s.counters, k))
    {
      BatchFacts(s, lid, ls1, peers, k);
      if k in s.labels && k != lid && Stripped(k) {
        assert k in ls1 && k in Found(ls1);
      }
    }
  }
}
