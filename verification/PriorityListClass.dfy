/**
 `PriorityList` as the source runs it: one object, `lst` and `keys` changed in place by search
 loops. Each method is proved against the operation on values of the same name.
 */
module PriorityListClass {
  import opened Bytes
  import opened XorDistance
  import P = PriorityList

  type Node = P.Node

  class PriorityList {
    const max: nat
    var keys: map<Key, Node>
    var lst: seq<Node>

    constructor (max: nat)
      ensures Valid() && View() == P.PList(max, [], map[])
    {
      this.max := max;
      keys, lst := map[], [];
    }

    ghost function View(): P.PList
      reads this
    {
      P.PList(max, lst, keys)
    }

    ghost predicate Valid()
      reads this
    {
      P.Consistent(View())
    }

    /** `Put`. The length check that would panic is the assertion at the end. */
    method Put(item: Node) returns (done: bool)
      requires Valid()
      modifies this
      ensures Valid() && done
      ensures View() == P.Put(old(View()), item)
    {
      P.PutKeeps(View(), item);
      if item.pubkey in keys {
        ReplaceItem(item);
        return true;
      }
      var i := FindInsertPosition(item);
      lst := lst[..i] + [item] + lst[i..];
      keys := keys[item.pubkey := item];
      if |lst| > max {
        DropKeys(lst[max..]);
        lst := lst[..max];
      }
      P.ConsistentLengths(View());
      assert |lst| == |keys|;
      return true;
    }

    /** The first loop of `Put`. */
    method FindInsertPosition(item: Node) returns (i: nat)
      ensures i == P.FindSlot(lst, item)
    {
      i := 0;
      while i < |lst|
        invariant i <= |lst| && i <= P.FindSlot(lst, item)
      {
        var v := IDClosest(item.cmppk, item.pubkey, lst[i].pubkey);
        if v >= 0 {
          break;
        }
        i := i + 1;
      }
    }

    /** The truncation loop of `Put`. */
    method DropKeys(todrop: seq<Node>)
      modifies this`keys
      ensures keys == old(keys) - P.KeySet(todrop)
    {
      assert todrop[..0] == [];
      for j := 0 to |todrop|
        invariant keys == old(keys) - P.KeySet(todrop[..j])
      {
        keys := keys - {todrop[j].pubkey};
        assert todrop[..j + 1] == todrop[..j] + [todrop[j]];
        P.KeySetConcat(todrop[..j], [todrop[j]]);
      }
      assert todrop[..|todrop|] == todrop;
    }

    /** `replaceItem`: the slice gets the new item, the map keeps the old one. */
    method ReplaceItem(item: Node)
      modifies this`lst
      ensures var i := P.FindKey(old(lst), item.pubkey);
        lst == if i < |old(lst)| then old(lst)[i := item] else old(lst)
    {
      var i := FindIndex(item.pubkey);
      if i < |lst| {
        lst := lst[i := item];
      }
    }

    /** The search loop that `replaceItem` and `Remove` share. */
    method FindIndex(key: Key) returns (i: nat)
      ensures i == P.FindKey(lst, key)
    {
      i := 0;
      while i < |lst|
        invariant i <= |lst| && i <= P.FindKey(lst, key)
      {
        if lst[i].pubkey == key {
          break;
        }
        i := i + 1;
      }
    }

    /** `Remove`. */
    method Remove(item: Node) returns (found: bool)
      requires Valid()
      modifies this
      ensures Valid()
      ensures found == (item.pubkey in old(keys))
      ensures View() == P.Remove(old(View()), item)
    {
      P.RemoveKeeps(View(), item);
      if item.pubkey !in keys {
        return false;
      }
      P.FoundIffPresent(lst, item.pubkey);
      var i := FindIndex(item.pubkey);
      lst := lst[..i] + lst[i + 1..];
      keys := keys - {item.pubkey};
      return true;
    }

    /** `GetByKey`. */
    function GetByKey(key: Key): Option<Node>
      reads this
    {
      if key in keys then Some(keys[key]) else None
    }

    /**
     `SelectRandn`: for every outcome of the draws the picks come from pairwise distinct
     positions of the list, as many as asked for or as there are.
     */
    method SelectRandn(k: int) returns (slts: seq<Node>)
      ensures |slts| == if k <= 0 then 0 else if k < |lst| then k else |lst|
      ensures IsSample(slts, lst)
    {
      slts := [];
      ghost var positions: seq<nat> := [];
      assert SampleAt(slts, lst, positions);
      if k <= 0 {
        return;
      }
      var n := |lst|;
      var i := 0;
      while i < k && i < n
        invariant 0 <= i <= n && i <= k
        invariant |slts| == i && positions == seq(i, t => t)
        invariant forall t | 0 <= t < i :: slts[t] == lst[t]
      {
        slts := slts + [lst[i]];
        positions := positions + [i];
        i := i + 1;
      }
      assert SampleAt(slts, lst, positions);
      if |slts| < k {
        return;
      }
      for x := 0 to n - k
        invariant |slts| == k && SampleAt(slts, lst, positions)
        invariant forall t | 0 <= t < k :: positions[t] < k + x
      {
        var j :| 0 <= j < x + k;
        if j < k {
          slts := slts[j := lst[k + x]];
          positions := positions[j := k + x];
        }
      }
    }
  }

  /** The items `slts` stand at the pairwise distinct positions `ps` of `lst`. */
  ghost predicate SampleAt(slts: seq<Node>, lst: seq<Node>, ps: seq<nat>) {
    && |ps| == |slts| && (forall i | 0 <= i < |ps| :: ps[i] < |lst| && slts[i] == lst[ps[i]])
    && (forall i, j | 0 <= i < j < |ps| :: ps[i] != ps[j])
  }

  ghost predicate IsSample(slts: seq<Node>, lst: seq<Node>) {
    exists ps :: SampleAt(slts, lst, ps)
  }

  /**
   After a put, the map holds the item just put exactly when the key was new or the old entry
   was the same item: a repeated put updates the slice only.
   */
  lemma MapHoldsLatestExactly(s: P.PList, item: Node)
    requires P.Consistent(s) && item in P.Put(s, item).lst
    ensures item.pubkey in P.Put(s, item).keys
    ensures P.Put(s, item).keys[item.pubkey] == item <==> (item.pubkey !in s.keys || s.keys[item.pubkey] == item)
  {
    P.PutKeeps(s, item);
    assert item.pubkey in P.KeySet(P.Put(s, item).lst);
  }

  // ---------------------------------------------------------------- what map and slice hold after a history

  /** Apart from the item's own key, operations bring no new nodes into the list. */
  lemma PutBringsNone(s: P.PList, item: Node, x: Node)
    requires P.Consistent(s) && x in P.Put(s, item).lst
    ensures if x.pubkey == item.pubkey then x == item else x in s.lst
  {
    if item.pubkey in s.keys {
      P.FoundIffPresent(s.lst, item.pubkey);
      var i := P.FindKey(s.lst, item.pubkey);
      var j :| 0 <= j < |s.lst| && s.lst[i := item][j] == x;
      assert j != i ==> s.lst[j].pubkey != s.lst[i].pubkey;
    } else {
      P.KeyAbsent(s.lst, item.pubkey);
      assert x in P.Insert(s.lst, item);
    }
  }

  /** The one node of a key in the list. */
  lemma SameNode(lst: seq<Node>, x: Node, y: Node)
    requires P.Distinct(lst) && x in lst && y in lst && x.pubkey == y.pubkey
    ensures x == y
  {
    var i :| 0 <= i < |lst| && lst[i] == x;
    var j :| 0 <= j < |lst| && lst[j] == y;
  }

  lemma NodeStays(s: P.PList, r: P.PList, k: Key, x: Node)
    requires P.Consistent(s) && P.Consistent(r) && k in r.keys && x in s.lst && x.pubkey == k
    requires forall y <- r.lst :: y.pubkey == k ==> y in s.lst
    ensures x in r.lst
  {
    assert k in P.KeySet(r.lst);
    var y :| y in r.lst && y.pubkey == k;
    SameNode(s.lst, x, y);
  }

  /** The put at `i` brought the key back, and it has been in the list ever since. */
  ghost predicate Since(max: nat, ops: seq<P.Op>, k: Key, i: nat) {
    && i < |ops| && ops[i].PutOp? && ops[i].item.pubkey == k && k !in P.History(max, ops[..i]).keys
    && (forall t | i < t <= |ops| :: k in P.History(max, ops[..t]).keys)
  }

  /** The put at `j` is the last one of the key. */
  ghost predicate Latest(ops: seq<P.Op>, k: Key, j: nat) {
    && j < |ops| && ops[j].PutOp? && ops[j].item.pubkey == k
    && (forall t | j < t < |ops| :: ops[t].PutOp? ==> ops[t].item.pubkey != k)
  }

  /** `GetByKey` answers with the put at `i`, the list holds the put at `j`. */
  ghost predicate Holds(s: P.PList, k: Key, first: Node, last: Node) {
    k in s.keys && s.keys[k] == first && last in s.lst && last.pubkey == k
  }

  lemma SinceExtends(max: nat, ops: seq<P.Op>, k: Key, i: nat)
    requires ops != [] && Since(max, ops[..|ops| - 1], k, i) && k in P.History(max, ops).keys
    ensures Since(max, ops, k, i)
  {
    var n := |ops| - 1;
    assert ops[..n][..i] == ops[..i] && ops[..|ops|] == ops;
    forall t | i < t <= |ops| ensures k in P.History(max, ops[..t]).keys {
      if t <= n { assert ops[..n][..t] == ops[..t]; }
    }
  }

  /**
   Over any history: for a key in the list the map holds the first item put since the key was
   last absent, while the list itself holds the latest one.
   */
  lemma {:induction false} MapHoldsFirstListHoldsLast(max: nat, ops: seq<P.Op>, k: Key) returns (i: nat, j: nat)
    requires k in P.History(max, ops).keys
    ensures Since(max, ops, k, i) && Latest(ops, k, j) && i <= j
    ensures Holds(P.History(max, ops), k, ops[i].item, ops[j].item)
    decreases |ops|
  {
    var n := |ops| - 1;
    var s, op, r := P.History(max, ops[..n]), ops[n], P.History(max, ops);
    P.HistoryConsistent(max, ops[..n]);
    P.HistoryConsistent(max, ops);
    if k in s.keys {
      i, j := MapHoldsFirstListHoldsLast(max, ops[..n], k);
      SinceExtends(max, ops, k, i);
      j := StillHeld(s, ops, r, k, ops[i].item, j);
    } else {
      FirstPut(s, op, r, k);
      i, j := n, n;
      assert ops[..|ops|] == ops;
    }
  }

  lemma StillHeld(s: P.PList, ops: seq<P.Op>, r: P.PList, k: Key, first: Node, j: nat) returns (j': nat)
    requires P.Consistent(s) && P.Consistent(r) && ops != [] && Latest(ops[..|ops| - 1], k, j) && k in r.keys
    requires r == match ops[|ops| - 1] case PutOp(item) => P.Put(s, item) case RemoveOp(item) => P.Remove(s, item)
    requires Holds(s, k, first, ops[j].item)
    ensures Latest(ops, k, j') && j <= j' && Holds(r, k, first, ops[j'].item)
  {
    var n := |ops| - 1;
    if ops[n].PutOp? && ops[n].item.pubkey == k {
      PutAgain(s, ops[n].item);
      j' := n;
    } else {
      OtherStays(s, ops[n], r, k, ops[j].item);
      j' := j;
    }
  }

  lemma PutAgain(s: P.PList, item: Node)
    requires P.Consistent(s) && item.pubkey in s.keys
    ensures P.Put(s, item).keys == s.keys && item in P.Put(s, item).lst
  {
    P.FoundIffPresent(s.lst, item.pubkey);
    var i := P.FindKey(s.lst, item.pubkey);
    assert s.lst[i := item][i] == item;
  }

  lemma OtherStays(s: P.PList, op: P.Op, r: P.PList, k: Key, x: Node)
    requires P.Consistent(s) && P.Consistent(r) && k in s.keys && k in r.keys && x in s.lst && x.pubkey == k
    requires r == match op case PutOp(item) => P.Put(s, item) case RemoveOp(item) => P.Remove(s, item)
    requires op.PutOp? ==> op.item.pubkey != k
    ensures r.keys[k] == s.keys[k] && x in r.lst
  {
    forall y | y in r.lst && y.pubkey == k ensures y in s.lst {
      if op.PutOp? { PutBringsNone(s, op.item, y); }
    }
    NodeStays(s, r, k, x);
  }

  lemma FirstPut(s: P.PList, op: P.Op, r: P.PList, k: Key)
    requires P.Consistent(s) && P.Consistent(r) && k !in s.keys && k in r.keys
    requires r == match op case PutOp(item) => P.Put(s, item) case RemoveOp(item) => P.Remove(s, item)
    ensures op.PutOp? && op.item.pubkey == k && r.keys[k] == op.item && op.item in r.lst
  {
    assert k in P.KeySet(r.lst) && k !in P.KeySet(s.lst);
    var y :| y in r.lst && y.pubkey == k;
    P.KeyAbsent(s.lst, k);
    if op.PutOp? { PutBringsNone(s, op.item, y); }
  }
}
