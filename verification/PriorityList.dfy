/**
 The bounded list of closest nodes (mintox/priority_list.go) with `NodeFormat` items:
 an online, truncating, sorted list that equals "sort everything ever put, keep the first max".
 */
module PriorityList {
  import opened Bytes
  import opened XorDistance

  /** A `NodeFormat`; `addr` stands for its network address. */
  datatype Node = Node(pubkey: Key, addr: nat, cmppk: Key)

  /** The fields of a `PriorityList`. */
  datatype PList = PList(max: nat, lst: seq<Node>, keys: map<Key, Node>)

  /** `NodeFormat.Compare`. */
  function Compare(a: Node, b: Node): int {
    Closest(a.cmppk, a.pubkey, b.pubkey)
  }

  /**
   `ClientData.Compare` breaks the tie of equal distance by the age of the two entries.
   The list never compares two items with one key, so there it agrees with `Compare`.
   */
  function CompareWithAge(a: Node, b: Node, aOlder: bool): int {
    if Compare(a, b) == 1 && aOlder then -1 else Compare(a, b)
  }

  lemma AgeNeverMatters(a: Node, b: Node, aOlder: bool)
    requires a.pubkey != b.pubkey
    ensures CompareWithAge(a, b, aOlder) == Compare(a, b)
  {
    ClosestIsAStrictTotalOrder(a.cmppk, a.pubkey, b.pubkey, b.pubkey);
  }

  // ---------------------------------------------------------------- specification of the operations

  /** Index of the first item with key `k`, or the length. */
  function FindKey(lst: seq<Node>, k: Key): (i: nat)
    ensures i <= |lst|
    ensures forall j | 0 <= j < i :: lst[j].pubkey != k
    ensures i < |lst| ==> lst[i].pubkey == k
  {
    if lst == [] || lst[0].pubkey == k then 0 else 1 + FindKey(lst[1..], k)
  }

  /** Index of the first item that is no closer than `item`, or the length. */
  function FindSlot(lst: seq<Node>, item: Node): (i: nat)
    ensures i <= |lst|
    ensures forall j | 0 <= j < i :: Compare(item, lst[j]) < 0
    ensures i < |lst| ==> Compare(item, lst[i]) >= 0
  {
    if lst == [] || Compare(item, lst[0]) >= 0 then 0 else 1 + FindSlot(lst[1..], item)
  }

  function KeySet(lst: seq<Node>): set<Key> {
    set n | n in lst :: n.pubkey
  }

  function Insert(lst: seq<Node>, item: Node): (r: seq<Node>)
    ensures |r| == |lst| + 1
  {
    lst[..FindSlot(lst, item)] + [item] + lst[FindSlot(lst, item)..]
  }

  function Put(s: PList, item: Node): PList {
    if item.pubkey in s.keys then
      var i := FindKey(s.lst, item.pubkey);
      s.(lst := if i < |s.lst| then s.lst[i := item] else s.lst)
    else
      var longer := Insert(s.lst, item);
      if |longer| > s.max then
        PList(s.max, longer[..s.max], s.keys[item.pubkey := item] - KeySet(longer[s.max..]))
      else
        PList(s.max, longer, s.keys[item.pubkey := item])
  }

  function Remove(s: PList, item: Node): PList {
    if item.pubkey !in s.keys then s
    else
      var i := FindKey(s.lst, item.pubkey);
      if i < |s.lst| then PList(s.max, s.lst[..i] + s.lst[i + 1..], s.keys - {item.pubkey}) else s
  }

  // ---------------------------------------------------------------- invariants

  ghost predicate Distinct(lst: seq<Node>) {
    forall i, j | 0 <= i < j < |lst| :: lst[i].pubkey != lst[j].pubkey
  }

  /** The list is duplicate-free, at most `max` long, and has the same keys as the map. */
  ghost predicate Consistent(s: PList) {
    && Distinct(s.lst)
    && |s.lst| <= s.max
    && KeySet(s.lst) == s.keys.Keys
  }

  /** Strictly increasing distance from `c`. */
  ghost predicate Sorted(c: Key, lst: seq<Node>) {
    forall i, j | 0 <= i < j < |lst| :: Distance(c, lst[i].pubkey) < Distance(c, lst[j].pubkey)
  }

  lemma FoundIffPresent(lst: seq<Node>, k: Key)
    ensures FindKey(lst, k) < |lst| <==> k in KeySet(lst)
  {
    var i := FindKey(lst, k);
    if i < |lst| { assert lst[i] in lst; }
  }

  lemma {:induction false} DistinctCard(lst: seq<Node>)
    requires Distinct(lst)
    ensures |KeySet(lst)| == |lst|
  {
    if lst != [] {
      var n := |lst| - 1;
      DistinctCard(lst[..n]);
      assert lst == lst[..n] + [lst[n]];
      assert KeySet(lst) == KeySet(lst[..n]) + {lst[n].pubkey};
      assert lst[n].pubkey !in KeySet(lst[..n]);
    }
  }

  /** The length check at the end of `Put` can never panic. */
  lemma ConsistentLengths(s: PList)
    requires Consistent(s)
    ensures |s.lst| == |s.keys|
  {
    DistinctCard(s.lst);
  }

  lemma KeySetConcat(a: seq<Node>, b: seq<Node>)
    ensures KeySet(a + b) == KeySet(a) + KeySet(b)
  {
    forall k | k in KeySet(a) + KeySet(b) ensures k in KeySet(a + b) {
      var n :| (n in a || n in b) && n.pubkey == k;
      assert n in a + b;
    }
  }

  lemma KeySetAround(lst: seq<Node>, i: nat)
    requires i < |lst|
    ensures KeySet(lst) == KeySet(lst[..i] + lst[i + 1..]) + {lst[i].pubkey}
  {
    assert lst == lst[..i] + [lst[i]] + lst[i + 1..];
    KeySetConcat(lst[..i] + [lst[i]], lst[i + 1..]);
    KeySetConcat(lst[..i], [lst[i]]);
    KeySetConcat(lst[..i], lst[i + 1..]);
  }

  lemma InsertKeeps(lst: seq<Node>, item: Node)
    requires Distinct(lst) && item.pubkey !in KeySet(lst)
    ensures Distinct(Insert(lst, item)) && KeySet(Insert(lst, item)) == KeySet(lst) + {item.pubkey}
  {
    var i, r := FindSlot(lst, item), Insert(lst, item);
    KeyAbsent(lst, item.pubkey);
    SpliceDistinct(lst, i, item);
    SpliceKeys(lst, i, item);
  }

  lemma KeyAbsent(lst: seq<Node>, k: Key)
    requires k !in KeySet(lst)
    ensures forall j | 0 <= j < |lst| :: lst[j].pubkey != k
  {
    assert forall j | 0 <= j < |lst| :: lst[j] in lst;
  }

  lemma SpliceKeys(lst: seq<Node>, i: nat, item: Node)
    requires i <= |lst|
    ensures KeySet(lst[..i] + [item] + lst[i..]) == KeySet(lst) + {item.pubkey}
  {
    var r := lst[..i] + [item] + lst[i..];
    KeySetAround(r, i);
    assert r[..i] + r[i + 1..] == lst;
  }

  lemma SpliceDistinct(lst: seq<Node>, i: nat, item: Node)
    requires Distinct(lst) && i <= |lst| && forall j | 0 <= j < |lst| :: lst[j].pubkey != item.pubkey
    ensures Distinct(lst[..i] + [item] + lst[i..])
  {
  }

  lemma CutDistinct(lst: seq<Node>, i: nat)
    requires Distinct(lst) && i < |lst|
    ensures Distinct(lst[..i] + lst[i + 1..]) && lst[i].pubkey !in KeySet(lst[..i] + lst[i + 1..])
  {
    var r := lst[..i] + lst[i + 1..];
    assert forall j | 0 <= j < |r| :: r[j] == lst[if j < i then j else j + 1];
  }

  lemma SpliceSorts(c: Key, lst: seq<Node>, i: nat, item: Node)
    requires Sorted(c, lst) && i <= |lst|
    requires forall j | 0 <= j < i :: Distance(c, lst[j].pubkey) < Distance(c, item.pubkey)
    requires i < |lst| ==> Distance(c, item.pubkey) < Distance(c, lst[i].pubkey)
    ensures Sorted(c, lst[..i] + [item] + lst[i..])
  {
    var r := lst[..i] + [item] + lst[i..];
    assert forall j | 0 <= j < |r| :: r[j] == if j < i then lst[j] else if j == i then item else lst[j - 1];
  }

  /** Inserting at the slot found keeps the list strictly increasing. */
  lemma InsertSorts(c: Key, lst: seq<Node>, item: Node)
    requires Sorted(c, lst) && item.pubkey !in KeySet(lst) && item.cmppk == c
    ensures Sorted(c, Insert(lst, item))
  {
    var i := FindSlot(lst, item);
    if i < |lst| {
      KeyAbsent(lst, item.pubkey);
      ClosestIsAStrictTotalOrder(c, item.pubkey, lst[i].pubkey, lst[i].pubkey);
    }
    SpliceSorts(c, lst, i, item);
  }

  lemma PrefixKeeps(lst: seq<Node>, n: nat)
    requires Distinct(lst) && n <= |lst|
    ensures Distinct(lst[..n]) && KeySet(lst[..n]) == KeySet(lst) - KeySet(lst[n..])
  {
    forall k | k in KeySet(lst) - KeySet(lst[n..]) ensures k in KeySet(lst[..n]) {
      var x :| x in lst && x.pubkey == k;
      assert lst == lst[..n] + lst[n..];
      assert x !in lst[n..];
    }
    forall k | k in KeySet(lst[..n]) ensures k in KeySet(lst) - KeySet(lst[n..]) {
      var i :| 0 <= i < n && lst[i].pubkey == k;
      assert lst[i] in lst;
    }
  }

  lemma ReplaceKeeps(lst: seq<Node>, item: Node)
    requires Distinct(lst) && item.pubkey in KeySet(lst)
    ensures FindKey(lst, item.pubkey) < |lst|
    ensures Distinct(lst[FindKey(lst, item.pubkey) := item])
    ensures KeySet(lst[FindKey(lst, item.pubkey) := item]) == KeySet(lst)
  {
    FoundIffPresent(lst, item.pubkey);
    var i := FindKey(lst, item.pubkey);
    var r := lst[i := item];
    SamePubkeys(lst, r);
  }

  lemma SamePubkeys(a: seq<Node>, b: seq<Node>)
    requires |a| == |b| && forall i | 0 <= i < |a| :: a[i].pubkey == b[i].pubkey
    ensures KeySet(a) == KeySet(b)
  {
    forall k | k in KeySet(a) ensures k in KeySet(b) {
      var i :| 0 <= i < |a| && a[i].pubkey == k;
      assert b[i] in b;
    }
    forall k | k in KeySet(b) ensures k in KeySet(a) {
      var i :| 0 <= i < |b| && b[i].pubkey == k;
      assert a[i] in a;
    }
  }

  /** `Put` keeps the list consistent, whatever is put. */
  lemma PutKeeps(s: PList, item: Node)
    requires Consistent(s)
    ensures Consistent(Put(s, item))
  {
    if item.pubkey in s.keys {
      ReplaceKeeps(s.lst, item);
    } else {
      InsertKeeps(s.lst, item);
      var longer := Insert(s.lst, item);
      if |longer| > s.max { PrefixKeeps(longer, s.max); }
    }
  }

  /** `Remove` keeps the list consistent and takes out exactly the one key. */
  lemma RemoveKeeps(s: PList, item: Node)
    requires Consistent(s)
    ensures Consistent(Remove(s, item))
    ensures KeySet(Remove(s, item).lst) == KeySet(s.lst) - {item.pubkey}
  {
    FoundIffPresent(s.lst, item.pubkey);
    if item.pubkey in s.keys {
      var i := FindKey(s.lst, item.pubkey);
      KeySetAround(s.lst, i);
      CutDistinct(s.lst, i);
    }
  }

  lemma PutSorts(c: Key, s: PList, item: Node)
    requires Consistent(s) && Sorted(c, s.lst) && item.cmppk == c
    ensures Sorted(c, Put(s, item).lst)
  {
    if item.pubkey !in s.keys { InsertSorts(c, s.lst, item); }
  }

  lemma RemoveSorts(c: Key, s: PList, item: Node)
    requires Sorted(c, s.lst)
    ensures Sorted(c, Remove(s, item).lst)
  {
  }

  // ---------------------------------------------------------------- any history of puts and removes

  datatype Op = PutOp(item: Node) | RemoveOp(item: Node)

  function History(max: nat, ops: seq<Op>): PList {
    if ops == [] then PList(max, [], map[])
    else
      var s := History(max, ops[..|ops| - 1]);
      match ops[|ops| - 1]
      case PutOp(item) => Put(s, item)
      case RemoveOp(item) => Remove(s, item)
  }

  /** Across any history the list stays duplicate-free, bounded and equal in keys to the map. */
  lemma {:induction false} HistoryConsistent(max: nat, ops: seq<Op>)
    ensures Consistent(History(max, ops)) && |History(max, ops).lst| == |History(max, ops).keys|
  {
    if ops != [] {
      var s := History(max, ops[..|ops| - 1]);
      HistoryConsistent(max, ops[..|ops| - 1]);
      match ops[|ops| - 1]
      case PutOp(item) => PutKeeps(s, item);
      case RemoveOp(item) => RemoveKeeps(s, item);
    }
    ConsistentLengths(History(max, ops));
  }

  /** With one reference key the list is also always strictly sorted by distance. */
  lemma {:induction false} HistorySorted(c: Key, max: nat, ops: seq<Op>)
    requires forall op <- ops :: op.item.cmppk == c
    ensures Sorted(c, History(max, ops).lst)
  {
    if ops != [] {
      var n := |ops| - 1;
      assert ops[n] in ops;
      HistorySorted(c, max, ops[..n]);
      HistoryConsistent(max, ops[..n]);
      match ops[n]
      case PutOp(item) => PutSorts(c, History(max, ops[..n]), item);
      case RemoveOp(item) => RemoveSorts(c, History(max, ops[..n]), item);
    }
  }
}
