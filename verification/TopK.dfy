/**
 Online equals offline: after any puts with one reference key, in any order and with repeats,
 the list holds exactly the `max` closest distinct keys ever put. The argument is about plain
 key sequences and an injective distance `d`; the last section ties it to `PriorityList`.
 */
module TopK {
  import opened Bytes
  import opened XorDistance
  import opened PriorityList

  // ---------------------------------------------------------------- inserting by distance

  ghost predicate Injective(d: Key -> nat) {
    forall x, y :: d(x) == d(y) ==> x == y
  }

  ghost predicate Increasing(d: Key -> nat, ks: seq<Key>) {
    forall i, j | 0 <= i < j < |ks| :: d(ks[i]) < d(ks[j])
  }

  /** First position whose key is no closer than `x`. */
  function Slot(d: Key -> nat, ks: seq<Key>, x: Key): (i: nat)
    ensures i <= |ks|
    ensures forall j | 0 <= j < i :: d(ks[j]) < d(x)
    ensures i < |ks| ==> d(x) <= d(ks[i])
  {
    if ks == [] || d(x) <= d(ks[0]) then 0 else 1 + Slot(d, ks[1..], x)
  }

  function Splice(ks: seq<Key>, i: nat, x: Key): (r: seq<Key>)
    requires i <= |ks|
    ensures |r| == |ks| + 1
    ensures forall j | 0 <= j < |r| :: r[j] == if j < i then ks[j] else if j == i then x else ks[j - 1]
  {
    ks[..i] + [x] + ks[i..]
  }

  /** One put into a list of at most `max` keys. */
  function Add(d: Key -> nat, max: nat, ks: seq<Key>, x: Key): seq<Key> {
    if x in ks then ks
    else
      var r := Splice(ks, Slot(d, ks, x), x);
      r[..Min(max, |r|)]
  }

  function Online(d: Key -> nat, max: nat, xs: seq<Key>): seq<Key> {
    if xs == [] then [] else Add(d, max, Online(d, max, xs[..|xs| - 1]), xs[|xs| - 1])
  }

  /** Sorting everything ever put, without a bound. */
  function Offline(d: Key -> nat, xs: seq<Key>): seq<Key> {
    if xs == [] then []
    else
      var all, x := Offline(d, xs[..|xs| - 1]), xs[|xs| - 1];
      if x in all then all else Splice(all, Slot(d, all, x), x)
  }

  lemma {:induction false} SlotInPrefix(d: Key -> nat, ks: seq<Key>, m: nat, x: Key)
    requires m <= |ks|
    ensures Slot(d, ks[..m], x) == Min(Slot(d, ks, x), m)
  {
    var i, j := Slot(d, ks[..m], x), Slot(d, ks, x);
    assert i < m ==> d(x) <= d(ks[i]);
    assert j < |ks| ==> d(x) <= d(ks[j]);
    assert forall t | 0 <= t < i :: d(ks[..m][t]) < d(x) && ks[..m][t] == ks[t];
  }

  /** Splicing by distance keeps the sequence increasing. */
  lemma SpliceIncreasing(d: Key -> nat, ks: seq<Key>, x: Key)
    requires Increasing(d, ks) && forall j | 0 <= j < |ks| :: d(ks[j]) != d(x)
    ensures Increasing(d, Splice(ks, Slot(d, ks, x), x))
  {
    var i := Slot(d, ks, x);
    var r := Splice(ks, i, x);
    forall a, b | 0 <= a < b < |r| ensures d(r[a]) < d(r[b]) {
      if a < i && b == i {
      } else if a == i {
        assert d(x) < d(ks[i]);
      }
    }
  }

  lemma NoTie(d: Key -> nat, ks: seq<Key>, x: Key)
    requires Injective(d) && x !in ks
    ensures forall j | 0 <= j < |ks| :: d(ks[j]) != d(x)
  {
    forall j | 0 <= j < |ks| ensures d(ks[j]) != d(x) { assert ks[j] != x; }
  }

  function Elems(ks: seq<Key>): set<Key> {
    set k | k in ks
  }

  lemma SpliceElems(ks: seq<Key>, i: nat, x: Key)
    requires i <= |ks|
    ensures Elems(Splice(ks, i, x)) == Elems(ks) + {x}
  {
    var r := Splice(ks, i, x);
    forall k | k in Elems(ks) + {x} ensures k in r {
      if k != x {
        var j :| 0 <= j < |ks| && ks[j] == k;
        assert r[if j < i then j else j + 1] == k;
      } else {
        assert r[i] == x;
      }
    }
  }

  /** The offline list is the sorted enumeration of everything put. */
  lemma {:induction false} OfflineSorts(d: Key -> nat, xs: seq<Key>)
    requires Injective(d)
    ensures Increasing(d, Offline(d, xs)) && Elems(Offline(d, xs)) == Elems(xs)
  {
    if xs != [] {
      var n := |xs| - 1;
      OfflineSorts(d, xs[..n]);
      var all, x := Offline(d, xs[..n]), xs[n];
      assert xs == xs[..n] + [x];
      assert Elems(xs) == Elems(xs[..n]) + {x};
      if x !in all {
        NoTie(d, all, x);
        SpliceIncreasing(d, all, x);
        SpliceElems(all, Slot(d, all, x), x);
      }
    }
  }

  // ---------------------------------------------------------------- the online list is a prefix of the offline one

  /** A key already in the sorted list but beyond the prefix is dropped again. */
  lemma DroppedAgain(d: Key -> nat, max: nat, all: seq<Key>, p: nat)
    requires Increasing(d, all) && max <= p < |all|
    ensures Add(d, max, all[..max], all[p]) == all[..max]
  {
    var ks, x := all[..max], all[p];
    assert x !in ks by {
      assert forall j | 0 <= j < max :: d(ks[j]) < d(x);
    }
    assert forall j | 0 <= j < max :: d(ks[j]) < d(x);
    assert Slot(d, ks, x) == max;
  }

  lemma SplicePrefix(ks: seq<Key>, m: nat, i: nat, x: Key, n: nat)
    requires m <= |ks| && i <= |ks| && n <= m + 1 && (n == m + 1 ==> i <= m)
    ensures Splice(ks[..m], Min(i, m), x)[..n] == Splice(ks, i, x)[..n]
  {
    var q, r := Splice(ks[..m], Min(i, m), x), Splice(ks, i, x);
    forall j | 0 <= j < n ensures q[j] == r[j] {
    }
  }

  lemma AddToPrefix(d: Key -> nat, max: nat, all: seq<Key>, x: Key)
    requires x !in all
    ensures var r := Splice(all, Slot(d, all, x), x);
      Add(d, max, all[..Min(max, |all|)], x) == r[..Min(max, |r|)]
  {
    var m, i := Min(max, |all|), Slot(d, all, x);
    SlotInPrefix(d, all, m, x);
    AddIs(d, max, all[..m], x);
    CutSplice(all, max, i, x);
  }

  lemma CutSplice(all: seq<Key>, max: nat, i: nat, x: Key)
    requires i <= |all|
    ensures var m := Min(max, |all|);
      Splice(all[..m], Min(i, m), x)[..Min(max, m + 1)] == Splice(all, i, x)[..Min(max, |all| + 1)]
  {
    SplicePrefix(all, Min(max, |all|), i, x, Min(max, |all| + 1));
  }

  lemma AddIs(d: Key -> nat, max: nat, ks: seq<Key>, x: Key)
    requires x !in ks
    ensures Add(d, max, ks, x) == Splice(ks, Slot(d, ks, x), x)[..Min(max, |ks| + 1)]
  {
  }

  lemma {:induction false} OnlineIsPrefixOfOffline(d: Key -> nat, max: nat, xs: seq<Key>)
    requires Injective(d)
    ensures Online(d, max, xs) == Offline(d, xs)[..Min(max, |Offline(d, xs)|)]
  {
    if xs != [] {
      var n := |xs| - 1;
      OnlineIsPrefixOfOffline(d, max, xs[..n]);
      OfflineSorts(d, xs[..n]);
      var all, x := Offline(d, xs[..n]), xs[n];
      if x in all {
        var p :| 0 <= p < |all| && all[p] == x;
        if p < max { assert all[..Min(max, |all|)][p] == x; } else { DroppedAgain(d, max, all, p); }
      } else {
        AddToPrefix(d, max, all, x);
      }
    }
  }

  // ---------------------------------------------------------------- what the prefix means

  /** `ks` lists the `max` members of `S` with the smallest `d`, in increasing order. */
  ghost predicate IsTopK(d: Key -> nat, S: set<Key>, max: nat, ks: seq<Key>) {
    && Increasing(d, ks)
    && Elems(ks) <= S
    && |ks| == Min(max, |S|)
    && (forall k, x | k in S && k !in ks && x in ks :: d(x) < d(k))
  }

  lemma {:induction false} IncreasingCard(d: Key -> nat, ks: seq<Key>)
    requires Increasing(d, ks)
    ensures |Elems(ks)| == |ks|
  {
    if ks != [] {
      var n := |ks| - 1;
      IncreasingCard(d, ks[..n]);
      assert ks == ks[..n] + [ks[n]];
      assert Elems(ks) == Elems(ks[..n]) + {ks[n]};
      assert ks[n] !in ks[..n] by { assert forall i | 0 <= i < n :: d(ks[..n][i]) < d(ks[n]); }
    }
  }

  lemma PrefixIsTopK(d: Key -> nat, all: seq<Key>, max: nat)
    requires Increasing(d, all)
    ensures IsTopK(d, Elems(all), max, all[..Min(max, |all|)])
  {
    var m := Min(max, |all|);
    IncreasingCard(d, all);
    assert forall i | 0 <= i < m :: all[i] in all[..m] by { assert forall i | 0 <= i < m :: all[..m][i] == all[i]; }
    forall k, x | k in all && k !in all[..m] && x in all[..m] ensures d(x) < d(k) {
      var i :| 0 <= i < |all| && all[i] == k;
      var j :| 0 <= j < m && all[j] == x;
    }
  }

  lemma {:induction false} IncreasingUnique(d: Key -> nat, a: seq<Key>, b: seq<Key>)
    requires Increasing(d, a) && Increasing(d, b) && Elems(a) == Elems(b)
    ensures a == b
  {
    IncreasingCard(d, a);
    IncreasingCard(d, b);
    if a != [] {
      var n := |a| - 1;
      LastIsGreatest(d, a, b);
      LastAside(d, a);
      LastAside(d, b);
      IncreasingUnique(d, a[..n], b[..n]);
      assert a == a[..n] + [a[n]] && b == b[..n] + [b[n]];
    }
  }

  lemma LastIsGreatest(d: Key -> nat, a: seq<Key>, b: seq<Key>)
    requires Increasing(d, a) && Increasing(d, b) && Elems(a) == Elems(b) && |a| == |b| > 0
    ensures a[|a| - 1] == b[|b| - 1]
  {
    var n := |a| - 1;
    assert a[n] in Elems(b) && b[n] in Elems(a);
    var i :| 0 <= i < |b| && b[i] == a[n];
    var j :| 0 <= j < |a| && a[j] == b[n];
  }

  lemma LastAside(d: Key -> nat, a: seq<Key>)
    requires Increasing(d, a) && a != []
    ensures Elems(a[..|a| - 1]) == Elems(a) - {a[|a| - 1]}
  {
    var n := |a| - 1;
    assert a == a[..n] + [a[n]];
    assert a[n] !in a[..n] by { assert forall i | 0 <= i < n :: d(a[..n][i]) < d(a[n]); }
  }

  // ---------------------------------------------------------------- the priority list

  function DistanceTo(c: Key): Key -> nat {
    k => Distance(c, k)
  }

  lemma DistanceToInjective(c: Key)
    ensures Injective(DistanceTo(c))
  {
    forall x, y | DistanceTo(c)(x) == DistanceTo(c)(y) ensures x == y {
      DistanceInjective(c, x, y);
    }
  }

  function Pubkeys(lst: seq<Node>): (ks: seq<Key>)
    ensures |ks| == |lst| && forall i | 0 <= i < |lst| :: ks[i] == lst[i].pubkey
  {
    seq(|lst|, i requires 0 <= i < |lst| => lst[i].pubkey)
  }

  ghost predicate OnlyPuts(c: Key, ops: seq<Op>) {
    forall op <- ops :: op.PutOp? && op.item.cmppk == c
  }

  /** The keys put, in order and with repeats. */
  function KeysPut(ops: seq<Op>): (xs: seq<Key>)
    ensures |xs| == |ops| && forall i | 0 <= i < |ops| :: xs[i] == ops[i].item.pubkey
  {
    seq(|ops|, i requires 0 <= i < |ops| => ops[i].item.pubkey)
  }

  lemma SlotsAgree(c: Key, lst: seq<Node>, item: Node)
    requires item.cmppk == c
    ensures FindSlot(lst, item) == Slot(DistanceTo(c), Pubkeys(lst), item.pubkey)
  {
    var i, j := FindSlot(lst, item), Slot(DistanceTo(c), Pubkeys(lst), item.pubkey);
    assert forall t | 0 <= t < |lst| :: Compare(item, lst[t]) < 0 <==>
      DistanceTo(c)(Pubkeys(lst)[t]) < DistanceTo(c)(item.pubkey);
  }

  lemma SameMembers(lst: seq<Node>, k: Key)
    ensures k in Pubkeys(lst) <==> k in KeySet(lst)
  {
    if k in Pubkeys(lst) {
      var i :| 0 <= i < |lst| && Pubkeys(lst)[i] == k;
      assert lst[i] in lst;
    }
    if k in KeySet(lst) {
      var n :| n in lst && n.pubkey == k;
      var i :| 0 <= i < |lst| && lst[i] == n;
      assert Pubkeys(lst)[i] == k;
    }
  }

  lemma PutIsAdd(c: Key, s: PList, item: Node)
    requires Consistent(s) && item.cmppk == c
    ensures Pubkeys(Put(s, item).lst) == Add(DistanceTo(c), s.max, Pubkeys(s.lst), item.pubkey)
  {
    SameMembers(s.lst, item.pubkey);
    if item.pubkey !in s.keys {
      SlotsAgree(c, s.lst, item);
      InsertIsSplice(c, s.lst, item);
    }
  }

  lemma InsertIsSplice(c: Key, lst: seq<Node>, item: Node)
    requires item.cmppk == c
    ensures Pubkeys(Insert(lst, item)) == Splice(Pubkeys(lst), FindSlot(lst, item), item.pubkey)
  {
  }

  lemma {:induction false} HistoryIsOnline(c: Key, max: nat, ops: seq<Op>)
    requires OnlyPuts(c, ops)
    ensures History(max, ops).max == max
    ensures Pubkeys(History(max, ops).lst) == Online(DistanceTo(c), max, KeysPut(ops))
  {
    if ops != [] {
      var n := |ops| - 1;
      assert ops[n] in ops;
      HistoryIsOnline(c, max, ops[..n]);
      HistoryConsistent(max, ops[..n]);
      PutIsAdd(c, History(max, ops[..n]), ops[n].item);
      assert KeysPut(ops)[..n] == KeysPut(ops[..n]);
    }
  }

  /** After any puts the list is the first `max` of everything put, sorted by distance. */
  lemma OnlineEqualsOffline(c: Key, max: nat, ops: seq<Op>)
    requires OnlyPuts(c, ops)
    ensures var all := Offline(DistanceTo(c), KeysPut(ops));
      && Increasing(DistanceTo(c), all) && Elems(all) == Elems(KeysPut(ops))
      && Pubkeys(History(max, ops).lst) == all[..Min(max, |all|)]
    ensures IsTopK(DistanceTo(c), Elems(KeysPut(ops)), max, Pubkeys(History(max, ops).lst))
  {
    var d, xs := DistanceTo(c), KeysPut(ops);
    DistanceToInjective(c);
    HistoryIsOnline(c, max, ops);
    OnlineIsPrefixOfOffline(d, max, xs);
    OfflineSorts(d, xs);
    PrefixIsTopK(d, Offline(d, xs), max);
  }

  /** Neither the order of the puts nor repeats matter, only the set of keys. */
  lemma OrderDoesNotMatter(c: Key, max: nat, ops: seq<Op>, ops': seq<Op>)
    requires OnlyPuts(c, ops) && OnlyPuts(c, ops') && Elems(KeysPut(ops)) == Elems(KeysPut(ops'))
    ensures Pubkeys(History(max, ops).lst) == Pubkeys(History(max, ops').lst)
  {
    OnlineEqualsOffline(c, max, ops);
    OnlineEqualsOffline(c, max, ops');
    IncreasingUnique(DistanceTo(c), Offline(DistanceTo(c), KeysPut(ops)), Offline(DistanceTo(c), KeysPut(ops')));
  }
}
