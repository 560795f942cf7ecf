/** Weighted choice of a bootstrap node (bsdata/bootstrap_data.go). The random draw is a parameter. */
module NodePool {
  const BASE_WEIGHT := 100
  const MILLISECOND := 1_000_000

  // ---------------------------------------------------------------- which draws choose which node

  function Total(ws: seq<nat>): nat {
    if ws == [] then 0 else ws[0] + Total(ws[1..])
  }

  /** The node at which the running difference falls below zero; -1 is the fallback behind the loop. */
  function Pick(ws: seq<nat>, r: nat): (i: int)
    ensures -1 <= i < |ws|
  {
    if ws == [] then -1
    else if r < ws[0] then 0
    else
      var i := Pick(ws[1..], r - ws[0]);
      if i < 0 then -1 else i + 1
  }

  /** Every draw below the total chooses a node, whose weights in front of it the draw has passed. */
  lemma {:induction false} PickExactly(ws: seq<nat>, r: nat, i: nat)
    requires i < |ws|
    ensures Pick(ws, r) == i <==> Total(ws[..i]) <= r < Total(ws[..i]) + ws[i]
    decreases |ws|
  {
    if i > 0 {
      assert ws[..i][1..] == ws[1..][..i - 1];
      if r >= ws[0] { PickExactly(ws[1..], r - ws[0], i - 1); }
    }
  }

  lemma {:induction false} FallbackUnreachable(ws: seq<nat>, r: nat)
    ensures Pick(ws, r) >= 0 <==> r < Total(ws)
    decreases |ws|
  {
    if ws != [] && r >= ws[0] { FallbackUnreachable(ws[1..], r - ws[0]); }
  }

  lemma {:induction false} PartWithin(ws: seq<nat>, i: nat)
    requires i < |ws|
    ensures Total(ws[..i]) + ws[i] <= Total(ws)
    decreases |ws|
  {
    if i > 0 {
      assert ws[..i][1..] == ws[1..][..i - 1];
      PartWithin(ws[1..], i - 1);
    }
  }

  /** The `n` draws from `a` on. */
  function Interval(a: int, n: nat): (s: set<int>)
    ensures |s| == n && forall r :: r in s <==> a <= r < a + n
  {
    if n == 0 then {} else Interval(a, n - 1) + {a + n - 1}
  }

  /** The draws that choose node `i`. */
  function Draws(ws: seq<nat>, i: nat): set<int> {
    set r: int | 0 <= r < Total(ws) && Pick(ws, r) == i
  }

  /** Of the `total` possible draws, exactly as many choose a node as its weight says. */
  lemma Proportional(ws: seq<nat>, i: nat)
    requires i < |ws|
    ensures |Draws(ws, i)| == ws[i]
  {
    var a := Total(ws[..i]);
    PartWithin(ws, i);
    forall r: int | 0 <= r < Total(ws) ensures Pick(ws, r) == i <==> a <= r < a + ws[i] { PickExactly(ws, r, i); }
    forall r: int ensures r in Draws(ws, i) <==> r in Interval(a, ws[i]) {}
    assert Draws(ws, i) == Interval(a, ws[i]);
  }

  // ---------------------------------------------------------------- the pool

  /** The weight after a check: the base scaled by liveness and latency, cut to an integer. */
  function Weight(ok: bool, latency: nat): int {
    var alive := if ok then 1.0 else 0.1;
    (BASE_WEIGHT as real * alive * (100.0 / ((latency / MILLISECOND) as real + 100.0))).Floor
  }

  /** No check raises a weight above the base. */
  lemma WeightBounded(ok: bool, latency: nat)
    ensures 0 <= Weight(ok, latency) <= BASE_WEIGHT
  {
    var d := (latency / MILLISECOND) as real + 100.0;
    var f := 100.0 / d;
    assert f * d == 100.0;
    Fraction(f, d);
  }

  /** The weight is 10000 over the latency in milliseconds plus 100, and a tenth of that for a node that is down. */
  lemma WeightIs(ok: bool, latency: nat)
    ensures Weight(ok, latency) == (if ok then 10000 else 1000) / (latency / 1000000 + 100)
  {
    var d := latency / 1000000 + 100;
    var c := if ok then 10000 else 1000;
    Scaled(if ok then 1.0 else 0.1, c as real, d as real);
    FloorOfQuotient(c, d);
  }

  lemma Scaled(alive: real, c: real, d: real)
    requires d > 0.0 && c == 100.0 * alive * 100.0
    ensures 100.0 * alive * (100.0 / d) == c / d
  {
  }

  lemma FloorOfQuotient(c: nat, d: nat)
    requires d > 0
    ensures (c as real / d as real).Floor == c / d
  {
    var q, r := c / d, c % d;
    var x := c as real / d as real;
    assert c == q * d + r;
    assert x * (d as real) == c as real == (q as real) * (d as real) + r as real;
    Between(x, q as real, d as real, r as real);
  }

  lemma Between(x: real, q: real, d: real, r: real)
    requires d > 0.0 && 0.0 <= r < d && x * d == q * d + r
    ensures q <= x < q + 1.0
  {
    assert (x - q) * d == x * d - q * d == r;
    Proper(x - q, d, r);
  }

  lemma Proper(e: real, d: real, r: real)
    requires d > 0.0 && 0.0 <= r < d && e * d == r
    ensures 0.0 <= e < 1.0
  {
    assert e < 0.0 ==> e * d < 0.0;
    assert e >= 1.0 ==> e * d >= d;
  }

  lemma Fraction(f: real, d: real)
    requires d >= 100.0 && f * d == 100.0
    ensures 0.0 < f <= 1.0
  {
    assert f <= 0.0 ==> f * d <= 0.0;
    assert f > 1.0 ==> f * d > d;
  }

  datatype Node = Node(host: string, weight: nat, alive: bool, latency: nat)

  class Pool {
    var nodes: seq<Node>

    ghost predicate Valid()
      reads this
    {
      forall i | 0 <= i < |nodes| :: 1 <= nodes[i].weight <= BASE_WEIGHT
    }

    ghost function Weights(): seq<nat>
      reads this
    {
      seq(|nodes|, i requires 0 <= i < |nodes| reads this => nodes[i].weight)
    }

    /** `newPool`. */
    constructor (hosts: seq<string>)
      ensures Valid() && |nodes| == |hosts|
      ensures forall i | 0 <= i < |hosts| :: nodes[i] == Node(hosts[i], BASE_WEIGHT, true, 0)
    {
      nodes := seq(|hosts|, i requires 0 <= i < |hosts| => Node(hosts[i], BASE_WEIGHT, true, 0));
    }

    /** `updateWeight` on the i-th node. */
    method UpdateWeight(i: nat, ok: bool, latency: nat)
      requires Valid() && i < |nodes|
      modifies this
      ensures Valid() && |nodes| == |old(nodes)| && nodes == old(nodes)[i := nodes[i]]
      ensures nodes[i].host == old(nodes[i].host) && nodes[i].alive == (ok || old(nodes[i].alive))
      ensures nodes[i].latency == if ok then (3 * old(nodes[i].latency) + latency) / 4 else old(nodes[i].latency)
      ensures nodes[i].weight == if Weight(ok, nodes[i].latency) < 1 then 1 else Weight(ok, nodes[i].latency)
    {
      var n := nodes[i];
      if ok { n := n.(alive := true, latency := (n.latency * 3 + latency) / 4); }
      var w := Weight(ok, n.latency);
      WeightBounded(ok, n.latency);
      nodes := nodes[i := n.(weight := if w < 1 then 1 else w)];
    }

    method TotalWeight() returns (total: nat)
      ensures total == Total(Weights())
    {
      total := 0;
      for i := 0 to |nodes|
        invariant total + Total(Weights()[i..]) == Total(Weights())
      {
        total := total + nodes[i].weight;
      }
    }

    /** `Select`: the draw is any value below the total; on an empty pool drawing panics. */
    method Select(draw: nat -> nat) returns (chosen: int)
      requires Valid() && forall total: nat | total > 0 :: draw(total) < total
      ensures if nodes == [] then chosen == -1 else 0 <= chosen == Pick(Weights(), draw(Total(Weights())))
    {
      var total := TotalWeight();
      if total == 0 { return -1; }
      var r := draw(total);
      FallbackUnreachable(Weights(), r);
      for i := 0 to |nodes|
        invariant r >= 0 && Pick(Weights(), draw(total)) == i + Pick(Weights()[i..], r) >= i
      {
        r := r - nodes[i].weight;
        if r < 0 { return i; }
      }
      assert false;
      return 0;
    }
  }
}
