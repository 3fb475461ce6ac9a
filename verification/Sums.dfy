/** Sums over the connections of a client or a server. */
module Sums {
  ghost function Total(w: map<nat, nat>): (t: nat)
    decreases |w|
  {
    if w == map[] then 0
    else
      var k :| k in w.Keys;
      assert (w - {k}).Keys == w.Keys - {k};
      w[k] + Total(w - {k})
  }

  /** The sum does not depend on the order of summation. */
  lemma {:induction false} Without(w: map<nat, nat>, k: nat)
    requires k in w
    ensures Total(w) == w[k] + Total(w - {k})
    decreases |w|
  {
    var j :| j in w.Keys && Total(w) == w[j] + Total(w - {j});
    if j != k {
      assert (w - {j}).Keys == w.Keys - {j} && (w - {k}).Keys == w.Keys - {k};
      Without(w - {j}, k);
      Without(w - {k}, j);
      assert w - {j} - {k} == w - {k} - {j};
    }
  }

  lemma Updated(w: map<nat, nat>, k: nat, v: nat)
    ensures Total(w[k := v]) + (if k in w then w[k] else 0) == Total(w) + v
  {
    Without(w[k := v], k);
    if k in w {
      Without(w, k);
      assert w[k := v] - {k} == w - {k};
    } else {
      assert w[k := v] - {k} == w;
    }
  }

  lemma AtLeast(w: map<nat, nat>, k: nat)
    requires k in w
    ensures w[k] <= Total(w)
  {
    Without(w, k);
  }
}
