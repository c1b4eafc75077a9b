/** Sums over the values of a finite map. */
module Sums {

  ghost function AnyOf<T>(ks: set<T>): (k: T)
    requires ks != {}
    ensures k in ks
  {
    var k :| k in ks; k
  }

  ghost function SumOver(ks: set<int>, m: map<int, int>): int
    requires ks <= m.Keys
    decreases |ks|
  {
    if ks == {} then 0 else var k := AnyOf(ks); m[k] + SumOver(ks - {k}, m)
  }

  ghost function Sum(m: map<int, int>): int
  {
    SumOver(m.Keys, m)
  }

  lemma {:induction false} SumOverRemove(ks: set<int>, m: map<int, int>, k: int)
    requires ks <= m.Keys && k in ks
    ensures SumOver(ks, m) == m[k] + SumOver(ks - {k}, m)
    decreases |ks|
  {
    var j := AnyOf(ks);
    if j != k {
      SumOverRemove(ks - {j}, m, k);
      SumOverRemove(ks - {k}, m, j);
      assert ks - {j} - {k} == ks - {k} - {j};
    }
  }

  lemma {:induction false} SumOverAgree(ks: set<int>, m: map<int, int>, m': map<int, int>)
    requires ks <= m.Keys && ks <= m'.Keys && forall k :: k in ks ==> m[k] == m'[k]
    ensures SumOver(ks, m) == SumOver(ks, m')
    decreases |ks|
  {
    if ks != {} { SumOverAgree(ks - {AnyOf(ks)}, m, m'); }
  }

  lemma {:induction false} SumRemove(m: map<int, int>, k: int)
    requires k in m
    ensures Sum(m) == m[k] + Sum(m - {k}) && |m - {k}| == |m| - 1
  {
    SumOverRemove(m.Keys, m, k);
    assert (m - {k}).Keys == m.Keys - {k};
    SumOverAgree(m.Keys - {k}, m, m - {k});
  }

  lemma {:induction false} SumPut(m: map<int, int>, k: int, v: int)
    ensures k in m ==> Sum(m[k := v]) == Sum(m) - m[k] + v && |m[k := v]| == |m|
    ensures k !in m ==> Sum(m[k := v]) == Sum(m) + v && |m[k := v]| == |m| + 1
  {
    var m' := m[k := v];
    assert m'.Keys == m.Keys + {k};
    SumOverRemove(m'.Keys, m', k);
    SumOverAgree(m.Keys - {k}, m, m');
    assert m'.Keys - {k} == m.Keys - {k};
    if k in m {
      SumOverRemove(m.Keys, m, k);
      assert m'.Keys == m.Keys;
    } else {
      assert m.Keys - {k} == m.Keys;
    }
  }

  /** The part of a map with keys in `s`, or outside it. */
  function Part(m: map<int, int>, s: set<int>, inside: bool): map<int, int>
  {
    map k | k in m && (k in s <==> inside) :: m[k]
  }

  lemma {:induction false} SumParts(m: map<int, int>, s: set<int>)
    ensures Sum(m) == Sum(Part(m, s, true)) + Sum(Part(m, s, false))
    decreases |m|
  {
    if m.Keys == {} {
      assert Part(m, s, true).Keys == {} && Part(m, s, false).Keys == {};
    } else {
      var k := AnyOf(m.Keys);
      var n := m - {k};
      SumRemove(m, k);
      SumParts(n, s);
      var p := k in s;
      SumRemove(Part(m, s, p), k);
      assert Part(m, s, p) - {k} == Part(n, s, p) && Part(m, s, !p) == Part(n, s, !p);
    }
  }
}
