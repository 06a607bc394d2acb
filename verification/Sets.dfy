/**
  Finite sets of naturals: their intervals, and counting by slices.
*/
module Sets {

  predicate Between(a: nat, x: nat, b: nat) { a <= x < b }

  // The naturals in [a, b).
  ghost function Interval(a: nat, b: nat): set<nat> { set x: nat | x < b && Between(a, x, b) }

  lemma {:induction false} IntervalSize(a: nat, b: nat)
    requires a <= b
    ensures |Interval(a, b)| == b - a
    decreases b - a
  {
    if a == b {
      assert Interval(a, b) == {};
    } else {
      IntervalSize(a, b - 1);
      assert Interval(a, b) == Interval(a, b - 1) + {b - 1};
    }
  }

  lemma IntervalGrows(a: nat, v: nat)
    requires a <= v
    ensures Interval(a, a) == {}
    ensures Interval(a, v + 1) == Interval(a, v) + {v}
    ensures forall x :: x in Interval(a, v) ==> x < v
  {
  }

  lemma IntervalOfOne(v: nat)
    ensures Interval(v, v + 1) == {v}
  {
  }

  // The part of s in a .. b, and the rest of it.
  ghost function Within(s: set<nat>, a: nat, b: nat): set<nat> { s * Interval(a, b + 1) }

  ghost function Without(s: set<nat>, a: nat, b: nat): set<nat> { s - Interval(a, b + 1) }

  lemma WithoutSize(s: set<nat>, a: nat, b: nat)
    ensures |Without(s, a, b)| + |Within(s, a, b)| == |s|
  {
    DifferenceSize(s, Interval(a, b + 1));
  }

  lemma WithoutNone(s: set<nat>, a: nat, b: nat)
    requires |Within(s, a, b)| == 0
    ensures Without(s, a, b) == s
  {
    assert Within(s, a, b) == {};
    assert forall x :: x in s && x in Interval(a, b + 1) ==> x in Within(s, a, b);
  }

  lemma WithoutOne(s: set<nat>, x: nat)
    ensures Without(s, x, x) == s - {x}
    ensures x in s ==> |Within(s, x, x)| == 1
  {
    IntervalOfOne(x);
    assert x in s ==> Within(s, x, x) == {x};
  }

  // The part of s in [a, b).
  ghost function Slice(s: set<nat>, a: nat, b: nat): set<nat> { set x | x in s && a <= x < b }

  lemma SliceSplits(s: set<nat>, a: nat, m: nat, b: nat)
    requires a <= m <= b
    ensures |Slice(s, a, b)| == |Slice(s, a, m)| + |Slice(s, m, b)|
  {
    assert Slice(s, a, b) == Slice(s, a, m) + Slice(s, m, b);
    assert Slice(s, a, m) !! Slice(s, m, b);
  }

  lemma {:induction false} SubsetSize<T>(a: set<T>, b: set<T>)
    requires a <= b
    ensures |a| <= |b|
    ensures |a| == |b| ==> a == b
  {
    if a != {} {
      var x :| x in a;
      SubsetSize(a - {x}, b - {x});
    }
  }

  ghost predicate StartsRun(s: set<nat>, x: nat) { x in s && (x > 0 ==> x - 1 !in s) }

  // The values that start a run of consecutive members.
  ghost function RunStarts(s: set<nat>): set<nat> { set x | x in s && StartsRun(s, x) }

  // An interval past a set, and not adjacent to it, is one run more.
  lemma AddInterval(t: set<nat>, a: nat, b: nat)
    requires a < b && forall x :: x in t ==> x + 1 < a
    ensures |t + Interval(a, b)| == |t| + b - a
    ensures |RunStarts(t + Interval(a, b))| == |RunStarts(t)| + 1
  {
    IntervalSize(a, b);
    var tail := Interval(a, b);
    assert t !! tail;
    var s := t + tail;
    forall x: nat
      ensures StartsRun(s, x) <==> StartsRun(t, x) || x == a
    {
      if x > 0 {
        assert x in tail && x != a ==> x - 1 in tail;
      }
    }
    assert RunStarts(s) == RunStarts(t) + {a};
    assert a !in RunStarts(t);
  }

  lemma DifferenceSize<T>(a: set<T>, b: set<T>)
    ensures |a - b| + |a * b| == |a|
  {
    assert a == (a - b) + (a * b);
  }

  lemma UnionSize<T>(a: set<T>, b: set<T>)
    ensures |a + b| == |a| + |b - a|
  {
    assert a + b == a + (b - a);
  }

  function Plus(base: nat, x: nat): nat { base + x }

  // Moving a set up by base keeps its size.
  lemma {:induction false} ShiftSize(w: set<nat>, base: nat)
    ensures |set x | x in w :: Plus(base, x)| == |w|
  {
    var up := set x | x in w :: Plus(base, x);
    if w == {} {
      assert up == {};
    } else {
      var a :| a in w;
      ShiftSize(w - {a}, base);
      var rest := set x | x in w - {a} :: Plus(base, x);
      assert up == rest + {Plus(base, a)} by {
        forall y | y in up
          ensures y in rest + {Plus(base, a)}
        {
          var x :| x in w && Plus(base, x) == y;
          assert x != a ==> x in w - {a};
        }
      }
    }
  }

  // Strictly ascending.
  ghost predicate Ascends(s: seq<nat>) {
    forall i, j :: 0 <= i < j < |s| ==> s[i] < s[j]
  }

  ghost function ValuesOf(s: seq<nat>): set<nat> { set x | x in s }

  lemma {:induction false} AscendingSize(s: seq<nat>)
    requires Ascends(s)
    ensures |ValuesOf(s)| == |s|
  {
    if s == [] {
      assert ValuesOf(s) == {};
    } else {
      var n := |s| - 1;
      AscendingSize(s[..n]);
      assert s == s[..n] + [s[n]];
      assert ValuesOf(s) == ValuesOf(s[..n]) + {s[n]};
    }
  }

  // An ascending sequence is the one of its values.
  lemma {:induction false} AscendingIsUnique(s: seq<nat>, t: seq<nat>)
    requires Ascends(s) && Ascends(t) && ValuesOf(s) == ValuesOf(t)
    ensures s == t
  {
    if s == [] {
      assert ValuesOf(s) == {};
      AscendingSize(t);
    } else {
      var n := |s| - 1;
      assert s[n] in ValuesOf(t);
      var m := |t| - 1;
      assert t[m] in ValuesOf(s);
      assert s[n] == t[m];
      assert ValuesOf(s[..n]) == ValuesOf(s) - {s[n]} by {
        assert s == s[..n] + [s[n]];
      }
      assert ValuesOf(t[..m]) == ValuesOf(t) - {t[m]} by {
        assert t == t[..m] + [t[m]];
      }
      AscendingIsUnique(s[..n], t[..m]);
      assert s == s[..n] + [s[n]] && t == t[..m] + [t[m]];
    }
  }
}
