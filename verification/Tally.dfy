/**
  The tally of a decoded count: combinations of groups as mixed-radix codes,
  and a count for each, in an array, or in a hash that spills.
*/
module Tally {
  import opened Options

  /* ---------- codes ---------- */

  const MAX_CELLS: nat := 0x4000_0000_0000_0000

  ghost predicate RadixOk(radix: seq<nat>) { forall c :: 0 <= c < |radix| ==> radix[c] > 0 }

  // The combinations of the first n columns.
  ghost function Cells(radix: seq<nat>, n: nat): nat
    requires n <= |radix|
  {
    if n == 0 then 1 else Cells(radix, n - 1) * radix[n - 1]
  }

  // Each column's value is one of its radix's.
  ghost predicate ValuesOk(vals: seq<nat>, radix: seq<nat>) {
    |vals| == |radix| && forall c :: 0 <= c < |vals| ==> vals[c] < radix[c]
  }

  // The code of the first n columns' values.
  function CodeTo(vals: seq<nat>, radix: seq<nat>, n: nat): nat
    requires n <= |radix| && n <= |vals|
  {
    if n == 0 then 0 else CodeTo(vals, radix, n - 1) * radix[n - 1] + vals[n - 1]
  }

  lemma {:induction false} CellsPositive(radix: seq<nat>, n: nat)
    requires RadixOk(radix) && n <= |radix|
    ensures Cells(radix, n) > 0
  {
    if n > 0 {
      CellsPositive(radix, n - 1);
      ProductAtLeast(Cells(radix, n - 1), radix[n - 1]);
    }
  }

  lemma ProductAtLeast(a: nat, b: nat)
    requires b > 0
    ensures a * b >= a
  {
  }

  lemma Scaled(a: nat, b: nat, r: nat, v: nat)
    requires a < b && v < r
    ensures a * r + v < b * r
  {
    assert (a + 1) * r <= b * r;
  }

  // A code names a cell.
  lemma {:induction false} CodeIsCell(vals: seq<nat>, radix: seq<nat>, n: nat)
    requires ValuesOk(vals, radix) && n <= |radix|
    ensures CodeTo(vals, radix, n) < Cells(radix, n)
  {
    if n > 0 {
      CodeIsCell(vals, radix, n - 1);
      Scaled(CodeTo(vals, radix, n - 1), Cells(radix, n - 1), radix[n - 1], vals[n - 1]);
    }
  }

  lemma DivMod(q: nat, r: nat, v: nat)
    requires v < r
    ensures (q * r + v) / r == q && (q * r + v) % r == v
  {
    var d, m := (q * r + v) / r, (q * r + v) % r;
    assert d * r + m == q * r + v;
    Times(d + 1, q, r);
    Times(q + 1, d, r);
  }

  lemma Times(a: int, b: int, r: nat)
    ensures a <= b ==> a * r <= b * r
  {
    if a <= b {
      assert (b - a) * r >= 0;
    }
  }

  lemma Quotient(code: nat, cells: nat, r: nat)
    requires r > 0 && code < cells * r
    ensures code / r < cells
  {
    Times(cells, code / r, r);
  }

  // The code of vals, were the code of its first c values rest.
  ghost function Rebuilt(rest: nat, vals: seq<nat>, radix: seq<nat>, c: nat, n: nat): nat
    requires c <= n <= |vals| == |radix|
    decreases n
  {
    if n == c then rest else Rebuilt(rest, vals, radix, c, n - 1) * radix[n - 1] + vals[n - 1]
  }

  lemma {:induction false} RebuiltStep(rest: nat, next: nat, a: seq<nat>, b: seq<nat>, radix: seq<nat>, c: nat, n: nat)
    requires c < n <= |a| == |b| == |radix| && (forall i :: c < i < n ==> a[i] == b[i])
    requires rest == next * radix[c] + b[c]
    ensures Rebuilt(next, b, radix, c, n) == Rebuilt(rest, a, radix, c + 1, n)
    decreases n
  {
    if n > c + 1 {
      RebuiltStep(rest, next, a, b, radix, c, n - 1);
    } else {
      assert Rebuilt(next, b, radix, c, c) == next;
    }
  }

  lemma {:induction false} RebuiltAll(vals: seq<nat>, radix: seq<nat>, n: nat)
    requires n <= |vals| == |radix|
    ensures Rebuilt(0, vals, radix, 0, n) == CodeTo(vals, radix, n)
  {
    if n > 0 {
      RebuiltAll(vals, radix, n - 1);
    }
  }

  // The values a code names: the last column's is its remainder.
  method SplitCode(code: nat, radix: seq<nat>) returns (vals: seq<nat>)
    requires RadixOk(radix) && code < Cells(radix, |radix|)
    ensures ValuesOk(vals, radix) && CodeTo(vals, radix, |radix|) == code
  {
    vals := seq(|radix|, _ => 0);
    var rest: nat := code;
    var c: nat := |radix|;
    while c > 0
      invariant 0 <= c <= |radix| && |vals| == |radix| && rest < Cells(radix, c)
      invariant forall i :: c <= i < |radix| ==> vals[i] < radix[i]
      invariant Rebuilt(rest, vals, radix, c, |radix|) == code
    {
      hide CodeTo, Rebuilt;
      c := c - 1;
      Quotient(rest, Cells(radix, c), radix[c]);
      RebuiltStep(rest, rest / radix[c], vals, vals[c := rest % radix[c]], radix, c, |radix|);
      vals := vals[c := rest % radix[c]];
      rest := rest / radix[c];
    }
    RebuiltAll(vals, radix, |radix|);
  }

  // No two combinations share a code.
  lemma {:induction false} CodesDiffer(a: seq<nat>, b: seq<nat>, radix: seq<nat>, n: nat)
    requires ValuesOk(a, radix) && ValuesOk(b, radix) && n <= |radix| && CodeTo(a, radix, n) == CodeTo(b, radix, n)
    ensures forall c :: 0 <= c < n ==> a[c] == b[c]
  {
    if n > 0 {
      DivMod(CodeTo(a, radix, n - 1), radix[n - 1], a[n - 1]);
      DivMod(CodeTo(b, radix, n - 1), radix[n - 1], b[n - 1]);
      CodesDiffer(a, b, radix, n - 1);
    }
  }

  lemma {:induction false} CellsGrow(radix: seq<nat>, m: nat, n: nat)
    requires RadixOk(radix) && m <= n <= |radix|
    ensures Cells(radix, m) <= Cells(radix, n)
    decreases n
  {
    if m < n {
      CellsGrow(radix, m, n - 1);
      ProductAtLeast(Cells(radix, n - 1), radix[n - 1]);
    }
  }

  lemma GuardDecides(cells: nat, r: nat)
    requires r > 0
    ensures cells > MAX_CELLS / r <==> cells * r > MAX_CELLS
  {
    var q := MAX_CELLS / r;
    assert q * r <= MAX_CELLS < (q + 1) * r;
    if cells > q {
      assert cells * r >= (q + 1) * r;
    } else {
      assert cells * r <= q * r;
    }
  }

  // The combinations' number, unless they are too many for a code.
  method CountCells(radix: seq<nat>) returns (ok: bool, ncells: nat)
    requires RadixOk(radix)
    ensures ok <==> Cells(radix, |radix|) <= MAX_CELLS
    ensures ok ==> ncells == Cells(radix, |radix|)
  {
    ok, ncells := true, 1;
    for c := 0 to |radix|
      invariant ncells == Cells(radix, c) <= MAX_CELLS
    {
      GuardDecides(ncells, radix[c]);
      if ncells > MAX_CELLS / radix[c] {
        CellsGrow(radix, c + 1, |radix|);
        return false, ncells;
      }
      ncells := ncells * radix[c];
    }
  }

  /* ---------- counts ---------- */

  datatype Pair = Pair(code: nat, count: nat)

  // What the pairs from i on add up to for a code.
  ghost function SumFrom(pairs: seq<Pair>, i: nat, code: nat): nat
    requires i <= |pairs|
    decreases |pairs| - i
  {
    if i == |pairs| then 0 else (if pairs[i].code == code then pairs[i].count else 0) + SumFrom(pairs, i + 1, code)
  }

  lemma {:induction false} SumOfMore(pairs: seq<Pair>, p: Pair, i: nat, code: nat)
    requires i <= |pairs|
    ensures SumFrom(pairs + [p], i, code) == SumFrom(pairs, i, code) + if p.code == code then p.count else 0
    decreases |pairs| - i
  {
    if i < |pairs| {
      SumOfMore(pairs, p, i + 1, code);
    } else {
      assert SumFrom(pairs + [p], |pairs| + 1, code) == 0;
    }
  }

  function At(m: map<nat, nat>, code: nat): nat { if code in m then m[code] else 0 }

  function CellAt(dense: seq<nat>, from: nat, code: nat): nat {
    if from <= code < |dense| then dense[code] else 0
  }

  class Counts {
    const ncells: nat
    const isDense: bool
    const maxents: nat
    var dense: seq<nat>
    var hash: map<nat, nat>
    var spill: seq<Pair>
    var nspills: nat
    var reading: bool
    var phase: nat           // 0 memory, 1 the file, 2 done
    var densepos: nat
    var unread: set<nat>     // the hash's entries not yet read back
    var nread: nat

    ghost predicate Valid()
      reads this
    {
      && |dense| == (if isDense then ncells else 0) && (isDense ==> hash == map[])
      && (forall c :: c in hash ==> c < ncells && hash[c] > 0)
      && (forall i :: 0 <= i < |spill| ==> spill[i].code < ncells && spill[i].count > 0)
      && densepos <= |dense| && nread <= |spill| && phase <= 2
      && (!reading ==> phase == 0 && densepos == 0 && nread == 0)
      && (reading ==> unread <= hash.Keys)
      && (phase > 0 ==> densepos == |dense| && unread == {})
      && (phase == 2 ==> nread == |spill|)
    }

    // What was added to a code.
    ghost function Total(code: nat): nat
      reads this
    {
      CellAt(dense, 0, code) + At(hash, code) + SumFrom(spill, 0, code)
    }

    // What is left to be read back of it.
    ghost function Left(code: nat): nat
      requires Valid()
      reads this
    {
      CellAt(dense, densepos, code) + (if !reading || code in unread then At(hash, code) else 0) +
      SumFrom(spill, nread, code)
    }

    // Counts in an array when it takes at most a quarter of the memory.
    constructor (ncells: nat, maxbytes: nat)
      ensures Valid() && this.ncells == ncells && !reading && forall code :: Total(code) == 0
    {
      this.ncells := ncells;
      isDense := ncells <= maxbytes / 32;
      maxents := if maxbytes / 48 < 1024 then 1024
                 else if maxbytes / 48 > 0x7fff_ffff then 0x7fff_ffff else maxbytes / 48;
      dense := if ncells <= maxbytes / 32 then seq(ncells, _ => 0) else [];
      hash, spill, nspills := map[], [], 0;
      reading, phase, densepos, unread, nread := false, 0, 0, {}, 0;
    }

    method Add(code: nat, n: nat)
      requires Valid() && !reading && code < ncells && n > 0
      modifies this
      ensures Valid() && !reading
      ensures forall x :: Total(x) == old(Total(x)) + if x == code then n else 0
    {
      if isDense {
        dense := dense[code := dense[code] + n];
      } else if code in hash {
        hash := hash[code := hash[code] + n];
      } else {
        hash := hash[code := n];
        if |hash| > maxents {
          Spill();
        }
      }
    }

    // What the hash holds, onto the end of the file.
    method Spill()
      requires Valid() && !reading && !isDense
      modifies this
      ensures Valid() && !reading && hash == map[]
      ensures forall x :: Total(x) == old(Total(x))
    {
      var keys := hash.Keys;
      ghost var was := spill;
      while keys != {}
        invariant keys <= hash.Keys && hash == old(hash) && dense == old(dense) && Valid() && !reading
        invariant forall x ::
                    SumFrom(spill, 0, x) + (if x in keys then At(hash, x) else 0) == SumFrom(was, 0, x) + At(hash, x)
        decreases |keys|
      {
        var c :| c in keys;
        keys := keys - {c};
        forall x
          ensures SumFrom(spill + [Pair(c, hash[c])], 0, x) == SumFrom(spill, 0, x) + if c == x then hash[c] else 0
        {
          SumOfMore(spill, Pair(c, hash[c]), 0, x);
        }
        spill := spill + [Pair(c, hash[c])];
      }
      hash := map[];
      nspills := nspills + 1;
    }

    // The next combination with rows, and their number; None once there is
    // none left.
    method Next() returns (r: Option<Pair>)
      requires Valid()
      modifies this
      ensures Valid() && reading && forall x :: Total(x) == old(Total(x))
      ensures r.Some? ==> r.value.code < ncells && r.value.count > 0
      ensures r.Some? ==> forall x :: Left(x) + (if x == r.value.code then r.value.count else 0) == old(Left(x))
      ensures r.None? ==> forall x :: old(Left(x)) == 0 == Left(x)
      ensures reading && (r.Some? ==> Unread() < old(Unread()))
    {
      if !reading {
        reading := true;
        unread := hash.Keys;
      }
      if phase == 0 {
        r := NextInMemory();
        if r.Some? {
          return;
        }
        phase := 1;
      }
      if phase == 1 && nread < |spill| {
        var p := spill[nread];
        nread := nread + 1;
        return Some(p);
      }
      phase := 2;
      return None;
    }

    // What there is still to read.
    ghost function Unread(): nat
      requires Valid()
      reads this
    {
      |dense| - densepos + (if reading then |unread| else |hash|) + |spill| - nread
    }

    method NextInMemory() returns (r: Option<Pair>)
      requires Valid() && reading && phase == 0
      modifies this`densepos, this`unread
      ensures Valid() && (r.Some? ==> r.value.code < ncells && r.value.count > 0)
      ensures r.Some? ==> forall x :: Left(x) + (if x == r.value.code then r.value.count else 0) == old(Left(x))
      ensures r.None? ==> densepos == |dense| && unread == {} && forall x :: old(Left(x)) == SumFrom(spill, nread, x)
      ensures if r.Some? then Unread() < old(Unread()) else Unread() <= old(Unread())
    {
      if isDense {
        r := NextCell();
      } else if unread != {} {
        var c :| c in unread;
        unread := unread - {c};
        return Some(Pair(c, hash[c]));
      } else {
        return None;
      }
    }

    method NextCell() returns (r: Option<Pair>)
      requires Valid() && reading && phase == 0 && isDense
      modifies this`densepos
      ensures Valid() && (r.Some? ==> r.value.code < ncells && r.value.count > 0)
      ensures r.Some? ==> forall x :: Left(x) + (if x == r.value.code then r.value.count else 0) == old(Left(x))
      ensures r.None? ==> densepos == |dense| && forall x :: old(Left(x)) == SumFrom(spill, nread, x)
      ensures old(densepos) <= densepos && (r.Some? ==> old(densepos) < densepos)
    {
      hide SumFrom;
      while densepos < ncells
        invariant old(densepos) <= densepos <= ncells
        invariant forall x :: CellAt(dense, densepos, x) == CellAt(dense, old(densepos), x)
      {
        var i := densepos;
        densepos := densepos + 1;
        if dense[i] != 0 {
          return Some(Pair(i, dense[i]));
        }
      }
      return None;
    }
  }

  // All that comes out of a tally adds up to what went in, code by code.
  method ReadBack(t: Counts) returns (pairs: seq<Pair>)
    requires t.Valid() && !t.reading
    modifies t
    ensures forall x :: SumFrom(pairs, 0, x) == old(t.Total(x))
    ensures forall i :: 0 <= i < |pairs| ==> pairs[i].code < t.ncells && pairs[i].count > 0
  {
    pairs := [];
    var more := true;
    assert forall x :: t.Left(x) == t.Total(x);
    while more
      invariant t.Valid() && (pairs == [] || t.reading)
      invariant forall x :: SumFrom(pairs, 0, x) + t.Left(x) == old(t.Total(x))
      invariant !more ==> forall x :: t.Left(x) == 0
      invariant forall i :: 0 <= i < |pairs| ==> pairs[i].code < t.ncells && pairs[i].count > 0
      decreases more, t.Unread()
    {
      var r := t.Next();
      match r {
        case None =>
          more := false;
        case Some(p) =>
          forall x
            ensures SumFrom(pairs + [p], 0, x) + t.Left(x) == old(t.Total(x))
          {
            SumOfMore(pairs, p, 0, x);
          }
          pairs := pairs + [p];
      }
    }
  }
}
