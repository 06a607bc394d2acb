/**
  A sparse segment's stream: the delta of each code from the one before it, in
  bytes of seven bits, the low ones first.
*/
module Varints {
  import opened Options

  // The bytes of a delta: all but the last have the bit 0x80.
  function Varint(v: nat): (s: seq<nat>)
    ensures s != [] && forall i :: 0 <= i < |s| ==> (s[i] < 0x80 <==> i == |s| - 1) && s[i] < 0x100
  {
    if v < 0x80 then [v] else [v % 0x80 + 0x80] + Varint(v / 0x80)
  }

  // How many those are.
  function VarintSize(v: nat): (n: nat)
    ensures n == |Varint(v)|
    ensures (v < 0x80 <==> n == 1) && (v < 0x4000 <==> n <= 2) && (v < 0x20_0000 <==> n <= 3)
  {
    if v < 0x80 then 1 else 1 + VarintSize(v / 0x80)
  }

  datatype Read = Read(v: nat, rest: seq<nat>)

  // The delta at the start of a stream, and what follows it; None of a stream
  // that ends first.
  function ReadVarint(s: seq<nat>): (r: Option<Read>)
    ensures r.Some? ==> |r.value.rest| < |s|
  {
    if s == [] then None
    else if s[0] < 0x80 then Some(Read(s[0], s[1..]))
    else
      match ReadVarint(s[1..])
      case None => None
      case Some(r) => Some(Read(s[0] % 0x80 + r.v * 0x80, r.rest))
  }

  lemma {:induction false} ReadsBack(v: nat, rest: seq<nat>)
    ensures ReadVarint(Varint(v) + rest) == Some(Read(v, rest))
  {
    var s := Varint(v) + rest;
    if v < 0x80 {
      assert s[1..] == rest;
    } else {
      ReadsBack(v / 0x80, rest);
      assert s[1..] == Varint(v / 0x80) + rest;
      assert s[0] % 0x80 == v % 0x80;
    }
  }

  // The stream of codes, each by its delta from the one before it, the first
  // from base.
  function Stream(base: nat, codes: seq<nat>): seq<nat>
    requires Rise(base, codes)
    decreases |codes|
  {
    if codes == [] then [] else Varint(codes[0] - base) + Stream(codes[0], codes[1..])
  }

  predicate Rise(base: nat, codes: seq<nat>)
    decreases |codes|
  {
    codes == [] || (base <= codes[0] && Rise(codes[0], codes[1..]))
  }

  // The codes a reader takes out of a stream.
  function ReadCodes(base: nat, s: seq<nat>): seq<nat>
    decreases |s|
  {
    var r := ReadVarint(s);
    if r.None? then [] else [base + r.value.v] + ReadCodes(base + r.value.v, r.value.rest)
  }

  lemma {:induction false} StreamReadsBack(base: nat, codes: seq<nat>)
    requires Rise(base, codes)
    ensures ReadCodes(base, Stream(base, codes)) == codes
    decreases |codes|
  {
    if codes != [] {
      ReadsBack(codes[0] - base, Stream(codes[0], codes[1..]));
      StreamReadsBack(codes[0], codes[1..]);
    }
  }

  function Last(base: nat, codes: seq<nat>): nat { if codes == [] then base else codes[|codes| - 1] }

  lemma Joins(a: seq<nat>, b: seq<nat>, c: seq<nat>)
    ensures a + (b + c) == (a + b) + c
  {
  }

  // One code more is its delta more.
  lemma {:induction false} StreamOfMore(base: nat, codes: seq<nat>, code: nat)
    requires Rise(base, codes) && Last(base, codes) <= code
    ensures Rise(base, codes + [code])
    ensures Stream(base, codes + [code]) == Stream(base, codes) + Varint(code - Last(base, codes))
    decreases |codes|
  {
    hide Varint;
    var more := codes + [code];
    if codes == [] {
      assert more[1..] == [] && Stream(code, []) == [];
    } else {
      StreamOfMore(codes[0], codes[1..], code);
      assert more[1..] == codes[1..] + [code];
      Joins(Varint(codes[0] - base), Stream(codes[0], codes[1..]), Varint(code - Last(base, codes)));
    }
  }
}
