/** Little-endian integers of any width, unsigned and two's complement, and records laid out in bytes. */
module Codec {
  type byte = b: int | 0 <= b < 256

  /** `bytes[k] ?? 0`. */
  function At(bytes: seq<byte>, k: nat): byte { if k < |bytes| then bytes[k] else 0 }

  function Base(len: nat): nat { if len == 0 then 1 else 256 * Base(len - 1) }

  /** The number a little-endian field stands for. */
  function U(bytes: seq<byte>, offset: nat, len: nat): nat
    decreases len
  {
    if len == 0 then 0 else At(bytes, offset) + 256 * U(bytes, offset + 1, len - 1)
  }

  lemma {:induction false} AbsentIsZero(bytes: seq<byte>, offset: nat, len: nat)
    requires offset >= |bytes|
    ensures U(bytes, offset, len) == 0
    decreases len
  {
    if len > 0 { AbsentIsZero(bytes, offset + 1, len - 1); }
  }

  /** `u`: the accumulator loop, from the most significant byte down. */
  method ReadU(bytes: seq<byte>, offset: nat, len: nat) returns (v: nat)
    ensures v == U(bytes, offset, len)
    ensures offset >= |bytes| ==> v == 0
  {
    if offset >= |bytes| { AbsentIsZero(bytes, offset, len); }
    v := 0;
    var i := len;
    while i > 0
      invariant 0 <= i <= len && v == U(bytes, offset + i, len - i)
    {
      i := i - 1;
      v := v * 256 + At(bytes, offset + i);
    }
  }

  lemma {:induction false} UBelow(bytes: seq<byte>, offset: nat, len: nat)
    ensures U(bytes, offset, len) < Base(len)
    decreases len
  {
    if len > 0 { UBelow(bytes, offset + 1, len - 1); }
  }

  /** `i`: the same field as two's complement. */
  function I(bytes: seq<byte>, offset: nat, len: nat): int
    requires len >= 1
  {
    var v := U(bytes, offset, len);
    if v >= 128 * Base(len - 1) then v - Base(len) else v
  }

  method ReadI(bytes: seq<byte>, offset: nat, len: nat) returns (v: int)
    requires len >= 1
    ensures v == I(bytes, offset, len)
  {
    v := ReadU(bytes, offset, len);
    if v >= 128 * Base(len - 1) { v := v - Base(len); }
  }

  // ── the encodings they read ───────────────────────────────────────────────

  function LE(v: nat, len: nat): (r: seq<byte>)
    ensures |r| == len
  {
    if len == 0 then [] else [v % 256] + LE(v / 256, len - 1)
  }

  predicate FitsU(v: int, len: nat) { 0 <= v < Base(len) }

  predicate FitsI(v: int, len: nat)
    requires len >= 1
  {
    -128 * Base(len - 1) <= v < 128 * Base(len - 1)
  }

  /** Two's complement in `len` bytes. */
  function TwosLE(v: int, len: nat): (r: seq<byte>)
    requires len >= 1 && FitsI(v, len)
    ensures |r| == len
  {
    LE(if v < 0 then v + Base(len) else v, len)
  }

  ghost predicate Holds(bytes: seq<byte>, offset: nat, field: seq<byte>) {
    offset + |field| <= |bytes| && bytes[offset..offset + |field|] == field
  }

  /** A field reads as `v` exactly when it holds the encoding of `v`. */
  lemma {:induction false} UnsignedRoundTrip(bytes: seq<byte>, offset: nat, len: nat, v: nat)
    requires FitsU(v, len) && offset + len <= |bytes|
    ensures U(bytes, offset, len) == v <==> Holds(bytes, offset, LE(v, len))
    decreases len
  {
    if len > 0 {
      var field := bytes[offset..offset + len];
      assert field == [bytes[offset]] + bytes[offset + 1..offset + len];
      UnsignedRoundTrip(bytes, offset + 1, len - 1, v / 256);
      var code := LE(v, len);
      assert code[0] == v % 256 && code[1..] == LE(v / 256, len - 1);
      if field == code {
        assert bytes[offset + 1..offset + len] == field[1..] == code[1..];
      }
    }
  }

  lemma SignedRoundTrip(bytes: seq<byte>, offset: nat, len: nat, v: int)
    requires len >= 1 && FitsI(v, len) && offset + len <= |bytes|
    ensures I(bytes, offset, len) == v <==> Holds(bytes, offset, TwosLE(v, len))
  {
    UBelow(bytes, offset, len);
    UnsignedRoundTrip(bytes, offset, len, if v < 0 then v + Base(len) else v);
  }

  lemma {:induction false} USplit(bytes: seq<byte>, offset: nat, low: nat, len: nat)
    requires low <= len
    ensures U(bytes, offset, len) == U(bytes, offset, low) + Base(low) * U(bytes, offset + low, len - low)
    decreases low
  {
    if low > 0 {
      USplit(bytes, offset + 1, low - 1, len - 1);
      var first, rest := At(bytes, offset), U(bytes, offset + low, len - low);
      assert U(bytes, offset, len) == first + 256 * U(bytes, offset + 1, len - 1);
      assert U(bytes, offset, low) == first + 256 * U(bytes, offset + 1, low - 1);
      assert Base(low) == 256 * Base(low - 1);
      hide U, Base, At;
      Associates(256, Base(low - 1), rest);
    }
  }

  lemma Associates(a: nat, b: nat, c: nat)
    ensures a * (b * c) == (a * b) * c
  {
  }

  lemma {:induction false} BaseSplit(low: nat, len: nat)
    requires low <= len
    ensures Base(len) == Base(low) * Base(len - low)
    decreases low
  {
    if low > 0 {
      BaseSplit(low - 1, len - 1);
      Associates(256, Base(low - 1), Base(len - low));
    }
  }

  lemma AtLeastOnce(b: int, k: int)
    requires b >= 0 && k >= 1
    ensures b * k >= b && b * -k <= -b
  {
    assert b * (k - 1) >= 0;
  }

  lemma OneResidue(x: int, y: int, b: int, k: int)
    requires b >= 0 && x - y == b * k && -b <= 2 * x < b && -b <= 2 * y < b
    ensures x == y
  {
    if k >= 1 { AtLeastOnce(b, k); }
    if k <= -1 { AtLeastOnce(b, -k); }
  }

  /** Reading fewer bytes changes a number by a multiple of what those bytes count to. */
  lemma Difference(lo: nat, hi: nat, b: nat, h: nat, wide: int, narrow: int, top: bool, sign: bool) returns (k: int)
    requires wide == lo + b * hi - (if top then b * h else 0)
    requires narrow == lo - (if sign then b else 0)
    ensures wide - narrow == b * k
  {
    k := hi - (if top then h else 0) + (if sign then 1 else 0);
    assert b * hi - b * h == b * (hi - h);
  }

  lemma SignedBelow(bytes: seq<byte>, offset: nat, len: nat)
    requires len >= 1
    ensures FitsI(I(bytes, offset, len), len)
  {
    UBelow(bytes, offset, len);
  }

  lemma NarrowResidue(bytes: seq<byte>, offset: nat, low: nat, len: nat) returns (k: int)
    requires 1 <= low < len
    ensures I(bytes, offset, len) - I(bytes, offset, low) == Base(low) * k
  {
    USplit(bytes, offset, low, len);
    BaseSplit(low, len);
    var lo, hi := U(bytes, offset, low), U(bytes, offset + low, len - low);
    k := Difference(lo, hi, Base(low), Base(len - low), I(bytes, offset, len), I(bytes, offset, low),
                    U(bytes, offset, len) >= 128 * Base(len - 1), lo >= 128 * Base(low - 1));
  }

  /** A reader that takes only the low bytes of a signed field gets the number right exactly when the
      number fits in those bytes. */
  lemma NarrowRead(bytes: seq<byte>, offset: nat, low: nat, len: nat)
    requires 1 <= low < len
    ensures I(bytes, offset, low) == I(bytes, offset, len) <==> FitsI(I(bytes, offset, len), low)
  {
    var k := NarrowResidue(bytes, offset, low, len);
    SignedBelow(bytes, offset, low);
    var wide, narrow := I(bytes, offset, len), I(bytes, offset, low);
    if FitsI(wide, low) { OneResidue(wide, narrow, Base(low), k); }
  }

  /** It reads zero when the number is a multiple of what the low bytes count to. */
  lemma NarrowZero(bytes: seq<byte>, offset: nat, low: nat, len: nat, m: int)
    requires 1 <= low < len && I(bytes, offset, len) == Base(low) * m
    ensures I(bytes, offset, low) == 0
  {
    var k := NarrowResidue(bytes, offset, low, len);
    SignedBelow(bytes, offset, low);
    var narrow := I(bytes, offset, low);
    assert Base(low) * m - Base(low) * k == Base(low) * (m - k);
    OneResidue(narrow, 0, Base(low), m - k);
  }

  // ── records ───────────────────────────────────────────────────────────────

  /** A field at its place in a record. */
  datatype Field = Field(at: nat, code: seq<byte>) {
    function End(): nat { at + |code| }
  }

  function Put(memory: seq<byte>, f: Field): (r: seq<byte>)
    requires f.End() <= |memory|
    ensures |r| == |memory|
  {
    memory[..f.at] + f.code + memory[f.End()..]
  }

  ghost predicate Within(fields: seq<Field>, lo: nat, hi: nat) {
    forall k | 0 <= k < |fields| :: lo <= fields[k].at && fields[k].End() <= hi
  }

  ghost predicate Disjoint(fields: seq<Field>) {
    forall i, j | 0 <= i < j < |fields| :: Clear(fields[i], fields[j])
  }

  predicate Clear(f: Field, g: Field) { f.End() <= g.at || g.End() <= f.at }

  /** All the fields written in turn. */
  function PutAll(memory: seq<byte>, fields: seq<Field>): (r: seq<byte>)
    requires Within(fields, 0, |memory|)
    ensures |r| == |memory|
  {
    if fields == [] then memory else
      assert Within(fields[..|fields| - 1], 0, |memory|);
      Put(PutAll(memory, fields[..|fields| - 1]), fields[|fields| - 1])
  }

  lemma PutKeeps(memory: seq<byte>, f: Field, g: Field)
    requires f.End() <= |memory| && g.End() <= |memory| && Clear(f, g)
    ensures Holds(memory, f.at, f.code) ==> Holds(Put(memory, g), f.at, f.code)
  {
    var r := Put(memory, g);
    forall k | f.at <= k < f.End() ensures r[k] == memory[k] {}
    assert r[f.at..f.End()] == memory[f.at..f.End()];
  }

  /** Fields that do not overlap can all be read back. */
  lemma {:induction false} FieldsSurvive(memory: seq<byte>, fields: seq<Field>, k: nat)
    requires Within(fields, 0, |memory|) && Disjoint(fields) && k < |fields|
    ensures Holds(PutAll(memory, fields), fields[k].at, fields[k].code)
  {
    var n := |fields| - 1;
    assert Within(fields[..n], 0, |memory|);
    var before := PutAll(memory, fields[..n]);
    if k < n {
      FieldsSurvive(memory, fields[..n], k);
      assert Clear(fields[k], fields[n]);
      PutKeeps(before, fields[k], fields[n]);
    } else {
      assert Put(before, fields[n])[fields[n].at..fields[n].End()] == fields[n].code;
    }
  }

  /** Records side by side do not overlap. */
  lemma SideBySide(left: seq<Field>, right: seq<Field>, lo: nat, mid: nat, hi: nat)
    requires Within(left, lo, mid) && Within(right, mid, hi) && Disjoint(left) && Disjoint(right) && lo <= mid <= hi
    ensures Within(left + right, lo, hi) && Disjoint(left + right)
  {
    var all := left + right;
    forall i, j | 0 <= i < j < |all| ensures Clear(all[i], all[j]) {
      if i < |left| && j < |left| {
        assert Clear(left[i], left[j]);
      } else if i >= |left| {
        assert Clear(right[i - |left|], right[j - |left|]);
      }
    }
  }
}
