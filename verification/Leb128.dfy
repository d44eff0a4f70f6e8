// Unsigned LEB128, as section 7.6 of the DWARF Debugging Information Format, Version 5 defines
// it, and the bounded decoder of native_hook_extent.cc.
module Leb128 {
  import opened Options

  type Byte = b: int | 0 <= b < 256

  const WORD := 0x1_0000_0000_0000_0000
  const MAX_LENGTH := 10

  // The value of a group of bytes: seven bits each, least significant first.
  function Value(bytes: seq<Byte>): nat {
    if bytes == [] then 0 else bytes[0] % 128 + 128 * Value(bytes[1..])
  }

  // One encoded number: every byte but the last has its high bit set.
  predicate IsEncoding(bytes: seq<Byte>) {
    && bytes != [] && bytes[|bytes| - 1] < 128
    && forall i :: 0 <= i < |bytes| - 1 ==> bytes[i] >= 128
  }

  function Encode(value: nat): (bytes: seq<Byte>)
    ensures IsEncoding(bytes) && Value(bytes) == value
  {
    if value < 128 then [value] else
      var rest := Encode(value / 128);
      assert ([128 + value % 128] + rest)[1..] == rest;
      [128 + value % 128] + rest
  }

  lemma {:induction false} EncodingLength(value: nat, n: nat)
    requires value < Pow2(7 * n) && n > 0
    ensures |Encode(value)| <= n
  {
    if n > 1 && value >= 128 {
      Pow2Split(7, 7 * (n - 1));
      Pow2Word();
      EncodingLength(value / 128, n - 1);
    }
  }

  function Pow2(n: nat): nat {
    if n == 0 then 1 else 2 * Pow2(n - 1)
  }

  lemma {:induction false} Pow2Split(a: nat, b: nat)
    ensures Pow2(a + b) == Pow2(a) * Pow2(b) && Pow2(a) > 0
  {
    if a > 0 {
      var c: nat := a - 1;
      Pow2Split(c, b);
      assert a + b == (c + b) + 1 && Pow2(a) == 2 * Pow2(c);
      Doubled(Pow2(c), Pow2(b));
    }
  }

  lemma Doubled(x: nat, y: nat)
    ensures 2 * (x * y) == (2 * x) * y
  {
  }

  lemma Pow2Word()
    ensures Pow2(7) == 128 && Pow2(63) * 2 == WORD && Pow2(70) == 64 * WORD
  {
    assert Pow2(7) == 128;
    Pow2Split(7, 7);
    Pow2Split(14, 14);
    Pow2Split(28, 28);
    Pow2Split(56, 7);
    Pow2Split(63, 7);
  }

  // Bitwise or.
  function Or(a: nat, b: nat): nat
    decreases a + b
  {
    if a == 0 then b else if b == 0 then a
    else 2 * Or(a / 2, b / 2) + if a % 2 == 1 || b % 2 == 1 then 1 else 0
  }

  // Or of numbers without a common bit is their sum.
  lemma {:induction false} OrDisjoint(a: nat, x: nat, k: nat)
    requires a < Pow2(k)
    ensures Or(a, x * Pow2(k)) == a + x * Pow2(k)
  {
    if k > 0 && a > 0 && x > 0 {
      OrDisjoint(a / 2, x, k - 1);
      Pow2Split(k - 1, 0);
      var y := x * Pow2(k - 1);
      Reassociate(x, 2, Pow2(k - 1));
      OrEven(a, y);
    }
  }

  lemma Reassociate(a: nat, b: nat, c: nat)
    ensures a * (b * c) == b * (a * c)
    ensures a > 0 && c > 0 ==> a * c > 0
  {
  }

  lemma OrEven(a: nat, y: nat)
    requires a > 0 && y > 0
    ensures Or(a, 2 * y) == 2 * Or(a / 2, y) + a % 2
  {
    assert (2 * y) / 2 == y && (2 * y) % 2 == 0;
  }

  lemma {:induction false} ValueAppend(bytes: seq<Byte>, last: Byte)
    ensures Value(bytes + [last]) == Value(bytes) + last % 128 * Pow2(7 * |bytes|)
    ensures Value(bytes) < Pow2(7 * |bytes|)
  {
    if bytes == [] {
      assert Value([last]) == last % 128 + 128 * Value([]);
    } else {
      var rest, p := bytes[1..], Pow2(7 * |bytes[1..]|);
      ValueAppend(rest, last);
      NextPower(|rest|, |bytes|);
      assert (bytes + [last])[1..] == rest + [last] && (bytes + [last])[0] == bytes[0];
      OneGroupMore(bytes[0] % 128, Value(rest), last % 128, p);
    }
  }

  lemma NextPower(n: nat, m: nat)
    requires m == n + 1
    ensures Pow2(7 * m) == 128 * Pow2(7 * n)
  {
    Pow2Split(7, 7 * n);
    Pow2Word();
    assert 7 * m == 7 + 7 * n;
  }

  lemma OneGroupMore(first: nat, value: nat, bits: nat, p: nat)
    requires first < 128 && value < p
    ensures first + 128 * (value + bits * p) == first + 128 * value + bits * (128 * p)
    ensures first + 128 * value < 128 * p
  {
    Reassociate(bits, 128, p);
  }

  // Position of the first byte from start on without its high bit, or the end.
  function Terminator(data: seq<Byte>, start: nat): (t: nat)
    requires start <= |data|
    ensures start <= t <= |data| && (t < |data| ==> data[t] < 128)
    ensures forall i :: start <= i < t ==> data[i] >= 128
    decreases |data| - start
  {
    if start == |data| || data[start] < 128 then start else Terminator(data, start + 1)
  }

  // The number encoded at start with the position after it, if it is acceptable.
  function Delta(data: seq<Byte>, start: nat): Option<(nat, nat)>
    requires start <= |data|
  {
    var t := Terminator(data, start);
    if t == |data| || t - start >= MAX_LENGTH || Value(data[start..t + 1]) >= WORD then None
    else Some((Value(data[start..t + 1]), t + 1))
  }

  // A number is accepted exactly when it ends within ten bytes and within the data and fits
  // in 64 bits; then it is the value of its bytes.
  lemma DeltaAccepts(data: seq<Byte>, start: nat)
    requires start <= |data|
    ensures Delta(data, start).Some? <==>
              exists n :: Acceptable(data, start, n)
    ensures forall n :: Acceptable(data, start, n) ==> Delta(data, start) == Some((Value(data[start..start + n]), start + n))
  {
    var t := Terminator(data, start);
    if Delta(data, start).Some? {
      assert Acceptable(data, start, t + 1 - start);
    }
    forall n | Acceptable(data, start, n)
      ensures Delta(data, start) == Some((Value(data[start..start + n]), start + n))
    {
      TerminatorOfEncoding(data, start, n);
    }
  }

  predicate Acceptable(data: seq<Byte>, start: nat, n: nat) {
    start + n <= |data| && n <= MAX_LENGTH && IsEncoding(data[start..start + n]) && Value(data[start..start + n]) < WORD
  }

  lemma TerminatorOfEncoding(data: seq<Byte>, start: nat, n: nat)
    requires start + n <= |data| && IsEncoding(data[start..start + n])
    ensures Terminator(data, start) == start + n - 1
  {
    var bytes := data[start..start + n];
    assert data[start + n - 1] == bytes[n - 1];
    forall i | start <= i < start + n - 1 ensures data[i] >= 128 {
      assert data[i] == bytes[i - start];
    }
  }

  // Decoding where an encoder wrote gives back the number and the position after it.
  lemma DecodeEncode(data: seq<Byte>, start: nat, value: nat)
    requires value < WORD && start + |Encode(value)| <= |data|
    requires data[start..start + |Encode(value)|] == Encode(value)
    ensures Delta(data, start) == Some((value, start + |Encode(value)|))
  {
    EncodingFits(value);
    DeltaAccepts(data, start);
    assert Acceptable(data, start, |Encode(value)|);
  }

  lemma EncodingFits(value: nat)
    requires value < WORD
    ensures |Encode(value)| <= MAX_LENGTH
  {
    Pow2Word();
    EncodingLength(value, MAX_LENGTH);
  }

  // The inner loop of the table decoder. The shifted bits never leave the 64-bit word.
  method ReadDelta(data: seq<Byte>, start: nat) returns (result: Option<(nat, nat)>)
    requires start <= |data|
    ensures result == Delta(data, start)
  {
    var cursor, delta, shift := start, 0, 0;
    ghost var t := Terminator(data, start);
    while true
      invariant start <= cursor <= t && shift == 7 * (cursor - start) <= 70
      invariant delta == Value(data[start..cursor]) && delta < Pow2(shift) && (shift == 70 ==> delta < WORD)
      decreases |data| - cursor
    {
      if cursor == |data| || shift >= 64 {
        return None;
      }
      var byte := data[cursor];
      cursor := cursor + 1;
      if shift == 63 && byte % 128 / 2 != 0 {
        Overflow(data, start, cursor - 1);
        return None;
      }
      delta := NextGroup(data, start, cursor - 1, delta, shift);
      shift := shift + 7;
      if byte < 128 {
        Terminated(data, start, cursor - 1, delta);
        return Some((delta, cursor));
      }
      NotYet(data, start, cursor - 1);
    }
  }

  lemma NotYet(data: seq<Byte>, start: nat, last: nat)
    requires start <= last < |data| && last <= Terminator(data, start) && data[last] >= 128
    ensures last < Terminator(data, start)
  {
  }

  // Takes the group of bits at the cursor into the number.
  method NextGroup(data: seq<Byte>, start: nat, cursor: nat, delta: nat, shift: nat) returns (next: nat)
    requires start <= cursor < |data| && shift == 7 * (cursor - start) <= 63
    requires delta == Value(data[start..cursor]) && delta < Pow2(shift) && (shift == 63 ==> data[cursor] % 128 < 2)
    ensures next == Value(data[start..cursor + 1]) < WORD && next < Pow2(shift + 7)
  {
    AppendGroup(data, start, cursor);
    AddGroup(delta, data[cursor] % 128, shift);
    next := Or(delta, data[cursor] % 128 * Pow2(shift) % WORD);
  }

  // A tenth byte with more than one value bit: the number is too long or too large.
  lemma Overflow(data: seq<Byte>, start: nat, last: nat)
    requires start <= last < |data| && last <= Terminator(data, start) && last - start == 9
    requires data[last] % 128 / 2 != 0
    ensures Delta(data, start) == None
  {
    if last == Terminator(data, start) {
      AppendGroup(data, start, last);
      TooLarge(data[last] % 128);
    }
  }

  lemma Terminated(data: seq<Byte>, start: nat, last: nat, value: nat)
    requires start <= last < |data| && last <= Terminator(data, start) && last - start < MAX_LENGTH && data[last] < 128
    requires Value(data[start..last + 1]) == value < WORD
    ensures Delta(data, start) == Some((value, last + 1))
  {
    assert last == Terminator(data, start);
  }

  lemma AppendGroup(data: seq<Byte>, start: nat, cursor: nat)
    requires start <= cursor < |data|
    ensures Value(data[start..cursor + 1]) == Value(data[start..cursor]) + data[cursor] % 128 * Pow2(7 * (cursor - start))
  {
    assert data[start..cursor + 1] == data[start..cursor] + [data[cursor]];
    ValueAppend(data[start..cursor], data[cursor]);
  }

  // One more group of bits: nothing is shifted out, and the or adds it.
  lemma AddGroup(delta: nat, bits: nat, shift: nat)
    requires delta < Pow2(shift) && bits < 128 && shift <= 63 && shift % 7 == 0 && (shift == 63 ==> bits < 2)
    ensures Or(delta, bits * Pow2(shift) % WORD) == delta + bits * Pow2(shift) < WORD
    ensures delta + bits * Pow2(shift) < Pow2(shift + 7)
  {
    var p := Pow2(shift);
    var x := bits * p;
    FitsWord(bits, shift);
    OrDisjoint(delta, bits, shift);
    OrWithin(delta, x, p);
  }

  lemma OrWithin(delta: nat, x: nat, p: nat)
    requires delta < p && x + p <= WORD && Or(delta, x) == delta + x
    ensures Or(delta, x % WORD) == delta + x < WORD
  {
    WithinWord(x);
  }

  lemma WithinWord(x: nat)
    requires x < WORD
    ensures x % WORD == x
  {
  }

  lemma TooLarge(bits: nat)
    requires bits >= 2
    ensures bits * Pow2(63) >= WORD
  {
    Pow2Word();
    assert bits * Pow2(63) >= 2 * Pow2(63);
  }

  lemma FitsWord(bits: nat, shift: nat)
    requires bits < 128 && shift <= 63 && shift % 7 == 0 && (shift == 63 ==> bits < 2)
    ensures 0 <= bits * Pow2(shift) && bits * Pow2(shift) + Pow2(shift) <= WORD && Pow2(shift) > 0
    ensures bits * Pow2(shift) + Pow2(shift) <= Pow2(shift + 7)
  {
    Pow2Split(shift, 0);
    AtMost(0, bits, Pow2(shift));
    if shift < 63 {
      GroupBelow(bits, shift);
      Pow2Split(shift + 7, 56 - shift);
      Pow2Split(56 - shift, 0);
      AtLeast(Pow2(shift + 7), Pow2(56 - shift));
    } else {
      AtMost(bits, 1, Pow2(63));
    }
    Pow2Word();
  }

  lemma GroupBelow(bits: nat, shift: nat)
    requires bits < 128
    ensures bits * Pow2(shift) + Pow2(shift) <= Pow2(shift + 7)
  {
    Pow2Split(7, shift);
    Pow2Word();
    AtMost(bits + 1, 128, Pow2(shift));
  }

  lemma AtLeast(a: nat, b: nat)
    requires b > 0
    ensures a * b >= a
  {
  }

  lemma AtMost(a: nat, b: nat, c: nat)
    requires a <= b
    ensures a * c <= b * c
  {
  }
}
