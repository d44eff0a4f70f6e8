// How far a function reaches, from the table of function starts of a Mach-O image.
module StartTable {
  import opened Options
  import opened Leb128

  // -----------------------------------------------------------------------------------
  // The table
  // -----------------------------------------------------------------------------------

  // The function starts a table holds from cursor on, as offsets into a text segment of the
  // given size, address being the last one before; decoding stops at the first bad entry.
  function Starts(data: seq<Byte>, cursor: nat, address: nat, size: nat): seq<nat>
    requires cursor <= |data| && address <= size
    decreases |data| - cursor
  {
    if cursor == |data| || Delta(data, cursor).None? then [] else
      var (delta, next) := Delta(data, cursor).value;
      if delta == 0 || delta > size - address then []
      else [address + delta] + Starts(data, next, address + delta, size)
  }

  predicate Ascending(starts: seq<nat>) {
    forall i, j :: 0 <= i < j < |starts| ==> starts[i] < starts[j]
  }

  predicate Within(starts: seq<nat>, lo: nat, hi: nat) {
    forall k :: 0 <= k < |starts| ==> lo < starts[k] <= hi
  }

  lemma {:induction false} StartsAscend(data: seq<Byte>, cursor: nat, address: nat, size: nat)
    requires cursor <= |data| && address <= size
    ensures Ascending(Starts(data, cursor, address, size)) && Within(Starts(data, cursor, address, size), address, size)
    decreases |data| - cursor
  {
    if cursor < |data| && Delta(data, cursor).Some? {
      var (delta, next) := Delta(data, cursor).value;
      if 0 < delta <= size - address {
        StartsAscend(data, next, address + delta, size);
        StartsStep(data, cursor, address, size, delta, next);
        Prepended(address, address + delta, Starts(data, next, address + delta, size), size);
      }
    }
  }

  lemma Prepended(address: nat, first: nat, rest: seq<nat>, size: nat)
    requires address < first <= size && Ascending(rest) && Within(rest, first, size)
    ensures Ascending([first] + rest) && Within([first] + rest, address, size)
  {
  }

  // The gap from an exact start to the next one; 0 for the last start and for anything else.
  ghost predicate IsGap(starts: seq<nat>, target: nat, extent: nat) {
    || (exists k :: 0 <= k < |starts| - 1 && starts[k] == target && starts[k + 1] == target + extent)
    || (extent == 0 && forall k :: 0 <= k < |starts| - 1 ==> starts[k] != target)
  }

  method TableExtent(data: seq<Byte>, size: nat, target: nat) returns (extent: nat)
    requires target < size
    ensures IsGap(Starts(data, 0, 0, size), target, extent)
  {
    var cursor: nat, address: nat, found := 0, 0, false;
    ghost var starts := Starts(data, 0, 0, size);
    ghost var n := 0;
    while cursor < |data|
      invariant cursor <= |data| && n <= |starts| && address <= size
      invariant starts[n..] == Starts(data, cursor, address, size)
      invariant if found then n > 0 && starts[n - 1] == address == target
                else address == 0 == n || (n > 0 && starts[n - 1] == address < target)
      decreases |data| - cursor
    {
      var result := ReadDelta(data, cursor);
      if result.None? || result.value.0 == 0 || result.value.0 > size - address {
        break;
      }
      var (delta, next) := result.value;
      StartsStep(data, cursor, address, size, delta, next);
      assert starts[n] == starts[n..][0] && starts[n + 1..] == starts[n..][1..];
      cursor, address := next, address + delta;
      n := n + 1;
      if found {
        return address - target;
      }
      if address > target {
        NoGap(data, size, n - 1, target);
        return 0;
      }
      found := address == target;
    }
    NoGap(data, size, if found then n - 1 else n, target);
    return 0;
  }

  // No gap when the first n starts of the table are below the target and the next one, if
  // there is one, is above it, or when the target is the last start.
  lemma NoGap(data: seq<Byte>, size: nat, n: nat, target: nat)
    requires n <= |Starts(data, 0, 0, size)|
    requires var starts := Starts(data, 0, 0, size);
      || (n + 1 == |starts| && starts[n] == target)
      || ((n > 0 ==> starts[n - 1] < target) && (n < |starts| ==> target < starts[n]))
    ensures IsGap(Starts(data, 0, 0, size), target, 0)
  {
    StartsAscend(data, 0, 0, size);
    var starts := Starts(data, 0, 0, size);
    assert n > 0 ==> forall i :: 0 <= i < n ==> starts[i] <= starts[n - 1];
    assert n < |starts| ==> forall i :: n < i < |starts| ==> starts[n] < starts[i];
  }

  // A nonzero extent is the gap from the target's own start to the next start, and what it
  // covers lies within the text.
  lemma ExtentIsSound(data: seq<Byte>, size: nat, target: nat, extent: nat)
    requires IsGap(Starts(data, 0, 0, size), target, extent) && extent != 0
    ensures target + extent <= size
    ensures target in Starts(data, 0, 0, size) && target + extent in Starts(data, 0, 0, size)
    ensures forall s :: s in Starts(data, 0, 0, size) ==> s <= target || target + extent <= s
  {
    var starts := Starts(data, 0, 0, size);
    StartsAscend(data, 0, 0, size);
    GapIsSound(starts, target, extent);
    assert Within(starts, 0, size);
    var k :| 0 <= k < |starts| && starts[k] == target + extent;
  }

  lemma GapIsSound(starts: seq<nat>, target: nat, extent: nat)
    requires IsGap(starts, target, extent) && extent != 0
    requires Ascending(starts)
    ensures target in starts && target + extent in starts
    ensures forall s :: s in starts ==> s <= target || target + extent <= s
  {
    var k :| 0 <= k < |starts| - 1 && starts[k] == target && starts[k + 1] == target + extent;
    forall s | s in starts ensures s <= target || target + extent <= s {
      var i :| 0 <= i < |starts| && starts[i] == s;
      assert i <= k || i == k + 1 || i > k + 1;
    }
  }

  // What a linker writes for a list of starts.
  function Encoded(starts: seq<nat>, address: nat): seq<Byte>
    requires Ascends(starts, address)
  {
    if starts == [] then [] else Encode(starts[0] - address) + Encoded(starts[1..], starts[0])
  }

  predicate Ascends(starts: seq<nat>, address: nat) {
    starts != [] ==> address < starts[0] && Ascends(starts[1..], starts[0])
  }

  // What may follow a table: nothing, or padding, which begins with a zero byte.
  predicate Padding(rest: seq<Byte>) {
    rest != [] ==> rest[0] == 0
  }

  // Decoding a written table gives back its starts, whatever address it is decoded from, and
  // whatever padding follows it.
  lemma {:induction false} StartsOfEncoded(data: seq<Byte>, cursor: nat, starts: seq<nat>, address: nat, size: nat,
                                           rest: seq<Byte>)
    requires cursor <= |data| && address <= size < WORD && Ascends(starts, address)
    requires forall i :: 0 <= i < |starts| ==> starts[i] <= size
    requires data[cursor..] == Encoded(starts, address) + rest && Padding(rest)
    ensures Starts(data, cursor, address, size) == starts
    decreases |starts|
  {
    if starts == [] {
      PaddingEnds(data, cursor, rest, address, size);
    } else {
      var first := starts[0];
      assert address < first <= size;
      var code, tail := EncodedFront(starts, address, rest);
      var next := FirstStart(data, cursor, address, size, first, code, tail);
      StartsOfEncoded(data, next, starts[1..], starts[0], size, rest);
    }
  }

  lemma PaddingEnds(data: seq<Byte>, cursor: nat, rest: seq<Byte>, address: nat, size: nat)
    requires cursor <= |data| && data[cursor..] == rest && Padding(rest) && address <= size
    ensures Starts(data, cursor, address, size) == []
  {
    if rest != [] {
      assert data[cursor] == rest[0];
      assert data[cursor..cursor + 1] == [rest[0]] && [rest[0]][1..] == [];
      assert Value([rest[0]]) == 0;
    }
  }

  lemma FirstEntry(data: seq<Byte>, cursor: nat, delta: nat, code: seq<Byte>, tail: seq<Byte>) returns (next: nat)
    requires cursor <= |data| && delta < WORD && code == Encode(delta) && data[cursor..] == code + tail
    ensures cursor < next <= |data| && Delta(data, cursor) == Some((delta, next)) && data[next..] == tail
  {
    Split(data, cursor, code, tail);
    DecodeEncode(data, cursor, delta);
    next := cursor + |code|;
  }

  lemma EncodedFront(starts: seq<nat>, address: nat, rest: seq<Byte>) returns (code: seq<Byte>, tail: seq<Byte>)
    requires Ascends(starts, address) && starts != []
    ensures code == Encode(starts[0] - address) && tail == Encoded(starts[1..], starts[0]) + rest
    ensures Encoded(starts, address) + rest == code + tail
  {
    var more := Encoded(starts[1..], starts[0]);
    code, tail := Encode(starts[0] - address), more + rest;
    assert Encoded(starts, address) == code + more;
  }

  lemma Split(data: seq<Byte>, cursor: nat, code: seq<Byte>, rest: seq<Byte>)
    requires cursor <= |data| && data[cursor..] == code + rest
    ensures cursor + |code| <= |data| && data[cursor..cursor + |code|] == code && data[cursor + |code|..] == rest
  {
    assert data[cursor..cursor + |code|] == data[cursor..][..|code|];
    assert data[cursor + |code|..] == data[cursor..][|code|..];
  }

  lemma StartsStep(data: seq<Byte>, cursor: nat, address: nat, size: nat, delta: nat, next: nat)
    requires cursor < |data| && address <= size && Delta(data, cursor) == Some((delta, next)) && 0 < delta <= size - address
    ensures Starts(data, cursor, address, size) == [address + delta] + Starts(data, next, address + delta, size)
  {
  }

  lemma FirstStart(data: seq<Byte>, cursor: nat, address: nat, size: nat, first: nat, code: seq<Byte>, tail: seq<Byte>)
    returns (next: nat)
    requires cursor <= |data| && address < first <= size < WORD
    requires code == Encode(first - address) && data[cursor..] == code + tail
    ensures cursor < next <= |data| && data[next..] == tail
    ensures Starts(data, cursor, address, size) == [first] + Starts(data, next, first, size)
  {
    var delta: nat := first - address;
    next := FirstEntry(data, cursor, delta, code, tail);
    StartsStep(data, cursor, address, size, delta, next);
  }

  // So on a well-formed table every start but the last gets the gap to the next.
  lemma ExtentIsComplete(starts: seq<nat>, size: nat, k: nat, extent: nat, rest: seq<Byte>)
    requires Padding(rest) && size < WORD && Ascends(starts, 0) && forall i :: 0 <= i < |starts| ==> starts[i] <= size
    requires k + 1 < |starts| && IsGap(Starts(Encoded(starts, 0) + rest, 0, 0, size), starts[k], extent)
    ensures starts[k] + extent == starts[k + 1] && extent > 0
  {
    var data := Encoded(starts, 0) + rest;
    assert data[0..] == data;
    StartsOfEncoded(data, 0, starts, 0, size, rest);
    StartsAscend(data, 0, 0, size);
    GapAt(starts, k, extent);
  }

  lemma GapAt(starts: seq<nat>, k: nat, extent: nat)
    requires Ascending(starts) && k + 1 < |starts| && IsGap(starts, starts[k], extent)
    ensures starts[k] + extent == starts[k + 1] && extent > 0
  {
    forall i | 0 <= i < |starts| && i != k ensures starts[i] != starts[k] {
      if i < k {
        assert starts[i] < starts[k];
      } else {
        assert starts[k] < starts[i];
      }
    }
    assert starts[k] < starts[k + 1];
  }
}
