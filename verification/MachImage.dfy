// Finding the function-start table of a loaded Mach-O image, on arbitrary bytes.
module MachImage {
  import opened Options
  import opened Leb128
  import opened StartTable

  const MAGIC_64 := 0xfeedfacf
  const SEGMENT_64 := 0x19
  const FUNCTION_STARTS := 0x26
  const COMMAND_SIZE := 8
  const SEGMENT_SIZE := 72
  const LINKEDIT_DATA_SIZE := 16

  const TEXT: seq<Byte> := [0x5f, 0x5f, 0x54, 0x45, 0x58, 0x54]
  const LINKEDIT: seq<Byte> := [0x5f, 0x5f, 0x4c, 0x49, 0x4e, 0x4b, 0x45, 0x44, 0x49, 0x54]

  // Little-endian fields.
  function U32(bytes: seq<Byte>, at: nat): nat
    requires at + 4 <= |bytes|
  {
    bytes[at] as int + 0x100 * bytes[at + 1] as int + 0x1_0000 * bytes[at + 2] as int + 0x100_0000 * bytes[at + 3] as int
  }

  function U64(bytes: seq<Byte>, at: nat): nat
    requires at + 8 <= |bytes|
  {
    U32(bytes, at) + 0x1_0000_0000 * U32(bytes, at + 4)
  }

  // A load command fits at this position.
  predicate CommandAt(bytes: seq<Byte>, at: nat) {
    && at + COMMAND_SIZE <= |bytes|
    && COMMAND_SIZE <= U32(bytes, at + 4) <= |bytes| - at
  }

  // A segment name compares equal over sixteen characters: name, then a null character.
  predicate SegmentAt(bytes: seq<Byte>, at: nat, name: seq<Byte>)
    requires |name| < 16
    ensures SegmentAt(bytes, at, name) ==> at + SEGMENT_SIZE <= |bytes|
  {
    && CommandAt(bytes, at) && U32(bytes, at) == SEGMENT_64 && U32(bytes, at + 4) >= SEGMENT_SIZE
    && bytes[at + 8..at + 8 + |name|] == name && bytes[at + 8 + |name|] == 0
  }

  predicate StartsAt(bytes: seq<Byte>, at: nat)
    ensures StartsAt(bytes, at) ==> at + LINKEDIT_DATA_SIZE <= |bytes|
  {
    CommandAt(bytes, at) && U32(bytes, at) == FUNCTION_STARTS && U32(bytes, at + 4) >= LINKEDIT_DATA_SIZE
  }

  // The positions of n consecutive load commands from a position on, if they all fit.
  function Commands(bytes: seq<Byte>, at: nat, n: nat): Option<seq<nat>>
    requires at <= |bytes|
    decreases n
  {
    if n == 0 then Some([])
    else if !CommandAt(bytes, at) then None
    else
      var rest := Commands(bytes, at + U32(bytes, at + 4), n - 1);
      if rest.None? then None else Some([at] + rest.value)
  }

  // Each command begins where the one before it ends.
  predicate Tiles(bytes: seq<Byte>, at: nat, positions: seq<nat>) {
    && (positions != [] ==> positions[0] == at)
    && (forall i :: 0 <= i < |positions| ==> CommandAt(bytes, positions[i]))
    && forall i :: 0 <= i < |positions| - 1 ==> positions[i + 1] == positions[i] + U32(bytes, positions[i] + 4)
  }

  lemma TilesCons(bytes: seq<Byte>, at: nat, positions: seq<nat>)
    requires positions != [] && CommandAt(bytes, at)
    ensures Tiles(bytes, at, positions) <==>
              positions[0] == at && Tiles(bytes, at + U32(bytes, at + 4), positions[1..])
  {
    var rest := positions[1..];
    assert forall i :: 0 <= i < |rest| ==> rest[i] == positions[i + 1];
    if positions[0] == at && Tiles(bytes, at + U32(bytes, at + 4), rest) {
      forall i | 0 <= i < |positions| ensures CommandAt(bytes, positions[i]) {
        assert i > 0 ==> positions[i] == rest[i - 1];
      }
      forall i | 0 <= i < |positions| - 1 ensures positions[i + 1] == positions[i] + U32(bytes, positions[i] + 4) {
        assert positions[i + 1] == rest[i];
        assert i > 0 ==> positions[i] == rest[i - 1];
      }
    }
  }

  // The walk finds exactly the one way to lay n commands end to end.
  lemma {:induction false} CommandsTile(bytes: seq<Byte>, at: nat, n: nat, positions: seq<nat>)
    requires at <= |bytes|
    ensures Commands(bytes, at, n) == Some(positions) <==> |positions| == n && Tiles(bytes, at, positions)
    decreases n
  {
    if n > 0 && CommandAt(bytes, at) && positions != [] {
      CommandsTile(bytes, at + U32(bytes, at + 4), n - 1, positions[1..]);
      TilesCons(bytes, at, positions);
      assert positions == [positions[0]] + positions[1..];
    }
  }

  function LastSegment(bytes: seq<Byte>, positions: seq<nat>, name: seq<Byte>): (last: Option<nat>)
    requires |name| < 16
    ensures last.Some? ==> SegmentAt(bytes, last.value, name)
  {
    if positions == [] then None
    else
      var last := positions[|positions| - 1];
      if SegmentAt(bytes, last, name) then Some(last) else LastSegment(bytes, positions[..|positions| - 1], name)
  }

  function LastStarts(bytes: seq<Byte>, positions: seq<nat>): (last: Option<nat>)
    ensures last.Some? ==> StartsAt(bytes, last.value)
  {
    if positions == [] then None
    else
      var last := positions[|positions| - 1];
      if StartsAt(bytes, last) then Some(last) else LastStarts(bytes, positions[..|positions| - 1])
  }

  function Joined(done: seq<nat>, rest: Option<seq<nat>>): Option<seq<nat>> {
    if rest.None? then None else Some(done + rest.value)
  }

  lemma JoinedEmpty(rest: Option<seq<nat>>)
    ensures Joined([], rest) == rest
  {
    assert rest.Some? ==> [] + rest.value == rest.value;
  }

  // Where the next command begins, if this one fits.
  function NextCommand(bytes: seq<Byte>, at: nat): (next: Option<nat>)
    ensures next.Some? ==> at < next.value <= |bytes|
  {
    if CommandAt(bytes, at) then Some(at + U32(bytes, at + 4)) else None
  }

  lemma JoinedNext(bytes: seq<Byte>, done: seq<nat>, at: nat, next: Option<nat>, n: nat, m: nat)
    requires at <= |bytes| && next == NextCommand(bytes, at) && n == m + 1
    ensures Joined(done, Commands(bytes, at, n)) ==
            if next.None? then None else Joined(done + [at], Commands(bytes, next.value, m))
  {
    if next.Some? {
      var rest := Commands(bytes, next.value, m);
      assert rest.Some? ==> done + ([at] + rest.value) == done + [at] + rest.value;
    }
  }

  // One command of the walk.
  method ReadCommand(bytes: seq<Byte>, cursor: nat, text: Option<nat>, linkedit: Option<nat>, starts: Option<nat>)
    returns (next: Option<nat>, text': Option<nat>, linkedit': Option<nat>, starts': Option<nat>)
    requires cursor <= |bytes|
    ensures next == NextCommand(bytes, cursor)
    ensures next.Some? ==>
      && text' == (if SegmentAt(bytes, cursor, TEXT) then Some(cursor) else text)
      && linkedit' == (if SegmentAt(bytes, cursor, LINKEDIT) then Some(cursor) else linkedit)
      && starts' == (if StartsAt(bytes, cursor) then Some(cursor) else starts)
  {
    text', linkedit', starts' := text, linkedit, starts;
    if |bytes| - cursor < COMMAND_SIZE {
      return None, text', linkedit', starts';
    }
    var size := U32(bytes, cursor + 4);
    if size < COMMAND_SIZE || size > |bytes| - cursor {
      return None, text', linkedit', starts';
    }
    if U32(bytes, cursor) == SEGMENT_64 && size >= SEGMENT_SIZE {
      if SegmentAt(bytes, cursor, TEXT) {
        text' := Some(cursor);
      }
      if SegmentAt(bytes, cursor, LINKEDIT) {
        linkedit' := Some(cursor);
      }
    }
    if U32(bytes, cursor) == FUNCTION_STARTS && size >= LINKEDIT_DATA_SIZE {
      starts' := Some(cursor);
    }
    next := Some(cursor + size);
  }

  lemma LastMore(bytes: seq<Byte>, done: seq<nat>, at: nat)
    ensures forall name: seq<Byte> :: |name| < 16 ==>
              LastSegment(bytes, done + [at], name) ==
              if SegmentAt(bytes, at, name) then Some(at) else LastSegment(bytes, done, name)
    ensures LastStarts(bytes, done + [at]) == if StartsAt(bytes, at) then Some(at) else LastStarts(bytes, done)
  {
    assert (done + [at])[..|done|] == done;
  }

  // The walk over the load commands keeps the last segment of each name and the last table.
  method Walk(bytes: seq<Byte>, n: nat)
    returns (ok: bool, text: Option<nat>, linkedit: Option<nat>, starts: Option<nat>)
    ensures ok <==> Commands(bytes, 0, n).Some?
    ensures ok ==> var positions := Commands(bytes, 0, n).value;
      && text == LastSegment(bytes, positions, TEXT) && linkedit == LastSegment(bytes, positions, LINKEDIT)
      && starts == LastStarts(bytes, positions)
  {
    text, linkedit, starts := None, None, None;
    var cursor: nat := 0;
    ghost var done: seq<nat> := [];
    JoinedEmpty(Commands(bytes, 0, n));
    for i := 0 to n
      invariant cursor <= |bytes|
      invariant Commands(bytes, 0, n) == Joined(done, Commands(bytes, cursor, n - i))
      invariant text == LastSegment(bytes, done, TEXT) && linkedit == LastSegment(bytes, done, LINKEDIT)
      invariant starts == LastStarts(bytes, done)
    {
      var next: Option<nat>;
      next, text, linkedit, starts := ReadCommand(bytes, cursor, text, linkedit, starts);
      JoinedNext(bytes, done, cursor, next, n - i, n - (i + 1));
      if next.None? {
        return false, text, linkedit, starts;
      }
      LastMore(bytes, done, cursor);
      done := done + [cursor];
      cursor := next.value;
    }
    assert done + [] == done;
    return true, text, linkedit, starts;
  }

  // A loaded image: its header, its load commands, where it lies, and the memory around it.
  datatype Image = Image(magic: nat, ncmds: nat, commands: seq<Byte>, base: nat, memory: nat -> Byte)

  datatype Table = Table(data: seq<Byte>, size: nat)

  // Where the headers say the table is: its offset into the link-edit segment lies within
  // that segment both as filed and as mapped.
  predicate Bounded(bytes: seq<Byte>, l: nat, s: nat)
    requires SegmentAt(bytes, l, LINKEDIT) && StartsAt(bytes, s)
  {
    var offset, datasize := U32(bytes, s + 8) - U64(bytes, l + 40), U32(bytes, s + 12);
    0 <= offset && offset + datasize <= U64(bytes, l + 48) && offset + datasize <= U64(bytes, l + 32)
  }

  // Addresses wrap around at the word size.
  function Address(base: nat, text: nat, linkedit: nat, dataoff: nat, fileoff: nat, i: nat): nat {
    var slide := (base - text) % WORD;
    (slide + linkedit + dataoff - fileoff + i) % WORD
  }

  function ReadFrom(memory: nat -> Byte, address: nat -> nat, n: nat): (bytes: seq<Byte>)
    ensures |bytes| == n && forall i :: 0 <= i < n ==> bytes[i] == memory(address(i))
  {
    if n == 0 then [] else ReadFrom(memory, address, n - 1) + [memory(address(n - 1))]
  }

  // The bytes of the table, read where the link-edit segment is mapped.
  function Mapped(image: Image, t: nat, l: nat, s: nat): seq<Byte>
    requires SegmentAt(image.commands, t, TEXT) && SegmentAt(image.commands, l, LINKEDIT) && StartsAt(image.commands, s)
  {
    var bytes := image.commands;
    var text, linkedit, fileoff, dataoff := U64(bytes, t + 24), U64(bytes, l + 24), U64(bytes, l + 40), U32(bytes, s + 8);
    ReadFrom(image.memory, i => Address(image.base, text, linkedit, dataoff, fileoff, i), U32(bytes, s + 12))
  }

  // The table the image's own headers lead to, when they respect every bound they state.
  function TableOf(image: Image): Option<Table> {
    var bytes := image.commands;
    var positions := Commands(bytes, 0, image.ncmds);
    if image.magic != MAGIC_64 || positions.None? then None else
      var text := LastSegment(bytes, positions.value, TEXT);
      var linkedit := LastSegment(bytes, positions.value, LINKEDIT);
      var starts := LastStarts(bytes, positions.value);
      if text.None? || linkedit.None? || starts.None? then None
      else TableFrom(image, text.value, linkedit.value, starts.value)
  }

  function TableFrom(image: Image, t: nat, l: nat, s: nat): Option<Table>
    requires SegmentAt(image.commands, t, TEXT) && SegmentAt(image.commands, l, LINKEDIT) && StartsAt(image.commands, s)
  {
    if Bounded(image.commands, l, s) then Some(Table(Mapped(image, t, l, s), U64(image.commands, t + 32))) else None
  }

  method FindTable(image: Image) returns (table: Option<Table>)
    ensures table == TableOf(image)
  {
    if image.magic != MAGIC_64 {
      return None;
    }
    var bytes := image.commands;
    var ok, text, linkedit, starts := Walk(bytes, image.ncmds);
    if !ok || text.None? || linkedit.None? || starts.None? {
      return None;
    }
    table := ReadTable(image, text.value, linkedit.value, starts.value);
  }

  method ReadTable(image: Image, t: nat, l: nat, s: nat) returns (table: Option<Table>)
    requires SegmentAt(image.commands, t, TEXT) && SegmentAt(image.commands, l, LINKEDIT) && StartsAt(image.commands, s)
    ensures table == TableFrom(image, t, l, s)
  {
    if !InBounds(image.commands, l, s) {
      return None;
    }
    return Some(Table(Mapped(image, t, l, s), U64(image.commands, t + 32)));
  }

  predicate InText(table: Option<Table>, base: nat, target: nat) {
    table.Some? && 0 <= target - base < table.value.size
  }

  // From one function start of the table to the next, within the text.
  predicate Reaches(table: Table, offset: nat, extent: nat) {
    var starts := Starts(table.data, 0, 0, table.size);
    && offset + extent <= table.size && offset in starts && offset + extent in starts
    && forall s :: s in starts ==> s <= offset || offset + extent <= s
  }

  // The gap of the table for a target in the text, 0 for any other; and so, unless it is 0, it
  // goes from the target's own start to the next one, within the text.
  ghost predicate IsExtent(table: Option<Table>, base: nat, target: nat, extent: nat) {
    && (if InText(table, base, target) then
          IsGap(Starts(table.value.data, 0, 0, table.value.size), target - base, extent)
        else extent == 0)
    && (extent != 0 ==> Reaches(table.value, target - base, extent))
  }

  // The extent of the function at an address, 0 when none is proven. None is an address that
  // belongs to no image.
  method FunctionExtent(image: Option<Image>, target: nat) returns (extent: nat)
    ensures image.None? ==> extent == 0
    ensures image.Some? ==> IsExtent(TableOf(image.value), image.value.base, target, extent)
  {
    if image.None? {
      return 0;
    }
    var table := FindTable(image.value);
    extent := ExtentIn(table, image.value.base, target);
  }

  method ExtentIn(table: Option<Table>, base: nat, target: nat) returns (extent: nat)
    ensures IsExtent(table, base, target, extent)
  {
    if table.None? || target < base || target - base >= table.value.size {
      return 0;
    }
    extent := TableExtent(table.value.data, table.value.size, target - base);
    if extent != 0 {
      ExtentIsSound(table.value.data, table.value.size, target - base, extent);
    }
  }

  // The bounds as the code checks them, without a sum that could wrap.
  predicate InBounds(bytes: seq<Byte>, l: nat, s: nat)
    requires SegmentAt(bytes, l, LINKEDIT) && StartsAt(bytes, s)
    ensures InBounds(bytes, l, s) <==> Bounded(bytes, l, s)
  {
    var fileoff, filesize, vmsize := U64(bytes, l + 40), U64(bytes, l + 48), U64(bytes, l + 32);
    var dataoff, datasize := U32(bytes, s + 8), U32(bytes, s + 12);
    && dataoff >= fileoff
    && var offset := dataoff - fileoff;
       !(offset > filesize || datasize > filesize - offset || offset > vmsize || datasize > vmsize - offset)
  }
}
