// A Mach-O image as a linker writes it and a loader maps it, and what the decoder makes of it.
module WrittenImage {
  import opened Options
  import opened Leb128
  import opened StartTable
  import opened MachImage

  // ---- The load commands in writing ----

  function Little(n: nat, width: nat): (bytes: seq<Byte>)
    ensures |bytes| == width
  {
    if width == 0 then [] else [n % 256] + Little(n / 256, width - 1)
  }

  // The fields of the load commands that matter here, with whatever else the command holds.
  datatype Command =
    | Segment(name: seq<Byte>, vmaddr: nat, vmsize: nat, fileoff: nat, filesize: nat, rest: seq<Byte>)
    | FunctionStarts(dataoff: nat, datasize: nat, rest: seq<Byte>)
    | Other(cmd: nat, rest: seq<Byte>)
  {
    // Fields fit their widths, and a segment holds at least its fixed part.
    ghost predicate Fits() {
      match this
      case Segment(name, vmaddr, vmsize, fileoff, filesize, rest) =>
        && |name| == 16 && 16 <= |rest| < 0x1000_0000
        && vmaddr < 0x1_0000_0000_0000_0000 && vmsize < 0x1_0000_0000_0000_0000
        && fileoff < 0x1_0000_0000_0000_0000 && filesize < 0x1_0000_0000_0000_0000
      case FunctionStarts(dataoff, datasize, rest) =>
        dataoff < 0x1_0000_0000 && datasize < 0x1_0000_0000 && |rest| < 0x1000_0000
      case Other(cmd, rest) => cmd < 0x1_0000_0000 && cmd != 0x19 && cmd != 0x26 && |rest| < 0x1000_0000
    }

    // Sixteen characters, of which the name takes the first ones, with a null character behind.
    ghost predicate IsNamed(text: string)
      requires |text| < 16
    {
      && this.Segment? && |name| == 16 && name[|text|] == 0
      && forall k :: 0 <= k < |text| ==> name[k] == text[k] as int
    }
  }

  function Head(cmd: nat, size: nat): (bytes: seq<Byte>)
    ensures |bytes| == 8
  {
    Little(cmd, 4) + Little(size, 4)
  }

  function Body(c: Command): seq<Byte> {
    match c
    case Segment(name, vmaddr, vmsize, fileoff, filesize, rest) =>
      name + Little(vmaddr, 8) + Little(vmsize, 8) + Little(fileoff, 8) + Little(filesize, 8) + rest
    case FunctionStarts(dataoff, datasize, rest) => Little(dataoff, 4) + Little(datasize, 4) + rest
    case Other(_, rest) => rest
  }

  function Written(c: Command): (bytes: seq<Byte>)
    ensures |bytes| == 8 + |Body(c)|
  {
    Head(if c.Segment? then 0x19 else if c.FunctionStarts? then 0x26 else c.cmd, 8 + |Body(c)|) + Body(c)
  }

  function WrittenAll(cs: seq<Command>): seq<Byte> {
    if cs == [] then [] else WrittenAll(cs[..|cs| - 1]) + Written(cs[|cs| - 1])
  }

  ghost predicate AllFit(cs: seq<Command>) {
    forall i :: 0 <= i < |cs| ==> cs[i].Fits()
  }

  // The last command of each kind counts.
  ghost predicate LastNamed(cs: seq<Command>, i: nat, text: string)
    requires |text| < 16
  {
    i < |cs| && cs[i].IsNamed(text) && forall j :: i < j < |cs| ==> !cs[j].IsNamed(text)
  }

  ghost predicate LastTable(cs: seq<Command>, i: nat) {
    i < |cs| && cs[i].FunctionStarts? && forall j :: i < j < |cs| ==> !cs[j].FunctionStarts?
  }

  // ---- The image in memory ----

  // The image holds these commands, and where its link-edit segment is mapped lies the table of
  // these function starts, perhaps with padding behind it, within all the bounds that are stated.
  ghost predicate Holds(image: Image, cs: seq<Command>, t: nat, l: nat, s: nat, starts: seq<nat>, padding: seq<Byte>) {
    && image.magic == 0xfeedfacf && image.ncmds == |cs| && image.commands == WrittenAll(cs)
    && AllFit(cs) && LastNamed(cs, t, "__TEXT") && LastNamed(cs, l, "__LINKEDIT") && LastTable(cs, s)
    && Ascends(starts, 0) && (forall i :: 0 <= i < |starts| ==> starts[i] <= cs[t].vmsize)
    && (padding != [] ==> padding[0] == 0)
    && LiesMapped(image, cs[t], cs[l], cs[s], Encoded(starts, 0) + padding)
  }

  // The table's bytes lie at their mapped address and within all bounds.
  ghost predicate LiesMapped(image: Image, text: Command, linkedit: Command, table: Command, data: seq<Byte>)
    requires text.Segment? && linkedit.Segment? && table.FunctionStarts?
  {
    var offset := table.dataoff - linkedit.fileoff;
    var address := image.base - text.vmaddr + linkedit.vmaddr + offset;
    && |data| == table.datasize && 0 <= offset
    && offset + |data| <= linkedit.filesize && offset + |data| <= linkedit.vmsize
    && 0 <= address && address + |data| <= 0x1_0000_0000_0000_0000
    && forall i :: 0 <= i < |data| ==> image.memory(address + i) == data[i]
  }

  // Then every function start but the last has the gap to the next one as its extent, and every
  // other address none.
  method ExtentOfWritten(image: Image, ghost cs: seq<Command>, ghost t: nat, ghost l: nat, ghost s: nat,
                         ghost starts: seq<nat>, ghost padding: seq<Byte>, target: nat)
    returns (extent: nat)
    requires Holds(image, cs, t, l, s, starts, padding)
    ensures forall k :: 0 <= k < |starts| - 1 && target == image.base + starts[k] ==> starts[k] + extent == starts[k + 1]
    ensures (forall k :: 0 <= k < |starts| - 1 ==> target != image.base + starts[k]) ==> extent == 0
  {
    extent := FunctionExtent(Some(image), target);
    TableRead(image, cs, t, l, s, starts, padding);
    ExtentFound(TableOf(image).value, image.base, cs[t].vmsize, starts, padding, target, extent);
  }

  lemma ExtentFound(table: Table, base: nat, size: nat, starts: seq<nat>, padding: seq<Byte>, target: nat, extent: nat)
    requires size < WORD && Padding(padding) && Ascends(starts, 0) && table == Table(Encoded(starts, 0) + padding, size)
    requires forall i :: 0 <= i < |starts| ==> starts[i] <= size
    requires IsExtent(Some(table), base, target, extent)
    ensures forall k :: 0 <= k < |starts| - 1 && target == base + starts[k] ==> starts[k] + extent == starts[k + 1]
    ensures (forall k :: 0 <= k < |starts| - 1 ==> target != base + starts[k]) ==> extent == 0
  {
    var data := table.data;
    assert data[0..] == data;
    StartsOfEncoded(data, 0, starts, 0, size, padding);
    StartsAscend(data, 0, 0, size);
    forall k | 0 <= k < |starts| - 1 && target == base + starts[k] ensures starts[k] + extent == starts[k + 1] {
      assert starts[k] < starts[k + 1];
      GapAt(starts, k, extent);
    }
  }

  // ---- Reading what was written ----

  // The lowest four bytes of a number and what is left of it.
  lemma LowBytes(n: nat) returns (a: Byte, b: Byte, c: Byte, d: Byte, q: nat)
    ensures n == a as int + 0x100 * b as int + 0x1_0000 * c as int + 0x100_0000 * d as int + 0x1_0000_0000 * q
  {
    var m, k, j := n / 256, n / 256 / 256, n / 256 / 256 / 256;
    a, b, c, d, q := n % 256, m % 256, k % 256, j % 256, j / 256;
  }

  lemma LittleOf(n: nat, a: Byte, b: Byte, c: Byte, d: Byte, q: nat, width: nat)
    requires n == a as int + 0x100 * b as int + 0x1_0000 * c as int + 0x100_0000 * d as int + 0x1_0000_0000 * q
    requires width >= 4
    ensures Little(n, width) == [a, b, c, d] + Little(q, width - 4)
  {
    var m := b as int + 0x100 * c as int + 0x1_0000 * d as int + 0x100_0000 * q;
    var k := c as int + 0x100 * d as int + 0x1_0000 * q;
    var j := d as int + 0x100 * q;
    OneByte(n, a, m, width);
    OneByte(m, b, k, width - 1);
    OneByte(k, c, j, width - 2);
    OneByte(j, d, q, width - 3);
  }

  lemma OneByte(n: nat, low: Byte, more: nat, width: nat)
    requires n == low as int + 0x100 * more && width > 0
    ensures Little(n, width) == [low] + Little(more, width - 1)
  {
    assert n % 256 == low as int && n / 256 == more;
  }

  // These bytes lie at this position.
  ghost predicate LiesAt(bytes: seq<Byte>, at: nat, part: seq<Byte>) {
    at + |part| <= |bytes| && bytes[at..at + |part|] == part
  }

  lemma PartLies(bytes: seq<Byte>, at: nat, before: seq<Byte>, part: seq<Byte>, after: seq<Byte>, whole: seq<Byte>, k: nat)
    requires LiesAt(bytes, at, whole) && whole == before + part + after && k == at + |before|
    ensures LiesAt(bytes, k, part)
  {
    assert bytes[k..k + |part|] == whole[|before|..|before| + |part|] == part;
  }

  lemma ReadBytes(bytes: seq<Byte>, at: nat, a: Byte, b: Byte, c: Byte, d: Byte)
    requires LiesAt(bytes, at, [a, b, c, d])
    ensures U32(bytes, at) == a as int + 0x100 * b as int + 0x1_0000 * c as int + 0x100_0000 * d as int
  {
    var four := [a, b, c, d];
    assert forall i :: 0 <= i < 4 ==> bytes[at + i] == bytes[at..at + 4][i] == four[i];
  }

  lemma ReadFour(bytes: seq<Byte>, at: nat, n: nat)
    requires n < 0x1_0000_0000 && LiesAt(bytes, at, Little(n, 4))
    ensures U32(bytes, at) == n
  {
    var a, b, c, d, q := LowBytes(n);
    LittleOf(n, a, b, c, d, q, 4);
    assert Little(n, 4) == [a, b, c, d];
    ReadBytes(bytes, at, a, b, c, d);
  }

  lemma ReadEight(bytes: seq<Byte>, at: nat, n: nat)
    requires n < 0x1_0000_0000_0000_0000 && LiesAt(bytes, at, Little(n, 8))
    ensures U64(bytes, at) == n
  {
    var a, b, c, d, q := LowBytes(n);
    var low, high := [a, b, c, d], Little(q, 4);
    LittleOf(n, a, b, c, d, q, 8);
    var whole := Little(n, 8);
    assert whole == [] + low + high && whole == low + high + [];
    PartLies(bytes, at, [], low, high, whole, at);
    PartLies(bytes, at, low, high, [], whole, at + 4);
    ReadBytes(bytes, at, a, b, c, d);
    ReadFour(bytes, at + 4, q);
  }

  function Code(c: Command): nat {
    if c.Segment? then 0x19 else if c.FunctionStarts? then 0x26 else c.cmd
  }

  lemma HeadRead(bytes: seq<Byte>, at: nat, c: Command)
    requires c.Fits() && LiesAt(bytes, at, Written(c))
    ensures CommandAt(bytes, at) && U32(bytes, at) == Code(c) && U32(bytes, at + 4) == |Written(c)|
  {
    var whole, cmd, size := Written(c), Little(Code(c), 4), Little(8 + |Body(c)|, 4);
    BodySize(c);
    assert whole == [] + cmd + (size + Body(c)) && whole == cmd + size + Body(c);
    PartLies(bytes, at, [], cmd, size + Body(c), whole, at);
    PartLies(bytes, at, cmd, size, Body(c), whole, at + 4);
    ReadFour(bytes, at, Code(c));
    ReadFour(bytes, at + 4, 8 + |Body(c)|);
  }

  lemma BodySize(c: Command)
    requires c.Fits()
    ensures 8 + |Body(c)| < 0x1_0000_0000
    ensures c.Segment? ==> |Body(c)| == 48 + |c.rest|
    ensures c.FunctionStarts? ==> |Body(c)| == 8 + |c.rest|
  {
  }

  lemma BodyLies(bytes: seq<Byte>, at: nat, c: Command)
    requires LiesAt(bytes, at, Written(c))
    ensures LiesAt(bytes, at + 8, Body(c))
  {
    var head := Head(Code(c), 8 + |Body(c)|);
    assert Written(c) == head + Body(c) + [];
    PartLies(bytes, at, head, Body(c), [], Written(c), at + 8);
  }

  lemma SegmentRead(bytes: seq<Byte>, at: nat, c: Command)
    requires c.Segment? && c.Fits() && LiesAt(bytes, at, Written(c))
    ensures CommandAt(bytes, at) && U32(bytes, at) == 0x19 && U32(bytes, at + 4) >= 72 && LiesAt(bytes, at + 8, c.name)
    ensures U64(bytes, at + 24) == c.vmaddr && U64(bytes, at + 32) == c.vmsize
    ensures U64(bytes, at + 40) == c.fileoff && U64(bytes, at + 48) == c.filesize
  {
    HeadRead(bytes, at, c);
    BodySize(c);
    BodyLies(bytes, at, c);
    var a, b, d, e := Little(c.vmaddr, 8), Little(c.vmsize, 8), Little(c.fileoff, 8), Little(c.filesize, 8);
    FiveParts(bytes, at + 8, c.name, a, b, d, e, c.rest, Body(c));
    ReadEight(bytes, at + 24, c.vmaddr);
    ReadEight(bytes, at + 32, c.vmsize);
    ReadEight(bytes, at + 40, c.fileoff);
    ReadEight(bytes, at + 48, c.filesize);
  }

  lemma FiveParts(bytes: seq<Byte>, at: nat, name: seq<Byte>, a: seq<Byte>, b: seq<Byte>, c: seq<Byte>, d: seq<Byte>,
                  rest: seq<Byte>, whole: seq<Byte>)
    requires |name| == 16 && |a| == |b| == |c| == |d| == 8
    requires whole == name + a + b + c + d + rest && LiesAt(bytes, at, whole)
    ensures LiesAt(bytes, at, name) && LiesAt(bytes, at + 16, a) && LiesAt(bytes, at + 24, b)
    ensures LiesAt(bytes, at + 32, c) && LiesAt(bytes, at + 40, d)
  {
    assert whole == [] + name + (a + b + c + d + rest);
    PartLies(bytes, at, [], name, a + b + c + d + rest, whole, at);
    assert whole == name + a + (b + c + d + rest);
    PartLies(bytes, at, name, a, b + c + d + rest, whole, at + 16);
    assert whole == name + a + b + (c + d + rest);
    PartLies(bytes, at, name + a, b, c + d + rest, whole, at + 24);
    assert whole == name + a + b + c + (d + rest);
    PartLies(bytes, at, name + a + b, c, d + rest, whole, at + 32);
    PartLies(bytes, at, name + a + b + c, d, rest, whole, at + 40);
  }

  lemma TableCommandRead(bytes: seq<Byte>, at: nat, c: Command)
    requires c.FunctionStarts? && c.Fits() && LiesAt(bytes, at, Written(c))
    ensures StartsAt(bytes, at) && U32(bytes, at + 8) == c.dataoff && U32(bytes, at + 12) == c.datasize
  {
    HeadRead(bytes, at, c);
    BodySize(c);
    BodyLies(bytes, at, c);
    var a, b := Little(c.dataoff, 4), Little(c.datasize, 4);
    assert Body(c) == [] + a + (b + c.rest) && Body(c) == a + b + c.rest;
    PartLies(bytes, at + 8, [], a, b + c.rest, Body(c), at + 8);
    PartLies(bytes, at + 8, a, b, c.rest, Body(c), at + 12);
    ReadFour(bytes, at + 8, c.dataoff);
    ReadFour(bytes, at + 12, c.datasize);
  }

  ghost predicate Spells(bytes: seq<Byte>, text: string) {
    |bytes| == |text| && forall k :: 0 <= k < |text| ==> bytes[k] == text[k] as int
  }

  // A command is taken for the segment of a name exactly when it is one.
  lemma NameRead(bytes: seq<Byte>, at: nat, c: Command, name: seq<Byte>, text: string)
    requires c.Fits() && LiesAt(bytes, at, Written(c)) && |name| < 16 && Spells(name, text)
    ensures SegmentAt(bytes, at, name) <==> c.IsNamed(text)
  {
    HeadRead(bytes, at, c);
    if c.Segment? {
      SegmentRead(bytes, at, c);
      NameField(bytes, at + 8, c.name, name, text);
    }
  }

  lemma NameField(bytes: seq<Byte>, at: nat, field: seq<Byte>, name: seq<Byte>, text: string)
    requires |field| == 16 && LiesAt(bytes, at, field) && |name| < 16 && Spells(name, text)
    ensures (bytes[at..at + |name|] == name && bytes[at + |name|] == 0) <==>
              field[|text|] == 0 && forall k :: 0 <= k < |text| ==> field[k] == text[k] as int
  {
    assert forall k :: 0 <= k < 16 ==> bytes[at + k] == bytes[at..at + 16][k] == field[k];
    if bytes[at..at + |name|] == name {
      assert forall k :: 0 <= k < |text| ==> field[k] == bytes[at..at + |name|][k];
    }
    if forall k :: 0 <= k < |text| ==> field[k] == text[k] as int {
      assert bytes[at..at + |name|] == name;
    }
  }

  lemma TableKindRead(bytes: seq<Byte>, at: nat, c: Command)
    requires c.Fits() && LiesAt(bytes, at, Written(c))
    ensures StartsAt(bytes, at) <==> c.FunctionStarts?
  {
    HeadRead(bytes, at, c);
    if c.FunctionStarts? {
      TableCommandRead(bytes, at, c);
    }
  }

  // ---- All commands ----

  function Offset(cs: seq<Command>, i: nat): nat
    requires i <= |cs|
  {
    |WrittenAll(cs[..i])|
  }

  lemma {:induction false} PrefixWritten(cs: seq<Command>, i: nat)
    requires i <= |cs|
    ensures WrittenAll(cs[..i]) <= WrittenAll(cs)
    decreases |cs|
  {
    if i < |cs| {
      var before := cs[..|cs| - 1];
      PrefixWritten(before, i);
      assert before[..i] == cs[..i];
    } else {
      assert cs[..i] == cs;
    }
  }

  lemma CommandLies(cs: seq<Command>, i: nat)
    requires i < |cs|
    ensures Offset(cs, i + 1) == Offset(cs, i) + |Written(cs[i])| && LiesAt(WrittenAll(cs), Offset(cs, i), Written(cs[i]))
  {
    var to := cs[..i + 1];
    assert to[..|to| - 1] == cs[..i] && to[|to| - 1] == cs[i];
    PrefixWritten(cs, i + 1);
    var bytes, front := WrittenAll(cs), WrittenAll(to);
    assert front == WrittenAll(cs[..i]) + Written(cs[i]);
    assert bytes[..|front|] == front;
    assert bytes[Offset(cs, i)..|front|] == front[Offset(cs, i)..];
  }

  function Positions(cs: seq<Command>): (positions: seq<nat>)
    ensures |positions| == |cs| && forall i :: 0 <= i < |cs| ==> positions[i] == Offset(cs, i)
  {
    seq(|cs|, i requires 0 <= i < |cs| => Offset(cs, i))
  }

  lemma PositionsTile(cs: seq<Command>)
    requires AllFit(cs)
    ensures Tiles(WrittenAll(cs), 0, Positions(cs))
  {
    var bytes, positions := WrittenAll(cs), Positions(cs);
    forall i | 0 <= i < |cs| ensures CommandAt(bytes, positions[i]) {
      NextOffset(cs, i);
    }
    forall i | 0 <= i < |cs| - 1 ensures positions[i + 1] == positions[i] + U32(bytes, positions[i] + 4) {
      NextOffset(cs, i);
    }
    assert cs != [] ==> cs[..0] == [] && positions[0] == 0;
  }

  lemma PositionsFound(cs: seq<Command>, bytes: seq<Byte>, positions: seq<nat>, n: nat)
    requires AllFit(cs) && bytes == WrittenAll(cs) && positions == Positions(cs) && n == |cs|
    ensures Commands(bytes, 0, n) == Some(positions)
  {
    PositionsTile(cs);
    CommandsTile(bytes, 0, n, positions);
  }

  lemma NextOffset(cs: seq<Command>, i: nat)
    requires AllFit(cs) && i < |cs|
    ensures CommandAt(WrittenAll(cs), Offset(cs, i))
    ensures Offset(cs, i + 1) == Offset(cs, i) + U32(WrittenAll(cs), Offset(cs, i) + 4)
  {
    CommandLies(cs, i);
    HeadRead(WrittenAll(cs), Offset(cs, i), cs[i]);
  }

  lemma {:induction false} LastSegmentIs(bytes: seq<Byte>, positions: seq<nat>, name: seq<Byte>, i: nat)
    requires |name| < 16 && i < |positions| && SegmentAt(bytes, positions[i], name)
    requires forall j :: i < j < |positions| ==> !SegmentAt(bytes, positions[j], name)
    ensures LastSegment(bytes, positions, name) == Some(positions[i])
    decreases |positions|
  {
    if i < |positions| - 1 {
      LastSegmentIs(bytes, positions[..|positions| - 1], name, i);
    }
  }

  lemma {:induction false} LastStartsIs(bytes: seq<Byte>, positions: seq<nat>, i: nat)
    requires i < |positions| && StartsAt(bytes, positions[i])
    requires forall j :: i < j < |positions| ==> !StartsAt(bytes, positions[j])
    ensures LastStarts(bytes, positions) == Some(positions[i])
    decreases |positions|
  {
    if i < |positions| - 1 {
      LastStartsIs(bytes, positions[..|positions| - 1], i);
    }
  }

  lemma SegmentFound(cs: seq<Command>, i: nat, name: seq<Byte>, text: string)
    requires AllFit(cs) && |name| < 16 && Spells(name, text) && LastNamed(cs, i, text)
    ensures LastSegment(WrittenAll(cs), Positions(cs), name) == Some(Offset(cs, i))
  {
    var bytes, positions := WrittenAll(cs), Positions(cs);
    forall j | i <= j < |cs| ensures SegmentAt(bytes, positions[j], name) <==> cs[j].IsNamed(text) {
      CommandLies(cs, j);
      NameRead(bytes, positions[j], cs[j], name, text);
    }
    LastSegmentIs(bytes, positions, name, i);
  }

  lemma TableCommandFound(cs: seq<Command>, i: nat)
    requires AllFit(cs) && LastTable(cs, i)
    ensures LastStarts(WrittenAll(cs), Positions(cs)) == Some(Offset(cs, i))
  {
    var bytes, positions := WrittenAll(cs), Positions(cs);
    forall j | i <= j < |cs| ensures StartsAt(bytes, positions[j]) <==> cs[j].FunctionStarts? {
      CommandLies(cs, j);
      TableKindRead(bytes, positions[j], cs[j]);
    }
    LastStartsIs(bytes, positions, i);
  }

  // ---- The table ----

  lemma TableRead(image: Image, cs: seq<Command>, t: nat, l: nat, s: nat, starts: seq<nat>, padding: seq<Byte>)
    requires Holds(image, cs, t, l, s, starts, padding)
    ensures TableOf(image) == Some(Table(Encoded(starts, 0) + padding, cs[t].vmsize))
  {
    PartsFound(image, cs, t, l, s);
    FieldsRead(cs, t, l, s);
    MappedThere(image, Offset(cs, t), Offset(cs, l), Offset(cs, s), cs[t], cs[l], cs[s], Encoded(starts, 0) + padding);
  }

  lemma PartsFound(image: Image, cs: seq<Command>, t: nat, l: nat, s: nat)
    requires image.magic == MAGIC_64 && image.ncmds == |cs| && image.commands == WrittenAll(cs)
    requires AllFit(cs) && LastNamed(cs, t, "__TEXT") && LastNamed(cs, l, "__LINKEDIT") && LastTable(cs, s)
    ensures SegmentAt(image.commands, Offset(cs, t), TEXT) && SegmentAt(image.commands, Offset(cs, l), LINKEDIT)
    ensures StartsAt(image.commands, Offset(cs, s))
    ensures TableOf(image) == TableFrom(image, Offset(cs, t), Offset(cs, l), Offset(cs, s))
  {
    var positions := Positions(cs);
    PositionsFound(cs, image.commands, positions, |cs|);
    TextFound(cs, t);
    LinkeditFound(cs, l);
    TableCommandFound(cs, s);
    TableOfParts(image, positions, Offset(cs, t), Offset(cs, l), Offset(cs, s));
  }

  lemma TextFound(cs: seq<Command>, i: nat)
    requires AllFit(cs) && LastNamed(cs, i, "__TEXT")
    ensures LastSegment(WrittenAll(cs), Positions(cs), TEXT) == Some(Offset(cs, i))
  {
    SegmentFound(cs, i, TEXT, "__TEXT");
  }

  lemma LinkeditFound(cs: seq<Command>, i: nat)
    requires AllFit(cs) && LastNamed(cs, i, "__LINKEDIT")
    ensures LastSegment(WrittenAll(cs), Positions(cs), LINKEDIT) == Some(Offset(cs, i))
  {
    SegmentFound(cs, i, LINKEDIT, "__LINKEDIT");
  }

  lemma TableOfParts(image: Image, positions: seq<nat>, t: nat, l: nat, s: nat)
    requires image.magic == MAGIC_64 && Commands(image.commands, 0, image.ncmds) == Some(positions)
    requires LastSegment(image.commands, positions, TEXT) == Some(t)
    requires LastSegment(image.commands, positions, LINKEDIT) == Some(l)
    requires LastStarts(image.commands, positions) == Some(s)
    ensures SegmentAt(image.commands, t, TEXT) && SegmentAt(image.commands, l, LINKEDIT) && StartsAt(image.commands, s)
    ensures TableOf(image) == TableFrom(image, t, l, s)
  {
  }

  // What the decoder reads of the three commands that matter.
  ghost predicate ReadsAs(bytes: seq<Byte>, t: nat, l: nat, s: nat, text: Command, linkedit: Command, table: Command) {
    IsText(bytes, t, text) && IsLinkedit(bytes, l, linkedit) && IsTable(bytes, s, table)
  }

  ghost predicate IsText(bytes: seq<Byte>, t: nat, text: Command) {
    && text.Segment? && SegmentAt(bytes, t, TEXT)
    && U64(bytes, t + 24) == text.vmaddr && U64(bytes, t + 32) == text.vmsize
  }

  ghost predicate IsLinkedit(bytes: seq<Byte>, l: nat, linkedit: Command) {
    && linkedit.Segment? && SegmentAt(bytes, l, LINKEDIT)
    && U64(bytes, l + 24) == linkedit.vmaddr && U64(bytes, l + 32) == linkedit.vmsize
    && U64(bytes, l + 40) == linkedit.fileoff && U64(bytes, l + 48) == linkedit.filesize
  }

  ghost predicate IsTable(bytes: seq<Byte>, s: nat, table: Command) {
    && table.FunctionStarts? && StartsAt(bytes, s)
    && U32(bytes, s + 8) == table.dataoff && U32(bytes, s + 12) == table.datasize
  }

  lemma TextRead(bytes: seq<Byte>, at: nat, c: Command)
    requires c.Fits() && c.IsNamed("__TEXT") && LiesAt(bytes, at, Written(c))
    ensures IsText(bytes, at, c)
  {
    SegmentRead(bytes, at, c);
    NameRead(bytes, at, c, TEXT, "__TEXT");
  }

  lemma LinkeditRead(bytes: seq<Byte>, at: nat, c: Command)
    requires c.Fits() && c.IsNamed("__LINKEDIT") && LiesAt(bytes, at, Written(c))
    ensures IsLinkedit(bytes, at, c)
  {
    SegmentRead(bytes, at, c);
    NameRead(bytes, at, c, LINKEDIT, "__LINKEDIT");
  }

  lemma FieldsRead(cs: seq<Command>, t: nat, l: nat, s: nat)
    requires AllFit(cs) && LastNamed(cs, t, "__TEXT") && LastNamed(cs, l, "__LINKEDIT") && LastTable(cs, s)
    ensures ReadsAs(WrittenAll(cs), Offset(cs, t), Offset(cs, l), Offset(cs, s), cs[t], cs[l], cs[s])
  {
    var bytes := WrittenAll(cs);
    CommandLies(cs, t);
    TextRead(bytes, Offset(cs, t), cs[t]);
    CommandLies(cs, l);
    LinkeditRead(bytes, Offset(cs, l), cs[l]);
    CommandLies(cs, s);
    TableCommandRead(bytes, Offset(cs, s), cs[s]);
  }

  lemma MappedThere(image: Image, t: nat, l: nat, s: nat, text: Command, linkedit: Command, table: Command, data: seq<Byte>)
    requires ReadsAs(image.commands, t, l, s, text, linkedit, table) && LiesMapped(image, text, linkedit, table, data)
    ensures TableFrom(image, t, l, s) == Some(Table(data, text.vmsize))
  {
    var mapped := Mapped(image, t, l, s);
    forall i | 0 <= i < |data| ensures mapped[i] == data[i] {
      MappedByte(image, t, l, s, text, linkedit, table, data, i);
    }
    assert mapped == data;
  }

  lemma MappedByte(image: Image, t: nat, l: nat, s: nat, text: Command, linkedit: Command, table: Command,
                   data: seq<Byte>, i: nat)
    requires ReadsAs(image.commands, t, l, s, text, linkedit, table) && LiesMapped(image, text, linkedit, table, data)
    requires i < |data|
    ensures Mapped(image, t, l, s)[i] == data[i]
  {
    var at := AddressInRange(image, text, linkedit, table, data, i);
    AddressIs(image.base, text.vmaddr, linkedit.vmaddr, table.dataoff, linkedit.fileoff, i, at);
    MappedAt(image, t, l, s, text.vmaddr, linkedit.vmaddr, table.dataoff, linkedit.fileoff, i);
  }

  lemma AddressInRange(image: Image, text: Command, linkedit: Command, table: Command, data: seq<Byte>, i: nat)
    returns (at: nat)
    requires text.Segment? && linkedit.Segment? && table.FunctionStarts?
    requires LiesMapped(image, text, linkedit, table, data) && i < |data|
    ensures at == image.base - text.vmaddr + linkedit.vmaddr + table.dataoff - linkedit.fileoff + i < WORD
    ensures image.memory(at) == data[i]
  {
    var address := image.base - text.vmaddr + linkedit.vmaddr + (table.dataoff - linkedit.fileoff);
    at := address + i;
  }

  lemma MappedAt(image: Image, t: nat, l: nat, s: nat, vmaddr: nat, linkedit: nat, dataoff: nat, fileoff: nat, i: nat)
    requires SegmentAt(image.commands, t, TEXT) && SegmentAt(image.commands, l, LINKEDIT) && StartsAt(image.commands, s)
    requires U64(image.commands, t + 24) == vmaddr && U64(image.commands, l + 24) == linkedit
    requires U32(image.commands, s + 8) == dataoff && U64(image.commands, l + 40) == fileoff
    requires i < |Mapped(image, t, l, s)|
    ensures Mapped(image, t, l, s)[i] == image.memory(Address(image.base, vmaddr, linkedit, dataoff, fileoff, i))
  {
  }

  // Sliding modulo the word size and adding leads where adding does.
  lemma AddressIs(base: nat, text: nat, linkedit: nat, dataoff: nat, fileoff: nat, i: nat, at: nat)
    requires at == base - text + linkedit + dataoff - fileoff + i < WORD
    ensures Address(base, text, linkedit, dataoff, fileoff, i) == at
  {
    var moved, more := base - text, linkedit + dataoff - fileoff + i;
    var slide, q := moved % WORD, moved / WORD;
    assert moved == q * WORD + slide;
    assert slide + more == at + (-q) * WORD;
  }
}
