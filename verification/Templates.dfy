// Whole templates: editing one value after the other against substituting all of them at once.
module Templates {
  import opened Options
  import opened Placeholders
  import opened StrUtils
  import Decimal

  // The last usable value whose index is written like this among the first n.
  function Lookup(values: seq<Option<string>>, n: nat, name: string): Option<string>
    requires n <= |values|
  {
    if n == 0 then None
    else if Usable(values[n - 1]) && name == Decimal.Numeral(n - 1) then values[n - 1]
    else Lookup(values, n - 1, name)
  }

  function Put(seg: Segment, values: seq<Option<string>>, n: nat): Segment
    requires n <= |values|
  {
    if seg.Hole? && Lookup(values, n, seg.name).Some?
    then Fill(seg, seg.name, Lookup(values, n, seg.name).value) else seg
  }

  // Simultaneous substitution of the first n values.
  function Substitute(segs: seq<Segment>, values: seq<Option<string>>, n: nat): (r: seq<Segment>)
    requires n <= |values|
    ensures |r| == |segs| && forall k :: 0 <= k < |segs| ==> r[k] == Put(segs[k], values, n)
  {
    seq(|segs|, k requires 0 <= k < |segs| => Put(segs[k], values, n))
  }

  // The search for value i jumps over one of its placeholders, the earlier values being in place.
  predicate JumpedAt(segs: seq<Segment>, values: seq<Option<string>>, i: nat)
    requires i < |values| && Usable(values[i])
  {
    JumpsOver(Substitute(segs, values, i), 0, Decimal.Numeral(i), |values[i].value|)
  }

  predicate NothingJumped(segs: seq<Segment>, values: seq<Option<string>>, from: nat) {
    forall i :: from <= i < |values| && Usable(values[i]) ==> !JumpedAt(segs, values, i)
  }

  ghost predicate BraceFree(values: seq<Option<string>>) {
    forall i :: 0 <= i < |values| && values[i].Some? ==> Without(values[i].value, '{')
  }

  // ---- All values, one after the other ----

  function InOrder(segs: seq<Segment>, values: seq<Option<string>>, i: nat): (r: seq<Segment>)
    requires i <= |values|
    ensures |r| == |segs|
    decreases |values| - i
  {
    if i == |values| then segs
    else InOrder(if Usable(values[i]) then Pass(segs, 0, Decimal.Numeral(i), values[i].value) else segs, values, i + 1)
  }

  lemma NumeralIsPlain(i: nat)
    ensures Plain(Decimal.Numeral(i))
  {
    forall k | 0 <= k < |Decimal.Numeral(i)|
      ensures Decimal.IsDigit(Decimal.Numeral(i)[k])
    {
      assert Decimal.Numeral(i)[k] in Decimal.Numeral(i);
    }
  }

  lemma {:induction false} PassElement(segs: seq<Segment>, skip: nat, name: string, value: string, k: nat)
    requires k < |segs|
    ensures Pass(segs, skip, name, value)[k] == segs[k] || Pass(segs, skip, name, value)[k] == Fill(segs[k], name, value)
  {
    if k > 0 {
      PassElement(segs[1..], SkipAfter(segs[0], skip, name, |value|), name, value, k - 1);
    }
  }

  lemma FillWellFormed(seg: Segment, name: string, value: string)
    requires WellFormed(seg) && Without(value, '{')
    ensures WellFormed(Fill(seg, name, value))
  {
  }

  lemma PassWellFormed(segs: seq<Segment>, skip: nat, name: string, value: string)
    requires AllWellFormed(segs) && Without(value, '{')
    ensures AllWellFormed(Pass(segs, skip, name, value))
  {
    forall k | 0 <= k < |segs|
      ensures WellFormed(Pass(segs, skip, name, value)[k])
    {
      assert segs[k] in segs;
      PassElement(segs, skip, name, value, k);
      FillWellFormed(segs[k], name, value);
    }
  }

  // The in-place edits of all values fill placeholders and touch nothing else.
  lemma {:induction false} EditsFillPlaceholders(segs: seq<Segment>, values: seq<Option<string>>, i: nat)
    requires AllWellFormed(segs) && BraceFree(values) && i <= |values|
    ensures FormatFrom(Render(segs), values, i) == Render(InOrder(segs, values, i))
    decreases |values| - i
  {
    if i < |values| {
      if Usable(values[i]) {
        var name, value := Decimal.Numeral(i), values[i].value;
        NumeralIsPlain(i);
        assert Prefix(i) == "{" + name;
        assert "" + Render(segs) == Render(segs);
        PassOnText("", segs, 0, name, value, Render(segs), Prefix(i));
        var passed := Pass(segs, 0, name, value);
        assert "" + Render(passed) == Render(passed);
        PassWellFormed(segs, 0, name, value);
        EditsFillPlaceholders(passed, values, i + 1);
      } else {
        EditsFillPlaceholders(segs, values, i + 1);
      }
    }
  }

  // ---- One pass against the simultaneous filling of one name ----

  lemma {:induction false} PassFills(segs: seq<Segment>, skip: nat, name: string, value: string)
    requires !JumpsOver(segs, skip, name, |value|)
    ensures forall k :: 0 <= k < |segs| ==> Pass(segs, skip, name, value)[k] == Fill(segs[k], name, value)
  {
    if segs != [] {
      PassFills(segs[1..], SkipAfter(segs[0], skip, name, |value|), name, value);
    }
  }

  lemma {:induction false} PassLeaves(segs: seq<Segment>, skip: nat, name: string, value: string) returns (k: nat)
    requires JumpsOver(segs, skip, name, |value|)
    ensures k < |segs| && segs[k].Hole? && segs[k].name == name && Pass(segs, skip, name, value)[k] == segs[k]
  {
    if segs[0].Hole? && segs[0].name == name && skip > 0 {
      k := 0;
    } else {
      k := PassLeaves(segs[1..], SkipAfter(segs[0], skip, name, |value|), name, value);
      k := k + 1;
    }
  }

  lemma NumeralsDiffer(i: nat, j: nat)
    requires i != j
    ensures Decimal.Numeral(i) != Decimal.Numeral(j)
  {
    Decimal.ParseNumeral(i);
    Decimal.ParseNumeral(j);
  }

  lemma {:induction false} LookupIndex(values: seq<Option<string>>, n: nat, i: nat)
    requires n <= |values| && i < |values| && Usable(values[i])
    ensures Lookup(values, n, Decimal.Numeral(i)) == if i < n then values[i] else None
  {
    if n > 0 && n - 1 != i {
      NumeralsDiffer(n - 1, i);
      LookupIndex(values, n - 1, i);
    } else if n > 0 {
      LookupIndex(values, n - 1, i);
    }
  }

  lemma SubstituteNext(segs: seq<Segment>, values: seq<Option<string>>, i: nat, k: nat)
    requires i < |values| && k < |segs|
    ensures Substitute(segs, values, i + 1)[k] ==
            if Usable(values[i]) then Fill(Substitute(segs, values, i)[k], Decimal.Numeral(i), values[i].value)
            else Substitute(segs, values, i)[k]
  {
    if Usable(values[i]) {
      LookupIndex(values, i, i);
    }
  }

  // A placeholder left behind by its own value's pass stays.
  lemma {:induction false} LeftBehind(segs: seq<Segment>, values: seq<Option<string>>, i: nat, j: nat, k: nat)
    requires j < i <= |values| && k < |segs| && segs[k].Hole? && segs[k].name == Decimal.Numeral(j)
    ensures InOrder(segs, values, i)[k] == segs[k]
    decreases |values| - i
  {
    if i < |values| {
      if Usable(values[i]) {
        NumeralsDiffer(i, j);
        PassElement(segs, 0, Decimal.Numeral(i), values[i].value, k);
        LeftBehind(Pass(segs, 0, Decimal.Numeral(i), values[i].value), values, i + 1, j, k);
      } else {
        LeftBehind(segs, values, i + 1, j, k);
      }
    }
  }

  // Without a jump the pass of one value is the next step of the simultaneous substitution.
  lemma NextStep(segs: seq<Segment>, values: seq<Option<string>>, i: nat)
    requires i < |values| && (Usable(values[i]) ==> !JumpedAt(segs, values, i))
    ensures Substitute(segs, values, i + 1) ==
            if Usable(values[i]) then Pass(Substitute(segs, values, i), 0, Decimal.Numeral(i), values[i].value)
            else Substitute(segs, values, i)
  {
    var now := Substitute(segs, values, i);
    if Usable(values[i]) {
      PassFills(now, 0, Decimal.Numeral(i), values[i].value);
    }
    forall k | 0 <= k < |segs|
      ensures Substitute(segs, values, i + 1)[k] ==
              if Usable(values[i]) then Fill(now[k], Decimal.Numeral(i), values[i].value) else now[k]
    {
      SubstituteNext(segs, values, i, k);
    }
  }

  // With a jump a placeholder stays behind that the simultaneous substitution fills.
  lemma JumpedDiffers(segs: seq<Segment>, values: seq<Option<string>>, i: nat)
    requires i < |values| && Usable(values[i]) && JumpedAt(segs, values, i)
    ensures InOrder(Substitute(segs, values, i), values, i) != Substitute(segs, values, |values|)
  {
    var now := Substitute(segs, values, i);
    var k := PassLeaves(now, 0, Decimal.Numeral(i), values[i].value);
    LeftBehind(Pass(now, 0, Decimal.Numeral(i), values[i].value), values, i + 1, i, k);
    LookupIndex(values, |values|, i);
    assert Substitute(segs, values, |values|)[k].Lit?;
  }

  lemma {:induction false} InOrderExact(segs: seq<Segment>, values: seq<Option<string>>, i: nat)
    requires i <= |values|
    ensures InOrder(Substitute(segs, values, i), values, i) == Substitute(segs, values, |values|)
            <==> NothingJumped(segs, values, i)
    decreases |values| - i
  {
    if i < |values| {
      if Usable(values[i]) && JumpedAt(segs, values, i) {
        JumpedDiffers(segs, values, i);
      } else {
        NextStep(segs, values, i);
        InOrderExact(segs, values, i + 1);
      }
    }
  }

  // ---- Equal texts mean equal segments ----

  function Count(text: string, c: char): nat {
    if text == "" then 0 else (if text[0] == c then 1 else 0) + Count(text[1..], c)
  }

  lemma {:induction false} CountJoined(a: string, b: string, c: char)
    ensures Count(a + b, c) == Count(a, c) + Count(b, c)
  {
    if a == "" {
      assert a + b == b;
    } else {
      assert (a + b)[1..] == a[1..] + b;
      CountJoined(a[1..], b, c);
    }
  }

  lemma {:induction false} CountNone(text: string, c: char)
    requires Without(text, c)
    ensures Count(text, c) == 0
  {
    if text != "" {
      CountNone(text[1..], c);
    }
  }

  function Holes(segs: seq<Segment>): nat {
    if segs == [] then 0 else (if segs[0].Hole? then 1 else 0) + Holes(segs[1..])
  }

  lemma {:induction false} BracesAreHoles(segs: seq<Segment>)
    requires AllWellFormed(segs)
    ensures Count(Render(segs), '{') == Holes(segs)
  {
    if segs != [] {
      var text := Text(segs[0]);
      CountJoined(text, Render(segs[1..]), '{');
      if segs[0].Hole? {
        HoleText(segs[0]);
        CountNone(text[1..], '{');
      } else {
        CountNone(text, '{');
      }
      BracesAreHoles(segs[1..]);
    }
  }

  // The second list fills some placeholders of the first one.
  ghost predicate Fills(segs: seq<Segment>, filled: seq<Segment>) {
    |segs| == |filled|
    && forall k :: 0 <= k < |segs| ==> segs[k] == filled[k] || (segs[k].Hole? && filled[k].Lit?)
  }

  lemma {:induction false} FewerHoles(segs: seq<Segment>, filled: seq<Segment>)
    requires Fills(segs, filled)
    ensures Holes(filled) <= Holes(segs) && (Holes(filled) == Holes(segs) ==> segs == filled)
  {
    if segs != [] {
      FewerHoles(segs[1..], filled[1..]);
      assert segs == [segs[0]] + segs[1..] && filled == [filled[0]] + filled[1..];
    }
  }

  // Every segment is still as it was or already as the simultaneous substitution has it.
  ghost predicate Between(segs: seq<Segment>, now: seq<Segment>, values: seq<Option<string>>) {
    |now| == |segs|
    && forall k :: 0 <= k < |segs| ==> now[k] == segs[k] || now[k] == Put(segs[k], values, |values|)
  }

  lemma {:induction false} StaysBetween(segs: seq<Segment>, now: seq<Segment>, values: seq<Option<string>>, i: nat)
    requires Between(segs, now, values) && i <= |values|
    ensures Between(segs, InOrder(now, values, i), values)
    decreases |values| - i
  {
    if i < |values| {
      if Usable(values[i]) {
        var name, value := Decimal.Numeral(i), values[i].value;
        LookupIndex(values, |values|, i);
        forall k | 0 <= k < |segs|
          ensures Pass(now, 0, name, value)[k] in {segs[k], Put(segs[k], values, |values|)}
        {
          PassElement(now, 0, name, value, k);
        }
        StaysBetween(segs, Pass(now, 0, name, value), values, i + 1);
      } else {
        StaysBetween(segs, now, values, i + 1);
      }
    }
  }

  lemma {:induction false} LookupBraceFree(values: seq<Option<string>>, n: nat, name: string)
    requires n <= |values| && BraceFree(values) && Lookup(values, n, name).Some?
    ensures Without(Lookup(values, n, name).value, '{')
  {
    if !(Usable(values[n - 1]) && name == Decimal.Numeral(n - 1)) {
      LookupBraceFree(values, n - 1, name);
    }
  }

  lemma PutWellFormed(seg: Segment, values: seq<Option<string>>, n: nat)
    requires WellFormed(seg) && n <= |values| && BraceFree(values)
    ensures WellFormed(Put(seg, values, n))
  {
    if seg.Hole? && Lookup(values, n, seg.name).Some? {
      LookupBraceFree(values, n, seg.name);
    }
  }

  lemma BetweenWellFormed(segs: seq<Segment>, now: seq<Segment>, values: seq<Option<string>>)
    requires AllWellFormed(segs) && BraceFree(values) && Between(segs, now, values)
    ensures AllWellFormed(now)
  {
    forall k | 0 <= k < |segs|
      ensures WellFormed(now[k])
    {
      assert segs[k] in segs;
      PutWellFormed(segs[k], values, |values|);
    }
  }

  // ---- The theorems ----

  // Editing one value after the other has the result of substituting all values at once exactly
  // when no search jumps over a placeholder of its own value.
  lemma SequentialIsSimultaneous(segs: seq<Segment>, values: seq<Option<string>>)
    requires AllWellFormed(segs) && BraceFree(values)
    ensures FormatFrom(Render(segs), values, 0) == Render(Substitute(segs, values, |values|))
            <==> NothingJumped(segs, values, 0)
  {
    var edited, all := InOrder(segs, values, 0), Substitute(segs, values, |values|);
    EditsFillPlaceholders(segs, values, 0);
    assert Substitute(segs, values, 0) == segs;
    InOrderExact(segs, values, 0);
    StaysBetween(segs, segs, values, 0);
    BetweenWellFormed(segs, edited, values);
    BetweenWellFormed(segs, all, values);
    BracesAreHoles(edited);
    BracesAreHoles(all);
    FewerHoles(edited, all);
  }

  // It does whenever no placeholder's name is a longer one that starts with a given index.
  lemma DistinctNames(segs: seq<Segment>, values: seq<Option<string>>)
    requires AllWellFormed(segs) && BraceFree(values)
    requires forall seg, i :: seg in segs && seg.Hole? && 0 <= i < |values| && Usable(values[i]) ==>
               !(Decimal.Numeral(i) < seg.name)
    ensures FormatFrom(Render(segs), values, 0) == Render(Substitute(segs, values, |values|))
  {
    forall i | 0 <= i < |values| && Usable(values[i])
      ensures !JumpedAt(segs, values, i)
    {
      NoLongerName(Substitute(segs, values, i), Decimal.Numeral(i), |values[i].value|);
    }
    SequentialIsSimultaneous(segs, values);
  }

  lemma {:induction false} NoLongerName(segs: seq<Segment>, name: string, length: nat)
    requires forall k :: 0 <= k < |segs| && segs[k].Hole? ==> !(name < segs[k].name)
    ensures !JumpsOver(segs, 0, name, length)
  {
    if segs != [] {
      NoLongerName(segs[1..], name, length);
    }
  }

  // In particular for single-digit placeholders.
  lemma SingleDigits(segs: seq<Segment>, values: seq<Option<string>>)
    requires AllWellFormed(segs) && BraceFree(values)
    requires forall seg :: seg in segs && seg.Hole? ==> |seg.name| <= 1
    ensures FormatFrom(Render(segs), values, 0) == Render(Substitute(segs, values, |values|))
  {
    DistinctNames(segs, values);
  }

  // A two-digit placeholder can make the search jump over the next one: the text {10}{1} keeps
  // its second placeholder when value 1 is longer than four characters.
  lemma JumpedPlaceholder(value: string)
    requires |value| > 4 && Without(value, '{')
    ensures var segs := [Hole("10", None), Hole("1", None)];
            FormatFrom(Render(segs), [None, Some(value)], 0) != Render([Hole("10", None), Lit(value)])
  {
    var segs, values := [Hole("10", None), Hole("1", None)], [None, Some(value)];
    assert Decimal.Numeral(1) == "1" && Decimal.Numeral(0) == "0";
    assert Substitute(segs, values, 2) == [Hole("10", None), Lit(value)] by {
      assert |"10"| != |"1"|;
      assert Lookup(values, 1, "10") == None && Lookup(values, 2, "10") == None;
      LookupIndex(values, 2, 1);
    }
    assert JumpedAt(segs, values, 1) by {
      assert Lookup(values, 1, "10") == None && Lookup(values, 1, "1") == None;
      assert Substitute(segs, values, 1) == segs && segs[1..] == [segs[1]];
    }
    SequentialIsSimultaneous(segs, values);
  }

  // ---- What a filled placeholder looks like ----

  // A format of zeros that is longer than the value brings the value to the length of the format,
  // with zeros in front, so that it is the same number if it is one. Any other format is ignored.
  ghost predicate ZeroFilled(value: string, format: string, text: string) {
    if |value| < |format| && forall k :: 0 <= k < |format| ==> format[k] == '0' then
      && |text| == |format| && (forall k :: 0 <= k < |format| - |value| ==> text[k] == '0')
      && text[|format| - |value|..] == value
      && (Decimal.Parse(value).Some? ==> Decimal.Parse(text) == Decimal.Parse(value))
    else text == value
  }

  // A placeholder with a format alone in its template. The other values may be anything.
  method FormatNumber(i: nat, format: string, values: seq<Option<string>>) returns (result: string)
    requires Without(format, '{') && Without(format, '}') && BraceFree(values)
    ensures i < |values| && values[i].Some? && values[i].value != "" ==> ZeroFilled(values[i].value, format, result)
    ensures i >= |values| || values[i] == None || values[i] == Some("") ==>
              result == "{" + Decimal.Numeral(i) + ":" + format + "}"
  {
    var template := "{" + Decimal.Numeral(i) + ":" + format + "}";
    result := FormatWithArray(template, values);
    LoneHole(i, format, values, template);
    if i < |values| && Usable(values[i]) {
      PaddedIsZeroFilled(values[i].value, format);
    }
  }

  lemma LoneHole(i: nat, format: string, values: seq<Option<string>>, template: string)
    requires Without(format, '{') && Without(format, '}') && BraceFree(values)
    requires template == "{" + Decimal.Numeral(i) + ":" + format + "}"
    ensures FormatFrom(template, values, 0) ==
            if i < |values| && Usable(values[i]) then Padded(values[i].value, format) else template
  {
    var seg := Hole(Decimal.Numeral(i), Some(format));
    var segs := [seg];
    NumeralIsPlain(i);
    RenderOne(seg);
    assert Text(seg) == template;
    forall k | 0 <= k < |values| && Usable(values[k]) ensures !JumpedAt(segs, values, k) {
      NeverJumpsAlone(Substitute(segs, values, k), Decimal.Numeral(k), |values[k].value|);
    }
    SequentialIsSimultaneous(segs, values);
    var all := Substitute(segs, values, |values|);
    assert all == [Put(seg, values, |values|)];
    RenderOne(all[0]);
    if i < |values| && Usable(values[i]) {
      LookupIndex(values, |values|, i);
    } else {
      LookupMissing(values, |values|, i);
    }
  }

  lemma RenderOne(seg: Segment)
    ensures Render([seg]) == Text(seg)
  {
    assert [seg][1..] == [] && Text(seg) + "" == Text(seg);
  }

  lemma NeverJumpsAlone(segs: seq<Segment>, name: string, length: nat)
    requires |segs| == 1
    ensures !JumpsOver(segs, 0, name, length)
  {
    assert segs[1..] == [];
  }

  lemma {:induction false} LookupMissing(values: seq<Option<string>>, n: nat, i: nat)
    requires n <= |values| && (i < |values| ==> !Usable(values[i]))
    ensures Lookup(values, n, Decimal.Numeral(i)) == None
  {
    if n > 0 {
      if n - 1 != i {
        NumeralsDiffer(n - 1, i);
      }
      LookupMissing(values, n - 1, i);
    }
  }

  lemma PaddedIsZeroFilled(value: string, format: string)
    ensures ZeroFilled(value, format, Padded(value, format))
  {
    if |value| < |format| && AllZeros(format) {
      var zeros, n := Zeros(|format| - |value|), |format| - |value|;
      var text := zeros + value;
      assert text[n..] == value;
      assert forall k :: 0 <= k < n ==> text[k] == zeros[k] == '0';
      Decimal.ZerosInFront(zeros, value, text);
    }
  }
}
