// The string helpers of str_utils.h, in the C locale.
module StrUtils {
  ghost predicate Without(text: string, c: char) {
    forall k :: 0 <= k < |text| ==> text[k] != c
  }

  predicate IsSpace(c: char) {
    c == ' ' || '\t' <= c <= '\r'
  }

  function ToUpper(c: char): char {
    if 'a' <= c <= 'z' then 'A' + (c - 'a') else c
  }

  function AsciiStrToUpper(s: string): (r: string)
    ensures |r| == |s| && forall k :: 0 <= k < |s| ==> r[k] == ToUpper(s[k])
  {
    seq(|s|, k requires 0 <= k < |s| => ToUpper(s[k]))
  }

  // The first character from a position on that is no blank, or the end.
  function Begin(s: string, from: nat): (i: nat)
    requires from <= |s|
    ensures from <= i <= |s| && (i < |s| ==> !IsSpace(s[i]))
    decreases |s| - from
  {
    if from < |s| && IsSpace(s[from]) then Begin(s, from + 1) else from
  }

  // The position behind the last character between two positions that is no blank.
  function End(s: string, from: nat, to: nat): (i: nat)
    requires from <= to <= |s|
    ensures from <= i <= to && (i > from ==> !IsSpace(s[i - 1]))
  {
    if to > from && IsSpace(s[to - 1]) then End(s, from, to - 1) else to
  }

  function StripLeading(s: string): string {
    s[Begin(s, 0)..]
  }

  function StripTrailing(s: string): string {
    s[..End(s, 0, |s|)]
  }

  // The text from a position on without the blanks around it.
  function StripFrom(s: string, from: nat): string
    requires from <= |s|
  {
    var i := Begin(s, from);
    s[i..End(s, i, |s|)]
  }

  function Strip(s: string): string {
    StripFrom(s, 0)
  }

  // ---- Stripping ----

  ghost predicate BlankIn(s: string, from: nat, to: nat)
    requires to <= |s|
  {
    forall k :: from <= k < to ==> IsSpace(s[k])
  }

  ghost predicate Blank(s: string) {
    BlankIn(s, 0, |s|)
  }

  // Between these two positions stands what stripping leaves.
  ghost predicate Bounded(s: string, i: nat, j: nat) {
    && i < j <= |s| && BlankIn(s, 0, i) && !IsSpace(s[i]) && BlankIn(s, j, |s|) && !IsSpace(s[j - 1])
  }

  lemma {:induction false} BeginIs(s: string, from: nat, i: nat)
    requires from <= i <= |s| && BlankIn(s, from, i) && (i == |s| || !IsSpace(s[i]))
    ensures Begin(s, from) == i
    decreases |s| - from
  {
    if from < i {
      BeginIs(s, from + 1, i);
    }
  }

  lemma {:induction false} EndIs(s: string, from: nat, to: nat, i: nat)
    requires from <= i <= to <= |s| && BlankIn(s, i, to) && (i == from || !IsSpace(s[i - 1]))
    ensures End(s, from, to) == i
  {
    if i < to {
      EndIs(s, from, to - 1, i);
    }
  }

  lemma {:induction false} BeginBlank(s: string, from: nat)
    requires from <= |s|
    ensures BlankIn(s, from, Begin(s, from))
    decreases |s| - from
  {
    if from < |s| && IsSpace(s[from]) {
      BeginBlank(s, from + 1);
    }
  }

  lemma {:induction false} EndBlank(s: string, from: nat, to: nat)
    requires from <= to <= |s|
    ensures BlankIn(s, End(s, from, to), to)
  {
    if to > from && IsSpace(s[to - 1]) {
      EndBlank(s, from, to - 1);
    }
  }

  lemma Bounds(s: string) returns (i: nat, j: nat)
    requires !Blank(s)
    ensures Bounded(s, i, j)
  {
    i, j := Begin(s, 0), End(s, 0, |s|);
    BeginBlank(s, 0);
    EndBlank(s, 0, |s|);
  }

  lemma BoundsAre(s: string, i: nat, j: nat)
    requires Bounded(s, i, j)
    ensures !Blank(s) && StripLeading(s) == s[i..] && StripTrailing(s) == s[..j] && Strip(s) == s[i..j]
  {
    BeginIs(s, 0, i);
    EndIs(s, 0, |s|, j);
    EndIs(s, i, |s|, j);
  }

  // Stripping is stripping both ends; only a blank text becomes empty.
  lemma StripEnds(s: string)
    ensures Strip(s) == StripTrailing(StripLeading(s)) && (Strip(s) == "" <==> Blank(s))
  {
    if Blank(s) {
      BeginIs(s, 0, |s|);
    } else {
      var i, j := Bounds(s);
      BoundsAre(s, i, j);
      var t := s[i..];
      SliceBounds(s, i, j, t, 0, j - i);
      BoundsAre(t, 0, j - i);
    }
  }

  // Stripping a text that is already stripped somewhere has no effect there.
  lemma StripStripped(s: string)
    requires !Blank(s)
    ensures Strip(Strip(s)) == Strip(s) && Strip(StripLeading(s)) == Strip(s) && Strip(StripTrailing(s)) == Strip(s)
    ensures !Blank(StripLeading(s)) && !Blank(StripTrailing(s)) && !Blank(Strip(s))
  {
    var i, j := Bounds(s);
    BoundsAre(s, i, j);
    SliceStripped(s, i, j, i, |s|, s[i..]);
    SliceStripped(s, i, j, 0, j, s[..j]);
    SliceStripped(s, i, j, i, j, s[i..j]);
  }

  lemma SliceStripped(s: string, i: nat, j: nat, lo: nat, hi: nat, t: string)
    requires Bounded(s, i, j) && lo <= i && j <= hi <= |s| && t == s[lo..hi]
    ensures !Blank(t) && Strip(t) == s[i..j]
  {
    BoundsAre(s, i, j);
    var i', j' := i - lo, j - lo;
    assert forall k :: 0 <= k < |t| ==> t[k] == s[lo + k];
    assert t[i'..j'] == s[i..j];
    SliceBounds(s, i, j, t, i', j');
  }

  lemma SliceBounds(s: string, i: nat, j: nat, t: string, i': nat, j': nat)
    requires Bounded(s, i, j) && Bounded(t, i', j') && t[i'..j'] == s[i..j]
    ensures !Blank(t) && Strip(t) == Strip(s)
  {
    BoundsAre(s, i, j);
    BoundsAre(t, i', j');
  }

  // Only the outer ends of a text are stripped.
  lemma StripLeadingJoined(s: string, b: string)
    requires !Blank(s)
    ensures StripLeading(s + b) == StripLeading(s) + b
  {
    var i, j := Bounds(s);
    BoundsAre(s, i, j);
    BeginIs(s + b, 0, i);
  }

  lemma StripTrailingJoined(a: string, s: string)
    requires !Blank(s)
    ensures StripTrailing(a + s) == a + StripTrailing(s)
  {
    var i, j := Bounds(s);
    BoundsAre(s, i, j);
    EndIs(a + s, 0, |a + s|, |a| + j);
  }

  // A blank around a text makes no difference.
  lemma StripBlanked(s: string)
    requires !Blank(s)
    ensures Strip(s + " ") == Strip(s)
  {
    var i, j := Bounds(s);
    SliceBounds(s, i, j, s + " ", i, j);
  }

  lemma StripIs(s: string, a: string, m: string, b: string)
    requires Blank(a) && Blank(b) && m != "" && !IsSpace(m[0]) && !IsSpace(m[|m| - 1]) && s == a + m + b
    ensures !Blank(s) && Strip(s) == m && StripLeading(s) == m + b
  {
    BoundsAre(s, |a|, |a| + |m|);
  }

  lemma StripParts(s: string) returns (a: string, m: string, b: string)
    requires !Blank(s)
    ensures Blank(a) && Blank(b) && m != "" && !IsSpace(m[0]) && !IsSpace(m[|m| - 1]) && s == a + m + b
  {
    var i, j := Bounds(s);
    a, m, b := s[..i], s[i..j], s[j..];
  }

  lemma StripBlankFirst(t: string, s: string)
    requires !Blank(s) && t == " " + s
    ensures !Blank(t) && Strip(t) == Strip(s) && StripLeading(t) == StripLeading(s)
  {
    var a, m, b := StripParts(s);
    StripIs(s, a, m, b);
    assert t == " " + a + m + b;
    StripIs(t, " " + a, m, b);
  }

  // ---- Splitting ----

  // The pieces of a text whose first piece has begun with some characters. The last piece is
  // stripped and the others are not; empty pieces are dropped.
  function SplitAfter(begun: string, s: string, d: char): seq<string>
    decreases |s|
  {
    if s == "" then Piece(Strip(begun))
    else if s[0] == d then Piece(begun) + SplitAfter("", s[1..], d)
    else SplitAfter(begun + [s[0]], s[1..], d)
  }

  function Split(s: string, d: char): seq<string> {
    SplitAfter("", s, d)
  }

  function Piece(s: string): seq<string> {
    if s == "" then [] else [s]
  }

  lemma {:induction false} SplitMore(begun: string, a: string, d: char, rest: string)
    requires Without(a, d)
    ensures SplitAfter(begun, a + rest, d) == SplitAfter(begun + a, rest, d)
    decreases |a|
  {
    if a == "" {
      assert begun + a == begun && a + rest == rest;
    } else {
      assert (a + rest)[1..] == a[1..] + rest && begun + a == begun + [a[0]] + a[1..];
      SplitMore(begun + [a[0]], a[1..], d, rest);
    }
  }

  lemma SplitFront(text: string, a: string, d: char, rest: string)
    requires a != "" && Without(a, d) && text == a + [d] + rest
    ensures Split(text, d) == [a] + Split(rest, d)
  {
    assert text == a + ([d] + rest) && "" + a == a;
    SplitMore("", a, d, [d] + rest);
    assert ([d] + rest)[1..] == rest;
  }

  lemma SplitLast(a: string, d: char)
    requires Without(a, d)
    ensures Split(a, d) == Piece(Strip(a))
  {
    assert a + "" == a == "" + a;
    SplitMore("", a, d, "");
  }

  method StrSplit(input: string, delimiter: char) returns (result: seq<string>)
    ensures result == Split(input, delimiter)
  {
    result := [];
    var lastPos: nat := 0;
    for i := 0 to |input|
      invariant lastPos <= i
      invariant result + SplitAfter(input[lastPos..i], input[i..], delimiter) == Split(input, delimiter)
    {
      OneCharacter(input, delimiter, lastPos, i, result);
      if input[i] != delimiter {
        continue;
      }
      if i - lastPos > 0 {
        result := result + [input[lastPos..i]];
      }
      lastPos := i + 1;
    }
    assert input[lastPos..] == input[lastPos..|input|] && input[|input|..] == "";
    if lastPos != |input| {
      var sp := Strip(input[lastPos..]);
      if sp != "" {
        result := result + [sp];
      }
    }
  }

  lemma OneCharacter(s: string, d: char, from: nat, i: nat, before: seq<string>)
    requires from <= i < |s|
    ensures before + SplitAfter(s[from..i], s[i..], d) ==
            if s[i] == d then before + Piece(s[from..i]) + SplitAfter(s[i + 1..i + 1], s[i + 1..], d)
            else before + SplitAfter(s[from..i + 1], s[i + 1..], d)
    ensures from == i ==> before + Piece(s[from..i]) == before
  {
    assert s[i..][1..] == s[i + 1..] && s[from..i + 1] == s[from..i] + [s[i]] && s[i + 1..i + 1] == "";
  }
}
