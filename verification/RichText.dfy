// Stripping of Unity rich text tags, notification_service.cc.
module RichText {
  import opened Options
  import opened Placeholders
  import opened StrUtils

  // The text from a position on without its tags. An opening bracket that is never closed stays.
  function StrippedFrom(s: string, i: nat): string
    requires i <= |s|
    decreases |s| - i
  {
    if i == |s| then ""
    else if s[i] == '<' && Find(s, ">", i).Some? then StrippedFrom(s, Find(s, ">", i).value + 1)
    else [s[i]] + StrippedFrom(s, i + 1)
  }

  function Stripped(s: string): string {
    StrippedFrom(s, 0)
  }

  method StripUnityRichText(s: string) returns (result: string)
    ensures result == Stripped(s)
  {
    result := "";
    var i: nat := 0;
    while i < |s|
      invariant i <= |s| && result + StrippedFrom(s, i) == Stripped(s)
      decreases |s| - i
    {
      if s[i] == '<' {
        var end := Find(s, ">", i);
        if end.Some? {
          i := end.value + 1;
          continue;
        }
      }
      assert result + ([s[i]] + StrippedFrom(s, i + 1)) == result + [s[i]] + StrippedFrom(s, i + 1);
      result := result + [s[i]];
      i := i + 1;
    }
    assert result + "" == result;
  }

  ghost predicate HasTag(s: string) {
    exists p, q :: 0 <= p < q < |s| && s[p] == '<' && s[q] == '>'
  }

  // The search stops at the first closing bracket.
  lemma FirstBracket(s: string, i: nat)
    ensures var end := Find(s, ">", i);
            if end.None? then forall p :: i <= p < |s| ==> s[p] != '>'
            else s[end.value] == '>' && forall p :: i <= p < end.value ==> s[p] != '>'
  {
    FindFirst(s, ">", i);
    assert ">"[0] == '>';
    forall p | i <= p < |s| && s[p] == '>'
      ensures MatchAt(s, ">", p)
    {
    }
  }

  // Nothing is made up: a closing bracket in the result comes from the text.
  lemma {:induction false} ClosingBracketKept(s: string, i: nat)
    requires i <= |s| && (forall p :: i <= p < |s| ==> s[p] != '>')
    ensures Without(StrippedFrom(s, i), '>')
    decreases |s| - i
  {
    if i < |s| {
      FirstBracket(s, i);
      ClosingBracketKept(s, i + 1);
    }
  }

  lemma {:induction false} NoTagLeftFrom(s: string, i: nat)
    requires i <= |s|
    ensures !HasTag(StrippedFrom(s, i))
    decreases |s| - i
  {
    if i < |s| {
      var end := Find(s, ">", i);
      FirstBracket(s, i);
      if s[i] == '<' && end.Some? {
        NoTagLeftFrom(s, end.value + 1);
      } else {
        NoTagLeftFrom(s, i + 1);
        var rest := StrippedFrom(s, i + 1);
        if s[i] == '<' {
          ClosingBracketKept(s, i + 1);
        }
        assert forall q :: 0 < q < |rest| + 1 ==> ([s[i]] + rest)[q] == rest[q - 1];
      }
    }
  }

  lemma {:induction false} UntaggedFrom(s: string, i: nat)
    requires i <= |s| && !HasTag(s)
    ensures StrippedFrom(s, i) == s[i..]
    decreases |s| - i
  {
    if i < |s| {
      FirstBracket(s, i);
      UntaggedFrom(s, i + 1);
      assert s[i..] == [s[i]] + s[i + 1..];
    }
  }

  // The stripped text holds no tag, and a text without a tag is its own stripped text; so
  // stripping twice is stripping once.
  lemma StrippedIsUntagged(s: string)
    ensures !HasTag(Stripped(s)) && (Stripped(s) == s <==> !HasTag(s))
    ensures Stripped(Stripped(s)) == Stripped(s)
  {
    NoTagLeftFrom(s, 0);
    UntaggedFrom(Stripped(s), 0);
    if !HasTag(s) {
      UntaggedFrom(s, 0);
    }
  }

  lemma SameAfter(s: string, m: nat, b: string, i: nat)
    requires m <= |s| && i <= |b| && s[m..] == b[i..]
    ensures m == |s| <==> i == |b|
    ensures i < |b| ==> s[m] == b[i] && s[m + 1..] == b[i + 1..]
  {
    if i < |b| {
      assert s[m] == s[m..][0] && b[i] == b[i..][0];
      assert s[m + 1..] == s[m..][1..] && b[i + 1..] == b[i..][1..];
    }
  }

  // Where two texts go on alike, so does the search in them.
  lemma {:induction false} FindAlike(s: string, m: nat, b: string, i: nat)
    requires m <= |s| && i <= |b| && s[m..] == b[i..]
    ensures Find(s, ">", m).Some? <==> Find(b, ">", i).Some?
    ensures Find(s, ">", m).Some? ==> s[Find(s, ">", m).value + 1..] == b[Find(b, ">", i).value + 1..]
    decreases |b| - i
  {
    SameAfter(s, m, b, i);
    if i < |b| {
      FindAlike(s, m + 1, b, i + 1);
    }
  }

  lemma StrippedStep(s: string, i: nat, end: Option<nat>)
    requires i < |s| && end == Find(s, ">", i)
    ensures StrippedFrom(s, i) ==
            if s[i] == '<' && end.Some? then StrippedFrom(s, end.value + 1) else [s[i]] + StrippedFrom(s, i + 1)
  {
  }

  lemma {:induction false} StrippedAlike(s: string, m: nat, b: string, i: nat)
    requires m <= |s| && i <= |b| && s[m..] == b[i..]
    ensures StrippedFrom(s, m) == StrippedFrom(b, i)
    decreases |b| - i
  {
    SameAfter(s, m, b, i);
    if i < |b| {
      FindAlike(s, m, b, i);
      var end, end' := Find(s, ">", m), Find(b, ">", i);
      StrippedStep(s, m, end);
      StrippedStep(b, i, end');
      if b[i] == '<' && end'.Some? {
        StrippedAlike(s, end.value + 1, b, end'.value + 1);
      } else {
        StrippedAlike(s, m + 1, b, i + 1);
      }
    }
  }

  lemma {:induction false} PlainTextKept(a: string, b: string, i: nat)
    requires i <= |a| && Without(a, '<')
    ensures StrippedFrom(a + b, i) == a[i..] + Stripped(b)
    decreases |a| - i
  {
    if i < |a| {
      PlainTextKept(a, b, i + 1);
      assert a[i..] == [a[i]] + a[i + 1..];
    } else {
      assert (a + b)[|a|..] == b[0..];
      StrippedAlike(a + b, |a|, b, 0);
    }
  }

  // A tag is removed whole, and the text around it is kept.
  lemma TagRemoved(a: string, tag: string, b: string)
    requires Without(a, '<') && Without(tag, '>')
    ensures Stripped(a + ("<" + tag + ">" + b)) == a + Stripped(b)
  {
    var rest := "<" + tag + ">" + b;
    var end := |tag| + 1;
    PlainTextKept(a, rest, 0);
    assert rest[end] == '>' && forall q :: 0 < q < end ==> rest[q] == tag[q - 1];
    FirstBracket(rest, 0);
    assert rest[end + 1..] == b[0..];
    StrippedAlike(rest, end + 1, b, 0);
  }
}
