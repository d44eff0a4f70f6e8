// Placeholder substitution and rich-text stripping of notification_service.cc.
module Placeholders {
  import opened Options
  import opened StrUtils
  import Decimal

  // std::string::find for a nonempty pattern.
  function Find(text: string, pattern: string, from: nat): (position: Option<nat>)
    requires pattern != []
    ensures position.Some? ==> from <= position.value && position.value + |pattern| <= |text|
    decreases |text| - from
  {
    if from + |pattern| > |text| then None
    else if MatchAt(text, pattern, from) then Some(from)
    else Find(text, pattern, from + 1)
  }

  predicate MatchAt(text: string, pattern: string, p: nat) {
    p + |pattern| <= |text| && forall k :: 0 <= k < |pattern| ==> pattern[k] == text[p + k]
  }

  // A result of the search is the first occurrence, and no result means that there is none.
  lemma {:induction false} FindFirst(text: string, pattern: string, from: nat)
    requires pattern != []
    ensures Find(text, pattern, from).Some? ==> MatchAt(text, pattern, Find(text, pattern, from).value)
    ensures var position := Find(text, pattern, from);
            forall p :: from <= p && MatchAt(text, pattern, p) ==>
              position.Some? && position.value <= p
    decreases |text| - from
  {
    if from + |pattern| <= |text| && !MatchAt(text, pattern, from) {
      FindFirst(text, pattern, from + 1);
    }
  }

  lemma FindIs(text: string, pattern: string, from: nat, p: nat)
    requires pattern != [] && from <= p && MatchAt(text, pattern, p)
    requires forall q :: from <= q < p ==> !MatchAt(text, pattern, q)
    ensures Find(text, pattern, from) == Some(p)
  {
    FindFirst(text, pattern, from);
  }

  predicate Usable(value: Option<string>) {
    value.Some? && value.value != []
  }

  function Prefix(index: nat): (s: string)
    ensures |s| >= 2 && s[0] == '{' && s[1..] == Decimal.Numeral(index)
  {
    "{" + Decimal.Numeral(index)
  }

  function Zeros(n: nat): (s: string)
    ensures |s| == n
  {
    seq(n, i => '0')
  }

  predicate AllZeros(format: string) {
    forall k :: 0 <= k < |format| ==> format[k] == '0'
  }

  // A format of zeros only, longer than the value, pads the value to its own length.
  function Padded(value: string, format: string): (s: string)
    ensures |value| <= |s| <= if |format| > |value| then |format| else |value|
  {
    if |value| < |format| && AllZeros(format) then Zeros(|format| - |value|) + value else value
  }

  // The text after the occurrence at pos, closed by the brace at end, has been looked at.
  function Edited(text: string, pos: nat, suffix: nat, end: nat, value: string): (r: string)
    requires pos < suffix <= end < |text| && value != []
    ensures |r| - (pos + |value|) < |text| - pos
  {
    if suffix == end then text[..pos] + value + text[end + 1..]
    else if text[suffix] != ':' then text
    else text[..pos] + Padded(value, text[suffix + 1..end]) + text[end + 1..]
  }

  // One round of the search: the edited text and where to search next, if the search goes on.
  function Round(text: string, from: nat, prefix: string, value: string): (next: Option<(string, nat)>)
    requires prefix != [] && value != []
    ensures next.Some? ==> Left(next.value.0, next.value.1) < Left(text, from)
  {
    var position := Find(text, prefix, from);
    if position.None? then None else
      var suffix := position.value + |prefix|;
      RoundAt(text, position.value, suffix, Find(text, "}", suffix), value)
  }

  function RoundAt(text: string, pos: nat, suffix: nat, end: Option<nat>, value: string)
    : (next: Option<(string, nat)>)
    requires pos < suffix <= |text| && (end.Some? ==> suffix <= end.value < |text|) && value != []
    ensures next.Some? ==> Left(next.value.0, next.value.1) < |text| - pos
  {
    if end.None? then None else Some((Edited(text, pos, suffix, end.value, value), pos + |value|))
  }

  function Left(text: string, from: nat): nat {
    if from <= |text| then |text| - from else 0
  }

  // What one value makes of the text from a position on.
  function ReplaceFrom(text: string, from: nat, prefix: string, value: string): string
    requires prefix != [] && value != []
    decreases Left(text, from)
  {
    match Round(text, from, prefix, value)
    case None => text
    case Some((next, position)) => ReplaceFrom(next, position, prefix, value)
  }

  function FormatFrom(text: string, values: seq<Option<string>>, i: nat): string
    requires i <= |values|
    decreases |values| - i
  {
    if i == |values| then text
    else FormatFrom(if Usable(values[i]) then ReplaceFrom(text, 0, Prefix(i), values[i].value) else text, values, i + 1)
  }

  // The in-place editing. The rest of the text after the search position shrinks with every
  // edit, even where zero padding makes the text itself longer.
  method FormatWithArray(template: string, values: seq<Option<string>>) returns (result: string)
    ensures result == FormatFrom(template, values, 0)
  {
    result := template;
    for i := 0 to |values|
      invariant FormatFrom(result, values, i) == FormatFrom(template, values, 0)
    {
      if Usable(values[i]) {
        result := ReplaceAll(result, Prefix(i), values[i].value);
      }
    }
  }

  method ReplaceAll(text: string, prefix: string, value: string) returns (result: string)
    requires prefix != [] && value != []
    ensures result == ReplaceFrom(text, 0, prefix, value)
  {
    result := text;
    var from: nat := 0;
    while true
      invariant ReplaceFrom(result, from, prefix, value) == ReplaceFrom(text, 0, prefix, value)
      decreases Left(result, from)
    {
      var next := ReplaceNext(result, from, prefix, value);
      if next.None? {
        break;
      }
      result, from := next.value.0, next.value.1;
    }
  }

  method ReplaceNext(text: string, from: nat, prefix: string, value: string) returns (next: Option<(string, nat)>)
    requires prefix != [] && value != []
    ensures next == Round(text, from, prefix, value)
  {
    var position := Find(text, prefix, from);
    if position.None? {
      return None;
    }
    var suffix := position.value + |prefix|;
    var end := Find(text, "}", suffix);
    next := ReplaceAt(text, position.value, suffix, end, value);
  }

  method ReplaceAt(text: string, pos: nat, suffix: nat, end: Option<nat>, value: string)
    returns (next: Option<(string, nat)>)
    requires pos < suffix <= |text| && (end.Some? ==> suffix <= end.value < |text|) && value != []
    ensures next == RoundAt(text, pos, suffix, end, value)
  {
    if end.None? {
      return None;
    }
    var result := Edit(text, pos, suffix, end.value, value);
    next := Some((result, pos + |value|));
  }

  method Edit(text: string, pos: nat, suffix: nat, end: nat, value: string) returns (result: string)
    requires pos < suffix <= end < |text| && value != []
    ensures result == Edited(text, pos, suffix, end, value)
  {
    var replacement := value;
    if suffix != end {
      if text[suffix] != ':' {
        return text;
      }
      var format := text[suffix + 1..end];
      if format != [] && AllZeros(format) && |replacement| < |format| {
        replacement := Zeros(|format| - |replacement|) + replacement;
      }
    }
    result := text[..pos] + replacement + text[end + 1..];
  }

  // ---- Templates with well-formed placeholders ----

  // Literal text, or a placeholder {name} or {name:format}.
  datatype Segment = Lit(text: string) | Hole(name: string, format: Option<string>)

  ghost predicate WellFormed(seg: Segment) {
    match seg
    case Lit(text) => Without(text, '{')
    case Hole(name, format) =>
      && Without(name, '{') && Without(name, '}') && Without(name, ':')
      && (format.Some? ==> Without(format.value, '{') && Without(format.value, '}'))
  }

  ghost predicate AllWellFormed(segs: seq<Segment>) {
    forall seg :: seg in segs ==> WellFormed(seg)
  }

  function Text(seg: Segment): string {
    match seg
    case Lit(text) => text
    case Hole(name, format) => "{" + name + (if format.Some? then ":" + format.value else "") + "}"
  }

  function Render(segs: seq<Segment>): string {
    if segs == [] then "" else Text(segs[0]) + Render(segs[1..])
  }

  function Fill(seg: Segment, name: string, value: string): Segment {
    if seg.Hole? && seg.name == name
    then Lit(if seg.format.Some? then Padded(value, seg.format.value) else value) else seg
  }

  // How far the search of one value has got beyond the text of a segment: it resumes a value's
  // length after each occurrence of the prefix, also after one that it leaves alone.
  function SkipAfter(seg: Segment, skip: nat, name: string, length: nat): nat {
    var size := |Text(seg)|;
    if seg.Hole? && skip == 0 then
      if seg.name == name || !(name <= seg.name) || length <= size then 0 else length - size
    else if skip <= size then 0 else skip - size
  }

  // Whether the search for one value jumps over a placeholder of that value.
  predicate JumpsOver(segs: seq<Segment>, skip: nat, name: string, length: nat) {
    segs != [] &&
    ((segs[0].Hole? && segs[0].name == name && skip > 0)
     || JumpsOver(segs[1..], SkipAfter(segs[0], skip, name, length), name, length))
  }

  // ---- One value: editing the text fills the placeholders that are not jumped over ----

  function Done(seg: Segment, skip: nat, name: string, value: string): Segment {
    if skip == 0 then Fill(seg, name, value) else seg
  }

  function Pass(segs: seq<Segment>, skip: nat, name: string, value: string): (r: seq<Segment>)
    ensures |r| == |segs|
  {
    if segs == [] then [] else
      [Done(segs[0], skip, name, value)] +
      Pass(segs[1..], SkipAfter(segs[0], skip, name, |value|), name, value)
  }

  lemma SkipTo(text: string, from: nat, to: nat, prefix: string, value: string)
    requires prefix != [] && value != [] && from <= to
    requires Find(text, prefix, from) == Find(text, prefix, to)
    ensures ReplaceFrom(text, from, prefix, value) == ReplaceFrom(text, to, prefix, value)
  {
    RoundFrom(text, from, to, prefix, value);
  }

  lemma RoundFrom(text: string, from: nat, to: nat, prefix: string, value: string)
    requires prefix != [] && value != []
    requires Find(text, prefix, from) == Find(text, prefix, to)
    ensures Round(text, from, prefix, value) == Round(text, to, prefix, value)
  {
  }

  lemma {:induction false} FindFrom(text: string, from: nat, to: nat, pattern: string)
    requires pattern != [] && from <= to
    requires forall p :: from <= p < to ==> !MatchAt(text, pattern, p)
    ensures Find(text, pattern, from) == Find(text, pattern, to)
    decreases (to as int) - from
  {
    if from < to {
      assert !MatchAt(text, pattern, from);
      FindFrom(text, from + 1, to, pattern);
    }
  }

  lemma MatchedChar(text: string, pattern: string, p: nat, k: nat)
    requires MatchAt(text, pattern, p) && k < |pattern|
    ensures text[p + k] == pattern[k]
  {
  }

  // The name searched for: it holds neither a brace nor a colon.
  ghost predicate Plain(name: string) {
    Without(name, '{') && Without(name, '}') && Without(name, ':')
  }

  // The text of a placeholder, character by character.
  lemma HoleText(seg: Segment)
    requires seg.Hole? && WellFormed(seg)
    ensures |Text(seg)| == |seg.name| + 2 + if seg.format.Some? then |seg.format.value| + 1 else 0
    ensures Text(seg)[0] == '{' && forall k :: 0 < k < |Text(seg)| ==> Text(seg)[k] != '{'
    ensures Text(seg)[|Text(seg)| - 1] == '}' && forall k :: 0 <= k < |Text(seg)| - 1 ==> Text(seg)[k] != '}'
    ensures Text(seg)[1..1 + |seg.name|] == seg.name
    ensures seg.format.Some? ==>
              Text(seg)[1 + |seg.name|] == ':' && Text(seg)[2 + |seg.name|..|Text(seg)| - 1] == seg.format.value
  {
  }

  // A placeholder is found at its opening brace exactly when its name starts with the one
  // searched for.
  lemma HoleMatches(pre: string, seg: Segment, post: string, name: string, text: string, pattern: string)
    requires seg.Hole? && WellFormed(seg) && Plain(name) && text == pre + Text(seg) + post && pattern == "{" + name
    ensures MatchAt(text, pattern, |pre|) <==> name <= seg.name
  {
    HoleText(seg);
    assert forall k :: 0 <= k < |Text(seg)| ==> Text(seg)[k] == text[|pre| + k];
    assert forall k :: 0 <= k < |seg.name| ==> seg.name[k] == Text(seg)[1 + k];
    var mark := 1 + |seg.name|;
    assert mark < |pattern| ==> pattern[mark] == name[mark - 1] != text[|pre| + mark];
    if MatchAt(text, pattern, |pre|) {
      assert |name| <= |seg.name|;
      forall k | 0 <= k < |name|
        ensures name[k] == seg.name[k]
      {
        assert pattern[1 + k] == text[|pre| + (1 + k)];
      }
    }
  }

  lemma ClosingBrace(pre: string, seg: Segment, post: string, suffix: nat, text: string, end: nat)
    requires seg.Hole? && WellFormed(seg) && text == pre + Text(seg) + post
    requires |pre| <= suffix <= end == |pre| + |Text(seg)| - 1
    ensures Find(text, "}", suffix) == Some(end)
  {
    HoleText(seg);
    assert text[end] == Text(seg)[end - |pre|];
    forall q | suffix <= q < end
      ensures !MatchAt(text, "}", q)
    {
      assert text[q] == Text(seg)[q - |pre|];
    }
    FindIs(text, "}", suffix, end);
  }

  // Where the name searched for starts a placeholder's name, the placeholder is filled if the
  // names agree and left alone otherwise.
  lemma EditedHole(pre: string, seg: Segment, post: string, name: string, value: string,
                   text: string, text': string, suffix: nat, end: nat)
    requires seg.Hole? && WellFormed(seg) && name <= seg.name && value != []
    requires text == pre + Text(seg) + post && text' == pre + Text(Fill(seg, name, value)) + post
    requires |pre| < suffix == |pre| + 1 + |name| <= end == |pre| + |Text(seg)| - 1
    ensures Edited(text, |pre|, suffix, end, value) == text'
  {
    AroundHole(pre, seg, post, text, end);
    if seg.name != name {
      OtherName(pre, seg, post, name, text);
    } else {
      HoleFormat(pre, seg, post, text, suffix, end);
    }
  }

  lemma AroundHole(pre: string, seg: Segment, post: string, text: string, end: nat)
    requires seg.Hole? && text == pre + Text(seg) + post && end == |pre| + |Text(seg)| - 1
    ensures text[..|pre|] == pre && text[end + 1..] == post
  {
  }

  lemma OtherName(pre: string, seg: Segment, post: string, name: string, text: string)
    requires seg.Hole? && WellFormed(seg) && name < seg.name && text == pre + Text(seg) + post
    ensures 1 + |name| < |Text(seg)| - 1 && text[|pre| + 1 + |name|] != ':'
  {
    HoleText(seg);
    assert Text(seg)[1..1 + |seg.name|][|name|] == seg.name[|name|];
  }

  lemma HoleFormat(pre: string, seg: Segment, post: string, text: string, suffix: nat, end: nat)
    requires seg.Hole? && WellFormed(seg) && text == pre + Text(seg) + post
    requires suffix == |pre| + 1 + |seg.name| && end == |pre| + |Text(seg)| - 1
    ensures seg.format.None? ==> suffix == end
    ensures seg.format.Some? ==> suffix < end && text[suffix] == ':' && text[suffix + 1..end] == seg.format.value
  {
    HoleText(seg);
    if seg.format.Some? {
      assert text[suffix + 1..end] == Text(seg)[2 + |seg.name|..|Text(seg)| - 1];
    }
  }

  // No opening brace from a position on.
  ghost predicate Clear(pre: string, from: nat) {
    forall p :: from <= p < |pre| ==> pre[p] != '{'
  }

  lemma NoMatchIn(pre: string, text: string, from: nat, pattern: string)
    requires pattern != [] && pattern[0] == '{' && Clear(pre, from) && pre <= text
    ensures forall p :: from <= p < |pre| ==> !MatchAt(text, pattern, p)
  {
    forall p | from <= p < |pre|
      ensures !MatchAt(text, pattern, p)
    {
      assert text[p] == pre[p];
    }
  }

  // A text without a further opening brace stays as it is.
  lemma NothingFound(pre: string, from: nat, prefix: string, value: string)
    requires prefix != [] && prefix[0] == '{' && value != [] && Clear(pre, from)
    ensures ReplaceFrom(pre, from, prefix, value) == pre
  {
    FindFirst(pre, prefix, from);
    if Find(pre, prefix, from).Some? {
      MatchedChar(pre, prefix, Find(pre, prefix, from).value, 0);
    }
  }

  lemma FindHole(pre: string, seg: Segment, post: string, from: nat, name: string, text: string, prefix: string)
    requires seg.Hole? && WellFormed(seg) && Plain(name) && name <= seg.name && from <= |pre| && Clear(pre, from)
    requires text == pre + Text(seg) + post && prefix == "{" + name
    ensures Find(text, prefix, from) == Some(|pre|)
  {
    HoleMatches(pre, seg, post, name, text, prefix);
    NoMatchIn(pre, text, from, prefix);
    FindIs(text, prefix, from, |pre|);
  }

  // The search reaches a placeholder whose name starts with the one searched for.
  lemma HoleFound(pre: string, seg: Segment, post: string, from: nat, name: string, value: string,
                  text: string, text': string, prefix: string, next: nat)
    requires seg.Hole? && WellFormed(seg) && Plain(name) && name <= seg.name && value != []
    requires from <= |pre| && Clear(pre, from) && prefix == "{" + name && next == |pre| + |value|
    requires text == pre + Text(seg) + post && text' == pre + Text(Fill(seg, name, value)) + post
    ensures ReplaceFrom(text, from, prefix, value) == ReplaceFrom(text', next, prefix, value)
  {
    var suffix, end := |pre| + 1 + |name|, |pre| + |Text(seg)| - 1;
    assert suffix <= end by {
      HoleText(seg);
    }
    EditedHole(pre, seg, post, name, value, text, text', suffix, end);
    SearchOfHole(pre, seg, post, from, name, value, text, prefix, suffix, end);
    OneRound(text, from, prefix, value, |pre|, suffix, end, text', next);
  }

  lemma OneRound(text: string, from: nat, prefix: string, value: string, pos: nat, suffix: nat, end: nat,
                 text': string, next: nat)
    requires prefix != [] && value != [] && pos < suffix <= end < |text| && next == pos + |value|
    requires Round(text, from, prefix, value) == RoundAt(text, pos, suffix, Some(end), value)
    requires Edited(text, pos, suffix, end, value) == text'
    ensures ReplaceFrom(text, from, prefix, value) == ReplaceFrom(text', next, prefix, value)
  {
  }

  lemma SearchOfHole(pre: string, seg: Segment, post: string, from: nat, name: string, value: string,
                     text: string, prefix: string, suffix: nat, end: nat)
    requires seg.Hole? && WellFormed(seg) && Plain(name) && name <= seg.name && value != []
    requires from <= |pre| && Clear(pre, from) && prefix == "{" + name && text == pre + Text(seg) + post
    requires |pre| < suffix == |pre| + 1 + |name| <= end == |pre| + |Text(seg)| - 1
    ensures Round(text, from, prefix, value) == RoundAt(text, |pre|, suffix, Some(end), value)
  {
    FindHole(pre, seg, post, from, name, text, prefix);
    ClosingBrace(pre, seg, post, suffix, text, end);
    RoundParts(text, from, prefix, value, |pre|, suffix, end);
  }

  lemma RoundParts(text: string, from: nat, prefix: string, value: string, pos: nat, suffix: nat, end: nat)
    requires prefix != [] && value != [] && Find(text, prefix, from) == Some(pos)
    requires suffix == pos + |prefix| <= end < |text| && Find(text, "}", suffix) == Some(end)
    ensures Round(text, from, prefix, value) == RoundAt(text, pos, suffix, Some(end), value)
  {
  }

  lemma FindPassed(pre: string, seg: Segment, post: string, from: nat, name: string, text: string, prefix: string)
    requires seg.Hole? && WellFormed(seg) && Plain(name) && !(name <= seg.name)
    requires from <= |pre| && Clear(pre, from) && prefix == "{" + name && text == pre + Text(seg) + post
    ensures Find(text, prefix, from) == Find(text, prefix, |pre| + 1)
  {
    HoleMatches(pre, seg, post, name, text, prefix);
    NoMatchIn(pre, text, from, prefix);
    FindFrom(text, from, |pre| + 1, prefix);
  }

  // The search goes past a placeholder with another name.
  lemma HolePassed(pre: string, seg: Segment, post: string, from: nat, name: string, value: string,
                   text: string, prefix: string, next: nat)
    requires seg.Hole? && WellFormed(seg) && Plain(name) && !(name <= seg.name) && value != []
    requires from <= |pre| && Clear(pre, from) && prefix == "{" + name && next == |pre| + 1
    requires text == pre + Text(seg) + post
    ensures ReplaceFrom(text, from, prefix, value) == ReplaceFrom(text, next, prefix, value)
  {
    FindPassed(pre, seg, post, from, name, text, prefix);
    SkipTo(text, from, next, prefix, value);
  }

  function Ahead(pre: string, from: nat): nat {
    if from <= |pre| then 0 else from - |pre|
  }

  // Where the search stands after a segment, seen from the segment's end.
  function Resume(pre: string, seg: Segment, from: nat, name: string, value: string): nat {
    if seg.Lit? || from > |pre| then from
    else if name <= seg.name then |pre| + |value| else |pre| + 1
  }

  lemma FilledText(seg: Segment, name: string, value: string)
    requires seg.Hole? && seg.name == name && Without(value, '{')
    ensures Without(Text(Fill(seg, name, value)), '{') && |Text(Fill(seg, name, value))| >= |value|
  {
  }

  lemma ClearAfter(pre: string, seg: Segment, from: nat, name: string, value: string, pre': string, from': nat)
    requires WellFormed(seg) && value != [] && Without(value, '{') && Clear(pre, from)
    requires pre' == pre + Text(Done(seg, Ahead(pre, from), name, value))
    requires from' == Resume(pre, seg, from, name, value)
    ensures Clear(pre', from') && Ahead(pre', from') == SkipAfter(seg, Ahead(pre, from), name, |value|)
  {
    if seg.Hole? {
      HoleText(seg);
      if seg.name == name {
        FilledText(seg, name, value);
      }
    }
  }

  // One segment of the text has been dealt with.
  lemma SegmentDone(pre: string, seg: Segment, post: string, from: nat, name: string, value: string,
                    text: string, text': string, prefix: string, from': nat)
    requires WellFormed(seg) && Plain(name) && value != [] && Clear(pre, from) && prefix == "{" + name
    requires text == pre + Text(seg) + post
    requires text' == pre + Text(Done(seg, Ahead(pre, from), name, value)) + post
    requires from' == Resume(pre, seg, from, name, value)
    ensures ReplaceFrom(text, from, prefix, value) == ReplaceFrom(text', from', prefix, value)
  {
    if seg.Hole? && from <= |pre| {
      if name <= seg.name {
        HoleFound(pre, seg, post, from, name, value, text, text', prefix, from');
      } else {
        HolePassed(pre, seg, post, from, name, value, text, prefix, from');
      }
    }
  }

  // Editing a text from a position on fills exactly the placeholders that the search reaches.
  lemma {:induction false} PassOnText(pre: string, segs: seq<Segment>, from: nat, name: string, value: string,
                                      text: string, prefix: string)
    requires AllWellFormed(segs) && Plain(name) && value != [] && Without(value, '{') && Clear(pre, from)
    requires text == pre + Render(segs) && prefix == "{" + name
    ensures ReplaceFrom(text, from, prefix, value) == pre + Render(Pass(segs, Ahead(pre, from), name, value))
    decreases |segs|
  {
    if segs == [] {
      NothingFound(pre, from, prefix, value);
      assert text == pre == pre + Render([]);
    } else {
      var seg, rest, skip := segs[0], segs[1..], Ahead(pre, from);
      var done, from' := Done(seg, skip, name, value), Resume(pre, seg, from, name, value);
      var pre' := pre + Text(done);
      var text' := pre' + Render(rest);
      assert text == pre + Text(seg) + Render(rest);
      SegmentDone(pre, seg, Render(rest), from, name, value, text, text', prefix, from');
      ClearAfter(pre, seg, from, name, value, pre', from');
      PassOnText(pre', rest, from', name, value, text', prefix);
      PassRendered(pre, segs, skip, name, value);
    }
  }

  lemma PassRendered(pre: string, segs: seq<Segment>, skip: nat, name: string, value: string)
    requires segs != []
    ensures pre + Render(Pass(segs, skip, name, value))
         == pre + Text(Done(segs[0], skip, name, value))
            + Render(Pass(segs[1..], SkipAfter(segs[0], skip, name, |value|), name, value))
  {
    var passed, rest := Pass(segs, skip, name, value), Pass(segs[1..], SkipAfter(segs[0], skip, name, |value|), name, value);
    assert passed == [Done(segs[0], skip, name, value)] + rest && passed[1..] == rest;
  }
}
