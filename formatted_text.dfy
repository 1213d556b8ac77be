/**
 * The `**bold**` markup of src/components/FormattedText.tsx: `renderTextContent`
 * scans the text with a global regular expression (two asterisks, a lazy group
 * of any characters but line terminators, two asterisks) and cuts it into plain
 * runs and bold spans.
 */
module FormattedText {
  import opened Wrappers
  import opened JsText

  /** A plain run keeps its newlines; a bold part holds the text between the markers. */
  datatype Part = Plain(text: string) | Bold(content: string)

  /** The text a part was cut from: bold content goes back between its `**` markers. */
  function Source(part: Part): string {
    match part
    case Plain(t) => t
    case Bold(c) => "**" + c + "**"
  }

  /** The text the parts were cut from, in order. */
  function Render(parts: seq<Part>): string {
    if parts == [] then [] else Source(parts[0]) + Render(parts[1..])
  }

  /** A `**` starts at index `i` of `text`. */
  predicate StarsAt(text: string, i: int) {
    0 <= i && i + 1 < |text| && text[i] == '*' && text[i + 1] == '*'
  }

  /**
   * Lazy `(.*?)\*\*` run from index `i` succeeds and ends at `e`: `text[e-2..e]`
   * is `**`, and before it no line terminator (which `.` refuses) and no earlier
   * `**` (where the lazy group would have stopped).
   */
  predicate ClosesAt(text: string, i: int, e: int) {
    && 0 <= i && i + 2 <= e <= |text|
    && StarsAt(text, e - 2)
    && forall j :: i <= j < e - 2 ==> LazyStep(text, j)
  }

  /** `.` consumes `text[j]` and the lazy group does not stop there. */
  predicate LazyStep(text: string, j: int) {
    0 <= j < |text| && !IsLineTerminator(text[j]) && !StarsAt(text, j)
  }

  /** The regular expression matches exactly `text[s..e]`. */
  predicate IsBoldAt(text: string, s: int, e: int) {
    StarsAt(text, s) && ClosesAt(text, s + 2, e)
  }

  /** Where the lazy group started at `i` closes, if it does. */
  function CloseFrom(text: string, i: nat): (r: Option<nat>)
    decreases |text| - i
    ensures r.Some? ==> ClosesAt(text, i, r.value)
    ensures r.None? ==> forall e :: !ClosesAt(text, i, e)
  {
    if i + 2 > |text| then None
    else if StarsAt(text, i) then Some(i + 2)
    else if IsLineTerminator(text[i]) then
      assert !LazyStep(text, i);
      None
    else
      var r := CloseFrom(text, i + 1);
      assert forall e :: ClosesAt(text, i, e) ==> ClosesAt(text, i + 1, e);
      r
  }

  /** The lazy group closes at one place at most. */
  lemma CloseIsUnique(text: string, i: int, e1: int, e2: int)
    requires ClosesAt(text, i, e1) && ClosesAt(text, i, e2)
    ensures e1 == e2
  {
    assert e1 < e2 ==> LazyStep(text, e1 - 2);
    assert e2 < e1 ==> LazyStep(text, e2 - 2);
  }

  /**
   * `boldRegex.exec(text)` with `lastIndex == from`: the leftmost match that
   * starts at or after `from`, as (start, end).
   */
  function NextMatch(text: string, from: nat): (m: Option<(nat, nat)>)
    decreases |text| - from
    ensures m.Some? ==> from <= m.value.0 && m.value.0 + 4 <= m.value.1 <= |text|
    ensures m.Some? ==> StarsAt(text, m.value.0) && StarsAt(text, m.value.1 - 2)
  {
    if from + 2 > |text| then None
    else
      var close := CloseFrom(text, from + 2);
      if StarsAt(text, from) && close.Some? then Some((from, close.value))
      else NextMatch(text, from + 1)
  }

  /**
   * The match `exec` finds is a match of the regular expression, and the
   * leftmost one at or after `from`; no match at all means the regular
   * expression matches nowhere from `from` on.
   */
  lemma {:induction false} NextMatchIsLeftmost(text: string, from: nat)
    decreases |text| - from
    ensures var m := NextMatch(text, from);
      m.Some? ==> IsBoldAt(text, m.value.0, m.value.1)
    ensures var m := NextMatch(text, from);
      m.Some? ==> forall s, e :: from <= s < m.value.0 ==> !IsBoldAt(text, s, e)
    ensures NextMatch(text, from).None? ==> forall s, e :: from <= s ==> !IsBoldAt(text, s, e)
  {
    if from + 2 <= |text| {
      var close := CloseFrom(text, from + 2);
      if !(StarsAt(text, from) && close.Some?) {
        NextMatchIsLeftmost(text, from + 1);
      }
    }
  }

  /** A part the scan can produce: plain runs are never empty, bold content is one lazy line. */
  predicate WellFormed(part: Part) {
    match part
    case Plain(t) => t != []
    case Bold(c) =>
      && (forall j :: 0 <= j < |c| ==> !IsLineTerminator(c[j]))
      && (forall j :: 0 <= j < |c| ==> !StarsAt(c, j))
  }

  /** The parts of `text[last..]`, as the loop produces them from `lastIndex == last`. */
  function Scan(text: string, last: nat): (parts: seq<Part>)
    requires last <= |text|
    decreases |text| - last
  {
    match NextMatch(text, last)
    case None => if last < |text| then [Plain(text[last..])] else []
    case Some((s, e)) =>
      (if s > last then [Plain(text[last..s])] else []) + [Bold(text[s + 2..e - 2])] + Scan(text, e)
  }

  /** One step of the scan, when a match `(s, e)` is found from `last`. */
  lemma ScanStep(text: string, last: nat, s: nat, e: nat)
    requires last <= |text| && NextMatch(text, last) == Some((s, e))
    ensures last <= s && s + 4 <= e <= |text|
    ensures Scan(text, last) ==
      (if s > last then [Plain(text[last..s])] else []) + [Bold(text[s + 2..e - 2])] + Scan(text, e)
  {
  }

  /** The content of a match is one lazy line. */
  lemma MatchContentWellFormed(text: string, s: nat, e: nat)
    requires IsBoldAt(text, s, e)
    ensures WellFormed(Bold(text[s + 2..e - 2]))
  {
    var c := text[s + 2..e - 2];
    forall j | 0 <= j < |c|
      ensures !IsLineTerminator(c[j]) && !StarsAt(c, j)
    {
      assert LazyStep(text, s + 2 + j);
    }
  }

  /** Every part the scan produces is well formed. */
  lemma {:induction false} ScanWellFormed(text: string, last: nat)
    requires last <= |text|
    decreases |text| - last
    ensures forall i :: 0 <= i < |Scan(text, last)| ==> WellFormed(Scan(text, last)[i])
  {
    match NextMatch(text, last)
    case None =>
    case Some((s, e)) =>
      ScanStep(text, last, s, e);
      NextMatchIsLeftmost(text, last);
      MatchContentWellFormed(text, s, e);
      ScanWellFormed(text, e);
  }

  /** The parts `renderTextContent` returns for `text`. */
  function Tokens(text: string): seq<Part> {
    Scan(text, 0)
  }

  /** `renderTextContent`: the exec loop with its `lastIndex` cursor. */
  method RenderTextContent(text: string) returns (parts: seq<Part>)
    ensures parts == Tokens(text)
    ensures Render(parts) == text
    ensures forall i :: 0 <= i < |parts| ==> WellFormed(parts[i])
  {
    parts := [];
    var lastIndex: nat := 0;
    var m := NextMatch(text, lastIndex);
    ghost var all := Scan(text, 0);
    while m.Some?
      invariant lastIndex <= |text|
      invariant m == NextMatch(text, lastIndex)
      invariant parts + Scan(text, lastIndex) == all
      decreases |text| - lastIndex
    {
      var (index, end) := m.value;
      ghost var done := parts;
      ghost var rest := Scan(text, end);
      ScanStep(text, lastIndex, index, end);
      ghost var step := (if index > lastIndex then [Plain(text[lastIndex..index])] else []) + [Bold(text[index + 2..end - 2])];
      assert Scan(text, lastIndex) == step + rest;
      if index > lastIndex {
        parts := parts + [Plain(text[lastIndex..index])];
      }
      parts := parts + [Bold(text[index + 2..end - 2])];
      assert parts == done + step;
      AppendAssoc(done, step, rest);
      lastIndex := end;
      m := NextMatch(text, lastIndex);
    }
    ghost var done := parts;
    ScanEnd(text, lastIndex);
    if lastIndex < |text| {
      parts := parts + [Plain(text[lastIndex..])];
    }
    assert parts == Tokens(text);
    TokensRoundTrip(text);
    ScanWellFormed(text, 0);
  }

  lemma AppendAssoc<T>(a: seq<T>, b: seq<T>, c: seq<T>)
    ensures a + b + c == a + (b + c)
  {
  }

  /** The last step of the scan, when no match is left from `last`. */
  lemma ScanEnd(text: string, last: nat)
    requires last <= |text| && NextMatch(text, last).None?
    ensures Scan(text, last) == if last < |text| then [Plain(text[last..])] else []
  {
  }

  lemma {:induction false} RenderAppend(a: seq<Part>, b: seq<Part>)
    ensures Render(a + b) == Render(a) + Render(b)
  {
    if a == [] {
      assert a + b == b;
    } else {
      assert (a + b)[0] == a[0];
      assert (a + b)[1..] == a[1..] + b;
      RenderAppend(a[1..], b);
    }
  }

  /** A match re-wrapped in its markers is the matched text. */
  lemma MatchSource(text: string, s: nat, e: nat)
    requires s + 4 <= e <= |text| && StarsAt(text, s) && StarsAt(text, e - 2)
    ensures Source(Bold(text[s + 2..e - 2])) == text[s..e]
  {
    assert text[s..s + 2] == "**";
    assert text[e - 2..e] == "**";
    assert text[s..e] == text[s..s + 2] + text[s + 2..e - 2] + text[e - 2..e];
  }

  lemma RenderSingle(p: Part)
    ensures Render([p]) == Source(p)
  {
    assert [p][1..] == [];
  }

  lemma RenderAppend3(a: seq<Part>, b: seq<Part>, c: seq<Part>)
    ensures Render(a + b + c) == Render(a) + Render(b) + Render(c)
  {
    RenderAppend(a + b, c);
    RenderAppend(a, b);
  }

  lemma SliceJoin3<T>(xs: seq<T>, a: nat, b: nat, c: nat)
    requires a <= b <= c <= |xs|
    ensures xs[a..] == xs[a..b] + xs[b..c] + xs[c..]
  {
  }

  /**
   * One step of the scan, followed by parts that render back to `text[e..]`,
   * renders back to `text[last..]`.
   */
  lemma StepRoundTrip(text: string, last: nat, s: nat, e: nat, rest: seq<Part>)
    requires last <= s && s + 4 <= e <= |text| && StarsAt(text, s) && StarsAt(text, e - 2)
    requires Render(rest) == text[e..]
    ensures Render((if s > last then [Plain(text[last..s])] else []) + [Bold(text[s + 2..e - 2])] + rest) ==
      text[last..]
  {
    var pre := if s > last then [Plain(text[last..s])] else [];
    RenderAppend3(pre, [Bold(text[s + 2..e - 2])], rest);
    if s > last {
      RenderSingle(Plain(text[last..s]));
    } else {
      assert text[last..s] == [];
    }
    RenderSingle(Bold(text[s + 2..e - 2]));
    MatchSource(text, s, e);
    SliceJoin3(text, last, s, e);
  }

  /** Re-wrapping every bold part in `**` gives back `text[last..]` exactly. */
  lemma {:induction false} ScanRoundTrip(text: string, last: nat)
    requires last <= |text|
    decreases |text| - last
    ensures Render(Scan(text, last)) == text[last..]
  {
    match NextMatch(text, last)
    case None =>
      ScanEnd(text, last);
      if last < |text| {
        assert Render([Plain(text[last..])]) == text[last..] + Render([]);
      }
    case Some((s, e)) =>
      ScanStep(text, last, s, e);
      ScanRoundTrip(text, e);
      StepRoundTrip(text, last, s, e, Scan(text, e));
  }

  /** The round trip: concatenating the parts, bold ones re-wrapped, reproduces the input. */
  lemma TokensRoundTrip(text: string)
    ensures Render(Tokens(text)) == text
  {
    ScanRoundTrip(text, 0);
  }

  /** Text without a closed `**…**` pair is one plain part, or nothing when empty; and only such text is. */
  lemma NoMarkupIsOnePlainPart(text: string)
    ensures (forall s, e :: !IsBoldAt(text, s, e)) <==>
      Tokens(text) == (if text == [] then [] else [Plain(text)])
  {
    NextMatchIsLeftmost(text, 0);
    match NextMatch(text, 0)
    case None =>
    case Some((s, e)) =>
      var parts := Tokens(text);
      var pre := if s > 0 then [Plain(text[..s])] else [];
      assert parts[|pre|] == Bold(text[s + 2..e - 2]);
  }

  /** `"****"` is one bold part with empty content. */
  lemma FourStarsIsEmptyBold()
    ensures Tokens("****") == [Bold("")]
  {
    var text := "****";
    assert CloseFrom(text, 2) == Some(4);
    assert NextMatch(text, 0) == Some((0, 4));
    assert NextMatch(text, 4) == None;
    ScanStep(text, 0, 0, 4);
    ScanEnd(text, 4);
    assert text[2..2] == "";
  }
}
