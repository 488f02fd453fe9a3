/**
The marker-delimited block that the bridge keeps in Codex's configuration file:
where it is inserted, how it is replaced, and why nothing else changes.
*/
module PickerConfig {
  import opened Outcomes
  import opened Text

  const PICKER_BEGIN := "# >>> grok-codex-bridge picker begin >>>"
  const PICKER_END := "# <<< grok-codex-bridge picker end <<<"

  // ---------------------------------------------------------------------
  // Substring search
  // ---------------------------------------------------------------------

  ghost predicate OccursAt(p: string, s: string, k: int) {
    0 <= k && k + |p| <= |s| && s[k..k + |p|] == p
  }

  ghost predicate Free(p: string, s: string) {
    forall k :: !OccursAt(p, s, k)
  }

  /** Non-overlapping occurrences from the left. */
  function Count(p: string, s: string): nat
    requires p != ""
    decreases |s|
  {
    if |s| < |p| then 0
    else if p <= s then 1 + Count(p, s[|p|..])
    else Count(p, s[1..])
  }

  function Find(p: string, s: string): Option<nat>
    requires p != ""
    decreases |s|
  {
    if |s| < |p| then None
    else if p <= s then Some(0)
    else match Find(p, s[1..]) case None => None case Some(k) => Some(k + 1)
  }

  lemma OccursLater(p: string, s: string, d: nat, k: int)
    requires d <= |s|
    ensures 0 <= k ==> (OccursAt(p, s[d..], k) <==> OccursAt(p, s, k + d))
  {
    if 0 <= k && k + d + |p| <= |s| {
      assert s[d..][k..k + |p|] == s[k + d..k + d + |p|];
    }
  }

  lemma FreeSuffix(p: string, s: string, d: nat)
    requires Free(p, s) && d <= |s|
    ensures Free(p, s[d..])
  {
    forall k
      ensures !OccursAt(p, s[d..], k)
    {
      OccursLater(p, s, d, k);
    }
  }

  lemma {:induction false} FreeMeansNone(p: string, s: string)
    requires p != ""
    ensures Count(p, s) == 0 <==> Free(p, s)
    ensures Free(p, s) ==> Find(p, s).None?
    decreases |s|
  {
    if |s| >= |p| {
      if p <= s {
        assert OccursAt(p, s, 0);
      } else {
        FreeMeansNone(p, s[1..]);
        if Free(p, s) { FreeSuffix(p, s, 1); }
        if Free(p, s[1..]) {
          forall k
            ensures !OccursAt(p, s, k)
          {
            OccursLater(p, s, 1, k - 1);
            assert s[0..|p|] == s[..|p|];
          }
        }
      }
    }
  }

  lemma {:induction false} OnlyOccurrence(p: string, s: string, at: nat)
    requires p != "" && OccursAt(p, s, at) && forall k :: OccursAt(p, s, k) ==> k == at
    ensures Count(p, s) == 1 && Find(p, s) == Some(at)
    decreases |s|
  {
    assert s[0..|p|] == s[..|p|];
    if p <= s {
      assert OccursAt(p, s, 0);
      forall k
        ensures !OccursAt(p, s[|p|..], k)
      {
        OccursLater(p, s, |p|, k);
      }
      FreeMeansNone(p, s[|p|..]);
    } else {
      assert at != 0;
      OccursLater(p, s, 1, at - 1);
      forall k | OccursAt(p, s[1..], k)
        ensures k == at - 1
      {
        OccursLater(p, s, 1, k);
      }
      OnlyOccurrence(p, s[1..], at - 1);
    }
  }

  // ---------------------------------------------------------------------
  // The block
  // ---------------------------------------------------------------------

  /** Rust's debug rendering of a string, for the characters that need an escape in practice. */
  function EscapeChar(c: char): string {
    match c
    case '"' => "\\\""
    case '\\' => "\\\\"
    case '\n' => "\\n"
    case '\r' => "\\r"
    case '\t' => "\\t"
    case '\0' => "\\0"
    case _ => [c]
  }

  function Escape(s: string): string {
    if s == "" then "" else EscapeChar(s[0]) + Escape(s[1..])
  }

  /** Pieces of text, each followed by a quote or a line break. */
  function Join(pieces: seq<(string, char)>): string {
    if pieces == [] then "" else pieces[0].0 + [pieces[0].1] + Join(pieces[1..])
  }

  datatype Settings = Settings(catalog: string, bind: string, capability: string)

  function BaseUrl(bind: string): string {
    "http://" + bind + "/v1"
  }

  function Pieces(a: Settings): seq<(string, char)> {
    [("model_provider = ", '"'), ("grok_codex_picker", '"'), ("", '\n'),
     ("model_catalog_json = ", '"'), (Escape(a.catalog), '"'), ("", '\n'), ("", '\n'),
     ("[model_providers.grok_codex_picker]", '\n'),
     ("name = ", '"'), ("Grok Codex Picker Bridge", '"'), ("", '\n'),
     ("base_url = ", '"'), (Escape(BaseUrl(a.bind)), '"'), ("", '\n'),
     ("http_headers = { ", '"'), ("x-grok-caller-capability", '"'), (" = ", '"'), (Escape(a.capability), '"'),
     (" }", '\n'),
     ("wire_api = ", '"'), ("responses", '"'), ("", '\n'),
     ("requires_openai_auth = true", '\n'), ("supports_websockets = false", '\n'),
     ("request_max_retries = 0", '\n'), ("stream_max_retries = 0", '\n')]
  }

  function Body(a: Settings): string {
    Join(Pieces(a))
  }

  function Block(a: Settings): string {
    PICKER_BEGIN + "\n" + Body(a) + PICKER_END + "\n"
  }

  // ---------------------------------------------------------------------
  // Where a new block goes
  // ---------------------------------------------------------------------

  /** The end of the line that starts at an offset, with its line break. */
  function LineEnd(s: string, offset: nat): (end: nat)
    requires offset < |s|
    ensures offset < end <= |s|
    ensures end == |s| || s[end - 1] == '\n'
    ensures forall k :: offset <= k < end - 1 ==> s[k] != '\n'
    decreases |s| - offset
  {
    if s[offset] == '\n' || offset + 1 == |s| then offset + 1 else LineEnd(s, offset + 1)
  }

  /**
  The line at an offset looks like a table header: its first non-blank character is a bracket.
  A line inside a multi-line array or string can look like one too.
  */
  predicate HeaderAt(s: string, offset: nat)
    requires offset < |s|
  {
    "[" <= TrimStart(s[offset..LineEnd(s, offset)])
  }

  /** A bracket stands on the line, with nothing but blanks before it. */
  ghost predicate BracketAt(s: string, offset: nat, end: nat)
    requires end <= |s|
  {
    exists j :: offset <= j < end && s[j] == '[' && forall i :: offset <= i < j ==> IsWhitespace(s[i])
  }

  lemma {:induction false} TrimmedStart(s: string)
    ensures "[" <= TrimStart(s) <==> BracketAt(s, 0, |s|)
  {
    if s != "" {
      TrimmedStart(s[1..]);
      if IsWhitespace(s[0]) {
        assert s[0] != '[';
        if j :| 0 <= j < |s| && s[j] == '[' && forall i :: 0 <= i < j ==> IsWhitespace(s[i]) {
          assert s[1..][j - 1] == '[' && forall i :: 0 <= i < j - 1 ==> s[1..][i] == s[i + 1];
        }
        if j :| 0 <= j < |s[1..]| && s[1..][j] == '[' && forall i :: 0 <= i < j ==> IsWhitespace(s[1..][i]) {
          assert s[j + 1] == '[' && forall i :: 1 <= i < j + 1 ==> s[i] == s[1..][i - 1];
        }
      }
    }
  }

  lemma HeaderAtIff(s: string, offset: nat)
    requires offset < |s|
    ensures HeaderAt(s, offset) <==> BracketAt(s, offset, LineEnd(s, offset))
  {
    var end := LineEnd(s, offset);
    var line := s[offset..end];
    TrimmedStart(line);
    if j :| offset <= j < end && s[j] == '[' && forall i :: offset <= i < j ==> IsWhitespace(s[i]) {
      assert line[j - offset] == '[' && forall i :: 0 <= i < j - offset ==> line[i] == s[i + offset];
    }
    if j :| 0 <= j < |line| && line[j] == '[' && forall i :: 0 <= i < j ==> IsWhitespace(line[i]) {
      assert s[j + offset] == '[' && forall i :: offset <= i < j + offset ==> s[i] == line[i - offset];
    }
  }

  /** The first line whose first non-blank character is a bracket, or the end of the text. */
  function InsertionFrom(s: string, offset: nat): (n: nat)
    requires offset <= |s|
    ensures offset <= n <= |s|
    decreases |s| - offset
  {
    if offset == |s| then offset
    else if HeaderAt(s, offset) then offset
    else InsertionFrom(s, LineEnd(s, offset))
  }

  predicate LineStart(s: string, k: int) {
    0 <= k < |s| && (k == 0 || s[k - 1] == '\n')
  }

  /**
  The insertion point is the start of the first line whose first non-blank character is a bracket,
  or the end of the text; everything above stays above the block.
  */
  lemma {:induction false} InsertionIsFirstHeader(s: string, offset: nat)
    requires offset <= |s| && (offset == |s| || LineStart(s, offset))
    ensures var n := InsertionFrom(s, offset);
            && (n < |s| ==> LineStart(s, n) && BracketAt(s, n, LineEnd(s, n)))
            && (forall k :: offset <= k < n && LineStart(s, k) ==> !BracketAt(s, k, LineEnd(s, k)))
    decreases |s| - offset
  {
    hide HeaderAt, BracketAt;
    if offset < |s| {
      HeaderAtIff(s, offset);
      if !HeaderAt(s, offset) { InsertionIsFirstHeader(s, LineEnd(s, offset)); }
    }
  }

  method FindInsertion(source: string) returns (insertion: nat)
    ensures insertion == InsertionFrom(source, 0)
  {
    insertion := |source|;
    var offset := 0;
    while offset < |source|
      invariant 0 <= offset <= |source|
      invariant insertion == |source|
      invariant InsertionFrom(source, 0) == InsertionFrom(source, offset)
    {
      var end := LineEnd(source, offset);
      if "[" <= TrimStart(source[offset..end]) {
        insertion := offset;
        break;
      }
      offset := end;
    }
  }

  // ---------------------------------------------------------------------
  // Rendering
  // ---------------------------------------------------------------------

  function MarkerCount(source: string): nat {
    var begins, ends := Count(PICKER_BEGIN, source), Count(PICKER_END, source);
    if begins == 0 && ends == 0 then 0 else if begins == 1 && ends == 1 then 1 else 2
  }

  /** The span of a block, from its begin marker to the line break after its end marker. */
  function BlockSpan(source: string): Option<(nat, nat)> {
    match (Find(PICKER_BEGIN, source), Find(PICKER_END, source))
    case (Some(begin), Some(end)) =>
      var after := end + |PICKER_END|;
      Some((begin, if after < |source| && source[after] == '\n' then after + 1 else after))
    case _ => None
  }

  datatype RenderError = PickerConfigConflict

  lemma {:induction false} FoundInside(p: string, s: string)
    requires p != ""
    ensures Find(p, s).Some? ==> Find(p, s).value + |p| <= |s|
    decreases |s|
  {
    if |s| >= |p| && !(p <= s) { FoundInside(p, s[1..]); }
  }

  function Render(source: string, a: Settings): Result<string, RenderError> {
    var markers := MarkerCount(source);
    if markers > 1 then Err(PickerConfigConflict)
    else if markers == 1 then
      FoundInside(PICKER_BEGIN, source);
      FoundInside(PICKER_END, source);
      match BlockSpan(source)
      case None => Err(PickerConfigConflict)
      case Some(span) => Ok(source[..span.0] + Block(a) + source[span.1..])
    else
      var insertion := InsertionFrom(source, 0);
      Ok(source[..insertion] + Block(a) + source[insertion..])
  }

  method RenderPickerConfig(source: string, a: Settings) returns (r: Result<string, RenderError>)
    ensures r == Render(source, a)
  {
    var markers := MarkerCount(source);
    if markers > 1 {
      return Err(PickerConfigConflict);
    }
    if markers == 1 {
      FoundInside(PICKER_BEGIN, source);
      FoundInside(PICKER_END, source);
      var span := BlockSpan(source);
      if span.None? {
        return Err(PickerConfigConflict);
      }
      return Ok(source[..span.value.0] + Block(a) + source[span.value.1..]);
    }
    var insertion := FindInsertion(source);
    return Ok(source[..insertion] + Block(a) + source[insertion..]);
  }

  // ---------------------------------------------------------------------
  // Markers cannot form across a seam
  // ---------------------------------------------------------------------

  /** A marker starts with its only '#' and has no quote, backslash or line break. */
  ghost predicate IsMarker(p: string) {
    && p != "" && p[0] == '#'
    && (forall i :: 1 <= i < |p| ==> p[i] != '#')
    && '"' !in p && '\\' !in p && '\n' !in p
  }

  lemma Markers()
    ensures IsMarker(PICKER_BEGIN) && IsMarker(PICKER_END)
    ensures |PICKER_BEGIN| == 40 && |PICKER_END| == 38
    ensures PICKER_BEGIN[2] != PICKER_END[2]
  {
    BeginMarker();
    EndMarker();
  }

  lemma BeginMarker()
    ensures IsMarker(PICKER_BEGIN)
  {
    BeginHasOneHash();
    BeginLacks('"');
    BeginLacks('\\');
    BeginLacks('\n');
  }

  lemma BeginHasOneHash()
    ensures forall i :: 1 <= i < |PICKER_BEGIN| ==> PICKER_BEGIN[i] != '#'
  {
  }

  lemma BeginLacks(c: char)
    requires c == '"' || c == '\\' || c == '\n'
    ensures c !in PICKER_BEGIN
  {
  }

  lemma EndMarker()
    ensures IsMarker(PICKER_END)
  {
    EndHasOneHash();
    EndLacks('"');
    EndLacks('\\');
    EndLacks('\n');
  }

  lemma EndHasOneHash()
    ensures forall i :: 1 <= i < |PICKER_END| ==> PICKER_END[i] != '#'
  {
  }

  lemma EndLacks(c: char)
    requires c == '"' || c == '\\' || c == '\n'
    ensures c !in PICKER_END
  {
  }

  lemma FreeShort(p: string, s: string)
    requires |s| < |p|
    ensures Free(p, s)
  {
  }

  lemma OccursInPrefix(p: string, x: string, y: string, k: int)
    ensures k + |p| <= |x| ==> (OccursAt(p, x + y, k) <==> OccursAt(p, x, k))
  {
    if 0 <= k && k + |p| <= |x| { assert (x + y)[k..k + |p|] == x[k..k + |p|]; }
  }

  lemma OccursChar(p: string, s: string, k: int, j: int)
    ensures OccursAt(p, s, k) && k <= j < k + |p| ==> s[j] == p[j - k]
  {
    if OccursAt(p, s, k) && k <= j < k + |p| { assert s[k..k + |p|][j - k] == s[j]; }
  }

  /** A character outside the marker separates: no occurrence can contain it. */
  lemma FreeAround(p: string, x: string, c: char, y: string)
    requires c !in p && Free(p, x) && Free(p, y)
    ensures Free(p, x + [c] + y)
  {
    var s := x + ([c] + y);
    assert x + [c] + y == s && s[|x| + 1..] == y && s[|x|] == c;
    forall k
      ensures !OccursAt(p, s, k)
    {
      OccursInPrefix(p, x, [c] + y, k);
      OccursChar(p, s, k, |x|);
      OccursLater(p, s, |x| + 1, k - |x| - 1);
    }
  }

  lemma {:induction false} FreeJoin(p: string, pieces: seq<(string, char)>)
    requires p != "" && forall i :: 0 <= i < |pieces| ==> pieces[i].1 !in p && Free(p, pieces[i].0)
    ensures Free(p, Join(pieces))
  {
    if pieces == [] {
      FreeShort(p, "");
    } else {
      FreeJoin(p, pieces[1..]);
      FreeAround(p, pieces[0].0, pieces[0].1, Join(pieces[1..]));
    }
  }

  /** A text without escapes in front of escaped text: the same text is in front of the original. */
  lemma {:induction false} PrefixOfEscaped(p: string, s: string)
    requires '\\' !in p && p <= Escape(s)
    ensures p <= s
  {
    if p != "" {
      assert s != "";
      var c := s[0];
      assert p[0] == Escape(s)[0] && p[0] in p;
      EscapeStarts(c);
      if EscapeChar(c) == [c] {
        assert Escape(s) == [c] + Escape(s[1..]);
        assert p[1..] <= Escape(s[1..]);
        PrefixOfEscaped(p[1..], s[1..]);
        assert p == [c] + p[1..] && s == [c] + s[1..];
      }
    }
  }

  lemma EscapeStarts(c: char)
    ensures EscapeChar(c) != [] && (EscapeChar(c) != [c] ==> EscapeChar(c)[0] == '\\')
  {
  }

  lemma OccursAtPrefix(p: string, s: string)
    ensures p <= s <==> OccursAt(p, s, 0)
  {
    if |p| <= |s| { assert s[0..|p|] == s[..|p|]; }
  }

  lemma {:induction false} FreeEscape(p: string, s: string)
    requires IsMarker(p) && Free(p, s)
    ensures Free(p, Escape(s))
  {
    if s == "" {
      FreeShort(p, "");
    } else {
      FreeSuffix(p, s, 1);
      FreeEscape(p, s[1..]);
      var c, rest := s[0], Escape(s[1..]);
      if EscapeChar(c) == [c] {
        OccursAtPrefix(p, s);
        OccursAtPrefix(p, Escape(s));
        if p <= Escape(s) { PrefixOfEscaped(p, s); }
        FreePush(p, c, rest);
      } else {
        var x := EscapeChar(c)[1];
        assert EscapeChar(c) == ['\\', x] && x != '#';
        FreeStart(p, x, rest);
        FreeStart(p, '\\', [x] + rest);
        assert Escape(s) == ['\\'] + ([x] + rest);
      }
    }
  }

  lemma FreePush(p: string, c: char, rest: string)
    requires Free(p, rest) && !OccursAt(p, [c] + rest, 0)
    ensures Free(p, [c] + rest)
  {
    assert ([c] + rest)[1..] == rest;
    forall k
      ensures !OccursAt(p, [c] + rest, k)
    {
      OccursLater(p, [c] + rest, 1, k - 1);
    }
  }

  lemma FreeStart(p: string, c: char, rest: string)
    requires p != "" && p[0] != c && Free(p, rest)
    ensures Free(p, [c] + rest)
  {
    OccursChar(p, [c] + rest, 0, 0);
    FreePush(p, c, rest);
  }

  /** Settings whose texts contain no marker. */
  ghost predicate Clean(a: Settings) {
    && Free(PICKER_BEGIN, a.catalog) && Free(PICKER_END, a.catalog)
    && Free(PICKER_BEGIN, BaseUrl(a.bind)) && Free(PICKER_END, BaseUrl(a.bind))
    && Free(PICKER_BEGIN, a.capability) && Free(PICKER_END, a.capability)
  }

  lemma FreeBody(p: string, a: Settings)
    requires IsMarker(p) && |p| >= 38
    requires Free(p, a.catalog) && Free(p, BaseUrl(a.bind)) && Free(p, a.capability)
    ensures Free(p, Body(a))
  {
    FreeEscape(p, a.catalog);
    FreeEscape(p, BaseUrl(a.bind));
    FreeEscape(p, a.capability);
    var pieces := Pieces(a);
    forall i | 0 <= i < |pieces|
      ensures pieces[i].1 !in p && Free(p, pieces[i].0)
    {
      if i != 4 && i != 12 && i != 17 { FreeShort(p, pieces[i].0); }
    }
    FreeJoin(p, pieces);
  }

  /** Nothing spans into a text that opens with '#': that character only begins markers. */
  lemma Seam(p: string, x: string, y: string, k: int)
    requires IsMarker(p) && Free(p, x) && y != "" && y[0] == '#'
    ensures OccursAt(p, x + y, k) <==> OccursAt(p, y, k - |x|)
  {
    hide OccursAt, Free;
    var s := x + y;
    assert s[|x|..] == y && s[|x|] == '#';
    NotIn(p, x, k);
    NoOccurrenceBefore(p, y, k - |x|);
    if k >= |x| {
      OccursLater(p, s, |x|, k - |x|);
    } else if k + |p| <= |x| {
      OccursInPrefix(p, x, y, k);
    } else {
      OccursChar(p, s, k, |x|);
    }
  }

  lemma NoOccurrenceBefore(p: string, s: string, k: int)
    ensures k < 0 ==> !OccursAt(p, s, k)
  {
  }

  /** In a marker line and what follows it, a marker is that line or lies in what follows. */
  lemma MarkerLine(p: string, q: string, rest: string, k: int)
    requires IsMarker(p) && IsMarker(q) && |p| > 2 && |q| > 2 && (p == q || p[2] != q[2])
    ensures OccursAt(p, q + "\n" + rest, k) <==> (k == 0 && p == q) || OccursAt(p, rest, k - |q| - 1)
  {
    var s := q + "\n" + rest;
    assert s[|q| + 1..] == rest;
    OccursLater(p, s, |q| + 1, k - |q| - 1);
    if p == q { assert s[0..|q|] == q; }
    if OccursAt(p, s, k) && k <= |q| {
      assert s[k] == s[k..k + |p|][0];
      assert s[k] == if k < |q| then q[k] else '\n';
      assert k == 0;
      assert s[2] == s[0..|p|][2];
    }
  }

  /** A text with a block in it. */
  function WithBlock(before: string, body: string, after: string): string {
    before + (PICKER_BEGIN + "\n" + (body + (PICKER_END + "\n" + after)))
  }

  /**
  In a marker-free text with one block inserted, a marker occurs exactly where the block
  puts it: not inside the text or the block, and not across any seam.
  */
  lemma OneMarker(p: string, before: string, body: string, after: string)
    requires p == PICKER_BEGIN || p == PICKER_END
    requires Free(p, before) && Free(p, body) && Free(p, after)
    ensures var at := if p == PICKER_BEGIN then |before| else |before| + |PICKER_BEGIN| + 1 + |body|;
            Count(p, WithBlock(before, body, after)) == 1 && Find(p, WithBlock(before, body, after)) == Some(at)
  {
    hide OccursAt, Free, Count, Find, IsMarker;
    Markers();
    MarkersDiffer();
    var end := PICKER_END + "\n" + after;
    var begin := PICKER_BEGIN + "\n" + (body + end);
    var at := if p == PICKER_BEGIN then |before| else |before| + |PICKER_BEGIN| + 1 + |body|;
    forall k
      ensures OccursAt(p, before + begin, k) <==> k == at
    {
      Seam(p, before, begin, k);
      MarkerLine(p, PICKER_BEGIN, body + end, k - |before|);
      Seam(p, body, end, k - |before| - |PICKER_BEGIN| - 1);
      MarkerLine(p, PICKER_END, after, k - |before| - |PICKER_BEGIN| - 1 - |body|);
      NotIn(p, after, k - |before| - |PICKER_BEGIN| - 1 - |body| - |PICKER_END| - 1);
    }
    OnlyOccurrence(p, before + begin, at);
  }

  lemma NotIn(p: string, s: string, k: int)
    requires Free(p, s)
    ensures !OccursAt(p, s, k)
  {
  }

  lemma MarkersDiffer()
    ensures PICKER_BEGIN != PICKER_END && PICKER_BEGIN[0] == '#' && PICKER_END[0] == '#'
  {
    assert PICKER_BEGIN[2] == '>' && PICKER_END[2] == '<';
  }

  // ---------------------------------------------------------------------
  // The rendering theorems
  // ---------------------------------------------------------------------

  lemma SplicedBlock(before: string, a: Settings, after: string)
    ensures before + Block(a) + after == WithBlock(before, Body(a), after)
  {
    hide Body;
  }

  lemma FreeParts(p: string, source: string, n: nat)
    requires Free(p, source) && n <= |source|
    ensures Free(p, source[..n]) && Free(p, source[n..])
  {
    FreeSuffix(p, source, n);
    forall k
      ensures !OccursAt(p, source[..n], k)
    {
      if 0 <= k && k + |p| <= n {
        assert source[..n][k..k + |p|] == source[k..k + |p|];
        assert !OccursAt(p, source, k);
      }
    }
  }

  /** Where the block of a text with one block stands. */
  lemma BlockIsFound(before: string, a: Settings, after: string)
    requires Clean(a)
    requires Free(PICKER_BEGIN, before) && Free(PICKER_END, before)
    requires Free(PICKER_BEGIN, after) && Free(PICKER_END, after)
    ensures var s := before + Block(a) + after;
            MarkerCount(s) == 1 && BlockSpan(s) == Some((|before|, |before| + |Block(a)|))
  {
    hide Free, Body, Count, Find;
    var s := before + Block(a) + after;
    BodyIsFree(a);
    SplicedBlock(before, a, after);
    OneMarker(PICKER_BEGIN, before, Body(a), after);
    OneMarker(PICKER_END, before, Body(a), after);
    var end := |before| + |PICKER_BEGIN| + 1 + |Body(a)| + |PICKER_END|;
    assert |before| + |Block(a)| == end + 1;
    assert Block(a)[|Block(a)| - 1] == '\n';
    assert s[end] == Block(a)[|Block(a)| - 1];
  }

  lemma BodyIsFree(a: Settings)
    requires Clean(a)
    ensures Free(PICKER_BEGIN, Body(a)) && Free(PICKER_END, Body(a))
  {
    hide Free, Body;
    Markers();
    FreeBody(PICKER_BEGIN, a);
    FreeBody(PICKER_END, a);
  }

  /**
  Rendering into a marker-free source succeeds, inserts exactly the block in front of the
  first line that starts with a bracket, and leaves exactly one begin and one end marker.
  */
  lemma RenderInsertsOneBlock(source: string, a: Settings)
    requires Clean(a) && MarkerCount(source) == 0
    ensures var n := InsertionFrom(source, 0);
            && Render(source, a) == Ok(source[..n] + Block(a) + source[n..])
            && Count(PICKER_BEGIN, Render(source, a).value) == 1
            && Count(PICKER_END, Render(source, a).value) == 1
  {
    hide Block;
    var n := InsertionFrom(source, 0);
    FreeMeansNone(PICKER_BEGIN, source);
    FreeMeansNone(PICKER_END, source);
    FreeParts(PICKER_BEGIN, source, n);
    FreeParts(PICKER_END, source, n);
    BlockIsFound(source[..n], a, source[n..]);
  }

  /** Re-rendering with any other settings changes only the block: as if the first rendering never was. */
  lemma RerenderReplacesOnlyBlock(source: string, a: Settings, b: Settings)
    requires Clean(a) && MarkerCount(source) == 0
    ensures Render(Render(source, a).value, b) == Render(source, b)
  {
    hide Block;
    var n := InsertionFrom(source, 0);
    var before, after := source[..n], source[n..];
    FreeMeansNone(PICKER_BEGIN, source);
    FreeMeansNone(PICKER_END, source);
    FreeParts(PICKER_BEGIN, source, n);
    FreeParts(PICKER_END, source, n);
    BlockIsFound(before, a, after);
    var rendered := before + Block(a) + after;
    assert rendered[..|before|] == before;
    assert rendered[|before| + |Block(a)|..] == after;
  }

  /** Whatever was rendered, its begin marker is there. */
  lemma RenderLeavesMarker(source: string, a: Settings)
    ensures Render(source, a).Ok? ==> MarkerCount(Render(source, a).value) != 0
  {
    hide Body, Count, Find, InsertionFrom;
    if Render(source, a).Ok? {
      var text := Render(source, a).value;
      var markers := MarkerCount(source);
      FoundInside(PICKER_BEGIN, source);
      FoundInside(PICKER_END, source);
      var span := if markers == 1 then BlockSpan(source).value
        else (InsertionFrom(source, 0), InsertionFrom(source, 0));
      var before, after := source[..span.0], source[span.1..];
      assert text == before + Block(a) + after;
      BlockLeavesMarker(before, a, after);
    }
  }

  lemma BlockLeavesMarker(before: string, a: Settings, after: string)
    ensures MarkerCount(before + Block(a) + after) != 0
  {
    hide Body, Count, Find;
    var text := before + Block(a) + after;
    assert text[|before|..|before| + |PICKER_BEGIN|] == PICKER_BEGIN;
    assert OccursAt(PICKER_BEGIN, text, |before|);
    FreeMeansNone(PICKER_BEGIN, text);
  }

  function Erase(source: string): string {
    FoundInside(PICKER_BEGIN, source);
    FoundInside(PICKER_END, source);
    match BlockSpan(source)
    case None => source
    case Some(span) => source[..span.0] + source[span.1..]
  }

  /** Erasing the block gives the source back, after any number of renderings. */
  lemma {:induction false} EraseRestores(source: string, settings: seq<Settings>)
    requires MarkerCount(source) == 0 && settings != [] && forall a :: a in settings ==> Clean(a)
    ensures RenderAll(source, settings).Ok? && Erase(RenderAll(source, settings).value) == source
    ensures RenderAll(source, settings) == Render(source, settings[|settings| - 1])
  {
    hide Block, Render, MarkerCount;
    var last := settings[|settings| - 1];
    assert last in settings;
    RenderInsertsOneBlock(source, last);
    if |settings| > 1 {
      var init := settings[..|settings| - 1];
      EraseRestores(source, init);
      assert init[|init| - 1] in settings;
      RerenderReplacesOnlyBlock(source, init[|init| - 1], last);
    } else {
      assert settings[..0] == [];
    }
    ErasesBlock(source, last);
  }

  lemma ErasesBlock(source: string, a: Settings)
    requires Clean(a) && MarkerCount(source) == 0
    ensures Render(source, a).Ok? && Erase(Render(source, a).value) == source
  {
    hide Block, Count, Find, Free, InsertionFrom;
    var n := InsertionFrom(source, 0);
    FreeMeansNone(PICKER_BEGIN, source);
    FreeMeansNone(PICKER_END, source);
    FreeParts(PICKER_BEGIN, source, n);
    FreeParts(PICKER_END, source, n);
    BlockIsFound(source[..n], a, source[n..]);
    var rendered := source[..n] + Block(a) + source[n..];
    assert rendered[..n] == source[..n];
    assert rendered[n + |Block(a)|..] == source[n..];
  }

  function RenderAll(source: string, settings: seq<Settings>): Result<string, RenderError> {
    if settings == [] then Ok(source)
    else
      match RenderAll(source, settings[..|settings| - 1])
      case Err(e) => Err(e)
      case Ok(earlier) => Render(earlier, settings[|settings| - 1])
  }
}
