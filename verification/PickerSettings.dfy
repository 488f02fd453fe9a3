/**
Reading the picker's block back as the configuration it is: which setting stands under which key.
*/
module PickerSettings {
  import opened Outcomes
  import opened PickerConfig

  // ---------------------------------------------------------------------
  // A reader of quoted strings
  // ---------------------------------------------------------------------

  function Unescaped(c: char): Option<char> {
    match c
    case '"' => Some('"')
    case '\\' => Some('\\')
    case 'n' => Some('\n')
    case 'r' => Some('\r')
    case 't' => Some('\t')
    case '0' => Some('\0')
    case _ => None
  }

  /** The string up to its closing quote, and what follows the quote. */
  function ReadString(s: string): Option<(string, string)> {
    if s == "" then None
    else if s[0] == '"' then Some(("", s[1..]))
    else if s[0] == '\\' then
      if |s| == 1 || Unescaped(s[1]).None? then None
      else
        match ReadString(s[2..])
        case None => None
        case Some((text, rest)) => Some(([Unescaped(s[1]).value] + text, rest))
    else
      match ReadString(s[1..])
      case None => None
      case Some((text, rest)) => Some(([s[0]] + text, rest))
  }

  lemma ReadsEmpty(rest: string)
    ensures ReadString("\"" + rest) == Some(("", rest))
  {
    assert ("\"" + rest)[1..] == rest;
  }

  lemma {:induction false} ReadsBack(s: string, rest: string)
    ensures ReadString(Escape(s) + "\"" + rest) == Some((s, rest))
  {
    hide ReadString, EscapeChar;
    if s == "" {
      assert Escape(s) + "\"" + rest == "\"" + rest;
      ReadsEmpty(rest);
    } else {
      var later := Escape(s[1..]) + "\"" + rest;
      ReadsBack(s[1..], rest);
      assert Escape(s) + "\"" + rest == EscapeChar(s[0]) + later;
      CharReadsBack(s[0], later);
      assert s == [s[0]] + s[1..];
    }
  }

  lemma CharReadsBack(c: char, later: string)
    requires ReadString(later).Some?
    ensures ReadString(EscapeChar(c) + later) == Some(([c] + ReadString(later).value.0, ReadString(later).value.1))
  {
    if EscapeChar(c) == [c] { PlainReads(c, later); } else { EscapedReads(EscapeChar(c)[1], later); }
  }

  lemma PlainReads(c: char, later: string)
    requires c != '"' && c != '\\' && ReadString(later).Some?
    ensures ReadString([c] + later) == Some(([c] + ReadString(later).value.0, ReadString(later).value.1))
  {
    assert ([c] + later)[1..] == later;
  }

  lemma EscapedReads(c: char, later: string)
    requires Unescaped(c).Some? && ReadString(later).Some?
    ensures ReadString(['\\', c] + later) ==
            Some(([Unescaped(c).value] + ReadString(later).value.0, ReadString(later).value.1))
  {
    assert (['\\', c] + later)[2..] == later;
  }

  // ---------------------------------------------------------------------
  // Settings in a text
  // ---------------------------------------------------------------------

  /** A line starts here with this beginning. */
  ghost predicate BeginsAt(text: string, at: nat, beginning: string) {
    at <= |text| && (at == 0 || text[at - 1] == '\n') && beginning <= text[at..]
  }

  /** A line starts here that sets a key to a value; the beginning runs up to the opening quote. */
  ghost predicate SetsAt(text: string, at: nat, beginning: string, value: string) {
    && BeginsAt(text, at, beginning)
    && ReadString(text[at + |beginning|..]).Some? && ReadString(text[at + |beginning|..]).value.0 == value
  }

  lemma {:induction false} JoinConcat(x: seq<(string, char)>, y: seq<(string, char)>)
    ensures Join(x + y) == Join(x) + Join(y)
  {
    if x == [] {
      assert x + y == y;
    } else {
      JoinConcat(x[1..], y);
      assert (x + y)[1..] == x[1..] + y;
    }
  }

  /** Where a piece of the body starts. */
  function Offset(pieces: seq<(string, char)>, k: nat): nat
    requires k <= |pieces|
  {
    |Join(pieces[..k])|
  }

  lemma FromPiece(pieces: seq<(string, char)>, k: nat)
    requires k <= |pieces|
    ensures Offset(pieces, k) <= |Join(pieces)| && Join(pieces)[Offset(pieces, k)..] == Join(pieces[k..])
    ensures Join(pieces)[..Offset(pieces, k)] == Join(pieces[..k])
  {
    assert pieces == pieces[..k] + pieces[k..];
    JoinConcat(pieces[..k], pieces[k..]);
  }

  lemma PieceEnds(pieces: seq<(string, char)>, k: nat)
    requires k < |pieces|
    ensures Join(pieces[..k + 1]) == Join(pieces[..k]) + (pieces[k].0 + [pieces[k].1])
  {
    assert pieces[..k + 1] == pieces[..k] + [pieces[k]];
    JoinConcat(pieces[..k], [pieces[k]]);
    assert [pieces[k]][1..] == [];
  }

  lemma {:induction false} OffsetsGrow(pieces: seq<(string, char)>, i: nat, k: nat)
    requires i < k <= |pieces|
    ensures Offset(pieces, i) < Offset(pieces, k)
    decreases k
  {
    PieceEnds(pieces, k - 1);
    if i < k - 1 { OffsetsGrow(pieces, i, k - 1); }
  }

  lemma StartsLine(pieces: seq<(string, char)>, k: nat)
    requires 0 < k <= |pieces| && pieces[k - 1].1 == '\n'
    ensures 0 < Offset(pieces, k) <= |Join(pieces)| && Join(pieces)[Offset(pieces, k) - 1] == '\n'
  {
    FromPiece(pieces, k);
    PieceEnds(pieces, k - 1);
    var before := Join(pieces[..k]);
    assert before[|before| - 1] == '\n';
    assert Join(pieces)[Offset(pieces, k) - 1] == before[|before| - 1];
  }

  lemma JoinFrom(pieces: seq<(string, char)>, k: nat)
    requires k < |pieces|
    ensures Join(pieces[k..]) == pieces[k].0 + [pieces[k].1] + Join(pieces[k + 1..])
  {
    assert pieces[k..][1..] == pieces[k + 1..];
  }

  lemma Stands(before: string, beginning: string, value: string, rest: string)
    requires before == "" || before[|before| - 1] == '\n'
    ensures SetsAt(before + (beginning + (Escape(value) + "\"" + rest)), |before|, beginning, value)
  {
    hide Escape, ReadString;
    var quoted := Escape(value) + "\"" + rest;
    var text := before + (beginning + quoted);
    assert text[|before|..] == beginning + quoted;
    assert text[|before| + |beginning|..] == quoted;
    ReadsBack(value, rest);
  }

  /** A key, a quote, an escaped value and a quote, at the start of a line. */
  lemma KeyIsSet(pieces: seq<(string, char)>, k: nat, value: string)
    requires k + 1 < |pieces| && (k == 0 || pieces[k - 1].1 == '\n')
    requires pieces[k].1 == '"' && pieces[k + 1] == (Escape(value), '"')
    ensures SetsAt(Join(pieces), Offset(pieces, k), pieces[k].0 + "\"", value)
  {
    hide Escape, ReadString, SetsAt, Join;
    BeforeLine(pieces, k);
    FromPiece(pieces, k);
    JoinFrom(pieces, k);
    JoinFrom(pieces, k + 1);
    Stands(Join(pieces[..k]), pieces[k].0 + "\"", value, Join(pieces[k + 2..]));
  }

  lemma BeforeLine(pieces: seq<(string, char)>, k: nat)
    requires k < |pieces| && (k == 0 || pieces[k - 1].1 == '\n')
    ensures var before := Join(pieces[..k]); before == "" || before[|before| - 1] == '\n'
    ensures Join(pieces) == Join(pieces[..k]) + Join(pieces[k..])
  {
    assert pieces == pieces[..k] + pieces[k..];
    JoinConcat(pieces[..k], pieces[k..]);
    if k > 0 { PieceEnds(pieces, k - 1); }
  }

  /** The same when another quoted word stands between: `key = { "name" = "value"`. */
  lemma NamedKeyIsSet(pieces: seq<(string, char)>, k: nat, value: string)
    requires 0 < k && k + 3 < |pieces| && pieces[k - 1].1 == '\n'
    requires pieces[k].1 == '"' && pieces[k + 1].1 == '"' && pieces[k + 2].1 == '"'
    requires pieces[k + 3] == (Escape(value), '"')
    ensures SetsAt(Join(pieces), Offset(pieces, k),
                   pieces[k].0 + "\"" + (pieces[k + 1].0 + "\"") + (pieces[k + 2].0 + "\""), value)
  {
    hide Escape, ReadString, SetsAt, Join;
    BeforeLine(pieces, k);
    FromPiece(pieces, k);
    JoinFrom(pieces, k);
    JoinFrom(pieces, k + 1);
    JoinFrom(pieces, k + 2);
    JoinFrom(pieces, k + 3);
    var beginning := pieces[k].0 + "\"" + (pieces[k + 1].0 + "\"") + (pieces[k + 2].0 + "\"");
    var rest := Join(pieces[k + 4..]);
    Stands(Join(pieces[..k]), beginning, value, rest);
    Regroup(pieces[k].0 + "\"", pieces[k + 1].0 + "\"", pieces[k + 2].0 + "\"", Escape(value) + "\"" + rest);
  }

  lemma Regroup(x: string, y: string, z: string, rest: string)
    ensures x + y + z + rest == x + (y + (z + rest))
  {
  }

  lemma TableBegins(pieces: seq<(string, char)>, k: nat)
    requires 0 < k < |pieces| && pieces[k - 1].1 == '\n' && pieces[k].1 == '\n'
    ensures BeginsAt(Join(pieces), Offset(pieces, k), pieces[k].0 + "\n")
  {
    StartsLine(pieces, k);
    FromPiece(pieces, k);
    FromPiece(pieces, k + 1);
    PieceEnds(pieces, k);
    var text, at, line := Join(pieces), Offset(pieces, k), pieces[k].0 + "\n";
    assert text[at..][..|line|] == text[..at + |line|][at..];
  }

  lemma NothingToEscape()
    ensures Escape("grok_codex_picker") == "grok_codex_picker"
  {
    PlainEscape("grok_codex_picker");
  }

  lemma PlainChar(c: char)
    requires 'a' <= c <= 'z' || c == '_'
    ensures EscapeChar(c) == [c]
  {
  }

  lemma {:induction false} PlainEscape(s: string)
    requires forall i :: 0 <= i < |s| ==> 'a' <= s[i] <= 'z' || s[i] == '_'
    ensures Escape(s) == s
  {
    hide EscapeChar;
    if s != "" {
      PlainChar(s[0]);
      PlainEscape(s[1..]);
      assert s == [s[0]] + s[1..];
    }
  }

  lemma Beginnings()
    ensures "model_provider = " + "\"" == "model_provider = \""
    ensures "model_catalog_json = " + "\"" == "model_catalog_json = \""
    ensures "[model_providers.grok_codex_picker]" + "\n" == "[model_providers.grok_codex_picker]\n"
    ensures "base_url = " + "\"" == "base_url = \""
    ensures "http_headers = { " + "\"" + ("x-grok-caller-capability" + "\"") + (" = " + "\"")
         == "http_headers = { \"x-grok-caller-capability\" = \""
  {
  }

  lemma PiecesAt(a: Settings)
    ensures var pieces := Pieces(a);
            && |pieces| > 18
            && pieces[0] == ("model_provider = ", '"') && pieces[1] == ("grok_codex_picker", '"')
            && pieces[2].1 == '\n' && pieces[3] == ("model_catalog_json = ", '"')
            && pieces[4] == (Escape(a.catalog), '"')
            && pieces[6].1 == '\n' && pieces[7] == ("[model_providers.grok_codex_picker]", '\n')
            && pieces[10].1 == '\n' && pieces[11] == ("base_url = ", '"')
            && pieces[12] == (Escape("http://" + a.bind + "/v1"), '"')
            && pieces[13].1 == '\n' && pieces[14] == ("http_headers = { ", '"')
            && pieces[15] == ("x-grok-caller-capability", '"') && pieces[16] == (" = ", '"')
            && pieces[17] == (Escape(a.capability), '"')
  {
    hide Escape;
  }

  /**
  The block selects the picker's provider and the published catalog at the top level, and then
  gives the provider's table the bridge's address and the caller's capability.
  */
  lemma SettingsAreRead(a: Settings) returns (provider: nat, catalog: nat, table: nat, url: nat, header: nat)
    ensures provider < catalog < table < url < header
    ensures SetsAt(Body(a), provider, "model_provider = \"", "grok_codex_picker")
    ensures SetsAt(Body(a), catalog, "model_catalog_json = \"", a.catalog)
    ensures BeginsAt(Body(a), table, "[model_providers.grok_codex_picker]\n")
    ensures SetsAt(Body(a), url, "base_url = \"", "http://" + a.bind + "/v1")
    ensures SetsAt(Body(a), header, "http_headers = { \"x-grok-caller-capability\" = \"", a.capability)
  {
    hide Escape, SetsAt, BeginsAt, Offset, Join, Pieces, BaseUrl;
    var pieces := Pieces(a);
    PiecesAt(a);
    Beginnings();
    NothingToEscape();
    KeyIsSet(pieces, 0, "grok_codex_picker");
    KeyIsSet(pieces, 3, a.catalog);
    TableBegins(pieces, 7);
    KeyIsSet(pieces, 11, "http://" + a.bind + "/v1");
    NamedKeyIsSet(pieces, 14, a.capability);
    OffsetsGrow(pieces, 0, 3);
    OffsetsGrow(pieces, 3, 7);
    OffsetsGrow(pieces, 7, 11);
    OffsetsGrow(pieces, 11, 14);
    provider, catalog, table := Offset(pieces, 0), Offset(pieces, 3), Offset(pieces, 7);
    url, header := Offset(pieces, 11), Offset(pieces, 14);
  }
}
