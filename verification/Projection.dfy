/**
Turning a Codex history into a Grok history: `parse_input` pairs tool calls with
their outputs and `project_input_for_xai` drops foreign items and hoists the
assistant messages that interrupt a parallel tool batch to the batch's start.
*/
module Projection {
  import opened Outcomes
  import opened Namespace

  datatype Role = User | Developer | Assistant

  datatype InputItem =
    | Message(role: Role, content: string)
    | Reasoning(id: string, grok: bool, payload: string)
    | FunctionCall(name: string, arguments: string, callId: string)
    | FunctionCallOutput(callId: string, output: string)
    | ToolSearchCall(callId: string, arguments: string)
    | ToolSearchOutput(callId: string, tools: string)
    | ForeignAgentMessage
    | ForeignCustomToolCall
    | ForeignCustomToolCallOutput

  /** One element of the projected upstream `input` array. */
  datatype GrokValue =
    | GrokMessage(role: Role, content: string)
    | GrokReasoning(id: string, payload: string)
    | GrokCall(name: string, arguments: string, callId: string)
    | GrokOutput(callId: string, output: string)

  function ToGrokValue(item: InputItem): Option<GrokValue> {
    match item
    case Message(role, content) => Some(GrokMessage(role, content))
    case Reasoning(id, grok, payload) => if grok then Some(GrokReasoning(id, payload)) else None
    case FunctionCall(name, arguments, callId) => Some(GrokCall(name, arguments, callId))
    case FunctionCallOutput(callId, output) => Some(GrokOutput(callId, output))
    case ToolSearchCall(callId, arguments) => Some(GrokCall("tool_search", arguments, callId))
    case ToolSearchOutput(callId, tools) => Some(GrokOutput(callId, tools))
    case ForeignAgentMessage => None
    case ForeignCustomToolCall => None
    case ForeignCustomToolCallOutput => None
  }

  predicate IsCall(item: InputItem) {
    item.FunctionCall? || item.ToolSearchCall?
  }

  predicate IsOutput(item: InputItem) {
    item.FunctionCallOutput? || item.ToolSearchOutput?
  }

  predicate IsAssistant(item: InputItem) {
    item.Message? && item.role == Assistant
  }

  predicate IsAssistantValue(v: GrokValue) {
    v.GrokMessage? && v.role == Assistant
  }

  // ---------------------------------------------------------------------
  // Reference form: insert each interleaved assistant message, one at a time
  // and in order, at the start of its own batch.
  // ---------------------------------------------------------------------

  function CompletedIds(input: seq<InputItem>): set<string> {
    set i | 0 <= i < |input| && IsOutput(input[i]) :: input[i].callId
  }

  /** The open calls after an item, given the calls that have an output somewhere. */
  function Opened(done: set<string>, open: set<string>, item: InputItem): set<string> {
    if IsCall(item) && item.callId in done then open + {item.callId}
    else if IsOutput(item) then open - {item.callId}
    else open
  }

  datatype Naive = Naive(out: seq<GrokValue>, start: nat, open: set<string>)

  /** While nothing is open, the next batch would start at the end of the output. */
  function NaiveStep(done: set<string>, s: Naive, item: InputItem): Naive
    requires s.start <= |s.out|
  {
    match ToGrokValue(item)
    case None => s
    case Some(v) =>
      if IsAssistant(item) && s.open != {} then
        Naive(s.out[..s.start] + [v] + s.out[s.start..], s.start + 1, s.open)
      else
        var open := Opened(done, s.open, item);
        var start := if open == {} then |s.out| + 1 else if s.open == {} then |s.out| else s.start;
        Naive(s.out + [v], start, open)
  }

  function NaiveRun(done: set<string>, input: seq<InputItem>): (s: Naive)
    ensures s.start <= |s.out|
    ensures s.open == {} ==> s.start == |s.out|
  {
    if input == [] then Naive([], 0, {})
    else NaiveStep(done, NaiveRun(done, input[..|input| - 1]), input[|input| - 1])
  }

  function Project(input: seq<InputItem>): seq<GrokValue> {
    NaiveRun(CompletedIds(input), input).out
  }

  /** The output once the deferred messages are put in front of the open batch. */
  function Flushed(projected: seq<GrokValue>, batch: Option<nat>, deferred: seq<GrokValue>): seq<GrokValue>
    requires batch.Some? ==> batch.value <= |projected|
  {
    if batch.None? then projected
    else projected[..batch.value] + deferred + projected[batch.value..]
  }

  /** What the loop holds after a prefix, in terms of the reference form. */
  ghost predicate Tracks(n: Naive, open: set<string>, batch: Option<nat>,
                         deferred: seq<GrokValue>, projected: seq<GrokValue>) {
    && open == n.open
    && (batch.Some? <==> open != {})
    && (batch.Some? ==> batch.value <= |projected| && n.start == batch.value + |deferred|)
    && (open == {} ==> deferred == [])
    && n.out == Flushed(projected, batch, deferred)
  }

  lemma NothingCompleted()
    ensures CompletedIds([]) == {}
  {
  }

  lemma CompletedPush(items: seq<InputItem>, item: InputItem)
    ensures CompletedIds(items + [item]) ==
            CompletedIds(items) + if IsOutput(item) then {item.callId} else {}
  {
    var all := items + [item];
    forall id | id in CompletedIds(items)
      ensures id in CompletedIds(all)
    {
      var i :| 0 <= i < |items| && IsOutput(items[i]) && items[i].callId == id;
      assert IsOutput(all[i]) && all[i].callId == id;
    }
    assert all[|items|] == item;
  }

  lemma NothingTracked(done: set<string>)
    ensures Tracks(NaiveRun(done, []), {}, None, [], [])
  {
  }

  lemma RunPush(done: set<string>, input: seq<InputItem>, i: nat)
    requires i < |input|
    ensures NaiveRun(done, input[..i + 1]) == NaiveStep(done, NaiveRun(done, input[..i]), input[i])
  {
    assert input[..i + 1][..i] == input[..i];
  }

  /** What the loop may rely on: the batch starts within the output. */
  lemma BatchFits(n: Naive, open: set<string>, batch: Option<nat>, deferred: seq<GrokValue>, projected: seq<GrokValue>)
    requires Tracks(n, open, batch, deferred, projected)
    ensures open == n.open && (batch.Some? <==> open != {}) && (open == {} ==> deferred == [])
    ensures batch.Some? ==> batch.value <= |projected|
    ensures n.out == if batch.Some? && deferred != []
                     then projected[..batch.value] + deferred + projected[batch.value..] else projected
  {
    FlushedValues(projected, batch, deferred);
  }

  lemma FlushedValues(projected: seq<GrokValue>, batch: Option<nat>, deferred: seq<GrokValue>)
    requires batch.Some? ==> batch.value <= |projected|
    ensures Flushed(projected, batch, deferred) ==
            if batch.Some? && deferred != []
            then projected[..batch.value] + deferred + projected[batch.value..] else projected
  {
    if batch.Some? { assert projected[..batch.value] + [] + projected[batch.value..] == projected; }
  }

  /** The one-pass loop: batched `split_off`/`append` instead of repeated insertion. */
  method ProjectInputForXai(input: seq<InputItem>) returns (projected: seq<GrokValue>)
    ensures projected == Project(input)
  {
    hide NaiveStep, CompletedIds, NaiveRun, Tracks;
    var done: set<string> := {};
    NothingCompleted();
    for i := 0 to |input|
      invariant done == CompletedIds(input[..i])
    {
      assert input[..i + 1] == input[..i] + [input[i]];
      CompletedPush(input[..i], input[i]);
      if IsOutput(input[i]) {
        done := done + {input[i].callId};
      }
    }
    assert input[..|input|] == input;

    NothingTracked(done);
    assert input[..0] == [];
    var open: set<string> := {};
    var batch: Option<nat> := None;
    var deferred: seq<GrokValue> := [];
    projected := [];
    for i := 0 to |input|
      invariant Tracks(NaiveRun(done, input[..i]), open, batch, deferred, projected)
    {
      var item := input[i];
      ghost var n := NaiveRun(done, input[..i]);
      RunPush(done, input, i);
      BatchFits(n, open, batch, deferred, projected);
      var value := ToGrokValue(item);
      if IsAssistant(item) && open != {} {
        DeferStep(done, n, item, open, batch, deferred, projected);
        deferred := deferred + [value.value];
        continue;
      }
      PushStep(done, n, item, open, batch, deferred, projected);
      if IsCall(item) && item.callId in done {
        if batch.None? {
          batch := Some(|projected|);
        }
        open := open + {item.callId};
      }
      if value.Some? {
        projected := projected + [value.value];
      }
      if IsOutput(item) {
        open := open - {item.callId};
      }
      FlushedValues(projected, batch, deferred);
      if open == {} {
        if batch.Some? && deferred != [] {
          var tail := projected[batch.value..];
          projected := projected[..batch.value] + deferred + tail;
          deferred := [];
        }
        batch := None;
      }
    }
    BatchFits(NaiveRun(done, input), open, batch, deferred, projected);
    if batch.Some? && deferred != [] {
      projected := projected[..batch.value] + deferred + projected[batch.value..];
    }
  }

  lemma DeferStep(done: set<string>, n: Naive, item: InputItem, open: set<string>, batch: Option<nat>,
                  deferred: seq<GrokValue>, projected: seq<GrokValue>)
    requires n.start <= |n.out| && Tracks(n, open, batch, deferred, projected)
    requires IsAssistant(item) && open != {}
    ensures Tracks(NaiveStep(done, n, item), open, batch, deferred + [ToGrokValue(item).value], projected)
  {
    var v := ToGrokValue(item).value;
    assert n.out[..n.start] == projected[..batch.value] + deferred;
    assert n.out[n.start..] == projected[batch.value..];
    assert NaiveStep(done, n, item).out == Flushed(projected, batch, deferred + [v]);
  }

  lemma PushStep(done: set<string>, n: Naive, item: InputItem, open: set<string>, batch: Option<nat>,
                 deferred: seq<GrokValue>, projected: seq<GrokValue>)
    requires n.start <= |n.out| && (n.open == {} ==> n.start == |n.out|)
    requires Tracks(n, open, batch, deferred, projected)
    requires !(IsAssistant(item) && open != {})
    ensures var v := ToGrokValue(item);
            var open' := Opened(done, open, item);
            var grown := if v.Some? then projected + [v.value] else projected;
            var batch' := if IsCall(item) && item.callId in done && batch.None? then Some(|projected|) else batch;
            if open' == {}
            then Tracks(NaiveStep(done, n, item), {}, None, [], Flushed(grown, batch', deferred))
            else Tracks(NaiveStep(done, n, item), open', batch', deferred, grown)
  {
    var v := ToGrokValue(item);
    if v.Some? {
      var grown := projected + [v.value];
      assert n.out + [v.value] == Flushed(grown, batch, deferred);
    }
  }

  // ---------------------------------------------------------------------
  // The stable reordering theorem
  // ---------------------------------------------------------------------

  /** The values of the items that have an upstream form, in history order. */
  function Kept(input: seq<InputItem>): seq<GrokValue> {
    if input == [] then []
    else
      var earlier := Kept(input[..|input| - 1]);
      match ToGrokValue(input[|input| - 1])
      case None => earlier
      case Some(v) => earlier + [v]
  }

  lemma KeptPush(items: seq<InputItem>, item: InputItem)
    ensures Kept(items + [item]) == Kept(items) + if ToGrokValue(item).Some? then [ToGrokValue(item).value] else []
  {
    assert (items + [item])[..|items|] == items;
  }

  /** The assistant messages of a sequence, or everything else, in order. */
  function OfKind(assistant: bool, vs: seq<GrokValue>): seq<GrokValue> {
    if vs == [] then []
    else
      var earlier := OfKind(assistant, vs[..|vs| - 1]);
      if IsAssistantValue(vs[|vs| - 1]) == assistant then earlier + [vs[|vs| - 1]] else earlier
  }

  function OpenAfter(done: set<string>, vs: seq<GrokValue>): set<string> {
    if vs == [] then {}
    else
      var open := OpenAfter(done, vs[..|vs| - 1]);
      match vs[|vs| - 1]
      case GrokCall(_, _, id) => if id in done then open + {id} else open
      case GrokOutput(id, _) => open - {id}
      case _ => open
  }

  /** A call that has an output somewhere stands there, and no output for it after that. */
  ghost predicate StandsOpen(done: set<string>, vs: seq<GrokValue>, id: string) {
    && id in done
    && exists i :: 0 <= i < |vs| && IsCallOf(vs[i], id) && forall j :: i < j < |vs| ==> !IsOutputOf(vs[j], id)
  }

  predicate IsCallOf(v: GrokValue, id: string) {
    v.GrokCall? && v.callId == id
  }

  predicate IsOutputOf(v: GrokValue, id: string) {
    v.GrokOutput? && v.callId == id
  }

  /** The open calls in terms of positions. */
  lemma {:induction false} OpenMeans(done: set<string>, vs: seq<GrokValue>, id: string)
    ensures id in OpenAfter(done, vs) <==> StandsOpen(done, vs, id)
  {
    if vs != [] {
      var k := |vs| - 1;
      var init := vs[..k];
      OpenMeans(done, init, id);
      if StandsOpen(done, init, id) && !IsOutputOf(vs[k], id) {
        var i :| 0 <= i < k && IsCallOf(init[i], id) && forall j :: i < j < k ==> !IsOutputOf(init[j], id);
        assert IsCallOf(vs[i], id) && forall j :: i < j < k ==> vs[j] == init[j];
      }
      if StandsOpen(done, vs, id) {
        var i :| 0 <= i < |vs| && IsCallOf(vs[i], id) && forall j :: i < j < |vs| ==> !IsOutputOf(vs[j], id);
        if i < k { assert IsCallOf(init[i], id) && forall j :: i < j < k ==> init[j] == vs[j]; }
      }
      if id in done && IsCallOf(vs[k], id) { assert StandsOpen(done, vs, id); }
    }
  }

  /** No assistant message stands while a completed call is open. */
  ghost predicate Settled(done: set<string>, vs: seq<GrokValue>) {
    forall i :: 0 <= i < |vs| && IsAssistantValue(vs[i]) ==> OpenAfter(done, vs[..i]) == {}
  }

  /** For every assistant message, how many other values stand before it. */
  function OthersBefore(vs: seq<GrokValue>): seq<nat> {
    if vs == [] then []
    else
      var earlier := vs[..|vs| - 1];
      OthersBefore(earlier) + if IsAssistantValue(vs[|vs| - 1]) then [|OfKind(false, earlier)|] else []
  }

  /** How many other values stood at the last moment when no completed call was open. */
  function QuietPoint(done: set<string>, vs: seq<GrokValue>): nat {
    if vs == [] then 0
    else if OpenAfter(done, vs) == {} then |OfKind(false, vs)|
    else QuietPoint(done, vs[..|vs| - 1])
  }

  /** Where every assistant message of a history belongs. */
  function QuietPoints(done: set<string>, vs: seq<GrokValue>): seq<nat> {
    if vs == [] then []
    else
      var earlier := vs[..|vs| - 1];
      QuietPoints(done, earlier) + if IsAssistantValue(vs[|vs| - 1]) then [QuietPoint(done, earlier)] else []
  }

  lemma {:induction false} OfKindConcat(assistant: bool, a: seq<GrokValue>, b: seq<GrokValue>)
    ensures OfKind(assistant, a + b) == OfKind(assistant, a) + OfKind(assistant, b)
    decreases |b|
  {
    if b == [] {
      assert a + b == a;
    } else {
      var k := |b| - 1;
      assert (a + b)[..|a + b| - 1] == a + b[..k];
      OfKindConcat(assistant, a, b[..k]);
    }
  }

  lemma {:induction false} OpenAfterBatch(done: set<string>, a: seq<GrokValue>, v: GrokValue, b: seq<GrokValue>)
    requires IsAssistantValue(v)
    ensures OpenAfter(done, a + [v] + b) == OpenAfter(done, a + b)
    decreases |b|
  {
    if b == [] {
      assert (a + [v] + b)[..|a|] == a && a + b == a;
    } else {
      var k := |b| - 1;
      assert (a + [v] + b)[..|a + [v] + b| - 1] == a + [v] + b[..k];
      assert (a + b)[..|a + b| - 1] == a + b[..k];
      OpenAfterBatch(done, a, v, b[..k]);
    }
  }

  lemma {:induction false} NoneOfKind(assistant: bool, vs: seq<GrokValue>)
    ensures OfKind(assistant, vs) == [] <==> forall v :: v in vs ==> IsAssistantValue(v) != assistant
  {
    if vs != [] {
      var k := |vs| - 1;
      assert vs == vs[..k] + [vs[k]];
      NoneOfKind(assistant, vs[..k]);
    }
  }

  /** Putting an assistant message in front of a message-free batch keeps the output settled. */
  lemma InsertSettled(done: set<string>, a: seq<GrokValue>, v: GrokValue, b: seq<GrokValue>)
    requires IsAssistantValue(v) && Settled(done, a + b) && OpenAfter(done, a) == {}
    requires forall w :: w in b ==> !IsAssistantValue(w)
    ensures Settled(done, a + [v] + b)
    ensures OpenAfter(done, a + [v]) == {}
  {
    var out := a + [v] + b;
    assert (a + [v])[..|a|] == a;
    forall i | 0 <= i < |out| && IsAssistantValue(out[i])
      ensures OpenAfter(done, out[..i]) == {}
    {
      if i < |a| {
        assert out[..i] == (a + b)[..i] && out[i] == (a + b)[i];
      } else if i == |a| {
        assert out[..i] == a;
      }
    }
  }

  /** A batch without messages after a point where nothing is open, in normal form. */
  ghost predicate QuietThenBatch(done: set<string>, quiet: seq<GrokValue>, batch: seq<GrokValue>, open: set<string>) {
    && OpenAfter(done, quiet) == {}
    && OpenAfter(done, quiet + batch) == open
    && (forall v :: v in batch ==> !IsAssistantValue(v))
    && Settled(done, quiet + batch)
  }

  ghost predicate WellOrdered(done: set<string>, n: Naive) {
    n.start <= |n.out| && QuietThenBatch(done, n.out[..n.start], n.out[n.start..], n.open)
  }

  /** What the reference form establishes about the values kept so far. */
  ghost predicate Reordered(done: set<string>, n: Naive, kept: seq<GrokValue>) {
    && WellOrdered(done, n)
    && multiset(n.out) == multiset(kept)
    && OfKind(true, n.out) == OfKind(true, kept)
    && OfKind(false, n.out) == OfKind(false, kept)
    && OpenAfter(done, kept) == n.open
    && |OfKind(false, n.out[..n.start])| == QuietPoint(done, kept)
    && OthersBefore(n.out) == QuietPoints(done, kept)
  }

  lemma {:induction false} OthersBeforeBatch(a: seq<GrokValue>, b: seq<GrokValue>)
    requires forall v :: v in b ==> !IsAssistantValue(v)
    ensures OthersBefore(a + b) == OthersBefore(a)
    decreases |b|
  {
    if b == [] {
      assert a + b == a;
    } else {
      var k := |b| - 1;
      assert (a + b)[..|a + b| - 1] == a + b[..k];
      OthersBeforeBatch(a, b[..k]);
    }
  }

  lemma InsertPoints(done: set<string>, a: seq<GrokValue>, v: GrokValue, b: seq<GrokValue>, kept: seq<GrokValue>)
    requires IsAssistantValue(v) && (forall w :: w in b ==> !IsAssistantValue(w))
    requires OpenAfter(done, kept) != {} || b == []
    requires |OfKind(false, a)| == QuietPoint(done, kept)
    requires OfKind(false, a + b) == OfKind(false, kept)
    requires OthersBefore(a + b) == QuietPoints(done, kept)
    ensures OthersBefore(a + [v] + b) == QuietPoints(done, kept + [v])
    ensures |OfKind(false, a + [v])| == QuietPoint(done, kept + [v])
    ensures OpenAfter(done, kept + [v]) == OpenAfter(done, kept)
  {
    assert (kept + [v])[..|kept|] == kept && (a + [v])[..|a|] == a;
    OthersBeforeBatch(a, b);
    OthersBeforeBatch(a + [v], b);
    if b == [] { assert a + b == a; }
  }

  lemma InsertKind(assistant: bool, a: seq<GrokValue>, v: GrokValue, b: seq<GrokValue>, kept: seq<GrokValue>)
    requires IsAssistantValue(v) && (forall w :: w in b ==> !IsAssistantValue(w))
    requires OfKind(assistant, a + b) == OfKind(assistant, kept)
    ensures OfKind(assistant, a + [v] + b) == OfKind(assistant, kept + [v])
  {
    NoneOfKind(true, b);
    assert [v][..0] == [];
    OfKindConcat(assistant, a, b);
    OfKindConcat(assistant, a + [v], b);
    OfKindConcat(assistant, a, [v]);
    OfKindConcat(assistant, kept, [v]);
  }

  lemma InsertWellOrdered(done: set<string>, n: Naive, v: GrokValue)
    requires WellOrdered(done, n) && IsAssistantValue(v)
    ensures WellOrdered(done, Naive(n.out[..n.start] + [v] + n.out[n.start..], n.start + 1, n.open))
  {
    var a, b := n.out[..n.start], n.out[n.start..];
    var out := a + [v] + b;
    InsertSettled(done, a, v, b);
    OpenAfterBatch(done, a, v, b);
    assert out[..n.start + 1] == a + [v] && out[n.start + 1..] == b;
  }

  lemma InsertKeeps(done: set<string>, n: Naive, kept: seq<GrokValue>, v: GrokValue)
    requires Reordered(done, n, kept) && IsAssistantValue(v) && n.open != {}
    ensures Reordered(done, Naive(n.out[..n.start] + [v] + n.out[n.start..], n.start + 1, n.open), kept + [v])
  {
    hide OpenAfter, OfKind, OthersBefore, QuietPoint, QuietPoints, Settled;
    var a, b := n.out[..n.start], n.out[n.start..];
    assert n.out == a + b;
    InsertWellOrdered(done, n, v);
    InsertPoints(done, a, v, b, kept);
    InsertKind(true, a, v, b, kept);
    InsertKind(false, a, v, b, kept);
    assert (a + [v] + b)[..n.start + 1] == a + [v];
    assert (kept + [v])[..|kept|] == kept;
  }

  lemma PushSettled(done: set<string>, vs: seq<GrokValue>, v: GrokValue)
    requires Settled(done, vs) && (IsAssistantValue(v) ==> OpenAfter(done, vs) == {})
    ensures Settled(done, vs + [v])
  {
    forall i | 0 <= i < |vs| + 1 && IsAssistantValue((vs + [v])[i])
      ensures OpenAfter(done, (vs + [v])[..i]) == {}
    {
      assert (vs + [v])[..i] == vs[..i];
      if i == |vs| { assert vs[..i] == vs; }
    }
  }

  /** Where the open batch starts after a value was appended. */
  function StartAfter(n: Naive, open: set<string>): nat {
    if open == {} then |n.out| + 1 else if n.open == {} then |n.out| else n.start
  }

  lemma PushWellOrdered(done: set<string>, n: Naive, v: GrokValue)
    requires WellOrdered(done, n) && (n.open == {} ==> n.start == |n.out|)
    requires IsAssistantValue(v) ==> n.open == {}
    ensures var open := OpenAfter(done, n.out + [v]);
            WellOrdered(done, Naive(n.out + [v], StartAfter(n, open), open))
  {
    var out := n.out + [v];
    var open := OpenAfter(done, out);
    assert n.out == n.out[..n.start] + n.out[n.start..];
    PushSettled(done, n.out, v);
    if open == {} {
      assert out[..|out|] == out && out[|out|..] == [] && out + [] == out;
    } else if n.open == {} {
      assert out[..|n.out|] == n.out && out[|n.out|..] == [v];
      assert out[..|out| - 1] == n.out;
    } else {
      assert out[..n.start] == n.out[..n.start] && out[n.start..] == n.out[n.start..] + [v];
      assert out[..n.start] + out[n.start..] == out;
    }
  }

  lemma PushKind(assistant: bool, out: seq<GrokValue>, kept: seq<GrokValue>, v: GrokValue)
    requires OfKind(assistant, out) == OfKind(assistant, kept)
    ensures OfKind(assistant, out + [v]) == OfKind(assistant, kept + [v])
  {
    OfKindConcat(assistant, out, [v]);
    OfKindConcat(assistant, kept, [v]);
  }

  lemma PushPoints(done: set<string>, n: Naive, kept: seq<GrokValue>, v: GrokValue)
    requires n.start <= |n.out| && (n.open == {} ==> n.start == |n.out|)
    requires IsAssistantValue(v) ==> n.open == {}
    requires OpenAfter(done, kept) == n.open && OpenAfter(done, kept + [v]) == OpenAfter(done, n.out + [v])
    requires OfKind(false, n.out) == OfKind(false, kept)
    requires |OfKind(false, n.out[..n.start])| == QuietPoint(done, kept)
    requires OthersBefore(n.out) == QuietPoints(done, kept)
    ensures OthersBefore(n.out + [v]) == QuietPoints(done, kept + [v])
    ensures var start := StartAfter(n, OpenAfter(done, n.out + [v]));
            start <= |n.out| + 1 && |OfKind(false, (n.out + [v])[..start])| == QuietPoint(done, kept + [v])
  {
    hide OpenAfter;
    var out := n.out + [v];
    var start := StartAfter(n, OpenAfter(done, out));
    PushKind(false, n.out, kept, v);
    assert out[..|n.out|] == n.out && out[..|out|] == out && (kept + [v])[..|kept|] == kept;
    assert n.out[..|n.out|] == n.out;
    if start == n.start { assert out[..start] == n.out[..start]; }
  }

  lemma PushKeeps(done: set<string>, n: Naive, kept: seq<GrokValue>, v: GrokValue)
    requires Reordered(done, n, kept) && (n.open == {} ==> n.start == |n.out|)
    requires IsAssistantValue(v) ==> n.open == {}
    requires OpenAfter(done, kept + [v]) == OpenAfter(done, n.out + [v])
    ensures var open := OpenAfter(done, n.out + [v]);
            Reordered(done, Naive(n.out + [v], StartAfter(n, open), open), kept + [v])
  {
    hide OpenAfter, OfKind, OthersBefore, QuietPoint, QuietPoints, QuietThenBatch, StartAfter;
    PushWellOrdered(done, n, v);
    PushPoints(done, n, kept, v);
    PushKind(true, n.out, kept, v);
    PushKind(false, n.out, kept, v);
  }

  lemma OpenStep(done: set<string>, vs: seq<GrokValue>, item: InputItem)
    requires ToGrokValue(item).Some?
    ensures OpenAfter(done, vs + [ToGrokValue(item).value]) == Opened(done, OpenAfter(done, vs), item)
  {
    var out := vs + [ToGrokValue(item).value];
    assert out[..|out| - 1] == vs;
  }

  lemma ReorderedOpen(done: set<string>, n: Naive, kept: seq<GrokValue>)
    requires Reordered(done, n, kept)
    ensures OpenAfter(done, n.out) == n.open && OpenAfter(done, kept) == n.open && n.start <= |n.out|
  {
    hide OpenAfter, OfKind, OthersBefore, QuietPoint, QuietPoints, Settled;
    assert n.out == n.out[..n.start] + n.out[n.start..];
  }

  lemma StepPushes(done: set<string>, n: Naive, item: InputItem)
    requires n.start <= |n.out| && ToGrokValue(item).Some? && !(IsAssistant(item) && n.open != {})
    ensures var out, open := n.out + [ToGrokValue(item).value], Opened(done, n.open, item);
            NaiveStep(done, n, item) == Naive(out, StartAfter(n, open), open)
  {
  }

  lemma StepReorders(done: set<string>, n: Naive, kept: seq<GrokValue>, item: InputItem)
    requires Reordered(done, n, kept) && (n.open == {} ==> n.start == |n.out|)
    requires ToGrokValue(item).Some?
    ensures n.start <= |n.out| && Reordered(done, NaiveStep(done, n, item), kept + [ToGrokValue(item).value])
  {
    hide Reordered, OpenAfter, Opened, StartAfter;
    var v := ToGrokValue(item).value;
    ReorderedOpen(done, n, kept);
    if IsAssistant(item) && n.open != {} {
      InsertKeeps(done, n, kept, v);
    } else {
      hide NaiveStep;
      OpenStep(done, n.out, item);
      OpenStep(done, kept, item);
      StepPushes(done, n, item);
      PushKeeps(done, n, kept, v);
    }
  }

  lemma {:induction false} RunReorders(done: set<string>, input: seq<InputItem>)
    ensures Reordered(done, NaiveRun(done, input), Kept(input))
  {
    if input != [] {
      var k := |input| - 1;
      RunReorders(done, input[..k]);
      if ToGrokValue(input[k]).Some? {
        StepReorders(done, NaiveRun(done, input[..k]), Kept(input[..k]), input[k]);
      }
    }
  }

  /**
  The projected input is a permutation of the kept items; assistant messages keep their
  relative order and so does everything else; no assistant message stands while a
  completed call is open; and every message stands exactly at the last quiet point before it.
  */
  lemma StableReordering(input: seq<InputItem>)
    ensures multiset(Project(input)) == multiset(Kept(input))
    ensures OfKind(true, Project(input)) == OfKind(true, Kept(input))
    ensures OfKind(false, Project(input)) == OfKind(false, Kept(input))
    ensures Settled(CompletedIds(input), Project(input))
    ensures OthersBefore(Project(input)) == QuietPoints(CompletedIds(input), Kept(input))
  {
    hide OpenAfter, OfKind, OthersBefore, QuietPoint, QuietPoints, Settled, NaiveRun, Kept, CompletedIds;
    RunReorders(CompletedIds(input), input);
    var n := NaiveRun(CompletedIds(input), input);
    assert n.out == n.out[..n.start] + n.out[n.start..];
  }

  lemma {:induction false} OthersBeforeBound(vs: seq<GrokValue>, i: nat)
    requires i < |OthersBefore(vs)|
    ensures OthersBefore(vs)[i] <= |OfKind(false, vs)|
  {
    if vs != [] && i < |OthersBefore(vs[..|vs| - 1])| {
      OthersBeforeBound(vs[..|vs| - 1], i);
    }
  }

  /** The two orders and the messages' places leave no freedom: they determine the sequence. */
  lemma {:induction false} PlacesDetermine(a: seq<GrokValue>, b: seq<GrokValue>)
    requires OfKind(true, a) == OfKind(true, b) && OfKind(false, a) == OfKind(false, b)
    requires OthersBefore(a) == OthersBefore(b)
    ensures a == b
  {
    if a != [] && b != [] {
      var x, y := a[..|a| - 1], b[..|b| - 1];
      var v, w := a[|a| - 1], b[|b| - 1];
      if IsAssistantValue(v) != IsAssistantValue(w) {
        var last := |OthersBefore(a)| - 1;
        if IsAssistantValue(v) {
          assert OthersBefore(b) == OthersBefore(y);
          OthersBeforeBound(y, last);
        } else {
          assert OthersBefore(a) == OthersBefore(x);
          OthersBeforeBound(x, last);
        }
      } else {
        SamePush(OfKind(IsAssistantValue(v), x), OfKind(IsAssistantValue(v), y), v, w);
        if IsAssistantValue(v) {
          SamePush(OthersBefore(x), OthersBefore(y), |OfKind(false, x)|, |OfKind(false, y)|);
        } else {
          assert OthersBefore(a) == OthersBefore(x) && OthersBefore(b) == OthersBefore(y);
        }
        PlacesDetermine(x, y);
        assert a == x + [v] && b == y + [w];
      }
    }
  }

  lemma SamePush<T>(x: seq<T>, y: seq<T>, v: T, w: T)
    requires x + [v] == y + [w]
    ensures x == y && v == w
  {
    assert |x + [v]| == |y + [w]|;
    assert (x + [v])[|x|] == v && (y + [w])[|y|] == w;
    assert (x + [v])[..|x|] == x && (y + [w])[..|y|] == y;
  }

  /** Any sequence with these three traits is the projection. */
  lemma ProjectionIsUnique(input: seq<InputItem>, out: seq<GrokValue>)
    requires OfKind(true, out) == OfKind(true, Kept(input))
    requires OfKind(false, out) == OfKind(false, Kept(input))
    requires OthersBefore(out) == QuietPoints(CompletedIds(input), Kept(input))
    ensures out == Project(input)
  {
    StableReordering(input);
    PlacesDetermine(out, Project(input));
  }

  lemma SettledPrefix(done: set<string>, vs: seq<GrokValue>, v: GrokValue)
    requires Settled(done, vs + [v])
    ensures Settled(done, vs)
    ensures IsAssistantValue(v) ==> OpenAfter(done, vs) == {}
  {
    var all := vs + [v];
    forall i | 0 <= i < |vs| && IsAssistantValue(vs[i])
      ensures OpenAfter(done, vs[..i]) == {}
    {
      assert all[..i] == vs[..i] && all[i] == vs[i];
    }
    assert all[..|vs|] == vs && all[|vs|] == v;
  }

  lemma {:induction false} SettledIsKept(done: set<string>, input: seq<InputItem>)
    requires Settled(done, Kept(input))
    ensures NaiveRun(done, input).out == Kept(input)
    ensures NaiveRun(done, input).open == OpenAfter(done, Kept(input))
  {
    if input != [] {
      var k := |input| - 1;
      var kept := Kept(input[..k]);
      if ToGrokValue(input[k]).Some? {
        var v := ToGrokValue(input[k]).value;
        SettledPrefix(done, kept, v);
        SettledIsKept(done, input[..k]);
        OpenStep(done, kept, input[k]);
        assert NaiveStep(done, NaiveRun(done, input[..k]), input[k]).out == kept + [v];
      } else {
        SettledIsKept(done, input[..k]);
      }
    }
  }

  /** A history is only filtered exactly when none of its messages interrupts an open batch. */
  lemma OnlyFilteredIff(input: seq<InputItem>)
    ensures Project(input) == Kept(input) <==> Settled(CompletedIds(input), Kept(input))
  {
    StableReordering(input);
    if Settled(CompletedIds(input), Kept(input)) {
      SettledIsKept(CompletedIds(input), input);
    }
  }

  /** A projected value read back as a history item. */
  function ToItem(v: GrokValue): InputItem {
    match v
    case GrokMessage(role, content) => Message(role, content)
    case GrokReasoning(id, payload) => Reasoning(id, true, payload)
    case GrokCall(name, arguments, callId) => FunctionCall(name, arguments, callId)
    case GrokOutput(callId, output) => FunctionCallOutput(callId, output)
  }

  function ToItems(vs: seq<GrokValue>): (items: seq<InputItem>)
    ensures |items| == |vs|
  {
    if vs == [] then [] else ToItems(vs[..|vs| - 1]) + [ToItem(vs[|vs| - 1])]
  }

  lemma ItemRoundTrip(v: GrokValue)
    ensures ToGrokValue(ToItem(v)) == Some(v)
  {
  }

  lemma {:induction false} KeptItems(vs: seq<GrokValue>)
    ensures Kept(ToItems(vs)) == vs
  {
    if vs != [] {
      var init, last := vs[..|vs| - 1], vs[|vs| - 1];
      KeptItems(init);
      ItemRoundTrip(last);
      KeptPush(ToItems(init), ToItem(last));
      calc {
        Kept(ToItems(vs));
        Kept(ToItems(init) + [ToItem(last)]);
        init + [last];
        vs;
      }
    }
  }

  lemma {:induction false} KeptMembers(input: seq<InputItem>, v: GrokValue)
    ensures v in Kept(input) <==> exists i :: 0 <= i < |input| && ToGrokValue(input[i]) == Some(v)
  {
    if input != [] {
      var k := |input| - 1;
      KeptMembers(input[..k], v);
      assert input == input[..k] + [input[k]];
      if v in Kept(input[..k]) {
        var i :| 0 <= i < k && ToGrokValue(input[..k][i]) == Some(v);
        assert ToGrokValue(input[i]) == Some(v);
      }
      if i :| 0 <= i < |input| && ToGrokValue(input[i]) == Some(v) {
        if i < k { assert ToGrokValue(input[..k][i]) == Some(v); }
      }
    }
  }

  /** The answered call ids, read off the projected values. */
  ghost predicate AnsweredIn(vs: seq<GrokValue>, id: string) {
    exists output :: GrokOutput(id, output) in vs
  }

  lemma CompletedIdsAreAnswered(input: seq<InputItem>, id: string)
    ensures id in CompletedIds(input) <==> AnsweredIn(Kept(input), id)
  {
    if id in CompletedIds(input) {
      var i :| 0 <= i < |input| && IsOutput(input[i]) && input[i].callId == id;
      var v := ToGrokValue(input[i]).value;
      KeptMembers(input, v);
      assert GrokOutput(id, v.output) in Kept(input);
    }
    if AnsweredIn(Kept(input), id) {
      var output :| GrokOutput(id, output) in Kept(input);
      KeptMembers(input, GrokOutput(id, output));
    }
  }

  lemma SameCompletedIds(input: seq<InputItem>)
    ensures CompletedIds(ToItems(Project(input))) == CompletedIds(input)
  {
    StableReordering(input);
    var vs := Project(input);
    KeptItems(vs);
    forall id
      ensures id in CompletedIds(ToItems(vs)) <==> id in CompletedIds(input)
    {
      CompletedIdsAreAnswered(input, id);
      CompletedIdsAreAnswered(ToItems(vs), id);
      assert forall v :: v in vs <==> v in multiset(vs);
      assert forall v :: v in Kept(input) <==> v in multiset(Kept(input));
    }
  }

  /** Projecting an already projected history changes nothing. */
  lemma ProjectionIsIdempotent(input: seq<InputItem>)
    ensures Project(ToItems(Project(input))) == Project(input)
  {
    StableReordering(input);
    SameCompletedIds(input);
    KeptItems(Project(input));
    OnlyFilteredIff(ToItems(Project(input)));
  }

  // ---------------------------------------------------------------------
  // What is sent upstream
  // ---------------------------------------------------------------------

  /** Items of another model, and reasoning that another model encrypted. */
  predicate Foreign(item: InputItem) {
    || item.ForeignAgentMessage? || item.ForeignCustomToolCall? || item.ForeignCustomToolCallOutput?
    || (item.Reasoning? && !item.grok)
  }

  /** The items a value can stand for, read from the value. */
  predicate StandsFor(v: GrokValue, item: InputItem) {
    match v
    case GrokMessage(role, content) => item == Message(role, content)
    case GrokReasoning(id, payload) => item == Reasoning(id, true, payload)
    case GrokCall(name, arguments, callId) =>
      item == FunctionCall(name, arguments, callId)
      || (name == "tool_search" && item == ToolSearchCall(callId, arguments))
    case GrokOutput(callId, output) =>
      item == FunctionCallOutput(callId, output) || item == ToolSearchOutput(callId, output)
  }

  /** How many items of a history are the bridge's own. */
  function OwnItems(input: seq<InputItem>): nat {
    if input == [] then 0
    else OwnItems(input[..|input| - 1]) + if Foreign(input[|input| - 1]) then 0 else 1
  }

  lemma ValueStandsFor(item: InputItem, v: GrokValue)
    ensures ToGrokValue(item) == Some(v) <==> StandsFor(v, item)
    ensures ToGrokValue(item).None? <==> Foreign(item)
  {
  }

  /** The kept values are the items that are not foreign, one for one and in order. */
  lemma {:induction false} KeptStandFor(input: seq<InputItem>)
    ensures |Kept(input)| == OwnItems(input)
    ensures forall i :: 0 <= i < |input| && !Foreign(input[i]) ==>
      OwnItems(input[..i]) < |Kept(input)| && StandsFor(Kept(input)[OwnItems(input[..i])], input[i])
  {
    hide ToGrokValue, Foreign, StandsFor;
    if input != [] {
      var k := |input| - 1;
      KeptStandFor(input[..k]);
      if ToGrokValue(input[k]).Some? {
        ValueStandsFor(input[k], ToGrokValue(input[k]).value);
      } else {
        ValueStandsFor(input[k], GrokOutput("", ""));
      }
      forall i | 0 <= i < |input| && !Foreign(input[i])
        ensures OwnItems(input[..i]) < |Kept(input)| && StandsFor(Kept(input)[OwnItems(input[..i])], input[i])
      {
        if i < k { assert input[..k][..i] == input[..i] && input[..k][i] == input[i]; }
      }
    }
  }

  ghost predicate IsSent(input: seq<InputItem>, v: GrokValue) {
    exists item :: item in input && StandsFor(v, item)
  }

  /**
  Exactly the bridge's own items are sent, one value for each; nothing of another model is.
  */
  lemma SentValues(input: seq<InputItem>)
    ensures |Project(input)| == OwnItems(input)
    ensures forall v :: v in Project(input) <==> IsSent(input, v)
  {
    hide ToGrokValue, Project, Foreign, StandsFor;
    StableReordering(input);
    KeptStandFor(input);
    assert |Project(input)| == |multiset(Project(input))|;
    forall v
      ensures v in Project(input) <==> IsSent(input, v)
    {
      assert v in Project(input) <==> v in multiset(Project(input));
      assert v in Kept(input) <==> v in multiset(Kept(input));
      KeptMembers(input, v);
      KeptIsSent(input, v);
    }
  }

  lemma KeptIsSent(input: seq<InputItem>, v: GrokValue)
    ensures (exists i :: 0 <= i < |input| && ToGrokValue(input[i]) == Some(v)) <==> IsSent(input, v)
  {
    hide ToGrokValue, StandsFor;
    if i :| 0 <= i < |input| && ToGrokValue(input[i]) == Some(v) { ValueStandsFor(input[i], v); }
    if item :| item in input && StandsFor(v, item) {
      ValueStandsFor(item, v);
      var i :| 0 <= i < |input| && input[i] == item;
      assert ToGrokValue(input[i]) == Some(v);
    }
  }

  /** The same kind by kind. */
  lemma SentByKind(input: seq<InputItem>)
    ensures forall role, content ::
      GrokMessage(role, content) in Project(input) <==> Message(role, content) in input
    ensures forall id, payload ::
      GrokReasoning(id, payload) in Project(input) <==> Reasoning(id, true, payload) in input
    ensures forall name, arguments, id ::
      GrokCall(name, arguments, id) in Project(input) <==>
        FunctionCall(name, arguments, id) in input
        || (name == "tool_search" && ToolSearchCall(id, arguments) in input)
    ensures forall id, output ::
      GrokOutput(id, output) in Project(input) <==>
        FunctionCallOutput(id, output) in input || ToolSearchOutput(id, output) in input
  {
    hide Project;
    SentValues(input);
    forall name, arguments, id
      ensures IsSent(input, GrokCall(name, arguments, id)) <==>
              FunctionCall(name, arguments, id) in input
              || (name == "tool_search" && ToolSearchCall(id, arguments) in input)
    {
      assert StandsFor(GrokCall(name, arguments, id), FunctionCall(name, arguments, id));
    }
  }

  // ---------------------------------------------------------------------
  // Parsing the history: pairing calls with outputs
  // ---------------------------------------------------------------------

  datatype ParseError = InvalidItem | UnmatchedFunctionOutput | NameClash

  /**
  One element of the request's `input`, after its own fields were read: a known item,
  a call that carries a namespace, a type the bridge does not know, or a broken item.
  */
  datatype RawItem =
    | Known(item: InputItem)
    | NamespacedCall(native: NativeToolName, arguments: string, callId: string)
    | UnknownType
    | Broken

  function ItemsOf(raw: RawItem): seq<InputItem> {
    match raw
    case Known(item) => [item]
    case NamespacedCall(native, arguments, callId) => [FunctionCall(Flat(native), arguments, callId)]
    case UnknownType => []
    case Broken => []
  }

  datatype ParseState = ParseState(calls: set<string>, outputs: set<string>, parsed: seq<InputItem>, maps: Maps)

  function Admit(st: ParseState, item: InputItem): Result<ParseState, ParseError> {
    if IsCall(item) then Ok(st.(calls := st.calls + {item.callId}, parsed := st.parsed + [item]))
    else if IsOutput(item) then
      if item.callId !in st.calls then Err(UnmatchedFunctionOutput)
      else if item.callId in st.outputs then Ok(st)
      else Ok(st.(outputs := st.outputs + {item.callId}, parsed := st.parsed + [item]))
    else Ok(st.(parsed := st.parsed + [item]))
  }

  function ParseStep(st: ParseState, raw: RawItem): Result<ParseState, ParseError> {
    match raw
    case UnknownType => Ok(st)
    case Broken => Err(InvalidItem)
    case Known(item) => Admit(st, item)
    case NamespacedCall(native, arguments, callId) =>
      match Ensured(st.maps, native)
      case Err(_) => Err(NameClash)
      case Ok(maps) => Admit(st.(maps := maps), FunctionCall(Flat(native), arguments, callId))
  }

  function ParseRun(maps: Maps, values: seq<RawItem>): Result<ParseState, ParseError> {
    if values == [] then Ok(ParseState({}, {}, [], maps))
    else
      match ParseRun(maps, values[..|values| - 1])
      case Err(e) => Err(e)
      case Ok(st) => ParseStep(st, values[|values| - 1])
  }

  lemma {:induction false} ParseErrorPersists(maps: Maps, values: seq<RawItem>, i: nat)
    requires i <= |values| && ParseRun(maps, values[..i]).Err?
    ensures ParseRun(maps, values) == ParseRun(maps, values[..i])
    decreases |values|
  {
    if i < |values| {
      var k := |values| - 1;
      assert values[..k][..i] == values[..i];
      ParseErrorPersists(maps, values[..k], i);
    } else {
      assert values[..i] == values;
    }
  }

  method ParseInput(values: seq<RawItem>, projection: NamespaceToolProjection)
    returns (r: Result<seq<InputItem>, ParseError>)
    requires projection.Value().Valid()
    modifies projection
    ensures projection.Value().Valid()
    ensures match ParseRun(old(projection.Value()), values)
            case Ok(st) => r == Ok(st.parsed) && projection.Value() == st.maps
            case Err(e) => r == Err(e)
  {
    ghost var maps := projection.Value();
    var calls: set<string> := {};
    var outputs: set<string> := {};
    var parsed: seq<InputItem> := [];
    for i := 0 to |values|
      invariant projection.Value().Valid()
      invariant ParseRun(maps, values[..i]) == Ok(ParseState(calls, outputs, parsed, projection.Value()))
    {
      assert values[..i + 1][..i] == values[..i];
      ghost var next := ParseRun(maps, values[..i + 1]);
      if next.Err? { ParseErrorPersists(maps, values, i + 1); }
      var item: InputItem;
      match values[i] {
        case UnknownType => continue;
        case Broken => return Err(InvalidItem);
        case Known(known) => item := known;
        case NamespacedCall(native, arguments, callId) =>
          var name := projection.EnsureProviderName(native);
          if name.Err? {
            return Err(NameClash);
          }
          item := FunctionCall(name.value, arguments, callId);
      }
      if IsCall(item) {
        calls := calls + {item.callId};
      } else if IsOutput(item) {
        if item.callId !in calls {
          return Err(UnmatchedFunctionOutput);
        }
        if item.callId in outputs {
          continue;
        }
        outputs := outputs + {item.callId};
      }
      parsed := parsed + [item];
    }
    assert values[..|values|] == values;
    return Ok(parsed);
  }

  // What a successful parse means, without its state.

  function Items(values: seq<RawItem>): seq<InputItem> {
    if values == [] then [] else Items(values[..|values| - 1]) + ItemsOf(values[|values| - 1])
  }

  function Replays(values: seq<RawItem>): seq<NativeToolName> {
    if values == [] then []
    else
      Replays(values[..|values| - 1]) + ReplaysOf(values[|values| - 1])
  }

  ghost predicate CalledIn(items: seq<InputItem>, id: string) {
    exists i :: 0 <= i < |items| && IsCall(items[i]) && items[i].callId == id
  }

  ghost predicate OutputsFollowCalls(items: seq<InputItem>) {
    forall i :: 0 <= i < |items| && IsOutput(items[i]) ==> CalledIn(items[..i], items[i].callId)
  }

  /** The first output of every call stays, later ones go. */
  ghost function FirstOutputs(items: seq<InputItem>): seq<InputItem> {
    if items == [] then []
    else
      var earlier, last := items[..|items| - 1], items[|items| - 1];
      if IsOutput(last) && last.callId in CompletedIds(earlier) then FirstOutputs(earlier)
      else FirstOutputs(earlier) + [last]
  }

  lemma CalledPush(items: seq<InputItem>, item: InputItem, id: string)
    ensures CalledIn(items + [item], id) <==> CalledIn(items, id) || (IsCall(item) && item.callId == id)
  {
    var all := items + [item];
    if CalledIn(items, id) {
      var i :| 0 <= i < |items| && IsCall(items[i]) && items[i].callId == id;
      assert IsCall(all[i]) && all[i].callId == id;
    }
    assert all[|items|] == item;
  }

  lemma FollowPush(items: seq<InputItem>, item: InputItem)
    ensures OutputsFollowCalls(items + [item]) <==>
            OutputsFollowCalls(items) && (IsOutput(item) ==> CalledIn(items, item.callId))
  {
    var all := items + [item];
    assert forall i :: 0 <= i <= |items| ==> all[..i] == items[..i];
    assert items[..|items|] == items && all[|items|] == item;
    if OutputsFollowCalls(all) {
      forall i | 0 <= i < |items| && IsOutput(items[i])
        ensures CalledIn(items[..i], items[i].callId)
      {
        assert all[i] == items[i];
      }
    }
  }

  /** The parse state describes the items read so far. */
  ghost predicate Describes(st: ParseState, items: seq<InputItem>) {
    && (forall id :: id in st.calls <==> CalledIn(items, id))
    && st.outputs == CompletedIds(items)
    && st.parsed == FirstOutputs(items)
  }

  lemma AdmitDescribes(st: ParseState, items: seq<InputItem>, item: InputItem)
    requires Describes(st, items)
    ensures Admit(st, item).Ok? <==> (IsOutput(item) ==> CalledIn(items, item.callId))
    ensures Admit(st, item).Ok? ==>
      Describes(Admit(st, item).value, items + [item]) && Admit(st, item).value.maps == st.maps
  {
    assert (items + [item])[..|items|] == items;
    CompletedPush(items, item);
    forall id
      ensures CalledIn(items + [item], id) <==> CalledIn(items, id) || (IsCall(item) && item.callId == id)
    {
      CalledPush(items, item, id);
    }
  }

  function ReplaysOf(raw: RawItem): seq<NativeToolName> {
    if raw.NamespacedCall? then [raw.native] else []
  }

  lemma ReplaysPush(maps: Maps, replays: seq<NativeToolName>, raw: RawItem)
    ensures var all := EnsuredAll(maps, replays + ReplaysOf(raw));
            if EnsuredAll(maps, replays).Err? then all.Err?
            else if raw.NamespacedCall? then all == Ensured(EnsuredAll(maps, replays).value, raw.native)
            else all == EnsuredAll(maps, replays)
  {
    if raw.NamespacedCall? {
      assert (replays + [raw.native])[..|replays|] == replays;
    } else {
      assert replays + ReplaysOf(raw) == replays;
    }
  }

  lemma StepDescribes(st: ParseState, items: seq<InputItem>, raw: RawItem)
    requires Describes(st, items)
    requires OutputsFollowCalls(items)
    ensures ParseStep(st, raw).Ok? <==>
      && !raw.Broken?
      && (raw.NamespacedCall? ==> Ensured(st.maps, raw.native).Ok?)
      && OutputsFollowCalls(items + ItemsOf(raw))
    ensures ParseStep(st, raw).Ok? ==>
      && Describes(ParseStep(st, raw).value, items + ItemsOf(raw))
      && ParseStep(st, raw).value.maps == if raw.NamespacedCall? then Ensured(st.maps, raw.native).value else st.maps
  {
    if raw.Known? {
      FollowPush(items, raw.item);
      AdmitDescribes(st, items, raw.item);
    } else if raw.NamespacedCall? {
      var item := FunctionCall(Flat(raw.native), raw.arguments, raw.callId);
      FollowPush(items, item);
      if Ensured(st.maps, raw.native).Ok? {
        AdmitDescribes(st.(maps := Ensured(st.maps, raw.native).value), items, item);
      }
    } else {
      assert items + ItemsOf(raw) == items;
    }
  }

  lemma FollowPrefix(items: seq<InputItem>, raw: RawItem)
    requires OutputsFollowCalls(items + ItemsOf(raw))
    ensures OutputsFollowCalls(items)
  {
    if |ItemsOf(raw)| == 1 {
      FollowPush(items, ItemsOf(raw)[0]);
    } else {
      assert items + ItemsOf(raw) == items;
    }
  }

  ghost predicate Parses(maps: Maps, values: seq<RawItem>) {
    && Broken !in values
    && OutputsFollowCalls(Items(values))
    && EnsuredAll(maps, Replays(values)).Ok?
  }

  lemma ParsesPush(maps: Maps, values: seq<RawItem>, raw: RawItem)
    ensures Items(values + [raw]) == Items(values) + ItemsOf(raw)
    ensures Replays(values + [raw]) == Replays(values) + ReplaysOf(raw)
    ensures Parses(maps, values + [raw]) ==> Parses(maps, values)
  {
    assert (values + [raw])[..|values|] == values;
    ReplaysPush(maps, Replays(values), raw);
    if OutputsFollowCalls(Items(values + [raw])) { FollowPrefix(Items(values), raw); }
  }

  lemma ParseRunPush(maps: Maps, values: seq<RawItem>, raw: RawItem)
    requires Parses(maps, values) && ParseRun(maps, values).Ok?
    requires Describes(ParseRun(maps, values).value, Items(values))
    requires EnsuredAll(maps, Replays(values)) == Ok(ParseRun(maps, values).value.maps)
    ensures ParseRun(maps, values + [raw]).Ok? <==> Parses(maps, values + [raw])
    ensures ParseRun(maps, values + [raw]).Ok? ==>
      && Describes(ParseRun(maps, values + [raw]).value, Items(values + [raw]))
      && EnsuredAll(maps, Replays(values + [raw])) == Ok(ParseRun(maps, values + [raw]).value.maps)
  {
    assert (values + [raw])[..|values|] == values;
    ParsesPush(maps, values, raw);
    ReplaysPush(maps, Replays(values), raw);
    StepDescribes(ParseRun(maps, values).value, Items(values), raw);
  }

  lemma {:induction false} ParseRunIff(maps: Maps, values: seq<RawItem>)
    ensures ParseRun(maps, values).Ok? <==> Parses(maps, values)
    ensures ParseRun(maps, values).Ok? ==>
      && Describes(ParseRun(maps, values).value, Items(values))
      && EnsuredAll(maps, Replays(values)) == Ok(ParseRun(maps, values).value.maps)
  {
    if values != [] {
      var k := |values| - 1;
      ParseRunIff(maps, values[..k]);
      assert values == values[..k] + [values[k]];
      ParsesPush(maps, values[..k], values[k]);
      if ParseRun(maps, values[..k]).Ok? { ParseRunPush(maps, values[..k], values[k]); }
    }
  }

  /**
  Parsing succeeds exactly when no item is broken, every output follows a call with its
  id, and the replayed names are unambiguous; it then yields the known items in order
  with only the first output of each call.
  */
  lemma {:induction false} ParseSucceedsIff(maps: Maps, values: seq<RawItem>)
    requires maps.Valid()
    ensures ParseRun(maps, values).Ok? <==>
      && Broken !in values
      && OutputsFollowCalls(Items(values))
      && Unambiguous(maps.toProvider.Keys + Replayed(Replays(values)))
    ensures ParseRun(maps, values).Ok? ==>
      && Describes(ParseRun(maps, values).value, Items(values))
      && EnsuredAll(maps, Replays(values)) == Ok(ParseRun(maps, values).value.maps)
  {
    ParseRunIff(maps, values);
    ReplaysRestore(maps, Replays(values));
  }

  // ---------------------------------------------------------------------
  // Calls and outputs stay paired upstream
  // ---------------------------------------------------------------------

  ghost predicate HasCall(vs: seq<GrokValue>, id: string) {
    exists name, arguments :: GrokCall(name, arguments, id) in vs
  }

  /** Read from the front, every output answers an earlier call that was not answered yet. */
  ghost predicate Paired(vs: seq<GrokValue>) {
    forall i :: 0 <= i < |vs| && vs[i].GrokOutput? ==>
      HasCall(vs[..i], vs[i].callId) && !AnsweredIn(vs[..i], vs[i].callId)
  }

  lemma PairedPush(vs: seq<GrokValue>, v: GrokValue)
    ensures Paired(vs + [v]) <==>
            Paired(vs) && (v.GrokOutput? ==> HasCall(vs, v.callId) && !AnsweredIn(vs, v.callId))
  {
    var all := vs + [v];
    assert forall i :: 0 <= i <= |vs| ==> all[..i] == vs[..i];
    assert vs[..|vs|] == vs && all[|vs|] == v;
    if Paired(all) {
      forall i | 0 <= i < |vs| && vs[i].GrokOutput?
        ensures HasCall(vs[..i], vs[i].callId) && !AnsweredIn(vs[..i], vs[i].callId)
      {
        assert all[i] == vs[i];
      }
    }
  }

  lemma {:induction false} OfKindMembers(assistant: bool, vs: seq<GrokValue>, v: GrokValue)
    ensures v in OfKind(assistant, vs) <==> v in vs && IsAssistantValue(v) == assistant
  {
    if vs != [] {
      var k := |vs| - 1;
      OfKindMembers(assistant, vs[..k], v);
      assert vs == vs[..k] + [vs[k]];
    }
  }

  lemma {:induction false} PairedIgnoresMessages(vs: seq<GrokValue>)
    ensures Paired(vs) <==> Paired(OfKind(false, vs))
  {
    if vs != [] {
      var k := |vs| - 1;
      var init := vs[..k];
      PairedIgnoresMessages(init);
      assert vs == init + [vs[k]];
      PairedPush(init, vs[k]);
      PairedPush(OfKind(false, init), vs[k]);
      forall v
        ensures v in OfKind(false, init) <==> v in init && !IsAssistantValue(v)
      {
        OfKindMembers(false, init, v);
      }
    }
  }

  lemma FirstOutputsPush(items: seq<InputItem>, item: InputItem)
    ensures FirstOutputs(items + [item]) ==
            if IsOutput(item) && item.callId in CompletedIds(items) then FirstOutputs(items)
            else FirstOutputs(items) + [item]
  {
    assert (items + [item])[..|items|] == items;
  }

  lemma IdsPush(vs: seq<GrokValue>, items: seq<InputItem>, item: InputItem, id: string)
    requires HasCall(vs, id) <==> CalledIn(items, id)
    requires AnsweredIn(vs, id) <==> id in CompletedIds(items)
    ensures var out := if ToGrokValue(item).Some? then vs + [ToGrokValue(item).value] else vs;
            && (HasCall(out, id) <==> CalledIn(items + [item], id))
            && (AnsweredIn(out, id) <==> id in CompletedIds(items + [item]))
  {
    CompletedPush(items, item);
    CalledPush(items, item, id);
    if ToGrokValue(item).Some? { PushIds(vs, ToGrokValue(item).value, id); }
  }

  lemma {:induction false} FirstOutputsIds(items: seq<InputItem>, id: string)
    ensures HasCall(Kept(FirstOutputs(items)), id) <==> CalledIn(items, id)
    ensures AnsweredIn(Kept(FirstOutputs(items)), id) <==> id in CompletedIds(items)
  {
    if items != [] {
      var k := |items| - 1;
      FirstOutputsIds(items[..k], id);
      assert items == items[..k] + [items[k]];
      FirstOutputsPush(items[..k], items[k]);
      KeptPush(FirstOutputs(items[..k]), items[k]);
      if IsOutput(items[k]) && items[k].callId in CompletedIds(items[..k]) {
        CompletedPush(items[..k], items[k]);
        CalledPush(items[..k], items[k], id);
      } else {
        IdsPush(Kept(FirstOutputs(items[..k])), items[..k], items[k], id);
      }
    }
  }

  lemma PushIds(vs: seq<GrokValue>, v: GrokValue, id: string)
    ensures HasCall(vs + [v], id) <==> HasCall(vs, id) || (v.GrokCall? && v.callId == id)
    ensures AnsweredIn(vs + [v], id) <==> AnsweredIn(vs, id) || (v.GrokOutput? && v.callId == id)
  {
    var all := vs + [v];
    assert forall w :: w in all <==> w in vs || w == v;
    if v.GrokCall? && v.callId == id { assert GrokCall(v.name, v.arguments, id) in all; }
    if v.GrokOutput? && v.callId == id { assert GrokOutput(id, v.output) in all; }
  }

  lemma {:induction false} FirstOutputsPaired(items: seq<InputItem>)
    requires OutputsFollowCalls(items)
    ensures Paired(Kept(FirstOutputs(items)))
  {
    if items != [] {
      var k := |items| - 1;
      var init, last := items[..k], items[k];
      assert items == init + [last];
      FollowPush(init, last);
      FirstOutputsPaired(init);
      KeptPush(FirstOutputs(init), last);
      if ToGrokValue(last).Some? {
        PairedPush(Kept(FirstOutputs(init)), ToGrokValue(last).value);
        if IsOutput(last) { FirstOutputsIds(init, last.callId); }
      }
    }
  }

  /**
  Whatever history parses, the projected input answers every call at most once and only
  after that call, although assistant messages were moved.
  */
  lemma ProjectedOutputsArePaired(maps: Maps, values: seq<RawItem>)
    requires maps.Valid() && ParseRun(maps, values).Ok?
    ensures Paired(Project(ParseRun(maps, values).value.parsed))
  {
    ParseSucceedsIff(maps, values);
    var parsed := ParseRun(maps, values).value.parsed;
    FirstOutputsPaired(Items(values));
    StableReordering(parsed);
    PairedIgnoresMessages(Kept(parsed));
    PairedIgnoresMessages(Project(parsed));
  }

  /** The pairing in terms of positions. */
  lemma PairedPositions(vs: seq<GrokValue>)
    ensures Paired(vs) <==>
      && (forall j :: 0 <= j < |vs| && vs[j].GrokOutput? ==>
            exists i :: 0 <= i < j && vs[i].GrokCall? && vs[i].callId == vs[j].callId)
      && (forall i, j :: 0 <= i < j < |vs| && vs[i].GrokOutput? && vs[j].GrokOutput? ==> vs[i].callId != vs[j].callId)
  {
    forall j | 0 <= j < |vs| && vs[j].GrokOutput?
      ensures HasCall(vs[..j], vs[j].callId) <==>
              exists i :: 0 <= i < j && vs[i].GrokCall? && vs[i].callId == vs[j].callId
      ensures AnsweredIn(vs[..j], vs[j].callId) <==>
              exists i :: 0 <= i < j && vs[i].GrokOutput? && vs[i].callId == vs[j].callId
    {
      if i :| 0 <= i < j && vs[i].GrokCall? && vs[i].callId == vs[j].callId {
        assert vs[..j][i] == GrokCall(vs[i].name, vs[i].arguments, vs[j].callId);
      }
      if i :| 0 <= i < j && vs[i].GrokOutput? && vs[i].callId == vs[j].callId {
        assert vs[..j][i] == GrokOutput(vs[j].callId, vs[i].output);
      }
    }
  }

  // ---------------------------------------------------------------------
  // From the request to what is sent
  // ---------------------------------------------------------------------

  /** The item that an element of the request stands for; a namespaced call goes under its flat name. */
  ghost predicate Gives(raw: RawItem, item: InputItem) {
    || raw == Known(item)
    || (raw.NamespacedCall?
        && item == FunctionCall(raw.native.namespace + "__" + raw.native.name, raw.arguments, raw.callId))
  }

  ghost predicate AnsweredBefore(values: seq<RawItem>, id: string) {
    exists i :: 0 <= i < |values| && values[i].Known? && IsOutput(values[i].item) && values[i].item.callId == id
  }

  /** The element that an item of the parsed history comes from: for an output, the first one of its call. */
  ghost predicate ComesFrom(values: seq<RawItem>, i: int, item: InputItem) {
    && 0 <= i < |values| && Gives(values[i], item)
    && (IsOutput(item) ==> !AnsweredBefore(values[..i], item.callId))
  }

  ghost predicate IsTaken(values: seq<RawItem>, item: InputItem) {
    exists i :: ComesFrom(values, i, item)
  }

  lemma AnsweredPush(values: seq<RawItem>, raw: RawItem, id: string)
    ensures AnsweredBefore(values + [raw], id) <==>
            AnsweredBefore(values, id) || (raw.Known? && IsOutput(raw.item) && raw.item.callId == id)
  {
    var all := values + [raw];
    assert all[|values|] == raw;
    assert forall i :: 0 <= i < |values| ==> all[i] == values[i];
  }

  lemma TakenPush(values: seq<RawItem>, raw: RawItem, item: InputItem)
    ensures IsTaken(values + [raw], item) <==>
            IsTaken(values, item)
            || (Gives(raw, item) && (IsOutput(item) ==> !AnsweredBefore(values, item.callId)))
  {
    hide AnsweredBefore, Gives;
    var all := values + [raw];
    assert all[|values|] == raw && all[..|values|] == values;
    forall i | 0 <= i < |values|
      ensures ComesFrom(all, i, item) <==> ComesFrom(values, i, item)
    {
      assert all[i] == values[i] && all[..i] == values[..i];
    }
    if i :| ComesFrom(values, i, item) { assert ComesFrom(all, i, item); }
    if Gives(raw, item) && (IsOutput(item) ==> !AnsweredBefore(values, item.callId)) {
      assert ComesFrom(all, |values|, item);
    }
  }

  lemma ItemsPush(values: seq<RawItem>, raw: RawItem)
    ensures Items(values + [raw]) == Items(values) + ItemsOf(raw)
    ensures |ItemsOf(raw)| <= 1
    ensures forall item :: item in ItemsOf(raw) <==> Gives(raw, item)
  {
    assert (values + [raw])[..|values|] == values;
  }

  lemma {:induction false} AnsweredIds(values: seq<RawItem>, id: string)
    ensures id in CompletedIds(Items(values)) <==> AnsweredBefore(values, id)
  {
    hide CompletedIds, AnsweredBefore, Items;
    if values == [] {
      NothingAnswered(id);
    } else {
      var init, last := values[..|values| - 1], values[|values| - 1];
      AnsweredIds(init, id);
      assert values == init + [last];
      AnsweredPush(init, last, id);
      ItemsPush(init, last);
      if ItemsOf(last) == [] {
        assert Items(init) + [] == Items(init);
        NoItemNoAnswer(last);
      } else {
        assert ItemsOf(last) == [ItemsOf(last)[0]];
        CompletedPush(Items(init), ItemsOf(last)[0]);
      }
    }
  }

  lemma NothingAnswered(id: string)
    ensures id !in CompletedIds(Items([])) && !AnsweredBefore([], id)
  {
  }

  lemma NoItemNoAnswer(raw: RawItem)
    requires ItemsOf(raw) == []
    ensures !raw.Known?
  {
  }

  /** The parsed history, item by item, in terms of the request's elements. */
  lemma {:induction false} ParsedItems(values: seq<RawItem>, item: InputItem)
    ensures item in FirstOutputs(Items(values)) <==> IsTaken(values, item)
  {
    hide CompletedIds, AnsweredBefore, Items, Gives, IsTaken;
    if values == [] {
      NothingTaken(item);
    } else {
      var init, last := values[..|values| - 1], values[|values| - 1];
      ParsedItems(init, item);
      assert values == init + [last];
      TakenPush(init, last, item);
      ItemsPush(init, last);
      if ItemsOf(last) == [] {
        assert Items(init) + [] == Items(init);
      } else {
        var added := ItemsOf(last)[0];
        assert ItemsOf(last) == [added];
        FirstOutputsPush(Items(init), added);
        if IsOutput(added) { AnsweredIds(init, added.callId); }
      }
    }
  }

  lemma NothingTaken(item: InputItem)
    ensures item !in FirstOutputs(Items([])) && !IsTaken([], item)
  {
  }

  /**
  What Grok receives for a request that parses, in terms of the request: the messages, Grok's
  own reasoning, every call under its flat name, and the first output of every call.
  */
  lemma RequestIsSent(maps: Maps, values: seq<RawItem>)
    requires maps.Valid() && ParseRun(maps, values).Ok?
    ensures var sent := Project(ParseRun(maps, values).value.parsed);
            && (forall role, content ::
                  GrokMessage(role, content) in sent <==> Known(Message(role, content)) in values)
            && (forall id, payload ::
                  GrokReasoning(id, payload) in sent <==> Known(Reasoning(id, true, payload)) in values)
            && (forall name, arguments, id ::
                  GrokCall(name, arguments, id) in sent <==>
                    || Known(FunctionCall(name, arguments, id)) in values
                    || (name == "tool_search" && Known(ToolSearchCall(id, arguments)) in values)
                    || exists native :: NamespacedCall(native, arguments, id) in values
                                        && name == native.namespace + "__" + native.name)
            && (forall id, output ::
                  GrokOutput(id, output) in sent <==>
                    || IsTaken(values, FunctionCallOutput(id, output))
                    || IsTaken(values, ToolSearchOutput(id, output)))
  {
    hide Project, ParseRun, IsTaken, Gives, CompletedIds, CalledIn, Unambiguous, Items, FirstOutputs;
    ParseSucceedsIff(maps, values);
    var parsed := ParseRun(maps, values).value.parsed;
    assert parsed == FirstOutputs(Items(values));
    SentByKind(parsed);
    forall item
      ensures item in parsed <==> IsTaken(values, item)
    {
      ParsedItems(values, item);
    }
    forall name, arguments, id
      ensures IsTaken(values, FunctionCall(name, arguments, id)) <==>
              || Known(FunctionCall(name, arguments, id)) in values
              || exists native :: NamespacedCall(native, arguments, id) in values
                                  && name == native.namespace + "__" + native.name
    {
      CallIsTaken(values, name, arguments, id);
    }
    forall item | !IsOutput(item) && !item.FunctionCall?
      ensures IsTaken(values, item) <==> Known(item) in values
    {
      KnownIsTaken(values, item);
    }
  }

  lemma KnownIsTaken(values: seq<RawItem>, item: InputItem)
    requires !IsOutput(item) && !item.FunctionCall?
    ensures IsTaken(values, item) <==> Known(item) in values
  {
    hide IsTaken;
    TakenAnywhere(values, item);
    assert Gives(Known(item), item);
  }

  lemma TakenAnywhere(values: seq<RawItem>, item: InputItem)
    requires !IsOutput(item)
    ensures IsTaken(values, item) <==> exists raw :: raw in values && Gives(raw, item)
  {
    hide Gives;
    if i :| ComesFrom(values, i, item) { assert values[i] in values; }
    if raw :| raw in values && Gives(raw, item) {
      var i :| 0 <= i < |values| && values[i] == raw;
      assert ComesFrom(values, i, item);
    }
  }

  lemma CallIsTaken(values: seq<RawItem>, name: string, arguments: string, id: string)
    ensures IsTaken(values, FunctionCall(name, arguments, id)) <==>
            || Known(FunctionCall(name, arguments, id)) in values
            || exists native :: NamespacedCall(native, arguments, id) in values
                                && name == native.namespace + "__" + native.name
  {
    var item := FunctionCall(name, arguments, id);
    hide IsTaken;
    TakenAnywhere(values, item);
    if raw :| raw in values && Gives(raw, item) {
      if raw.NamespacedCall? { assert raw == NamespacedCall(raw.native, arguments, id); }
    }
    if Known(item) in values { assert Gives(Known(item), item); }
    if native :| NamespacedCall(native, arguments, id) in values && name == native.namespace + "__" + native.name {
      assert Gives(NamespacedCall(native, arguments, id), item);
    }
  }
}
