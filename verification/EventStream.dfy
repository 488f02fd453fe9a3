/**
The event stream from Grok to Codex: the validator of single events, the stream adapter that
supplies a missing completion at the end, and the adapter that closes an unfinished block.
*/
module EventStream {
  import opened Outcomes
  import opened Json
  import opened Text
  import opened Words

  // ---------------------------------------------------------------------
  // One event
  // ---------------------------------------------------------------------

  datatype StreamState = AwaitingCreated | Streaming | Completed | Failed | Incomplete

  predicate Terminal(s: StreamState) {
    s == Completed || s == Failed || s == Incomplete
  }

  /** The lifecycle kinds carry the response identifier of the event; other payloads are not interpreted. */
  datatype Kind =
    | ResponseCompleted(id: string) | ResponseFailed(id: string) | ResponseIncomplete(id: string)
    | Other(eventType: string)

  datatype Event = Event(sequence: nat, kind: Kind, original: Json)

  function ObjectAt(o: Fields, key: string): Option<Fields> {
    if key in o && o[key].Object? then Some(o[key].fields) else None
  }

  function StringAt(o: Option<Fields>, key: string): Option<string> {
    if o.Some? && key in o.value && o.value[key].Str? then Some(o.value[key].text) else None
  }

  function TextAt(o: Option<Fields>, key: string): string {
    if StringAt(o, key).Some? then StringAt(o, key).value else ""
  }

  function U64At(o: Fields, key: string): Option<nat> {
    if key in o && o[key].Num? && o[key].number.Integer? && 0 <= o[key].number.n < TWO_64
    then Some(o[key].number.n)
    else None
  }

  predicate Nonempty(o: Option<Fields>, key: string) {
    TextAt(o, key) != ""
  }

  const LIFECYCLE := {
    "response.created", "response.in_progress", "response.completed", "response.failed", "response.incomplete"}
  const ITEM_EVENTS := {
    "response.output_item.added", "response.output_item.done", "response.reasoning.added", "response.reasoning.done",
    "response.content_part.added", "response.reasoning_summary_part.added"}
  const DELTA_EVENTS := {
    "response.output_text.delta", "response.reasoning_text.delta", "response.reasoning_summary_text.delta",
    "response.function_call_arguments.delta"}
  const TEXT_EVENTS := {
    "response.output_text.done", "response.reasoning_text.done", "response.reasoning_summary_text.done",
    "response.reasoning_summary_part.done", "response.content_part.done"}

  /** What a known event must carry; unknown events pass. */
  predicate Admitted(eventType: string, o: Fields) {
    var item := ObjectAt(o, "item");
    var identified := Nonempty(Some(o), "item_id") || Nonempty(item, "id");
    if eventType in LIFECYCLE then Nonempty(ObjectAt(o, "response"), "id")
    else if eventType in ITEM_EVENTS then identified
    else if eventType in DELTA_EVENTS then identified && StringAt(Some(o), "delta").Some?
    else if eventType in TEXT_EVENTS then
      identified && (StringAt(Some(o), "text").Some? || StringAt(ObjectAt(o, "part"), "text").Some?)
    else if eventType == "response.function_call_arguments.done" then
      identified && StringAt(Some(o), "arguments").Some?
    else if eventType == "response.function_call.added" then
      identified && Nonempty(item, "call_id") && Nonempty(item, "name")
    else true
  }

  function TypeOf(o: Fields): string {
    TextAt(Some(o), "type")
  }

  function IdOf(o: Fields): string {
    TextAt(ObjectAt(o, "response"), "id")
  }

  function KindOf(eventType: string, id: string): Kind {
    match eventType
    case "response.completed" => ResponseCompleted(id)
    case "response.failed" => ResponseFailed(id)
    case "response.incomplete" => ResponseIncomplete(id)
    case _ => Other(eventType)
  }

  function StateAfter(kind: Kind): StreamState {
    match kind
    case ResponseCompleted(_) => Completed
    case ResponseFailed(_) => Failed
    case ResponseIncomplete(_) => Incomplete
    case Other(_) => Streaming
  }

  datatype Phase = Phase(state: StreamState, lastSequence: Option<nat>, responseId: Option<string>)

  const START := Phase(AwaitingCreated, None, None)

  /** An admitted event with the phase it leads to; a missing number continues the count, modulo 2^64. */
  function Accept(v: Phase, value: Json): Option<(Phase, Event)> {
    if !value.Object? || !Admitted(TypeOf(value.fields), value.fields) then None
    else
      var o := value.fields;
      var sequence :=
        if U64At(o, "sequence_number").Some? then U64At(o, "sequence_number").value
        else if v.lastSequence.Some? then (v.lastSequence.value + 1) % TWO_64
        else 0;
      var kind := KindOf(TypeOf(o), IdOf(o));
      var id := if v.responseId.None? && IdOf(o) != "" then Some(IdOf(o)) else v.responseId;
      Some((Phase(StateAfter(kind), Some(sequence), id), Event(sequence, kind, value)))
  }

  function CompletionJson(sequence: nat, id: string): Json {
    Object(map[
      "type" := Str("response.completed"), "sequence_number" := Num(Integer(sequence)),
      "response" := Object(map["id" := Str(id), "status" := Str("completed"), "output" := Array([])])])
  }

  /** The completion that is supplied at the end, if the last event was not terminal. */
  function Synthetic(v: Phase, freshId: string): Option<Event> {
    if Terminal(v.state) || v.state == AwaitingCreated then None
    else
      var id := if v.responseId.Some? && v.responseId.value != "" then v.responseId.value else freshId;
      var sequence := if v.lastSequence.None? then 0 else SaturatingNext(v.lastSequence.value);
      Some(Event(sequence, ResponseCompleted(id), CompletionJson(sequence, id)))
  }

  class TextStreamValidator {
    var state: StreamState
    var lastSequence: Option<nat>
    var responseId: Option<string>

    function View(): Phase
      reads this
    {
      Phase(state, lastSequence, responseId)
    }

    constructor ()
      ensures View() == START
    {
      state, lastSequence, responseId := AwaitingCreated, None, None;
    }

    /** A refused event leaves the validator as it was. */
    method AcceptValue(value: Json) returns (r: Option<Event>)
      modifies this
      ensures r.Some? <==> Accept(old(View()), value).Some?
      ensures r.Some? ==> Accept(old(View()), value) == Some((View(), r.value))
      ensures r.None? ==> View() == old(View())
    {
      if !value.Object? {
        return None;
      }
      var o := value.fields;
      var eventType := TypeOf(o);
      if !Admitted(eventType, o) {
        return None;
      }
      var sequence := 0;
      if U64At(o, "sequence_number").Some? {
        sequence := U64At(o, "sequence_number").value;
      } else if lastSequence.Some? {
        sequence := (lastSequence.value + 1) % TWO_64;
      }
      lastSequence := Some(sequence);
      var id := IdOf(o);
      if id != "" && responseId.None? {
        responseId := Some(id);
      }
      var kind := KindOf(eventType, id);
      state := StateAfter(kind);
      return Some(Event(sequence, kind, value));
    }

    method SyntheticCompletedOnEof(freshId: string) returns (r: Option<Event>)
      modifies this
      ensures r == Synthetic(old(View()), freshId)
      ensures r.Some? ==>
        state == Completed && lastSequence == Some(r.value.sequence) && responseId == Some(r.value.kind.id)
      ensures r.None? ==> View() == old(View())
    {
      if Terminal(state) || state == AwaitingCreated {
        return None;
      }
      var id := if responseId.Some? && responseId.value != "" then responseId.value else freshId;
      var sequence := 0;
      if lastSequence.Some? {
        sequence := SaturatingNext(lastSequence.value);
      }
      state, lastSequence, responseId := Completed, Some(sequence), Some(id);
      return Some(Event(sequence, ResponseCompleted(id), CompletionJson(sequence, id)));
    }
  }

  // ---------------------------------------------------------------------
  // The stream
  // ---------------------------------------------------------------------

  /** What the upstream yields when it is polled, before its end. */
  datatype Upstream = Pending | Data(text: string) | Broken

  datatype Polled = Waiting | Item(event: Event) | Fault | Ended

  /** What a stream is built from: the JSON parser, the tool-name restoration and the identifier it may invent. */
  datatype Setting = Setting(parse: string -> Option<Json>, restore: Json -> Json, freshId: string)

  predicate Blank(text: string) {
    Trim(text) == ""
  }

  function Restored(g: Setting, e: Event): Event {
    e.(original := g.restore(e.original))
  }

  datatype Machine = Machine(phase: Phase, finished: bool)

  /** One upstream item: the new machine and what is handed on, if anything. */
  function Feed(g: Setting, m: Machine, x: Upstream): (Machine, seq<Polled>) {
    if m.finished then (m, [])
    else
      match x
      case Pending => (m, [Waiting])
      case Broken => (m.(finished := true), [Fault])
      case Data(text) =>
        if Blank(text) then (m, [])
        else
          var value := g.parse(text);
          match (if value.Some? then Accept(m.phase, value.value) else None)
          case None => (m.(finished := true), [Fault])
          case Some((phase, event)) => (Machine(phase, false), [Item(Restored(g, event))])
  }

  /** Everything handed on for some upstream items. */
  function Outputs(g: Setting, xs: seq<Upstream>): (Machine, seq<Polled>) {
    if xs == [] then (Machine(START, false), [])
    else
      var (m, outs) := Outputs(g, xs[..|xs| - 1]);
      var (m', more) := Feed(g, m, xs[|xs| - 1]);
      (m', outs + more)
  }

  function Ending(g: Setting, m: Machine): seq<Polled> {
    if m.finished || Synthetic(m.phase, g.freshId).None? then []
    else [Item(Restored(g, Synthetic(m.phase, g.freshId).value))]
  }

  /** A whole run, to the end of the upstream. */
  function Whole(g: Setting, xs: seq<Upstream>): seq<Polled> {
    Outputs(g, xs).1 + Ending(g, Outputs(g, xs).0)
  }

  lemma OutputsPush(g: Setting, xs: seq<Upstream>, x: Upstream)
    ensures var (m, outs) := Outputs(g, xs);
            Outputs(g, xs + [x]) == (Feed(g, m, x).0, outs + Feed(g, m, x).1)
  {
    assert (xs + [x])[..|xs|] == xs;
  }

  lemma {:induction false} FinishedStays(g: Setting, xs: seq<Upstream>, n: nat)
    requires n <= |xs| && Outputs(g, xs[..n]).0.finished
    ensures Outputs(g, xs) == Outputs(g, xs[..n])
    decreases |xs| - n
  {
    if n < |xs| {
      OutputsPush(g, xs[..n], xs[n]);
      assert xs[..n] + [xs[n]] == xs[..n + 1];
      assert Outputs(g, xs[..n]).1 + [] == Outputs(g, xs[..n]).1;
      FinishedStays(g, xs, n + 1);
    } else {
      assert xs[..n] == xs;
    }
  }

  class ValidatedTextEventStream {
    const g: Setting
    const inner: seq<Upstream>
    const validator: TextStreamValidator
    var at: nat
    var finished: bool
    /** Everything handed on so far. */
    ghost var sent: seq<Polled>

    /** Either in step with the upstream items read so far, or past the end with everything said. */
    ghost predicate Valid()
      reads this, validator
    {
      && at <= |inner|
      && (|| (Machine(validator.View(), finished), sent) == Outputs(g, inner[..at])
          || (finished && at == |inner| && sent == Whole(g, inner)))
    }

    constructor (g: Setting, inner: seq<Upstream>)
      ensures Valid() && fresh(validator) && this.g == g && this.inner == inner && sent == [] && !finished && at == 0
    {
      this.g, this.inner, at, finished, sent := g, inner, 0, false, [];
      validator := new TextStreamValidator();
    }

    method PollNext() returns (p: Polled)
      requires Valid()
      modifies this, validator
      ensures Valid() && at >= old(at)
      ensures p.Ended? ==> finished && sent == old(sent)
      ensures !p.Ended? ==> sent == old(sent) + [p] && !old(finished) && (at > old(at) || finished)
      ensures old(finished) ==> p.Ended?
      ensures p.Ended? && !old(finished) ==> sent == Whole(g, inner)
    {
      if finished {
        return Ended;
      }
      while true
        invariant at <= |inner| && !finished && at >= old(at) && sent == old(sent)
        invariant (Machine(validator.View(), false), sent) == Outputs(g, inner[..at])
        decreases |inner| - at
      {
        if at == |inner| {
          assert inner[..at] == inner;
          var completion := validator.SyntheticCompletedOnEof(g.freshId);
          finished := true;
          if completion.None? {
            assert sent + [] == sent;
            return Ended;
          }
          p := Item(Restored(g, completion.value));
          sent := sent + [p];
          return;
        }
        var x := inner[at];
        OutputsPush(g, inner[..at], x);
        assert inner[..at] + [x] == inner[..at + 1];
        at := at + 1;
        match x {
          case Pending =>
            sent := sent + [Waiting];
            return Waiting;
          case Broken =>
            finished := true;
            sent := sent + [Fault];
            return Fault;
          case Data(text) =>
            if Blank(text) {
              assert sent + [] == sent;
              continue;
            }
            var value := g.parse(text);
            var event := None;
            if value.Some? {
              event := validator.AcceptValue(value.value);
            }
            if event.None? {
              finished := true;
              sent := sent + [Fault];
              return Fault;
            }
            p := Item(Restored(g, event.value));
            sent := sent + [p];
            return;
        }
      }
    }
  }

  /** Polls a stream until it has ended. */
  method Drain(g: Setting, inner: seq<Upstream>) returns (outs: seq<Polled>)
    ensures outs == Whole(g, inner)
  {
    var stream := new ValidatedTextEventStream(g, inner);
    outs := [];
    while true
      invariant stream.Valid() && fresh(stream) && fresh(stream.validator)
      invariant stream.g == g && stream.inner == inner && outs == stream.sent
      decreases |inner| - stream.at, if stream.finished then 0 else 1
    {
      var p := stream.PollNext();
      if p.Ended? {
        Completely(stream);
        return;
      }
      outs := outs + [p];
    }
  }

  lemma Completely(stream: ValidatedTextEventStream)
    requires stream.Valid() && stream.finished
    ensures stream.sent == Whole(stream.g, stream.inner)
  {
    if stream.sent != Whole(stream.g, stream.inner) {
      FinishedStays(stream.g, stream.inner, stream.at);
    }
  }

  // ---------------------------------------------------------------------
  // Whole runs
  // ---------------------------------------------------------------------

  /** The events among the polls. */
  function Items(outs: seq<Polled>): seq<Event> {
    if outs == [] then []
    else
      var last := outs[|outs| - 1];
      Items(outs[..|outs| - 1]) + (if last.Item? then [last.event] else [])
  }

  /** The data that is not blank, in order. */
  function Texts(xs: seq<Upstream>): seq<string> {
    if xs == [] then []
    else
      var last := xs[|xs| - 1];
      Texts(xs[..|xs| - 1]) + (if last.Data? && !Blank(last.text) then [last.text] else [])
  }

  lemma ItemsPush(outs: seq<Polled>, p: Polled)
    ensures Items(outs + [p]) == Items(outs) + (if p.Item? then [p.event] else [])
  {
    assert (outs + [p])[..|outs|] == outs;
  }

  ghost predicate Faultless(outs: seq<Polled>) {
    Fault !in outs
  }

  ghost function ObjectOf(g: Setting, text: string): Fields {
    if g.parse(text).Some? && g.parse(text).value.Object? then g.parse(text).value.fields else map[]
  }

  /** The first identifier among the first events, if any carries one. */
  ghost predicate FirstId(g: Setting, texts: seq<string>, id: Option<string>) {
    match id
    case None => forall i :: 0 <= i < |texts| ==> IdOf(ObjectOf(g, texts[i])) == ""
    case Some(found) =>
      found != "" && exists i :: 0 <= i < |texts| && IdOf(ObjectOf(g, texts[i])) == found
                                 && forall j :: 0 <= j < i ==> IdOf(ObjectOf(g, texts[j])) == ""
  }

  /** Each event is the restored parse of its text, of the kind its type names. */
  ghost predicate Forwarded(g: Setting, texts: seq<string>, events: seq<Event>) {
    && |events| == |texts|
    && forall i :: 0 <= i < |texts| ==>
         && g.parse(texts[i]).Some? && g.parse(texts[i]).value.Object?
         && Admitted(TypeOf(ObjectOf(g, texts[i])), ObjectOf(g, texts[i]))
         && events[i].original == g.restore(g.parse(texts[i]).value)
         && events[i].kind == KindOf(TypeOf(ObjectOf(g, texts[i])), IdOf(ObjectOf(g, texts[i])))
  }

  predicate HasNumber(o: Fields) {
    && "sequence_number" in o && o["sequence_number"].Num? && o["sequence_number"].number.Integer?
    && 0 <= o["sequence_number"].number.n <= 0xFFFF_FFFF_FFFF_FFFF
  }

  /** An event has the number its object gives; without one it goes on from the event before it, and around. */
  ghost predicate NumberFollows(o: Fields, before: Option<nat>, sequence: nat) {
    if HasNumber(o) then sequence == o["sequence_number"].number.n
    else if before.None? then sequence == 0
    else sequence == (before.value + 1) % 0x1_0000_0000_0000_0000
  }

  ghost function NumberBefore(events: seq<Event>, i: nat): Option<nat>
    requires i <= |events|
  {
    if i == 0 then None else Some(events[i - 1].sequence)
  }

  ghost predicate Numbered(g: Setting, texts: seq<string>, events: seq<Event>) {
    && |events| == |texts|
    && forall i :: 0 <= i < |texts| ==>
         NumberFollows(ObjectOf(g, texts[i]), NumberBefore(events, i), events[i].sequence)
  }

  /** The machine and its outputs after the items of an unfinished stream. */
  ghost predicate InStep(g: Setting, texts: seq<string>, events: seq<Event>, v: Phase) {
    && Forwarded(g, texts, events) && Numbered(g, texts, events) && FirstId(g, texts, v.responseId)
    && v.state == (if events == [] then AwaitingCreated else StateAfter(events[|events| - 1].kind))
    && v.lastSequence == (if events == [] then None else Some(events[|events| - 1].sequence))
  }

  lemma FirstIdPush(g: Setting, texts: seq<string>, id: Option<string>, text: string)
    requires FirstId(g, texts, id)
    ensures FirstId(g, texts + [text],
                    if id.None? && IdOf(ObjectOf(g, text)) != "" then Some(IdOf(ObjectOf(g, text))) else id)
  {
    hide IdOf, ObjectOf;
    var more := texts + [text];
    if id.None? {
      if IdOf(ObjectOf(g, text)) != "" { assert IdOf(ObjectOf(g, more[|texts|])) == IdOf(ObjectOf(g, text)); }
    } else {
      var i :| 0 <= i < |texts| && IdOf(ObjectOf(g, texts[i])) == id.value
               && forall j :: 0 <= j < i ==> IdOf(ObjectOf(g, texts[j])) == "";
      assert more[i] == texts[i];
    }
  }

  lemma StepForwards(g: Setting, texts: seq<string>, events: seq<Event>, v: Phase, text: string)
    requires InStep(g, texts, events, v)
    requires g.parse(text).Some? && Accept(v, g.parse(text).value).Some?
    ensures var (v', e) := Accept(v, g.parse(text).value).value;
            InStep(g, texts + [text], events + [Restored(g, e)], v')
  {
    hide Admitted, FirstId, KindOf, StateAfter, Numbered;
    FirstIdPush(g, texts, v.responseId, text);
    NumberedPush(g, texts, events, v, text);
  }

  lemma NumberedPush(g: Setting, texts: seq<string>, events: seq<Event>, v: Phase, text: string)
    requires Numbered(g, texts, events)
    requires v.lastSequence == (if events == [] then None else Some(events[|events| - 1].sequence))
    requires g.parse(text).Some? && Accept(v, g.parse(text).value).Some?
    ensures Numbered(g, texts + [text], events + [Restored(g, Accept(v, g.parse(text).value).value.1)])
  {
    hide Accept, NumberFollows, ObjectOf;
    NextNumber(g, v, text);
    var more, all := texts + [text], events + [Restored(g, Accept(v, g.parse(text).value).value.1)];
    forall i | 0 <= i < |more|
      ensures NumberFollows(ObjectOf(g, more[i]), NumberBefore(all, i), all[i].sequence)
    {
      if i < |texts| {
        assert all[i] == events[i] && more[i] == texts[i] && NumberBefore(all, i) == NumberBefore(events, i);
      }
    }
  }

  lemma NextNumber(g: Setting, v: Phase, text: string)
    requires g.parse(text).Some? && Accept(v, g.parse(text).value).Some?
    ensures NumberFollows(
              ObjectOf(g, text), v.lastSequence, Restored(g, Accept(v, g.parse(text).value).value.1).sequence)
  {
    hide Admitted, KindOf, StateAfter;
  }

  /** Running in step, or finished by exactly one fault at the end. */
  ghost predicate Sound(g: Setting, texts: seq<string>, m: Machine, outs: seq<Polled>) {
    && Ended !in outs
    && (if m.finished then outs != [] && outs[|outs| - 1] == Fault && Faultless(outs[..|outs| - 1])
        else Faultless(outs) && InStep(g, texts, Items(outs), m.phase))
  }

  function TextOf(x: Upstream): seq<string> {
    if x.Data? && !Blank(x.text) then [x.text] else []
  }

  lemma FaultIsLast(g: Setting, texts: seq<string>, more: seq<string>, m: Machine, outs: seq<Polled>)
    requires Sound(g, texts, m, outs) && !m.finished
    ensures Sound(g, more, m.(finished := true), outs + [Fault])
  {
    hide InStep;
    assert (outs + [Fault])[..|outs|] == outs;
  }

  lemma ItemIsSound(g: Setting, texts: seq<string>, m: Machine, outs: seq<Polled>, text: string)
    requires Sound(g, texts, m, outs) && !m.finished
    requires g.parse(text).Some? && Accept(m.phase, g.parse(text).value).Some?
    ensures var (phase, e) := Accept(m.phase, g.parse(text).value).value;
            Sound(g, texts + [text], Machine(phase, false), outs + [Item(Restored(g, e))])
  {
    hide InStep, Accept, Items;
    StepForwards(g, texts, Items(outs), m.phase, text);
    ItemsPush(outs, Item(Restored(g, Accept(m.phase, g.parse(text).value).value.1)));
  }

  lemma FeedIsSound(g: Setting, texts: seq<string>, m: Machine, outs: seq<Polled>, x: Upstream)
    requires Sound(g, texts, m, outs)
    ensures Sound(g, texts + TextOf(x), Feed(g, m, x).0, outs + Feed(g, m, x).1)
  {
    hide InStep, Accept, Blank, Items;
    assert outs + [] == outs && texts + [] == texts && Items(outs) + [] == Items(outs);
    if m.finished {
      return;
    }
    match x
    case Pending => ItemsPush(outs, Waiting);
    case Broken => FaultIsLast(g, texts, texts, m, outs);
    case Data(text) =>
      if !Blank(text) {
        if g.parse(text).Some? && Accept(m.phase, g.parse(text).value).Some? {
          ItemIsSound(g, texts, m, outs, text);
        } else {
          FaultIsLast(g, texts, texts + [text], m, outs);
        }
      }
  }

  lemma {:induction false} RunInStep(g: Setting, xs: seq<Upstream>)
    ensures var (m, outs) := Outputs(g, xs); Sound(g, Texts(xs), m, outs)
  {
    hide Sound, Feed, Blank;
    if xs == [] {
      assert Sound(g, [], Machine(START, false), []) by { StartIsSound(g); }
    } else {
      var before, x := xs[..|xs| - 1], xs[|xs| - 1];
      RunInStep(g, before);
      var (m, outs) := Outputs(g, before);
      FeedIsSound(g, Texts(before), m, outs, x);
    }
  }

  lemma StartIsSound(g: Setting)
    ensures Sound(g, [], Machine(START, false), [])
  {
    StartInStep(g);
  }

  lemma StartInStep(g: Setting)
    ensures InStep(g, [], [], START)
  {
  }

  /**
  An error-free run forwards every non-blank event once and in order. With at least one event
  it ends in a terminal one: a completion is supplied exactly when the last event of the
  upstream is not terminal, and it carries the first identifier seen, or else the fresh one.
  */
  lemma ErrorFreeRunIsComplete(g: Setting, xs: seq<Upstream>)
    requires Faultless(Whole(g, xs)) && g.freshId != ""
    ensures var events, n := Items(Whole(g, xs)), |Texts(xs)|;
            && n <= |events| && Forwarded(g, Texts(xs), events[..n])
            && (n == 0 ==> events == [])
            && (n > 0 ==> Terminal(StateAfter(events[|events| - 1].kind)))
            && (n > 0 && Terminal(StateAfter(events[n - 1].kind)) ==> |events| == n)
            && (n > 0 && !Terminal(StateAfter(events[n - 1].kind)) ==>
                  && |events| == n + 1 && events[n].kind.ResponseCompleted?
                  && events[n].original == g.restore(CompletionJson(events[n].sequence, events[n].kind.id))
                  && events[n].sequence == SaturatingNext(events[n - 1].sequence)
                  && (FirstId(g, Texts(xs), Some(events[n].kind.id))
                      || (FirstId(g, Texts(xs), None) && events[n].kind.id == g.freshId)))
  {
    hide Accept, Admitted, Blank, Forwarded, FirstId, KindOf, Outputs, Texts, Numbered;
    RunInStep(g, xs);
    var (m, outs) := Outputs(g, xs);
    var events := Items(outs);
    assert !m.finished by {
      assert forall p :: p in outs ==> p in Whole(g, xs);
    }
    assert |events| == |Texts(xs)| && (m.phase.responseId.Some? ==> m.phase.responseId.value != "")
    by { InStepGives(g, Texts(xs), events, m.phase); }
    if Ending(g, m) == [] {
      assert Whole(g, xs) == outs;
      assert events[..|events|] == events;
    } else {
      var extra := Restored(g, Synthetic(m.phase, g.freshId).value);
      ItemsPush(outs, Item(extra));
      assert Items(Whole(g, xs)) == events + [extra];
      assert (events + [extra])[..|events|] == events;
    }
  }

  lemma NumbersOf(g: Setting, texts: seq<string>, events: seq<Event>, v: Phase)
    requires InStep(g, texts, events, v)
    ensures Numbered(g, texts, events)
  {
  }

  /**
  The numbers of an error-free run: each event has the one its text gives, or follows the event
  before it; the completion that is supplied follows the last event and stays at the largest number.
  */
  lemma SequenceNumbers(g: Setting, xs: seq<Upstream>)
    requires Faultless(Whole(g, xs)) && g.freshId != ""
    ensures var events, n := Items(Whole(g, xs)), |Texts(xs)|;
            && n <= |events| && Numbered(g, Texts(xs), events[..n])
            && (0 < n < |events| ==>
                  && events[n].sequence ==
                       (if events[n - 1].sequence < 0xFFFF_FFFF_FFFF_FFFF then events[n - 1].sequence + 1
                        else 0xFFFF_FFFF_FFFF_FFFF)
                  && exists completion: Fields ::
                       && events[n].original == g.restore(Object(completion))
                       && HasNumber(completion) && completion["sequence_number"].number.n == events[n].sequence)
  {
    hide Accept, Admitted, Blank, Forwarded, FirstId, KindOf, Outputs, Texts, Items, Numbered;
    ErrorFreeRunIsComplete(g, xs);
    RunInStep(g, xs);
    var (m, outs) := Outputs(g, xs);
    var events, n := Items(Whole(g, xs)), |Texts(xs)|;
    assert !m.finished by {
      assert forall p :: p in outs ==> p in Whole(g, xs);
    }
    NumbersOf(g, Texts(xs), Items(outs), m.phase);
    assert |Items(outs)| == n by { InStepGives(g, Texts(xs), Items(outs), m.phase); }
    ItemsOfWhole(g, xs);
    assert events[..n] == Items(outs);
    if 0 < n < |events| {
      AtMost(g, Texts(xs), Items(outs), n - 1);
      CompletionIsNumbered(events[n].sequence, events[n].kind.id);
    }
  }

  lemma ItemsOfWhole(g: Setting, xs: seq<Upstream>)
    ensures Items(Outputs(g, xs).1) <= Items(Whole(g, xs))
  {
    hide Outputs, Synthetic, Accept;
    var (m, outs) := Outputs(g, xs);
    if |Ending(g, m)| == 1 {
      ItemsPush(outs, Ending(g, m)[0]);
      assert Ending(g, m) == [Ending(g, m)[0]];
    } else {
      assert outs + [] == outs;
    }
  }

  lemma AtMost(g: Setting, texts: seq<string>, events: seq<Event>, i: nat)
    requires Numbered(g, texts, events) && i < |events|
    ensures events[i].sequence <= 0xFFFF_FFFF_FFFF_FFFF
  {
    assert NumberFollows(ObjectOf(g, texts[i]), NumberBefore(events, i), events[i].sequence);
  }

  lemma CompletionIsNumbered(sequence: nat, id: string)
    requires sequence <= 0xFFFF_FFFF_FFFF_FFFF
    ensures CompletionJson(sequence, id).Object? && HasNumber(CompletionJson(sequence, id).fields)
    ensures CompletionJson(sequence, id).fields["sequence_number"].number.n == sequence
  {
  }

  lemma InStepGives(g: Setting, texts: seq<string>, events: seq<Event>, v: Phase)
    requires InStep(g, texts, events, v)
    ensures |events| == |texts| && (v.responseId.Some? ==> v.responseId.value != "")
  {
  }

  // ---------------------------------------------------------------------
  // What a forwarded event carries
  // ---------------------------------------------------------------------

  predicate HasText(o: Fields, key: string, text: string) {
    key in o && o[key] == Str(text)
  }

  predicate HasObject(o: Fields, key: string) {
    key in o && o[key].Object?
  }

  /** An identifier in the event or in its item. */
  ghost predicate Identified(o: Fields) {
    exists id :: id != ""
                 && (HasText(o, "item_id", id) || (HasObject(o, "item") && HasText(o["item"].fields, "id", id)))
  }

  /** The events that end or begin a response name it; a piece of text or of arguments says where it belongs. */
  ghost predicate Carries(o: Fields, kind: Kind) {
    && (forall eventType | eventType in {"response.created", "response.in_progress", "response.completed",
                                         "response.failed", "response.incomplete"} && HasText(o, "type", eventType) ::
          && HasObject(o, "response")
          && exists id :: id != "" && HasText(o["response"].fields, "id", id)
                          && (eventType == "response.completed" ==> kind == ResponseCompleted(id))
                          && (eventType == "response.failed" ==> kind == ResponseFailed(id))
                          && (eventType == "response.incomplete" ==> kind == ResponseIncomplete(id)))
    && (forall eventType | eventType in {"response.output_text.delta", "response.reasoning_text.delta",
                                         "response.reasoning_summary_text.delta",
                                         "response.function_call_arguments.delta"} && HasText(o, "type", eventType) ::
          Identified(o) && exists delta :: HasText(o, "delta", delta))
  }

  lemma AdmittedCarry(o: Fields)
    requires Admitted(TypeOf(o), o)
    ensures Carries(o, KindOf(TypeOf(o), IdOf(o)))
  {
    if Nonempty(ObjectAt(o, "response"), "id") { assert HasText(o["response"].fields, "id", IdOf(o)); }
    if Nonempty(Some(o), "item_id") { assert HasText(o, "item_id", TextAt(Some(o), "item_id")); }
    if Nonempty(ObjectAt(o, "item"), "id") {
      assert HasText(o["item"].fields, "id", TextAt(ObjectAt(o, "item"), "id"));
    }
    if StringAt(Some(o), "delta").Some? { assert HasText(o, "delta", StringAt(Some(o), "delta").value); }
  }

  /** In an error-free run every forwarded event carries what its type asks for, and names its response. */
  lemma ForwardedCarry(g: Setting, xs: seq<Upstream>, k: nat)
    requires Faultless(Whole(g, xs)) && g.freshId != "" && k < |Texts(xs)|
    ensures k < |Items(Whole(g, xs))| && Carries(ObjectOf(g, Texts(xs)[k]), Items(Whole(g, xs))[k].kind)
  {
    hide Whole, Items, Texts, FirstId, Admitted, KindOf, IdOf, TypeOf, Carries, Terminal, StateAfter, ObjectOf;
    ErrorFreeRunIsComplete(g, xs);
    var n := |Texts(xs)|;
    assert Items(Whole(g, xs))[..n][k] == Items(Whole(g, xs))[k];
    AdmittedCarry(ObjectOf(g, Texts(xs)[k]));
  }

  // ---------------------------------------------------------------------
  // How many completions
  // ---------------------------------------------------------------------

  function Completions(events: seq<Event>): nat {
    if events == [] then 0
    else Completions(events[..|events| - 1]) + if events[|events| - 1].kind.ResponseCompleted? then 1 else 0
  }

  /** How many texts of the upstream are completions. */
  ghost function CompletedTexts(g: Setting, texts: seq<string>): nat {
    if texts == [] then 0
    else
      CompletedTexts(g, texts[..|texts| - 1])
      + if TypeOf(ObjectOf(g, texts[|texts| - 1])) == "response.completed" then 1 else 0
  }

  predicate TerminalType(eventType: string) {
    eventType in {"response.completed", "response.failed", "response.incomplete"}
  }

  lemma KindsOfTypes(eventType: string, id: string)
    ensures KindOf(eventType, id).ResponseCompleted? <==> eventType == "response.completed"
    ensures Terminal(StateAfter(KindOf(eventType, id))) <==> TerminalType(eventType)
  {
  }

  lemma {:induction false} CompletionsAreForwarded(g: Setting, texts: seq<string>, events: seq<Event>)
    requires Forwarded(g, texts, events)
    ensures Completions(events) == CompletedTexts(g, texts)
  {
    hide Admitted, KindOf;
    if texts != [] {
      var k := |texts| - 1;
      assert Forwarded(g, texts[..k], events[..k]) by { ForwardedPrefix(g, texts, events, k); }
      CompletionsAreForwarded(g, texts[..k], events[..k]);
      KindsOfTypes(TypeOf(ObjectOf(g, texts[k])), IdOf(ObjectOf(g, texts[k])));
    }
  }

  lemma ForwardedPrefix(g: Setting, texts: seq<string>, events: seq<Event>, k: nat)
    requires Forwarded(g, texts, events) && k <= |texts|
    ensures Forwarded(g, texts[..k], events[..k])
  {
    hide Admitted, KindOf;
  }

  lemma LastIsTerminalIff(g: Setting, texts: seq<string>, events: seq<Event>)
    requires Forwarded(g, texts, events) && texts != []
    ensures Terminal(StateAfter(events[|events| - 1].kind)) <==> TerminalType(TypeOf(ObjectOf(g, texts[|texts| - 1])))
  {
    hide Admitted, KindOf;
    var k := |texts| - 1;
    KindsOfTypes(TypeOf(ObjectOf(g, texts[k])), IdOf(ObjectOf(g, texts[k])));
  }

  /** An error-free run hands on the upstream's completions, and one more if its last event is not terminal. */
  lemma CompletionsOfRun(g: Setting, xs: seq<Upstream>)
    requires Faultless(Whole(g, xs)) && g.freshId != ""
    ensures var texts := Texts(xs);
            Completions(Items(Whole(g, xs))) ==
            CompletedTexts(g, texts)
            + if texts != [] && !TerminalType(TypeOf(ObjectOf(g, texts[|texts| - 1]))) then 1 else 0
  {
    hide Forwarded, Whole, Items, Texts, FirstId, TerminalType, StateAfter, ObjectOf;
    var texts, events := Texts(xs), Items(Whole(g, xs));
    ErrorFreeRunIsComplete(g, xs);
    CompletionsAreForwarded(g, texts, events[..|texts|]);
    assert events[..|events|] == events;
    if texts != [] {
      assert |events[..|texts|]| == |texts| && events[..|texts|][|texts| - 1] == events[|texts| - 1];
      LastIsTerminalIff(g, texts, events[..|texts|]);
    }
  }

  /**
  At most one completion is handed on exactly when the upstream sends none, or sends one and
  ends with a terminal event.
  */
  lemma AtMostOneCompletionIff(g: Setting, xs: seq<Upstream>)
    requires Faultless(Whole(g, xs)) && g.freshId != ""
    ensures var texts := Texts(xs);
            Completions(Items(Whole(g, xs))) <= 1 <==>
              || CompletedTexts(g, texts) == 0
              || (CompletedTexts(g, texts) == 1 && TerminalType(TypeOf(ObjectOf(g, texts[|texts| - 1]))))
  {
    hide Whole, Items, Texts, TerminalType, ObjectOf;
    CompletionsOfRun(g, xs);
  }

  const COMPLETED: Json :=
    Object(map["type" := Str("response.completed"), "response" := Object(map["id" := Str("r")])])

  function CompletedEvent(sequence: nat): Event {
    Event(sequence, ResponseCompleted("r"), COMPLETED)
  }

  /** Every text is a completion, and restoring names changes nothing. */
  function Repeating(): Setting {
    Setting((text: string) => Some(COMPLETED), (value: Json) => value, "fresh")
  }

  lemma CompletionIsAccepted(v: Phase)
    requires v.lastSequence.Some? ==> v.lastSequence.value + 1 < TWO_64
    ensures var sequence := if v.lastSequence.None? then 0 else v.lastSequence.value + 1;
            var id := if v.responseId.None? then Some("r") else v.responseId;
            Accept(v, COMPLETED) == Some((Phase(Completed, Some(sequence), id), CompletedEvent(sequence)))
  {
    assert TypeOf(COMPLETED.fields) == "response.completed" && IdOf(COMPLETED.fields) == "r";
  }

  lemma CompletionIsFed(v: Phase)
    requires v.lastSequence.Some? ==> v.lastSequence.value + 1 < TWO_64
    ensures var sequence := if v.lastSequence.None? then 0 else v.lastSequence.value + 1;
            var id := if v.responseId.None? then Some("r") else v.responseId;
            Feed(Repeating(), Machine(v, false), Data("x")) ==
            (Machine(Phase(Completed, Some(sequence), id), false), [Item(CompletedEvent(sequence))])
  {
    hide Accept;
    assert !Blank("x") by { assert Trim("x") == TrimStart("x"); }
    CompletionIsAccepted(v);
  }

  lemma NoOutputs(g: Setting)
    ensures Outputs(g, []) == (Machine(START, false), [])
  {
  }

  lemma RepeatedOutputs()
    ensures Whole(Repeating(), [Data("x"), Data("x")]) == [Item(CompletedEvent(0)), Item(CompletedEvent(1))]
  {
    hide Feed, Repeating, CompletedEvent, Outputs, Blank;
    var g, first, second := Repeating(), Item(CompletedEvent(0)), Item(CompletedEvent(1));
    CompletionIsFed(START);
    CompletionIsFed(Phase(Completed, Some(0), Some("r")));
    NoOutputs(g);
    OutputsPush(g, [], Data("x"));
    assert [] + [Data("x")] == [Data("x")] && [] + [first] == [first];
    OutputsPush(g, [Data("x")], Data("x"));
    assert [Data("x")] + [Data("x")] == [Data("x"), Data("x")] && [first] + [second] == [first, second];
    assert [first, second] + [] == [first, second];
  }

  lemma ItemsOfTwo(a: Event, b: Event)
    ensures Items([Item(a), Item(b)]) == [a, b] && Faultless([Item(a), Item(b)])
  {
    ItemsPush([], Item(a));
    ItemsPush([Item(a)], Item(b));
    assert [] + [Item(a)] == [Item(a)] && [Item(a)] + [Item(b)] == [Item(a), Item(b)] && [] + [a] == [a];
  }

  /** An upstream that repeats its completion: both are handed on. */
  lemma TwoCompletions()
    ensures var outs := Whole(Repeating(), [Data("x"), Data("x")]);
            Faultless(outs) && Items(outs) == [CompletedEvent(0), CompletedEvent(1)] && Completions(Items(outs)) == 2
  {
    hide Whole, Repeating, CompletedEvent, Faultless, Items, Completions;
    RepeatedOutputs();
    ItemsOfTwo(CompletedEvent(0), CompletedEvent(1));
    AreCompletions();
    CountTwo(CompletedEvent(0), CompletedEvent(1));
  }

  lemma AreCompletions()
    ensures CompletedEvent(0).kind.ResponseCompleted? && CompletedEvent(1).kind.ResponseCompleted?
  {
  }

  lemma CountTwo(a: Event, b: Event)
    ensures a.kind.ResponseCompleted? && b.kind.ResponseCompleted? ==> Completions([a, b]) == 2
  {
    assert [a, b][..1] == [a] && [a][..0] == [];
    assert Completions([a]) == Completions([]) + if a.kind.ResponseCompleted? then 1 else 0;
    assert Completions([a, b]) == Completions([a]) + if b.kind.ResponseCompleted? then 1 else 0;
  }

  /** A run with an error forwards what came before it; the error is the last thing handed on. */
  lemma NothingFollowsAnError(g: Setting, xs: seq<Upstream>)
    requires !Faultless(Whole(g, xs))
    ensures var outs := Whole(g, xs);
            outs[|outs| - 1] == Fault && Faultless(outs[..|outs| - 1]) && Whole(g, xs) == Outputs(g, xs).1
  {
    hide InStep, Texts, Items, Synthetic;
    RunInStep(g, xs);
    assert Outputs(g, xs).1 + [] == Outputs(g, xs).1;
  }

  // ---------------------------------------------------------------------
  // Closing the last block
  // ---------------------------------------------------------------------

  datatype Chunk = Bytes(text: string) | Error | NotReady

  /** Appends one empty line when the upstream closes cleanly. */
  class SseEofBoundaryStream {
    const inner: seq<Chunk>
    var at: nat
    var ended: bool
    ghost var sent: seq<Chunk>

    ghost predicate Valid()
      reads this
    {
      && at <= |inner|
      && (if !ended then sent == inner[..at] && Error !in sent
          else sent == Closed(inner))
    }

    constructor (inner: seq<Chunk>)
      ensures Valid() && this.inner == inner && sent == [] && !ended && at == 0
    {
      this.inner, at, ended, sent := inner, 0, false, [];
    }

    method PollNext() returns (r: Option<Chunk>)
      requires Valid()
      modifies this
      ensures Valid() && at >= old(at)
      ensures r.None? <==> old(ended)
      ensures r.None? ==> sent == old(sent)
      ensures r.Some? ==> sent == old(sent) + [r.value] && (at > old(at) || ended)
    {
      if ended {
        return None;
      }
      if at == |inner| {
        ended := true;
        sent := sent + [Bytes("\n\n")];
        NoErrorCloses(inner);
        return Some(Bytes("\n\n"));
      }
      var chunk := inner[at];
      at := at + 1;
      assert inner[..at] == inner[..at - 1] + [chunk];
      sent := sent + [chunk];
      if chunk.Error? {
        ended := true;
        FirstErrorCloses(inner, at - 1);
      }
      return Some(chunk);
    }
  }

  /** Everything up to the first error, or everything and the closing empty line. */
  function Closed(inner: seq<Chunk>): seq<Chunk> {
    if inner == [] then [Bytes("\n\n")]
    else if inner[0].Error? then [Error]
    else [inner[0]] + Closed(inner[1..])
  }

  lemma {:induction false} NoErrorCloses(inner: seq<Chunk>)
    requires Error !in inner
    ensures Closed(inner) == inner + [Bytes("\n\n")]
  {
    if inner != [] {
      assert inner[0] in inner;
      NoErrorCloses(inner[1..]);
      assert [inner[0]] + (inner[1..] + [Bytes("\n\n")]) == inner + [Bytes("\n\n")];
    }
  }

  lemma {:induction false} FirstErrorCloses(inner: seq<Chunk>, i: nat)
    requires i < |inner| && inner[i].Error? && Error !in inner[..i]
    ensures Closed(inner) == inner[..i + 1]
  {
    if i > 0 {
      assert inner[..i][0] in inner[..i];
      assert forall c :: c in inner[1..][..i - 1] ==> c in inner[..i];
      FirstErrorCloses(inner[1..], i - 1);
      assert [inner[0]] + inner[1..][..i] == inner[..i + 1];
    }
  }
}
