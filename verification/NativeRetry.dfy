/**
The bounded retry loop of the Native transport: one attempt counter and one deadline, which
repeated calls for the same request share.
*/
module NativeRetry {
  import opened Outcomes
  import opened Text
  import opened Words

  /** Times are in milliseconds. */
  const RETRY_LIMIT := 3
  const WALL_CLOCK := 60_000
  const BACKOFF: seq<nat> := [1_000, 2_000, 4_000]

  // ---------------------------------------------------------------------
  // The Retry-After header
  // ---------------------------------------------------------------------

  predicate IsDigit(c: char) {
    '0' <= c <= '9'
  }

  function DigitsValue(s: string): Option<nat> {
    if s == "" then Some(0)
    else if !IsDigit(s[|s| - 1]) then None
    else
      match DigitsValue(s[..|s| - 1])
      case None => None
      case Some(n) => Some(10 * n + (s[|s| - 1] as int - '0' as int))
  }

  /** A decimal that fits 64 bits, with an optional plus sign. */
  function ParseU64(s: string): Option<nat> {
    var digits := if s != "" && s[0] == '+' then s[1..] else s;
    if digits == "" || DigitsValue(digits).None? || DigitsValue(digits).value >= TWO_64 then None
    else DigitsValue(digits)
  }

  function Decimal(n: nat): (s: string)
    ensures s != "" && forall i :: 0 <= i < |s| ==> IsDigit(s[i])
  {
    (if n < 10 then "" else Decimal(n / 10)) + [(n % 10) as char + '0']
  }

  lemma {:induction false} DecimalValue(n: nat)
    ensures DigitsValue(Decimal(n)) == Some(n)
  {
    var s := Decimal(n);
    assert s[|s| - 1] as int - '0' as int == n % 10;
    if n >= 10 {
      DecimalValue(n / 10);
      assert s[..|s| - 1] == Decimal(n / 10);
    } else {
      assert s[..|s| - 1] == "";
    }
  }

  function RetryAfterOrDefault(header: Option<string>, default: nat): nat {
    if header.Some? && ParseU64(Trim(header.value)).Some? then 1_000 * ParseU64(Trim(header.value)).value
    else default
  }

  /** A header that prints a 64-bit number of seconds, with or without blanks around it, is obeyed exactly. */
  lemma PrintedSecondsAreObeyed(n: nat, left: string, right: string, default: nat)
    requires forall i :: 0 <= i < |left| ==> IsWhitespace(left[i])
    requires forall i :: 0 <= i < |right| ==> IsWhitespace(right[i])
    ensures RetryAfterOrDefault(Some(left + Decimal(n) + right), default) == (if n < TWO_64 then 1_000 * n else default)
  {
    hide Trim, DigitsValue, Decimal, IsWhitespace;
    TrimAround(left, Decimal(n), right);
    DecimalValue(n);
    assert IsDigit(Decimal(n)[0]);
  }

  lemma {:induction false} TrimAround(left: string, s: string, right: string)
    requires s != "" && forall i :: 0 <= i < |s| ==> IsDigit(s[i])
    requires forall i :: 0 <= i < |left| ==> IsWhitespace(left[i])
    requires forall i :: 0 <= i < |right| ==> IsWhitespace(right[i])
    ensures Trim(left + s + right) == s
    decreases |right|
  {
    var all := left + s + right;
    if right != "" {
      assert all[..|all| - 1] == left + s + right[..|right| - 1];
      TrimAround(left, s, right[..|right| - 1]);
    } else {
      assert all == left + s;
      assert IsDigit(all[|all| - 1]);
      TrimStartAround(left, s);
    }
  }

  lemma {:induction false} TrimStartAround(left: string, s: string)
    requires s != "" && IsDigit(s[0])
    requires forall i :: 0 <= i < |left| ==> IsWhitespace(left[i])
    ensures TrimStart(left + s) == s
  {
    if left == "" {
      assert left + s == s && !IsWhitespace(s[0]);
    } else {
      assert (left + s)[1..] == left[1..] + s;
      TrimStartAround(left[1..], s);
    }
  }

  // ---------------------------------------------------------------------
  // One call
  // ---------------------------------------------------------------------

  datatype Answer =
    | Response(status: nat, retryAfter: Option<string>)
    | TransportError(retryable: bool)
    | TimedOut

  /** One send: when it began, what came back, when that was looked at, and the pause that followed. */
  datatype Round = Round(sentAt: nat, answer: Answer, seenAt: nat, slept: Option<nat>)

  datatype Reply = Returned(status: nat) | Failed | DeadlineExceeded

  predicate Transient(status: nat) {
    status == 429 || 502 <= status <= 504
  }

  function Pause(answer: Answer, attempt: nat): (d: Option<nat>) {
    if attempt >= RETRY_LIMIT then None
    else
      match answer
      case Response(status, header) =>
        if Transient(status) then Some(RetryAfterOrDefault(header, BACKOFF[attempt])) else None
      case TransportError(retryable) => if retryable then Some(BACKOFF[attempt]) else None
      case TimedOut => None
  }

  /** A round sleeps exactly when its answer may be retried and the pause ends in time. */
  ghost predicate RoundOk(r: Round, attempt: nat, started: nat) {
    && r.sentAt <= started + WALL_CLOCK && r.sentAt <= r.seenAt
    && r.slept == (var d := Pause(r.answer, attempt);
                   if d.Some? && r.seenAt + d.value <= started + WALL_CLOCK then d else None)
  }

  ghost predicate Obeys(rounds: seq<Round>, a: nat, started: nat) {
    && (forall i :: 0 <= i < |rounds| ==> RoundOk(rounds[i], a + i, started))
    && (forall i :: 0 <= i < |rounds| - 1 ==>
          rounds[i].slept.Some? && rounds[i].seenAt + rounds[i].slept.value <= rounds[i + 1].sentAt)
  }

  /** How a call ends: with its last answer, or because the deadline had passed before it could send again. */
  ghost predicate EndsWith(rounds: seq<Round>, reply: Reply) {
    var last := if rounds == [] then None else Some(rounds[|rounds| - 1]);
    match reply
    case Returned(status) =>
      last.Some? && last.value.slept.None? && last.value.answer.Response? && last.value.answer.status == status
    case Failed => last.Some? && last.value.slept.None? && last.value.answer.TransportError?
    case DeadlineExceeded => last.None? || last.value.slept.Some? || last.value.answer == TimedOut
  }

  /** The upstream and the clock: both behave as they like, but time does not run backwards. */
  class Upstream {
    var now: nat
    ghost var rounds: seq<Round>

    constructor (now: nat)
      ensures this.now == now && rounds == []
    {
      this.now, rounds := now, [];
    }

    method Elapse(atLeast: nat)
      modifies this`now
      ensures now >= old(now) + atLeast
    {
      var more: int := *;
      now := now + atLeast + if more > 0 then more else 0;
    }

    method Send() returns (answer: Answer)
      modifies this`now
      ensures now >= old(now)
    {
      answer := *;
      Elapse(0);
    }
  }

  method PostWithStarted(u: Upstream, started: nat, a: nat) returns (reply: Reply, attempts: nat)
    requires started <= u.now
    modifies u
    ensures u.now >= old(u.now) && old(u.rounds) <= u.rounds
    ensures Obeys(u.rounds[|old(u.rounds)|..], a, started) && EndsWith(u.rounds[|old(u.rounds)|..], reply)
    ensures a + |u.rounds| - |old(u.rounds)| <= attempts <= a + |u.rounds| - |old(u.rounds)| + 1
    ensures attempts > a && (attempts > a + 1 ==> attempts <= RETRY_LIMIT + 1)
  {
    hide Obeys, EndsWith, RoundOk, Pause, RetryAfterOrDefault;
    attempts := a;
    ghost var n := |u.rounds|;
    ghost var mine: seq<Round> := [];
    NoRounds(a, started);
    while true
      invariant started <= u.now && u.now >= old(u.now)
      invariant u.rounds == old(u.rounds) + mine
      invariant attempts == a + |mine| && Obeys(mine, a, started) && ReadyAt(mine, u.now)
      decreases 4 - |mine|
    {
      LoopMayContinue(mine, a, started, u.now);
      var attempt := attempts;
      attempts := attempts + 1;
      u.Elapse(0);
      if u.now - started > WALL_CLOCK {
        assert u.rounds[n..] == mine;
        return DeadlineExceeded, attempts;
      }
      ghost var sentAt := u.now;
      var answer := u.Send();
      u.Elapse(0);
      var pause: Option<nat>;
      reply, pause := Judge(answer, attempt, u.now, started);
      ghost var round := Round(sentAt, answer, u.now, pause);
      u.rounds := u.rounds + [round];
      RoundPush(mine, round, a, started, reply);
      mine := mine + [round];
      assert u.rounds[n..] == mine;
      if pause.None? {
        return;
      }
      u.Elapse(pause.value);
    }
  }

  /** The reply of a call that ends with this answer. */
  function ReplyFor(answer: Answer): Reply {
    match answer
    case TimedOut => DeadlineExceeded
    case Response(status, _) => Returned(status)
    case TransportError(_) => Failed
  }

  /** The branches of the loop: the reply if the call ends here, and the pause if it does not. */
  method Judge(answer: Answer, attempt: nat, now: nat, started: nat) returns (reply: Reply, pause: Option<nat>)
    requires started <= now
    ensures pause == (var d := Pause(answer, attempt);
                      if d.Some? && now + d.value <= started + WALL_CLOCK then d else None)
    ensures reply == ReplyFor(answer)
  {
    hide RetryAfterOrDefault;
    pause := None;
    match answer {
      case TimedOut =>
        reply := DeadlineExceeded;
      case Response(status, header) =>
        if Transient(status) && attempt < RETRY_LIMIT {
          var backoff := RetryAfterOrDefault(header, BACKOFF[attempt]);
          if now - started + backoff <= WALL_CLOCK {
            pause := Some(backoff);
          }
        }
        reply := Returned(status);
      case TransportError(retryable) =>
        if attempt < |BACKOFF| && retryable && now - started + BACKOFF[attempt] <= WALL_CLOCK {
          pause := Some(BACKOFF[attempt]);
        }
        reply := Failed;
    }
  }

  /** The last pause, if there was a round, is over. */
  ghost predicate ReadyAt(rounds: seq<Round>, now: nat) {
    rounds != [] ==>
      var last := rounds[|rounds| - 1];
      last.slept.Some? && last.seenAt + last.slept.value <= now
  }

  lemma NoRounds(a: nat, started: nat)
    ensures Obeys([], a, started)
  {
  }

  lemma RoundPush(rounds: seq<Round>, round: Round, a: nat, started: nat, reply: Reply)
    requires Obeys(rounds, a, started) && ReadyAt(rounds, round.sentAt)
    requires round.sentAt <= round.seenAt && round.sentAt <= started + WALL_CLOCK
    requires round.slept == (var d := Pause(round.answer, a + |rounds|);
                             if d.Some? && round.seenAt + d.value <= started + WALL_CLOCK then d else None)
    ensures Obeys(rounds + [round], a, started)
    ensures round.slept.None? && reply == ReplyFor(round.answer) ==> EndsWith(rounds + [round], reply)
  {
    hide Pause;
  }

  /** A call that has slept is within the retry limit. */
  lemma LoopMayContinue(rounds: seq<Round>, a: nat, started: nat, now: nat)
    requires Obeys(rounds, a, started) && ReadyAt(rounds, now)
    ensures rounds != [] ==> a + |rounds| <= RETRY_LIMIT
    ensures EndsWith(rounds, DeadlineExceeded)
  {
    if rounds != [] { assert RoundOk(rounds[|rounds| - 1], a + |rounds| - 1, started); }
  }

  // ---------------------------------------------------------------------
  // What every call keeps to
  // ---------------------------------------------------------------------

  function Max(a: int, b: int): int {
    if a < b then b else a
  }

  /** One call sends at most four times, less what the shared counter has used up, but once at least. */
  lemma SendsAreBounded(rounds: seq<Round>, a: nat, started: nat)
    requires Obeys(rounds, a, started)
    ensures |rounds| <= Max(1, 4 - a)
  {
    if |rounds| >= 2 { assert RoundOk(rounds[|rounds| - 2], a + |rounds| - 2, started); }
  }

  /** No send begins and no pause ends after the deadline; a given Retry-After is slept whenever it fits. */
  lemma DeadlineIsKept(rounds: seq<Round>, a: nat, started: nat, i: nat)
    requires Obeys(rounds, a, started) && i < |rounds|
    ensures rounds[i].sentAt <= started + WALL_CLOCK
    ensures rounds[i].slept.Some? ==>
      rounds[i].seenAt + rounds[i].slept.value <= started + WALL_CLOCK && a + i < |BACKOFF|
    ensures forall status: nat, n: nat ::
              rounds[i].answer == Response(status, Some(Decimal(n))) && Transient(status)
              && n < TWO_64 && a + i < RETRY_LIMIT ==>
                (rounds[i].slept == Some(1_000 * n) <==> rounds[i].seenAt + 1_000 * n <= started + WALL_CLOCK)
  {
    assert RoundOk(rounds[i], a + i, started);
    forall status: nat, n: nat |
      rounds[i].answer == Response(status, Some(Decimal(n))) && Transient(status) && n < TWO_64
      ensures Pause(rounds[i].answer, a + i) == if a + i < RETRY_LIMIT then Some(1_000 * n) else None
    {
      PrintedSecondsAreObeyed(n, "", "", if a + i < RETRY_LIMIT then BACKOFF[a + i] else 0);
      assert "" + Decimal(n) + "" == Decimal(n);
    }
  }

  /** The pause of an attempt when the answer asks for none of its own. */
  function Backoff(attempt: nat): nat {
    if attempt == 0 then 1_000 else if attempt == 1 then 2_000 else 4_000
  }

  /** A pause of this length is made if an attempt is left and it ends within 60 s of the start. */
  ghost predicate SleepsIf(r: Round, attempt: nat, started: nat, pause: nat) {
    r.slept == if attempt < 3 && r.seenAt + pause <= started + 60_000 then Some(pause) else None
  }

  /**
  Which answers are retried, and after how long: the statuses 429, 502, 503 and 504 after the
  header's seconds or else the backoff, and retryable transport errors after the backoff; nothing else.
  */
  lemma RetriedAnswers(rounds: seq<Round>, a: nat, started: nat, i: nat)
    requires Obeys(rounds, a, started) && i < |rounds|
    ensures match rounds[i].answer
            case Response(status, header) =>
              if status !in {429, 502, 503, 504} then rounds[i].slept.None?
              else if header.None? || ParseU64(Trim(header.value)).None?
              then SleepsIf(rounds[i], a + i, started, Backoff(a + i))
              else SleepsIf(rounds[i], a + i, started, 1_000 * ParseU64(Trim(header.value)).value)
            case TransportError(retryable) =>
              if retryable then SleepsIf(rounds[i], a + i, started, Backoff(a + i)) else rounds[i].slept.None?
            case TimedOut => rounds[i].slept.None?
  {
    hide Trim, ParseU64;
    assert RoundOk(rounds[i], a + i, started);
  }

  // ---------------------------------------------------------------------
  // The shared budget of one request
  // ---------------------------------------------------------------------

  /** How the first bytes of a successful body arrive. */
  datatype FirstChunk = Begun | BodyFailed | BodyTimedOut

  datatype Served = Streaming | PassedOn(status: nat) | Unavailable | GatewayTimeout | BadGateway

  predicate Successful(answer: Answer) {
    answer.Response? && 200 <= answer.status < 300
  }

  /**
  What is served fits the last answer: only a successful one is streamed or can fail in its body,
  any other is passed on with its own status, and without an answer the upstream is unavailable.
  */
  ghost predicate Serves(rounds: seq<Round>, served: Served) {
    var last := if rounds == [] then None else Some(rounds[|rounds| - 1]);
    match served
    case Streaming => last.Some? && Successful(last.value.answer)
    case GatewayTimeout => last.Some? && Successful(last.value.answer)
    case BadGateway => last.Some? && Successful(last.value.answer)
    case PassedOn(status) =>
      && last.Some? && last.value.answer.Response? && last.value.answer.status == status
      && !(200 <= status < 300) && last.value.slept.None?
    case Unavailable =>
      last.None? || last.value.slept.Some? || !last.value.answer.Response? || Successful(last.value.answer)
  }

  /**
  Serving one request: a body that fails before its first byte is requested again with the
  same counter and the same deadline, so all calls together send at most four times.
  */
  method NativeResponseStarted(u: Upstream, started: nat) returns (served: Served)
    requires started <= u.now
    modifies u
    ensures old(u.rounds) <= u.rounds && |u.rounds| - |old(u.rounds)| <= RETRY_LIMIT + 1
    ensures forall i :: |old(u.rounds)| <= i < |u.rounds| ==> u.rounds[i].sentAt <= started + WALL_CLOCK
    ensures Serves(u.rounds[|old(u.rounds)|..], served)
  {
    var attempts := 0;
    while true
      invariant started <= u.now && old(u.rounds) <= u.rounds
      invariant |u.rounds| - |old(u.rounds)| <= attempts <= RETRY_LIMIT
      invariant attempts > 0 ==> |u.rounds| > |old(u.rounds)| && Successful(u.rounds[|u.rounds| - 1].answer)
      invariant forall i :: |old(u.rounds)| <= i < |u.rounds| ==> u.rounds[i].sentAt <= started + WALL_CLOCK
      decreases RETRY_LIMIT - attempts
    {
      ghost var earlier, a := u.rounds, attempts;
      var reply;
      reply, attempts := PostWithStarted(u, started, attempts);
      ghost var mine := u.rounds[|earlier|..];
      SendsAreBounded(mine, a, started);
      forall i | |earlier| <= i < |u.rounds|
        ensures u.rounds[i].sentAt <= started + WALL_CLOCK
      {
        assert mine[i - |earlier|] == u.rounds[i];
        DeadlineIsKept(mine, a, started, i - |earlier|);
      }
      if !reply.Returned? {
        return Unavailable;
      }
      if !(200 <= reply.status < 300) {
        return PassedOn(reply.status);
      }
      u.Elapse(0);
      if u.now - started > WALL_CLOCK {
        return GatewayTimeout;
      }
      var first: FirstChunk := *;
      u.Elapse(0);
      if first.BodyTimedOut? {
        return GatewayTimeout;
      }
      if first.Begun? {
        return Streaming;
      }
      var index := if attempts > 0 then attempts - 1 else 0;
      if index >= |BACKOFF| || attempts > RETRY_LIMIT || u.now - started + BACKOFF[index] > WALL_CLOCK {
        return BadGateway;
      }
      u.Elapse(BACKOFF[index]);
    }
  }

  function Unused(counter: nat): nat {
    if counter < RETRY_LIMIT then RETRY_LIMIT - counter else 0
  }

  function Sum(xs: seq<nat>): nat {
    if xs == [] then 0 else Sum(xs[..|xs| - 1]) + xs[|xs| - 1]
  }

  /**
  Any number of calls that hand the counter on: together they send at most once each and three
  times more. `counters` lists the counter before the first call and after each.
  */
  lemma {:induction false} SharedBudget(counters: seq<nat>, sends: seq<nat>)
    requires |counters| == |sends| + 1
    requires forall i :: 0 <= i < |sends| ==>
               && counters[i] + sends[i] <= counters[i + 1] <= counters[i] + sends[i] + 1
               && counters[i + 1] > counters[i]
               && (counters[i + 1] > counters[i] + 1 ==> counters[i + 1] <= RETRY_LIMIT + 1)
    ensures Sum(sends) + Unused(counters[|sends|]) <= |sends| + Unused(counters[0])
  {
    if sends != [] {
      SharedBudget(counters[..|sends|], sends[..|sends| - 1]);
    }
  }
}
