/**
What a caller of the renewal gate gets back: the runs of the gate with the move of every step,
what the environment told each thread, and what the thread then returns.
*/
module RenewalOutcomes {
  import opened Outcomes
  import opened RenewalGate

  /** A run together with the thread that moves at each step and what it is told. */
  ghost predicate Played(states: seq<State>, moves: seq<(nat, Choice)>, n: nat) {
    && |states| == |moves| + 1 && states[0] == Init(n)
    && forall i :: 0 <= i < |moves| ==> IsMove(states[i], moves[i], states[i + 1])
  }

  ghost predicate IsMove(s: State, move: (nat, Choice), s': State) {
    move.0 < |s.threads| && Apply(s, move.0, move.1) == Some(s')
  }

  lemma PlayedIsRun(states: seq<State>, moves: seq<(nat, Choice)>, n: nat)
    requires Played(states, moves, n)
    ensures Run(states, n)
  {
    hide Apply;
    forall i | 0 <= i < |states| - 1
      ensures Step(states[i], states[i + 1])
    {
      assert IsMove(states[i], moves[i], states[i + 1]);
    }
  }

  lemma {:induction false} EveryRunIsPlayed(states: seq<State>, n: nat)
    requires Run(states, n)
    ensures exists moves :: Played(states, moves, n)
  {
    hide Apply;
    if |states| == 1 {
      assert Played(states, [], n);
    } else {
      var init := states[..|states| - 1];
      assert Run(init, n) by {
        forall i | 0 <= i < |init| - 1
          ensures Step(init[i], init[i + 1])
        {
          assert Step(states[i], states[i + 1]);
        }
      }
      EveryRunIsPlayed(init, n);
      var moves :| Played(init, moves, n);
      var u, c := TheStep(states, n, |states| - 2);
      assert Played(states, moves + [(u, c)], n) by {
        forall i | 0 <= i < |moves| + 1
          ensures IsMove(states[i], (moves + [(u, c)])[i], states[i + 1])
        {
          if i < |moves| { assert IsMove(init[i], moves[i], init[i + 1]); }
        }
      }
    }
  }

  // ---------------------------------------------------------------------
  // What a thread was told
  // ---------------------------------------------------------------------

  /** The loads, deadlines and wakeups of one thread, in order. */
  function Words(moves: seq<(nat, Choice)>, t: nat): seq<Choice> {
    if moves == [] then []
    else
      var last := moves[|moves| - 1];
      Words(moves[..|moves| - 1], t) + if last.0 == t && last.1 != Go then [last.1] else []
  }

  lemma WordsPush(moves: seq<(nat, Choice)>, i: nat, t: nat)
    requires i < |moves|
    ensures Words(moves[..i + 1], t) ==
            Words(moves[..i], t) + if moves[i].0 == t && moves[i].1 != Go then [moves[i].1] else []
  {
    assert moves[..i + 1][..i] == moves[..i];
  }

  lemma {:induction false} WordsGrow(moves: seq<(nat, Choice)>, i: nat, t: nat)
    requires i <= |moves|
    ensures Words(moves[..i], t) <= Words(moves, t)
    decreases |moves| - i
  {
    if i == |moves| {
      assert moves[..i] == moves;
    } else {
      WordsGrow(moves, i + 1, t);
      WordsPush(moves, i, t);
    }
  }

  lemma {:induction false} WordsAreMoves(moves: seq<(nat, Choice)>, t: nat, c: Choice)
    requires c != Go
    ensures c in Words(moves, t) <==> (t, c) in moves
  {
    if moves != [] {
      var init, last := moves[..|moves| - 1], moves[|moves| - 1];
      WordsAreMoves(init, t, c);
      assert moves == init + [last];
    }
  }

  /** After one of these a thread asks for nothing more. */
  predicate Final(c: Choice) {
    c in {Load(Loaded), Load(Fatal), Deadline(true), Wake(true)}
  }

  /** The last word behind a result: a loaded credential, and nothing else, gives one back. */
  predicate Verdict(ok: bool, c: Choice) {
    if ok then c == Load(Loaded) else c in {Load(Renewable), Load(Fatal), Deadline(true), Wake(true)}
  }

  ghost predicate Told(pc: Pc, words: seq<Choice>) {
    match pc
    case Start => words == []
    case CheckDeadline => words == [Load(Renewable)]
    case WantGate => words == [Load(Renewable), Deadline(false)]
    case Deciding => words == [Load(Renewable), Deadline(false)]
    case Elected => words == [Load(Renewable), Deadline(false)]
    case Refreshing => words == [Load(Renewable), Deadline(false)]
    case Polling => |words| >= 2 && words[|words| - 1] == Deadline(false)
    case PollDeadline => |words| >= 2 && words[|words| - 1] == Load(Renewable)
    case WantFinish(ok) => LeaderTold(ok, words)
    case Finishing(ok) => LeaderTold(ok, words)
    case Announcing(ok) => LeaderTold(ok, words)
    case Announced(ok) => LeaderTold(ok, words)
    case Testing(_) => |words| >= 2 && words[|words| - 1] in {Deadline(false), Wake(false)}
    case Asleep(_) => |words| >= 2 && words[|words| - 1] == Deadline(false)
    case Woken(_, timedOut) => WokenTold(timedOut, words)
    case Reacquired(_, timedOut) => WokenTold(timedOut, words)
    case JoinLoad => |words| >= 2 && words[|words| - 1] in {Deadline(false), Wake(false)}
    case Done(ok) => words != [] && Verdict(ok, words[|words| - 1])
  }

  /** A leader ends with a load, or at its deadline. */
  ghost predicate LeaderTold(ok: bool, words: seq<Choice>) {
    |words| >= 2 && Final(words[|words| - 1]) && Verdict(ok, words[|words| - 1])
  }

  ghost predicate WokenTold(timedOut: bool, words: seq<Choice>) {
    && |words| >= 2
    && if timedOut then words[|words| - 1] == Wake(true) else words[|words| - 1] in {Deadline(false), Wake(false)}
  }

  /** A thread and everything it was told so far. */
  ghost predicate Fate(th: Thread, words: seq<Choice>) {
    && Told(th.pc, words)
    && (forall k :: 0 <= k < |words| - 1 ==> !Final(words[k]))
    && (th.launched > 0 || th.hasJoined ==> |words| >= 2)
  }

  function Longer(words: seq<Choice>, c: Choice): (more: seq<Choice>)
    ensures c == Go ==> more == words
    ensures c != Go ==> |more| == |words| + 1 && more[|words|] == c
    ensures forall k :: 0 <= k < |words| ==> more[k] == words[k]
  {
    words + if c != Go then [c] else []
  }

  lemma JoinerHearsNothing(s: State, t: nat, words: seq<Choice>)
    requires t < |s.threads| && Apply(s, t, Go).Some? && Told(s.threads[t].pc, words) && FollowerOnly(s.threads[t].pc)
    requires t < |Apply(s, t, Go).value.threads|
    ensures Told(Apply(s, t, Go).value.threads[t].pc, words)
  {
    hide NotifyAll;
  }

  lemma LeaderHearsNothing(s: State, t: nat, words: seq<Choice>)
    requires t < |s.threads| && Apply(s, t, Go).Some? && Told(s.threads[t].pc, words) && !FollowerOnly(s.threads[t].pc)
    requires t < |Apply(s, t, Go).value.threads|
    ensures Told(Apply(s, t, Go).value.threads[t].pc, words)
  {
    hide NotifyAll;
  }

  lemma TellsNothing(s: State, t: nat, words: seq<Choice>)
    requires t < |s.threads| && Apply(s, t, Go).Some? && Told(s.threads[t].pc, words)
    requires t < |Apply(s, t, Go).value.threads|
    ensures Told(Apply(s, t, Go).value.threads[t].pc, words)
  {
    hide Apply, Told, FollowerOnly;
    if FollowerOnly(s.threads[t].pc) { JoinerHearsNothing(s, t, words); } else { LeaderHearsNothing(s, t, words); }
  }

  lemma TellsOnce(s: State, t: nat, c: Choice, words: seq<Choice>, more: seq<Choice>)
    requires t < |s.threads| && Apply(s, t, c).Some? && Told(s.threads[t].pc, words) && c != Go
    requires t < |Apply(s, t, c).value.threads|
    requires |more| == |words| + 1 && more[|words|] == c && forall k :: 0 <= k < |words| ==> more[k] == words[k]
    ensures Told(Apply(s, t, c).value.threads[t].pc, more)
  {
    hide NotifyAll;
  }

  lemma OwnTold(s: State, t: nat, c: Choice, words: seq<Choice>)
    requires t < |s.threads| && Apply(s, t, c).Some? && Told(s.threads[t].pc, words)
    requires t < |Apply(s, t, c).value.threads|
    ensures Told(Apply(s, t, c).value.threads[t].pc, Longer(words, c))
  {
    hide Apply, Told, Longer;
    if c == Go { TellsNothing(s, t, words); } else { TellsOnce(s, t, c, words, Longer(words, c)); }
  }

  /** A thread that still moves was not told anything final, or moves to return. */
  lemma OwnEnd(s: State, t: nat, c: Choice, words: seq<Choice>)
    requires t < |s.threads| && Apply(s, t, c).Some? && Told(s.threads[t].pc, words)
    ensures c != Go && words != [] ==> !Final(words[|words| - 1])
  {
    hide NotifyAll;
  }

  lemma OwnCount(s: State, t: nat, c: Choice, words: seq<Choice>)
    requires t < |s.threads| && Apply(s, t, c).Some? && Told(s.threads[t].pc, words)
    requires s.threads[t].launched > 0 || s.threads[t].hasJoined ==> |words| >= 2
    requires t < |Apply(s, t, c).value.threads|
    ensures var th := Apply(s, t, c).value.threads[t];
            th.launched > 0 || th.hasJoined ==> |words| >= 2
  {
    hide NotifyAll;
  }

  lemma OwnFate(s: State, t: nat, c: Choice, words: seq<Choice>)
    requires t < |s.threads| && Apply(s, t, c).Some? && Fate(s.threads[t], words)
    requires t < |Apply(s, t, c).value.threads|
    ensures Fate(Apply(s, t, c).value.threads[t], Longer(words, c))
  {
    hide Apply, Told, Final, Longer;
    OwnTold(s, t, c, words);
    OwnEnd(s, t, c, words);
    OwnCount(s, t, c, words);
  }

  lemma OtherFate(th: Thread, th': Thread, words: seq<Choice>)
    requires th' == th || (th.pc.Asleep? && th' == th.(pc := Woken(th.pc.joined, false)))
    requires Fate(th, words)
    ensures Fate(th', words)
  {
  }

  lemma {:induction false} FateOf(states: seq<State>, moves: seq<(nat, Choice)>, n: nat, i: nat, t: nat)
    requires Played(states, moves, n) && i < |states| && t < n
    ensures t < |states[i].threads| && Fate(states[i].threads[t], Words(moves[..i], t))
    decreases i
  {
    hide Apply, Fate, Words;
    PlayedIsRun(states, moves, n);
    ThreadsStay(states, n, i);
    if i == 0 {
      StartFate(states, moves, n, t);
    } else {
      FateOf(states, moves, n, i - 1, t);
      WordsPush(moves, i - 1, t);
      ThreadsStay(states, n, i - 1);
      var s, u, c := states[i - 1], moves[i - 1].0, moves[i - 1].1;
      assert IsMove(states[i - 1], moves[i - 1], states[i - 1 + 1]);
      var words := Words(moves[..i - 1], t);
      if u == t {
        OwnFate(s, t, c, words);
        assert Words(moves[..i], t) == Longer(words, c);
      } else {
        OthersUnchanged(s, u, c, t);
        OtherFate(s.threads[t], states[i].threads[t], words);
        assert words + [] == words;
      }
    }
  }

  lemma StartFate(states: seq<State>, moves: seq<(nat, Choice)>, n: nat, t: nat)
    requires Played(states, moves, n) && t < n
    ensures t < |states[0].threads| && Fate(states[0].threads[t], Words(moves[..0], t))
  {
  }

  // ---------------------------------------------------------------------
  // What a caller gets back
  // ---------------------------------------------------------------------

  /**
  A caller gets a credential back exactly when one of its own loads gave it one. It goes away
  empty-handed only after a load that gave none, a passed deadline or a timed-out wait, and that
  was the last thing it was told.
  */
  lemma ReturnsWhatItLoaded(states: seq<State>, moves: seq<(nat, Choice)>, n: nat, i: nat, t: nat)
    requires Played(states, moves, n) && i < |states| && t < |states[i].threads| && states[i].threads[t].pc.Done?
    ensures states[i].threads[t].pc.ok <==> (t, Load(Loaded)) in moves[..i]
    ensures var words := Words(moves[..i], t);
            && words != []
            && (!states[i].threads[t].pc.ok ==>
                  words[|words| - 1] in {Load(Renewable), Load(Fatal), Deadline(true), Wake(true)})
  {
    hide Words, Apply, Played;
    PlayedIsRun(states, moves, n);
    PlayedLength(states, moves, n);
    ThreadsStay(states, n, i);
    FateOf(states, moves, n, i, t);
    WordsAreMoves(moves[..i], t, Load(Loaded));
    LoadedIsLast(states[i].threads[t], Words(moves[..i], t));
  }

  lemma LoadedIsLast(th: Thread, words: seq<Choice>)
    requires Fate(th, words) && th.pc.Done?
    ensures words != [] && Verdict(th.pc.ok, words[|words| - 1])
    ensures th.pc.ok <==> Load(Loaded) in words
  {
    if th.pc.ok { assert words[|words| - 1] in words; }
    if Load(Loaded) in words {
      var k :| 0 <= k < |words| && words[k] == Load(Loaded);
      assert Final(words[k]);
    }
  }

  /** Nothing more is asked for once a load settled the matter, a deadline passed or a wait timed out. */
  lemma NothingAfterTheEnd(states: seq<State>, moves: seq<(nat, Choice)>, n: nat, t: nat, k: nat)
    requires Played(states, moves, n) && t < n && k < |Words(moves, t)|
    requires Words(moves, t)[k] in {Load(Loaded), Load(Fatal), Deadline(true), Wake(true)}
    ensures k == |Words(moves, t)| - 1
  {
    hide Words, Apply, Played, Told;
    assert moves[..|moves|] == moves && |states| == |moves| + 1 by { PlayedLength(states, moves, n); }
    FateOf(states, moves, n, |moves|, t);
    assert Final(Words(moves, t)[k]);
  }

  lemma PlayedLength(states: seq<State>, moves: seq<(nat, Choice)>, n: nat)
    requires Played(states, moves, n)
    ensures |states| == |moves| + 1 && moves[..|moves|] == moves
  {
  }

  /** A caller whose first load settles the matter never comes near the gate or a helper. */
  lemma SettledAtOnce(states: seq<State>, moves: seq<(nat, Choice)>, n: nat, i: nat, t: nat)
    requires Played(states, moves, n) && i < |states| && t < |states[i].threads|
    requires Words(moves, t) != [] && Words(moves, t)[0] in {Load(Loaded), Load(Fatal)}
    ensures var th := states[i].threads[t];
            && (th.pc.Start? || th.pc == Done(Words(moves, t)[0] == Load(Loaded)))
            && !HoldsLock(th.pc) && states[i].owner != Some(t)
            && th.launched == 0 && !th.hasJoined
  {
    hide Words, Apply;
    PlayedIsRun(states, moves, n);
    ThreadsStay(states, n, i);
    FateOf(states, moves, n, i, t);
    WordsGrow(moves, i, t);
    var words := Words(moves[..i], t);
    assert words != [] ==> words[0] == Words(moves, t)[0];
    assert Final(Words(moves, t)[0]);
    OnlyWord(states[i].threads[t], words);
    RunKeepsInv(states, n, i);
    NotOwner(states[i], t);
  }

  lemma OnlyWord(th: Thread, words: seq<Choice>)
    requires Fate(th, words) && (words != [] ==> words[0] in {Load(Loaded), Load(Fatal)})
    ensures th.pc.Start? || (words != [] && th.pc == Done(words[0] == Load(Loaded)))
    ensures th.launched == 0 && !th.hasJoined
  {
    if words != [] { assert Final(words[0]); }
  }

  lemma NotOwner(s: State, t: nat)
    requires MutexInv(s) && t < |s.threads| && !HoldsLock(s.threads[t].pc)
    ensures s.owner != Some(t)
  {
  }

  // ---------------------------------------------------------------------
  // A joined renewal is waited for
  // ---------------------------------------------------------------------

  /** At this step the thread holds the gate and finds a renewal in flight. */
  ghost predicate JoinsAt(states: seq<State>, moves: seq<(nat, Choice)>, j: nat, t: nat) {
    && j < |moves| < |states| && moves[j] == (t, Go) && t < |states[j].threads|
    && states[j].threads[t].pc.Deciding? && states[j].inFlight
  }

  /** Since then that renewal is still in flight, or it was completed. */
  ghost predicate Waits(s: State, th: Thread, since: State) {
    && s.completed >= since.completed
    && (s.completed == since.completed ==> s.inFlight && s.generation == since.generation)
    && (FollowerOnly(th.pc) || th.pc.Done?)
    && (th.pc.Testing? || th.pc.Asleep? || th.pc.Woken? || th.pc.Reacquired? ==> th.pc.joined == since.generation)
    && (th.pc.JoinLoad? || th.pc == Done(true) ==> s.completed > since.completed)
  }

  lemma OwnWait(s: State, t: nat, c: Choice, since: State)
    requires t < |s.threads| && Apply(s, t, c).Some? && Waits(s, s.threads[t], since)
    requires t < |Apply(s, t, c).value.threads|
    ensures Waits(Apply(s, t, c).value, Apply(s, t, c).value.threads[t], since)
  {
    hide NotifyAll;
  }

  lemma OtherWait(s: State, u: nat, c: Choice, since: State, t: nat)
    requires u < |s.threads| && Apply(s, u, c).Some? && t < |s.threads| && t != u && Waits(s, s.threads[t], since)
    ensures t < |Apply(s, u, c).value.threads| && Waits(Apply(s, u, c).value, Apply(s, u, c).value.threads[t], since)
  {
    hide Apply;
    OthersUnchanged(s, u, c, t);
    SharedStep(s, u, c);
  }

  lemma BeginsToWait(s: State, t: nat)
    requires t < |s.threads| && s.threads[t].pc.Deciding? && s.inFlight
    ensures Apply(s, t, Go).Some? && t < |Apply(s, t, Go).value.threads|
    ensures Waits(Apply(s, t, Go).value, Apply(s, t, Go).value.threads[t], s)
  {
  }

  lemma {:induction false} WaitsSince(
      states: seq<State>, moves: seq<(nat, Choice)>, n: nat, j: nat, i: nat, t: nat)
    requires Played(states, moves, n) && JoinsAt(states, moves, j, t) && j < i < |states|
    ensures t < |states[i].threads| && Waits(states[i], states[i].threads[t], states[j])
    decreases i
  {
    hide Apply, Waits;
    PlayedIsRun(states, moves, n);
    ThreadsStay(states, n, j);
    ThreadsStay(states, n, i);
    ThreadsStay(states, n, i - 1);
    assert IsMove(states[i - 1], moves[i - 1], states[i - 1 + 1]);
    if i == j + 1 {
      BeginsToWait(states[j], t);
    } else {
      WaitsSince(states, moves, n, j, i - 1, t);
      var u, c := moves[i - 1].0, moves[i - 1].1;
      if u == t { OwnWait(states[i - 1], t, c, states[j]); } else { OtherWait(states[i - 1], u, c, states[j], t); }
    }
  }

  /**
  Whoever joins a renewal loads again only after that renewal was completed, and so does not
  return a credential before that. Until then it only waits, and it never leads.
  */
  lemma JoinersWaitForTheRenewal(
      states: seq<State>, moves: seq<(nat, Choice)>, n: nat, j: nat, i: nat, t: nat)
    requires Played(states, moves, n) && JoinsAt(states, moves, j, t) && j < i < |states|
    ensures t < |states[i].threads|
    ensures var pc := states[i].threads[t].pc;
            && !Leads(pc)
            && (pc.JoinLoad? || pc == Done(true) ==> states[i].completed > states[j].completed)
  {
    hide Apply;
    WaitsSince(states, moves, n, j, i, t);
  }
}
