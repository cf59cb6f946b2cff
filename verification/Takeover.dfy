/** What the selections do for the clipboard: when a timer is armed, and that it takes an emptied selection over. */
module Takeover {
  import opened Common
  import opened Ownership

  // ---------------------------------------------------------------- runs in two parts

  /** What is alive after a legal run. */
  ghost function AliveAfter(sels: seq<Selection>, a: Alive, run: seq<Event>): Alive
    requires Owned(sels, a) && LegalRun(sels, a, run)
  {
    RunOwns(sels, a, run);
    Account(a, Play(sels, a, run).log).value
  }

  lemma {:induction false} PlayConcat(sels: seq<Selection>, a: Alive, x: seq<Event>, y: seq<Event>)
    requires Owned(sels, a) && LegalRun(sels, a, x + y)
    ensures LegalRun(sels, a, x)
    ensures
      var mid, b := Play(sels, a, x), AliveAfter(sels, a, x);
      && Owned(mid.sels, b) && LegalRun(mid.sels, b, y)
      && var rest := Play(mid.sels, b, y);
         Play(sels, a, x + y) == Outcome(rest.sels, mid.log + rest.log)
    decreases |x|
  {
    if x == [] {
      assert x + y == y;
      assert [] + Play(sels, a, y).log == Play(sels, a, y).log;
    } else {
      assert (x + y)[1..] == x[1..] + y;
      var i := Owner(|sels|, a, x[0]);
      var r := Handle(i, sels[i], x[0]);
      StepKeepsOwned(sels, a, x[0]);
      var b := Account(a, r.log).value;
      PlayConcat(sels[i := r.sel], b, x[1..], y);
      var mid := Play(sels[i := r.sel], b, x[1..]);
      AccountConcat(a, r.log, mid.log);
      RunOwns(sels, a, x);
      var c := AliveAfter(sels[i := r.sel], b, x[1..]);
      Assoc(r.log, mid.log, Play(mid.sels, c, y).log);
    }
  }

  // ---------------------------------------------------------------- events elsewhere

  /** A handler claims only for its own selection. */
  lemma ClaimsOwn(i: nat, sel: Selection, e: Event)
    ensures forall c :: c in Handle(i, sel, e).log && c.Claimed? ==> c.owner == i
  {
  }

  /** No handler of selection i runs, except that its timer may wake up too early. */
  ghost predicate Elsewhere(sels: seq<Selection>, a: Alive, run: seq<Event>, i: nat)
    requires Owned(sels, a) && LegalRun(sels, a, run)
    decreases |run|
  {
    run != [] ==>
      var j := Owner(|sels|, a, run[0]);
      var r := Handle(j, sels[j], run[0]);
      StepKeepsOwned(sels, a, run[0]);
      && (j != i || (run[0].TimerWoke? && run[0].wakeup == NotReady))
      && Elsewhere(sels[j := r.sel], Account(a, r.log).value, run[1..], i)
  }

  ghost predicate ClaimsFor(log: seq<Effect>, i: nat) {
    exists k :: 0 <= k < |log| && log[k].Claimed? && log[k].owner == i
  }

  lemma {:induction false} ElsewhereSpares(sels: seq<Selection>, a: Alive, run: seq<Event>, i: nat)
    requires Owned(sels, a) && LegalRun(sels, a, run) && i < |sels| && Elsewhere(sels, a, run, i)
    ensures
      var end := Play(sels, a, run);
      |end.sels| == |sels| && end.sels[i] == sels[i] && !ClaimsFor(end.log, i)
    decreases |run|
  {
    if run != [] {
      var j := Owner(|sels|, a, run[0]);
      var r := Handle(j, sels[j], run[0]);
      StepKeepsOwned(sels, a, run[0]);
      ClaimsOwn(j, sels[j], run[0]);
      ElsewhereSpares(sels[j := r.sel], Account(a, r.log).value, run[1..], i);
    }
  }

  // ---------------------------------------------------------------- when a timer is armed

  /**
   * A timer is armed just when a selection that is enabled and not its own source is emptied
   * without being blocked, has no timer yet, may be set, and a timer can be had.
   */
  lemma ArmedExactlyWhen(i: nat, sel: Selection, offer: Option<int>, blocked: bool, canSet: bool, timer: Option<int>)
    ensures
      var r := Received(i, sel, offer, blocked, canSet, timer);
      && (r.sel.timer != sel.timer <==>
            && sel.enabled && sel.source.None? && sel.timer.None?
            && offer.None? && !blocked && canSet && timer.Some?)
      && (forall t :: TimerOpened(t, i) in r.log <==> r.sel.timer != sel.timer && timer == Some(t))
      && (r.sel.timer != sel.timer ==> r.sel == Selection(true, None, None, timer))
  {
    var r := Received(i, sel, offer, blocked, canSet, timer);
    if r.sel.timer != sel.timer {
      assert r.log[|r.log| - 1] == TimerOpened(timer.value, i);
    }
  }

  // ---------------------------------------------------------------- taking over

  /** An expired timer of a selection without offer and source makes it the source chosen. */
  lemma ExpiryTakesOver(i: nat, t: int, s: int, clear: bool)
    ensures
      Handle(i, Selection(true, None, None, Some(t)), TimerWoke(t, Expired, Choice(Some(s), clear)))
      == Result(Selection(true, None, Some(s), None), [SourceMade(s, i), Claimed(i, Some(s)), TimerClosed(t)])
  {
  }

  lemma TailOf<T>(front: seq<T>, tail: seq<T>, n: nat)
    requires n == |front|
    ensures (front + tail)[..n] == front && (front + tail)[n..] == tail
  {
  }

  lemma NoClaim(x: seq<Effect>, y: seq<Effect>, i: nat)
    requires !ClaimsFor(x, i) && !ClaimsFor(y, i)
    ensures !ClaimsFor(x + y, i)
  {
    forall k | 0 <= k < |x + y| ensures !((x + y)[k].Claimed? && (x + y)[k].owner == i) {
      if k >= |x| {
        assert (x + y)[k] == y[k - |x|];
      }
    }
  }

  lemma OneEvent(sels: seq<Selection>, a: Alive, e: Event)
    requires Owned(sels, a) && Legal(|sels|, a, e)
    ensures
      var i := Owner(|sels|, a, e);
      var r := Handle(i, sels[i], e);
      LegalRun(sels, a, [e]) && Play(sels, a, [e]) == Outcome(sels[i := r.sel], r.log)
  {
    var i := Owner(|sels|, a, e);
    StepKeepsOwned(sels, a, e);
    assert [e][1..] == [];
    assert Handle(i, sels[i], e).log + [] == Handle(i, sels[i], e).log;
  }

  function Emptied(i: nat, t: int): Event {
    SelectionCame(i, None, false, true, Some(t))
  }

  /** After selection i has been emptied, the next events come to other selections only. */
  ghost predicate Undisturbed(sels: seq<Selection>, a: Alive, i: nat, t: int, others: seq<Event>)
    requires Owned(sels, a) && LegalRun(sels, a, [Emptied(i, t)])
  {
    var mid, b := Play(sels, a, [Emptied(i, t)]), AliveAfter(sels, a, [Emptied(i, t)]);
    Owned(mid.sels, b) && LegalRun(mid.sels, b, others) && Elsewhere(mid.sels, b, others, i)
  }

  /** The emptied selection waits for its timer, whatever comes to the others. */
  lemma Waits(sels: seq<Selection>, a: Alive, i: nat, t: int, others: seq<Event>)
    requires Owned(sels, a) && i < |sels| && sels[i].enabled && sels[i].source.None? && sels[i].timer.None?
    requires LegalRun(sels, a, [Emptied(i, t)] + others) && LegalRun(sels, a, [Emptied(i, t)])
    requires Undisturbed(sels, a, i, t, others)
    ensures
      var end := Play(sels, a, [Emptied(i, t)] + others);
      |end.sels| == |sels| && end.sels[i] == Selection(true, None, None, Some(t)) && !ClaimsFor(end.log, i)
  {
    var e := Emptied(i, t);
    OneEvent(sels, a, e);
    PlayConcat(sels, a, [e], others);
    var mid, b := Play(sels, a, [e]), AliveAfter(sels, a, [e]);
    ElsewhereSpares(mid.sels, b, others, i);
    NoClaim(mid.log, Play(mid.sels, b, others).log, i);
  }

  /** Its timer expires, and the daemon has a source for it. */
  lemma TakesOver(sels: seq<Selection>, b: Alive, i: nat, t: int, s: int, clear: bool)
    requires Owned(sels, b) && i < |sels| && sels[i] == Selection(true, None, None, Some(t))
    requires LegalRun(sels, b, [TimerWoke(t, Expired, Choice(Some(s), clear))])
    ensures Play(sels, b, [TimerWoke(t, Expired, Choice(Some(s), clear))])
      == Outcome(sels[i := Selection(true, None, Some(s), None)], [SourceMade(s, i), Claimed(i, Some(s)), TimerClosed(t)])
  {
    assert Holds(i, sels[i], b);
    ExpiryTakesOver(i, t, s, clear);
    OneEvent(sels, b, TimerWoke(t, Expired, Choice(Some(s), clear)));
  }

  /**
   * When the clipboard is emptied under an enabled selection that is not its own source and may
   * be set, and nothing comes to that selection before its timer expires, it ends up holding the
   * source the daemon chose: the run ends with that source made and claimed, for the first time
   * in it, and the timer closed.
   */
  lemma EmptiedIsTakenOver(sels: seq<Selection>, a: Alive, i: nat, t: int, others: seq<Event>, s: int, clear: bool)
    requires Owned(sels, a) && i < |sels| && sels[i].enabled && sels[i].source.None? && sels[i].timer.None?
    requires LegalRun(sels, a, [Emptied(i, t)]) && Undisturbed(sels, a, i, t, others)
    requires LegalRun(sels, a, [Emptied(i, t)] + others + [TimerWoke(t, Expired, Choice(Some(s), clear))])
    ensures
      var end := Play(sels, a, [Emptied(i, t)] + others + [TimerWoke(t, Expired, Choice(Some(s), clear))]);
      var n := |end.log| - 3;
      && i < |end.sels| && end.sels[i] == Selection(true, None, Some(s), None)
      && n >= 0 && end.log[n..] == [SourceMade(s, i), Claimed(i, Some(s)), TimerClosed(t)]
      && !ClaimsFor(end.log[..n], i)
  {
    var front, last := [Emptied(i, t)] + others, TimerWoke(t, Expired, Choice(Some(s), clear));
    PlayConcat(sels, a, front, [last]);
    Waits(sels, a, i, t, others);
    var mid, b := Play(sels, a, front), AliveAfter(sels, a, front);
    TakesOver(mid.sels, b, i, t, s, clear);
    TailOf(mid.log, [SourceMade(s, i), Claimed(i, Some(s)), TimerClosed(t)], |mid.log|);
  }

  // ---------------------------------------------------------------- what the compositor was told

  /** The last claim made for selection i. */
  function LastClaim(i: nat, log: seq<Effect>): Option<Option<int>> {
    if log == [] then None
    else
      var e := log[|log| - 1];
      if e.Claimed? && e.owner == i then Some(e.claim) else LastClaim(i, log[..|log| - 1])
  }

  lemma {:induction false} LastClaimConcat(i: nat, x: seq<Effect>, y: seq<Effect>)
    ensures LastClaim(i, x + y) == if LastClaim(i, y).Some? then LastClaim(i, y) else LastClaim(i, x)
  {
    if y == [] {
      assert x + y == x;
    } else {
      assert (x + y)[..|x + y| - 1] == x + y[..|y| - 1];
      LastClaimConcat(i, x, y[..|y| - 1]);
    }
  }

  lemma {:induction false} NoLastClaim(i: nat, log: seq<Effect>)
    requires !ClaimsFor(log, i)
    ensures LastClaim(i, log) == None
  {
    if log != [] {
      NoLastClaim(i, log[..|log| - 1]);
    }
  }

  /** The daemon's choice: claimed just when there is a source or the selection is to be cleared, and then held. */
  lemma ChoiceIsClaimed(i: nat, sel: Selection, c: Choice)
    ensures
      var r := Chosen(i, sel, c);
      && LastClaim(i, r.log) == (if c.source.Some? || c.clear then Some(c.source) else None)
      && r.sel == (if c.source.Some? || c.clear then sel.(source := c.source) else sel)
  {
    var r := Chosen(i, sel, c);
    assert r.log != [] ==> r.log[|r.log| - 1] == Claimed(i, c.source);
  }

  /** The source the compositor was last told of, when it was told of `x` before. */
  function Told(i: nat, x: Option<int>, log: seq<Effect>): Option<int> {
    if LastClaim(i, log).Some? then LastClaim(i, log).value else x
  }

  lemma OthersDoNotClaim(i: nat, sel: Selection, e: Event)
    requires !e.SetRequested? && !e.TimerWoke?
    ensures
      var r := Handle(i, sel, e);
      && (forall c :: c in r.log ==> !c.Claimed?)
      && (r.sel.source == sel.source || r.sel.source == None)
  {
  }

  lemma HandlerTells(i: nat, sel: Selection, e: Event)
    ensures
      var r := Handle(i, sel, e);
      r.sel.source.Some? ==> r.sel.source == Told(i, sel.source, r.log)
  {
    if e.SetRequested? {
      ChoiceIsClaimed(i, sel, e.choice);
    } else if e.TimerWoke? {
      TimerTells(i, sel, e.timer, e.wakeup, e.choice);
    } else {
      var r := Handle(i, sel, e);
      OthersDoNotClaim(i, sel, e);
      forall k | 0 <= k < |r.log| ensures !r.log[k].Claimed? {
        assert r.log[k] in r.log;
      }
      NoLastClaim(i, r.log);
    }
  }

  lemma TimerTells(i: nat, sel: Selection, t: int, wakeup: Wakeup, c: Choice)
    ensures
      var r := Woken(i, sel, t, wakeup, c);
      r.sel.source == Told(i, sel.source, r.log)
  {
    var closed := [TimerClosed(t)];
    NoLastClaim(i, closed);
    ChoiceIsClaimed(i, sel, c);
    LastClaimConcat(i, Chosen(i, sel, c).log, closed);
    LastClaimConcat(i, [], closed);
  }

  lemma ToldConcat(i: nat, x: Option<int>, a: seq<Effect>, b: seq<Effect>)
    ensures Told(i, x, a + b) == Told(i, Told(i, x, a), b)
  {
    LastClaimConcat(i, a, b);
  }

  /** In every run a selection that is a source is the one the compositor was told of last. */
  lemma {:induction false} SourceIsTold(sels: seq<Selection>, a: Alive, run: seq<Event>, i: nat, x: Option<int>)
    requires Owned(sels, a) && LegalRun(sels, a, run) && i < |sels|
    requires sels[i].source.Some? ==> sels[i].source == x
    ensures
      var end := Play(sels, a, run);
      |end.sels| == |sels| && (end.sels[i].source.Some? ==> end.sels[i].source == Told(i, x, end.log))
    decreases |run|
  {
    if run != [] {
      var j := Owner(|sels|, a, run[0]);
      var r := Handle(j, sels[j], run[0]);
      var next := sels[j := r.sel];
      StepKeepsOwned(sels, a, run[0]);
      var b := Account(a, r.log).value;
      if j == i {
        HandlerTells(i, sels[i], run[0]);
      } else {
        ClaimsOwn(j, sels[j], run[0]);
        NoLastClaim(i, r.log);
      }
      SourceIsTold(next, b, run[1..], i, Told(i, x, r.log));
      ToldConcat(i, x, r.log, Play(next, b, run[1..]).log);
    }
  }

  // ---------------------------------------------------------------- giving it up

  /**
   * When the compositor cancels the source a selection holds, the selection is no source any more and
   * the proxy is gone; so the next offer, if it is not blocked, is accepted.
   */
  lemma CancelledAccepts(sels: seq<Selection>, a: Alive, s: int, offer: int)
    requires Owned(sels, a) && s in a.sources && a.sources[s] < |sels|
    ensures
      var i := a.sources[s];
      var r := Handle(i, sels[i], SourceCancelled(s));
      && r.sel == sels[i].(source := None) && r.log == [SourceDestroyed(s)]
      && (sels[i].enabled ==>
            var next := Handle(i, r.sel, SelectionCame(i, Some(offer), false, true, None));
            next.sel.offer == Some(offer) && Accepted(i, offer) in next.log)
  {
    var i := a.sources[s];
    assert Holds(i, sels[i], a);
    var r := Handle(i, sels[i], SourceCancelled(s));
    if sels[i].enabled {
      var next := Handle(i, r.sel, SelectionCame(i, Some(offer), false, true, None));
      assert next.log[|next.log| - 1] == Accepted(i, offer);
    }
  }

  /** The last answer of the configuration on whether selection i is enabled. */
  function LastAnswer(on: bool, run: seq<Event>, i: nat): bool {
    if run == [] then on
    else
      var e := run[|run| - 1];
      if e.Enable? && e.owner == i then e.on else LastAnswer(on, run[..|run| - 1], i)
  }

  lemma {:induction false} LastAnswerFirst(on: bool, run: seq<Event>, i: nat)
    requires run != []
    ensures LastAnswer(on, run, i) == LastAnswer(if run[0].Enable? && run[0].owner == i then run[0].on else on, run[1..], i)
  {
    var n := |run| - 1;
    if n > 0 {
      assert run[1..][..n - 1] == run[..n][1..] && run[..n][0] == run[0];
      LastAnswerFirst(on, run[..n], i);
    } else {
      assert run[..0] == [] && run[1..] == [];
    }
  }

  /** Nothing but the configuration enables or disables a selection. */
  lemma {:induction false} EnabledAsConfigured(sels: seq<Selection>, a: Alive, run: seq<Event>, i: nat)
    requires Owned(sels, a) && LegalRun(sels, a, run) && i < |sels|
    ensures
      var end := Play(sels, a, run);
      |end.sels| == |sels| && end.sels[i].enabled == LastAnswer(sels[i].enabled, run, i)
    decreases |run|
  {
    if run != [] {
      var j := Owner(|sels|, a, run[0]);
      var r := Handle(j, sels[j], run[0]);
      StepKeepsOwned(sels, a, run[0]);
      EnabledAsConfigured(sels[j := r.sel], Account(a, r.log).value, run[1..], i);
      LastAnswerFirst(sels[i].enabled, run, i);
    }
  }
}
