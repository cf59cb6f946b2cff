/**
 * Who owns what in the Wayland client: offers and sources are destroyed once, timers are
 * closed once, and everything alive is held by some selection.
 */
module Ownership {
  import opened Common

  /** The regular or the primary selection of a seat. */
  datatype Selection = Selection(enabled: bool, offer: Option<int>, source: Option<int>, timer: Option<int>)

  /** Everything that happens to proxies and timers, and what the compositor and the daemon are told. */
  datatype Effect =
    | OfferCame(offer: int, owner: nat)
    | OfferDestroyed(offer: int)
    | SourceMade(source: int, owner: nat)
    | SourceDestroyed(source: int)
    | TimerOpened(timer: int, owner: nat)
    | TimerClosed(timer: int)
    | Claimed(owner: nat, claim: Option<int>)
    | Accepted(owner: nat, offer: int)

  /** What the `set` callback of the daemon returns. */
  datatype Choice = Choice(source: Option<int>, clear: bool)

  datatype Wakeup = Broken | NotReady | Expired

  datatype Event =
    | Enable(owner: nat, on: bool)
    | SelectionCame(owner: nat, offer: Option<int>, blocked: bool, canSet: bool, armed: Option<int>)
    | TimerWoke(timer: int, wakeup: Wakeup, choice: Choice)
    | SourceCancelled(source: int)
    | SetRequested(owner: nat, choice: Choice)
    | Stopped(owner: nat)

  datatype Result = Result(sel: Selection, log: seq<Effect>)

  // ---------------------------------------------------------------- the handlers as functions

  function Destroyed(offer: Option<int>): seq<Effect> {
    if offer.Some? then [OfferDestroyed(offer.value)] else []
  }

  function Dropped(source: Option<int>): seq<Effect> {
    if source.Some? then [SourceDestroyed(source.value)] else []
  }

  /** Becoming the source client, or clearing the selection, or neither. */
  function Chosen(i: nat, sel: Selection, c: Choice): Result {
    if !c.clear && c.source.None? then Result(sel, [])
    else
      Result(sel.(source := c.source),
             (if c.source.Some? then [SourceMade(c.source.value, i)] else []) + Dropped(sel.source) + [Claimed(i, c.source)])
  }

  function Came(i: nat, offer: Option<int>): seq<Effect> {
    if offer.Some? then [OfferCame(offer.value, i)] else []
  }

  function Received(i: nat, sel: Selection, offer: Option<int>, blocked: bool, canSet: bool, timer: Option<int>): Result {
    if !sel.enabled then Result(sel, Came(i, offer) + Destroyed(offer))
    else if sel.source.Some? || blocked then
      Result(sel.(offer := None), Came(i, offer) + Destroyed(sel.offer) + Destroyed(offer))
    else if offer.Some? then
      Result(sel.(offer := offer), Came(i, offer) + Destroyed(sel.offer) + [Accepted(i, offer.value)])
    else if sel.timer.Some? || !canSet || timer.None? then Result(sel.(offer := None), Destroyed(sel.offer))
    else Result(sel.(offer := None, timer := timer), Destroyed(sel.offer) + [TimerOpened(timer.value, i)])
  }

  function Woken(i: nat, sel: Selection, fd: int, wakeup: Wakeup, c: Choice): Result {
    if wakeup == NotReady then Result(sel, [])
    else
      var r := if wakeup == Expired && sel.offer.None? then Chosen(i, sel, c) else Result(sel, []);
      Result(r.sel.(timer := None), r.log + [TimerClosed(fd)])
  }

  function Cancelled(sel: Selection, source: int): Result {
    Result(if sel.source == Some(source) then sel.(source := None) else sel, [SourceDestroyed(source)])
  }

  function Uninit(sel: Selection): Result {
    Result(sel.(offer := None, source := None, timer := None),
           Destroyed(sel.offer) + Dropped(sel.source) + if sel.timer.Some? then [TimerClosed(sel.timer.value)] else [])
  }

  // ---------------------------------------------------------------- the handlers as they run

  /** The world outside: the event loop and the Wayland connection. */
  class Outside {
    var log: seq<Effect>

    constructor ()
      ensures log == []
    {
      log := [];
    }

    method Note(e: Effect)
      modifies this
      ensures log == old(log) + [e]
    {
      log := log + [e];
    }
  }

  class SelectionObject {
    const index: nat
    const outside: Outside
    var enabled: bool
    var offer: Option<int>
    var source: Option<int>
    var timer: Option<int>

    ghost function Value(): Selection
      reads this
    {
      Selection(enabled, offer, source, timer)
    }

    constructor (index: nat, outside: Outside)
      ensures this.index == index && this.outside == outside && Value() == Selection(false, None, None, None)
    {
      this.index := index;
      this.outside := outside;
      enabled, offer, source, timer := false, None, None, None;
    }

    /** Follows the call of the `set` callback, which has already created the source. */
    method Set(choice: Choice)
      modifies this, outside
      ensures
        var r := Chosen(index, old(Value()), choice);
        Value() == r.sel && outside.log == old(outside.log) + r.log
    {
      if choice.source.Some? {
        outside.Note(SourceMade(choice.source.value, index));
      }
      if !choice.clear && choice.source.None? {
        return;
      }
      if source.Some? {
        outside.Note(SourceDestroyed(source.value));
      }
      source := choice.source;
      outside.Note(Claimed(index, source));
    }

    method OnSelection(offer: Option<int>, blocked: bool, canSet: bool, timer: Option<int>)
      modifies this, outside
      ensures
        var r := Received(index, old(Value()), offer, blocked, canSet, timer);
        Value() == r.sel && outside.log == old(outside.log) + r.log
    {
      if offer.Some? {
        outside.Note(OfferCame(offer.value, index));
      }
      if !enabled {
        if offer.Some? {
          outside.Note(OfferDestroyed(offer.value));
        }
        return;
      }
      if this.offer.Some? {
        outside.Note(OfferDestroyed(this.offer.value));
      }
      if source.Some? || blocked {
        if offer.Some? {
          outside.Note(OfferDestroyed(offer.value));
        }
        this.offer := None;
        return;
      }
      this.offer := offer;
      if offer.None? {
        if this.timer.Some? || !canSet || timer.None? {
          return;
        }
        outside.Note(TimerOpened(timer.value, index));
        this.timer := timer;
        return;
      }
      outside.Note(Accepted(index, offer.value));
    }

    method OnNullTimer(fd: int, wakeup: Wakeup, choice: Choice)
      modifies this, outside
      ensures
        var r := Woken(index, old(Value()), fd, wakeup, choice);
        Value() == r.sel && outside.log == old(outside.log) + r.log
    {
      if wakeup == NotReady {
        return;
      }
      if wakeup == Expired && offer.None? {
        Set(choice);
      }
      outside.Note(TimerClosed(fd));
      timer := None;
    }

    method OnCancelled(proxy: int)
      modifies this, outside
      ensures
        var r := Cancelled(old(Value()), proxy);
        Value() == r.sel && outside.log == old(outside.log) + r.log
    {
      if source == Some(proxy) {
        source := None;
      }
      outside.Note(SourceDestroyed(proxy));
    }

    method Close()
      modifies this, outside
      ensures
        var r := Uninit(old(Value()));
        Value() == r.sel && outside.log == old(outside.log) + r.log
    {
      if offer.Some? {
        outside.Note(OfferDestroyed(offer.value));
        offer := None;
      }
      if source.Some? {
        outside.Note(SourceDestroyed(source.value));
        source := None;
      }
      if timer.Some? {
        outside.Note(TimerClosed(timer.value));
        timer := None;
      }
    }
  }

  // ---------------------------------------------------------------- runs

  /** What is alive, and which selection it was made for. */
  datatype Alive = Alive(offers: map<int, nat>, sources: map<int, nat>, timers: map<int, nat>)

  function Made(m: map<int, nat>, x: int, i: nat): Option<map<int, nat>> {
    if x in m then None else Some(m[x := i])
  }

  function Gone(m: map<int, nat>, x: int): Option<map<int, nat>> {
    if x in m then Some(m - {x}) else None
  }

  /** One effect; nothing may be made while it is alive or destroyed when it is not. */
  function Counted(a: Alive, e: Effect): Option<Alive> {
    match e
    case OfferCame(o, i) => (match Made(a.offers, o, i) case None => None case Some(m) => Some(a.(offers := m)))
    case OfferDestroyed(o) => (match Gone(a.offers, o) case None => None case Some(m) => Some(a.(offers := m)))
    case SourceMade(s, i) => (match Made(a.sources, s, i) case None => None case Some(m) => Some(a.(sources := m)))
    case SourceDestroyed(s) => (match Gone(a.sources, s) case None => None case Some(m) => Some(a.(sources := m)))
    case TimerOpened(t, i) => (match Made(a.timers, t, i) case None => None case Some(m) => Some(a.(timers := m)))
    case TimerClosed(t) => (match Gone(a.timers, t) case None => None case Some(m) => Some(a.(timers := m)))
    case _ => Some(a)
  }

  /** What is alive after a log, if every creation and destruction in it was in order. */
  function Account(a: Alive, log: seq<Effect>): Option<Alive>
    decreases |log|
  {
    if log == [] then Some(a)
    else match Counted(a, log[0]) case None => None case Some(b) => Account(b, log[1..])
  }

  const NOTHING := Alive(map[], map[], map[])

  /** Nobody is handed a proxy or a descriptor that is in use; events come from what is alive. */
  ghost predicate Legal(n: nat, a: Alive, e: Event) {
    match e
    case Enable(i, _) => i < n
    case SelectionCame(i, offer, _, _, armed) =>
      i < n && (offer.Some? ==> offer.value !in a.offers) && (armed.Some? ==> armed.value !in a.timers)
    case TimerWoke(t, _, c) => t in a.timers && a.timers[t] < n && (c.source.Some? ==> c.source.value !in a.sources)
    case SourceCancelled(s) => s in a.sources && a.sources[s] < n
    case SetRequested(i, c) => i < n && (c.source.Some? ==> c.source.value !in a.sources)
    case Stopped(i) => i < n
  }

  /** The selection whose handler an event runs. */
  function Owner(n: nat, a: Alive, e: Event): (i: nat)
    requires Legal(n, a, e)
    ensures i < n
  {
    match e
    case TimerWoke(t, _, _) => a.timers[t]
    case SourceCancelled(s) => a.sources[s]
    case _ => e.owner
  }

  function Handle(i: nat, sel: Selection, e: Event): Result {
    match e
    case Enable(_, on) => Result(sel.(enabled := on), [])
    case SelectionCame(_, offer, blocked, canSet, armed) => Received(i, sel, offer, blocked, canSet, armed)
    case TimerWoke(t, wakeup, c) => Woken(i, sel, t, wakeup, c)
    case SourceCancelled(s) => Cancelled(sel, s)
    case SetRequested(_, c) => Chosen(i, sel, c)
    case Stopped(_) => Uninit(sel)
  }

  // ---------------------------------------------------------------- ownership

  /** A field names what is alive for this selection, and nothing else is alive for it. */
  ghost predicate Sole(i: nat, field: Option<int>, m: map<int, nat>) {
    forall x :: (x in m && m[x] == i) <==> field == Some(x)
  }

  ghost predicate Holds(i: nat, sel: Selection, a: Alive) {
    Sole(i, sel.offer, a.offers) && Sole(i, sel.source, a.sources) && Sole(i, sel.timer, a.timers)
  }

  /** Exactly what the selections hold is alive. */
  ghost predicate Owned(sels: seq<Selection>, a: Alive) {
    && (forall i :: 0 <= i < |sels| ==> Holds(i, sels[i], a))
    && (forall x :: x in a.offers ==> a.offers[x] < |sels|)
    && (forall x :: x in a.sources ==> a.sources[x] < |sels|)
    && (forall x :: x in a.timers ==> a.timers[x] < |sels|)
  }

  /** Only what belongs to selection i has changed. */
  ghost predicate Local(i: nat, m: map<int, nat>, n: map<int, nat>) {
    forall x :: (x in m && m[x] != i) || (x in n && n[x] != i) ==> x in m && x in n && m[x] == n[x]
  }

  ghost predicate LocalTo(i: nat, a: Alive, b: Alive) {
    Local(i, a.offers, b.offers) && Local(i, a.sources, b.sources) && Local(i, a.timers, b.timers)
  }

  lemma {:induction false} AccountConcat(a: Alive, x: seq<Effect>, y: seq<Effect>)
    ensures Account(a, x + y) == match Account(a, x) case None => None case Some(b) => Account(b, y)
    decreases |x|
  {
    if x == [] {
      assert x + y == y;
    } else {
      assert (x + y)[1..] == x[1..] + y;
      if Counted(a, x[0]).Some? {
        AccountConcat(Counted(a, x[0]).value, x[1..], y);
      }
    }
  }

  function Both(b: Option<Alive>, e: Effect): Option<Alive> {
    match b case None => None case Some(a) => Counted(a, e)
  }

  lemma ShortLogs(a: Alive, e: Effect, f: Effect, g: Effect)
    ensures Account(a, []) == Some(a)
    ensures Account(a, [e]) == Counted(a, e)
    ensures Account(a, [e, f]) == Both(Counted(a, e), f)
    ensures Account(a, [e, f, g]) == Both(Both(Counted(a, e), f), g)
  {
    assert [e][1..] == [] && [e, f][1..] == [f] && [e, f, g][1..] == [f, g];
    assert [f][1..] == [] && [f, g][1..] == [g] && [g][1..] == [];
    assert forall b: Alive :: Account(b, [g]) == Counted(b, g);
    assert forall b: Alive :: Account(b, [f]) == Counted(b, f);
  }

  /** A handler's log is in order, and its selection then holds what is alive for it. */
  ghost predicate Kept(i: nat, a: Alive, r: Result) {
    var b := Account(a, r.log);
    b.Some? && Holds(i, r.sel, b.value) && LocalTo(i, a, b.value)
  }

  lemma ChosenKeeps(i: nat, sel: Selection, a: Alive, c: Choice)
    requires Holds(i, sel, a) && (c.source.Some? ==> c.source.value !in a.sources)
    ensures Kept(i, a, Chosen(i, sel, c))
  {
    var r := Chosen(i, sel, c);
    var claim := Claimed(i, c.source);
    if c.source.Some? {
      var made := SourceMade(c.source.value, i);
      if sel.source.Some? {
        var gone := SourceDestroyed(sel.source.value);
        assert r.log == [made, gone, claim];
        ShortLogs(a, made, gone, claim);
      } else {
        assert r.log == [made, claim];
        ShortLogs(a, made, claim, claim);
      }
    } else if c.clear {
      if sel.source.Some? {
        var gone := SourceDestroyed(sel.source.value);
        assert r.log == [gone, claim];
        ShortLogs(a, gone, claim, claim);
      } else {
        assert r.log == [claim];
        ShortLogs(a, claim, claim, claim);
      }
    }
  }

  /** A selection that is off, is its own source, or gets a blocked offer. */
  lemma RefusedKeeps(i: nat, sel: Selection, a: Alive, offer: Option<int>, blocked: bool)
    requires Holds(i, sel, a) && (offer.Some? ==> offer.value !in a.offers)
    requires !sel.enabled || sel.source.Some? || blocked
    ensures Kept(i, a, Received(i, sel, offer, blocked, false, None))
  {
    var r := Received(i, sel, offer, blocked, false, None);
    var gone := OfferDestroyed(if sel.offer.Some? then sel.offer.value else 0);
    if offer.Some? {
      var came, back := OfferCame(offer.value, i), OfferDestroyed(offer.value);
      if sel.enabled && sel.offer.Some? {
        assert r.log == [came, gone, back];
        ShortLogs(a, came, gone, back);
      } else {
        assert r.log == [came, back];
        ShortLogs(a, came, back, back);
      }
    } else {
      assert r.log == if sel.enabled && sel.offer.Some? then [gone] else [];
      ShortLogs(a, gone, gone, gone);
    }
  }

  lemma AcceptedKeeps(i: nat, sel: Selection, a: Alive, offer: int)
    requires Holds(i, sel, a) && offer !in a.offers && sel.enabled && sel.source.None?
    ensures Kept(i, a, Received(i, sel, Some(offer), false, false, None))
  {
    var r := Received(i, sel, Some(offer), false, false, None);
    var came, accepted := OfferCame(offer, i), Accepted(i, offer);
    if sel.offer.Some? {
      var gone := OfferDestroyed(sel.offer.value);
      assert r.log == [came, gone, accepted];
      ShortLogs(a, came, gone, accepted);
    } else {
      assert r.log == [came, accepted];
      ShortLogs(a, came, accepted, accepted);
    }
  }

  lemma EmptiedKeeps(i: nat, sel: Selection, a: Alive, canSet: bool, armed: Option<int>)
    requires Holds(i, sel, a) && (armed.Some? ==> armed.value !in a.timers)
    requires sel.enabled && sel.source.None?
    ensures Kept(i, a, Received(i, sel, None, false, canSet, armed))
  {
    var r := Received(i, sel, None, false, canSet, armed);
    var open := TimerOpened(if armed.Some? then armed.value else 0, i);
    if sel.offer.Some? {
      var gone := OfferDestroyed(sel.offer.value);
      assert r.log == if r.sel.timer == sel.timer then [gone] else [gone, open];
      ShortLogs(a, gone, open, open);
    } else {
      assert r.log == if r.sel.timer == sel.timer then [] else [open];
      ShortLogs(a, open, open, open);
    }
  }

  lemma ReceivedKeeps(i: nat, sel: Selection, a: Alive, offer: Option<int>, blocked: bool, canSet: bool, armed: Option<int>)
    requires Holds(i, sel, a)
    requires (offer.Some? ==> offer.value !in a.offers) && (armed.Some? ==> armed.value !in a.timers)
    ensures Kept(i, a, Received(i, sel, offer, blocked, canSet, armed))
  {
    if !sel.enabled || sel.source.Some? || blocked {
      RefusedKeeps(i, sel, a, offer, blocked);
    } else if offer.Some? {
      AcceptedKeeps(i, sel, a, offer.value);
    } else {
      EmptiedKeeps(i, sel, a, canSet, armed);
    }
  }

  lemma WokenKeeps(i: nat, sel: Selection, a: Alive, fd: int, wakeup: Wakeup, c: Choice)
    requires Holds(i, sel, a) && fd in a.timers && a.timers[fd] == i
    requires c.source.Some? ==> c.source.value !in a.sources
    ensures Kept(i, a, Woken(i, sel, fd, wakeup, c))
  {
    if wakeup != NotReady {
      var r := if wakeup == Expired && sel.offer.None? then Chosen(i, sel, c) else Result(sel, []);
      ChosenKeeps(i, sel, a, c);
      ShortLogs(a, TimerClosed(fd), TimerClosed(fd), TimerClosed(fd));
      var b := Account(a, r.log).value;
      ChosenSparesTimers(i, sel, a, c);
      ShortLogs(b, TimerClosed(fd), TimerClosed(fd), TimerClosed(fd));
      AccountConcat(a, r.log, [TimerClosed(fd)]);
    }
  }

  lemma ChosenSparesTimers(i: nat, sel: Selection, a: Alive, c: Choice)
    requires Kept(i, a, Chosen(i, sel, c)) && Holds(i, sel, a)
    ensures
      var b := Account(a, Chosen(i, sel, c).log).value;
      b.timers == a.timers && b.offers == a.offers
  {
    SparesTimers(a, Chosen(i, sel, c).log);
  }

  lemma {:induction false} SparesTimers(a: Alive, log: seq<Effect>)
    requires Account(a, log).Some?
    requires forall e :: e in log ==> e.SourceMade? || e.SourceDestroyed? || e.Claimed?
    ensures Account(a, log).value.timers == a.timers && Account(a, log).value.offers == a.offers
    decreases |log|
  {
    if log != [] {
      assert log[0] in log;
      SparesTimers(Counted(a, log[0]).value, log[1..]);
    }
  }

  lemma AccountThree(a: Alive, x: seq<Effect>, y: seq<Effect>, z: seq<Effect>, b: Alive, c: Alive)
    requires Account(a, x) == Some(b) && Account(b, y) == Some(c)
    ensures Account(a, x + y + z) == Account(c, z)
  {
    AccountConcat(a, x + y, z);
    AccountConcat(a, x, y);
  }

  lemma ShortLog(a: Alive, e: Effect)
    ensures Account(a, []) == Some(a) && Account(a, [e]) == Counted(a, e)
  {
    assert [e][1..] == [];
  }

  lemma UninitKeeps(i: nat, sel: Selection, a: Alive)
    requires Holds(i, sel, a)
    ensures Kept(i, a, Uninit(sel))
  {
    var x, y := Destroyed(sel.offer), Dropped(sel.source);
    var z := if sel.timer.Some? then [TimerClosed(sel.timer.value)] else [];
    var o, s := OfferDestroyed(if sel.offer.Some? then sel.offer.value else 0), SourceDestroyed(if sel.source.Some? then sel.source.value else 0);
    var t := TimerClosed(if sel.timer.Some? then sel.timer.value else 0);
    ShortLog(a, o);
    var b := Account(a, x).value;
    ShortLog(b, s);
    var c := Account(b, y).value;
    ShortLog(c, t);
    AccountThree(a, x, y, z, b, c);
  }

  /** Whatever a handler does is in order, and leaves its selection holding what is alive for it. */
  lemma HandlerKeeps(n: nat, i: nat, sel: Selection, a: Alive, e: Event)
    requires Holds(i, sel, a) && Legal(n, a, e) && i == Owner(n, a, e)
    ensures Kept(i, a, Handle(i, sel, e))
  {
    match e
    case Enable(_, _) =>
    case SelectionCame(_, offer, blocked, canSet, armed) => ReceivedKeeps(i, sel, a, offer, blocked, canSet, armed);
    case TimerWoke(t, wakeup, c) => WokenKeeps(i, sel, a, t, wakeup, c);
    case SourceCancelled(s) => ShortLogs(a, SourceDestroyed(s), SourceDestroyed(s), SourceDestroyed(s));
    case SetRequested(_, c) => ChosenKeeps(i, sel, a, c);
    case Stopped(_) => UninitKeeps(i, sel, a);
  }

  // ---------------------------------------------------------------- runs

  lemma StepKeepsOwned(sels: seq<Selection>, a: Alive, e: Event)
    requires Owned(sels, a) && Legal(|sels|, a, e)
    ensures
      var i := Owner(|sels|, a, e);
      var r := Handle(i, sels[i], e);
      Account(a, r.log).Some? && Owned(sels[i := r.sel], Account(a, r.log).value)
  {
    var i := Owner(|sels|, a, e);
    HandlerKeeps(|sels|, i, sels[i], a, e);
  }

  ghost predicate LegalRun(sels: seq<Selection>, a: Alive, run: seq<Event>)
    decreases |run|
  {
    run != [] ==>
      && Legal(|sels|, a, run[0])
      && var i := Owner(|sels|, a, run[0]);
      var r := Handle(i, sels[i], run[0]);
      Account(a, r.log).Some? ==> LegalRun(sels[i := r.sel], Account(a, r.log).value, run[1..])
  }

  datatype Outcome = Outcome(sels: seq<Selection>, log: seq<Effect>)

  /** The selections after a run, and everything that happened in it. */
  ghost function Play(sels: seq<Selection>, a: Alive, run: seq<Event>): Outcome
    requires LegalRun(sels, a, run)
    decreases |run|
  {
    if run == [] then Outcome(sels, [])
    else
      var i := Owner(|sels|, a, run[0]);
      var r := Handle(i, sels[i], run[0]);
      match Account(a, r.log)
      case None => Outcome(sels, r.log)
      case Some(b) =>
        var rest := Play(sels[i := r.sel], b, run[1..]);
        Outcome(rest.sels, r.log + rest.log)
  }

  /**
   * Over every run: no proxy or timer is made twice, used after it is gone or destroyed twice,
   * and what is alive at the end is exactly what the selections hold, each for its own.
   */
  lemma {:induction false} RunOwns(sels: seq<Selection>, a: Alive, run: seq<Event>)
    requires Owned(sels, a) && LegalRun(sels, a, run)
    ensures
      var end := Play(sels, a, run);
      Account(a, end.log).Some? && Owned(end.sels, Account(a, end.log).value)
    decreases |run|
  {
    if run != [] {
      var i := Owner(|sels|, a, run[0]);
      var r := Handle(i, sels[i], run[0]);
      StepKeepsOwned(sels, a, run[0]);
      var b := Account(a, r.log).value;
      RunOwns(sels[i := r.sel], b, run[1..]);
      AccountConcat(a, r.log, Play(sels[i := r.sel], b, run[1..]).log);
    }
  }

  /** Selections as they are initialised own nothing, and nothing is alive yet. */
  lemma NothingOwned(sels: seq<Selection>)
    requires forall i :: 0 <= i < |sels| ==> sels[i].offer.None? && sels[i].source.None? && sels[i].timer.None?
    ensures Owned(sels, NOTHING)
  {
  }

  /** Once every selection has been stopped nothing is alive. */
  lemma NothingLeaks(sels: seq<Selection>, a: Alive)
    requires Owned(sels, a)
    requires forall i :: 0 <= i < |sels| ==> sels[i] == Uninit(sels[i]).sel
    ensures a == NOTHING
  {
    assert forall x :: x in a.offers ==> Holds(a.offers[x], sels[a.offers[x]], a);
    assert forall x :: x in a.sources ==> Holds(a.sources[x], sels[a.sources[x]], a);
    assert forall x :: x in a.timers ==> Holds(a.timers[x], sels[a.timers[x]], a);
    assert forall x :: x !in a.offers && x !in a.sources && x !in a.timers;
  }

  /** The listener a cancelled source names is the selection that holds it. */
  lemma CancelledIsHeld(sels: seq<Selection>, a: Alive, s: int)
    requires Owned(sels, a) && s in a.sources
    ensures a.sources[s] < |sels| && sels[a.sources[s]].source == Some(s)
    ensures Cancelled(sels[a.sources[s]], s).sel.source == None
  {
    assert Holds(a.sources[s], sels[a.sources[s]], a);
  }

  /** The timer of a selection that has accepted an offer only goes away. */
  lemma TimerSparesOffer(sels: seq<Selection>, a: Alive, t: int, wakeup: Wakeup, c: Choice)
    requires Owned(sels, a) && t in a.timers && sels[a.timers[t]].offer.Some?
    ensures
      var sel := sels[a.timers[t]];
      var r := Woken(a.timers[t], sel, t, wakeup, c);
      && r.sel == (if wakeup == NotReady then sel else sel.(timer := None))
      && forall e :: e in r.log ==> e == TimerClosed(t)
  {
    assert Holds(a.timers[t], sels[a.timers[t]], a);
  }

  /** While a selection is its own source, no offer is accepted for it. */
  lemma SourceRefusesOffers(i: nat, sel: Selection, offer: Option<int>, blocked: bool, canSet: bool, armed: Option<int>)
    ensures
      var r := Received(i, sel, offer, blocked, canSet, armed);
      (exists o :: Accepted(i, o) in r.log) <==> sel.enabled && sel.source.None? && !blocked && offer.Some?
  {
    var r := Received(i, sel, offer, blocked, canSet, armed);
    if sel.enabled && sel.source.None? && !blocked && offer.Some? {
      assert r.log[|r.log| - 1] == Accepted(i, offer.value);
    }
  }
}
