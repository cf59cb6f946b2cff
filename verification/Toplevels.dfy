/** Which window counts as active: only one that the configuration names, under its current title. */
module Toplevels {
  import opened Common
  import opened Filter

  /** A configured toplevel: patterns for titles and application ids, and its mime type rules. */
  datatype Entry = Entry(titles: seq<Regex>, appIds: seq<Regex>, rules: Rules)

  /** `config` is a position in the configuration; `ack` says whether it is up to date. */
  datatype Toplevel = Toplevel(title: Option<string>, appId: Option<string>, activated: bool, config: Option<nat>, ack: bool)

  const NEW := Toplevel(None, None, false, None, false)

  datatype Event =
    | Appeared(id: int)
    | Titled(id: int, title: string)
    | Named(id: int, appId: string)
    | StateCame(id: int, activated: bool)
    | Done(id: int)
    | Closed(id: int)
    | ManagerFinished

  datatype Desktop = Desktop(toplevels: map<int, Toplevel>, active: Option<int>)

  // ---------------------------------------------------------------- configuration

  predicate Admits(patterns: seq<Regex>, value: Option<string>) {
    patterns == [] || (value.Some? && Matches(patterns, value.value))
  }

  predicate Applies(e: Entry, title: Option<string>, appId: Option<string>) {
    Admits(e.titles, title) && Admits(e.appIds, appId)
  }

  /** The first entry, from position i on, that applies. */
  function FirstFrom(config: seq<Entry>, i: nat, title: Option<string>, appId: Option<string>): (r: Option<nat>)
    requires i <= |config|
    ensures r.Some? ==> i <= r.value < |config| && Applies(config[r.value], title, appId)
    ensures forall j :: i <= j < (if r.Some? then r.value else |config|) ==> !Applies(config[j], title, appId)
    decreases |config| - i
  {
    if i == |config| then None
    else if Applies(config[i], title, appId) then Some(i)
    else FirstFrom(config, i + 1, title, appId)
  }

  function Looked(config: seq<Entry>, tp: Toplevel): Toplevel {
    if tp.ack then tp else tp.(config := FirstFrom(config, 0, tp.title, tp.appId), ack := true)
  }

  // ---------------------------------------------------------------- handlers as functions

  function AfterDone(config: seq<Entry>, d: Desktop, id: int): Desktop
    requires id in d.toplevels
  {
    var tp := Looked(config, d.toplevels[id]);
    var d1 := d.(toplevels := d.toplevels[id := tp]);
    if tp.config.None? then
      if !d.toplevels[id].ack && d.active == Some(id) then d1.(active := None) else d1
    else if tp.activated && d.active != Some(id) then d1.(active := Some(id))
    else if !tp.activated && d.active == Some(id) then d1.(active := None)
    else d1
  }

  function Removed(d: Desktop, id: int): Desktop {
    Desktop(d.toplevels - {id}, if d.active == Some(id) then None else d.active)
  }

  ghost predicate Legal(d: Desktop, e: Event) {
    match e
    case Appeared(id) => id !in d.toplevels
    case ManagerFinished => true
    case _ => e.id in d.toplevels
  }

  function Next(config: seq<Entry>, d: Desktop, e: Event): Desktop
    requires Legal(d, e)
  {
    match e
    case Appeared(id) => d.(toplevels := d.toplevels[id := NEW])
    case Titled(id, t) => d.(toplevels := d.toplevels[id := d.toplevels[id].(title := Some(t), ack := false)])
    case Named(id, a) => d.(toplevels := d.toplevels[id := d.toplevels[id].(appId := Some(a), ack := false)])
    case StateCame(id, on) => d.(toplevels := d.toplevels[id := d.toplevels[id].(activated := on)])
    case Done(id) => AfterDone(config, d, id)
    case Closed(id) => Removed(d, id)
    case ManagerFinished => Desktop(map[], if d.active.Some? && d.active.value in d.toplevels then None else d.active)
  }

  // ---------------------------------------------------------------- handlers as they run

  class DesktopObject {
    const config: seq<Entry>
    var toplevels: map<int, Toplevel>
    var active: Option<int>

    ghost function Value(): Desktop
      reads this
    {
      Desktop(toplevels, active)
    }

    constructor (config: seq<Entry>)
      ensures this.config == config && Value() == Desktop(map[], None)
    {
      this.config, toplevels, active := config, map[], None;
    }

    /** The loop over the configured toplevels. */
    method Query(title: Option<string>, appId: Option<string>) returns (r: Option<nat>)
      ensures r == FirstFrom(config, 0, title, appId)
    {
      var i := 0;
      while i < |config|
        invariant i <= |config| && FirstFrom(config, 0, title, appId) == FirstFrom(config, i, title, appId)
      {
        var e := config[i];
        var byTitle, byAppId := |e.titles| == 0, |e.appIds| == 0;
        if !byTitle && title.Some? {
          byTitle := MatchRegexArray(e.titles, title.value);
        }
        if byTitle && !byAppId && appId.Some? {
          byAppId := MatchRegexArray(e.appIds, appId.value);
        }
        if byTitle && byAppId {
          return Some(i);
        }
        i := i + 1;
      }
      return None;
    }

    method OnTitle(id: int, title: string)
      requires id in toplevels
      modifies this
      ensures Value() == Next(config, old(Value()), Titled(id, title))
    {
      toplevels := toplevels[id := toplevels[id].(title := Some(title), ack := false)];
    }

    method OnAppId(id: int, appId: string)
      requires id in toplevels
      modifies this
      ensures Value() == Next(config, old(Value()), Named(id, appId))
    {
      toplevels := toplevels[id := toplevels[id].(appId := Some(appId), ack := false)];
    }

    /** The states of a window; it is active if one of them says so. */
    method OnState(id: int, states: seq<bool>)
      requires id in toplevels
      modifies this
      ensures Value() == Next(config, old(Value()), StateCame(id, true in states))
    {
      for i := 0 to |states|
        invariant true !in states[..i] && Value() == old(Value())
      {
        if states[i] {
          toplevels := toplevels[id := toplevels[id].(activated := true)];
          return;
        }
      }
      assert states[..|states|] == states;
      toplevels := toplevels[id := toplevels[id].(activated := false)];
    }

    method OnDone(id: int)
      requires id in toplevels
      modifies this
      ensures Value() == Next(config, old(Value()), Done(id))
    {
      var tp := toplevels[id];
      if !tp.ack {
        var found := Query(tp.title, tp.appId);
        tp := tp.(config := found, ack := true);
        toplevels := toplevels[id := tp];
        if tp.config.None? {
          if active == Some(id) {
            active := None;
          }
          return;
        }
      } else {
        assert toplevels[id := tp] == toplevels;
        if tp.config.None? {
          return;
        }
      }
      if tp.activated && active != Some(id) {
        active := Some(id);
      } else if !tp.activated && active == Some(id) {
        active := None;
      }
    }

    method OnClosed(id: int)
      requires id in toplevels
      modifies this
      ensures Value() == Next(config, old(Value()), Closed(id))
    {
      if active == Some(id) {
        active := None;
      }
      toplevels := toplevels - {id};
    }

    /** The manager goes away: every toplevel is removed, one after the other. */
    method OnFinished()
      requires active.Some? ==> active.value in toplevels
      modifies this
      ensures Value() == Next(config, old(Value()), ManagerFinished)
    {
      while toplevels.Keys != {}
        invariant active.Some? ==> active.value in toplevels
        decreases |toplevels.Keys|
      {
        assert (forall x :: x !in toplevels.Keys) ==> toplevels.Keys == {};
        var id :| id in toplevels;
        OnClosed(id);
      }
      assert toplevels == map[];
    }
  }

  // ---------------------------------------------------------------- runs

  /** The active toplevel exists and has a configuration; an acknowledged one has the right one. */
  ghost predicate Sound(config: seq<Entry>, d: Desktop) {
    && (d.active.Some? ==> d.active.value in d.toplevels && d.toplevels[d.active.value].config.Some?)
    && (forall id :: id in d.toplevels ==> Current(config, d.toplevels[id]))
  }

  ghost predicate Current(config: seq<Entry>, tp: Toplevel) {
    && (tp.config.Some? ==> tp.config.value < |config|)
    && (tp.ack ==> tp.config == FirstFrom(config, 0, tp.title, tp.appId))
  }

  lemma StepKeepsSound(config: seq<Entry>, d: Desktop, e: Event)
    requires Sound(config, d) && Legal(d, e)
    ensures Sound(config, Next(config, d, e))
  {
  }

  ghost predicate LegalRun(config: seq<Entry>, d: Desktop, run: seq<Event>)
    decreases |run|
  {
    run != [] ==> Legal(d, run[0]) && LegalRun(config, Next(config, d, run[0]), run[1..])
  }

  ghost function Run(config: seq<Entry>, d: Desktop, run: seq<Event>): Desktop
    requires LegalRun(config, d, run)
    decreases |run|
  {
    if run == [] then d else Run(config, Next(config, d, run[0]), run[1..])
  }

  /** The rules an offer is held against besides the general ones; the assertion is that they exist. */
  function ActiveRules(config: seq<Entry>, d: Desktop): Option<Rules>
    requires Sound(config, d)
  {
    if d.active.None? then None
    else
      var id := d.active.value;
      assert id in d.toplevels;
      var tp := d.toplevels[id];
      assert Current(config, tp);
      Some(config[tp.config.value].rules)
  }

  /** In every run the active toplevel has a configuration. */
  lemma {:induction false} RunKeepsSound(config: seq<Entry>, d: Desktop, run: seq<Event>)
    requires Sound(config, d) && LegalRun(config, d, run)
    ensures Sound(config, Run(config, d, run))
    decreases |run|
  {
    if run != [] {
      StepKeepsSound(config, d, run[0]);
      RunKeepsSound(config, Next(config, d, run[0]), run[1..]);
    }
  }

  /** Nothing but what a window says about itself before its `done`, or a new window. */
  predicate Waiting(e: Event) {
    e.Appeared? || e.Titled? || e.Named? || e.StateCame?
  }

  /** Titles, application ids and states decide nothing before a `done`: the rules in force stay. */
  lemma {:induction false} RulesWaitForDone(config: seq<Entry>, d: Desktop, run: seq<Event>)
    requires Sound(config, d) && LegalRun(config, d, run) && forall e :: e in run ==> Waiting(e)
    ensures
      var d1 := Run(config, d, run);
      Sound(config, d1) && d1.active == d.active && ActiveRules(config, d1) == ActiveRules(config, d)
    decreases |run|
  {
    if run != [] {
      assert run[0] in run && forall e :: e in run[1..] ==> e in run;
      StepKeepsSound(config, d, run[0]);
      RulesWaitForDone(config, Next(config, d, run[0]), run[1..]);
    }
  }

  /**
   * Right after its `done` event a toplevel is the active one just when it is activated and an
   * entry applies to its title and application id as they are then; the first that does rules.
   */
  lemma DoneDecides(config: seq<Entry>, d: Desktop, id: int)
    requires Sound(config, d) && id in d.toplevels
    ensures
      var tp, d1 := d.toplevels[id], Next(config, d, Done(id));
      var first := FirstFrom(config, 0, tp.title, tp.appId);
      && (d1.active == Some(id) <==> tp.activated && exists i :: 0 <= i < |config| && Applies(config[i], tp.title, tp.appId))
      && (d1.active == Some(id) ==> Sound(config, d1) && first.Some? && ActiveRules(config, d1) == Some(config[first.value].rules))
      && (d1.active != Some(id) ==> d1.active == None || d1.active == d.active)
  {
    StepKeepsSound(config, d, Done(id));
  }

  // ---------------------------------------------------------------- what windows say

  const NO_WINDOWS := Desktop(map[], None)

  /** The last title of a window since it appeared. */
  function LastTitle(run: seq<Event>, id: int): Option<string> {
    if run == [] then None
    else
      var e := run[|run| - 1];
      if e == Appeared(id) then None
      else if e.Titled? && e.id == id then Some(e.title)
      else LastTitle(run[..|run| - 1], id)
  }

  function LastName(run: seq<Event>, id: int): Option<string> {
    if run == [] then None
    else
      var e := run[|run| - 1];
      if e == Appeared(id) then None
      else if e.Named? && e.id == id then Some(e.appId)
      else LastName(run[..|run| - 1], id)
  }

  function LastState(run: seq<Event>, id: int): bool {
    if run == [] then false
    else
      var e := run[|run| - 1];
      if e == Appeared(id) then false
      else if e.StateCame? && e.id == id then e.activated
      else LastState(run[..|run| - 1], id)
  }

  lemma {:induction false} RunBack(config: seq<Entry>, d: Desktop, run: seq<Event>)
    requires run != [] && LegalRun(config, d, run)
    ensures
      var front, last := run[..|run| - 1], run[|run| - 1];
      && LegalRun(config, d, front) && Legal(Run(config, d, front), last)
      && Run(config, d, run) == Next(config, Run(config, d, front), last)
    decreases |run|
  {
    if |run| > 1 {
      assert run[1..][..|run| - 2] == run[..|run| - 1][1..];
      RunBack(config, Next(config, d, run[0]), run[1..]);
    }
  }

  /** What is recorded of a window is what it said last. */
  lemma {:induction false} SaidIsRecorded(config: seq<Entry>, run: seq<Event>, id: int)
    requires LegalRun(config, NO_WINDOWS, run) && id in Run(config, NO_WINDOWS, run).toplevels
    ensures
      var tp := Run(config, NO_WINDOWS, run).toplevels[id];
      tp.title == LastTitle(run, id) && tp.appId == LastName(run, id) && tp.activated == LastState(run, id)
    decreases |run|
  {
    if run != [] {
      RunBack(config, NO_WINDOWS, run);
      if run[|run| - 1] != Appeared(id) {
        SaidIsRecorded(config, run[..|run| - 1], id);
      }
    }
  }

  /**
   * In every run, right after its `done` event a window is the active one just when it said last
   * that it is activated and some entry applies to the title and application id it gave last.
   */
  lemma ActiveAfterDone(config: seq<Entry>, run: seq<Event>, id: int)
    requires LegalRun(config, NO_WINDOWS, run) && id in Run(config, NO_WINDOWS, run).toplevels
    ensures
      var d := Next(config, Run(config, NO_WINDOWS, run), Done(id));
      d.active == Some(id) <==>
        LastState(run, id) && exists i :: 0 <= i < |config| && Applies(config[i], LastTitle(run, id), LastName(run, id))
  {
    SaidIsRecorded(config, run, id);
    RunKeepsSound(config, NO_WINDOWS, run);
    DoneDecides(config, Run(config, NO_WINDOWS, run), id);
  }

  /** A window is open from its appearance until it closes or the manager goes. */
  predicate Open(run: seq<Event>, id: int) {
    run != [] &&
      var e := run[|run| - 1];
      e == Appeared(id) || (e != Closed(id) && !e.ManagerFinished? && Open(run[..|run| - 1], id))
  }

  /** In every run the windows on record are the open ones, and a closed one is not active. */
  lemma {:induction false} OpenAreRecorded(config: seq<Entry>, run: seq<Event>, id: int)
    requires LegalRun(config, NO_WINDOWS, run)
    ensures
      var d := Run(config, NO_WINDOWS, run);
      (id in d.toplevels <==> Open(run, id)) && (!Open(run, id) ==> d.active != Some(id))
    decreases |run|
  {
    RunKeepsSound(config, NO_WINDOWS, run);
    if run != [] {
      RunBack(config, NO_WINDOWS, run);
      OpenAreRecorded(config, run[..|run| - 1], id);
    }
  }
}
