/** Which mime types of an offer are kept, and when an offer is blocked or transient. */
module Filter {
  import opened Common

  /** A compiled regular expression, as the predicate it is. */
  type Regex = string -> bool

  /** The three lists of patterns, in the configuration and for each configured toplevel. */
  datatype Rules = Rules(blocked: seq<Regex>, allowed: seq<Regex>, transient: seq<Regex>)

  datatype Seat = Seat(blocked: bool, transient: bool, kept: seq<string>)

  const FRESH := Seat(false, false, [])

  // ---------------------------------------------------------------- the checks as functions

  predicate Matches(patterns: seq<Regex>, target: string) {
    exists i :: 0 <= i < |patterns| && patterns[i](target)
  }

  predicate Blocks(r: Rules, mime: string) {
    r.blocked != [] && Matches(r.blocked, mime)
  }

  predicate Refuses(r: Rules, mime: string) {
    r.allowed != [] && !Matches(r.allowed, mime)
  }

  /** One list of rules against one mime type. */
  function Checked(s: Seat, mime: string, r: Rules): (Seat, bool) {
    if s.blocked then (s, false)
    else if Blocks(r, mime) then (s.(blocked := true), false)
    else (s.(transient := s.transient || Matches(r.transient, mime)), !Refuses(r, mime))
  }

  function Offered(s: Seat, mime: string, general: Rules, active: Option<Rules>): Seat {
    var (s1, ok) := Checked(s, mime, general);
    if !ok then s1
    else
      var (s2, ok2) := if active.Some? then Checked(s1, mime, active.value) else (s1, true);
      if !ok2 then s2 else s2.(kept := s2.kept + [mime])
  }

  function Run(s: Seat, mimes: seq<string>, general: Rules, active: Option<Rules>): Seat {
    if mimes == [] then s
    else
      var n := |mimes| - 1;
      Offered(Run(s, mimes[..n], general, active), mimes[n], general, active)
  }

  // ---------------------------------------------------------------- the seat as an object

  method MatchRegexArray(patterns: seq<Regex>, target: string) returns (yes: bool)
    ensures yes == Matches(patterns, target)
  {
    for i := 0 to |patterns|
      invariant forall j :: 0 <= j < i ==> !patterns[j](target)
    {
      if patterns[i](target) {
        return true;
      }
    }
    return false;
  }

  class SeatObject {
    var blocked: bool
    var transient: bool
    var kept: seq<string>

    ghost function Value(): Seat
      reads this
    {
      Seat(blocked, transient, kept)
    }

    constructor ()
      ensures Value() == FRESH
    {
      blocked, transient, kept := false, false, [];
    }

    /** A new offer begins. */
    method OnDataOffer()
      modifies this
      ensures Value() == FRESH
    {
      kept := [];
      blocked := false;
      transient := false;
    }

    method CheckMimeType(mime: string, r: Rules) returns (ok: bool)
      modifies this
      ensures (Value(), ok) == Checked(old(Value()), mime, r)
    {
      if blocked {
        return false;
      }
      if |r.blocked| > 0 {
        var hit := MatchRegexArray(r.blocked, mime);
        if hit {
          blocked := true;
          return false;
        }
      }
      if !transient {
        transient := MatchRegexArray(r.transient, mime);
      }
      if |r.allowed| > 0 {
        ok := MatchRegexArray(r.allowed, mime);
        return;
      }
      return true;
    }

    method OnOffer(mime: string, general: Rules, active: Option<Rules>)
      modifies this
      ensures Value() == Offered(old(Value()), mime, general, active)
    {
      var ok := CheckMimeType(mime, general);
      if !ok {
        return;
      }
      if active.Some? {
        ok := CheckMimeType(mime, active.value);
        if !ok {
          return;
        }
      }
      kept := kept + [mime];
    }
  }

  // ---------------------------------------------------------------- the rule

  /** A mime type that blocks its offer: for everybody, or once let through for the active toplevel. */
  predicate Fatal(mime: string, general: Rules, active: Option<Rules>) {
    Blocks(general, mime) || (!Refuses(general, mime) && active.Some? && Blocks(active.value, mime))
  }

  predicate Wanted(mime: string, general: Rules, active: Option<Rules>) {
    !Refuses(general, mime) && (active.Some? ==> !Refuses(active.value, mime))
  }

  predicate Marks(mime: string, general: Rules, active: Option<Rules>) {
    Matches(general.transient, mime)
    || (!Refuses(general, mime) && active.Some? && Matches(active.value.transient, mime))
  }

  function Kept(mimes: seq<string>, general: Rules, active: Option<Rules>): seq<string> {
    if mimes == [] then []
    else
      var n := |mimes| - 1;
      Kept(mimes[..n], general, active) + if Wanted(mimes[n], general, active) then [mimes[n]] else []
  }

  ghost predicate AnyFatal(mimes: seq<string>, general: Rules, active: Option<Rules>) {
    exists m :: m in mimes && Fatal(m, general, active)
  }

  ghost predicate AnyMarks(mimes: seq<string>, general: Rules, active: Option<Rules>) {
    exists m :: m in mimes && Marks(m, general, active)
  }

  /**
   * Whatever the order of the mime types: the offer is blocked just when one of them is fatal;
   * otherwise the wanted ones are kept, in order, and it is transient just when one marks it so.
   */
  lemma {:induction false} RunIsRule(mimes: seq<string>, general: Rules, active: Option<Rules>)
    ensures
      var s := Run(FRESH, mimes, general, active);
      && (s.blocked <==> AnyFatal(mimes, general, active))
      && (!s.blocked ==> s.kept == Kept(mimes, general, active) && (s.transient <==> AnyMarks(mimes, general, active)))
  {
    if mimes != [] {
      var front, last := mimes[..|mimes| - 1], mimes[|mimes| - 1];
      RunIsRule(front, general, active);
      assert last in mimes && forall m :: m in front ==> m in mimes;
      assert forall m :: m in mimes ==> m in front || m == last;
      var s := Run(FRESH, front, general, active);
      if !s.blocked {
        LastOffer(s, last, general, active);
      }
    }
  }

  lemma LastOffer(s: Seat, mime: string, general: Rules, active: Option<Rules>)
    requires !s.blocked
    ensures
      var t := Offered(s, mime, general, active);
      && (t.blocked <==> Fatal(mime, general, active))
      && (!t.blocked ==>
            && t.kept == (if Wanted(mime, general, active) then s.kept + [mime] else s.kept)
            && (t.transient <==> s.transient || Marks(mime, general, active)))
  {
  }

  /** Blocking and, for offers that are not blocked, transience do not depend on the order. */
  lemma OrderDoesNotMatter(mimes: seq<string>, shuffled: seq<string>, general: Rules, active: Option<Rules>)
    requires multiset(mimes) == multiset(shuffled)
    ensures
      var s, t := Run(FRESH, mimes, general, active), Run(FRESH, shuffled, general, active);
      && s.blocked == t.blocked
      && (!s.blocked ==> s.transient == t.transient && multiset(s.kept) == multiset(t.kept))
  {
    RunIsRule(mimes, general, active);
    RunIsRule(shuffled, general, active);
    forall m
      ensures m in mimes <==> m in shuffled
    {
      assert m in multiset(mimes) <==> m in multiset(shuffled);
    }
    KeptCounts(mimes, general, active);
    KeptCounts(shuffled, general, active);
  }

  lemma {:induction false} KeptCounts(mimes: seq<string>, general: Rules, active: Option<Rules>)
    ensures forall m :: multiset(Kept(mimes, general, active))[m] == (if Wanted(m, general, active) then multiset(mimes)[m] else 0)
  {
    if mimes != [] {
      var n := |mimes| - 1;
      KeptCounts(mimes[..n], general, active);
      assert mimes == mimes[..n] + [mimes[n]];
    }
  }
}
