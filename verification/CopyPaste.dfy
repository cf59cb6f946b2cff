/** From copying to pasting: what a receiver gets is what was received for the current entry. */
module CopyPaste {
  import opened Common
  import opened Tables
  import opened History
  import opened Contents
  import opened Transfer
  import Store

  /** What there is to paste: the stored blob of the current entry, or transient data. */
  function Available(t: Tables, current: int, transient: seq<Item>, mime: Mime): Option<Bytes> {
    if current == 0 then Plain(transient, mime)
    else if current > 0 then Lookup(t, current, mime)
    else None
  }

  /** The first transient item of a mime type counts, even if it holds nothing. */
  method FindTransient(items: seq<Item>, mime: Mime) returns (data: Option<Bytes>)
    ensures data == Plain(items, mime)
  {
    for i := 0 to |items|
      invariant FirstOf(items[..i], mime).None?
    {
      assert items[..i + 1][..i] == items[..i];
      if items[i].mime == mime {
        FirstStays(items, i + 1, mime);
        return items[i].data;
      }
    }
    assert items[..|items|] == items;
    return None;
  }

  lemma {:induction false} FirstStays(items: seq<Item>, n: nat, mime: Mime)
    requires n <= |items| && FirstOf(items[..n], mime).Some?
    ensures FirstOf(items, mime) == FirstOf(items[..n], mime)
    decreases |items|
  {
    if n == |items| {
      assert items[..n] == items;
    } else {
      var front := items[..|items| - 1];
      assert front[..n] == items[..n];
      FirstStays(front, n, mime);
    }
  }

  /** The pipe stays open and takes something every time, often enough for some content. */
  ghost predicate Ample(wakeups: seq<Wakeup>, content: Option<Bytes>) {
    (forall w :: w in wakeups ==> Good(w)) && (content.Some? ==> |wakeups| > |content.value|)
  }

  /** What a request for some content leads to: never a byte of anything else, and all of it if the pipe allows. */
  ghost predicate Answered(content: Option<Bytes>, wakeups: seq<Wakeup>, r: Outcome, received: Bytes) {
    && (content.None? ==> r == Aborted && received == [])
    && (content.Some? ==> received <= content.value && (r == Complete ==> received == content.value))
    && (Ample(wakeups, content) ==> (r == Complete <==> content.Some?))
  }

  /** A request to paste one mime type: refused when there is nothing, a paste of it otherwise. */
  method Send(db: Store.Database, current: int, transient: seq<Item>, mime: Mime, wakeups: seq<Wakeup>)
    returns (r: Outcome, received: Bytes)
    requires Allocated(transient)
    ensures Answered(Available(db.Rows(), current, transient, mime), wakeups, r, received)
  {
    if current < 0 {
      return Aborted, [];
    }
    var content;
    if current > 0 {
      content := db.GetData(current, mime);
    } else {
      content := FindTransient(transient, mime);
    }
    if content.None? {
      return Aborted, [];
    }
    if current == 0 {
      PlainIsNotEmpty(transient, mime);
    }
    r, received := Paste(content.value, current > 0, wakeups);
  }

  lemma PlainIsNotEmpty(items: seq<Item>, mime: Mime)
    requires Allocated(items)
    ensures Plain(items, mime) != Some([])
  {
    FirstIsReceived(items, mime);
  }

  /**
   * After any run, and under any schedule of writes: a paste of the current entry gives byte for
   * byte what was first received for that entry under that mime type, whatever was copied, moved,
   * pinned, trimmed or deleted in between. A pipe that keeps taking something gets all of it just
   * when the entry was received with data for that mime type.
   */
  method PasteAfterRun(db: Store.Database, mime: Mime, wakeups: seq<Wakeup>, current: int,
                       ghost h: Hash, ghost run: seq<Tick>, ghost payloads: iset<Bytes>)
    returns (r: Outcome, received: Bytes)
    requires db.Rows() == Final(h, START, run).db && current == Final(h, START, run).current
    requires current in Final(h, START, run).db.entries
    requires RunWithin(run, payloads) && CollisionFree(h, payloads)
    ensures
      var offers := Recalled(h, START, run, map[]);
      current in offers && Answered(Plain(offers[current], mime), wakeups, r, received)
  {
    LookupsRefinePlainMap(h, run, payloads, current, mime);
    LiveIdsArePositive(h, run, payloads, current);
    r, received := Send(db, current, [], mime, wakeups);
  }

  lemma LiveIdsArePositive(h: Hash, run: seq<Tick>, payloads: iset<Bytes>, id: int)
    requires id in Final(h, START, run).db.entries && RunWithin(run, payloads)
    ensures id > 0
  {
    StartSound(h, payloads);
    RunSound(h, START, run, map[], payloads);
  }

  // ---------------------------------------------------------------- transient data

  /** The last selection event that was not ignored. */
  function LastCopied(run: seq<Tick>): Option<Offer> {
    if run == [] then None
    else
      var a := run[|run| - 1].action;
      if a.Selection? && !Ignorable(a.offer) then Some(a.offer) else LastCopied(run[..|run| - 1])
  }

  lemma {:induction false} FinalStep(h: Hash, s: State, run: seq<Tick>)
    requires run != []
    ensures Final(h, s, run) == Next(h, Final(h, s, run[..|run| - 1]), run[|run| - 1])
    decreases |run|
  {
    if |run| > 1 {
      assert run[1..][..|run| - 2] == run[..|run| - 1][1..];
      FinalStep(h, Next(h, s, run[0]), run[1..]);
    }
  }

  /** What the transient entry holds, given the last thing copied. */
  function Held(last: Offer): seq<Item> {
    if last.transient then last.items else []
  }

  lemma HoldStep(h: Hash, s: State, tick: Tick)
    requires IdsOk(s.db) && Next(h, s, tick).current == 0
    ensures
      var a, t := tick.action, Next(h, s, tick);
      if a.Selection? && !Ignorable(a.offer) then !a.offer.failed && t.transient == Held(a.offer)
      else s.current == 0 && t.transient == s.transient
  {
  }

  /**
   * While the transient entry is current, it holds what was copied last if that was transient.
   * Otherwise that was a repeat of the front entry, which left current what it had emptied.
   */
  lemma {:induction false} HoldsLastCopied(h: Hash, run: seq<Tick>)
    requires Final(h, START, run).current == 0
    ensures
      var last := LastCopied(run);
      last.Some? && !last.value.failed && Final(h, START, run).transient == Held(last.value)
    decreases |run|
  {
    if run != [] {
      var front, tick := run[..|run| - 1], run[|run| - 1];
      FinalStep(h, START, run);
      IdsAfterRun(h, front);
      HoldStep(h, Final(h, START, front), tick);
      if !tick.action.Selection? || Ignorable(tick.action.offer) {
        HoldsLastCopied(h, front);
      }
    }
  }

  lemma IdsAfterRun(h: Hash, run: seq<Tick>)
    ensures IdsOk(Final(h, START, run).db)
  {
    var all := iset b: Bytes | |b| >= 0;
    StartSound(h, all);
    RunSound(h, START, run, map[], all);
  }

  /** After any run, copying transient data makes it current at once, and stores nothing. */
  lemma TransientIsCurrent(h: Hash, run: seq<Tick>, tick: Tick)
    requires tick.action.Selection? && tick.action.offer.transient && !tick.action.offer.failed && tick.action.offer.items != []
    ensures
      var s := Final(h, START, run + [tick]);
      && s.current == 0 && LastCopied(run + [tick]) == Some(tick.action.offer)
      && s.db == Final(h, START, run).db && Final(h, START, run).cleared == s.cleared
  {
    FinalStep(h, START, run + [tick]);
    assert (run + [tick])[..|run|] == run;
  }

  /**
   * After any run that leaves the transient entry current, a paste gives what was copied last if
   * that was transient, and is refused if it was not.
   */
  method PasteTransient(db: Store.Database, transient: seq<Item>, mime: Mime, wakeups: seq<Wakeup>,
                        ghost h: Hash, ghost run: seq<Tick>)
    returns (r: Outcome, received: Bytes)
    requires Final(h, START, run).current == 0 && transient == Final(h, START, run).transient
    requires forall i :: 0 <= i < |run| && run[i].action.Selection? ==> Allocated(run[i].action.offer.items)
    ensures
      var last := LastCopied(run);
      last.Some? && Answered(Plain(Held(last.value), mime), wakeups, r, received)
  {
    HoldsLastCopied(h, run);
    LastIsAllocated(run);
    r, received := Send(db, 0, transient, mime, wakeups);
  }

  lemma {:induction false} LastIsAllocated(run: seq<Tick>)
    requires forall i :: 0 <= i < |run| && run[i].action.Selection? ==> Allocated(run[i].action.offer.items)
    ensures LastCopied(run).Some? ==> Allocated(LastCopied(run).value.items)
    decreases |run|
  {
    if run != [] {
      LastIsAllocated(run[..|run| - 1]);
    }
  }
}
