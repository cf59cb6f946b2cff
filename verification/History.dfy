/**
 * The history daemon as a state machine over the tables: what each selection
 * event and each request does, and which events it announces to subscribers.
 */
module History {
  import opened Common
  import opened Tables

  /** The `dedup` option: "none", "prev" and "all". */
  datatype Dedup = KeepAll | Previous | Everywhere

  datatype Config = Config(maxEntries: nat, dedup: Dedup)

  /** One received mime type; `data` is None when the receive buffer was never allocated. */
  datatype Item = Item(mime: Mime, data: Option<Bytes>)

  /** The items received before the first failure, if there was one. */
  datatype Offer = Offer(items: seq<Item>, failed: bool, transient: bool)

  datatype Event =
    | EntryAdd(id: int)
    | EntryMove(id: int, oldPos: int, newPos: int)
    | EntryDelete(id: int)
    | EntryUpdate(id: int, updated: int, pin: Option<bool>)
    | EntryState(id: int, current: bool)

  datatype PinMode = Yes | No | Toggle | Unknown

  datatype Action =
    | Selection(offer: Offer)
    | SetClipboard(id: int)
    | DeleteEntry(id: int)
    | PinEntry(id: int, mode: PinMode)

  /** One step: the configuration and clock it sees, and the order in which trim reports. */
  datatype Tick = Tick(config: Config, now: int, action: Action, trimmed: seq<int>)

  /** `current` is -1 when nothing is set and 0 for the transient entry. */
  datatype State = State(db: Tables, current: int, cleared: bool, transient: seq<Item>)

  type Hash = Bytes -> Digest

  // ---------------------------------------------------------------- contents

  function Payload(item: Item): Bytes {
    if item.data.Some? then item.data.value else []
  }

  /** What the entry hash is computed over: each mime name followed by its data id. */
  function Fingerprint(h: Hash, items: seq<Item>): Bytes {
    if items == [] then []
    else
      var n := |items| - 1;
      Fingerprint(h, items[..n]) + items[n].mime + h(Payload(items[n]))
  }

  function EntryHash(h: Hash, items: seq<Item>): Digest {
    h(Fingerprint(h, items))
  }

  function KindOf(mime: Mime): ContentKind {
    if Ascii("image/") <= mime then Image
    else if Ascii("text/") <= mime then Text
    else Binary
  }

  function Rank(k: ContentKind): nat {
    match k case Unknown => 0 case Binary => 1 case Text => 2 case Image => 3
  }

  predicate PlainText(mime: Mime) {
    mime == Ascii("text/plain") || mime == Ascii("text/plain;charset=utf-8")
  }

  function Consider(best: Content, mime: Mime): Content {
    var kind := KindOf(mime);
    var first := if Rank(kind) > Rank(best.kind) then Content(kind, mime) else best;
    if first.kind == Text && PlainText(mime) then first.(mime := mime) else first
  }

  /** The content type recorded for an entry. */
  function Chosen(items: seq<Item>): Content {
    if items == [] then Content(ContentKind.Unknown, [])
    else
      var n := |items| - 1;
      Consider(Chosen(items[..n]), items[n].mime)
  }

  // ---------------------------------------------------------------- selection

  function Ingested(h: Hash, t: Tables, id: int, items: seq<Item>): Tables {
    if items == [] then t
    else
      var n := |items| - 1;
      WithMime(Ingested(h, t, id, items[..n]), id, items[n].mime, h(Payload(items[n])), items[n].data)
  }

  datatype Verdict = Fresh | Repeat | Move(id: int, oldPos: nat)

  /** What deduplication decides, in terms of the history before the event. */
  ghost function Judge(dedup: Dedup, es: map<int, Entry>, x: Digest): Verdict {
    match Holder(es, x)
    case None => Fresh
    case Some(id) =>
      if dedup == KeepAll then Fresh
      else if Above(es, id) == {} then Repeat
      else if dedup == Previous then Fresh
      else Move(id, |Above(es, id)|)
  }

  /** A new entry at the front; whichever row had the same hash gives it up. */
  ghost function Added(h: Hash, t: Tables, items: seq<Item>, now: int): Tables {
    var id := t.lastId + 1;
    var x := EntryHash(h, items);
    var freed := NullHash(t.entries, x);
    var row := Entry(MaxSort(t.entries) + 1, now, now, false, Some(x), Some(Chosen(items)));
    Ingested(h, t, id, items).(entries := freed[id := row], lastId := id)
  }

  ghost function MovedUp(t: Tables, id: int, now: int): Tables {
    t.(entries := Touched(Raised(t.entries, id), id, now, None))
  }

  predicate Ignorable(offer: Offer) {
    offer.items == [] && !offer.failed
  }

  /** The state a selection event leads to before the final trim. */
  ghost function Received(c: Config, h: Hash, s: State, offer: Offer, now: int): State {
    var s1 := s.(transient := []);
    if offer.failed then s1.(current := -1)
    else
      match Judge(c.dedup, s.db.entries, EntryHash(h, offer.items))
      case Repeat => s1
      case Move(id, _) => s1.(db := MovedUp(s.db, id, now), current := id)
      case Fresh => s1.(db := Added(h, s.db, offer.items, now), current := s.db.lastId + 1)
  }

  ghost function Trimmed(c: Config, s: State): State {
    s.(db := Without(s.db, Victims(s.db.entries, c.maxEntries)))
  }

  ghost function Selected(c: Config, h: Hash, s: State, offer: Offer, now: int): State {
    if Ignorable(offer) then s
    else if offer.transient then
      if offer.failed then s.(current := -1, transient := [])
      else s.(current := 0, transient := offer.items)
    else Trimmed(c, Received(c, h, s, offer, now))
  }

  // ---------------------------------------------------------------- events

  function StateEvents(before: int, after: int): seq<Event> {
    (if before > 0 then [EntryState(before, false)] else [])
    + (if after > 0 then [EntryState(after, true)] else [])
  }

  function Deletions(ids: seq<int>): seq<Event> {
    seq(|ids|, i requires 0 <= i < |ids| => EntryDelete(ids[i]))
  }

  ghost function SelectionEvents(c: Config, h: Hash, s: State, offer: Offer, now: int): seq<Event> {
    if Ignorable(offer) || offer.transient || offer.failed then []
    else
      match Judge(c.dedup, s.db.entries, EntryHash(h, offer.items))
      case Repeat => []
      case Move(id, pos) => [EntryUpdate(id, now, None), EntryMove(id, pos, 0)] + StateEvents(s.current, id)
      case Fresh => [EntryAdd(s.db.lastId + 1)] + StateEvents(s.current, s.db.lastId + 1)
  }

  // ---------------------------------------------------------------- requests

  datatype Reply = Success | NoSuchEntry | InvalidArguments

  predicate Known(s: State, id: int) {
    id in s.db.entries
  }

  function Answer(s: State, a: Action): Reply
    requires !a.Selection?
  {
    match a
    case SetClipboard(id) => if id == -1 || Known(s, id) then Success else NoSuchEntry
    case DeleteEntry(id) => if id == -1 || Known(s, id) then Success else NoSuchEntry
    case PinEntry(id, mode) =>
      if !Known(s, id) then NoSuchEntry else if mode == PinMode.Unknown then InvalidArguments else Success
  }

  function PinValue(s: State, id: int, mode: PinMode): bool
    requires Known(s, id)
  {
    match mode case Yes => true case No => false case _ => !s.db.entries[id].pinned
  }

  ghost function Served(s: State, a: Action, now: int): State
    requires !a.Selection?
  {
    if Answer(s, a) != Success then s
    else
      match a
      case SetClipboard(id) =>
        s.(db := s.db.(entries := Touched(s.db.entries, id, now, None)),
           current := id, cleared := s.cleared || id == -1)
      case DeleteEntry(id) =>
        var s1 := s.(db := Without(s.db, if id == -1 then s.db.entries.Keys else {id}));
        if id == -1 || id == s.current then s1.(current := -1, cleared := true) else s1
      case PinEntry(id, mode) =>
        s.(db := s.db.(entries := Touched(s.db.entries, id, now, Some(PinValue(s, id, mode)))))
  }

  function RequestEvents(s: State, a: Action, now: int): seq<Event>
    requires !a.Selection?
  {
    if Answer(s, a) != Success then []
    else
      match a
      case SetClipboard(id) => StateEvents(s.current, id) + [EntryUpdate(id, now, None)]
      case DeleteEntry(id) => [EntryDelete(id)]
      case PinEntry(id, mode) => [EntryUpdate(id, now, Some(PinValue(s, id, mode)))]
  }

  // ---------------------------------------------------------------- steps and runs

  ghost function Doomed(h: Hash, s: State, tick: Tick): set<int> {
    if tick.action.Selection? && !Ignorable(tick.action.offer) && !tick.action.offer.transient then
      Victims(Received(tick.config, h, s, tick.action.offer, tick.now).db.entries, tick.config.maxEntries)
    else {}
  }

  /** The trim report names every deleted row once, in some order. */
  ghost predicate Legal(h: Hash, s: State, tick: Tick) {
    && tick.config.maxEntries > 0
    && Distinct(tick.trimmed)
    && Elements(tick.trimmed) == Doomed(h, s, tick)
  }

  ghost function Next(h: Hash, s: State, tick: Tick): State {
    match tick.action
    case Selection(offer) => Selected(tick.config, h, s, offer, tick.now)
    case _ => Served(s, tick.action, tick.now)
  }

  ghost function Emits(h: Hash, s: State, tick: Tick): seq<Event> {
    (match tick.action
     case Selection(offer) => SelectionEvents(tick.config, h, s, offer, tick.now)
     case _ => RequestEvents(s, tick.action, tick.now))
    + Deletions(tick.trimmed)
  }

  ghost predicate LegalRun(h: Hash, s: State, run: seq<Tick>)
    decreases |run|
  {
    run != [] ==> Legal(h, s, run[0]) && LegalRun(h, Next(h, s, run[0]), run[1..])
  }

  ghost function Final(h: Hash, s: State, run: seq<Tick>): State
    decreases |run|
  {
    if run == [] then s else Final(h, Next(h, s, run[0]), run[1..])
  }

  ghost function Log(h: Hash, s: State, run: seq<Tick>): seq<Event>
    decreases |run|
  {
    if run == [] then [] else Emits(h, s, run[0]) + Log(h, Next(h, s, run[0]), run[1..])
  }

  const START := State(EMPTY, -1, false, [])
}
