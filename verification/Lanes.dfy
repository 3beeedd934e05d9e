/** Per-author append-only lanes over git (git_transport.py).
    A lane file is a sequence of lines; parsing a line is the JSON library's work, so a
    line is blank, malformed or a well-formed record. `git fetch` and `git push` are
    steps of the environment: they only ever extend a lane of a clone. */
module Lanes {
  import opened Messages
  import opened Order

  datatype Result<+T> = Ok(value: T) | Raised

  /** Where a publish fails, if it does: before its record is written, or after, when git
      refuses to add or commit what is already in the lane. */
  datatype Fault = NoFault | BeforeWrite | AfterWrite

  /** `lanes/<author>.jsonl` or `channels/<chan>/<author>.jsonl`. */
  datatype Lane = Dm(author: string) | Chan(chan: string, author: string)

  datatype Env = Env(
    kind: string, from_: string, body: Option<Msg>, to: Option<string>, chan: Option<string>,
    key: Option<string>, id: string, ts: int, seqNo: nat, ttl: int)

  datatype Line = Blank | Malformed | Record(env: Env)

  type Lanes = map<Lane, seq<Line>>

  type Cursor = map<Lane, nat>

  // ----- ids and sequence numbers -----

  predicate ValidBusId(s: string) {
    && 1 <= |s| <= 128
    && s[0] != '-'
    && forall i :: 0 <= i < |s| ==>
      'a' <= s[i] <= 'z' || 'A' <= s[i] <= 'Z' || '0' <= s[i] <= '9' || s[i] == '_' || s[i] == '-'
  }

  predicate OneLine(key: Option<string>) {
    key.Some? ==> '\n' !in key.value && '\r' !in key.value
  }

  function LaneOf(env: Env): Lane {
    if env.chan.Some? then Chan(env.chan.value, env.from_) else Dm(env.from_)
  }

  function LinesOf(clone: Lanes, lane: Lane): seq<Line> {
    if lane in clone then clone[lane] else []
  }

  function Consumed(cursor: Cursor, lane: Lane): nat {
    if lane in cursor then cursor[lane] else 0
  }

  /** `_next_seq`: the number of non-blank lines. */
  function NextSeq(lines: seq<Line>): (n: nat)
    ensures n <= |lines|
  {
    if lines == [] then 0
    else NextSeq(lines[..|lines| - 1]) + if lines[|lines| - 1].Blank? then 0 else 1
  }

  /** Every record sits in the lane of its own author and channel, numbered by the
      non-blank lines in front of it. */
  ghost predicate Numbered(clone: Lanes) {
    forall lane, i :: lane in clone && 0 <= i < |clone[lane]| && clone[lane][i].Record? ==>
      LaneOf(clone[lane][i].env) == lane && clone[lane][i].env.seqNo == NextSeq(clone[lane][..i])
  }

  lemma {:induction false} NextSeqMonotone(lines: seq<Line>, i: nat, j: nat)
    requires i < j <= |lines|
    ensures NextSeq(lines[..i]) <= NextSeq(lines[..j])
    ensures !lines[i].Blank? ==> NextSeq(lines[..i]) < NextSeq(lines[..j])
    decreases j
  {
    assert lines[..j][..j - 1] == lines[..j - 1];
    if i < j - 1 {
      NextSeqMonotone(lines, i, j - 1);
    }
  }

  /** Appending lines keeps the lane's earlier numbers. */
  lemma NumberedAppend(clone: Lanes, lane: Lane, env: Env)
    requires Numbered(clone)
    requires LaneOf(env) == lane && env.seqNo == NextSeq(LinesOf(clone, lane))
    ensures Numbered(clone[lane := LinesOf(clone, lane) + [Record(env)]])
  {
    var before := LinesOf(clone, lane);
    var after := before + [Record(env)];
    forall i | 0 <= i < |after| && after[i].Record?
      ensures LaneOf(after[i].env) == lane && after[i].env.seqNo == NextSeq(after[..i])
    {
      assert after[..i] == before[..i];
      assert i == |before| ==> before[..i] == before;
    }
  }

  /** A fetch only ever extends lanes: `incoming` holds the lines each one gained. */
  function Fetched(clone: Lanes, incoming: Lanes): Lanes {
    map lane | lane in clone.Keys + incoming.Keys :: LinesOf(clone, lane) + LinesOf(incoming, lane)
  }

  // ----- what a drain returns -----

  /** A record together with the place it was read from. */
  datatype Item = Item(lane: Lane, index: nat, env: Env)

  /** The cross-lane order (ts, from, seq). */
  predicate EnvLeq(a: Env, b: Env) {
    a.ts < b.ts || (a.ts == b.ts &&
      ((a.from_ != b.from_ && StrLeq(a.from_, b.from_)) || (a.from_ == b.from_ && a.seqNo <= b.seqNo)))
  }

  predicate ItemLeq(a: Item, b: Item) { EnvLeq(a.env, b.env) }

  lemma ItemLeqPreorder()
    ensures TotalPreorder(ItemLeq)
  {
    forall x, y ensures ItemLeq(x, y) || ItemLeq(y, x) { StrLeqTotal(x.env.from_, y.env.from_); }
    forall x, y, z | ItemLeq(x, y) && ItemLeq(y, z) ensures ItemLeq(x, z) {
      if x.env.ts == y.env.ts == z.env.ts && x.env.from_ != y.env.from_ && y.env.from_ != z.env.from_ {
        StrLeqTransitive(x.env.from_, y.env.from_, z.env.from_);
        StrLeqTotal(x.env.from_, y.env.from_);
      }
    }
  }

  /** The records of one lane from line `start` on, except those the reader wrote. */
  function LaneItems(lane: Lane, lines: seq<Line>, start: nat, reader: string): seq<Item>
    decreases |lines| - start
  {
    if start >= |lines| then []
    else if lines[start].Record? && lines[start].env.from_ != reader then
      [Item(lane, start, lines[start].env)] + LaneItems(lane, lines, start + 1, reader)
    else LaneItems(lane, lines, start + 1, reader)
  }

  function NewItems(clone: Lanes, cursor: Cursor, files: seq<Lane>, reader: string): seq<Item> {
    if files == [] then []
    else
      LaneItems(files[0], LinesOf(clone, files[0]), Consumed(cursor, files[0]), reader) +
      NewItems(clone, cursor, files[1..], reader)
  }

  function Batch(clone: Lanes, cursor: Cursor, files: seq<Lane>, reader: string): seq<Item> {
    StableSort(ItemLeq, NewItems(clone, cursor, files, reader))
  }

  function Max(a: nat, b: nat): nat { if a < b then b else a }

  function Advanced(clone: Lanes, cursor: Cursor, files: seq<Lane>): Cursor
    decreases |files|
  {
    if files == [] then cursor
    else Advanced(clone, cursor[files[0] := Max(Consumed(cursor, files[0]), |LinesOf(clone, files[0])|)], files[1..])
  }

  function Envs(items: seq<Item>): (r: seq<Env>)
    ensures |r| == |items| && forall i :: 0 <= i < |r| ==> r[i] == items[i].env
  {
    if items == [] then [] else [items[0].env] + Envs(items[1..])
  }

  lemma {:induction false} EnvsAppend(a: seq<Item>, b: seq<Item>)
    ensures Envs(a + b) == Envs(a) + Envs(b)
  {
  }

  lemma {:induction false} EnvsInsert(x: Item, s: seq<Item>)
    ensures Envs(Insert(ItemLeq, x, s)) == Insert(EnvLeq, x.env, Envs(s))
  {
    if s == [] || ItemLeq(x, s[0]) {
    } else {
      EnvsInsert(x, s[1..]);
      assert Envs(s)[1..] == Envs(s[1..]);
    }
  }

  /** Sorting records and sorting records with their places agree. */
  lemma {:induction false} EnvsSort(s: seq<Item>)
    ensures Envs(StableSort(ItemLeq, s)) == StableSort(EnvLeq, Envs(s))
  {
    if s == [] {
    } else {
      EnvsSort(s[1..]);
      EnvsInsert(s[0], StableSort(ItemLeq, s[1..]));
      assert Envs(s)[1..] == Envs(s[1..]);
    }
  }

  /** A directory listing of the clone's lane files, in whatever order. */
  ghost predicate Listing(clone: Lanes, files: seq<Lane>) {
    && (forall i, j :: 0 <= i < j < |files| ==> files[i] != files[j])
    && (forall lane :: lane in files <==> lane in clone)
  }

  lemma {:induction false} LaneItemsElements(lane: Lane, lines: seq<Line>, start: nat, reader: string)
    ensures forall it :: it in LaneItems(lane, lines, start, reader) <==>
      it.lane == lane && start <= it.index < |lines| && lines[it.index] == Record(it.env) && it.env.from_ != reader
    ensures forall i, j :: 0 <= i < j < |LaneItems(lane, lines, start, reader)| ==>
      LaneItems(lane, lines, start, reader)[i].index < LaneItems(lane, lines, start, reader)[j].index
    decreases |lines| - start
  {
    if start < |lines| {
      LaneItemsElements(lane, lines, start + 1, reader);
    }
  }

  function InLane(lane: Lane): Item -> bool {
    (it: Item) => it.lane == lane
  }

  lemma {:induction false} NewItemsElements(clone: Lanes, cursor: Cursor, files: seq<Lane>, reader: string)
    requires Distinct(files)
    ensures forall it :: it in NewItems(clone, cursor, files, reader) <==>
      it.lane in files && Consumed(cursor, it.lane) <= it.index < |LinesOf(clone, it.lane)| &&
      LinesOf(clone, it.lane)[it.index] == Record(it.env) && it.env.from_ != reader
    ensures Distinct(NewItems(clone, cursor, files, reader))
  {
    if files != [] {
      NewItemsElements(clone, cursor, files[1..], reader);
      LaneItemsElements(files[0], LinesOf(clone, files[0]), Consumed(cursor, files[0]), reader);
      assert files == [files[0]] + files[1..];
      var a := LaneItems(files[0], LinesOf(clone, files[0]), Consumed(cursor, files[0]), reader);
      var b := NewItems(clone, cursor, files[1..], reader);
      DistinctConcat(a, b);
    }
  }

  lemma {:induction false} AdvancedAt(clone: Lanes, cursor: Cursor, files: seq<Lane>, lane: Lane)
    requires Distinct(files)
    ensures Consumed(Advanced(clone, cursor, files), lane) ==
      if lane in files then Max(Consumed(cursor, lane), |LinesOf(clone, lane)|) else Consumed(cursor, lane)
    decreases |files|
  {
    if files != [] {
      AdvancedAt(clone, cursor[files[0] := Max(Consumed(cursor, files[0]), |LinesOf(clone, files[0])|)], files[1..],
        lane);
      assert files == [files[0]] + files[1..];
    }
  }

  /** What one drain hands over: every unread record once, in the (ts, from, seq) order. */
  lemma BatchElements(clone: Lanes, cursor: Cursor, files: seq<Lane>, reader: string)
    requires Distinct(files)
    ensures forall it :: it in Batch(clone, cursor, files, reader) <==>
      it.lane in files && Consumed(cursor, it.lane) <= it.index < |LinesOf(clone, it.lane)| &&
      LinesOf(clone, it.lane)[it.index] == Record(it.env) && it.env.from_ != reader
    ensures Distinct(Batch(clone, cursor, files, reader))
    ensures SortedBy(ItemLeq, Batch(clone, cursor, files, reader))
  {
    var s := NewItems(clone, cursor, files, reader);
    NewItemsElements(clone, cursor, files, reader);
    SortMultiset(ItemLeq, s);
    ItemLeqPreorder();
    SortSorted(ItemLeq, s);
    DistinctPermuted(s, StableSort(ItemLeq, s));
  }

  /** By stamp, then by author, then by number. */
  ghost predicate InReadingOrder(items: seq<Item>) {
    forall i, j :: 0 <= i < j < |items| ==>
      var a, b := items[i].env, items[j].env;
      && a.ts <= b.ts
      && (a.ts == b.ts ==> StrLeq(a.from_, b.from_))
      && (a.ts == b.ts && a.from_ == b.from_ ==> a.seqNo <= b.seqNo)
  }

  lemma BatchInReadingOrder(clone: Lanes, cursor: Cursor, files: seq<Lane>, reader: string)
    requires Distinct(files)
    ensures InReadingOrder(Batch(clone, cursor, files, reader))
  {
    var items := Batch(clone, cursor, files, reader);
    BatchElements(clone, cursor, files, reader);
    forall i, j | 0 <= i < j < |items| ensures ItemLeq(items[i], items[j]) {
    }
    forall i | 0 <= i < |items| ensures StrLeq(items[i].env.from_, items[i].env.from_) {
      StrLeqTotal(items[i].env.from_, items[i].env.from_);
    }
  }

  // ----- order within one lane -----

  ghost predicate NondecreasingTs(items: seq<Item>) {
    forall i, j :: 0 <= i < j < |items| ==> items[i].env.ts <= items[j].env.ts
  }

  lemma {:induction false} LaneItemsOfLane(l: Lane, lines: seq<Line>, start: nat, reader: string, lane: Lane)
    ensures Filter(InLane(lane), LaneItems(l, lines, start, reader)) ==
      if l == lane then LaneItems(l, lines, start, reader) else []
    decreases |lines| - start
  {
    if start < |lines| {
      LaneItemsOfLane(l, lines, start + 1, reader, lane);
    }
  }

  lemma {:induction false} NewItemsOfLane(clone: Lanes, cursor: Cursor, files: seq<Lane>, reader: string, lane: Lane)
    requires Distinct(files)
    ensures Filter(InLane(lane), NewItems(clone, cursor, files, reader)) ==
      if lane in files then LaneItems(lane, LinesOf(clone, lane), Consumed(cursor, lane), reader) else []
  {
    if files != [] {
      var l := files[0];
      assert files == [l] + files[1..];
      NewItemsOfLane(clone, cursor, files[1..], reader, lane);
      LaneItemsOfLane(l, LinesOf(clone, l), Consumed(cursor, l), reader, lane);
      FilterAppend(InLane(lane), LaneItems(l, LinesOf(clone, l), Consumed(cursor, l), reader),
                   NewItems(clone, cursor, files[1..], reader));
    }
  }

  /** Inside one numbered lane the (ts, from, seq) order is lane order while ts does not fall. */
  lemma LaneSorted(clone: Lanes, lane: Lane, start: nat, reader: string)
    requires Numbered(clone) && lane in clone
    ensures
      var unread := LaneItems(lane, clone[lane], start, reader);
      NondecreasingTs(unread) <==> SortedBy(ItemLeq, unread)
  {
    var unread := LaneItems(lane, clone[lane], start, reader);
    LaneItemsElements(lane, clone[lane], start, reader);
    forall i, j | 0 <= i < j < |unread| && unread[i].env.ts <= unread[j].env.ts ensures ItemLeq(unread[i], unread[j]) {
      assert unread[i] in unread && unread[j] in unread;
      NextSeqMonotone(clone[lane], unread[i].index, unread[j].index);
    }
  }

  /** A batch keeps a lane's own order exactly when that lane's publish times never go
      backwards among the records being read. */
  lemma BatchKeepsLaneOrder(clone: Lanes, cursor: Cursor, files: seq<Lane>, reader: string, lane: Lane)
    requires Listing(clone, files) && Numbered(clone) && lane in clone
    ensures
      var unread := LaneItems(lane, LinesOf(clone, lane), Consumed(cursor, lane), reader);
      NondecreasingTs(unread) <==>
      Filter(InLane(lane), Batch(clone, cursor, files, reader)) == unread
  {
    var unread := LaneItems(lane, LinesOf(clone, lane), Consumed(cursor, lane), reader);
    ItemLeqPreorder();
    NewItemsOfLane(clone, cursor, files, reader, lane);
    SortFilterCommute(ItemLeq, InLane(lane), NewItems(clone, cursor, files, reader));
    LaneSorted(clone, lane, Consumed(cursor, lane), reader);
    SortSorted(ItemLeq, unread);
    if NondecreasingTs(unread) {
      SortOfSorted(ItemLeq, unread);
    }
  }

  // ----- any run of appends, drains and reloads -----

  /** A reader's view: its clone, its cursor in memory and on disk. */
  datatype Reader = Reader(clone: Lanes, cursor: Cursor, saved: Cursor)

  datatype Event = Append(lane: Lane, line: Line) | Drain(files: seq<Lane>) | Reload

  ghost predicate Possible(r: Reader, e: Event) {
    e.Drain? ==> Listing(r.clone, e.files)
  }

  function NextReader(r: Reader, e: Event, me: string): Reader {
    match e
    case Append(lane, line) => r.(clone := r.clone[lane := LinesOf(r.clone, lane) + [line]])
    case Drain(files) =>
      var c := Advanced(r.clone, r.cursor, files);
      r.(cursor := c, saved := c)
    case Reload => r.(cursor := r.saved)
  }

  function Handed(r: Reader, e: Event, me: string): seq<Item> {
    if e.Drain? then Batch(r.clone, r.cursor, e.files, me) else []
  }

  ghost predicate LegalRun(r: Reader, run: seq<Event>, me: string)
    decreases |run|
  {
    run == [] || (Possible(r, run[0]) && LegalRun(NextReader(r, run[0], me), run[1..], me))
  }

  function Final(r: Reader, run: seq<Event>, me: string): Reader
    decreases |run|
  {
    if run == [] then r else Final(NextReader(r, run[0], me), run[1..], me)
  }

  /** All batches of a run, one after the other. */
  function AllHanded(r: Reader, run: seq<Event>, me: string): seq<Item>
    decreases |run|
  {
    if run == [] then [] else Handed(r, run[0], me) + AllHanded(NextReader(r, run[0], me), run[1..], me)
  }

  /** `it` is a well-formed record of another author in front of the cursor. */
  predicate BelowCursor(r: Reader, me: string, it: Item) {
    && it.index < Consumed(r.cursor, it.lane)
    && it.index < |LinesOf(r.clone, it.lane)|
    && LinesOf(r.clone, it.lane)[it.index] == Record(it.env)
    && it.env.from_ != me
  }

  ghost predicate ReaderValid(r: Reader) {
    && r.cursor == r.saved
    && forall lane :: Consumed(r.cursor, lane) <= |LinesOf(r.clone, lane)|
  }

  lemma ReaderKeeps(r: Reader, e: Event, me: string)
    requires ReaderValid(r) && Possible(r, e)
    ensures ReaderValid(NextReader(r, e, me))
    ensures Distinct(Handed(r, e, me))
    ensures forall it :: BelowCursor(NextReader(r, e, me), me, it) <==> BelowCursor(r, me, it) || it in Handed(r, e, me)
    ensures forall it :: it in Handed(r, e, me) ==> !BelowCursor(r, me, it)
  {
    if e.Drain? {
      BatchElements(r.clone, r.cursor, e.files, me);
      forall lane ensures Consumed(NextReader(r, e, me).cursor, lane) ==
        if lane in e.files then |LinesOf(r.clone, lane)| else Consumed(r.cursor, lane)
      {
        AdvancedAt(r.clone, r.cursor, e.files, lane);
      }
    }
  }

  /** Draining refines reading the whole log: however appends, drains and restarts are
      interleaved, the batches together hold each well-formed foreign record in front
      of the final cursor exactly once, and nothing else. */
  lemma {:induction false} DrainsReadTheWholeLog(r: Reader, run: seq<Event>, me: string)
    requires ReaderValid(r) && LegalRun(r, run, me)
    ensures ReaderValid(Final(r, run, me))
    ensures Distinct(AllHanded(r, run, me))
    ensures forall it :: BelowCursor(Final(r, run, me), me, it) <==>
      BelowCursor(r, me, it) || it in AllHanded(r, run, me)
    ensures forall it :: it in AllHanded(r, run, me) ==> !BelowCursor(r, me, it)
    decreases |run|
  {
    if run != [] {
      ReaderKeeps(r, run[0], me);
      DrainsReadTheWholeLog(NextReader(r, run[0], me), run[1..], me);
      DistinctConcat(Handed(r, run[0], me), AllHanded(NextReader(r, run[0], me), run[1..], me));
    }
  }

  /** After a drain nothing is left unread: every lane is consumed to its end. */
  lemma DrainReachesTheEnd(r: Reader, files: seq<Lane>, me: string, lane: Lane)
    requires ReaderValid(r) && Listing(r.clone, files)
    ensures Consumed(NextReader(r, Drain(files), me).cursor, lane) == |LinesOf(r.clone, lane)|
  {
    AdvancedAt(r.clone, r.cursor, files, lane);
  }
}
