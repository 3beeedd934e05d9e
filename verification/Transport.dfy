/** `GitBus`: publish to one's own lane, drain every lane past the cursor, and fold
    the lanes into a last-write-wins snapshot (git_transport.py). */
module Transport {
  import opened Messages
  import opened Order
  import opened Lanes

  /** The working tree all buses of one host share. */
  class Clone {
    var lanes: Lanes

    constructor (lanes: Lanes)
      ensures this.lanes == lanes
    {
      this.lanes := lanes;
    }
  }

  predicate Publishable(to: Option<string>, chan: Option<string>, key: Option<string>) {
    && to.Some? != chan.Some?
    && (to.Some? ==> ValidBusId(to.value))
    && (chan.Some? ==> ValidBusId(chan.value))
    && OneLine(key)
  }

  function LaneFor(author: string, chan: Option<string>): Lane {
    if chan.Some? then Chan(chan.value, author) else Dm(author)
  }

  function Appended(clone: Lanes, env: Env): Lanes {
    clone[LaneOf(env) := LinesOf(clone, LaneOf(env)) + [Record(env)]]
  }

  /** All well-formed records of a lane from line `start` on. */
  function Records(lines: seq<Line>, start: nat): seq<Env>
    decreases |lines| - start
  {
    if start >= |lines| then []
    else if lines[start].Record? then [lines[start].env] + Records(lines, start + 1)
    else Records(lines, start + 1)
  }

  function NotBy(author: string): Env -> bool { (e: Env) => e.from_ != author }

  lemma {:induction false} ForeignRecords(lane: Lane, lines: seq<Line>, start: nat, reader: string)
    ensures Filter(NotBy(reader), Records(lines, start)) == Envs(LaneItems(lane, lines, start, reader))
    decreases |lines| - start
  {
    if start < |lines| {
      ForeignRecords(lane, lines, start + 1, reader);
      if lines[start].Record? {
        assert Records(lines, start)[1..] == Records(lines, start + 1);
      }
    }
  }

  lemma UnreadSplit(clone: Lanes, start: Cursor, files: seq<Lane>, k: nat, reader: string)
    requires k < |files|
    ensures Envs(NewItems(clone, start, files[k..], reader)) ==
      Filter(NotBy(reader), Records(LinesOf(clone, files[k]), Consumed(start, files[k]))) +
      Envs(NewItems(clone, start, files[k + 1..], reader))
  {
    ForeignRecords(files[k], LinesOf(clone, files[k]), Consumed(start, files[k]), reader);
    assert files[k..][1..] == files[k + 1..];
    EnvsAppend(LaneItems(files[k], LinesOf(clone, files[k]), Consumed(start, files[k]), reader),
               NewItems(clone, start, files[k + 1..], reader));
  }

  /** What a drain has done to the cursor after `k` lane files. */
  ghost predicate CursorProgress(clone: Lanes, start: Cursor, files: seq<Lane>, k: nat, cursor: Cursor)
    requires k <= |files|
  {
    && Advanced(clone, cursor, files[k..]) == Advanced(clone, start, files)
    && (forall j :: k <= j < |files| ==> Consumed(cursor, files[j]) == Consumed(start, files[j]))
  }

  /** What it has gathered after `k` lane files. */
  ghost predicate Gathered(clone: Lanes, start: Cursor, files: seq<Lane>, reader: string, k: nat, results: seq<Env>)
    requires k <= |files|
  {
    results + Envs(NewItems(clone, start, files[k..], reader)) == Envs(NewItems(clone, start, files, reader))
  }

  lemma CursorStep(clone: Lanes, start: Cursor, files: seq<Lane>, k: nat, cursor: Cursor)
    requires k < |files| && Distinct(files) && CursorProgress(clone, start, files, k, cursor)
    ensures CursorProgress(clone, start, files, k + 1,
      cursor[files[k] := Max(Consumed(cursor, files[k]), |LinesOf(clone, files[k])|)])
  {
    assert files[k..][1..] == files[k + 1..];
  }

  lemma GatherStep(clone: Lanes, start: Cursor, files: seq<Lane>, reader: string, k: nat, results: seq<Env>)
    requires k < |files| && Gathered(clone, start, files, reader, k, results)
    ensures Gathered(clone, start, files, reader, k + 1,
      results + Filter(NotBy(reader), Records(LinesOf(clone, files[k]), Consumed(start, files[k]))))
  {
    UnreadSplit(clone, start, files, k, reader);
    Regroup(results, Filter(NotBy(reader), Records(LinesOf(clone, files[k]), Consumed(start, files[k]))),
            Envs(NewItems(clone, start, files[k + 1..], reader)));
  }

  // ----- the snapshot `collect` promises -----

  type PartitionKey = (string, Option<string>)

  function KeyOf(e: Env): PartitionKey { (e.from_, e.key) }

  predicate Matches(kind: Option<string>, e: Env) { kind.Some? ==> e.kind == kind.value }

  /** (seq, ts) order. */
  predicate NoNewer(a: Env, b: Env) {
    a.seqNo < b.seqNo || (a.seqNo == b.seqNo && a.ts <= b.ts)
  }

  /** The matching records among the first `n` lines. */
  ghost function InLines(lines: seq<Line>, kind: Option<string>, n: nat): set<Env>
    requires n <= |lines|
  {
    set i | 0 <= i < n && lines[i].Record? && Matches(kind, lines[i].env) :: lines[i].env
  }

  /** The matching records of the first `k` lane files. */
  ghost function InFiles(clone: Lanes, files: seq<Lane>, kind: Option<string>, k: nat): set<Env>
    requires k <= |files|
  {
    if k == 0 then {}
    else
      InFiles(clone, files, kind, k - 1) +
      InLines(LinesOf(clone, files[k - 1]), kind, |LinesOf(clone, files[k - 1])|)
  }

  /** The matching records of the whole clone. */
  ghost function Pool(clone: Lanes, kind: Option<string>): set<Env> {
    set lane, i | lane in clone && 0 <= i < |clone[lane]| && clone[lane][i].Record? &&
      Matches(kind, clone[lane][i].env) ::
      clone[lane][i].env
  }

  lemma {:induction false} InFilesElements(clone: Lanes, files: seq<Lane>, kind: Option<string>, k: nat)
    requires k <= |files|
    ensures forall e :: e in InFiles(clone, files, kind, k) <==>
      exists a :: 0 <= a < k && e in InLines(LinesOf(clone, files[a]), kind, |LinesOf(clone, files[a])|)
  {
    if k > 0 {
      InFilesElements(clone, files, kind, k - 1);
    }
  }

  lemma InFilesAll(clone: Lanes, files: seq<Lane>, kind: Option<string>)
    requires Listing(clone, files)
    ensures InFiles(clone, files, kind, |files|) == Pool(clone, kind)
  {
    InFilesElements(clone, files, kind, |files|);
    forall e ensures e in InFiles(clone, files, kind, |files|) <==> e in Pool(clone, kind) {
      if e in InFiles(clone, files, kind, |files|) {
        var a :| 0 <= a < |files| && e in InLines(LinesOf(clone, files[a]), kind, |LinesOf(clone, files[a])|);
        assert files[a] in files;
      }
      if e in Pool(clone, kind) {
        var lane, i :| lane in clone && 0 <= i < |clone[lane]| && clone[lane][i] == Record(e);
        assert lane in files;
        assert e in InLines(LinesOf(clone, lane), kind, |LinesOf(clone, lane)|);
      }
    }
  }

  /** `latest` holds, per partition, a record of `pool` that none of `pool` is newer than. */
  ghost predicate LatestOf(pool: set<Env>, latest: map<PartitionKey, Env>) {
    && (forall pk :: pk in latest ==> KeyOf(latest[pk]) == pk && latest[pk] in pool)
    && (forall e :: e in pool ==> KeyOf(e) in latest && NoNewer(e, latest[KeyOf(e)]))
  }

  /** A record of the clone, of the asked kind if one was asked for. */
  ghost predicate Collected(clone: Lanes, kind: Option<string>, e: Env) {
    && (kind.Some? ==> e.kind == kind.value)
    && exists lane, i :: lane in clone && 0 <= i < |clone[lane]| && clone[lane][i] == Record(e)
  }

  /** Per author and key one of the author's records with that key: none of them has a higher
      number, nor the same number and a later stamp. */
  ghost predicate Snapshot(clone: Lanes, kind: Option<string>, latest: map<PartitionKey, Env>) {
    && (forall pk :: pk in latest ==>
          Collected(clone, kind, latest[pk]) && latest[pk].from_ == pk.0 && latest[pk].key == pk.1)
    && (forall e :: Collected(clone, kind, e) ==>
          (e.from_, e.key) in latest &&
          var l := latest[(e.from_, e.key)];
          e.seqNo < l.seqNo || (e.seqNo == l.seqNo && e.ts <= l.ts))
  }

  lemma LatestIsSnapshot(clone: Lanes, kind: Option<string>, latest: map<PartitionKey, Env>)
    requires LatestOf(Pool(clone, kind), latest)
    ensures Snapshot(clone, kind, latest)
  {
    forall e ensures e in Pool(clone, kind) <==> Collected(clone, kind, e) {
      if Collected(clone, kind, e) {
        var lane, i :| lane in clone && 0 <= i < |clone[lane]| && clone[lane][i] == Record(e);
        assert clone[lane][i].env in Pool(clone, kind);
      }
    }
  }

  function Kept(latest: map<PartitionKey, Env>, env: Env): map<PartitionKey, Env> {
    if KeyOf(env) in latest && NoNewer(env, latest[KeyOf(env)]) then latest else latest[KeyOf(env) := env]
  }

  lemma LatestStep(pool: set<Env>, latest: map<PartitionKey, Env>, env: Env)
    requires LatestOf(pool, latest)
    ensures LatestOf(pool + {env}, Kept(latest, env))
  {
  }

  class GitBus {
    const repo: Clone
    const agentId: string
    var cursor: Cursor  // in memory
    var saved: Cursor   // on disk

    constructor (repo: Clone, agentId: string, saved: Cursor)
      ensures this.repo == repo && this.agentId == agentId
      ensures this.cursor == this.saved == saved
    {
      this.repo := repo;
      this.agentId := agentId;
      this.cursor := saved;
      this.saved := saved;
    }

    /** Append one record to this agent's lane, numbered by the lane itself. A malformed
        target or key raises before anything is written; a failing commit raises after. */
    method Publish(body: Msg, to: Option<string>, chan: Option<string>, kind: string, key: Option<string>,
                   ttl: int, recId: string, now: int, fault: Fault) returns (r: Result<Env>)
      modifies repo
      ensures
        var lane := LaneFor(agentId, chan);
        var seqNo := NextSeq(LinesOf(old(repo.lanes), lane));
        var env := Env(kind, agentId, Some(body), to, chan, key, recId, now, seqNo, ttl);
        && LaneOf(env) == lane
        && r == (if Publishable(to, chan, key) && fault == NoFault then Ok(env) else Raised)
        && repo.lanes ==
           (if Publishable(to, chan, key) && fault != BeforeWrite then Appended(old(repo.lanes), env)
            else old(repo.lanes))
      ensures old(Numbered(repo.lanes)) ==> Numbered(repo.lanes)
    {
      if to.Some? == chan.Some? {
        return Raised;
      }
      if to.Some? && !ValidBusId(to.value) {
        return Raised;
      }
      if chan.Some? && !ValidBusId(chan.value) {
        return Raised;
      }
      if key.Some? && ('\n' in key.value || '\r' in key.value) {
        return Raised;
      }
      if fault == BeforeWrite {
        return Raised;
      }
      var lane := LaneFor(agentId, chan);
      var lines := LinesOf(repo.lanes, lane);
      var env := Env(kind, agentId, Some(body), to, chan, key, recId, now, NextSeq(lines), ttl);
      ghost var was := repo.lanes;
      repo.lanes := repo.lanes[lane := lines + [Record(env)]];
      if Numbered(was) {
        NumberedAppend(was, lane, env);
      }
      r := if fault == AfterWrite then Raised else Ok(env);
    }

    /** The records past the cursor of one lane; the cursor moves past every line read,
        malformed ones included. */
    method ReadNewLines(lane: Lane) returns (out: seq<Env>)
      modifies this`cursor
      ensures cursor == old(cursor)[lane := Max(Consumed(old(cursor), lane), |LinesOf(repo.lanes, lane)|)]
      ensures out == Records(LinesOf(repo.lanes, lane), Consumed(old(cursor), lane))
    {
      var start := Consumed(cursor, lane);
      var lines := LinesOf(repo.lanes, lane);
      out := [];
      var consumed := start;
      var i := 0;
      while i < |lines|
        invariant 0 <= i <= |lines|
        invariant consumed == Max(start, i)
        invariant out + Records(lines, Max(start, i)) == Records(lines, start)
      {
        if i >= start {
          consumed := i + 1;
          match lines[i]
          case Blank =>
          case Malformed =>
          case Record(env) => out := out + [env];
        }
        i := i + 1;
      }
      cursor := cursor[lane := consumed];
    }

    /** The inner loop of a drain: everything but this reader's own records. */
    method SkipOwn(before: seq<Env>, unread: seq<Env>) returns (results: seq<Env>)
      ensures results == before + Filter(NotBy(agentId), unread)
    {
      results := before;
      var i := 0;
      while i < |unread|
        invariant 0 <= i <= |unread|
        invariant results + Filter(NotBy(agentId), unread[i..]) == before + Filter(NotBy(agentId), unread)
      {
        if unread[i].from_ != agentId {
          results := results + [unread[i]];
        }
        i := i + 1;
      }
    }

    /** The loop of a drain over the lane files. */
    method ReadAll(files: seq<Lane>) returns (results: seq<Env>)
      requires Distinct(files)
      modifies this`cursor
      ensures results == Envs(NewItems(repo.lanes, old(cursor), files, agentId))
      ensures cursor == Advanced(repo.lanes, old(cursor), files)
    {
      results := [];
      ghost var clone, start := repo.lanes, cursor;
      assert files[0..] == files;
      var k := 0;
      while k < |files|
        invariant 0 <= k <= |files|
        invariant repo.lanes == clone && CursorProgress(clone, start, files, k, cursor)
        invariant Gathered(clone, start, files, agentId, k, results)
      {
        ghost var before, was := results, cursor;
        var unread := ReadNewLines(files[k]);
        results := SkipOwn(results, unread);
        CursorStep(clone, start, files, k, was);
        GatherStep(clone, start, files, agentId, k, before);
        k := k + 1;
      }
      assert files[k..] == [];
      assert results == Envs(NewItems(clone, start, files, agentId));
    }

    /** The lane files of the clone, in some order. */
    method AllLaneFiles() returns (files: seq<Lane>)
      ensures Listing(repo.lanes, files)
    {
      files := [];
      var rest := repo.lanes.Keys;
      while rest != {}
        invariant rest <= repo.lanes.Keys
        invariant forall lane :: lane in files <==> lane in repo.lanes && lane !in rest
        invariant Distinct(files)
        decreases rest
      {
        var lane :| lane in rest;
        files := files + [lane];
        rest := rest - {lane};
      }
    }

    /** Take over what a fetch brought: lanes of this clone that grew. */
    method Fetch(incoming: Lanes)
      modifies repo
      ensures repo.lanes == Fetched(old(repo.lanes), incoming)
    {
      repo.lanes := Fetched(repo.lanes, incoming);
    }

    /** Everything new across all lanes, except this reader's own records; the cursor is
        saved before the caller sees any of it. */
    method Drain() returns (batch: seq<Env>, ghost files: seq<Lane>)
      modifies this
      ensures Listing(repo.lanes, files)
      ensures batch == Envs(Batch(repo.lanes, old(cursor), files, agentId))
      ensures cursor == saved == Advanced(repo.lanes, old(cursor), files)
    {
      var listing := AllLaneFiles();
      files := listing;
      var results := ReadAll(listing);
      saved := cursor;
      EnvsSort(NewItems(repo.lanes, old(cursor), listing, agentId));
      batch := StableSort(EnvLeq, results);
    }

    /** Fold one lane into the snapshot. */
    method FoldLane(lines: seq<Line>, kind: Option<string>, start: map<PartitionKey, Env>, ghost pool: set<Env>)
      returns (latest: map<PartitionKey, Env>)
      requires LatestOf(pool, start)
      ensures LatestOf(pool + InLines(lines, kind, |lines|), latest)
    {
      latest := start;
      assert pool + InLines(lines, kind, 0) == pool;
      var i := 0;
      while i < |lines|
        invariant 0 <= i <= |lines|
        invariant LatestOf(pool + InLines(lines, kind, i), latest)
      {
        if lines[i].Record? && Matches(kind, lines[i].env) {
          var env := lines[i].env;
          LatestStep(pool + InLines(lines, kind, i), latest, env);
          assert pool + InLines(lines, kind, i + 1) == pool + InLines(lines, kind, i) + {env};
          var pk := KeyOf(env);
          if pk !in latest || !NoNewer(env, latest[pk]) {
            latest := latest[pk := env];
          }
        } else {
          assert InLines(lines, kind, i + 1) == InLines(lines, kind, i);
        }
        i := i + 1;
      }
    }

    /** Latest record per (author, key) over whole lanes; the cursor does not move. */
    method Collect(kind: Option<string>) returns (latest: map<PartitionKey, Env>)
      ensures Snapshot(repo.lanes, kind, latest)
    {
      var files := AllLaneFiles();
      latest := map[];
      var k := 0;
      while k < |files|
        invariant 0 <= k <= |files|
        invariant LatestOf(InFiles(repo.lanes, files, kind, k), latest)
      {
        latest := FoldLane(LinesOf(repo.lanes, files[k]), kind, latest, InFiles(repo.lanes, files, kind, k));
        k := k + 1;
      }
      InFilesAll(repo.lanes, files, kind);
      LatestIsSnapshot(repo.lanes, kind, latest);
    }
  }

  /** Line `i` of lane `l` is a record of that kind, with that author and key. */
  ghost predicate Appends(clone: Lanes, kind: Option<string>, pk: PartitionKey, l: Lane, i: int) {
    && l in clone && 0 <= i < |clone[l]| && clone[l][i].Record?
    && (kind.Some? ==> clone[l][i].env.kind == kind.value)
    && clone[l][i].env.from_ == pk.0 && clone[l][i].env.key == pk.1
  }

  /** The snapshot does not depend on the order the lane files were listed in: two of
      them have the same keys, and per key the same (seq, ts). */
  lemma SnapshotIgnoresListing(clone: Lanes, kind: Option<string>, s: map<PartitionKey, Env>, t: map<PartitionKey, Env>)
    requires Snapshot(clone, kind, s) && Snapshot(clone, kind, t)
    ensures s.Keys == t.Keys
    ensures forall pk :: pk in s ==> s[pk].seqNo == t[pk].seqNo && s[pk].ts == t[pk].ts
  {
    forall pk | pk in s ensures pk in t && s[pk].seqNo <= t[pk].seqNo {
      assert Collected(clone, kind, s[pk]) && pk == (s[pk].from_, s[pk].key);
    }
    forall pk | pk in t ensures pk in s && t[pk].seqNo <= s[pk].seqNo {
      assert Collected(clone, kind, t[pk]) && pk == (t[pk].from_, t[pk].key);
    }
    forall pk | pk in s ensures s[pk].ts == t[pk].ts {
      assert Collected(clone, kind, s[pk]) && Collected(clone, kind, t[pk]);
    }
  }

  /** When all of an author's matching records for a key sit in one lane, the snapshot
      holds the one appended last. */
  lemma LastAppendedWins(clone: Lanes, kind: Option<string>, latest: map<PartitionKey, Env>,
                         pk: PartitionKey, lane: Lane, last: nat)
    requires Numbered(clone) && Snapshot(clone, kind, latest)
    requires Appends(clone, kind, pk, lane, last)
    requires forall l, i :: Appends(clone, kind, pk, l, i) ==> l == lane && i <= last
    ensures pk in latest && latest[pk] == clone[lane][last].env
  {
    assert Collected(clone, kind, clone[lane][last].env);
    var l, i :| l in clone && 0 <= i < |clone[l]| && clone[l][i] == Record(latest[pk]);
    assert Appends(clone, kind, pk, l, i);
    if i < last {
      NextSeqMonotone(clone[lane], i, last);
    }
  }
}
