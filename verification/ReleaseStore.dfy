/**
 * The release index on mutable tables: what worker/src/db.ts does step by step,
 * each method against the operation on values ReleaseLog.dfy defines.
 */
module ReleaseStore {
  import opened Wrappers
  import opened ReleaseLog
  import ReleaseSafety

  const CHUNK: nat := 2000

  /** The deltas of a chain of releases, newest first, applied oldest first over what the rest of it gave. */
  function Replay(db: Db, chain: seq<nat>, behind: Result<set<Package>,
                  RebuildError>): Result<set<Package>, RebuildError> {
    if chain == [] then behind
    else
      var last := chain[|chain| - 1];
      Replay(db, chain[..|chain| - 1], match behind case Ok(s) => Ok(Apply(s, DeltaOf(db, last))) case Err(e) => Err(e))
  }

  lemma {:induction false} ReplayFails(db: Db, chain: seq<nat>, e: RebuildError)
    ensures Replay(db, chain, Err(e)) == Err(e)
    decreases |chain|
  {
    if chain != [] {
      ReplayFails(db, chain[..|chain| - 1], e);
    }
  }

  /** The part of a delta already applied. */
  function Part(ops: map<Package, Op>, done: set<Package>): map<Package, Op> {
    map p | p in ops && p in done :: ops[p]
  }

  method Listed(ids: set<Package>) returns (list: seq<Package>)
    ensures forall p :: p in list <==> p in ids
  {
    list := [];
    var left := ids;
    while left != {}
      invariant left <= ids
      invariant forall p :: p in list <==> p in ids - left
    {
      var p :| p in left;
      list, left := list + [p], left - {p};
    }
  }

  /** How many of a chunk's ids the package table does not hold. */
  method Missing(chunk: seq<Package>, packages: set<Package>) returns (n: nat)
    ensures n == 0 <==> forall p | p in chunk :: p in packages
  {
    n := 0;
    for i := 0 to |chunk|
      invariant n == 0 <==> forall p | p in chunk[..i] :: p in packages
    {
      assert chunk[..i + 1] == chunk[..i] + [chunk[i]];
      if chunk[i] !in packages {
        n := n + 1;
      }
    }
    assert chunk[..|chunk|] == chunk;
  }

  class Index {
    var rows: map<nat, Row>
    var bySeq: map<(Ring, nat), nat>
    var heads: map<Ring, nat>
    var live: map<Ring, set<Package>>
    var members: map<nat, set<Package>>
    var deltas: map<nat, map<Package, Op>>
    var packages: set<Package>
    var sources: map<nat, set<Arch>>
    var shelves: map<nat, Each<Shelf>>
    var bytes: map<Ring, Each<Option<nat>>>

    function Snapshot(): Db
      reads this
    {
      Db(rows, bySeq, heads, live, members, deltas, packages, sources, shelves, bytes)
    }

    constructor ()
      ensures Snapshot() == EMPTY
    {
      rows, bySeq, heads, live := map[], map[], map[], map[];
      members, deltas, packages := map[], map[], {};
      sources, shelves, bytes := map[], map[], map[];
    }

    /** The chain from a release back to the nearest checkpoint, newest first. */
    method Chain(id: nat) returns (r: Result<seq<nat>, RebuildError>)
      requires id in rows
      ensures match r
              case Ok(chain) =>
                && chain != []
                && (forall i | 0 <= i < |chain| :: chain[i] in rows)
                && Rebuild(Snapshot(), id, 1)
                     == Replay(Snapshot(), chain[..|chain| - 1], Ok(MembersOf(Snapshot(), chain[|chain| - 1])))
              case Err(e) => Rebuild(Snapshot(), id, 1) == Err(e)
    {
      ghost var db := Snapshot();
      var chain := [id];
      var cur := id;
      while !rows[cur].checkpoint
        invariant 1 <= |chain| <= 4 * CHECKPOINT_EVERY || (|chain| == 1 && cur == id)
        invariant forall i | 0 <= i < |chain| :: chain[i] in rows
        invariant cur == chain[|chain| - 1]
        invariant Rebuild(db, id, 1) == Replay(db, chain[..|chain| - 1], Rebuild(db, cur, |chain|))
        decreases 4 * CHECKPOINT_EVERY - |chain|
      {
        if rows[cur].parent.None? {
          ReplayFails(db, chain[..|chain| - 1], NoCheckpoint);
          return Err(NoCheckpoint);
        }
        var p := rows[cur].parent.value;
        if p !in rows {
          ReplayFails(db, chain[..|chain| - 1], ParentGone);
          return Err(ParentGone);
        }
        ghost var before := chain;
        chain := chain + [p];
        if |chain| > 4 * CHECKPOINT_EVERY {
          ReplayFails(db, before[..|before| - 1], TooFar);
          return Err(TooFar);
        }
        assert chain[..|chain| - 1] == before && before[|before| - 1] == cur;
        cur := p;
      }
      return Ok(chain);
    }

    /** One release's delta rows applied to a selection. */
    method Applied(start: set<Package>, id: nat) returns (ids: set<Package>)
      ensures ids == Apply(start, DeltaOf(Snapshot(), id))
    {
      var ops := if id in deltas then deltas[id] else map[];
      ids := start;
      var left := ops.Keys;
      while left != {}
        invariant left <= ops.Keys
        invariant ids == Apply(start, Part(ops, ops.Keys - left))
      {
        var p :| p in left;
        if ops[p] == Remove {
          ids := ids - {p};
        } else {
          ids := ids + {p};
        }
        assert Part(ops, ops.Keys - (left - {p})) == Part(ops, ops.Keys - left)[p := ops[p]];
        left := left - {p};
      }
      assert Part(ops, ops.Keys) == ops;
    }

    /** What a release without a checkpoint selects: its ring's live rows, or the fold of its chain. */
    method Reconstructed(id: nat) returns (r: Result<set<Package>, RebuildError>)
      requires id in rows
      ensures r == Selection(Snapshot(), id)
    {
      var head := HeadRing(Snapshot(), id);
      if head.Some? {
        return Ok(Live(Snapshot(), head.value));
      }
      var found := Chain(id);
      if found.Err? {
        return Err(found.error);
      }
      var chain := found.value;
      var i := |chain| - 1;
      var ids := MembersOf(Snapshot(), chain[i]);
      while i > 0
        invariant 0 <= i < |chain|
        invariant Rebuild(Snapshot(), id, 1) == Replay(Snapshot(), chain[..i], Ok(ids))
      {
        assert chain[..i][..i - 1] == chain[..i - 1] && chain[..i][i - 1] == chain[i - 1];
        i := i - 1;
        ids := Applied(ids, chain[i]);
      }
      assert chain[..0] == [];
      return Ok(ids);
    }

    /** The rows a checkpoint gets, chunk by chunk; none when a package of one was collected. */
    method Chunked(ids: set<Package>) returns (r: Result<set<Package>, RebuildError>)
      ensures r == if ids <= packages then Ok(ids) else Err(Collected)
    {
      var list := Listed(ids);
      var written: set<Package> := {};
      var i := 0;
      while i < |list|
        invariant 0 <= i <= |list|
        invariant forall p :: p in written <==> p in list[..i]
        invariant forall p | p in list[..i] :: p in packages
      {
        var end := if i + CHUNK <= |list| then i + CHUNK else |list|;
        var chunk := list[i..end];
        var missing := Missing(chunk, packages);
        if missing > 0 {
          var gone :| gone in chunk && gone !in packages;
          assert gone in list;
          return Err(Collected);
        }
        written := written + set p | p in chunk;
        assert list[..end] == list[..i] + chunk;
        i := end;
      }
      assert list[..|list|] == list;
      assert written == ids;
      return Ok(written);
    }

    /**
     * Reconstructs a release that is not a checkpoint and writes its
     * membership, unless a package of it is gone.
     */
    method EnsureCheckpoint(id: nat) returns (r: Result<(), RebuildError>)
      modifies this`members, this`rows
      ensures match Checkpointed(old(Snapshot()), id)
              case Ok(after) => r == Ok(()) && Snapshot() == after
              case Err(e) => r == Err(e) && Snapshot() == old(Snapshot())
    {
      if id !in rows {
        return Err(Unknown);
      }
      if rows[id].checkpoint {
        return Ok(());
      }
      var selected := Reconstructed(id);
      if selected.Err? {
        return Err(selected.error);
      }
      var written := Chunked(selected.value);
      if written.Err? {
        return Err(written.error);
      }
      members := members[id := MembersOf(Snapshot(), id) + written.value];
      rows := rows[id := rows[id].(checkpoint := true)];
      return Ok(());
    }

    /** The packages a release selects: a head's live rows, nothing written; an older one's checkpoint rows. */
    method ReleaseMembers(id: nat) returns (r: Result<set<Package>, RebuildError>)
      modifies this`members, this`rows
      ensures match Members(old(Snapshot()), id)
              case Ok((after, ids)) => r == Ok(ids) && Snapshot() == after
              case Err(e) => r == Err(e) && Snapshot() == old(Snapshot())
    {
      var head := HeadRing(Snapshot(), id);
      if head.Some? {
        return Ok(Live(Snapshot(), head.value));
      }
      var done := EnsureCheckpoint(id);
      if done.Err? {
        return Err(done.error);
      }
      return Ok(MembersOf(Snapshot(), id));
    }

    /** How far back the databases a ring's head serves go, over its architectures. */
    method CarriedBack(ring: Ring) returns (since: Option<nat>)
      ensures since == CarriedSince(Snapshot(), ring)
    {
      since := None;
      var arches := [X86_64, Aarch64];
      for i := 0 to |arches|
        invariant since == if i == 0 then None
                           else if i == 1 then ArchSince(Snapshot(), ring, X86_64)
                           else CarriedSince(Snapshot(), ring)
      {
        since := Least(since, ArchSince(Snapshot(), ring, arches[i]));
      }
    }

    /** A ring's releases from its newest back to a seq. */
    method Newest(ring: Ring, oldest: nat) returns (ids: seq<nat>)
      requires Ordered(Snapshot()) && 1 <= oldest
      ensures forall id :: id in ids <==> id in rows && rows[id].ring == ring && oldest <= rows[id].seqNo
    {
      ids := [];
      var s := Top(Snapshot(), ring);
      while s >= oldest
        invariant s <= Top(Snapshot(), ring)
        invariant forall id ::
                    id in ids <==> id in rows && rows[id].ring == ring && oldest <= rows[id].seqNo && s < rows[id].seqNo
      {
        ids := ids + [bySeq[(ring, s)]];
        s := s - 1;
      }
    }

    /** What retention keeps: the protected releases, the checkpoints, and where each ring's reconstruction starts. */
    method Retention(keep: nat) returns (kept: seq<nat>, checkpoints: seq<nat>, base: map<Ring, nat>)
      requires Ordered(Snapshot()) && keep >= 1
      ensures forall id :: id in kept <==> IsProtected(Snapshot(), keep, id)
      ensures forall id :: id in checkpoints <==> IsKept(Snapshot(), keep, id)
      ensures forall ring :: (if ring in base then Some(base[ring]) else None) == BaseSeq(Snapshot(), ring, keep)
    {
      KeptRows(Snapshot(), keep);
      hide IsProtected, IsKept, BaseSeq;
      kept, checkpoints, base := [], [], map[];
      var rings := [Edge, Rc, Stable, Lab];
      assert rings[0] == Edge && rings[1] == Rc && rings[2] == Stable && rings[3] == Lab;
      for i := 0 to |rings|
        invariant forall id :: id in kept <==> IsProtected(Snapshot(), keep, id) && rows[id].ring in rings[..i]
        invariant forall id :: id in checkpoints <==> IsKept(Snapshot(), keep, id) && rows[id].ring in rings[..i]
        invariant forall ring ::
                    (if ring in base then Some(base[ring]) else None) ==
                      if ring in rings[..i] then BaseSeq(Snapshot(), ring, keep) else None
      {
        var ring := rings[i];
        var ids, marked, from := OfRing(ring, keep);
        kept, checkpoints := kept + ids, checkpoints + marked;
        if from.Some? {
          base := base[ring := from.value];
        }
        assert rings[..i + 1] == rings[..i] + [ring];
      }
      assert rings[..|rings|] == rings;
      forall ring: Ring ensures ring in rings {
        match ring case Edge => case Rc => case Stable => case Lab =>
      }
    }

    /** Retention's part of one ring: its last `keep` releases, back to what its head's databases list. */
    method OfRing(ring: Ring, keep: nat) returns (ids: seq<nat>, marked: seq<nat>, from: Option<nat>)
      requires Ordered(Snapshot()) && keep >= 1
      ensures forall id :: id in ids <==> IsProtected(Snapshot(), keep, id) && rows[id].ring == ring
      ensures forall id :: id in marked <==> IsKept(Snapshot(), keep, id) && rows[id].ring == ring
      ensures from == BaseSeq(Snapshot(), ring, keep)
    {
      hide Oldest, Top, CheckpointAt, IsProtected, IsKept, BaseSeq;
      RingMeans(Snapshot(), ring, keep);
      if Top(Snapshot(), ring) == 0 {
        return [], [], None;
      }
      var oldest := OldestOf(ring, keep);
      ids := Newest(ring, oldest);
      marked := Flagged(ids);
      from := CheckpointAt(Snapshot(), ring, oldest);
      if from.Some? {
        CheckpointAtIs(Snapshot(), ring, oldest);
        var id := bySeq[(ring, from.value)];
        if id !in marked {
          marked := marked + [id];
        }
      }
    }

    method OldestOf(ring: Ring, keep: nat) returns (oldest: nat)
      requires keep >= 1 && Top(Snapshot(), ring) > 0
      ensures 1 <= oldest == Oldest(Snapshot(), ring, keep) <= Top(Snapshot(), ring)
    {
      hide *;
      ReleaseSafety.OldestBounds(Snapshot(), ring, keep);
      ReleaseSafety.OldestIs(Snapshot(), ring, keep);
      var top := Top(Snapshot(), ring);
      oldest := if top > keep then top + 1 - keep else 1;
      var since := CarriedBack(ring);
      if since.Some? && since.value < oldest {
        oldest := since.value;
      }
    }

    /** The releases of a list that are checkpoints. */
    method Flagged(ids: seq<nat>) returns (marked: seq<nat>)
      requires forall id | id in ids :: id in rows
      ensures forall id :: id in marked <==> id in ids && rows[id].checkpoint
    {
      marked := [];
      for i := 0 to |ids|
        invariant forall id :: id in marked <==> id in ids[..i] && rows[id].checkpoint
      {
        assert ids[..i + 1] == ids[..i] + [ids[i]];
        if rows[ids[i]].checkpoint {
          marked := marked + [ids[i]];
        }
      }
      assert ids[..|ids|] == ids;
    }

    /**
     * Garbage collection: the rows of the checkpoints nothing starts from and
     * their flags, each ring's deltas behind its base, then at most `limit` of
     * the packages outside retention that are past the grace.
     */
    method CollectGarbage(keep: nat, limit: nat, young: set<Package>) returns (victims: set<Package>)
      requires Ordered(Snapshot()) && keep >= 1
      modifies this`members, this`rows, this`deltas, this`packages
      ensures forall p | p in victims :: Outside(old(Snapshot()), keep, p) && p !in young && p in old(packages)
      ensures |victims| <= limit
      ensures forall p | p in old(packages) && Outside(old(Snapshot()), keep, p) && p !in young ::
                p in victims || (|victims| == limit && forall v | v in victims :: v.id <= p.id)
      ensures Snapshot() == Collect(old(Snapshot()), keep, victims)
    {
      hide IsProtected, IsKept, BaseSeq, Outside, Referenced, DeltaPruned, Collect, Behind;
      var kept, checkpoints, base := Retention(keep);
      victims := Unreferenced(kept, checkpoints, limit, young);
      OutsideIs(kept, checkpoints, keep);
      Prune(keep, checkpoints, base);
      packages := packages - victims;
      CollectedIs(old(Snapshot()), Snapshot(), keep, victims);
    }

    /**
     * The rows of the checkpoints nothing inside retention starts from, their
     * flags, and the deltas behind each ring's base.
     */
    method Prune(keep: nat, checkpoints: seq<nat>, base: map<Ring, nat>)
      requires forall id :: id in checkpoints <==> IsKept(Snapshot(), keep, id)
      requires forall ring :: (if ring in base then Some(base[ring]) else None) == BaseSeq(Snapshot(), ring, keep)
      modifies this`members, this`rows, this`deltas
      ensures members == Kept(old(Snapshot()), keep) && rows == Unflagged(old(Snapshot()), keep)
              && deltas == Above(old(Snapshot()), keep)
    {
      hide IsKept, BaseSeq, DeltaPruned, Behind;
      KeptIs(keep, checkpoints, base);
      var behind := set id | id in rows && Behind(base, id);
      members := map id | id in members && id in checkpoints :: members[id];
      rows := map id | id in rows ::
        if rows[id].checkpoint && id !in checkpoints then rows[id].(checkpoint := false) else rows[id];
      deltas := map id | id in deltas && id !in behind :: deltas[id];
    }

    /** Whether a release stands at or behind its ring's base. */
    predicate Behind(base: map<Ring, nat>, id: nat)
      reads this
    {
      id in rows && rows[id].ring in base && rows[id].seqNo <= base[rows[id].ring]
    }

    lemma KeptIs(keep: nat, checkpoints: seq<nat>, base: map<Ring, nat>)
      requires forall id :: id in checkpoints <==> IsKept(Snapshot(), keep, id)
      requires forall ring :: (if ring in base then Some(base[ring]) else None) == BaseSeq(Snapshot(), ring, keep)
      ensures forall id :: id in rows && Behind(base, id) <==> DeltaPruned(Snapshot(), keep, id)
      ensures forall id | id in rows ::
                (if IsKept(Snapshot(), keep, id) then rows[id] else rows[id].(checkpoint := false))
                                     == (if rows[id].checkpoint && id !in checkpoints
                                         then rows[id].(checkpoint := false) else rows[id])
    {
      hide BaseSeq, IsProtected;
    }

    lemma OutsideIs(kept: seq<nat>, checkpoints: seq<nat>, keep: nat)
      requires forall id :: id in kept <==> IsProtected(Snapshot(), keep, id)
      requires forall id :: id in checkpoints <==> IsKept(Snapshot(), keep, id)
      ensures forall p :: Referenced(kept, checkpoints, p) <==> !Outside(Snapshot(), keep, p)
    {
      hide IsProtected, IsKept;
    }

    /** Whether a ring serves a package, a kept checkpoint lists it, or a protected release's delta names it. */
    predicate Referenced(kept: seq<nat>, checkpoints: seq<nat>, p: Package)
      reads this
    {
      || (exists ring | ring in live :: p in live[ring])
      || (exists id | id in members :: id in checkpoints && p in members[id])
      || (exists id | id in deltas :: id in kept && p in deltas[id])
    }

    /**
     * The packages to delete: those nothing of retention names and past the grace,
     * lowest ids first, up to the limit.
     */
    method Unreferenced(kept: seq<nat>, checkpoints: seq<nat>, limit: nat, young: set<Package>)
      returns (victims: set<Package>)
      ensures forall p | p in victims :: p in packages && !Referenced(kept, checkpoints, p) && p !in young
      ensures |victims| <= limit
      ensures forall p | p in packages && !Referenced(kept, checkpoints, p) && p !in young ::
                p in victims || (|victims| == limit && forall v | v in victims :: v.id <= p.id)
    {
      hide Referenced;
      victims := {};
      var left := packages;
      while left != {} && |victims| < limit
        invariant victims <= packages && left <= packages && victims !! left
        invariant forall p | p in victims :: !Referenced(kept, checkpoints, p) && p !in young
        invariant |victims| <= limit
        invariant forall p | p in packages - left && !Referenced(kept, checkpoints, p) && p !in young :: p in victims
        invariant forall v, p | v in victims && p in left :: v.id <= p.id
        decreases left
      {
        var p := Lowest(left);
        left := left - {p};
        if p !in young && !Referenced(kept, checkpoints, p) {
          victims := victims + {p};
        }
      }
    }
  }

  /** A package of the lowest id. */
  method Lowest(ids: set<Package>) returns (p: Package)
    requires ids != {}
    ensures p in ids && forall q | q in ids :: p.id <= q.id
  {
    p :| p in ids;
    var left := ids - {p};
    while left != {}
      invariant left <= ids && p in ids
      invariant forall q | q in ids - left :: p.id <= q.id
    {
      var q :| q in left;
      left := left - {q};
      if q.id < p.id {
        p := q;
      }
    }
  }

  /** Retention of one ring, by its oldest release and its base. */
  lemma RingMeans(db: Db, ring: Ring, keep: nat)
    ensures forall id | id in db.rows && db.rows[id].ring == ring ::
              IsProtected(db, keep, id) <==> Oldest(db, ring, keep) <= db.rows[id].seqNo
    ensures forall id | id in db.rows && db.rows[id].ring == ring ::
              IsKept(db, keep, id) <==>
                && db.rows[id].checkpoint
                && (Oldest(db, ring, keep) <= db.rows[id].seqNo || BaseSeq(db, ring, keep) == Some(db.rows[id].seqNo))
    ensures forall id | IsProtected(db, keep, id) || IsKept(db, keep, id) :: id in db.rows
    ensures BaseSeq(db, ring, keep) ==
              if Top(db, ring) == 0 then None else CheckpointAt(db, ring, Oldest(db, ring, keep))
  {
    hide Oldest, CheckpointAt;
  }

  /** The tables a collection leaves, table by table. */
  lemma CollectedIs(db: Db, after: Db, keep: nat, victims: set<Package>)
    requires after == db.(members := Kept(db, keep), rows := Unflagged(db, keep), deltas := Above(db, keep),
                          packages := db.packages - victims)
    ensures after == Collect(db, keep, victims)
  {
    hide IsKept, DeltaPruned;
  }

  function Kept(db: Db, keep: nat): map<nat, set<Package>> {
    map id | id in db.members && IsKept(db, keep, id) :: db.members[id]
  }

  function Unflagged(db: Db, keep: nat): map<nat, Row> {
    map id | id in db.rows :: if IsKept(db, keep, id) then db.rows[id] else db.rows[id].(checkpoint := false)
  }

  function Above(db: Db, keep: nat): map<nat, map<Package, Op>> {
    map id | id in db.deltas && !DeltaPruned(db, keep, id) :: db.deltas[id]
  }

  lemma KeptRows(db: Db, keep: nat)
    ensures forall id | IsProtected(db, keep, id) || IsKept(db, keep, id) :: id in db.rows
  {
  }

  lemma {:induction false} CheckpointAtIs(db: Db, ring: Ring, s: nat)
    ensures match CheckpointAt(db, ring, s)
            case Some(b) => 1 <= b <= s && (ring, b) in db.bySeq && db.bySeq[(ring, b)] in db.rows
                            && db.rows[db.bySeq[(ring, b)]].checkpoint
            case None => true
  {
    if s > 0 { CheckpointAtIs(db, ring, s - 1); }
  }
}
