/**
 * Whole runs of the release index: any order of uploads, releases (syncs,
 * promotions, rollbacks), reads of old releases, renders and collections.
 */
module ReleaseRuns {
  import opened Wrappers
  import opened ReleaseLog
  import opened ReleaseSafety

  datatype Step =
    | Upload(package: Package)
    | Publishing(id: nat, request: Request)
    | Reading(id: nat)
    | Putting(id: nat, arch: Arch)
    | Finishing(id: nat, arch: Arch)
    | Collecting(keep: nat, victims: set<Package>)

  function Next(db: Db, step: Step): Db {
    match step
    case Upload(p) => db.(packages := db.packages + {p})
    case Publishing(id, q) => (match Release(db, id, q) case Ok(after) => after case Err(_) => db)
    case Reading(id) => (match Checkpointed(db, id) case Ok(after) => after case Err(_) => db)
    case Putting(id, arch) => if id in db.rows then Put(db, id, arch) else db
    case Finishing(id, arch) => Finished(db, id, arch)
    case Collecting(keep, victims) => Collect(db, keep, victims)
  }

  function NextHistory(db: Db, h: History, step: Step): History {
    match step
    case Publishing(id, q) => if Release(db, id, q).Ok? then Published(db, h, q.ring, Asked(db, q)) else h
    case Collecting(keep, _) => Gone(db, h, keep)
    case _ => h
  }

  /**
   * What the tables allow: a release id is new, and what a request drops and
   * adds is what its lookups find; a collection keeps at least `keep` releases
   * of a ring and takes only what is outside retention.
   */
  ghost predicate Allowed(db: Db, step: Step, keep: nat) {
    match step
    case Publishing(id, q) => id !in db.rows && Scoped(q)
    case Collecting(k, victims) => keep <= k && forall p | p in victims :: Outside(db, k, p)
    case _ => true
  }

  /** The index and its history after a run; nothing when a step is not allowed. */
  ghost function Run(steps: seq<Step>, keep: nat): Option<(Db, History)> {
    if steps == [] then Some((EMPTY, History(map[], map[], map[])))
    else match Run(steps[..|steps| - 1], keep)
      case None => None
      case Some((db, h)) =>
        var step := steps[|steps| - 1];
        if Allowed(db, step, keep) then Some((Next(db, step), NextHistory(db, h, step))) else None
  }

  /** A ring's head has rows of an architecture, or a release made from it finds none to carry either. */
  predicate NoGap(db: Db, ring: Ring, arch: Arch) {
    ring in db.heads && ShelfOf(db, db.heads[ring], arch) == NoRows ==> Nearest(db, db.heads[ring], arch, 0).None?
  }

  /** No release of a run carries rows its own parent had lost. */
  ghost predicate Gapless(steps: seq<Step>, keep: nat) {
    steps == [] ||
    (Gapless(steps[..|steps| - 1], keep) &&
     match Run(steps[..|steps| - 1], keep)
     case None => true
     case Some((db, _)) => KeepsReach(db, steps[|steps| - 1]))
  }

  predicate KeepsReach(db: Db, step: Step) {
    step.Publishing? && Release(db, step.id, step.request).Ok? ==> forall arch :: NoGap(db, step.request.ring, arch)
  }

  /** No collection so far protected less than retention protects now. */
  ghost predicate Guarded(db: Db, h: History, keep: nat) {
    forall ring {:trigger Floor(h, ring)} | ring in db.heads :: Floor(h, ring) <= Oldest(db, ring, keep)
  }

  // ---------- retention never reaches further back ----------

  function AsSeq(s: Option<nat>, otherwise: nat): nat {
    if s.Some? then s.value else otherwise
  }

  /** How far back a head's carried databases are looked for. */
  function LookBack(top: nat): nat {
    if top > CARRY_REACH then top - CARRY_REACH else 0
  }

  /** How far a head's databases of one architecture reach, `top` when they are its own. */
  function Reach(db: Db, ring: Ring, arch: Arch): nat {
    AsSeq(ArchSince(db, ring, arch), Top(db, ring))
  }

  lemma OldestByReach(db: Db, ring: Ring, keep: nat)
    requires keep >= 1 && Top(db, ring) > 0
    ensures var top := Top(db, ring);
            var kept := if top > keep then top + 1 - keep else 1;
            var x, y := Reach(db, ring, X86_64), Reach(db, ring, Aarch64);
            Oldest(db, ring, keep) == if kept <= x && kept <= y then kept else if x <= y then x else y
  {
    hide Top;
    ReachBounds(db, ring, X86_64);
    ReachBounds(db, ring, Aarch64);
  }

  lemma ReachBounds(db: Db, ring: Ring, arch: Arch)
    requires Top(db, ring) > 0
    ensures 1 <= Reach(db, ring, arch) <= Top(db, ring)
  {
    var top := Top(db, ring);
    RenderedFromBounds(db, ring, arch, top - 1, LookBack(top));
  }

  lemma OldestGrows(db: Db, after: Db, ring: Ring, keep: nat)
    requires keep >= 1 && 0 < Top(db, ring) <= Top(after, ring)
    requires forall arch :: Reach(db, ring, arch) <= Reach(after, ring, arch)
    ensures Oldest(db, ring, keep) <= Oldest(after, ring, keep)
  {
    hide Oldest, Reach, Top;
    OldestByReach(db, ring, keep);
    OldestByReach(after, ring, keep);
  }

  lemma OldestAntitone(db: Db, ring: Ring, keep: nat, more: nat)
    requires 1 <= keep <= more && Top(db, ring) > 0
    ensures Oldest(db, ring, more) <= Oldest(db, ring, keep)
  {
    hide Oldest, Reach, Top;
    OldestByReach(db, ring, keep);
    OldestByReach(db, ring, more);
  }

  /** Whether the nth release of a ring has all its databases of an architecture. */
  predicate RenderedAt(db: Db, ring: Ring, arch: Arch, s: nat) {
    (ring, s) in db.bySeq && ShelfOf(db, db.bySeq[(ring, s)], arch) == Rendered
  }

  /** Looking back over at least as many rendered releases, no further, finds a newer one. */
  lemma {:induction false} RenderedLater(db: Db, after: Db, ring: Ring, arch: Arch, s: nat, least: nat, least': nat)
    requires least <= least'
    requires forall t: nat {:trigger RenderedAt(db, ring, arch, t)} | 1 <= t <= s && RenderedAt(db, ring, arch, t) ::
               RenderedAt(after, ring, arch, t)
    ensures var r, r' := RenderedFrom(db, ring, arch, s, least), RenderedFrom(after, ring, arch, s, least');
            r.Some? && r.value >= least' ==> r'.Some? && r.value <= r'.value
    decreases s
  {
    RenderedFromBounds(db, ring, arch, s, least);
    RenderedFromBounds(after, ring, arch, s, least');
    if s > 0 && s >= least' {
      assert RenderedAt(db, ring, arch, s) ==> RenderedAt(after, ring, arch, s);
      if !RenderedAt(db, ring, arch, s) && !RenderedAt(after, ring, arch, s) {
        RenderedLater(db, after, ring, arch, s - 1, least, least');
      } else if !RenderedAt(db, ring, arch, s) {
        RenderedFromBounds(db, ring, arch, s - 1, least);
      }
    }
  }

  lemma ReachByRender(db: Db, after: Db, ring: Ring, arch: Arch)
    requires ring in db.heads && Top(db, ring) > 0
    requires after.heads == db.heads && after.rows == db.rows && after.bySeq == db.bySeq
    requires forall t: nat {:trigger RenderedAt(db, ring, arch, t)} | 1 <= t <= Top(db, ring)
             && RenderedAt(db, ring, arch, t) :: RenderedAt(after, ring, arch, t)
    requires ShelfOf(after, db.heads[ring], arch).Awaiting? ==> ShelfOf(db, db.heads[ring], arch).Awaiting?
    ensures Reach(db, ring, arch) <= Reach(after, ring, arch)
  {
    var top := Top(db, ring);
    var least := LookBack(top);
    assert Top(after, ring) == top;
    ReachBounds(db, ring, arch);
    RenderedLater(db, after, ring, arch, top - 1, least, least);
    RenderedFromBounds(db, ring, arch, top - 1, least);
    RenderedFromBounds(after, ring, arch, top - 1, least);
  }

  /** A release keeps every earlier release's rows and takes the head. */
  ghost predicate NextHead(db: Db, after: Db, ring: Ring, arch: Arch, id: nat) {
    && ring in db.heads && Top(db, ring) > 0
    && (ring, Top(db, ring)) in db.bySeq && db.bySeq[(ring, Top(db, ring))] == db.heads[ring]
    && ring in after.heads && after.heads[ring] == id && Top(after, ring) == Top(db, ring) + 1
    && forall t: nat {:trigger RenderedAt(db, ring, arch, t)} | 1 <= t <= Top(db, ring) ::
         RenderedAt(db, ring, arch, t) <==> RenderedAt(after, ring, arch, t)
  }

  /**
   * A new head reaches no further back exactly when its parent has rows of the
   * architecture or it carries none: rows carried past a parent without any
   * reach behind what the parent's retention protected.
   */
  lemma ReachByRelease(db: Db, after: Db, ring: Ring, arch: Arch, id: nat, kept: bool)
    requires NextHead(db, after, ring, arch, id)
    requires Top(db, ring) == 1 ==> db.heads[ring] in db.rows && db.rows[db.heads[ring]].parent.None?
    requires ShelfOf(after, id, arch) == Carried(db, ring, id, arch, kept)
    ensures Reach(db, ring, arch) <= Reach(after, ring, arch) <==> NoGap(db, ring, arch)
  {
    hide Top, Nearest;
    NearestHead(db, db.heads[ring], arch);
    ReachBounds(db, ring, arch);
    if ShelfOf(after, id, arch).Awaiting? {
      if ShelfOf(db, db.heads[ring], arch) == NoRows {
        ReachGap(db, after, ring, arch, id);
      } else {
        ReachCarried(db, after, ring, arch, id);
      }
    }
  }

  lemma NearestHead(db: Db, id: nat, arch: Arch)
    ensures ShelfOf(db, id, arch) != NoRows ==> Nearest(db, id, arch, 0) == Some((ShelfOf(db, id, arch), 0))
    ensures ShelfOf(db, id, arch) == NoRows && Nearest(db, id, arch, 0).Some? ==>
              id in db.rows && db.rows[id].parent.Some?
    ensures Nearest(db, id, arch, 0).Some? && Nearest(db, id, arch, 0).value.1 == 0 ==> ShelfOf(db, id, arch) != NoRows
  {
    if id in db.rows && db.rows[id].parent.Some? {
      NearestDepth(db, db.rows[id].parent.value, arch, 1);
    }
  }

  lemma {:induction false} NearestDepth(db: Db, id: nat, arch: Arch, depth: nat)
    ensures Nearest(db, id, arch, depth).Some? ==>
              depth <= Nearest(db, id, arch, depth).value.1 && Nearest(db, id, arch, depth).value.0 != NoRows
    decreases CARRY_DEPTH - depth
  {
    if depth < CARRY_DEPTH && id in db.rows && db.rows[id].parent.Some? {
      NearestDepth(db, db.rows[id].parent.value, arch, depth + 1);
    }
  }

  lemma ReachGap(db: Db, after: Db, ring: Ring, arch: Arch, id: nat)
    requires NextHead(db, after, ring, arch, id) && Top(db, ring) > 1
    requires ShelfOf(after, id, arch).Awaiting? && ShelfOf(db, db.heads[ring], arch) == NoRows
    ensures Reach(after, ring, arch) < Reach(db, ring, arch)
  {
    hide Top;
    var top := Top(db, ring);
    var least' := LookBack(top + 1);
    assert RenderedAt(db, ring, arch, top) <==> RenderedAt(after, ring, arch, top);
    RenderedFromBounds(after, ring, arch, top - 1, least');
  }

  lemma ReachCarried(db: Db, after: Db, ring: Ring, arch: Arch, id: nat)
    requires NextHead(db, after, ring, arch, id)
    requires ShelfOf(after, id, arch).Awaiting? && ShelfOf(db, db.heads[ring], arch) != NoRows
    ensures Reach(db, ring, arch) <= Reach(after, ring, arch)
  {
    hide Top, Reach, RenderedFrom, ShelfOf;
    var top := Top(db, ring);
    ReachIs(db, ring, arch);
    ReachIs(after, ring, arch);
    ReachBounds(db, ring, arch);
    RenderedStep(after, ring, arch, top, LookBack(top + 1));
    assert RenderedAt(db, ring, arch, top) <==> RenderedAt(after, ring, arch, top);
    if RenderedAt(db, ring, arch, top) {
      assert Reach(after, ring, arch) == top;
    } else {
      RenderedLater(db, after, ring, arch, top - 1, LookBack(top), LookBack(top + 1));
      RenderedFromBounds(after, ring, arch, top - 1, LookBack(top + 1));
    }
  }

  lemma ReachIs(db: Db, ring: Ring, arch: Arch)
    requires ring in db.heads && Top(db, ring) > 0
    ensures var top := Top(db, ring);
            Reach(db, ring, arch) ==
            if ShelfOf(db, db.heads[ring], arch).Awaiting?
            then AsSeq(RenderedFrom(db, ring, arch, top - 1, LookBack(top)), if LookBack(top) > 0 then LookBack(top)
                       else 1)
            else top
  {
    hide Top, RenderedFrom, ShelfOf;
  }

  lemma RenderedStep(db: Db, ring: Ring, arch: Arch, s: nat, least: nat)
    requires s >= least && s > 0
    ensures RenderedFrom(db, ring, arch, s, least) ==
              if RenderedAt(db, ring, arch, s) then Some(s) else RenderedFrom(db, ring, arch, s - 1, least)
  {
  }

  // ---------- every step ----------

  lemma UploadKeeps(db: Db, h: History, p: Package)
    requires Inv(db, h)
    ensures Inv(db.(packages := db.packages + {p}), h)
  {
    hide Top, Diff;
    var after := db.(packages := db.packages + {p});
    forall r ensures RingOk(after, h, r) && Top(after, r) == Top(db, r) {
      assert RingOk(db, h, r);
      SameTop(db, after, r);
    }
    forall r, t: nat | 1 <= t <= Top(after, r) ensures Good(after, h, r, t) {
      assert RingOk(after, h, r) && Good(db, h, r, t);
      SameNear(db, after, h, r, t);
    }
    forall i | i in after.rows ensures Placed(after, i) {
      assert Placed(db, i) && RingOk(after, h, db.rows[i].ring);
    }
  }

  /** The databases are no part of the index: whatever is put for them leaves it whole. */
  lemma RenderKeeps(db: Db, h: History, shelves: map<nat, Each<Shelf>>, bytes: map<Ring, Each<Option<nat>>>)
    requires Inv(db, h)
    ensures Inv(db.(shelves := shelves, bytes := bytes), h)
  {
    hide Top, Diff;
    var after := db.(shelves := shelves, bytes := bytes);
    forall r ensures RingOk(after, h, r) && Top(after, r) == Top(db, r) {
      assert RingOk(db, h, r);
      SameTop(db, after, r);
    }
    forall r, t: nat | 1 <= t <= Top(after, r) ensures Good(after, h, r, t) {
      assert RingOk(after, h, r) && Good(db, h, r, t);
      SameNear(db, after, h, r, t);
    }
    forall i | i in after.rows ensures Placed(after, i) {
      assert Placed(db, i) && RingOk(after, h, db.rows[i].ring);
    }
  }

  lemma SameTop(db: Db, after: Db, ring: Ring)
    requires after.rows == db.rows && after.heads == db.heads
    ensures Top(after, ring) == Top(db, ring)
  {
  }

  lemma SameNear(db: Db, after: Db, h: History, ring: Ring, t: nat)
    requires after.rows == db.rows && after.bySeq == db.bySeq
    ensures NearCheckpoint(db, h, ring, t) ==> NearCheckpoint(after, h, ring, t)
  {
    if NearCheckpoint(db, h, ring, t) {
      var c: nat :| Bottom(h, ring) <= c <= t < c + CHECKPOINT_EVERY && IsCheckpoint(db, ring, c);
      assert IsCheckpoint(after, ring, c);
    }
  }

  lemma StepKeeps(db: Db, h: History, step: Step, keep: nat)
    requires Inv(db, h) && keep >= 1 && Allowed(db, step, keep)
    ensures Inv(Next(db, step), NextHistory(db, h, step))
  {
    hide Inv, Release, Checkpointed, Collect, Gone, Published, Asked, Outside;
    match step
    case Upload(p) => UploadKeeps(db, h, p);
    case Publishing(id, q) => ReleaseKeeps(db, h, id, q);
    case Reading(id) => ReadKeeps(db, h, id);
    case Putting(id, arch) => RenderKeeps(db, h, Next(db, step).shelves, Next(db, step).bytes);
    case Finishing(id, arch) => RenderKeeps(db, h, Next(db, step).shelves, db.bytes);
    case Collecting(k, victims) => CollectKeeps(db, h, k, victims);
  }

  lemma ReadKeeps(db: Db, h: History, id: nat)
    requires Inv(db, h)
    ensures Inv(Next(db, Reading(id)), h)
  {
    hide Inv, Selection;
    if id in db.rows {
      CheckpointedExact(db, h, id);
    }
  }

  // ---------- the guard ----------

  lemma StepGuards(db: Db, h: History, step: Step, keep: nat)
    requires Inv(db, h) && keep >= 1 && Allowed(db, step, keep) && Guarded(db, h, keep) && KeepsReach(db, step)
    ensures Guarded(Next(db, step), NextHistory(db, h, step), keep)
  {
    hide Inv, Oldest, Release, Checkpointed, Collect, Gone, Outside, Floor, Published, Asked;
    var after, h' := Next(db, step), NextHistory(db, h, step);
    forall ring | ring in after.heads ensures Floor(h', ring) <= Oldest(after, ring, keep) {
      match step
      case Upload(p) => OldestSame(db, after, h, ring, keep);
      case Publishing(id, q) => ReleaseGuards(db, h, id, q, keep, ring);
      case Reading(id) => ReadGuards(db, h, id, keep, ring);
      case Putting(id, arch) => RenderGuards(db, h, step, arch, keep, ring);
      case Finishing(id, arch) => RenderGuards(db, h, step, arch, keep, ring);
      case Collecting(k, victims) => CollectGuards(db, h, k, victims, keep, ring);
    }
  }

  lemma HeadTop(db: Db, h: History, ring: Ring)
    requires Inv(db, h)
    ensures ring in db.heads <==> Top(db, ring) > 0
    ensures ring in db.heads ==>
              (ring, Top(db, ring)) in db.bySeq && db.bySeq[(ring, Top(db, ring))] == db.heads[ring]
              && db.heads[ring] in db.rows
  {
    hide Good;
    assert RingOk(db, h, ring);
    HeadPlaced(db, h, ring);
  }

  /** Retention reads the heads, the order of the releases and the artifacts; where those stand, it stands. */
  lemma OldestSame(db: Db, after: Db, h: History, ring: Ring, keep: nat)
    requires Inv(db, h) && keep >= 1 && ring in db.heads
    requires after.heads == db.heads && after.bySeq == db.bySeq && after.shelves == db.shelves
             && Top(after, ring) == Top(db, ring)
    ensures Oldest(after, ring, keep) == Oldest(db, ring, keep)
  {
    hide Oldest, Inv, Top, Reach;
    HeadTop(db, h, ring);
    forall arch ensures Reach(after, ring, arch) == Reach(db, ring, arch) {
      ReachSame(db, after, ring, arch);
    }
    OldestByReach(db, ring, keep);
    OldestByReach(after, ring, keep);
  }

  lemma ReachSame(db: Db, after: Db, ring: Ring, arch: Arch)
    requires ring in db.heads && after.heads == db.heads && Top(db, ring) > 0
    requires after.bySeq == db.bySeq && after.shelves == db.shelves && Top(after, ring) == Top(db, ring)
    ensures Reach(after, ring, arch) == Reach(db, ring, arch)
  {
    hide Top;
    var top := Top(db, ring);
    RenderedSame(db, after, ring, arch, top - 1, LookBack(top));
  }

  lemma {:induction false} RenderedSame(db: Db, after: Db, ring: Ring, arch: Arch, s: nat, least: nat)
    requires after.bySeq == db.bySeq && after.shelves == db.shelves
    ensures RenderedFrom(after, ring, arch, s, least) == RenderedFrom(db, ring, arch, s, least)
    decreases s
  {
    if s > 0 { RenderedSame(db, after, ring, arch, s - 1, least); }
  }

  lemma ReadGuards(db: Db, h: History, id: nat, keep: nat, ring: Ring)
    requires Inv(db, h) && keep >= 1 && Guarded(db, h, keep) && ring in Next(db, Reading(id)).heads
    ensures Floor(h, ring) <= Oldest(Next(db, Reading(id)), ring, keep)
  {
    hide Inv, Oldest, Selection, Floor;
    if id in db.rows {
      CheckpointedExact(db, h, id);
      HeadTop(db, h, ring);
      OldestSame(db, Next(db, Reading(id)), h, ring, keep);
    }
  }

  lemma CollectGuards(db: Db, h: History, k: nat, victims: set<Package>, keep: nat, ring: Ring)
    requires Inv(db, h) && 1 <= keep <= k && Guarded(db, h, keep) && ring in Collect(db, k, victims).heads
    ensures Floor(Gone(db, h, k), ring) <= Oldest(Collect(db, k, victims), ring, keep)
  {
    hide Inv, Oldest, Floor, Gone, IsKept, DeltaPruned;
    HeadTop(db, h, ring);
    GoneHistory(db, h, k, ring);
    OldestAntitone(db, ring, keep, k);
    OldestSame(db, Collect(db, k, victims), h, ring, keep);
  }

  /** What a database put for a release does to every release's row, of every architecture. */
  lemma PutShelf(db: Db, of: nat, arch: Arch, i: nat, a: Arch)
    requires of in db.rows && i in db.rows
    ensures ShelfOf(Put(db, of, arch), i, a) == if a == arch then ShelfPut(db, of, arch, i) else ShelfOf(db, i, a)
  {
    hide ShelfPut;
  }

  lemma FinishedShelf(db: Db, of: nat, arch: Arch, i: nat, a: Arch)
    requires i in db.rows
    ensures ShelfOf(Finished(db, of, arch), i, a) ==
              if a == arch then ShelfFinished(db, of, arch, i) else ShelfOf(db, i, a)
  {
    hide ShelfFinished;
  }

  /** A render or its end leaves a rendered row so, and no row comes to await. */
  lemma ShelfMoves(db: Db, step: Step, i: nat, a: Arch)
    requires i in db.rows && (step.Putting? || step.Finishing?)
    ensures var was, now := ShelfOf(db, i, a), ShelfOf(Next(db, step), i, a);
            && (was == Rendered ==> now == Rendered)
            && (now.Awaiting? ==> now == was)
            && (a != step.arch ==> now == was)
  {
    hide IsKin, Waited, ShelfOf, Put, Finished;
    if step.Finishing? {
      FinishedShelf(db, step.id, step.arch, i, a);
    } else if step.id in db.rows {
      PutShelf(db, step.id, step.arch, i, a);
    }
  }

  lemma RenderGuards(db: Db, h: History, step: Step, arch: Arch, keep: nat, ring: Ring)
    requires Inv(db, h) && keep >= 1 && Guarded(db, h, keep) && ring in db.heads && (step.Putting? || step.Finishing?)
    ensures Floor(h, ring) <= Oldest(Next(db, step), ring, keep)
  {
    hide Inv, Oldest, Floor, Reach, Top, ShelfOf;
    var after := Next(db, step);
    HeadTop(db, h, ring);
    SameTop(db, after, ring);
    forall a ensures Reach(db, ring, a) <= Reach(after, ring, a) {
      forall t: nat | 1 <= t <= Top(db, ring) && RenderedAt(db, ring, a, t) ensures RenderedAt(after, ring, a, t) {
        HasEvery(db, h, ring, t);
        ShelfMoves(db, step, db.bySeq[(ring, t)], a);
      }
      ShelfMoves(db, step, db.heads[ring], a);
      ReachByRender(db, after, ring, a);
    }
    OldestGrows(db, after, ring, keep);
  }

  lemma ReleaseGuards(db: Db, h: History, id: nat, q: Request, keep: nat, ring: Ring)
    requires Inv(db, h) && keep >= 1 && Guarded(db, h, keep) && Allowed(db, Publishing(id, q), keep)
             && KeepsReach(db, Publishing(id, q))
    requires ring in Next(db, Publishing(id, q)).heads
    ensures Floor(NextHistory(db, h, Publishing(id, q)), ring) <= Oldest(Next(db, Publishing(id, q)), ring, keep)
  {
    hide Inv, Oldest, Reach, Top, Release, Floor, ShelfOf, Carried, Unchanged, Nearest, Published, Asked;
    if Release(db, id, q).Ok? {
      var after := Release(db, id, q).value;
      FloorKept(db, h, q, ring);
      HeadTop(db, h, ring);
      NewHead(db, h, id, q, ring);
      if ring in db.heads {
        forall arch ensures Reach(db, ring, arch) <= Reach(after, ring, arch) {
          RenderedKept(db, h, id, q, ring, arch);
          NewShelves(db, h, id, q, id, arch);
          NewShelves(db, h, id, q, db.heads[ring], arch);
          if ring == q.ring {
            FirstHead(db, h, ring);
            ReachByRelease(db, after, ring, arch, id, arch in Unchanged(db, q));
          } else {
            ReachElsewhere(db, after, ring, arch);
          }
        }
        OldestGrows(db, after, ring, keep);
      } else {
        FloorOfNew(db, h, ring);
        OldestBounds(after, ring, keep);
      }
    }
  }

  lemma FloorKept(db: Db, h: History, q: Request, ring: Ring)
    ensures Floor(Published(db, h, q.ring, Asked(db, q)), ring) == Floor(h, ring)
  {
    hide Asked, Top;
  }

  lemma FloorOfNew(db: Db, h: History, ring: Ring)
    requires Inv(db, h) && ring !in db.heads
    ensures Floor(h, ring) == 1
  {
    assert RingOk(db, h, ring);
  }

  /** A ring's first release has no parent. */
  lemma FirstHead(db: Db, h: History, ring: Ring)
    requires Inv(db, h) && ring in db.heads
    ensures db.heads[ring] in db.rows && (Top(db, ring) == 1 ==> db.rows[db.heads[ring]].parent.None?)
  {
    HeadTop(db, h, ring);
    HasEvery(db, h, ring, Top(db, ring));
  }

  /** What a release carries reads the heads, the parents and the artifacts, not the checkpoints. */
  lemma {:induction false} NearestSame(db: Db, read: Db, id: nat, arch: Arch, depth: nat)
    requires read.shelves == db.shelves && read.sources == db.sources && read.rows.Keys == db.rows.Keys
    requires forall i | i in db.rows :: read.rows[i].parent == db.rows[i].parent
    ensures Nearest(read, id, arch, depth) == Nearest(db, id, arch, depth)
    decreases CARRY_DEPTH - depth
  {
    if depth < CARRY_DEPTH && id in db.rows && db.rows[id].parent.Some? {
      NearestSame(db, read, db.rows[id].parent.value, arch, depth + 1);
    }
  }

  lemma CarriedSame(db: Db, h: History, q: Request, id: nat, arch: Arch, kept: bool)
    requires Inv(db, h) && SourceRefusal(db, q).None? && BaseOf(db, q).Ok?
    ensures Carried(BaseOf(db, q).value.0, q.ring, id, arch, kept) == Carried(db, q.ring, id, arch, kept)
  {
    hide Inv, BaseOf, Nearest;
    BaseTables(db, h, q);
    if q.ring in db.heads {
      NearestSame(db, BaseOf(db, q).value.0, db.heads[q.ring], arch, 0);
    }
  }

  /** What a release moves of what retention reads: its ring's head, its own place in the order, its own artifacts. */
  lemma NewHead(db: Db, h: History, id: nat, q: Request, ring: Ring)
    requires Inv(db, h) && id !in db.rows && Release(db, id, q).Ok?
    ensures var after := Release(db, id, q).value;
            && after.heads == db.heads[q.ring := id]
            && after.bySeq == db.bySeq[(q.ring, Top(db, q.ring) + 1) := id]
            && Top(after, ring) == (if ring == q.ring then Top(db, ring) + 1 else Top(db, ring))
            && after.bytes == db.bytes
  {
    hide Inv, BaseOf, Publish, Target, Top, Unchanged;
    BaseExact(db, h, q);
    BaseTables(db, h, q);
    HeadTop(db, h, ring);
    var (read, base) := BaseOf(db, q).value;
    PublishedTop(read, q.ring, id, Target(read, q, base), Unchanged(db, q), ring);
  }

  lemma PublishedTop(db: Db, ring: Ring, id: nat, target: set<Package>, kept: set<Arch>, r: Ring)
    requires id !in db.rows && (r in db.heads ==> db.heads[r] in db.rows)
    ensures var after := Publish(db, ring, id, target, kept);
            && after.heads == db.heads[ring := id]
            && after.bySeq == db.bySeq[(ring, Top(db, ring) + 1) := id]
            && Top(after, r) == (if r == ring then Top(db, ring) + 1 else Top(db, r))
            && after.bytes == db.bytes
  {
    hide Diff, Apply, CheckpointDue, Carried;
  }

  /** A release's own artifacts are what it carries; every other release's stay. */
  lemma NewShelves(db: Db, h: History, id: nat, q: Request, i: nat, arch: Arch)
    requires Inv(db, h) && Release(db, id, q).Ok?
    ensures ShelfOf(Release(db, id, q).value, i, arch) ==
              if i == id then Carried(db, q.ring, id, arch, arch in Unchanged(db, q)) else ShelfOf(db, i, arch)
  {
    hide Inv, Target, Diff, Apply, CheckpointDue, BaseOf, CarriedFrom, Unchanged;
    BaseTables(db, h, q);
    CarriedSame(db, h, q, id, arch, arch in Unchanged(db, q));
  }

  /** Reading a release by its id writes its checkpoint rows and flag, and moves nothing else. */
  ghost predicate OnlyFlags(db: Db, read: Db) {
    && read == db.(rows := read.rows, members := read.members)
    && read.rows.Keys == db.rows.Keys
    && forall i | i in db.rows :: read.rows[i] == db.rows[i].(checkpoint := read.rows[i].checkpoint)
  }

  lemma MembersTables(db: Db, h: History, id: nat)
    requires Inv(db, h) && id in db.rows && Members(db, id).Ok?
    ensures OnlyFlags(db, Members(db, id).value.0)
  {
    hide Inv, Checkpointed, HeadRing, SelOf;
    CheckpointedExact(db, h, id);
  }

  lemma BaseTables(db: Db, h: History, q: Request)
    requires Inv(db, h) && SourceRefusal(db, q).None? && BaseOf(db, q).Ok?
    ensures OnlyFlags(db, BaseOf(db, q).value.0)
  {
    hide Inv, Members;
    if q.base.Rollback? {
      MembersTables(db, h, q.base.to);
    }
  }

  lemma RenderedKept(db: Db, h: History, id: nat, q: Request, ring: Ring, arch: Arch)
    requires Inv(db, h) && id !in db.rows && Release(db, id, q).Ok?
    ensures forall t: nat {:trigger RenderedAt(db, ring, arch, t)} | 1 <= t <= Top(db, ring) ::
              RenderedAt(db, ring, arch, t) <==> RenderedAt(Release(db, id, q).value, ring, arch, t)
  {
    hide Release, Top, RingOk, Placed, Inv, ShelfOf;
    NewHead(db, h, id, q, ring);
    forall t: nat | 1 <= t <= Top(db, ring)
      ensures RenderedAt(db, ring, arch, t) <==> RenderedAt(Release(db, id, q).value, ring, arch, t)
    {
      HasEvery(db, h, ring, t);
      NewShelves(db, h, id, q, db.bySeq[(ring, t)], arch);
    }
  }

  lemma HasEvery(db: Db, h: History, ring: Ring, t: nat)
    requires Inv(db, h) && 1 <= t <= Top(db, ring)
    ensures HasRelease(db, ring, t)
  {
    assert Good(db, h, ring, t);
  }

  lemma ReachElsewhere(db: Db, after: Db, ring: Ring, arch: Arch)
    requires ring in db.heads && ring in after.heads && after.heads[ring] == db.heads[ring]
             && Top(after, ring) == Top(db, ring) > 0
    requires ShelfOf(after, db.heads[ring], arch) == ShelfOf(db, db.heads[ring], arch)
    requires forall t: nat {:trigger RenderedAt(db, ring, arch, t)} | 1 <= t <= Top(db, ring) ::
               RenderedAt(db, ring, arch, t) <==> RenderedAt(after, ring, arch, t)
    ensures Reach(db, ring, arch) <= Reach(after, ring, arch)
  {
    hide Top;
    var top := Top(db, ring);
    var least := LookBack(top);
    RenderedLater(db, after, ring, arch, top - 1, least, least);
    RenderedFromBounds(db, ring, arch, top - 1, least);
    RenderedFromBounds(after, ring, arch, top - 1, least);
  }

  // ---------- whole runs ----------

  lemma EmptyIndex()
    ensures Inv(EMPTY, History(map[], map[], map[]))
  {
  }

  /** Every run leaves the index whole: each release as it was published, each ring one chain to its head. */
  lemma {:induction false} RunKeeps(steps: seq<Step>, keep: nat)
    requires keep >= 1 && Run(steps, keep).Some?
    ensures var (db, h) := Run(steps, keep).value; Inv(db, h)
    decreases |steps|
  {
    hide Inv, Next, NextHistory, Allowed;
    if steps == [] {
      EmptyIndex();
    } else {
      RunKeeps(steps[..|steps| - 1], keep);
      var (db, h) := Run(steps[..|steps| - 1], keep).value;
      StepKeeps(db, h, steps[|steps| - 1], keep);
    }
  }

  /**
   * And where no release carried rows its parent had lost, retention of `keep`
   * reaches no further back than the collections did.
   */
  lemma {:induction false} RunGuards(steps: seq<Step>, keep: nat)
    requires keep >= 1 && Run(steps, keep).Some? && Gapless(steps, keep)
    ensures var (db, h) := Run(steps, keep).value; Inv(db, h) && Guarded(db, h, keep)
    decreases |steps|
  {
    hide Inv, Oldest, Next, NextHistory, Allowed, KeepsReach;
    RunKeeps(steps, keep);
    if steps != [] {
      RunGuards(steps[..|steps| - 1], keep);
      var (db, h) := Run(steps[..|steps| - 1], keep).value;
      StepGuards(db, h, steps[|steps| - 1], keep);
    }
  }

  /**
   * Garbage collection is safe over whole runs: whatever was uploaded,
   * released, promoted, rolled back, read, rendered and collected, every
   * package of every release retention protects is in the store, and reading
   * that release by its id gives exactly the selection it published.
   */
  lemma ProtectedReadable(steps: seq<Step>, keep: nat, id: nat)
    requires keep >= 1 && Run(steps, keep).Some? && Gapless(steps, keep)
             && IsProtected(Run(steps, keep).value.0, keep, id)
    ensures var (db, h) := Run(steps, keep).value;
            && SelOf(db, h, id) <= db.packages
            && Checkpointed(db, id).Ok?
            && MembersOf(Checkpointed(db, id).value, id) == SelOf(db, h, id)
            && Members(db, id).Ok? && Members(db, id).value.1 == SelOf(db, h, id)
  {
    hide Inv, Oldest, Run, Gapless;
    var (db, h) := Run(steps, keep).value;
    RunGuards(steps, keep);
    ReadableWhole(db, h, keep, id);
  }

  lemma ReadableWhole(db: Db, h: History, keep: nat, id: nat)
    requires Inv(db, h) && Guarded(db, h, keep) && IsProtected(db, keep, id)
    ensures SelOf(db, h, id) <= db.packages && Checkpointed(db, id).Ok?
            && MembersOf(Checkpointed(db, id).value, id) == SelOf(db, h, id)
    ensures Members(db, id).Ok? && Members(db, id).value.1 == SelOf(db, h, id)
  {
    hide Inv, Oldest, Selection;
    var ring, s := db.rows[id].ring, db.rows[id].seqNo;
    Standing(db, h, id);
    assert Floor(h, ring) <= s;
    StoredFrom(db, h, ring, s);
    CheckpointedExact(db, h, id);
    HeadOf(db, h, id);
  }

  lemma Standing(db: Db, h: History, id: nat)
    requires Inv(db, h) && id in db.rows
    ensures var ring, s := db.rows[id].ring, db.rows[id].seqNo;
            && 1 <= s <= Top(db, ring) && ring in db.heads && Bottom(h, ring) <= Floor(h, ring)
            && Live(db, ring) == Sel(h, ring, Top(db, ring))
  {
    assert Placed(db, id) && RingOk(db, h, db.rows[id].ring);
  }

  lemma StoredFrom(db: Db, h: History, ring: Ring, s: nat)
    requires Inv(db, h) && 1 <= s <= Top(db, ring) && Floor(h, ring) <= s
    ensures Sel(h, ring, s) <= db.packages
  {
    assert Good(db, h, ring, s);
  }

  /**
   * A rollback to a protected release always goes through, and the ring then
   * serves exactly what that release selected.
   */
  lemma RollbackExact(steps: seq<Step>, keep: nat, id: nat, to: nat)
    requires keep >= 1 && Run(steps, keep).Some? && Gapless(steps, keep)
             && IsProtected(Run(steps, keep).value.0, keep, to)
    requires id !in Run(steps, keep).value.0.rows
    ensures var (db, h) := Run(steps, keep).value;
            var ring := db.rows[to].ring;
            var q := Request(ring, Rollback(to), None, None, false, {}, {});
            Release(db, id, q).Ok? && Live(Release(db, id, q).value, ring) == SelOf(db, h, to)
  {
    hide Inv, Oldest, Run, Gapless;
    var (db, h) := Run(steps, keep).value;
    RunGuards(steps, keep);
    RollbackWhole(db, h, keep, id, to);
  }

  lemma RollbackWhole(db: Db, h: History, keep: nat, id: nat, to: nat)
    requires Inv(db, h) && Guarded(db, h, keep) && IsProtected(db, keep, to) && id !in db.rows
    ensures var ring := db.rows[to].ring;
            var q := Request(ring, Rollback(to), None, None, false, {}, {});
            Release(db, id, q).Ok? && Live(Release(db, id, q).value, ring) == SelOf(db, h, to)
  {
    hide Inv, Oldest, Selection, Diff, Apply, CheckpointDue, Checkpointed, Carried, Unchanged;
    ReadableWhole(db, h, keep, to);
    var q := Request(db.rows[to].ring, Rollback(to), None, None, false, {}, {});
    BaseExact(db, h, q);
    var (read, base) := BaseOf(db, q).value;
    assert Target(read, q, base) == SelOf(db, h, to);
    ApplyDiff(Live(read, q.ring), SelOf(db, h, to));
  }

  /** Every state a run reaches is ordered, so retention and collection always apply. */
  lemma RunOrdered(steps: seq<Step>, keep: nat)
    requires keep >= 1 && Run(steps, keep).Some?
    ensures Ordered(Run(steps, keep).value.0)
  {
    hide Run, Inv, Ordered;
    RunKeeps(steps, keep);
    InvOrdered(Run(steps, keep).value.0, Run(steps, keep).value.1);
  }

  lemma InvOrdered(db: Db, h: History)
    requires Inv(db, h)
    ensures Ordered(db)
  {
    hide Inv;
    forall id | id in db.rows
      ensures 1 <= db.rows[id].seqNo <= Top(db, db.rows[id].ring)
      ensures (db.rows[id].ring, db.rows[id].seqNo) in db.bySeq && db.bySeq[(db.rows[id].ring, db.rows[id].seqNo)] == id
    {
      PlacedIn(db, h, id);
    }
    forall ring, s: nat | 1 <= s <= Top(db, ring)
      ensures (ring, s) in db.bySeq && db.bySeq[(ring, s)] in db.rows
      ensures db.rows[db.bySeq[(ring, s)]].ring == ring && db.rows[db.bySeq[(ring, s)]].seqNo == s
    {
      HasEvery(db, h, ring, s);
    }
  }

  lemma PlacedIn(db: Db, h: History, id: nat)
    requires Inv(db, h) && id in db.rows
    ensures Placed(db, id)
  {
  }

  // ---------- a collection that keeps less ----------

  /**
   * What a collection leaves of a release that retention of `keep` protects:
   * it is read by its id exactly when it stands at or above the ring's new
   * base and no victim is of its selection. Retention of `keep` itself moves
   * for no release.
   */
  lemma SmallerKeepExact(steps: seq<Step>, keep: nat, k: nat, victims: set<Package>, id: nat)
    requires keep >= 1 && k >= 1 && Run(steps, keep).Some? && Gapless(steps, keep)
             && IsProtected(Run(steps, keep).value.0, keep, id)
    requires forall p | p in victims :: Outside(Run(steps, keep).value.0, k, p)
    ensures var (db, h) := Run(steps, keep).value;
            var after, base := Collect(db, k, victims), BaseSeq(db, db.rows[id].ring, k);
            && IsProtected(after, keep, id)
            && (Checkpointed(after, id).Ok?
                <==> (base.Some? ==> base.value <= db.rows[id].seqNo) && SelOf(db, h, id) !! victims)
  {
    hide Inv, Oldest, Run, Gapless, Outside, Collect, BaseSeq, Checkpointed;
    var (db, h) := Run(steps, keep).value;
    RunGuards(steps, keep);
    LeftProtected(db, h, k, victims, keep, id);
    ReadableWhole(db, h, keep, id);
    LeftReadable(db, h, k, victims, id);
  }

  lemma LeftProtected(db: Db, h: History, k: nat, victims: set<Package>, keep: nat, id: nat)
    requires Inv(db, h) && Guarded(db, h, keep) && keep >= 1 && IsProtected(db, keep, id)
    ensures IsProtected(Collect(db, k, victims), keep, id)
    ensures Bottom(h, db.rows[id].ring) <= db.rows[id].seqNo
  {
    hide Inv, Oldest, IsKept, DeltaPruned;
    Standing(db, h, id);
    HeadTop(db, h, db.rows[id].ring);
    CollectSame(db, k, victims, db.rows[id].ring);
    OldestSame(db, Collect(db, k, victims), h, db.rows[id].ring, keep);
  }

  lemma LeftReadable(db: Db, h: History, k: nat, victims: set<Package>, id: nat)
    requires Inv(db, h) && k >= 1 && id in db.rows && Bottom(h, db.rows[id].ring) <= db.rows[id].seqNo
             && SelOf(db, h, id) <= db.packages
    requires forall p | p in victims :: Outside(db, k, p)
    ensures var after, base := Collect(db, k, victims), BaseSeq(db, db.rows[id].ring, k);
            Checkpointed(after, id).Ok?
            <==> (base.Some? ==> base.value <= db.rows[id].seqNo) && SelOf(db, h, id) !! victims
  {
    hide Inv, Oldest, BaseSeq, Checkpointed, Gone, IsKept, DeltaPruned, Outside, Sel;
    var ring := db.rows[id].ring;
    var after, h' := Collect(db, k, victims), Gone(db, h, k);
    CollectKeeps(db, h, k, victims);
    CollectSame(db, k, victims, ring);
    GoneHistory(db, h, k, ring);
    CheckpointedExact(after, h', id);
    assert SelOf(after, h', id) == SelOf(db, h, id);
    if after.rows[id].checkpoint {
      KeptStored(db, h, k, victims, id);
      FlagAboveBase(after, h', id);
    }
  }

  /** A checkpoint a collection keeps lists none of its victims. */
  lemma KeptStored(db: Db, h: History, k: nat, victims: set<Package>, id: nat)
    requires Inv(db, h) && id in db.rows && Collect(db, k, victims).rows[id].checkpoint
    requires forall p | p in victims :: Outside(db, k, p)
    ensures SelOf(db, h, id) !! victims
  {
    hide BaseSeq, Oldest;
    assert Placed(db, id) && Good(db, h, db.rows[id].ring, db.rows[id].seqNo);
    assert id in db.members && IsKept(db, k, id) && db.members[id] == SelOf(db, h, id);
    forall p | p in victims ensures p !in db.members[id] {
      assert Outside(db, k, p);
    }
  }

  lemma FlagAboveBase(db: Db, h: History, id: nat)
    requires Inv(db, h) && id in db.rows && db.rows[id].checkpoint
    ensures Bottom(h, db.rows[id].ring) <= db.rows[id].seqNo
  {
    assert Placed(db, id) && Good(db, h, db.rows[id].ring, db.rows[id].seqNo);
  }

  // ---------- a victim deleted after it was listed ----------

  predicate IsServed(db: Db, p: Package) {
    exists ring | ring in db.live :: p in db.live[ring]
  }

  /** The row of a victim listed earlier, deleted unless a ring serves it by now: retention is not asked again. */
  function Deleted(db: Db, p: Package): Db {
    if IsServed(db, p) then db else db.(packages := db.packages - {p})
  }

  /** What a release selects is read from the lists, whatever the store holds. */
  lemma {:induction false} RebuildStored(db: Db, packages: set<Package>, id: nat, hops: nat)
    requires id in db.rows
    ensures Rebuild(db.(packages := packages), id, hops) == Rebuild(db, id, hops)
    decreases 4 * CHECKPOINT_EVERY + 1 - hops
  {
    var parent := db.rows[id].parent;
    if !db.rows[id].checkpoint && parent.Some? && parent.value in db.rows && hops + 1 <= 4 * CHECKPOINT_EVERY {
      RebuildStored(db, packages, parent.value, hops + 1);
    }
  }

  /**
   * When a victim's late delete is safe: after it a protected release without
   * checkpoint rows is read by its id exactly when a ring serves the victim or
   * the release does not select it. One with its rows is read whatever goes, and
   * what it lists is stored in exactly the same case. Asking retention again
   * would be enough.
   */
  lemma DeleteExact(steps: seq<Step>, keep: nat, p: Package, id: nat)
    requires keep >= 1 && Run(steps, keep).Some? && Gapless(steps, keep)
             && IsProtected(Run(steps, keep).value.0, keep, id)
    ensures var (db, h) := Run(steps, keep).value;
            && (!db.rows[id].checkpoint ==>
                  (Checkpointed(Deleted(db, p), id).Ok? <==> IsServed(db, p) || p !in SelOf(db, h, id)))
            && (db.rows[id].checkpoint ==>
                  && Checkpointed(Deleted(db, p), id) == Ok(Deleted(db, p))
                  && MembersOf(Deleted(db, p), id) == SelOf(db, h, id)
                  && (MembersOf(Deleted(db, p), id) <= Deleted(db, p).packages
                      <==> IsServed(db, p) || p !in SelOf(db, h, id)))
            && (Outside(db, keep, p) ==> p !in SelOf(db, h, id))
  {
    hide Inv, Oldest, Run, Gapless, Outside, Rebuild, IsServed, SelOf;
    var (db, h) := Run(steps, keep).value;
    RunGuards(steps, keep);
    ReadableWhole(db, h, keep, id);
    OutsideUnselected(db, h, keep, p, id);
    if !db.rows[id].checkpoint && !IsServed(db, p) {
      RebuildStored(db, db.packages - {p}, id, 1);
      SelectionIs(db, h, id);
    }
  }

  lemma SelectionIs(db: Db, h: History, id: nat)
    requires Inv(db, h) && id in db.rows && !db.rows[id].checkpoint && Checkpointed(db, id).Ok?
    ensures Selection(db, id) == Ok(SelOf(db, h, id))
  {
    hide Inv, SelOf;
    SelectionExact(db, h, id);
  }

  lemma OutsideUnselected(db: Db, h: History, keep: nat, p: Package, id: nat)
    requires Inv(db, h) && Guarded(db, h, keep) && IsProtected(db, keep, id)
    ensures Outside(db, keep, p) ==> p !in SelOf(db, h, id)
  {
    hide Inv, Oldest, Outside, Sel;
    Standing(db, h, id);
    var ring, s := db.rows[id].ring, db.rows[id].seqNo;
    assert Floor(h, ring) <= Oldest(db, ring, keep);
    if p in SelOf(db, h, id) {
      Survives(db, h, ring, keep, s, p);
    }
  }
}
