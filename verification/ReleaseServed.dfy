/**
 * The databases a ring serves. One live object holds a ring's database of an
 * architecture, whichever release it was rendered for; retention goes by the
 * releases' rows. What the object lists is stored as long as renders land in
 * the releases' order.
 */
module ReleaseServed {
  import opened Wrappers
  import opened ReleaseLog
  import opened ReleaseSafety
  import opened ReleaseRuns

  /** What the nth release of a ring lists of an architecture. */
  function Content(h: History, ring: Ring, arch: Arch, s: nat): set<Package> {
    Cut(Sel(h, ring, s), arch)
  }

  /** Some release from the sth to the newest lists this. */
  ghost predicate Again(db: Db, h: History, ring: Ring, arch: Arch, s: nat, what: set<Package>) {
    exists q: nat {:trigger Content(h, ring, arch, q)} :: s <= q <= Top(db, ring) && Content(h, ring, arch, q) == what
  }

  /** A ring's database of an architecture was put, for one of its releases. */
  predicate HasBytes(db: Db, ring: Ring, arch: Arch) {
    && BytesOf(db, ring, arch).Some?
    && BytesOf(db, ring, arch).value in db.rows
    && db.rows[BytesOf(db, ring, arch).value].ring == ring
  }

  /** What a ring's database of an architecture lists: the release whose render was put last. */
  function Listed(db: Db, h: History, ring: Ring, arch: Arch): set<Package>
    requires HasBytes(db, ring, arch)
  {
    Content(h, ring, arch, db.rows[BytesOf(db, ring, arch).value].seqNo)
  }

  /** A release whose row awaits a render lists what that render will. */
  predicate Waits(db: Db, h: History, ring: Ring, arch: Arch, s: nat, of: nat) {
    of in db.rows && db.rows[of].ring == ring && Content(h, ring, arch, db.rows[of].seqNo) == Content(h, ring, arch, s)
  }

  /**
   * The row of one release: where it has any, the ring's database was put;
   * where it is rendered, what that lists is some release's from it on; where
   * it awaits a render, that one's selection is its own.
   */
  ghost predicate RowOk(db: Db, h: History, ring: Ring, arch: Arch, s: nat, shelf: Shelf) {
    match shelf
    case NoRows => true
    case Rendered => HasBytes(db, ring, arch) && Again(db, h, ring, arch, s, Listed(db, h, ring, arch))
    case Awaiting(of) => HasBytes(db, ring, arch) && Waits(db, h, ring, arch, s, of)
  }

  function ShelfAt(db: Db, ring: Ring, arch: Arch, s: nat): Shelf {
    if (ring, s) in db.bySeq then ShelfOf(db, db.bySeq[(ring, s)], arch) else NoRows
  }

  ghost predicate Shelved(db: Db, h: History, ring: Ring, arch: Arch) {
    forall s: nat {:trigger ShelfAt(db, ring, arch, s)} | 1 <= s <= Top(db, ring) ::
             RowOk(db, h, ring, arch, s, ShelfAt(db, ring, arch, s))
  }

  /** Every ring and architecture. */
  ghost predicate AllShelved(db: Db, h: History) {
    forall ring, arch {:trigger Shelved(db, h, ring, arch)} :: Shelved(db, h, ring, arch)
  }

  /**
   * A render lands in order: every later release whose row is rendered
   * already, or is marked with this one as its kin, is followed by one that
   * lists what this render does.
   */
  ghost predicate InOrder(db: Db, h: History, of: nat, arch: Arch)
    requires of in db.rows
  {
    var ring, m := db.rows[of].ring, db.rows[of].seqNo;
    forall t: nat {:trigger ShelfAt(db, ring, arch, t)} | m < t <= Top(db, ring) && Marked(db, of, ring, arch, t) ::
      Again(db, h, ring, arch, t, Content(h, ring, arch, m))
  }

  predicate Marked(db: Db, of: nat, ring: Ring, arch: Arch, t: nat) {
    && (ring, t) in db.bySeq
    && (ShelfAt(db, ring, arch, t) == Rendered
        || (ShelfAt(db, ring, arch, t) == NoRows && IsKin(db, of, db.bySeq[(ring, t)], KIN_DEPTH)))
  }

  /** Every render of a run landed in order. */
  ghost predicate InTurn(steps: seq<Step>, keep: nat) {
    steps == [] ||
    (InTurn(steps[..|steps| - 1], keep) &&
     match Run(steps[..|steps| - 1], keep)
     case None => true
     case Some((db, h)) => TakesTurn(db, h, steps[|steps| - 1]))
  }

  ghost predicate TakesTurn(db: Db, h: History, step: Step) {
    step.Putting? && step.id in db.rows ==> InOrder(db, h, step.id, step.arch)
  }

  // ---------- steps that put nothing and publish nothing ----------

  /** A step leaves the releases' places and selections, and of their rows drops some at most. */
  ghost predicate Settled(db: Db, h: History, after: Db, h': History) {
    && after.bySeq == db.bySeq && after.bytes == db.bytes
    && (forall ring :: Top(after, ring) == Top(db, ring))
    && (forall ring, s {:trigger Sel(h', ring, s)} :: Sel(h', ring, s) == Sel(h, ring, s))
    && (forall i | i in db.rows ::
          i in after.rows && after.rows[i].ring == db.rows[i].ring && after.rows[i].seqNo == db.rows[i].seqNo)
    && (forall i, arch {:trigger ShelfOf(after, i, arch)} | i in db.rows ::
          ShelfOf(after, i, arch) == ShelfOf(db, i, arch) || ShelfOf(after, i, arch) == NoRows)
  }

  lemma SettledKeeps(db: Db, h: History, after: Db, h': History)
    requires Inv(db, h) && AllShelved(db, h) && Settled(db, h, after, h')
    ensures AllShelved(after, h')
  {
    hide Inv, Top, ShelfOf, Sel;
    forall ring, arch ensures Shelved(after, h', ring, arch) {
      assert Shelved(db, h, ring, arch);
      forall s: nat | 1 <= s <= Top(after, ring)
        ensures RowOk(after, h', ring, arch, s, ShelfAt(after, ring, arch, s))
      {
        HasEvery(db, h, ring, s);
        SettledRow(db, h, after, h', ring, arch, s);
      }
    }
  }

  lemma SettledRow(db: Db, h: History, after: Db, h': History, ring: Ring, arch: Arch, s: nat)
    requires Settled(db, h, after, h') && HasRelease(db, ring, s)
             && RowOk(db, h, ring, arch, s, ShelfAt(db, ring, arch, s))
    ensures RowOk(after, h', ring, arch, s, ShelfAt(after, ring, arch, s))
  {
    hide Top, ShelfOf, Sel, Cut;
    if ShelfAt(after, ring, arch, s) == Rendered {
      var q: nat :| s <= q <= Top(db, ring) && Content(h, ring, arch, q) == Listed(db, h, ring, arch);
      assert Content(h', ring, arch, q) == Content(h, ring, arch, q);
    }
  }

  lemma UploadSettles(db: Db, h: History, p: Package)
    ensures Settled(db, h, Next(db, Upload(p)), h)
  {
  }

  lemma ReadSettles(db: Db, h: History, id: nat)
    requires Inv(db, h)
    ensures Settled(db, h, Next(db, Reading(id)), h)
  {
    hide Inv, Next, Top, ShelfOf;
    var after := Next(db, Reading(id));
    ReadTables(db, h, id);
    forall ring ensures Top(after, ring) == Top(db, ring) {
      FlagTop(db, after, ring);
    }
    assert forall i, arch :: ShelfOf(after, i, arch) == ShelfOf(db, i, arch) by {
      ShelfReads(db, after);
    }
  }

  lemma ReadTables(db: Db, h: History, id: nat)
    requires Inv(db, h)
    ensures OnlyFlags(db, Next(db, Reading(id)))
  {
    hide Inv, Selection, SelOf;
    if id in db.rows {
      CheckpointedExact(db, h, id);
    }
  }

  lemma FlagTop(db: Db, after: Db, ring: Ring)
    requires after.heads == db.heads && after.rows.Keys == db.rows.Keys && forall i | i in db.rows ::
               after.rows[i].seqNo == db.rows[i].seqNo
    ensures Top(after, ring) == Top(db, ring)
  {
  }

  lemma ShelfReads(db: Db, after: Db)
    requires after.shelves == db.shelves
    ensures forall i, arch :: ShelfOf(after, i, arch) == ShelfOf(db, i, arch)
  {
  }

  lemma CollectSettles(db: Db, h: History, keep: nat, victims: set<Package>)
    ensures Settled(db, h, Collect(db, keep, victims), Gone(db, h, keep))
  {
    hide IsKept, DeltaPruned, Gone, Top, Sel;
    CollectSame(db, keep, victims, Edge);
    forall ring ensures Top(Collect(db, keep, victims), ring) == Top(db, ring) {
      CollectSame(db, keep, victims, ring);
    }
    forall ring, s ensures Sel(Gone(db, h, keep), ring, s) == Sel(h, ring, s) {
      GoneHistory(db, h, keep, ring);
    }
    var after, h' := Collect(db, keep, victims), Gone(db, h, keep);
    assert forall i | i in db.rows ::
             i in after.rows && after.rows[i].ring == db.rows[i].ring && after.rows[i].seqNo == db.rows[i].seqNo;
    assert after.bySeq == db.bySeq && after.bytes == db.bytes && after.shelves == db.shelves;
    assert forall ring, s {:trigger Sel(h', ring, s)} :: Sel(h', ring, s) == Sel(h, ring, s);
    assert forall ring :: Top(after, ring) == Top(db, ring);
  }

  lemma FinishSettles(db: Db, h: History, of: nat, arch: Arch)
    ensures Settled(db, h, Finished(db, of, arch), h)
  {
    hide Top, ShelfOf;
    forall ring ensures Top(Finished(db, of, arch), ring) == Top(db, ring) {
      SameTop(db, Finished(db, of, arch), ring);
    }
    forall i, a | i in db.rows
      ensures ShelfOf(Finished(db, of, arch), i, a) == ShelfOf(db, i, a)
              || ShelfOf(Finished(db, of, arch), i, a) == NoRows
    {
      FinishedShelf(db, of, arch, i, a);
    }
  }

  // ---------- a release ----------

  /** What a request could not have touched it leaves as its ring serves it. */
  lemma UnchangedIs(db: Db, h: History, q: Request, arch: Arch)
    requires Inv(db, h) && Scoped(q) && SourceRefusal(db, q).None? && BaseOf(db, q).Ok? && arch in Unchanged(db, q)
    ensures Cut(Asked(db, q), arch) == Content(h, q.ring, arch, Top(db, q.ring))
  {
    hide Inv, Top, BaseOf, Sel;
    BaseExact(db, h, q);
    var (read, base) := BaseOf(db, q).value;
    LiveStored(db, h, q.ring);
    assert read.heads == db.heads by { BaseTables(db, h, q); }
    if FromParent(db, q) {
      FromOwn(db, h, q);
    }
  }

  lemma LiveStored(db: Db, h: History, ring: Ring)
    requires Inv(db, h)
    ensures Live(db, ring) == Sel(h, ring, Top(db, ring)) && (ring in db.heads ==> Live(db, ring) <= db.packages)
  {
    assert RingOk(db, h, ring);
    if ring in db.heads {
      assert Good(db, h, ring, Top(db, ring));
    }
  }

  /** A request that starts from its ring's own head starts from what the ring serves. */
  lemma FromOwn(db: Db, h: History, q: Request)
    requires Inv(db, h) && SourceRefusal(db, q).None? && BaseOf(db, q).Ok? && FromParent(db, q)
    ensures BaseOf(db, q).value.1 == Live(db, q.ring)
  {
    hide Top;
    assert RingOk(db, h, q.ring);
    match q.base
    case Own =>
    case Promote(from) => assert RingOk(db, h, from);
    case Rollback(to) => HeadOf(db, h, to);
  }

  /** Where a release's row or an ancestor's is not empty, its ring's database was put. */
  lemma {:induction false} NearestPut(db: Db, h: History, ring: Ring, arch: Arch, id: nat, depth: nat)
    requires Inv(db, h) && Shelved(db, h, ring, arch) && id in db.rows && db.rows[id].ring == ring
    requires Nearest(db, id, arch, depth).Some?
    ensures HasBytes(db, ring, arch)
    decreases CARRY_DEPTH - depth
  {
    hide Inv, Top, RowOk, HasBytes;
    var s := db.rows[id].seqNo;
    assert Placed(db, id) by { PlacedIn(db, h, id); }
    if ShelfOf(db, id, arch) != NoRows {
      assert RowOk(db, h, ring, arch, s, ShelfAt(db, ring, arch, s));
      RowPut(db, h, ring, arch, s);
    } else {
      ParentOfRing(db, h, id);
      NearestPut(db, h, ring, arch, db.rows[id].parent.value, depth + 1);
    }
  }

  lemma RowPut(db: Db, h: History, ring: Ring, arch: Arch, s: nat)
    requires RowOk(db, h, ring, arch, s, ShelfAt(db, ring, arch, s)) && ShelfAt(db, ring, arch, s) != NoRows
    ensures HasBytes(db, ring, arch)
  {
  }

  lemma ParentOfRing(db: Db, h: History, id: nat)
    requires Inv(db, h) && id in db.rows && db.rows[id].parent.Some?
    ensures db.rows[id].parent.value in db.rows && db.rows[db.rows[id].parent.value].ring == db.rows[id].ring
    ensures db.rows[db.rows[id].parent.value].seqNo < db.rows[id].seqNo
  {
    hide NearCheckpoint, Diff, Top;
    var ring, s := db.rows[id].ring, db.rows[id].seqNo;
    assert Placed(db, id);
    HasEvery(db, h, ring, s);
    if s > 1 {
      HasEvery(db, h, ring, s - 1);
    }
  }

  lemma PublishSel(db: Db, h: History, q: Request, id: nat, ring: Ring, arch: Arch, s: nat)
    ensures var h' := NextHistory(db, h, Publishing(id, q));
            Release(db, id, q).Ok? ==>
              Content(h', ring, arch, s) ==
                if ring == q.ring && s == Top(db, ring) + 1 then Cut(Asked(db, q), arch) else Content(h, ring, arch, s)
  {
    hide Release, Asked, Top, Sel, Cut;
    SelAfter(db, h, q.ring, Asked(db, q), ring, s);
  }

  lemma HeadRow(db: Db, h: History, ring: Ring)
    requires Inv(db, h) && ring in db.heads
    ensures Top(db, ring) > 0 && db.heads[ring] in db.rows
    ensures db.rows[db.heads[ring]].ring == ring && db.rows[db.heads[ring]].seqNo == Top(db, ring)
    ensures (ring, Top(db, ring)) in db.bySeq && db.bySeq[(ring, Top(db, ring))] == db.heads[ring]
  {
    assert RingOk(db, h, ring);
    HeadTop(db, h, ring);
  }

  /** A release's new row carries what its parent's selection of the architecture allows. */
  lemma NewRow(db: Db, h: History, id: nat, q: Request, arch: Arch)
    requires Inv(db, h) && Shelved(db, h, q.ring, arch) && id !in db.rows && Scoped(q) && Release(db, id, q).Ok?
    ensures var after, h' := Release(db, id, q).value, NextHistory(db, h, Publishing(id, q));
            RowOk(after, h', q.ring, arch, Top(db, q.ring) + 1, ShelfOf(after, id, arch))
  {
    hide Inv, Top, Release, RowOk, Unchanged, ShelfOf, Nearest, Shelved, HasBytes;
    var ring, top := q.ring, Top(db, q.ring);
    var after, h' := Release(db, id, q).value, NextHistory(db, h, Publishing(id, q));
    NewShelves(db, h, id, q, id, arch);
    if ShelfOf(after, id, arch) == NoRows {
      EmptyRow(after, h', ring, arch, top + 1);
    } else {
      HeadRow(db, h, ring);
      NearestPut(db, h, ring, arch, db.heads[ring], 0);
      BytesStay(db, h, id, q, ring, arch);
      if arch !in Unchanged(db, q) {
        OwnRow(db, h, id, q, arch);
      } else {
        KeptRow(db, h, id, q, arch);
      }
    }
  }

  lemma EmptyRow(db: Db, h: History, ring: Ring, arch: Arch, s: nat)
    ensures RowOk(db, h, ring, arch, s, NoRows)
  {
  }

  /** A release puts no database: each lists what it did. */
  lemma BytesStay(db: Db, h: History, id: nat, q: Request, ring: Ring, arch: Arch)
    requires Inv(db, h) && id !in db.rows && Release(db, id, q).Ok? && HasBytes(db, ring, arch)
    ensures var after, h' := Release(db, id, q).value, NextHistory(db, h, Publishing(id, q));
            HasBytes(after, ring, arch) && Listed(after, h', ring, arch) == Listed(db, h, ring, arch)
  {
    hide Inv, Top, Release, Asked, Content;
    var b := BytesOf(db, ring, arch).value;
    NewHead(db, h, id, q, ring);
    RowsStay(db, h, id, q, b);
    PlacedIn(db, h, b);
    PublishSel(db, h, q, id, ring, arch, db.rows[b].seqNo);
  }

  lemma RowsStay(db: Db, h: History, id: nat, q: Request, i: nat)
    requires Inv(db, h) && id !in db.rows && Release(db, id, q).Ok? && i in db.rows
    ensures var after := Release(db, id, q).value;
            i in after.rows && after.rows[i].ring == db.rows[i].ring && after.rows[i].seqNo == db.rows[i].seqNo
    ensures id in Release(db, id, q).value.rows && Release(db, id, q).value.rows[id].ring == q.ring
            && Release(db, id, q).value.rows[id].seqNo == Top(db, q.ring) + 1
  {
    hide Inv, Target, Diff, Apply, CheckpointDue, BaseOf, Carried, Unchanged;
    BaseExact(db, h, q);
    BaseTables(db, h, q);
  }

  /** A row that awaits its own release's render. */
  lemma OwnRow(db: Db, h: History, id: nat, q: Request, arch: Arch)
    requires Inv(db, h) && id !in db.rows && Release(db, id, q).Ok? && q.ring in db.heads
    requires HasBytes(Release(db, id, q).value, q.ring, arch)
    ensures RowOk(Release(db, id, q).value, NextHistory(db, h, Publishing(id, q)), q.ring, arch, Top(db, q.ring)
                    + 1, Awaiting(id))
  {
    hide Inv, Top, Release, HasBytes, Content, NextHistory;
    HeadRow(db, h, q.ring);
    RowsStay(db, h, id, q, db.heads[q.ring]);
  }

  /** A row carried of an architecture the release kept: its parent's, or one that awaits its parent's render. */
  lemma KeptRow(db: Db, h: History, id: nat, q: Request, arch: Arch)
    requires Inv(db, h) && Shelved(db, h, q.ring, arch) && id !in db.rows && Scoped(q) && Release(db, id, q).Ok?
    requires q.ring in db.heads && arch in Unchanged(db, q) && HasBytes(db, q.ring, arch)
    ensures var after, h' := Release(db, id, q).value, NextHistory(db, h, Publishing(id, q));
            RowOk(after, h', q.ring, arch, Top(db, q.ring) + 1, Carried(db, q.ring, id, arch, true))
  {
    hide Inv, Top, Release, Content, Unchanged, ShelfOf, Nearest, HasBytes, Listed, NextHistory, Asked, SourceRefusal,
         BaseOf, Scoped;
    var ring, top := q.ring, Top(db, q.ring);
    var head := db.heads[ring];
    HeadRow(db, h, ring);
    NearestHead(db, head, arch);
    assert RowOk(db, h, ring, arch, top, ShelfAt(db, ring, arch, top));
    BytesStay(db, h, id, q, ring, arch);
    RowsStay(db, h, id, q, head);
    NewHead(db, h, id, q, ring);
    KeptContent(db, h, id, q, arch);
    if ShelfOf(db, head, arch).Awaiting? {
      var of := ShelfOf(db, head, arch).of;
      RowsStay(db, h, id, q, of);
      PlacedIn(db, h, of);
      PublishSel(db, h, q, id, ring, arch, db.rows[of].seqNo);
    }
  }

  lemma KeptContent(db: Db, h: History, id: nat, q: Request, arch: Arch)
    requires Inv(db, h) && id !in db.rows && Scoped(q) && Release(db, id, q).Ok? && arch in Unchanged(db, q)
    ensures var h', top := NextHistory(db, h, Publishing(id, q)), Top(db, q.ring);
            Content(h', q.ring, arch, top + 1) == Content(h, q.ring, arch, top) == Content(h', q.ring, arch, top)
  {
    hide Inv, Top, Content, Unchanged, BaseOf, Asked, Scoped, Publish, Target;
    UnchangedIs(db, h, q, arch);
    PublishSel(db, h, q, id, q.ring, arch, Top(db, q.ring));
    PublishSel(db, h, q, id, q.ring, arch, Top(db, q.ring) + 1);
  }

  lemma PublishRow(db: Db, h: History, id: nat, q: Request, ring: Ring, arch: Arch, s: nat)
    requires Inv(db, h) && id !in db.rows && Release(db, id, q).Ok?
    requires 1 <= s <= Top(db, ring) && RowOk(db, h, ring, arch, s, ShelfAt(db, ring, arch, s))
    ensures var after, h' := Release(db, id, q).value, NextHistory(db, h, Publishing(id, q));
            RowOk(after, h', ring, arch, s, ShelfAt(db, ring, arch, s))
  {
    hide Inv, Top, Release, Content, ShelfAt, HasBytes, Listed, NextHistory;
    var after, h' := Release(db, id, q).value, NextHistory(db, h, Publishing(id, q));
    PublishSel(db, h, q, id, ring, arch, s);
    var shelf := ShelfAt(db, ring, arch, s);
    if shelf != NoRows {
      BytesStay(db, h, id, q, ring, arch);
    }
    if shelf == Rendered {
      var t: nat :| s <= t <= Top(db, ring) && Content(h, ring, arch, t) == Listed(db, h, ring, arch);
      PublishSel(db, h, q, id, ring, arch, t);
      NewHead(db, h, id, q, ring);
      assert Again(after, h', ring, arch, s, Listed(after, h', ring, arch));
    } else if shelf.Awaiting? {
      RowsStay(db, h, id, q, shelf.of);
      PlacedIn(db, h, shelf.of);
      PublishSel(db, h, q, id, ring, arch, db.rows[shelf.of].seqNo);
    }
  }

  /**
   * A release keeps every ring's databases: its own row is what its parent's
   * allows, and every other row's release stands.
   */
  lemma PublishShelved(db: Db, h: History, id: nat, q: Request)
    requires Inv(db, h) && AllShelved(db, h) && id !in db.rows && Scoped(q) && Release(db, id, q).Ok?
    ensures AllShelved(Release(db, id, q).value, NextHistory(db, h, Publishing(id, q)))
  {
    hide Inv, Top, Release, RowOk, ShelfOf, NextHistory;
    var after, h' := Release(db, id, q).value, NextHistory(db, h, Publishing(id, q));
    forall ring, arch ensures Shelved(after, h', ring, arch) {
      assert Shelved(db, h, ring, arch) && Shelved(db, h, q.ring, arch);
      NewHead(db, h, id, q, ring);
      NewRow(db, h, id, q, arch);
      forall s: nat | 1 <= s <= Top(after, ring)
        ensures RowOk(after, h', ring, arch, s, ShelfAt(after, ring, arch, s))
      {
        if s <= Top(db, ring) {
          HasEvery(db, h, ring, s);
          NewShelves(db, h, id, q, db.bySeq[(ring, s)], arch);
          PublishRow(db, h, id, q, ring, arch, s);
        }
      }
    }
  }

  // ---------- a render ----------

  lemma {:induction false} KinRing(db: Db, h: History, of: nat, id: nat, depth: nat)
    requires Inv(db, h) && IsKin(db, of, id, depth)
    ensures of in db.rows && id in db.rows && db.rows[of].ring == db.rows[id].ring
            && db.rows[of].seqNo < db.rows[id].seqNo
    decreases depth
  {
    hide Inv, Top;
    ParentOfRing(db, h, id);
    if db.rows[id].parent.value != of {
      KinRing(db, h, of, db.rows[id].parent.value, depth - 1);
    }
  }

  /** What a database put for a release leaves of the other rings' and the other architecture's. */
  lemma PutElsewhere(db: Db, h: History, of: nat, a: Arch, ring: Ring, arch: Arch, s: nat)
    requires Inv(db, h) && AllShelved(db, h) && of in db.rows && 1 <= s <= Top(db, ring)
    requires ring != db.rows[of].ring || arch != a
    ensures ShelfAt(Put(db, of, a), ring, arch, s) == ShelfAt(db, ring, arch, s)
    ensures BytesOf(Put(db, of, a), ring, arch) == BytesOf(db, ring, arch)
  {
    hide Inv, Top, RowOk, ShelfOf, Put;
    HasEvery(db, h, ring, s);
    PutShelf(db, of, a, db.bySeq[(ring, s)], arch);
    PutBytes(db, of, a, ring, arch);
    PutTables(db, of, a, ring);
    if arch == a {
      PutOther(db, h, of, a, ring, s);
    }
  }

  lemma PutBytes(db: Db, of: nat, a: Arch, ring: Ring, arch: Arch)
    requires of in db.rows
    ensures BytesOf(Put(db, of, a), ring, arch) ==
              if ring == db.rows[of].ring && arch == a then Some(of) else BytesOf(db, ring, arch)
  {
  }

  lemma PutOther(db: Db, h: History, of: nat, arch: Arch, ring: Ring, s: nat)
    requires Inv(db, h) && AllShelved(db, h) && of in db.rows && 1 <= s <= Top(db, ring) && ring != db.rows[of].ring
             && HasRelease(db, ring, s)
    ensures ShelfPut(db, of, arch, db.bySeq[(ring, s)]) == ShelfAt(db, ring, arch, s)
  {
    hide Inv, Top, IsKin, Content;
    var id := db.bySeq[(ring, s)];
    assert Shelved(db, h, ring, arch) && RowOk(db, h, ring, arch, s, ShelfAt(db, ring, arch, s));
    if IsKin(db, of, id, KIN_DEPTH) {
      KinRing(db, h, of, id, KIN_DEPTH);
    }
    OwnWait(db, h, of, arch);
  }

  /** What a release's own row awaits is a release of its ring with its selection. */
  lemma OwnWait(db: Db, h: History, of: nat, arch: Arch)
    requires Inv(db, h) && AllShelved(db, h) && of in db.rows
    ensures Waited(db, of, arch).Some? ==>
              Waits(db, h, db.rows[of].ring, arch, db.rows[of].seqNo, Waited(db, of, arch).value)
  {
    hide Inv, Top, Content;
    PlacedIn(db, h, of);
    assert Shelved(db, h, db.rows[of].ring, arch);
    assert RowOk(db, h, db.rows[of].ring, arch, db.rows[of].seqNo,
                 ShelfAt(db, db.rows[of].ring, arch, db.rows[of].seqNo));
  }

  /** The rows of the ring a database is put for. */
  lemma PutRow(db: Db, h: History, of: nat, arch: Arch, s: nat)
    requires Inv(db, h) && AllShelved(db, h) && of in db.rows && InOrder(db, h, of, arch)
             && 1 <= s <= Top(db, db.rows[of].ring)
    ensures RowOk(Put(db, of, arch), h, db.rows[of].ring, arch, s,
                  ShelfAt(Put(db, of, arch), db.rows[of].ring, arch, s))
  {
    hide Inv, Top, IsKin, Content, Put, ShelfOf, InOrder;
    var ring, m := db.rows[of].ring, db.rows[of].seqNo;
    var after := Put(db, of, arch);
    HasEvery(db, h, ring, s);
    PutShelf(db, of, arch, db.bySeq[(ring, s)], arch);
    PutBytes(db, of, arch, ring, arch);
    PutTables(db, of, arch, ring);
    OwnWait(db, h, of, arch);
    PlacedIn(db, h, of);
    assert Shelved(db, h, ring, arch) && RowOk(db, h, ring, arch, s, ShelfAt(db, ring, arch, s));
    assert Listed(after, h, ring, arch) == Content(h, ring, arch, m);
    if ShelfAt(after, ring, arch, s) == Rendered {
      PutAgain(db, h, of, arch, s);
    }
  }

  lemma PutTables(db: Db, of: nat, arch: Arch, ring: Ring)
    requires of in db.rows
    ensures var after := Put(db, of, arch);
            after.rows == db.rows && after.bySeq == db.bySeq && after.heads == db.heads
            && Top(after, ring) == Top(db, ring)
  {
  }

  /** Where a put leaves a row rendered, a release from there on lists what was put. */
  lemma PutAgain(db: Db, h: History, of: nat, arch: Arch, s: nat)
    requires Inv(db, h) && of in db.rows && InOrder(db, h, of, arch)
    requires var ring := db.rows[of].ring;
             && 1 <= s <= Top(db, ring) && HasRelease(db, ring, s)
                && RowOk(db, h, ring, arch, s, ShelfAt(db, ring, arch, s))
             && ShelfPut(db, of, arch, db.bySeq[(ring, s)]) == Rendered
    requires Waited(db, of, arch).Some? ==>
               Waits(db, h, db.rows[of].ring, arch, db.rows[of].seqNo, Waited(db, of, arch).value)
    ensures Again(Put(db, of, arch), h, db.rows[of].ring, arch, s,
                  Content(h, db.rows[of].ring, arch, db.rows[of].seqNo))
  {
    hide Inv, Top, IsKin, Content, Put;
    var ring, m := db.rows[of].ring, db.rows[of].seqNo;
    PutTables(db, of, arch, ring);
    PlacedIn(db, h, of);
    if s <= m {
      assert Content(h, ring, arch, m) == Content(h, ring, arch, m) && s <= m <= Top(db, ring);
    } else if ShelfAt(db, ring, arch, s).Awaiting? {
      assert Content(h, ring, arch, s) == Content(h, ring, arch, m) && s <= s <= Top(db, ring);
    } else {
      assert Marked(db, of, ring, arch, s);
      var q: nat :| s <= q <= Top(db, ring) && Content(h, ring, arch, q) == Content(h, ring, arch, m);
    }
  }

  /** A render that lands in order keeps every ring's databases. */
  lemma PutShelved(db: Db, h: History, of: nat, arch: Arch)
    requires Inv(db, h) && AllShelved(db, h) && of in db.rows && InOrder(db, h, of, arch)
    ensures AllShelved(Put(db, of, arch), h)
  {
    hide Inv, Top, RowOk, ShelfOf, Put, ShelfAt, InOrder;
    var after := Put(db, of, arch);
    forall ring, a ensures Shelved(after, h, ring, a) {
      assert Shelved(db, h, ring, a);
      PutTables(db, of, arch, ring);
      forall s: nat | 1 <= s <= Top(after, ring) ensures RowOk(after, h, ring, a, s, ShelfAt(after, ring, a, s)) {
        if ring == db.rows[of].ring && a == arch {
          PutRow(db, h, of, arch, s);
        } else {
          PutElsewhere(db, h, of, arch, ring, a, s);
          PutRowElsewhere(db, h, of, arch, ring, a, s);
        }
      }
    }
  }

  lemma PutRowElsewhere(db: Db, h: History, of: nat, a: Arch, ring: Ring, arch: Arch, s: nat)
    requires of in db.rows && RowOk(db, h, ring, arch, s, ShelfAt(db, ring, arch, s))
    requires BytesOf(Put(db, of, a), ring, arch) == BytesOf(db, ring, arch)
    ensures RowOk(Put(db, of, a), h, ring, arch, s, ShelfAt(db, ring, arch, s))
  {
    hide Top, ShelfAt, Put, BytesOf, Content;
    PutTables(db, of, a, ring);
  }

  // ---------- whole runs ----------

  lemma ShelvedStep(db: Db, h: History, step: Step, keep: nat)
    requires Inv(db, h) && AllShelved(db, h) && Allowed(db, step, keep) && TakesTurn(db, h, step)
    ensures AllShelved(Next(db, step), NextHistory(db, h, step))
  {
    hide Inv, AllShelved, Release, Checkpointed, Collect, Put, Finished, Gone, Published, InOrder, Scoped, Settled,
         Outside;
    match step
    case Upload(p) => UploadSettles(db, h, p); SettledKeeps(db, h, Next(db, step), h);
    case Publishing(id, q) => if Release(db, id, q).Ok? { PublishShelved(db, h, id, q); }
    case Reading(id) => ReadSettles(db, h, id); SettledKeeps(db, h, Next(db, step), h);
    case Putting(id, arch) => if id in db.rows { PutShelved(db, h, id, arch); }
    case Finishing(id, arch) => FinishSettles(db, h, id, arch); SettledKeeps(db, h, Next(db, step), h);
    case Collecting(k, victims) => CollectSettles(db, h, k, victims);
    SettledKeeps(db, h, Next(db, step), Gone(db, h, k));
  }

  /** On every run whose renders land in order, each ring's database is one its rows vouch for. */
  lemma {:induction false} RunShelved(steps: seq<Step>, keep: nat)
    requires keep >= 1 && Run(steps, keep).Some? && InTurn(steps, keep)
    ensures AllShelved(Run(steps, keep).value.0, Run(steps, keep).value.1)
    decreases |steps|
  {
    hide Inv, Next, NextHistory, Allowed, TakesTurn, AllShelved;
    if steps == [] {
      NothingShelved();
    } else {
      RunShelved(steps[..|steps| - 1], keep);
      RunKeeps(steps[..|steps| - 1], keep);
      var (db, h) := Run(steps[..|steps| - 1], keep).value;
      ShelvedStep(db, h, steps[|steps| - 1], keep);
    }
  }

  lemma NothingShelved()
    ensures AllShelved(EMPTY, History(map[], map[], map[]))
  {
  }

  // ---------- what the ring's users are served ----------

  /** A head's database of an architecture was rendered within the reach retention looks back. */
  predicate Within(db: Db, ring: Ring, arch: Arch) {
    || Top(db, ring) <= CARRY_REACH
    || !ShelfAt(db, ring, arch, Top(db, ring)).Awaiting?
    || RenderedFrom(db, ring, arch, Top(db, ring) - 1, LookBack(Top(db, ring))).Some?
  }

  /** The database a ring serves lists what a release between its retention's reach and its head selects. */
  ghost predicate Current(db: Db, h: History, ring: Ring, arch: Arch) {
    HasBytes(db, ring, arch) && Again(db, h, ring, arch, Reach(db, ring, arch), Listed(db, h, ring, arch))
  }

  lemma {:induction false} RenderedHere(db: Db, ring: Ring, arch: Arch, s: nat, least: nat)
    ensures RenderedFrom(db, ring, arch, s, least).Some? ==>
              RenderedAt(db, ring, arch, RenderedFrom(db, ring, arch, s, least).value)
    decreases s
  {
    if s > 0 { RenderedHere(db, ring, arch, s - 1, least); }
  }

  /** Where a head has rows of an architecture, its ring's database is current. */
  lemma ShelvedCurrent(db: Db, h: History, ring: Ring, arch: Arch)
    requires Inv(db, h) && Shelved(db, h, ring, arch) && ring in db.heads && ShelfOf(db, db.heads[ring], arch) != NoRows
    requires Within(db, ring, arch)
    ensures Current(db, h, ring, arch)
  {
    hide Inv, Top, Reach, Again, RenderedFrom, ShelfOf, Content;
    var top := Top(db, ring);
    HeadRow(db, h, ring);
    ReachIs(db, ring, arch);
    var head := ShelfAt(db, ring, arch, top);
    assert RowOk(db, h, ring, arch, top, head);
    if head.Awaiting? {
      RenderedHere(db, ring, arch, top - 1, LookBack(top));
      RenderedFromBounds(db, ring, arch, top - 1, LookBack(top));
      var r := RenderedFrom(db, ring, arch, top - 1, LookBack(top));
      if r.Some? {
        assert RowOk(db, h, ring, arch, r.value, ShelfAt(db, ring, arch, r.value));
      } else {
        PutWithin(db, h, ring, arch);
      }
    }
  }

  /** The release whose render was put last is one of the ring's. */
  lemma PutWithin(db: Db, h: History, ring: Ring, arch: Arch)
    requires Inv(db, h) && HasBytes(db, ring, arch)
    ensures Again(db, h, ring, arch, 1, Listed(db, h, ring, arch))
  {
    hide Inv, Top;
    var b := BytesOf(db, ring, arch).value;
    PlacedIn(db, h, b);
    assert Content(h, ring, arch, db.rows[b].seqNo) == Listed(db, h, ring, arch);
  }

  /** A package of a release from the reach on is stored. */
  lemma CurrentStored(db: Db, h: History, keep: nat, ring: Ring, arch: Arch)
    requires Inv(db, h) && Guarded(db, h, keep) && keep >= 1 && ring in db.heads && Current(db, h, ring, arch)
    ensures Listed(db, h, ring, arch) <= db.packages
  {
    hide Inv, Oldest, Top, Reach, Floor, Sel, HasBytes;
    HeadRow(db, h, ring);
    ReachBounds(db, ring, arch);
    OldestByReach(db, ring, keep);
    var q: nat :| Reach(db, ring, arch) <= q <= Top(db, ring) && Content(h, ring, arch, q) == Listed(db, h, ring, arch);
    StoredFrom(db, h, ring, q);
  }

  /** Every release from the reach of a head's databases on is stored whole. */
  lemma DatabasesStored(steps: seq<Step>, keep: nat, ring: Ring, arch: Arch, s: nat)
    requires keep >= 1 && Run(steps, keep).Some? && Gapless(steps, keep)
    requires var db := Run(steps, keep).value.0; ring in db.heads && Reach(db, ring, arch) <= s <= Top(db, ring)
    ensures var (db, h) := Run(steps, keep).value; Sel(h, ring, s) <= db.packages
  {
    hide Inv, Oldest, Run, Gapless, Reach, Floor;
    var (db, h) := Run(steps, keep).value;
    RunGuards(steps, keep);
    HeadTop(db, h, ring);
    ReachBounds(db, ring, arch);
    OldestByReach(db, ring, keep);
    StoredFrom(db, h, ring, s);
  }

  /**
   * What a ring serves is stored. On every run whose renders land in order and
   * whose releases carry no rows their parent had lost, the database a head
   * has rows of lists, of whichever release it was rendered for, what some
   * release within retention's reach selects, and every package it lists is in
   * the store.
   */
  lemma ServedStored(steps: seq<Step>, keep: nat, ring: Ring, arch: Arch)
    requires keep >= 1 && Run(steps, keep).Some? && Gapless(steps, keep) && InTurn(steps, keep)
    requires var db := Run(steps, keep).value.0;
    ring in db.heads && ShelfOf(db, db.heads[ring], arch) != NoRows && Within(db, ring, arch)
    ensures var (db, h) := Run(steps, keep).value;
            Current(db, h, ring, arch) && Listed(db, h, ring, arch) <= db.packages
  {
    hide Inv, Oldest, Run, Gapless, InTurn, Within, Current, ShelfOf, Shelved, Listed;
    var (db, h) := Run(steps, keep).value;
    RunGuards(steps, keep);
    RunShelved(steps, keep);
    ShelvedCurrent(db, h, ring, arch);
    CurrentStored(db, h, keep, ring, arch);
  }

  /** A later rendered release bounds the reach. */
  lemma {:induction false} RenderedFound(db: Db, ring: Ring, arch: Arch, t: nat, s: nat, least: nat)
    requires 1 <= t <= s && least <= t && RenderedAt(db, ring, arch, t)
    ensures RenderedFrom(db, ring, arch, s, least).Some? && RenderedFrom(db, ring, arch, s, least).value >= t
    decreases s
  {
    if s > t { RenderedFound(db, ring, arch, t, s - 1, least); }
  }

  lemma ReachAtLeast(db: Db, ring: Ring, arch: Arch, t: nat)
    requires ring in db.heads && 1 <= t < Top(db, ring) && RenderedAt(db, ring, arch, t)
    ensures t <= Reach(db, ring, arch)
  {
    hide Top, RenderedFrom;
    var top := Top(db, ring);
    ReachIs(db, ring, arch);
    RenderedFromBounds(db, ring, arch, top - 1, LookBack(top));
    if LookBack(top) <= t {
      RenderedFound(db, ring, arch, t, top - 1, LookBack(top));
    }
  }

  /** The index once a database is put for a release and the ring's next release is made. */
  function PutThen(db: Db, of: nat, arch: Arch, id: nat, q: Request): Result<Db, Refusal>
    requires of in db.rows
  {
    Release(Put(db, of, arch), id, q)
  }

  /**
   * Order decides. After any run whose renders landed in order, a render is
   * put for a release and the ring's next release then changes the
   * architecture: the database it goes on serving is current if and only if
   * that render landed in order. It fails for no other reason.
   */
  lemma OrderDecides(steps: seq<Step>, keep: nat, of: nat, arch: Arch, id: nat, q: Request)
    requires keep >= 1 && Run(steps, keep).Some? && InTurn(steps, keep)
    requires var (db, h) := Run(steps, keep).value;
             && of in db.rows && id !in db.rows && Scoped(q) && q.ring == db.rows[of].ring
             && PutThen(db, of, arch, id, q).Ok?
             && Changes(db, h, of, arch, id, q)
             && Within(PutThen(db, of, arch, id, q).value, q.ring, arch)
    ensures var (db, h) := Run(steps, keep).value;
            var put := Put(db, of, arch);
            Current(PutThen(db, of, arch, id, q).value, NextHistory(put, h, Publishing(id, q)), q.ring, arch)
            <==> InOrder(db, h, of, arch)
  {
    hide Inv, Run, InTurn, InOrder, Within, Current, Changes, AllShelved;
    RunKeeps(steps, keep);
    RunShelved(steps, keep);
    var (db, h) := Run(steps, keep).value;
    if InOrder(db, h, of, arch) {
      OrderServes(db, h, of, arch, id, q);
    } else {
      DisorderLoses(db, h, of, arch, id, q);
    }
  }

  /** The next release carries the database of an architecture it changed. */
  predicate Changes(db: Db, h: History, of: nat, arch: Arch, id: nat, q: Request)
    requires of in db.rows
  {
    var put := Put(db, of, arch);
    && q.ring in put.heads
    && ShelfOf(put, put.heads[q.ring], arch) != NoRows
    && arch !in Unchanged(put, q)
    && Cut(Asked(put, q), arch) != Content(h, db.rows[of].ring, arch, db.rows[of].seqNo)
  }

  lemma PutInv(db: Db, h: History, of: nat, arch: Arch)
    requires Inv(db, h) && of in db.rows
    ensures Inv(Put(db, of, arch), h)
  {
    hide Inv;
    RenderKeeps(db, h, Put(db, of, arch).shelves, Put(db, of, arch).bytes);
  }

  /** The changed release's own row awaits its render. */
  lemma ChangedRow(db: Db, h: History, of: nat, arch: Arch, id: nat, q: Request)
    requires Inv(db, h) && of in db.rows && id !in db.rows && PutThen(db, of, arch, id, q).Ok?
             && Changes(db, h, of, arch, id, q)
    ensures var after, h' := PutThen(db, of, arch, id, q).value, NextHistory(Put(db, of, arch), h, Publishing(id, q));
            && Inv(after, h') && q.ring in after.heads && after.heads[q.ring] == id
               && Top(after, q.ring) == Top(db, q.ring) + 1
            && ShelfOf(after, id, arch) == Awaiting(id)
            && Content(h', q.ring, arch, Top(db, q.ring) + 1) == Cut(Asked(Put(db, of, arch), q), arch)
            && forall s: nat | s <= Top(db, q.ring) :: Content(h', q.ring, arch, s) == Content(h, q.ring, arch, s)
  {
    hide Inv, Top, Put, Release, Content, Nearest, Unchanged, ShelfOf, Asked, Published;
    var put := Put(db, of, arch);
    PutInv(db, h, of, arch);
    PutTables(db, of, arch, q.ring);
    ReleaseKeeps(put, h, id, q);
    NewHead(put, h, id, q, q.ring);
    NewShelves(put, h, id, q, id, arch);
    NearestHead(put, put.heads[q.ring], arch);
    forall s: nat | s <= Top(db, q.ring) + 1
      ensures Content(NextHistory(put, h, Publishing(id, q)), q.ring, arch, s)
           == if s == Top(db, q.ring) + 1 then Cut(Asked(put, q), arch) else Content(h, q.ring, arch, s)
    {
      PublishSel(put, h, q, id, q.ring, arch, s);
    }
  }

  lemma OrderServes(db: Db, h: History, of: nat, arch: Arch, id: nat, q: Request)
    requires Inv(db, h) && AllShelved(db, h) && of in db.rows && id !in db.rows && Scoped(q)
             && PutThen(db, of, arch, id, q).Ok?
    requires Changes(db, h, of, arch, id, q) && Within(PutThen(db, of, arch, id, q).value, q.ring, arch)
             && InOrder(db, h, of, arch)
    ensures Current(PutThen(db, of, arch, id, q).value, NextHistory(Put(db, of, arch), h, Publishing(id, q)), q.ring,
                    arch)
  {
    hide Inv, Put, Release, InOrder, Within, Current, Changes, Shelved, Scoped, NextHistory;
    PutShelved(db, h, of, arch);
    PutInv(db, h, of, arch);
    PutTables(db, of, arch, q.ring);
    PublishShelved(Put(db, of, arch), h, id, q);
    ChangedRow(db, h, of, arch, id, q);
    ShelvedCurrent(PutThen(db, of, arch, id, q).value, NextHistory(Put(db, of, arch), h, Publishing(id, q)), q.ring,
                   arch);
  }

  /** What the next release's ring serves is the late render, by the same name. */
  lemma LateListed(db: Db, h: History, of: nat, arch: Arch, id: nat, q: Request)
    requires Inv(db, h) && of in db.rows && id !in db.rows && q.ring == db.rows[of].ring
             && PutThen(db, of, arch, id, q).Ok?
    ensures var after, h' := PutThen(db, of, arch, id, q).value, NextHistory(Put(db, of, arch), h, Publishing(id, q));
            HasBytes(after, q.ring, arch)
            && Listed(after, h', q.ring, arch) == Content(h, q.ring, arch, db.rows[of].seqNo)
  {
    hide Inv, Put, Release, Content, NextHistory;
    PutInv(db, h, of, arch);
    PutTables(db, of, arch, q.ring);
    PutBytes(db, of, arch, q.ring, arch);
    BytesStay(Put(db, of, arch), h, id, q, q.ring, arch);
  }

  /** A later row marked rendered stays so under the late render and the release after it. */
  lemma MarkedReach(db: Db, h: History, of: nat, arch: Arch, id: nat, q: Request, t: nat)
    requires Inv(db, h) && of in db.rows && id !in db.rows && q.ring == db.rows[of].ring
             && PutThen(db, of, arch, id, q).Ok?
    requires db.rows[of].seqNo < t <= Top(db, q.ring) && Marked(db, of, q.ring, arch, t)
    requires var after := PutThen(db, of, arch, id, q).value;
    q.ring in after.heads && Top(after, q.ring) == Top(db, q.ring) + 1
    ensures t <= Reach(PutThen(db, of, arch, id, q).value, q.ring, arch)
  {
    hide Inv, Put, Release, IsKin, ShelfOf, Top, Reach;
    var put, after := Put(db, of, arch), PutThen(db, of, arch, id, q).value;
    HasEvery(db, h, q.ring, t);
    PutInv(db, h, of, arch);
    PutTables(db, of, arch, q.ring);
    PutShelf(db, of, arch, db.bySeq[(q.ring, t)], arch);
    NewHead(put, h, id, q, q.ring);
    NewShelves(put, h, id, q, db.bySeq[(q.ring, t)], arch);
    ReachAtLeast(after, q.ring, arch, t);
  }

  lemma DisorderLoses(db: Db, h: History, of: nat, arch: Arch, id: nat, q: Request)
    requires Inv(db, h) && of in db.rows && id !in db.rows && q.ring == db.rows[of].ring
             && PutThen(db, of, arch, id, q).Ok?
    requires Changes(db, h, of, arch, id, q) && !InOrder(db, h, of, arch)
    ensures !Current(PutThen(db, of, arch, id, q).value, NextHistory(Put(db, of, arch), h, Publishing(id, q)), q.ring,
                     arch)
  {
    hide Inv, Put, Release, Content, NextHistory, Marked, Reach, Top, HasBytes, Listed, ShelfOf, Unchanged, Asked;
    var ring, m := q.ring, db.rows[of].seqNo;
    var after, h' := PutThen(db, of, arch, id, q).value, NextHistory(Put(db, of, arch), h, Publishing(id, q));
    var t: nat :| m < t <= Top(db, ring) && Marked(db, of, ring, arch, t)
    && !Again(db, h, ring, arch, t, Content(h, ring, arch, m));
    ChangedRow(db, h, of, arch, id, q);
    LateListed(db, h, of, arch, id, q);
    MarkedReach(db, h, of, arch, id, q, t);
    forall s: nat | t <= s <= Top(after, ring) ensures Content(h', ring, arch, s) != Content(h, ring, arch, m) {
      if s <= Top(db, ring) {
        assert Content(h', ring, arch, s) == Content(h, ring, arch, s);
        assert Content(h, ring, arch, s) == Content(h, ring, arch, m) ==>
                 Again(db, h, ring, arch, t, Content(h, ring, arch, m));
      }
    }
  }
}
