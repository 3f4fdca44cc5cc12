/**
 * What the index reads along a chain of releases (worker/src/db.ts,
 * worker/src/routes/releases.ts): how far back a release is rebuilt from, whose
 * databases one carries, whose rows a render makes current, what retention
 * protects and which release is a checkpoint — each from the rows alone, if and
 * only if.
 */
module ReleaseChains {
  import opened Wrappers
  import opened ReleaseLog
  import opened ReleaseSafety

  /** A release's nth ancestor: itself, its parent, and so on while they are there. */
  function Up(db: Db, id: nat, n: nat): Option<nat>
    decreases n
  {
    if n == 0 then Some(id)
    else if id in db.rows && db.rows[id].parent.Some? then Up(db, db.rows[id].parent.value, n - 1)
    else None
  }

  /** The nth ancestor is there, and a checkpoint. */
  predicate IsFlagged(db: Db, id: nat, n: nat) {
    Up(db, id, n).Some? && Up(db, id, n).value in db.rows && db.rows[Up(db, id, n).value].checkpoint
  }

  // ---------- how far back a release is rebuilt from ----------

  /** The nearest checkpoint stands n releases behind. */
  ghost predicate NearestAt(db: Db, id: nat, n: nat) {
    IsFlagged(db, id, n) && forall m: nat | m < n :: !IsFlagged(db, id, m)
  }

  lemma UpNext(db: Db, id: nat, n: nat)
    requires id in db.rows && db.rows[id].parent.Some?
    ensures Up(db, id, n + 1) == Up(db, db.rows[id].parent.value, n)
    ensures IsFlagged(db, id, n + 1) == IsFlagged(db, db.rows[id].parent.value, n)
  {
  }

  lemma NearestNext(db: Db, id: nat, n: nat)
    requires id in db.rows && db.rows[id].parent.Some? && !db.rows[id].checkpoint
    ensures NearestAt(db, id, n + 1) <==> NearestAt(db, db.rows[id].parent.value, n)
  {
    hide IsFlagged;
    var p := db.rows[id].parent.value;
    forall m: nat ensures IsFlagged(db, id, m + 1) == IsFlagged(db, p, m) {
      UpNext(db, id, m);
    }
    assert !IsFlagged(db, id, 0) by { NotFlagged(db, id); }
    if NearestAt(db, p, n) {
      forall m: nat | m < n + 1 ensures !IsFlagged(db, id, m) {
        if m > 0 { assert IsFlagged(db, id, m) == IsFlagged(db, p, m - 1); }
      }
    }
    if NearestAt(db, id, n + 1) {
      forall m: nat | m < n ensures !IsFlagged(db, p, m) {
        assert IsFlagged(db, id, m + 1) == IsFlagged(db, p, m);
      }
    }
  }

  lemma NotFlagged(db: Db, id: nat)
    requires id in db.rows && !db.rows[id].checkpoint
    ensures !IsFlagged(db, id, 0)
  {
  }

  /** A release is rebuilt exactly when a checkpoint stands within 95 releases behind it: a chain of at most 96. */
  lemma {:induction false} RebuildsExactly(db: Db, id: nat, hops: nat)
    requires id in db.rows && 1 <= hops <= 96
    ensures Rebuild(db, id, hops).Ok? <==> exists n: nat :: n <= 96 - hops && NearestAt(db, id, n)
    decreases 96 - hops
  {
    hide IsFlagged, NearestAt;
    FlaggedHere(db, id);
    if !db.rows[id].checkpoint && db.rows[id].parent.Some? {
      var p := db.rows[id].parent.value;
      forall n: nat ensures NearestAt(db, id, n + 1) <==> NearestAt(db, p, n) {
        NearestNext(db, id, n);
      }
      if p in db.rows {
        if hops < 96 {
          RebuildsExactly(db, p, hops + 1);
          ExistsNext(db, id, p, 96 - hops);
        }
      } else {
        NothingBehind(db, id);
      }
    } else if !db.rows[id].checkpoint {
      NothingBehind(db, id);
    }
  }

  lemma FlaggedHere(db: Db, id: nat)
    requires id in db.rows
    ensures NearestAt(db, id, 0) <==> db.rows[id].checkpoint
    ensures db.rows[id].checkpoint ==> Rebuild(db, id, 1).Ok?
  {
  }

  lemma NothingBehind(db: Db, id: nat)
    requires id in db.rows && !db.rows[id].checkpoint
    requires db.rows[id].parent.None? || db.rows[id].parent.value !in db.rows
    ensures forall n: nat :: !NearestAt(db, id, n)
  {
    forall n: nat | n > 0 ensures !IsFlagged(db, id, n) {
      if db.rows[id].parent.Some? {
        assert Up(db, id, n) == Up(db, db.rows[id].parent.value, n - 1);
      }
    }
  }

  lemma ExistsNext(db: Db, id: nat, p: nat, most: nat)
    requires most >= 1 && !NearestAt(db, id, 0)
    requires forall n: nat :: NearestAt(db, id, n + 1) <==> NearestAt(db, p, n)
    ensures (exists n: nat :: n <= most - 1 && NearestAt(db, p, n))
            <==> exists n: nat :: n <= most && NearestAt(db, id, n)
  {
    hide NearestAt;
    if n: nat :| n <= most - 1 && NearestAt(db, p, n) {
      assert NearestAt(db, id, n + 1);
    }
    if n: nat :| n <= most && NearestAt(db, id, n) {
      assert n > 0;
      assert NearestAt(db, id, (n - 1) + 1);
      assert NearestAt(db, p, n - 1);
    }
  }

  // ---------- whose databases a release carries ----------

  /** A release without rows of an architecture, that has packages of it as far as is known. */
  predicate Bare(db: Db, id: nat, arch: Arch) {
    ShelfOf(db, id, arch) == NoRows && (id in db.sources ==> arch in db.sources[id])
  }

  predicate BareAt(db: Db, id: nat, arch: Arch, n: nat) {
    Up(db, id, n).Some? && Bare(db, Up(db, id, n).value, arch)
  }

  /** The nth ancestor is the first with rows of the architecture, and every nearer one could have had some. */
  ghost predicate RowsAt(db: Db, id: nat, arch: Arch, n: nat) {
    && Up(db, id, n).Some? && ShelfOf(db, Up(db, id, n).value, arch) != NoRows
    && forall m: nat | m < n :: BareAt(db, id, arch, m)
  }

  lemma RowsNext(db: Db, id: nat, arch: Arch, n: nat)
    requires id in db.rows && db.rows[id].parent.Some? && Bare(db, id, arch)
    ensures RowsAt(db, id, arch, n + 1) <==> RowsAt(db, db.rows[id].parent.value, arch, n)
  {
    hide Bare;
    var p := db.rows[id].parent.value;
    forall m: nat ensures BareAt(db, id, arch, m + 1) == BareAt(db, p, arch, m) {
    }
    assert BareAt(db, id, arch, 0);
    if RowsAt(db, p, arch, n) {
      forall m: nat | m < n + 1 ensures BareAt(db, id, arch, m) {
        if m > 0 { assert BareAt(db, id, arch, (m - 1) + 1) == BareAt(db, p, arch, m - 1); }
      }
    }
    if RowsAt(db, id, arch, n + 1) {
      forall m: nat | m < n ensures BareAt(db, p, arch, m) {
        assert BareAt(db, id, arch, m + 1);
      }
    }
  }

  /** Rows are looked for along an ancestor and the twelve before it, no further. */
  lemma {:induction false} NearestExactly(db: Db, id: nat, arch: Arch, depth: nat)
    requires depth <= 12
    ensures match Nearest(db, id, arch, depth)
            case Some((shelf, d)) => depth <= d <= 12 && RowsAt(db, id, arch, d - depth)
                                     && shelf == ShelfOf(db, Up(db, id, d - depth).value, arch)
            case None => forall n: nat | n <= 12 - depth :: !RowsAt(db, id, arch, n)
    decreases 12 - depth
  {
    hide RowsAt;
    RowsHere(db, id, arch);
    if Bare(db, id, arch) && id in db.rows && db.rows[id].parent.Some? {
      var p := db.rows[id].parent.value;
      forall n: nat ensures RowsAt(db, id, arch, n + 1) <==> RowsAt(db, p, arch, n) {
        RowsNext(db, id, arch, n);
      }
      if depth < 12 {
        NearestExactly(db, p, arch, depth + 1);
        if Nearest(db, p, arch, depth + 1).None? {
          forall n: nat | n <= 12 - depth ensures !RowsAt(db, id, arch, n) {
            if n > 0 { assert RowsAt(db, id, arch, (n - 1) + 1) == RowsAt(db, p, arch, n - 1); }
          }
        } else {
          var d := Nearest(db, p, arch, depth + 1).value.1;
          assert RowsAt(db, id, arch, (d - depth - 1) + 1);
        }
      }
    } else {
      RowsEnd(db, id, arch);
    }
  }

  lemma RowsHere(db: Db, id: nat, arch: Arch)
    ensures RowsAt(db, id, arch, 0) <==> ShelfOf(db, id, arch) != NoRows
  {
  }

  lemma RowsEnd(db: Db, id: nat, arch: Arch)
    requires !(Bare(db, id, arch) && id in db.rows && db.rows[id].parent.Some?)
    ensures forall n: nat | n > 0 :: !RowsAt(db, id, arch, n)
  {
    forall n: nat | n > 0 ensures !RowsAt(db, id, arch, n) {
      assert RowsAt(db, id, arch, n) ==> BareAt(db, id, arch, 0);
    }
  }

  /**
   * What a new release carries: the rows of the nearest ancestor with any, its
   * parent and the twelve before it; awaiting its own render where it changed the
   * architecture, else as its parent's row stands, or awaiting its parent's.
   */
  lemma CarriedExactly(db: Db, parent: Option<nat>, id: nat, arch: Arch, kept: bool)
    ensures var shelf := CarriedFrom(db, parent, id, arch, kept);
            if parent.None? || (forall n: nat | n <= 12 :: !RowsAt(db, parent.value, arch, n)) then shelf == NoRows
            else if !kept then shelf == Awaiting(id)
            else if RowsAt(db, parent.value, arch, 0) then shelf == ShelfOf(db, parent.value, arch)
            else shelf == Awaiting(parent.value)
  {
    hide RowsAt;
    if parent.Some? {
      NearestExactly(db, parent.value, arch, 0);
      RowsHere(db, parent.value, arch);
      if Nearest(db, parent.value, arch, 0).Some? {
        NearestZero(db, parent.value, arch);
      }
    }
  }

  lemma NearestZero(db: Db, id: nat, arch: Arch)
    requires Nearest(db, id, arch, 0).Some?
    ensures Nearest(db, id, arch, 0).value.1 == 0 <==> ShelfOf(db, id, arch) != NoRows
  {
    if ShelfOf(db, id, arch) == NoRows && id in db.rows && db.rows[id].parent.Some? {
      NearestExactly(db, db.rows[id].parent.value, arch, 1);
    }
  }

  // ---------- whose rows a render makes current ----------

  /** The release is one of another's nearest descendants: a child, a grandchild, as far as `depth`. */
  ghost predicate Descends(db: Db, of: nat, id: nat, depth: nat) {
    exists n: nat :: 1 <= n <= depth && Up(db, id, n) == Some(of)
  }

  lemma {:induction false} KinExactly(db: Db, of: nat, id: nat, depth: nat)
    ensures IsKin(db, of, id, depth) <==> Descends(db, of, id, depth)
    decreases depth
  {
    if depth > 0 && id in db.rows && db.rows[id].parent.Some? {
      KinExactly(db, of, db.rows[id].parent.value, depth - 1);
      DescendsNext(db, of, id, depth);
    }
  }

  lemma DescendsNext(db: Db, of: nat, id: nat, depth: nat)
    requires depth > 0 && id in db.rows && db.rows[id].parent.Some?
    ensures var p := db.rows[id].parent.value;
            Descends(db, of, id, depth) <==> p == of || Descends(db, of, p, depth - 1)
  {
    var p := db.rows[id].parent.value;
    var one: nat := 1;
    forall n: nat | n >= 1 ensures Up(db, id, n) == Up(db, p, n - 1) {
    }
    assert Up(db, id, one) == Some(p);
    if n: nat :| 1 <= n <= depth && Up(db, id, n) == Some(of) {
      if n > 1 {
        var m: nat := n - 1;
        assert 1 <= m <= depth - 1 && Up(db, p, m) == Some(of);
      }
    }
    if n: nat :| 1 <= n <= depth - 1 && Up(db, p, n) == Some(of) {
      var m: nat := n + 1;
      assert 1 <= m <= depth && Up(db, id, m) == Some(of);
    }
  }

  /** A row that waits for a release's render, or for the one that release's own row waits for. */
  predicate WaitsWith(db: Db, of: nat, arch: Arch, id: nat) {
    var shelf, own := ShelfOf(db, id, arch), ShelfOf(db, of, arch);
    shelf.Awaiting? && (shelf.of == of || (own.Awaiting? && own.of == shelf.of))
  }

  /**
   * A database put for a release makes its own row current, those of its children,
   * grandchildren and great-grandchildren that had none, and those that waited
   * for it; it touches no other row and no other architecture, and is what its
   * ring then serves.
   */
  lemma PutExactly(db: Db, of: nat, arch: Arch, id: nat)
    requires of in db.rows && id in db.rows
    ensures var after := Put(db, of, arch);
            && ShelfOf(after, id, arch) ==
                 (if || id == of || WaitsWith(db, of, arch, id)
                     || (ShelfOf(db, id, arch) == NoRows && Descends(db, of, id, 3))
                  then Rendered else ShelfOf(db, id, arch))
            && (forall a | a != arch :: ShelfOf(after, id, a) == ShelfOf(db, id, a))
            && BytesOf(after, db.rows[of].ring, arch) == Some(of)
            && forall ring, a | ring != db.rows[of].ring || a != arch :: BytesOf(after, ring, a) == BytesOf(db, ring, a)
  {
    hide IsKin, Descends, ShelfPut;
    RowExactly(db, of, arch, id);
    PutShelf(db, of, arch, id);
    PutBytes(db, of, arch);
  }

  lemma RowExactly(db: Db, of: nat, arch: Arch, id: nat)
    ensures ShelfPut(db, of, arch, id) ==
              (if || id == of
                  || (ShelfOf(db, id, arch) == NoRows && Descends(db, of, id, 3))
                  || WaitsWith(db, of, arch, id)
               then Rendered else ShelfOf(db, id, arch))
  {
    hide IsKin, Descends;
    KinExactly(db, of, id, 3);
  }

  lemma PutShelf(db: Db, of: nat, arch: Arch, id: nat)
    requires of in db.rows && id in db.rows
    ensures var after := Put(db, of, arch);
            && ShelfOf(after, id, arch) == ShelfPut(db, of, arch, id)
            && forall a | a != arch :: ShelfOf(after, id, a) == ShelfOf(db, id, a)
  {
    hide ShelfPut;
  }

  lemma PutBytes(db: Db, of: nat, arch: Arch)
    requires of in db.rows
    ensures var after := Put(db, of, arch);
            && BytesOf(after, db.rows[of].ring, arch) == Some(of)
            && forall ring, a | ring != db.rows[of].ring || a != arch :: BytesOf(after, ring, a) == BytesOf(db, ring, a)
  {
    hide ShelfPut;
  }

  /** Once its whole render is in, its own row still waiting is dropped, and so are those that waited with it. */
  lemma FinishedExactly(db: Db, of: nat, arch: Arch, id: nat)
    requires id in db.rows
    ensures var after := Finished(db, of, arch);
            && ShelfOf(after, id, arch) ==
                 (if ShelfOf(db, id, arch).Awaiting? && (id == of || WaitsWith(db, of, arch, id)) then NoRows
                  else ShelfOf(db, id, arch))
            && (forall a | a != arch :: ShelfOf(after, id, a) == ShelfOf(db, id, a))
  {
  }

  // ---------- what retention protects ----------

  /** A release of a ring with all its databases of an architecture, at a number. */
  predicate HasAll(db: Db, ring: Ring, arch: Arch, s: nat) {
    (ring, s) in db.bySeq && ShelfOf(db, db.bySeq[(ring, s)], arch) == Rendered
  }

  /** The ring's head serves an architecture from before it, and no release between has it all. */
  ghost predicate ServesFrom(db: Db, ring: Ring, arch: Arch, s: nat) {
    && ring in db.heads && ShelfOf(db, db.heads[ring], arch).Awaiting? && s + 256 >= Top(db, ring)
    && forall t: nat | s < t < Top(db, ring) :: !HasAll(db, ring, arch, t)
  }

  lemma {:induction false} FromExactly(db: Db, ring: Ring, arch: Arch, s: nat, least: nat)
    ensures match RenderedFrom(db, ring, arch, s, least)
            case Some(r) => least <= r <= s && r >= 1 && HasAll(db, ring, arch, r)
                            && forall t: nat | r < t <= s :: !HasAll(db, ring, arch, t)
            case None => forall t: nat | least <= t <= s && t >= 1 :: !HasAll(db, ring, arch, t)
    decreases s
  {
    if s > 0 && s >= least && !HasAll(db, ring, arch, s) {
      FromExactly(db, ring, arch, s - 1, least);
    }
  }

  lemma SinceExactly(db: Db, ring: Ring, arch: Arch, s: nat)
    requires 1 <= s <= Top(db, ring)
    ensures ArchSince(db, ring, arch).Some? && ArchSince(db, ring, arch).value <= s <==>
              ServesFrom(db, ring, arch, s)
              || (s == Top(db, ring) && ring in db.heads && ShelfOf(db, db.heads[ring], arch).Awaiting?)
  {
    hide Top;
    var top := Top(db, ring);
    FromExactly(db, ring, arch, top - 1, if top > 256 then top - 256 else 0);
  }

  /**
   * Retention protects the last `keep` releases of a ring and, while its head
   * serves an architecture's databases from before it, those back to the last
   * release that has them all, within 256.
   */
  lemma ProtectedExactly(db: Db, keep: nat, id: nat)
    requires keep >= 1 && id in db.rows && 1 <= db.rows[id].seqNo <= Top(db, db.rows[id].ring)
    ensures var ring, s := db.rows[id].ring, db.rows[id].seqNo;
            IsProtected(db, keep, id) <==>
              s + keep > Top(db, ring) || ServesFrom(db, ring, X86_64, s) || ServesFrom(db, ring, Aarch64, s)
  {
    hide Top, ArchSince, ServesFrom;
    var ring, s := db.rows[id].ring, db.rows[id].seqNo;
    SinceExactly(db, ring, X86_64, s);
    SinceExactly(db, ring, Aarch64, s);
  }

  // ---------- which release is a checkpoint ----------

  /** A release is a checkpoint when it is its ring's first, or none of the twenty-three before it is one. */
  lemma CheckpointExactly(db: Db, ring: Ring, id: nat, target: set<Package>, kept: set<Arch>)
    requires ring in db.heads ==> forall i | i in db.rows && db.rows[i].ring == ring :: db.rows[i].seqNo >= 1
    ensures var after, n := Publish(db, ring, id, target, kept), Top(db, ring) + 1;
            && id in after.rows && after.rows[id].seqNo == n && after.rows[id].parent == ParentOf(db, ring)
            && (after.rows[id].checkpoint <==>
                  || ring !in db.heads
                  || (n >= 24 && forall i | i in db.rows && db.rows[i].ring == ring && db.rows[i].checkpoint ::
                                   db.rows[i].seqNo + 24 <= n))
            && (after.rows[id].checkpoint ==> MembersOf(after, id) == Live(after, ring))
            && after.sources[id] == set p | p in Live(after, ring) :: p.arch
  {
    hide Diff, Apply, CarriedFrom, Top;
  }

  // ---------- which architecture a release leaves alone ----------

  /** A request starts from what its ring serves: its own, or a source that is its own head. */
  predicate StartsFromOwn(db: Db, q: Request) {
    && q.ring in db.heads
    && match q.base
       case Own => true
       case Promote(from) => from in db.heads && db.heads[from] == db.heads[q.ring]
       case Rollback(to) => to == db.heads[q.ring]
  }

  /**
   * An architecture is left alone exactly when the ring has a head and all the
   * request does is within the other: what it removes and adds, over its own
   * ring; what it takes of its source, and what it removes and adds, if anything.
   */
  lemma LeftAloneExactly(db: Db, q: Request, arch: Arch)
    ensures var other := if arch == X86_64 then Aarch64 else X86_64;
            arch in Unchanged(db, q) <==>
              && q.ring in db.heads
              && (if StartsFromOwn(db, q) then q.removeArch == Some(other)
                  else q.onlyArch == Some(other)
                       && (q.removeArch == Some(other) || (!q.removes && q.adds == {})))
  {
    assert StartsFromOwn(db, q) == FromParent(db, q);
    if q.onlyArch.Some? { OneOfTwo(arch, q.onlyArch.value); }
    if q.removeArch.Some? { OneOfTwo(arch, q.removeArch.value); }
  }

  lemma OneOfTwo(arch: Arch, a: Arch)
    ensures a == arch || a == if arch == X86_64 then Aarch64 else X86_64
    ensures arch in {X86_64, Aarch64}
  {
  }
}
