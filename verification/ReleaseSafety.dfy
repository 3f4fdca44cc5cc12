/**
 * What the release index keeps over whole runs: a reconstruction is exact, and
 * garbage collection never takes a package of a protected release.
 */
module ReleaseSafety {
  import opened Wrappers
  import opened ReleaseLog

  /**
   * The history no table keeps: every release's selection as it was published,
   * the oldest seq every collection so far protected (`floor`), and the
   * checkpoint the ring's deltas reach back to (`base`).
   */
  datatype History = History(sel: map<(Ring, nat), set<Package>>, floor: map<Ring, nat>, base: map<Ring, nat>)

  function Sel(h: History, ring: Ring, s: nat): set<Package> {
    if (ring, s) in h.sel then h.sel[(ring, s)] else {}
  }

  function Floor(h: History, ring: Ring): nat {
    if ring in h.floor then h.floor[ring] else 1
  }

  function Bottom(h: History, ring: Ring): nat {
    if ring in h.base then h.base[ring] else 1
  }

  function SelOf(db: Db, h: History, id: nat): set<Package>
    requires id in db.rows
  {
    Sel(h, db.rows[id].ring, db.rows[id].seqNo)
  }

  predicate HasRelease(db: Db, ring: Ring, s: nat) {
    && (ring, s) in db.bySeq
    && var id := db.bySeq[(ring, s)];
    && id in db.rows
    && db.rows[id].ring == ring
    && db.rows[id].seqNo == s
    && db.rows[id].parent == (if s > 1 && (ring, s - 1) in db.bySeq then Some(db.bySeq[(ring, s - 1)]) else None)
  }

  predicate IsCheckpoint(db: Db, ring: Ring, s: nat) {
    HasRelease(db, ring, s) && db.rows[db.bySeq[(ring, s)]].checkpoint
  }

  ghost predicate NearCheckpoint(db: Db, h: History, ring: Ring, s: nat) {
    exists c: nat :: Bottom(h, ring) <= c <= s < c + CHECKPOINT_EVERY && IsCheckpoint(db, ring, c)
  }

  /**
   * One release of a ring: the child of the one before, a checkpoint exactly
   * when its rows are stored and then they are its selection, its delta kept
   * above the base, and the store holding all of it from the floor up.
   */
  ghost predicate Good(db: Db, h: History, ring: Ring, s: nat) {
    && HasRelease(db, ring, s)
    && var id := db.bySeq[(ring, s)];
    && (db.rows[id].checkpoint <==> id in db.members)
    && (db.rows[id].checkpoint ==> db.members[id] == Sel(h, ring, s) && Bottom(h, ring) <= s)
    && (Bottom(h, ring) < s ==> id in db.deltas && db.deltas[id] == Diff(Sel(h, ring, s - 1), Sel(h, ring, s)))
    && (Bottom(h, ring) <= s ==> NearCheckpoint(db, h, ring, s))
    && (Floor(h, ring) <= s ==> Sel(h, ring, s) <= db.packages)
  }

  /** A ring: what it serves is its head's selection. */
  predicate RingOk(db: Db, h: History, ring: Ring) {
    && (ring in db.heads ==>
          db.heads[ring] in db.rows && db.rows[db.heads[ring]].ring == ring && db.rows[db.heads[ring]].seqNo > 0)
    && Live(db, ring) == Sel(h, ring, Top(db, ring))
    && Sel(h, ring, 0) == {}
    && 1 <= Bottom(h, ring) <= Floor(h, ring)
    && (if ring in db.heads then Floor(h, ring) <= Top(db, ring) else Floor(h, ring) == 1)
  }

  predicate Placed(db: Db, id: nat) {
    && id in db.rows
    && 1 <= db.rows[id].seqNo <= Top(db, db.rows[id].ring)
    && (db.rows[id].ring, db.rows[id].seqNo) in db.bySeq
    && db.bySeq[(db.rows[id].ring, db.rows[id].seqNo)] == id
  }

  /** Every ring is one chain from seq 1 to its head, each release good. */
  ghost predicate Inv(db: Db, h: History) {
    && (forall ring {:trigger RingOk(db, h, ring)} :: RingOk(db, h, ring))
    && (forall ring, s: nat {:trigger Good(db, h, ring, s)} | 1 <= s <= Top(db, ring) :: Good(db, h, ring, s))
    && (forall id {:trigger Placed(db, id)} | id in db.rows :: Placed(db, id))
    && (forall id {:trigger id in db.members} | id in db.members :: id in db.rows)
  }

  // ---------- reconstruction is exact ----------

  lemma ApplyDiff(was: set<Package>, now: set<Package>)
    ensures Apply(was, Diff(was, now)) == now
  {
  }

  /** The fold of the deltas is the release's own selection, whatever checkpoint it starts from. */
  lemma {:induction false} RebuildExact(db: Db, h: History, ring: Ring, s: nat, c: nat, hops: nat)
    requires forall t: nat | c <= t <= s :: Good(db, h, ring, t)
    requires 1 <= Bottom(h, ring) <= c <= s && IsCheckpoint(db, ring, c)
    requires hops + (s - c) <= 4 * CHECKPOINT_EVERY
    ensures HasRelease(db, ring, s) && Rebuild(db, db.bySeq[(ring, s)], hops) == Ok(Sel(h, ring, s))
    decreases s
  {
    assert Good(db, h, ring, s);
    var id := db.bySeq[(ring, s)];
    if !db.rows[id].checkpoint {
      assert Good(db, h, ring, s - 1);
      RebuildExact(db, h, ring, s - 1, c, hops + 1);
      ApplyDiff(Sel(h, ring, s - 1), Sel(h, ring, s));
    }
  }

  /** Behind the base nothing is left to start from. */
  lemma {:induction false} RebuildFails(db: Db, h: History, ring: Ring, s: nat, hops: nat)
    requires forall t: nat | 1 <= t <= s :: Good(db, h, ring, t)
    requires 1 <= s < Bottom(h, ring)
    ensures HasRelease(db, ring, s) && Rebuild(db, db.bySeq[(ring, s)], hops).Err?
    decreases s
  {
    assert Good(db, h, ring, s);
    if s > 1 && hops + 1 <= 4 * CHECKPOINT_EVERY {
      assert Good(db, h, ring, s - 1);
      RebuildFails(db, h, ring, s - 1, hops + 1);
    }
  }

  /** A release is the head of a ring exactly when it is its own ring's newest. */
  lemma HeadOf(db: Db, h: History, id: nat)
    requires Inv(db, h) && id in db.rows
    ensures match HeadRing(db, id)
            case Some(ring) => ring == db.rows[id].ring && db.rows[id].seqNo == Top(db, ring)
            case None => db.rows[id].seqNo < Top(db, db.rows[id].ring)
  {
    assert Placed(db, id);
    assert forall ring | ring in db.heads :: RingOk(db, h, ring) && Placed(db, db.heads[ring]);
  }

  /** What a release without checkpoint rows is reconstructed to: its selection from the base up, nothing below. */
  lemma SelectionExact(db: Db, h: History, id: nat)
    requires Inv(db, h) && id in db.rows && !db.rows[id].checkpoint
    ensures if Bottom(h, db.rows[id].ring) <= db.rows[id].seqNo then Selection(db, id) == Ok(SelOf(db, h, id))
            else Selection(db, id).Err?
  {
    HeadOf(db, h, id);
    assert Placed(db, id);
    var ring, s := db.rows[id].ring, db.rows[id].seqNo;
    assert RingOk(db, h, ring);
    assert forall t: nat | 1 <= t <= s :: Good(db, h, ring, t);
    if Bottom(h, ring) <= s {
      assert Good(db, h, ring, s);
      var c: nat :| Bottom(h, ring) <= c <= s < c + CHECKPOINT_EVERY && IsCheckpoint(db, ring, c);
      RebuildExact(db, h, ring, s, c, 1);
    } else {
      RebuildFails(db, h, ring, s, 1);
    }
  }

  /**
   * A release can be read by its id exactly while its chain still reaches the
   * base and the store holds all of its packages; what is written then is its
   * selection, and nothing else of the index moves.
   */
  lemma CheckpointedExact(db: Db, h: History, id: nat)
    requires Inv(db, h) && id in db.rows
    ensures Checkpointed(db, id).Ok? <==>
              || db.rows[id].checkpoint
              || (Bottom(h, db.rows[id].ring) <= db.rows[id].seqNo && SelOf(db, h, id) <= db.packages)
    ensures match Checkpointed(db, id)
            case Err(_) => true
            case Ok(after) =>
              && Inv(after, h)
              && MembersOf(after, id) == SelOf(db, h, id)
              && after.rows == db.rows[id := db.rows[id].(checkpoint := true)]
              && after == db.(rows := after.rows, members := after.members)
  {
    assert Placed(db, id);
    assert Good(db, h, db.rows[id].ring, db.rows[id].seqNo);
    if !db.rows[id].checkpoint {
      SelectionExact(db, h, id);
      if Checkpointed(db, id).Ok? {
        CheckpointKeeps(db, h, id);
      }
    }
  }

  function WithCheckpoint(db: Db, id: nat, sel: set<Package>): Db
    requires id in db.rows
  {
    db.(members := db.members[id := MembersOf(db, id) + sel], rows := db.rows[id := db.rows[id].(checkpoint := true)])
  }

  lemma CheckpointKeeps(db: Db, h: History, id: nat)
    requires Inv(db, h) && id in db.rows && !db.rows[id].checkpoint
    requires Bottom(h, db.rows[id].ring) <= db.rows[id].seqNo
    ensures Inv(WithCheckpoint(db, id, SelOf(db, h, id)), h)
  {
    NoRowsYet(db, h, id);
    hide RingOk, Good, Placed, Diff, Top;
    var after := WithCheckpoint(db, id, SelOf(db, h, id));
    forall ring ensures RingOk(after, h, ring) && Top(after, ring) == Top(db, ring) {
      assert RingOk(db, h, ring);
      RingKept(db, h, id, SelOf(db, h, id), ring);
    }
    forall ring, s: nat | 1 <= s <= Top(after, ring) ensures Good(after, h, ring, s) {
      assert RingOk(after, h, ring) && Good(db, h, ring, s);
      GoodKept(db, h, id, ring, s);
    }
    forall i | i in after.rows ensures Placed(after, i) {
      assert Placed(db, i) && RingOk(after, h, db.rows[i].ring);
      PlacedKept(db, id, SelOf(db, h, id), i);
    }
  }

  lemma NoRowsYet(db: Db, h: History, id: nat)
    requires Inv(db, h) && id in db.rows && !db.rows[id].checkpoint
    ensures id !in db.members && Placed(db, id)
  {
    assert Placed(db, id) && Good(db, h, db.rows[id].ring, db.rows[id].seqNo);
  }

  lemma RingKept(db: Db, h: History, id: nat, sel: set<Package>, ring: Ring)
    requires id in db.rows && RingOk(db, h, ring)
    ensures RingOk(WithCheckpoint(db, id, sel), h, ring)
    ensures Top(WithCheckpoint(db, id, sel), ring) == Top(db, ring)
  {
  }

  lemma GoodKept(db: Db, h: History, id: nat, ring: Ring, s: nat)
    requires id in db.rows && id !in db.members && Placed(db, id) && Bottom(h, db.rows[id].ring) <= db.rows[id].seqNo
    requires Good(db, h, ring, s)
    ensures Good(WithCheckpoint(db, id, SelOf(db, h, id)), h, ring, s)
  {
    hide Diff, Top;
    var after := WithCheckpoint(db, id, SelOf(db, h, id));
    assert HasRelease(after, ring, s);
    if Bottom(h, ring) <= s {
      var c: nat :| Bottom(h, ring) <= c <= s < c + CHECKPOINT_EVERY && IsCheckpoint(db, ring, c);
      assert IsCheckpoint(after, ring, c);
      assert NearCheckpoint(after, h, ring, s);
    }
  }

  lemma PlacedKept(db: Db, id: nat, sel: set<Package>, i: nat)
    requires id in db.rows && Placed(db, i)
    requires Top(WithCheckpoint(db, id, sel), db.rows[i].ring) == Top(db, db.rows[i].ring)
    ensures Placed(WithCheckpoint(db, id, sel), i)
  {
    hide Top;
  }

  // ---------- a release ----------

  function Published(db: Db, h: History, ring: Ring, target: set<Package>): History {
    h.(sel := h.sel[(ring, Top(db, ring) + 1) := target])
  }

  /** What a published release adds to the tables, and what it leaves. */
  ghost predicate Extends(db: Db, after: Db, ring: Ring, id: nat, target: set<Package>) {
    var s, due := Top(db, ring) + 1, CheckpointDue(db, ring);
    && after.rows == db.rows[id := Row(ring, s, ParentOf(db, ring), due)]
    && after.bySeq == db.bySeq[(ring, s) := id]
    && after.heads == db.heads[ring := id]
    && (forall r :: Live(after, r) == if r == ring then target else Live(db, r))
    && after.members == (if due then db.members[id := target] else db.members)
    && after.deltas == db.deltas[id := Diff(Live(db, ring), target)]
    && after.packages == db.packages
  }

  lemma PublishExtends(db: Db, ring: Ring, id: nat, target: set<Package>, kept: set<Arch>)
    ensures Extends(db, Publish(db, ring, id, target, kept), ring, id, target)
  {
    ApplyDiff(Live(db, ring), target);
  }

  /**
   * Publishing a selection of stored packages keeps the index whole: every earlier
   * release unchanged, the new one the head.
   */
  lemma PublishKeeps(db: Db, h: History, after: Db, ring: Ring, id: nat, target: set<Package>)
    requires Inv(db, h) && id !in db.rows && target <= db.packages && Extends(db, after, ring, id, target)
    ensures Inv(after, Published(db, h, ring, target))
  {
    hide Good, RingOk, Placed, Extends, Published, Top;
    var h' := Published(db, h, ring, target);
    MembersAfter(db, after, ring, id, target);
    forall r
      ensures RingOk(after, h', r) && 1 <= Bottom(h, r) && Top(after, r) ==
                if r == ring then Top(db, ring) + 1 else Top(db, r)
    {
      assert RingOk(db, h, r) && RingOk(db, h, ring);
      RingAfter(db, h, after, ring, id, target, r);
    }
    forall r, t: nat | 1 <= t <= Top(after, r) ensures Good(after, h', r, t) {
      assert RingOk(after, h', r) && RingOk(db, h, r);
      if r == ring && t == Top(db, ring) + 1 {
        NewReleaseGood(db, h, after, ring, id, target);
      } else {
        OldReleaseGood(db, h, after, ring, id, target, r, t);
      }
    }
    forall i | i in after.rows ensures Placed(after, i) {
      assert i != id ==> Placed(db, i);
      PlacedAfter(db, after, ring, id, target, i);
    }
  }

  lemma PlacedAfter(db: Db, after: Db, ring: Ring, id: nat, target: set<Package>, i: nat)
    requires id !in db.rows && Extends(db, after, ring, id, target) && i in after.rows
    requires i != id ==> Placed(db, i)
    requires forall r {:trigger Top(after, r)} :: Top(after, r) == if r == ring then Top(db, ring) + 1 else Top(db, r)
    ensures Placed(after, i)
  {
    hide Diff, CheckpointDue, Top;
  }

  lemma MembersAfter(db: Db, after: Db, ring: Ring, id: nat, target: set<Package>)
    requires forall i | i in db.members :: i in db.rows
    requires Extends(db, after, ring, id, target)
    ensures after.rows.Keys == db.rows.Keys + {id}
    ensures forall i | i in after.members :: i in after.rows
  {
    hide Diff, CheckpointDue, Top;
  }

  lemma TopAfter(db: Db, h: History, after: Db, ring: Ring, id: nat, target: set<Package>, r: Ring)
    requires RingOk(db, h, r) && RingOk(db, h, ring) && id !in db.rows && Extends(db, after, ring, id, target)
    ensures Top(after, r) == if r == ring then Top(db, ring) + 1 else Top(db, r)
  {
  }

  lemma RingAfter(db: Db, h: History, after: Db, ring: Ring, id: nat, target: set<Package>, r: Ring)
    requires RingOk(db, h, r) && RingOk(db, h, ring) && id !in db.rows && Extends(db, after, ring, id, target)
    ensures Top(after, r) == if r == ring then Top(db, ring) + 1 else Top(db, r)
    ensures RingOk(after, Published(db, h, ring, target), r) && 1 <= Bottom(h, r)
  {
    hide *;
    TopAfter(db, h, after, ring, id, target, r);
    RingServed(db, h, after, ring, id, target, r);
  }

  lemma RingServed(db: Db, h: History, after: Db, ring: Ring, id: nat, target: set<Package>, r: Ring)
    requires RingOk(db, h, r) && RingOk(db, h, ring) && id !in db.rows && Extends(db, after, ring, id, target)
    requires Top(after, r) == if r == ring then Top(db, ring) + 1 else Top(db, r)
    ensures RingOk(after, Published(db, h, ring, target), r) && 1 <= Bottom(h, r)
  {
    hide Diff, CheckpointDue, Top, Sel, Bottom, Floor, Published;
    SelAfter(db, h, ring, target, r, Top(after, r));
    SelAfter(db, h, ring, target, r, 0);
  }

  lemma SelAfter(db: Db, h: History, ring: Ring, target: set<Package>, r: Ring, s: nat)
    ensures var h' := Published(db, h, ring, target);
            && Sel(h', r, s) == (if r == ring && s == Top(db, ring) + 1 then target else Sel(h, r, s))
            && Bottom(h', r) == Bottom(h, r) && Floor(h', r) == Floor(h, r)
  {
  }

  lemma OldReleaseGood(db: Db, h: History, after: Db, ring: Ring, id: nat, target: set<Package>, r: Ring, t: nat)
    requires forall u: nat {:trigger Good(db, h, r, u)} | 1 <= u <= t :: Good(db, h, r, u)
    requires id !in db.rows && id !in db.members && Extends(db, after, ring, id, target) && 1 <= t <= Top(db, r)
             && 1 <= Bottom(h, r)
    ensures Good(after, Published(db, h, ring, target), r, t)
  {
    hide Extends, Diff, Top, HasRelease;
    assert Good(db, h, r, t);
    var c := t;
    if Bottom(h, r) <= t {
      c :| Bottom(h, r) <= c <= t < c + CHECKPOINT_EVERY && IsCheckpoint(db, r, c);
      KeptRelease(db, h, after, ring, id, target, r, c);
    }
    KeptRelease(db, h, after, ring, id, target, r, t);
    RowsKept(db, h, after, ring, id, target, r, t, c);
  }

  lemma RowsKept(db: Db, h: History, after: Db, ring: Ring, id: nat, target: set<Package>, r: Ring, t: nat, c: nat)
    requires Good(db, h, r, t)
    requires id !in db.rows && id !in db.members && Extends(db, after, ring, id, target) && 1 <= t <= Top(db, r)
    requires HasRelease(after, r, t) && after.bySeq[(r, t)] == db.bySeq[(r, t)] != id
    requires Bottom(h, r) <= t ==> Bottom(h, r) <= c <= t < c + CHECKPOINT_EVERY && IsCheckpoint(after, r, c)
    ensures Good(after, Published(db, h, ring, target), r, t)
  {
    hide Diff, CheckpointDue, Top;
    assert Bottom(h, r) <= t ==> NearCheckpoint(after, Published(db, h, ring, target), r, t);
  }

  lemma KeptRelease(db: Db, h: History, after: Db, ring: Ring, id: nat, target: set<Package>, r: Ring, t: nat)
    requires forall u: nat {:trigger Good(db, h, r, u)} | 1 <= u <= t :: Good(db, h, r, u)
    requires id !in db.rows && Extends(db, after, ring, id, target) && 1 <= t <= Top(db, r)
    ensures HasRelease(after, r, t) && after.bySeq[(r, t)] == db.bySeq[(r, t)] != id
    ensures IsCheckpoint(after, r, t) == IsCheckpoint(db, r, t)
  {
    hide Diff, CheckpointDue, Top, NearCheckpoint;
    assert Good(db, h, r, t);
    if t > 1 {
      assert Good(db, h, r, t - 1);
    }
  }

  lemma NewReleaseGood(db: Db, h: History, after: Db, ring: Ring, id: nat, target: set<Package>)
    requires Inv(db, h) && id !in db.rows && target <= db.packages && Extends(db, after, ring, id, target)
    ensures Good(after, Published(db, h, ring, target), ring, Top(db, ring) + 1)
  {
    hide Diff;
    assert RingOk(db, h, ring) && id !in db.members;
    HeadPlaced(db, h, ring);
    if CheckpointDue(db, ring) {
      NewCheckpoint(db, h, after, ring, id, target, Top(db, ring) + 1);
    } else {
      var c := NewestCheckpoint(db, h, ring);
      KeptRelease(db, h, after, ring, id, target, ring, c);
      NewCheckpoint(db, h, after, ring, id, target, c);
    }
  }

  lemma HeadPlaced(db: Db, h: History, ring: Ring)
    requires Inv(db, h)
    ensures Top(db, ring) > 0 ==>
              ring in db.heads && (ring, Top(db, ring)) in db.bySeq && db.bySeq[(ring, Top(db, ring))] == db.heads[ring]
    ensures ring in db.heads ==> Top(db, ring) > 0
  {
    assert RingOk(db, h, ring);
    if ring in db.heads {
      assert Placed(db, db.heads[ring]);
    }
  }

  /** The new release is good once some checkpoint stands near enough behind it. */
  lemma NewCheckpoint(db: Db, h: History, after: Db, ring: Ring, id: nat, target: set<Package>, c: nat)
    requires RingOk(db, h, ring) && id !in db.rows && id !in db.members && target <= db.packages
             && Extends(db, after, ring, id, target)
    requires Top(db, ring) > 0 ==>
               ring in db.heads && (ring, Top(db, ring)) in db.bySeq
               && db.bySeq[(ring, Top(db, ring))] == db.heads[ring]
    requires var s := Top(db, ring) + 1;
             && Bottom(h, ring) <= c <= s < c + CHECKPOINT_EVERY
             && if c == s then CheckpointDue(db, ring) else !CheckpointDue(db, ring) && IsCheckpoint(after, ring, c)
    ensures Good(after, Published(db, h, ring, target), ring, Top(db, ring) + 1)
  {
    hide Diff;
    var s := Top(db, ring) + 1;
    assert HasRelease(after, ring, s);
    assert IsCheckpoint(after, ring, c);
    assert NearCheckpoint(after, Published(db, h, ring, target), ring, s);
  }

  /** When no checkpoint is due, one is near enough to serve the next release too. */
  lemma NewestCheckpoint(db: Db, h: History, ring: Ring) returns (c: nat)
    requires Inv(db, h) && !CheckpointDue(db, ring)
    ensures Bottom(h, ring) <= c <= Top(db, ring) && Top(db, ring) + 1 < c + CHECKPOINT_EVERY
            && IsCheckpoint(db, ring, c)
  {
    var top := Top(db, ring);
    assert RingOk(db, h, ring) && Good(db, h, ring, top);
    if top + 1 < CHECKPOINT_EVERY {
      c :| Bottom(h, ring) <= c <= top < c + CHECKPOINT_EVERY && IsCheckpoint(db, ring, c);
    } else {
      var id :| id in db.rows && db.rows[id].ring == ring && db.rows[id].checkpoint
                && top + 1 - db.rows[id].seqNo < CHECKPOINT_EVERY;
      c := db.rows[id].seqNo;
      assert Placed(db, id) && Good(db, h, ring, c);
    }
  }

  /** The selection a release publishes: its request's target over the rows it starts from. */
  function Asked(db: Db, q: Request): set<Package> {
    match BaseOf(db, q)
    case Ok((read, base)) => Target(read, q, base)
    case Err(_) => {}
  }

  /**
   * What a release starts from is a selection of the history, exactly: its own
   * ring's head, the promoted ring's head, or the release rolled back to.
   */
  lemma BaseExact(db: Db, h: History, q: Request)
    requires Inv(db, h) && SourceRefusal(db, q).None? && BaseOf(db, q).Ok?
    ensures var (read, base) := BaseOf(db, q).value;
            && Inv(read, h) && read.rows.Keys == db.rows.Keys && read.packages == db.packages
            && (forall r :: Top(read, r) == Top(db, r) && Live(read, r) == Live(db, r))
            && base == match q.base
                       case Own => Sel(h, q.ring, Top(db, q.ring))
                       case Promote(from) => Sel(h, from, Top(db, from))
                       case Rollback(to) => SelOf(db, h, to)
  {
    match q.base
    case Own => assert RingOk(db, h, q.ring);
    case Promote(from) => assert RingOk(db, h, from);
    case Rollback(to) =>
      HeadOf(db, h, to);
      CheckpointedExact(db, h, to);
      assert RingOk(db, h, q.ring);
  }

  /** A request selects stored packages only. */
  lemma TargetStored(db: Db, q: Request, base: set<Package>)
    requires q.adds <= db.packages
    ensures Target(db, q, base) <= db.packages
  {
  }

  lemma PublishTarget(db: Db, h: History, ring: Ring, id: nat, target: set<Package>, kept: set<Arch>)
    requires Inv(db, h) && id !in db.rows && target <= db.packages
    ensures Inv(Publish(db, ring, id, target, kept), Published(db, h, ring, target))
  {
    PublishExtends(db, ring, id, target, kept);
    PublishKeeps(db, h, Publish(db, ring, id, target, kept), ring, id, target);
  }

  /** A sync, a promotion or a rollback keeps the index whole. */
  lemma ReleaseKeeps(db: Db, h: History, id: nat, q: Request)
    requires Inv(db, h) && id !in db.rows
    ensures match Release(db, id, q)
            case Err(_) => true
            case Ok(after) => Inv(after, Published(db, h, q.ring, Asked(db, q)))
  {
    hide Diff, CheckpointDue, Apply, Target, Publish, Inv, Members, Checkpointed;
    if SourceRefusal(db, q).None? && q.adds <= db.packages {
      match BaseOf(db, q) {
        case Err(_) =>
        case Ok((read, base)) =>
          BaseExact(db, h, q);
          TargetStored(read, q, base);
          var target := Target(read, q, base);
          PublishTarget(read, h, q.ring, id, target, Unchanged(db, q));
          assert Published(read, h, q.ring, target) == Published(db, h, q.ring, target);
      }
    }
  }

  // ---------- garbage collection ----------

  const RINGS: set<Ring> := {Edge, Rc, Stable, Lab}

  function FloorAfter(db: Db, h: History, ring: Ring, keep: nat): nat {
    if ring in db.heads && Floor(h, ring) < Oldest(db, ring, keep) then Oldest(db, ring, keep) else Floor(h, ring)
  }

  function BottomAfter(db: Db, h: History, ring: Ring, keep: nat): nat {
    match BaseSeq(db, ring, keep)
    case Some(b) => b
    case None => Bottom(h, ring)
  }

  function Gone(db: Db, h: History, keep: nat): History {
    h.(floor := map r | r in RINGS :: FloorAfter(db, h, r, keep), base := map r | r in RINGS ::
         BottomAfter(db, h, r, keep))
  }

  lemma GoneHistory(db: Db, h: History, keep: nat, ring: Ring)
    ensures var h' := Gone(db, h, keep);
            && Floor(h', ring) == FloorAfter(db, h, ring, keep) && Bottom(h', ring) == BottomAfter(db, h, ring, keep)
            && forall s :: Sel(h', ring, s) == Sel(h, ring, s)
  {
    hide FloorAfter, BottomAfter;
    assert ring in RINGS;
  }

  lemma {:induction false} RenderedFromBounds(db: Db, ring: Ring, arch: Arch, s: nat, least: nat)
    ensures match RenderedFrom(db, ring, arch, s, least) case Some(r) => 1 <= r <= s && least <= r case None => true
  {
    if s > 0 { RenderedFromBounds(db, ring, arch, s - 1, least); }
  }

  lemma OldestBounds(db: Db, ring: Ring, keep: nat)
    requires keep >= 1 && Top(db, ring) > 0
    ensures 1 <= Oldest(db, ring, keep) <= Top(db, ring)
  {
    forall arch ensures match ArchSince(db, ring, arch) case Some(s) => 1 <= s case None => true {
      var top := Top(db, ring);
      RenderedFromBounds(db, ring, arch, top - 1, if top > CARRY_REACH then top - CARRY_REACH else 0);
    }
  }

  lemma OldestIs(db: Db, ring: Ring, keep: nat)
    ensures var top, since := Top(db, ring), CarriedSince(db, ring);
            var kept := if top > keep then top + 1 - keep else 1;
            Oldest(db, ring, keep) == if since.Some? && since.value < kept then since.value else kept
  {
    hide Top, CarriedSince;
  }

  /** The base query finds the newest checkpoint at or before a seq. */
  lemma {:induction false} NewestBehind(db: Db, h: History, ring: Ring, s: nat)
    requires forall t: nat {:trigger Good(db, h, ring, t)} | 1 <= t <= s :: Good(db, h, ring, t)
    ensures match CheckpointAt(db, ring, s)
            case Some(b) => 1 <= b <= s && IsCheckpoint(db, ring, b)
                            && forall t: nat {:trigger IsCheckpoint(db, ring, t)} | b < t <= s ::
                                 !IsCheckpoint(db, ring, t)
            case None => forall t: nat {:trigger IsCheckpoint(db, ring, t)} | 1 <= t <= s :: !IsCheckpoint(db, ring, t)
    decreases s
  {
    hide NearCheckpoint, Diff;
    if s > 0 {
      assert Good(db, h, ring, s);
      if IsCheckpoint(db, ring, s) {
        assert CheckpointAt(db, ring, s) == Some(s);
      } else {
        NewestBehind(db, h, ring, s - 1);
        assert CheckpointAt(db, ring, s) == CheckpointAt(db, ring, s - 1);
      }
    }
  }

  /**
   * Where the base of a collection stands: between the old base and the oldest
   * protected release, when it moves at all.
   */
  lemma BaseMoves(db: Db, h: History, ring: Ring, keep: nat)
    requires Inv(db, h) && keep >= 1 && Top(db, ring) > 0
    ensures var o := Oldest(db, ring, keep);
            match BaseSeq(db, ring, keep)
            case Some(b) => Bottom(h, ring) <= b <= o && IsCheckpoint(db, ring, b)
                            && forall t: nat {:trigger IsCheckpoint(db, ring, t)} | b < t <= o ::
                                 !IsCheckpoint(db, ring, t)
            case None => o < Bottom(h, ring) && forall t: nat {:trigger IsCheckpoint(db, ring, t)} | 1 <= t <= o ::
                           !IsCheckpoint(db, ring, t)
  {
    hide Oldest, Top, Diff;
    var o := Oldest(db, ring, keep);
    OldestBounds(db, ring, keep);
    NewestBehind(db, h, ring, o);
    assert Good(db, h, ring, o);
    if CheckpointAt(db, ring, o).Some? {
      assert Good(db, h, ring, CheckpointAt(db, ring, o).value);
    }
    if Bottom(h, ring) <= o {
      var c: nat :| Bottom(h, ring) <= c <= o < c + CHECKPOINT_EVERY && IsCheckpoint(db, ring, c);
      assert RingOk(db, h, ring);
    }
  }

  /**
   * A package some release from the floor up selects is served, or named by the
   * delta of a protected release that dropped it.
   */
  lemma {:induction false} Survives(db: Db, h: History, ring: Ring, keep: nat, t: nat, p: Package)
    requires Inv(db, h)
    requires Floor(h, ring) <= t <= Top(db, ring) && Oldest(db, ring, keep) <= t && 1 <= t
    requires p in Sel(h, ring, t)
    ensures !Outside(db, keep, p)
    decreases Top(db, ring) - t
  {
    hide Oldest, IsKept, CheckpointAt, NearCheckpoint, CarriedSince;
    assert RingOk(db, h, ring);
    if t == Top(db, ring) {
      assert ring in db.live && p in db.live[ring];
    } else if p in Sel(h, ring, t + 1) {
      Survives(db, h, ring, keep, t + 1, p);
    } else {
      assert Good(db, h, ring, t + 1);
      var id := db.bySeq[(ring, t + 1)];
      assert IsProtected(db, keep, id) && p in db.deltas[id];
    }
  }

  /** A checkpoint survives a collection exactly when it stands at the new base or among the protected. */
  lemma KeptExactly(db: Db, h: History, ring: Ring, keep: nat, t: nat)
    requires Good(db, h, ring, t)
    ensures var id := db.bySeq[(ring, t)];
            IsKept(db, keep, id) <==>
              && IsCheckpoint(db, ring, t)
              && (Oldest(db, ring, keep) <= t || BaseSeq(db, ring, keep) == Some(t))
  {
    hide Oldest, BaseSeq, NearCheckpoint, Diff;
  }

  lemma HasAfter(db: Db, keep: nat, victims: set<Package>, ring: Ring, t: nat)
    requires HasRelease(db, ring, t)
    ensures var after := Collect(db, keep, victims);
            && HasRelease(after, ring, t) && after.bySeq == db.bySeq && after.heads == db.heads && after.live == db.live
            && (IsCheckpoint(after, ring, t) <==> IsCheckpoint(db, ring, t) && IsKept(db, keep, db.bySeq[(ring, t)]))
  {
    hide Oldest, BaseSeq;
  }

  /** A near checkpoint stays near: the one behind, or the new base. */
  lemma NearAfter(db: Db, h: History, ring: Ring, keep: nat, victims: set<Package>, t: nat) returns (c: nat)
    requires Inv(db, h) && keep >= 1 && 1 <= t <= Top(db, ring) && BottomAfter(db, h, ring, keep) <= t
    ensures BottomAfter(db, h, ring, keep) <= c <= t < c + CHECKPOINT_EVERY
            && IsCheckpoint(Collect(db, keep, victims), ring, c)
  {
    hide Oldest, Top, Diff, IsKept, Collect;
    BaseMoves(db, h, ring, keep);
    assert Good(db, h, ring, t) && RingOk(db, h, ring);
    var n: nat :| Bottom(h, ring) <= n <= t < n + CHECKPOINT_EVERY && IsCheckpoint(db, ring, n);
    c := if Oldest(db, ring, keep) <= n || BaseSeq(db, ring, keep).None? then n else BaseSeq(db, ring, keep).value;
    assert Good(db, h, ring, c);
    KeptExactly(db, h, ring, keep, c);
    HasAfter(db, keep, victims, ring, c);
  }

  /** A collection moves no head, no ring's live rows and no release's place. */
  lemma CollectSame(db: Db, keep: nat, victims: set<Package>, ring: Ring)
    ensures var after := Collect(db, keep, victims);
            && after.heads == db.heads && Live(after, ring) == Live(db, ring) && after.rows.Keys == db.rows.Keys
            && (forall id | id in db.rows ::
                  after.rows[id].ring == db.rows[id].ring && after.rows[id].seqNo == db.rows[id].seqNo)
            && Top(after, ring) == Top(db, ring)
  {
    hide IsKept, DeltaPruned;
  }

  lemma TopHead(db: Db, h: History, ring: Ring)
    requires RingOk(db, h, ring)
    ensures Top(db, ring) > 0 <==> ring in db.heads
  {
  }

  lemma RingGone(db: Db, h: History, ring: Ring, keep: nat, victims: set<Package>)
    requires Inv(db, h) && keep >= 1
    ensures Top(Collect(db, keep, victims), ring) == Top(db, ring)
    ensures RingOk(Collect(db, keep, victims), Gone(db, h, keep), ring)
  {
    hide Oldest, BaseSeq, IsKept, DeltaPruned, Gone, Good, Placed, Sel, Floor, Bottom, Top, Live, Collect;
    CollectSame(db, keep, victims, ring);
    GoneHistory(db, h, keep, ring);
    assert RingOk(db, h, ring);
    TopHead(db, h, ring);
    if Top(db, ring) > 0 {
      BaseMoves(db, h, ring, keep);
      OldestBounds(db, ring, keep);
    } else {
      NoBase(db, ring, keep);
    }
  }

  lemma NoBase(db: Db, ring: Ring, keep: nat)
    requires Top(db, ring) == 0
    ensures BaseSeq(db, ring, keep) == None
  {
    hide Oldest;
  }

  /** What a collection leaves of one release: its rows while it is kept, its delta above the new base. */
  lemma TablesAfter(db: Db, h: History, ring: Ring, keep: nat, victims: set<Package>, t: nat)
    requires Good(db, h, ring, t)
    ensures var after, id := Collect(db, keep, victims), db.bySeq[(ring, t)];
            && (id in after.members <==> IsCheckpoint(after, ring, t))
            && (id in after.members ==> after.members[id] == Sel(h, ring, t))
            && (Bottom(h, ring) < t && (BaseSeq(db, ring, keep).None? || BaseSeq(db, ring, keep).value < t) ==>
                  id in after.deltas && after.deltas[id] == Diff(Sel(h, ring, t - 1), Sel(h, ring, t)))
  {
    hide Oldest, BaseSeq, NearCheckpoint, Diff, IsProtected, Sel;
    HasAfter(db, keep, victims, ring, t);
  }

  lemma GoodGone(db: Db, h: History, ring: Ring, keep: nat, victims: set<Package>, t: nat)
    requires Inv(db, h) && keep >= 1 && 1 <= t <= Top(db, ring)
    requires forall p | p in victims :: Outside(db, keep, p)
    ensures Good(Collect(db, keep, victims), Gone(db, h, keep), ring, t)
  {
    hide Oldest, BaseSeq, IsKept, DeltaPruned, Gone, Outside, Diff, Collect, Top, Floor, Bottom, Sel;
    var after, h' := Collect(db, keep, victims), Gone(db, h, keep);
    GoneHistory(db, h, keep, ring);
    BaseMoves(db, h, ring, keep);
    assert Good(db, h, ring, t) && RingOk(db, h, ring);
    HasAfter(db, keep, victims, ring, t);
    TablesAfter(db, h, ring, keep, victims, t);
    KeptExactly(db, h, ring, keep, t);
    if BottomAfter(db, h, ring, keep) <= t {
      var c := NearAfter(db, h, ring, keep, victims, t);
      assert NearCheckpoint(after, h', ring, t);
    }
    if FloorAfter(db, h, ring, keep) <= t {
      StoredAfter(db, h, ring, keep, victims, t);
    }
  }

  lemma StoredAfter(db: Db, h: History, ring: Ring, keep: nat, victims: set<Package>, t: nat)
    requires Inv(db, h) && 1 <= t <= Top(db, ring) && FloorAfter(db, h, ring, keep) <= t
    requires forall p | p in victims :: Outside(db, keep, p)
    ensures Sel(h, ring, t) <= Collect(db, keep, victims).packages
  {
    hide Oldest, Outside, IsKept, DeltaPruned;
    assert RingOk(db, h, ring) && Good(db, h, ring, t);
    forall p | p in Sel(h, ring, t) ensures p in db.packages && p !in victims {
      Survives(db, h, ring, keep, t, p);
    }
  }

  /**
   * Garbage collection keeps the index whole whatever it takes of what is
   * outside retention: the floor rises to the oldest release protected, and
   * every release from there up stays stored and readable.
   */
  lemma CollectKeeps(db: Db, h: History, keep: nat, victims: set<Package>)
    requires Inv(db, h) && keep >= 1
    requires forall p | p in victims :: Outside(db, keep, p)
    ensures Inv(Collect(db, keep, victims), Gone(db, h, keep))
  {
    hide RingOk, Good, Top, IsKept, DeltaPruned, Outside, Gone;
    var after := Collect(db, keep, victims);
    forall r ensures RingOk(after, Gone(db, h, keep), r) && Top(after, r) == Top(db, r) {
      RingGone(db, h, r, keep, victims);
    }
    forall r, t: nat | 1 <= t <= Top(after, r) ensures Good(after, Gone(db, h, keep), r, t) {
      assert RingOk(after, Gone(db, h, keep), r);
      GoodGone(db, h, r, keep, victims, t);
    }
    forall i | i in after.rows ensures Placed(after, i) {
      assert Placed(db, i) && RingOk(after, Gone(db, h, keep), db.rows[i].ring);
    }
  }
}
