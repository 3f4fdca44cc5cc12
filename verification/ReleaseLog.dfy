/**
 * The release index as values: the tables a ring's history lives in, and what
 * each write does to them (worker/src/db.ts, worker/src/routes/releases.ts,
 * worker/src/routes/gc.ts).
 *
 * A ring is a chain of releases. Each stores what it changed against its parent
 * (a delta); some store their whole membership (a checkpoint); the head's
 * selection is kept live. ReleaseStore.dfy runs these operations on mutable
 * tables; ReleaseSafety.dfy proves what they keep.
 */
module ReleaseLog {
  import opened Wrappers

  datatype Ring = Edge | Rc | Stable | Lab
  datatype Arch = X86_64 | Aarch64
  datatype Op = Add | Remove

  /** A row of `packages`: its id, and the architecture whose databases list it. */
  datatype Package = Package(id: nat, arch: Arch)

  /** A row of `releases`. */
  datatype Row = Row(ring: Ring, seqNo: nat, parent: Option<nat>, checkpoint: bool)

  /**
   * A release's row of an architecture's database: none, rendered for it, or
   * carried and awaiting a release's render.
   */
  datatype Shelf = NoRows | Rendered | Awaiting(of: nat)

  /** One thing for each architecture. */
  datatype Each<T> = Each(x86: T, aarch64: T) {
    function Of(arch: Arch): T {
      if arch == X86_64 then x86 else aarch64
    }

    function With(arch: Arch, to: T): Each<T> {
      if arch == X86_64 then this.(x86 := to) else this.(aarch64 := to)
    }
  }

  datatype Db = Db(
    rows: map<nat, Row>,               // releases, by id
    bySeq: map<(Ring, nat), nat>,      // their unique (ring, seq) index
    heads: map<Ring, nat>,             // ring_heads
    live: map<Ring, set<Package>>,         // ring_packages
    members: map<nat, set<Package>>,       // release_packages
    deltas: map<nat, map<Package, Op>>,    // release_deltas, by their primary key
    packages: set<Package>,            // packages
    sources: map<nat, set<Arch>>,      // releases.sources: the architectures a release has packages of
    shelves: map<nat, Each<Shelf>>,    // release_artifacts
    bytes: map<Ring, Each<Option<nat>>>)  // the live object of a ring's database: the release whose render was put last

  const CHECKPOINT_EVERY: nat := 24
  const CARRY_REACH: nat := 256

  /** How many generations a release looks back for rows to carry, and how many a render looks forward. */
  const CARRY_DEPTH: nat := 12
  const KIN_DEPTH: nat := 3

  const EMPTY := Db(map[], map[], map[], map[], map[], map[], {}, map[], map[], map[])

  datatype RebuildError = Unknown | NoCheckpoint | ParentGone | TooFar | Collected

  // ---------- reads ----------

  function Live(db: Db, ring: Ring): set<Package> {
    if ring in db.live then db.live[ring] else {}
  }

  function MembersOf(db: Db, id: nat): set<Package> {
    if id in db.members then db.members[id] else {}
  }

  function DeltaOf(db: Db, id: nat): map<Package, Op> {
    if id in db.deltas then db.deltas[id] else map[]
  }

  function ShelfOf(db: Db, id: nat, arch: Arch): Shelf {
    if id in db.shelves then db.shelves[id].Of(arch) else NoRows
  }

  function BytesOf(db: Db, ring: Ring, arch: Arch): Option<nat> {
    if ring in db.bytes then db.bytes[ring].Of(arch) else None
  }

  /** The packages of one architecture. */
  function Cut(s: set<Package>, arch: Arch): set<Package> {
    set p | p in s && p.arch == arch
  }

  /** The seq of a ring's newest release; 0 when it has none. */
  function Top(db: Db, ring: Ring): nat {
    if ring in db.heads && db.heads[ring] in db.rows then db.rows[db.heads[ring]].seqNo else 0
  }

  /** The ring whose head a release is. */
  function HeadRing(db: Db, id: nat): Option<Ring> {
    if Edge in db.heads && db.heads[Edge] == id then Some(Edge)
    else if Rc in db.heads && db.heads[Rc] == id then Some(Rc)
    else if Stable in db.heads && db.heads[Stable] == id then Some(Stable)
    else if Lab in db.heads && db.heads[Lab] == id then Some(Lab)
    else None
  }

  function Apply(base: set<Package>, ops: map<Package, Op>): set<Package> {
    (base - set p | p in ops && ops[p] == Remove) + set p | p in ops && ops[p] == Add
  }

  /** The releases of a ring as the unique (ring, seq) index orders them: seq 1 to its newest, each once. */
  ghost predicate Ordered(db: Db) {
    && (forall id {:trigger id in db.rows} | id in db.rows ::
          && 1 <= db.rows[id].seqNo <= Top(db, db.rows[id].ring)
          && (db.rows[id].ring, db.rows[id].seqNo) in db.bySeq && db.bySeq[(db.rows[id].ring, db.rows[id].seqNo)] == id)
    && (forall ring, s: nat {:trigger (ring, s) in db.bySeq} | 1 <= s <= Top(db, ring) ::
          (ring, s) in db.bySeq && db.bySeq[(ring, s)] in db.rows && db.rows[db.bySeq[(ring, s)]].ring == ring
          && db.rows[db.bySeq[(ring, s)]].seqNo == s)
  }

  // ---------- reconstruction ----------

  /**
   * The fold of the deltas over the nearest checkpoint behind a release; `hops`
   * counts the releases of the chain so far.
   */
  function Rebuild(db: Db, id: nat, hops: nat): Result<set<Package>, RebuildError>
    requires id in db.rows
    decreases 4 * CHECKPOINT_EVERY + 1 - hops
  {
    if db.rows[id].checkpoint then Ok(MembersOf(db, id))
    else match db.rows[id].parent
      case None => Err(NoCheckpoint)
      case Some(p) =>
        if p !in db.rows then Err(ParentGone)
        else if hops + 1 > 4 * CHECKPOINT_EVERY then Err(TooFar)
        else match Rebuild(db, p, hops + 1)
          case Err(e) => Err(e)
          case Ok(base) => Ok(Apply(base, DeltaOf(db, id)))
  }

  /** What a release without a checkpoint selects: its ring's live rows when it is a head, else the fold. */
  function Selection(db: Db, id: nat): Result<set<Package>, RebuildError>
    requires id in db.rows
  {
    match HeadRing(db, id)
    case Some(ring) => Ok(Live(db, ring))
    case None => Rebuild(db, id, 1)
  }

  /** Why a release cannot be read by its id, or the checkpoint rows that make it readable. */
  function Checkpointed(db: Db, id: nat): Result<Db, RebuildError> {
    if id !in db.rows then Err(Unknown)
    else if db.rows[id].checkpoint then Ok(db)
    else match Selection(db, id)
      case Err(e) => Err(e)
      case Ok(s) =>
        if !(s <= db.packages) then Err(Collected)
        else Ok(db.(members := db.members[id := MembersOf(db, id) + s],
                    rows := db.rows[id := db.rows[id].(checkpoint := true)]))
  }

  /** The package ids `releaseMembers` lists for a release, and the index after the read. */
  function Members(db: Db, id: nat): Result<(Db, set<Package>), RebuildError> {
    match HeadRing(db, id)
    case Some(ring) => Ok((db, Live(db, ring)))
    case None =>
      match Checkpointed(db, id)
      case Err(e) => Err(e)
      case Ok(after) => Ok((after, MembersOf(after, id)))
  }

  // ---------- a new release ----------

  /** Where a new release's selection starts. */
  datatype Base = Own | Promote(from: Ring) | Rollback(to: nat)

  datatype Request = Request(ring: Ring, base: Base,
                             onlyArch: Option<Arch>,     // promote or roll back one architecture only
                             removeArch: Option<Arch>,   // the architecture every name removed or added is of
                             removes: bool,              // the request names packages to remove
                             drop: set<Package>,         // what the names removed or replaced select
                             adds: set<Package>)

  datatype Refusal = NotIndexed | NoSource | WrongRing | ArchAlone | Rebuilding(why: RebuildError)

  /**
   * What the lookups of a request select: within its architecture, and nothing
   * dropped when it names and adds nothing.
   */
  predicate Scoped(q: Request) {
    && (q.removeArch.Some? ==> forall p | p in q.drop + q.adds :: p.arch == q.removeArch.value)
    && (Untouched(q) ==> q.drop == {})
  }

  predicate Untouched(q: Request) { !q.removes && q.adds == {} }

  /** Why a request names no release to start from. */
  function SourceRefusal(db: Db, q: Request): Option<Refusal> {
    match q.base
    case Own => if q.onlyArch.Some? then Some(ArchAlone) else None
    case Promote(from) => if from == Lab || q.ring == Lab then Some(WrongRing) else if from !in db.heads
                          then Some(NoSource) else None
    case Rollback(to) => if to !in db.rows then Some(NoSource) else if db.rows[to].ring != q.ring then Some(WrongRing)
                         else None
  }

  /** The rows a selection starts from, with the index after they were read: a rollback's are materialised first. */
  function BaseOf(db: Db, q: Request): Result<(Db, set<Package>), Refusal> {
    match q.base
    case Own => Ok((db, Live(db, q.ring)))
    case Promote(from) => Ok((db, Live(db, from)))
    case Rollback(to) =>
      match Members(db, to)
      case Err(e) => Err(Rebuilding(e))
      case Ok(got) => Ok(got)
  }

  /**
   * The selection a request asks for: the base, of one architecture or both, less
   * what it drops, plus what it adds — indexed rows only.
   */
  function Target(db: Db, q: Request, base: set<Package>): set<Package> {
    TargetOver(db, q, base, q.ring in db.heads)
  }

  /** The same for a release made over a parent or, with none, as its ring's first. */
  function TargetOver(db: Db, q: Request, base: set<Package>, over: bool): set<Package> {
    var start := match q.onlyArch
      case Some(arch) => if !over then base
                         else Cut(base, arch) + (Live(db, q.ring) - Cut(Live(db, q.ring), arch))
      case None => base;
    ((start * db.packages) - q.drop) + q.adds
  }

  /** The rows `release_deltas` gets: the target against what the ring serves, both ways. */
  function Diff(was: set<Package>, now: set<Package>): map<Package, Op> {
    map p | p in (now - was) + (was - now) :: if p in now then Add else Remove
  }

  function ParentOf(db: Db, ring: Ring): Option<nat> {
    if ring in db.heads then Some(db.heads[ring]) else None
  }

  /** A ring's first release is a checkpoint, then every one CHECKPOINT_EVERY past the newest. */
  predicate CheckpointDue(db: Db, ring: Ring) {
    || ring !in db.heads
    || (Top(db, ring) + 1 >= CHECKPOINT_EVERY &&
        forall id | id in db.rows :: db.rows[id].ring == ring && db.rows[id].checkpoint ==>
                 Top(db, ring) + 1 - db.rows[id].seqNo >= CHECKPOINT_EVERY)
  }

  /** Whether a request starts from what its ring serves. */
  predicate FromParent(db: Db, q: Request) {
    && q.ring in db.heads
    && match q.base
       case Own => true
       case Promote(from) => from in db.heads && db.heads[from] == db.heads[q.ring]
       case Rollback(to) => to == db.heads[q.ring]
  }

  /** The architectures a request could not have touched. */
  function Unchanged(db: Db, q: Request): set<Arch> {
    UnchangedOver(q, q.ring in db.heads, FromParent(db, q))
  }

  function UnchangedOver(q: Request, over: bool, fromParent: bool): set<Arch> {
    var scoped :=
      if !over then None
      else if fromParent then q.removeArch
      else if q.onlyArch.Some? && (Untouched(q) || q.removeArch == q.onlyArch) then q.onlyArch
      else None;
    if scoped.None? then {} else {X86_64, Aarch64} - {scoped.value}
  }

  // ---------- the databases ----------

  /** The nearest ancestor with rows of an architecture, and how far back: none past one that has no package of it. */
  function Nearest(db: Db, id: nat, arch: Arch, depth: nat): Option<(Shelf, nat)>
    decreases CARRY_DEPTH - depth
  {
    if ShelfOf(db, id, arch) != NoRows then Some((ShelfOf(db, id, arch), depth))
    else if id in db.sources && arch !in db.sources[id] then None
    else if depth < CARRY_DEPTH && id in db.rows && db.rows[id].parent.Some?
            then Nearest(db, db.rows[id].parent.value, arch, depth + 1)
    else None
  }

  /**
   * The row a release made from `parent` carries: awaiting its own render, or
   * what its parent's awaits where it kept the architecture.
   */
  function CarriedFrom(db: Db, parent: Option<nat>, id: nat, arch: Arch, kept: bool): Shelf {
    if parent.None? then NoRows
    else match Nearest(db, parent.value, arch, 0)
      case None => NoRows
      case Some((shelf, depth)) =>
        if !kept then Awaiting(id) else if depth == 0 then shelf else Awaiting(parent.value)
  }

  function Carried(db: Db, ring: Ring, id: nat, arch: Arch, kept: bool): Shelf {
    CarriedFrom(db, ParentOf(db, ring), id, arch, kept)
  }

  /** A release is another's child, grandchild or great-grandchild. */
  predicate IsKin(db: Db, of: nat, id: nat, depth: nat)
    decreases depth
  {
    depth > 0 && id in db.rows && db.rows[id].parent.Some?
    && (db.rows[id].parent.value == of || IsKin(db, of, db.rows[id].parent.value, depth - 1))
  }

  /** Whose render a release's row awaits, when not its own. */
  function Waited(db: Db, id: nat, arch: Arch): Option<nat> {
    var shelf := ShelfOf(db, id, arch);
    if shelf.Awaiting? && shelf.of != id then Some(shelf.of) else None
  }

  /** A row once a database was put for a release: its own, its kin's where they had none, and those that awaited it. */
  function ShelfPut(db: Db, of: nat, arch: Arch, id: nat): Shelf {
    var shelf := ShelfOf(db, id, arch);
    if id == of then Rendered
    else if shelf == NoRows then if IsKin(db, of, id, KIN_DEPTH) then Rendered else NoRows
    else if shelf.Awaiting? && (shelf.of == of || Some(shelf.of) == Waited(db, of, arch)) then Rendered
    else shelf
  }

  /** A database put for a release: its bytes replace the live ones, whichever release those were of. */
  function Put(db: Db, of: nat, arch: Arch): Db
    requires of in db.rows
  {
    var ring := db.rows[of].ring;
    var live := if ring in db.bytes then db.bytes[ring] else Each(None, None);
    db.(shelves := map id | id in db.rows :: ShelvesOf(db, id).With(arch, ShelfPut(db, of, arch, id)),
        bytes := db.bytes[ring := live.With(arch, Some(of))])
  }

  function ShelvesOf(db: Db, id: nat): Each<Shelf> {
    if id in db.shelves then db.shelves[id] else Each(NoRows, NoRows)
  }

  /** A row once a release's whole render is in: what it did not write again is dropped, and so is what awaited it. */
  function ShelfFinished(db: Db, of: nat, arch: Arch, id: nat): Shelf {
    var shelf := ShelfOf(db, id, arch);
    if shelf.Awaiting? && (id == of || shelf.of == of || Some(shelf.of) == Waited(db, of, arch)) then NoRows else shelf
  }

  function Finished(db: Db, of: nat, arch: Arch): Db {
    db.(shelves := map id | id in db.rows :: ShelvesOf(db, id).With(arch, ShelfFinished(db, of, arch, id)))
  }

  // ---------- the batch ----------

  /**
   * The batch that writes a release, as its handler planned it: its number and
   * its parent as they were read, the target against what the ring serves now;
   * `kept` are the architectures it left alone.
   */
  function Landed(db: Db, ring: Ring, s: nat, parent: Option<nat>, id: nat, target: set<Package>, due: bool,
                  kept: set<Arch>): Db
  {
    var moved := Diff(Live(db, ring), target);
    var live := Apply(Live(db, ring), moved);
    Db(db.rows[id := Row(ring, s, parent, due)],
       db.bySeq[(ring, s) := id],
       db.heads[ring := id],
       db.live[ring := live],
       if due then db.members[id := live] else db.members,
       db.deltas[id := moved],
       db.packages,
       db.sources[id := set p | p in live :: p.arch],
       db.shelves[id := Each(CarriedFrom(db, parent, id, X86_64, X86_64 in kept),
                             CarriedFrom(db, parent, id, Aarch64, Aarch64 in kept))],
       db.bytes)
  }

  /** The same with everything read at once: the ring's next release, made from its head. */
  function Publish(db: Db, ring: Ring, id: nat, target: set<Package>, kept: set<Arch>): Db {
    Landed(db, ring, Top(db, ring) + 1, ParentOf(db, ring), id, target, CheckpointDue(db, ring), kept)
  }

  function Release(db: Db, id: nat, q: Request): Result<Db, Refusal> {
    if SourceRefusal(db, q).Some? then Err(SourceRefusal(db, q).value)
    else if !(q.adds <= db.packages) then Err(NotIndexed)
    else match BaseOf(db, q)
      case Err(e) => Err(e)
      case Ok((read, base)) => Ok(Publish(read, q.ring, id, Target(read, q, base), Unchanged(db, q)))
  }

  // ---------- retention ----------

  /**
   * The newest release of a ring before the head, within reach, whose databases of
   * an architecture were all rendered for it.
   */
  function RenderedFrom(db: Db, ring: Ring, arch: Arch, s: nat, least: nat): Option<nat>
    decreases s
  {
    if s < least || s == 0 then None
    else if (ring, s) in db.bySeq && ShelfOf(db, db.bySeq[(ring, s)], arch) == Rendered then Some(s)
    else RenderedFrom(db, ring, arch, s - 1, least)
  }

  /** The oldest release whose databases of one architecture the head still serves. */
  function ArchSince(db: Db, ring: Ring, arch: Arch): Option<nat> {
    var top := Top(db, ring);
    if ring !in db.heads || !ShelfOf(db, db.heads[ring], arch).Awaiting? || top == 0 then None
    else match RenderedFrom(db, ring, arch, top - 1, if top > CARRY_REACH then top - CARRY_REACH else 0)
      case Some(s) => Some(s)
      case None => Some(if top > CARRY_REACH then top - CARRY_REACH else 1)
  }

  function Least(a: Option<nat>, b: Option<nat>): Option<nat> {
    match (a, b)
    case (None, _) => b
    case (_, None) => a
    case (Some(x), Some(y)) => Some(if x <= y then x else y)
  }

  function CarriedSince(db: Db, ring: Ring): Option<nat> {
    Least(ArchSince(db, ring, X86_64), ArchSince(db, ring, Aarch64))
  }

  /** The seq of the oldest release of a ring that retention protects. */
  function Oldest(db: Db, ring: Ring, keep: nat): nat {
    var top := Top(db, ring);
    var kept := if top > keep then top + 1 - keep else 1;
    match CarriedSince(db, ring)
    case Some(since) => if since < kept then since else kept
    case None => kept
  }

  predicate IsProtected(db: Db, keep: nat, id: nat) {
    id in db.rows && Oldest(db, db.rows[id].ring, keep) <= db.rows[id].seqNo
  }

  /** The newest checkpoint of a ring at or before a seq. */
  function CheckpointAt(db: Db, ring: Ring, s: nat): Option<nat>
    decreases s
  {
    if s == 0 then None
    else if (ring, s) in db.bySeq && db.bySeq[(ring, s)] in db.rows && db.rows[db.bySeq[(ring, s)]].checkpoint
            then Some(s)
    else CheckpointAt(db, ring, s - 1)
  }

  /** The checkpoint the reconstruction of a ring's protected releases starts from. */
  function BaseSeq(db: Db, ring: Ring, keep: nat): Option<nat> {
    if Top(db, ring) == 0 then None else CheckpointAt(db, ring, Oldest(db, ring, keep))
  }

  predicate IsKept(db: Db, keep: nat, id: nat) {
    && id in db.rows
    && db.rows[id].checkpoint
    && (IsProtected(db, keep, id) || BaseSeq(db, db.rows[id].ring, keep) == Some(db.rows[id].seqNo))
  }

  /**
   * Nothing of retention names a package: no ring serves it, no kept checkpoint
   * lists it, no protected release's delta names it.
   */
  predicate Outside(db: Db, keep: nat, p: Package) {
    && (forall ring | ring in db.live :: p !in db.live[ring])
    && (forall id | id in db.members :: IsKept(db, keep, id) ==> p !in db.members[id])
    && (forall id | id in db.deltas :: IsProtected(db, keep, id) ==> p !in db.deltas[id])
  }

  predicate DeltaPruned(db: Db, keep: nat, id: nat) {
    && id in db.rows
    && var base := BaseSeq(db, db.rows[id].ring, keep);
    && base.Some? && db.rows[id].seqNo <= base.value
  }

  /**
   * One garbage collection: the checkpoints nothing starts from, the deltas behind
   * the kept ones, and the packages it chose.
   */
  function Collect(db: Db, keep: nat, victims: set<Package>): Db {
    db.(members := map id | id in db.members && IsKept(db, keep, id) :: db.members[id],
        rows := map id | id in db.rows ::
          if IsKept(db, keep, id) then db.rows[id] else db.rows[id].(checkpoint := false),
        deltas := map id | id in db.deltas && !DeltaPruned(db, keep, id) :: db.deltas[id],
        packages := db.packages - victims)
  }
}
