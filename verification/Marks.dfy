/**
 * The reservation's marks over whole runs of claims: a claim reads the fleet,
 * decides (worker/src/selection.ts `reserve`) and writes its batch later, each
 * statement guarded on one host's own column (worker/src/routes/factory.ts).
 */
module Marks {
  import opened Wrappers
  import opened Sums
  import opened Fleet
  import opened Select
  import opened SelectOrder
  import opened Deferral
  import opened Reservation

  /**
   * What a claim decided, as its batch is written: the marks it ends, each as
   * it read it, and the one it sets. `seen` are the hosts it read and `sets`
   * how many marks had been set when it read them.
   */
  datatype Pass = Pass(clear: map<nat, nat>, mark: Option<(nat, Mark)>, seen: set<nat>, sets: nat)

  /** The hosts' marks, how many were ever set, and the passes read so far. */
  datatype World = World(marks: map<nat, Mark>, sets: nat, passes: seq<Pass>)

  datatype Step =
    | Reading(fleet: Fleet, oldest: seq<Candidate>, queued: set<nat>, now: int, r: Rules)
    | Writing(at: nat)
    | Leasing(task: nat)

  /** A claim reads each registration with its host's mark. */
  ghost predicate ReadsMarks(marks: map<nat, Mark>, members: seq<Member>) {
    && OneEach(members)
    && forall m | m in members :: m.reserving == if m.id in marks then Some(marks[m.id]) else None
  }

  function Ended(members: seq<Member>, queued: set<nat>, now: int): map<nat, nat> {
    if members == [] then map[]
    else
      var m := members[|members| - 1];
      var rest := Ended(members[..|members| - 1], queued, now);
      if Ends(m, queued, now) then rest[m.id := m.reserving.value.task] else rest
  }

  function Decided(step: Step, sets: nat): Pass
    requires step.Reading?
  {
    var mark := Reserve(step.fleet, step.oldest, step.queued, step.now, step.r);
    Pass(Ended(step.fleet.members, step.queued, step.now),
         if mark.Some? then Some((mark.value.0.id, Mark(mark.value.1.id, step.now))) else None,
         set m | m in step.fleet.members :: m.id, sets)
  }

  /** The marks a batch leaves before it sets its own: an ended one goes only while it is still the one read. */
  function Cleared(marks: map<nat, Mark>, p: Pass): map<nat, Mark> {
    map h | h in marks && !(h in p.clear && p.clear[h] == marks[h].task) :: marks[h]
  }

  /** A batch: the guarded clears, then the mark, while its host has none. */
  function Written(w: World, p: Pass): World {
    var left := Cleared(w.marks, p);
    if p.mark.Some? && p.mark.value.0 !in left
       then w.(marks := left[p.mark.value.0 := p.mark.value.1], sets := w.sets + 1)
    else w.(marks := left)
  }

  function Next(w: World, step: Step): World {
    match step
    case Reading(_, _, _, _, _) => w.(passes := w.passes + [Decided(step, w.sets)])
    case Writing(at) => if at < |w.passes| then Written(w, w.passes[at]) else w
    case Leasing(task) => w.(marks := map h | h in w.marks && w.marks[h].task != task :: w.marks[h])
  }

  ghost predicate Allowed(w: World, step: Step) {
    step.Reading? ==> ReadsMarks(w.marks, step.fleet.members)
  }

  ghost function Run(steps: seq<Step>): Option<World> {
    if steps == [] then Some(World(map[], 0, []))
    else match Run(steps[..|steps| - 1])
      case None => None
      case Some(w) => if Allowed(w, steps[|steps| - 1]) then Some(Next(w, steps[|steps| - 1])) else None
  }

  /** Whether a pass's batch still stands on what it read: no mark set since, and every marked host among those read. */
  predicate Fresh(w: World, p: Pass) {
    p.sets == w.sets && w.marks.Keys <= p.seen
  }

  /** Every mark of a run was set by a pass still fresh. */
  ghost predicate Unraced(steps: seq<Step>) {
    steps == [] ||
    (Unraced(steps[..|steps| - 1]) &&
     match Run(steps[..|steps| - 1])
     case None => true
     case Some(w) => Lands(w, steps[|steps| - 1]))
  }

  predicate Lands(w: World, step: Step) {
    step.Writing? && step.at < |w.passes| && w.passes[step.at].mark.Some? ==> Fresh(w, w.passes[step.at])
  }

  ghost predicate One(marks: map<nat, Mark>) {
    forall a, b | a in marks && b in marks :: a == b
  }

  /** A pass that sets a mark ends every mark it read, unless one was set since. */
  ghost predicate EndsAll(w: World, p: Pass) {
    && p.sets <= w.sets
    && (p.mark.Some? && p.sets == w.sets ==> forall h | h in w.marks && h in p.seen ::
          h in p.clear && p.clear[h] == w.marks[h].task)
  }

  ghost predicate Inv(w: World) {
    forall p {:trigger EndsAll(w, p)} | p in w.passes :: EndsAll(w, p)
  }

  lemma {:induction false} EndedIs(members: seq<Member>, queued: set<nat>, now: int, m: Member)
    requires OneEach(members) && m in members
    ensures Ends(m, queued, now) ==>
              m.id in Ended(members, queued, now) && Ended(members, queued, now)[m.id] == m.reserving.value.task
    decreases |members|
  {
    hide Ends;
    var rest, last := members[..|members| - 1], members[|members| - 1];
    assert members == rest + [last];
    if m in rest {
      assert m.id != last.id;
      EndedIs(rest, queued, now, m);
    }
  }

  lemma ReadingKeeps(w: World, step: Step)
    requires Inv(w) && step.Reading? && Allowed(w, step)
    ensures Inv(Next(w, step))
  {
    hide Ends, Weigh;
    var after, p := Next(w, step), Decided(step, w.sets);
    forall q | q in after.passes ensures EndsAll(after, q) {
      if q in w.passes {
        assert EndsAll(w, q);
      } else if p.mark.Some? {
        forall h | h in w.marks && h in p.seen ensures h in p.clear && p.clear[h] == w.marks[h].task {
          var m :| m in step.fleet.members && m.id == h;
          assert !Stands(m, step.queued, step.now);
          EndedIs(step.fleet.members, step.queued, step.now, m);
        }
      }
    }
  }

  lemma StepKeeps(w: World, step: Step)
    requires Inv(w) && Allowed(w, step)
    ensures Inv(Next(w, step))
  {
    if step.Reading? {
      ReadingKeeps(w, step);
    } else {
      var after := Next(w, step);
      forall q | q in after.passes ensures EndsAll(after, q) {
        assert EndsAll(w, q);
      }
    }
  }

  lemma {:induction false} RunKeeps(steps: seq<Step>)
    requires Run(steps).Some?
    ensures Inv(Run(steps).value)
    decreases |steps|
  {
    hide Inv, Next, Allowed;
    if steps == [] {
      assert Inv(World(map[], 0, [])) by { NothingRead(); }
    } else {
      RunKeeps(steps[..|steps| - 1]);
      StepKeeps(Run(steps[..|steps| - 1]).value, steps[|steps| - 1]);
    }
  }

  lemma NothingRead()
    ensures Inv(World(map[], 0, []))
  {
  }

  /**
   * One mark at a time, over any run of claims, whichever times they read at:
   * as long as every mark is set by a claim that read each host then marked,
   * with none set since, at most one host ever carries one.
   */
  lemma {:induction false} OneMark(steps: seq<Step>)
    requires Run(steps).Some? && Unraced(steps)
    ensures One(Run(steps).value.marks)
    decreases |steps|
  {
    hide Next, Allowed, Lands;
    if steps != [] {
      OneMark(steps[..|steps| - 1]);
      RunKeeps(steps[..|steps| - 1]);
      StepOne(Run(steps[..|steps| - 1]).value, steps[|steps| - 1]);
    }
  }

  lemma StepOne(w: World, step: Step)
    requires Inv(w) && One(w.marks) && Lands(w, step)
    ensures One(Next(w, step).marks)
  {
    if step.Writing? && step.at < |w.passes| {
      assert EndsAll(w, w.passes[step.at]);
    }
  }

  /**
   * When a second mark is set: exactly when the batch's clears leave another
   * host's mark and none on its own; that mark was set after the claim read,
   * or is of a host the claim did not read.
   */
  lemma SecondMark(steps: seq<Step>, at: nat)
    requires Run(steps).Some? && One(Run(steps).value.marks) && at < |Run(steps).value.passes|
    ensures var w := Run(steps).value;
            var p, left := w.passes[at], Cleared(w.marks, w.passes[at]);
            && (!One(Next(w, Writing(at)).marks) <==> p.mark.Some? && p.mark.value.0 !in left && left != map[])
            && (!One(Next(w, Writing(at)).marks) ==> p.sets < w.sets || exists h | h in left :: h !in p.seen)
  {
    hide Run;
    RunKeeps(steps);
    var w := Run(steps).value;
    var p, left := w.passes[at], Cleared(w.marks, w.passes[at]);
    assert EndsAll(w, p);
    if p.mark.Some? && p.mark.value.0 !in left && left != map[] {
      var h :| h in left;
      var after := Next(w, Writing(at)).marks;
      assert h in after && p.mark.value.0 in after && h != p.mark.value.0;
    }
  }
}
