/** Preserving a workspace's disk across tasks: stopTask and preserveDisk.record in
    internal/mgmtapi/workspacecrud.go, setWorkspaceSnapshot in internal/mgmtapi/state.go, and the
    stop and drop commands of internal/runner/runner.go.

    Any number of stops of one workspace may be in flight. Each is a sequence of steps, a crash may
    fall between any two, and the read and the write of the row's transaction are separate steps,
    so the result does not depend on the database serialising them. */
module Snapshots {
  import opened Decimal

  type SnapshotId = nat
  type Op = nat

  /** Where one stop has got to. */
  datatype Phase =
    | Stopping                                                     // the stop command is with the runner
    | Preserved(id: SnapshotId)                                    // the runner answered with a snapshot
    | RowRead(id: SnapshotId, previous: Option<SnapshotId>)        // the row has been read
    | Displaced(stale: SnapshotId)                                 // the row is written; the old one remains

  datatype World = World(
    row: Option<SnapshotId>,       // workspace.snapshot_id
    ops: map<Op, Phase>,
    made: set<SnapshotId>,         // history: every id a runner has answered with
    sent: set<SnapshotId>,         // history: every id sent to drop_snapshot
    dropped: set<SnapshotId>)      // history: every id actually deleted

  datatype Event =
    | Begin(op: Op)
    | Answer(op: Op, id: SnapshotId)   // the runner stopped the task and preserved its disk
    | ReadRow(op: Op)
    | WriteRow(op: Op)
    | Drop(op: Op, done: bool)         // drop_snapshot is sent; whether it is carried out is not known
    | Abandon(op: Op)                  // nothing to preserve, no runner, or an error
    | Crash                            // the control plane forgets every stop in flight

  const INIT := World(None, map[], {}, {}, {})

  function Step(w: World, e: Event): World {
    match e
    case Begin(op) => if op in w.ops then w else w.(ops := w.ops[op := Stopping])
    case Answer(op, id) =>
      if op !in w.ops || !w.ops[op].Stopping? then w
      else w.(ops := w.ops[op := Preserved(id)], made := w.made + {id})
    case ReadRow(op) =>
      if op !in w.ops || !w.ops[op].Preserved? then w
      else w.(ops := w.ops[op := RowRead(w.ops[op].id, w.row)])
    case WriteRow(op) =>
      if op !in w.ops || !w.ops[op].RowRead? then w
      else
        var p := w.ops[op];
        // the same snapshot written twice displaces nothing
        w.(row := Some(p.id),
           ops := if p.previous.Some? && p.previous.value != p.id
                  then w.ops[op := Displaced(p.previous.value)] else w.ops - {op})
    case Drop(op, done) =>
      if op !in w.ops || !w.ops[op].Displaced? then w
      else
        var id := w.ops[op].stale;
        w.(ops := w.ops - {op}, sent := w.sent + {id}, dropped := if done then w.dropped + {id} else w.dropped)
    case Abandon(op) => w.(ops := w.ops - {op})
    case Crash => w.(ops := map[])
  }

  function Run(w: World, es: seq<Event>): World {
    if es == [] then w else Step(Run(w, es[..|es| - 1]), es[|es| - 1])
  }

  /** The snapshot the row names was never sent to drop_snapshot, so it still exists. */
  predicate Safe(w: World) {
    w.row.Some? ==> w.row.value !in w.sent && w.row.value !in w.dropped
  }

  /** An id some stop is about to drop, or has already sent. */
  predicate Doomed(w: World, id: SnapshotId) {
    id in w.sent || exists op :: op in w.ops && w.ops[op] == Displaced(id)
  }

  /** This event does not put a doomed id back into the row. */
  predicate CleanWrite(w: World, e: Event) {
    e.WriteRow? && e.op in w.ops && w.ops[e.op].RowRead? ==> !Doomed(w, w.ops[e.op].id)
  }

  predicate CleanWrites(w: World, es: seq<Event>) {
    forall i :: 0 <= i < |es| ==> CleanWrite(Run(w, es[..i]), es[i])
  }

  predicate Inv(w: World) {
    && (w.row.Some? ==> !Doomed(w, w.row.value))
    && w.dropped <= w.sent
  }

  lemma StepKeeps(w: World, e: Event)
    requires Inv(w) && CleanWrite(w, e)
    ensures Inv(Step(w, e))
  {
    if Step(w, e).row.Some? {
      forall op | op in Step(w, e).ops { NotDisplaced(w, e, op); }
    }
  }

  lemma NotDisplaced(w: World, e: Event, op: Op)
    requires Inv(w) && CleanWrite(w, e) && op in Step(w, e).ops && Step(w, e).row.Some?
    ensures Step(w, e).ops[op] != Displaced(Step(w, e).row.value)
  {
    var id := Step(w, e).row.value;
    assert op in w.ops && w.ops[op] == Displaced(id) ==> Doomed(w, id);
  }

  lemma {:induction false} RunKeeps(w: World, es: seq<Event>)
    requires Inv(w) && CleanWrites(w, es)
    ensures Inv(Run(w, es))
  {
    if es != [] {
      var init := es[..|es| - 1];
      forall i | 0 <= i < |init| ensures CleanWrite(Run(w, init[..i]), init[i]) {
        assert init[..i] == es[..i] && init[i] == es[i];
        assert CleanWrite(Run(w, es[..i]), es[i]);
      }
      RunKeeps(w, init);
      assert CleanWrite(Run(w, es[..|es| - 1]), es[|es| - 1]);
      StepKeeps(Run(w, init), es[|es| - 1]);
    }
  }

  // ---------------------------------------------------------------------------------------
  // Fresh ids make every write clean
  // ---------------------------------------------------------------------------------------

  /** No runner answers with an id that has been answered before. */
  predicate FreshIds(w: World, es: seq<Event>) {
    forall i :: 0 <= i < |es| && es[i].Answer? ==> es[i].id !in Run(w, es[..i]).made
  }

  predicate Holds(p: Phase, id: SnapshotId) { (p.Preserved? || p.RowRead?) && p.id == id }

  /** An id a stop is still carrying is its alone, and neither the row nor any other stop has it. */
  predicate Owned(w: World, op: Op)
    requires op in w.ops
  {
    var p := w.ops[op];
    p.Preserved? || p.RowRead? ==>
      && p.id in w.made
      && !Doomed(w, p.id)
      && w.row != Some(p.id)
      && (p.RowRead? ==> p.previous != Some(p.id))
      && (forall o :: o in w.ops && o != op ==>
            !Holds(w.ops[o], p.id) && !(w.ops[o].RowRead? && w.ops[o].previous == Some(p.id)))
  }

  predicate OwnInv(w: World) {
    && (forall op :: op in w.ops ==> Owned(w, op))
    && (forall id :: id in w.sent ==> id in w.made)
    && (forall op :: op in w.ops && w.ops[op].Displaced? ==> w.ops[op].stale in w.made)
    && (forall op :: op in w.ops && w.ops[op].RowRead? && w.ops[op].previous.Some? ==>
          w.ops[op].previous.value in w.made)
    && (w.row.Some? ==> w.row.value in w.made)
  }

  lemma StepOwns(w: World, e: Event)
    requires OwnInv(w) && (e.Answer? ==> e.id !in w.made)
    ensures OwnInv(Step(w, e))
  {
    var w' := Step(w, e);
    forall op | op in w'.ops ensures Owned(w', op) {
      if op in w.ops { assert Owned(w, op); }
      var p := w'.ops[op];
      if (p.Preserved? || p.RowRead?) && Doomed(w', p.id) { DoomedFrom(w, e, p.id); }
    }
  }

  /** A step dooms nothing but what a displacing write reads out of the row. */
  lemma DoomedFrom(w: World, e: Event, id: SnapshotId)
    requires Doomed(Step(w, e), id)
    ensures Doomed(w, id) || (e.WriteRow? && e.op in w.ops && w.ops[e.op].RowRead? && w.ops[e.op].previous == Some(id))
  {
    var w' := Step(w, e);
    if id !in w'.sent {
      var op :| op in w'.ops && w'.ops[op] == Displaced(id);
      if op in w.ops && w.ops[op] == Displaced(id) { assert Doomed(w, id); }
    } else if id !in w.sent {
      assert w.ops[e.op] == Displaced(id);
    }
  }

  lemma {:induction false} FreshRunOwns(w: World, es: seq<Event>)
    requires OwnInv(w) && FreshIds(w, es)
    ensures OwnInv(Run(w, es))
  {
    if es != [] {
      FreshPrefix(w, es, |es| - 1);
      FreshRunOwns(w, es[..|es| - 1]);
      StepOwns(Run(w, es[..|es| - 1]), es[|es| - 1]);
    }
  }

  lemma FreshPrefix(w: World, es: seq<Event>, n: nat)
    requires FreshIds(w, es) && n <= |es|
    ensures FreshIds(w, es[..n])
  {
    forall i | 0 <= i < n && es[i].Answer? ensures es[..n][i].id !in Run(w, es[..n][..i]).made {
      assert es[..n][..i] == es[..i];
    }
  }

  lemma FreshIdsWriteClean(es: seq<Event>)
    requires FreshIds(INIT, es)
    ensures CleanWrites(INIT, es)
  {
    forall i | 0 <= i < |es| ensures CleanWrite(Run(INIT, es[..i]), es[i]) {
      FreshPrefix(INIT, es, i);
      FreshRunOwns(INIT, es[..i]);
      var w := Run(INIT, es[..i]);
      if es[i].WriteRow? && es[i].op in w.ops { assert Owned(w, es[i].op); }
    }
  }

  // ---------------------------------------------------------------------------------------
  // The promises
  // ---------------------------------------------------------------------------------------

  /** Over every run with fresh snapshot ids, crashes anywhere included, the row names a snapshot
      that was never sent for deletion, and what a stop is about to delete is not what it names. */
  lemma SnapshotNeverLost(es: seq<Event>)
    requires FreshIds(INIT, es)
    ensures var w := Run(INIT, es);
      && Safe(w)
      && (forall op :: op in w.ops && w.ops[op].Displaced? ==> w.row != Some(w.ops[op].stale))
  {
    FreshIdsWriteClean(es);
    RunKeeps(INIT, es);
    var w := Run(INIT, es);
    forall op | op in w.ops && w.ops[op].Displaced? ensures w.row != Some(w.ops[op].stale) {
      if w.row == Some(w.ops[op].stale) { assert Doomed(w, w.row.value); }
    }
  }

  /** After a write of a doomed id the row's snapshot has been sent for
      deletion, or one more step sends it. */
  lemma DoomedWriteIsUnsafe(w: World, e: Event)
    requires !CleanWrite(w, e)
    ensures var w' := Step(w, e);
      !Safe(w') || exists op, done :: !Safe(Step(w', Drop(op, done)))
  {
    var w' := Step(w, e);
    var id := w.ops[e.op].id;
    if id !in w.sent {
      var op :| op in w.ops && w.ops[op] == Displaced(id);
      assert op != e.op && w'.ops[op] == Displaced(id);
      assert !Safe(Step(w', Drop(op, true)));
    }
  }

  /** Safe at this point, and whichever drop comes next. */
  ghost predicate SafeWithNextDrop(w: World) {
    Safe(w) && forall op, done :: Safe(Step(w, Drop(op, done)))
  }

  /** Exactly when: a run is safe at every point, whichever drop comes next, if and only if no write
      puts back an id that has been sent for deletion or is about to be. */
  lemma SafeExactly(es: seq<Event>)
    ensures CleanWrites(INIT, es) <==> forall n: nat :: n <= |es| ==> SafeWithNextDrop(Run(INIT, es[..n]))
  {
    if CleanWrites(INIT, es) {
      forall n: nat | n <= |es| ensures SafeWithNextDrop(Run(INIT, es[..n])) {
        forall i | 0 <= i < n ensures CleanWrite(Run(INIT, es[..n][..i]), es[..n][i]) {
          assert es[..n][..i] == es[..i];
        }
        RunKeeps(INIT, es[..n]);
        forall op, done ensures Safe(Step(Run(INIT, es[..n]), Drop(op, done))) {
          StepKeeps(Run(INIT, es[..n]), Drop(op, done));
        }
      }
    } else {
      var i :| 0 <= i < |es| && !CleanWrite(Run(INIT, es[..i]), es[i]);
      DoomedWriteIsUnsafe(Run(INIT, es[..i]), es[i]);
      assert es[..i + 1][..i] == es[..i];
      assert !SafeWithNextDrop(Run(INIT, es[..i + 1]));
    }
  }

  // ---------------------------------------------------------------------------------------
  // A repeated id loses a snapshot
  // ---------------------------------------------------------------------------------------

  /** A stop that gets as far as its write. */
  function Stopped(op: Op, id: SnapshotId): seq<Event> { [Begin(op), Answer(op, id)] + [ReadRow(op), WriteRow(op)] }

  lemma {:induction false} RunConcat(w: World, es: seq<Event>, later: seq<Event>)
    ensures Run(w, es + later) == Run(Run(w, es), later)
  {
    if later == [] {
      assert es + later == es;
    } else {
      assert (es + later)[..|es + later| - 1] == es + later[..|later| - 1];
      RunConcat(w, es, later[..|later| - 1]);
    }
  }

  lemma RunTwo(w: World, a: Event, b: Event)
    ensures Run(w, [a, b]) == Step(Step(w, a), b)
  {
    RunOne(w, a);
    assert [a, b][..1] == [a];
  }

  lemma RunOne(w: World, e: Event)
    ensures Run(w, [e]) == Step(w, e)
  {
    assert [e][..0] == [];
  }

  lemma Answered(w: World, op: Op, id: SnapshotId)
    requires op !in w.ops
    ensures var v := Run(w, [Begin(op), Answer(op, id)]);
      v.row == w.row && v.sent == w.sent && v.ops == w.ops[op := Preserved(id)]
  {
    RunTwo(w, Begin(op), Answer(op, id));
    assert w.ops[op := Stopping][op := Preserved(id)] == w.ops[op := Preserved(id)];
  }

  lemma Written(w: World, op: Op)
    requires op in w.ops && w.ops[op].Preserved?
    ensures var v, id := Run(w, [ReadRow(op), WriteRow(op)]), w.ops[op].id;
      && v.row == Some(id) && v.sent == w.sent
      && v.ops == if w.row.Some? && w.row.value != id then w.ops[op := Displaced(w.row.value)] else w.ops - {op}
  {
    RunTwo(w, ReadRow(op), WriteRow(op));
    assert w.ops[op := RowRead(w.ops[op].id, w.row)] - {op} == w.ops - {op};
  }

  lemma StoppedRuns(w: World, op: Op, id: SnapshotId)
    requires op !in w.ops
    ensures var v := Run(w, Stopped(op, id));
      && v.row == Some(id) && v.sent == w.sent
      && v.ops == if w.row.Some? && w.row.value != id then w.ops[op := Displaced(w.row.value)] else w.ops
  {
    RunConcat(w, [Begin(op), Answer(op, id)], [ReadRow(op), WriteRow(op)]);
    Answered(w, op, id);
    Written(Run(w, [Begin(op), Answer(op, id)]), op);
    assert w.ops[op := Preserved(id)] - {op} == w.ops;
  }

  /** Three stops, the third answered with the first one's snapshot while the second has yet to drop it. */
  function RepeatedId(a: SnapshotId, b: SnapshotId): seq<Event> {
    Stopped(1, a) + Stopped(2, b) + Stopped(3, a) + [Drop(2, true)]
  }

  /** For any two ids, the run from the start that loses the snapshot the row names. */
  lemma RepeatedIdLosesSnapshot(a: SnapshotId, b: SnapshotId)
    requires a != b
    ensures var w := Run(INIT, RepeatedId(a, b)); w.row == Some(a) && a in w.dropped && !Safe(w)
  {
    RunConcat(INIT, Stopped(1, a), Stopped(2, b));
    RunConcat(INIT, Stopped(1, a) + Stopped(2, b), Stopped(3, a));
    RunConcat(INIT, Stopped(1, a) + Stopped(2, b) + Stopped(3, a), [Drop(2, true)]);
    StoppedRuns(INIT, 1, a);
    StoppedRuns(Run(INIT, Stopped(1, a)), 2, b);
    StoppedRuns(Run(Run(INIT, Stopped(1, a)), Stopped(2, b)), 3, a);
    RunOne(Run(Run(Run(INIT, Stopped(1, a)), Stopped(2, b)), Stopped(3, a)), Drop(2, true));
  }

  // ---------------------------------------------------------------------------------------
  // The code that writes the row and collects what it displaced
  // ---------------------------------------------------------------------------------------

  class WorkspaceRow {
    var snapshot: Option<SnapshotId>

    constructor ()
      ensures snapshot == None
    {
      snapshot := None;
    }

    /** Returns what was displaced, and nothing if the same snapshot is written twice. */
    method SetSnapshot(id: SnapshotId) returns (previous: Option<SnapshotId>)
      modifies this
      ensures snapshot == Some(id)
      ensures previous.Some? ==> old(snapshot) == previous && previous != snapshot
      ensures previous.None? ==> old(snapshot) == None || old(snapshot) == snapshot
    {
      previous := snapshot;
      snapshot := Some(id);
      if previous == Some(id) {
        previous := None;
      }
    }

    /** preserveDisk.record: the row first, the displaced snapshot afterwards. `answer` is what the
        runner preserved, if anything; without a runner the displaced snapshot is left behind. */
    method Record(keep: bool, answer: Option<SnapshotId>, runner: bool) returns (drops: seq<SnapshotId>)
      modifies this
      ensures !keep || answer.None? ==> snapshot == old(snapshot) && drops == []
      ensures keep && answer.Some? ==> snapshot == answer
      ensures |drops| <= 1 && (forall id :: id in drops ==> old(snapshot) == Some(id) && snapshot != Some(id))
      ensures keep && answer.Some? && runner && old(snapshot).Some? && old(snapshot) != answer ==>
        drops == [old(snapshot).value]
    {
      drops := [];
      if !keep || answer.None? {
        return;
      }
      var previous := SetSnapshot(answer.value);
      if previous.None? {
        return;
      }
      if !runner {
        return;
      }
      drops := [previous.value];
    }
  }
}
