/** Concurrent checks and API readers (internal/daemon/daemon.go, internal/api/server.go) as a state machine.
    Any number of goroutines try to run checks and any number read the published state,
    step by step in every interleaving.
    The snapshot and the decisions are written under one write lock, but read under two separate read locks. */
module Publication {
  import opened Lists
  import opened Config
  import opened Collector
  import opened Engine

  datatype Checker =
    | Idle
    | Holding
    | Collected(s: Snapshot)
    | Evaluated(s: Snapshot, ds: seq<Decision>)
    | Writing(s: Snapshot, ds: seq<Decision>)
    | HalfWritten(s: Snapshot, ds: seq<Decision>)
    | Written
    | Acting

  /** A reader takes the snapshot first and the decisions later; generations count publications. */
  datatype Reader =
    | Resting
    | ReadingSnapshot
    | Between(sGen: nat, s: Option<Snapshot>)
    | ReadingDecisions(sGen: nat, s: Option<Snapshot>)
    | Done(sGen: nat, s: Option<Snapshot>, dGen: nat, ds: seq<Decision>)

  datatype Pair = Pair(s: Snapshot, ds: seq<Decision>)

  /** `checkMu` and `writer` are the holders of the check lock and of the write lock on the published state,
      `inside` the readers holding its read lock. `history` lists the publications so far;
      `sGen` and `dGen` say which of them the stored snapshot and the stored decisions belong to. */
  datatype State = State(
    checkMu: Option<nat>, writer: Option<nat>, inside: set<nat>,
    checkers: map<nat, Checker>, readers: map<nat, Reader>,
    snapshot: Option<Snapshot>, decisions: seq<Decision>,
    history: seq<Pair>, sGen: nat, dGen: nat)

  datatype Step =
    | TryLock(c: nat)
    | Skip(c: nat)
    | Collect(c: nat, found: Snapshot)
    | Evaluate(c: nat, decided: seq<Decision>)
    | LockLatest(c: nat)
    | WriteSnapshot(c: nat)
    | WriteDecisions(c: nat)
    | UnlockLatest(c: nat)
    | Finish(c: nat)
    | LockSnapshot(r: nat)
    | ReadSnapshot(r: nat)
    | LockDecisions(r: nat)
    | ReadDecisions(r: nat)

  ghost predicate Initial(st: State) {
    && st.checkMu == None && st.writer == None && st.inside == {}
    && (forall c :: c in st.checkers ==> st.checkers[c] == Idle)
    && (forall r :: r in st.readers ==> st.readers[r] == Resting)
    && st.snapshot == None && st.decisions == [] && st.history == [] && st.sGen == st.dGen == 0
  }

  /** When a step can be taken. */
  ghost predicate Enabled(policies: map<string, Policy>, st: State, step: Step) {
    match step
    case TryLock(c) => c in st.checkers && st.checkers[c] == Idle && st.checkMu == None
    case Skip(c) => c in st.checkers && st.checkers[c] == Idle && st.checkMu != None
    case Collect(c, found) => c in st.checkers && st.checkers[c] == Holding && Indexed(found)
    case Evaluate(c, decided) =>
      c in st.checkers && st.checkers[c].Collected? && PossibleEvaluation(policies, st.checkers[c].s, decided)
    case LockLatest(c) => c in st.checkers && st.checkers[c].Evaluated? && st.writer == None && st.inside == {}
    case WriteSnapshot(c) => c in st.checkers && st.checkers[c].Writing?
    case WriteDecisions(c) => c in st.checkers && st.checkers[c].HalfWritten?
    case UnlockLatest(c) => c in st.checkers && st.checkers[c] == Written
    case Finish(c) => c in st.checkers && st.checkers[c] == Acting
    case LockSnapshot(r) => r in st.readers && (st.readers[r].Resting? || st.readers[r].Done?) && st.writer == None
    case ReadSnapshot(r) => r in st.readers && st.readers[r] == ReadingSnapshot
    case LockDecisions(r) => r in st.readers && st.readers[r].Between? && st.writer == None
    case ReadDecisions(r) => r in st.readers && st.readers[r].ReadingDecisions?
  }

  /** What a step does. */
  ghost function Apply(policies: map<string, Policy>, st: State, step: Step): State
    requires Enabled(policies, st, step)
  {
    match step
    case TryLock(c) => st.(checkMu := Some(c), checkers := st.checkers[c := Holding])
    case Skip(_) => st
    case Collect(c, found) => st.(checkers := st.checkers[c := Collected(found)])
    case Evaluate(c, decided) => st.(checkers := st.checkers[c := Evaluated(st.checkers[c].s, decided)])
    case LockLatest(c) =>
      st.(writer := Some(c), checkers := st.checkers[c := Writing(st.checkers[c].s, st.checkers[c].ds)])
    case WriteSnapshot(c) =>
      var pc := st.checkers[c];
      st.(snapshot := Some(pc.s), history := st.history + [Pair(pc.s, pc.ds)], sGen := |st.history| + 1,
          checkers := st.checkers[c := HalfWritten(pc.s, pc.ds)])
    case WriteDecisions(c) =>
      st.(decisions := st.checkers[c].ds, dGen := |st.history|, checkers := st.checkers[c := Written])
    case UnlockLatest(c) => st.(writer := None, checkers := st.checkers[c := Acting])
    case Finish(c) => st.(checkMu := None, checkers := st.checkers[c := Idle])
    case LockSnapshot(r) => st.(inside := st.inside + {r}, readers := st.readers[r := ReadingSnapshot])
    case ReadSnapshot(r) => st.(inside := st.inside - {r}, readers := st.readers[r := Between(st.sGen, st.snapshot)])
    case LockDecisions(r) =>
      st.(inside := st.inside + {r}, readers := st.readers[r := ReadingDecisions(st.readers[r].sGen, st.readers[r].s)])
    case ReadDecisions(r) =>
      st.(inside := st.inside - {r},
          readers := st.readers[r := Done(st.readers[r].sGen, st.readers[r].s, st.dGen, st.decisions)])
  }

  ghost predicate Next(policies: map<string, Policy>, st: State, st': State) {
    exists step :: Enabled(policies, st, step) && st' == Apply(policies, st, step)
  }

  /** A run: consecutive states from an initial one. */
  ghost predicate Behaviour(policies: map<string, Policy>, states: seq<State>) {
    && states != [] && Initial(states[0])
    && forall i :: 0 <= i < |states| - 1 ==> Next(policies, states[i], states[i + 1])
  }

  // ---------------------------------------------------------------- the invariant

  ghost predicate Sound(policies: map<string, Policy>, p: Pair) {
    Indexed(p.s) && PossibleEvaluation(policies, p.s, p.ds)
  }

  function SnapshotAt(history: seq<Pair>, gen: nat): Option<Snapshot> {
    if 0 < gen <= |history| then Some(history[gen - 1].s) else None
  }

  function DecisionsAt(history: seq<Pair>, gen: nat): seq<Decision> {
    if 0 < gen <= |history| then history[gen - 1].ds else []
  }

  ghost predicate CheckerFits(policies: map<string, Policy>, st: State, c: nat, pc: Checker) {
    && (st.checkMu == Some(c) <==> pc != Idle)
    && (st.writer == Some(c) <==> pc.Writing? || pc.HalfWritten? || pc.Written?)
    && match pc
       case Collected(s) => Indexed(s)
       case Evaluated(s, ds) => Sound(policies, Pair(s, ds))
       case Writing(s, ds) => Sound(policies, Pair(s, ds)) && st.dGen == st.sGen
       case HalfWritten(s, ds) => st.dGen + 1 == st.sGen && st.history != [] && Last(st.history) == Pair(s, ds)
       case Written => st.dGen == st.sGen
       case _ => true
  }

  ghost predicate ReaderFits(st: State, r: nat, pc: Reader) {
    && (r in st.inside <==> pc.ReadingSnapshot? || pc.ReadingDecisions?)
    && match pc
       case Between(g, s) => g <= st.dGen && s == SnapshotAt(st.history, g)
       case ReadingDecisions(g, s) => g <= st.dGen && s == SnapshotAt(st.history, g)
       case Done(g, s, h, ds) =>
         g <= h <= st.dGen && s == SnapshotAt(st.history, g) && ds == DecisionsAt(st.history, h)
       case _ => true
  }

  ghost predicate Inv(policies: map<string, Policy>, st: State) {
    && (st.checkMu.Some? ==> st.checkMu.value in st.checkers)
    && (st.writer.Some? ==> st.writer.value in st.checkers && st.inside == {})
    && st.inside <= st.readers.Keys
    && st.dGen <= st.sGen == |st.history|
    && (st.writer == None ==> st.dGen == st.sGen)
    && st.snapshot == SnapshotAt(st.history, st.sGen) && st.decisions == DecisionsAt(st.history, st.dGen)
    && (forall i :: 0 <= i < |st.history| ==> Sound(policies, st.history[i]))
    && (forall c :: c in st.checkers ==> CheckerFits(policies, st, c, st.checkers[c]))
    && (forall r :: r in st.readers ==> ReaderFits(st, r, st.readers[r]))
  }

  lemma TryLockKeeps(policies: map<string, Policy>, st: State, step: Step)
    requires Inv(policies, st) && step.TryLock? && Enabled(policies, st, step)
    ensures Inv(policies, Apply(policies, st, step))
  {
    hide PossibleEvaluation, Indexed;
  }

  lemma CollectKeeps(policies: map<string, Policy>, st: State, step: Step)
    requires Inv(policies, st) && step.Collect? && Enabled(policies, st, step)
    ensures Inv(policies, Apply(policies, st, step))
  {
    hide PossibleEvaluation, Indexed;
  }

  lemma EvaluateKeeps(policies: map<string, Policy>, st: State, step: Step)
    requires Inv(policies, st) && step.Evaluate? && Enabled(policies, st, step)
    ensures Inv(policies, Apply(policies, st, step))
  {
    hide PossibleEvaluation, Indexed;
  }

  lemma LockLatestKeeps(policies: map<string, Policy>, st: State, step: Step)
    requires Inv(policies, st) && step.LockLatest? && Enabled(policies, st, step)
    ensures Inv(policies, Apply(policies, st, step))
  {
    hide PossibleEvaluation, Indexed;
  }

  lemma WriteSnapshotKeeps(policies: map<string, Policy>, st: State, step: Step)
    requires Inv(policies, st) && step.WriteSnapshot? && Enabled(policies, st, step)
    ensures Inv(policies, Apply(policies, st, step))
  {
    hide PossibleEvaluation, Indexed;
  }

  lemma WriteDecisionsKeeps(policies: map<string, Policy>, st: State, step: Step)
    requires Inv(policies, st) && step.WriteDecisions? && Enabled(policies, st, step)
    ensures Inv(policies, Apply(policies, st, step))
  {
    hide PossibleEvaluation, Indexed;
  }

  lemma UnlockLatestKeeps(policies: map<string, Policy>, st: State, step: Step)
    requires Inv(policies, st) && step.UnlockLatest? && Enabled(policies, st, step)
    ensures Inv(policies, Apply(policies, st, step))
  {
    hide PossibleEvaluation, Indexed;
  }

  lemma FinishKeeps(policies: map<string, Policy>, st: State, step: Step)
    requires Inv(policies, st) && step.Finish? && Enabled(policies, st, step)
    ensures Inv(policies, Apply(policies, st, step))
  {
    hide PossibleEvaluation, Indexed;
  }

  lemma LockSnapshotKeeps(policies: map<string, Policy>, st: State, step: Step)
    requires Inv(policies, st) && step.LockSnapshot? && Enabled(policies, st, step)
    ensures Inv(policies, Apply(policies, st, step))
  {
    hide PossibleEvaluation, Indexed;
  }

  lemma ReadSnapshotKeeps(policies: map<string, Policy>, st: State, step: Step)
    requires Inv(policies, st) && step.ReadSnapshot? && Enabled(policies, st, step)
    ensures Inv(policies, Apply(policies, st, step))
  {
    hide PossibleEvaluation, Indexed;
  }

  lemma LockDecisionsKeeps(policies: map<string, Policy>, st: State, step: Step)
    requires Inv(policies, st) && step.LockDecisions? && Enabled(policies, st, step)
    ensures Inv(policies, Apply(policies, st, step))
  {
    hide PossibleEvaluation, Indexed;
  }

  lemma ReadDecisionsKeeps(policies: map<string, Policy>, st: State, step: Step)
    requires Inv(policies, st) && step.ReadDecisions? && Enabled(policies, st, step)
    ensures Inv(policies, Apply(policies, st, step))
  {
    hide PossibleEvaluation, Indexed;
  }

  lemma StepKeepsInvariant(policies: map<string, Policy>, st: State, step: Step)
    requires Inv(policies, st) && Enabled(policies, st, step)
    ensures Inv(policies, Apply(policies, st, step))
  {
    match step {
      case Skip(_) =>
      case TryLock(_) => TryLockKeeps(policies, st, step);
      case Collect(_, _) => CollectKeeps(policies, st, step);
      case Evaluate(_, _) => EvaluateKeeps(policies, st, step);
      case LockLatest(_) => LockLatestKeeps(policies, st, step);
      case WriteSnapshot(_) => WriteSnapshotKeeps(policies, st, step);
      case WriteDecisions(_) => WriteDecisionsKeeps(policies, st, step);
      case UnlockLatest(_) => UnlockLatestKeeps(policies, st, step);
      case Finish(_) => FinishKeeps(policies, st, step);
      case LockSnapshot(_) => LockSnapshotKeeps(policies, st, step);
      case ReadSnapshot(_) => ReadSnapshotKeeps(policies, st, step);
      case LockDecisions(_) => LockDecisionsKeeps(policies, st, step);
      case ReadDecisions(_) => ReadDecisionsKeeps(policies, st, step);
    }
  }

  lemma {:induction false} InvariantHolds(policies: map<string, Policy>, states: seq<State>, i: nat)
    requires Behaviour(policies, states) && i < |states|
    ensures Inv(policies, states[i])
  {
    hide Inv, Next, Initial;
    if i == 0 {
      InitiallySound(policies, states[0]);
    } else {
      InvariantHolds(policies, states, i - 1);
      assert Next(policies, states[i - 1], states[i - 1 + 1]);
      NextKeepsInvariant(policies, states[i - 1], states[i]);
    }
  }

  lemma InitiallySound(policies: map<string, Policy>, st: State)
    requires Initial(st)
    ensures Inv(policies, st)
  {
  }

  lemma NextKeepsInvariant(policies: map<string, Policy>, st: State, st': State)
    requires Inv(policies, st) && Next(policies, st, st')
    ensures Inv(policies, st')
  {
    hide Inv, Enabled, Apply;
    var step :| Enabled(policies, st, step) && st' == Apply(policies, st, step);
    StepKeepsInvariant(policies, st, step);
  }

  // ---------------------------------------------------------------- every run

  /** At most one check is past the lock. */
  lemma OneCheckAtATime(policies: map<string, Policy>, states: seq<State>, i: nat, c: nat, d: nat)
    requires Behaviour(policies, states) && i < |states|
    requires c in states[i].checkers && d in states[i].checkers
    requires states[i].checkers[c] != Idle && states[i].checkers[d] != Idle
    ensures c == d
  {
    hide PossibleEvaluation, Indexed, Next;
    InvariantHolds(policies, states, i);
    assert CheckerFits(policies, states[i], c, states[i].checkers[c]);
    assert CheckerFits(policies, states[i], d, states[i].checkers[d]);
  }

  /** Whenever no writer holds the lock, the stored decisions are an evaluation of the stored snapshot. */
  lemma StoredStateConsistent(policies: map<string, Policy>, states: seq<State>, i: nat)
    requires Behaviour(policies, states) && i < |states| && states[i].writer == None
    ensures states[i].snapshot == None ==> states[i].decisions == []
    ensures states[i].snapshot.Some? ==>
      Indexed(states[i].snapshot.value) && PossibleEvaluation(policies, states[i].snapshot.value, states[i].decisions)
  {
    hide PossibleEvaluation, Indexed, Next;
    InvariantHolds(policies, states, i);
    if states[i].sGen > 0 {
      assert Sound(policies, states[i].history[states[i].sGen - 1]);
    }
  }

  /** A reader's decisions are never older than its snapshot,
      and they are an evaluation of it when nothing was published in between. */
  lemma ReaderNeverBehind(policies: map<string, Policy>, states: seq<State>, i: nat, r: nat)
    requires Behaviour(policies, states) && i < |states|
    requires r in states[i].readers && states[i].readers[r].Done?
    ensures var pc := states[i].readers[r];
      && pc.sGen <= pc.dGen <= |states[i].history|
      && (pc.s.None? <==> pc.sGen == 0)
      && (pc.sGen == pc.dGen && pc.s.Some? ==> PossibleEvaluation(policies, pc.s.value, pc.ds))
  {
    hide PossibleEvaluation, Indexed, Next;
    InvariantHolds(policies, states, i);
    var pc := states[i].readers[r];
    assert ReaderFits(states[i], r, pc);
    if pc.sGen > 0 {
      assert Sound(policies, states[i].history[pc.sGen - 1]);
    }
  }

  /** No lock on the published state is held by someone who cannot go on: its holder's next step is enabled.
      (That a waiting writer is ever let in is not claimed: this relation lets readers keep coming.) */
  lemma LockHoldersProceed(policies: map<string, Policy>, states: seq<State>, i: nat)
    requires Behaviour(policies, states) && i < |states|
    ensures var st := states[i];
      && (st.writer.Some? ==>
            var c := st.writer.value;
            || Enabled(policies, st, WriteSnapshot(c))
            || Enabled(policies, st, WriteDecisions(c))
            || Enabled(policies, st, UnlockLatest(c)))
      && (forall r :: r in st.inside ==> Enabled(policies, st, ReadSnapshot(r)) || Enabled(policies, st, ReadDecisions(r)))
      && !(st.writer.Some? && st.inside != {})
  {
    hide PossibleEvaluation, Indexed, Next;
    InvariantHolds(policies, states, i);
    var st := states[i];
    if st.writer.Some? {
      assert CheckerFits(policies, st, st.writer.value, st.checkers[st.writer.value]);
    }
    forall r | r in st.inside
      ensures Enabled(policies, st, ReadSnapshot(r)) || Enabled(policies, st, ReadDecisions(r))
    {
      assert ReaderFits(st, r, st.readers[r]);
    }
  }

  lemma Extend(policies: map<string, Policy>, states: seq<State>, step: Step) returns (longer: seq<State>)
    requires Behaviour(policies, states) && Enabled(policies, Last(states), step)
    ensures longer != [] && Behaviour(policies, longer) && Last(longer) == Apply(policies, Last(states), step)
  {
    hide Enabled, Apply, Initial;
    longer := states + [Apply(policies, Last(states), step)];
    forall i | 0 <= i < |longer| - 1
      ensures Next(policies, longer[i], longer[i + 1])
    {
      if i < |states| - 1 {
        assert Next(policies, states[i], states[i + 1]);
      }
    }
  }

  /** A state with checker 0 and reader 1, no reader inside. */
  function Duo(checkMu: Option<nat>, writer: Option<nat>, checker: Checker, reader: Reader,
               snapshot: Option<Snapshot>, decisions: seq<Decision>, history: seq<Pair>): State
  {
    State(checkMu, writer, {}, map[0 := checker], map[1 := reader], snapshot, decisions, history, |history|, |history|)
  }

  /** Between checks, with the reader anywhere outside the lock. */
  function Quiet(reader: Reader, snapshot: Option<Snapshot>, decisions: seq<Decision>, history: seq<Pair>): State {
    Duo(None, None, Idle, reader, snapshot, decisions, history)
  }

  lemma CheckUpToWriting(policies: map<string, Policy>, before: seq<State>, reader: Reader, snapshot: Option<Snapshot>,
                         decisions: seq<Decision>, history: seq<Pair>, p: Pair) returns (states: seq<State>)
    requires Behaviour(policies, before) && Last(before) == Quiet(reader, snapshot, decisions, history)
    requires Sound(policies, p)
    ensures states != [] && Behaviour(policies, states)
    ensures Last(states) == Duo(Some(0), Some(0), Writing(p.s, p.ds), reader, snapshot, decisions, history)
  {
    hide PossibleEvaluation, Indexed, Next, Behaviour;
    states := Extend(policies, before, TryLock(0));
    states := Extend(policies, states, Step.Collect(0, p.s));
    states := Extend(policies, states, Step.Evaluate(0, p.ds));
    states := Extend(policies, states, LockLatest(0));
    assert Last(states).checkers == map[0 := Writing(p.s, p.ds)];
  }

  lemma Publish(policies: map<string, Policy>, before: seq<State>, reader: Reader, snapshot: Option<Snapshot>,
                decisions: seq<Decision>, history: seq<Pair>, p: Pair) returns (states: seq<State>)
    requires Behaviour(policies, before)
    requires Last(before) == Duo(Some(0), Some(0), Writing(p.s, p.ds), reader, snapshot, decisions, history)
    ensures states != [] && Behaviour(policies, states)
    ensures Last(states) == Duo(Some(0), Some(0), Written, reader, Some(p.s), p.ds, history + [p])
  {
    hide PossibleEvaluation, Indexed, Next, Behaviour;
    states := Extend(policies, before, WriteSnapshot(0));
    states := Extend(policies, states, WriteDecisions(0));
    assert Last(states).checkers == map[0 := Written] && Last(states).history == history + [p];
  }

  lemma PublishAndFinish(policies: map<string, Policy>, before: seq<State>, reader: Reader, snapshot: Option<Snapshot>,
                         decisions: seq<Decision>, history: seq<Pair>, p: Pair) returns (states: seq<State>)
    requires Behaviour(policies, before)
    requires Last(before) == Duo(Some(0), Some(0), Writing(p.s, p.ds), reader, snapshot, decisions, history)
    ensures states != [] && Behaviour(policies, states)
    ensures Last(states) == Quiet(reader, Some(p.s), p.ds, history + [p])
  {
    hide PossibleEvaluation, Indexed, Next, Behaviour;
    states := Publish(policies, before, reader, snapshot, decisions, history, p);
    states := Extend(policies, states, UnlockLatest(0));
    states := Extend(policies, states, Finish(0));
    assert Last(states).checkers == map[0 := Idle];
  }

  /** A whole check can go by while the reader does nothing. */
  lemma CheckGoesBy(policies: map<string, Policy>, before: seq<State>, reader: Reader, snapshot: Option<Snapshot>,
                    decisions: seq<Decision>, history: seq<Pair>, p: Pair) returns (states: seq<State>)
    requires Behaviour(policies, before) && Last(before) == Quiet(reader, snapshot, decisions, history)
    requires Sound(policies, p)
    ensures states != [] && Behaviour(policies, states)
    ensures Last(states) == Quiet(reader, Some(p.s), p.ds, history + [p])
  {
    hide Behaviour, Sound;
    states := CheckUpToWriting(policies, before, reader, snapshot, decisions, history, p);
    states := PublishAndFinish(policies, states, reader, snapshot, decisions, history, p);
  }

  lemma ReadSnapshotBetween(policies: map<string, Policy>, before: seq<State>, p: Pair) returns (states: seq<State>)
    requires Behaviour(policies, before) && Last(before) == Quiet(Resting, Some(p.s), p.ds, [p])
    ensures states != [] && Behaviour(policies, states)
    ensures Last(states) == Quiet(Between(1, Some(p.s)), Some(p.s), p.ds, [p])
  {
    hide PossibleEvaluation, Indexed, Next, Behaviour;
    states := Extend(policies, before, LockSnapshot(1));
    states := Extend(policies, states, ReadSnapshot(1));
    assert Last(states).readers == map[1 := Between(1, Some(p.s))] && Last(states).inside == {};
  }

  lemma ReadDecisionsAfter(policies: map<string, Policy>, before: seq<State>, p: Pair, q: Pair)
    returns (states: seq<State>)
    requires Behaviour(policies, before) && Last(before) == Quiet(Between(1, Some(p.s)), Some(q.s), q.ds, [p, q])
    ensures states != [] && Behaviour(policies, states)
    ensures Last(states) == Quiet(Done(1, Some(p.s), 2, q.ds), Some(q.s), q.ds, [p, q])
  {
    hide PossibleEvaluation, Indexed, Next, Behaviour;
    states := Extend(policies, before, LockDecisions(1));
    states := Extend(policies, states, ReadDecisions(1));
    assert Last(states).readers == map[1 := Done(1, Some(p.s), 2, q.ds)] && Last(states).inside == {};
  }

  /** The two reads are not atomic: whatever two checks publish one after the other, there is a run in which a reader
      pairs the snapshot of the first with the decisions of the second. */
  lemma ReadsCanStraddle(policies: map<string, Policy>, p: Pair, q: Pair) returns (states: seq<State>)
    requires Sound(policies, p) && Sound(policies, q)
    ensures states != [] && Behaviour(policies, states) && Last(states).history == [p, q]
    ensures 1 in Last(states).readers && Last(states).readers[1] == Done(1, Some(p.s), 2, q.ds)
  {
    hide Behaviour, Sound;
    states := Begin(policies, Quiet(Resting, None, [], []));
    states := CheckGoesBy(policies, states, Resting, None, [], [], p);
    assert [] + [p] == [p] && [p] + [q] == [p, q];
    states := ReadSnapshotBetween(policies, states, p);
    states := CheckGoesBy(policies, states, Between(1, Some(p.s)), Some(p.s), p.ds, [p], q);
    states := ReadDecisionsAfter(policies, states, p, q);
  }

  lemma Begin(policies: map<string, Policy>, st: State) returns (states: seq<State>)
    requires Initial(st)
    ensures states != [] && Behaviour(policies, states) && Last(states) == st
  {
    states := [st];
  }
}
