/** The checkpoint/rollback coupling loop that each participant (cart or
    pendulum) runs around its Newmark integrator.  The coupling coordinator
    is foreign: it enters the model only as a script of per-iteration
    answers, and what the loop hands back to it (the coupling values it
    writes, the step sizes it advances by) is recorded in output logs. */
module Coupling {
  import opened TimeSteppers

  datatype Option<T> = None | Some(value: T)

  /** The coordinator's answers during one iteration of the loop: whether to
      restore the checkpoint, the step size, the partner's coupling value
      (absent before the partner has produced one), and whether to save a
      checkpoint after the step. */
  datatype Answer = Answer(readCheckpoint: bool, dt: real, partner: Option<real>, writeCheckpoint: bool)

  /** Displacement, velocity, acceleration and time of one subsystem. */
  datatype State = State(u: real, v: real, a: real, t: real)

  /** The reference trajectory's cart position and velocity and pendulum
      angle and angular velocity at one instant. */
  datatype Analytic = Analytic(x: real, dx: real, theta: real, dtheta: real)

  /** Which participant runs the loop: the two differ in the force law and in
      the reference columns of their result rows. */
  datatype Subsystem = Cart(pendulumMass: real, pendulumLength: real) | Pendulum

  datatype Participant = Participant(side: Subsystem, stepper: NewmarkBeta, u0: real, v0: real)

  /** One result row: the committed time and kinematics, then the reference
      columns the participant keeps. */
  datatype Row = Row(t: real, u: real, v: real, a: real, reference: seq<real>)

  /** The loop's variables: the live state and the saved checkpoint. */
  datatype Live = Live(cur: State, cp: State)

  /** What one iteration leaves behind: the new loop variables and the value
      written to the partner. */
  datatype Outcome = Outcome(live: Live, written: real)

  /** What a whole run leaves behind: the loop variables, the result rows,
      and the logs of the values written to and the step sizes advanced
      with the coordinator. */
  datatype Trace = Trace(live: Live, rows: seq<Row>, written: seq<real>, advanced: seq<real>)

  /** The partner's acceleration as read from the coordinator: an empty
      read counts as 0.0. */
  function PartnerAcceleration(read: Option<real>): (x: real)
    ensures read.Some? ==> x == read.value
    ensures read.None? ==> x == 0.0
  {
    match read
    case Some(x) => x
    case None => 0.0
  }

  /** The excitation force a participant derives from the partner's
      acceleration: the cart feels -m*l*theta'', the pendulum -x''. */
  function Force(side: Subsystem, partnerAcc: real): (f: real)
    ensures side.Cart? ==> f == - (side.pendulumMass * side.pendulumLength) * partnerAcc
    ensures side.Pendulum? ==> f == - partnerAcc
    ensures partnerAcc == 0.0 ==> f == 0.0
  {
    match side
    case Cart(m, l) => - m * l * partnerAcc
    case Pendulum => - partnerAcc
  }

  /** The force is zero when nothing was read, and otherwise the law of the
      participant applied to the value read. */
  lemma ForceFromRead(side: Subsystem, read: Option<real>)
    ensures read.None? ==> Force(side, PartnerAcceleration(read)) == 0.0
    ensures read.Some? && side.Cart?
      ==> Force(side, PartnerAcceleration(read)) == - side.pendulumMass * side.pendulumLength * read.value
    ensures read.Some? && side.Pendulum? ==> Force(side, PartnerAcceleration(read)) == - read.value
  {
  }

  /** The reference columns of a row: the cart keeps all four, the pendulum
      only its own angle and angular velocity.  Either way the angle and
      angular velocity come last. */
  function Reference(side: Subsystem, an: Analytic): seq<real> {
    match side
    case Cart(_, _) => [an.x, an.dx, an.theta, an.dtheta]
    case Pendulum => [an.theta, an.dtheta]
  }

  /** The result row for a committed state. */
  function RowOf(side: Subsystem, s: State, analytic: real -> Analytic): Row {
    Row(s.t, s.u, s.v, s.a, Reference(side, analytic(s.t)))
  }

  /** The layout of a result row: the committed time and kinematics, then
      the reference columns taken at that same time -- four for the cart,
      position and velocity first, two for the pendulum; the angle and
      angular velocity always come last. */
  lemma RowLayout(side: Subsystem, s: State, analytic: real -> Analytic)
    ensures var row := RowOf(side, s, analytic);
            var an := analytic(row.t);
            && State(row.u, row.v, row.a, row.t) == s
            && |row.reference| == (if side.Cart? then 4 else 2)
            && row.reference[|row.reference| - 2..] == [an.theta, an.dtheta]
            && (side.Cart? ==> row.reference[..2] == [an.x, an.dx])
  {
  }

  /** The state the loop starts from: the participant's initial displacement
      and velocity, zero acceleration, time zero. */
  function Initial(p: Participant): State {
    State(p.u0, p.v0, 0.0, 0.0)
  }

  /** One iteration of the coupling loop: restore if asked, read the partner,
      step, write, save if asked, advance.  The new state lies exactly dt
      after the state stepped from, is what gets written, and becomes the
      checkpoint exactly when a save was requested. */
  function Iteration(p: Participant, st: Live, ans: Answer): (o: Outcome)
    requires p.stepper.Valid()
    ensures o.live.cur.t == (if ans.readCheckpoint then st.cp.t else st.cur.t) + ans.dt
    ensures o.written == o.live.cur.a
    ensures ans.writeCheckpoint ==> o.live.cp == o.live.cur
    ensures !ans.writeCheckpoint ==> o.live.cp == st.cp
  {
    var s := if ans.readCheckpoint then st.cp else st.cur;
    var k := p.stepper.DoStep(s.u, s.v, s.a, Force(p.side, PartnerAcceleration(ans.partner)), ans.dt);
    var next := State(k.u, k.v, k.a, s.t + ans.dt);
    Outcome(Live(next, if ans.writeCheckpoint then next else st.cp), k.a)
  }

  /** The state an iteration commits solves the equation of motion under
      the force derived from the partner's value, and is the Newmark step
      from the restored or the live state. */
  lemma IterationSolvesEquationOfMotion(p: Participant, st: Live, ans: Answer)
    requires p.stepper.Valid()
    ensures var c := Iteration(p, st, ans).live.cur;
            var s := if ans.readCheckpoint then st.cp else st.cur;
            && p.stepper.InBalance(c.u, c.a, Force(p.side, PartnerAcceleration(ans.partner)))
            && p.stepper.IsNewmarkStep(s.u, s.v, s.a, Force(p.side, PartnerAcceleration(ans.partner)), ans.dt,
                                       Kinematics(c.u, c.v, c.a))
  {
  }

  /** The effect of running the loop over a whole script of answers, defined
      iteration by iteration from the last one back.  Before the loop the
      checkpoint is the initial state and there is one row at time zero;
      each iteration adds one row, one written value and one advance. */
  function Run(p: Participant, analytic: real -> Analytic, script: seq<Answer>): (tr: Trace)
    requires p.stepper.Valid()
    ensures |tr.rows| == |script| + 1
    ensures |tr.written| == |script|
    ensures |tr.advanced| == |script|
    decreases |script|
  {
    if script == [] then
      var s0 := Initial(p);
      Trace(Live(s0, s0), [RowOf(p.side, s0, analytic)], [], [])
    else
      Extend(p, analytic, Run(p, analytic, script[..|script| - 1]), script[|script| - 1])
  }

  /** One more iteration appended to a trace: new loop variables, one more
      row, one more written value, one more advance. */
  function Extend(p: Participant, analytic: real -> Analytic, prev: Trace, ans: Answer): Trace
    requires p.stepper.Valid()
  {
    var o := Iteration(p, prev.live, ans);
    Trace(o.live, prev.rows + [RowOf(p.side, o.live.cur, analytic)],
          prev.written + [o.written], prev.advanced + [ans.dt])
  }

  /** The last row of a run records the live state. */
  lemma LastRowIsLive(p: Participant, analytic: real -> Analytic, script: seq<Answer>)
    requires p.stepper.Valid()
    ensures Run(p, analytic, script).rows[|script|] == RowOf(p.side, Run(p, analytic, script).live.cur, analytic)
  {
  }

  /** The run over the first i+1 answers extends the run over the first i. */
  lemma RunSnoc(p: Participant, analytic: real -> Analytic, script: seq<Answer>, i: nat)
    requires p.stepper.Valid()
    requires i < |script|
    ensures Run(p, analytic, script[..i + 1])
         == Extend(p, analytic, Run(p, analytic, script[..i]), script[i])
  {
    assert script[..i + 1][..i] == script[..i];
  }

  /** The body of one loop iteration as the scripts write it: roll the
      live variables back to the checkpoint when asked, read the partner's
      value, step, write the new acceleration, save the checkpoint when
      asked.  It commits exactly the iteration's outcome. */
  method Advance(p: Participant, cur: State, cp: State, ans: Answer)
    returns (cur': State, cp': State, w: real)
    requires p.stepper.Valid()
    ensures Outcome(Live(cur', cp'), w) == Iteration(p, Live(cur, cp), ans)
  {
    cur' := cur;
    if ans.readCheckpoint {
      cur' := cp;
    }
    var dt := ans.dt;
    var F := Force(p.side, PartnerAcceleration(ans.partner));
    var k := p.stepper.DoStep(cur'.u, cur'.v, cur'.a, F, dt);
    var next := State(k.u, k.v, k.a, cur'.t + dt);
    w := k.a;
    cp' := cp;
    if ans.writeCheckpoint {
      cp' := next;
    }
    cur' := next;
  }

  /** Appending after a prefix, regrouped.  A helper that only keeps the
      cost of verifying Drive's written-log invariant down. */
  lemma AppendAfter(pre: seq<real>, log: seq<real>, w: real)
    ensures pre + (log + [w]) == (pre + log) + [w]
  {
  }

  /** Committing one iteration's outcome to the run over the first i
      answers gives the run over the first i+1. */
  lemma ExtendCommits(p: Participant, analytic: real -> Analytic, script: seq<Answer>, i: nat,
                      tr: Trace, cur: State, cp: State, w: real)
    requires p.stepper.Valid()
    requires i < |script|
    requires tr == Run(p, analytic, script[..i])
    requires Outcome(Live(cur, cp), w) == Iteration(p, tr.live, script[i])
    ensures Run(p, analytic, script[..i + 1])
         == Trace(Live(cur, cp), tr.rows + [RowOf(p.side, cur, analytic)], tr.written + [w],
                  tr.advanced + [script[i].dt])
  {
    RunSnoc(p, analytic, script, i);
  }

  /** The participant's main loop as the scripts write it: live and
      checkpoint variables reassigned in place, the result list and the
      coordinator logs grown by appending.  It produces exactly what Run
      specifies, after the initial 0.0 written when the coordinator asks
      for initial data. */
  method Drive(p: Participant, analytic: real -> Analytic, initialData: bool, script: seq<Answer>)
    returns (rows: seq<Row>, written: seq<real>, advanced: seq<real>)
    requires p.stepper.Valid()
    ensures rows == Run(p, analytic, script).rows
    ensures written == (if initialData then [0.0] else []) + Run(p, analytic, script).written
    ensures advanced == Run(p, analytic, script).advanced
  {
    written := [];
    if initialData {
      written := written + [0.0];
    }
    ghost var initial := written;
    var cur := State(p.u0, p.v0, 0.0, 0.0);
    var cp := cur;
    rows := [RowOf(p.side, cur, analytic)];
    advanced := [];
    ghost var tr := Run(p, analytic, []);
    var i := 0;
    while i < |script|
      invariant 0 <= i <= |script|
      invariant tr == Run(p, analytic, script[..i])
      invariant tr.live == Live(cur, cp)
      invariant tr.rows == rows && tr.advanced == advanced
      invariant written == initial + tr.written
    {
      var ans := script[i];
      var w;
      cur, cp, w := Advance(p, cur, cp, ans);
      ExtendCommits(p, analytic, script, i, tr, cur, cp, w);
      AppendAfter(initial, tr.written, w);
      written := written + [w];
      advanced := advanced + [ans.dt];
      rows := rows + [RowOf(p.side, cur, analytic)];
      tr := Run(p, analytic, script[..i + 1]);
      i := i + 1;
    }
    assert script[..i] == script;
  }

  // ---------------------------------------------------------------------
  // Properties of the loop

  /** Before the loop the checkpoint equals the initial state
      (u0, v0, 0, 0), and the single result row is taken at time zero. */
  lemma InitialCheckpoint(p: Participant, analytic: real -> Analytic)
    requires p.stepper.Valid()
    ensures Run(p, analytic, []).live.cp == State(p.u0, p.v0, 0.0, 0.0)
    ensures Run(p, analytic, []).live.cur == State(p.u0, p.v0, 0.0, 0.0)
    ensures Run(p, analytic, []).rows
         == [Row(0.0, p.u0, p.v0, 0.0, Reference(p.side, analytic(0.0)))]
  {
  }

  /** A restore is exact: once the coordinator asks for it, what the
      iteration does depends on the checkpoint alone, not on the live
      state it replaced. */
  lemma RestoreIsExact(p: Participant, cur1: State, cur2: State, cp: State, ans: Answer)
    requires p.stepper.Valid()
    requires ans.readCheckpoint
    ensures Iteration(p, Live(cur1, cp), ans) == Iteration(p, Live(cur2, cp), ans)
  {
  }

  /** The run over a longer script extends the run over any prefix: rows
      and logs are only ever appended to. */
  lemma {:induction false} RunPrefix(p: Participant, analytic: real -> Analytic, script: seq<Answer>, j: nat)
    requires p.stepper.Valid()
    requires j <= |script|
    ensures Run(p, analytic, script[..j]).rows
         == Run(p, analytic, script).rows[..j + 1]
    ensures Run(p, analytic, script[..j]).written
         == Run(p, analytic, script).written[..j]
    ensures Run(p, analytic, script[..j]).advanced
         == Run(p, analytic, script).advanced[..j]
    decreases |script|
  {
    if j < |script| {
      var n := |script| - 1;
      var front := script[..n];
      var prev := Run(p, analytic, front);
      var tr := Run(p, analytic, script);
      assert tr == Extend(p, analytic, prev, script[n]);
      assert script[..j] == front[..j];
      RunPrefix(p, analytic, front, j);
      assert tr.rows[..j + 1] == prev.rows[..j + 1];
      assert tr.written[..j] == prev.written[..j];
      assert tr.advanced[..j] == prev.advanced[..j];
    } else {
      assert script[..j] == script;
    }
  }

  /** Iteration k of a run: started from the loop variables left by the
      first k iterations, it adds row k+1 with its committed state, writes
      that state's acceleration and advances by its own dt. */
  lemma IterationInRun(p: Participant, analytic: real -> Analytic, script: seq<Answer>, k: nat)
    requires p.stepper.Valid()
    requires k < |script|
    ensures var o := Iteration(p, Run(p, analytic, script[..k]).live, script[k]);
            var tr := Run(p, analytic, script);
            && tr.rows[k + 1] == RowOf(p.side, o.live.cur, analytic)
            && tr.written[k] == o.written
            && tr.advanced[k] == script[k].dt
  {
    RunSnoc(p, analytic, script, k);
    RunPrefix(p, analytic, script, k + 1);
    var tr := Run(p, analytic, script);
    var upto := Run(p, analytic, script[..k + 1]);
    assert upto.rows[k + 1] == tr.rows[k + 1];
    assert upto.written[k] == tr.written[k];
    assert upto.advanced[k] == tr.advanced[k];
  }

  /** Each iteration's row lies exactly dt after the time stepped from: the
      previous row's time, or the checkpoint's time after a restore.  The
      same dt is handed to the coordinator's advance. */
  lemma TimeAdvancesByDt(p: Participant, analytic: real -> Analytic, script: seq<Answer>, k: nat)
    requires p.stepper.Valid()
    requires k < |script|
    ensures var tr := Run(p, analytic, script);
            var start := if script[k].readCheckpoint
                         then Run(p, analytic, script[..k]).live.cp.t
                         else tr.rows[k].t;
            tr.rows[k + 1].t == start + script[k].dt && tr.advanced[k] == script[k].dt
  {
    IterationInRun(p, analytic, script, k);
    RunPrefix(p, analytic, script, k);
  }

  /** The value written to the partner in iteration k is the new
      acceleration, which is also the acceleration committed in row k+1. */
  lemma WrittenIsCommittedAcceleration(p: Participant, analytic: real -> Analytic, script: seq<Answer>, k: nat)
    requires p.stepper.Valid()
    requires k < |script|
    ensures var tr := Run(p, analytic, script);
            tr.written[k] == tr.rows[k + 1].a
  {
    IterationInRun(p, analytic, script, k);
  }

  /** Every committed row after the first solves the participant's equation
      of motion under the force derived from that iteration's read. */
  lemma RowsSatisfyEquationOfMotion(p: Participant, analytic: real -> Analytic, script: seq<Answer>, k: nat)
    requires p.stepper.Valid()
    requires k < |script|
    ensures var row := Run(p, analytic, script).rows[k + 1];
            p.stepper.InBalance(row.u, row.a, Force(p.side, PartnerAcceleration(script[k].partner)))
  {
    var st := Run(p, analytic, script[..k]).live;
    var c := Iteration(p, st, script[k]).live.cur;
    var row := Run(p, analytic, script).rows[k + 1];
    assert row.u == c.u && row.a == c.a by {
      IterationInRun(p, analytic, script, k);
    }
    IterationSolvesEquationOfMotion(p, st, script[k]);
  }

  /** Row times strictly increase down the list. */
  predicate TimesIncrease(rows: seq<Row>) {
    forall i, j :: 0 <= i < j < |rows| ==> rows[i].t < rows[j].t
  }

  /** Without restores and with positive step sizes, row times strictly
      increase. */
  lemma {:induction false} RowTimesIncreaseWithoutRestore(p: Participant, analytic: real -> Analytic, script: seq<Answer>)
    requires p.stepper.Valid()
    requires forall k :: 0 <= k < |script| ==> !script[k].readCheckpoint && script[k].dt > 0.0
    ensures TimesIncrease(Run(p, analytic, script).rows)
    decreases |script|
  {
    if script != [] {
      var n := |script| - 1;
      var front := script[..n];
      RowTimesIncreaseWithoutRestore(p, analytic, front);
      var prev := Run(p, analytic, front);
      var o := Iteration(p, prev.live, script[n]);
      var rows := Run(p, analytic, script).rows;
      assert rows == prev.rows + [RowOf(p.side, o.live.cur, analytic)];
      assert prev.rows[n].t == prev.live.cur.t;
      assert o.live.cur.t == prev.live.cur.t + script[n].dt;
      forall i, j | 0 <= i < j < |rows| ensures rows[i].t < rows[j].t {
        assert rows[i] == prev.rows[i];
        if j == n + 1 {
          assert i < n ==> prev.rows[i].t < prev.rows[n].t;
        } else {
          assert rows[j] == prev.rows[j];
        }
      }
    }
  }

  /** Row times are NOT monotone in general: after one step of dt = 1 a
      restore to the initial checkpoint followed by a step of dt = 1/2
      records time 1/2 after time 1. */
  lemma RowTimesCanDecrease(p: Participant, analytic: real -> Analytic)
    requires p.stepper.Valid()
    ensures var script := [Answer(false, 1.0, None, false), Answer(true, 0.5, None, false)];
            var rows := Run(p, analytic, script).rows;
            rows[1].t == 1.0 && rows[2].t == 0.5
  {
    var script := [Answer(false, 1.0, None, false), Answer(true, 0.5, None, false)];
    assert script[..1] == [script[0]];
    assert [script[0]][..0] == [];
  }

  /** The checkpoint changes only on a save request: when no iteration
      asked for a save, it is still the initial state. */
  lemma CheckpointWithoutSave(p: Participant, analytic: real -> Analytic, script: seq<Answer>)
    requires p.stepper.Valid()
    requires forall k :: 0 <= k < |script| ==> !script[k].writeCheckpoint
    ensures Run(p, analytic, script).live.cp == Initial(p)
  {
    UnsavedIterationsKeepCheckpoint(p, analytic, [], script);
    assert [] + script == script;
  }

  /** After a run the checkpoint is the state committed by the last
      iteration that asked for a save. */
  lemma CheckpointIsLastSave(p: Participant, analytic: real -> Analytic, script: seq<Answer>, j: nat)
    requires p.stepper.Valid()
    requires j < |script| && script[j].writeCheckpoint
    requires forall k :: j < k < |script| ==> !script[k].writeCheckpoint
    ensures Run(p, analytic, script).live.cp
         == Run(p, analytic, script[..j + 1]).live.cur
  {
    var done := script[..j + 1];
    var rest := script[j + 1..];
    assert done + rest == script;
    UnsavedIterationsKeepCheckpoint(p, analytic, done, rest);
    assert done[..j] == script[..j];
  }

  /** Iterations that do not save leave the checkpoint as it was. */
  lemma {:induction false} UnsavedIterationsKeepCheckpoint(p: Participant, analytic: real -> Analytic, done: seq<Answer>, rejected: seq<Answer>)
    requires p.stepper.Valid()
    requires forall k :: 0 <= k < |rejected| ==> !rejected[k].writeCheckpoint
    ensures Run(p, analytic, done + rejected).live.cp == Run(p, analytic, done).live.cp
    decreases |rejected|
  {
    if rejected == [] {
      assert done + rejected == done;
    } else {
      var n := |rejected| - 1;
      assert (done + rejected)[..|done + rejected| - 1] == done + rejected[..n];
      UnsavedIterationsKeepCheckpoint(p, analytic, done, rejected[..n]);
    }
  }

  /** Retrying a coupling window leaves no trace of the rejected attempts:
      after any iterations that did not save, an iteration that restores
      ends in the same loop variables and writes the same value as if it had
      directly followed the iterations before the rejected ones. */
  lemma RejectedIterationsLeaveNoTrace(p: Participant, analytic: real -> Analytic, done: seq<Answer>, rejected: seq<Answer>, retry: Answer)
    requires p.stepper.Valid()
    requires forall k :: 0 <= k < |rejected| ==> !rejected[k].writeCheckpoint
    requires retry.readCheckpoint
    ensures Iteration(p, Run(p, analytic, done + rejected).live, retry)
         == Iteration(p, Run(p, analytic, done).live, retry)
  {
    UnsavedIterationsKeepCheckpoint(p, analytic, done, rejected);
    var before := Run(p, analytic, done + rejected).live;
    var direct := Run(p, analytic, done).live;
    RestoreIsExact(p, before.cur, direct.cur, direct.cp, retry);
  }
}
