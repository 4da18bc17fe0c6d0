/** Accepting and dismissing advice when several people act at once. Either action
    reads the recommendation, checks that it is OPEN and writes later without asking
    again, so other people and the engine can come in between. Rows go by their id:
    a recommendation that the engine withdraws and finds again is another row. */
module AdviceRace {
  import opened Wrappers

  type Id = nat

  datatype Status = Open | Accepted | Dismissed

  datatype Row = Row(status: Status, task: Option<nat>)

  datatype Action = Accepting | Dismissing

  datatype Read = Read(id: Id, action: Action)

  /** tasks[t] is the recommendation that task t was made for. */
  datatype Desk = Desk(rows: map<Id, Row>, tasks: seq<Id>, pending: map<Id, Read>, nextId: Id)

  const EMPTY := Desk(map[], [], map[], 0)

  datatype Step =
    | Find
    | Withdraw(id: Id)
    | Begin(client: Id, id: Id, action: Action)
    | Commit(client: Id)

  function Began(d: Desk, client: Id, id: Id, action: Action): Desk {
    if id in d.rows && d.rows[id].status == Open then d.(pending := d.pending[client := Read(id, action)]) else d
  }

  /** The engine deletes only what is still OPEN. */
  function Withdrawn(d: Desk, id: Id): Desk {
    if id in d.rows && d.rows[id].status == Open then d.(rows := d.rows - {id}) else d
  }

  /** The INSERT of the task succeeds in any case; the UPDATE meets the row of that id,
      whatever its status, or nothing. */
  function Decided(d: Desk, id: Id, action: Action): Desk {
    match action
    case Accepting =>
      d.(tasks := d.tasks + [id], rows := if id in d.rows then d.rows[id := Row(Accepted, Some(|d.tasks|))] else d.rows)
    case Dismissing =>
      d.(rows := if id in d.rows then d.rows[id := d.rows[id].(status := Dismissed)] else d.rows)
  }

  function Committed(d: Desk, client: Id): Desk {
    if client !in d.pending then d
    else Decided(d.(pending := d.pending - {client}), d.pending[client].id, d.pending[client].action)
  }

  function Apply(d: Desk, step: Step): Desk {
    match step
    case Find => d.(rows := d.rows[d.nextId := Row(Open, None)], nextId := d.nextId + 1)
    case Withdraw(id) => Withdrawn(d, id)
    case Begin(client, id, action) => Began(d, client, id, action)
    case Commit(client) => Committed(d, client)
  }

  function Run(steps: seq<Step>): Desk {
    if steps == [] then EMPTY else Apply(Run(steps[..|steps| - 1]), steps[|steps| - 1])
  }

  ghost predicate Linked(d: Desk, t: nat) {
    t < |d.tasks| && d.tasks[t] in d.rows && d.rows[d.tasks[t]] == Row(Accepted, Some(t))
  }

  /** Every task is the task of the accepted recommendation it was made for. */
  ghost predicate AllLinked(d: Desk) {
    forall t: nat | t < |d.tasks| :: Linked(d, t)
  }

  /** What holds whatever the interleaving. */
  ghost predicate Inv(d: Desk) {
    && (forall id | id in d.rows :: id < d.nextId)
    && (forall k | k in d.pending :: d.pending[k].id < d.nextId)
    && (forall t | 0 <= t < |d.tasks| :: d.tasks[t] < d.nextId)
    && (forall id | id in d.rows && d.rows[id].task.Some? ::
          d.rows[id].status != Open && d.rows[id].task.value < |d.tasks| && d.tasks[d.rows[id].task.value] == id)
    && (forall id | id in d.rows && d.rows[id].status == Accepted :: d.rows[id].task.Some?)
  }

  lemma StepKeepsInv(d: Desk, step: Step)
    requires Inv(d)
    ensures Inv(Apply(d, step))
  {
  }

  /** An accepted recommendation always has a task, made for it, and no task is the
      task of two. */
  lemma {:induction false} RunKeepsInv(steps: seq<Step>)
    ensures Inv(Run(steps))
  {
    if steps != [] {
      RunKeepsInv(steps[..|steps| - 1]);
      StepKeepsInv(Run(steps[..|steps| - 1]), steps[|steps| - 1]);
    }
  }

  /** A decision once made is never undone, though it can be replaced by another. */
  lemma DecidedStaysDecided(d: Desk, step: Step, id: Id)
    requires Inv(d) && id in d.rows && d.rows[id].status != Open
    ensures id in Apply(d, step).rows && Apply(d, step).rows[id].status != Open
  {
  }

  /** An acceptance of what has been withdrawn or accepted by somebody else, or a
      dismissal of what has been accepted by somebody else. */
  ghost predicate Overtaken(d: Desk, step: Step) {
    && step.Commit? && step.client in d.pending
    && var read := d.pending[step.client];
       if read.id !in d.rows then read.action == Accepting else d.rows[read.id].status == Accepted
  }

  /** A task that has lost its recommendation never gets it back. */
  lemma UnlinkedStays(d: Desk, step: Step, t: nat)
    requires Inv(d) && t < |d.tasks| && !Linked(d, t)
    ensures t < |Apply(d, step).tasks| && !Linked(Apply(d, step), t)
  {
    assert Apply(d, step).tasks[t] == d.tasks[t];
  }

  lemma OvertakenUnlinks(d: Desk, step: Step)
    requires Inv(d) && Overtaken(d, step)
    ensures !AllLinked(Apply(d, step))
  {
    var read := d.pending[step.client];
    var after := Apply(d, step);
    if read.id !in d.rows {
      assert after.tasks[|d.tasks|] == read.id && !Linked(after, |d.tasks|);
    } else {
      var t := d.rows[read.id].task.value;
      assert after.tasks[t] == read.id && !Linked(after, t);
    }
  }

  lemma TimelyKeepsLinks(d: Desk, step: Step)
    requires Inv(d) && AllLinked(d) && !Overtaken(d, step)
    ensures AllLinked(Apply(d, step))
  {
    var after := Apply(d, step);
    forall t: nat | t < |after.tasks|
      ensures Linked(after, t)
    {
      if t < |d.tasks| {
        assert Linked(d, t) && after.tasks[t] == d.tasks[t];
      }
    }
  }

  lemma StepLinksIff(d: Desk, step: Step)
    requires Inv(d)
    ensures AllLinked(Apply(d, step)) <==> AllLinked(d) && !Overtaken(d, step)
  {
    if !AllLinked(d) {
      var t: nat :| t < |d.tasks| && !Linked(d, t);
      UnlinkedStays(d, step, t);
    } else if Overtaken(d, step) {
      OvertakenUnlinks(d, step);
    } else {
      TimelyKeepsLinks(d, step);
    }
  }

  ghost predicate OvertakenAt(steps: seq<Step>, j: nat)
    requires j < |steps|
  {
    Overtaken(Run(steps[..j]), steps[j])
  }

  /** For every run: each task is the task of its recommendation, and so no two tasks
      are made for one, if and only if nobody's commit was overtaken. */
  lemma {:induction false} TasksAreLinkedIff(steps: seq<Step>)
    ensures AllLinked(Run(steps)) <==> forall j | 0 <= j < |steps| :: !OvertakenAt(steps, j)
  {
    if steps != [] {
      var n := |steps| - 1;
      TasksAreLinkedIff(steps[..n]);
      RunKeepsInv(steps[..n]);
      StepLinksIff(Run(steps[..n]), steps[n]);
      assert OvertakenAt(steps, n) <==> Overtaken(Run(steps[..n]), steps[n]);
      forall j | 0 <= j < n
        ensures OvertakenAt(steps[..n], j) <==> OvertakenAt(steps, j)
      {
        assert steps[..n][..j] == steps[..j];
      }
    }
  }

  lemma LinkedTasksDiffer(d: Desk, t: nat, u: nat)
    requires AllLinked(d) && t < u < |d.tasks|
    ensures d.tasks[t] != d.tasks[u]
  {
    assert Linked(d, t) && Linked(d, u);
  }

  /** A commit that directly follows its read is not overtaken. */
  lemma PromptCommitIsTimely(d: Desk, client: Id, id: Id, action: Action)
    requires Inv(d) && id in d.rows && d.rows[id].status == Open
    ensures !Overtaken(Began(d, client, id, action), Commit(client))
  {
  }

  lemma {:induction false} RunOfSteps(steps: seq<Step>, last: Step)
    ensures Run(steps + [last]) == Apply(Run(steps), last)
  {
    assert (steps + [last])[..|steps|] == steps;
  }

  /** Two people accept one recommendation: it ends up with two tasks. */
  lemma TwoAcceptancesTwoTasks()
    ensures var run := [Find] + [Begin(1, 0, Accepting)] + [Begin(2, 0, Accepting)] + [Commit(1)] + [Commit(2)];
            Run(run).tasks == [0, 0] && Run(run).rows == map[0 := Row(Accepted, Some(1))] && !AllLinked(Run(run))
  {
    var one := [Find];
    var two := one + [Begin(1, 0, Accepting)];
    var three := two + [Begin(2, 0, Accepting)];
    var four := three + [Commit(1)];
    RunOfSteps([], Find);
    assert [] + [Find] == one;
    RunOfSteps(one, Begin(1, 0, Accepting));
    RunOfSteps(two, Begin(2, 0, Accepting));
    RunOfSteps(three, Commit(1));
    RunOfSteps(four, Commit(2));
    assert Run(four).rows == map[0 := Row(Accepted, Some(0))] && Run(four).tasks == [0];
    assert !Linked(Run(four + [Commit(2)]), 0);
  }
}
