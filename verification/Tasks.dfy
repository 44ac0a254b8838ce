/** The registry of background chat tasks (backend/app/chat/tasks.py).  A task that ends runs its
    done-callback some time later, and the callback forgets the task's message id whichever task
    is registered under it by then. */
module Tasks {
  /** Tasks are numbered in creation order; `owner[t]` is the message id of task `t`. */
  datatype State = State(
    tasks: map<string, nat>,
    owner: seq<string>,
    done: set<nat>,
    cancelled: set<nat>,
    discarded: set<nat>)

  const NO_TASKS := State(map[], [], {}, {}, {})

  predicate Running(s: State, id: string) {
    id in s.tasks && s.tasks[id] !in s.done
  }

  function Start(s: State, id: string): State {
    if Running(s, id) then s else s.(tasks := s.tasks[id := |s.owner|], owner := s.owner + [id])
  }

  function Abort(s: State, id: string): State {
    if Running(s, id) then s.(cancelled := s.cancelled + {s.tasks[id]}) else s
  }

  /** The done-callback of task `t`. */
  function Discard(s: State, t: nat): State
    requires t < |s.owner|
  {
    s.(tasks := s.tasks - {s.owner[t]}, discarded := s.discarded + {t})
  }

  class ChatTaskManager {
    var tasks: map<string, nat>
    var owner: seq<string>
    var done: set<nat>
    var cancelled: set<nat>
    ghost var discarded: set<nat>

    constructor ()
      ensures View() == NO_TASKS
    {
      tasks, owner, done, cancelled, discarded := map[], [], {}, {}, {};
    }

    ghost function View(): State
      reads this
    {
      State(tasks, owner, done, cancelled, discarded)
    }

    method StartTask(id: string) returns (started: bool)
      modifies this
      ensures View() == Start(old(View()), id)
      ensures started <==> !Running(old(View()), id)
    {
      if id in tasks {
        var existing := tasks[id];
        if existing !in done {
          return false;
        }
      }
      tasks := tasks[id := |owner|];
      owner := owner + [id];
      return true;
    }

    method AbortTask(id: string) returns (accepted: bool)
      modifies this
      ensures View() == Abort(old(View()), id)
      ensures accepted <==> Running(old(View()), id)
    {
      if id !in tasks || tasks[id] in done {
        return false;
      }
      cancelled := cancelled + {tasks[id]};
      return true;
    }

    method IsRunning(id: string) returns (r: bool)
      ensures r <==> Running(View(), id)
    {
      r := id in tasks && tasks[id] !in done;
    }

    method DiscardTask(t: nat)
      requires t < |owner|
      modifies this
      ensures View() == Discard(old(View()), t)
    {
      tasks := tasks - {owner[t]};
      discarded := discarded + {t};
    }
  }

  // Runs

  datatype Step = Starting(id: string) | Aborting(id: string) | Ending(t: nat) | Discarding(t: nat)

  function Next(s: State, step: Step): State {
    match step
    case Starting(id) => Start(s, id)
    case Aborting(id) => Abort(s, id)
    case Ending(t) => if t < |s.owner| then s.(done := s.done + {t}) else s
    case Discarding(t) => if t < |s.owner| && t in s.done && t !in s.discarded then Discard(s, t) else s
  }

  function RunTo(steps: seq<Step>): State {
    if steps == [] then NO_TASKS else Next(RunTo(steps[..|steps| - 1]), steps[|steps| - 1])
  }

  predicate Live(s: State, t: nat, id: string) {
    t < |s.owner| && s.owner[t] == id && t !in s.done
  }

  /** Every live task is the one registered for its message. */
  predicate Kept(s: State) {
    forall t :: 0 <= t < |s.owner| && t !in s.done ==> s.owner[t] in s.tasks && s.tasks[s.owner[t]] == t
  }

  predicate Sound(s: State) {
    && (forall id :: id in s.tasks ==> s.tasks[id] < |s.owner| && s.owner[s.tasks[id]] == id)
    && s.discarded <= s.done
    && (forall t :: t in s.done ==> t < |s.owner|)
  }

  lemma {:induction false} RunsAreSound(steps: seq<Step>)
    ensures Sound(RunTo(steps))
  {
    if steps != [] {
      RunsAreSound(steps[..|steps| - 1]);
    }
  }

  /** While every live task is registered, `is_running` tells the truth and no message has two live
      tasks. */
  lemma KeptMeansExact(s: State, id: string)
    requires Sound(s) && Kept(s)
    ensures Running(s, id) <==> exists t: nat :: Live(s, t, id)
    ensures forall t: nat, u: nat :: Live(s, t, id) && Live(s, u, id) ==> t == u
  {
    if Running(s, id) {
      assert Live(s, s.tasks[id], id);
    }
  }

  /** The callback of an ended task, while a newer live task of the same message is registered. */
  predicate Forgets(s: State, step: Step) {
    && step.Discarding? && step.t < |s.owner| && step.t in s.done && step.t !in s.discarded
    && Running(s, s.owner[step.t])
  }

  lemma KeptUnlessForgotten(s: State, step: Step)
    requires Sound(s) && Kept(s)
    ensures Kept(Next(s, step)) <==> !Forgets(s, step)
  {
    var n := Next(s, step);
    if Forgets(s, step) {
      var t := s.tasks[s.owner[step.t]];
      assert t < |n.owner| && t !in n.done && n.owner[t] !in n.tasks;
    }
  }

  ghost predicate AlwaysKept(steps: seq<Step>) {
    forall k :: 0 <= k <= |steps| ==> Kept(RunTo(steps[..k]))
  }

  ghost predicate NeverForgets(steps: seq<Step>) {
    forall k :: 0 <= k < |steps| ==> !Forgets(RunTo(steps[..k]), steps[k])
  }

  /** The registry is right throughout a run exactly when no late callback meets a newer live task. */
  lemma {:induction false} ExactIffNothingForgotten(steps: seq<Step>)
    ensures AlwaysKept(steps) <==> NeverForgets(steps)
  {
    if steps == [] {
      assert steps[..0] == [];
      assert AlwaysKept(steps);
    } else {
      hide AlwaysKept, NeverForgets;
      ExactIffNothingForgotten(steps[..|steps| - 1]);
      OneMore(steps[..|steps| - 1], steps[|steps| - 1], steps);
    }
  }

  lemma AlwaysKeptOneMore(before: seq<Step>, last: Step)
    ensures AlwaysKept(before + [last]) <==> AlwaysKept(before) && Kept(RunTo(before + [last]))
  {
    hide RunTo, Kept;
    var n, steps := |before|, before + [last];
    assert steps[..n + 1] == steps;
    assert forall k :: 0 <= k <= n ==> before[..k] == steps[..k];
  }

  lemma NeverForgetsOneMore(before: seq<Step>, last: Step)
    ensures NeverForgets(before + [last]) <==> NeverForgets(before) && !Forgets(RunTo(before), last)
  {
    hide RunTo, Forgets;
    var n, steps := |before|, before + [last];
    assert steps[..n] == before;
    assert forall k :: 0 <= k < n ==> before[..k] == steps[..k];
  }

  lemma OneMore(before: seq<Step>, last: Step, steps: seq<Step>)
    requires steps == before + [last]
    requires AlwaysKept(before) <==> NeverForgets(before)
    ensures AlwaysKept(steps) <==> NeverForgets(steps)
  {
    AlwaysKeptOneMore(before, last);
    NeverForgetsOneMore(before, last);
    RunsAreSound(before);
    assert steps[..|steps| - 1] == before;
    assert RunTo(steps) == Next(RunTo(before), last);
    if AlwaysKept(before) {
      assert before[..|before|] == before;
      assert Kept(RunTo(before[..|before|]));
      hide AlwaysKept, NeverForgets, RunTo, Kept, Forgets, Sound, Next;
      KeptUnlessForgotten(RunTo(before), last);
    }
  }

  predicate StartsOnce(steps: seq<Step>) {
    forall i, j :: 0 <= i < j < |steps| && steps[i].Starting? && steps[j].Starting? ==> steps[i].id != steps[j].id
  }

  /** Task owners are ids that were started; distinct starts give distinct owners. */
  lemma {:induction false} OwnersWereStarted(steps: seq<Step>)
    ensures forall t :: 0 <= t < |RunTo(steps).owner| ==> Starting(RunTo(steps).owner[t]) in steps
    ensures StartsOnce(steps) ==>
              forall t, u :: 0 <= t < u < |RunTo(steps).owner| ==> RunTo(steps).owner[t] != RunTo(steps).owner[u]
  {
    if steps != [] {
      var before, last := steps[..|steps| - 1], steps[|steps| - 1];
      OwnersWereStarted(before);
      assert steps == before + [last];
      assert last.Starting? && StartsOnce(steps) ==> last !in before;
    }
  }

  lemma StartedOnceNeverForgets(steps: seq<Step>, k: nat)
    requires StartsOnce(steps) && k < |steps|
    ensures !Forgets(RunTo(steps[..k]), steps[k])
  {
    OwnersWereStarted(steps[..k]);
    RunsAreSound(steps[..k]);
    hide RunTo;
  }

  lemma StartedOnceIsKept(steps: seq<Step>)
    requires StartsOnce(steps)
    ensures Kept(RunTo(steps))
  {
    hide RunTo, Forgets, StartsOnce, Kept;
    forall k | 0 <= k < |steps|
      ensures !Forgets(RunTo(steps[..k]), steps[k])
    {
      StartedOnceNeverForgets(steps, k);
    }
    ExactIffNothingForgotten(steps);
    assert steps[..|steps|] == steps;
    assert Kept(RunTo(steps[..|steps|]));
  }

  /** Message ids are fresh, so each is started once: then the registry is always right. */
  lemma StartedOnceIsExact(steps: seq<Step>, id: string)
    requires StartsOnce(steps)
    ensures Running(RunTo(steps), id) <==> exists t: nat :: Live(RunTo(steps), t, id)
  {
    hide RunTo, Running, StartsOnce, Kept, Sound;
    StartedOnceIsKept(steps);
    RunsAreSound(steps);
    KeptMeansExact(RunTo(steps), id);
  }

  /** Starting an id again before the callback of its ended task has run: the callback then forgets
      the new task, which is live but reported as not running. */
  lemma RestartBeforeCallbackIsForgotten(id: string)
    ensures var restarted := Next(Next(Next(NO_TASKS, Starting(id)), Ending(0)), Starting(id));
            && Forgets(restarted, Discarding(0))
            && var s := Next(restarted, Discarding(0));
               Live(s, 1, id) && !Running(s, id)
  {
    var ended := Next(Next(NO_TASKS, Starting(id)), Ending(0));
    assert ended == State(map[id := 0], [id], {0}, {}, {});
    assert Next(ended, Starting(id)) == State(map[id := 1], [id, id], {0}, {}, {});
  }

  // What an abort cancels

  /** Only a live task of the id is newly cancelled, and if every live task is registered, every live task
      of the id is cancelled then; nothing else changes. */
  lemma AbortCancelsTheLiveTask(s: State, id: string)
    requires Sound(s)
    ensures var n := Abort(s, id);
            && n.(cancelled := s.cancelled) == s && s.cancelled <= n.cancelled
            && (forall t :: t in n.cancelled && t !in s.cancelled ==> Live(s, t, id))
            && (Kept(s) ==> forall t: nat :: Live(s, t, id) ==> t in n.cancelled)
  {
  }

  ghost predicate AbortedWhileLive(steps: seq<Step>, t: nat) {
    exists k :: 0 <= k < |steps| && steps[k].Aborting? && Live(RunTo(steps[..k]), t, steps[k].id)
  }

  lemma AbortedWhileLiveOneMore(before: seq<Step>, last: Step, t: nat)
    ensures AbortedWhileLive(before + [last], t) <==>
              AbortedWhileLive(before, t) || (last.Aborting? && Live(RunTo(before), t, last.id))
  {
    hide RunTo, Live;
    var n, steps := |before|, before + [last];
    assert steps[..n] == before && steps[n] == last;
    assert forall k :: 0 <= k < n ==> before[..k] == steps[..k] && before[k] == steps[k];
    if last.Aborting? && Live(RunTo(before), t, last.id) {
      assert Live(RunTo(steps[..n]), t, steps[n].id);
    }
    if AbortedWhileLive(before, t) {
      var k :| 0 <= k < n && before[k].Aborting? && Live(RunTo(before[..k]), t, before[k].id);
      assert steps[k].Aborting? && Live(RunTo(steps[..k]), t, steps[k].id);
    }
  }

  /** In every run in which no id is started twice, the tasks that were told to cancel are exactly those
      whose id was aborted while they were running. */
  lemma {:induction false} CancelledIffAbortedWhileLive(steps: seq<Step>, t: nat)
    requires StartsOnce(steps)
    ensures t in RunTo(steps).cancelled <==> AbortedWhileLive(steps, t)
  {
    if steps != [] {
      var before, last := steps[..|steps| - 1], steps[|steps| - 1];
      assert steps == before + [last];
      CancelledIffAbortedWhileLive(before, t);
      AbortedWhileLiveOneMore(before, last, t);
      RunsAreSound(before);
      StartedOnceIsKept(before);
      assert RunTo(steps) == Next(RunTo(before), last);
      hide RunTo, StartsOnce, AbortedWhileLive, Kept, Sound, Live;
      if last.Aborting? {
        AbortCancelsTheLiveTask(RunTo(before), last.id);
      }
    }
  }
}
