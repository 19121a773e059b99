/** The review panel's controller: numbered operations over asynchronous replies. */
module GrillReview {
  import opened Common

  datatype Identity = Identity(proposal: string, revision: int, hash: string)

  datatype Question = Question(id: string, identity: Identity, waivable: bool, ruleClass: string)

  datatype Evaluation = Evaluation(identity: Identity, questions: seq<Question>)

  datatype Action = Default | Acknowledge | Waive

  // Where an asynchronous task stands: waiting for the record call, waiting for the evaluation, about to
  // run its catch block, or about to run its finally block.
  datatype Stage = Recording(identity: Identity) | Evaluating(identity: Identity) | Failing | Finishing

  datatype Shown = Shown(error: bool, evaluation: Option<Evaluation>, pending: bool, revision: Option<Identity>)

  // Tasks in flight, by the operation number they hold.
  datatype Controller = Controller(operation: nat, shown: Shown, tasks: map<nat, Stage>)

  const FRESH := Controller(0, Shown(false, None, false, None), map[])

  datatype Step =
    | SetRevision(revision: Option<Identity>)
    | MarkUnavailable
    | Refresh
    | Record(action: Action, question: string)
    | Recorded(op: nat, ok: bool)
    | Evaluated(op: nat, reply: Option<Evaluation>)
    | Fail(op: nat)
    | Finish(op: nat)

  function FindQuestion(qs: seq<Question>, id: string): (r: Option<Question>)
    ensures r.Some? ==> r.value in qs && r.value.id == id
  {
    if qs == [] then None else if qs[0].id == id then Some(qs[0]) else FindQuestion(qs[1..], id)
  }

  predicate ScopeCompatibleWaiver(q: Question) {
    q.waivable && q.ruleClass == "scope_compatibility" && q.id == "grill_question_scope_compatibility"
  }

  // Whether record goes ahead: a shown question about the current revision, and a waiver only where allowed.
  predicate MayRecord(s: Shown, action: Action, question: string) {
    && s.evaluation.Some? && s.revision.Some? && !s.pending
    && var q := FindQuestion(s.evaluation.value.questions, question);
       q.Some? && q.value.identity == s.revision.value && (action == Waive ==> ScopeCompatibleWaiver(q.value))
  }

  function Begin(c: Controller, stage: Stage): Controller {
    Controller(c.operation + 1, c.shown.(error := false, pending := true), c.tasks[c.operation + 1 := stage])
  }

  function Supersede(c: Controller, shown: Shown): Controller { Controller(c.operation + 1, shown, c.tasks) }

  function MoveTo(c: Controller, op: nat, stage: Stage): Controller { c.(tasks := c.tasks[op := stage]) }

  function ShowReply(c: Controller, op: nat, identity: Identity, reply: Option<Evaluation>): Controller {
    if reply.None? then MoveTo(c, op, Failing)
    else if op != c.operation then MoveTo(c, op, Finishing)
    else if reply.value.identity != identity then MoveTo(c, op, Failing)
    else MoveTo(c.(shown := c.shown.(error := false, evaluation := reply)), op, Finishing)
  }

  function Apply(c: Controller, step: Step): Controller {
    match step
    case SetRevision(r) => if c.shown.revision == r then c else Supersede(c, Shown(false, None, false, r))
    case MarkUnavailable => Supersede(c, c.shown.(error := true, evaluation := None, pending := false))
    case Refresh =>
      if c.shown.revision.None? || c.shown.pending then c else Begin(c, Evaluating(c.shown.revision.value))
    case Record(action, question) =>
      if !MayRecord(c.shown, action, question) then c else Begin(c, Recording(c.shown.revision.value))
    case Recorded(op, ok) =>
      if op !in c.tasks || !c.tasks[op].Recording? then c
      else if !ok then MoveTo(c, op, Failing)
      else if op != c.operation then MoveTo(c, op, Finishing)
      else MoveTo(c, op, Evaluating(c.tasks[op].identity))
    case Evaluated(op, reply) =>
      if op !in c.tasks || !c.tasks[op].Evaluating? then c else ShowReply(c, op, c.tasks[op].identity, reply)
    case Fail(op) =>
      if op !in c.tasks || c.tasks[op] != Failing then c
      else if op != c.operation then MoveTo(c, op, Finishing)
      else MoveTo(c.(shown := c.shown.(error := true)), op, Finishing)
    case Finish(op) =>
      if op !in c.tasks || c.tasks[op] != Finishing then c
      else if op != c.operation then c.(tasks := c.tasks - {op})
      else c.(shown := c.shown.(pending := false), tasks := c.tasks - {op})
  }

  function Run(c: Controller, steps: seq<Step>): Controller
    decreases |steps|
  {
    if steps == [] then c else Run(Apply(c, steps[0]), steps[1..])
  }

  // --- Invariant ---

  ghost predicate Inv(c: Controller) {
    && (forall op <- c.tasks :: op <= c.operation)
    && (c.shown.pending <==> c.operation in c.tasks)
    && (c.operation in c.tasks && (c.tasks[c.operation].Recording? || c.tasks[c.operation].Evaluating?) ==>
          c.shown.revision == Some(c.tasks[c.operation].identity))
    && (c.shown.evaluation.Some? ==> c.shown.revision == Some(c.shown.evaluation.value.identity))
  }

  lemma StepKeeps(c: Controller, step: Step)
    requires Inv(c)
    ensures Inv(Apply(c, step))
  {
    hide FindQuestion, ScopeCompatibleWaiver;
    assert c.operation + 1 !in c.tasks;
  }

  lemma {:induction false} RunKeeps(c: Controller, steps: seq<Step>)
    requires Inv(c)
    ensures Inv(Run(c, steps))
    decreases |steps|
  {
    hide Apply, Inv;
    if steps != [] {
      StepKeeps(c, steps[0]);
      RunKeeps(Apply(c, steps[0]), steps[1..]);
    }
  }

  /** In every interleaving of calls and late replies: a shown evaluation is of the current revision, and
      the panel is pending exactly when a task in flight holds the current operation number. */
  lemma EveryRunIsConsistent(steps: seq<Step>)
    ensures var c := Run(FRESH, steps);
            && (c.shown.evaluation.Some? ==> c.shown.revision == Some(c.shown.evaluation.value.identity))
            && (c.shown.pending <==> c.operation in c.tasks)
  {
    hide Run;
    assert Inv(FRESH);
    RunKeeps(FRESH, steps);
  }

  // --- Late replies ---

  // A continuation of a task that holds an older operation number.
  predicate IsOld(operation: nat, step: Step) {
    (step.Recorded? || step.Evaluated? || step.Fail? || step.Finish?) && step.op != operation
  }

  /** Replies to older operations change nothing that is shown, however many come and in whatever order. */
  lemma {:induction false} OldRepliesChangeNothing(c: Controller, steps: seq<Step>)
    requires forall x <- steps :: IsOld(c.operation, x)
    ensures Run(c, steps).shown == c.shown && Run(c, steps).operation == c.operation
    decreases |steps|
  {
    if steps != [] {
      assert steps[0] in steps && forall x <- steps[1..] :: x in steps;
      OldRepliesChangeNothing(Apply(c, steps[0]), steps[1..]);
    }
  }

  /** Setting the revision that is shown changes nothing; any other one supersedes what is in flight and clears the
      panel. Becoming unavailable supersedes it too, withdraws the evaluation and shows an error. Neither a refresh nor
      a decision begins while one is pending. */
  lemma ControlsAre(c: Controller, r: Option<Identity>, action: Action, question: string)
    ensures Apply(c, SetRevision(c.shown.revision)) == c
    ensures r != c.shown.revision ==>
              Apply(c, SetRevision(r)) == Controller(c.operation + 1, Shown(false, None, false, r), c.tasks)
    ensures Apply(c, MarkUnavailable) ==
            Controller(c.operation + 1, Shown(true, None, false, c.shown.revision), c.tasks)
    ensures c.shown.pending || c.shown.revision.None? ==>
              Apply(c, Refresh) == c && Apply(c, Record(action, question)) == c
  {
  }

  predicate AllOld(operation: nat, steps: seq<Step>) { forall x <- steps :: IsOld(operation, x) }

  // Late replies leave the current task where it is.
  lemma {:induction false} OldRepliesKeepTheTask(c: Controller, steps: seq<Step>)
    requires AllOld(c.operation, steps)
    ensures var d := Run(c, steps);
            && d.shown == c.shown && d.operation == c.operation
            && (c.operation in c.tasks <==> c.operation in d.tasks)
            && (c.operation in c.tasks ==> d.tasks[c.operation] == c.tasks[c.operation])
    decreases |steps|
  {
    if steps != [] {
      assert steps[0] in steps && forall x <- steps[1..] :: x in steps;
      OldRepliesKeepTheTask(Apply(c, steps[0]), steps[1..]);
    }
  }

  // The reply is an evaluation of what was asked about.
  predicate Answers(reply: Option<Evaluation>, identity: Identity) {
    reply.Some? && reply.value.identity == identity
  }

  // From the reply to the end of the task, with late replies to older operations in between.
  function Replied(c: Controller, reply: Option<Evaluation>, a: seq<Step>, b: seq<Step>): Controller {
    var op := c.operation;
    Apply(Run(Apply(Run(Apply(c, Evaluated(op, reply)), a), Fail(op)), b), Finish(op))
  }

  lemma RepliedShows(c: Controller, identity: Identity, reply: Option<Evaluation>, a: seq<Step>, b: seq<Step>)
    requires c.operation in c.tasks && c.tasks[c.operation] == Evaluating(identity)
    requires AllOld(c.operation, a) && AllOld(c.operation, b)
    ensures Replied(c, reply, a, b).shown ==
            if Answers(reply, identity) then c.shown.(error := false, evaluation := reply, pending := false)
            else c.shown.(error := true, pending := false)
  {
    hide Run;
    var op := c.operation;
    var c1 := Apply(c, Evaluated(op, reply));
    OldRepliesKeepTheTask(c1, a);
    var c2 := Apply(Run(c1, a), Fail(op));
    OldRepliesKeepTheTask(c2, b);
  }

  /** A refresh ends by showing the evaluation that answers it, with no error, or else an error beside what was shown
      before; in both cases it is no longer pending, whatever older replies come in between. */
  lemma RefreshShows(c: Controller, reply: Option<Evaluation>, late: seq<Step>, a: seq<Step>, b: seq<Step>)
    requires Inv(c) && c.shown.revision.Some? && !c.shown.pending
    requires AllOld(c.operation + 1, late) && AllOld(c.operation + 1, a) && AllOld(c.operation + 1, b)
    ensures var begun := Apply(c, Refresh);
            && begun.shown == c.shown.(error := false, pending := true)
            && Replied(Run(begun, late), reply, a, b).shown ==
               if Answers(reply, c.shown.revision.value) then Shown(false, reply, false, c.shown.revision)
               else Shown(true, c.shown.evaluation, false, c.shown.revision)
  {
    hide Run, Replied, Inv;
    var begun := Apply(c, Refresh);
    OldRepliesKeepTheTask(begun, late);
    RepliedShows(Run(begun, late), c.shown.revision.value, reply, a, b);
  }

  /** A decision that may be recorded is recorded first and then evaluated, and ends the same way; when recording fails
      the error is shown and nothing is evaluated. */
  lemma RecordShows(c: Controller, action: Action, question: string, reply: Option<Evaluation>,
                    late: seq<Step>, a: seq<Step>, b: seq<Step>)
    requires Inv(c) && MayRecord(c.shown, action, question)
    requires AllOld(c.operation + 1, late) && AllOld(c.operation + 1, a) && AllOld(c.operation + 1, b)
    ensures var op := c.operation + 1; var begun := Run(Apply(c, Record(action, question)), late);
            && Replied(Apply(begun, Recorded(op, true)), reply, a, b).shown ==
               (if Answers(reply, c.shown.revision.value) then Shown(false, reply, false, c.shown.revision)
                else Shown(true, c.shown.evaluation, false, c.shown.revision))
            && Replied(Apply(begun, Recorded(op, false)), reply, a, b).shown ==
               Shown(true, c.shown.evaluation, false, c.shown.revision)
  {
    hide Run, Inv, MayRecord;
    assert c.shown.revision.Some? by { MayRecordMeans(c.shown, action, question); }
    var op, begun := c.operation + 1, Apply(c, Record(action, question));
    OldRepliesKeepTheTask(begun, late);
    var c1 := Run(begun, late);
    RepliedShows(Apply(c1, Recorded(op, true)), c.shown.revision.value, reply, a, b);
    var failed := Apply(c1, Recorded(op, false));
    OldRepliesKeepTheTask(failed, a);
    OldRepliesKeepTheTask(Apply(Run(failed, a), Fail(op)), b);
  }

  /** A decision may be recorded exactly when some question of that id is shown, the first such is about the current
      revision, nothing is pending, and a waiver is of the one rule that allows it. */
  lemma MayRecordMeans(s: Shown, action: Action, question: string)
    ensures MayRecord(s, action, question) <==>
            && s.evaluation.Some? && s.revision.Some? && !s.pending
            && (exists i ::
                  && IsFirst(s.evaluation.value.questions, question, i)
                  && Recordable(s.evaluation.value.questions[i], s.revision.value, action))
  {
    if s.evaluation.Some? {
      FoundIsFirst(s.evaluation.value.questions, question);
    }
  }

  // The question is about the revision, and a waiver is of the one rule that allows it.
  predicate Recordable(q: Question, revision: Identity, action: Action) {
    && q.identity == revision
    && (action == Waive ==>
          q.waivable && q.ruleClass == "scope_compatibility" && q.id == "grill_question_scope_compatibility")
  }

  predicate IsFirst(qs: seq<Question>, id: string, i: int) {
    0 <= i < |qs| && qs[i].id == id && forall j :: 0 <= j < i ==> qs[j].id != id
  }

  lemma {:induction false} FoundIsFirst(qs: seq<Question>, id: string)
    ensures FindQuestion(qs, id).Some? <==> exists i :: IsFirst(qs, id, i)
    ensures forall i :: IsFirst(qs, id, i) ==> FindQuestion(qs, id) == Some(qs[i])
    decreases |qs|
  {
    if qs != [] {
      var rest := qs[1..];
      FoundIsFirst(rest, id);
      if qs[0].id == id {
        assert IsFirst(qs, id, 0);
      } else {
        forall i | IsFirst(rest, id, i) ensures IsFirst(qs, id, i + 1) {
          assert forall j :: 1 <= j < i + 1 ==> qs[j] == rest[j - 1];
        }
        forall i | IsFirst(qs, id, i) ensures i > 0 && IsFirst(rest, id, i - 1) {
          assert forall j :: 0 <= j < i - 1 ==> rest[j] == qs[j + 1];
        }
      }
    }
  }

  /** After a new revision is set, nothing still in flight can show anything. */
  lemma NewRevisionSilencesTheRest(c: Controller, r: Option<Identity>, steps: seq<Step>)
    requires Inv(c) && c.shown.revision != r
    requires forall x <- steps :: (x.Recorded? || x.Evaluated? || x.Fail? || x.Finish?)
    ensures Run(Apply(c, SetRevision(r)), steps).shown == Shown(false, None, false, r)
  {
    var d := Apply(c, SetRevision(r));
    assert d.operation !in d.tasks;
    OnlyContinuations(d, steps);
  }

  lemma {:induction false} OnlyContinuations(c: Controller, steps: seq<Step>)
    requires c.operation !in c.tasks && forall x <- steps :: (x.Recorded? || x.Evaluated? || x.Fail? || x.Finish?)
    ensures Run(c, steps).shown == c.shown
    decreases |steps|
  {
    if steps != [] {
      assert steps[0] in steps && forall x <- steps[1..] :: x in steps;
      OnlyContinuations(Apply(c, steps[0]), steps[1..]);
    }
  }

  // --- The controller object ---

  class ReviewController {
    var operation: nat
    var shown: Shown
    var tasks: map<nat, Stage>

    constructor ()
      ensures Now() == FRESH && Valid()
    {
      operation, shown, tasks := 0, Shown(false, None, false, None), map[];
    }

    function Now(): Controller
      reads this
    {
      Controller(operation, shown, tasks)
    }

    /** What a caller may rely on between any two calls and replies. */
    ghost predicate Valid()
      reads this
      ensures Valid() ==> shown.evaluation.Some? ==> shown.revision == Some(shown.evaluation.value.identity)
      ensures Valid() ==> (shown.pending <==> operation in tasks)
    {
      Inv(Now())
    }

    method ChangeRevision(revision: Option<Identity>) returns (changed: bool)
      requires Valid()
      modifies this
      ensures Valid() && Now() == Apply(old(Now()), SetRevision(revision))
      ensures changed <==> old(shown.revision) != revision
    {
      hide Inv;
      StepKeeps(Now(), SetRevision(revision));
      if shown.revision == revision {
        return false;
      }
      operation := operation + 1;
      shown := Shown(false, None, false, revision);
      return true;
    }

    method BecomeUnavailable()
      requires Valid()
      modifies this
      ensures Valid() && Now() == Apply(old(Now()), MarkUnavailable)
    {
      hide Inv;
      StepKeeps(Now(), MarkUnavailable);
      operation := operation + 1;
      shown := shown.(error := true, evaluation := None, pending := false);
    }

    method BeginOperation(stage: Stage) returns (op: nat)
      requires Valid()
      modifies this
      ensures Now() == Begin(old(Now()), stage) && op == operation
    {
      operation := operation + 1;
      op := operation;
      shown := shown.(error := false, pending := true);
      tasks := tasks[op := stage];
    }

    method StartRefresh()
      requires Valid()
      modifies this
      ensures Valid() && Now() == Apply(old(Now()), Refresh)
    {
      hide Inv;
      StepKeeps(Now(), Refresh);
      if shown.revision.None? || shown.pending {
        return;
      }
      var _ := BeginOperation(Evaluating(shown.revision.value));
    }

    method StartRecord(action: Action, question: string)
      requires Valid()
      modifies this
      ensures Valid() && Now() == Apply(old(Now()), Record(action, question))
    {
      hide Inv;
      StepKeeps(Now(), Record(action, question));
      if shown.evaluation.None? || shown.revision.None? || shown.pending {
        return;
      }
      var q := LookUp(shown.evaluation.value.questions, question);
      if q.None? || q.value.identity != shown.revision.value || (action == Waive && !ScopeCompatibleWaiver(q.value)) {
        return;
      }
      var _ := BeginOperation(Recording(shown.revision.value));
    }

    method OnRecorded(op: nat, ok: bool)
      requires Valid() && op in tasks && tasks[op].Recording?
      modifies this
      ensures Valid() && Now() == Apply(old(Now()), Recorded(op, ok))
    {
      hide Inv;
      StepKeeps(Now(), Recorded(op, ok));
      if !ok {
        tasks := tasks[op := Failing];
      } else if op != operation {
        tasks := tasks[op := Finishing];
      } else {
        tasks := tasks[op := Evaluating(tasks[op].identity)];
      }
    }

    method OnEvaluated(op: nat, reply: Option<Evaluation>)
      requires Valid() && op in tasks && tasks[op].Evaluating?
      modifies this
      ensures Valid() && Now() == Apply(old(Now()), Evaluated(op, reply))
    {
      hide Inv;
      StepKeeps(Now(), Evaluated(op, reply));
      if reply.None? {
        tasks := tasks[op := Failing];
      } else if op != operation {
        tasks := tasks[op := Finishing];
      } else if reply.value.identity != tasks[op].identity {
        tasks := tasks[op := Failing];
      } else {
        shown := shown.(error := false, evaluation := reply);
        tasks := tasks[op := Finishing];
      }
    }

    method OnFail(op: nat)
      requires Valid() && op in tasks && tasks[op] == Failing
      modifies this
      ensures Valid() && Now() == Apply(old(Now()), Fail(op))
    {
      hide Inv;
      StepKeeps(Now(), Fail(op));
      if op == operation {
        shown := shown.(error := true);
      }
      tasks := tasks[op := Finishing];
    }

    method OnFinish(op: nat)
      requires Valid() && op in tasks && tasks[op] == Finishing
      modifies this
      ensures Valid() && Now() == Apply(old(Now()), Finish(op))
    {
      hide Inv;
      StepKeeps(Now(), Finish(op));
      if op == operation {
        shown := shown.(pending := false);
      }
      tasks := tasks - {op};
    }
  }

  method LookUp(qs: seq<Question>, id: string) returns (r: Option<Question>)
    ensures r == FindQuestion(qs, id)
  {
    for i := 0 to |qs|
      invariant FindQuestion(qs, id) == FindQuestion(qs[i..], id)
    {
      if qs[i].id == id {
        return Some(qs[i]);
      }
    }
    return None;
  }
}
