/** Facts about every session state the user can reach: start from a mounted
    widget and apply any sequence of actions through the user interface. The
    submit handler itself does not refuse a second submission; these facts hold
    because the gate in front of it hides the panel once a task is submitted. */
module Invariants {
  import opened Optional
  import opened Catalog
  import opened Tracker

  /** No id appears twice. */
  predicate NoDuplicates(ids: seq<int>) {
    forall i, j :: 0 <= i < j < |ids| ==> ids[i] != ids[j]
  }

  /** The shape of every reachable state over catalog `c`: the chosen task comes
      from the catalog, and the session is either still open with nothing
      earned or submitted with exactly its task's id and reward on record. */
  predicate Inv(c: seq<Task>, s: Session) {
    && (s.task.Some? ==> s.task.value in c)
    && (if s.submitted
        then s.task.Some? && s.completed == [s.task.value.id] && s.points == s.task.value.points
        else s.completed == [] && s.points == 0)
  }

  lemma InitEstablishes(c: seq<Task>, r: real)
    requires 0.0 <= r < 1.0
    ensures Inv(c, Init(Fresh(), c, r))
  {
  }

  lemma StepPreserves(c: seq<Task>, s: Session, e: Event)
    requires Inv(c, s)
    ensures Inv(c, Step(s, e))
  {
  }

  lemma {:induction false} RunPreserves(c: seq<Task>, s: Session, events: seq<Event>)
    requires Inv(c, s)
    ensures Inv(c, Run(s, events))
    decreases |events|
  {
    if |events| > 0 {
      StepPreserves(c, s, events[0]);
      RunPreserves(c, Step(s, events[0]), events[1..]);
    }
  }

  /** In a reachable state the point total is the catalog reward of the
      completed ids, which hold no duplicate, and the flag records whether the
      chosen task is among them. */
  lemma InvAccounting(c: seq<Task>, s: Session)
    requires ValidCatalog(c)
    requires Inv(c, s)
    ensures s.points == SumPoints(c, s.completed)
    ensures NoDuplicates(s.completed)
    ensures s.points >= 0
    ensures s.submitted <==> s.task.Some? && s.task.value.id in s.completed
  {
  }

  /** In a well-formed catalog every task renders a proof input, so the panel
      of a chosen task always offers a way to stage a proof. */
  lemma EveryTaskHasWidget(c: seq<Task>, t: Task)
    requires ValidCatalog(c)
    requires t in c
    ensures ProofWidget(Some(t)).Some?
  {
  }

  /** Editing the proof only ever changes the staged proof. */
  lemma ProofEditsFrame(s: Session, e: Event)
    requires !e.SubmitClicked?
    ensures Step(s, e).points == s.points
    ensures Step(s, e).completed == s.completed
    ensures Step(s, e).task == s.task
    ensures Step(s, e).submitted == s.submitted
  {
  }

  /** Once submitted, no sequence of actions changes the session again. */
  lemma {:induction false} SubmittedIsTerminal(s: Session, events: seq<Event>)
    requires s.submitted
    ensures Run(s, events) == s
    decreases |events|
  {
    if |events| > 0 {
      SubmittedIsTerminal(Step(s, events[0]), events[1..]);
    }
  }

  /** How many actions of a run turn the submitted flag from false to true. */
  function Flips(s: Session, events: seq<Event>): nat
    decreases |events|
  {
    if |events| == 0 then 0
    else
      var s' := Step(s, events[0]);
      (if !s.submitted && s'.submitted then 1 else 0) + Flips(s', events[1..])
  }

  lemma {:induction false} NoFlipsAfterSubmit(s: Session, events: seq<Event>)
    requires s.submitted
    ensures Flips(s, events) == 0
    decreases |events|
  {
    if |events| > 0 {
      NoFlipsAfterSubmit(Step(s, events[0]), events[1..]);
    }
  }

  /** The flag turns true at most once in any run, and never once it is set. */
  lemma {:induction false} SubmitAtMostOnce(s: Session, events: seq<Event>)
    ensures Flips(s, events) <= (if s.submitted then 0 else 1)
    decreases |events|
  {
    if s.submitted {
      NoFlipsAfterSubmit(s, events);
    } else if |events| > 0 {
      var s' := Step(s, events[0]);
      if s'.submitted {
        NoFlipsAfterSubmit(s', events[1..]);
      } else {
        SubmitAtMostOnce(s', events[1..]);
      }
    }
  }

  /** Every state reachable from mounting the widget keeps the accounting:
      points equal the catalog reward of the completed ids, no id is completed
      twice, and the submitted flag was set at most once along the way. */
  lemma ReachableAccounting(r: real, events: seq<Event>)
    requires 0.0 <= r < 1.0
    ensures Run(Mount(r), events).points == SumPoints(WellnessTasks(), Run(Mount(r), events).completed)
    ensures NoDuplicates(Run(Mount(r), events).completed)
    ensures Run(Mount(r), events).points >= 0
    ensures Flips(Mount(r), events) <= 1
  {
    var c := WellnessTasks();
    InitEstablishes(c, r);
    RunPreserves(c, Mount(r), events);
    InvAccounting(c, Run(Mount(r), events));
    SubmitAtMostOnce(Mount(r), events);
  }

  /** Without the gate, a second call of the handler, made on the state the
      first call left behind (that is, after a re-render), counts the task
      again and repeats its id. */
  lemma RawHandlerDoubleCounts(s: Session)
    requires Truthy(s.proof) && s.task.Some?
    ensures HandleProofSubmission(HandleProofSubmission(s)).points
            == s.points + 2 * s.task.value.points
    ensures HandleProofSubmission(HandleProofSubmission(s)).completed
            == s.completed + [s.task.value.id, s.task.value.id]
    ensures !NoDuplicates(HandleProofSubmission(HandleProofSubmission(s)).completed)
  {
    var s2 := HandleProofSubmission(HandleProofSubmission(s));
    assert s2.completed[|s.completed|] == s2.completed[|s.completed| + 1];
  }

  /** A handler call on the current, freshly rendered state keeps points equal
      to the catalog reward of the completed ids, even without the gate. */
  lemma RawHandlerKeepsAccounting(c: seq<Task>, s: Session)
    requires ValidCatalog(c)
    requires s.task.Some? ==> s.task.value in c
    requires s.points == SumPoints(c, s.completed)
    ensures HandleProofSubmission(s).points == SumPoints(c, HandleProofSubmission(s).completed)
  {
    if Truthy(s.proof) && s.task.Some? {
      FindMember(c, s.task.value);
      SumPointsAppend(c, s.completed, s.task.value.id);
    }
  }

  /** What the handler's code does if it is invoked twice from one render's
      closure: the reward is added twice but the id recorded only once, so the
      point total no longer matches the completed ids. */
  lemma StaleDoubleSubmitBreaksAccounting(c: seq<Task>, s: Session)
    requires ValidCatalog(c)
    requires Truthy(s.proof) && s.task.Some? && s.task.value in c
    requires s.points == SumPoints(c, s.completed)
    ensures HandleInClosure(s, HandleInClosure(s, s)).points == s.points + 2 * s.task.value.points
    ensures HandleInClosure(s, HandleInClosure(s, s)).completed == s.completed + [s.task.value.id]
    ensures HandleInClosure(s, HandleInClosure(s, s)).points
            != SumPoints(c, HandleInClosure(s, HandleInClosure(s, s)).completed)
  {
    var t := s.task.value;
    FindMember(c, t);
    SumPointsAppend(c, s.completed, t.id);
    var i :| 0 <= i < |c| && c[i] == t;
    assert t.points > 0;
  }

  /** Any non-empty capture in the rendered proof input enables the button,
      and pressing it then completes the task: its reward is added, its id
      recorded and the session marked submitted. */
  lemma NonEmptyCaptureCompletes(s: Session, e: Event)
    requires Enabled(s, e) && !e.SubmitClicked?
    requires e.FilesChosen? ==> |e.files| > 0
    requires e.TextEdited? ==> e.value != ""
    ensures SubmitEnabled(Step(s, e))
    ensures Run(s, [e, SubmitClicked]).submitted
    ensures Run(s, [e, SubmitClicked]).points == s.points + s.task.value.points
    ensures Run(s, [e, SubmitClicked]).completed == s.completed + [s.task.value.id]
  {
    var s1 := Step(s, e);
    assert Run(s, [e, SubmitClicked]) == Run(s1, [SubmitClicked]);
    assert Run(s1, [SubmitClicked]) == Step(s1, SubmitClicked);
  }

  /** Whichever task the draw picks, the user can complete it: staging a proof
      in the input rendered for it and pressing submit earns exactly its reward. */
  lemma EveryMountCompletable(r: real)
    requires 0.0 <= r < 1.0
    ensures exists events: seq<Event> ::
      && Run(Mount(r), events).submitted
      && Run(Mount(r), events).points == Mount(r).task.value.points
      && Run(Mount(r), events).completed == [Mount(r).task.value.id]
  {
    var s := Mount(r);
    EveryTaskHasWidget(WellnessTasks(), s.task.value);
    var e := if ProofWidget(s.task) == Some(TextInput) then TextEdited("done")
             else FilesChosen([FileRef("proof")]);
    NonEmptyCaptureCompletes(s, e);
  }
}
