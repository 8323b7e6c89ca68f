/** The widget's session state and the handlers that change it: the one-off
    initialiser, the three proof-input setters and the submit handler, plus the
    visibility and enablement conditions that decide which handler the user can
    reach. Each handler is one atomic step on an immutable `Session`. */
module Tracker {
  import opened Optional
  import opened Catalog

  /** An opaque handle for a browser file; its contents are never inspected. */
  datatype FileRef = FileRef(name: string)

  /** What the user staged as proof: a chosen file or the textarea's text. */
  datatype ProofToken = FileProof(file: FileRef) | TextProof(text: string)

  /** JavaScript truthiness of the staged proof: nothing staged is falsy, a
      file is truthy, text is truthy exactly when it is not empty. */
  predicate Truthy(p: Option<ProofToken>) {
    match p
    case None => false
    case Some(FileProof(_)) => true
    case Some(TextProof(t)) => |t| > 0
  }

  /** The five pieces of session state. */
  datatype Session = Session(
    points: int,
    completed: seq<int>,
    task: Option<Task>,
    proof: Option<ProofToken>,
    submitted: bool
  )

  /** The state before the initialiser has run. */
  function Fresh(): (s: Session)
    ensures s.points == 0 && s.completed == []
    ensures s.task.None? && s.proof.None? && !s.submitted
  {
    Session(0, [], None, None, false)
  }

  /** `floor(random * n)` for a random draw `r` in [0, 1): an index of a list of
      length `n` when `n > 0`, and 0 (out of range) when the list is empty. */
  function RandomIndex(r: real, n: nat): (i: int)
    requires 0.0 <= r < 1.0
    ensures n > 0 ==> 0 <= i < n
    ensures n == 0 ==> i == 0
  {
    assert 0.0 <= r * n as real;
    assert n > 0 ==> r * n as real < n as real;
    (r * n as real).Floor
  }

  /** Every index of a non-empty list is produced by some random draw. */
  lemma RandomIndexOnto(i: nat, n: nat)
    requires i < n
    ensures exists r: real :: 0.0 <= r < 1.0 && RandomIndex(r, n) == i
  {
    var r := i as real / n as real;
    assert r * n as real == i as real;
    assert RandomIndex(r, n) == i;
  }

  /** The catalog entry at the drawn index; reading past the end (only possible
      for an empty catalog) yields no task. */
  function PickTask(c: seq<Task>, r: real): (t: Option<Task>)
    requires 0.0 <= r < 1.0
    ensures t.Some? <==> |c| > 0
    ensures t.Some? ==> t.value in c
  {
    var i := RandomIndex(r, |c|);
    if i < |c| then Some(c[i]) else None
  }

  /** Every catalog entry can be the one picked. */
  lemma EveryTaskPickable(c: seq<Task>, i: nat)
    requires i < |c|
    ensures exists r: real :: 0.0 <= r < 1.0 && PickTask(c, r) == Some(c[i])
  {
    RandomIndexOnto(i, |c|);
    var r: real :| 0.0 <= r < 1.0 && RandomIndex(r, |c|) == i;
    assert PickTask(c, r) == Some(c[i]);
  }

  /** The initialiser: choose a task, clear the submitted flag and the staged
      proof. It does not touch the point total or the completed list. */
  function Init(s: Session, c: seq<Task>, r: real): (s': Session)
    requires 0.0 <= r < 1.0
    ensures s'.task.Some? <==> |c| > 0
    ensures s'.task.Some? ==> s'.task.value in c
    ensures !s'.submitted && s'.proof.None?
    ensures s'.points == s.points && s'.completed == s.completed
  {
    s.(task := PickTask(c, r), submitted := false, proof := None)
  }

  /** Mounting the widget: the initial state followed by the initialiser over
      the fixed catalog. */
  function Mount(r: real): (s: Session)
    requires 0.0 <= r < 1.0
    ensures s.points == 0 && s.completed == [] && !s.submitted && s.proof.None?
    ensures s.task.Some? && s.task.value in WellnessTasks()
  {
    Init(Fresh(), WellnessTasks(), r)
  }

  /** Staging a proof value: only the staged proof changes. */
  function SetProof(s: Session, p: Option<ProofToken>): (s': Session)
    ensures s'.proof == p
    ensures s'.points == s.points && s'.completed == s.completed
    ensures s'.task == s.task && s'.submitted == s.submitted
  {
    s.(proof := p)
  }

  /** The file input's change handler: the first chosen file, or nothing when
      the selection is empty. */
  function OnFilesChosen(s: Session, files: seq<FileRef>): (s': Session)
    ensures Truthy(s'.proof) <==> |files| > 0
    ensures |files| > 0 ==> s'.proof == Some(FileProof(files[0]))
    ensures s'.points == s.points && s'.completed == s.completed
    ensures s'.task == s.task && s'.submitted == s.submitted
  {
    SetProof(s, if |files| > 0 then Some(FileProof(files[0])) else None)
  }

  /** The textarea's change handler: the whole current text becomes the proof. */
  function OnTextChanged(s: Session, value: string): (s': Session)
    ensures Truthy(s'.proof) <==> value != ""
    ensures s'.proof == Some(TextProof(value))
    ensures s'.points == s.points && s'.completed == s.completed
    ensures s'.task == s.task && s'.submitted == s.submitted
  {
    SetProof(s, Some(TextProof(value)))
  }

  /** The submit handler exactly as written: it checks only that a proof is
      staged and a task is chosen, not whether the task was already submitted. */
  function HandleProofSubmission(s: Session): (s': Session)
    ensures !(Truthy(s.proof) && s.task.Some?) ==> s' == s
    ensures Truthy(s.proof) && s.task.Some? ==>
      && s'.points == s.points + s.task.value.points
      && s'.completed == s.completed + [s.task.value.id]
      && s'.submitted
      && s'.task == s.task && s'.proof == s.proof
  {
    if Truthy(s.proof) && s.task.Some? then
      s.(points := s.points + s.task.value.points,
         completed := s.completed + [s.task.value.id],
         submitted := true)
    else s
  }

  /** The submit handler as a render's closure runs it when the user triggers
      it: the guard and the appended list read the state captured at render
      time, while the point update goes through the updater form and so adds to
      the live total. On a freshly rendered state this is the handler above. */
  function HandleInClosure(closure: Session, live: Session): (s': Session)
    ensures !(Truthy(closure.proof) && closure.task.Some?) ==> s' == live
    ensures Truthy(closure.proof) && closure.task.Some? ==>
      && s'.points == live.points + closure.task.value.points
      && s'.completed == closure.completed + [closure.task.value.id]
      && s'.submitted
      && s'.task == live.task && s'.proof == live.proof
    ensures closure == live ==> s' == HandleProofSubmission(live)
  {
    if Truthy(closure.proof) && closure.task.Some? then
      live.(points := live.points + closure.task.value.points,
            completed := closure.completed + [closure.task.value.id],
            submitted := true)
    else live
  }

  /** The two widgets a proof kind is captured with. */
  datatype InputWidget = FileInput | TextInput

  /** The proof input rendered for the chosen task: a file input for images and
      screenshots, a textarea for text, nothing for no task or an unknown kind. */
  function ProofWidget(t: Option<Task>): (w: Option<InputWidget>)
    ensures w.Some? <==> t.Some? && ParseKind(t.value.proofType).Some?
    ensures w == Some(TextInput) <==> t.Some? && ParseKind(t.value.proofType) == Some(Text)
  {
    match t
    case None => None
    case Some(task) =>
      match ParseKind(task.proofType)
      case Some(Image) => Some(FileInput)
      case Some(Text) => Some(TextInput)
      case Some(Screenshot) => Some(FileInput)
      case None => None
  }

  /** The task panel, holding the proof input and the submit button, is shown
      only while a task is chosen and not yet submitted. */
  predicate PanelVisible(s: Session) {
    s.task.Some? && !s.submitted
  }

  /** The submit button can be pressed only when it is shown and a proof is staged. */
  predicate SubmitEnabled(s: Session) {
    PanelVisible(s) && Truthy(s.proof)
  }

  /** The user's actions on the widget. */
  datatype Event = FilesChosen(files: seq<FileRef>) | TextEdited(value: string) | SubmitClicked

  /** Whether the control an event needs is on screen and enabled. */
  predicate Enabled(s: Session, e: Event) {
    match e
    case FilesChosen(_) => PanelVisible(s) && ProofWidget(s.task) == Some(FileInput)
    case TextEdited(_) => PanelVisible(s) && ProofWidget(s.task) == Some(TextInput)
    case SubmitClicked => SubmitEnabled(s)
  }

  /** The handler an event triggers, run regardless of what is on screen. */
  function Handle(s: Session, e: Event): Session {
    match e
    case FilesChosen(files) => OnFilesChosen(s, files)
    case TextEdited(value) => OnTextChanged(s, value)
    case SubmitClicked => HandleProofSubmission(s)
  }

  /** The submit action as the user can reach it: the handler behind the
      visibility and enablement gate; a blocked press changes nothing. */
  function SubmitAction(s: Session): (s': Session)
    ensures SubmitEnabled(s) ==>
      && s'.points == s.points + s.task.value.points
      && s'.completed == s.completed + [s.task.value.id]
      && s'.submitted && !s.submitted
      && s'.task == s.task && s'.proof == s.proof
    ensures !SubmitEnabled(s) ==> s' == s
  {
    if SubmitEnabled(s) then HandleProofSubmission(s) else s
  }

  /** One user action through the user interface: a visible, enabled control
      runs its handler; a control that is hidden or disabled cannot fire, so the
      state stays as it is. */
  function Step(s: Session, e: Event): (s': Session)
    ensures Enabled(s, e) ==> s' == Handle(s, e)
    ensures !Enabled(s, e) ==> s' == s
    ensures s.submitted ==> s' == s
    ensures s'.task == s.task
  {
    match e
    case SubmitClicked => SubmitAction(s)
    case _ => if Enabled(s, e) then Handle(s, e) else s
  }

  /** A sequence of user actions through the user interface. */
  function Run(s: Session, events: seq<Event>): Session
    decreases |events|
  {
    if |events| == 0 then s else Run(Step(s, events[0]), events[1..])
  }

  /** A sequence of handler calls with no gate in front of them. */
  function RawRun(s: Session, events: seq<Event>): Session
    decreases |events|
  {
    if |events| == 0 then s else RawRun(Handle(s, events[0]), events[1..])
  }
}
