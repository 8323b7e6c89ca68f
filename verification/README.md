# Daily wellness challenge — a Dafny model

This project models the state logic of the `WellnessTracker` widget. The widget
picks one task at random from a fixed list of five wellness tasks. It shows a
proof input whose shape depends on the task's proof kind. Submitting a proof
adds the task's points to a counter, records the task's id and marks the
session as submitted. A level label is derived from the point total.

The model is functional. `Session` is an immutable record of the five pieces of
state: points, completed ids, chosen task, staged proof and submitted flag. Each
handler is a pure step function on it.

- `optional.dfy` — `Option`, standing in for `null` / `undefined`.
- `catalog.dfy` — the task list, the proof-kind strings, id lookup and point sums.
- `levels.dfy` — the level derivation.
- `tracker.dfy` — the session, the initialiser, the proof setters, the submit
  handler as written, the widget dispatch, and the user-interface gate. The gate
  is panel visibility plus the button's disabled state. It also holds `Step`
  (one gated user action), `Run` (a gated sequence) and `RawRun` (an ungated one).
- `invariants.dfy` — facts about every state reachable from mounting the widget.
- `scenarios.dfy` — concrete walk-throughs.

The submit handler checks only that a proof is staged and a task is chosen. It
does not check the submitted flag. Once a task is submitted, the panel holding
the proof input and the button is hidden. The button is disabled while no
proof is staged. The model keeps the handler as written (`HandleProofSubmission`).
Called a second time on the state the first call left, it counts the task
twice. If it were invoked twice from one render's closure (`HandleInClosure`),
its code would add the reward twice but record the id once, because line 63 uses the updater form and
line 64 reads the list captured at render time. The at-most-once and
accounting properties are proved for the gated action (`SubmitAction`, `Step`,
`Run`).

In four details the model follows the code:
- the completed ids form a list that is appended to, not a set;
- a proof-type string outside the three known kinds renders no input;
- an empty catalog would leave the task unset, because reading past the end of
  the list yields `undefined`;
- the initialiser leaves the point total and the completed list as they are.

## Model

| member | source | states |
|---|---|---|
| Catalog.ParseKind | wellness-tracker.tsx:70-98 | a `proofType` string is a proof kind exactly when it is one of the three spellings, and the kind found spells back to the same string |
| Catalog.ParseKindName | wellness-tracker.tsx:70-98 | round trip: parsing a kind's spelling gives that kind back |
| Catalog.WellnessTasks | wellness-tracker.tsx:4-45 | the catalog has five entries with pairwise distinct positive ids, positive rewards, and a proof type among image, text and screenshot |
| Catalog.FindMember | wellness-tracker.tsx:4-45 | because ids are distinct, looking up the id of a catalog task finds that same task |
| Catalog.SumPointsAppend | wellness-tracker.tsx:63-64 | appending one completed id adds exactly that id's catalog reward to the sum over the completed list |
| Levels.GetLevel | wellness-tracker.tsx:115-120 | the level is the highest one whose threshold (0, 50, 100, 200) the total has reached; a negative total reads as the lowest level |
| Levels.LevelBands | wellness-tracker.tsx:115-120 | the label is "Wellness Newbie" exactly below 50, "Wellness Warrior" exactly on 50–99, "Wellness Champion" exactly on 100–199, and "Wellness Master" exactly from 200 |
| Levels.GetLevelMonotone | wellness-tracker.tsx:115-120 | more points never give a lower level |
| Levels.LevelAtThreshold | wellness-tracker.tsx:115-120 | each level is reached exactly at its threshold, and one point less gives the level below |
| Levels.RankAndLabelInjective | wellness-tracker.tsx:116-119 | distinct levels have distinct ranks and distinct labels |
| Tracker.Fresh | wellness-tracker.tsx:48-52 | before initialisation: no points, no completed ids, no task, no proof, not submitted |
| Tracker.RandomIndex | wellness-tracker.tsx:55 | floor(random × length) is a valid index when the list is non-empty, and 0 when it is empty |
| Tracker.RandomIndexOnto | wellness-tracker.tsx:55 | every index of a non-empty list is produced by some draw in [0, 1) |
| Tracker.PickTask | wellness-tracker.tsx:55 | the picked entry exists exactly when the catalog is non-empty, and it is a catalog member |
| Tracker.EveryTaskPickable | wellness-tracker.tsx:55 | every catalog entry can be the one picked |
| Tracker.Init | wellness-tracker.tsx:54-59 | the initialiser chooses a catalog task (present exactly when the catalog is non-empty), clears the flag and the proof, and keeps the points and completed ids |
| Tracker.Mount | wellness-tracker.tsx:48-59 | after mounting: 0 points, no completed ids, not submitted, no proof, and a task from the fixed catalog |
| Tracker.SetProof | wellness-tracker.tsx:79-107 | staging a proof replaces the proof and nothing else |
| Tracker.OnFilesChosen | wellness-tracker.tsx:79 | the first chosen file becomes the proof; the proof is truthy exactly when a file was chosen; nothing else changes |
| Tracker.OnTextChanged | wellness-tracker.tsx:92 | the text becomes the proof; the proof is truthy exactly when the text is non-empty; nothing else changes |
| Tracker.HandleProofSubmission | wellness-tracker.tsx:61-67 | with no truthy proof or no task, the state is unchanged; otherwise the task's reward is added, its id appended and the flag set, with task and proof kept, whether or not it was already submitted |
| Tracker.HandleInClosure | wellness-tracker.tsx:61-67 | the handler as a render's closure runs it: guard and appended list from the captured state, reward added to the live total; on a freshly rendered state it is the handler as written |
| Tracker.Truthy | wellness-tracker.tsx:62 | the staged proof is truthy when it is a file or non-empty text, and falsy when nothing is staged or the text is empty |
| Tracker.PanelVisible | wellness-tracker.tsx:132 | the task panel, with the proof input and the button, is shown exactly while a task is chosen and not submitted |
| Tracker.SubmitEnabled | wellness-tracker.tsx:148 | the button can be pressed exactly when the panel is shown and the staged proof is truthy |
| Tracker.Enabled | wellness-tracker.tsx:69-113 | a file event needs a visible file input, a text event a visible textarea, and a submit an enabled button |
| Tracker.ProofWidget | wellness-tracker.tsx:69-113 | an input is rendered exactly for a chosen task with a known proof kind, and it is a textarea exactly for the text kind |
| Tracker.SubmitAction | wellness-tracker.tsx:132-148 | the gated submit succeeds only on a visible, enabled button: it adds the reward, appends the id and sets a flag that was clear; otherwise the state is unchanged |
| Tracker.Step | wellness-tracker.tsx:132-148 | an action whose control is visible and enabled runs that control's handler; one whose control is hidden or disabled changes nothing; a submitted session never changes; the task is never reassigned |
| Invariants.InitEstablishes | wellness-tracker.tsx:54-59 | the mounted state satisfies the reachable-state invariant |
| Invariants.StepPreserves | wellness-tracker.tsx:61-67 | every gated action preserves the invariant |
| Invariants.RunPreserves | wellness-tracker.tsx:61-67 | every gated sequence of actions preserves the invariant |
| Invariants.InvAccounting | wellness-tracker.tsx:63-64 | in a reachable state the points equal the catalog reward of the completed ids, no id is repeated, the points are non-negative, and the flag is set exactly when the chosen task's id is completed |
| Invariants.EveryTaskHasWidget | wellness-tracker.tsx:69-113 | every task of a well-formed catalog renders a proof input |
| Invariants.ProofEditsFrame | wellness-tracker.tsx:79-107 | proof edits through the interface leave points, completed ids, task and flag untouched |
| Invariants.NonEmptyCaptureCompletes | wellness-tracker.tsx:79-148 | any non-empty capture in the rendered input enables the button, and pressing it adds the task's reward, records its id and sets the flag |
| Invariants.EveryMountCompletable | wellness-tracker.tsx:54-148 | whichever task is drawn, some sequence of actions completes it with exactly its reward and its id recorded |
| Invariants.SubmittedIsTerminal | wellness-tracker.tsx:132 | once submitted, no sequence of actions changes the session |
| Invariants.NoFlipsAfterSubmit | wellness-tracker.tsx:132 | once submitted, no action sets the flag again |
| Invariants.SubmitAtMostOnce | wellness-tracker.tsx:132-148 | in any gated run, the flag goes from false to true at most once |
| Invariants.ReachableAccounting | wellness-tracker.tsx:61-67 | for every state reachable from mounting: points equal the catalog reward of the completed ids, no id is repeated, points are non-negative, and the flag was set at most once |
| Invariants.RawHandlerDoubleCounts | wellness-tracker.tsx:61-67 | without the gate, a second handler call on the state the first one left (after a re-render) adds the reward again and repeats the id |
| Invariants.RawHandlerKeepsAccounting | wellness-tracker.tsx:63-64 | a handler call on the current, freshly rendered state keeps points equal to the catalog reward of the completed ids, even without the gate |
| Invariants.StaleDoubleSubmitBreaksAccounting | wellness-tracker.tsx:61-67 | if the handler's code is invoked twice from one render's closure, the two calls add the reward twice but append the id once, so points no longer equal the catalog reward of the completed ids |
| Scenarios.MindfulMomentScenario | wellness-tracker.tsx:21-28 | a draw of 0.5 picks task 3; typing "Breathed deeply" and submitting gives 15 points, completed [3], submitted, level "Wellness Newbie" |
| Scenarios.EmptyProofScenario | wellness-tracker.tsx:148 | with an empty text, pressing submit leaves the session open with 0 points and no completed ids |
| Scenarios.RawDoubleSubmitScenario | wellness-tracker.tsx:61-67 | two ungated submits of task 3, each on the state the previous one left, give 30 points and completed [3, 3] |
| Scenarios.StaleDoubleSubmitScenario | wellness-tracker.tsx:61-67 | two invocations of the handler on task 3 from one render's closure give 30 points and completed [3] |
| Scenarios.LevelSamples | wellness-tracker.tsx:115-120 | the labels at 0, 49, 50, 99, 100, 199, 200 and 10000 |

## Left out

- Markup, CSS classes, labels and icons: presentation only. The one thing kept is the dispatch from proof kind to input widget (`ProofWidget`).
- `Math.random`: it becomes a parameter `r` with 0 ≤ r < 1. The distribution of the draw is not modelled; `RandomIndexOnto` only shows that every index can be drawn.
- Browser `File` objects: a file is an opaque `FileRef`. An empty selection (`files[0]` is `undefined`) stages no proof. File contents and the `accept="image/*"` filter are not modelled.
- React hook semantics: `useState` and `useEffect` scheduling, batched updates, and re-rendering are not modelled. Gated runs (`Step`, `Run`) treat each handler as one atomic step on a freshly rendered state. The closure read of `completedTasks` on line 64 appears only in `HandleInClosure`.
- RawHandlerDoubleCounts: describes two handler calls on successive renders, which the gate of line 132 prevents in the widget. What the code does if invoked twice from one render's closure is `StaleDoubleSubmitBreaksAccounting`; whether the user interface can ever cause that is a question of React's event scheduling, which is not modelled.
- RawHandlerKeepsAccounting: holds only for a call on a freshly rendered state. If the code were invoked twice from one render's closure, the accounting would break (`StaleDoubleSubmitBreaksAccounting`).
- RawDoubleSubmitScenario: describes calls on successive renders; two invocations from one render's closure would give [3], not [3, 3] (`StaleDoubleSubmitScenario`).
- The initialiser runs once, on mount. It is modelled as `Init` applied to the initial state (`Mount`); it is not an event of a run.
- The point total is a JavaScript number; the model uses unbounded integers, since all rewards are small integers.
