/** Concrete walks through the widget. */
module Scenarios {
  import opened Optional
  import opened Catalog
  import opened Levels
  import opened Tracker

  /** A draw of 0.5 over the five tasks picks "Mindful Moment"; typing a proof
      and submitting earns its 15 points, records id 3, and leaves the user a
      Wellness Newbie. */
  lemma MindfulMomentScenario()
    ensures Mount(0.5).task == Some(WellnessTasks()[2])
    ensures Run(Mount(0.5), [TextEdited("Breathed deeply"), SubmitClicked])
            == Session(15, [3], Some(WellnessTasks()[2]), Some(TextProof("Breathed deeply")), true)
    ensures Label(GetLevel(15)) == "Wellness Newbie"
  {
  }

  /** An empty text keeps the submit button disabled: pressing it changes nothing. */
  lemma EmptyProofScenario()
    ensures Run(Mount(0.5), [TextEdited(""), SubmitClicked])
            == Session(0, [], Some(WellnessTasks()[2]), Some(TextProof("")), false)
  {
  }

  /** Calling the handler twice with no gate records task 3 twice and 30 points. */
  lemma RawDoubleSubmitScenario()
    ensures RawRun(Mount(0.5), [TextEdited("Breathed deeply"), SubmitClicked, SubmitClicked]).points == 30
    ensures RawRun(Mount(0.5), [TextEdited("Breathed deeply"), SubmitClicked, SubmitClicked]).completed == [3, 3]
  {
  }

  /** The level at both ends of each band. */
  lemma LevelSamples()
    ensures Label(GetLevel(0)) == "Wellness Newbie" && Label(GetLevel(49)) == "Wellness Newbie"
    ensures Label(GetLevel(50)) == "Wellness Warrior" && Label(GetLevel(99)) == "Wellness Warrior"
    ensures Label(GetLevel(100)) == "Wellness Champion" && Label(GetLevel(199)) == "Wellness Champion"
    ensures Label(GetLevel(200)) == "Wellness Master" && Label(GetLevel(10000)) == "Wellness Master"
  {
  }

  /** If the handler is invoked twice from one render's closure, on task 3
      with a typed proof, its code gives 30 points but records id 3 once. */
  lemma StaleDoubleSubmitScenario()
    ensures HandleInClosure(Run(Mount(0.5), [TextEdited("Breathed deeply")]),
                            HandleInClosure(Run(Mount(0.5), [TextEdited("Breathed deeply")]),
                                            Run(Mount(0.5), [TextEdited("Breathed deeply")]))).points == 30
    ensures HandleInClosure(Run(Mount(0.5), [TextEdited("Breathed deeply")]),
                            HandleInClosure(Run(Mount(0.5), [TextEdited("Breathed deeply")]),
                                            Run(Mount(0.5), [TextEdited("Breathed deeply")]))).completed == [3]
  {
  }
}
