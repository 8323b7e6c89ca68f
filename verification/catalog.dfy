/** The fixed, in-memory list of daily wellness tasks and the facts about it
    that the rest of the model relies on: distinct positive ids, positive point
    rewards and a proof kind drawn from a closed set of three. */
module Catalog {
  import opened Optional

  /** The three proof kinds a task may ask for. */
  datatype ProofKind = Image | Text | Screenshot

  /** The spelling of each kind in a task's `proofType` field. */
  function KindName(k: ProofKind): string {
    match k
    case Image => "image"
    case Text => "text"
    case Screenshot => "screenshot"
  }

  /** Reads a `proofType` string; anything but the three known spellings is
      not a proof kind. */
  function ParseKind(s: string): (r: Option<ProofKind>)
    ensures r.Some? ==> KindName(r.value) == s
    ensures r.None? ==> forall k: ProofKind :: KindName(k) != s
  {
    if s == "image" then Some(Image)
    else if s == "text" then Some(Text)
    else if s == "screenshot" then Some(Screenshot)
    else None
  }

  /** Parsing a kind's own spelling gives the kind back. */
  lemma ParseKindName(k: ProofKind)
    ensures ParseKind(KindName(k)) == Some(k)
  {
  }

  /** One catalog entry. `category`, `title` and `description` are display text. */
  datatype Task = Task(
    id: int,
    title: string,
    description: string,
    points: int,
    category: string,
    proofType: string
  )

  predicate DistinctIds(c: seq<Task>) {
    forall i, j :: 0 <= i < j < |c| ==> c[i].id != c[j].id
  }

  /** Every property of a well-formed catalog. */
  predicate ValidCatalog(c: seq<Task>) {
    && DistinctIds(c)
    && (forall i :: 0 <= i < |c| ==> c[i].id > 0 && c[i].points > 0)
    && (forall i :: 0 <= i < |c| ==> ParseKind(c[i].proofType).Some?)
  }

  /** The five daily tasks of the widget. */
  function WellnessTasks(): (c: seq<Task>)
    ensures |c| == 5
    ensures ValidCatalog(c)
  {
    [ Task(1, "Morning Stretch Challenge", "Do 5 minutes of gentle stretching after waking up",
           10, "Physical", "image"),
      Task(2, "Hydration Check", "Drink 2 glasses of water before noon",
           5, "Physical", "text"),
      Task(3, "Mindful Moment", "Practice 3 minutes of deep breathing",
           15, "Mental", "text"),
      Task(4, "Gratitude Journal", "Write down 3 things you're grateful for",
           10, "Mental", "text"),
      Task(5, "Digital Detox", "No social media for 1 hour today",
           20, "Digital Wellness", "screenshot") ]
  }

  /** The first catalog entry carrying `id`, if any. */
  function FindById(c: seq<Task>, id: int): (r: Option<Task>)
    ensures r.Some? ==> r.value in c && r.value.id == id
    ensures r.None? ==> forall i :: 0 <= i < |c| ==> c[i].id != id
  {
    if |c| == 0 then None
    else if c[0].id == id then Some(c[0])
    else FindById(c[1..], id)
  }

  /** With distinct ids, looking up a member's id finds that very member. */
  lemma FindMember(c: seq<Task>, t: Task)
    requires DistinctIds(c)
    requires t in c
    ensures FindById(c, t.id) == Some(t)
  {
  }

  /** The catalog reward of an id; an id the catalog does not know is worth nothing. */
  function PointsOfId(c: seq<Task>, id: int): int {
    match FindById(c, id)
    case Some(t) => t.points
    case None => 0
  }

  /** Sum of the catalog rewards of a list of completed ids. */
  function SumPoints(c: seq<Task>, ids: seq<int>): int {
    if |ids| == 0 then 0 else PointsOfId(c, ids[0]) + SumPoints(c, ids[1..])
  }

  /** Completing one more id adds exactly that id's reward to the sum. */
  lemma {:induction false} SumPointsAppend(c: seq<Task>, ids: seq<int>, id: int)
    ensures SumPoints(c, ids + [id]) == SumPoints(c, ids) + PointsOfId(c, id)
  {
    if |ids| > 0 {
      assert (ids + [id])[1..] == ids[1..] + [id];
      SumPointsAppend(c, ids[1..], id);
    } else {
      assert (ids + [id])[1..] == [];
    }
  }
}
