/** The level label derived from a point total: four bands with inclusive
    lower bounds 0, 50, 100 and 200, re-derived on every point change. */
module Levels {

  datatype Level = Newbie | Warrior | Champion | Master

  /** Position of a level in the progression, lowest first. */
  function Rank(l: Level): nat {
    match l
    case Newbie => 0
    case Warrior => 1
    case Champion => 2
    case Master => 3
  }

  /** The label shown for each level. */
  function Label(l: Level): string {
    match l
    case Newbie => "Wellness Newbie"
    case Warrior => "Wellness Warrior"
    case Champion => "Wellness Champion"
    case Master => "Wellness Master"
  }

  /** The fewest points that qualify for a level. */
  function MinPoints(l: Level): int {
    match l
    case Newbie => 0
    case Warrior => 50
    case Champion => 100
    case Master => 200
  }

  /** The level for a point total: the highest level whose threshold the total
      has reached. A total below every threshold (only a negative one) still
      reads as the lowest level, as the first comparison in the widget does. */
  function GetLevel(points: int): (l: Level)
    ensures 0 <= points ==> MinPoints(l) <= points
    ensures forall k: Level :: MinPoints(k) <= points ==> Rank(k) <= Rank(l)
    ensures points < 0 ==> l == Newbie
  {
    if points < 50 then Newbie
    else if points < 100 then Warrior
    else if points < 200 then Champion
    else Master
  }

  /** Distinct levels have distinct ranks and distinct labels. */
  lemma RankAndLabelInjective(l: Level, k: Level)
    requires l != k
    ensures Rank(l) != Rank(k)
    ensures Label(l) != Label(k)
  {
  }

  /** The four bands, stated on the displayed label, in both directions. */
  lemma LevelBands(points: int)
    ensures Label(GetLevel(points)) == "Wellness Newbie" <==> points < 50
    ensures Label(GetLevel(points)) == "Wellness Warrior" <==> 50 <= points < 100
    ensures Label(GetLevel(points)) == "Wellness Champion" <==> 100 <= points < 200
    ensures Label(GetLevel(points)) == "Wellness Master" <==> 200 <= points
  {
  }

  /** More points never mean a lower level. */
  lemma GetLevelMonotone(p: int, q: int)
    requires p <= q
    ensures Rank(GetLevel(p)) <= Rank(GetLevel(q))
  {
  }

  /** Every level is attained exactly from its threshold on, up to the next one. */
  lemma LevelAtThreshold(l: Level)
    ensures GetLevel(MinPoints(l)) == l
    ensures l != Newbie ==> Rank(GetLevel(MinPoints(l) - 1)) == Rank(l) - 1
  {
  }
}
