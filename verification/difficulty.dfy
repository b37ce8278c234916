/** The three difficulty levels a butterfly record carries as the integers 1, 2
    and 3, with the name and badge colour both screens show for them. */
module Difficulty {
  import opened Wrappers

  datatype Level = Easy | Medium | Hard

  /** The stored integer of each level. */
  function Rating(l: Level): int {
    match l
    case Easy => 1
    case Medium => 2
    case Hard => 3
  }

  /** The level a stored integer stands for; any other integer stands for none. */
  function LevelOf(d: int): (r: Option<Level>)
    ensures r.Some? <==> 1 <= d <= 3
    ensures r.Some? ==> Rating(r.value) == d
  {
    if d == 1 then Some(Easy)
    else if d == 2 then Some(Medium)
    else if d == 3 then Some(Hard)
    else None
  }

  /** Reading back the integer of a level gives the level. */
  lemma LevelOfRating(l: Level)
    ensures LevelOf(Rating(l)) == Some(l)
  {
  }

  function LevelName(l: Level): string {
    match l
    case Easy => "Easy"
    case Medium => "Medium"
    case Hard => "Hard"
  }

  /** The badge colours: green, orange and red. */
  function LevelColor(l: Level): string {
    match l
    case Easy => "#4CAF50"
    case Medium => "#FF9800"
    case Hard => "#F44336"
  }

  /** Distinct levels have distinct names and distinct colours. */
  lemma NamesAndColorsDistinct(l: Level, m: Level)
    ensures LevelName(l) == LevelName(m) <==> l == m
    ensures LevelColor(l) == LevelColor(m) <==> l == m
  {
    if l != m {
      assert LevelName(l)[0] != LevelName(m)[0];
      assert LevelColor(l)[2] != LevelColor(m)[2];
    }
  }
}
