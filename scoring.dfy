/** The final score of utils/scoring.ts (calculateFinalScore): a fixed
    breakdown of six weighted entries and its sum. */
module Scoring {
  import opened GameTypes
  import opened Config

  datatype Label = Sectors | WoodGathered | StoneGathered | EnemiesDefeated | ItemsCrafted | GoldReserves

  datatype Entry = Entry(stat: Label, value: int, multiplier: int)

  datatype Score = Score(totalScore: int, breakdown: seq<Entry>)

  /** The sum of `value * multiplier` over the entries: the source's `reduce`. */
  function Weighted(entries: seq<Entry>): int
    decreases |entries|
  {
    if entries == [] then 0 else entries[0].value * entries[0].multiplier + Weighted(entries[1..])
  }

  /** calculateFinalScore: six entries in the order sectors, wood, stone,
      enemies, crafts, gold, each with its multiplier, and their weighted sum. */
  function CalculateFinalScore(stats: GameStats, gold: int): (r: Score)
    ensures |r.breakdown| == 6
    ensures r.breakdown[0] == Entry(Sectors, stats.stationsPassed, PER_STATION)
    ensures r.breakdown[1] == Entry(WoodGathered, stats.totalWood, PER_WOOD)
    ensures r.breakdown[2] == Entry(StoneGathered, stats.totalStone, PER_STONE)
    ensures r.breakdown[3] == Entry(EnemiesDefeated, stats.enemiesDefeated, PER_ENEMY)
    ensures r.breakdown[4] == Entry(ItemsCrafted, stats.itemsCrafted, PER_CRAFT)
    ensures r.breakdown[5] == Entry(GoldReserves, gold, PER_GOLD)
    ensures r.totalScore == Weighted(r.breakdown)
  {
    var breakdown := [
      Entry(Sectors, stats.stationsPassed, PER_STATION),
      Entry(WoodGathered, stats.totalWood, PER_WOOD),
      Entry(StoneGathered, stats.totalStone, PER_STONE),
      Entry(EnemiesDefeated, stats.enemiesDefeated, PER_ENEMY),
      Entry(ItemsCrafted, stats.itemsCrafted, PER_CRAFT),
      Entry(GoldReserves, gold, PER_GOLD)
    ];
    Score(Weighted(breakdown), breakdown)
  }

  /** The total in closed form: each stat times its multiplier. Gold adds
      `gold * PER_GOLD`. */
  lemma {:induction false} ScoreClosedForm(stats: GameStats, gold: int)
    ensures CalculateFinalScore(stats, gold).totalScore ==
              stats.stationsPassed * PER_STATION + stats.totalWood * PER_WOOD +
              stats.totalStone * PER_STONE + stats.enemiesDefeated * PER_ENEMY +
              stats.itemsCrafted * PER_CRAFT + gold * PER_GOLD
  {
    var b := CalculateFinalScore(stats, gold).breakdown;
    assert Weighted(b[5..]) == gold * PER_GOLD by { assert b[5..][1..] == []; }
    assert Weighted(b[4..]) == stats.itemsCrafted * PER_CRAFT + Weighted(b[5..]) by { assert b[4..][1..] == b[5..]; }
    assert Weighted(b[3..]) == stats.enemiesDefeated * PER_ENEMY + Weighted(b[4..]) by { assert b[3..][1..] == b[4..]; }
    assert Weighted(b[2..]) == stats.totalStone * PER_STONE + Weighted(b[3..]) by { assert b[2..][1..] == b[3..]; }
    assert Weighted(b[1..]) == stats.totalWood * PER_WOOD + Weighted(b[2..]) by { assert b[1..][1..] == b[2..]; }
  }

  /** Scores only grow: raising any one stat, or the gold, never lowers the
      total, since every multiplier is positive. */
  lemma ScoreMonotone(s1: GameStats, g1: int, s2: GameStats, g2: int)
    requires s1.stationsPassed <= s2.stationsPassed && s1.totalWood <= s2.totalWood
    requires s1.totalStone <= s2.totalStone && s1.enemiesDefeated <= s2.enemiesDefeated
    requires s1.itemsCrafted <= s2.itemsCrafted && g1 <= g2
    ensures CalculateFinalScore(s1, g1).totalScore <= CalculateFinalScore(s2, g2).totalScore
  {
    ScoreClosedForm(s1, g1);
    ScoreClosedForm(s2, g2);
  }

  /** One more enemy defeated is worth exactly PER_ENEMY points. */
  lemma EnemyWorth(stats: GameStats, gold: int)
    ensures CalculateFinalScore(stats.(enemiesDefeated := stats.enemiesDefeated + 1), gold).totalScore ==
              CalculateFinalScore(stats, gold).totalScore + PER_ENEMY
  {
    ScoreClosedForm(stats, gold);
    ScoreClosedForm(stats.(enemiesDefeated := stats.enemiesDefeated + 1), gold);
  }
}
