/** The results screen: the route parameters read back as numbers, the rounded
    percentage, the message tier, the difficulty badge and the wrong-answer count. */
module Results {
  import opened Wrappers
  import opened JsNumber
  import opened Difficulty
  import AdminList
  import Game

  /** `parseInt(param) || d`: the parsed number, unless the parameter is missing,
      does not parse, or parses to 0. */
  function OrDefault(param: Option<string>, d: int): (r: int)
    ensures r == d || (param.Some? && ParseInt(param.value) == Some(r) && r != 0)
    ensures param.Some? && ParseInt(param.value).Some? && ParseInt(param.value).value != 0 ==>
      r == ParseInt(param.value).value
  {
    if param.None? then d
    else match ParseInt(param.value)
      case None => d
      case Some(v) => if v == 0 then d else v
  }

  /** A number written out by `String(n)` reads back as itself, except that 0
      falls back to the default. */
  lemma OrDefaultOfDecimal(n: nat, d: int)
    ensures OrDefault(Some(Decimal(n)), d) == if n == 0 then d else n
  {
    ParseIntRoundTrip(n);
  }

  /** `Math.round(score / total * 100)` computed exactly: the quotient plus one
      half, rounded down. A negative total flips both sides of the division. */
  function Percentage(score: int, total: int): (p: int)
    requires total != 0
    ensures total > 0 ==> 2 * p * total <= 200 * score + total < 2 * (p + 1) * total
    ensures total < 0 ==> 2 * p * total >= 200 * score + total > 2 * (p + 1) * total
  {
    if total > 0 then (200 * score + total) / (2 * total)
    else (-(200 * score + total)) / (-2 * total)
  }

  /** The rounded value is the only integer within one half of the exact ratio. */
  lemma PercentageUnique(score: int, total: int, q: int)
    requires total > 0
    requires 2 * q * total <= 200 * score + total < 2 * (q + 1) * total
    ensures q == Percentage(score, total)
  {
    DivUnique(200 * score + total, 2 * total, q);
  }

  /** Helper: the quotient of `n` by a positive `d` is the `q` with `q * d <= n < (q + 1) * d`. */
  lemma DivUnique(n: int, d: int, q: int)
    requires d > 0 && q * d <= n < (q + 1) * d
    ensures n / d == q
  {
    var p := n / d;
    assert p * d <= n < (p + 1) * d;
    MulMonotone(q + 1, p, d);
    MulMonotone(p + 1, q, d);
  }

  /** Helper: multiplying by a non-negative factor keeps the order. */
  lemma MulMonotone(a: int, b: int, c: int)
    requires c >= 0
    ensures a <= b ==> a * c <= b * c
  {
    if a <= b {
      assert b * c - a * c == (b - a) * c;
    }
  }

  /** Out of ten questions every score is a whole tenth, so the percentage is exact. */
  lemma PercentageOfTen(score: int)
    ensures Percentage(score, 10) == 10 * score
  {
    PercentageUnique(score, 10, 10 * score);
  }

  /** The four messages, best first. */
  datatype Tier = Outstanding | GreatJob | GoodEffort | KeepPracticing

  function TierRank(t: Tier): nat {
    match t
    case Outstanding => 3
    case GreatJob => 2
    case GoodEffort => 1
    case KeepPracticing => 0
  }

  /** `getMessage`: the first threshold of 90, 70 and 50 the percentage reaches. */
  function TierOf(p: int): (t: Tier)
    ensures TierRank(t) == (if p >= 90 then 3 else if p >= 70 then 2 else if p >= 50 then 1 else 0)
  {
    if p >= 90 then Outstanding
    else if p >= 70 then GreatJob
    else if p >= 50 then GoodEffort
    else KeepPracticing
  }

  /** A higher percentage never earns a lesser message. */
  lemma TierMonotone(p: int, q: int)
    requires p <= q
    ensures TierRank(TierOf(p)) <= TierRank(TierOf(q))
  {
  }

  function MessageText(t: Tier): string {
    match t
    case Outstanding => "Outstanding! \U{1F98B}"
    case GreatJob => "Great Job! \U{1F31F}"
    case GoodEffort => "Good Effort! \U{1F44D}"
    case KeepPracticing => "Keep Practicing! \U{1F4AA}"
  }

  /** Different tiers show different messages. */
  lemma MessagesDistinct(t: Tier, u: Tier)
    ensures MessageText(t) == MessageText(u) <==> t == u
  {
    if t != u {
      assert MessageText(t)[0] != MessageText(u)[0] || MessageText(t)[1] != MessageText(u)[1];
    }
  }

  /** The level on the badge: a difficulty outside 1..3 shows as Easy. */
  function BadgeLevel(d: int): (l: Level)
    ensures LevelOf(d).Some? ==> l == LevelOf(d).value
    ensures LevelOf(d).None? ==> l == Easy
  {
    match LevelOf(d)
    case Some(l) => l
    case None => Easy
  }

  /** The results badge agrees with the admin list on the three levels and
      differs on every other integer, where the list shows "Unknown" in grey. */
  lemma BadgeAgreesWithList(d: int)
    ensures 1 <= d <= 3 ==> LevelName(BadgeLevel(d)) == AdminList.Label(d)
    ensures 1 <= d <= 3 ==> LevelColor(BadgeLevel(d)) == AdminList.Color(d)
    ensures !(1 <= d <= 3) ==> LevelName(BadgeLevel(d)) == "Easy" && AdminList.Label(d) == "Unknown"
    ensures !(1 <= d <= 3) ==> LevelColor(BadgeLevel(d)) == "#4CAF50" && AdminList.Color(d) == "#9E9E9E"
  {
  }

  /** The route parameters, each missing or a string. */
  datatype Params = Params(score: Option<string>, total: Option<string>, difficulty: Option<string>)

  /** What the screen shows. */
  datatype Summary = Summary(score: int, total: int, level: Level, percentage: int, tier: Tier, wrong: int)

  /** The screen's values: each parameter read with its default (score 0,
      total 10, difficulty 1), the rounded percentage of score over total, and
      the wrong count as what the score leaves of the total. */
  function Summarize(params: Params): (r: Summary)
    ensures r.score == OrDefault(params.score, 0) && r.total == OrDefault(params.total, 10)
    ensures r.level == BadgeLevel(OrDefault(params.difficulty, 1))
    ensures r.percentage == Percentage(r.score, r.total)
    ensures r.total != 0
    ensures r.score + r.wrong == r.total
    ensures r.tier == TierOf(r.percentage)
  {
    var score := OrDefault(params.score, 0);
    var total := OrDefault(params.total, 10);
    var difficulty := OrDefault(params.difficulty, 1);
    var percentage := Percentage(score, total);
    Summary(score, total, BadgeLevel(difficulty), percentage, TierOf(percentage), total - score)
  }

  /** The parameters a finished game passes: the score written out, the total 10,
      and no difficulty. */
  function GameParams(g: Game.GameOver): Params {
    Params(Some(Decimal(g.score)), Some(Decimal(g.total)), None)
  }

  /** After any run of the game, the results screen shows the game's own score
      out of 10, ten points per correct answer, the Easy badge, and a
      non-negative wrong count. */
  lemma FinishedGameSummary(events: seq<Game.Event>)
    requires Game.Run(Game.Start, events).finished.Some?
    ensures var g := Game.Run(Game.Start, events).finished.value;
      var r := Summarize(GameParams(g));
      && r.score == g.score && r.total == 10 && 0 <= r.wrong <= 10
      && r.percentage == 10 * g.score && r.level == Easy
  {
    Game.Reachable(events);
    var g := Game.Run(Game.Start, events).finished.value;
    OrDefaultOfDecimal(g.score, 0);
    OrDefaultOfDecimal(g.total, 10);
    PercentageOfTen(g.score);
  }

  /** The message a finished ten-question game earns, by correct answers. */
  lemma TierOfTenQuestions(score: int)
    requires 0 <= score <= 10
    ensures TierOf(Percentage(score, 10)) ==
      if score >= 9 then Outstanding
      else if score >= 7 then GreatJob
      else if score >= 5 then GoodEffort
      else KeepPracticing
  {
    PercentageOfTen(score);
  }
}
