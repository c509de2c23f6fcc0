/**
 * The static level table of constants.ts: level ids 1..TotalLevels, each
 * with a difficulty tier and the number of clues the puzzle keeps, and the
 * lookup App.tsx performs on it (`LEVELS.find(...) || LEVELS[0]`).
 */
module Levels {
  import opened Wrappers

  datatype Difficulty = Easy | Medium | Hard | Expert

  datatype LevelData = LevelData(id: int, difficulty: Difficulty, clues: int)

  const TotalLevels: nat := 150

  /** The per-index callback of the table builder: entry `i` describes level `i + 1`. */
  function Entry(i: nat): LevelData
  {
    var id := i + 1;
    if id > 120 then LevelData(id, Expert, 24)
    else if id > 70 then LevelData(id, Hard, 30)
    else if id > 30 then LevelData(id, Medium, 36)
    else LevelData(id, Easy, 45)
  }

  /** LEVELS: one entry per level, in id order. */
  function Table(): (t: seq<LevelData>)
    ensures |t| == TotalLevels
    ensures forall i :: 0 <= i < |t| ==> t[i].id == i + 1
  {
    seq(TotalLevels, i requires 0 <= i => Entry(i))
  }

  /** The four tiers of the table, by level id. */
  lemma TableTiers(id: int)
    requires 1 <= id <= TotalLevels
    ensures var l := Table()[id - 1];
      && l.id == id
      && (121 <= id ==> l.difficulty == Expert && l.clues == 24)
      && (71 <= id <= 120 ==> l.difficulty == Hard && l.clues == 30)
      && (31 <= id <= 70 ==> l.difficulty == Medium && l.clues == 36)
      && (id <= 30 ==> l.difficulty == Easy && l.clues == 45)
  {
  }

  /** Later levels never keep more clues, and every level keeps between 24 and 45. */
  lemma CluesNonIncreasing(i: int, j: int)
    requires 0 <= i <= j < TotalLevels
    ensures 24 <= Table()[j].clues <= Table()[i].clues <= 45
  {
  }

  /** `Array.prototype.find`: the first entry of `t` whose id is `id`, if any. */
  function Find(t: seq<LevelData>, id: int): (r: Option<LevelData>)
    ensures r.None? <==> forall k :: 0 <= k < |t| ==> t[k].id != id
    ensures r.Some? ==> exists k :: 0 <= k < |t| && t[k] == r.value && r.value.id == id
                                   && forall j :: 0 <= j < k ==> t[j].id != id
  {
    if |t| == 0 then None
    else if t[0].id == id then Some(t[0])
    else
      var r := Find(t[1..], id);
      assert forall k :: 1 <= k < |t| ==> t[k] == t[1..][k - 1];
      r
  }

  /**
   * The configuration used for a requested level id: its table entry, or the
   * first entry (level 1) when no entry has that id.
   */
  function LevelConfig(levelId: int): (l: LevelData)
    ensures 1 <= levelId <= TotalLevels ==> l == Entry(levelId - 1)
    ensures !(1 <= levelId <= TotalLevels) ==> l == LevelData(1, Easy, 45)
  {
    var found := Find(Table(), levelId);
    assert 1 <= levelId <= TotalLevels ==> found.Some? by {
      if 1 <= levelId <= TotalLevels {
        assert Table()[levelId - 1].id == levelId;
      }
    }
    match found
    case Some(l) => l
    case None => Table()[0]
  }
}
