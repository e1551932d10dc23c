/**
 * The static achievement catalogs: the 18-entry catalog of the main app and
 * the 6-entry catalog of the monocle app.  Every condition in both catalogs
 * is a `>=` threshold on exactly one statistic, so a condition is stored as
 * data (the statistic it reads and its threshold) rather than as a closure.
 */
module Achievements {
  import opened Wrappers
  import opened Strings

  /** The statistics snapshot a condition is evaluated on. */
  datatype Stats = Stats(
    level: int,
    dailyStreak: int,
    xp: int,
    totalSessions: int,
    perfectScores: int,
    totalTimeTyped: int)

  /** The statistic a condition reads. */
  datatype Metric = DailyStreak | Level | TotalSessions | Xp

  datatype Rarity = Common | Rare | Legendary | Void

  datatype Achievement = Achievement(
    id: string,
    title: string,
    metric: Metric,
    threshold: int,
    xpReward: int,
    rarity: Rarity)

  function Read(m: Metric, s: Stats): int {
    match m
    case DailyStreak => s.dailyStreak
    case Level => s.level
    case TotalSessions => s.totalSessions
    case Xp => s.xp
  }

  /** `achievement.condition(stats)`. */
  predicate Holds(a: Achievement, s: Stats) {
    Read(a.metric, s) >= a.threshold
  }

  /** The main app's catalog, in declaration order. */
  const CATALOG: seq<Achievement> := [
    Achievement("chrononaut_1", "Chrononaut I", DailyStreak, 3, 100, Common),
    Achievement("chrononaut_2", "Chrononaut II", DailyStreak, 7, 300, Rare),
    Achievement("chrononaut_3", "Time Lord", DailyStreak, 30, 1000, Legendary),
    Achievement("chrononaut_4", "Eternal One", DailyStreak, 100, 5000, Void),
    Achievement("awakening", "The Awakening", Level, 2, 200, Common),
    Achievement("lucidity", "Lucidity", Level, 3, 500, Rare),
    Achievement("clarity", "Crystal High definition", Level, 4, 1000, Legendary),
    Achievement("prophantasia", "Reality Architect", Level, 5, 5000, Void),
    Achievement("initiate", "Void Initiate", TotalSessions, 1, 50, Common),
    Achievement("neophyte", "Dedicated Student", TotalSessions, 10, 150, Common),
    Achievement("adept", "Mind Builder", TotalSessions, 50, 500, Rare),
    Achievement("master", "Mental Architect", TotalSessions, 100, 1000, Legendary),
    Achievement("grandmaster", "Neuroplasticity God", TotalSessions, 500, 5000, Void),
    Achievement("spark", "First Spark", Xp, 1000, 100, Common),
    Achievement("feedback_loop", "Feedback Loop", Xp, 5000, 250, Common),
    Achievement("surge", "Neural Surge", Xp, 10000, 500, Rare),
    Achievement("overload", "Synaptic Overload", Xp, 50000, 2000, Legendary),
    Achievement("singularity", "The Singularity", Xp, 100000, 10000, Void)
  ]

  /** The monocle app's catalog, in declaration order. */
  const MONOCLE_CATALOG: seq<Achievement> := [
    Achievement("chrononaut_1", "Chrononaut I", DailyStreak, 3, 100, Common),
    Achievement("chrononaut_2", "Chrononaut II", DailyStreak, 7, 300, Rare),
    Achievement("chrononaut_3", "Time Lord", DailyStreak, 30, 1000, Legendary),
    Achievement("awakening", "The Awakening", Level, 2, 200, Common),
    Achievement("lucidity", "Lucidity", Level, 3, 500, Rare),
    Achievement("initiate", "Void Initiate", TotalSessions, 1, 50, Common)
  ]

  function Ids(cat: seq<Achievement>): (ids: seq<string>)
    ensures |ids| == |cat|
    ensures forall i :: 0 <= i < |cat| ==> ids[i] == cat[i].id
  {
    if |cat| == 0 then [] else [cat[0].id] + Ids(cat[1..])
  }

  predicate DistinctIds(cat: seq<Achievement>) {
    forall i, j :: 0 <= i < j < |cat| ==> cat[i].id != cat[j].id
  }

  /** Index of the entry with the given id, if any. */
  function IndexOf(cat: seq<Achievement>, id: string): (r: Option<nat>)
    ensures r.Some? ==> r.value < |cat| && cat[r.value].id == id
    ensures r.None? <==> forall i :: 0 <= i < |cat| ==> cat[i].id != id
  {
    if |cat| == 0 then None
    else if cat[0].id == id then Some(0)
    else match IndexOf(cat[1..], id)
      case None => None
      case Some(k) => Some(k + 1)
  }

  /** `s` is no larger than `t` in every statistic a condition can read. */
  predicate StatsLe(s: Stats, t: Stats) {
    s.level <= t.level && s.dailyStreak <= t.dailyStreak && s.xp <= t.xp && s.totalSessions <= t.totalSessions
  }

  lemma DistinctByFingerprint(cat: seq<Achievement>, prints: seq<int>)
    requires |prints| == |cat|
    requires forall i :: 0 <= i < |cat| ==> prints[i] == Fingerprint(cat[i].id)
    requires forall i, j :: 0 <= i < j < |prints| ==> prints[i] != prints[j]
    ensures DistinctIds(cat)
  {
    forall i, j | 0 <= i < j < |cat| ensures cat[i].id != cat[j].id {
      assert Fingerprint(cat[i].id) != Fingerprint(cat[j].id);
    }
  }

  /** The 18 ids of the main catalog are pairwise distinct. */
  lemma CatalogIdsDistinct()
    ensures |CATALOG| == 18
    ensures DistinctIds(CATALOG)
  {
    var c := CATALOG;
    var prints := [Fingerprint(c[0].id), Fingerprint(c[1].id), Fingerprint(c[2].id), Fingerprint(c[3].id),
      Fingerprint(c[4].id), Fingerprint(c[5].id), Fingerprint(c[6].id), Fingerprint(c[7].id),
      Fingerprint(c[8].id), Fingerprint(c[9].id), Fingerprint(c[10].id), Fingerprint(c[11].id),
      Fingerprint(c[12].id), Fingerprint(c[13].id), Fingerprint(c[14].id), Fingerprint(c[15].id),
      Fingerprint(c[16].id), Fingerprint(c[17].id)];
    assert forall i, j :: 0 <= i < j < |prints| ==> prints[i] != prints[j];
    DistinctByFingerprint(c, prints);
  }

  /** The 6 ids of the monocle catalog are pairwise distinct. */
  lemma MonocleIdsDistinct()
    ensures |MONOCLE_CATALOG| == 6
    ensures DistinctIds(MONOCLE_CATALOG)
  {
    var c := MONOCLE_CATALOG;
    var prints := [Fingerprint(c[0].id), Fingerprint(c[1].id), Fingerprint(c[2].id),
      Fingerprint(c[3].id), Fingerprint(c[4].id), Fingerprint(c[5].id)];
    assert forall i, j :: 0 <= i < j < |prints| ==> prints[i] != prints[j];
    DistinctByFingerprint(c, prints);
  }

  /** In a catalog with distinct ids, looking an entry's id up finds that entry. */
  lemma {:induction false} IndexOfDistinct(cat: seq<Achievement>, k: nat)
    requires DistinctIds(cat) && k < |cat|
    ensures IndexOf(cat, cat[k].id) == Some(k)
  {
    if k > 0 {
      assert cat[0].id != cat[k].id;
      assert cat[1..][k - 1] == cat[k];
      IndexOfDistinct(cat[1..], k - 1);
    }
  }

  /** Raising statistics never turns a satisfied condition false. */
  lemma ConditionMonotone(a: Achievement, s: Stats, t: Stats)
    requires StatsLe(s, t)
    ensures Holds(a, s) ==> Holds(a, t)
  {
  }

  /** No condition reads `perfectScores` or `totalTimeTyped`. */
  lemma ConditionIgnoresPlaceholders(a: Achievement, s: Stats, perfect: int, typed: int)
    ensures Holds(a, s) <==> Holds(a, s.(perfectScores := perfect, totalTimeTyped := typed))
  {
  }

  /**
   * The tiers of each family nest: a higher tier's condition implies the
   * lower tier's, because the thresholds grow within a family.
   */
  lemma TiersNest(s: Stats)
    // streak family: chrononaut_4 => 3 => 2 => 1 (100 / 30 / 7 / 3)
    ensures Holds(CATALOG[3], s) ==> Holds(CATALOG[2], s)
    ensures Holds(CATALOG[2], s) ==> Holds(CATALOG[1], s)
    ensures Holds(CATALOG[1], s) ==> Holds(CATALOG[0], s)
    // every other family: each entry implies the one declared just before it
    ensures forall i :: 4 <= i < 7 ==> (Holds(CATALOG[i + 1], s) ==> Holds(CATALOG[i], s))
    ensures forall i :: 8 <= i < 12 ==> (Holds(CATALOG[i + 1], s) ==> Holds(CATALOG[i], s))
    ensures forall i :: 13 <= i < 17 ==> (Holds(CATALOG[i + 1], s) ==> Holds(CATALOG[i], s))
  {
  }

  /** The families, their statistics and their thresholds. */
  lemma CatalogThresholds()
    ensures forall i :: 0 <= i < 4 ==> CATALOG[i].metric == DailyStreak
    ensures [CATALOG[0].threshold, CATALOG[1].threshold, CATALOG[2].threshold, CATALOG[3].threshold] == [3, 7, 30, 100]
    ensures forall i :: 4 <= i < 8 ==> CATALOG[i].metric == Level && CATALOG[i].threshold == i - 2
    ensures forall i :: 8 <= i < 13 ==> CATALOG[i].metric == TotalSessions
    ensures [CATALOG[8].threshold, CATALOG[9].threshold, CATALOG[10].threshold, CATALOG[11].threshold, CATALOG[12].threshold]
            == [1, 10, 50, 100, 500]
    ensures forall i :: 13 <= i < 18 ==> CATALOG[i].metric == Xp
    ensures [CATALOG[13].threshold, CATALOG[14].threshold, CATALOG[15].threshold, CATALOG[16].threshold, CATALOG[17].threshold]
            == [1000, 5000, 10000, 50000, 100000]
  {
  }

  /** Every reward in either catalog is strictly positive. */
  lemma RewardsPositive()
    ensures forall i :: 0 <= i < |CATALOG| ==> CATALOG[i].xpReward > 0
    ensures forall i :: 0 <= i < |MONOCLE_CATALOG| ==> MONOCLE_CATALOG[i].xpReward > 0
  {
  }

  lemma FoundInCatalog(k: nat)
    requires k < |CATALOG|
    ensures IndexOf(CATALOG, CATALOG[k].id) == Some(k)
  {
    CatalogIdsDistinct();
    IndexOfDistinct(CATALOG, k);
  }

  lemma MonocleEntryMatches(i: nat)
    requires i < |MONOCLE_CATALOG|
    ensures var k := IndexOf(CATALOG, MONOCLE_CATALOG[i].id);
            k.Some? && CATALOG[k.value] == MONOCLE_CATALOG[i]
  {
    var where: seq<nat> := [0, 1, 2, 4, 5, 8];
    assert CATALOG[where[i]] == MONOCLE_CATALOG[i];
    FoundInCatalog(where[i]);
  }

  /**
   * Each monocle entry is the entry with the same id in the main catalog:
   * same statistic, threshold, reward, title and rarity.
   */
  lemma MonocleMatchesMain()
    ensures forall i :: 0 <= i < |MONOCLE_CATALOG| ==>
      var k := IndexOf(CATALOG, MONOCLE_CATALOG[i].id);
      k.Some? && CATALOG[k.value] == MONOCLE_CATALOG[i]
  {
    forall i | 0 <= i < |MONOCLE_CATALOG|
      ensures var k := IndexOf(CATALOG, MONOCLE_CATALOG[i].id);
              k.Some? && CATALOG[k.value] == MONOCLE_CATALOG[i]
    {
      MonocleEntryMatches(i);
    }
  }
}
