/** The enemy line-ups of src/data/spawnTables.js: one row of counts per stage, expanded into
    the ordered sequence of enemy types the stage spawns. */
module SpawnTables {
  import opened Config
  import opened Utils

  /** How many enemies of each type one stage sends. */
  datatype Counts = Counts(basic: nat, fast: nat, power: nat, armor: nat) {
    function Total(): nat { basic + fast + power + armor }

    /** The count of enemies of type `t`. */
    function Of(t: EnemyType): nat {
      match t
      case Basic => basic
      case Fast => fast
      case Power => power
      case Armor => armor
    }
  }

  /** `distributionPlan`: the counts of the 35 stages, in stage order. */
  const DistributionPlan: seq<Counts> := [
    Counts(18, 2, 0, 0),
    Counts(14, 4, 2, 0),
    Counts(14, 2, 2, 2),
    Counts(10, 4, 4, 2),
    Counts(10, 4, 4, 2),
    Counts(8, 6, 4, 2),
    Counts(6, 6, 4, 4),
    Counts(6, 4, 6, 4),
    Counts(4, 6, 6, 4),
    Counts(4, 4, 6, 6),
    Counts(4, 4, 6, 6),
    Counts(2, 6, 6, 6),
    Counts(2, 6, 6, 6),
    Counts(2, 4, 8, 6),
    Counts(2, 2, 8, 8),
    Counts(2, 2, 8, 8),
    Counts(0, 4, 8, 8),
    Counts(0, 4, 8, 8),
    Counts(0, 2, 8, 10),
    Counts(0, 2, 8, 10),
    Counts(0, 0, 10, 10),
    Counts(0, 0, 10, 10),
    Counts(0, 0, 8, 12),
    Counts(0, 0, 8, 12),
    Counts(0, 0, 6, 14),
    Counts(0, 0, 6, 14),
    Counts(0, 0, 4, 16),
    Counts(0, 0, 4, 16),
    Counts(0, 0, 2, 18),
    Counts(0, 0, 2, 18),
    Counts(0, 0, 0, 20),
    Counts(0, 0, 0, 20),
    Counts(0, 0, 0, 20),
    Counts(0, 0, 0, 20),
    Counts(0, 0, 0, 20)
  ]

  /** `n` copies of `t`. */
  function Repeat(t: EnemyType, n: nat): (r: seq<EnemyType>)
    ensures |r| == n
    ensures forall i :: 0 <= i < n ==> r[i] == t
  {
    seq(n, _ => t)
  }

  /** A run of `n` copies of `t` holds `t` exactly `n` times and nothing else. */
  lemma {:induction false} RepeatMultiset(t: EnemyType, n: nat)
    ensures multiset(Repeat(t, n))[t] == n
    ensures forall u :: u != t ==> multiset(Repeat(t, n))[u] == 0
  {
    if n > 0 {
      RepeatMultiset(t, n - 1);
      assert Repeat(t, n) == Repeat(t, n - 1) + [t];
    }
  }

  /** `buildSequence(counts)`: the basic tanks first, then the fast, power and armor tanks,
      then BASIC padding up to TOTAL_ENEMIES_PER_STAGE. A row with more than 20 entries is
      kept whole. */
  function BuildSequence(c: Counts): (r: seq<EnemyType>)
    ensures |r| == Max(TotalEnemiesPerStage, c.Total())
    ensures forall i :: 0 <= i < c.basic ==> r[i] == Basic
    ensures forall i :: c.basic <= i < c.basic + c.fast ==> r[i] == Fast
    ensures forall i :: c.basic + c.fast <= i < c.basic + c.fast + c.power ==> r[i] == Power
    ensures forall i :: c.basic + c.fast + c.power <= i < c.Total() ==> r[i] == Armor
    ensures forall i :: c.Total() <= i < |r| ==> r[i] == Basic
  {
    var s := Repeat(Basic, c.basic) + Repeat(Fast, c.fast) + Repeat(Power, c.power) + Repeat(Armor, c.armor);
    if |s| < TotalEnemiesPerStage then s + Repeat(Basic, TotalEnemiesPerStage - |s|) else s
  }

  /** The sequence holds each type as often as the row asks, plus the padding as BASIC: the
      row can be read back from the sequence. */
  lemma {:induction false} BuildSequenceCounts(c: Counts)
    ensures multiset(BuildSequence(c))[Basic] == c.basic + (Max(TotalEnemiesPerStage, c.Total()) - c.Total())
    ensures multiset(BuildSequence(c))[Fast] == c.fast
    ensures multiset(BuildSequence(c))[Power] == c.power
    ensures multiset(BuildSequence(c))[Armor] == c.armor
  {
    var s := Repeat(Basic, c.basic) + Repeat(Fast, c.fast) + Repeat(Power, c.power) + Repeat(Armor, c.armor);
    RepeatMultiset(Basic, c.basic);
    RepeatMultiset(Fast, c.fast);
    RepeatMultiset(Power, c.power);
    RepeatMultiset(Armor, c.armor);
    var pad := Max(TotalEnemiesPerStage, c.Total()) - c.Total();
    RepeatMultiset(Basic, pad);
    if |s| < TotalEnemiesPerStage {
      assert BuildSequence(c) == s + Repeat(Basic, pad);
    } else {
      assert BuildSequence(c) == s + Repeat(Basic, pad);
    }
  }

  /** The push loops of `buildSequence`, one enemy at a time, compute `BuildSequence`. */
  method BuildSequenceLoop(c: Counts) returns (r: seq<EnemyType>)
    ensures r == BuildSequence(c)
  {
    r := [];
    var i := 0;
    while i < c.basic
      invariant 0 <= i <= c.basic
      invariant r == Repeat(Basic, i)
    {
      r := r + [Basic];
      i := i + 1;
    }
    i := 0;
    while i < c.fast
      invariant 0 <= i <= c.fast
      invariant r == Repeat(Basic, c.basic) + Repeat(Fast, i)
    {
      r := r + [Fast];
      i := i + 1;
    }
    i := 0;
    while i < c.power
      invariant 0 <= i <= c.power
      invariant r == Repeat(Basic, c.basic) + Repeat(Fast, c.fast) + Repeat(Power, i)
    {
      r := r + [Power];
      i := i + 1;
    }
    i := 0;
    while i < c.armor
      invariant 0 <= i <= c.armor
      invariant r == Repeat(Basic, c.basic) + Repeat(Fast, c.fast) + Repeat(Power, c.power) + Repeat(Armor, i)
    {
      r := r + [Armor];
      i := i + 1;
    }
    var s := r;
    assert |s| == c.Total();
    while |r| < TotalEnemiesPerStage
      invariant |s| <= |r| <= Max(TotalEnemiesPerStage, |s|)
      invariant r == s + Repeat(Basic, |r| - |s|)
      decreases TotalEnemiesPerStage - |r|
    {
      r := r + [Basic];
    }
  }

  /** Every row of the plan sends exactly TOTAL_ENEMIES_PER_STAGE enemies, so no stage needs
      padding. */
  lemma PlanRowsAreFull()
    ensures |DistributionPlan| == 35
    ensures forall i :: 0 <= i < |DistributionPlan| ==> DistributionPlan[i].Total() == TotalEnemiesPerStage
  {
  }

  /** `ENEMY_SPAWN_TABLE`: the sequence of every stage of the plan. */
  function EnemySpawnTable(): (r: seq<seq<EnemyType>>)
    ensures |r| == |DistributionPlan|
    ensures forall i :: 0 <= i < |r| ==> |r[i]| == TotalEnemiesPerStage
    ensures forall i, t :: 0 <= i < |r| ==> multiset(r[i])[t] == DistributionPlan[i].Of(t)
  {
    PlanRowsAreFull();
    seq(|DistributionPlan|, i requires 0 <= i < |DistributionPlan| => SpawnSequence(i))
  }

  /** The sequence of stage `i` of the plan: 20 entries, each type as often as its row says. */
  function SpawnSequence(i: nat): (r: seq<EnemyType>)
    requires i < |DistributionPlan|
    ensures |r| == TotalEnemiesPerStage
    ensures forall t :: multiset(r)[t] == DistributionPlan[i].Of(t)
  {
    PlanRowsAreFull();
    FullRowCounts(DistributionPlan[i]);
    BuildSequence(DistributionPlan[i])
  }

  /** A row of exactly twenty needs no padding: its sequence holds each type as often as the
      row asks. */
  lemma FullRowCounts(c: Counts)
    requires c.Total() == TotalEnemiesPerStage
    ensures |BuildSequence(c)| == TotalEnemiesPerStage
    ensures forall t :: multiset(BuildSequence(c))[t] == c.Of(t)
  {
    BuildSequenceCounts(c);
    forall t ensures multiset(BuildSequence(c))[t] == c.Of(t) {
      match t
      case Basic =>
      case Fast =>
      case Power =>
      case Armor =>
    }
  }

  /** The first stage sends eighteen basic tanks followed by two fast ones. */
  lemma FirstStageLineUp()
    ensures EnemySpawnTable()[0] == Repeat(Basic, 18) + Repeat(Fast, 2)
  {
    var r := EnemySpawnTable()[0];
    assert forall i :: 0 <= i < 20 ==> r[i] == (Repeat(Basic, 18) + Repeat(Fast, 2))[i];
  }

  /** Later stages are never easier in armor: the armor count never decreases along the plan. */
  lemma ArmorNeverDecreases()
    ensures forall i, j :: 0 <= i <= j < |DistributionPlan| ==> DistributionPlan[i].armor <= DistributionPlan[j].armor
  {
  }
}
