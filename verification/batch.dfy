/** The batch loop of main.py: every record is classified, and its verdict
    adds one to `checkers[verdict]` or to `number_of_valid_records`.
 */
module Batch {
  import opened Classifier

  /** The ten counters: one per failing check, and the valid-record count. */
  datatype Counters = Counters(checkers: seq<nat>, valid: nat)

  /** The counters before the first record. */
  const Start: Counters := Counters([0, 0, 0, 0, 0, 0, 0, 0, 0], 0)

  /** The sum of a sequence of counts. */
  function Sum(xs: seq<nat>): nat
    decreases |xs|
  {
    if |xs| == 0 then 0 else Sum(xs[..|xs| - 1]) + xs[|xs| - 1]
  }

  /** `number_of_invalid_records`: the sum of the nine per-check counters,
      which the source writes out term by term. */
  function Invalid(c: Counters): (n: nat)
    ensures |c.checkers| == 9 ==>
      n == c.checkers[0] + c.checkers[1] + c.checkers[2] + c.checkers[3] + c.checkers[4]
           + c.checkers[5] + c.checkers[6] + c.checkers[7] + c.checkers[8]
  {
    assert |c.checkers| == 9 ==>
      (Sum(c.checkers) == c.checkers[0] + c.checkers[1] + c.checkers[2] + c.checkers[3] + c.checkers[4]
                          + c.checkers[5] + c.checkers[6] + c.checkers[7] + c.checkers[8]) by {
      if |c.checkers| == 9 {
        SumNine(c.checkers);
      }
    }
    Sum(c.checkers)
  }

  /** The sum of a prefix grows by the next entry. */
  lemma SumExtend(xs: seq<nat>, k: nat)
    requires k < |xs|
    ensures Sum(xs[..k + 1]) == Sum(xs[..k]) + xs[k]
  {
    assert xs[..k + 1][..k] == xs[..k];
  }

  /** The first five of a sequence of counts, summed term by term. */
  lemma SumFirstFive(xs: seq<nat>)
    requires |xs| >= 5
    ensures Sum(xs[..5]) == xs[0] + xs[1] + xs[2] + xs[3] + xs[4]
  {
    assert Sum(xs[..0]) == 0;
    SumExtend(xs, 0); SumExtend(xs, 1); SumExtend(xs, 2);
    SumExtend(xs, 3); SumExtend(xs, 4);
  }

  /** A sum of nine counts, written out term by term. */
  lemma SumNine(xs: seq<nat>)
    requires |xs| == 9
    ensures Sum(xs) == xs[0] + xs[1] + xs[2] + xs[3] + xs[4] + xs[5] + xs[6] + xs[7] + xs[8]
  {
    SumFirstFive(xs);
    SumExtend(xs, 5); SumExtend(xs, 6); SumExtend(xs, 7); SumExtend(xs, 8);
    assert xs[..9] == xs;
  }

  /** A sequence of zeros sums to zero. */
  lemma {:induction false} SumZeros(xs: seq<nat>)
    requires forall i :: 0 <= i < |xs| ==> xs[i] == 0
    ensures Sum(xs) == 0
    decreases |xs|
  {
    if |xs| > 0 {
      SumZeros(xs[..|xs| - 1]);
    }
  }

  /** Raising one entry by one raises the sum by one. */
  lemma {:induction false} SumIncrement(xs: seq<nat>, i: nat)
    requires i < |xs|
    ensures Sum(xs[i := xs[i] + 1]) == Sum(xs) + 1
    decreases |xs|
  {
    var ys := xs[i := xs[i] + 1];
    var n := |xs| - 1;
    if i < n {
      assert ys[..n] == xs[..n][i := xs[i] + 1];
      SumIncrement(xs[..n], i);
    } else {
      assert ys[..n] == xs[..n];
    }
  }

  /** One pass of the loop body: the verdict of one record is added to the
      counters. Exactly one of the ten counters grows, by one. */
  function Step(c: Counters, v: nat): (c': Counters)
    requires |c.checkers| == 9 && v <= AllPassed
    ensures |c'.checkers| == 9
    ensures Sum(c'.checkers) + c'.valid == Sum(c.checkers) + c.valid + 1
    ensures c'.valid == c.valid + (if v == AllPassed then 1 else 0)
    ensures forall i :: 0 <= i < 9 ==> c'.checkers[i] == c.checkers[i] + (if i == v then 1 else 0)
  {
    if v == AllPassed then
      c.(valid := c.valid + 1)
    else
      SumIncrement(c.checkers, v);
      c.(checkers := c.checkers[v := c.checkers[v] + 1])
  }

  /** The verdicts of a batch, in input order. */
  function Verdicts(rs: seq<Record>): (vs: seq<nat>)
    ensures |vs| == |rs|
  {
    seq(|rs|, j requires 0 <= j < |rs| => Classify(rs[j]))
  }

  /** The number of verdicts in `vs` equal to `v`. */
  function Count(vs: seq<nat>, v: nat): nat
    decreases |vs|
  {
    if |vs| == 0 then 0 else Count(vs[..|vs| - 1], v) + (if vs[|vs| - 1] == v then 1 else 0)
  }

  /** The positions in `vs` that hold `v`. */
  function Positions(vs: seq<nat>, v: nat): set<nat> {
    set j: nat | j < |vs| && vs[j] == v
  }

  /** `Count` counts exactly the positions that hold `v`. */
  lemma {:induction false} CountIsPositions(vs: seq<nat>, v: nat)
    ensures Count(vs, v) == |Positions(vs, v)|
    decreases |vs|
  {
    if |vs| > 0 {
      var n := |vs| - 1;
      CountIsPositions(vs[..n], v);
      var before := Positions(vs[..n], v);
      assert forall j: nat :: j < n ==> vs[..n][j] == vs[j];
      if vs[n] == v {
        assert Positions(vs, v) == before + {n};
      } else {
        assert Positions(vs, v) == before;
      }
    }
  }

  /** The loop of main.py lines 239-260: the counters after every record has
      been classified. Each record lands in exactly one counter, so the ten
      counters add up to the number of records, and the invalid total is the
      number of records that failed some check. */
  method CountRecords(records: seq<Record>) returns (c: Counters)
    ensures |c.checkers| == 9
    ensures forall i :: 0 <= i < 9 ==> c.checkers[i] == Count(Verdicts(records), i)
    ensures c.valid == Count(Verdicts(records), AllPassed)
    ensures Invalid(c) + c.valid == |records|
  {
    ghost var vs := Verdicts(records);
    c := Start;
    SumZeros(c.checkers);
    var k := 0;
    while k < |records|
      invariant k <= |records|
      invariant |c.checkers| == 9
      invariant forall i :: 0 <= i < 9 ==> c.checkers[i] == Count(vs[..k], i)
      invariant c.valid == Count(vs[..k], AllPassed)
      invariant Sum(c.checkers) + c.valid == k
    {
      assert vs[..k + 1][..k] == vs[..k];
      var verdict := Classify(records[k]);
      assert verdict == vs[k];
      c := Step(c, verdict);
      k := k + 1;
    }
    assert vs[..k] == vs;
  }

  /** The verdicts of the ten-record scenario below. */
  const ScenarioVerdicts: seq<nat> := [9, 9, 9, 4, 9, 9, 9, 0, 9, 9]

  /** Record 3 of the scenario is reported under age, record 7 under e-mail,
      and the others are valid. */
  lemma ScenarioClassified(rs: seq<Record>)
    requires |rs| == 10
    requires forall j, i :: 0 <= j < 10 && j != 3 && j != 7 && 0 <= i < 9 ==> Check(rs[j], i)
    requires Check(rs[3], 0) && Check(rs[3], 1) && Check(rs[3], 2) && Check(rs[3], 3)
    requires !Check(rs[3], 4)
    requires !Check(rs[7], 0) && !Check(rs[7], 1)
    ensures forall j :: 0 <= j < 10 ==> Verdicts(rs)[j] == if j == 3 then 4 else if j == 7 then 0 else AllPassed
  {
    forall j | 0 <= j < 10 && j != 3 && j != 7 ensures Classify(rs[j]) == AllPassed {
      AllChecksPass(rs[j]);
    }
    AgeFailure(rs[3]);
    EmailFailure(rs[7]);
  }

  /** A sequence of ten verdicts with 4 at position 3, 0 at position 7 and 9
      elsewhere is the scenario's. */
  lemma ScenarioShape(vs: seq<nat>)
    requires |vs| == 10
    requires forall j :: 0 <= j < 10 ==> vs[j] == if j == 3 then 4 else if j == 7 then 0 else AllPassed
    ensures vs == ScenarioVerdicts
  {
  }

  /** Counting one more verdict. */
  lemma CountStep(vs: seq<nat>, k: nat, v: nat)
    requires k < |vs|
    ensures Count(vs[..k + 1], v) == Count(vs[..k], v) + (if vs[k] == v then 1 else 0)
  {
    assert vs[..k + 1][..k] == vs[..k];
  }

  /** How often each verdict occurs in the scenario. */
  lemma ScenarioCount(v: nat)
    ensures Count(ScenarioVerdicts, v) ==
      (if v == AllPassed then 8 else 0) + (if v == 4 || v == 0 then 1 else 0)
  {
    var vs := ScenarioVerdicts;
    assert vs[..0] == [];
    CountStep(vs, 0, v);
    CountStep(vs, 1, v);
    CountStep(vs, 2, v);
    CountStep(vs, 3, v);
    CountStep(vs, 4, v);
    CountStep(vs, 5, v);
    CountStep(vs, 6, v);
    CountStep(vs, 7, v);
    CountStep(vs, 8, v);
    CountStep(vs, 9, v);
    assert vs[..10] == vs;
  }

  /** A batch of ten records in which record 3 passes the first four checks
      and fails the age check, record 7 fails both the e-mail and the height
      check, and the others pass every check: the age counter and
      the e-mail counter each record one failure, the height counter none, and
      eight records are valid. */
  lemma TenRecordScenario(rs: seq<Record>)
    requires |rs| == 10
    requires forall j, i :: 0 <= j < 10 && j != 3 && j != 7 && 0 <= i < 9 ==> Check(rs[j], i)
    requires Check(rs[3], 0) && Check(rs[3], 1) && Check(rs[3], 2) && Check(rs[3], 3)
    requires !Check(rs[3], 4)
    requires !Check(rs[7], 0) && !Check(rs[7], 1)
    ensures Count(Verdicts(rs), 4) == 1
    ensures Count(Verdicts(rs), 0) == 1
    ensures Count(Verdicts(rs), 1) == 0
    ensures Count(Verdicts(rs), AllPassed) == 8
  {
    ScenarioClassified(rs);
    ScenarioShape(Verdicts(rs));
    ScenarioCount(4);
    ScenarioCount(0);
    ScenarioCount(1);
    ScenarioCount(AllPassed);
  }
}
