/** The MTU search of `mtu/analyze.go`.

    One search pass (`FindMTU`) probes `startMTU`, and on every success records
    the probed size as the last good MTU and probes `increment` bytes more; the
    first timeout ends the pass with the last good MTU. The 10 s race between the
    success channel and the timer is replaced by an outcome per probe: either a
    script (one `Outcome` per probe, in order) or a size oracle `passes` with a
    fuel bound on the number of probe results consumed.

    `Analyze` folds the pass over a fixed number of iterations, starting at 500,
    feeding each result into the next pass and halving the increment with Go's
    truncating division. */
module Mtu {
  import opened Wrappers
  import opened Config

  /** The first probe size of the first pass (`startingMTU`). */
  const StartingMTU := 500

  /** How the race after one probe ended. */
  datatype Outcome = Success | Timeout

  /** The variables of one pass: the last size confirmed to pass and the size in flight. */
  datatype Search = Search(goodMTU: int, nextMTU: int)

  /** A pass either returned its last good MTU or is still waiting for a result. */
  datatype Pass = Converged(mtu: int) | Waiting(state: Search)

  /** The state in which a pass sends its first probe. */
  function Begin(startMTU: int): Search
  {
    Search(0, startMTU)
  }

  /** The `mtuOKchan` branch of the select: the size in flight is confirmed. */
  function OnSuccess(s: Search, increment: int): Search
  {
    Search(s.nextMTU, s.nextMTU + increment)
  }

  /** Closed form of the state of a pass after `k` successes. */
  function After(startMTU: int, increment: int, k: nat): Search
  {
    Search(if k == 0 then 0 else startMTU + (k - 1) * increment, startMTU + k * increment)
  }

  // ---------------------------------------------------------------------------
  // One pass driven by a script of outcomes
  // ---------------------------------------------------------------------------

  /** Runs the select loop from `s`, consuming one outcome per probe in flight. */
  function Drive(s: Search, increment: int, outcomes: seq<Outcome>): Pass
    decreases |outcomes|
  {
    if |outcomes| == 0 then Waiting(s)
    else match outcomes[0]
      case Timeout => Converged(s.goodMTU)
      case Success => Drive(OnSuccess(s, increment), increment, outcomes[1..])
  }

  /** One search pass: probe `startMTU`, then step by `increment` until a timeout. */
  function FindMTU(startMTU: int, increment: int, outcomes: seq<Outcome>): (p: Pass)
    ensures |outcomes| > 0 && outcomes[0] == Timeout ==> p == Converged(0)
    ensures |outcomes| == 0 ==> p == Waiting(Search(0, startMTU))
  {
    Drive(Begin(startMTU), increment, outcomes)
  }

  /** The number of successes a pass consumes before its timeout (or before the script ends). */
  function LeadingSuccesses(outcomes: seq<Outcome>): (k: nat)
    ensures k <= |outcomes|
    ensures k < |outcomes| ==> outcomes[k] == Timeout
  {
    if |outcomes| == 0 || outcomes[0] == Timeout then 0
    else 1 + LeadingSuccesses(outcomes[1..])
  }

  /** Every outcome before position `LeadingSuccesses` is a success. */
  lemma {:induction false} LeadingSuccessesAreSuccesses(outcomes: seq<Outcome>)
    ensures forall i :: 0 <= i < LeadingSuccesses(outcomes) ==> outcomes[i] == Success
    decreases |outcomes|
  {
    if |outcomes| > 0 && outcomes[0] == Success {
      LeadingSuccessesAreSuccesses(outcomes[1..]);
      forall i | 1 <= i < LeadingSuccesses(outcomes)
        ensures outcomes[i] == Success
      {
        assert outcomes[i] == outcomes[1..][i - 1];
      }
    }
  }

  /** The probe sizes sent from state `s`: the one in flight, then one after each success. */
  function ProbesFrom(s: Search, increment: int, outcomes: seq<Outcome>): seq<int>
    decreases |outcomes|
  {
    [s.nextMTU] +
      (if |outcomes| > 0 && outcomes[0] == Success
       then ProbesFrom(OnSuccess(s, increment), increment, outcomes[1..])
       else [])
  }

  /** The probe sizes a pass sends, in order. */
  function Probes(startMTU: int, increment: int, outcomes: seq<Outcome>): seq<int>
  {
    ProbesFrom(Begin(startMTU), increment, outcomes)
  }

  /** A success sets `goodMTU` to exactly the size just probed and moves the
      next probe exactly `increment` further; nothing else is kept. */
  lemma SuccessAdvancesByIncrement(startMTU: int, increment: int, k: nat)
    ensures OnSuccess(After(startMTU, increment, k), increment) == After(startMTU, increment, k + 1)
    ensures After(startMTU, increment, k + 1).goodMTU == After(startMTU, increment, k).nextMTU
    ensures After(startMTU, increment, k + 1).nextMTU == After(startMTU, increment, k).nextMTU + increment
  {
    assert startMTU + (k + 1) * increment == startMTU + k * increment + increment;
  }

  lemma {:induction false} DriveFrom(startMTU: int, increment: int, j: nat, outcomes: seq<Outcome>)
    ensures var k := LeadingSuccesses(outcomes);
      Drive(After(startMTU, increment, j), increment, outcomes)
        == if k < |outcomes| then Converged(After(startMTU, increment, j + k).goodMTU)
           else Waiting(After(startMTU, increment, j + k))
    decreases |outcomes|
  {
    if |outcomes| > 0 && outcomes[0] == Success {
      SuccessAdvancesByIncrement(startMTU, increment, j);
      DriveFrom(startMTU, increment, j + 1, outcomes[1..]);
    }
  }

  /** The result of a pass in closed form (see `After`): with `k` leading
      successes, a timeout at probe `k` returns 0 when `k` is 0 and
      `startMTU + (k-1)*increment` otherwise; a script without a timeout leaves
      the pass waiting with `startMTU + k*increment` in flight. */
  lemma {:induction false} FindMTUResult(startMTU: int, increment: int, outcomes: seq<Outcome>)
    ensures var k := LeadingSuccesses(outcomes);
      FindMTU(startMTU, increment, outcomes)
        == if k < |outcomes| then Converged(After(startMTU, increment, k).goodMTU)
           else Waiting(After(startMTU, increment, k))
  {
    var k := LeadingSuccesses(outcomes);
    var zero: nat := 0;
    assert Begin(startMTU) == After(startMTU, increment, zero);
    DriveFrom(startMTU, increment, zero, outcomes);
    assert zero + k == k;
  }

  /** The result of a pass is 0 or `startMTU + k*increment` for some `k >= 0`. */
  lemma {:induction false} ResultShape(startMTU: int, increment: int, outcomes: seq<Outcome>)
    ensures var p := FindMTU(startMTU, increment, outcomes);
      p.Converged? ==> p.mtu == 0 || exists k: nat :: p.mtu == startMTU + k * increment
  {
    FindMTUResult(startMTU, increment, outcomes);
    var k := LeadingSuccesses(outcomes);
    if k > 0 {
      SuccessAdvancesByIncrement(startMTU, increment, k - 1);
      var w: nat := k - 1;
      assert startMTU + (k - 1) * increment == startMTU + w * increment;
    }
  }

  lemma {:induction false} ProbesFromSizes(startMTU: int, increment: int, j: nat, outcomes: seq<Outcome>)
    ensures |ProbesFrom(After(startMTU, increment, j), increment, outcomes)| == LeadingSuccesses(outcomes) + 1
    ensures forall i :: 0 <= i < |ProbesFrom(After(startMTU, increment, j), increment, outcomes)| ==>
              ProbesFrom(After(startMTU, increment, j), increment, outcomes)[i] == startMTU + (j + i) * increment
    decreases |outcomes|
  {
    var sizes := ProbesFrom(After(startMTU, increment, j), increment, outcomes);
    if |outcomes| > 0 && outcomes[0] == Success {
      SuccessAdvancesByIncrement(startMTU, increment, j);
      ProbesFromSizes(startMTU, increment, j + 1, outcomes[1..]);
      var rest := ProbesFrom(After(startMTU, increment, j + 1), increment, outcomes[1..]);
      assert sizes == [startMTU + j * increment] + rest;
      forall i | 1 <= i < |sizes|
        ensures sizes[i] == startMTU + (j + i) * increment
      {
        assert sizes[i] == rest[i - 1];
        assert j + 1 + (i - 1) == j + i;
      }
    }
  }

  /** A pass sends one probe more than it sees successes, and probe `i` has size
      `startMTU + i*increment`. */
  lemma {:induction false} ProbeSizes(startMTU: int, increment: int, outcomes: seq<Outcome>)
    ensures |Probes(startMTU, increment, outcomes)| == LeadingSuccesses(outcomes) + 1
    ensures forall i :: 0 <= i < |Probes(startMTU, increment, outcomes)| ==>
              Probes(startMTU, increment, outcomes)[i] == startMTU + i * increment
  {
    var zero: nat := 0;
    assert Begin(startMTU) == After(startMTU, increment, zero);
    ProbesFromSizes(startMTU, increment, zero, outcomes);
  }

  /** A converged pass returns exactly the last probed size that received a
      success, or 0 when the first probe timed out; the probe after it is the one
      that timed out. */
  lemma {:induction false} ResultIsLastConfirmedSize(startMTU: int, increment: int, outcomes: seq<Outcome>)
    requires FindMTU(startMTU, increment, outcomes).Converged?
    ensures var k := LeadingSuccesses(outcomes);
      var sizes := Probes(startMTU, increment, outcomes);
      && k < |outcomes| && k < |sizes| && outcomes[k] == Timeout
      && (k == 0 ==> FindMTU(startMTU, increment, outcomes).mtu == 0)
      && (k > 0 ==> outcomes[k - 1] == Success && FindMTU(startMTU, increment, outcomes).mtu == sizes[k - 1])
  {
    FindMTUResult(startMTU, increment, outcomes);
    ProbeSizes(startMTU, increment, outcomes);
    LeadingSuccessesAreSuccesses(outcomes);
  }

  /** With non-negative start and increment, `goodMTU <= nextMTU` holds at every
      iteration and `goodMTU` never decreases within a pass. */
  lemma {:induction false} SearchInvariant(startMTU: int, increment: int, j: nat, k: nat)
    requires startMTU >= 0 && increment >= 0 && j <= k
    ensures After(startMTU, increment, k).goodMTU <= After(startMTU, increment, k).nextMTU
    ensures After(startMTU, increment, j).goodMTU <= After(startMTU, increment, k).goodMTU
    decreases k
  {
    SuccessAdvancesByIncrement(startMTU, increment, k);
    if k > 0 {
      SuccessAdvancesByIncrement(startMTU, increment, k - 1);
      if j < k {
        SearchInvariant(startMTU, increment, j, k - 1);
      }
    }
  }

  /** A worked case: successes at 500, 1000 and 1500 and a timeout at 2000
      make the pass return 1500. */
  lemma ExampleReturns1500()
    ensures Probes(500, 500, [Success, Success, Success, Timeout]) == [500, 1000, 1500, 2000]
    ensures FindMTU(500, 500, [Success, Success, Success, Timeout]) == Converged(1500)
  {
  }

  // ---------------------------------------------------------------------------
  // One pass driven by a size oracle
  // ---------------------------------------------------------------------------

  /** Runs the select loop from `s` against a path that lets a probe through
      exactly when `passes` holds of its size; at most `fuel` probe results are
      awaited. */
  function OracleSearch(s: Search, increment: int, passes: int -> bool, fuel: nat): Pass
    decreases fuel
  {
    if fuel == 0 then Waiting(s)
    else if passes(s.nextMTU) then OracleSearch(OnSuccess(s, increment), increment, passes, fuel - 1)
    else Converged(s.goodMTU)
  }

  /** One search pass against a size oracle. */
  function FindMTUWith(startMTU: int, increment: int, passes: int -> bool, fuel: nat): (p: Pass)
    ensures fuel > 0 && !passes(startMTU) ==> p == Converged(0)
  {
    OracleSearch(Begin(startMTU), increment, passes, fuel)
  }

  /** The outcome script a size oracle produces: probe `i` has size `startMTU + i*increment`. */
  function OracleScript(startMTU: int, increment: int, passes: int -> bool, n: nat): seq<Outcome>
  {
    seq(n, i => if passes(startMTU + i * increment) then Success else Timeout)
  }

  lemma {:induction false} OracleFrom(startMTU: int, increment: int, passes: int -> bool, j: nat, fuel: nat)
    ensures OracleSearch(After(startMTU, increment, j), increment, passes, fuel)
         == Drive(After(startMTU, increment, j), increment,
                  seq(fuel, i => if passes(startMTU + (j + i) * increment) then Success else Timeout))
    decreases fuel
  {
    var script := seq(fuel, i => if passes(startMTU + (j + i) * increment) then Success else Timeout);
    if fuel > 0 {
      assert script[0] == if passes(After(startMTU, increment, j).nextMTU) then Success else Timeout;
      SuccessAdvancesByIncrement(startMTU, increment, j);
      var tail := seq(fuel - 1, i => if passes(startMTU + (j + 1 + i) * increment) then Success else Timeout);
      assert script[1..] == tail by {
        forall i | 0 <= i < fuel - 1
          ensures script[1..][i] == tail[i]
        {
          assert j + (i + 1) == j + 1 + i;
        }
      }
      OracleFrom(startMTU, increment, passes, j + 1, fuel - 1);
    }
  }

  /** The oracle-driven pass is the script-driven pass fed with the oracle's outcomes. */
  lemma {:induction false} OracleAgreesWithScript(startMTU: int, increment: int, passes: int -> bool, fuel: nat)
    ensures FindMTUWith(startMTU, increment, passes, fuel)
         == FindMTU(startMTU, increment, OracleScript(startMTU, increment, passes, fuel))
  {
    var zero: nat := 0;
    assert Begin(startMTU) == After(startMTU, increment, zero);
    OracleFrom(startMTU, increment, passes, zero, fuel);
    assert OracleScript(startMTU, increment, passes, fuel)
        == seq(fuel, i => if passes(startMTU + (zero + i) * increment) then Success else Timeout);
  }

  /** A path on which exactly the sizes up to `limit` get through. */
  function Threshold(limit: int): int -> bool
  {
    size => size <= limit
  }

  lemma {:induction false} ThresholdFrom(startMTU: int, increment: int, limit: int, j: nat, fuel: nat)
    requires increment > 0 && fuel >= 1
    requires j == 0 || startMTU + (j - 1) * increment <= limit
    requires startMTU + (j + fuel - 1) * increment > limit
    ensures var p := OracleSearch(After(startMTU, increment, j), increment, Threshold(limit), fuel);
      && p.Converged?
      && (startMTU > limit ==> p.mtu == 0)
      && (startMTU <= limit ==> startMTU <= p.mtu <= limit < p.mtu + increment)
      && (startMTU <= limit ==> exists k: nat :: p.mtu == startMTU + k * increment)
    decreases fuel
  {
    var s := After(startMTU, increment, j);
    MulNonNegative(j, increment);
    if s.nextMTU > limit {
      if j > 0 {
        var w: nat := j - 1;
        SuccessAdvancesByIncrement(startMTU, increment, w);
        MulNonNegative(w, increment);
        assert s.goodMTU == startMTU + w * increment;
      }
    } else {
      var rest: nat := fuel - 1;
      MulNonNegative(rest, increment);
      MulSucc(j + rest - 1, increment);
      assert startMTU + (j + rest) * increment > limit;
      assert rest >= 1;
      SuccessAdvancesByIncrement(startMTU, increment, j);
      ThresholdFrom(startMTU, increment, limit, j + 1, rest);
    }
  }

  /** A product of non-negative factors is non-negative; stated once so that the
      solver need not rediscover it inside `ThresholdFrom`. */
  lemma MulNonNegative(a: nat, b: int)
    requires b >= 0
    ensures a * b >= 0
  {
  }

  /** One more step of `b`: distributes `(a + 1) * b` for `ThresholdFrom`. */
  lemma MulSucc(a: int, b: int)
    ensures (a + 1) * b == a * b + b
  {
  }

  /** On a threshold path with a positive increment and enough fuel to step past
      the threshold, a pass converges: to 0 when `startMTU` is already too big,
      and otherwise to the largest `startMTU + k*increment` that gets through. */
  lemma {:induction false} ThresholdPass(startMTU: int, increment: int, limit: int, fuel: nat)
    requires increment > 0 && fuel >= 1
    requires startMTU + (fuel - 1) * increment > limit
    ensures var p := FindMTUWith(startMTU, increment, Threshold(limit), fuel);
      && p.Converged?
      && (startMTU > limit ==> p.mtu == 0)
      && (startMTU <= limit ==> startMTU <= p.mtu <= limit < p.mtu + increment)
      && (startMTU <= limit ==> exists k: nat :: p.mtu == startMTU + k * increment)
  {
    var zero: nat := 0;
    assert Begin(startMTU) == After(startMTU, increment, zero);
    ThresholdFrom(startMTU, increment, limit, zero, fuel);
  }

  lemma {:induction false} ThresholdBoundsFrom(s: Search, increment: int, limit: int, fuel: nat)
    requires s.nextMTU <= limit
    ensures var p := OracleSearch(s, increment, Threshold(limit), fuel);
      p.Converged? ==> increment > 0 && s.nextMTU <= p.mtu <= limit
    decreases fuel
  {
    if fuel > 0 {
      var s' := OnSuccess(s, increment);
      if s'.nextMTU <= limit {
        ThresholdBoundsFrom(s', increment, limit, fuel - 1);
      }
    }
  }

  /** On a threshold path, whatever the increment and fuel, a converged pass
      returns 0 because its first probe was too big, or a size between
      `startMTU` and the threshold reached with a positive increment. */
  lemma {:induction false} ThresholdPassBounds(startMTU: int, increment: int, limit: int, fuel: nat)
    ensures var p := FindMTUWith(startMTU, increment, Threshold(limit), fuel);
      p.Converged? ==> (startMTU > limit && p.mtu == 0) || (increment > 0 && startMTU <= p.mtu <= limit)
  {
    if startMTU <= limit {
      ThresholdBoundsFrom(Begin(startMTU), increment, limit, fuel);
    }
  }

  lemma {:induction false} ZeroIncrementFrom(s: Search, passes: int -> bool, fuel: nat)
    requires passes(s.nextMTU)
    ensures OracleSearch(s, 0, passes, fuel).Waiting?
    decreases fuel
  {
    if fuel > 0 {
      ZeroIncrementFrom(OnSuccess(s, 0), passes, fuel - 1);
    }
  }

  /** Once the increment is 0, a pass whose first probe gets through re-probes
      the same size forever: no amount of fuel makes it converge. */
  lemma {:induction false} ZeroIncrementNeverConverges(startMTU: int, passes: int -> bool, fuel: nat)
    requires passes(startMTU)
    ensures FindMTUWith(startMTU, 0, passes, fuel).Waiting?
  {
    ZeroIncrementFrom(Begin(startMTU), passes, fuel);
  }

  // ---------------------------------------------------------------------------
  // The multi-pass refinement of Analyze
  // ---------------------------------------------------------------------------

  /** Go's `x / 2` on `int`, which truncates toward zero. */
  function Half(x: int): (r: int)
    ensures x >= 0 ==> 0 <= x - 2 * r <= 1
    ensures x < 0 ==> -1 <= x - 2 * r <= 0
  {
    if x >= 0 then x / 2 else -((-x) / 2)
  }

  /** The increment of pass `i` (counting from 0) when the first pass uses `increment`. */
  function PassIncrement(increment: int, i: nat): int
    decreases i
  {
    if i == 0 then increment else PassIncrement(Half(increment), i - 1)
  }

  /** What one pass of the refinement started from, used and returned. */
  datatype PassRecord = PassRecord(start: int, increment: int, result: Pass)

  /** The passes that ran and the MTU reported at the end, if every pass converged. */
  datatype Analysis = Analysis(passes: seq<PassRecord>, reported: Option<int>)

  /** `remaining` further passes, the first one from `startMTU` with `increment`. */
  function Refine(startMTU: int, increment: int, remaining: nat, passes: int -> bool, fuel: nat): (a: Analysis)
    ensures |a.passes| <= remaining
    ensures |a.passes| > 0 ==>
              a.passes[0] == PassRecord(startMTU, increment, FindMTUWith(startMTU, increment, passes, fuel))
    ensures a.reported.Some? <==>
              |a.passes| == remaining && (remaining == 0 || a.passes[remaining - 1].result.Converged?)
    ensures a.reported.Some? ==>
              a.reported.value == if remaining == 0 then startMTU else a.passes[remaining - 1].result.mtu
    ensures |a.passes| < remaining ==> |a.passes| > 0 && a.passes[|a.passes| - 1].result.Waiting?
    decreases remaining
  {
    if remaining == 0 then Analysis([], Some(startMTU))
    else
      var here := PassRecord(startMTU, increment, FindMTUWith(startMTU, increment, passes, fuel));
      match here.result
      case Waiting(_) => Analysis([here], None)
      case Converged(m) =>
        var rest := Refine(m, Half(increment), remaining - 1, passes, fuel);
        Analysis([here] + rest.passes, rest.reported)
  }

  /** Every pass of a refinement is a search pass from its recorded start with
      the halved increment of its position, and every pass but the last
      converged and handed its result to the next one as its start. */
  lemma {:induction false} RefineChain(startMTU: int, increment: int, remaining: nat, passes: int -> bool, fuel: nat)
    ensures var a := Refine(startMTU, increment, remaining, passes, fuel);
      && (forall i :: 0 <= i < |a.passes| ==>
            && a.passes[i].increment == PassIncrement(increment, i)
            && a.passes[i].result == FindMTUWith(a.passes[i].start, a.passes[i].increment, passes, fuel))
      && (forall i :: 0 <= i < |a.passes| - 1 ==>
            a.passes[i].result.Converged? && a.passes[i + 1].start == a.passes[i].result.mtu)
    decreases remaining
  {
    var a := Refine(startMTU, increment, remaining, passes, fuel);
    if remaining > 0 && a.passes[0].result.Converged? {
      var rest := Refine(a.passes[0].result.mtu, Half(increment), remaining - 1, passes, fuel);
      RefineChain(a.passes[0].result.mtu, Half(increment), remaining - 1, passes, fuel);
      assert a.passes == [a.passes[0]] + rest.passes;
      forall i | 1 <= i < |a.passes|
        ensures a.passes[i].increment == PassIncrement(increment, i)
      {
        assert a.passes[i] == rest.passes[i - 1];
      }
      forall i | 1 <= i < |a.passes| - 1
        ensures a.passes[i].result.Converged? && a.passes[i + 1].start == a.passes[i].result.mtu
      {
        assert a.passes[i] == rest.passes[i - 1];
        assert a.passes[i + 1] == rest.passes[i];
      }
    }
  }

  /** The whole analysis: `iterations` passes (none when it is not positive) from 500. */
  function Analyze(c: Config, iterations: int, passes: int -> bool, fuel: nat): (a: Analysis)
    ensures iterations <= 0 ==> a == Analysis([], Some(StartingMTU))
    ensures |a.passes| > 0 ==> a.passes[0].start == StartingMTU && a.passes[0].increment == c.incrementationStep
    ensures iterations > 0 ==>
              (a.reported.Some? <==> |a.passes| == iterations && a.passes[iterations - 1].result.Converged?)
    ensures iterations > 0 && a.reported.Some? ==> a.reported.value == a.passes[iterations - 1].result.mtu
    ensures iterations > 0 ==> |a.passes| <= iterations
    ensures |a.passes| < iterations ==> |a.passes| > 0 && a.passes[|a.passes| - 1].result.Waiting?
  {
    Refine(StartingMTU, c.incrementationStep, if iterations < 0 then 0 else iterations, passes, fuel)
  }

  /** Each pass of the analysis runs from the previous pass's result with half
      the previous increment (truncated toward zero); its result is the search
      pass from that start. */
  lemma {:induction false} AnalyzeChain(c: Config, iterations: int, passes: int -> bool, fuel: nat)
    ensures var a := Analyze(c, iterations, passes, fuel);
      && (forall i :: 0 <= i < |a.passes| ==>
            a.passes[i].result == FindMTUWith(a.passes[i].start, a.passes[i].increment, passes, fuel))
      && (forall i :: 0 <= i < |a.passes| - 1 ==>
            && a.passes[i].result.Converged?
            && a.passes[i + 1].start == a.passes[i].result.mtu
            && a.passes[i + 1].increment == Half(a.passes[i].increment))
  {
    var a := Analyze(c, iterations, passes, fuel);
    RefineChain(StartingMTU, c.incrementationStep, if iterations < 0 then 0 else iterations, passes, fuel);
    forall i | 0 <= i < |a.passes| - 1
      ensures a.passes[i + 1].increment == Half(a.passes[i].increment)
    {
      PassIncrementStep(c.incrementationStep, i);
    }
  }

  lemma {:induction false} PassIncrementStep(increment: int, i: nat)
    ensures PassIncrement(increment, i + 1) == Half(PassIncrement(increment, i))
    decreases i
  {
    if i > 0 {
      PassIncrementStep(Half(increment), i - 1);
    }
  }

  /** On a threshold path each pass re-probes the previous result first, so a
      pass that converges never returns less than the pass before it. */
  lemma {:induction false} ThresholdRefinementNeverDecreases(c: Config, iterations: int, limit: int, fuel: nat)
    ensures var a := Analyze(c, iterations, Threshold(limit), fuel);
      forall i :: 0 <= i < |a.passes| - 1 && a.passes[i].result.Converged? && a.passes[i + 1].result.Converged? ==>
        a.passes[i].result.mtu <= a.passes[i + 1].result.mtu
  {
    var a := Analyze(c, iterations, Threshold(limit), fuel);
    AnalyzeChain(c, iterations, Threshold(limit), fuel);
    forall i | 0 <= i < |a.passes| - 1 && a.passes[i].result.Converged? && a.passes[i + 1].result.Converged?
      ensures a.passes[i].result.mtu <= a.passes[i + 1].result.mtu
    {
      ThresholdPassBounds(a.passes[i].start, a.passes[i].increment, limit, fuel);
      ThresholdPassBounds(a.passes[i + 1].start, a.passes[i + 1].increment, limit, fuel);
    }
  }
}
