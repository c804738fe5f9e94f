/**
 * The per-network consensus parameter record (Consensus::Params) and the
 * BIP9 deployment record it holds, with the one derived accessor.
 */
module ConsensusParams {
  import opened FixedWidth

  /** The deployments known to version bits; the enum ends with their count. */
  datatype DeploymentPos = DeploymentTestDummy

  const MAX_VERSION_BITS_DEPLOYMENTS: nat := 1

  /** The enum value of a deployment position, used to index vDeployments. */
  function PosIndex(pos: DeploymentPos): (i: nat)
    ensures i < MAX_VERSION_BITS_DEPLOYMENTS
  {
    match pos
    case DeploymentTestDummy => 0
  }

  /** The deployment position whose enum value is `i`. */
  function PosAt(i: nat): (pos: DeploymentPos)
    requires i < MAX_VERSION_BITS_DEPLOYMENTS
    ensures PosIndex(pos) == i
  {
    DeploymentTestDummy
  }

  /** Positions and slots of vDeployments correspond one to one. */
  lemma PosIndexBijective(p: DeploymentPos, q: DeploymentPos)
    ensures PosIndex(p) == PosIndex(q) ==> p == q
    ensures PosAt(PosIndex(p)) == p
  {
  }

  /**
   * BIP 9 signals with the low 29 bits of nVersion; the top three bits of a
   * signalling version are 001, the value VERSIONBITS_TOP_BITS.
   */
  const VERSIONBITS_NUM_BITS: nat := 29
  const VERSIONBITS_TOP_BITS: nat := 0x2000_0000

  /**
   * One rule change deployed with BIP9: which bit of nVersion signals it, and
   * the median-time window in which it may be signalled. The start time may
   * lie in the past, so no relation to any clock is required.
   */
  datatype BIP9Deployment = BIP9Deployment(bit: int32, nStartTime: int64, nTimeout: int64)

  /** Parameters that influence chain consensus. */
  datatype Params = Params(
    hashGenesisBlock: uint256,
    uahfHeight: int32,
    greatWallActivationTime: int32,
    nRuleChangeActivationThreshold: uint32,
    nMinerConfirmationWindow: uint32,
    vDeployments: seq<BIP9Deployment>,
    powLimit: uint256,
    fPowAllowMinDifficultyBlocks: bool,
    fPowNoRetargeting: bool,
    nPowTargetSpacing: int64,
    nPowTargetTimespan: int64,
    nBlocksPerYear: int64,
    nInitialMiningRewardInCoins: int64,
    minerCapSystemChangeHeight: int64,
    nPerCentPerYear: seq<int64>,
    nMinRewardBlocks: int64,
    nMinRewardBalance: Amount,
    nMinReward: Amount,
    nMaxReward: Amount,
    minerWhiteListAdminAddress: set<string>,
    nMinimumChainWork: uint256,
    defaultAssumeValid: uint256,
    nZawyLwmaAveragingWindow: int64,
    nZawyLwmaAdjustedWeight: int64,
    nZawyLwmaMinDenominator: int64,
    bZawyLwmaSolvetimeLimitation: bool)

  /** The C++ division in DifficultyAdjustmentInterval is defined. */
  predicate IntervalDefined(p: Params)
  {
    p.nPowTargetSpacing != 0 && !(p.nPowTargetTimespan == INT64_MIN && p.nPowTargetSpacing == -1)
  }

  /**
   * Blocks per difficulty period: the target timespan divided by the target
   * spacing, rounded toward zero as C++ int64 division does.
   */
  function DifficultyAdjustmentInterval(p: Params): (r: int64)
    requires IntervalDefined(p)
    ensures p.nPowTargetTimespan >= 0 ==> 0 <= p.nPowTargetTimespan - r * p.nPowTargetSpacing < Abs(p.nPowTargetSpacing)
    ensures p.nPowTargetTimespan < 0 ==> -Abs(p.nPowTargetSpacing) < p.nPowTargetTimespan - r * p.nPowTargetSpacing <= 0
  {
    Int64Div(p.nPowTargetTimespan, p.nPowTargetSpacing)
  }

  /**
   * With a positive spacing and a non-negative timespan the interval is the
   * number of whole spacings that fit in the timespan.
   */
  lemma IntervalCountsWholeSpacings(p: Params)
    requires p.nPowTargetSpacing > 0 && p.nPowTargetTimespan >= 0
    ensures DifficultyAdjustmentInterval(p) >= 0
    ensures DifficultyAdjustmentInterval(p) * p.nPowTargetSpacing <= p.nPowTargetTimespan
    ensures p.nPowTargetTimespan < (DifficultyAdjustmentInterval(p) + 1) * p.nPowTargetSpacing
  {
    var r: int, s: int := DifficultyAdjustmentInterval(p), p.nPowTargetSpacing;
    Distribute(r + 1, r, s);
    if r < 0 {
      MulNonneg(-r, s);
      NegateLeft(r, s);
    }
  }

  /**
   * Any quotient that rounds toward zero is the interval, so the accessor is
   * exactly C++ truncating division and not Dafny's Euclidean division.
   */
  lemma IntervalIsTruncatingQuotient(p: Params, q: int)
    requires IntervalDefined(p)
    requires p.nPowTargetTimespan >= 0 ==> 0 <= p.nPowTargetTimespan - q * p.nPowTargetSpacing < Abs(p.nPowTargetSpacing)
    requires p.nPowTargetTimespan < 0 ==> -Abs(p.nPowTargetSpacing) < p.nPowTargetTimespan - q * p.nPowTargetSpacing <= 0
    ensures DifficultyAdjustmentInterval(p) == q
  {
    Int64DivUnique(p.nPowTargetTimespan, p.nPowTargetSpacing, q);
  }

  /**
   * The accessor is const: it depends on the timespan and the spacing only,
   * whatever the other fields hold.
   */
  lemma IntervalReadsOnlyTimespanAndSpacing(p: Params, p': Params)
    requires IntervalDefined(p)
    requires p'.nPowTargetTimespan == p.nPowTargetTimespan && p'.nPowTargetSpacing == p.nPowTargetSpacing
    ensures IntervalDefined(p') && DifficultyAdjustmentInterval(p') == DifficultyAdjustmentInterval(p)
  {
  }

  /** 2 to the power n. */
  function Pow2(n: nat): (r: nat)
    ensures r >= 1
  {
    if n == 0 then 1 else 2 * Pow2(n - 1)
  }

  lemma {:induction false} Pow2Add(a: nat, b: nat)
    ensures Pow2(a + b) == Pow2(a) * Pow2(b)
  {
    if b > 0 {
      Pow2Add(a, b - 1);
      assert Pow2(a + b) == 2 * Pow2(a + b - 1);
    }
  }

  /** Whether bit `i` of the non-negative value `v` is set. */
  predicate BitSet(v: nat, i: nat)
  {
    (v / Pow2(i)) % 2 == 1
  }

  /**
   * The nVersion mask of a deployment: the value with only bit `d.bit` set,
   * which stays below the top bits.
   */
  function VersionMask(d: BIP9Deployment): (m: nat)
    requires 0 <= d.bit < VERSIONBITS_NUM_BITS as int
    ensures m < VERSIONBITS_TOP_BITS
  {
    TopBitsIsPow2();
    Pow2Increasing(d.bit as nat, VERSIONBITS_NUM_BITS);
    Pow2(d.bit as nat)
  }

  lemma {:induction false} Pow2Increasing(a: nat, b: nat)
    requires a < b
    ensures Pow2(a) < Pow2(b)
  {
    if a < b - 1 {
      Pow2Increasing(a, b - 1);
    }
  }

  /** A deployment's bit selects exactly one bit of nVersion. */
  lemma VersionMaskSelectsOneBit(d: BIP9Deployment, i: nat)
    requires 0 <= d.bit < VERSIONBITS_NUM_BITS as int
    ensures BitSet(VersionMask(d), i) <==> i == d.bit as nat
  {
    var b := d.bit as nat;
    if i <= b {
      Pow2Add(i, b - i);
      DivideExact(Pow2(i), Pow2(b - i));
      assert VersionMask(d) / Pow2(i) == Pow2(b - i);
      if i < b {
        var h := Pow2(b - i - 1);
        assert Pow2(b - i) == 2 * h;
        assert (2 * h) % 2 == 0;
      }
    } else {
      Pow2Increasing(b, i);
      SmallQuotient(Pow2(b), Pow2(i));
    }
  }

  lemma TopBitsIsPow2()
    ensures Pow2(VERSIONBITS_NUM_BITS) == VERSIONBITS_TOP_BITS
  {
    Pow2Add(16, 13);
    assert Pow2(16) == 0x1_0000;
    assert Pow2(13) == 0x2000;
  }

  /**
   * A block signalling for the deployment, with version
   * VERSIONBITS_TOP_BITS | mask, has the deployment's bit set and keeps 001
   * in its top three bits.
   */
  lemma SignallingVersion(d: BIP9Deployment)
    requires 0 <= d.bit < VERSIONBITS_NUM_BITS as int
    ensures BitSet(VERSIONBITS_TOP_BITS + VersionMask(d), d.bit as nat)
    ensures (VERSIONBITS_TOP_BITS + VersionMask(d)) / VERSIONBITS_TOP_BITS == 1
  {
    var b := d.bit as nat;
    TopBitsIsPow2();
    Pow2Add(b, VERSIONBITS_NUM_BITS - b);
    OddMultiple(Pow2(b), Pow2(VERSIONBITS_NUM_BITS - b - 1));
    OneAndRemainder(VERSIONBITS_TOP_BITS, Pow2(b));
  }

  /** m * 2h + m, divided by m, is odd. */
  lemma OddMultiple(m: nat, h: nat)
    requires m >= 1
    ensures ((m * (2 * h) + m) / m) % 2 == 1
  {
    assert m * (2 * h) + m == m * (2 * h + 1);
    DivideExact(m, 2 * h + 1);
  }

  lemma OneAndRemainder(x: int, r: int)
    requires 0 <= r < x
    ensures (x + r) / x == 1
  {
    var q := (x + r) / x;
    assert 0 <= (x + r) - q * x < x;
    Distribute(q, 1, x);
    MultipleBelowDivisor(q - 1, x);
  }

  lemma SmallQuotient(x: int, y: int)
    requires 0 <= x < y
    ensures x / y == 0
  {
  }

  lemma DivideExact(x: int, y: int)
    requires x >= 1
    ensures (x * y) / x == y
  {
    var q := (x * y) / x;
    var r := x * y - x * q;
    assert 0 <= r < x;
    Distribute(y, q, x);
    MultipleBelowDivisor(y - q, x);
  }

  /**
   * What a usable record satisfies:
   *  - the confirmation window is the retarget period, timespan divided by
   *    spacing, and the activation threshold counts blocks within it;
   *  - the spacing is positive and divides the non-negative timespan
   *    exactly, so that the period is a whole number of blocks;
   *  - there is one deployment per DeploymentPos, and each deployment's bit
   *    is one of the bits BIP 9 signals with;
   *  - the LWMA averaging window spans at least two blocks.
   */
  predicate WellFormed(p: Params)
  {
    && p.nPowTargetSpacing > 0
    && p.nPowTargetTimespan >= 0
    && p.nPowTargetTimespan % p.nPowTargetSpacing == 0
    && 0 < p.nMinerConfirmationWindow
    && p.nMinerConfirmationWindow as int == DifficultyAdjustmentInterval(p)
    && p.nRuleChangeActivationThreshold <= p.nMinerConfirmationWindow
    && |p.vDeployments| == MAX_VERSION_BITS_DEPLOYMENTS
    && (forall d | d in p.vDeployments :: 0 <= d.bit < VERSIONBITS_NUM_BITS as int)
    && p.nZawyLwmaAveragingWindow >= 2
  }

  /** The deployment stored for `pos`. */
  function Deployment(p: Params, pos: DeploymentPos): (d: BIP9Deployment)
    requires |p.vDeployments| == MAX_VERSION_BITS_DEPLOYMENTS
    ensures d == p.vDeployments[PosIndex(pos)]
    ensures d in p.vDeployments
  {
    p.vDeployments[PosIndex(pos)]
  }

  /**
   * In a well-formed record every position has its deployment, that
   * deployment's mask is a single bit of nVersion, and the retarget interval
   * is defined, positive, spans the timespan exactly, and holds the
   * activation threshold.
   */
  lemma WellFormedConsequences(p: Params, pos: DeploymentPos)
    requires WellFormed(p)
    ensures IntervalDefined(p)
    ensures 0 <= Deployment(p, pos).bit < VERSIONBITS_NUM_BITS as int
    ensures forall i: nat :: BitSet(VersionMask(Deployment(p, pos)), i) <==> i == Deployment(p, pos).bit as nat
    ensures DifficultyAdjustmentInterval(p) > 0
    ensures DifficultyAdjustmentInterval(p) * p.nPowTargetSpacing == p.nPowTargetTimespan
    ensures p.nRuleChangeActivationThreshold as int <= DifficultyAdjustmentInterval(p)
  {
    var d := Deployment(p, pos);
    forall i: nat
      ensures BitSet(VersionMask(d), i) <==> i == d.bit as nat
    {
      VersionMaskSelectsOneBit(d, i);
    }
    IntervalIsTruncatingQuotient(p, p.nPowTargetTimespan / p.nPowTargetSpacing);
  }

  /**
   * The documented examples: a two-week timespan at ten-minute spacing is a
   * 2016-block period, and a threshold of 1916 blocks of it is 95% while the
   * test chains' 1512 is 75%.
   */
  lemma DocumentedExample(p: Params)
    requires p.nPowTargetTimespan == 14 * 24 * 60 * 60 && p.nPowTargetSpacing == 10 * 60
    requires p.nRuleChangeActivationThreshold == 1916 || p.nRuleChangeActivationThreshold == 1512
    requires p.nMinerConfirmationWindow == 2016
    requires |p.vDeployments| == MAX_VERSION_BITS_DEPLOYMENTS && p.vDeployments[0].bit == 28
    requires p.nZawyLwmaAveragingWindow >= 2
    ensures WellFormed(p)
    ensures DifficultyAdjustmentInterval(p) == p.nMinerConfirmationWindow as int
    ensures p.nRuleChangeActivationThreshold == 1916 ==> 100 * p.nRuleChangeActivationThreshold >= 95 * p.nMinerConfirmationWindow
    ensures p.nRuleChangeActivationThreshold == 1512 ==> 100 * p.nRuleChangeActivationThreshold == 75 * p.nMinerConfirmationWindow
  {
    IntervalIsTruncatingQuotient(p, 2016);
  }
}
