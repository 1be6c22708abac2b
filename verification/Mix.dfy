/** The mix of decoded planes to stereo. Samples and gains are reals. */
module Mix {
  import opened Basics

  datatype Frame = Frame(left: real, right: real)

  datatype Side = Left | Right

  datatype Gain = Gain(left: real, right: real) {
    function At(side: Side): real {
      match side
      case Left => left
      case Right => right
    }

    function With(side: Side, value: real): Gain {
      match side
      case Left => this.(left := value)
      case Right => this.(right := value)
    }
  }

  const MAX_CHANNELS: nat := 32

  const SILENT := Gain(0.0, 0.0)

  /** The 32-bit float nearest to the square root of one half. */
  const MINUS_3_DB: real := 11863283.0 / 16777216.0
  const OPPOSITE_CENTRE: real := 1.0 - MINUS_3_DB
  const REAR_CENTRE: real := 0.5

  datatype Position =
    | FrontLeft | TopFrontLeft | BottomFrontLeft | FrontLeftWide
    | FrontRight | TopFrontRight | BottomFrontRight | FrontRightWide
    | FrontCentre | TopCentre | TopFrontCentre | BottomFrontCentre
    | FrontLeftCentre | FrontRightCentre
    | SideLeft | RearLeft | TopSideLeft | TopRearLeft
    | SideRight | RearRight | TopSideRight | TopRearRight
    | RearCentre | TopRearCentre
    | OtherPosition

  /** Positions come in the order of their planes. */
  datatype Channels =
    | Positioned(positions: seq<Position>)
    | Ambisonic
    | Unplaced

  function Coefficients(position: Position): Gain {
    match position
    case FrontLeft | TopFrontLeft | BottomFrontLeft | FrontLeftWide => Gain(1.0, 0.0)
    case FrontRight | TopFrontRight | BottomFrontRight | FrontRightWide => Gain(0.0, 1.0)
    case FrontCentre | TopCentre | TopFrontCentre | BottomFrontCentre => Gain(MINUS_3_DB, MINUS_3_DB)
    case FrontLeftCentre => Gain(MINUS_3_DB, OPPOSITE_CENTRE)
    case FrontRightCentre => Gain(OPPOSITE_CENTRE, MINUS_3_DB)
    case SideLeft | RearLeft | TopSideLeft | TopRearLeft => Gain(MINUS_3_DB, 0.0)
    case SideRight | RearRight | TopSideRight | TopRearRight => Gain(0.0, MINUS_3_DB)
    case RearCentre | TopRearCentre => Gain(REAR_CENTRE, REAR_CENTRE)
    case OtherPosition => SILENT
  }

  // The gains of a layout

  /** Gains of the first planes, one after another, and silence for the rest of the table. */
  function Table(first: seq<Gain>): (gains: seq<Gain>)
    requires |first| <= MAX_CHANNELS
  {
    first + seq(MAX_CHANNELS - |first|, _ => SILENT)
  }

  function FirstPlanes(planeCount: nat): seq<Gain> {
    match planeCount
    case 0 => Table([])
    case 1 => Table([Gain(1.0, 1.0)])
    case _ => Table([Gain(1.0, 0.0), Gain(0.0, 1.0)])
  }

  /** How many planes of a positioned layout have a gain of their own. */
  function Placed(positions: seq<Position>, planeCount: nat): nat {
    Least(Least(|positions|, planeCount), MAX_CHANNELS)
  }

  function RawGains(positions: seq<Position>, planeCount: nat): seq<Gain> {
    Table(seq(Placed(positions, planeCount), i requires 0 <= i < |positions| => Coefficients(positions[i])))
  }

  predicate IsSilent(gains: seq<Gain>, side: Side) {
    forall i | 0 <= i < |gains| :: gains[i].At(side) == 0.0
  }

  function Magnitude(x: real): real {
    if x < 0.0 then -x else x
  }

  function Total(gains: seq<Gain>, side: Side): real {
    if gains == [] then 0.0
    else Total(gains[..|gains| - 1], side) + Magnitude(gains[|gains| - 1].At(side))
  }

  function CopiedSide(gains: seq<Gain>, source: Side, target: Side): seq<Gain> {
    seq(|gains|, i requires 0 <= i < |gains| => gains[i].With(target, gains[i].At(source)))
  }

  function Normalised(gains: seq<Gain>, side: Side): seq<Gain>
    requires Total(gains, side) != 0.0
  {
    seq(|gains|, i requires 0 <= i < |gains| => gains[i].With(side, gains[i].At(side) / Total(gains, side)))
  }

  predicate NonNegative(gains: seq<Gain>) {
    forall i | 0 <= i < |gains| :: gains[i].left >= 0.0 && gains[i].right >= 0.0
  }

  lemma {:induction false} TotalSign(gains: seq<Gain>, side: Side)
    ensures Total(gains, side) >= 0.0
    ensures Total(gains, side) == 0.0 <==> IsSilent(gains, side)
  {
    if gains != [] {
      var rest, last := gains[..|gains| - 1], gains[|gains| - 1];
      TotalSign(rest, side);
      assert gains == rest + [last];
    }
  }

  lemma {:induction false} TotalOfSame(a: seq<Gain>, sa: Side, b: seq<Gain>, sb: Side)
    requires |a| == |b| && forall i | 0 <= i < |a| :: a[i].At(sa) == b[i].At(sb)
    ensures Total(a, sa) == Total(b, sb)
  {
    if a != [] {
      TotalOfSame(a[..|a| - 1], sa, b[..|b| - 1], sb);
    }
  }

  /** The raw gains, or with one side silent the other side's twice, before they are normalised. */
  function SharedGains(raw: seq<Gain>): seq<Gain> {
    if IsSilent(raw, Left) then CopiedSide(raw, Right, Left)
    else if IsSilent(raw, Right) then CopiedSide(raw, Left, Right)
    else raw
  }

  lemma SharedAudible(raw: seq<Gain>)
    requires !(IsSilent(raw, Left) && IsSilent(raw, Right))
    ensures var shared := SharedGains(raw);
      |shared| == |raw| && Total(shared, Left) != 0.0 && Total(shared, Right) != 0.0
      && (NonNegative(raw) ==> NonNegative(shared))
  {
    TotalSign(raw, Left);
    TotalSign(raw, Right);
    var shared := SharedGains(raw);
    if IsSilent(raw, Left) {
      TotalOfSame(shared, Left, raw, Right);
      TotalOfSame(shared, Right, raw, Right);
    } else if IsSilent(raw, Right) {
      TotalOfSame(shared, Right, raw, Left);
      TotalOfSame(shared, Left, raw, Left);
    }
  }

  lemma OtherSideKept(gains: seq<Gain>)
    requires Total(gains, Left) != 0.0
    ensures Total(Normalised(gains, Left), Right) == Total(gains, Right)
  {
    TotalOfSame(Normalised(gains, Left), Right, gains, Right);
  }

  function BothNormalised(gains: seq<Gain>): seq<Gain>
    requires Total(gains, Left) != 0.0 && Total(gains, Right) != 0.0
  {
    OtherSideKept(gains);
    Normalised(Normalised(gains, Left), Right)
  }

  function PositionedGains(positions: seq<Position>, planeCount: nat): seq<Gain> {
    var raw := RawGains(positions, planeCount);
    if IsSilent(raw, Left) && IsSilent(raw, Right) then FirstPlanes(planeCount)
    else
      SharedAudible(raw);
      BothNormalised(SharedGains(raw))
  }

  function GainsFor(channels: Channels, planeCount: nat): seq<Gain> {
    if planeCount == 1 then Table([Gain(1.0, 1.0)])
    else match channels
      case Positioned(positions) => PositionedGains(positions, planeCount)
      case Ambisonic => if planeCount > 0 then Table([Gain(1.0, 1.0)]) else FirstPlanes(planeCount)
      case Unplaced => FirstPlanes(planeCount)
  }

  // No layout can clip

  /** Each side's gains are non-negative, add up to one, and are silent past the layout's planes. */
  ghost predicate Balanced(gains: seq<Gain>, planeCount: nat) {
    && |gains| == MAX_CHANNELS
    && NonNegative(gains)
    && Total(gains, Left) == 1.0 && Total(gains, Right) == 1.0
    && forall i | planeCount <= i < |gains| :: gains[i] == SILENT
  }

  lemma {:induction false} TotalOfTable(first: seq<Gain>, n: nat, side: Side)
    ensures Total(first + seq(n, _ => SILENT), side) == Total(first, side)
    decreases n
  {
    var whole := first + seq(n, _ => SILENT);
    if n == 0 {
      assert whole == first;
    } else {
      assert whole[..|whole| - 1] == first + seq(n - 1, _ => SILENT);
      TotalOfTable(first, n - 1, side);
    }
  }

  lemma TotalOfOne(a: Gain)
    ensures forall side :: Total([a], side) == Magnitude(a.At(side))
  {}

  lemma TotalOfTwo(a: Gain, b: Gain)
    ensures forall side :: Total([a, b], side) == Magnitude(a.At(side)) + Magnitude(b.At(side))
  {
    TotalOfOne(a);
    assert [a, b][..1] == [a];
  }

  lemma TableBalanced(first: seq<Gain>, planeCount: nat)
    requires |first| <= planeCount && |first| <= MAX_CHANNELS && NonNegative(first)
    requires Total(first, Left) == 1.0 && Total(first, Right) == 1.0
    ensures Balanced(Table(first), planeCount)
  {
    TotalOfTable(first, MAX_CHANNELS - |first|, Left);
    TotalOfTable(first, MAX_CHANNELS - |first|, Right);
  }

  lemma FirstPlanesBalanced(planeCount: nat)
    requires planeCount > 0
    ensures Balanced(FirstPlanes(planeCount), planeCount)
  {
    if planeCount == 1 {
      TotalOfOne(Gain(1.0, 1.0));
      TableBalanced([Gain(1.0, 1.0)], planeCount);
    } else {
      TotalOfTwo(Gain(1.0, 0.0), Gain(0.0, 1.0));
      TableBalanced([Gain(1.0, 0.0), Gain(0.0, 1.0)], planeCount);
    }
  }

  lemma QuotientOfSum(x: real, y: real, t: real)
    requires t > 0.0
    ensures (x + y) / t == x / t + y / t
  {}

  lemma MagnitudeOfQuotient(x: real, t: real)
    requires t > 0.0
    ensures Magnitude(x / t) == Magnitude(x) / t
  {}

  lemma {:induction false} TotalDivided(a: seq<Gain>, b: seq<Gain>, side: Side, total: real)
    requires |a| == |b| && total > 0.0
    requires forall i | 0 <= i < |a| :: b[i].At(side) == a[i].At(side) / total
    ensures Total(b, side) == Total(a, side) / total
  {
    if a != [] {
      TotalDivided(a[..|a| - 1], b[..|b| - 1], side, total);
      var x, y := a[|a| - 1].At(side), Total(a[..|a| - 1], side);
      QuotientOfSum(y, Magnitude(x), total);
      MagnitudeOfQuotient(x, total);
    }
  }

  lemma OwnQuotient(t: real)
    requires t > 0.0
    ensures t / t == 1.0 && 0.0 / t == 0.0
  {}

  lemma QuotientSign(x: real, t: real)
    requires x >= 0.0 && t > 0.0
    ensures x / t >= 0.0
  {}

  lemma NormalisedTotal(gains: seq<Gain>, side: Side)
    requires NonNegative(gains) && Total(gains, side) != 0.0
    ensures Total(Normalised(gains, side), side) == 1.0
    ensures NonNegative(Normalised(gains, side))
    ensures forall i | 0 <= i < |gains| && gains[i] == SILENT :: Normalised(gains, side)[i] == SILENT
  {
    TotalSign(gains, side);
    var total := Total(gains, side);
    TotalDivided(gains, Normalised(gains, side), side, total);
    OwnQuotient(total);
    forall i | 0 <= i < |gains| ensures gains[i].At(side) / total >= 0.0 {
      QuotientSign(gains[i].At(side), total);
    }
  }

  lemma NormalisedBalanced(shared: seq<Gain>, planeCount: nat)
    requires |shared| == MAX_CHANNELS && NonNegative(shared)
    requires Total(shared, Left) != 0.0 && Total(shared, Right) != 0.0
    requires forall i | planeCount <= i < |shared| :: shared[i] == SILENT
    ensures Balanced(BothNormalised(shared), planeCount)
  {
    NormalisedTotal(shared, Left);
    OtherSideKept(shared);
    var half := Normalised(shared, Left);
    NormalisedTotal(half, Right);
    TotalOfSame(Normalised(half, Right), Left, half, Left);
  }

  lemma PositionedBalanced(positions: seq<Position>, planeCount: nat)
    requires planeCount > 0
    ensures Balanced(PositionedGains(positions, planeCount), planeCount)
  {
    var raw := RawGains(positions, planeCount);
    if IsSilent(raw, Left) && IsSilent(raw, Right) {
      FirstPlanesBalanced(planeCount);
    } else {
      assert NonNegative(raw);
      SharedAudible(raw);
      NormalisedBalanced(SharedGains(raw), planeCount);
    }
  }

  /** Every layout of at least one plane is balanced. */
  lemma EveryLayoutBalanced(channels: Channels, planeCount: nat)
    requires planeCount > 0
    ensures Balanced(GainsFor(channels, planeCount), planeCount)
  {
    FirstPlanesBalanced(planeCount);
    FirstPlanesBalanced(1);
    if channels.Positioned? {
      PositionedBalanced(channels.positions, planeCount);
    }
  }

  // Mixing

  /** What a plane adds to frame t: nothing past its last sample. */
  function Share(plane: seq<real>, t: nat, gain: real): real {
    if t < |plane| then plane[t] * gain else 0.0
  }

  /** One side of frame t, from the first n planes: the weighted sum of the samples they have there. */
  function MixedSide(gains: seq<Gain>, planes: seq<seq<real>>, t: nat, side: Side, n: nat): real
    requires n <= |gains| && n <= |planes|
  {
    if n == 0 then 0.0
    else MixedSide(gains, planes, t, side, n - 1) + Share(planes[n - 1], t, gains[n - 1].At(side))
  }

  function MixedFrame(gains: seq<Gain>, planes: seq<seq<real>>, t: nat, n: nat): Frame
    requires n <= |gains| && n <= |planes|
  {
    Frame(MixedSide(gains, planes, t, Left, n), MixedSide(gains, planes, t, Right, n))
  }

  function MixedFrames(gains: seq<Gain>, planes: seq<seq<real>>, frames: nat): (mixed: seq<Frame>)
    ensures |mixed| == frames
  {
    seq(frames, t requires 0 <= t => MixedFrame(gains, planes, t, Least(|gains|, |planes|)))
  }

  // What a mixed frame is, in plain sums

  /** The first n planes' samples at t, each times its plane's left gain. */
  function LeftSum(gains: seq<Gain>, planes: seq<seq<real>>, t: nat, n: nat): real
    requires n <= |gains| && n <= |planes|
  {
    if n == 0 then 0.0
    else LeftSum(gains, planes, t, n - 1) + if t < |planes[n - 1]| then planes[n - 1][t] * gains[n - 1].left else 0.0
  }

  function RightSum(gains: seq<Gain>, planes: seq<seq<real>>, t: nat, n: nat): real
    requires n <= |gains| && n <= |planes|
  {
    if n == 0 then 0.0
    else RightSum(gains, planes, t, n - 1) + if t < |planes[n - 1]| then planes[n - 1][t] * gains[n - 1].right else 0.0
  }

  lemma {:induction false} MixedFrameIsSum(gains: seq<Gain>, planes: seq<seq<real>>, t: nat, n: nat)
    requires n <= |gains| && n <= |planes|
    ensures MixedFrame(gains, planes, t, n) == Frame(LeftSum(gains, planes, t, n), RightSum(gains, planes, t, n))
  {
    if n > 0 {
      MixedFrameIsSum(gains, planes, t, n - 1);
    }
  }

  lemma MixedFramesAreSums(gains: seq<Gain>, planes: seq<seq<real>>, frames: nat, t: nat)
    requires t < frames
    ensures var n := Least(|gains|, |planes|);
      MixedFrames(gains, planes, frames)[t] == Frame(LeftSum(gains, planes, t, n), RightSum(gains, planes, t, n))
  {
    MixedFrameIsSum(gains, planes, t, Least(|gains|, |planes|));
  }

  lemma TotalOfLast(gains: seq<Gain>, side: Side, n: nat)
    requires n < |gains|
    ensures Total(gains[..n + 1], side) == Total(gains[..n], side) + Magnitude(gains[n].At(side))
  {
    assert gains[..n + 1][..n] == gains[..n];
  }

  function Sum(terms: seq<real>): real {
    if terms == [] then 0.0 else Sum(terms[..|terms| - 1]) + terms[|terms| - 1]
  }

  lemma {:induction false} SumsOrdered(a: seq<real>, b: seq<real>)
    requires |a| == |b| && forall i | 0 <= i < |a| :: a[i] <= b[i]
    ensures Sum(a) <= Sum(b)
  {
    if a != [] {
      SumsOrdered(a[..|a| - 1], b[..|b| - 1]);
    }
  }

  function Shares(gains: seq<Gain>, planes: seq<seq<real>>, t: nat, side: Side, n: nat): (r: seq<real>)
    requires n <= |gains| && n <= |planes|
    ensures |r| == n
  {
    seq(n, i requires 0 <= i < n => Share(planes[i], t, gains[i].At(side)))
  }

  lemma {:induction false} MixedSideIsSum(gains: seq<Gain>, planes: seq<seq<real>>, t: nat, side: Side, n: nat)
    requires n <= |gains| && n <= |planes|
    ensures MixedSide(gains, planes, t, side, n) == Sum(Shares(gains, planes, t, side, n))
    decreases n
  {
    if n > 0 {
      MixedSideIsSum(gains, planes, t, side, n - 1);
      assert Shares(gains, planes, t, side, n)[..n - 1] == Shares(gains, planes, t, side, n - 1);
    }
  }

  function EvenShares(gains: seq<Gain>, x: real, side: Side, n: nat): (r: seq<real>)
    requires n <= |gains|
    ensures |r| == n
  {
    seq(n, i requires 0 <= i < n => x * gains[i].At(side))
  }

  lemma SumTimes(x: real, a: real, b: real)
    ensures x * (a + b) == x * a + x * b
  {}

  lemma {:induction false} EvenSharesAddUp(gains: seq<Gain>, x: real, side: Side, n: nat)
    requires n <= |gains| && NonNegative(gains)
    ensures Sum(EvenShares(gains, x, side, n)) == x * Total(gains[..n], side)
    decreases n
  {
    if n > 0 {
      EvenSharesAddUp(gains, x, side, n - 1);
      assert EvenShares(gains, x, side, n)[..n - 1] == EvenShares(gains, x, side, n - 1);
      TotalOfLast(gains, side, n - 1);
      SumTimes(x, Total(gains[..n - 1], side), gains[n - 1].At(side));
    }
  }

  lemma ProductsOrdered(low: real, x: real, high: real, g: real)
    requires low <= x <= high && g >= 0.0
    ensures low * g <= x * g <= high * g
  {}

  lemma MixedSideBounds(gains: seq<Gain>, planes: seq<seq<real>>, t: nat, side: Side, n: nat, low: real, high: real)
    requires n <= |gains| && n <= |planes| && NonNegative(gains)
    requires forall i | 0 <= i < n :: t < |planes[i]| && low <= planes[i][t] <= high
    ensures Sum(EvenShares(gains, low, side, n)) <= MixedSide(gains, planes, t, side, n)
    ensures MixedSide(gains, planes, t, side, n) <= Sum(EvenShares(gains, high, side, n))
  {
    var shares := Shares(gains, planes, t, side, n);
    var least, greatest := EvenShares(gains, low, side, n), EvenShares(gains, high, side, n);
    forall i | 0 <= i < n ensures least[i] <= shares[i] <= greatest[i] {
      ProductsOrdered(low, planes[i][t], high, gains[i].At(side));
    }
    SumsOrdered(least, shares);
    SumsOrdered(shares, greatest);
    MixedSideIsSum(gains, planes, t, side, n);
  }

  lemma {:induction false} TotalOfPrefix(gains: seq<Gain>, n: nat, side: Side)
    requires n <= |gains| && forall i | n <= i < |gains| :: gains[i] == SILENT
    ensures Total(gains[..n], side) == Total(gains, side)
    decreases |gains|
  {
    if n < |gains| {
      var rest := gains[..|gains| - 1];
      TotalOfPrefix(rest, n, side);
      assert rest[..n] == gains[..n];
    } else {
      assert gains[..n] == gains;
    }
  }

  lemma BalancedBounds(gains: seq<Gain>, planes: seq<seq<real>>, t: nat, side: Side, low: real, high: real)
    requires Balanced(gains, |planes|) && |planes| <= MAX_CHANNELS
    requires forall i | 0 <= i < |planes| :: t < |planes[i]| && low <= planes[i][t] <= high
    ensures low <= MixedSide(gains, planes, t, side, |planes|) <= high
  {
    TotalOfPrefix(gains, |planes|, side);
    MixedSideBounds(gains, planes, t, side, |planes|, low, high);
    EvenSharesAddUp(gains, low, side, |planes|);
    EvenSharesAddUp(gains, high, side, |planes|);
    assert Total(gains[..|planes|], side) == 1.0;
  }

  /** No layout can clip: a mixed sample lies between the least and the greatest sample of its frame. */
  lemma NeverClips(channels: Channels, planes: seq<seq<real>>, frames: nat, t: nat, low: real, high: real)
    requires 0 < |planes| <= MAX_CHANNELS && t < frames
    requires forall i | 0 <= i < |planes| :: t < |planes[i]| && low <= planes[i][t] <= high
    ensures var frame := MixedFrames(GainsFor(channels, |planes|), planes, frames)[t];
      low <= frame.left <= high && low <= frame.right <= high
  {
    EveryLayoutBalanced(channels, |planes|);
    BalancedBounds(GainsFor(channels, |planes|), planes, t, Left, low, high);
    BalancedBounds(GainsFor(channels, |planes|), planes, t, Right, low, high);
  }

  // In place

  function WithPlane(frame: Frame, plane: seq<real>, t: nat, gain: Gain): Frame {
    Frame(frame.left + Share(plane, t, gain.left), frame.right + Share(plane, t, gain.right))
  }

  method AddPlane(stereo: array<Frame>, plane: seq<real>, gain: Gain)
    modifies stereo
    ensures forall t | 0 <= t < stereo.Length :: stereo[t] == WithPlane(old(stereo[t]), plane, t, gain)
  {
    var t := 0;
    while t < stereo.Length && t < |plane|
      invariant 0 <= t <= stereo.Length && t <= |plane|
      invariant forall u | t <= u < stereo.Length :: stereo[u] == old(stereo[u])
      invariant forall u | 0 <= u < t :: stereo[u] == WithPlane(old(stereo[u]), plane, u, gain)
    {
      if gain.left != 0.0 {
        stereo[t] := stereo[t].(left := stereo[t].left + plane[t] * gain.left);
      }
      if gain.right != 0.0 {
        stereo[t] := stereo[t].(right := stereo[t].right + plane[t] * gain.right);
      }
      t := t + 1;
    }
  }

  /** The mixed frames come after what the output holds already. */
  method Apply(gains: seq<Gain>, planes: seq<seq<real>>, frames: nat, output: seq<Frame>) returns (r: seq<Frame>)
    ensures r == output + MixedFrames(gains, planes, frames)
    ensures forall t | 0 <= t < frames ::
      r[|output| + t].left == LeftSum(gains, planes, t, Least(|gains|, |planes|))
    ensures forall t | 0 <= t < frames ::
      r[|output| + t].right == RightSum(gains, planes, t, Least(|gains|, |planes|))
  {
    var stereo := new Frame[frames](_ => Frame(0.0, 0.0));
    var i := 0;
    while i < |planes| && i < |gains|
      invariant 0 <= i <= |planes| && i <= |gains|
      invariant forall t | 0 <= t < frames :: stereo[t] == MixedFrame(gains, planes, t, i)
    {
      AddPlane(stereo, planes[i], gains[i]);
      i := i + 1;
    }
    r := output + stereo[..];
    forall t | 0 <= t < frames
      ensures r[|output| + t] == Frame(LeftSum(gains, planes, t, i), RightSum(gains, planes, t, i))
    {
      MixedFrameIsSum(gains, planes, t, i);
    }
  }

  method CopySide(gains: array<Gain>, source: Side, target: Side)
    modifies gains
    ensures gains[..] == CopiedSide(old(gains[..]), source, target)
  {
    var i := 0;
    while i < gains.Length
      invariant 0 <= i <= gains.Length
      invariant forall k | i <= k < gains.Length :: gains[k] == old(gains[k])
      invariant forall k | 0 <= k < i :: gains[k] == old(gains[k]).With(target, old(gains[k]).At(source))
    {
      gains[i] := gains[i].With(target, gains[i].At(source));
      i := i + 1;
    }
  }

  method Normalise(gains: array<Gain>, side: Side)
    requires Total(gains[..], side) != 0.0
    modifies gains
    ensures gains[..] == Normalised(old(gains[..]), side)
  {
    var total := 0.0;
    var i := 0;
    while i < gains.Length
      invariant 0 <= i <= gains.Length && total == Total(gains[..i], side)
    {
      assert gains[..i + 1][..i] == gains[..i];
      if gains[i].At(side) != 0.0 {
        total := total + Magnitude(gains[i].At(side));
      }
      i := i + 1;
    }
    assert gains[..i] == gains[..];
    i := 0;
    while i < gains.Length
      invariant 0 <= i <= gains.Length
      invariant forall k | i <= k < gains.Length :: gains[k] == old(gains[k])
      invariant forall k | 0 <= k < i :: gains[k] == old(gains[k]).With(side, old(gains[k]).At(side) / total)
    {
      gains[i] := gains[i].With(side, gains[i].At(side) / total);
      i := i + 1;
    }
  }

  method PlaceGains(positions: seq<Position>, planeCount: nat) returns (gains: array<Gain>)
    ensures fresh(gains) && gains[..] == PositionedGains(positions, planeCount)
  {
    gains := new Gain[MAX_CHANNELS](_ => SILENT);
    var i := 0;
    while i < MAX_CHANNELS && i < |positions| && i < planeCount
      invariant 0 <= i <= Placed(positions, planeCount)
      invariant forall k | 0 <= k < gains.Length ::
        gains[k] == if k < i then Coefficients(positions[k]) else SILENT
    {
      gains[i] := Coefficients(positions[i]);
      i := i + 1;
    }
    ghost var raw := gains[..];
    assert raw == RawGains(positions, planeCount);
    var left, right := IsSilent(gains[..], Left), IsSilent(gains[..], Right);
    if left && right {
      gains := new Gain[MAX_CHANNELS](k requires 0 <= k < MAX_CHANNELS => FirstPlanes(planeCount)[k]);
      return;
    } else if left {
      CopySide(gains, Right, Left);
    } else if right {
      CopySide(gains, Left, Right);
    }
    SharedAudible(raw);
    assert gains[..] == SharedGains(raw);
    OtherSideKept(gains[..]);
    Normalise(gains, Left);
    Normalise(gains, Right);
  }

  method ForChannels(channels: Channels, planeCount: nat) returns (gains: array<Gain>)
    ensures fresh(gains) && gains[..] == GainsFor(channels, planeCount)
  {
    if planeCount != 1 && channels.Positioned? {
      gains := PlaceGains(channels.positions, planeCount);
    } else {
      var first := if channels.Ambisonic? && planeCount > 0 then 1 else planeCount;
      gains := new Gain[MAX_CHANNELS](k requires 0 <= k < MAX_CHANNELS => FirstPlanes(first)[k]);
      assert gains[..] == FirstPlanes(first);
      assert FirstPlanes(1) == Table([Gain(1.0, 1.0)]);
    }
  }

  // What particular layouts sound like

  lemma StereoGains()
    ensures var gains := GainsFor(Positioned([FrontLeft, FrontRight]), 2);
      |gains| == MAX_CHANNELS && gains[0] == Gain(1.0, 0.0) && gains[1] == Gain(0.0, 1.0)
  {
    var first := [Gain(1.0, 0.0), Gain(0.0, 1.0)];
    var raw := RawGains([FrontLeft, FrontRight], 2);
    assert raw == Table(first);
    assert raw[0].left == 1.0 && raw[1].right == 1.0;
    TotalOfTwo(first[0], first[1]);
    TotalOfTable(first, MAX_CHANNELS - 2, Left);
    TotalOfTable(first, MAX_CHANNELS - 2, Right);
    OtherSideKept(raw);
    var half := Normalised(raw, Left);
    assert half[0] == first[0] && half[1] == first[1];
  }

  lemma FirstTwoMixed(gains: seq<Gain>, planes: seq<seq<real>>, t: nat)
    requires |gains| >= 2 && gains[0] == Gain(1.0, 0.0) && gains[1] == Gain(0.0, 1.0)
    requires |planes| >= 2 && t < |planes[0]| && t < |planes[1]|
    ensures MixedFrame(gains, planes, t, 2) == Frame(planes[0][t], planes[1][t])
  {
    assert MixedSide(gains, planes, t, Left, 1) == planes[0][t];
    assert MixedSide(gains, planes, t, Right, 1) == 0.0;
  }

  /** A layout that names nothing but a left and a right speaker passes through, behind what the output holds. */
  lemma StereoPassesThrough(planes: seq<seq<real>>, frames: nat, t: nat, output: seq<Frame>, r: seq<Frame>)
    requires |planes| == 2 && t < frames && t < |planes[0]| && t < |planes[1]|
    requires r == output + MixedFrames(GainsFor(Positioned([FrontLeft, FrontRight]), 2), planes, frames)
    ensures r[|output| + t] == Frame(planes[0][t], planes[1][t])
  {
    StereoGains();
    FirstTwoMixed(GainsFor(Positioned([FrontLeft, FrontRight]), 2), planes, t);
  }

  lemma {:induction false} RestIsSilent(gains: seq<Gain>, planes: seq<seq<real>>, t: nat, m: nat, n: nat)
    requires m <= n <= |gains| && n <= |planes| && forall i | m <= i < n :: gains[i] == SILENT
    ensures MixedFrame(gains, planes, t, n) == MixedFrame(gains, planes, t, m)
    decreases n
  {
    if m < n {
      RestIsSilent(gains, planes, t, m, n - 1);
    }
  }

  /** One plane, or the first of an ambisonic sound, is heard on both sides. */
  lemma OnePlaneOnBothSides(channels: Channels, planes: seq<seq<real>>, frames: nat, t: nat)
    requires 0 < |planes| <= MAX_CHANNELS && (|planes| == 1 || channels.Ambisonic?)
    requires t < frames && t < |planes[0]|
    ensures MixedFrames(GainsFor(channels, |planes|), planes, frames)[t] == Frame(planes[0][t], planes[0][t])
  {
    var gains := GainsFor(channels, |planes|);
    assert gains == Table([Gain(1.0, 1.0)]);
    assert gains[0] == Gain(1.0, 1.0);
    forall side ensures MixedSide(gains, planes, t, side, 1) == planes[0][t] {
      assert MixedSide(gains, planes, t, side, 0) == 0.0;
    }
    RestIsSilent(gains, planes, t, 1, |planes|);
  }

  /** Without positions, or where none of them is to be heard, the first two planes are left and right. */
  lemma FirstTwoWithoutPositions(channels: Channels, planes: seq<seq<real>>, frames: nat, t: nat)
    requires 2 <= |planes| <= MAX_CHANNELS && t < frames && t < |planes[0]| && t < |planes[1]|
    requires channels.Unplaced?
      || (channels.Positioned? && forall position <- channels.positions :: Coefficients(position) == SILENT)
    ensures MixedFrames(GainsFor(channels, |planes|), planes, frames)[t] == Frame(planes[0][t], planes[1][t])
  {
    var gains := GainsFor(channels, |planes|);
    FirstTwoMixed(gains, planes, t);
    RestIsSilent(gains, planes, t, 2, |planes|);
  }

  // Positions

  /** The same place on the other side. */
  function MirrorOf(position: Position): Position {
    match position
    case FrontLeft => FrontRight
    case TopFrontLeft => TopFrontRight
    case BottomFrontLeft => BottomFrontRight
    case FrontLeftWide => FrontRightWide
    case FrontRight => FrontLeft
    case TopFrontRight => TopFrontLeft
    case BottomFrontRight => BottomFrontLeft
    case FrontRightWide => FrontLeftWide
    case FrontLeftCentre => FrontRightCentre
    case FrontRightCentre => FrontLeftCentre
    case SideLeft => SideRight
    case RearLeft => RearRight
    case TopSideLeft => TopSideRight
    case TopRearLeft => TopRearRight
    case SideRight => SideLeft
    case RearRight => RearLeft
    case TopSideRight => TopSideLeft
    case TopRearRight => TopRearLeft
    case _ => position
  }

  predicate OnTheLeft(position: Position) {
    position in {FrontLeft, TopFrontLeft, BottomFrontLeft, FrontLeftWide, FrontLeftCentre, SideLeft, RearLeft,
                 TopSideLeft, TopRearLeft}
  }

  /** The table has two sides alike, and whatever stands on one is louder there. */
  lemma SidesMirror(position: Position)
    ensures var here, there := Coefficients(position), Coefficients(MirrorOf(position));
      here.left == there.right && here.right == there.left
    ensures OnTheLeft(position) ==> Coefficients(position).left > Coefficients(position).right
    ensures position == MirrorOf(position) <==> Coefficients(position).left == Coefficients(position).right
  {}

  /** What a side is mixed from: the other one, if nothing of its own is to be heard. */
  function From(raw: seq<Gain>, side: Side): Side {
    if !IsSilent(raw, side) then side else if side == Left then Right else Left
  }

  lemma SharedAt(raw: seq<Gain>, i: nat, side: Side)
    requires i < |raw| && !(IsSilent(raw, Left) && IsSilent(raw, Right))
    ensures |SharedGains(raw)| == |raw| && SharedGains(raw)[i].At(side) == raw[i].At(From(raw, side))
  {}

  lemma NormalisedAt(gains: seq<Gain>, i: nat, side: Side)
    requires i < |gains| && Total(gains, Left) != 0.0 && Total(gains, Right) != 0.0
    ensures |BothNormalised(gains)| == |gains|
    ensures BothNormalised(gains)[i].At(side) == gains[i].At(side) / Total(gains, side)
  {
    OtherSideKept(gains);
  }

  lemma PositionedAt(positions: seq<Position>, planeCount: nat, i: nat, side: Side) returns (total: real)
    requires var raw := RawGains(positions, planeCount); !(IsSilent(raw, Left) && IsSilent(raw, Right))
    requires i < MAX_CHANNELS
    ensures total == Total(SharedGains(RawGains(positions, planeCount)), side) != 0.0
    ensures |PositionedGains(positions, planeCount)| == MAX_CHANNELS
    ensures var raw := RawGains(positions, planeCount);
      PositionedGains(positions, planeCount)[i].At(side) == raw[i].At(From(raw, side)) / total
  {
    var raw := RawGains(positions, planeCount);
    SharedAudible(raw);
    SharedAt(raw, i, side);
    NormalisedAt(SharedGains(raw), i, side);
    total := Total(SharedGains(raw), side);
  }

  /**
    * The gains of a positioned layout are its positions' coefficients in one proportion a side, and silent past them.
    * As each side's gains add up to one, that determines them.
    */
  lemma GainsInProportion(positions: seq<Position>, planeCount: nat, side: Side) returns (total: real)
    requires var raw := RawGains(positions, planeCount); !(IsSilent(raw, Left) && IsSilent(raw, Right))
    ensures total != 0.0
    ensures var gains, source := PositionedGains(positions, planeCount), From(RawGains(positions, planeCount), side);
      && |gains| == MAX_CHANNELS
      && (forall i | 0 <= i < Placed(positions, planeCount) ::
            gains[i].At(side) == Coefficients(positions[i]).At(source) / total)
      && (forall i | Placed(positions, planeCount) <= i < MAX_CHANNELS :: gains[i].At(side) == 0.0)
  {
    var raw, gains := RawGains(positions, planeCount), PositionedGains(positions, planeCount);
    var source := From(raw, side);
    total := PositionedAt(positions, planeCount, 0, side);
    forall i | 0 <= i < MAX_CHANNELS ensures gains[i].At(side) == raw[i].At(source) / total {
      var same := PositionedAt(positions, planeCount, i, side);
    }
    ZeroQuotient(total);
  }

  /** Three decibels down is half the power, as near as a float comes. */
  lemma HalfThePower()
    ensures -1.0 / 8388608.0 < 2.0 * MINUS_3_DB * MINUS_3_DB - 1.0 < 1.0 / 8388608.0
  {}

  /** Silence from the low-frequency planes: a position without coefficients has no part in the mix. */
  lemma UnplacedPlaneUnheard(positions: seq<Position>, planes: seq<seq<real>>, k: nat, side: Side)
    requires k < |positions| && positions[k] == OtherPosition && |positions| == |planes| <= MAX_CHANNELS
    requires !(IsSilent(RawGains(positions, |planes|), Left) && IsSilent(RawGains(positions, |planes|), Right))
    ensures |PositionedGains(positions, |planes|)| == MAX_CHANNELS
    ensures PositionedGains(positions, |planes|)[k].At(side) == 0.0
  {
    var raw := RawGains(positions, |planes|);
    SharedAudible(raw);
    var shared := SharedGains(raw);
    assert raw[k] == SILENT && shared[k] == SILENT;
    OtherSideKept(shared);
    var half := Normalised(shared, Left);
    assert half[k].left == 0.0 / Total(shared, Left);
    ZeroQuotient(Total(shared, Left));
    ZeroQuotient(Total(shared, Right));
  }

  lemma ZeroQuotient(t: real)
    requires t != 0.0
    ensures 0.0 / t == 0.0
  {}
}
