/**
 Clock skew: each node measures its own clock against the store's, and the skew is
 the widest difference of those offsets. Seconds are reals.
 */
module ClockSkew {
  import opened Wrappers

  type Node = string

  const ROUNDING: real := 0.0005
  const SERVER_RESOLUTION: real := 0.000001

  function Abs(x: real): real { if x < 0.0 then -x else x }

  // ------------------------------------------------------------ one measurement

  /** To three decimals, ties to even. */
  function Rounded(x: real): (r: real)
    ensures Abs(r - x) <= ROUNDING
  {
    var scaled := x * 1000.0;
    var below := scaled.Floor;
    var part := scaled - below as real;
    var nearest := if part < 0.5 || (part == 0.5 && below % 2 == 0) then below else below + 1;
    nearest as real / 1000.0
  }

  /** The nearest thousandth, and of two equally near the even one. */
  lemma RoundedExactly(x: real) returns (k: int)
    ensures Rounded(x) == k as real / 1000.0
    ensures Abs(x * 1000.0 - k as real) <= 0.5
    ensures Abs(x * 1000.0 - k as real) == 0.5 ==> k % 2 == 0
  {
    var scaled := x * 1000.0;
    var below := scaled.Floor;
    var part := scaled - below as real;
    k := if part < 0.5 || (part == 0.5 && below % 2 == 0) then below else below + 1;
  }

  /** The reply of the server's TIME command. */
  function ServerTime(seconds: int, micros: int): real {
    seconds as real + micros as real / 1000000.0
  }

  /** The midpoint of the two local readings against the server's answer. */
  function Offset(before: real, after: real, seconds: int, micros: int): real {
    (before + after) / 2.0 - ServerTime(seconds, micros)
  }

  /** The error is at most half the round trip, plus the rounding of the two clocks.
      `answered` is the local time at which the server read its own clock, then
      `offset` behind, and truncated what it read to a microsecond. */
  lemma OffsetIsWithinHalfTheRoundTrip(before: real, answered: real, after: real, offset: real,
                                       seconds: int, micros: int)
    requires before <= answered <= after
    requires var server := seconds as real + micros as real / 1_000_000.0;
             server <= answered - offset < server + 0.000001
    ensures Abs(Rounded(Offset(before, after, seconds, micros)) - offset) <= (after - before) / 2.0 + 0.000501
  {
    var measured := Offset(before, after, seconds, micros);
    assert Abs(measured - offset) <= (after - before) / 2.0 + SERVER_RESOLUTION;
    assert Abs(Rounded(measured) - measured) <= ROUNDING;
  }

  // ------------------------------------------------------------------ the spread

  /** A registry entry's offset field, if it holds a number. */
  type Readings = map<Node, Option<real>>

  /** Counted once each: a member's number, or else its promoter's. */
  function Merged(promoters: Readings, members: Readings): map<Node, real> {
    map n | n in promoters.Keys + members.Keys
            && ((n in members && members[n].Some?) || (n in promoters && promoters[n].Some?))
      :: if n in members && members[n].Some? then members[n].value else promoters[n].value
  }

  /** A member's own number wins; a promoter's counts where the member has none; a node
      with neither is not counted. */
  lemma MemberWins(promoters: Readings, members: Readings, n: Node, x: real)
    ensures n in members && members[n] == Some(x) ==>
              n in Merged(promoters, members) && Merged(promoters, members)[n] == x
    ensures (n in members ==> members[n] == None) && n in promoters && promoters[n] == Some(x) ==>
              n in Merged(promoters, members) && Merged(promoters, members)[n] == x
    ensures (n in members ==> members[n] == None) && (n in promoters ==> promoters[n] == None) ==>
              n !in Merged(promoters, members)
  {
  }

  /** `s` is the widest difference between two of the offsets. */
  predicate IsSpread(offsets: map<Node, real>, s: real) {
    && (exists a, b :: a in offsets && b in offsets && offsets[a] - offsets[b] == s)
    && (forall a, b :: a in offsets && b in offsets ==> offsets[a] - offsets[b] <= s)
  }

  predicate Within(offsets: map<Node, real>, truth: map<Node, real>, error: real) {
    offsets.Keys == truth.Keys && forall n :: n in offsets ==> Abs(offsets[n] - truth[n]) <= error
  }

  lemma SpreadGrowsAtMost(a: map<Node, real>, b: map<Node, real>, error: real, s: real, t: real)
    requires Within(a, b, error) && IsSpread(a, s) && IsSpread(b, t)
    ensures s <= t + 2.0 * error
  {
    var m, n :| m in a && n in a && a[m] - a[n] == s;
    assert b[m] - b[n] <= t;
    assert Abs(a[m] - b[m]) <= error && Abs(a[n] - b[n]) <= error;
  }

  /** The reported skew is within twice the largest single error of the true one. */
  lemma SkewIsWithinTwiceTheError(offsets: map<Node, real>, truth: map<Node, real>, error: real,
                                  reported: real, skew: real)
    requires Within(offsets, truth, error) && IsSpread(offsets, reported) && IsSpread(truth, skew)
    ensures Abs(reported - skew) <= 2.0 * error
  {
    forall n | n in truth ensures Abs(truth[n] - offsets[n]) <= error { assert n in offsets; }
    SpreadGrowsAtMost(offsets, truth, error, reported, skew);
    SpreadGrowsAtMost(truth, offsets, error, skew, reported);
  }

  /** The bound is the best possible: opposite errors do add up. */
  lemma TwiceTheErrorIsReached(a: Node, b: Node, error: real)
    requires a != b && error >= 0.0
    ensures var offsets, truth := map[a := error, b := -error], map[a := 0.0, b := 0.0];
            Within(offsets, truth, error) && IsSpread(offsets, 2.0 * error) && IsSpread(truth, 0.0)
  {
    var offsets, truth := map[a := error, b := -error], map[a := 0.0, b := 0.0];
    assert offsets[a] - offsets[b] == 2.0 * error;
    assert truth[a] - truth[b] == 0.0;
  }

  // ---------------------------------------------------- the skew of measured offsets

  /** One exchange with the store: the two local readings around it, the local time at
      which the server read its own clock, how far the local clock is ahead, and the
      server's answer. */
  datatype Exchange = Exchange(before: real, answered: real, after: real, offset: real, seconds: int, micros: int) {
    predicate Consistent() {
      && before <= answered <= after
      && var server := seconds as real + micros as real / 1_000_000.0;
      && server <= answered - offset < server + SERVER_RESOLUTION
    }

    function Measured(): real { Offset(before, after, seconds, micros) }

    /** What the node itself can bound its error by. */
    function Bound(): real { (after - before) / 2.0 + ROUNDING + SERVER_RESOLUTION }
  }

  function TrueOffsets(exchanges: map<Node, Exchange>): map<Node, real> {
    map n | n in exchanges :: exchanges[n].offset
  }

  /** Every merged reading is what its node measured and rounded. */
  predicate MeasuredBy(offsets: map<Node, real>, exchanges: map<Node, Exchange>) {
    && offsets.Keys == exchanges.Keys
    && forall n :: n in offsets ==> exchanges[n].Consistent() && offsets[n] == Rounded(exchanges[n].Measured())
  }

  lemma MeasuredIsWithin(offsets: map<Node, real>, exchanges: map<Node, Exchange>, error: real)
    requires MeasuredBy(offsets, exchanges)
    requires forall n :: n in exchanges ==> exchanges[n].Bound() <= error
    ensures Within(offsets, TrueOffsets(exchanges), error)
  {
    forall n | n in offsets
      ensures Abs(offsets[n] - exchanges[n].offset) <= error
    {
      var x := exchanges[n];
      OffsetIsWithinHalfTheRoundTrip(x.before, x.answered, x.after, x.offset, x.seconds, x.micros);
      assert x.Bound() <= error;
    }
  }

  /** The skew reported over measured offsets -- a member's reading, or else its
      promoter's -- is within twice the largest single bound of the true one. */
  lemma ReportedSkewIsWithinTwiceTheBound(promoters: Readings, members: Readings, exchanges: map<Node, Exchange>,
                                          error: real, reported: real, skew: real)
    requires MeasuredBy(Merged(promoters, members), exchanges)
    requires forall n :: n in exchanges ==> exchanges[n].Bound() <= error
    requires IsSpread(Merged(promoters, members), reported) && IsSpread(TrueOffsets(exchanges), skew)
    ensures Abs(reported - skew) <= 2.0 * error
  {
    var offsets := Merged(promoters, members);
    MeasuredIsWithin(offsets, exchanges, error);
    SkewIsWithinTwiceTheError(offsets, TrueOffsets(exchanges), error, reported, skew);
  }

  /** How far the midpoint of the local readings is after the server's answer. */
  function Lag(before: real, answered: real, after: real): real {
    (before + after) / 2.0 - answered
  }

  /** Apart from rounding, a measured offset is the true one plus that lag; so the round
      trips cancel in a difference exactly when both answers fall at the same distance
      from their midpoints. */
  lemma RoundTripsCancelExactly(b1: real, a1: real, e1: real, o1: real, b2: real, a2: real, e2: real, o2: real)
    ensures var measured1, measured2 := (b1 + e1) / 2.0 - (a1 - o1), (b2 + e2) / 2.0 - (a2 - o2);
            && (measured1 - measured2) - (o1 - o2) == Lag(b1, a1, e1) - Lag(b2, a2, e2)
            && (measured1 - measured2 == o1 - o2 <==> Lag(b1, a1, e1) == Lag(b2, a2, e2))
  {
  }

  /** The error in a difference, whatever the instants of the two answers. */
  ghost predicate AlwaysWithin(b1: real, e1: real, b2: real, e2: real, bound: real) {
    forall a1, a2 :: b1 <= a1 <= e1 && b2 <= a2 <= e2 ==> WithinAt(b1, a1, e1, b2, a2, e2, bound)
  }

  predicate WithinAt(b1: real, a1: real, e1: real, b2: real, a2: real, e2: real, bound: real) {
    Abs(Lag(b1, a1, e1) - Lag(b2, a2, e2)) <= bound
  }

  /** What two nodes can rely on, from their own round trips: the error is within a
      bound wherever the answers fall if and only if half the sum of the round trips is.
      Nothing of them cancels for certain. */
  lemma GuaranteedExactly(b1: real, e1: real, b2: real, e2: real, bound: real)
    requires b1 <= e1 && b2 <= e2
    ensures AlwaysWithin(b1, e1, b2, e2, bound) <==> (e1 - b1 + e2 - b2) / 2.0 <= bound
  {
    if AlwaysWithin(b1, e1, b2, e2, bound) {
      assert WithinAt(b1, b1, e1, b2, e2, e2, bound);
    }
  }

  lemma FloorOfWhole(m: int)
    ensures (m as real).Floor == m
  {
  }

  lemma WholeSecondsRoundToThemselves(k: int)
    ensures Rounded(k as real) == k as real
  {
    var m := 1000 * k;
    assert (k as real) * 1000.0 == m as real;
    FloorOfWhole(m);
    assert (m as real) / 1000.0 == k as real;
  }

  /** A round trip of `2 * k` seconds on a perfect clock, answered at once. */
  function Early(k: int): Exchange { Exchange(0.0, 0.0, 2.0 * k as real, 0.0, 0, 0) }

  /** The same, answered at the last moment. */
  function Late(k: int): Exchange { Exchange(0.0, 2.0 * k as real, 2.0 * k as real, 0.0, 2 * k, 0) }

  lemma EarlyAndLate(k: int)
    requires k >= 0
    ensures Early(k).Consistent() && Late(k).Consistent()
    ensures Rounded(Early(k).Measured()) == k as real && Rounded(Late(k).Measured()) == -(k as real)
  {
    assert ServerTime(2 * k, 0) == 2.0 * k as real && ServerTime(0, 0) == 0.0;
    WholeSecondsRoundToThemselves(k);
    WholeSecondsRoundToThemselves(-k);
    assert (-k) as real == -(k as real);
  }

  lemma MeasuredOfTwo(a: Node, b: Node, x: Exchange, y: Exchange)
    requires a != b && x.Consistent() && y.Consistent()
    ensures MeasuredBy(map[a := Rounded(x.Measured()), b := Rounded(y.Measured())], map[a := x, b := y])
    ensures TrueOffsets(map[a := x, b := y]) == map[a := x.offset, b := y.offset]
  {
  }

  /** Two clocks in perfect agreement, measured over round trips of `2 * k` seconds, one
      answered at once and the other at the last moment: the skew reported is `2 * k`. */
  lemma AgreeingClocksMayReportASkew(a: Node, b: Node, k: int)
    requires a != b && k >= 0
    ensures MeasuredBy(map[a := k as real, b := -(k as real)], map[a := Early(k), b := Late(k)])
    ensures IsSpread(map[a := k as real, b := -(k as real)], 2.0 * k as real)
    ensures IsSpread(TrueOffsets(map[a := Early(k), b := Late(k)]), 0.0)
  {
    EarlyAndLate(k);
    MeasuredOfTwo(a, b, Early(k), Late(k));
    TwiceTheErrorIsReached(a, b, k as real);
  }

  // ---------------------------------------------------------- the implementation

  /** One source of readings laid over what was seen before. */
  function Overlay(seen: map<Node, real>, source: Readings, nodes: set<Node>): map<Node, real>
    requires nodes <= source.Keys
  {
    seen + map n | n in nodes && source[n].Some? :: source[n].value
  }

  lemma OverlayStep(seen: map<Node, real>, source: Readings, nodes: set<Node>, n: Node)
    requires nodes <= source.Keys && n in source
    ensures var before := Overlay(seen, source, nodes);
            Overlay(seen, source, nodes + {n}) == if source[n].Some? then before[n := source[n].value] else before
  {
  }

  method Collect(seen: map<Node, real>, source: Readings) returns (r: map<Node, real>)
    ensures r == Overlay(seen, source, source.Keys)
  {
    r := seen;
    var todo := source.Keys;
    while todo != {}
      invariant todo <= source.Keys
      invariant r == Overlay(seen, source, source.Keys - todo)
    {
      var n :| n in todo;
      OverlayStep(seen, source, source.Keys - todo, n);
      assert source.Keys - (todo - {n}) == (source.Keys - todo) + {n};
      if source[n].Some? {
        r := r[n := source[n].value];
      }
      todo := todo - {n};
    }
  }

  method MaxAndMin(offsets: map<Node, real>) returns (highest: real, lowest: real)
    requires offsets != map[]
    ensures (exists n :: n in offsets && offsets[n] == highest) && (exists n :: n in offsets && offsets[n] == lowest)
    ensures forall n :: n in offsets ==> lowest <= offsets[n] <= highest
  {
    var first :| first in offsets;
    highest, lowest := offsets[first], offsets[first];
    var todo := offsets.Keys;
    while todo != {}
      invariant todo <= offsets.Keys
      invariant exists n :: n in offsets && offsets[n] == highest
      invariant exists n :: n in offsets && offsets[n] == lowest
      invariant forall n :: n in offsets && n !in todo ==> lowest <= offsets[n] <= highest
    {
      var n :| n in todo;
      if offsets[n] > highest {
        highest := offsets[n];
      }
      if offsets[n] < lowest {
        lowest := offsets[n];
      }
      todo := todo - {n};
    }
  }

  lemma OverlaidIsMerged(promoters: Readings, members: Readings)
    ensures Overlay(Overlay(map[], promoters, promoters.Keys), members, members.Keys) == Merged(promoters, members)
  {
  }

  lemma HighestLessLowestIsTheSpread(offsets: map<Node, real>, highest: real, lowest: real)
    requires (exists n :: n in offsets && offsets[n] == highest) && (exists n :: n in offsets && offsets[n] == lowest)
    requires forall n :: n in offsets ==> lowest <= offsets[n] <= highest
    ensures IsSpread(offsets, highest - lowest)
  {
    var a :| a in offsets && offsets[a] == highest;
    var b :| b in offsets && offsets[b] == lowest;
    assert offsets[a] - offsets[b] == highest - lowest;
  }

  /** None below two nodes: skew is a property of a pair. */
  method Skew(promoters: Readings, members: Readings) returns (skew: Option<real>)
    ensures skew == None <==> |Merged(promoters, members)| < 2
    ensures skew.Some? ==> IsSpread(Merged(promoters, members), skew.value)
  {
    var seen := Collect(map[], promoters);
    seen := Collect(seen, members);
    OverlaidIsMerged(promoters, members);
    if |seen| < 2 {
      return None;
    }
    var highest, lowest := MaxAndMin(seen);
    HighestLessLowestIsTheSpread(seen, highest, lowest);
    skew := Some(highest - lowest);
  }
}
