// The weighted round robin of the load balancer: an incremental scan over two variables, the
// server last chosen and the current weight level, that realises a periodic schedule.
module WeightedRoundRobin {
  import opened Modular

  // One selection: the server, and the weight level at which it was chosen.
  datatype Slot = Slot(server: nat, level: int)

  // ------------------------------------------------------------------ greatest common divisor

  function Abs(x: int): nat {
    if x < 0 then -x else x
  }

  predicate Divides(d: nat, x: int) {
    if d == 0 then x == 0 else x % d == 0
  }

  // std::gcd, which works on absolute values and gives 0 only for two zeros.
  function Gcd(a: nat, b: nat): nat
    decreases b
  {
    if b == 0 then a else Gcd(b, a % b)
  }

  lemma {:induction false} DividesTimes(d: nat, k: int)
    ensures Divides(d, d * k)
  {
    if d > 0 {
      ModUnique(d * k, k, 0, d);
    }
  }

  lemma {:induction false} DividesMeansTimes(d: nat, x: int) returns (k: int)
    requires Divides(d, x)
    ensures x == d * k
  {
    k := if d == 0 then 0 else x / d;
  }

  lemma {:induction false} DividesCombination(d: nat, x: int, y: int, q: int)
    requires Divides(d, x) && Divides(d, y)
    ensures Divides(d, x + q * y)
  {
    var k := DividesMeansTimes(d, x);
    var l := DividesMeansTimes(d, y);
    assert x + q * y == d * (k + q * l) by {
      assert q * (d * l) == d * (q * l);
      assert d * (k + q * l) == d * k + d * (q * l);
    }
    DividesTimes(d, k + q * l);
  }

  lemma {:induction false} DividesTransitive(d: nat, e: nat, x: int)
    requires Divides(d, e) && Divides(e, x)
    ensures Divides(d, x)
  {
    var k := DividesMeansTimes(d, e);
    var l := DividesMeansTimes(e, x);
    assert (d * k) * l == d * (k * l);
    DividesTimes(d, k * l);
  }

  lemma {:induction false} GcdDivides(a: nat, b: nat)
    ensures Divides(Gcd(a, b), a) && Divides(Gcd(a, b), b)
    decreases b
  {
    if b == 0 {
      DividesTimes(a, 1);
    } else {
      var q := a / b;
      assert a == a % b + q * b;
      GcdDivides(b, a % b);
      DividesCombination(Gcd(a, b), a % b, b, q);
    }
  }

  lemma {:induction false} GcdIsGreatest(a: nat, b: nat, d: nat)
    requires Divides(d, a) && Divides(d, b)
    ensures Divides(d, Gcd(a, b))
    decreases b
  {
    if b > 0 {
      var q := a / b;
      assert a % b == a + (0 - q) * b;
      DividesCombination(d, a, b, 0 - q);
      GcdIsGreatest(b, a % b, d);
    }
  }

  lemma {:induction false} DividesAbs(d: nat, x: int)
    ensures Divides(d, Abs(x)) <==> Divides(d, x)
  {
    if Divides(d, x) {
      DividesCombination(d, 0, x, -1);
    }
    if Divides(d, Abs(x)) {
      DividesCombination(d, 0, Abs(x), -1);
    }
  }

  // g divides every weight, and every common divisor divides g. This fixes g.
  ghost predicate IsGcdOf(g: nat, weights: seq<int>) {
    && (forall i :: 0 <= i < |weights| ==> Divides(g, weights[i]))
    && (forall d: nat :: (forall i :: 0 <= i < |weights| ==> Divides(d, weights[i])) ==> Divides(d, g))
  }

  ghost predicate IsMaxOf(m: int, weights: seq<int>) {
    m in weights && forall i :: 0 <= i < |weights| ==> weights[i] <= m
  }

  lemma {:induction false} GcdOfOne(x: int)
    ensures IsGcdOf(Abs(x), [x])
  {
    DividesTimes(Abs(x), 1);
    DividesAbs(Abs(x), x);
    forall d: nat | forall i :: 0 <= i < |[x]| ==> Divides(d, [x][i])
      ensures Divides(d, Abs(x))
    {
      assert Divides(d, [x][0]);
      DividesAbs(d, x);
    }
  }

  lemma {:induction false} GcdOfMore(g: nat, weights: seq<int>, x: int)
    requires IsGcdOf(g, weights)
    ensures IsGcdOf(Gcd(g, Abs(x)), weights + [x])
    ensures IsGcdOf(Gcd(Abs(x), g), weights + [x])
  {
    forall h: nat | h == Gcd(g, Abs(x)) || h == Gcd(Abs(x), g)
      ensures IsGcdOf(h, weights + [x])
    {
      GcdDivides(g, Abs(x));
      GcdDivides(Abs(x), g);
      DividesAbs(h, x);
      forall i | 0 <= i < |weights| + 1
        ensures Divides(h, (weights + [x])[i])
      {
        if i < |weights| {
          DividesTransitive(h, g, weights[i]);
        }
      }
      forall d: nat | forall i :: 0 <= i < |weights + [x]| ==> Divides(d, (weights + [x])[i])
        ensures Divides(d, h)
      {
        forall i | 0 <= i < |weights|
          ensures Divides(d, weights[i])
        {
          assert (weights + [x])[i] == weights[i];
        }
        assert (weights + [x])[|weights|] == x;
        DividesAbs(d, x);
        GcdIsGreatest(g, Abs(x), d);
        GcdIsGreatest(Abs(x), g, d);
      }
    }
  }

  lemma {:induction false} DivisorIsSmaller(d: nat, x: nat)
    requires Divides(d, x)
    ensures d <= x || x == 0
  {
    var k := DividesMeansTimes(d, x);
    TimesMonotone(d, 1, k);
    TimesMonotone(d, k, 0);
  }

  lemma {:induction false} GcdIsUnique(g: nat, h: nat, weights: seq<int>)
    requires IsGcdOf(g, weights) && IsGcdOf(h, weights)
    ensures g == h
  {
    assert Divides(g, h) && Divides(h, g);
    DivisorIsSmaller(g, h);
    DivisorIsSmaller(h, g);
  }

  // ------------------------------------------------------------------ the schedule

  // The servers of one level, in order, from server i on.
  function Row(weights: seq<int>, level: int, i: nat): seq<Slot>
    requires i <= |weights|
    decreases |weights| - i
  {
    if i == |weights| then []
    else (if weights[i] >= level then [Slot(i, level)] else []) + Row(weights, level, i + 1)
  }

  // What is left of a period from server i of a level on: the rest of the row, then the rows of
  // the lower positive levels.
  function Rest(weights: seq<int>, gcd: nat, level: int, i: nat): seq<Slot>
    requires i <= |weights|
    decreases if gcd > 0 && level > 0 then level else 0
  {
    Row(weights, level, i) + if gcd > 0 && level - gcd > 0 then Rest(weights, gcd, level - gcd, 0) else []
  }

  // One period: the rows of the levels max, max - gcd, ..., down to the last positive one. When
  // the largest weight is 0 there is no such level: server 0 is taken, then the others of weight 0.
  function Period(weights: seq<int>, gcd: nat, max: int): seq<Slot>
    requires weights != []
  {
    if max == 0 then [Slot(0, 0)] + Row(weights, 0, 1) else Rest(weights, gcd, max, 0)
  }

  lemma {:induction false} RowIsOccupied(weights: seq<int>, level: int, i: nat, m: nat)
    requires i <= m < |weights| && weights[m] >= level
    ensures Row(weights, level, i) != []
    decreases m - i
  {
    if i < m {
      RowIsOccupied(weights, level, i + 1, m);
    }
  }

  lemma {:induction false} PeriodIsOccupied(weights: seq<int>, gcd: nat, max: int)
    requires weights != [] && IsMaxOf(max, weights)
    ensures Period(weights, gcd, max) != []
  {
    if max != 0 {
      var m :| 0 <= m < |weights| && weights[m] == max;
      RowIsOccupied(weights, max, 0, m);
    }
  }

  lemma {:induction false} RestUnrolls(weights: seq<int>, gcd: nat, level: int, i: nat)
    requires i < |weights|
    ensures weights[i] >= level ==>
              Rest(weights, gcd, level, i) == [Slot(i, level)] + Rest(weights, gcd, level, i + 1)
    ensures weights[i] < level ==> Rest(weights, gcd, level, i) == Rest(weights, gcd, level, i + 1)
  {
    var below := if gcd > 0 && level - gcd > 0 then Rest(weights, gcd, level - gcd, 0) else [];
    var row := Row(weights, level, i + 1);
    assert Rest(weights, gcd, level, i + 1) == row + below;
    if weights[i] >= level {
      assert ([Slot(i, level)] + row) + below == [Slot(i, level)] + (row + below);
    } else {
      assert [] + row == row;
    }
  }

  // What the scan will meet from server i of a level on is the schedule from place p on: a server
  // whose weight reaches the level is the next selection, the others are passed, and the end of
  // the lowest level is the end of the schedule.
  ghost predicate Ahead(weights: seq<int>, gcd: nat, schedule: seq<Slot>, p: nat, level: int, i: nat)
    requires i <= |weights|
    decreases if gcd > 0 && level > 0 then level else 0, |weights| - i
  {
    if i == |weights| then
      if gcd > 0 && level - gcd > 0 then Ahead(weights, gcd, schedule, p, level - gcd, 0) else p == |schedule|
    else if weights[i] >= level then
      p < |schedule| && schedule[p] == Slot(i, level) && Ahead(weights, gcd, schedule, p + 1, level, i + 1)
    else
      Ahead(weights, gcd, schedule, p, level, i + 1)
  }

  lemma {:induction false} RestIsAhead(weights: seq<int>, gcd: nat, schedule: seq<Slot>, p: nat, level: int, i: nat)
    requires i <= |weights| && p <= |schedule| && schedule[p..] == Rest(weights, gcd, level, i)
    ensures Ahead(weights, gcd, schedule, p, level, i)
    decreases if gcd > 0 && level > 0 then level else 0, |weights| - i
  {
    if i == |weights| {
      if gcd > 0 && level - gcd > 0 {
        RestIsAhead(weights, gcd, schedule, p, level - gcd, 0);
      }
    } else {
      RestUnrolls(weights, gcd, level, i);
      if weights[i] >= level {
        DropFirst(schedule, p, Slot(i, level), Rest(weights, gcd, level, i + 1));
        RestIsAhead(weights, gcd, schedule, p + 1, level, i + 1);
      } else {
        RestIsAhead(weights, gcd, schedule, p, level, i + 1);
      }
    }
  }

  lemma {:induction false} DropFirst<T>(s: seq<T>, p: nat, x: T, tail: seq<T>)
    requires p <= |s| && s[p..] == [x] + tail
    ensures p < |s| && s[p] == x && s[p + 1..] == tail
  {
    assert s[p] == s[p..][0] && |s[p..]| == 1 + |tail|;
    assert s[p + 1..] == s[p..][1..];
  }

  // The schedule that a scan is to follow, as it meets it at the start of a period.
  ghost predicate Scheduled(weights: seq<int>, gcd: nat, max: int, schedule: seq<Slot>) {
    && weights != [] && schedule != []
    && if max == 0 then schedule[0] == Slot(0, 0) && Ahead(weights, gcd, schedule, 1, 0, 1)
       else Ahead(weights, gcd, schedule, 0, max, 0)
  }

  lemma {:induction false} PeriodIsScheduled(weights: seq<int>, gcd: nat, max: int)
    requires weights != [] && IsMaxOf(max, weights)
    ensures Scheduled(weights, gcd, max, Period(weights, gcd, max))
  {
    PeriodIsOccupied(weights, gcd, max);
    var period := Period(weights, gcd, max);
    if max == 0 {
      assert Rest(weights, gcd, 0, 1) == Row(weights, 0, 1);
      assert period[1..] == Row(weights, 0, 1);
      RestIsAhead(weights, gcd, period, 1, 0, 1);
    } else {
      assert period[0..] == period;
      RestIsAhead(weights, gcd, period, 0, max, 0);
    }
  }

  // ------------------------------------------------------------------ shares

  function Occurrences(slots: seq<Slot>, server: nat): nat {
    if slots == [] then 0
    else (if slots[0].server == server then 1 else 0) + Occurrences(slots[1..], server)
  }

  lemma {:induction false} OccurrencesConcat(a: seq<Slot>, b: seq<Slot>, server: nat)
    ensures Occurrences(a + b, server) == Occurrences(a, server) + Occurrences(b, server)
  {
    if a == [] {
      assert a + b == b;
    } else {
      OccurrencesConcat(a[1..], b, server);
      assert (a + b)[1..] == a[1..] + b;
    }
  }

  lemma {:induction false} OccurrencesInRow(weights: seq<int>, level: int, i: nat, server: nat)
    requires i <= |weights| && server < |weights|
    ensures Occurrences(Row(weights, level, i), server) ==
            if i <= server && weights[server] >= level then 1 else 0
    decreases |weights| - i
  {
    if i < |weights| {
      OccurrencesInRow(weights, level, i + 1, server);
      var here := if weights[i] >= level then [Slot(i, level)] else [];
      OccurrencesConcat(here, Row(weights, level, i + 1), server);
    }
  }

  function Clip(x: int, level: int): int {
    if x < 0 then 0 else if x < level then x else level
  }

  // One level more adds one selection to every server whose weight reaches it.
  lemma {:induction false} OneLevelMore(x: int, gcd: nat, level: int)
    requires gcd > 0 && level > 0 && Divides(gcd, x) && Divides(gcd, level)
    ensures level >= gcd
    ensures Clip(x, level) / gcd == (if x >= level then 1 else 0) + Clip(x, level - gcd) / gcd
  {
    var k := DividesMeansTimes(gcd, x);
    var l := DividesMeansTimes(gcd, level);
    TimesMonotone(gcd, l, 0);
    TimesMonotone(gcd, 1, l);
    TimesMonotone(gcd, l, k);
    TimesMonotone(gcd, k, l - 1);
    assert gcd * (l - 1) == level - gcd;
    assert x >= level <==> k >= l;
    if x >= level {
      ModUnique(level, l, 0, gcd);
      ModUnique(level - gcd, l - 1, 0, gcd);
    }
  }

  lemma {:induction false} OccurrencesInRest(weights: seq<int>, gcd: nat, level: int, server: nat)
    requires server < |weights| && gcd > 0 && level > 0
    requires Divides(gcd, level) && Divides(gcd, weights[server])
    ensures Occurrences(Rest(weights, gcd, level, 0), server) == Clip(weights[server], level) / gcd
    decreases level
  {
    OccurrencesInRow(weights, level, 0, server);
    OneLevelMore(weights[server], gcd, level);
    if level - gcd > 0 {
      DividesTimes(gcd, 1);
      DividesCombination(gcd, level, gcd, -1);
      OccurrencesInRest(weights, gcd, level - gcd, server);
      OccurrencesConcat(Row(weights, level, 0), Rest(weights, gcd, level - gcd, 0), server);
    } else {
      assert Rest(weights, gcd, level, 0) == Row(weights, level, 0);
    }
  }

  // Every server is chosen weight / gcd times in a period.
  lemma {:induction false} ShareOfServer(weights: seq<int>, gcd: nat, max: int, server: nat)
    requires server < |weights| && IsGcdOf(gcd, weights) && IsMaxOf(max, weights) && max > 0
    ensures gcd > 0
    ensures Occurrences(Period(weights, gcd, max), server) ==
            if weights[server] < 0 then 0 else weights[server] / gcd
  {
    var m :| 0 <= m < |weights| && weights[m] == max;
    assert Divides(gcd, weights[m]);
    OccurrencesInRest(weights, gcd, max, server);
  }

  // The sum of the shares of the first n servers.
  function Shares(weights: seq<int>, gcd: nat, level: int, n: nat): int
    requires n <= |weights| && gcd > 0
  {
    if n == 0 then 0 else Shares(weights, gcd, level, n - 1) + Clip(weights[n - 1], level) / gcd
  }

  function Reaching(weights: seq<int>, level: int, n: nat): nat
    requires n <= |weights|
  {
    if n == 0 then 0 else Reaching(weights, level, n - 1) + if weights[n - 1] >= level then 1 else 0
  }

  lemma {:induction false} RowLength(weights: seq<int>, level: int, i: nat)
    requires i <= |weights|
    ensures |Row(weights, level, i)| == Reaching(weights, level, |weights|) - Reaching(weights, level, i)
    decreases |weights| - i
  {
    if i < |weights| {
      RowLength(weights, level, i + 1);
    }
  }

  lemma {:induction false} SharesOfLevel(weights: seq<int>, gcd: nat, level: int, n: nat)
    requires n <= |weights| && gcd > 0 && level > 0 && Divides(gcd, level)
    requires forall i :: 0 <= i < |weights| ==> Divides(gcd, weights[i])
    ensures Shares(weights, gcd, level, n) == Reaching(weights, level, n) + Shares(weights, gcd, level - gcd, n)
  {
    if n > 0 {
      SharesOfLevel(weights, gcd, level, n - 1);
      OneLevelMore(weights[n - 1], gcd, level);
    }
  }

  lemma {:induction false} SharesOfNothing(weights: seq<int>, gcd: nat, n: nat)
    requires n <= |weights| && gcd > 0
    ensures Shares(weights, gcd, 0, n) == 0
  {
    if n > 0 {
      SharesOfNothing(weights, gcd, n - 1);
    }
  }

  lemma {:induction false} RestLength(weights: seq<int>, gcd: nat, level: int)
    requires gcd > 0 && level > 0 && Divides(gcd, level)
    requires forall i :: 0 <= i < |weights| ==> Divides(gcd, weights[i])
    ensures |Rest(weights, gcd, level, 0)| == Shares(weights, gcd, level, |weights|)
    decreases level
  {
    RowLength(weights, level, 0);
    SharesOfLevel(weights, gcd, level, |weights|);
    DividesTimes(gcd, 1);
    DividesCombination(gcd, level, gcd, -1);
    if level - gcd > 0 {
      RestLength(weights, gcd, level - gcd);
    } else {
      OneLevelMore(0, gcd, level);
      SharesOfNothing(weights, gcd, |weights|);
    }
  }

  function Sum(weights: seq<int>, n: nat): int
    requires n <= |weights|
  {
    if n == 0 then 0 else Sum(weights, n - 1) + weights[n - 1]
  }

  lemma {:induction false} SharesOfSum(weights: seq<int>, gcd: nat, max: int, n: nat)
    requires n <= |weights| && gcd > 0
    requires forall i :: 0 <= i < |weights| ==> 0 <= weights[i] <= max && Divides(gcd, weights[i])
    ensures Sum(weights, n) == gcd * Shares(weights, gcd, max, n)
  {
    if n > 0 {
      SharesOfSum(weights, gcd, max, n - 1);
      var k := DividesMeansTimes(gcd, weights[n - 1]);
      ModUnique(weights[n - 1], k, 0, gcd);
      var s := Shares(weights, gcd, max, n - 1);
      assert gcd * (s + k) == gcd * s + gcd * k;
    }
  }

  // A period is sum / gcd selections long.
  lemma {:induction false} PeriodLength(weights: seq<int>, gcd: nat, max: int)
    requires weights != [] && IsGcdOf(gcd, weights) && IsMaxOf(max, weights) && max > 0
    requires forall i :: 0 <= i < |weights| ==> weights[i] >= 0
    ensures gcd > 0
    ensures Divides(gcd, Sum(weights, |weights|))
    ensures |Period(weights, gcd, max)| == Sum(weights, |weights|) / gcd
  {
    var m :| 0 <= m < |weights| && weights[m] == max;
    assert Divides(gcd, weights[m]);
    RestLength(weights, gcd, max);
    SharesOfSum(weights, gcd, max, |weights|);
    ModUnique(Sum(weights, |weights|), Shares(weights, gcd, max, |weights|), 0, gcd);
  }

  // ------------------------------------------------------------------ the balancer

  lemma {:induction false} GcdOfPositive(weights: seq<int>, gcd: nat, max: int)
    requires weights != [] && IsGcdOf(gcd, weights) && IsMaxOf(max, weights)
    ensures gcd == 0 ==> max == 0
  {
    var m :| 0 <= m < |weights| && weights[m] == max;
    assert Divides(gcd, weights[m]);
  }

  function NextIndex(i: int, n: nat): (next: nat)
    requires -1 <= i < n && n > 0
    ensures next == if i + 1 == n then 0 else i + 1
  {
    (i + 1) % n
  }

  // The scan stands at a server and a level, with the schedule from place p on before it. Before
  // the first selection it stands at -1, as at the end of a period.
  ghost predicate Standing(weights: seq<int>, gcd: nat, max: int, schedule: seq<Slot>, current: int, level: int, p: nat) {
    && -1 <= current < |weights|
    && (current == -1 ==> level == 0 && p == |schedule|)
    && (current >= 0 ==> level <= max && p <= |schedule| && Ahead(weights, gcd, schedule, p, level, current + 1))
  }

  lemma {:induction false} NextPlace(k: nat, n: nat)
    requires n > 0
    ensures (if (k + 1) % n == 0 then n else (k + 1) % n) == k % n + 1
  {
    assert k == (k / n) * n + k % n;
    if k % n + 1 < n {
      ModUnique(k + 1, k / n, k % n + 1, n);
    } else {
      assert (k / n + 1) * n == (k / n) * n + n;
      ModUnique(k + 1, k / n + 1, 0, n);
    }
  }

  ghost function MaxServer(weights: seq<int>, max: int): (m: nat)
    requires IsMaxOf(max, weights)
    ensures m < |weights| && weights[m] == max
  {
    var m :| 0 <= m < |weights| && weights[m] == max;
    m
  }

  class Balancer {
    const weights: seq<int>
    const maxGcd: nat
    const maxWeight: int
    var wrrCurrent: int
    var weightCurrent: int
    // One period of selections, and where in it the scan stands: at its end, |schedule|, before the
    // first selection and after every whole period.
    ghost const schedule: seq<Slot>
    ghost var place: nat
    ghost var picks: nat

    ghost predicate Valid()
      reads this
    {
      && weights != []
      && IsGcdOf(maxGcd, weights)
      && IsMaxOf(maxWeight, weights)
      && (maxGcd == 0 ==> maxWeight == 0)
      && schedule == Period(weights, maxGcd, maxWeight)
      && Scheduled(weights, maxGcd, maxWeight, schedule)
      && Standing(weights, maxGcd, maxWeight, schedule, wrrCurrent, weightCurrent, place)
      && place == if picks % |schedule| == 0 then |schedule| else picks % |schedule|
    }

    constructor (weights: seq<int>)
      requires weights != []
      ensures Valid() && picks == 0 && this.weights == weights
    {
      var g := GetMaxWeightGcd(weights);
      var m := GetMaxWeight(weights);
      this.weights, maxGcd, maxWeight := weights, g, m;
      wrrCurrent, weightCurrent := -1, 0;
      schedule, place, picks := Period(weights, g, m), |Period(weights, g, m)|, 0;
      GcdOfPositive(weights, g, m);
      PeriodIsScheduled(weights, g, m);
    }

    // The step of the scan to the next server, and at server 0 to the next level; `none` when no
    // server has a positive weight.
    method Advance() returns (none: bool)
      requires weights != [] && (maxGcd == 0 ==> maxWeight == 0)
      requires Scheduled(weights, maxGcd, maxWeight, schedule)
      requires Standing(weights, maxGcd, maxWeight, schedule, wrrCurrent, weightCurrent, place)
      modifies `wrrCurrent, `weightCurrent, `place
      ensures wrrCurrent == if old(wrrCurrent) + 1 == |weights| then 0 else old(wrrCurrent) + 1
      ensures weightCurrent <= maxWeight
      ensures place == old(place) || (old(place) == |schedule| && place == 0)
      ensures none <==> maxWeight == 0 && wrrCurrent == 0 && place == 0
      ensures none ==> schedule[0] == Slot(wrrCurrent, weightCurrent) && Ahead(weights, maxGcd, schedule, 1, weightCurrent, 1)
      ensures !none ==> Ahead(weights, maxGcd, schedule, place, weightCurrent, wrrCurrent)
    {
      none := false;
      wrrCurrent := NextIndex(wrrCurrent, |weights|);
      if wrrCurrent == 0 {
        weightCurrent := weightCurrent - maxGcd;
        if weightCurrent <= 0 {
          weightCurrent := maxWeight;
          none, place := weightCurrent == 0, 0;
        }
      }
    }

    // The scan. It gives -1 when no server has a positive weight and the scan comes round to
    // server 0; otherwise the server that the schedule has next.
    method SelectHostWithWeightRoundRobin() returns (selected: int, ghost scanned: nat)
      requires IsMaxOf(maxWeight, weights) && (maxGcd == 0 ==> maxWeight == 0)
      requires Scheduled(weights, maxGcd, maxWeight, schedule)
      requires Standing(weights, maxGcd, maxWeight, schedule, wrrCurrent, weightCurrent, place)
      modifies `wrrCurrent, `weightCurrent, `place
      ensures scanned <= |weights|
      ensures Standing(weights, maxGcd, maxWeight, schedule, wrrCurrent, weightCurrent, place)
      ensures place == if old(place) == |schedule| then 1 else old(place) + 1
      ensures wrrCurrent >= 0 && schedule[place - 1] == Slot(wrrCurrent, weightCurrent)
      ensures selected == if maxWeight == 0 && place == 1 then -1 else wrrCurrent
    {
      ghost var start, from, wrapped, best := wrrCurrent, place, false, MaxServer(weights, maxWeight);
      scanned := 0;
      while true
        invariant Standing(weights, maxGcd, maxWeight, schedule, wrrCurrent, weightCurrent, place)
        invariant place == from || (from == |schedule| && place == 0)
        invariant scanned == (if wrapped then |weights| else 0) + wrrCurrent - start
        invariant if wrapped then 0 <= wrrCurrent < best <= start else start <= wrrCurrent && !(start < best <= wrrCurrent)
        decreases |weights| - scanned
      {
        scanned := scanned + 1;
        wrapped := wrapped || wrrCurrent + 1 == |weights|;
        var none := Advance();
        if none {
          place := 1;
          return -1, scanned;
        }
        if weights[wrrCurrent] >= weightCurrent {
          place := place + 1;
          return wrrCurrent, scanned;
        }
        assert wrrCurrent != best;
      }
    }

    // The next server: selection number k is element k mod |schedule| of the schedule.
    method Next() returns (selected: nat, ghost scanned: nat)
      requires Valid()
      modifies this
      ensures Valid() && picks == old(picks) + 1
      ensures selected < |weights| && selected == schedule[old(picks) % |schedule|].server
      ensures scanned <= |weights|
    {
      var choice;
      choice, scanned := SelectHostWithWeightRoundRobin();
      if choice == -1 {
        choice := 0;
      }
      wrrCurrent := choice;
      NextPlace(picks, |schedule|);
      picks := picks + 1;
      selected := choice;
    }

    static method GetMaxWeightGcd(weights: seq<int>) returns (res: nat)
      requires weights != []
      ensures IsGcdOf(res, weights)
    {
      var r := weights[0];
      for i := 0 to |weights|
        invariant i == 0 ==> r == weights[0]
        invariant i > 0 ==> r >= 0 && IsGcdOf(r, weights[..i])
      {
        var curMax := if r < weights[i] then weights[i] else r;
        var curMin := if weights[i] < r then weights[i] else r;
        assert weights[..i + 1] == weights[..i] + [weights[i]];
        if i == 0 {
          GcdOfOne(weights[0]);
          GcdOfMore(Abs(weights[0]), [weights[0]], weights[0]);
          SameGcd(Gcd(Abs(curMax), Abs(curMin)), weights[0]);
          assert weights[..1] == [weights[0]];
        } else {
          GcdOfMore(r, weights[..i], weights[i]);
        }
        r := Gcd(Abs(curMax), Abs(curMin));
      }
      assert weights[..|weights|] == weights;
      res := r;
    }

    static method GetMaxWeight(weights: seq<int>) returns (max: int)
      requires weights != []
      ensures IsMaxOf(max, weights)
    {
      max := weights[0];
      for i := 1 to |weights|
        invariant max in weights
        invariant forall j :: 0 <= j < i ==> weights[j] <= max
      {
        if max < weights[i] {
          max := weights[i];
        }
      }
    }
  }

  lemma {:induction false} SameGcd(g: nat, x: int)
    requires IsGcdOf(g, [x] + [x])
    ensures IsGcdOf(g, [x])
  {
    assert ([x] + [x])[0] == x;
    forall d: nat | forall i :: 0 <= i < |[x]| ==> Divides(d, [x][i])
      ensures Divides(d, g)
    {
      assert Divides(d, [x][0]);
      assert forall i :: 0 <= i < |[x] + [x]| ==> Divides(d, ([x] + [x])[i]);
    }
  }
}
