/** The call quality history of a device and its running averages (sccp_actions.c, sccp_cli.c). */
module CallHistory {

  const HISTORY_SIZE: nat := 20
  /** The counters are 32 bits wide. */
  const WRAP: nat := 0x1_0000_0000

  /** The integers of sccp_call_quality_t. */
  datatype Quality = Quality(ended: nat, callid: nat, sent: nat, received: nat, lost: nat, jitter: nat, latency: nat,
                             concealed: nat, severelyConcealed: nat)

  /** The statistics that are averaged as integers. */
  datatype Statistic = Sent | Received | Lost | Jitter | Latency | Concealed | SeverelyConcealed

  function Value(q: Quality, s: Statistic): nat {
    match s
    case Sent => q.sent
    case Received => q.received
    case Lost => q.lost
    case Jitter => q.jitter
    case Latency => q.latency
    case Concealed => q.concealed
    case SeverelyConcealed => q.severelyConcealed
  }

  // ---------------------------------------------------------------- integer running averages

  /** CALC_AVG in 32-bit arithmetic: the product and the sum wrap. */
  function CalcAvg(value: nat, mean: nat, num: nat): nat {
    ((mean * num + value) % WRAP) / (num + 1)
  }

  /** The stored average after the calls. */
  function Average(xs: seq<nat>): nat
    decreases |xs|
  {
    if xs == [] then 0 else CalcAvg(xs[|xs| - 1], Average(xs[..|xs| - 1]), |xs| - 1)
  }

  function Sum(xs: seq<nat>): nat
    decreases |xs|
  {
    if xs == [] then 0 else Sum(xs[..|xs| - 1]) + xs[|xs| - 1]
  }

  /** No product and no sum of CALC_AVG passed 32 bits so far. */
  predicate NoOverflow(xs: seq<nat>)
    decreases |xs|
  {
    xs == [] ||
    var k := |xs| - 1;
    NoOverflow(xs[..k]) && Average(xs[..k]) * k + xs[k] < WRAP
  }

  lemma DivisionRest(a: nat, b: nat)
    requires b > 0
    ensures (a / b) * b <= a < (a / b) * b + b
  {
  }

  lemma ProductsAscend(a: int, b: int, c: nat)
    requires a <= b
    ensures a * c <= b * c && c * a <= c * b
  {
  }

  lemma Commute(a: int, b: int)
    ensures a * b == b * a
  {
  }

  lemma OneMore(a: int, k: int)
    ensures a * (k + 1) == a * k + a
  {
  }

  /** Dividing keeps what lies between two multiples between the two factors. */
  lemma QuotientBetween(total: nat, d: nat, lo: nat, hi: nat)
    requires d > 0 && lo * d <= total <= hi * d
    ensures lo <= total / d <= hi
  {
    DivisionRest(total, d);
    var q := total / d;
    if q < lo {
      ProductsAscend(q + 1, lo, d);
      OneMore(d, q);
      Commute(d, q);
      Commute(d, q + 1);
    }
    if q > hi {
      ProductsAscend(hi + 1, q, d);
      OneMore(d, hi);
      Commute(d, hi);
      Commute(d, hi + 1);
    }
  }

  lemma SmallQuotient(a: nat, b: nat)
    requires a < b
    ensures a / b == 0
  {
  }

  lemma NoWrap(value: nat, mean: nat, num: nat)
    requires mean * num + value < WRAP
    ensures CalcAvg(value, mean, num) == (mean * num + value) / (num + 1)
  {
  }

  /** The invariant of the running average, one call on: what rounding loses grows by less than the
      number of calls. */
  lemma OneCall(sum: nat, mean: nat, k: nat, x: nat)
    requires mean * k <= sum && mean * k + x < WRAP
    ensures var a := CalcAvg(x, mean, k);
      a == (mean * k + x) / (k + 1) && a * (k + 1) <= sum + x && (sum + x) - a * (k + 1) <= sum - mean * k + k
  {
    hide CalcAvg;
    NoWrap(x, mean, k);
    DivisionRest(mean * k + x, k + 1);
  }

  lemma Triangle(k: nat)
    ensures k * (k - 1) + 2 * k == (k + 1) * k
  {
  }

  /** n averages fall short of the sum by at most 0 + 1 + ... + (n - 1), and never exceed it. */
  predicate Near(xs: seq<nat>) {
    0 <= 2 * (Sum(xs) - Average(xs) * |xs|) <= |xs| * (|xs| - 1)
  }

  /** Each call loses less than one per call to rounding. */
  lemma {:induction false} AverageNearSum(xs: seq<nat>)
    requires NoOverflow(xs)
    ensures 0 <= Sum(xs) - Average(xs) * |xs|
    ensures 2 * (Sum(xs) - Average(xs) * |xs|) <= |xs| * (|xs| - 1)
    decreases |xs|
  {
    hide CalcAvg;
    if xs != [] {
      var k := |xs| - 1;
      AverageNearSum(xs[..k]);
      OneCall(Sum(xs[..k]), Average(xs[..k]), k, xs[k]);
      Triangle(k);
    }
  }

  /** The averages are near the sum after every call. */
  predicate NearThroughout(xs: seq<nat>)
    decreases |xs|
  {
    xs == [] || (NearThroughout(xs[..|xs| - 1]) && Near(xs))
  }

  /** What wraps is lost. */
  lemma WrapLoses(value: nat, mean: nat, num: nat)
    requires mean * num + value >= WRAP
    ensures CalcAvg(value, mean, num) * (num + 1) <= mean * num + value - WRAP
  {
    var total := mean * num + value;
    WrappedBelow(total);
    DivisionRest(total % WRAP, num + 1);
  }

  lemma WrappedBelow(total: nat)
    requires total >= WRAP
    ensures total % WRAP <= total - WRAP
  {
  }

  lemma RoomFor(k: nat, n: nat)
    requires k <= n
    ensures k * (k - 1) <= n * (n - 1)
  {
    if k > 0 {
      ProductsAscend(k, n, k - 1);
      ProductsAscend(k - 1, n - 1, n);
    }
  }

  /** As long as the rounding of that many calls could not account for a wrap, which takes more than
      92682 of them, the averages stay near the sum exactly if nothing overflows. */
  lemma {:induction false} NearIffNoOverflow(xs: seq<nat>)
    requires |xs| * (|xs| - 1) < 2 * WRAP
    ensures NearThroughout(xs) <==> NoOverflow(xs)
    decreases |xs|
  {
    hide CalcAvg;
    if xs != [] {
      var k := |xs| - 1;
      RoomFor(k, |xs|);
      NearIffNoOverflow(xs[..k]);
      if NoOverflow(xs[..k]) {
        AverageNearSum(xs[..k]);
        if Average(xs[..k]) * k + xs[k] < WRAP {
          AverageNearSum(xs);
        } else {
          WrapLoses(xs[k], Average(xs[..k]), k);
        }
      }
    }
  }

  /** The average lies between the smallest and the largest sample. */
  lemma {:induction false} AverageBetween(xs: seq<nat>, lo: nat, hi: nat)
    requires xs != [] && NoOverflow(xs)
    requires forall i :: 0 <= i < |xs| ==> lo <= xs[i] <= hi
    ensures lo <= Average(xs) <= hi
    decreases |xs|
  {
    hide CalcAvg;
    var k := |xs| - 1;
    var mean, x := Average(xs[..k]), xs[k];
    NoWrap(x, mean, k);
    if k > 0 {
      AverageBetween(xs[..k], lo, hi);
    }
    TotalBetween(mean, k, x, lo, hi);
    QuotientBetween(mean * k + x, k + 1, lo, hi);
  }

  /** A sum within 32 bits is enough. */
  lemma {:induction false} SmallSumNoOverflow(xs: seq<nat>)
    requires Sum(xs) < WRAP
    ensures NoOverflow(xs)
    decreases |xs|
  {
    hide CalcAvg;
    if xs != [] {
      SmallSumNoOverflow(xs[..|xs| - 1]);
      AverageNearSum(xs[..|xs| - 1]);
    }
  }

  lemma TotalBetween(mean: nat, k: nat, x: nat, lo: nat, hi: nat)
    requires (k > 0 ==> lo <= mean <= hi) && lo <= x <= hi
    ensures lo * (k + 1) <= mean * k + x <= hi * (k + 1)
  {
    OneMore(lo, k);
    OneMore(hi, k);
    if k > 0 {
      ProductsAscend(lo, mean, k);
      ProductsAscend(mean, hi, k);
    }
  }

  function UpTo(n: nat): (xs: seq<nat>)
    ensures |xs| == n && forall i :: 0 <= i < n ==> xs[i] == i
  {
    seq(n, i => i)
  }

  /** The bound on the rounding is met: samples 0, 1, 2 and so on average to 0 for as long as they fit
      into 32 bits, whatever their sum. */
  lemma {:induction false} RoundingBoundIsMet(n: nat)
    requires n <= WRAP
    ensures NoOverflow(UpTo(n)) && Average(UpTo(n)) == 0 && 2 * Sum(UpTo(n)) == n * (n - 1)
    decreases n
  {
    hide CalcAvg;
    if n > 0 {
      assert UpTo(n)[..n - 1] == UpTo(n - 1);
      RoundingBoundIsMet(n - 1);
      NoWrap(n - 1, 0, n - 1);
      SmallQuotient(n - 1, n);
      Triangle(n - 1);
    }
  }

  /** With an overflow neither bound holds: two samples of the largest value wrap. */
  lemma WrapBreaksAverages()
    ensures var xs := [WRAP - 1, WRAP - 1]; Average(xs) == WRAP / 2 - 1 && Average(xs) < xs[0] && Average(xs) < xs[1]
  {
    var xs: seq<nat> := [WRAP - 1, WRAP - 1];
    assert xs[..1] == [WRAP - 1] && xs[..1][..0] == [];
    assert Average(xs[..1]) == WRAP - 1;
  }

  // ---------------------------------------------------------------- the ring

  function Values(log: seq<Quality>, s: Statistic): (xs: seq<nat>)
    ensures |xs| == |log|
  {
    seq(|log|, i requires 0 <= i < |log| => Value(log[i], s))
  }

  class Device {
    const entry: array<Quality>
    var next: nat
    var count: nat
    /** The integer averages, and the number of calls in them. */
    var average: Statistic -> nat
    var num: nat
    /** All calls ever recorded. */
    ghost var log: seq<Quality>

    ghost predicate Valid()
      reads this, entry
    {
      && entry.Length == HISTORY_SIZE && num == |log|
      && next == |log| % HISTORY_SIZE && count == (if |log| < HISTORY_SIZE then |log| else HISTORY_SIZE)
      && (forall i :: |log| - count <= i < |log| ==> entry[i % HISTORY_SIZE] == log[i])
    }

    ghost predicate Averaged()
      reads this
    {
      forall s: Statistic :: average(s) == Average(Values(log, s))
    }

    constructor ()
      ensures Valid() && Averaged() && log == [] && fresh(entry)
    {
      entry := new Quality[HISTORY_SIZE];
      next, count, num := 0, 0, 0;
      average := s => 0;
      log := [];
    }

    /** handle_ConnectionStatistics from the decoded statistics on. */
    method Record(q: Quality)
      requires Valid() && Averaged()
      modifies this, entry
      ensures Valid() && Averaged() && log == old(log) + [q]
    {
      hide Average, Values;
      Enter(q);
      UpdateAverages(q);
      num := num + 1;
      log := log + [q];
    }

    /** The ring. */
    method Enter(q: Quality)
      requires Valid()
      modifies this`next, this`count, entry
      ensures next == (|log| + 1) % HISTORY_SIZE
        && count == (if |log| + 1 < HISTORY_SIZE then |log| + 1 else HISTORY_SIZE)
      ensures forall i :: |log| + 1 - count <= i <= |log| ==> entry[i % HISTORY_SIZE] == (log + [q])[i]
    {
      ghost var n := |log|;
      entry[next] := q;
      next := (next + 1) % HISTORY_SIZE;
      if count < HISTORY_SIZE {
        count := count + 1;
      }
      NextIndex(n);
      forall i | n + 1 - count <= i < n ensures entry[i % HISTORY_SIZE] == log[i] {
        RingApart(i, n);
      }
    }

    method UpdateAverages(q: Quality)
      requires num == |log| && Averaged()
      modifies this`average
      ensures forall s: Statistic :: average(s) == Average(Values(log + [q], s))
    {
      var before, n := average, num;
      average := s => CalcAvg(Value(q, s), before(s), n);
      forall s: Statistic ensures average(s) == Average(Values(log + [q], s)) {
        assert Values(log + [q], s)[..|log|] == Values(log, s);
      }
    }

    /** The loop of sccp_show_device_calls: the last calls, newest first. */
    method Show() returns (shown: seq<Quality>)
      requires Valid()
      ensures |shown| == count == (if |log| < HISTORY_SIZE then |log| else HISTORY_SIZE)
      ensures forall i :: 0 <= i < |shown| ==> shown[i] == log[|log| - 1 - i]
    {
      shown := [];
      for i := 0 to count
        invariant |shown| == i && forall k :: 0 <= k < i ==> shown[k] == log[|log| - 1 - k]
      {
        RingIndex(|log|, i);
        shown := shown + [entry[(next + HISTORY_SIZE - 1 - i) % HISTORY_SIZE]];
      }
    }
  }

  lemma NextIndex(n: nat)
    ensures (n % HISTORY_SIZE + 1) % HISTORY_SIZE == (n + 1) % HISTORY_SIZE
  {
  }

  lemma RingApart(i: nat, n: nat)
    requires i < n < i + HISTORY_SIZE
    ensures i % HISTORY_SIZE != n % HISTORY_SIZE
  {
  }

  lemma RingIndex(n: nat, i: nat)
    requires i < n && i < HISTORY_SIZE
    ensures (n % HISTORY_SIZE + HISTORY_SIZE - 1 - i) % HISTORY_SIZE == (n - 1 - i) % HISTORY_SIZE
  {
  }
}
