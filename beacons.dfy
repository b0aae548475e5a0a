/**
 * The beacon worker: its drift-corrected schedule, the classification of
 * send errors, and the worker itself.
 *
 * Time is an integer number of microseconds. The clock readings the loop
 * takes are inputs, one per tick, and so is what the socket does with each
 * beacon.
 */
module Beacons {
  import opened Wrappers
  import opened Dot11
  import opened Counter

  /** The 802.11 time unit, in microseconds. */
  const TimeUnit: int := 1024

  /** The beacon interval: 100 time units, 0.1024 s. */
  const BeaconInterval: int := 100 * TimeUnit

  // ---------------------------------------------------------------------
  // Drift correction

  /** `t` lies on the grid of ticks that starts at `start` and is `interval` apart. */
  predicate OnGrid(interval: int, start: int, t: int)
    requires interval > 0
  {
    (t - start) % interval == 0
  }

  /** `k` whole intervals are at least one interval when `k` is positive. */
  lemma MulAtLeast(k: int, n: int)
    requires n > 0 && k >= 1
    ensures k * n >= n
  {
    assert k * n == (k - 1) * n + n;
    assert (k - 1) * n >= 0;
  }

  /** Quotient and remainder are unique: Dafny's `/` and `%`, like Python's, floor for a positive divisor. */
  lemma DivModUnique(x: int, n: int, q: int, r: int)
    requires n > 0 && 0 <= r < n && x == q * n + r
    ensures x / n == q && x % n == r
  {
    var q', r' := x / n, x % n;
    assert x == q' * n + r';
    assert (q - q') * n == r' - r;
    if q - q' >= 1 {
      MulAtLeast(q - q', n);
    }
    if q' - q >= 1 {
      MulAtLeast(q' - q, n);
    }
  }

  /** Two multiples of `n` less than `n` apart are ordered: the larger is at least the smaller. */
  lemma MultiplesOrdered(n: int, x: int, y: int)
    requires n > 0 && x % n == 0 && y % n == 0 && x > y - n
    ensures x >= y
  {
    var a, b := x / n, y / n;
    assert x == a * n + x % n;
    assert y == b * n + y % n;
    if b - a >= 1 {
      MulAtLeast(b - a, n);
    } else if a - b >= 1 {
      MulAtLeast(a - b, n);
      assert (a - b) * n == a * n - b * n;
    } else {
      assert a == b;
    }
  }

  /**
   * How long the loop sleeps when the clock reads `now`: the rest of the
   * current interval, measured from the start time rather than from the
   * previous wake-up. The wake-up lies on the grid, at most one interval on.
   */
  function SleepLength(interval: int, start: int, now: int): (s: int)
    requires interval > 0
    ensures 0 < s <= interval
    ensures OnGrid(interval, start, now + s)
  {
    var d := now - start;
    DivModUnique(d + interval - d % interval, interval, d / interval + 1, 0);
    interval - d % interval
  }

  /** The wake-up is the first grid point strictly after `now`. */
  lemma SleepIsMinimal(interval: int, start: int, now: int, t: int)
    requires interval > 0
    requires OnGrid(interval, start, t) && t > now
    ensures t >= now + SleepLength(interval, start, now)
  {
    var w := now + SleepLength(interval, start, now);
    MultiplesOrdered(interval, t - start, w - start);
  }

  /** Woken on a grid point, the loop sleeps exactly one interval if its work took less than one. */
  lemma SleepFromGridPoint(interval: int, start: int, g: int, now: int)
    requires interval > 0
    requires OnGrid(interval, start, g) && g <= now < g + interval
    ensures now + SleepLength(interval, start, now) == g + interval
  {
    var w := now + SleepLength(interval, start, now);
    assert SleepLength(interval, start, g) == interval;
    SleepIsMinimal(interval, start, now, g + interval);
    SleepIsMinimal(interval, start, g, w);
  }

  /** The wake-up times of successive ticks, given the clock reading taken after each tick's work. */
  function WakeTimes(interval: int, start: int, readings: seq<int>): (w: seq<int>)
    requires interval > 0
    ensures |w| == |readings|
    ensures forall i :: 0 <= i < |w| ==> readings[i] < w[i] <= readings[i] + interval
    ensures forall i :: 0 <= i < |w| ==> OnGrid(interval, start, w[i])
  {
    seq(|readings|, i requires 0 <= i < |readings| => readings[i] + SleepLength(interval, start, readings[i]))
  }

  /** When tick `i` began: the start time for the first tick, the previous wake-up after that. */
  function TickBegins(interval: int, start: int, readings: seq<int>, i: nat): int
    requires interval > 0 && i < |readings|
  {
    if i == 0 then start else WakeTimes(interval, start, readings)[i - 1]
  }

  /** The clock never reads earlier than the moment the tick began. */
  predicate ClockKeepsUp(interval: int, start: int, readings: seq<int>)
    requires interval > 0
  {
    forall i {:trigger TickBegins(interval, start, readings, i)} :: 0 <= i < |readings| ==>
      TickBegins(interval, start, readings, i) <= readings[i]
  }

  /** Each tick's work, including any oversleep, ends within one interval of the tick's beginning. */
  predicate KeepsPace(interval: int, start: int, readings: seq<int>)
    requires interval > 0
  {
    forall i {:trigger TickBegins(interval, start, readings, i)} :: 0 <= i < |readings| ==>
      TickBegins(interval, start, readings, i) <= readings[i] < TickBegins(interval, start, readings, i) + interval
  }

  /**
   * No drift: while every tick's work fits in one interval, the k-th wake-up
   * is exactly k + 1 intervals after the start, however long each tick took.
   */
  lemma {:induction false} NoDrift(interval: int, start: int, readings: seq<int>, k: nat)
    requires interval > 0
    requires KeepsPace(interval, start, readings)
    requires k < |readings|
    ensures WakeTimes(interval, start, readings)[k] == start + (k + 1) * interval
  {
    if k > 0 {
      NoDrift(interval, start, readings, k - 1);
    }
    var g := TickBegins(interval, start, readings, k);
    assert g == start + k * interval;
    WakeAfterGridPoint(interval, start, readings, k, g);
  }

  /** The wake-up of a tick that began on the grid and ran less than an interval is one interval on. */
  lemma WakeAfterGridPoint(interval: int, start: int, readings: seq<int>, k: nat, g: int)
    requires interval > 0 && k < |readings|
    requires OnGrid(interval, start, g) && g <= readings[k] < g + interval
    ensures WakeTimes(interval, start, readings)[k] == g + interval
  {
    SleepFromGridPoint(interval, start, g, readings[k]);
  }

  /**
   * Never ahead: whatever the ticks cost, wake-ups are strictly increasing and
   * the k-th is no earlier than k + 1 intervals after the start, so the
   * worker never sends more than one beacon per interval.
   */
  lemma {:induction false} NeverAhead(interval: int, start: int, readings: seq<int>, k: nat)
    requires interval > 0
    requires ClockKeepsUp(interval, start, readings)
    requires k < |readings|
    ensures WakeTimes(interval, start, readings)[k] >= start + (k + 1) * interval
    ensures k > 0 ==> WakeTimes(interval, start, readings)[k] >= WakeTimes(interval, start, readings)[k - 1] + interval
  {
    var w := WakeTimes(interval, start, readings);
    var g := TickBegins(interval, start, readings, k);
    assert g <= readings[k];
    assert SleepLength(interval, start, g) == interval;
    SleepIsMinimal(interval, start, g, w[k]);
    if k > 0 {
      NeverAhead(interval, start, readings, k - 1);
    }
  }

  // ---------------------------------------------------------------------
  // Send-error classification

  /** `needle` occurs in `hay` starting at index `i`. */
  predicate OccursAt(needle: string, hay: string, i: int)
  {
    0 <= i && i + |needle| <= |hay| && hay[i..i + |needle|] == needle
  }

  /** `needle` is a substring of `hay`. */
  ghost predicate Occurs(needle: string, hay: string)
  {
    exists i :: OccursAt(needle, hay, i)
  }

  /** Substring test by a left-to-right scan. */
  function Contains(hay: string, needle: string): (r: bool)
    ensures r <==> Occurs(needle, hay)
    decreases |hay|
  {
    if |hay| < |needle| then
      assert forall i :: !OccursAt(needle, hay, i);
      false
    else if hay[..|needle|] == needle then
      assert OccursAt(needle, hay, 0);
      true
    else
      var r := Contains(hay[1..], needle);
      assert r ==> Occurs(needle, hay) by {
        if r {
          var i :| OccursAt(needle, hay[1..], i);
          assert hay[1..][i..i + |needle|] == hay[i + 1..i + 1 + |needle|];
          assert OccursAt(needle, hay, i + 1);
        }
      }
      assert Occurs(needle, hay) ==> r by {
        if Occurs(needle, hay) {
          var i :| OccursAt(needle, hay, i);
          assert i != 0;
          assert hay[1..][i - 1..i - 1 + |needle|] == hay[i..i + |needle|];
          assert OccursAt(needle, hay[1..], i - 1);
        }
      }
      r
  }

  /** An operating-system error as the socket raises it; its message may be absent. */
  datatype OsError = OsError(strerror: Option<string>)

  /** What the socket did with one beacon. */
  datatype SendResult = Sent | Failed(error: OsError)

  /** The two messages that mean the interface is gone. */
  const NetworkDown: string := "Network is down"
  const NoSuchDevice: string := "No such device"

  /** The exit status the worker leaves with: the number of SIGTERM. */
  const SigTerm: int := 15

  /**
   * What the worker does after a send: carry on, exit with a status, or die
   * of an uncaught error (testing for a substring of an absent message fails).
   */
  datatype BeaconOutcome = Continue | Exit(status: int) | Crash

  /** `msg` says that the interface is gone. */
  ghost predicate InterfaceGone(msg: string)
  {
    Occurs(NetworkDown, msg) || Occurs(NoSuchDevice, msg)
  }

  /** Classifies the result of a beacon send. */
  function Verdict(r: SendResult): (v: BeaconOutcome)
    ensures v == Exit(SigTerm) <==> r.Failed? && r.error.strerror.Some? && InterfaceGone(r.error.strerror.value)
    ensures v == Crash <==> r.Failed? && r.error.strerror.None?
    ensures v.Continue? <==> r.Sent? || (r.error.strerror.Some? && !InterfaceGone(r.error.strerror.value))
  {
    match r
    case Sent => Continue
    case Failed(OsError(None)) => Crash
    case Failed(OsError(Some(msg))) =>
      if Contains(msg, NetworkDown) || Contains(msg, NoSuchDevice) then Exit(SigTerm) else Continue
  }

  // ---------------------------------------------------------------------
  // The worker

  /** One iteration of the loop: what the send did, and the clock reading taken afterwards. */
  datatype Tick = Tick(result: SendResult, now: int)

  /** The clock readings of a run of ticks. */
  function Readings(ticks: seq<Tick>): seq<int>
  {
    seq(|ticks|, i requires 0 <= i < |ticks| => ticks[i].now)
  }

  class TxBeacons {
    const mac: Mac
    const ies: seq<Element>
    const counter: SequenceCounter
    /** The beacon template; each beacon overwrites its sequence number. */
    var beaconFrame: OutFrame
    /** Every frame handed to the socket, in order, whatever the socket did with it. */
    var sent: seq<OutFrame>

    /** Only the sequence number of the template ever changes, and only restamped templates go out. */
    ghost predicate Valid()
      reads this
    {
      && Restamped(beaconFrame, BeaconTemplate(mac, ies))
      && forall i :: 0 <= i < |sent| ==> Restamped(sent[i], BeaconTemplate(mac, ies))
    }

    constructor (mac: Mac, ies: seq<Element>, counter: SequenceCounter)
      ensures Valid()
      ensures this.mac == mac && this.ies == ies && this.counter == counter
      ensures beaconFrame == BeaconTemplate(mac, ies) && sent == []
    {
      this.mac := mac;
      this.ies := ies;
      this.counter := counter;
      beaconFrame := BeaconTemplate(mac, ies);
      sent := [];
    }

    /** Stamps the beacon with a fresh counter value, sends it and classifies the result. */
    method Beacon(result: SendResult) returns (outcome: BeaconOutcome)
      requires Valid()
      modifies this, counter
      ensures Valid()
      ensures counter.value == counter.advance(old(counter.value)) && counter.draws == old(counter.draws) + 1
      ensures beaconFrame == old(beaconFrame).(seqNum := counter.value)
      ensures sent == old(sent) + [beaconFrame]
      ensures outcome == Verdict(result)
    {
      var n := counter.Next();
      beaconFrame := beaconFrame.(seqNum := n);
      sent := sent + [beaconFrame];
      outcome := Verdict(result);
    }

    /**
     * The beacon loop, over a finite run of ticks: send a beacon, read the
     * clock, sleep until the next grid point. It stops early when a send
     * ends the worker.
     */
    method Every(interval: int, start: int, ticks: seq<Tick>) returns (wakes: seq<int>, outcome: BeaconOutcome)
      requires Valid() && interval > 0
      modifies this, counter
      ensures Valid()
      ensures |wakes| <= |ticks|
      ensures wakes == WakeTimes(interval, start, Readings(ticks[..|wakes|]))
      ensures forall i :: 0 <= i < |wakes| ==> Verdict(ticks[i].result).Continue?
      ensures outcome.Continue? <==> |wakes| == |ticks|
      ensures !outcome.Continue? ==> outcome == Verdict(ticks[|wakes|].result)
      ensures |sent| == |old(sent)| + |wakes| + (if outcome.Continue? then 0 else 1)
      ensures sent[..|old(sent)|] == old(sent)
      ensures counter.draws == old(counter.draws) + (|sent| - |old(sent)|)
      ensures counter.value == Iterate(counter.advance, old(counter.value), |sent| - |old(sent)|)
      ensures forall j :: |old(sent)| <= j < |sent| ==>
        sent[j] == old(beaconFrame).(seqNum := Iterate(counter.advance, old(counter.value), j - |old(sent)| + 1))
      ensures beaconFrame == if |sent| == |old(sent)| then old(beaconFrame) else old(beaconFrame).(seqNum := counter.value)
    {
      wakes := [];
      outcome := Continue;
      var i := 0;
      while i < |ticks|
        invariant Valid()
        invariant i <= |ticks| && |wakes| == i
        invariant wakes == WakeTimes(interval, start, Readings(ticks[..i]))
        invariant forall j :: 0 <= j < i ==> Verdict(ticks[j].result).Continue?
        invariant |sent| == |old(sent)| + i && sent[..|old(sent)|] == old(sent)
        invariant counter.draws == old(counter.draws) + i
        invariant counter.value == Iterate(counter.advance, old(counter.value), i)
        invariant forall j :: |old(sent)| <= j < |sent| ==>
          sent[j] == old(beaconFrame).(seqNum := Iterate(counter.advance, old(counter.value), j - |old(sent)| + 1))
        invariant beaconFrame == if i == 0 then old(beaconFrame) else old(beaconFrame).(seqNum := counter.value)
        invariant outcome.Continue?
      {
        ghost var before := sent;
        outcome := Beacon(ticks[i].result);
        assert counter.value == Iterate(counter.advance, old(counter.value), i + 1);
        assert sent == before + [old(beaconFrame).(seqNum := counter.value)];
        if !outcome.Continue? {
          return;
        }
        var now := ticks[i].now;
        assert Readings(ticks[..i + 1]) == Readings(ticks[..i]) + [now];
        wakes := wakes + [now + SleepLength(interval, start, now)];
        i := i + 1;
      }
    }

    /** Starts the transmissions: the beacon loop at the beacon interval, each tick sending one beacon. */
    method StartTransmissions(start: int, ticks: seq<Tick>) returns (wakes: seq<int>, outcome: BeaconOutcome)
      requires Valid()
      modifies this, counter
      ensures Valid()
      ensures |wakes| <= |ticks|
      ensures wakes == WakeTimes(BeaconInterval, start, Readings(ticks[..|wakes|]))
      ensures forall i :: 0 <= i < |wakes| ==> wakes[i] - ticks[i].now <= BeaconInterval
      ensures forall i :: 0 <= i < |wakes| ==> Verdict(ticks[i].result).Continue?
      ensures outcome.Continue? <==> |wakes| == |ticks|
      ensures !outcome.Continue? ==> outcome == Verdict(ticks[|wakes|].result)
      ensures |sent| == |old(sent)| + |wakes| + (if outcome.Continue? then 0 else 1)
      ensures sent[..|old(sent)|] == old(sent)
      ensures counter.draws == old(counter.draws) + (|sent| - |old(sent)|)
      ensures counter.value == Iterate(counter.advance, old(counter.value), |sent| - |old(sent)|)
      ensures forall j :: |old(sent)| <= j < |sent| ==>
        sent[j] == old(beaconFrame).(seqNum := Iterate(counter.advance, old(counter.value), j - |old(sent)| + 1))
      ensures beaconFrame == if |sent| == |old(sent)| then old(beaconFrame) else old(beaconFrame).(seqNum := counter.value)
    {
      wakes, outcome := Every(BeaconInterval, start, ticks);
    }
  }
}
