/**
 The two-interval background scan of `bgscan_simple.c`: scanning often is rationed by a counter
 that short-interval scans raise and long-interval scans lower. Times are in seconds.
 */
module ScanBudget {
  import opened Sequences

  datatype Params = Params(shortInterval: int, longInterval: int, threshold: int)

  /** A scan is due and could be triggered or not; results arrived; the signal level crossed the threshold. */
  datatype Event =
    | Timeout(triggered: bool, now: int)
    | ScanDone
    | Signal(above: bool, now: int)

  /** `timer` is the delay of the timeout registered last, if one is pending. */
  datatype Data = Data(interval: int, count: int, last: int, timer: Option<int>)

  /** Intervals that are not positive become 30. */
  function Normal(p: Params): (r: Params)
    ensures r.shortInterval > 0 && r.longInterval > 0
  {
    Params(if p.shortInterval <= 0 then 30 else p.shortInterval, if p.longInterval <= 0 then 30 else p.longInterval, p.threshold)
  }

  function MaxShort(p: Params): int
    requires p.shortInterval > 0
  {
    p.longInterval / p.shortInterval + 1
  }

  function Init(p: Params, above: bool, now: int): Data {
    var interval := if p.threshold != 0 && above then p.longInterval else p.shortInterval;
    Data(interval, 0, now, Some(interval))
  }

  function OnTimeout(p: Params, d: Data, triggered: bool, now: int): Data
    requires p.shortInterval > 0
  {
    if !triggered then d.(timer := Some(d.interval))
    else if d.interval == p.shortInterval then
      Data(if d.count + 1 > MaxShort(p) then p.longInterval else d.interval, d.count + 1, now, None)
    else Data(d.interval, if d.count > 0 then d.count - 1 else d.count, now, None)
  }

  function OnSignal(p: Params, d: Data, above: bool, now: int): Data
    requires p.shortInterval > 0
  {
    if p.shortInterval == p.longInterval || p.threshold == 0 then d
    else if d.interval == p.longInterval && !above then
      if now > d.last + 1 && d.count <= MaxShort(p) then d.(interval := p.shortInterval, timer := Some(0))
      else if d.last + p.longInterval > now + p.shortInterval then
        d.(interval := p.shortInterval, timer := Some(p.shortInterval))
      else d.(interval := p.shortInterval)
    else if d.interval == p.shortInterval && above then d.(interval := p.longInterval, timer := Some(p.longInterval))
    else if !above && now > d.last + 10 then d.(timer := Some(0))
    else d
  }

  function Step(p: Params, d: Data, e: Event): Data
    requires p.shortInterval > 0
  {
    match e
    case Timeout(triggered, now) => OnTimeout(p, d, triggered, now)
    case ScanDone => d.(timer := Some(d.interval))
    case Signal(above, now) => OnSignal(p, d, above, now)
  }

  function Run(p: Params, start: Data, events: seq<Event>): Data
    requires p.shortInterval > 0
  {
    if events == [] then start
    else Step(p, Run(p, start, events[..|events| - 1]), events[|events| - 1])
  }

  // ---- what happened in a run ----

  /** Successful scans at the short interval and at the other one, drops to the short interval, and budget given back. */
  datatype Tally = Tally(shorts: nat, longs: nat, drops: nat, returned: nat)

  function Count(p: Params, d: Data, t: Tally, e: Event): Tally {
    match e
    case Timeout(triggered, _) =>
      if !triggered then t
      else if d.interval == p.shortInterval then t.(shorts := t.shorts + 1)
      else if d.count > 0 then t.(longs := t.longs + 1, returned := t.returned + 1)
      else t.(longs := t.longs + 1)
    case Signal(above, _) =>
      if p.shortInterval != p.longInterval && p.threshold != 0 && d.interval == p.longInterval && !above
      then t.(drops := t.drops + 1)
      else t
    case ScanDone => t
  }

  function Tallied(p: Params, start: Data, events: seq<Event>): Tally
    requires p.shortInterval > 0
  {
    if events == [] then Tally(0, 0, 0, 0)
    else
      var front := events[..|events| - 1];
      Count(p, Run(p, start, front), Tallied(p, start, front), events[|events| - 1])
  }

  // ---- the budget ----

  ghost predicate InBudget(p: Params, d: Data, t: Tally)
    requires p.shortInterval > 0
  {
    (d.interval == p.shortInterval || d.interval == p.longInterval) && d.count >= 0 &&
    t.shorts == d.count + t.returned && t.returned <= t.longs &&
    d.count <= MaxShort(p) + t.drops + if d.interval == p.shortInterval then 0 else 1
  }

  lemma {:induction false} StepInBudget(p: Params, d: Data, t: Tally, e: Event)
    requires p.shortInterval > 0 && p.shortInterval != p.longInterval && InBudget(p, d, t)
    ensures InBudget(p, Step(p, d, e), Count(p, d, t, e))
  {
  }

  /** The counter is the short scans not given back; it exceeds the maximum by one and the drops at most. */
  lemma {:induction false} RunInBudget(p: Params, above: bool, now: int, events: seq<Event>)
    requires p.shortInterval > 0 && p.longInterval > 0 && p.shortInterval != p.longInterval
    ensures InBudget(p, Run(p, Init(p, above, now), events), Tallied(p, Init(p, above, now), events))
  {
    if events == [] {
      assert p.longInterval / p.shortInterval >= 0;
    } else {
      var front, start := events[..|events| - 1], Init(p, above, now);
      RunInBudget(p, above, now, front);
      StepInBudget(p, Run(p, start, front), Tallied(p, start, front), events[|events| - 1]);
    }
  }

  /** A run of successful scans with equal intervals. */
  function Scans(n: nat): (r: seq<Event>)
    ensures |r| == n && forall i :: 0 <= i < n ==> r[i] == Timeout(true, 0)
  {
    seq(n, _ => Timeout(true, 0))
  }

  lemma {:induction false} EqualIntervalsNeverStop(p: Params, n: nat)
    requires p.shortInterval > 0 && p.longInterval == p.shortInterval
    ensures var t := Tallied(p, Init(p, false, 0), Scans(n));
            Run(p, Init(p, false, 0), Scans(n)).interval == p.shortInterval && t.shorts == n && t.longs == 0 && t.drops == 0
  {
    if n > 0 {
      EqualIntervalsNeverStop(p, n - 1);
      assert Scans(n)[..n - 1] == Scans(n - 1);
    }
  }

  ghost predicate Rationed(p: Params, t: Tally)
    requires p.shortInterval > 0
  {
    t.shorts <= MaxShort(p) + 1 + t.longs + t.drops
  }

  /** Short-interval scans are rationed in every run exactly when the two intervals differ. */
  lemma {:induction false} RationedIff(p: Params)
    requires p.shortInterval > 0 && p.longInterval > 0
    ensures (forall above, now, events :: Rationed(p, Tallied(p, Init(p, above, now), events))) <==>
            p.shortInterval != p.longInterval
  {
    if p.shortInterval != p.longInterval {
      forall above, now, events ensures Rationed(p, Tallied(p, Init(p, above, now), events)) {
        RunInBudget(p, above, now, events);
      }
    } else {
      var n := MaxShort(p) + 2;
      EqualIntervalsNeverStop(p, n);
      assert !Rationed(p, Tallied(p, Init(p, false, 0), Scans(n)));
    }
  }

  // ---- the timer ----

  /** The last scan that was triggered has not been reported done, and no later trigger failed. */
  predicate UnderWay(events: seq<Event>) {
    events != [] &&
    match events[|events| - 1]
    case Timeout(triggered, _) => triggered
    case ScanDone => false
    case Signal(_, _) => UnderWay(events[..|events| - 1])
  }

  /** In every run a timeout is pending or a scan is under way. */
  lemma {:induction false} AlwaysArmed(p: Params, above: bool, now: int, events: seq<Event>)
    requires p.shortInterval > 0
    ensures Run(p, Init(p, above, now), events).timer.Some? || UnderWay(events)
  {
    if events != [] {
      AlwaysArmed(p, above, now, events[..|events| - 1]);
    }
  }

  /** The module starts at the long interval exactly when the signal is known to be above a threshold. */
  lemma {:induction false} StartsArmed(given: Params, above: bool, now: int)
    ensures var p := Normal(given);
            p.threshold == given.threshold &&
            p.shortInterval == (if given.shortInterval > 0 then given.shortInterval else 30) &&
            p.longInterval == (if given.longInterval > 0 then given.longInterval else 30) &&
            Run(p, Init(p, above, now), []) ==
            var interval := if given.threshold != 0 && above then p.longInterval else p.shortInterval;
            Data(interval, 0, now, Some(interval))
  {
  }

  /**
   A scan that is triggered leaves no timeout pending. At the short interval it uses up budget, and
   the interval becomes long once that is spent; otherwise it gives budget back.
   */
  lemma {:induction false} TimeoutScans(p: Params, start: Data, events: seq<Event>, now: int)
    requires p.shortInterval > 0
    ensures var d, after := Run(p, start, events), Run(p, start, events + [Timeout(true, now)]);
            after.last == now && after.timer == None &&
            if d.interval == p.shortInterval
            then after.count == d.count + 1 &&
                 after.interval == if d.count > p.longInterval / p.shortInterval then p.longInterval else p.shortInterval
            else after.interval == d.interval && after.count == if d.count > 0 then d.count - 1 else d.count
  {
    assert (events + [Timeout(true, now)])[..|events|] == events;
  }

  /** When a scan is done the next one is due after the current interval. */
  lemma {:induction false} DoneRearms(p: Params, start: Data, events: seq<Event>)
    requires p.shortInterval > 0
    ensures var d := Run(p, start, events);
            Run(p, start, events + [ScanDone]) == Data(d.interval, d.count, d.last, Some(d.interval))
  {
    assert (events + [ScanDone])[..|events|] == events;
  }

  /** A trigger that fails is tried again after the current interval, and costs nothing. */
  lemma {:induction false} FailedTriggerRetries(p: Params, start: Data, events: seq<Event>, now: int)
    requires p.shortInterval > 0
    ensures var d := Run(p, start, events);
            Run(p, start, events + [Timeout(false, now)]) == Data(d.interval, d.count, d.last, Some(d.interval))
  {
    assert (events + [Timeout(false, now)])[..|events|] == events;
  }

  /**
   A signal change when the two intervals differ and a threshold is set: a drop turns to the short
   interval and scans at once if there is budget left and the last scan is over a second old, else no
   later than a short interval from now; a rise turns to the long interval; another drop scans at once
   ten seconds after the last scan. No signal change touches the budget.
   */
  lemma {:induction false} SignalArms(p: Params, start: Data, events: seq<Event>, above: bool, now: int)
    requires p.shortInterval > 0 && p.shortInterval != p.longInterval && p.threshold != 0
    ensures var d, after := Run(p, start, events), Run(p, start, events + [Signal(above, now)]);
            after.count == d.count && after.last == d.last &&
            (d.interval == p.longInterval && !above ==>
               after.interval == p.shortInterval &&
               (now > d.last + 1 && d.count <= p.longInterval / p.shortInterval + 1 ==> after.timer == Some(0)) &&
               (!(now > d.last + 1 && d.count <= p.longInterval / p.shortInterval + 1) ==>
                  after.timer == if d.last + p.longInterval > now + p.shortInterval then Some(p.shortInterval) else d.timer)) &&
            (d.interval == p.shortInterval && above ==>
               after.interval == p.longInterval && after.timer == Some(p.longInterval)) &&
            (d.interval != p.longInterval && !above ==>
               after.interval == d.interval && after.timer == if now > d.last + 10 then Some(0) else d.timer)
  {
    assert (events + [Signal(above, now)])[..|events|] == events;
  }

  /** With equal intervals or no threshold the signal changes nothing. */
  lemma {:induction false} SignalIgnored(p: Params, start: Data, events: seq<Event>, above: bool, now: int)
    requires p.shortInterval > 0 && (p.shortInterval == p.longInterval || p.threshold == 0)
    ensures Run(p, start, events + [Signal(above, now)]) == Run(p, start, events)
  {
    assert (events + [Signal(above, now)])[..|events|] == events;
  }

  // ---- the handlers ----

  class Bgscan {
    const params: Params
    const maxShort: int
    var interval: int
    var count: int
    var last: int
    var timer: Option<int>

    ghost predicate Valid() {
      params.shortInterval > 0 && params.longInterval > 0 && maxShort == MaxShort(params)
    }

    function View(): Data
      reads this
    {
      Data(interval, count, last, timer)
    }

    constructor (given: Params, polled: Option<bool>, now: int)
      ensures Valid() && params == Normal(given)
      ensures View() == Init(params, polled == Some(true), now)
    {
      var p := Normal(given);
      params := p;
      maxShort := p.longInterval / p.shortInterval + 1;
      var chosen := p.shortInterval;
      if p.threshold != 0 {
        if polled.Some? && polled.value {
          chosen := p.longInterval;
        }
      }
      interval, count, last, timer := chosen, 0, now, Some(chosen);
    }

    method HandleTimeout(triggered: bool, now: int)
      requires Valid()
      modifies this
      ensures View() == OnTimeout(params, old(View()), triggered, now)
    {
      timer := None;
      if !triggered {
        timer := Some(interval);
      } else {
        if interval == params.shortInterval {
          count := count + 1;
          if count > maxShort {
            interval := params.longInterval;
          }
        } else if count > 0 {
          count := count - 1;
        }
        last := now;
      }
    }

    method NotifyScan()
      modifies this
      ensures View() == old(View()).(timer := Some(old(interval)))
    {
      timer := Some(interval);
    }

    method NotifySignalChange(above: bool, now: int)
      requires Valid()
      modifies this
      ensures View() == OnSignal(params, old(View()), above, now)
    {
      if params.shortInterval == params.longInterval || params.threshold == 0 {
        return;
      }
      var scan := false;
      if interval == params.longInterval && !above {
        interval := params.shortInterval;
        if now > last + 1 && count <= maxShort {
          scan := true;
        } else if last + params.longInterval > now + interval {
          timer := Some(interval);
        }
      } else if interval == params.shortInterval && above {
        interval := params.longInterval;
        timer := Some(interval);
      } else if !above {
        if now > last + 10 {
          scan := true;
        }
      }
      if scan {
        timer := Some(0);
      }
    }
  }

  /**
   The module over any events: successful scans at the short interval, at the long one, and drops
   to the short interval. With different intervals the short scans stay within the budget.
   */
  method Drive(given: Params, polled: Option<bool>, now: int, events: seq<Event>)
    returns (b: Bgscan, shorts: nat, longs: nat, drops: nat)
    ensures b.Valid() && b.params == Normal(given)
    ensures b.View() == Run(b.params, Init(b.params, polled == Some(true), now), events)
    ensures var t := Tallied(b.params, Init(b.params, polled == Some(true), now), events);
            shorts == t.shorts && longs == t.longs && drops == t.drops
    ensures b.params.shortInterval != b.params.longInterval ==> shorts <= b.maxShort + 1 + longs + drops
  {
    b := new Bgscan(given, polled, now);
    shorts, longs, drops := 0, 0, 0;
    ghost var start, p := b.View(), b.params;
    var i := 0;
    while i < |events|
      invariant 0 <= i <= |events| && b.Valid() && b.View() == Run(p, start, events[..i])
      invariant Tallied(p, start, events[..i]) == Tally(shorts, longs, drops, Tallied(p, start, events[..i]).returned)
    {
      assert events[..i + 1][..i] == events[..i];
      var was := b.interval;
      match events[i] {
        case Timeout(triggered, at) =>
          b.HandleTimeout(triggered, at);
          if triggered && was == b.params.shortInterval {
            shorts := shorts + 1;
          } else if triggered {
            longs := longs + 1;
          }
        case ScanDone =>
          b.NotifyScan();
        case Signal(above, at) =>
          b.NotifySignalChange(above, at);
          if was == b.params.longInterval != b.interval && !above {
            drops := drops + 1;
          }
      }
      i := i + 1;
    }
    assert events[..i] == events;
    if p.shortInterval != p.longInterval {
      RunInBudget(p, polled == Some(true), now, events);
    }
  }
}
