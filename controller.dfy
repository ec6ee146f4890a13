/** The controller: it picks the device, creates one tracker object per tracker type the
    profile uses, initialises every registration with its type's object and then runs the
    update loop. Each pass of the loop (a tick) asks every
    registration in profile order whether its interval has passed, lets the due trackers
    update and draw, flushes the device once if anything was drawn and sleeps until the
    earliest next deadline.

    The tracker objects are static and one per tracker type, so every registration of one
    type shares that object's LastUpdate timer: `lastUpdate` is a map from the type. */
module Controllers {
  import opened Primitives
  import opened Profiles
  import opened Frames
  import opened Devices
  import opened DeviceSelection
  import PingTrackers
  import TrueNasTrackers

  // ---------------------------------------------------------------------------------------
  // Initialisation

  /** Ping items after Init: every item normalised. */
  function NormaliseAll(items: seq<ProfileItem>): (r: seq<ProfileItem>)
    ensures |r| == |items| && forall j :: 0 <= j < |items| ==> r[j] == PingTrackers.Normalised(items[j])
  {
    seq(|items|, j requires 0 <= j < |items| => PingTrackers.Normalised(items[j]))
  }

  /** GetTracker followed by the tracker's Init for one registration: the registration as it
      is afterwards, or the exception. Regex has no tracker; Ping rejects an item without a
      key; the Jellyfin and TrueNAS Inits change no registration. */
  function InitRegistration(reg: Tracker): (r: Result<Tracker>)
    ensures r.Failure? <==> reg.kind == Regex || (reg.kind == Ping && PingTrackers.FirstKeyless(reg.items) < |reg.items|)
    ensures reg.kind == Regex ==> r == Failure(NotImplemented)
    ensures reg.kind == Ping && r.Failure? ==> r.fault == NullReference
    ensures r.Success? ==> r.value.kind == reg.kind && r.value.updateInterval == reg.updateInterval
    ensures r.Success? && reg.kind == Ping ==> r.value.items == NormaliseAll(reg.items)
    ensures r.Success? && reg.kind != Ping ==> r.value == reg
  {
    match reg.kind
    case Regex => Failure(NotImplemented)
    case Ping =>
      if PingTrackers.FirstKeyless(reg.items) < |reg.items| then Failure(NullReference)
      else Success(reg.(items := NormaliseAll(reg.items)))
    case Jellyfin => Success(reg)
    case TrueNas => Success(reg)
  }

  /** The constructor's loop over the registrations: the first failure, or every registration
      initialised. */
  function InitAll(regs: seq<Tracker>): (r: Result<seq<Tracker>>)
    ensures r.Success? ==> |r.value| == |regs|
  {
    if regs == [] then Success([])
    else
      match InitAll(regs[..|regs| - 1])
      case Failure(f) => Failure(f)
      case Success(done) =>
        match InitRegistration(regs[|regs| - 1])
        case Failure(f) => Failure(f)
        case Success(reg) => Success(done + [reg])
  }

  /** Once a prefix of the registrations fails, the whole loop fails with that exception. */
  lemma {:induction false} InitAllFailureStays(regs: seq<Tracker>, i: nat)
    requires i <= |regs| && InitAll(regs[..i]).Failure?
    ensures InitAll(regs) == InitAll(regs[..i])
    decreases |regs|
  {
    if |regs| > i {
      var init := regs[..|regs| - 1];
      assert init[..i] == regs[..i];
      InitAllFailureStays(init, i);
    } else {
      assert regs[..i] == regs;
    }
  }

  /** The loop succeeds exactly when no registration is a Regex one and every Ping item has a
      key; it then keeps the order, types and intervals and normalises the Ping items. */
  lemma {:induction false} InitAllSucceeds(regs: seq<Tracker>)
    ensures InitAll(regs).Success? <==> forall i :: 0 <= i < |regs| ==> InitRegistration(regs[i]).Success?
    ensures InitAll(regs).Success? ==> forall i :: 0 <= i < |regs| ==>
      InitAll(regs).value[i] == InitRegistration(regs[i]).value
  {
    if regs != [] {
      var init := regs[..|regs| - 1];
      InitAllSucceeds(init);
      assert forall i :: 0 <= i < |init| ==> init[i] == regs[i];
    }
  }

  /** `item.TrackerObject.LastUpdate = - item.UpdateInterval - 100`: 32-bit arithmetic,
      widened to the 64-bit timer. */
  function InitialLastUpdate(interval: int): (lu: int)
    ensures IntMin <= lu <= IntMax
    ensures interval <= IntMax - 99 && IntMin <= interval ==> lu == -interval - 100
  {
    ToInt32(-interval - 100)
  }

  /** The timers after the constructor: the last registration of each type sets it. */
  function Timers(regs: seq<Tracker>): (m: map<TrackerKind, int>)
  {
    if regs == [] then map[]
    else Timers(regs[..|regs| - 1])[regs[|regs| - 1].kind := InitialLastUpdate(regs[|regs| - 1].updateInterval)]
  }

  /** A registration left at the default interval of one minute starts with its timer at
      -60100 ms, so it is due at every non-negative stopwatch reading of the first tick. */
  lemma DefaultIntervalTimer(kind: TrackerKind, items: seq<ProfileItem>, t: int)
    requires t >= 0
    ensures Timers([NewTracker(kind, items)]) == map[kind := -60100]
    ensures Timers([NewTracker(kind, items)])[kind] + NewTracker(kind, items).updateInterval < t
  {
    assert [NewTracker(kind, items)][..0] == [];
  }

  /** Exactly the types of the profile have a timer. */
  lemma {:induction false} TimersKeys(regs: seq<Tracker>)
    ensures forall k :: k in Timers(regs) <==> exists i :: 0 <= i < |regs| && regs[i].kind == k
  {
    if regs != [] {
      var init := regs[..|regs| - 1];
      TimersKeys(init);
      forall k ensures k in Timers(regs) <==> exists i :: 0 <= i < |regs| && regs[i].kind == k {
        if k in Timers(init) {
          var i :| 0 <= i < |init| && init[i].kind == k;
          assert regs[i].kind == k;
        }
        if exists i :: 0 <= i < |regs| && regs[i].kind == k {
          var i :| 0 <= i < |regs| && regs[i].kind == k;
          if i < |init| {
            assert init[i].kind == k;
          }
        }
      }
    }
  }

  /** The timer of a type is set by the last registration of that type. */
  lemma {:induction false} TimersLastWins(regs: seq<Tracker>, i: nat)
    requires i < |regs| && forall j :: i < j < |regs| ==> regs[j].kind != regs[i].kind
    ensures regs[i].kind in Timers(regs)
    ensures Timers(regs)[regs[i].kind] == InitialLastUpdate(regs[i].updateInterval)
  {
    var init := regs[..|regs| - 1];
    if i < |init| {
      assert init[i] == regs[i];
      assert forall j :: i < j < |init| ==> init[j] == regs[j];
      TimersLastWins(init, i);
    }
  }

  /** The shared TrueNAS tracker's query start after the constructor's loop: every TrueNAS
      registration's Init resets it to `now` minus that registration's interval in whole
      seconds, so the last TrueNAS registration decides; with none, `start` stays. */
  function QueryStartAfterInit(regs: seq<Tracker>, now: int, start: int): (r: int)
    ensures (forall i :: 0 <= i < |regs| ==> regs[i].kind != TrueNas) ==> r == start
    ensures r == start || exists i :: 0 <= i < |regs| && regs[i].kind == TrueNas && r == now - TrueNasTrackers.WholeSeconds(regs[i].updateInterval)
  {
    if regs == [] then start
    else
      var last := regs[|regs| - 1];
      if last.kind == TrueNas then now - TrueNasTrackers.WholeSeconds(last.updateInterval)
      else
        var r := QueryStartAfterInit(regs[..|regs| - 1], now, start);
        assert forall i :: 0 <= i < |regs| - 1 ==> regs[..|regs| - 1][i] == regs[i];
        r
  }

  /** The query start is the last TrueNAS registration's: an earlier one's interval is lost. */
  lemma {:induction false} QueryStartLastWins(regs: seq<Tracker>, now: int, start: int, i: nat)
    requires i < |regs| && regs[i].kind == TrueNas
    requires forall j :: i < j < |regs| ==> regs[j].kind != TrueNas
    ensures QueryStartAfterInit(regs, now, start) == now - TrueNasTrackers.WholeSeconds(regs[i].updateInterval)
    decreases |regs|
  {
    if i < |regs| - 1 {
      var init := regs[..|regs| - 1];
      assert init[i] == regs[i];
      assert forall j :: i < j < |init| ==> init[j] == regs[j];
      QueryStartLastWins(init, now, start, i);
    }
  }

  /** Every registration's type has a timer. */
  predicate Registered(regs: seq<Tracker>, lastUpdate: map<TrackerKind, int>)
  {
    forall i :: 0 <= i < |regs| ==> regs[i].kind in lastUpdate
  }

  /** No two registrations share a tracker type, so none shares a timer. */
  predicate DistinctKinds(regs: seq<Tracker>)
  {
    forall i, j :: 0 <= i < j < |regs| ==> regs[i].kind != regs[j].kind
  }

  // ---------------------------------------------------------------------------------------
  // The schedule

  /** One tick of the loop as far as the timers go: `elapsed[i]` is the stopwatch reading taken
      for registration i. A registration is due when its timer plus its interval is before
      the reading; a due registration stamps the shared timer of its type with the reading.
      The result is the due registrations in order, the timers afterwards and the earliest
      deadline, starting from long.MaxValue. */
  function Schedule(regs: seq<Tracker>, lastUpdate: map<TrackerKind, int>, elapsed: seq<int>, n: nat)
    : (r: (seq<nat>, map<TrackerKind, int>, int))
    requires n <= |regs| && n <= |elapsed| && Registered(regs, lastUpdate)
    ensures r.1.Keys == lastUpdate.Keys && r.2 <= LongMax
    ensures forall k :: 0 <= k < |r.0| ==> r.0[k] < n
  {
    if n == 0 then ([], lastUpdate, LongMax)
    else ScheduleStep(regs, elapsed, Schedule(regs, lastUpdate, elapsed, n - 1), n - 1)
  }

  /** Registrations fire in profile order, each at most once. */
  lemma {:induction false} ScheduleAscending(regs: seq<Tracker>, lastUpdate: map<TrackerKind, int>, elapsed: seq<int>, n: nat)
    requires n <= |regs| && n <= |elapsed| && Registered(regs, lastUpdate)
    ensures forall k, l :: 0 <= k < l < |Schedule(regs, lastUpdate, elapsed, n).0| ==>
      Schedule(regs, lastUpdate, elapsed, n).0[k] < Schedule(regs, lastUpdate, elapsed, n).0[l]
  {
    if n > 0 {
      ScheduleAscending(regs, lastUpdate, elapsed, n - 1);
      var p := Schedule(regs, lastUpdate, elapsed, n - 1);
      var fired := Schedule(regs, lastUpdate, elapsed, n).0;
      assert fired == ScheduleStep(regs, elapsed, p, n - 1).0;
      assert forall k, l :: 0 <= k < l < |p.0| ==> p.0[k] < p.0[l];
      if fired != p.0 {
        assert fired == p.0 + [n - 1];
        forall k, l | 0 <= k < l < |fired| ensures fired[k] < fired[l] {
          if l == |p.0| {
            assert fired[k] == p.0[k] < n - 1;
          } else {
            assert fired[k] == p.0[k] && fired[l] == p.0[l];
          }
        }
      }
    }
  }

  /** Registration i's turn in the schedule. */
  function ScheduleStep(regs: seq<Tracker>, elapsed: seq<int>, p: (seq<nat>, map<TrackerKind, int>, int), i: nat)
    : (r: (seq<nat>, map<TrackerKind, int>, int))
    requires i < |regs| && i < |elapsed| && regs[i].kind in p.1
    ensures r.1.Keys == p.1.Keys && (p.2 <= LongMax ==> r.2 <= LongMax)
    ensures r.0 == p.0 || r.0 == p.0 + [i]
  {
    var (fired, timers, next) := p;
    var reg := regs[i];
    var due := timers[reg.kind] + reg.updateInterval < elapsed[i];
    var timers' := if due then timers[reg.kind := elapsed[i]] else timers;
    (if due then fired + [i] else fired, timers', Min(next, timers'[reg.kind] + reg.updateInterval))
  }

  /** With one registration per type, a registration fires exactly when its own interval has
      passed, and its timer ends at the reading when it fired and unchanged otherwise. */
  lemma ScheduleDistinct(regs: seq<Tracker>, lastUpdate: map<TrackerKind, int>, elapsed: seq<int>, n: nat)
    requires n <= |regs| && n <= |elapsed| && Registered(regs, lastUpdate) && DistinctKinds(regs)
    ensures var (fired, timers, next) := Schedule(regs, lastUpdate, elapsed, n);
      forall i :: 0 <= i < n ==>
        (i in fired <==> lastUpdate[regs[i].kind] + regs[i].updateInterval < elapsed[i]) &&
        timers[regs[i].kind] == (if i in fired then elapsed[i] else lastUpdate[regs[i].kind])
  {
    forall i | 0 <= i < n
      ensures var (fired, timers, next) := Schedule(regs, lastUpdate, elapsed, n);
        (i in fired <==> lastUpdate[regs[i].kind] + regs[i].updateInterval < elapsed[i]) &&
        timers[regs[i].kind] == (if i in fired then elapsed[i] else lastUpdate[regs[i].kind])
    {
      ScheduleDistinctAt(regs, lastUpdate, elapsed, n, i);
    }
  }

  lemma {:induction false} ScheduleDistinctAt(regs: seq<Tracker>, lastUpdate: map<TrackerKind, int>, elapsed: seq<int>, n: nat, i: nat)
    requires i < n <= |regs| && n <= |elapsed| && Registered(regs, lastUpdate) && DistinctKinds(regs)
    ensures var p := Schedule(regs, lastUpdate, elapsed, n);
      (i in p.0 <==> lastUpdate[regs[i].kind] + regs[i].updateInterval < elapsed[i]) &&
      p.1[regs[i].kind] == (if i in p.0 then elapsed[i] else lastUpdate[regs[i].kind])
  {
    var p := Schedule(regs, lastUpdate, elapsed, n - 1);
    assert Schedule(regs, lastUpdate, elapsed, n) == ScheduleStep(regs, elapsed, p, n - 1);
    if i == n - 1 {
      ScheduleUntouched(regs, lastUpdate, elapsed, n - 1, regs[i].kind);
      assert i !in p.0;
    } else {
      ScheduleDistinctAt(regs, lastUpdate, elapsed, n - 1, i);
      assert regs[i].kind != regs[n - 1].kind;
    }
  }

  /** With one registration per type, the next deadline is the earliest timer plus interval
      (unless all are beyond long.MaxValue). */
  lemma {:induction false} ScheduleNextIsEarliest(regs: seq<Tracker>, lastUpdate: map<TrackerKind, int>, elapsed: seq<int>, n: nat)
    requires n <= |regs| && n <= |elapsed| && Registered(regs, lastUpdate) && DistinctKinds(regs)
    ensures var (fired, timers, next) := Schedule(regs, lastUpdate, elapsed, n);
      (forall i :: 0 <= i < n ==> next <= timers[regs[i].kind] + regs[i].updateInterval) &&
      (next == LongMax || exists i :: 0 <= i < n && next == timers[regs[i].kind] + regs[i].updateInterval)
  {
    if n > 0 {
      ScheduleNextIsEarliest(regs, lastUpdate, elapsed, n - 1);
      var p := Schedule(regs, lastUpdate, elapsed, n - 1);
      var p' := Schedule(regs, lastUpdate, elapsed, n);
      assert p' == ScheduleStep(regs, elapsed, p, n - 1);
      var kind := regs[n - 1].kind;
      forall i | 0 <= i < n - 1 ensures p'.1[regs[i].kind] == p.1[regs[i].kind] {
        assert regs[i].kind != kind;
      }
      if p'.2 != LongMax && p'.2 != p'.1[kind] + regs[n - 1].updateInterval {
        assert p'.2 == p.2;
        var i :| 0 <= i < n - 1 && p.2 == p.1[regs[i].kind] + regs[i].updateInterval;
        assert p'.2 == p'.1[regs[i].kind] + regs[i].updateInterval;
      }
    }
  }

  /** A type that no registration before n has keeps its timer. */
  lemma {:induction false} ScheduleUntouched(regs: seq<Tracker>, lastUpdate: map<TrackerKind, int>, elapsed: seq<int>, n: nat, kind: TrackerKind)
    requires n <= |regs| && n <= |elapsed| && Registered(regs, lastUpdate) && kind in lastUpdate
    requires forall i :: 0 <= i < n ==> regs[i].kind != kind
    ensures Schedule(regs, lastUpdate, elapsed, n).1[kind] == lastUpdate[kind]
  {
    if n > 0 {
      ScheduleUntouched(regs, lastUpdate, elapsed, n - 1, kind);
    }
  }

  /** On the first tick after the constructor, with one registration per type and intervals a
      32-bit negation cannot wrap, every registration fires. */
  lemma FirstTickFiresAll(regs: seq<Tracker>, elapsed: seq<int>)
    requires |elapsed| == |regs| && DistinctKinds(regs)
    requires forall i :: 0 <= i < |regs| ==> 0 <= regs[i].updateInterval <= IntMax - 99 && elapsed[i] >= 0
    ensures Registered(regs, Timers(regs))
    ensures Schedule(regs, Timers(regs), elapsed, |regs|).0 == seq(|regs|, i => i)
  {
    forall i | 0 <= i < |regs| ensures regs[i].kind in Timers(regs) && Timers(regs)[regs[i].kind] == InitialLastUpdate(regs[i].updateInterval) {
      TimersLastWins(regs, i);
    }
    ScheduleDistinct(regs, Timers(regs), elapsed, |regs|);
    var fired := Schedule(regs, Timers(regs), elapsed, |regs|).0;
    assert forall i :: 0 <= i < |regs| ==> i in fired;
    ScheduleAscending(regs, Timers(regs), elapsed, |regs|);
    AscendingCovering(fired, |regs|);
  }

  /** A strictly ascending sequence of indices below n that contains each of them is 0..n-1. */
  lemma AscendingCovering(s: seq<nat>, n: nat)
    requires forall k :: 0 <= k < |s| ==> s[k] < n
    requires forall k, l :: 0 <= k < l < |s| ==> s[k] < s[l]
    requires forall i :: 0 <= i < n ==> i in s
    ensures s == seq(n, i => i)
  {
    AscendingIdentity(s, n, n);
    if |s| > n {
      AscendingAtLeastIndex(s, |s| - 1);
    }
  }

  /** The first k positions of such a sequence hold 0..k-1. */
  lemma {:induction false} AscendingIdentity(s: seq<nat>, n: nat, k: nat)
    requires k <= n
    requires forall a, b :: 0 <= a < b < |s| ==> s[a] < s[b]
    requires forall i :: 0 <= i < n ==> i in s
    ensures k <= |s| && forall j :: 0 <= j < k ==> s[j] == j
  {
    if k > 0 {
      AscendingIdentity(s, n, k - 1);
      var v := k - 1;
      assert v in s;
      var p :| 0 <= p < |s| && s[p] == v;
      // The positions before v hold the smaller values, so v sits at position v or later; the
      // value at position v is at least v, so it is v itself.
      AscendingAtLeastIndex(s, v);
      assert p == v;
    }
  }

  lemma {:induction false} AscendingAtLeastIndex(s: seq<nat>, k: nat)
    requires k < |s| && forall a, b :: 0 <= a < b < |s| ==> s[a] < s[b]
    ensures s[k] >= k
  {
    if k > 0 {
      AscendingAtLeastIndex(s, k - 1);
    }
  }

  /** Start's sleep: `Math.Max(100, (int)(nextUpdate - sw.ElapsedMilliseconds + 1))`, the
      subtraction in 64-bit arithmetic and the cast keeping the low 32 bits. */
  function SleepTime(next: int, now: int): (sleep: int)
    ensures 100 <= sleep <= IntMax
    ensures 100 <= next - now + 1 <= IntMax ==> sleep == next - now + 1
    ensures next - now + 1 < 100 && IntMin <= next - now + 1 ==> sleep == 100
  {
    Max(100, ToInt32(ToInt64(next - now + 1)))
  }

  /** With no registration the deadline stays long.MaxValue; the sum then wraps (or, at the
      reading 0, overflows to long.MinValue) and the loop sleeps the minimum 100 ms. */
  lemma EmptyProfileSleepsMinimum(now: int)
    requires 0 <= now <= IntMax
    ensures SleepTime(LongMax, now) == 100
  {
    var v := LongMax - now + 1;
    var w := ToInt64(v);
    if now == 0 {
      assert w == LongMin;
      assert ToInt32(w) == 0;
    } else {
      assert w == v;
      assert (v - IntMin) % 0x1_0000_0000 == 0x8000_0000 - now;
      assert ToInt32(w) == -now;
    }
  }

  // ---------------------------------------------------------------------------------------
  // One tick with drawing

  /** How a tracker's Display ends on a device of the given dialect: on the Launchpad Pro a
      draw call that does not fit throws IndexOutOfRangeException and ends it; the tracker's
      own exception comes after its calls; the generic device ignores every call. */
  function RenderOutcome(dialect: Dialect, r: Rendering): (o: Outcome)
    ensures o == Done <==> r.fault.None? && (dialect == Generic || forall k :: 0 <= k < |r.calls| ==> CallFits(r.calls[k]))
    ensures dialect == Generic ==> o == (if r.fault.Some? then Thrown(r.fault.value) else Done)
  {
    if dialect.LaunchpadPro? && !(forall k :: 0 <= k < |r.calls| ==> CallFits(r.calls[k])) then Thrown(IndexOutOfRange)
    else if r.fault.Some? then Thrown(r.fault.value)
    else Done
  }

  /** The device after a tracker's Display: the Launchpad Pro replays the calls up to the first
      that throws, the generic device stays as it is. */
  function Rendered(dialect: Dialect, m: Mirror, r: Rendering): (m': Mirror)
    requires |m.buffer| == GridCells
    ensures |m'.buffer| == GridCells
    ensures dialect == Generic ==> m' == m
  {
    if dialect == Generic then m else Replay(m, r.calls).0
  }

  /** The device after the Displays of the fired registrations, in order. */
  function Painted(dialect: Dialect, m: Mirror, renderings: seq<Rendering>, fired: seq<nat>): (m': Mirror)
    requires |m.buffer| == GridCells && forall k :: 0 <= k < |fired| ==> fired[k] < |renderings|
    ensures |m'.buffer| == GridCells
  {
    if fired == [] then m
    else Rendered(dialect, Painted(dialect, m, renderings, fired[..|fired| - 1]), renderings[fired[|fired| - 1]])
  }

  /** The generic device is never drawn on. */
  lemma {:induction false} GenericPaintsNothing(m: Mirror, renderings: seq<Rendering>, fired: seq<nat>)
    requires |m.buffer| == GridCells && forall k :: 0 <= k < |fired| ==> fired[k] < |renderings|
    ensures Painted(Generic, m, renderings, fired) == m
  {
    if fired != [] {
      GenericPaintsNothing(m, renderings, fired[..|fired| - 1]);
    }
  }

  /** Device.Update against the mirror: the Launchpad Pro sends every pending column. */
  function Flushed(dialect: Dialect, m: Mirror): (r: Mirror)
    requires |m.buffer| == GridCells
    ensures dialect == Generic ==> r == m
    ensures dialect == LaunchpadPro ==> r.buffer == m.buffer && r.mask == m.mask && r.sent == m.sent + Flushes(m.buffer, m.mask)
  {
    if dialect == Generic then m else m.(sent := m.sent + Flushes(m.buffer, m.mask))
  }

  /** Every fired registration's Display before the last ends without an exception. */
  predicate QuietBefore(dialect: Dialect, renderings: seq<Rendering>, fired: seq<nat>, count: nat)
    requires count <= |fired| && forall k :: 0 <= k < |fired| ==> fired[k] < |renderings|
  {
    forall k :: 0 <= k < count ==> RenderOutcome(dialect, renderings[fired[k]]) == Done
  }

  /** After the first i turns of a pass without an exception: the schedule's firings, timers
      and deadline, quiet renderings, and the device drawn by them. */
  ghost predicate TurnsSoFar(regs: seq<Tracker>, timers0: map<TrackerKind, int>, elapsed: seq<int>,
                             renderings: seq<Rendering>, dialect: Dialect, m0: Mirror, i: nat,
                             fired: seq<nat>, timers: map<TrackerKind, int>, next: int, m: Mirror)
    requires i <= |regs| == |elapsed| == |renderings| && Registered(regs, timers0) && |m0.buffer| == GridCells
  {
    (fired, timers, next) == Schedule(regs, timers0, elapsed, i) &&
    QuietBefore(dialect, renderings, fired, |fired|) &&
    m == Painted(dialect, m0, renderings, fired)
  }

  /** A pass left at the last fired registration, whose rendering threw: the schedule's firings
      and timers up to it, quiet renderings before it, and the device drawn by all of them. */
  ghost predicate TurnsStopped(regs: seq<Tracker>, timers0: map<TrackerKind, int>, elapsed: seq<int>,
                               renderings: seq<Rendering>, dialect: Dialect, m0: Mirror,
                               fired: seq<nat>, timers: map<TrackerKind, int>, outcome: Outcome, m: Mirror)
    requires |regs| == |elapsed| == |renderings| && Registered(regs, timers0) && |m0.buffer| == GridCells
  {
    |fired| > 0 && (forall k :: 0 <= k < |fired| ==> fired[k] < |regs|) &&
    fired == Schedule(regs, timers0, elapsed, fired[|fired| - 1] + 1).0 &&
    timers == Schedule(regs, timers0, elapsed, fired[|fired| - 1] + 1).1 &&
    QuietBefore(dialect, renderings, fired, |fired| - 1) &&
    outcome.Thrown? && outcome == RenderOutcome(dialect, renderings[fired[|fired| - 1]]) &&
    m == Painted(dialect, m0, renderings, fired)
  }

  /** One turn, as the scheduler and the device take it, keeps a pass on the schedule or
      leaves it where the rendering threw. */
  lemma TurnAdvances(regs: seq<Tracker>, timers0: map<TrackerKind, int>, elapsed: seq<int>,
                     renderings: seq<Rendering>, dialect: Dialect, m0: Mirror, i: nat,
                     before: (seq<nat>, map<TrackerKind, int>, int), m: Mirror,
                     fired: seq<nat>, timers: map<TrackerKind, int>, next: int, outcome: Outcome, m': Mirror)
    requires i < |regs| == |elapsed| == |renderings| && Registered(regs, timers0) && |m0.buffer| == GridCells
    requires TurnsSoFar(regs, timers0, elapsed, renderings, dialect, m0, i, before.0, before.1, before.2, m)
    requires regs[i].kind in before.1
    requires var p := ScheduleStep(regs, elapsed, before, i);
      fired == p.0 && timers == p.1 && (outcome == Done ==> next == p.2) &&
      (fired == before.0 ==> outcome == Done && m' == m) &&
      (fired != before.0 ==> outcome == RenderOutcome(dialect, renderings[i]) && m' == Rendered(dialect, m, renderings[i]))
    ensures outcome == Done ==> TurnsSoFar(regs, timers0, elapsed, renderings, dialect, m0, i + 1, fired, timers, next, m')
    ensures outcome.Thrown? ==> TurnsStopped(regs, timers0, elapsed, renderings, dialect, m0, fired, timers, outcome, m')
  {
    assert Schedule(regs, timers0, elapsed, i + 1) == ScheduleStep(regs, elapsed, before, i);
    if fired != before.0 {
      PaintedExtend(dialect, m0, renderings, before.0, i);
      assert fired[|fired| - 1] == i;
    }
  }

  /** Drawing one more fired registration: the earlier ones keep their places and the device
      gets that registration's rendering on top. */
  lemma PaintedExtend(dialect: Dialect, m0: Mirror, renderings: seq<Rendering>, fired: seq<nat>, i: nat)
    requires |m0.buffer| == GridCells && i < |renderings|
    requires forall k :: 0 <= k < |fired| ==> fired[k] < |renderings|
    ensures (fired + [i])[..|fired|] == fired
    ensures Painted(dialect, m0, renderings, fired + [i]) == Rendered(dialect, Painted(dialect, m0, renderings, fired), renderings[i])
  {
    assert (fired + [i])[..|fired|] == fired;
  }

  // ---------------------------------------------------------------------------------------
  // Finding: registrations of one type share a timer

  /** A slow and a fast ping registration. */
  function StarvedProfile(): (regs: seq<Tracker>)
    ensures |regs| == 2 && regs[0].kind == regs[1].kind == Ping
    ensures regs[0].updateInterval == 3000 && regs[1].updateInterval == 1000
  {
    [Tracker(Ping, 3000, []), Tracker(Ping, 1000, [])]
  }

  /** The loop as written, with a stopwatch that stands still during a tick and sleeps that
      last exactly as long as asked: the registrations fired by each of k ticks, the first at
      reading t. */
  function SharedRun(regs: seq<Tracker>, timers: map<TrackerKind, int>, t: int, k: nat): (run: seq<seq<nat>>)
    requires Registered(regs, timers)
    ensures |run| == k
    decreases k
  {
    if k == 0 then []
    else
      var (fired, timers', next) := Schedule(regs, timers, seq(|regs|, _ => t), |regs|);
      [fired] + SharedRun(regs, timers', t + SleepTime(next, t), k - 1)
  }

  /** While the shared timer was stamped between 1 and 2 seconds before the reading, only the
      fast registration is due; it stamps the timer again and the loop sleeps 1001 ms. */
  lemma StarvedStep(last: int, t: int)
    requires 1000 < t - last <= 2000 && t <= LongMax - 3000
    ensures Registered(StarvedProfile(), map[Ping := last])
    ensures var (fired, timers, next) := Schedule(StarvedProfile(), map[Ping := last], [t, t], 2);
      fired == [1] && timers == map[Ping := t] && SleepTime(next, t) == 1001
  {
    var regs := StarvedProfile();
    var lu := map[Ping := last];
    var p0 := Schedule(regs, lu, [t, t], 0);
    assert p0 == ([], lu, LongMax);
    var p1 := Schedule(regs, lu, [t, t], 1);
    assert p1 == ScheduleStep(regs, [t, t], p0, 0);
    assert p1 == ([], lu, last + 3000);
    var p2 := Schedule(regs, lu, [t, t], 2);
    assert p2 == ScheduleStep(regs, [t, t], p1, 1);
    assert p2.0 == p1.0 + [1] == [1];
    assert p2.1 == lu[Ping := t] == map[Ping := t];
    assert p2.2 == Min(last + 3000, t + 1000) == t + 1000;
  }

  /** As written, the slow registration never fires: the fast one keeps stamping the timer they
      share before the slow one's 3 seconds can pass. */
  lemma {:induction false} SlowRegistrationStarves(last: int, t: int, k: nat)
    requires 1000 < t - last <= 2000 && t + 1001 * k <= LongMax - 3000
    ensures forall j :: 0 <= j < k ==> SharedRun(StarvedProfile(), map[Ping := last], t, k)[j] == [1]
    decreases k
  {
    if k > 0 {
      SharedRunStarvedStep(last, t, k);
      SlowRegistrationStarves(t, t + 1001, k - 1);
    }
  }

  /** One tick of the starving run: it fires the fast registration, and every later tick is
      the starving run from the next reading, 1001 ms later, with the timer stamped at this one. */
  lemma SharedRunStarvedStep(last: int, t: int, k: nat)
    requires 1000 < t - last <= 2000 && t <= LongMax - 3000 && k > 0
    ensures Registered(StarvedProfile(), map[Ping := last]) && Registered(StarvedProfile(), map[Ping := t])
    ensures SharedRun(StarvedProfile(), map[Ping := last], t, k)[0] == [1]
    ensures forall j :: 1 <= j < k ==>
      SharedRun(StarvedProfile(), map[Ping := last], t, k)[j] == SharedRun(StarvedProfile(), map[Ping := t], t + 1001, k - 1)[j - 1]
  {
    StarvedStep(last, t);
    var regs := StarvedProfile();
    assert seq(|regs|, _ => t) == [t, t];
    assert SharedRun(regs, map[Ping := last], t, k) == [[1]] + SharedRun(regs, map[Ping := t], t + 1001, k - 1);
  }

  /** The constructor sets the shared timer from the fast registration, so starting the loop
      within 900 ms starves the slow registration from the first tick on. */
  lemma StarvedFromStart(t: int, k: nat)
    requires 0 <= t <= 900 && 1001 * k <= LongMax - 4000
    ensures Timers(StarvedProfile()) == map[Ping := -1100]
    ensures forall j :: 0 <= j < k ==> SharedRun(StarvedProfile(), Timers(StarvedProfile()), t, k)[j] == [1]
  {
    var regs := StarvedProfile();
    assert regs[..1] == [regs[0]];
    assert regs[..1][..0] == [];
    SlowRegistrationStarves(-1100, t, k);
  }

  /** The schedule as the per-registration intervals mean it: every registration has its own
      timer, `timers[i]`. */
  function ScheduleOwn(regs: seq<Tracker>, timers: seq<int>, elapsed: seq<int>, n: nat)
    : (r: (seq<nat>, seq<int>, int))
    requires n <= |regs| && n <= |elapsed| && |timers| == |regs|
    ensures |r.1| == |regs|
    ensures forall k :: 0 <= k < |r.0| ==> r.0[k] < n
    ensures forall i :: n <= i < |regs| ==> r.1[i] == timers[i]
  {
    if n == 0 then ([], timers, LongMax)
    else
      var (fired, own, next) := ScheduleOwn(regs, timers, elapsed, n - 1);
      var i := n - 1;
      var due := own[i] + regs[i].updateInterval < elapsed[i];
      var own' := if due then own[i := elapsed[i]] else own;
      (if due then fired + [i] else fired, own', Min(next, own'[i] + regs[i].updateInterval))
  }

  /** The timers the constructor would set, one per registration. */
  function OwnTimers(regs: seq<Tracker>): (timers: seq<int>)
    ensures |timers| == |regs| && forall i :: 0 <= i < |regs| ==> timers[i] == InitialLastUpdate(regs[i].updateInterval)
  {
    seq(|regs|, i requires 0 <= i < |regs| => InitialLastUpdate(regs[i].updateInterval))
  }

  /** With own timers every registration fires exactly when its own interval has passed since
      its own last update, whatever the other registrations are; the deadline is the earliest
      of the new timers plus their intervals. */
  lemma {:induction false} OwnFiresWhenDue(regs: seq<Tracker>, timers: seq<int>, elapsed: seq<int>, n: nat)
    requires n <= |regs| && n <= |elapsed| && |timers| == |regs|
    ensures var (fired, own, next) := ScheduleOwn(regs, timers, elapsed, n);
      forall i :: 0 <= i < n ==>
        (i in fired <==> timers[i] + regs[i].updateInterval < elapsed[i]) &&
        own[i] == (if i in fired then elapsed[i] else timers[i]) &&
        next <= own[i] + regs[i].updateInterval
  {
    if n > 0 {
      OwnFiresWhenDue(regs, timers, elapsed, n - 1);
      var prev := ScheduleOwn(regs, timers, elapsed, n - 1);
      assert n - 1 !in prev.0;
    }
  }

  /** With one registration per type the two schedules agree, so own timers change nothing for
      such profiles. */
  lemma {:induction false} OwnAgreesWhenDistinct(regs: seq<Tracker>, lastUpdate: map<TrackerKind, int>, elapsed: seq<int>, n: nat)
    requires n <= |regs| && n <= |elapsed| && Registered(regs, lastUpdate) && DistinctKinds(regs)
    ensures var timers := seq(|regs|, i requires 0 <= i < |regs| => lastUpdate[regs[i].kind]);
      var (fired, shared, next) := Schedule(regs, lastUpdate, elapsed, n);
      var (fired', own, next') := ScheduleOwn(regs, timers, elapsed, n);
      fired == fired' && next == next' && forall i :: 0 <= i < |regs| ==> shared[regs[i].kind] == own[i]
  {
    var timers := seq(|regs|, i requires 0 <= i < |regs| => lastUpdate[regs[i].kind]);
    if n == 0 {
    } else {
      OwnAgreesWhenDistinct(regs, lastUpdate, elapsed, n - 1);
      var p := Schedule(regs, lastUpdate, elapsed, n - 1);
      var q := ScheduleOwn(regs, timers, elapsed, n - 1);
      assert Schedule(regs, lastUpdate, elapsed, n) == ScheduleStep(regs, elapsed, p, n - 1);
      var kind := regs[n - 1].kind;
      var p' := Schedule(regs, lastUpdate, elapsed, n);
      var q' := ScheduleOwn(regs, timers, elapsed, n);
      assert p.1[kind] == q.1[n - 1];
      forall i | 0 <= i < |regs| ensures p'.1[regs[i].kind] == q'.1[i] {
        if i != n - 1 {
          assert regs[i].kind != kind;
        }
      }
    }
  }

  /** With own timers the example fires both registrations on the first tick, and the slow one
      fires at every tick more than 3 seconds after it last did. */
  lemma OwnTimersServeSlowRegistration(t: int, timers: seq<int>)
    requires t >= 0 && |timers| == 2
    ensures ScheduleOwn(StarvedProfile(), OwnTimers(StarvedProfile()), [t, t], 2).0 == [0, 1]
    ensures timers[0] + 3000 < t ==> 0 in ScheduleOwn(StarvedProfile(), timers, [t, t], 2).0
  {
    OwnFiresWhenDue(StarvedProfile(), OwnTimers(StarvedProfile()), [t, t], 2);
    OwnFiresWhenDue(StarvedProfile(), timers, [t, t], 2);
  }

  // ---------------------------------------------------------------------------------------
  // The controller object

  /** A device the loop can draw on: consistent, and with an open output when it is a
      Launchpad Pro (the generic device never sends). */
  ghost predicate Drawable(d: Device)
    reads d, d.drawFrame, d.columnFrame
  {
    d.Valid() && (d.dialect == LaunchpadPro ==> d.CanSend())
  }

  class Controller {
    /** The profile's registrations, as the trackers' Init left them. */
    var registrations: seq<Tracker>
    /** The device found by the constructor; null when no input matched. */
    var device: Device?
    /** The LastUpdate timer of each tracker type's (shared) tracker object. */
    var lastUpdate: map<TrackerKind, int>
    /** `Running`. */
    var running: bool
    /** `_notDisposed`: the loop goes on while it holds. */
    var notDisposed: bool
    /** The static TrueNAS tracker object, created when the profile uses TrueNAS. */
    var trueNas: TrueNasTrackers.TrueNasTracker?

    constructor (registrations: seq<Tracker>, device: Device?, lastUpdate: map<TrackerKind, int>,
                 trueNas: TrueNasTrackers.TrueNasTracker?)
      ensures this.registrations == registrations && this.device == device && this.lastUpdate == lastUpdate
      ensures this.trueNas == trueNas
      ensures !running && notDisposed
    {
      this.registrations := registrations;
      this.device := device;
      this.lastUpdate := lastUpdate;
      this.trueNas := trueNas;
      running := false;
      notDisposed := true;
    }

    /** Controller(log, profile, config, device): the guard, the device search by name prefix
        among `inputs`, the tracker objects the profile uses, then GetTracker, Init and the
        timer of every registration in order. `now` is the clock in Unix seconds, which the
        TrueNAS tracker's constructor and Init read. */
    static method Create(profile: Profile, config: AppConfig, device: Device?, inputs: seq<Port>, now: int)
      returns (c: Controller?, outcome: Outcome)
      ensures !GuardAsWritten(device != null, profile.device, config.defaultDevice) ==>
        c == null && outcome == Thrown(NullReference)
      ensures GuardAsWritten(device != null, profile.device, config.defaultDevice) && InitAll(profile.items).Failure? ==>
        c == null && outcome == Thrown(InitAll(profile.items).fault)
      ensures GuardAsWritten(device != null, profile.device, config.defaultDevice) && InitAll(profile.items).Success? ==>
        outcome == Done && c != null && fresh(c) &&
        c.registrations == InitAll(profile.items).value && c.lastUpdate == Timers(profile.items) &&
        !c.running && c.notDisposed &&
        var k := FirstMatch(inputs, SearchName(profile.device, config.defaultDevice));
        (k.None? ==> c.device == null) &&
        (k.Some? ==>
          c.device != null && fresh(c.device) && c.device.Valid() &&
          c.device.deviceId == inputs[k.value].id && c.device.dialect == DialectFor(inputs[k.value].name) &&
          c.device.phase == OpeningInput && c.device.sent == []) &&
        (UsingTracker(profile, TrueNas) ==>
          c.trueNas != null && fresh(c.trueNas) && c.trueNas.Valid() && c.trueNas.graphs == map[] &&
          c.trueNas.lastQueryTime == QueryStartAfterInit(profile.items, now, now - 60)) &&
        (!UsingTracker(profile, TrueNas) ==> c.trueNas == null)
    {
      if !(device == null && profile.device != Some("") && config.defaultDevice != "") {
        return null, Thrown(NullReference);
      }
      var name := SearchName(profile.device, config.defaultDevice);
      var found: Device? := null;
      var j := 0;
      while j < |inputs|
        invariant 0 <= j <= |inputs|
        invariant forall l :: 0 <= l < j ==> !NameMatches(inputs[l].name, name)
      {
        if NameMatches(inputs[j].name, name) {
          found := Device.Start(inputs[j]);
          break;
        }
        j := j + 1;
      }
      assert j < |inputs| ==> FirstMatch(inputs, name) == Some(j);
      assert j == |inputs| ==> FirstMatch(inputs, name).None?;

      var trueNas: TrueNasTrackers.TrueNasTracker? := null;
      if UsingTracker(profile, TrueNas) {
        trueNas := new TrueNasTrackers.TrueNasTracker(now);
      }
      var regs, timers, o := InitRegistrations(profile.items, trueNas, now);
      if o.Thrown? {
        return null, o;
      }
      c := new Controller(regs, found, timers, trueNas);
      outcome := Done;
    }

    /** The constructor's loop over the registrations: GetTracker, the tracker's Init and the
        tracker's LastUpdate, in profile order; the first exception leaves the constructor.
        Each TrueNAS registration's Init resets the shared TrueNAS tracker's query start. */
    static method InitRegistrations(items: seq<Tracker>, trueNas: TrueNasTrackers.TrueNasTracker?, now: int)
      returns (regs: seq<Tracker>, timers: map<TrackerKind, int>, outcome: Outcome)
      requires AnyOfKind(items, TrueNas) ==> trueNas != null
      modifies if trueNas != null then {trueNas} else {}
      ensures InitAll(items).Failure? ==> outcome == Thrown(InitAll(items).fault)
      ensures InitAll(items).Success? ==> outcome == Done && regs == InitAll(items).value && timers == Timers(items)
      ensures trueNas != null && InitAll(items).Success? ==>
        trueNas.lastQueryTime == QueryStartAfterInit(items, now, old(trueNas.lastQueryTime)) &&
        trueNas.graphs == old(trueNas.graphs)
    {
      regs := [];
      timers := map[];
      var i := 0;
      while i < |items|
        invariant 0 <= i <= |items|
        invariant InitAll(items[..i]) == Success(regs)
        invariant timers == Timers(items[..i])
        invariant trueNas != null ==>
          trueNas.lastQueryTime == QueryStartAfterInit(items[..i], now, old(trueNas.lastQueryTime)) &&
          trueNas.graphs == old(trueNas.graphs)
      {
        var reg := items[i];
        assert items[..i + 1][..i] == items[..i];
        assert items[..i + 1][i] == reg;
        var initialised := reg;
        if reg.kind == Regex {
          InitAllFailureStays(items, i + 1);
          return regs, timers, Thrown(NotImplemented);
        }
        if reg.kind == Ping {
          var pinged, o := PingTrackers.Init(reg.items);
          if o.Thrown? {
            InitAllFailureStays(items, i + 1);
            return regs, timers, o;
          }
          assert pinged == NormaliseAll(reg.items);
          initialised := reg.(items := pinged);
        }
        if reg.kind == TrueNas {
          assert reg in items;
          trueNas.Init(now, reg.updateInterval);
        }
        regs := regs + [initialised];
        timers := timers[reg.kind := InitialLastUpdate(reg.updateInterval)];
        i := i + 1;
      }
      assert items[..i] == items;
      outcome := Done;
    }

    /** Start up to the loop: a missing device throws; otherwise the controller runs. The busy
        wait for the device's connection is the caller's: a tick needs a connected device. */
    method Begin() returns (outcome: Outcome)
      modifies this`running, this`notDisposed
      ensures device == null ==> outcome == Thrown(NullReference) && running == old(running) && notDisposed == old(notDisposed)
      ensures device != null ==> outcome == Done && running && notDisposed
    {
      if device == null {
        return Thrown(NullReference);
      }
      running := true;
      notDisposed := true;
      outcome := Done;
    }

    /** One pass of Start's loop. `elapsed[i]` is the stopwatch reading for registration i,
        `renderings[i]` what its tracker's Update and Display do if it is due, and `now` the
        reading the sleep is computed from. Without an exception the pass fires what the
        schedule says, draws their renderings and flushes the device once if any fired; an
        exception leaves the pass (and Start) at the registration whose tracker threw, with the
        timers stamped up to it and no flush. */
    method Tick(elapsed: seq<int>, renderings: seq<Rendering>, now: int) returns (fired: seq<nat>, sleep: int, outcome: Outcome)
      requires Registered(registrations, lastUpdate)
      requires |elapsed| == |registrations| && |renderings| == |registrations|
      requires device != null && Drawable(device)
      modifies this`lastUpdate, device`sent, device`pendingColumn, device.drawFrame, device.buffer, device.columnFrame
      ensures Registered(registrations, lastUpdate) && Drawable(device)
      ensures forall k :: 0 <= k < |fired| ==> fired[k] < |registrations|
      ensures outcome == Done ==>
        var (fired', timers, next) := Schedule(registrations, old(lastUpdate), elapsed, |registrations|);
        fired == fired' && lastUpdate == timers && QuietBefore(device.dialect, renderings, fired, |fired|) &&
        sleep == SleepTime(next, now) &&
        device.State() == (var m := Painted(device.dialect, old(device.State()), renderings, fired);
                           if |fired| > 0 then Flushed(device.dialect, m) else m)
      ensures outcome.Thrown? ==>
        |fired| > 0 &&
        var last := fired[|fired| - 1];
        fired == Schedule(registrations, old(lastUpdate), elapsed, last + 1).0 &&
        lastUpdate == Schedule(registrations, old(lastUpdate), elapsed, last + 1).1 &&
        QuietBefore(device.dialect, renderings, fired, |fired| - 1) &&
        outcome == RenderOutcome(device.dialect, renderings[last]) &&
        device.State() == Painted(device.dialect, old(device.State()), renderings, fired)
    {
      var next;
      fired, next, outcome := Turns(elapsed, renderings);
      sleep := 100;
      if outcome.Thrown? {
        return;
      }
      if |fired| > 0 {
        device.Update();
      }
      sleep := SleepTime(next, now);
    }

    /** The registrations' turns of one pass, in profile order, up to the first exception. */
    method Turns(elapsed: seq<int>, renderings: seq<Rendering>) returns (fired: seq<nat>, next: int, outcome: Outcome)
      requires Registered(registrations, lastUpdate)
      requires |elapsed| == |registrations| && |renderings| == |registrations|
      requires device != null && Drawable(device)
      modifies this`lastUpdate, device`sent, device`pendingColumn, device.drawFrame, device.buffer
      ensures Registered(registrations, lastUpdate) && Drawable(device)
      ensures outcome == Done ==> TurnsSoFar(registrations, old(lastUpdate), elapsed, renderings, device.dialect,
        old(device.State()), |registrations|, fired, lastUpdate, next, device.State())
      ensures outcome.Thrown? ==> TurnsStopped(registrations, old(lastUpdate), elapsed, renderings, device.dialect,
        old(device.State()), fired, lastUpdate, outcome, device.State())
    {
      var d := device;
      ghost var m0 := d.State();
      ghost var timers0 := lastUpdate;
      next := LongMax;
      fired := [];
      outcome := Done;
      var i := 0;
      while i < |registrations|
        invariant 0 <= i <= |registrations| && Drawable(d) && outcome == Done
        invariant Registered(registrations, lastUpdate)
        invariant TurnsSoFar(registrations, timers0, elapsed, renderings, d.dialect, m0, i, fired, lastUpdate, next, d.State())
      {
        ghost var before := (fired, lastUpdate, next);
        ghost var m := d.State();
        fired, next, outcome := TakeTurn(i, elapsed, renderings, fired, next);
        TurnAdvances(registrations, timers0, elapsed, renderings, d.dialect, m0, i, before, m,
                     fired, lastUpdate, next, outcome, d.State());
        if outcome.Thrown? {
          return;
        }
        i := i + 1;
      }
    }

    /** Registration i's turn in Start's loop: stamp and draw if due, then take its deadline
        into account. */
    method TakeTurn(i: nat, elapsed: seq<int>, renderings: seq<Rendering>, fired: seq<nat>, next: int)
      returns (fired': seq<nat>, next': int, outcome: Outcome)
      requires i < |registrations| && i < |elapsed| && i < |renderings| && registrations[i].kind in lastUpdate
      requires device != null && Drawable(device)
      modifies this`lastUpdate, device`sent, device`pendingColumn, device.drawFrame, device.buffer
      ensures Drawable(device)
      ensures var p := ScheduleStep(registrations, elapsed, (fired, old(lastUpdate), next), i);
        fired' == p.0 && lastUpdate == p.1 &&
        (fired' == fired ==> outcome == Done && device.State() == old(device.State())) &&
        (fired' != fired ==>
          outcome == RenderOutcome(device.dialect, renderings[i]) &&
          device.State() == Rendered(device.dialect, old(device.State()), renderings[i])) &&
        (outcome == Done ==> next' == p.2)
    {
      var reg := registrations[i];
      fired' := fired;
      next' := next;
      outcome := Done;
      if lastUpdate[reg.kind] + reg.updateInterval < elapsed[i] {
        lastUpdate := lastUpdate[reg.kind := elapsed[i]];
        fired' := fired + [i];
        outcome := device.Render(renderings[i]);
        if outcome.Thrown? {
          return;
        }
      }
      next' := Min(next, lastUpdate[reg.kind] + reg.updateInterval);
    }

    /** The end of Start once the loop has stopped: the device is disposed and the controller
        no longer runs. */
    method Finish()
      requires device != null ==> device.Valid()
      modifies this`running, device, if device != null then {device.buffer} else {}
      ensures !running
      ensures device != null ==>
        device.Valid() && !device.outputOpen &&
        device.sent == old(device.sent) + (if device.dialect == LaunchpadPro && old(device.CanSend()) then [ClearFrame] else [])
      ensures device != null && device.dialect == LaunchpadPro && old(device.CanSend()) ==>
        forall c :: 0 <= c < GridCells ==> device.buffer[c] == 0
      ensures device != null && !(device.dialect == LaunchpadPro && old(device.CanSend())) ==>
        device.buffer[..] == old(device.buffer[..])
    {
      if device != null {
        device.Dispose();
      }
      running := false;
    }

    /** Stop: the loop ends after its current pass. */
    method Stop()
      modifies this`notDisposed
      ensures !notDisposed
    {
      notDisposed := false;
    }

    /** Dispose: stop the loop, dispose the device and mark the controller as not running. */
    method Dispose()
      requires device != null ==> device.Valid()
      modifies this`notDisposed, this`running, device, if device != null then {device.buffer} else {}
      ensures !notDisposed && !running
      ensures device != null ==>
        device.Valid() && !device.outputOpen &&
        device.sent == old(device.sent) + (if device.dialect == LaunchpadPro && old(device.CanSend()) then [ClearFrame] else [])
      ensures device != null && device.dialect == LaunchpadPro && old(device.CanSend()) ==>
        forall c :: 0 <= c < GridCells ==> device.buffer[c] == 0
      ensures device != null && !(device.dialect == LaunchpadPro && old(device.CanSend())) ==>
        device.buffer[..] == old(device.buffer[..])
    {
      notDisposed := false;
      if device != null {
        device.Dispose();
      }
      running := false;
    }
  }
}
