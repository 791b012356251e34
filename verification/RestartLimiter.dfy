/** The watchdog's restart limiter. Times are in microseconds. */
module RestartLimiter {

  const SECOND: int := 1_000_000
  const RESTART_COOLDOWN: int := 60 * SECOND
  const HOUR: int := 3600 * SECOND
  const MAX_RESTARTS_PER_HOUR: nat := 5

  datatype Limiter = Limiter(restartTimes: map<string, seq<int>>, lastRestart: map<string, int>)

  function History(w: Limiter, service: string): seq<int> {
    if service in w.restartTimes then w.restartTimes[service] else []
  }

  /** The stamps later than `cutoff`. */
  function Recent(stamps: seq<int>, cutoff: int): seq<int> {
    if stamps == [] then []
    else (if stamps[0] > cutoff then [stamps[0]] else []) + Recent(stamps[1..], cutoff)
  }

  predicate CoolingDown(w: Limiter, service: string, now: int) {
    service in w.lastRestart && now - w.lastRestart[service] < RESTART_COOLDOWN
  }

  /** `works` tells whether the restart command succeeds when it is run. */
  predicate Restarts(w: Limiter, service: string, now: int, works: bool) {
    !CoolingDown(w, service, now) && |Recent(History(w, service), now - HOUR)| < MAX_RESTARTS_PER_HOUR && works
  }

  function AfterCheck(w: Limiter, service: string, now: int, works: bool): Limiter {
    if CoolingDown(w, service, now) then w
    else
      var history := Recent(History(w, service), now - HOUR);
      if Restarts(w, service, now, works)
      then Limiter(w.restartTimes[service := history + [now]], w.lastRestart[service := now])
      else w.(restartTimes := w.restartTimes[service := history])
  }

  lemma {:induction false} RecentFrom(stamps: seq<int>, i: nat, cutoff: int)
    requires i < |stamps|
    ensures Recent(stamps[i..], cutoff) ==
            (if stamps[i] > cutoff then [stamps[i]] else []) + Recent(stamps[i + 1..], cutoff)
  {
    assert stamps[i..][1..] == stamps[i + 1..];
  }

  class Watchdog {
    var restartTimes: map<string, seq<int>>
    var lastRestart: map<string, int>

    ghost function Snapshot(): Limiter
      reads this
    {
      Limiter(restartTimes, lastRestart)
    }

    constructor ()
      ensures Snapshot() == Limiter(map[], map[])
    {
      restartTimes, lastRestart := map[], map[];
    }

    method RestartService(service: string, now: int, works: bool) returns (restarted: bool)
      modifies this
      ensures restarted == Restarts(old(Snapshot()), service, now, works)
      ensures Snapshot() == AfterCheck(old(Snapshot()), service, now, works)
    {
      if service in lastRestart && now - lastRestart[service] < RESTART_COOLDOWN {
        return false;
      }
      var kept := if service in restartTimes then restartTimes[service] else [];
      var history := KeepRecent(kept, now - HOUR);
      restartTimes := restartTimes[service := history];
      if |history| >= MAX_RESTARTS_PER_HOUR || !works {
        return false;
      }
      lastRestart := lastRestart[service := now];
      restartTimes := restartTimes[service := history + [now]];
      restarted := true;
    }

    static method KeepRecent(stamps: seq<int>, cutoff: int) returns (kept: seq<int>)
      ensures kept == Recent(stamps, cutoff)
    {
      kept := [];
      for i := 0 to |stamps|
        invariant kept + Recent(stamps[i..], cutoff) == Recent(stamps, cutoff)
      {
        RecentFrom(stamps, i, cutoff);
        if stamps[i] > cutoff {
          kept := kept + [stamps[i]];
        }
      }
    }
  }

  // ---- whole runs ----

  datatype Check = Check(service: string, now: int, works: bool)

  function Run(checks: seq<Check>): Limiter {
    if checks == [] then Limiter(map[], map[])
    else
      var last := checks[|checks| - 1];
      AfterCheck(Run(checks[..|checks| - 1]), last.service, last.now, last.works)
  }

  /** When the service was restarted, in order. */
  function RestartsOf(checks: seq<Check>, service: string): seq<int> {
    if checks == [] then []
    else
      var before, last := checks[..|checks| - 1], checks[|checks| - 1];
      RestartsOf(before, service) +
      if last.service == service && Restarts(Run(before), service, last.now, last.works) then [last.now] else []
  }

  predicate Ordered(stamps: seq<int>) {
    forall i, j :: 0 <= i < j < |stamps| ==> stamps[i] <= stamps[j]
  }

  predicate ClockNeverBack(checks: seq<Check>) {
    forall i, j :: 0 <= i < j < |checks| ==> checks[i].now <= checks[j].now
  }

  /** The stamps in the half-open hour that starts at `start`. */
  function InHour(stamps: seq<int>, start: int): seq<int> {
    if stamps == [] then []
    else (if start <= stamps[0] < start + 3_600_000_000 then [stamps[0]] else []) + InHour(stamps[1..], start)
  }

  lemma {:induction false} RecentConcat(a: seq<int>, b: seq<int>, cutoff: int)
    ensures Recent(a + b, cutoff) == Recent(a, cutoff) + Recent(b, cutoff)
  {
    if a == [] {
      assert a + b == b;
    } else {
      assert (a + b)[1..] == a[1..] + b;
      RecentConcat(a[1..], b, cutoff);
    }
  }

  lemma {:induction false} RecentTwice(stamps: seq<int>, early: int, late: int)
    requires early <= late
    ensures Recent(Recent(stamps, early), late) == Recent(stamps, late)
  {
    if stamps != [] {
      RecentTwice(stamps[1..], early, late);
      RecentConcat(if stamps[0] > early then [stamps[0]] else [], Recent(stamps[1..], early), late);
    }
  }

  lemma {:induction false} AllRecent(stamps: seq<int>, cutoff: int)
    requires forall i :: 0 <= i < |stamps| ==> stamps[i] > cutoff
    ensures Recent(stamps, cutoff) == stamps
  {
    if stamps != [] {
      AllRecent(stamps[1..], cutoff);
    }
  }

  /** When the k-th last of an ordered sequence is recent, so are k of them. */
  lemma {:induction false} ManyRecent(stamps: seq<int>, cutoff: int, k: nat)
    requires Ordered(stamps) && 0 < k <= |stamps|
    ensures stamps[|stamps| - k] > cutoff ==> |Recent(stamps, cutoff)| >= k
  {
    var n := |stamps| - k;
    if stamps[n] > cutoff {
      AllRecent(stamps[n..], cutoff);
      RecentConcat(stamps[..n], stamps[n..], cutoff);
      assert stamps == stamps[..n] + stamps[n..];
    }
  }

  // ---- the limits ----

  predicate Apart(stamps: seq<int>, i: nat, k: nat, gap: int)
    requires i + k < |stamps|
  {
    stamps[i + k] - stamps[i] >= gap
  }

  /** Every stamp is at least `gap` later than the one `k` places before it. */
  predicate Spaced(stamps: seq<int>, k: nat, gap: int) {
    forall i: nat :: i + k < |stamps| ==> Apart(stamps, i, k, gap)
  }

  lemma {:induction false} SpacedGrows(stamps: seq<int>, t: int, k: nat, gap: int)
    requires Spaced(stamps, k, gap) && k > 0 && (|stamps| >= k ==> t - stamps[|stamps| - k] >= gap)
    ensures Spaced(stamps + [t], k, gap)
  {
    forall i: nat | i + k < |stamps + [t]| ensures Apart(stamps + [t], i, k, gap) {
      if i + k < |stamps| {
        assert Apart(stamps, i, k, gap);
      }
    }
  }

  lemma {:induction false} SpacedPrefix(stamps: seq<int>, n: nat, k: nat, gap: int)
    requires Spaced(stamps, k, gap) && n <= |stamps|
    ensures Spaced(stamps[..n], k, gap)
  {
    forall i: nat | i + k < n ensures Apart(stamps[..n], i, k, gap) {
      assert Apart(stamps, i, k, gap);
    }
  }

  /** The limiter's history agrees with the restarts made on every cutoff that a later check can use. */
  ghost predicate Agrees(history: seq<int>, stamps: seq<int>, clock: int) {
    forall cutoff :: cutoff >= clock - HOUR ==> Recent(history, cutoff) == Recent(stamps, cutoff)
  }

  predicate Limited(stamps: seq<int>) {
    Ordered(stamps) && Spaced(stamps, 1, RESTART_COOLDOWN) && Spaced(stamps, MAX_RESTARTS_PER_HOUR, HOUR)
  }

  ghost predicate Kept(w: Limiter, service: string, stamps: seq<int>, clock: int) {
    && Agrees(History(w, service), stamps, clock)
    && (stamps != [] ==> service in w.lastRestart && w.lastRestart[service] == stamps[|stamps| - 1] <= clock)
    && Limited(stamps)
  }

  lemma {:induction false} AgreesGrows(history: seq<int>, stamps: seq<int>, clock: int, now: int)
    requires Agrees(history, stamps, clock) && clock <= now
    ensures Agrees(Recent(history, now - HOUR), stamps, now)
    ensures Agrees(Recent(history, now - HOUR) + [now], stamps + [now], now)
  {
    var pruned := Recent(history, now - HOUR);
    forall cutoff | cutoff >= now - HOUR
      ensures Recent(pruned, cutoff) == Recent(stamps, cutoff)
      ensures Recent(pruned + [now], cutoff) == Recent(stamps + [now], cutoff)
    {
      RecentTwice(history, now - HOUR, cutoff);
      RecentConcat(pruned, [now], cutoff);
      RecentConcat(stamps, [now], cutoff);
    }
  }

  lemma {:induction false} AgreesLater(history: seq<int>, stamps: seq<int>, clock: int, now: int)
    requires Agrees(history, stamps, clock) && clock <= now
    ensures Agrees(history, stamps, now)
  {
  }

  lemma {:induction false} OrderedGrows(stamps: seq<int>, t: int)
    requires Ordered(stamps) && (stamps != [] ==> stamps[|stamps| - 1] <= t)
    ensures Ordered(stamps + [t])
  {
    if stamps != [] {
      assert forall i :: 0 <= i < |stamps| ==> stamps[i] <= stamps[|stamps| - 1];
    }
  }

  lemma {:induction false} LimitedGrows(stamps: seq<int>, now: int)
    requires Limited(stamps) && (stamps != [] ==> now - stamps[|stamps| - 1] >= RESTART_COOLDOWN)
    requires |Recent(stamps, now - HOUR)| < MAX_RESTARTS_PER_HOUR
    ensures Limited(stamps + [now])
  {
    OrderedGrows(stamps, now);
    SpacedGrows(stamps, now, 1, RESTART_COOLDOWN);
    if |stamps| >= MAX_RESTARTS_PER_HOUR {
      ManyRecent(stamps, now - HOUR, MAX_RESTARTS_PER_HOUR);
    }
    SpacedGrows(stamps, now, MAX_RESTARTS_PER_HOUR, HOUR);
  }

  lemma {:induction false} RestartKept(w: Limiter, service: string, stamps: seq<int>, clock: int, now: int)
    requires Kept(w, service, stamps, clock) && clock <= now && Restarts(w, service, now, true)
    ensures Kept(AfterCheck(w, service, now, true), service, stamps + [now], now)
  {
    AgreesGrows(History(w, service), stamps, clock, now);
    LimitedGrows(stamps, now);
  }

  lemma {:induction false} KeptLater(w: Limiter, service: string, stamps: seq<int>, clock: int, now: int)
    requires Kept(w, service, stamps, clock) && clock <= now
    ensures Kept(w, service, stamps, now)
  {
    AgreesLater(History(w, service), stamps, clock, now);
  }

  lemma {:induction false} PrunedKept(w: Limiter, service: string, stamps: seq<int>, clock: int, now: int)
    requires Kept(w, service, stamps, clock) && clock <= now
    ensures Kept(w.(restartTimes := w.restartTimes[service := Recent(History(w, service), now - HOUR)]), service,
                 stamps, now)
  {
    AgreesGrows(History(w, service), stamps, clock, now);
  }

  lemma {:induction false} OtherService(w: Limiter, service: string, check: Check)
    requires check.service != service
    ensures var w' := AfterCheck(w, check.service, check.now, check.works);
      && History(w', service) == History(w, service)
      && (service in w'.lastRestart <==> service in w.lastRestart)
      && (service in w.lastRestart ==> w'.lastRestart[service] == w.lastRestart[service])
  {
  }

  lemma {:induction false} SameBooksKept(w: Limiter, w': Limiter, service: string, stamps: seq<int>, clock: int)
    requires Kept(w, service, stamps, clock) && History(w', service) == History(w, service)
    requires service in w.lastRestart ==> service in w'.lastRestart && w'.lastRestart[service] == w.lastRestart[service]
    ensures Kept(w', service, stamps, clock)
  {
  }

  lemma {:induction false} CheckKept(w: Limiter, service: string, stamps: seq<int>, clock: int, check: Check)
    requires Kept(w, service, stamps, clock) && clock <= check.now
    requires !(check.service == service && Restarts(w, service, check.now, check.works))
    ensures Kept(AfterCheck(w, check.service, check.now, check.works), service, stamps, check.now)
  {
    var w' := AfterCheck(w, check.service, check.now, check.works);
    KeptLater(w, service, stamps, clock, check.now);
    if check.service == service {
      PrunedKept(w, service, stamps, clock, check.now);
      var kept := Recent(History(w, service), check.now - HOUR);
      assert w' == w || w' == w.(restartTimes := w.restartTimes[service := kept]);
    } else {
      OtherService(w, service, check);
      SameBooksKept(w, w', service, stamps, check.now);
    }
  }

  /** The time of the last check, or any time before the first. */
  function Clock(checks: seq<Check>, start: int): int {
    if checks == [] then start else checks[|checks| - 1].now
  }

  lemma {:induction false} ClockPrefix(checks: seq<Check>, start: int)
    requires ClockNeverBack(checks) && checks != [] && start <= checks[0].now
    ensures var before := checks[..|checks| - 1];
      && ClockNeverBack(before) && (before != [] ==> start <= before[0].now)
      && Clock(before, start) <= checks[|checks| - 1].now
  {
  }

  lemma {:induction false} OneMoreKept(before: Limiter, stamps: seq<int>, clock: int, last: Check, service: string)
    requires Kept(before, service, stamps, clock) && clock <= last.now
    ensures Kept(AfterCheck(before, last.service, last.now, last.works), service,
              stamps + (if last.service == service && Restarts(before, service, last.now, last.works)
                        then [last.now] else []),
              last.now)
  {
    if last.service == service && Restarts(before, service, last.now, last.works) {
      RestartKept(before, service, stamps, clock, last.now);
    } else {
      CheckKept(before, service, stamps, clock, last);
      assert stamps + [] == stamps;
    }
  }

  lemma {:induction false} RunKept(checks: seq<Check>, service: string, start: int)
    requires ClockNeverBack(checks) && (checks != [] ==> start <= checks[0].now)
    ensures Kept(Run(checks), service, RestartsOf(checks, service), Clock(checks, start))
  {
    if checks != [] {
      var before, last := checks[..|checks| - 1], checks[|checks| - 1];
      ClockPrefix(checks, start);
      RunKept(before, service, start);
      OneMoreKept(Run(before), RestartsOf(before, service), Clock(before, start), last, service);
    }
  }

  lemma {:induction false} InHourConcat(a: seq<int>, b: seq<int>, start: int)
    ensures InHour(a + b, start) == InHour(a, start) + InHour(b, start)
  {
    if a == [] {
      assert a + b == b;
    } else {
      assert (a + b)[1..] == a[1..] + b;
      InHourConcat(a[1..], b, start);
    }
  }

  lemma {:induction false} OutsideHour(stamps: seq<int>, start: int)
    requires forall i :: 0 <= i < |stamps| ==> stamps[i] < start
    ensures InHour(stamps, start) == []
  {
    if stamps != [] {
      OutsideHour(stamps[1..], start);
    }
  }

  lemma {:induction false} InHourBound(stamps: seq<int>, start: int)
    ensures |InHour(stamps, start)| <= |stamps|
  {
    if stamps != [] {
      InHourBound(stamps[1..], start);
    }
  }

  lemma {:induction false} FewInHour(stamps: seq<int>, start: int)
    requires Ordered(stamps) && Spaced(stamps, MAX_RESTARTS_PER_HOUR, HOUR)
    ensures |InHour(stamps, start)| <= MAX_RESTARTS_PER_HOUR
  {
    var n := |stamps|;
    if n <= MAX_RESTARTS_PER_HOUR {
      InHourBound(stamps, start);
    } else if stamps[n - 1] >= start + HOUR {
      SpacedPrefix(stamps, n - 1, MAX_RESTARTS_PER_HOUR, HOUR);
      FewInHour(stamps[..n - 1], start);
      assert stamps == stamps[..n - 1] + [stamps[n - 1]];
      InHourConcat(stamps[..n - 1], [stamps[n - 1]], start);
    } else {
      var k := n - MAX_RESTARTS_PER_HOUR;
      assert Apart(stamps, k - 1, MAX_RESTARTS_PER_HOUR, HOUR);
      OutsideHour(stamps[..k], start);
      InHourBound(stamps[k..], start);
      assert stamps == stamps[..k] + stamps[k..];
      InHourConcat(stamps[..k], stamps[k..], start);
    }
  }

  /** For each service every half-open hour holds at most five restarts and any two are at least a minute apart,
      although old stamps are thrown away on the way. */
  lemma {:induction false} RestartsAreLimited(checks: seq<Check>, service: string, start: int, i: nat)
    requires ClockNeverBack(checks)
    ensures var stamps := RestartsOf(checks, service);
      && |InHour(stamps, start)| <= 5
      && (i + 1 < |stamps| ==> stamps[i + 1] - stamps[i] >= 60_000_000)
  {
    var stamps := RestartsOf(checks, service);
    RunKept(checks, service, if checks == [] then 0 else checks[0].now);
    FewInHour(stamps, start);
    if i + 1 < |stamps| {
      assert Apart(stamps, i, 1, RESTART_COOLDOWN);
    }
  }

  /** Whether a check restarts its service, in terms of the restarts made so far. */
  lemma {:induction false} RestartsExactlyWhenAllowed(checks: seq<Check>, service: string, now: int, works: bool)
    requires ClockNeverBack(checks) && (checks != [] ==> checks[|checks| - 1].now <= now)
    ensures var stamps := RestartsOf(checks, service);
      Restarts(Run(checks), service, now, works) <==>
      works && (stamps == [] || now - stamps[|stamps| - 1] >= 60_000_000)
      && |Recent(stamps, now - 3_600_000_000)| < 5
  {
    NoRestartNoStamp(checks, service);
    var start := if checks == [] then now else checks[0].now;
    RunKept(checks, service, start);
    AgreesLater(History(Run(checks), service), RestartsOf(checks, service), Clock(checks, start), now);
  }

  /** A check within a minute of the last restart changes nothing; any other leaves no stamp of an hour ago or earlier
      behind and keeps every later one, whatever becomes of it. */
  lemma {:induction false} OldStampsAreDropped(w: Limiter, service: string, now: int, works: bool)
    ensures var w' := AfterCheck(w, service, now, works); var kept := History(w', service);
      if service in w.lastRestart && now < w.lastRestart[service] + 60_000_000 then w' == w
      else
        && (forall t :: t in kept ==> t > now - 3_600_000_000)
        && (forall t :: t in History(w, service) && t > now - 3_600_000_000 ==> t in kept)
  {
    RecentIs(History(w, service), now - HOUR);
  }

  lemma {:induction false} RecentIs(stamps: seq<int>, cutoff: int)
    ensures forall t :: t in Recent(stamps, cutoff) <==> t in stamps && t > cutoff
  {
    if stamps != [] {
      RecentIs(stamps[1..], cutoff);
      assert forall t :: t in stamps <==> t == stamps[0] || t in stamps[1..];
    }
  }

  lemma {:induction false} NoRestartNoStamp(checks: seq<Check>, service: string)
    ensures service in Run(checks).lastRestart <==> RestartsOf(checks, service) != []
  {
    if checks != [] {
      NoRestartNoStamp(checks[..|checks| - 1], service);
    }
  }

  lemma {:induction false} ClockGrows(checks: seq<Check>, check: Check)
    requires ClockNeverBack(checks) && (checks != [] ==> checks[|checks| - 1].now <= check.now)
    ensures ClockNeverBack(checks + [check])
  {
    assert forall i :: 0 <= i < |checks| ==> checks[i].now <= checks[|checks| - 1].now;
  }

  lemma {:induction false} RestartsOfAppend(checks: seq<Check>, check: Check, service: string)
    ensures RestartsOf(checks + [check], service) == RestartsOf(checks, service) +
            if check.service == service && Restarts(Run(checks), service, check.now, check.works)
            then [check.now] else []
  {
    assert (checks + [check])[..|checks|] == checks;
  }

  lemma {:induction false} RestartAppends(checks: seq<Check>, service: string, now: int)
    requires ClockNeverBack(checks) && (checks != [] ==> checks[|checks| - 1].now <= now)
    requires var stamps := RestartsOf(checks, service);
      && (stamps == [] || now - stamps[|stamps| - 1] >= RESTART_COOLDOWN)
      && |Recent(stamps, now - HOUR)| < MAX_RESTARTS_PER_HOUR
    ensures RestartsOf(checks + [Check(service, now, true)], service) == RestartsOf(checks, service) + [now]
  {
    RestartsExactlyWhenAllowed(checks, service, now, true);
    RestartsOfAppend(checks, Check(service, now, true), service);
  }

  /** The hour must be half-open: with both ends included it can hold six restarts. */
  lemma {:induction false} ClosedHourHoldsSix(service: string)
    ensures exists checks :: ClockNeverBack(checks) &&
              RestartsOf(checks, service) == [0, 60 * SECOND, 120 * SECOND, 180 * SECOND, 240 * SECOND, HOUR]
  {
    var five := EveryMinute(service, 5);
    var stamps := Minutes(5);
    assert stamps[0] == 0 && stamps == [0] + stamps[1..];
    RecentBound(stamps[1..], 0);
    assert Recent(stamps, 0) == Recent(stamps[1..], 0);
    RestartAppends(five, service, HOUR);
    ClockGrows(five, Check(service, HOUR, true));
    assert stamps == [0, 60 * SECOND, 120 * SECOND, 180 * SECOND, 240 * SECOND];
  }

  function Minutes(n: nat): (stamps: seq<int>)
    ensures |stamps| == n && forall i :: 0 <= i < n ==> stamps[i] == i * 60 * SECOND
  {
    seq(n, i => i * 60 * SECOND)
  }

  /** One restart a minute, up to five. */
  lemma {:induction false} EveryMinute(service: string, n: nat) returns (checks: seq<Check>)
    requires n <= 5
    ensures ClockNeverBack(checks) && RestartsOf(checks, service) == Minutes(n)
    ensures Clock(checks, 0) <= n * 60 * SECOND
  {
    if n == 0 {
      checks := [];
    } else {
      var before := EveryMinute(service, n - 1);
      var now := (n - 1) * 60 * SECOND;
      RecentBound(Minutes(n - 1), now - HOUR);
      RestartAppends(before, service, now);
      ClockGrows(before, Check(service, now, true));
      checks := before + [Check(service, now, true)];
      assert Minutes(n) == Minutes(n - 1) + [now];
    }
  }

  lemma {:induction false} RecentBound(stamps: seq<int>, cutoff: int)
    ensures |Recent(stamps, cutoff)| <= |stamps|
  {
    if stamps != [] {
      RecentBound(stamps[1..], cutoff);
    }
  }
}
