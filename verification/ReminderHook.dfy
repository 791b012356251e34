/** The reminder hook: recent grep and read calls are counted, and a burst of them is denied at most once per
    quiet interval. Times are in microseconds. */
module ReminderHook {
  import opened Options

  const SECOND: int := 1_000_000
  const MIN_DENY_INTERVAL: int := 120 * SECOND

  /** A tool call as the hook classifies it. */
  datatype Call = Call(symbolic: bool, grep: bool, read: bool, at: int)

  /** What is counted: grep calls, reads of code files, and both together. */
  datatype Kind = Grep | Read | Mixed

  datatype Outcome = Quiet | Passed | Denied(kind: Kind)

  function Threshold(kind: Kind): nat {
    match kind case Grep => 3 case Read => 3 case Mixed => 4
  }

  function ResetPeriod(kind: Kind): int {
    match kind case Grep => 1000 * SECOND case Read => 1000 * SECOND case Mixed => 2000 * SECOND
  }

  predicate Counts(kind: Kind, call: Call) {
    match kind case Grep => call.grep case Read => call.read case Mixed => call.grep || call.read
  }

  // ---- the counters ----

  datatype Counter = Counter(
    readUses: nat, grepUses: nat, mixedUses: nat,
    lastGrep: Option<int>, lastRead: Option<int>, lastMixed: Option<int>, lastDeny: Option<int>)

  const FRESH: Counter := Counter(0, 0, 0, None, None, None, None)

  function Count(c: Counter, kind: Kind): nat {
    match kind case Grep => c.grepUses case Read => c.readUses case Mixed => c.mixedUses
  }

  function Last(c: Counter, kind: Kind): Option<int> {
    match kind case Grep => c.lastGrep case Read => c.lastRead case Mixed => c.lastMixed
  }

  function WasReset(c: Counter): Counter {
    FRESH.(lastDeny := c.lastDeny)
  }

  function Bumped(count: nat, last: Option<int>, at: int, period: int): nat {
    if last.Some? && at - last.value <= period then count + 1 else 1
  }

  function Updated(c: Counter, call: Call): Counter {
    if call.symbolic then WasReset(c)
    else
      var c1 := if call.grep
                then c.(grepUses := Bumped(c.grepUses, c.lastGrep, call.at, ResetPeriod(Grep)),
                        lastGrep := Some(call.at))
                else c;
      var c2 := if call.read
                then c1.(readUses := Bumped(c.readUses, c.lastRead, call.at, ResetPeriod(Read)),
                         lastRead := Some(call.at))
                else c1;
      if call.grep || call.read
      then c2.(mixedUses := Bumped(c.mixedUses, c.lastMixed, call.at, ResetPeriod(Mixed)), lastMixed := Some(call.at))
      else c2
  }

  predicate Active(c: Counter, at: int) {
    c.lastDeny.None? || at - c.lastDeny.value >= MIN_DENY_INTERVAL
  }

  predicate TooMany(c: Counter, kind: Kind) {
    Count(c, kind) >= Threshold(kind)
  }

  function Decision(c: Counter, call: Call): Outcome {
    if call.grep && TooMany(c, Grep) then Denied(Grep)
    else if call.read && TooMany(c, Read) then Denied(Read)
    else if TooMany(c, Grep) then Denied(Grep)
    else if TooMany(c, Read) then Denied(Read)
    else if TooMany(c, Mixed) then Denied(Mixed)
    else Passed
  }

  function Response(c: Counter, call: Call): Outcome {
    if !Active(c, call.at) then Quiet else Decision(Updated(c, call), call)
  }

  function AfterExecute(c: Counter, call: Call): Counter {
    if !Active(c, call.at) then c
    else if Response(c, call).Denied? then WasReset(c).(lastDeny := Some(call.at))
    else Updated(c, call)
  }

  class ToolUseCounter {
    var readUses: nat
    var grepUses: nat
    var mixedUses: nat
    var lastGrep: Option<int>
    var lastRead: Option<int>
    var lastMixed: Option<int>
    var lastDeny: Option<int>

    ghost function Snapshot(): Counter
      reads this
    {
      Counter(readUses, grepUses, mixedUses, lastGrep, lastRead, lastMixed, lastDeny)
    }

    constructor ()
      ensures Snapshot() == FRESH
    {
      readUses, grepUses, mixedUses := 0, 0, 0;
      lastGrep, lastRead, lastMixed, lastDeny := None, None, None, None;
    }

    method Reset()
      modifies this
      ensures Snapshot() == WasReset(old(Snapshot()))
    {
      readUses, grepUses, mixedUses := 0, 0, 0;
      lastGrep, lastRead, lastMixed := None, None, None;
    }

    method Update(call: Call)
      modifies this
      ensures Snapshot() == Updated(old(Snapshot()), call)
    {
      if call.symbolic {
        Reset();
        return;
      }
      if call.grep {
        if lastGrep.Some? && call.at - lastGrep.value <= ResetPeriod(Grep) {
          grepUses := grepUses + 1;
        } else {
          grepUses := 1;
        }
        lastGrep := Some(call.at);
      }
      if call.read {
        if lastRead.Some? && call.at - lastRead.value <= ResetPeriod(Read) {
          readUses := readUses + 1;
        } else {
          readUses := 1;
        }
        lastRead := Some(call.at);
      }
      if call.grep || call.read {
        if lastMixed.Some? && call.at - lastMixed.value <= ResetPeriod(Mixed) {
          mixedUses := mixedUses + 1;
        } else {
          mixedUses := 1;
        }
        lastMixed := Some(call.at);
      }
    }

    method Execute(call: Call) returns (outcome: Outcome)
      modifies this
      ensures outcome == Response(old(Snapshot()), call) && Snapshot() == AfterExecute(old(Snapshot()), call)
    {
      if lastDeny.Some? && call.at - lastDeny.value < MIN_DENY_INTERVAL {
        return Quiet;
      }
      Update(call);
      var tooManyGreps, tooManyReads, tooManyMixed := grepUses >= 3, readUses >= 3, mixedUses >= 4;
      outcome := Passed;
      if call.grep && tooManyGreps {
        outcome := Denied(Grep);
      } else if call.read && tooManyReads {
        outcome := Denied(Read);
      } else if tooManyGreps {
        outcome := Denied(Grep);
      } else if tooManyReads {
        outcome := Denied(Read);
      } else if tooManyMixed {
        outcome := Denied(Mixed);
      }
      if outcome.Denied? {
        Reset();
        lastDeny := Some(call.at);
      }
    }
  }

  // ---- whole sessions ----

  datatype Session = Session(counter: Counter, outcomes: seq<Outcome>)

  function Run(calls: seq<Call>): (w: Session)
    ensures |w.outcomes| == |calls|
  {
    if calls == [] then Session(FRESH, [])
    else
      var before, call := Run(calls[..|calls| - 1]), calls[|calls| - 1];
      Session(AfterExecute(before.counter, call), before.outcomes + [Response(before.counter, call)])
  }

  // ---- the history the counters stand for ----

  /** When calls of a kind were made since the last symbolic call or deny, quiet calls left aside. */
  function Times(calls: seq<Call>, outcomes: seq<Outcome>, kind: Kind): seq<int>
    requires |calls| == |outcomes|
  {
    if calls == [] then []
    else
      var n := |calls| - 1;
      var before := Times(calls[..n], outcomes[..n], kind);
      if outcomes[n].Quiet? then before
      else if outcomes[n].Denied? || calls[n].symbolic then []
      else if Counts(kind, calls[n]) then before + [calls[n].at]
      else before
  }

  function TimesOf(calls: seq<Call>, kind: Kind): seq<int> {
    Times(calls, Run(calls).outcomes, kind)
  }

  predicate Near(times: seq<int>, i: nat, period: int)
    requires 0 < i < |times|
  {
    times[i] - times[i - 1] <= period
  }

  predicate GapBounded(times: seq<int>, period: int) {
    forall i :: 0 < i < |times| ==> Near(times, i, period)
  }

  /** `n` is the length of the longest suffix whose neighbours are at most `period` apart. */
  predicate LongestRun(times: seq<int>, period: int, n: nat) {
    && n <= |times| && GapBounded(times[|times| - n..], period)
    && (n < |times| ==> !GapBounded(times[|times| - n - 1..], period))
  }

  lemma {:induction false} GapBoundedGrows(times: seq<int>, t: int, period: int)
    requires times != []
    ensures GapBounded(times + [t], period) <==> GapBounded(times, period) && t - times[|times| - 1] <= period
  {
    var all := times + [t];
    forall i | 0 < i < |times| ensures Near(all, i, period) <==> Near(times, i, period) {
    }
    assert Near(all, |times|, period) <==> t - times[|times| - 1] <= period;
    if GapBounded(all, period) {
      forall i | 0 < i < |times| ensures Near(times, i, period) {
        assert Near(all, i, period);
      }
    }
  }

  lemma {:induction false} SuffixGapBounded(times: seq<int>, k: nat, period: int)
    requires k <= |times| && GapBounded(times, period)
    ensures GapBounded(times[k..], period)
  {
    forall i | 0 < i < |times[k..]| ensures Near(times[k..], i, period) {
      assert Near(times, i + k, period);
    }
  }

  /** A suffix of the grown sequence is the suffix of the old one, grown. */
  lemma {:induction false} SuffixGrows(times: seq<int>, t: int, k: nat, period: int)
    requires 0 < k <= |times|
    ensures GapBounded((times + [t])[|times| - k..], period) <==>
            GapBounded(times[|times| - k..], period) && t - times[|times| - 1] <= period
  {
    var suffix := times[|times| - k..];
    assert (times + [t])[|times| - k..] == suffix + [t] && suffix[|suffix| - 1] == times[|times| - 1];
    GapBoundedGrows(suffix, t, period);
  }

  lemma {:induction false} RunGoesOn(times: seq<int>, t: int, period: int, n: nat)
    requires LongestRun(times, period, n) && n > 0 && t - times[|times| - 1] <= period
    ensures LongestRun(times + [t], period, n + 1)
  {
    SuffixGrows(times, t, n, period);
    if n < |times| {
      SuffixGrows(times, t, n + 1, period);
    }
  }

  lemma {:induction false} RunStartsAgain(times: seq<int>, t: int, period: int)
    requires times != [] ==> t - times[|times| - 1] > period
    ensures LongestRun(times + [t], period, 1)
  {
    assert (times + [t])[|times|..] == [t];
    if times != [] {
      SuffixGrows(times, t, 1, period);
    }
  }

  lemma {:induction false} RunGrows(times: seq<int>, t: int, period: int, n: nat)
    requires LongestRun(times, period, n) && (times == [] || n > 0)
    ensures LongestRun(times + [t], period, if times != [] && t - times[|times| - 1] <= period then n + 1 else 1)
  {
    if times != [] && t - times[|times| - 1] <= period {
      RunGoesOn(times, t, period, n);
    } else {
      RunStartsAgain(times, t, period);
    }
  }

  function RunLength(times: seq<int>, period: int): nat {
    var n := |times|;
    if n == 0 then 0
    else if n > 1 && times[n - 1] - times[n - 2] <= period then RunLength(times[..n - 1], period) + 1
    else 1
  }

  predicate LengthIsLongest(times: seq<int>, period: int) {
    LongestRun(times, period, RunLength(times, period)) && (times != [] ==> RunLength(times, period) > 0)
  }

  lemma {:induction false} LongestAppend(before: seq<int>, t: int, times: seq<int>, period: int)
    requires LengthIsLongest(before, period) && times == before + [t]
    ensures LengthIsLongest(times, period)
  {
    assert times[..|before|] == before;
    RunGrows(before, t, period, RunLength(before, period));
  }

  lemma {:induction false} RunLengthIsLongest(times: seq<int>, period: int)
    ensures LengthIsLongest(times, period)
  {
    if times != [] {
      var before, t := times[..|times| - 1], times[|times| - 1];
      assert times == before + [t];
      RunLengthIsLongest(before, period);
      LongestAppend(before, t, times, period);
    }
  }

  predicate Tracks(c: Counter, kind: Kind, times: seq<int>) {
    && Count(c, kind) == RunLength(times, ResetPeriod(kind))
    && Last(c, kind) == (if times == [] then None else Some(times[|times| - 1]))
  }

  lemma {:induction false} UpdateTracks(c: Counter, kind: Kind, times: seq<int>, call: Call)
    requires Tracks(c, kind, times)
    ensures Tracks(Updated(c, call), kind,
              if call.symbolic then [] else if Counts(kind, call) then times + [call.at] else times)
  {
    assert (times + [call.at])[..|times|] == times;
  }

  /** The counts a call leads to, before any deny resets them. */
  function Extended(calls: seq<Call>, call: Call, kind: Kind): seq<int> {
    if call.symbolic then []
    else if Counts(kind, call) then TimesOf(calls, kind) + [call.at]
    else TimesOf(calls, kind)
  }

  lemma {:induction false} TimesStep(calls: seq<Call>, call: Call, kind: Kind)
    ensures var outcome := Response(Run(calls).counter, call);
      TimesOf(calls + [call], kind) ==
      if outcome.Quiet? then TimesOf(calls, kind) else if outcome.Denied? then [] else Extended(calls, call, kind)
  {
    assert (calls + [call])[..|calls|] == calls;
    var outcomes := Run(calls + [call]).outcomes;
    assert outcomes[..|calls|] == Run(calls).outcomes;
  }

  lemma {:induction false} ExecuteTracks(c: Counter, kind: Kind, times: seq<int>, call: Call)
    requires Tracks(c, kind, times) && !TooMany(c, kind)
    ensures var c', answer := AfterExecute(c, call), Response(c, call);
      && !TooMany(c', kind)
      && Tracks(c', kind,
           if answer.Quiet? then times
           else if answer.Denied? || call.symbolic then []
           else if Counts(kind, call) then times + [call.at]
           else times)
  {
    UpdateTracks(c, kind, times, call);
  }

  lemma {:induction false} SessionTracks(calls: seq<Call>, kind: Kind)
    ensures Tracks(Run(calls).counter, kind, TimesOf(calls, kind)) && !TooMany(Run(calls).counter, kind)
  {
    if calls != [] {
      var before, call := calls[..|calls| - 1], calls[|calls| - 1];
      SessionTracks(before, kind);
      TimesStep(before, call, kind);
      assert before + [call] == calls;
      ExecuteTracks(Run(before).counter, kind, TimesOf(before, kind), call);
    }
  }

  /** In every session each counter is the length of the longest gap-bounded run of its calls since the last
      symbolic call or deny, and stays below its threshold. */
  lemma {:induction false} CountersAreRuns(calls: seq<Call>, kind: Kind)
    ensures LongestRun(TimesOf(calls, kind), ResetPeriod(kind), Count(Run(calls).counter, kind))
    ensures Count(Run(calls).counter, kind) < Threshold(kind)
  {
    SessionTracks(calls, kind);
    RunLengthIsLongest(TimesOf(calls, kind), ResetPeriod(kind));
  }

  // ---- what is answered, in terms of the history alone ----

  /** The last calls of the kind, as many as the threshold, follow each other within the period. */
  predicate Burst(times: seq<int>, kind: Kind) {
    |times| >= Threshold(kind) && GapBounded(times[|times| - Threshold(kind)..], ResetPeriod(kind))
  }

  /** The call itself is of the kind and completes a burst of it. */
  predicate Completes(calls: seq<Call>, call: Call, kind: Kind) {
    !call.symbolic && Counts(kind, call) && Burst(TimesOf(calls, kind) + [call.at], kind)
  }

  lemma {:induction false} SuffixOfSuffix(times: seq<int>, i: nat, j: nat, period: int)
    requires i <= j <= |times| && GapBounded(times[i..], period)
    ensures GapBounded(times[j..], period)
  {
    SuffixGapBounded(times[i..], j - i, period);
    assert times[i..][j - i..] == times[j..];
  }

  lemma {:induction false} BurstIff(times: seq<int>, kind: Kind, n: nat)
    requires LongestRun(times, ResetPeriod(kind), n)
    ensures n >= Threshold(kind) <==> Burst(times, kind)
  {
    var k := Threshold(kind);
    if n >= k {
      SuffixOfSuffix(times, |times| - n, |times| - k, ResetPeriod(kind));
    } else if Burst(times, kind) {
      SuffixOfSuffix(times, |times| - k, |times| - n - 1, ResetPeriod(kind));
    }
  }

  /** The last deny of a session, and every deny before it at least the interval earlier. */
  lemma {:induction false} LastDenyIsLatest(calls: seq<Call>)
    ensures var w := Run(calls);
      && (w.counter.lastDeny.None? ==> forall j :: 0 <= j < |calls| ==> !w.outcomes[j].Denied?)
      && (w.counter.lastDeny.Some? ==>
            && (exists j :: 0 <= j < |calls| && w.outcomes[j].Denied? && calls[j].at == w.counter.lastDeny.value)
            && (forall j :: 0 <= j < |calls| && w.outcomes[j].Denied? ==> calls[j].at <= w.counter.lastDeny.value))
  {
    if calls != [] {
      var before, call := calls[..|calls| - 1], calls[|calls| - 1];
      LastDenyIsLatest(before);
      var w, w' := Run(before), Run(calls);
      assert forall j :: 0 <= j < |before| ==> w'.outcomes[j] == w.outcomes[j] && calls[j] == before[j];
      if w'.counter.lastDeny.Some? && !w'.outcomes[|before|].Denied? {
        var j :| 0 <= j < |before| && w.outcomes[j].Denied? && before[j].at == w.counter.lastDeny.value;
        assert calls[j].at == w'.counter.lastDeny.value;
      }
    }
  }

  /** What the next call of a session is answered, from the calls and answers so far: nothing within the interval
      after any deny; otherwise a deny exactly when the call completes a burst, named after the call's own kind
      first. */
  lemma {:induction false} AnswerFromHistory(calls: seq<Call>, call: Call)
    ensures var w := Run(calls); var answer := Response(w.counter, call);
      && (answer.Quiet? <==>
            exists j :: 0 <= j < |calls| && w.outcomes[j].Denied? && call.at - calls[j].at < MIN_DENY_INTERVAL)
      && (!answer.Quiet? ==>
            answer == (if Completes(calls, call, Grep) then Denied(Grep)
                       else if Completes(calls, call, Read) then Denied(Read)
                       else if Completes(calls, call, Mixed) then Denied(Mixed)
                       else Passed))
  {
    LastDenyIsLatest(calls);
    KindAnswer(calls, call, Grep);
    KindAnswer(calls, call, Read);
    KindAnswer(calls, call, Mixed);
  }

  lemma {:induction false} KindAnswer(calls: seq<Call>, call: Call, kind: Kind)
    ensures TooMany(Updated(Run(calls).counter, call), kind) <==> Completes(calls, call, kind)
  {
    var c, times := Run(calls).counter, TimesOf(calls, kind) + [call.at];
    SessionTracks(calls, kind);
    UpdateTracks(c, kind, TimesOf(calls, kind), call);
    if !call.symbolic && Counts(kind, call) {
      RunLengthIsLongest(times, ResetPeriod(kind));
      BurstIff(times, kind, RunLength(times, ResetPeriod(kind)));
    }
  }

  /** A deny always names a kind the denied call itself belongs to: the fallback branches are never taken. */
  lemma {:induction false} DenyNamesTheCall(calls: seq<Call>, call: Call)
    ensures var answer := Response(Run(calls).counter, call);
      answer.Denied? ==> !call.symbolic && Counts(answer.kind, call)
  {
    AnswerFromHistory(calls, call);
  }

  /** When a grep, if `grep`, or a read, if `read`, was let pass since the last symbolic call or deny. */
  function Uses(calls: seq<Call>, outcomes: seq<Outcome>, grep: bool, read: bool): seq<int>
    requires |calls| == |outcomes|
  {
    if calls == [] then []
    else
      var n := |calls| - 1;
      var before, call := Uses(calls[..n], outcomes[..n], grep, read), calls[n];
      match outcomes[n]
      case Quiet => before
      case Denied(_) => []
      case Passed =>
        if call.symbolic then []
        else if (grep && call.grep) || (read && call.read) then before + [call.at]
        else before
  }

  lemma {:induction false} TimesAreUses(calls: seq<Call>, outcomes: seq<Outcome>)
    requires |calls| == |outcomes|
    ensures Times(calls, outcomes, Grep) == Uses(calls, outcomes, true, false)
    ensures Times(calls, outcomes, Read) == Uses(calls, outcomes, false, true)
    ensures Times(calls, outcomes, Mixed) == Uses(calls, outcomes, true, true)
  {
    if calls != [] {
      TimesAreUses(calls[..|calls| - 1], outcomes[..|calls| - 1]);
    }
  }

  /** The last `n` times follow each other with no gap over the limit. */
  predicate InRow(times: seq<int>, n: nat, gap: int) {
    |times| >= n && GapBounded(times[|times| - n..], gap)
  }

  /** The answers in figures: silence for two minutes after a deny; then a deny to the third grep and to the third read
      in a row with no gap over a thousand seconds, and to the fourth of either kind with none over two thousand. */
  lemma {:induction false} AnswersInFigures(calls: seq<Call>, call: Call)
    ensures var w := Run(calls); var answer := Response(w.counter, call);
      && (answer == Quiet <==>
            exists j :: 0 <= j < |calls| && w.outcomes[j].Denied? && call.at - calls[j].at < 120_000_000)
      && (answer != Quiet && !call.symbolic ==>
            var greps := Uses(calls, w.outcomes, true, false) + [call.at];
            var codeReads := Uses(calls, w.outcomes, false, true) + [call.at];
            var either := Uses(calls, w.outcomes, true, true) + [call.at];
            && (answer == Denied(Grep) <==> call.grep && InRow(greps, 3, 1_000_000_000))
            && (answer != Denied(Grep) ==>
                  (answer == Denied(Read) <==> call.read && InRow(codeReads, 3, 1_000_000_000)))
            && (answer != Denied(Grep) && answer != Denied(Read) ==>
                  (answer == Denied(Mixed) <==> (call.grep || call.read) && InRow(either, 4, 2_000_000_000))))
      && (answer != Quiet && call.symbolic ==> answer == Passed)
  {
    AnswerFromHistory(calls, call);
    TimesAreUses(calls, Run(calls).outcomes);
  }

  /** Any two denies of a session are at least two minutes apart, whatever the clock does. */
  lemma {:induction false} DeniesAreApart(calls: seq<Call>, i: nat, j: nat)
    requires i < j < |calls| && Run(calls).outcomes[i].Denied? && Run(calls).outcomes[j].Denied?
    ensures calls[j].at - calls[i].at >= 120_000_000
  {
    var before, call := calls[..|calls| - 1], calls[|calls| - 1];
    assert forall k :: 0 <= k < |before| ==> Run(calls).outcomes[k] == Run(before).outcomes[k];
    if j < |before| {
      DeniesAreApart(before, i, j);
    } else {
      AnswerFromHistory(before, call);
      assert Run(before).outcomes[i].Denied? && before[i] == calls[i];
    }
  }
}
