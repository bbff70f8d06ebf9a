/**
 * The Rust worker's `main` (src/main.rs): one cycle when RUN_ONCE is
 * "true", otherwise a loop of cycles with a sleep of INTERVAL_MINUTES
 * between them, in which a cycle that returns an error is reported and the
 * loop goes on. The endless loop is modelled over a finite sequence of
 * rounds; the listing each round obtains is an input.
 */
module Orchestrator {
  import opened Common
  import opened Worker
  import opened ObjectStore

  const RunOnceVar := "RUN_ONCE"
  const IntervalVar := "INTERVAL_MINUTES"
  const DefaultInterval: nat := 30

  /** The largest `u64`. */
  const U64Max: nat := 0xFFFF_FFFF_FFFF_FFFF

  /** `env::var("RUN_ONCE").unwrap_or_default() == "true"`: exactly that text, a missing variable reading as "". */
  predicate RunOnce(env: map<string, string>) {
    (if RunOnceVar in env then env[RunOnceVar] else "") == "true"
  }

  predicate IsDigit(c: char) {
    '0' <= c <= '9'
  }

  predicate AllDigits(s: string) {
    forall i :: 0 <= i < |s| ==> IsDigit(s[i])
  }

  /** The value of a string of decimal digits, most significant first. */
  function DigitsValue(s: string): nat
    requires AllDigits(s)
  {
    if s == [] then 0 else DigitsValue(s[..|s| - 1]) * 10 + (s[|s| - 1] as int - '0' as int)
  }

  /**
   * `str::parse::<u64>`: an optional single '+', then one or more decimal
   * digits, with a value that fits in 64 bits; nothing else (no sign '-',
   * no spaces) is accepted.
   */
  function ParseU64(s: string): (r: Option<nat>)
    ensures r.Some? ==> r.value <= U64Max
    ensures s == [] ==> r.None?
  {
    var digits := if |s| > 0 && s[0] == '+' then s[1..] else s;
    if digits == [] || !AllDigits(digits) then None
    else if DigitsValue(digits) > U64Max then None
    else Some(DigitsValue(digits))
  }

  /** The shortest decimal writing of `n`. */
  function Decimal(n: nat): (s: string)
    ensures |s| > 0 && AllDigits(s)
  {
    if n < 10 then ['0' + n as char]
    else Decimal(n / 10) + ['0' + (n % 10) as char]
  }

  lemma {:induction false} DecimalValue(n: nat)
    ensures DigitsValue(Decimal(n)) == n
  {
    if n >= 10 {
      var s := Decimal(n);
      assert s[..|s| - 1] == Decimal(n / 10);
      DecimalValue(n / 10);
    }
  }

  /** Every 64-bit value written in decimal, with or without a leading '+', parses back to itself. */
  lemma ParseDecimal(n: nat)
    requires n <= U64Max
    ensures ParseU64(Decimal(n)) == Some(n)
    ensures ParseU64("+" + Decimal(n)) == Some(n)
  {
    DecimalValue(n);
    var s := Decimal(n);
    assert IsDigit(s[0]);
    assert ("+" + s)[1..] == s;
  }

  /** A value above 64 bits is refused. */
  lemma ParseTooLarge(n: nat)
    requires n > U64Max
    ensures ParseU64(Decimal(n)) == None
  {
    DecimalValue(n);
    assert IsDigit(Decimal(n)[0]);
  }

  /** `INTERVAL_MINUTES`, or "30" when unset, parsed as `u64`, with 30 when that fails. */
  function IntervalMinutes(env: map<string, string>): (m: nat)
    ensures m <= U64Max
    ensures IntervalVar !in env ==> m == DefaultInterval
    ensures IntervalVar in env && ParseU64(env[IntervalVar]).None? ==> m == DefaultInterval
    ensures IntervalVar in env && ParseU64(env[IntervalVar]).Some? ==> m == ParseU64(env[IntervalVar]).value
  {
    var text := if IntervalVar in env then env[IntervalVar] else "30";
    assert ParseU64("30") == Some(30) by {
      ParseDecimal(30);
      assert Decimal(30) == "30";
    }
    match ParseU64(text)
    case None => DefaultInterval
    case Some(m) => m
  }

  /** An interval written in decimal is taken as it is. */
  lemma IntervalOfDecimal(env: map<string, string>, n: nat)
    requires n <= U64Max
    ensures IntervalMinutes(env[IntervalVar := Decimal(n)]) == n
  {
    ParseDecimal(n);
  }

  /**
   * `Duration::from_secs(interval_minutes * 60)` as the code is written: the
   * `u64` product wraps around in a release build (a debug build panics).
   */
  function SleepSecondsAsWritten(minutes: nat): (s: nat)
    requires minutes <= U64Max
    ensures s <= U64Max
    ensures minutes * 60 <= U64Max ==> s == minutes * 60
  {
    (minutes * 60) % (U64Max + 1)
  }

  /** Wrap-around makes a very long interval a short one: 307445734561825861 minutes sleep 44 seconds, less than the 30-minute default. */
  lemma SleepWrapsAround()
    ensures SleepSecondsAsWritten(307445734561825861) == 44
    ensures SleepSecondsAsWritten(DefaultInterval) == 1800
  {
  }

  /** The sleep as evidently intended: the interval in seconds, saturating at the largest `u64`. */
  function SleepSeconds(minutes: nat): (s: nat)
    ensures s <= U64Max
    ensures s == minutes * 60 || (s == U64Max && minutes * 60 > U64Max)
  {
    if minutes * 60 > U64Max then U64Max else minutes * 60
  }

  /** A longer interval never sleeps less, and the intended sleep agrees with the code wherever the product fits. */
  lemma SleepMonotone(m1: nat, m2: nat)
    requires m1 <= m2 <= U64Max
    ensures SleepSeconds(m1) <= SleepSeconds(m2)
    ensures m2 * 60 <= U64Max ==> SleepSeconds(m2) == SleepSecondsAsWritten(m2)
  {
  }

  /** How the process ends, or that it is still looping after the rounds modelled. */
  datatype Exit = ExitOk | ExitErr(error: CycleError) | ExitPanic(key: string) | StillRunning

  /** The store after some rounds, each cycle's result, each sleep, and how the process stands. */
  datatype Run = Run(objects: map<string, Blob>, log: seq<Request>, results: seq<CycleResult>, sleeps: seq<nat>, exit: Exit)

  /**
   * The continuous loop over the given rounds: a panic ends the process;
   * after a completed or failed cycle the worker sleeps and runs the next.
   */
  function Continuous(objects: map<string, Blob>, log: seq<Request>, env: map<string, string>,
                      rounds: seq<Option<seq<Listed>>>, codecs: Codecs): Run
    decreases |rounds|
  {
    if rounds == [] then Run(objects, log, [], [], StillRunning)
    else
      var c := RunCycle(objects, log, env, rounds[0], codecs);
      var r := ResultOf(c);
      if r.Crashed? then Run(c.objects, c.log, [r], [], ExitPanic(r.key))
      else
        var rest := Continuous(c.objects, c.log, env, rounds[1..], codecs);
        Run(rest.objects, rest.log, [r] + rest.results, [SleepSecondsAsWritten(IntervalMinutes(env))] + rest.sleeps, rest.exit)
  }

  /**
   * What a run over `n` rounds looks like when only a panic can stop it:
   * still running exactly when no cycle panicked, and then all `n` rounds
   * ran, each followed by a sleep; after a panic, that cycle is the last,
   * and every earlier one was followed by a sleep; every sleep is `sleep`.
   */
  ghost predicate OnlyPanicStopped(run: Run, n: nat, sleep: nat) {
    && (run.exit == StillRunning <==> forall i :: 0 <= i < |run.results| ==> !run.results[i].Crashed?)
    && (run.exit == StillRunning ==> |run.results| == n && |run.sleeps| == n)
    && (run.exit != StillRunning ==> run.exit.ExitPanic? && |run.results| >= 1 && |run.sleeps| == |run.results| - 1
                                     && run.results[|run.results| - 1] == Crashed(run.exit.key))
    && (forall i :: 0 <= i < |run.sleeps| ==> run.sleeps[i] == sleep)
  }

  /** The loop's behaviour over every number of rounds: a failed cycle is followed by a sleep and the next round, only a panic stops it. */
  lemma {:induction false} OnlyPanicStops(objects: map<string, Blob>, log: seq<Request>, env: map<string, string>,
                                          rounds: seq<Option<seq<Listed>>>, codecs: Codecs)
    ensures OnlyPanicStopped(Continuous(objects, log, env, rounds, codecs), |rounds|, SleepSecondsAsWritten(IntervalMinutes(env)))
    decreases |rounds|
  {
    if rounds != [] {
      var c := RunCycle(objects, log, env, rounds[0], codecs);
      ContinuousStep(objects, log, env, rounds, codecs, c);
      if !ResultOf(c).Crashed? {
        OnlyPanicStops(c.objects, c.log, env, rounds[1..], codecs);
        var rest := Continuous(c.objects, c.log, env, rounds[1..], codecs);
        ContinueAfter(ResultOf(c), rest, |rounds| - 1, SleepSecondsAsWritten(IntervalMinutes(env)));
      } else {
        CrashedStops(ResultOf(c), c.objects, c.log, SleepSecondsAsWritten(IntervalMinutes(env)));
      }
    }
  }

  lemma CrashedStops(r: CycleResult, objects: map<string, Blob>, log: seq<Request>, sleep: nat)
    requires r.Crashed?
    ensures OnlyPanicStopped(Run(objects, log, [r], [], ExitPanic(r.key)), 1, sleep)
  {
  }

  lemma ContinueAfter(r: CycleResult, rest: Run, n: nat, sleep: nat)
    requires !r.Crashed? && OnlyPanicStopped(rest, n, sleep)
    ensures OnlyPanicStopped(Run(rest.objects, rest.log, [r] + rest.results, [sleep] + rest.sleeps, rest.exit), n + 1, sleep)
  {
    var results := [r] + rest.results;
    var sleeps := [sleep] + rest.sleeps;
    assert forall i :: 1 <= i < |results| ==> results[i] == rest.results[i - 1];
    assert forall i :: 1 <= i < |sleeps| ==> sleeps[i] == rest.sleeps[i - 1];
    if rest.exit == StillRunning {
      assert forall i :: 0 <= i < |results| ==> !results[i].Crashed?;
    } else {
      assert rest.results[|rest.results| - 1].Crashed?;
      assert results[|results| - 1] == rest.results[|rest.results| - 1];
    }
  }

  /** The loop's invariant: what is done, followed by the remaining rounds, is the whole run. */
  ghost predicate LoopState(total: Run, objects: map<string, Blob>, log: seq<Request>, env: map<string, string>,
                            rest: seq<Option<seq<Listed>>>, codecs: Codecs, results: seq<CycleResult>, sleeps: seq<nat>)
  {
    var r := Continuous(objects, log, env, rest, codecs);
    total == Run(r.objects, r.log, results + r.results, sleeps + r.sleeps, r.exit)
  }

  lemma LoopStarts(objects: map<string, Blob>, log: seq<Request>, env: map<string, string>,
                   rounds: seq<Option<seq<Listed>>>, codecs: Codecs)
    ensures LoopState(Continuous(objects, log, env, rounds, codecs), objects, log, env, rounds, codecs, [], [])
  {
    var r := Continuous(objects, log, env, rounds, codecs);
    assert [] + r.results == r.results && [] + r.sleeps == r.sleeps;
  }

  lemma LoopContinues(total: Run, objects: map<string, Blob>, log: seq<Request>, env: map<string, string>,
                      rest: seq<Option<seq<Listed>>>, codecs: Codecs, results: seq<CycleResult>, sleeps: seq<nat>, c: Cycle)
    requires rest != [] && LoopState(total, objects, log, env, rest, codecs, results, sleeps)
    requires c == RunCycle(objects, log, env, rest[0], codecs) && !ResultOf(c).Crashed?
    ensures LoopState(total, c.objects, c.log, env, rest[1..], codecs, results + [ResultOf(c)], sleeps + [SleepSecondsAsWritten(IntervalMinutes(env))])
  {
    ContinuousStep(objects, log, env, rest, codecs, c);
    var r := Continuous(c.objects, c.log, env, rest[1..], codecs);
    assert results + ([ResultOf(c)] + r.results) == (results + [ResultOf(c)]) + r.results;
    assert sleeps + ([SleepSecondsAsWritten(IntervalMinutes(env))] + r.sleeps) == (sleeps + [SleepSecondsAsWritten(IntervalMinutes(env))]) + r.sleeps;
  }

  lemma LoopPanics(total: Run, objects: map<string, Blob>, log: seq<Request>, env: map<string, string>,
                   rest: seq<Option<seq<Listed>>>, codecs: Codecs, results: seq<CycleResult>, sleeps: seq<nat>, c: Cycle)
    requires rest != [] && LoopState(total, objects, log, env, rest, codecs, results, sleeps)
    requires c == RunCycle(objects, log, env, rest[0], codecs) && ResultOf(c).Crashed?
    ensures total == Run(c.objects, c.log, results + [ResultOf(c)], sleeps, ExitPanic(ResultOf(c).key))
  {
    ContinuousStep(objects, log, env, rest, codecs, c);
    assert sleeps + [] == sleeps;
  }

  lemma LoopEnds(total: Run, objects: map<string, Blob>, log: seq<Request>, env: map<string, string>,
                 codecs: Codecs, results: seq<CycleResult>, sleeps: seq<nat>)
    requires LoopState(total, objects, log, env, [], codecs, results, sleeps)
    ensures total == Run(objects, log, results, sleeps, StillRunning)
  {
    assert results + [] == results && sleeps + [] == sleeps;
  }

  /** One round of the loop, with the cycle's outcome `c` taken as given. */
  lemma ContinuousStep(objects: map<string, Blob>, log: seq<Request>, env: map<string, string>,
                       rounds: seq<Option<seq<Listed>>>, codecs: Codecs, c: Cycle)
    requires rounds != [] && c == RunCycle(objects, log, env, rounds[0], codecs)
    ensures ResultOf(c).Crashed? ==>
              Continuous(objects, log, env, rounds, codecs) == Run(c.objects, c.log, [ResultOf(c)], [], ExitPanic(ResultOf(c).key))
    ensures !ResultOf(c).Crashed? ==>
              var rest := Continuous(c.objects, c.log, env, rounds[1..], codecs);
              Continuous(objects, log, env, rounds, codecs)
                == Run(rest.objects, rest.log, [ResultOf(c)] + rest.results, [SleepSecondsAsWritten(IntervalMinutes(env))] + rest.sleeps, rest.exit)
  {
  }

  /**
   * `main`: one cycle, whose error or panic ends the process, when RUN_ONCE
   * is "true"; otherwise the loop, one cycle per round. The cycles' own
   * reports are not kept.
   */
  method RunWorker(store: Store, env: map<string, string>, first: Option<seq<Listed>>, later: seq<Option<seq<Listed>>>, codecs: Codecs)
    returns (results: seq<CycleResult>, sleeps: seq<nat>, exit: Exit)
    modifies store
    ensures RunOnce(env) ==>
              var c := RunCycle(old(store.objects), old(store.log), env, first, codecs);
              && store.objects == c.objects && store.log == c.log
              && results == [ResultOf(c)] && sleeps == []
              && exit == match ResultOf(c) { case Completed => ExitOk case Failed(e) => ExitErr(e) case Crashed(k) => ExitPanic(k) }
    ensures !RunOnce(env) ==>
              Continuous(old(store.objects), old(store.log), env, [first] + later, codecs)
                == Run(store.objects, store.log, results, sleeps, exit)
  {
    if RunOnce(env) {
      var r, _, _ := ProcessFiles(store, env, first, codecs);
      results, sleeps := [r], [];
      match r {
        case Completed => exit := ExitOk;
        case Failed(e) => exit := ExitErr(e);
        case Crashed(k) => exit := ExitPanic(k);
      }
      return;
    }
    results, sleeps, exit := Loop(store, env, [first] + later, codecs);
  }

  /** The continuous loop of `main`, over the given rounds. */
  method Loop(store: Store, env: map<string, string>, rounds: seq<Option<seq<Listed>>>, codecs: Codecs)
    returns (results: seq<CycleResult>, sleeps: seq<nat>, exit: Exit)
    modifies store
    ensures Continuous(old(store.objects), old(store.log), env, rounds, codecs) == Run(store.objects, store.log, results, sleeps, exit)
  {
    var interval := IntervalMinutes(env);
    ghost var total := Continuous(store.objects, store.log, env, rounds, codecs);
    LoopStarts(store.objects, store.log, env, rounds, codecs);
    results, sleeps := [], [];
    var i := 0;
    while i < |rounds|
      invariant 0 <= i <= |rounds|
      invariant LoopState(total, store.objects, store.log, env, rounds[i..], codecs, results, sleeps)
    {
      ghost var c := RunCycle(store.objects, store.log, env, rounds[i], codecs);
      ghost var objects0, log0, results0, sleeps0 := store.objects, store.log, results, sleeps;
      assert rounds[i..][0] == rounds[i] && rounds[i..][1..] == rounds[i + 1..];
      var r, _, _ := ProcessFiles(store, env, rounds[i], codecs);
      results := results + [r];
      if r.Crashed? {
        exit := ExitPanic(r.key);
        LoopPanics(total, objects0, log0, env, rounds[i..], codecs, results0, sleeps0, c);
        return;
      }
      sleeps := sleeps + [SleepSecondsAsWritten(interval)];
      LoopContinues(total, objects0, log0, env, rounds[i..], codecs, results0, sleeps0, c);
      i := i + 1;
    }
    assert rounds[i..] == [];
    LoopEnds(total, store.objects, store.log, env, codecs, results, sleeps);
    exit := StillRunning;
  }
}
