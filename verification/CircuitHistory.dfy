/** What the circuit breaker answers, told by its history alone: outcomes, asks and their times. */
module CircuitHistory {
  import opened Common
  import opened CircuitBreaker

  /** When the last failure was recorded. */
  function LastFailure(ops: seq<Op>): real {
    if ops == [] then 0.0
    else
      var n := |ops| - 1;
      if ops[n].Fail? then ops[n].now else LastFailure(ops[..n])
  }

  /** The asks since the last failure, from a given time on. */
  function AsksSince(ops: seq<Op>, time: real): nat {
    if ops == [] then 0
    else
      var n := |ops| - 1;
      if ops[n].Fail? then 0 else AsksSince(ops[..n], time) + if ops[n].Ask? && ops[n].now >= time then 1 else 0
  }

  /** Since the last success failures were recorded, and as many as the threshold; where that is not positive, one is
      enough. */
  predicate Broken(cfg: Config, ops: seq<Op>) {
    FailuresSinceSuccess(ops) >= 1 && FailuresSinceSuccess(ops) >= cfg.failureThreshold
  }

  /** When the breaker may let the first probe through. */
  function Retry(cfg: Config, ops: seq<Op>): real {
    LastFailure(ops) + cfg.cooldown
  }

  function Probes(cfg: Config): nat {
    if cfg.halfOpenMaxProbes < 0 then 0 else cfg.halfOpenMaxProbes
  }

  function Min(a: nat, b: nat): nat {
    if a < b then a else b
  }

  lemma PrefixIsChronological(ops: seq<Op>, n: nat)
    requires Chronological(ops) && n <= |ops|
    ensures Chronological(ops[..n])
  {
  }

  /** Below the threshold the breaker is as good as new but for the failures it counts. Otherwise it opened at the
      last failure, and it is half open once something happened after the cooldown; the probes it let through are the
      asks since then, up to their number. */
  lemma {:induction false} StateTellsHistory(cfg: Config, ops: seq<Op>)
    requires Chronological(ops)
    ensures var b, f, n := Run(cfg, ops), FailuresSinceSuccess(ops), AsksSince(ops, Retry(cfg, ops));
            && (!Broken(cfg, ops) ==> b == Breaker(CLOSED, f, None, 0))
            && (Broken(cfg, ops) ==>
                  && b.failures == f && b.openedAt == Some(LastFailure(ops))
                  && !b.state.CLOSED?
                  && b.probes == Min(n, Probes(cfg))
                  && (b.state.OPEN? ==> n == 0)
                  && (b.state.HALF_OPEN? ==> ops != [] && ops[|ops| - 1].now >= Retry(cfg, ops)))
  {
    if ops != [] {
      var n := |ops| - 1;
      PrefixIsChronological(ops, n);
      StateTellsHistory(cfg, ops[..n]);
    }
  }

  /** The answer to every ask in every run, whatever the limits: yes while too few failures were recorded since the
      last success; after that, exactly if the cooldown has passed since the last failure and fewer asks than the
      probes came since then. */
  lemma AnswerTellsHistory(cfg: Config, ops: seq<Op>, now: real)
    requires Chronological(ops + [Ask(now)])
    ensures Allow(cfg, Run(cfg, ops), now).1 <==>
            || !Broken(cfg, ops)
            || (now >= LastFailure(ops) + cfg.cooldown
                && AsksSince(ops, LastFailure(ops) + cfg.cooldown) < cfg.halfOpenMaxProbes)
  {
    var all := ops + [Ask(now)];
    PrefixIsChronological(all, |ops|);
    assert all[..|ops|] == ops;
    StateTellsHistory(cfg, ops);
    hide Run, Broken, LastFailure, AsksSince;
    if ops != [] {
      assert all[|ops| - 1].now <= all[|ops|].now;
    }
  }

  // ---- A breaker that is told no outcome ----------------------------------------------------

  /** Asks and looks, and no outcome recorded. */
  predicate Quiet(ops: seq<Op>) {
    forall i :: 0 <= i < |ops| ==> ops[i].Ask? || ops[i].Peek?
  }

  /** How many of the asks made after `past` are allowed. */
  function AllowedAsks(cfg: Config, past: seq<Op>, quiet: seq<Op>): nat {
    if quiet == [] then 0
    else
      var n := |quiet| - 1;
      AllowedAsks(cfg, past, quiet[..n])
      + if quiet[n].Ask? && Allow(cfg, Run(cfg, past + quiet[..n]), quiet[n].now).1 then 1 else 0
  }

  /** The asks made from a given time on. */
  function AsksFrom(quiet: seq<Op>, time: real): nat {
    if quiet == [] then 0
    else
      var n := |quiet| - 1;
      AsksFrom(quiet[..n], time) + if quiet[n].Ask? && quiet[n].now >= time then 1 else 0
  }

  lemma {:induction false} QuietTellsNothing(past: seq<Op>, quiet: seq<Op>, time: real)
    requires past != [] && past[|past| - 1].Fail? && Quiet(quiet)
    ensures var ops := past + quiet;
            && FailuresSinceSuccess(ops) == FailuresSinceSuccess(past)
            && LastFailure(ops) == past[|past| - 1].now
            && AsksSince(ops, time) == AsksFrom(quiet, time)
  {
    if quiet == [] {
      assert past + quiet == past;
    } else {
      var n := |quiet| - 1;
      QuietTellsNothing(past, quiet[..n], time);
      assert (past + quiet)[..|past| + n] == past + quiet[..n];
    }
  }

  /** From a failure that trips the breaker on, as long as no outcome is recorded: of the asks that come after the
      cooldown exactly the first are allowed, as many as there are probes, and of those before it none. */
  lemma {:induction false} ProbesExactly(cfg: Config, past: seq<Op>, quiet: seq<Op>)
    requires Chronological(past + quiet) && Quiet(quiet)
    requires past != [] && past[|past| - 1].Fail? && Broken(cfg, past)
    ensures AllowedAsks(cfg, past, quiet) ==
            Min(AsksFrom(quiet, past[|past| - 1].now + cfg.cooldown), Probes(cfg))
  {
    hide Run, Allow, FailuresSinceSuccess, LastFailure, AsksSince, Chronological;
    if quiet != [] {
      var n := |quiet| - 1;
      var retry := past[|past| - 1].now + cfg.cooldown;
      var before := past + quiet[..n];
      assert past + quiet == before + [quiet[n]];
      PrefixIsChronological(past + quiet, |before|);
      assert (past + quiet)[..|before|] == before;
      ProbesExactly(cfg, past, quiet[..n]);
      QuietTellsNothing(past, quiet[..n], retry);
      if quiet[n].Ask? {
        AnswerTellsHistory(cfg, before, quiet[n].now);
      }
    }
  }

  lemma {:induction false} FailuresAreCounted(cfg: Config, ops: seq<Op>)
    ensures Run(cfg, ops).failures == FailuresSinceSuccess(ops)
  {
    if ops != [] {
      FailuresAreCounted(cfg, ops[..|ops| - 1]);
    }
  }

  /** Even if the clock is turned back, there are never more allowed than there are probes. */
  lemma {:induction false} ProbesAreBounded(cfg: Config, past: seq<Op>, quiet: seq<Op>)
    requires Quiet(quiet)
    requires past != [] && past[|past| - 1].Fail? && Broken(cfg, past)
    ensures var b := Run(cfg, past + quiet);
            && AllowedAsks(cfg, past, quiet) == b.probes <= Probes(cfg)
            && !b.state.CLOSED? && b.openedAt.Some? && (b.state.OPEN? ==> b.probes == 0)
  {
    if quiet == [] {
      FailuresAreCounted(cfg, past[..|past| - 1]);
      assert past + quiet == past;
    } else {
      var n := |quiet| - 1;
      ProbesAreBounded(cfg, past, quiet[..n]);
      assert (past + quiet)[..|past| + n] == past + quiet[..n];
      hide Broken;
    }
  }

  /** So a breaker that has used up its probes refuses for ever, until an outcome is recorded. */
  lemma RefusesUntilTold(cfg: Config, past: seq<Op>, quiet: seq<Op>, now: real)
    requires Chronological(past + quiet + [Ask(now)]) && Quiet(quiet)
    requires past != [] && past[|past| - 1].Fail? && Broken(cfg, past)
    requires AllowedAsks(cfg, past, quiet) >= cfg.halfOpenMaxProbes
    ensures !Allow(cfg, Run(cfg, past + quiet), now).1
  {
    hide Run, Allow, FailuresSinceSuccess, LastFailure, AsksSince, AsksFrom, AllowedAsks, Chronological, Quiet;
    var ops := past + quiet;
    PrefixIsChronological(ops + [Ask(now)], |ops|);
    assert (ops + [Ask(now)])[..|ops|] == ops;
    ProbesExactly(cfg, past, quiet);
    QuietTellsNothing(past, quiet, past[|past| - 1].now + cfg.cooldown);
    AnswerTellsHistory(cfg, ops, now);
  }
}
