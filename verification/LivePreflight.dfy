/** The mandatory preflight of the live path: an unknown check is never a pass. */
module LivePreflight {
  datatype CheckStatus = PASS | FAIL | UNKNOWN

  const MANDATORY: seq<string> := [
    "broker_credentials", "broker_connection", "account_authenticated", "account_identity",
    "trading_permissions", "market_data_live", "clock_sync", "symbol_mapping", "contract_specs",
    "price_fresh", "portfolio_sync", "positions_sync", "orders_sync", "risk_engine", "risk_limits",
    "execution_engine", "model_loaded", "model_compatible", "feature_schema", "state_snapshot",
    "audit_logging", "kill_switch"]

  datatype Report = Report(overall: CheckStatus, checks: map<string, CheckStatus>, reasons: seq<string>)

  function StatusName(st: CheckStatus): string {
    match st case PASS => "PASS" case FAIL => "FAIL" case UNKNOWN => "UNKNOWN"
  }

  /** The status a check counts with: what the caller supplied, or UNKNOWN. */
  function Effective(supplied: map<string, CheckStatus>, forced: bool, name: string): CheckStatus {
    if !forced && name in supplied then supplied[name] else UNKNOWN
  }

  function Complaints(supplied: map<string, CheckStatus>, forced: bool, names: seq<string>): seq<string> {
    if names == [] then []
    else
      var n := |names| - 1;
      var st := Effective(supplied, forced, names[n]);
      Complaints(supplied, forced, names[..n]) + if st.PASS? then [] else [names[n] + "=" + StatusName(st)]
  }

  predicate AnyIs(supplied: map<string, CheckStatus>, forced: bool, names: seq<string>, st: CheckStatus) {
    exists name :: name in names && Effective(supplied, forced, name) == st
  }

  function PreflightOver(names: seq<string>, supplied: map<string, CheckStatus>, forced: bool): Report {
    Report(
      if AnyIs(supplied, forced, names, FAIL) || AnyIs(supplied, forced, names, UNKNOWN) then FAIL else PASS,
      map name | name in names :: Effective(supplied, forced, name),
      Complaints(supplied, forced, names)
      + if AnyIs(supplied, forced, names, UNKNOWN) && !AnyIs(supplied, forced, names, FAIL)
        then ["unknown_checks_block_arm"] else [])
  }

  function Preflight(supplied: map<string, CheckStatus>, forced: bool): Report {
    PreflightOver(MANDATORY, supplied, forced)
  }

  ghost predicate Passed(r: Report, names: seq<string>) {
    forall name :: name in names ==> name in r.checks && r.checks[name] == PASS
  }

  /** What arming relies on: every mandatory check is recorded as passed. */
  ghost predicate EveryCheckPassed(r: Report) {
    Passed(r, MANDATORY)
  }

  ghost predicate Vouched(supplied: map<string, CheckStatus>, names: seq<string>) {
    forall name :: name in names ==> name in supplied && supplied[name] == PASS
  }

  lemma PassExactlyOver(names: seq<string>, supplied: map<string, CheckStatus>, forced: bool)
    requires names != []
    ensures var r := PreflightOver(names, supplied, forced);
            && (r.overall == PASS <==> Passed(r, names))
            && (r.overall == PASS <==> !forced && Vouched(supplied, names))
            && r.overall != UNKNOWN
  {
    hide Complaints;
    var r := PreflightOver(names, supplied, forced);
    forall name | name in names && r.overall == PASS
      ensures r.checks[name] == PASS && !forced && name in supplied && supplied[name] == PASS
    {
      var st := Effective(supplied, forced, name);
      assert st != FAIL && st != UNKNOWN;
    }
    if r.overall != PASS {
      var name :| name in names && Effective(supplied, forced, name) != PASS;
      assert r.checks[name] != PASS;
    }
    assert names[0] in names;
  }

  /** The preflight passes exactly when the caller vouched for every mandatory check;
      anything else is a FAIL, never an UNKNOWN. */
  lemma PassExactly(supplied: map<string, CheckStatus>, forced: bool)
    ensures var r := Preflight(supplied, forced);
            && (r.overall == PASS <==> EveryCheckPassed(r))
            && (r.overall == PASS <==> !forced && Vouched(supplied, MANDATORY))
            && r.overall != UNKNOWN
  {
    hide PreflightOver, Passed, Vouched;
    PassExactlyOver(MANDATORY, supplied, forced);
  }

  /** The mandatory checks are twenty-two, each named once. */
  lemma MandatoryAreDistinct(i: nat, j: nat)
    requires i < j < 22
    ensures |MANDATORY| == 22 && MANDATORY[i] != MANDATORY[j]
  {
  }

  lemma {:induction false} ComplaintIsMade(supplied: map<string, CheckStatus>, forced: bool, names: seq<string>,
                                           name: string)
    requires name in names && !Effective(supplied, forced, name).PASS?
    ensures name + "=" + StatusName(Effective(supplied, forced, name)) in Complaints(supplied, forced, names)
  {
    hide Effective, StatusName;
    var n := |names| - 1;
    if name != names[n] {
      assert name in names[..n];
      ComplaintIsMade(supplied, forced, names[..n], name);
    }
  }

  lemma {:induction false} NoComplaintExactly(supplied: map<string, CheckStatus>, forced: bool, names: seq<string>)
    ensures Complaints(supplied, forced, names) == [] <==>
            forall name :: name in names ==> Effective(supplied, forced, name).PASS?
  {
    hide Effective, StatusName;
    if names != [] {
      var n := |names| - 1;
      NoComplaintExactly(supplied, forced, names[..n]);
      assert names == names[..n] + [names[n]];
    }
  }

  /** The report complains by name of every check that did not pass, and of nothing exactly if all did. */
  lemma ComplainsExactly(names: seq<string>, supplied: map<string, CheckStatus>, forced: bool, name: string)
    requires name in names
    ensures var r := PreflightOver(names, supplied, forced);
            && (r.reasons == [] <==> r.overall == PASS)
            && (!forced && name in supplied && supplied[name] == FAIL ==> name + "=FAIL" in r.reasons)
            && (forced || name !in supplied || supplied[name] == UNKNOWN ==> name + "=UNKNOWN" in r.reasons)
  {
    if !Effective(supplied, forced, name).PASS? {
      ComplaintIsMade(supplied, forced, names, name);
    }
    NoComplaintExactly(supplied, forced, names);
    assert name + "=" + "FAIL" == name + "=FAIL" && name + "=" + "UNKNOWN" == name + "=UNKNOWN";
    hide Complaints;
  }

  method RunPreflight(supplied: map<string, CheckStatus>, forceAllUnknown: bool) returns (report: Report)
    ensures report == Preflight(supplied, forceAllUnknown)
  {
    report := RunChecks(MANDATORY, supplied, forceAllUnknown);
  }

  method RunChecks(names: seq<string>, supplied: map<string, CheckStatus>, forceAllUnknown: bool)
    returns (report: Report)
    ensures report == PreflightOver(names, supplied, forceAllUnknown)
  {
    hide Complaints, Effective, AnyIs;
    var results, reasons := CollectChecks(names, supplied, forceAllUnknown);
    ValuesAreStatuses(names, supplied, forceAllUnknown, results);
    var overall := PASS;
    if FAIL in results.Values {
      overall := FAIL;
    } else if UNKNOWN in results.Values {
      overall := FAIL;
      reasons := reasons + ["unknown_checks_block_arm"];
    }
    report := Report(overall, results, reasons);
  }

  /** The loop: each check's status, and a complaint for each that is not a pass. */
  method CollectChecks(names: seq<string>, supplied: map<string, CheckStatus>, forceAllUnknown: bool)
    returns (results: map<string, CheckStatus>, reasons: seq<string>)
    ensures forall name :: name in results <==> name in names
    ensures forall name :: name in results ==> results[name] == Effective(supplied, forceAllUnknown, name)
    ensures reasons == Complaints(supplied, forceAllUnknown, names)
  {
    hide StatusName;
    results, reasons := map[], [];
    var i := 0;
    while i < |names|
      invariant i <= |names|
      invariant forall name :: name in results <==> name in names[..i]
      invariant forall name :: name in results ==> results[name] == Effective(supplied, forceAllUnknown, name)
      invariant reasons == Complaints(supplied, forceAllUnknown, names[..i])
    {
      var name := names[i];
      var st := UNKNOWN;
      if !forceAllUnknown && name in supplied {
        st := supplied[name];
      }
      assert names[..i + 1] == names[..i] + [name];
      results := results[name := st];
      if st != PASS {
        reasons := reasons + [name + "=" + StatusName(st)];
      }
      i := i + 1;
    }
    assert names[..i] == names;
  }

  lemma ValuesAreStatuses(names: seq<string>, supplied: map<string, CheckStatus>, forced: bool,
                          results: map<string, CheckStatus>)
    requires forall name :: name in results <==> name in names
    requires forall name :: name in results ==> results[name] == Effective(supplied, forced, name)
    ensures forall st :: st in results.Values <==> AnyIs(supplied, forced, names, st)
    ensures results == map name | name in names :: Effective(supplied, forced, name)
  {
    forall st ensures st in results.Values <==> AnyIs(supplied, forced, names, st) {
      if st in results.Values {
        var name :| name in results && results[name] == st;
        assert name in names && Effective(supplied, forced, name) == st;
      }
    }
  }
}
