/**
 * The CI verdict on a commit: legacy statuses, check runs, and the Actions workflow runs asked for when GitHub denies
 * access. The three answers are arbitrary.
 */
module CiVerdict {
  import opened Prelude

  datatype Run = Run(status: string, conclusion: Option<string>)

  /** A page of runs. A null entry makes counting throw. */
  datatype RunList = RunList(total: Option<int>, runs: seq<Option<Run>>)

  /** The combined status. A null body reads like one with neither field. */
  datatype Statuses = Statuses(state: Option<string>, total: Option<int>)

  /** Raised is a failed request or an unreadable body. */
  datatype Response<T> = Body(value: T) | Http(code: int) | Raised

  datatype CiState = Success | Failure | Pending | NoSignals | Unknown

  datatype Source = Unread | CheckRuns | WorkflowRuns

  datatype Denial = StatusesDenied(code: int) | ChecksDenied(code: int)

  datatype Snapshot = Snapshot(
    state: CiState,
    statusReadable: bool, checksReadable: bool,
    statusState: string, statusCount: int,
    total: nat, incomplete: nat, failed: nat, passed: nat,
    permanentDenial: seq<Denial>,
    source: Source)

  const FAILED := {"failure", "timed_out", "cancelled", "action_required", "stale"}
  const PASSING := {"success", "neutral", "skipped"}
  const PERMANENT_HTTP := {401, 403, 404}

  predicate IsFailed(r: Run) { r.conclusion.GetOr("") in FAILED }

  predicate IsIncomplete(r: Run) { r.status != "completed" }

  predicate IsPassed(r: Run) { !IsIncomplete(r) && r.conclusion.GetOr("") in PASSING }

  // ---- Counting ---------------------------------------------------------------------------

  datatype Tally = Tally(incomplete: nat, failed: nat, passed: nat)

  predicate Clean(list: RunList) { forall i | 0 <= i < |list.runs| :: list.runs[i].Some? }

  predicate Truncated(list: RunList) { list.total.Some? && list.total.value > |list.runs| }

  function RunsOf(list: RunList): (runs: seq<Run>)
    requires Clean(list)
    ensures |runs| == |list.runs| && forall i | 0 <= i < |runs| :: runs[i] == list.runs[i].value
  {
    seq(|list.runs|, i requires 0 <= i < |list.runs| => list.runs[i].value)
  }

  /** `filter(p).length`. */
  function CountIf(runs: seq<Run>, p: Run -> bool): nat {
    if runs == [] then 0 else CountIf(runs[..|runs| - 1], p) + (if p(runs[|runs| - 1]) then 1 else 0)
  }

  lemma {:induction false} CountIfFacts(runs: seq<Run>, p: Run -> bool)
    ensures CountIf(runs, p) <= |runs|
    ensures CountIf(runs, p) == 0 <==> forall r | r in runs :: !p(r)
    ensures CountIf(runs, p) == |runs| <==> forall r | r in runs :: p(r)
  {
    if runs != [] {
      var front, last := runs[..|runs| - 1], runs[|runs| - 1];
      CountIfFacts(front, p);
      assert forall r :: r in runs <==> r in front || r == last;
    }
  }

  function TallyOf(runs: seq<Run>): Tally {
    Tally(CountIf(runs, IsIncomplete), CountIf(runs, IsFailed), CountIf(runs, IsPassed))
  }

  /** The counts of a list, or nothing when an entry is null. */
  method CountRuns(list: RunList) returns (counted: Option<Tally>)
    ensures counted == if Clean(list) then Some(TallyOf(RunsOf(list))) else None
  {
    var t := Tally(0, 0, 0);
    var runs: seq<Run> := [];
    for i := 0 to |list.runs|
      invariant |runs| == i && forall j | 0 <= j < i :: list.runs[j] == Some(runs[j])
      invariant t == TallyOf(runs)
    {
      if list.runs[i].None? {
        return None;
      }
      var r := list.runs[i].value;
      t := Tally(t.incomplete + (if IsIncomplete(r) then 1 else 0), t.failed + (if IsFailed(r) then 1 else 0),
                 t.passed + (if IsPassed(r) then 1 else 0));
      assert (runs + [r])[..i] == runs;
      runs := runs + [r];
    }
    assert runs == RunsOf(list);
    counted := Some(t);
  }

  // ---- The verdict ------------------------------------------------------------------------

  /** What the run lists amount to: a complete list, a list that broke while it was counted, or nothing readable. */
  datatype Evidence = Complete(runs: seq<Run>) | Garbled | Nothing

  predicate Denied<T>(r: Response<T>) { r.Http? && r.code in PERMANENT_HTTP }

  predicate Usable(r: Response<RunList>) { r.Body? && Clean(r.value) && !Truncated(r.value) }

  function EvidenceOf(statuses: Response<Statuses>, checks: Response<RunList>, workflows: Response<RunList>, fallback: bool): Evidence {
    if Usable(checks) then Complete(RunsOf(checks.value))
    else if checks.Body? && !Clean(checks.value) then Garbled
    else if fallback && (Denied(statuses) || Denied(checks)) && Usable(workflows) then Complete(RunsOf(workflows.value))
    else Nothing
  }

  predicate LegacyRed(s: Statuses) { s.state.GetOr("") == "failure" || s.state.GetOr("") == "error" }

  predicate LegacyPending(s: Statuses) { s.state.GetOr("") == "pending" && s.total.GetOr(0) > 0 }

  predicate LegacyGood(s: Statuses) { s.total.GetOr(0) == 0 || s.state.GetOr("") == "success" }

  function Verdict(statuses: Response<Statuses>, evidence: Evidence): CiState {
    if !statuses.Body? || evidence.Nothing? then Unknown
    else
      var s := statuses.value;
      if LegacyRed(s) || (evidence.Complete? && exists r | r in evidence.runs :: IsFailed(r)) then Failure
      else if LegacyPending(s) || (evidence.Complete? && exists r | r in evidence.runs :: IsIncomplete(r)) then Pending
      else if evidence.Garbled? then Unknown
      else if s.total.GetOr(0) == 0 && evidence.runs == [] then NoSignals
      else if LegacyGood(s) && forall r | r in evidence.runs :: IsPassed(r) then Success
      else Unknown
  }

  // ---- Taking the snapshot ----------------------------------------------------------------

  method ReadStatuses(was: Snapshot, statuses: Response<Statuses>) returns (snap: Snapshot, denials: seq<Denial>)
    requires !was.statusReadable && was.statusState == "" && was.statusCount == 0
    ensures snap == if statuses.Body?
      then was.(statusReadable := true, statusState := statuses.value.state.GetOr(""), statusCount := statuses.value.total.GetOr(0))
      else was
    ensures denials == if Denied(statuses) then [StatusesDenied(statuses.code)] else []
  {
    snap, denials := was, [];
    match statuses {
      case Body(s) =>
        snap := snap.(statusReadable := true);
        snap := snap.(statusState := s.state.GetOr(""));
        snap := snap.(statusCount := s.total.GetOr(0));
      case Http(code) =>
        if code in PERMANENT_HTTP { denials := [StatusesDenied(code)]; }
      case Raised =>
    }
  }

  /** The counters of a snapshot are those of a list. */
  ghost predicate Counts(snap: Snapshot, runs: seq<Run>) {
    snap.total == |runs| && Tally(snap.incomplete, snap.failed, snap.passed) == TallyOf(runs)
  }

  /** The fields are written before the entries are looked at, so a list that breaks leaves its length and no counts. */
  method ReadChecks(was: Snapshot, checks: Response<RunList>) returns (snap: Snapshot, denials: seq<Denial>)
    requires !was.checksReadable && was.total == was.incomplete == was.failed == was.passed == 0
    ensures snap.(checksReadable := false, source := was.source, total := 0, incomplete := 0, failed := 0, passed := 0) == was
    ensures snap.checksReadable <==> checks.Body? && (Clean(checks.value) ==> !Truncated(checks.value))
    ensures Usable(checks) ==> Counts(snap, RunsOf(checks.value))
    ensures checks.Body? && !Clean(checks.value) ==>
            snap.total == |checks.value.runs| > 0 && snap.incomplete == snap.failed == snap.passed == 0
    ensures snap.source == if checks.Body? then CheckRuns else was.source
    ensures denials == if Denied(checks) then [ChecksDenied(checks.code)] else []
  {
    snap, denials := was, [];
    match checks {
      case Body(list) =>
        snap := snap.(checksReadable := true, source := CheckRuns, total := |list.runs|);
        var counted := CountRuns(list);
        if counted.Some? {
          var t := counted.value;
          snap := snap.(incomplete := t.incomplete, failed := t.failed, passed := t.passed);
          if list.total.GetOr(|list.runs|) > |list.runs| {
            snap := snap.(checksReadable := false);
          }
        }
      case Http(code) =>
        if code in PERMANENT_HTTP { denials := [ChecksDenied(code)]; }
      case Raised =>
    }
  }

  /** The Actions runs: counts only for a complete list. */
  method ReadWorkflowRuns(workflows: Response<RunList>) returns (counted: Option<(nat, Tally)>)
    ensures counted == if Usable(workflows) then Some((|workflows.value.runs|, TallyOf(RunsOf(workflows.value)))) else None
  {
    if !workflows.Body? || workflows.value.total.GetOr(|workflows.value.runs|) > |workflows.value.runs| {
      return None;
    }
    var t := CountRuns(workflows.value);
    counted := if t.Some? then Some((|workflows.value.runs|, t.value)) else None;
  }

  /** The snapshot's fields say what was read. */
  ghost predicate Shows(snap: Snapshot, statuses: Response<Statuses>, evidence: Evidence) {
    && snap.statusReadable == statuses.Body?
    && (statuses.Body? ==> snap.statusState == statuses.value.state.GetOr("") && snap.statusCount == statuses.value.total.GetOr(0))
    && (snap.checksReadable <==> !evidence.Nothing?)
    && (evidence.Complete? ==> Counts(snap, evidence.runs))
    && (evidence.Garbled? ==> snap.total > 0 && snap.incomplete == snap.failed == snap.passed == 0)
  }

  /** The rules, in the order the program applies them. */
  method Judge(snap: Snapshot, ghost statuses: Response<Statuses>, ghost evidence: Evidence) returns (state: CiState)
    requires Shows(snap, statuses, evidence)
    ensures state == Verdict(statuses, evidence)
  {
    if evidence.Complete? {
      CountIfFacts(evidence.runs, IsIncomplete);
      CountIfFacts(evidence.runs, IsFailed);
      CountIfFacts(evidence.runs, IsPassed);
    }
    if !snap.statusReadable || !snap.checksReadable {
      return Unknown;
    }
    if snap.statusState == "failure" || snap.statusState == "error" {
      return Failure;
    }
    if snap.failed > 0 {
      return Failure;
    }
    if snap.incomplete > 0 {
      return Pending;
    }
    if snap.statusState == "pending" && snap.statusCount > 0 {
      return Pending;
    }
    if snap.statusCount == 0 && snap.total == 0 {
      return NoSignals;
    }
    var allChecksGood := snap.passed == snap.total;
    var legacyGood := snap.statusCount == 0 || snap.statusState == "success";
    if legacyGood && allChecksGood {
      return Success;
    }
    state := Unknown;
  }

  const BLANK := Snapshot(Unknown, false, false, "", 0, 0, 0, 0, 0, [], Unread)

  method GetCiSnapshot(statuses: Response<Statuses>, checks: Response<RunList>, workflows: Response<RunList>, fallback: bool)
      returns (snap: Snapshot)
    ensures snap.state == Verdict(statuses, EvidenceOf(statuses, checks, workflows, fallback))
    ensures snap.statusReadable == statuses.Body?
    ensures snap.checksReadable <==> !EvidenceOf(statuses, checks, workflows, fallback).Nothing?
    ensures EvidenceOf(statuses, checks, workflows, fallback).Complete? ==>
            Counts(snap, EvidenceOf(statuses, checks, workflows, fallback).runs)
    ensures snap.source == WorkflowRuns <==>
            && fallback && (Denied(statuses) || Denied(checks)) && Usable(workflows)
            && (checks.Body? ==> Clean(checks.value) && Truncated(checks.value))
    ensures snap.permanentDenial ==
            if snap.statusReadable && snap.checksReadable then []
            else (if Denied(statuses) then [StatusesDenied(statuses.code)] else []) +
                 (if Denied(checks) then [ChecksDenied(checks.code)] else [])
  {
    var denied, deniedToo;
    snap, denied := ReadStatuses(BLANK, statuses);
    snap, deniedToo := ReadChecks(snap, checks);
    var denials := denied + deniedToo;
    if !snap.checksReadable && |denials| > 0 && fallback {
      var wf := ReadWorkflowRuns(workflows);
      if wf.Some? {
        var (n, t) := wf.value;
        snap := snap.(checksReadable := true, source := WorkflowRuns);
        snap := snap.(total := n, incomplete := t.incomplete, failed := t.failed, passed := t.passed);
        assert Counts(snap, RunsOf(workflows.value));
      }
    }
    var state := Judge(snap, statuses, EvidenceOf(statuses, checks, workflows, fallback));
    snap := snap.(state := state);
    if !snap.statusReadable || !snap.checksReadable {
      snap := snap.(permanentDenial := denials);
    }
  }

  // ---- What a verdict means ---------------------------------------------------------------

  /** Green takes both signals, every run completed and passing, legacy green or absent, and something to go by. */
  lemma GreenIff(statuses: Response<Statuses>, evidence: Evidence)
    ensures Verdict(statuses, evidence) == Success <==>
      && statuses.Body? && evidence.Complete?
      && LegacyGood(statuses.value) && !LegacyRed(statuses.value)
      && (forall r | r in evidence.runs :: IsPassed(r))
      && (statuses.value.total.GetOr(0) != 0 || evidence.runs != [])
  {
  }

  /** The evidence, from the answers as they came. */
  lemma EvidenceIs(statuses: Response<Statuses>, checks: Response<RunList>, workflows: Response<RunList>, fallback: bool)
    ensures var e := EvidenceOf(statuses, checks, workflows, fallback);
      var denied := statuses in {Http(401), Http(403), Http(404)} || checks in {Http(401), Http(403), Http(404)};
      if checks.Body? && None in checks.value.runs then e == Garbled
      else if checks.Body? && checks.value.total.GetOr(0) <= |checks.value.runs| then Holds(e, checks.value)
      else if fallback && denied && workflows.Body? && None !in workflows.value.runs
              && workflows.value.total.GetOr(0) <= |workflows.value.runs| then Holds(e, workflows.value)
      else e == Nothing
  {
    assert checks.Body? ==> (Clean(checks.value) <==> None !in checks.value.runs);
    assert workflows.Body? ==> (Clean(workflows.value) <==> None !in workflows.value.runs);
  }

  /** The evidence is all of the list's runs. */
  predicate Holds(e: Evidence, list: RunList) {
    e.Complete? && |e.runs| == |list.runs| && forall i | 0 <= i < |list.runs| :: list.runs[i] == Some(e.runs[i])
  }

  /** Each verdict, from the strings GitHub sends. */
  lemma VerdictIs(statuses: Response<Statuses>, evidence: Evidence)
    ensures var v := Verdict(statuses, evidence);
      var red := statuses.Body? && evidence != Nothing &&
        (statuses.value.state in {Some("failure"), Some("error")} ||
         (evidence.Complete? && exists r | r in evidence.runs ::
            r.conclusion in {Some("failure"), Some("timed_out"), Some("cancelled"), Some("action_required"), Some("stale")}));
      var running := statuses.Body? && evidence != Nothing && !red &&
        ((statuses.value.state == Some("pending") && statuses.value.total.GetOr(0) > 0) ||
         (evidence.Complete? && exists r | r in evidence.runs :: r.status != "completed"));
      var empty := statuses.Body? && evidence == Complete([]) && !red && statuses.value.total.GetOr(0) == 0;
      var green := statuses.Body? && evidence.Complete? && !red && !empty &&
        (statuses.value.total.GetOr(0) == 0 || statuses.value.state == Some("success")) &&
        forall r | r in evidence.runs :: r.status == "completed" && r.conclusion in {Some("success"), Some("neutral"), Some("skipped")};
      v == if red then Failure else if running then Pending else if empty then NoSignals else if green then Success else Unknown
  {
    assert forall r: Run :: IsFailed(r) <==>
      r.conclusion in {Some("failure"), Some("timed_out"), Some("cancelled"), Some("action_required"), Some("stale")};
    assert forall r: Run :: IsPassed(r) <==> r.status == "completed" && r.conclusion in {Some("success"), Some("neutral"), Some("skipped")};
  }

  /** Red stays red whatever runs are added, and no added run makes a verdict green that was not. */
  lemma MoreRuns(statuses: Response<Statuses>, runs: seq<Run>, more: seq<Run>)
    ensures Verdict(statuses, Complete(runs)) == Failure ==> Verdict(statuses, Complete(runs + more)) == Failure
    ensures Verdict(statuses, Complete(runs + more)) == Success ==> Verdict(statuses, Complete(runs)) in {Success, NoSignals}
  {
    assert forall r | r in runs :: r in runs + more;
    GreenIff(statuses, Complete(runs));
    GreenIff(statuses, Complete(runs + more));
  }

  /** A truncated list of check runs is never rescued: the verdict is unknown whatever the other answers are. */
  lemma TruncatedIsUnknown(statuses: Response<Statuses>, checks: Response<RunList>, workflows: Response<RunList>, fallback: bool)
    requires checks.Body? && Clean(checks.value) && Truncated(checks.value)
    ensures Verdict(statuses, EvidenceOf(statuses, checks, workflows, fallback)) == Unknown
  {
  }

  /** A green that rests on workflow runs means that the Checks API said no and the Actions list was complete. */
  lemma GreenByFallback(statuses: Response<Statuses>, checks: Response<RunList>, workflows: Response<RunList>, fallback: bool)
    requires Verdict(statuses, EvidenceOf(statuses, checks, workflows, fallback)) == Success && !Usable(checks)
    ensures fallback && Denied(checks) && Usable(workflows)
    ensures forall r | r in RunsOf(workflows.value) :: IsPassed(r)
  {
    GreenIff(statuses, EvidenceOf(statuses, checks, workflows, fallback));
  }
}
