/**
 * The gate in front of merging a pull request: stored recommendation, last review, Vercel override, deferral to CI,
 * and a fresh CI verdict on the head commit.
 */
module MergeGate {
  import opened Prelude
  import opened CiVerdict

  /** Classification of findings is outside this model; any finding may be of any class. */
  datatype Class = Env | OtherClass
  datatype Finding = Finding(class_: Class, blocksMerge: bool)

  /** The last review; `findings` is None when the stored text does not hold a list. The verdict is in lower case. */
  datatype Review = Review(verdict: string, findings: Option<seq<Finding>>)

  datatype Config = Config(authorised: set<string>, vercelEnabled: bool, vercelProject: string)

  class Session {
    const prNumber: Option<int>
    const prUrl: Option<string>
    const recommendation: Option<string>
    var merged: bool

    constructor (prNumber: Option<int>, prUrl: Option<string>, recommendation: Option<string>, merged: bool)
      ensures this.prNumber == prNumber && this.prUrl == prUrl && this.recommendation == recommendation && this.merged == merged
    {
      this.prNumber, this.prUrl, this.recommendation, this.merged := prNumber, prUrl, recommendation, merged;
    }

    predicate HasPr() { prNumber.Some? && prNumber.value != 0 && prUrl.Some? && prUrl.value != "" }

    function Rec(): string { recommendation.GetOr("do_not_merge") }
  }

  /** What GitHub and the token store answer during one call. */
  datatype Answers = Answers(
    token: bool,
    /** None: the pull request could not be read. Some(merged): whether GitHub has already merged it. */
    pullRequest: Option<bool>,
    statuses: Response<Statuses>, checks: Response<RunList>, workflows: Response<RunList>,
    mergeSucceeds: bool)

  datatype Reply = Reply(ok: bool, refused: bool)

  // ---- The policy -------------------------------------------------------------------------

  function Filter(findings: seq<Finding>): (kept: seq<Finding>)
    ensures forall f :: f in kept <==> f in findings && f.blocksMerge
  {
    if findings == [] then [] else (if findings[0].blocksMerge then [findings[0]] else []) + Filter(findings[1..])
  }

  function LastVerdict(review: Option<Review>): string { if review.Some? then review.value.verdict else "" }

  /** A do-not-merge that the deploy verification after the merge may overrule. */
  predicate Overridable(config: Config, rec: string, review: Option<Review>) {
    && config.vercelEnabled && config.vercelProject != "" && rec != "needs_human_review"
    && LastVerdict(review) == "revise" && !HasBlocker(review)
  }

  predicate HasBlocker(review: Option<Review>) {
    review.Some? && review.value.findings.Some? && exists f | f in review.value.findings.value :: f.blocksMerge
  }

  /** Every blocking finding only says that the harness could not check something, and there is one. */
  predicate EnvOnly(review: Option<Review>) {
    HasBlocker(review) && forall f | f in review.value.findings.value && f.blocksMerge :: f.class_.Env?
  }

  predicate Deferred(config: Config, rec: string, review: Option<Review>) {
    && rec != "merge" && rec != "needs_human_review" && LastVerdict(review) != "block"
    && EnvOnly(review) && !Overridable(config, rec, review)
  }

  /** The stored recommendation lets the request go on to CI. */
  predicate Cleared(config: Config, rec: string, review: Option<Review>) {
    rec == "merge" || Overridable(config, rec, review) || Deferred(config, rec, review)
  }

  predicate Allowed(config: Config, invokedBy: string) { invokedBy != "" && invokedBy in config.authorised }

  function CiOf(a: Answers): CiState { Verdict(a.statuses, EvidenceOf(a.statuses, a.checks, a.workflows, true)) }

  /** The merge call is reached. */
  predicate Merges(config: Config, invokedBy: string, rec: string, review: Option<Review>, a: Answers) {
    && Allowed(config, invokedBy) && Cleared(config, rec, review)
    && a.token && a.pullRequest == Some(false)
    && (CiOf(a) == Success || (CiOf(a) == NoSignals && !Deferred(config, rec, review)))
  }

  /** The findings that can be read from the last review. */
  function FindingsOf(review: Option<Review>): seq<Finding> {
    if review.Some? && review.value.findings.Some? then review.value.findings.value else []
  }

  /** Everything but the recommendation, the review and CI lets the call through. */
  predicate Ready(config: Config, invokedBy: string, row: Session?, merged: bool, a: Answers) {
    && row != null && invokedBy != "" && invokedBy in config.authorised
    && row.prNumber.Some? && row.prNumber.value != 0 && row.prUrl.Some? && row.prUrl.value != "" && !merged
    && a.token && a.pullRequest == Some(false)
  }

  // ---- The gate ---------------------------------------------------------------------------

  method ReadReview(review: Option<Review>) returns (hasBlockingFinding: bool, envOnlyBlock: bool)
    ensures hasBlockingFinding == HasBlocker(review) && envOnlyBlock == EnvOnly(review)
  {
    hasBlockingFinding, envOnlyBlock := false, false;
    if review.Some? && review.value.findings.Some? {
      var blockers := Filter(review.value.findings.value);
      hasBlockingFinding := |blockers| > 0;
      envOnlyBlock := |blockers| > 0 && forall f | f in blockers :: f.class_.Env?;
      assert |blockers| > 0 ==> blockers[0] in blockers;
    }
  }

  method MergePr(config: Config, invokedBy: string, row: Session?, review: Option<Review>, a: Answers)
      returns (reply: Reply, calledMerge: bool)
    modifies row
    ensures calledMerge <==>
            row != null && row.HasPr() && !old(row.merged) && Merges(config, invokedBy, row.Rec(), review, a)
    // What a merge takes.
    ensures calledMerge ==> Ready(config, invokedBy, row, old(row.merged), a) && CiOf(a) in {Success, NoSignals}
    ensures calledMerge && row.recommendation != Some("merge") && (forall f | f in FindingsOf(review) :: !f.blocksMerge) ==>
            config.vercelEnabled && config.vercelProject != "" && review.Some? && review.value.verdict == "revise"
    ensures calledMerge && row.recommendation != Some("merge") && (exists f | f in FindingsOf(review) :: f.blocksMerge) ==>
            && CiOf(a) == Success && review.value.verdict != "block"
            && forall f | f in FindingsOf(review) && f.blocksMerge :: f.class_ == Env
    ensures calledMerge ==> row.recommendation != Some("needs_human_review")
    // When it must be made: a clean recommendation, the Vercel override, and the block a green pipeline answers.
    ensures
      && Ready(config, invokedBy, row, row != null && old(row.merged), a) && row.recommendation == Some("merge")
      && CiOf(a) in {Success, NoSignals}
      ==> calledMerge
    ensures
      && Ready(config, invokedBy, row, row != null && old(row.merged), a) && row.recommendation != Some("needs_human_review")
      && config.vercelEnabled && config.vercelProject != "" && review.Some? && review.value.verdict == "revise"
      && (forall f | f in FindingsOf(review) :: !f.blocksMerge) && CiOf(a) in {Success, NoSignals}
      ==> calledMerge
    ensures
      && Ready(config, invokedBy, row, row != null && old(row.merged), a) && row.recommendation != Some("needs_human_review")
      && review.Some? && review.value.verdict != "block" && (exists f | f in FindingsOf(review) :: f.blocksMerge)
      && (forall f | f in FindingsOf(review) && f.blocksMerge :: f.class_ == Env) && CiOf(a) == Success
      ==> calledMerge
    ensures row != null ==>
            row.merged ==
              (old(row.merged) || (calledMerge && a.mergeSucceeds) ||
               (row.HasPr() && Allowed(config, invokedBy) && Cleared(config, row.Rec(), review) && a.token && a.pullRequest == Some(true)))
    ensures reply.ok ==> row != null && row.merged
    ensures calledMerge ==> (reply.ok <==> a.mergeSucceeds)
    ensures reply.refused ==> !calledMerge && row != null && row.merged == old(row.merged)
  {
    calledMerge := false;
    if invokedBy == "" || invokedBy !in config.authorised {
      return Reply(false, false), false;
    }
    if row == null {
      return Reply(false, false), false;
    }
    if !row.HasPr() {
      return Reply(false, false), false;
    }
    if row.merged {
      return Reply(false, false), false;
    }
    var vercelConfigured := config.vercelEnabled && config.vercelProject != "";
    var lastVerdict := LastVerdict(review);
    var hasBlockingFinding, envOnlyBlock := ReadReview(review);
    var rec := row.Rec();
    var reviewCrashPr := rec == "needs_human_review";
    var reviseOnly := lastVerdict == "revise" && !hasBlockingFinding;
    var overridable := vercelConfigured && reviseOnly && !reviewCrashPr;
    var deferToCi := rec != "merge" && !overridable && envOnlyBlock && !reviewCrashPr && lastVerdict != "block";
    if rec != "merge" && !overridable && !deferToCi {
      return Reply(false, true), false;
    }
    if !a.token || a.pullRequest.None? {
      return Reply(false, false), false;
    }
    if a.pullRequest.value {
      row.merged := true;
      return Reply(true, false), false;
    }
    var snap := GetCiSnapshot(a.statuses, a.checks, a.workflows, true);
    var ci := snap.state;
    if ci == Failure || ci == Unknown || ci == Pending {
      return Reply(false, true), false;
    }
    if deferToCi && ci != Success {
      return Reply(false, true), false;
    }
    calledMerge := true;
    if !a.mergeSucceeds {
      return Reply(false, false), true;
    }
    row.merged := true;
    reply := Reply(true, false);
  }

  // ---- What a merge rests on --------------------------------------------------------------

  /**
   * A merge means an allowed invoker, a readable CI in which nothing failed or still runs, and either a clean
   * recommendation, an override with no blocking finding, or a deferral that a green pipeline has answered.
   */
  lemma MergeRestsOn(config: Config, invokedBy: string, rec: string, review: Option<Review>, a: Answers)
    requires Merges(config, invokedBy, rec, review, a)
    ensures a.statuses.Body? && !LegacyRed(a.statuses.value)
    ensures var e := EvidenceOf(a.statuses, a.checks, a.workflows, true);
      e.Complete? && forall r | r in e.runs :: IsPassed(r)
    ensures rec != "merge" && HasBlocker(review) ==>
            CiOf(a) == Success && LastVerdict(review) != "block" && EnvOnly(review)
    ensures rec != "needs_human_review" && (rec != "merge" ==> LastVerdict(review) != "block")
  {
    GreenIff(a.statuses, EvidenceOf(a.statuses, a.checks, a.workflows, true));
  }
}
