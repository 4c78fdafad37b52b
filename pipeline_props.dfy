/** What any route of the validated shape promises: which errors it reports,
    when it reaches its controller, and what its outcome depends on. */
module PipelineProps {
  import opened Pipeline

  /** Every check of every field chain in `stages` accepts the request. */
  predicate AllChecksHold(stages: seq<Stage>, b: Body, ctx: Context)
  {
    forall i, j :: 0 <= i < |stages| && stages[i].Body? && 0 <= j < |stages[i].checks| ==>
      Holds(stages[i].checks[j].rule, stages[i].field, b, ctx)
  }

  /** The field chains record no error exactly when all their checks hold. */
  lemma BodiesErrorsEmpty(stages: seq<Stage>, b: Body, ctx: Context)
    ensures BodiesErrors(stages, b, ctx) == [] <==> AllChecksHold(stages, b, ctx)
  {
    var errs := BodiesErrors(stages, b, ctx);
    if errs != [] {
      BodiesErrorsSpec(stages, b, ctx, errs[0]);
      var i :| 0 <= i < |stages| && stages[i].Body? && errs[0] in ChecksErrors(stages[i].field, stages[i].checks, b, ctx);
      ChecksErrorsEmpty(stages[i].field, stages[i].checks, b, ctx);
    } else {
      forall i | 0 <= i < |stages| && stages[i].Body?
        ensures forall j :: 0 <= j < |stages[i].checks| ==> Holds(stages[i].checks[j].rule, stages[i].field, b, ctx)
      {
        var cs := ChecksErrors(stages[i].field, stages[i].checks, b, ctx);
        if cs != [] {
          BodiesErrorsSpec(stages, b, ctx, cs[0]);
          assert false;
        }
        ChecksErrorsEmpty(stages[i].field, stages[i].checks, b, ctx);
      }
    }
  }

  /** A route reaches its controller exactly when its token check (if any)
      passes and every check of every field chain holds. */
  lemma ReachedIff(stages: seq<Stage>, guarded: bool, chains: nat, controller: string, b: Body, ctx: Context)
    requires ValidatedRoute(stages, guarded, chains, controller)
    ensures Run(stages, b, ctx, []) == Reached(controller) <==>
      (!guarded || ctx.tokenValid) && AllChecksHold(Chains(stages, guarded, chains, controller), b, ctx)
    ensures Run(stages, b, ctx, []) == Reached(controller) || Run(stages, b, ctx, []).Unauthorized? ||
      (Run(stages, b, ctx, []).Invalid? && Run(stages, b, ctx, []).errors != [])
    ensures Run(stages, b, ctx, []).Unauthorized? <==> guarded && !ctx.tokenValid
  {
    ValidatedRouteOutcome(stages, guarded, chains, controller, b, ctx);
    BodiesErrorsEmpty(Chains(stages, guarded, chains, controller), b, ctx);
  }

  /** If a check of a field chain fails (and the token check, if any, passed),
      the route answers with its message for that field among the errors. */
  lemma FailedCheckReported(stages: seq<Stage>, guarded: bool, chains: nat, controller: string,
                            b: Body, ctx: Context, i: nat, j: nat)
    requires ValidatedRoute(stages, guarded, chains, controller)
    requires !guarded || ctx.tokenValid
    requires i < chains
    requires var s := Chains(stages, guarded, chains, controller)[i];
      j < |s.checks| && !Holds(s.checks[j].rule, s.field, b, ctx)
    ensures var s := Chains(stages, guarded, chains, controller)[i];
      Run(stages, b, ctx, []).Invalid? && FieldError(s.field, s.checks[j].message) in Run(stages, b, ctx, []).errors
  {
    var body := Chains(stages, guarded, chains, controller);
    var s := body[i];
    var e := FieldError(s.field, s.checks[j].message);
    ChecksErrorsSpec(s.field, s.checks, b, ctx, e);
    BodiesErrorsSpec(body, b, ctx, e);
    ValidatedRouteOutcome(stages, guarded, chains, controller, b, ctx);
  }

  /** Check `j` of chain `i` fails, and `e` is its message for its field. */
  predicate FailedCheck(chains: seq<Stage>, i: int, j: int, e: FieldError, b: Body, ctx: Context)
  {
    && 0 <= i < |chains| && chains[i].Body? && 0 <= j < |chains[i].checks|
    && chains[i].field == e.field && chains[i].checks[j].message == e.message
    && !Holds(chains[i].checks[j].rule, chains[i].field, b, ctx)
  }

  /** Every error a route answers with is the message of a check that failed. */
  lemma ReportedErrorsFailed(stages: seq<Stage>, guarded: bool, chains: nat, controller: string,
                             b: Body, ctx: Context, e: FieldError)
    requires ValidatedRoute(stages, guarded, chains, controller)
    requires Run(stages, b, ctx, []).Invalid? && e in Run(stages, b, ctx, []).errors
    ensures exists i, j :: FailedCheck(Chains(stages, guarded, chains, controller), i, j, e, b, ctx)
  {
    var body := Chains(stages, guarded, chains, controller);
    ValidatedRouteOutcome(stages, guarded, chains, controller, b, ctx);
    BodiesErrorsSpec(body, b, ctx, e);
    var i :| 0 <= i < |body| && body[i].Body? && e in ChecksErrors(body[i].field, body[i].checks, b, ctx);
    ChecksErrorsSpec(body[i].field, body[i].checks, b, ctx, e);
    var j :| 0 <= j < |body[i].checks| && body[i].checks[j].message == e.message
      && !Holds(body[i].checks[j].rule, body[i].field, b, ctx);
    assert FailedCheck(body, i, j, e, b, ctx);
  }

  /** Two requests on which every check of every chain agrees record the same
      errors. */
  lemma {:induction false} BodiesErrorsAgree(stages: seq<Stage>, b1: Body, ctx1: Context, b2: Body, ctx2: Context)
    requires forall i, j :: 0 <= i < |stages| && stages[i].Body? && 0 <= j < |stages[i].checks| ==>
      (Holds(stages[i].checks[j].rule, stages[i].field, b1, ctx1) <==> Holds(stages[i].checks[j].rule, stages[i].field, b2, ctx2))
    ensures BodiesErrors(stages, b1, ctx1) == BodiesErrors(stages, b2, ctx2)
    decreases |stages|
  {
    if stages != [] {
      assert forall i :: 0 < i < |stages| ==> stages[1..][i - 1] == stages[i];
      BodiesErrorsAgree(stages[1..], b1, ctx1, b2, ctx2);
      if stages[0].Body? {
        ChecksErrorsAgree(stages[0].field, stages[0].checks, b1, ctx1, b2, ctx2);
      }
    }
  }

  lemma {:induction false} ChecksErrorsAgree(f: Field, checks: seq<Check>, b1: Body, ctx1: Context, b2: Body, ctx2: Context)
    requires forall j :: 0 <= j < |checks| ==> (Holds(checks[j].rule, f, b1, ctx1) <==> Holds(checks[j].rule, f, b2, ctx2))
    ensures ChecksErrors(f, checks, b1, ctx1) == ChecksErrors(f, checks, b2, ctx2)
    decreases |checks|
  {
    if checks != [] {
      assert forall j :: 0 < j < |checks| ==> checks[1..][j - 1] == checks[j];
      ChecksErrorsAgree(f, checks[1..], b1, ctx1, b2, ctx2);
    }
  }
}
