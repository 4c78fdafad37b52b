/** The request-validation pipeline behind an Express route: an ordered list of
    stages (a token check, express-validator field chains, the validation
    handler and a controller), run left to right with early exit. */
module Pipeline {

  type Field = string

  /** A request body: a field that is not a key is absent (undefined). */
  type Body = map<Field, string>

  /** What the pipeline reads besides the body: the usernames the user store
      already holds, and whether the token middleware accepts the request. */
  datatype Context = Context(registered: set<string>, tokenValid: bool)

  datatype Option<T> = None | Some(value: T)

  function Lookup(b: Body, f: Field): (v: Option<string>)
    ensures v.Some? <==> f in b
    ensures v.Some? ==> v.value == b[f]
  {
    if f in b then Some(b[f]) else None
  }

  /** The string a standard validator sees: an absent value reads as "". */
  function Coerced(b: Body, f: Field): (s: string)
    ensures f in b ==> s == b[f]
    ensures f !in b ==> s == ""
  {
    if f in b then b[f] else ""
  }

  /** The validators the routes use. */
  datatype Rule =
    | Exists                    // .exists()
    | MinLength(min: nat)       // .isLength({ min })
    | OneOf(allowed: seq<string>) // .custom(v => allowed.includes(v))
    | SameAs(other: Field)      // .custom((v, { req }) => v === req.body[other])
    | UsernameFree              // .custom(async v => no user has username v)

  /** A validator together with the message it reports when it fails. */
  datatype Check = Check(rule: Rule, message: string)

  datatype FieldError = FieldError(field: Field, message: string)

  datatype Stage =
    | TokenAuth                                 // tokenMiddleware.auth
    | Body(field: Field, checks: seq<Check>)    // body(field).check().check()...
    | Validate                                  // requestHandler.validate
    | Controller(name: string)                  // the route's handler

  datatype Outcome =
    | Reached(controller: string)       // the controller runs
    | Invalid(errors: seq<FieldError>)  // the validation handler answers with the errors
    | Unauthorized                      // the token middleware answers
    | Unhandled                         // no stage answered

  /** Whether rule `r`, attached to field `f`, accepts the request. */
  predicate Holds(r: Rule, f: Field, b: Body, ctx: Context)
    // A positive minimum length can only be met by a present value.
    ensures r.MinLength? && r.min > 0 && Holds(r, f, b, ctx) ==> f in b && |b[f]| >= r.min
    // Membership in a list of strings can only be met by a present value.
    ensures r.OneOf? && Holds(r, f, b, ctx) ==> f in b
    // Two fields compare equal when both are absent or both hold the same string.
    ensures r.SameAs? ==> (Holds(r, f, b, ctx) <==>
      (f !in b && r.other !in b) || (f in b && r.other in b && b[f] == b[r.other]))
    // A present username passes the lookup exactly when nobody holds it.
    ensures r.UsernameFree? && f in b ==> (Holds(r, f, b, ctx) <==> b[f] !in ctx.registered)
  {
    match r
    case Exists => f in b
    case MinLength(n) => |Coerced(b, f)| >= n
    case OneOf(allowed) => f in b && b[f] in allowed
    case SameAs(other) => Lookup(b, f) == Lookup(b, other)
    case UsernameFree => !(f in b && b[f] in ctx.registered)
  }

  /** The errors one field chain records: every check runs, and each one that
      fails adds its message for that field, in chain order. */
  function ChecksErrors(f: Field, checks: seq<Check>, b: Body, ctx: Context): (errs: seq<FieldError>)
    ensures |errs| <= |checks|
    ensures forall k :: 0 <= k < |errs| ==> errs[k].field == f
  {
    if checks == [] then []
    else
      (if Holds(checks[0].rule, f, b, ctx) then [] else [FieldError(f, checks[0].message)])
      + ChecksErrors(f, checks[1..], b, ctx)
  }

  /** The errors all field chains in `stages` record, in stage order. */
  function BodiesErrors(stages: seq<Stage>, b: Body, ctx: Context): (errs: seq<FieldError>)
    ensures forall k :: 0 <= k < |errs| ==>
      exists i :: 0 <= i < |stages| && stages[i].Body? && stages[i].field == errs[k].field
  {
    if stages == [] then []
    else
      (if stages[0].Body? then ChecksErrors(stages[0].field, stages[0].checks, b, ctx) else [])
      + BodiesErrors(stages[1..], b, ctx)
  }

  /** Runs the stages in order; `pending` holds the errors recorded so far. */
  function Run(stages: seq<Stage>, b: Body, ctx: Context, pending: seq<FieldError>): (o: Outcome)
    ensures o.Unauthorized? ==> !ctx.tokenValid
    ensures o.Invalid? ==> o.errors != [] && pending <= o.errors
  {
    if stages == [] then Unhandled
    else
      match stages[0]
      case TokenAuth =>
        if ctx.tokenValid then Run(stages[1..], b, ctx, pending) else Unauthorized
      case Body(f, checks) =>
        Run(stages[1..], b, ctx, pending + ChecksErrors(f, checks, b, ctx))
      case Validate =>
        if pending == [] then Run(stages[1..], b, ctx, pending) else Invalid(pending)
      case Controller(name) =>
        Reached(name)
  }

  /** A chain reports an error exactly for the checks that fail. */
  lemma {:induction false} ChecksErrorsSpec(f: Field, checks: seq<Check>, b: Body, ctx: Context, e: FieldError)
    ensures e in ChecksErrors(f, checks, b, ctx) <==>
      e.field == f &&
      exists j :: 0 <= j < |checks| && checks[j].message == e.message && !Holds(checks[j].rule, f, b, ctx)
    decreases |checks|
  {
    if checks != [] {
      ChecksErrorsSpec(f, checks[1..], b, ctx, e);
      if e in ChecksErrors(f, checks[1..], b, ctx) {
        var j :| 0 <= j < |checks[1..]| && checks[1..][j].message == e.message && !Holds(checks[1..][j].rule, f, b, ctx);
        assert checks[j + 1] == checks[1..][j];
      }
      if e.field == f {
        forall j | 0 < j < |checks| && checks[j].message == e.message && !Holds(checks[j].rule, f, b, ctx)
          ensures e in ChecksErrors(f, checks[1..], b, ctx)
        {
          assert checks[1..][j - 1] == checks[j];
        }
      }
    }
  }

  /** A chain reports nothing exactly when every one of its checks holds. */
  lemma {:induction false} ChecksErrorsEmpty(f: Field, checks: seq<Check>, b: Body, ctx: Context)
    ensures ChecksErrors(f, checks, b, ctx) == [] <==>
      forall j :: 0 <= j < |checks| ==> Holds(checks[j].rule, f, b, ctx)
    decreases |checks|
  {
    if checks != [] {
      ChecksErrorsEmpty(f, checks[1..], b, ctx);
      assert forall j :: 0 < j < |checks| ==> checks[j] == checks[1..][j - 1];
    }
  }

  /** The errors of a run of field chains are those of its chains. */
  lemma {:induction false} BodiesErrorsSpec(stages: seq<Stage>, b: Body, ctx: Context, e: FieldError)
    ensures e in BodiesErrors(stages, b, ctx) <==>
      exists i :: 0 <= i < |stages| && stages[i].Body? && e in ChecksErrors(stages[i].field, stages[i].checks, b, ctx)
    decreases |stages|
  {
    if stages != [] {
      BodiesErrorsSpec(stages[1..], b, ctx, e);
      if e in BodiesErrors(stages[1..], b, ctx) {
        var i :| 0 <= i < |stages[1..]| && stages[1..][i].Body? && e in ChecksErrors(stages[1..][i].field, stages[1..][i].checks, b, ctx);
        assert stages[i + 1] == stages[1..][i];
      }
      forall i | 0 < i < |stages| && stages[i].Body? && e in ChecksErrors(stages[i].field, stages[i].checks, b, ctx)
        ensures e in BodiesErrors(stages[1..], b, ctx)
      {
        assert stages[1..][i - 1] == stages[i];
      }
    }
  }

  /** Which stage answered: a run reaches only a controller listed in its
      stages, answers `Unauthorized` only from a token stage, answers `Invalid`
      only from a validation stage, and falls through only when no controller
      is listed. */
  lemma {:induction false} RunAnswersFrom(stages: seq<Stage>, b: Body, ctx: Context, pending: seq<FieldError>)
    ensures Run(stages, b, ctx, pending).Reached? ==> Controller(Run(stages, b, ctx, pending).controller) in stages
    ensures Run(stages, b, ctx, pending).Unauthorized? ==> TokenAuth in stages
    ensures Run(stages, b, ctx, pending).Invalid? ==> Validate in stages
    ensures Run(stages, b, ctx, pending).Unhandled? ==> forall i :: 0 <= i < |stages| ==> !stages[i].Controller?
    decreases |stages|
  {
    if stages != [] {
      var next := if stages[0].Body? then pending + ChecksErrors(stages[0].field, stages[0].checks, b, ctx) else pending;
      RunAnswersFrom(stages[1..], b, ctx, next);
      assert forall i :: 0 < i < |stages| ==> stages[i] == stages[1..][i - 1];
    }
  }

  /** A field chain at the head of a route appends its errors and passes on. */
  lemma RunBodyStep(stages: seq<Stage>, b: Body, ctx: Context, pending: seq<FieldError>)
    requires stages != [] && stages[0].Body?
    ensures Run(stages, b, ctx, pending) ==
      Run(stages[1..], b, ctx, pending + ChecksErrors(stages[0].field, stages[0].checks, b, ctx))
  {
  }

  /** The errors of the first `k` chains are those of the first, then those of the next `k - 1`. */
  lemma BodiesErrorsStep(stages: seq<Stage>, k: nat, b: Body, ctx: Context)
    requires 0 < k <= |stages| && stages[0].Body?
    ensures BodiesErrors(stages[..k], b, ctx) ==
      ChecksErrors(stages[0].field, stages[0].checks, b, ctx) + BodiesErrors(stages[1..][..k - 1], b, ctx)
  {
    assert stages[..k][1..] == stages[1..][..k - 1];
  }

  /** Running a block of field chains only appends their errors to `pending`. */
  lemma {:induction false} RunAfterBodies(stages: seq<Stage>, k: nat, b: Body, ctx: Context, pending: seq<FieldError>)
    requires k <= |stages|
    requires forall i :: 0 <= i < k ==> stages[i].Body?
    ensures Run(stages, b, ctx, pending) == Run(stages[k..], b, ctx, pending + BodiesErrors(stages[..k], b, ctx))
    decreases k
  {
    if k == 0 {
      assert stages[..0] == [];
      assert pending + [] == pending;
    } else {
      var head := ChecksErrors(stages[0].field, stages[0].checks, b, ctx);
      RunBodyStep(stages, b, ctx, pending);
      RunAfterBodies(stages[1..], k - 1, b, ctx, pending + head);
      assert stages[1..][k - 1..] == stages[k..];
      BodiesErrorsStep(stages, k, b, ctx);
      var rest := BodiesErrors(stages[1..][..k - 1], b, ctx);
      assert (pending + head) + rest == pending + (head + rest);
    }
  }

  /** The route shape the router uses: an optional token check, field chains,
      the validation handler, then a controller. */
  predicate ValidatedRoute(stages: seq<Stage>, guarded: bool, chains: nat, controller: string)
  {
    var start := if guarded then 1 else 0;
    && |stages| == start + chains + 2
    && (guarded ==> stages[0] == TokenAuth)
    && (forall i :: start <= i < start + chains ==> stages[i].Body?)
    && stages[start + chains] == Validate
    && stages[start + chains + 1] == Controller(controller)
  }

  /** The field chains of a route of that shape. */
  function Chains(stages: seq<Stage>, guarded: bool, chains: nat, controller: string): (body: seq<Stage>)
    requires ValidatedRoute(stages, guarded, chains, controller)
    ensures |body| == chains && forall i :: 0 <= i < |body| ==> body[i].Body?
  {
    var start := if guarded then 1 else 0;
    stages[start..start + chains]
  }

  /** How a route of that shape ends: a failed token check stops it first;
      otherwise it reaches the controller exactly when no chain recorded an
      error, and answers with all recorded errors when some did. */
  lemma ValidatedRouteOutcome(stages: seq<Stage>, guarded: bool, chains: nat, controller: string, b: Body, ctx: Context)
    requires ValidatedRoute(stages, guarded, chains, controller)
    ensures var errs := BodiesErrors(Chains(stages, guarded, chains, controller), b, ctx);
      Run(stages, b, ctx, []) ==
        if guarded && !ctx.tokenValid then Unauthorized
        else if errs == [] then Reached(controller)
        else Invalid(errs)
  {
    var body := Chains(stages, guarded, chains, controller);
    var tail := if guarded then stages[1..] else stages;
    assert tail[..chains] == body;
    if !guarded || ctx.tokenValid {
      RunAfterBodies(tail, chains, b, ctx, []);
      assert tail[chains..] == [Validate, Controller(controller)];
    }
  }

  /** A route made of the token check and a controller reaches the controller
      exactly when the token check passes, whatever the body. */
  lemma GuardedOnlyOutcome(stages: seq<Stage>, controller: string, b: Body, ctx: Context)
    requires stages == [TokenAuth, Controller(controller)]
    ensures Run(stages, b, ctx, []) == if ctx.tokenValid then Reached(controller) else Unauthorized
  {
  }
}
