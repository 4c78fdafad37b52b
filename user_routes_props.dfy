/** What each route of the user router promises about the requests it lets
    through to its controller and the messages it answers with. */
module UserRoutesProps {
  import opened Pipeline
  import opened PipelineProps
  import opened UserRoutes

  /** Check `j` of chain `i` holds when all checks of `stages` hold. */
  lemma CheckHolds(stages: seq<Stage>, b: Body, ctx: Context, i: nat, j: nat)
    requires AllChecksHold(stages, b, ctx)
    requires i < |stages| && stages[i].Body? && j < |stages[i].checks|
    ensures Holds(stages[i].checks[j].rule, stages[i].field, b, ctx)
  {
  }

  // ----- POST /signup

  lemma SignupChecksHold(b: Body, ctx: Context)
    ensures AllChecksHold(SignupChains, b, ctx) <==> SignupAcceptable(b, ctx)
  {
    if AllChecksHold(SignupChains, b, ctx) {
      CheckHolds(SignupChains, b, ctx, 0, 1);
      CheckHolds(SignupChains, b, ctx, 0, 2);
      CheckHolds(SignupChains, b, ctx, 1, 1);
      CheckHolds(SignupChains, b, ctx, 2, 1);
      CheckHolds(SignupChains, b, ctx, 2, 2);
      CheckHolds(SignupChains, b, ctx, 3, 1);
    }
  }

  /** Signup reaches its controller exactly when username, password,
      confirmPassword and displayName are present and at least 8 characters
      long, confirmPassword equals password, and the username is not taken. */
  lemma SignupReachedIff(b: Body, ctx: Context)
    ensures Signup(b, ctx) == Reached(SignupController) <==> SignupAcceptable(b, ctx)
    ensures !SignupAcceptable(b, ctx) ==> Signup(b, ctx).Invalid? && Signup(b, ctx).errors != []
  {
    ReachedIff(SignupRoute, false, |SignupChains|, SignupController, b, ctx);
    assert Chains(SignupRoute, false, |SignupChains|, SignupController) == SignupChains;
    SignupChecksHold(b, ctx);
  }

  /** A taken username is answered with "nombre de usuario existente" on the
      username field, whatever the other fields hold. */
  lemma SignupUsernameTaken(b: Body, ctx: Context)
    requires "username" in b && b["username"] in ctx.registered
    ensures Signup(b, ctx).Invalid? && FieldError("username", UsernameTaken) in Signup(b, ctx).errors
  {
    assert Chains(SignupRoute, false, |SignupChains|, SignupController) == SignupChains;
    FailedCheckReported(SignupRoute, false, |SignupChains|, SignupController, b, ctx, 0, 2);
  }

  /** A confirmation that differs from the password is answered with
      "las contraseñas no coinciden" on confirmPassword. */
  lemma SignupPasswordsDiffer(b: Body, ctx: Context)
    requires Lookup(b, "confirmPassword") != Lookup(b, "password")
    ensures Signup(b, ctx).Invalid? && FieldError("confirmPassword", PasswordsDiffer) in Signup(b, ctx).errors
  {
    assert Chains(SignupRoute, false, |SignupChains|, SignupController) == SignupChains;
    FailedCheckReported(SignupRoute, false, |SignupChains|, SignupController, b, ctx, 2, 2);
  }

  /** A field of the signup form that is too short (or absent) is answered
      with that field's length message. */
  lemma SignupTooShort(b: Body, ctx: Context, f: Field)
    requires f in {"username", "password", "confirmPassword", "displayName"}
    requires !Long(b, f, MinLen)
    ensures Signup(b, ctx).Invalid?
    ensures f == "username" ==> FieldError(f, UsernameTooShort) in Signup(b, ctx).errors
    ensures f == "password" ==> FieldError(f, PasswordTooShort) in Signup(b, ctx).errors
    ensures f == "confirmPassword" ==> FieldError(f, ConfirmTooShort) in Signup(b, ctx).errors
    ensures f == "displayName" ==> FieldError(f, DisplayNameTooShort) in Signup(b, ctx).errors
  {
    assert Chains(SignupRoute, false, |SignupChains|, SignupController) == SignupChains;
    var i := if f == "username" then 0 else if f == "password" then 1 else if f == "confirmPassword" then 2 else 3;
    FailedCheckReported(SignupRoute, false, |SignupChains|, SignupController, b, ctx, i, 1);
  }

  // ----- POST /signin

  lemma SigninChecksHold(b: Body, ctx: Context)
    ensures AllChecksHold(SigninChains, b, ctx) <==> SigninAcceptable(b)
  {
    if AllChecksHold(SigninChains, b, ctx) {
      CheckHolds(SigninChains, b, ctx, 0, 1);
      CheckHolds(SigninChains, b, ctx, 1, 1);
    }
  }

  /** Signin reaches its controller exactly when username and password are
      present and at least 8 characters long. */
  lemma SigninReachedIff(b: Body, ctx: Context)
    ensures Signin(b, ctx) == Reached(SigninController) <==> SigninAcceptable(b)
  {
    ReachedIff(SigninRoute, false, |SigninChains|, SigninController, b, ctx);
    assert Chains(SigninRoute, false, |SigninChains|, SigninController) == SigninChains;
    SigninChecksHold(b, ctx);
  }

  /** Signin only checks the shape of the body: its outcome depends neither on
      the registered usernames nor on any token. */
  lemma SigninIgnoresContext(b: Body, ctx1: Context, ctx2: Context)
    ensures Signin(b, ctx1) == Signin(b, ctx2)
  {
    var body := Chains(SigninRoute, false, |SigninChains|, SigninController);
    assert body == SigninChains;
    ValidatedRouteOutcome(SigninRoute, false, |SigninChains|, SigninController, b, ctx1);
    ValidatedRouteOutcome(SigninRoute, false, |SigninChains|, SigninController, b, ctx2);
    BodiesErrorsAgree(body, b, ctx1, b, ctx2);
  }

  // ----- PUT /update-password

  lemma UpdatePasswordChecksHold(b: Body, ctx: Context)
    ensures AllChecksHold(UpdatePasswordChains, b, ctx) <==> UpdatePasswordAcceptable(b)
  {
    if AllChecksHold(UpdatePasswordChains, b, ctx) {
      CheckHolds(UpdatePasswordChains, b, ctx, 0, 1);
      CheckHolds(UpdatePasswordChains, b, ctx, 1, 1);
      CheckHolds(UpdatePasswordChains, b, ctx, 2, 1);
      CheckHolds(UpdatePasswordChains, b, ctx, 2, 2);
    }
  }

  /** Update-password reaches its controller exactly when the token check
      passes, password, newPassword and confirmNewPassword are present and at
      least 8 characters long, and confirmNewPassword equals newPassword. */
  lemma UpdatePasswordReachedIff(b: Body, ctx: Context)
    ensures UpdatePassword(b, ctx) == Reached(UpdatePasswordController) <==>
      ctx.tokenValid && UpdatePasswordAcceptable(b)
  {
    ReachedIff(UpdatePasswordRoute, true, |UpdatePasswordChains|, UpdatePasswordController, b, ctx);
    assert Chains(UpdatePasswordRoute, true, |UpdatePasswordChains|, UpdatePasswordController) == UpdatePasswordChains;
    UpdatePasswordChecksHold(b, ctx);
  }

  /** Once the token check passes, a confirmation that differs from the new
      password is answered with "las contraseñas no coinciden" on
      confirmNewPassword. */
  lemma UpdatePasswordPasswordsDiffer(b: Body, ctx: Context)
    requires ctx.tokenValid
    requires Lookup(b, "confirmNewPassword") != Lookup(b, "newPassword")
    ensures UpdatePassword(b, ctx).Invalid?
    ensures FieldError("confirmNewPassword", PasswordsDiffer) in UpdatePassword(b, ctx).errors
  {
    assert Chains(UpdatePasswordRoute, true, |UpdatePasswordChains|, UpdatePasswordController) == UpdatePasswordChains;
    FailedCheckReported(UpdatePasswordRoute, true, |UpdatePasswordChains|, UpdatePasswordController, b, ctx, 2, 2);
  }

  // ----- POST /favorites

  lemma AddFavoriteChecksHold(b: Body, ctx: Context)
    ensures AllChecksHold(AddFavoriteChains, b, ctx) <==> AddFavoriteAcceptable(b)
  {
    if AllChecksHold(AddFavoriteChains, b, ctx) {
      CheckHolds(AddFavoriteChains, b, ctx, 0, 1);
      CheckHolds(AddFavoriteChains, b, ctx, 1, 1);
      CheckHolds(AddFavoriteChains, b, ctx, 2, 0);
      CheckHolds(AddFavoriteChains, b, ctx, 3, 0);
      CheckHolds(AddFavoriteChains, b, ctx, 4, 0);
    }
  }

  /** Adding a favorite reaches its controller exactly when the token check
      passes, mediaType is "movie" or "tv", mediaId is present and not empty,
      and mediaTitle, mediaPoster and mediaRate are present. */
  lemma AddFavoriteReachedIff(b: Body, ctx: Context)
    ensures AddFavorite(b, ctx) == Reached(AddFavoriteController) <==>
      ctx.tokenValid && AddFavoriteAcceptable(b)
  {
    ReachedIff(AddFavoriteRoute, true, |AddFavoriteChains|, AddFavoriteController, b, ctx);
    assert Chains(AddFavoriteRoute, true, |AddFavoriteChains|, AddFavoriteController) == AddFavoriteChains;
    AddFavoriteChecksHold(b, ctx);
  }

  /** Once the token check passes, a mediaType other than exactly "movie" or
      "tv" (an absent one included) is answered with "mediaType invalid". */
  lemma AddFavoriteBadMediaType(b: Body, ctx: Context)
    requires ctx.tokenValid
    requires Lookup(b, "mediaType") != Some("movie") && Lookup(b, "mediaType") != Some("tv")
    ensures AddFavorite(b, ctx).Invalid?
    ensures FieldError("mediaType", MediaTypeInvalid) in AddFavorite(b, ctx).errors
  {
    assert Chains(AddFavoriteRoute, true, |AddFavoriteChains|, AddFavoriteController) == AddFavoriteChains;
    FailedCheckReported(AddFavoriteRoute, true, |AddFavoriteChains|, AddFavoriteController, b, ctx, 0, 1);
  }

  /** Once the token check passes, an empty mediaId is answered with
      "mediaId can not be empty". */
  lemma AddFavoriteEmptyMediaId(b: Body, ctx: Context)
    requires ctx.tokenValid
    requires Lookup(b, "mediaId") == Some("")
    ensures AddFavorite(b, ctx).Invalid?
    ensures FieldError("mediaId", MediaIdEmpty) in AddFavorite(b, ctx).errors
  {
    assert Chains(AddFavoriteRoute, true, |AddFavoriteChains|, AddFavoriteController) == AddFavoriteChains;
    FailedCheckReported(AddFavoriteRoute, true, |AddFavoriteChains|, AddFavoriteController, b, ctx, 1, 1);
  }

  /** mediaTitle, mediaPoster and mediaRate only need to be present: once one
      is, replacing its value by any other (the empty string included) does
      not change the outcome. */
  lemma AddFavoriteAnyDetail(b: Body, ctx: Context, f: Field, v: string)
    requires f in {"mediaTitle", "mediaPoster", "mediaRate"} && f in b
    ensures AddFavorite(b[f := v], ctx) == AddFavorite(b, ctx)
  {
    var body := Chains(AddFavoriteRoute, true, |AddFavoriteChains|, AddFavoriteController);
    assert body == AddFavoriteChains;
    ValidatedRouteOutcome(AddFavoriteRoute, true, |AddFavoriteChains|, AddFavoriteController, b[f := v], ctx);
    ValidatedRouteOutcome(AddFavoriteRoute, true, |AddFavoriteChains|, AddFavoriteController, b, ctx);
    BodiesErrorsAgree(body, b[f := v], ctx, b, ctx);
  }
}
