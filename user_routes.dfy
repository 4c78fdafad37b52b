/** The account and favorites routes of the user router: each route is the
    ordered list of stages the router registers for it, run by Pipeline.Run. */
module UserRoutes {
  import opened Pipeline
  import opened PipelineProps

  // The messages the chains report.
  const UsernameRequired := "se requiere nombre de usuario"
  const UsernameTooShort := "nombre de usuario mínimo de 8 caracteres"
  const UsernameTaken := "nombre de usuario existente"
  const PasswordRequired := "se requiere contraseña"
  const PasswordTooShort := "contraseña mínima de 8 caracteres"
  const ConfirmRequired := "se requiere confirmar contraseña"
  const ConfirmTooShort := "confirmar contraseña mínima de 8 caracteres"
  const PasswordsDiffer := "las contraseñas no coinciden"
  const DisplayNameRequired := "se requiere un nombre público"
  const DisplayNameTooShort := "nombre mínimo de 8 caracteres"
  const NewPasswordRequired := "se requiere nueva contraseña"
  const NewPasswordTooShort := "nueva contraseña mínima de 8 caracteres"
  const MediaTypeRequired := "mediaType is required"
  const MediaTypeInvalid := "mediaType invalid"
  const MediaIdRequired := "mediaId is required"
  const MediaIdEmpty := "mediaId can not be empty"
  const MediaTitleRequired := "mediaTitle is required"
  const MediaPosterRequired := "mediaPoster is required"
  const MediaRateRequired := "mediaRate is required"

  /** The minimum length of usernames, passwords and display names. */
  const MinLen: nat := 8

  /** The media types a favorite may have. */
  const MediaTypes := ["movie", "tv"]

  // POST /signup
  const SignupChains := [
    Body("username", [Check(Exists, UsernameRequired), Check(MinLength(MinLen), UsernameTooShort),
                      Check(UsernameFree, UsernameTaken)]),
    Body("password", [Check(Exists, PasswordRequired), Check(MinLength(MinLen), PasswordTooShort)]),
    Body("confirmPassword", [Check(Exists, ConfirmRequired), Check(MinLength(MinLen), ConfirmTooShort),
                             Check(SameAs("password"), PasswordsDiffer)]),
    Body("displayName", [Check(Exists, DisplayNameRequired), Check(MinLength(MinLen), DisplayNameTooShort)])
  ]
  const SignupController := "userController.signup"
  const SignupRoute := SignupChains + [Validate, Controller(SignupController)]

  // POST /signin
  const SigninChains := [
    Body("username", [Check(Exists, UsernameRequired), Check(MinLength(MinLen), UsernameTooShort)]),
    Body("password", [Check(Exists, PasswordRequired), Check(MinLength(MinLen), PasswordTooShort)])
  ]
  const SigninController := "userController.signin"
  const SigninRoute := SigninChains + [Validate, Controller(SigninController)]

  // PUT /update-password
  const UpdatePasswordChains := [
    Body("password", [Check(Exists, PasswordRequired), Check(MinLength(MinLen), PasswordTooShort)]),
    Body("newPassword", [Check(Exists, NewPasswordRequired), Check(MinLength(MinLen), NewPasswordTooShort)]),
    Body("confirmNewPassword", [Check(Exists, ConfirmRequired), Check(MinLength(MinLen), ConfirmTooShort),
                                Check(SameAs("newPassword"), PasswordsDiffer)])
  ]
  const UpdatePasswordController := "userController.updatePassword"
  const UpdatePasswordRoute := [TokenAuth] + UpdatePasswordChains + [Validate, Controller(UpdatePasswordController)]

  // GET /info
  const InfoController := "userController.getInfo"
  const InfoRoute := [TokenAuth, Controller(InfoController)]

  // GET /favorites
  const ListFavoritesController := "favoriteController.getFavoritesOfUser"
  const ListFavoritesRoute := [TokenAuth, Controller(ListFavoritesController)]

  // POST /favorites
  const AddFavoriteChains := [
    Body("mediaType", [Check(Exists, MediaTypeRequired), Check(OneOf(MediaTypes), MediaTypeInvalid)]),
    Body("mediaId", [Check(Exists, MediaIdRequired), Check(MinLength(1), MediaIdEmpty)]),
    Body("mediaTitle", [Check(Exists, MediaTitleRequired)]),
    Body("mediaPoster", [Check(Exists, MediaPosterRequired)]),
    Body("mediaRate", [Check(Exists, MediaRateRequired)])
  ]
  const AddFavoriteController := "favoriteController.addFavorite"
  const AddFavoriteRoute := [TokenAuth] + AddFavoriteChains + [Validate, Controller(AddFavoriteController)]

  // DELETE /favorites/:favoriteId
  const RemoveFavoriteController := "favoriteController.removeFavorite"
  const RemoveFavoriteRoute := [TokenAuth, Controller(RemoveFavoriteController)]

  /** Field `f` is present and at least `n` characters long. */
  predicate Long(b: Body, f: Field, n: nat)
  {
    f in b && |b[f]| >= n
  }

  // ----- The contract each route promises, stated independently of the stages.

  predicate SignupAcceptable(b: Body, ctx: Context)
  {
    && Long(b, "username", MinLen) && b["username"] !in ctx.registered
    && Long(b, "password", MinLen)
    && Long(b, "confirmPassword", MinLen) && b["confirmPassword"] == b["password"]
    && Long(b, "displayName", MinLen)
  }

  predicate SigninAcceptable(b: Body)
  {
    Long(b, "username", MinLen) && Long(b, "password", MinLen)
  }

  predicate UpdatePasswordAcceptable(b: Body)
  {
    && Long(b, "password", MinLen)
    && Long(b, "newPassword", MinLen)
    && Long(b, "confirmNewPassword", MinLen) && b["confirmNewPassword"] == b["newPassword"]
  }

  predicate AddFavoriteAcceptable(b: Body)
  {
    && "mediaType" in b && b["mediaType"] in MediaTypes
    && Long(b, "mediaId", 1)
    && "mediaTitle" in b && "mediaPoster" in b && "mediaRate" in b
  }

  // ----- The routes.

  function Signup(b: Body, ctx: Context): (o: Outcome)
    ensures o == Reached(SignupController) || (o.Invalid? && o.errors != [])
  {
    ReachedIff(SignupRoute, false, |SignupChains|, SignupController, b, ctx);
    Run(SignupRoute, b, ctx, [])
  }

  function Signin(b: Body, ctx: Context): (o: Outcome)
    ensures o == Reached(SigninController) || (o.Invalid? && o.errors != [])
  {
    ReachedIff(SigninRoute, false, |SigninChains|, SigninController, b, ctx);
    Run(SigninRoute, b, ctx, [])
  }

  function UpdatePassword(b: Body, ctx: Context): (o: Outcome)
    ensures o.Unauthorized? <==> !ctx.tokenValid
    ensures o == Reached(UpdatePasswordController) || o.Unauthorized? || (o.Invalid? && o.errors != [])
  {
    ReachedIff(UpdatePasswordRoute, true, |UpdatePasswordChains|, UpdatePasswordController, b, ctx);
    Run(UpdatePasswordRoute, b, ctx, [])
  }

  function Info(b: Body, ctx: Context): (o: Outcome)
    ensures o == (if ctx.tokenValid then Reached(InfoController) else Unauthorized)
  {
    GuardedOnlyOutcome(InfoRoute, InfoController, b, ctx);
    Run(InfoRoute, b, ctx, [])
  }

  function ListFavorites(b: Body, ctx: Context): (o: Outcome)
    ensures o == (if ctx.tokenValid then Reached(ListFavoritesController) else Unauthorized)
  {
    GuardedOnlyOutcome(ListFavoritesRoute, ListFavoritesController, b, ctx);
    Run(ListFavoritesRoute, b, ctx, [])
  }

  function AddFavorite(b: Body, ctx: Context): (o: Outcome)
    ensures o.Unauthorized? <==> !ctx.tokenValid
    ensures o == Reached(AddFavoriteController) || o.Unauthorized? || (o.Invalid? && o.errors != [])
  {
    ReachedIff(AddFavoriteRoute, true, |AddFavoriteChains|, AddFavoriteController, b, ctx);
    Run(AddFavoriteRoute, b, ctx, [])
  }

  function RemoveFavorite(b: Body, ctx: Context): (o: Outcome)
    ensures o == (if ctx.tokenValid then Reached(RemoveFavoriteController) else Unauthorized)
  {
    GuardedOnlyOutcome(RemoveFavoriteRoute, RemoveFavoriteController, b, ctx);
    Run(RemoveFavoriteRoute, b, ctx, [])
  }
}
