# Request validation for the account and favorites routes of proyecto-cine

This project models the user router of the proyecto-cine server
(`server/src/routes/user.route.js`) in Dafny and proves what it lets through.
Each route is an ordered list of stages:

- the token middleware (`tokenMiddleware.auth`), on the routes that need a signed-in user;
- express-validator field chains (`body(field).exists().isLength(...).custom(...)`);
- the validation handler (`requestHandler.validate`);
- the controller.

The stages run left to right, and the first stage that answers the request stops it.

The model has four modules:

- `Pipeline` (pipeline.dfy) holds the building blocks:
  - the validators the routes use (`Rule`), each paired with its message (`Check`);
  - the stages (`Stage`) and the outcomes (`Outcome`): the controller is reached, the
    validation handler answers with a list of `(field, message)` errors, or the token
    middleware answers;
  - `Run`, which executes a stage list with early exit, and the lemmas that describe
    `Run` on the route shape the router uses.
- `PipelineProps` (pipeline_props.dfy) proves facts that hold for every route of that shape:
  - when the route reaches its controller;
  - that every failed check has its message among the errors, and that every reported
    error comes from a failed check;
  - that two requests on which every check agrees get the same outcome.
- `UserRoutes` (user_routes.dfy) has the seven routes as stage lists, with the field
  names, messages and minimum lengths of the source. Each route with field chains
  (`/signup`, `/signin`, `/update-password`, `POST /favorites`) has a reference predicate
  that states the route's contract directly. The three routes guarded only by the token
  (`/info`, `GET /favorites`, `DELETE /favorites/:favoriteId`) state their contract in
  their own `ensures`: they reach the controller exactly when the token check passes.
- `UserRoutesProps` (user_routes_props.dfy) proves, for each route with field chains,
  that the stage list meets its reference predicate in both directions, and that the
  specific messages are reported.

Inputs that the source gets from code outside this file become values:

- A request body is a `map<string, string>`. A field that is not a key is absent
  (`undefined` in the source).
- `Context.registered` is the set of usernames the user store already holds. It stands
  in for the `userModel.findOne` lookup.
- `Context.tokenValid` says whether the token middleware accepts the request.

How express-validator behaves, as modelled:

- (A) Every check of a chain runs. There is no `.bail()` in the source, so one field can
  report several messages.
- (B) For `isLength`, an absent value reads as the empty string.
- (C) `exists()` fails only on an absent field, so the empty string passes it.
- (D) A `custom` equality compares the two fields' values strictly. When both fields are
  absent, `undefined !== undefined` is false, so the custom check does not throw and passes.
- (E) `["movie", "tv"].includes(v)` fails on an absent `v`.
- (F) The username lookup finds nobody for an absent username.

Which of these choices each route lemma rests on:

- `SignupReachedIff`, `SignupChecksHold`: none. An absent field fails `exists()` whatever the other choices are.
- `SignupUsernameTaken`: (A), when the taken username is also shorter than 8 characters.
- `SignupPasswordsDiffer`: (A), when confirmPassword is absent or shorter than 8 characters.
- `SignupTooShort`: none for a present short value; (A) and (B) for an absent one.
- `SigninReachedIff`, `SigninChecksHold`, `SigninIgnoresContext`: none.
- `UpdatePasswordReachedIff`, `UpdatePasswordChecksHold`: none.
- `UpdatePasswordPasswordsDiffer`: (A), when confirmNewPassword is absent or shorter than 8 characters.
- `AddFavoriteReachedIff`, `AddFavoriteChecksHold`: (C), because a present empty mediaTitle, mediaPoster or mediaRate is accepted.
- `AddFavoriteBadMediaType`: none for a present value; (A) and (E) for an absent one.
- `AddFavoriteEmptyMediaId`: (A) or (C). Either one lets the `isLength` check run on a present empty mediaId.
- `AddFavoriteAnyDetail`: (C), for the empty string.
- The lemmas of `Pipeline` and `PipelineProps` hold for whatever `Holds` decides, so they rest on none of (B)-(F).
- `PipelineProps.FailedCheckReported`, and the half of `Pipeline.ChecksErrorsSpec` that says a failed check is reported, rest on (A): a check after a failed one in the same chain still runs. `PipelineProps.ReportedErrorsFailed`, `PipelineProps.ReachedIff`, `PipelineProps.BodiesErrorsEmpty`, `PipelineProps.BodiesErrorsAgree` and `PipelineProps.ChecksErrorsAgree` do not rest on (A).

What the code does at the points where a reader might expect otherwise:

- The token check runs **before** the field chains on `PUT /update-password` and
  `POST /favorites` (user.route.js:51 and :83). A request with a bad token therefore
  gets `Unauthorized` whatever its body holds.
- A taken username is reported as an ordinary validation message on the `username`
  field (user.route.js:16-19). It is not a separate outcome.
- The media types are `"movie"` and `"tv"` (user.route.js:86).

## Model

| member | source | states |
|---|---|---|
| `Pipeline.Holds` | proyecto-cine/server/src/routes/user.route.js:14-86 | decides each validator (`exists`, `isLength`, the username lookup, the equality `custom`, the media-type `custom`): a positive minimum length or a list membership can only be met by a present value; the equality passes exactly when both fields are absent or both hold the same string; a present username passes exactly when it is not registered |
| `Pipeline.BodiesErrors` | proyecto-cine/server/src/routes/user.route.js:13-33 | collects, in stage order, the errors all field chains record for `requestHandler.validate` to read; every collected error names the field of one of the chains |
| `Pipeline.Run` | proyecto-cine/server/src/routes/user.route.js:11-104 | runs a route's stages in order and stops at the first that answers; it answers `Unauthorized` only when the token check fails, and `Invalid` only with a non-empty error list that keeps the errors already recorded |
| `Pipeline.RunAnswersFrom` | proyecto-cine/server/src/routes/user.route.js:11-104 | says which stage answered: a run reaches only a controller registered on the route, answers `Unauthorized` only from a token stage and `Invalid` only from a validation stage, and falls through only when the route registers no controller |
| `Pipeline.ChecksErrors` | proyecto-cine/server/src/routes/user.route.js:13-15 | one field chain records at most one error per check, all on its own field |
| `Pipeline.ChecksErrorsSpec` | proyecto-cine/server/src/routes/user.route.js:13-19 | a chain reports `(field, m)` exactly when some check with message `m` fails, and reports nothing else |
| `Pipeline.ChecksErrorsEmpty` | proyecto-cine/server/src/routes/user.route.js:13-19 | a chain reports no error exactly when all of its checks hold |
| `Pipeline.BodiesErrorsSpec` | proyecto-cine/server/src/routes/user.route.js:13-32 | the errors recorded by a run of chains are exactly the union of the errors each chain records |
| `Pipeline.RunAfterBodies` | proyecto-cine/server/src/routes/user.route.js:13-33 | running the field chains only appends their errors to those pending, then continues with the rest of the route |
| `Pipeline.ValidatedRouteOutcome` | proyecto-cine/server/src/routes/user.route.js:49-67 | on a route of the shape [token check], chains, validate, controller: a failed token check answers first; otherwise the controller is reached when no error was recorded, and all recorded errors are answered when some were |
| `Pipeline.GuardedOnlyOutcome` | proyecto-cine/server/src/routes/user.route.js:69-73 | a route made of the token check and a controller reaches the controller exactly when the token check passes, whatever the body |
| `PipelineProps.BodiesErrorsEmpty` | proyecto-cine/server/src/routes/user.route.js:13-33 | the chains record no error exactly when every check of every chain holds |
| `PipelineProps.ReachedIff` | proyecto-cine/server/src/routes/user.route.js:49-67 | a route reaches its controller exactly when its token check passes (if it has one) and every check holds; otherwise it answers `Unauthorized` exactly when it is guarded and the token is bad, and with a non-empty error list in all other cases |
| `PipelineProps.FailedCheckReported` | proyecto-cine/server/src/routes/user.route.js:13-33 | once the token check (if any) has passed, a failed check's message for its field is among the errors the route answers with |
| `PipelineProps.ReportedErrorsFailed` | proyecto-cine/server/src/routes/user.route.js:13-33 | every error a route answers with is the message of a check that failed on that field |
| `PipelineProps.BodiesErrorsAgree` | proyecto-cine/server/src/routes/user.route.js:37-47 | two requests on which every check of every chain gives the same verdict record the same errors |
| `PipelineProps.ChecksErrorsAgree` | proyecto-cine/server/src/routes/user.route.js:39-44 | the same, for one field chain |
| `UserRoutes.Signup` | proyecto-cine/server/src/routes/user.route.js:11-35 | signup has no token check: it either reaches `userController.signup` or answers with a non-empty error list |
| `UserRoutes.Signin` | proyecto-cine/server/src/routes/user.route.js:37-47 | signin has no token check: it either reaches `userController.signin` or answers with a non-empty error list |
| `UserRoutes.UpdatePassword` | proyecto-cine/server/src/routes/user.route.js:49-67 | update-password answers `Unauthorized` exactly when the token check fails, whatever the body; otherwise it reaches `userController.updatePassword` or answers with errors |
| `UserRoutes.Info` | proyecto-cine/server/src/routes/user.route.js:69-73 | `/info` reaches `userController.getInfo` exactly when the token check passes, and answers `Unauthorized` otherwise |
| `UserRoutes.ListFavorites` | proyecto-cine/server/src/routes/user.route.js:75-79 | `GET /favorites` reaches `favoriteController.getFavoritesOfUser` exactly when the token check passes, and answers `Unauthorized` otherwise |
| `UserRoutes.AddFavorite` | proyecto-cine/server/src/routes/user.route.js:81-98 | `POST /favorites` answers `Unauthorized` exactly when the token check fails, whatever the body; otherwise it reaches `favoriteController.addFavorite` or answers with errors |
| `UserRoutes.RemoveFavorite` | proyecto-cine/server/src/routes/user.route.js:100-104 | `DELETE /favorites/:favoriteId` reaches `favoriteController.removeFavorite` exactly when the token check passes, and answers `Unauthorized` otherwise |
| `UserRoutesProps.SignupChecksHold` | proyecto-cine/server/src/routes/user.route.js:13-32 | every check of the signup chains holds exactly when the signup contract holds |
| `UserRoutesProps.SignupReachedIff` | proyecto-cine/server/src/routes/user.route.js:11-35 | signup reaches its controller exactly when username, password, confirmPassword and displayName are present and at least 8 characters long, confirmPassword equals password, and the username is not registered; otherwise it answers with errors |
| `UserRoutesProps.SignupUsernameTaken` | proyecto-cine/server/src/routes/user.route.js:16-19 | a registered username is answered with "nombre de usuario existente" on `username`, even when every other field is valid |
| `UserRoutesProps.SignupPasswordsDiffer` | proyecto-cine/server/src/routes/user.route.js:23-29 | a confirmPassword that differs from password is answered with "las contraseñas no coinciden" on `confirmPassword` |
| `UserRoutesProps.SignupTooShort` | proyecto-cine/server/src/routes/user.route.js:13-32 | a signup field that is absent or shorter than 8 characters is answered with that field's length message |
| `UserRoutesProps.SigninChecksHold` | proyecto-cine/server/src/routes/user.route.js:39-44 | every check of the signin chains holds exactly when username and password are present and at least 8 characters long |
| `UserRoutesProps.SigninReachedIff` | proyecto-cine/server/src/routes/user.route.js:37-47 | signin reaches its controller exactly when username and password are present and at least 8 characters long |
| `UserRoutesProps.SigninIgnoresContext` | proyecto-cine/server/src/routes/user.route.js:37-47 | the signin outcome does not depend on the registered usernames or on the token |
| `UserRoutesProps.UpdatePasswordChecksHold` | proyecto-cine/server/src/routes/user.route.js:52-64 | every check of the update-password chains holds exactly when the update-password contract holds |
| `UserRoutesProps.UpdatePasswordReachedIff` | proyecto-cine/server/src/routes/user.route.js:49-67 | update-password reaches its controller exactly when the token check passes, password, newPassword and confirmNewPassword are present and at least 8 characters long, and confirmNewPassword equals newPassword |
| `UserRoutesProps.UpdatePasswordPasswordsDiffer` | proyecto-cine/server/src/routes/user.route.js:58-64 | once the token check passes, a confirmNewPassword that differs from newPassword is answered with "las contraseñas no coinciden" on `confirmNewPassword` |
| `UserRoutesProps.AddFavoriteChecksHold` | proyecto-cine/server/src/routes/user.route.js:84-95 | every check of the add-favorite chains holds exactly when the add-favorite contract holds |
| `UserRoutesProps.AddFavoriteReachedIff` | proyecto-cine/server/src/routes/user.route.js:81-98 | adding a favorite reaches its controller exactly when the token check passes, mediaType is "movie" or "tv", mediaId is present and non-empty, and mediaTitle, mediaPoster and mediaRate are present |
| `UserRoutesProps.AddFavoriteBadMediaType` | proyecto-cine/server/src/routes/user.route.js:84-86 | once the token check passes, a mediaType that is not exactly "movie" or "tv" (absent included) is answered with "mediaType invalid" |
| `UserRoutesProps.AddFavoriteEmptyMediaId` | proyecto-cine/server/src/routes/user.route.js:87-89 | once the token check passes, an empty mediaId is answered with "mediaId can not be empty" |
| `UserRoutesProps.AddFavoriteAnyDetail` | proyecto-cine/server/src/routes/user.route.js:90-95 | once mediaTitle, mediaPoster or mediaRate is present, any other value for it (the empty string included) gives the same outcome |

## Left out

- Router wiring (`express.Router`, `router.post/put/get/delete`, the paths): only the order of stages in each registration is kept.
- `tokenMiddleware.auth` is not part of this model. It is the boolean `Context.tokenValid`. Token format, signing and expiry are not modelled.
- `requestHandler.validate` is not part of this model. It is modelled as "continue when no error was recorded, otherwise answer with all recorded errors". Its response format and status code are not modelled.
- The controllers (`userController`, `favoriteController`) are not part of this model. Reaching one is the end of a run. Password hashing, sign-in credential checks, profile lookup and favorite ownership happen there.
- `userModel.findOne` is modelled as membership in `Context.registered`. For an absent username the lookup is modelled as finding nobody. The source's query with an undefined username is not visible. Such a request already fails `exists()` either way.
- The check-then-insert race between two concurrent signups with the same name is not modelled. The lookup is asynchronous and the insert happens in a controller this model does not have.
- Non-string JSON values in the body (numbers, `null`, objects) are not modelled. Values are strings, and length is `|s|` over Dafny characters. Express-validator's own coercion and Unicode length counting are not modelled.
- Error order: every route lemma states membership in the error list, not the full list or its order. Only `Run` fixes an order: chain order, then check order within a chain.
- The client files (`SigninForm.jsx`, `HomePage.jsx`) are user-interface code. They are not part of this model.
