# `@canAccess`: a role gate on GraphQL fields

This project models the `@canAccess(requiredRole: String!)` field directive
of a Laravel/Lighthouse GraphQL application. Its `handleField` takes the
field's current resolver and installs a guard in its place. Each time the
field is resolved, the guard makes one of three decisions:

- the directive's `requiredRole` argument is null: it throws a
  `DefinitionException` with the message
  `Missing argument 'requiredRole' for directive '@canAccess'.`;
- there is no authenticated user, or the user does not have the role: it
  returns null;
- otherwise: it calls the replaced resolver with the same `root`, `args`,
  `context` and `resolveInfo` and returns its result unchanged.

Modules:

- `Wrappers` (`wrappers.dfy`): `Option`, for PHP's nullable values.
- `CanAccessDirective` (`can_access_directive.dfy`): the entities and the
  directive. `Decide` is the three-way decision. `Run` is one resolution
  through the guard. It returns the outcome and the list of calls made to the
  replaced resolver, so "called once, with the same arguments" can be
  stated. `Guard` is the closure as a resolver value. `FieldValue` is a class
  whose `resolver` field `HandleField` reassigns. `ResolveDirectedField`
  builds a field, passes it through `HandleField` and resolves it once.
- `Serving` (`serving.dfy`): the guarded field resolved once per request
  over a sequence of requests. The PHP closure captures the replaced
  resolver (`use ($originalResolver)`) and, implicitly, `$this`, whose
  `requiredRole` argument it reads at each call. The model takes that
  argument as a value of the immutable `Directive`, so reading it at
  install time or at each call gives the same result. The closure keeps no
  other state, so the guard is modelled as a function and each resolution
  is an independent application of `Run`. That the guard remembers nothing between resolutions therefore
  follows from this modelling choice; the lemmas lift `Run`'s one-call facts
  to whole sequences of resolutions.
- `StrictGate` (`strict_gate.dfy`): a stricter gate, for comparison, that
  rejects a null or empty role once, when the schema is built. Lemmas
  compare the guard with it.

Modelling choices:

- A resolver is a total function `(Root, Args, Context, Info) -> Outcome`.
  `Root`, `Args`, `Info` and the returned `Data` are opaque types, because
  the guard only passes them on. An `Outcome` is either a returned value
  (`None` is PHP null) or a thrown exception. So a downstream exception
  passes through the guard like any other result.
- `GraphQLContext::user()` is the `user` field of `Context`; PHP's `! $user`
  is `user == None`.
- `$user->hasRole($role)` is membership of the role name in the user's
  `roles` set (`HasRole`).
- The `requiredRole` argument is a field of the immutable `Directive`
  value. `HandleField` hands it to `Guard` when it installs the guard, where
  the PHP code reads it from `$this` each time the guard runs; the two agree
  because the directive does not change after `handleField`. Only `None` (PHP null) counts as missing; the
  empty string goes on to the role check.

The code differs from the stricter gate in two ways. The stricter gate
rejects a missing role when the schema is built, while the code rejects it
only when the field is resolved (`HandleField` never fails). The stricter
gate also rejects the empty role name, while the code only checks for null.
The model follows the code. `StrictGate.AgreesOnceConfigured` shows that the
two agree on every role the stricter gate accepts.
`StrictGate.EmptyRoleDiverges` shows the empty-role case in which they
differ.

## Model

| member | source | states |
|---|---|---|
| CanAccessDirective.Decide | app/GraphQL/Directives/CanAccessDirective.php:42-56 | rejects the definition exactly when the role argument is null; delegates exactly when a role is given and a logged-in user holds it; denies exactly when a role is given and the caller is not logged in or lacks it |
| CanAccessDirective.Run | app/GraphQL/Directives/CanAccessDirective.php:36-59 | at most one call to the replaced resolver; it is called iff the role is non-null and a logged-in user holds it, and then with exactly the four given arguments, and its result is returned unchanged; a null role throws the `DefinitionException` with the message the PHP code throws (line 45); otherwise the result is null |
| CanAccessDirective.Guard | app/GraphQL/Directives/CanAccessDirective.php:36-59 | the installed resolver, for every four arguments, throws the definition error for a null role, returns the replaced resolver's result for an authorized caller, and null for any other caller |
| CanAccessDirective.HandleField | app/GraphQL/Directives/CanAccessDirective.php:31-35 | changes only the field's resolver, replacing it by the guard around the resolver it had before; returns the same field value for the next middleware; never fails, also for a null role |
| CanAccessDirective.ResolveDirectedField | app/GraphQL/Directives/CanAccessDirective.php:33-58 | a field passed through `HandleField` and then resolved gives the definition error for a null role, null for an unauthorized caller, and the original resolver's result otherwise |
| CanAccessDirective.MissingRoleIgnoresCaller | app/GraphQL/Directives/CanAccessDirective.php:42-48 | with a null role the result is the same for every context, authenticated or not, and the replaced resolver is not called, because the null check comes before the user check |
| CanAccessDirective.DenialReasonsIndistinguishable | app/GraphQL/Directives/CanAccessDirective.php:48-55 | for a given role, "not logged in" and "logged in without the role" give the same result, null, and neither calls the replaced resolver |
| CanAccessDirective.EmptyRoleIsChecked | app/GraphQL/Directives/CanAccessDirective.php:44-55 | for every user, the empty role name is not treated as missing: a user holding "" gets one call of the replaced resolver with the same four arguments and its result unchanged; a user without it gets null and no call; neither raises the definition error |
| Serving.CallsAreGrantedRequests | app/GraphQL/Directives/CanAccessDirective.php:48-58 | over any sequence of resolutions with a role given, the replaced resolver receives exactly the authorized requests, each once, in order, with their own arguments |
| Serving.MissingRoleNeverCalls | app/GraphQL/Directives/CanAccessDirective.php:42-46 | over any sequence of resolutions with a null role, the replaced resolver is never called |
| Serving.CallsComeFromAuthorizedRequests | app/GraphQL/Directives/CanAccessDirective.php:49-58 | over any sequence of resolutions with a role given, the replaced resolver receives each request at most as many times as it was resolved (the calls form a sub-multiset of the requests), and every request it receives was among the resolved requests and came from a logged-in user holding the role |
| Serving.NoMemoization | app/GraphQL/Directives/CanAccessDirective.php:36-59 | resolving the same request n times calls the replaced resolver n times when the decision is to delegate and never otherwise; the guard remembers nothing between resolutions |
| StrictGate.AgreesOnceConfigured | app/GraphQL/Directives/CanAccessDirective.php:48-58 | for every non-null, non-empty role, the guard's result equals the stricter gate's evaluation: null unless the caller holds the role, else the resolution's result |
| StrictGate.MissingRoleRefusedByBoth | app/GraphQL/Directives/CanAccessDirective.php:42-46 | a null role is refused by the stricter gate's configuration step and makes the guard throw |
| StrictGate.EmptyRoleDiverges | app/GraphQL/Directives/CanAccessDirective.php:44 | the stricter gate refuses the empty role, yet the guard with role "" passes a user holding "" through to the replaced resolver |

## Left out

- `definition()` (lines 16-29): it returns a constant SDL string. Parsing it, and checking that `requiredRole` is a `String!`, is the framework's job.
- `$next` and the rest of Lighthouse's field-middleware pipeline; `HandleField` returns the field value it would hand on.
- `$this` in the closure: the directive instance is assumed unchanged after `handleField`, so the role argument is read once, when the guard is installed, rather than at each call.
- `directiveArgValue`: the role argument is an input of the model, a field of `Directive`.
- `GraphQLContext` beyond `user()`, and the body of `hasRole`, which belongs to a foreign role library and is modelled as set membership.
- `FieldValue` beyond its resolver: the rest of what it carries is reduced to a constant `fieldName`, which `HandleField` cannot change.
- Asynchronous or deferred resolver results: a resolver's result is a value or an exception, and the guard passes either on unchanged.
- tests/Integration/GraphQL/Mutations/Logout.php: it tests token revocation and events done by external packages, over HTTP and a database; it holds no logic of this repository.
