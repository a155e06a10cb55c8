/**
 * A stricter gate, for comparison: it validates the role once, when the
 * schema is built, and rejects a null or empty role there; each evaluation
 * then only decides whether to run the resolution. The lemmas compare the
 * directive's guard with it.
 */
module StrictGate {
  import opened Wrappers
  import opened CanAccessDirective

  /** The validated role, or None for a configuration error. */
  function Configure(requiredRole: Option<string>): Option<string>
  {
    if requiredRole == None || requiredRole == Some("") then None else requiredRole
  }

  /** One gated evaluation: absent (null) unless the caller holds the role, else `resolve()` unchanged. */
  function Evaluate(caller: Option<User>, requiredRole: string, resolve: () -> Outcome): Outcome
  {
    if caller.Some? && requiredRole in caller.value.roles then resolve() else Returned(None)
  }

  /** For every role the stricter gate accepts, the guard gives what its evaluation gives. */
  lemma AgreesOnceConfigured(requiredRole: Option<string>, original: Resolver,
                             root: Root, args: Args, context: Context, info: Info)
    requires Configure(requiredRole) != None
    ensures Run(requiredRole, original, root, args, context, info).outcome ==
              Evaluate(context.user, Configure(requiredRole).value, () => original(root, args, context, info))
  {
  }

  /** A null role is refused by both, but by the guard only when the field is resolved. */
  lemma MissingRoleRefusedByBoth(original: Resolver, root: Root, args: Args, context: Context, info: Info)
    ensures Configure(None) == None
    ensures Run(None, original, root, args, context, info).outcome.Threw?
  {
  }

  /** The empty role: the stricter gate refuses it, the guard lets a user holding "" through. */
  lemma EmptyRoleDiverges(original: Resolver, root: Root, args: Args, info: Info)
    ensures Configure(Some("")) == None
    ensures Run(Some(""), original, root, args, Context(Some(User(1, {""}))), info).outcome
         == original(root, args, Context(Some(User(1, {""}))), info)
  {
  }
}
