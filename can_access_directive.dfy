/**
 * The `@canAccess(requiredRole: String!)` field directive.
 *
 * `HandleField` replaces a field's resolver by a guard that, each time the
 * field is resolved, reads the directive's `requiredRole` argument, throws a
 * definition error when it is null, answers null to callers that are not
 * logged in or lack the role, and otherwise hands the four resolver
 * arguments to the resolver it replaced.
 */
module CanAccessDirective {
  import opened Wrappers

  /** The resolver arguments the guard never inspects, only passes on. */
  type Root(!new)
  type Args(!new)
  type Info(!new)

  /** A non-null value a resolver may return. */
  type Data

  /** An authenticated user; `id` only gives the user an identity, and `hasRole` is membership in `roles`. */
  datatype User = User(id: nat, roles: set<string>)

  /** The part of the request context the guard reads: `user()`, null when unauthenticated. */
  datatype Context = Context(user: Option<User>)

  datatype Exception =
    | DefinitionException(message: string)
    | ResolverException(reason: string)

  /** What resolving a field gives: a value (None is PHP null) or a thrown exception. */
  datatype Outcome = Returned(value: Option<Data>) | Threw(exception: Exception)

  type Resolver = (Root, Args, Context, Info) -> Outcome

  /** One invocation of a resolver, with the four arguments it received. */
  datatype Request = Request(root: Root, args: Args, context: Context, info: Info)

  const MissingRoleMessage: string := "Missing argument 'requiredRole' for directive '@canAccess'."

  /** The guard's three-way decision. */
  datatype Decision = RejectDefinition | Deny | Delegate

  predicate HasRole(user: User, role: string)
  {
    role in user.roles
  }

  /** The caller is logged in and holds `role`. */
  ghost predicate Authorized(role: string, user: Option<User>)
  {
    exists u :: user == Some(u) && HasRole(u, role)
  }

  /**
   * The guard's decision: a null role argument is checked before anything
   * about the user, and only a logged-in user holding the role gets through.
   */
  function Decide(requiredRole: Option<string>, user: Option<User>): (d: Decision)
    ensures d == RejectDefinition <==> requiredRole == None
    ensures d == Delegate <==> exists role :: requiredRole == Some(role) && Authorized(role, user)
    ensures d == Deny <==> exists role :: requiredRole == Some(role) && !Authorized(role, user)
  {
    match requiredRole
    case None => RejectDefinition
    case Some(role) =>
      if user.None? || !HasRole(user.value, role) then Deny else Delegate
  }

  /** An outcome of one resolution together with the calls it made to the original resolver. */
  datatype Trace = Trace(outcome: Outcome, calls: seq<Request>)

  /**
   * One resolution of the guarded field: the guard closure applied to the
   * four arguments, recording every call it makes to `original`.
   */
  function Run(requiredRole: Option<string>, original: Resolver,
               root: Root, args: Args, context: Context, info: Info): (t: Trace)
    ensures |t.calls| <= 1
    ensures t.calls != [] <==>
              exists role :: requiredRole == Some(role) && Authorized(role, context.user)
    ensures t.calls != [] ==>
              t.calls == [Request(root, args, context, info)] &&
              t.outcome == original(root, args, context, info)
    ensures requiredRole == None ==> t.outcome == Threw(DefinitionException(MissingRoleMessage))
    ensures requiredRole != None && t.calls == [] ==> t.outcome == Returned(None)
  {
    match Decide(requiredRole, context.user)
    case RejectDefinition => Trace(Threw(DefinitionException(MissingRoleMessage)), [])
    case Deny => Trace(Returned(None), [])
    case Delegate =>
      Trace(original(root, args, context, info), [Request(root, args, context, info)])
  }

  /** The closure `HandleField` installs in place of `original`. */
  function Guard(requiredRole: Option<string>, original: Resolver): (r: Resolver)
    ensures forall root, args, context, info ::
              r(root, args, context, info) ==
                if requiredRole == None then Threw(DefinitionException(MissingRoleMessage))
                else if Authorized(requiredRole.value, context.user) then original(root, args, context, info)
                else Returned(None)
  {
    (root, args, context, info) => Run(requiredRole, original, root, args, context, info).outcome
  }

  /** A field under construction: its resolver, and the definition it was built from. */
  class FieldValue {
    const fieldName: string
    var resolver: Resolver

    constructor (fieldName: string, resolver: Resolver)
      ensures this.fieldName == fieldName && this.resolver == resolver
    {
      this.fieldName := fieldName;
      this.resolver := resolver;
    }
  }

  /** A `@canAccess` occurrence; `requiredRole` is its argument as the schema gives it. */
  datatype Directive = CanAccess(requiredRole: Option<string>)

  /**
   * Wraps the field's current resolver in the guard and returns the same
   * field value, to be handed to the next middleware. A missing role is not
   * reported here: the guard reports it when the field is resolved.
   */
  method HandleField(directive: Directive, fieldValue: FieldValue) returns (handed: FieldValue)
    modifies fieldValue`resolver
    ensures handed == fieldValue
    ensures fieldValue.resolver == Guard(directive.requiredRole, old(fieldValue.resolver))
  {
    var originalResolver := fieldValue.resolver;
    fieldValue.resolver := Guard(directive.requiredRole, originalResolver);
    handed := fieldValue;
  }

  /**
   * A field built with resolver `original`, passed through `HandleField`,
   * then resolved once by the engine.
   */
  method ResolveDirectedField(directive: Directive, original: Resolver,
                              root: Root, args: Args, context: Context, info: Info)
    returns (outcome: Outcome)
    ensures directive.requiredRole == None ==>
              outcome == Threw(DefinitionException(MissingRoleMessage))
    ensures directive.requiredRole != None && !Authorized(directive.requiredRole.value, context.user) ==>
              outcome == Returned(None)
    ensures directive.requiredRole != None && Authorized(directive.requiredRole.value, context.user) ==>
              outcome == original(root, args, context, info)
  {
    var field := new FieldValue("field", original);
    var handed := HandleField(directive, field);
    outcome := handed.resolver(root, args, context, info);
  }
  /** A null role argument is reported whoever calls, and the original resolver is not reached. */
  lemma MissingRoleIgnoresCaller(original: Resolver, root: Root, args: Args, info: Info,
                                 c1: Context, c2: Context)
    ensures Run(None, original, root, args, c1, info) == Run(None, original, root, args, c2, info)
    ensures Run(None, original, root, args, c1, info).calls == []
  {
  }

  /** "Not logged in" and "logged in without the role" give the same trace: null, no call. */
  lemma DenialReasonsIndistinguishable(role: string, original: Resolver,
                                       root: Root, args: Args, info: Info, user: User)
    requires !HasRole(user, role)
    ensures Run(Some(role), original, root, args, Context(None), info)
         == Run(Some(role), original, root, args, Context(Some(user)), info)
         == Trace(Returned(None), [])
  {
  }

  /** Only null counts as missing: the empty role name goes on to the role check for every user. */
  lemma EmptyRoleIsChecked(original: Resolver, root: Root, args: Args, info: Info, u: User)
    ensures "" in u.roles ==>
              Run(Some(""), original, root, args, Context(Some(u)), info)
                == Trace(original(root, args, Context(Some(u)), info), [Request(root, args, Context(Some(u)), info)])
    ensures "" !in u.roles ==>
              Run(Some(""), original, root, args, Context(Some(u)), info) == Trace(Returned(None), [])
  {
  }
}
