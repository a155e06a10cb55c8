/**
 * A guarded field resolved many times, once per request, as the engine does
 * for every query (or list item) that selects it. Apart from the resolver
 * it replaced, the guard closure reads only the directive's role argument,
 * which `Directive` holds as an immutable value; it keeps no state, so it
 * is modelled as a function and every resolution is an independent
 * application of `Run`; the lemmas lift `Run`'s one-call facts to whole
 * sequences of resolutions.
 */
module Serving {
  import opened Wrappers
  import opened CanAccessDirective

  /** The calls the original resolver receives while each request is resolved in turn. */
  ghost function Calls(requiredRole: Option<string>, original: Resolver, requests: seq<Request>): seq<Request>
  {
    if requests == [] then []
    else
      var q := requests[0];
      Run(requiredRole, original, q.root, q.args, q.context, q.info).calls
        + Calls(requiredRole, original, requests[1..])
  }

  /** The requests whose caller is logged in and holds `role`, in order. */
  ghost function Granted(role: string, requests: seq<Request>): seq<Request>
  {
    if requests == [] then []
    else if Authorized(role, requests[0].context.user) then [requests[0]] + Granted(role, requests[1..])
    else Granted(role, requests[1..])
  }

  /** The same request resolved `n` times. */
  function Repeat(q: Request, n: nat): (rs: seq<Request>)
    ensures |rs| == n && forall i :: 0 <= i < n ==> rs[i] == q
  {
    if n == 0 then [] else [q] + Repeat(q, n - 1)
  }

  /** With a role argument, the original resolver receives exactly the granted requests, each once. */
  lemma {:induction false} CallsAreGrantedRequests(role: string, original: Resolver, requests: seq<Request>)
    ensures Calls(Some(role), original, requests) == Granted(role, requests)
  {
    if requests != [] {
      CallsAreGrantedRequests(role, original, requests[1..]);
    }
  }

  /** With a null role argument, no resolution ever reaches the original resolver. */
  lemma {:induction false} MissingRoleNeverCalls(original: Resolver, requests: seq<Request>)
    ensures Calls(None, original, requests) == []
  {
    if requests != [] {
      MissingRoleNeverCalls(original, requests[1..]);
    }
  }

  /** The granted requests are among the requests, and every one of them is authorized. */
  lemma {:induction false} GrantedAreAuthorized(role: string, requests: seq<Request>)
    // a corollary of GrantedSubMultiset, kept as the plain count
    ensures |Granted(role, requests)| <= |requests|
    ensures forall q :: q in Granted(role, requests) ==> q in requests && Authorized(role, q.context.user)
  {
    if requests != [] {
      GrantedAreAuthorized(role, requests[1..]);
    }
  }

  /** The granted requests take each resolved request at most as often as it occurs. */
  lemma {:induction false} GrantedSubMultiset(role: string, requests: seq<Request>)
    ensures multiset(Granted(role, requests)) <= multiset(requests)
  {
    if requests != [] {
      GrantedSubMultiset(role, requests[1..]);
      assert requests == [requests[0]] + requests[1..];
    }
  }

  /**
   * Every request that reaches the original resolver was resolved, at most
   * once per resolution, and came from a logged-in user holding the role.
   */
  lemma CallsComeFromAuthorizedRequests(role: string, original: Resolver, requests: seq<Request>)
    ensures multiset(Calls(Some(role), original, requests)) <= multiset(requests)
    ensures forall q :: q in Calls(Some(role), original, requests) ==>
              q in requests && Authorized(role, q.context.user)
  {
    CallsAreGrantedRequests(role, original, requests);
    GrantedAreAuthorized(role, requests);
    GrantedSubMultiset(role, requests);
  }

  /**
   * Resolving the same request `n` times calls the original resolver `n`
   * times when granted and never when not: nothing is remembered between
   * resolutions.
   */
  lemma {:induction false} NoMemoization(requiredRole: Option<string>, original: Resolver, q: Request, n: nat)
    ensures Calls(requiredRole, original, Repeat(q, n)) ==
              if Decide(requiredRole, q.context.user) == Delegate then Repeat(q, n) else []
  {
    if n != 0 {
      var rs := Repeat(q, n);
      assert rs[0] == q && rs[1..] == Repeat(q, n - 1);
      NoMemoization(requiredRole, original, q, n - 1);
    }
  }
}
