/** Tenant scopes: when an identity's tenant covers a thread's. */
module Tenant {

  type Scope = map<string, string>

  /** jsonb containment on flat objects: `outer @> inner`. */
  predicate Contains(outer: Scope, inner: Scope) {
    forall k | k in inner :: k in outer && outer[k] == inner[k]
  }

  /** `matches`: walk the thread's tenant, stop at the first key that differs. The
      store's containment filter and this walk accept the same threads. */
  method Matches(threadTenant: Scope, identityTenant: Scope) returns (r: bool)
    ensures r <==> forall k | k in threadTenant :: k in identityTenant && identityTenant[k] == threadTenant[k]
    ensures r <==> Contains(identityTenant, threadTenant)
  {
    var rest := threadTenant.Keys;
    while rest != {}
      invariant rest <= threadTenant.Keys
      invariant forall k | k in threadTenant && k !in rest ::
        k in identityTenant && identityTenant[k] == threadTenant[k]
      decreases rest
    {
      var k :| k in rest;
      if k !in identityTenant || identityTenant[k] != threadTenant[k] {
        return false;
      }
      rest := rest - {k};
    }
    return true;
  }
}
