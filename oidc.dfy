/** The pure rules of the OIDC login (internal/auth/oidc.go): the configuration the provider
    needs, the admin role's default, the e-mail claim's fallback and the admin-role test.
    Discovery, the code exchange and token verification are not modelled. */
module Oidc {
  import opened Wrappers
  import opened Text

  const DefaultAdminRole: string := "InventoryAdmin"

  /** The settings read from the environment; an unset variable is "". */
  datatype Environment = Environment(tenantId: string, clientId: string, clientSecret: string, adminRole: string)

  datatype ProviderConfig = ProviderConfig(tenantId: string, clientId: string, clientSecret: string, adminRole: string)

  /** The claims of a verified ID token that the login uses. */
  datatype Claims = Claims(subject: string, email: string, name: string, roles: seq<string>)

  /** The checks NewOIDCProvider makes before contacting the issuer: tenant, client id and
      secret are required, and the admin role defaults to "InventoryAdmin". */
  function NewProviderConfig(env: Environment): (r: Result<ProviderConfig, string>)
    ensures r.Err? <==> env.tenantId == "" || env.clientId == "" || env.clientSecret == ""
    ensures r.Ok? ==> r.value.tenantId == env.tenantId && r.value.clientId == env.clientId && r.value.clientSecret == env.clientSecret
    ensures r.Ok? ==> r.value.adminRole == (if env.adminRole == "" then DefaultAdminRole else env.adminRole)
    ensures r.Ok? ==> r.value.adminRole != ""
  {
    if env.tenantId == "" || env.clientId == "" || env.clientSecret == "" then
      Err("AZURE_TENANT_ID, AZURE_CLIENT_ID, and AZURE_CLIENT_SECRET are required")
    else
      var role := if env.adminRole == "" then DefaultAdminRole else env.adminRole;
      Ok(ProviderConfig(env.tenantId, env.clientId, env.clientSecret, role))
  }

  /** The claims Exchange returns: the `email` claim, or `preferred_username` when the
      e-mail claim is empty. */
  function ExchangedClaims(subject: string, email: string, preferredUsername: string, name: string, roles: seq<string>): (c: Claims)
    ensures email != "" ==> c.email == email
    ensures email == "" ==> c.email == preferredUsername
    ensures c.subject == subject && c.name == name && c.roles == roles
  {
    Claims(subject, if email == "" then preferredUsername else email, name, roles)
  }

  /** Some role equals the admin role, ignoring (ASCII) case. */
  predicate HasRole(roles: seq<string>, adminRole: string) {
    exists i :: 0 <= i < |roles| && EqualFold(roles[i], adminRole)
  }

  /** Scans the roles in order and stops at the first that matches. */
  method IsAdmin(claims: Claims, adminRole: string) returns (b: bool)
    ensures b <==> HasRole(claims.roles, adminRole)
  {
    var i := 0;
    while i < |claims.roles|
      invariant 0 <= i <= |claims.roles|
      invariant forall j :: 0 <= j < i ==> !EqualFold(claims.roles[j], adminRole)
    {
      if EqualFold(claims.roles[i], adminRole) {
        return true;
      }
      i := i + 1;
    }
    return false;
  }

  /** No roles, no admin. */
  lemma NoRolesNoAdmin(adminRole: string)
    ensures !HasRole([], adminRole)
  {
  }

  /** The role test ignores letter case on both sides. */
  lemma HasRoleIgnoresCase(roles: seq<string>, adminRole: string)
    ensures HasRole(roles, adminRole) <==> HasRole(roles, Lower(adminRole))
  {
    LowerIdempotent(adminRole);
  }

  /** With the default role, a token whose roles include "inventoryadmin" is an admin's. */
  lemma DefaultRoleAnyCase(pre: seq<string>, post: seq<string>)
    ensures HasRole(pre + ["inventoryadmin"] + post, DefaultAdminRole)
  {
    var roles := pre + ["inventoryadmin"] + post;
    assert roles[|pre|] == "inventoryadmin";
    assert Lower("inventoryadmin") == Lower(DefaultAdminRole);
  }
}
