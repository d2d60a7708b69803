// Access to the admin pages (src/config/admin.ts and
// src/components/Admin/ProtectedAdminRoute.tsx): the secret comes from the
// environment with a fixed fallback, and the admin routes open only for a
// URL carrying exactly that secret. The environment value is a parameter.

module Admin {
  import opened Types

  const DefaultSecret: string := "change-this-to-a-unique-secret-key"

  /** ADMIN_SECRET: `VITE_ADMIN_SECRET || default`, with `env` None when the
      variable is not set. */
  function AdminSecret(env: Option<string>): (secret: string)
    ensures secret != ""
    ensures env.Some? && env.value != "" ==> secret == env.value
    ensures env.None? || env.value == "" ==> secret == DefaultSecret
  {
    if env.Some? && env.value != "" then env.value else DefaultSecret
  }

  /** isValidAdminSecret */
  predicate IsValidAdminSecret(env: Option<string>, secret: string)
  {
    secret == AdminSecret(env)
  }

  /** Exactly one secret is valid, and it is never the empty text: an
      unset or empty variable leaves the fixed default as the only key. */
  lemma OneValidSecret(env: Option<string>, s: string, t: string)
    ensures !IsValidAdminSecret(env, "")
    ensures IsValidAdminSecret(env, s) && IsValidAdminSecret(env, t) ==> s == t
    ensures env.None? || env.value == "" ==> (IsValidAdminSecret(env, s) <==> s == DefaultSecret)
  {
  }

  /** What ProtectedAdminRoute renders: the admin content, or a redirect. */
  datatype Gate = Admit | Redirect(to: string)

  /** ProtectedAdminRoute: `secret` is the route parameter, None when the
      URL has none. */
  function RouteGate(env: Option<string>, secret: Option<string>): (g: Gate)
  {
    if secret.None? || secret.value == "" || !IsValidAdminSecret(env, secret.value) then Redirect("/")
    else Admit
  }

  /** The admin content is shown exactly for a URL holding the valid secret;
      every other visit goes to the home page. */
  lemma GateAdmitsOnlyTheSecret(env: Option<string>, secret: Option<string>)
    ensures RouteGate(env, secret).Admit? <==> secret == Some(AdminSecret(env))
    ensures RouteGate(env, secret).Redirect? ==> RouteGate(env, secret).to == "/"
  {
  }
}
