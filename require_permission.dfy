/** RequirePermissionAttribute: the authorization filter on the wallet and key endpoints. A
    caller signed in with a JWT may do anything; a caller authenticated with an API key must
    hold the required permission; everyone else is answered 403. */
module RequirePermission {
  import opened Common
  import opened Text

  /** IApiKeyContext as read from the request's claims. */
  datatype ApiKeyContext = ApiKeyContext(apiKeyId: Option<Guid>, isAuthenticated: bool, permissions: seq<string>)

  /** ICurrentUserService as read from the request's claims. */
  datatype CurrentUserService = CurrentUserService(isAuthenticated: bool)

  /** The 403 result a denial sets. */
  datatype ObjectResult = ObjectResult(statusCode: int, message: string)

  /** ApiKeyContext.HasPermission: ignore-case membership in the key's permission claims. */
  predicate HasPermission(c: ApiKeyContext, permission: string) {
    ContainsIgnoreCase(c.permissions, permission)
  }

  function ForbiddenMessage(permission: string): string {
    "Permission '" + permission + "' is required for this operation"
  }

  /** The decision of OnAuthorization: no result lets the request through. Either service may be
      missing from the container, which the null-conditional reads treat as not authenticated
      and as no key id. */
  function Decide(apiKeyContext: Option<ApiKeyContext>, currentUserService: Option<CurrentUserService>,
                  permission: string): (r: Option<ObjectResult>)
    ensures r.Some? ==> r.value == ObjectResult(403, ForbiddenMessage(permission))
    ensures r.None? ==> || (currentUserService.Some? && currentUserService.value.isAuthenticated)
                        || (apiKeyContext.Some? && apiKeyContext.value.isAuthenticated)
  {
    if && currentUserService.Some? && currentUserService.value.isAuthenticated
       && (apiKeyContext.None? || apiKeyContext.value.apiKeyId.None?) then None
    else if apiKeyContext.Some? && apiKeyContext.value.isAuthenticated && HasPermission(apiKeyContext.value, permission) then None
    else Some(ObjectResult(403, ForbiddenMessage(permission)))
  }

  /** A request is let through exactly when it comes from a signed-in user without an API key,
      or from an authenticated API key that holds the permission, up to case; a refusal is
      always a 403 naming the permission. */
  lemma DecideMeaning(apiKeyContext: Option<ApiKeyContext>, currentUserService: Option<CurrentUserService>, permission: string)
    ensures Decide(apiKeyContext, currentUserService, permission).None? <==>
              || (&& currentUserService.Some? && currentUserService.value.isAuthenticated
                  && (apiKeyContext.None? || apiKeyContext.value.apiKeyId.None?))
              || (&& apiKeyContext.Some? && apiKeyContext.value.isAuthenticated
                  && exists i :: 0 <= i < |apiKeyContext.value.permissions|
                               && EqualsIgnoreCase(apiKeyContext.value.permissions[i], permission))
    ensures Decide(apiKeyContext, currentUserService, permission).Some? ==>
              Decide(apiKeyContext, currentUserService, permission).value == ObjectResult(403, ForbiddenMessage(permission))
  {
  }

  /** A JWT caller without a key id is let through whatever the permission. */
  lemma SignedInUserHasFullAccess(apiKeyContext: Option<ApiKeyContext>, permission: string, other: string)
    requires apiKeyContext.None? || apiKeyContext.value.apiKeyId.None?
    ensures Decide(apiKeyContext, Some(CurrentUserService(true)), permission).None?
    ensures Decide(apiKeyContext, Some(CurrentUserService(true)), other).None?
  {
  }

  /** A request carrying a key id is judged by the key alone, even if the user claims are
      authenticated too. */
  lemma KeyCallerNeedsThePermission(c: ApiKeyContext, currentUserService: Option<CurrentUserService>, permission: string)
    requires c.apiKeyId.Some?
    ensures Decide(Some(c), currentUserService, permission).None? <==> c.isAuthenticated && HasPermission(c, permission)
  {
  }

  /** An unauthenticated request is refused. */
  lemma AnonymousIsForbidden(apiKeyContext: Option<ApiKeyContext>, currentUserService: Option<CurrentUserService>, permission: string)
    requires currentUserService.None? || !currentUserService.value.isAuthenticated
    requires apiKeyContext.None? || !apiKeyContext.value.isAuthenticated
    ensures Decide(apiKeyContext, currentUserService, permission) == Some(ObjectResult(403, ForbiddenMessage(permission)))
  {
  }

  /** The filter context; `result` is the short-circuit result of the request. */
  class AuthorizationFilterContext {
    var result: Option<ObjectResult>

    constructor ()
      ensures result.None?
    {
      result := None;
    }
  }

  class RequirePermissionAttribute {
    const permission: string

    constructor (permission: string)
      ensures this.permission == permission
    {
      this.permission := permission;
    }

    /** OnAuthorization: allowing returns without touching the context; denying sets its result. */
    method OnAuthorization(context: AuthorizationFilterContext, apiKeyContext: Option<ApiKeyContext>,
                           currentUserService: Option<CurrentUserService>)
      modifies context
      ensures context.result == match Decide(apiKeyContext, currentUserService, permission)
                                case None => old(context.result)
                                case Some(denial) => Some(denial)
    {
      if currentUserService.Some? && currentUserService.value.isAuthenticated
         && (apiKeyContext.None? || apiKeyContext.value.apiKeyId.None?) {
        return;
      }
      if apiKeyContext.Some? && apiKeyContext.value.isAuthenticated && HasPermission(apiKeyContext.value, permission) {
        return;
      }
      context.result := Some(ObjectResult(403, ForbiddenMessage(permission)));
    }
  }
}
