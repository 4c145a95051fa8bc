/**
 * Who may read a provider's details and its locations: the user who created the provider,
 * or a user whose first organisation role is SUPER_ADMIN.
 */
module ProviderAccess {
  import opened Wrappers
  import opened Catalog

  /** An organisation role; the roles other than CLIENT and SUPER_ADMIN are told apart by id. */
  datatype Role = SuperAdmin | Client | OtherRole(id: nat)

  datatype Provider = Provider(id: nat, createdById: nat, name: string)

  /** Looking up an id with no provider leaves the creator check nothing to read. */
  datatype AccessFault = ProviderNotFound(providerId: nat)

  /** Only SUPER_ADMIN grants access; CLIENT and every other role do not. */
  function CheckPermission(role: Role): (allowed: bool)
    ensures allowed <==> role == SuperAdmin
    ensures role == Client ==> !allowed
  {
    match role
    case Client => false
    case SuperAdmin => true
    case OtherRole(_) => false
  }

  /** The user's role list, of which only the first entry counts. */
  function IsAdminRole(roles: seq<Role>): (admin: bool)
    ensures admin <==> |roles| > 0 && roles[0] == SuperAdmin
    ensures roles == [] ==> !admin
  {
    if roles != [] then CheckPermission(roles[0]) else false
  }

  /** The creator of the provider is always allowed; anyone else needs the admin role. */
  function IsAllowed(provider: Provider, userId: nat, roles: seq<Role>): (allowed: bool)
    ensures provider.createdById == userId ==> allowed
    ensures allowed <==> provider.createdById == userId || (|roles| > 0 && roles[0] == SuperAdmin)
  {
    if provider.createdById == userId then true
    else if IsAdminRole(roles) then true
    else false
  }

  /**
   * The provider with the given id, when the user may see it, and None when not; an id with
   * no provider is a fault.
   */
  function GetProviderDetails(providers: map<nat, Provider>, providerId: nat, userId: nat, roles: seq<Role>)
    : (r: Result<Option<Provider>, AccessFault>)
    ensures r.Err? <==> providerId !in providers
    ensures r.Err? ==> r.error == ProviderNotFound(providerId)
    ensures r.Ok? ==> (r.value.Some? <==> IsAllowed(providers[providerId], userId, roles))
    ensures r.Ok? && r.value.Some? ==> r.value.value == providers[providerId]
  {
    if providerId !in providers then Err(ProviderNotFound(providerId))
    else
      var toProvider := providers[providerId];
      if IsAllowed(toProvider, userId, roles) then Ok(Some(toProvider)) else Ok(None)
  }

  /**
   * The provider's locations, as `locationsOf` lists them, when the user may see the
   * provider, and None when not; an id with no provider is a fault.
   */
  function GetProviderLocations(providers: map<nat, Provider>, providerId: nat, userId: nat, roles: seq<Role>,
                                locationsOf: nat -> seq<Location>): (r: Result<Option<seq<Location>>, AccessFault>)
    ensures r.Err? <==> providerId !in providers
    ensures r.Err? ==> r.error == ProviderNotFound(providerId)
    ensures r.Ok? ==> (r.value.Some? <==> IsAllowed(providers[providerId], userId, roles))
    ensures r.Ok? && r.value.Some? ==> r.value.value == locationsOf(providerId)
  {
    if providerId !in providers then Err(ProviderNotFound(providerId))
    else if IsAllowed(providers[providerId], userId, roles) then Ok(Some(locationsOf(providerId)))
    else Ok(None)
  }

  /** For a non-creator, the roles after the first make no difference. */
  lemma OnlyFirstRoleConsulted(provider: Provider, userId: nat, roles: seq<Role>, others: seq<Role>)
    requires |roles| > 0
    ensures IsAllowed(provider, userId, roles) == IsAllowed(provider, userId, [roles[0]] + others)
  {
  }

  /** A non-creator is allowed exactly when the first role is SUPER_ADMIN: no roles, CLIENT first, or any other role first is refused. */
  lemma NonCreatorNeedsSuperAdmin(provider: Provider, userId: nat, roles: seq<Role>)
    requires provider.createdById != userId
    ensures roles == [] ==> !IsAllowed(provider, userId, roles)
    ensures |roles| > 0 && roles[0] != SuperAdmin ==> !IsAllowed(provider, userId, roles)
    ensures |roles| > 0 && roles[0] == SuperAdmin ==> IsAllowed(provider, userId, roles)
  {
  }

  /** The details and the locations of a provider are granted and refused together. */
  lemma DetailsAndLocationsAgree(providers: map<nat, Provider>, providerId: nat, userId: nat, roles: seq<Role>,
                                 locationsOf: nat -> seq<Location>)
    ensures var details := GetProviderDetails(providers, providerId, userId, roles);
            var locations := GetProviderLocations(providers, providerId, userId, roles, locationsOf);
            && (details.Err? <==> locations.Err?)
            && (details.Ok? ==> (details.value.Some? <==> locations.value.Some?))
  {
  }
}
