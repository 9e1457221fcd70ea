// Resource-level access control: a user's roles on a resource (from the
// request's access info), the permissions each role grants, and one
// processor per resource type that decides whether a permission holds on a
// given resource.
module AccessControl {
  import opened Wrappers

  datatype ResourceType = PLATFORM | CUSTOMER_SERVICE
  datatype RoleType = ADMIN | CS_EMPTY | CS_LEVEL_1 | CS_LEADER
  datatype Permission =
    | CS_ORDER_SEARCH | CS_ORDER_DETAILS | CS_ORDER_COMMENT
    | CS_ADJUST_PAYMENT | CS_ISSUE_CREDIT | CS_CANCEL_ORDER

  function ResourceTypeName(t: ResourceType): string
  {
    match t
    case PLATFORM => "PLATFORM"
    case CUSTOMER_SERVICE => "CUSTOMER_SERVICE"
  }

  function PermissionName(p: Permission): string
  {
    match p
    case CS_ORDER_SEARCH => "CS_ORDER_SEARCH"
    case CS_ORDER_DETAILS => "CS_ORDER_DETAILS"
    case CS_ORDER_COMMENT => "CS_ORDER_COMMENT"
    case CS_ADJUST_PAYMENT => "CS_ADJUST_PAYMENT"
    case CS_ISSUE_CREDIT => "CS_ISSUE_CREDIT"
    case CS_CANCEL_ORDER => "CS_CANCEL_ORDER"
  }

  /** One role the user holds on one resource. */
  datatype ResourceRole = ResourceRole(resourceType: ResourceType, resourceRef: string, roleType: RoleType)

  /** What was loaded about the signed-in user. */
  datatype AccessInfo = AccessInfo(userCode: Option<string>, isPlatformAdmin: bool, resources: seq<ResourceRole>)

  /** The request context: the user code it was opened with and the access
      info, absent when none was loaded. */
  datatype Ctx = Ctx(userCode: Option<string>, accessInfo: Option<AccessInfo>)

  /** The permissions of each role on each resource type, as the role
      tables define them. */
  type RolePermissions = (ResourceType, RoleType) -> set<Permission>

  /** A resource processor: whether the context holds a permission on the
      resource with the given reference. */
  type Processor = (Ctx, string, Permission) -> bool

  /** The role types of the user's entries on exactly this resource. */
  function ResourceRoles(ctx: Ctx, resourceType: ResourceType, resourceRef: string): (r: seq<RoleType>)
    ensures ctx.accessInfo.None? ==> r == []
    ensures ctx.accessInfo.Some? ==> |r| <= |ctx.accessInfo.value.resources|
    ensures forall role :: role in r <==>
      (ctx.accessInfo.Some? && ResourceRole(resourceType, resourceRef, role) in ctx.accessInfo.value.resources)
  {
    if ctx.accessInfo.None? then [] else Matching(ctx.accessInfo.value.resources, resourceType, resourceRef)
  }

  /** The comprehension over the entries, in their order. */
  function Matching(rs: seq<ResourceRole>, resourceType: ResourceType, resourceRef: string): (r: seq<RoleType>)
    ensures |r| <= |rs|
    ensures forall role :: role in r <==> ResourceRole(resourceType, resourceRef, role) in rs
  {
    if rs == [] then []
    else
      var rest := Matching(rs[1..], resourceType, resourceRef);
      assert forall e :: e in rs <==> e == rs[0] || e in rs[1..];
      if rs[0].resourceType == resourceType && rs[0].resourceRef == resourceRef then [rs[0].roleType] + rest
      else rest
  }

  /** `any(...)` over the roles, first to last. */
  function AnyGrants(perms: RolePermissions, resourceType: ResourceType, roles: seq<RoleType>, permission: Permission): bool
  {
    roles != [] && (permission in perms(resourceType, roles[0]) || AnyGrants(perms, resourceType, roles[1..], permission))
  }

  lemma {:induction false} AnyGrantsIff(perms: RolePermissions, resourceType: ResourceType, roles: seq<RoleType>, permission: Permission)
    ensures AnyGrants(perms, resourceType, roles, permission) <==>
      exists role :: role in roles && permission in perms(resourceType, role)
  {
    if roles != [] {
      AnyGrantsIff(perms, resourceType, roles[1..], permission);
      assert forall role :: role in roles <==> role == roles[0] || role in roles[1..];
    }
  }

  function HasResourcePermission(perms: RolePermissions, ctx: Ctx, resourceType: ResourceType, resourceRef: string, permission: Permission): bool
  {
    AnyGrants(perms, resourceType, ResourceRoles(ctx, resourceType, resourceRef), permission)
  }

  /** The permission holds exactly when some role the user holds on that
      very resource grants it; never without access info. */
  lemma HasResourcePermissionIff(perms: RolePermissions, ctx: Ctx, resourceType: ResourceType, resourceRef: string, permission: Permission)
    ensures HasResourcePermission(perms, ctx, resourceType, resourceRef, permission) <==>
      ctx.accessInfo.Some? && exists role ::
        ResourceRole(resourceType, resourceRef, role) in ctx.accessInfo.value.resources &&
        permission in perms(resourceType, role)
  {
    AnyGrantsIff(perms, resourceType, ResourceRoles(ctx, resourceType, resourceRef), permission);
  }

  /** The processor registered for CUSTOMER_SERVICE. */
  function CustomerServiceProcessor(perms: RolePermissions): Processor
  {
    (ctx: Ctx, ref: string, permission: Permission) => HasResourcePermission(perms, ctx, CUSTOMER_SERVICE, ref, permission)
  }

  const DeniedPrefix := "Permission denied: user "
  const NoAccessInfo := DeniedPrefix + "does not have permission "
  const NoProcessor := "no processor defined for resource type: "

  function Denied(info: AccessInfo, permission: Permission, resourceType: ResourceType, resourceRef: string): string
  {
    DeniedPrefix + (info.userCode.GetOr("?") + " does not have permission " + PermissionName(permission) +
    " on " + ResourceTypeName(resourceType) + " resource \"['" + resourceRef + "']\"")
  }

  /** `assert_access`: the message of the assertion that fails, in source
      order. */
  function AssertAccess(processors: map<ResourceType, Processor>, ctx: Ctx, resourceType: ResourceType, resourceRef: string, permission: Permission): Result<()>
  {
    if ctx.accessInfo.None? then Failure(NoAccessInfo + PermissionName(permission))
    else if resourceType !in processors then Failure(NoProcessor + "ResourceType." + ResourceTypeName(resourceType))
    else if !processors[resourceType](ctx, resourceRef, permission) then Failure(Denied(ctx.accessInfo.value, permission, resourceType, resourceRef))
    else Success(())
  }

  /** Access is granted exactly when there is access info, a processor for
      the resource type, and that processor says yes; a refusal for a
      missing access info or a processor's no reads "Permission denied". */
  lemma AssertAccessIff(processors: map<ResourceType, Processor>, ctx: Ctx, resourceType: ResourceType, resourceRef: string, permission: Permission)
    ensures AssertAccess(processors, ctx, resourceType, resourceRef, permission).Success? <==>
      ctx.accessInfo.Some? && resourceType in processors && processors[resourceType](ctx, resourceRef, permission)
    ensures AssertAccess(processors, ctx, resourceType, resourceRef, permission).Failure? && resourceType in processors ==>
      Prefixed(DeniedPrefix, AssertAccess(processors, ctx, resourceType, resourceRef, permission).error)
  {
    var r := AssertAccess(processors, ctx, resourceType, resourceRef, permission);
    if r.Failure? && resourceType in processors {
      if ctx.accessInfo.None? {
        PrefixedConcat(DeniedPrefix, "does not have permission " + PermissionName(permission));
      } else {
        var info := ctx.accessInfo.value;
        PrefixedConcat(DeniedPrefix, info.userCode.GetOr("?") + " does not have permission " + PermissionName(permission) +
          " on " + ResourceTypeName(resourceType) + " resource \"['" + resourceRef + "']\"");
      }
    }
  }

  predicate Prefixed(p: string, s: string)
  {
    |p| <= |s| && s[..|p|] == p
  }

  lemma PrefixedConcat(p: string, q: string)
    ensures Prefixed(p, p + q)
  {
    assert (p + q)[..|p|] == p;
  }

  /** The registry of resource processors, one per resource type. */
  class ResourceRegistry {
    var processors: map<ResourceType, Processor>

    constructor()
      ensures processors == map[]
    {
      processors := map[];
    }

    /** `_register_processor`: a second processor for a resource type is
        refused and leaves the registry as it was. */
    method Register(resourceType: ResourceType, processor: Processor) returns (r: Result<()>)
      modifies this
      ensures r.Success? <==> resourceType !in old(processors)
      ensures r.Success? ==> processors == old(processors)[resourceType := processor]
      ensures r.Failure? ==> processors == old(processors)
    {
      if resourceType in processors {
        return Failure("duplicate processors for resource type " + ResourceTypeName(resourceType) + " defined");
      }
      processors := processors[resourceType := processor];
      r := Success(());
    }
  }

  /** The registrations made when the module loads. */
  method RegisterCustomerService(registry: ResourceRegistry, perms: RolePermissions) returns (r: Result<()>)
    modifies registry
    ensures r.Success? <==> CUSTOMER_SERVICE !in old(registry.processors)
    ensures r.Success? ==> registry.processors == old(registry.processors)[CUSTOMER_SERVICE := CustomerServiceProcessor(perms)]
    ensures r.Failure? ==> registry.processors == old(registry.processors)
  {
    r := registry.Register(CUSTOMER_SERVICE, CustomerServiceProcessor(perms));
  }

  /** Loading twice would register CUSTOMER_SERVICE twice: the second
      registration is refused. */
  method RegisterTwice(perms: RolePermissions) returns (first: Result<()>, second: Result<()>)
    ensures first.Success? && second.Failure?
  {
    var registry := new ResourceRegistry();
    first := RegisterCustomerService(registry, perms);
    second := RegisterCustomerService(registry, perms);
  }

  /** With the customer-service processor registered, access to a
      customer-service resource is exactly a role on it that grants the
      permission. */
  lemma CustomerServiceAccess(perms: RolePermissions, ctx: Ctx, resourceRef: string, permission: Permission)
    ensures AssertAccess(map[CUSTOMER_SERVICE := CustomerServiceProcessor(perms)], ctx, CUSTOMER_SERVICE, resourceRef, permission).Success? <==>
      ctx.accessInfo.Some? && exists role ::
        ResourceRole(CUSTOMER_SERVICE, resourceRef, role) in ctx.accessInfo.value.resources &&
        permission in perms(CUSTOMER_SERVICE, role)
  {
    HasResourcePermissionIff(perms, ctx, CUSTOMER_SERVICE, resourceRef, permission);
  }
}
