// Permission checks on the customer-service commands: every permission has
// a list of processors, registered in order, each of which asserts access
// to a resource; platform admins skip them all.
module Permissions {
  import opened Wrappers
  import opened AccessControl

  /** A permission processor: an access assertion on one fixed resource,
      the one form the command layer registers. */
  datatype PermissionProcessor = AccessCheck(resourceType: ResourceType, resourceRef: string)

  /** Running a processor against the resource processors registered. */
  function Run(pp: PermissionProcessor, resources: map<ResourceType, Processor>, permission: Permission, ctx: Ctx): Result<()>
  {
    AssertAccess(resources, ctx, pp.resourceType, pp.resourceRef, permission)
  }

  const NoContext := "must open a context to check permissions"
  const NoUserCode := "must provide user code to check permissions"

  function Unassigned(permission: Permission): string
  {
    "permission " + PermissionName(permission) + " does not have any assigned processors"
  }

  predicate Truthy(s: Option<string>)
  {
    s.Some? && s.value != ""
  }

  predicate IsPlatformAdmin(ctx: Ctx)
  {
    ctx.accessInfo.Some? && ctx.accessInfo.value.isPlatformAdmin
  }

  /** The processors run one after the other; the first refusal ends the
      check. */
  function RunAll(pps: seq<PermissionProcessor>, resources: map<ResourceType, Processor>, permission: Permission, ctx: Ctx): Result<()>
  {
    if pps == [] then Success(())
    else
      var _ :- RunAll(pps[..|pps| - 1], resources, permission, ctx);
      Run(pps[|pps| - 1], resources, permission, ctx)
  }

  /** `check_permission` with `ctx` absent when no context is open. */
  function CheckPermission(ctx: Option<Ctx>, processors: map<Permission, seq<PermissionProcessor>>,
                           resources: map<ResourceType, Processor>, permission: Permission): Result<()>
  {
    if ctx.None? then Failure(NoContext)
    else if !Truthy(ctx.value.userCode) then Failure(NoUserCode)
    else if IsPlatformAdmin(ctx.value) then Success(())
    else if permission !in processors then Failure(Unassigned(permission))
    else RunAll(processors[permission], resources, permission, ctx.value)
  }

  /** The processors all pass exactly when each one does; a refusal is the
      first failing processor's, every one before it having passed. */
  lemma {:induction false} RunAllFacts(pps: seq<PermissionProcessor>, resources: map<ResourceType, Processor>, permission: Permission, ctx: Ctx)
    ensures RunAll(pps, resources, permission, ctx).Success? <==>
      forall i :: 0 <= i < |pps| ==> Run(pps[i], resources, permission, ctx).Success?
    ensures RunAll(pps, resources, permission, ctx).Failure? ==>
      exists k :: (0 <= k < |pps| &&
        RunAll(pps, resources, permission, ctx) == Run(pps[k], resources, permission, ctx) &&
        forall i :: 0 <= i < k ==> Run(pps[i], resources, permission, ctx).Success?)
  {
    if pps != [] {
      var init := pps[..|pps| - 1];
      RunAllFacts(init, resources, permission, ctx);
      assert forall i :: 0 <= i < |init| ==> init[i] == pps[i];
      if RunAll(init, resources, permission, ctx).Failure? {
        var k :| 0 <= k < |init| && RunAll(init, resources, permission, ctx) == Run(init[k], resources, permission, ctx) &&
          forall i :: 0 <= i < k ==> Run(init[i], resources, permission, ctx).Success?;
        assert RunAll(pps, resources, permission, ctx) == Run(pps[k], resources, permission, ctx);
      }
    }
  }

  /** A check passes exactly when a context with a user code is open and
      the user is a platform admin, or the permission has processors and
      all of them pass. */
  lemma CheckPermissionIff(ctx: Option<Ctx>, processors: map<Permission, seq<PermissionProcessor>>,
                           resources: map<ResourceType, Processor>, permission: Permission)
    ensures CheckPermission(ctx, processors, resources, permission).Success? <==>
      ctx.Some? && Truthy(ctx.value.userCode) &&
      (IsPlatformAdmin(ctx.value) ||
       (permission in processors &&
        forall i :: 0 <= i < |processors[permission]| ==> Run(processors[permission][i], resources, permission, ctx.value).Success?))
  {
    if ctx.Some? && permission in processors {
      RunAllFacts(processors[permission], resources, permission, ctx.value);
    }
  }

  /** The registry of permission processors. */
  class PermissionRegistry {
    var processors: map<Permission, seq<PermissionProcessor>>

    constructor()
      ensures processors == map[]
    {
      processors := map[];
    }

    /** `register_processor`: appends, so registrations accumulate. */
    method Register(permission: Permission, pp: PermissionProcessor)
      modifies this
      ensures processors == old(processors)[permission := Registered(old(processors), permission) + [pp]]
    {
      if permission !in processors {
        assert [] + [pp] == [pp];
        processors := processors[permission := [pp]];
      } else {
        processors := processors[permission := processors[permission] + [pp]];
      }
    }
  }

  /** The processors registered for a permission so far. */
  function Registered(processors: map<Permission, seq<PermissionProcessor>>, permission: Permission): seq<PermissionProcessor>
  {
    if permission in processors then processors[permission] else []
  }

  /** The customer-service permissions. */
  const CsPermissions := [CS_CANCEL_ORDER, CS_ISSUE_CREDIT, CS_ADJUST_PAYMENT, CS_ORDER_COMMENT, CS_ORDER_DETAILS, CS_ORDER_SEARCH]

  /** The customer-service processor: access to the `NOON_CS` resource. */
  const CsProcessor := AccessCheck(CUSTOMER_SERVICE, "NOON_CS")

  /** The stacked registrations of the customer-service processor, the
      innermost first. */
  method RegisterCsProcessors(registry: PermissionRegistry)
    modifies registry
    ensures forall p :: p in CsPermissions ==> p in registry.processors && registry.processors[p] == Registered(old(registry.processors), p) + [CsProcessor]
    ensures forall p :: p !in CsPermissions ==> Registered(registry.processors, p) == Registered(old(registry.processors), p)
  {
    for i := 0 to |CsPermissions|
      invariant forall k :: 0 <= k < i ==> CsPermissions[k] in registry.processors && registry.processors[CsPermissions[k]] == Registered(old(registry.processors), CsPermissions[k]) + [CsProcessor]
      invariant forall p :: p !in CsPermissions[..i] ==> Registered(registry.processors, p) == Registered(old(registry.processors), p)
    {
      registry.Register(CsPermissions[i], CsProcessor);
    }
  }

  /** After loading, every customer-service permission has exactly the
      customer-service processor. */
  method Loaded(perms: RolePermissions) returns (resources: ResourceRegistry, registry: PermissionRegistry)
    ensures resources.processors == map[CUSTOMER_SERVICE := CustomerServiceProcessor(perms)]
    ensures forall p :: p in CsPermissions ==> p in registry.processors && registry.processors[p] == [CsProcessor]
  {
    resources := new ResourceRegistry();
    var _ := RegisterCustomerService(resources, perms);
    registry := new PermissionRegistry();
    RegisterCsProcessors(registry);
  }

  /** Every customer-service permission is a check on CUSTOMER_SERVICE /
      `NOON_CS`: for a user with a user code who is not a platform admin,
      it passes exactly when one of the user's roles on that resource
      grants the permission. */
  lemma CsRouting(perms: RolePermissions, ctx: Ctx, permission: Permission, processors: map<Permission, seq<PermissionProcessor>>)
    requires permission in CsPermissions && permission in processors && processors[permission] == [CsProcessor]
    requires Truthy(ctx.userCode) && !IsPlatformAdmin(ctx)
    ensures CheckPermission(Some(ctx), processors, map[CUSTOMER_SERVICE := CustomerServiceProcessor(perms)], permission).Success? <==>
      ctx.accessInfo.Some? && exists role ::
        ResourceRole(CUSTOMER_SERVICE, "NOON_CS", role) in ctx.accessInfo.value.resources &&
        permission in perms(CUSTOMER_SERVICE, role)
  {
    var resources := map[CUSTOMER_SERVICE := CustomerServiceProcessor(perms)];
    assert processors[permission][..0] == [];
    assert RunAll(processors[permission], resources, permission, ctx) == Run(CsProcessor, resources, permission, ctx);
    CustomerServiceAccess(perms, ctx, "NOON_CS", permission);
  }

  /** Platform admins pass every check, whatever is registered. */
  lemma AdminBypass(ctx: Ctx, processors: map<Permission, seq<PermissionProcessor>>,
                    resources: map<ResourceType, Processor>, permission: Permission)
    requires Truthy(ctx.userCode)
    ensures IsPlatformAdmin(ctx) ==> CheckPermission(Some(ctx), processors, resources, permission).Success?
    ensures !IsPlatformAdmin(ctx) && permission !in processors ==>
      CheckPermission(Some(ctx), processors, resources, permission) == Failure(Unassigned(permission))
  {
  }

  /** `check_permission` as the loop over the processors. */
  method Check(ctx: Option<Ctx>, registry: PermissionRegistry, resources: map<ResourceType, Processor>, permission: Permission)
    returns (r: Result<()>)
    ensures r == CheckPermission(ctx, registry.processors, resources, permission)
  {
    if ctx.None? {
      return Failure(NoContext);
    }
    if !Truthy(ctx.value.userCode) {
      return Failure(NoUserCode);
    }
    if IsPlatformAdmin(ctx.value) {
      return Success(());
    }
    if permission !in registry.processors {
      return Failure(Unassigned(permission));
    }
    var pps := registry.processors[permission];
    for i := 0 to |pps|
      invariant RunAll(pps[..i], resources, permission, ctx.value) == Success(())
    {
      var one := Run(pps[i], resources, permission, ctx.value);
      RunAllStep(pps, i, resources, permission, ctx.value);
      if one.Failure? {
        RunAllFailsFrom(pps, i + 1, resources, permission, ctx.value);
        return one;
      }
    }
    assert pps[..|pps|] == pps;
    r := Success(());
  }

  /** One more processor: the check so far, then that processor. */
  lemma RunAllStep(pps: seq<PermissionProcessor>, i: nat, resources: map<ResourceType, Processor>, permission: Permission, ctx: Ctx)
    requires i < |pps| && RunAll(pps[..i], resources, permission, ctx) == Success(())
    ensures RunAll(pps[..i + 1], resources, permission, ctx) == Run(pps[i], resources, permission, ctx)
  {
    assert pps[..i + 1][..i] == pps[..i];
  }

  lemma {:induction false} RunAllFailsFrom(pps: seq<PermissionProcessor>, n: nat, resources: map<ResourceType, Processor>, permission: Permission, ctx: Ctx)
    requires n <= |pps| && RunAll(pps[..n], resources, permission, ctx).Failure?
    ensures RunAll(pps, resources, permission, ctx) == RunAll(pps[..n], resources, permission, ctx)
    decreases |pps| - n
  {
    if n < |pps| {
      assert pps[..n + 1][..n] == pps[..n];
      RunAllFailsFrom(pps, n + 1, resources, permission, ctx);
    } else {
      assert pps[..n] == pps;
    }
  }
}
