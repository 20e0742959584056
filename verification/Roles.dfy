/** Role profiles, and the validation of a configured role catalog. */
module Roles {
  import opened Common
  import opened Text

  datatype RoleAction = Answer | Analyze | Create | Optimize | PlanWork | Execute | Query

  datatype Role = Role(
    id: string, name: string, runtimeRole: string, priority: nat,
    domains: seq<string>, keywords: seq<string>, preferredActions: seq<RoleAction>)

  datatype RoleError =
    | NoRoles
    | RoleIdRequired
    | DuplicateRole(id: string)
    | NoName(id: string)
    | NoRuntimeRole(id: string)
    | UnsupportedCharacters(id: string, runtimeRole: string)
    | DuplicateRuntimeRole(runtimeRole: string)
    | NoKeyword(id: string)
    | NoAction(id: string)

  predicate IsNameChar(c: char) {
    'a' <= c <= 'z' || 'A' <= c <= 'Z' || '0' <= c <= '9' || c == '_' || c == '-'
  }

  predicate PlainName(s: string) {
    forall i :: 0 <= i < |s| ==> IsNameChar(s[i])
  }

  /** What each role must declare by itself. */
  predicate Declared(r: Role) {
    && !IsBlank(r.id) && !IsBlank(r.name) && !IsBlank(r.runtimeRole) && PlainName(r.runtimeRole)
    && r.keywords != [] && r.preferredActions != []
  }

  ghost predicate UniqueRoles(roles: seq<Role>) {
    forall i, j :: 0 <= i < j < |roles| ==> roles[i].id != roles[j].id && roles[i].runtimeRole != roles[j].runtimeRole
  }

  ghost predicate ValidRoles(roles: seq<Role>) {
    roles != [] && UniqueRoles(roles) && forall i :: 0 <= i < |roles| ==> Declared(roles[i])
  }

  /** The error names something that is wrong with the catalog. */
  ghost predicate Wrong(roles: seq<Role>, e: RoleError) {
    match e
    case NoRoles => roles == []
    case RoleIdRequired => exists r :: r in roles && IsBlank(r.id)
    case DuplicateRole(id) => exists i, j :: 0 <= i < j < |roles| && roles[i].id == id == roles[j].id
    case NoName(id) => exists r :: r in roles && r.id == id && IsBlank(r.name)
    case NoRuntimeRole(id) => exists r :: r in roles && r.id == id && IsBlank(r.runtimeRole)
    case UnsupportedCharacters(id, name) =>
      exists r :: r in roles && r.id == id && r.runtimeRole == name && !PlainName(name)
    case DuplicateRuntimeRole(name) =>
      exists i, j :: 0 <= i < j < |roles| && roles[i].runtimeRole == name == roles[j].runtimeRole
    case NoKeyword(id) => exists r :: r in roles && r.id == id && r.keywords == []
    case NoAction(id) => exists r :: r in roles && r.id == id && r.preferredActions == []
  }

  /** Validation accepts exactly the valid catalogs, and an error is always deserved. */
  method ValidateConfiguredRoles(configured: seq<Role>) returns (r: Result<(), RoleError>)
    ensures r.Ok? <==> ValidRoles(configured)
    ensures r.Err? ==> Wrong(configured, r.error)
  {
    hide IsBlank, PlainName;
    if configured == [] {
      return Err(NoRoles);
    }
    var roleIds: set<string>, runtimeRoles: set<string> := {}, {};
    for i := 0 to |configured|
      invariant roleIds == set j | 0 <= j < i :: configured[j].id
      invariant runtimeRoles == set j | 0 <= j < i :: configured[j].runtimeRole
      invariant UniqueRoles(configured[..i])
      invariant forall j :: 0 <= j < i ==> Declared(configured[j])
    {
      var role := configured[i];
      assert role in configured;
      if IsBlank(role.id) {
        return Err(RoleIdRequired);
      }
      if role.id in roleIds {
        return Err(DuplicateRole(role.id));
      }
      roleIds := roleIds + {role.id};
      if IsBlank(role.name) {
        return Err(NoName(role.id));
      }
      if IsBlank(role.runtimeRole) {
        return Err(NoRuntimeRole(role.id));
      }
      if !PlainName(role.runtimeRole) {
        return Err(UnsupportedCharacters(role.id, role.runtimeRole));
      }
      if role.runtimeRole in runtimeRoles {
        return Err(DuplicateRuntimeRole(role.runtimeRole));
      }
      runtimeRoles := runtimeRoles + {role.runtimeRole};
      if role.keywords == [] {
        return Err(NoKeyword(role.id));
      }
      if role.preferredActions == [] {
        return Err(NoAction(role.id));
      }
    }
    assert configured[..|configured|] == configured;
    return Ok(());
  }
}
