/** Roles (backend/src/feature/roles/roles.service.ts): the role list with a
    fixed permission table keyed by the role's name. */
module Roles {
  import opened Common
  import opened Entities
  import opened Ordering
  import opened Store

  const AllPermissions := "Toutes les permissions"
  const ManageCompany := "Gestion entreprise"
  const ManageUsers := "Gestion utilisateurs"
  const NetworkView := "Vue réseau"
  const ManageDevices := "Gestion dispositifs"
  const DashboardView := "Vue dashboard"

  /** The three role names the table knows. */
  predicate KnownRole(name: string) {
    name == "SUPER_ADMIN" || name == "ADMIN" || name == "USER"
  }

  /** `getPermissionsForRole`: the simulated permissions of a role name. */
  function Permissions(roleName: string): (r: seq<string>)
    ensures roleName == "SUPER_ADMIN" ==> r == [AllPermissions]
    ensures roleName == "ADMIN" ==> r == [ManageCompany, ManageUsers, NetworkView, ManageDevices]
    ensures roleName == "USER" ==> r == [DashboardView, ManageDevices]
    ensures r == [] <==> !KnownRole(roleName)
    ensures forall i, j :: 0 <= i < j < |r| ==> r[i] != r[j]
  {
    match roleName
    case "SUPER_ADMIN" => [AllPermissions]
    case "ADMIN" => [ManageCompany, ManageUsers, NetworkView, ManageDevices]
    case "USER" => [DashboardView, ManageDevices]
    case _ => []
  }

  /** Only the super administrator holds the blanket permission, and device
      management is the one permission ADMIN and USER share. */
  lemma PermissionsShared(roleName: string)
    ensures AllPermissions in Permissions(roleName) <==> roleName == "SUPER_ADMIN"
    ensures ManageDevices in Permissions(roleName) <==> roleName == "ADMIN" || roleName == "USER"
    ensures forall p :: p in Permissions("USER") && p != DashboardView ==> p in Permissions("ADMIN")
  {
  }

  /** A role as findAll returns it: the stored row, the `_count` of its users
      and the permissions the table gives its name. */
  datatype RoleView = RoleView(role: Role, users: nat, permissions: seq<string>)

  function UserCount(users: map<Id, User>, roleId: Id): nat {
    |set k | k in users && users[k].roleId == roleId|
  }

  function Name(r: Role): string { r.name }

  /** The role table ordered by name. */
  function ByName(roles: map<Id, Role>, bound: nat): (r: seq<Role>)
    requires forall k :: k in roles ==> k < bound
    ensures |r| == |roles|
    ensures AscendingText(r, Name)
    ensures forall x :: x in r <==> x in roles.Values
  {
    var rows := Rows(roles, bound);
    RowsCountAll(roles, bound);
    forall x | x in rows ensures x in roles.Values {
      var i :| 0 <= i < |rows| && rows[i] == x;
    }
    forall x | x in roles.Values ensures x in rows {
      var k :| k in roles && roles[k] == x;
    }
    SortAscendingText(rows, Name)
  }

  /** `views[i]` is `roles[i]` with its user count and permissions. */
  function Views(roles: seq<Role>, users: map<Id, User>): (r: seq<RoleView>)
    ensures |r| == |roles|
    ensures forall i :: 0 <= i < |r| ==>
      r[i] == RoleView(roles[i], UserCount(users, roles[i].id), Permissions(roles[i].name))
  {
    if roles == [] then []
    else [RoleView(roles[0], UserCount(users, roles[0].id), Permissions(roles[0].name))] + Views(roles[1..], users)
  }

  /** Every role once, ordered by name, each with its stored fields, the
      number of its users and its permissions. */
  function FindAll(db: Db): (r: seq<RoleView>)
    reads db
    requires RolesValid(db.roles, db.nextId)
    ensures |r| == |db.roles|
    ensures forall i, j :: 0 <= i < j < |r| ==> LexLe(r[i].role.name, r[j].role.name)
    ensures forall x :: x in db.roles.Values <==> exists i :: 0 <= i < |r| && r[i].role == x
    ensures forall i :: 0 <= i < |r| ==>
      r[i].users == UserCount(db.users, r[i].role.id) && r[i].permissions == Permissions(r[i].role.name)
  {
    var sorted := ByName(db.roles, db.nextId);
    var r := Views(sorted, db.users);
    ViewsFollow(sorted, r);
    r
  }

  lemma ViewsFollow(roles: seq<Role>, r: seq<RoleView>)
    requires |r| == |roles| && forall i :: 0 <= i < |r| ==> r[i].role == roles[i]
    ensures AscendingText(roles, Name) ==> forall i, j :: 0 <= i < j < |r| ==> LexLe(r[i].role.name, r[j].role.name)
    ensures forall x :: x in roles <==> exists i :: 0 <= i < |r| && r[i].role == x
  {
    if AscendingText(roles, Name) {
      forall i, j | 0 <= i < j < |r| ensures LexLe(r[i].role.name, r[j].role.name) {
        assert LexLe(Name(roles[i]), Name(roles[j]));
      }
    }
    forall x | x in roles ensures exists i :: 0 <= i < |r| && r[i].role == x {
      var i :| 0 <= i < |roles| && roles[i] == x;
      assert r[i].role == x;
    }
  }
}
