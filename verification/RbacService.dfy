/** The requests of the administration service as the service runs them, one at a time. */
module RbacService {
  import opened Options
  import opened LastSuperAdmin

  class Rbac {
    var db: Db

    constructor (db: Db) ensures this.db == db { this.db := db; }

    method RoleIDsHasSuperAdmin(roleIds: seq<string>) returns (has: bool)
      ensures has == HasSuper(db, roleIds)
    {
      for i := 0 to |roleIds|
        invariant forall k :: 0 <= k < i ==> !(roleIds[k] in db.roles && db.roles[roleIds[k]].code == SUPER)
      {
        if roleIds[i] !in db.roles { continue; }
        if db.roles[roleIds[i]].code == SUPER { return true; }
      }
      return false;
    }

    method EnsureCanAssignRoles(operator: string, roleIds: Option<seq<string>>) returns (ok: bool)
      ensures ok == MayAssign(db, operator, roleIds)
    {
      if roleIds.None? || |roleIds.value| == 0 { return true; }
      if IsSuper(db, operator) { return true; }
      var has := RoleIDsHasSuperAdmin(roleIds.value);
      return !has;
    }

    /** Links are inserted one by one inside a transaction; the first unknown role aborts it. */
    method SetUserRoles(target: string, roleIds: seq<string>) returns (links: set<string>, ok: bool)
      ensures ok <==> roleIds == [] || (target in db.admins && forall r <- roleIds :: r in db.roles)
      ensures ok ==> links == set r <- roleIds
    {
      links, ok := {}, true;
      for i := 0 to |roleIds|
        invariant ok && links == set r <- roleIds[..i]
        invariant i > 0 ==> target in db.admins
        invariant forall r <- roleIds[..i] :: r in db.roles
      {
        if target !in db.admins || roleIds[i] !in db.roles {
          ok := false;
          return;
        }
        assert roleIds[..i + 1] == roleIds[..i] + [roleIds[i]];
        links := links + {roleIds[i]};
      }
      assert roleIds[..|roleIds|] == roleIds;
    }

    method StoreUpdate(target: string, status: string, roleIds: Option<seq<string>>) returns (ok: bool)
      modifies this
      ensures Written(db, ok) == WriteUpdate(old(db), target, status, roleIds)
    {
      var admins := db.admins;
      if target in admins && status != "" {
        admins := admins[target := admins[target].(status := status)];
      }
      if roleIds.Some? {
        var links, linked := SetUserRoles(target, roleIds.value);
        if !linked { return false; }
        if target in admins { admins := admins[target := admins[target].(roles := links)]; }
      }
      if target in db.admins {
        assert admins == db.admins[target := Admin(if status == "" then db.admins[target].status else status,
                                                   if roleIds.Some? then set r <- roleIds.value else db.admins[target].roles)];
      }
      db := db.(admins := admins);
      return true;
    }

    method UpdateAdmin(ghost root: string, operator: string, target: string, status: string,
                       roleIds: Option<seq<string>>)
      returns (ok: bool)
      requires HasRoot(db, root)
      modifies this
      ensures Written(db, ok) == Serve(old(db), Update(operator, target, status, roleIds))
    {
      ghost var request := Update(operator, target, status, roleIds);
      ServeOutcome(db, root, request);
      RowsAreAdmins(db, root, target);
      var may := EnsureCanAssignRoles(operator, roleIds);
      if !may { return false; }
      if status == "disabled" || roleIds.Some? {
        if IsSuper(db, target) {
          var willLoseSuper := status == "disabled";
          if roleIds.Some? {
            var has := RoleIDsHasSuperAdmin(roleIds.value);
            if !has { willLoseSuper := true; }
          }
          if willLoseSuper {
            var others := |OtherRows(db, target)|;
            if others <= 1 { return false; }
          }
        }
      }
      ok := StoreUpdate(target, status, roleIds);
    }

    method SetAdminStatus(ghost root: string, target: string, status: string) returns (ok: bool)
      requires HasRoot(db, root)
      modifies this
      ensures Written(db, ok) == Serve(old(db), SetStatus(target, status))
    {
      ServeOutcome(db, root, SetStatus(target, status));
      RowsAreAdmins(db, root, target);
      if status == "disabled" {
        if IsSuper(db, target) {
          var others := |OtherRows(db, target)|;
          if others <= 1 { return false; }
        }
      }
      if target in db.admins {
        db := db.(admins := db.admins[target := db.admins[target].(status := status)]);
      }
      return true;
    }

    /** A role in use is kept, and so is the super_admin role; nothing else changes. */
    method DeleteRole(role: string) returns (ok: bool)
      modifies this
      ensures ok <==> role in old(db).roles && old(db).roles[role].code != SUPER
                      && forall a <- old(db).admins :: role !in old(db).admins[a].roles
      ensures db == if ok then old(db).(roles := old(db).roles - {role}) else old(db)
      ensures forall root :: HasRoot(old(db), root) ==> HasRoot(db, root) && ActiveSupers(db) == ActiveSupers(old(db))
    {
      var users := set a | a in db.admins && role in db.admins[a].roles;
      if |users| > 0 {
        assert exists a :: a in users;
        return false;
      }
      assert forall a <- db.admins :: role in db.admins[a].roles ==> a in users;
      if role !in db.roles || db.roles[role].code == SUPER { return false; }
      ghost var before := db;
      db := db.(roles := db.roles - {role});
      forall root | HasRoot(before, root)
        ensures HasRoot(db, root) && ActiveSupers(db) == ActiveSupers(before)
      {
        forall a | a in db.admins ensures IsSuper(db, a) <==> IsSuper(before, a) {
          IsSuperIsRoot(before, root, a);
          IsSuperIsRoot(db, root, a);
        }
      }
      return true;
    }
  }
}
