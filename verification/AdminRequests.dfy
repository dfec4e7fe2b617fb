/**
 What a request to the administration does when it is served, and why: who is refused, what an accepted request writes,
 and who may hand out the super_admin role.
 */
module AdminRequests {
  import opened Options
  import opened LastSuperAdmin

  /** `root` is the identifier of the super_admin role. */
  predicate Holds(db: Db, root: string, admin: string) { admin in db.admins && root in db.admins[admin].roles }

  /** The active holders besides `admin`. */
  function OtherHolders(db: Db, root: string, admin: string): set<string> {
    set a | a in db.admins && a != admin && db.admins[a].status == "active" && root in db.admins[a].roles
  }

  lemma HoldersAreSupers(db: Db, root: string, admin: string)
    requires HasRoot(db, root)
    ensures IsSuper(db, admin) <==> Holds(db, root, admin)
    ensures ActiveSupers(db) - {admin} == OtherHolders(db, root, admin)
  {
    forall a ensures IsSuper(db, a) <==> Holds(db, root, a) { IsSuperIsRoot(db, root, a); }
  }

  /** Main result on status requests: refused exactly when the account holds the role, is to be disabled and not even two
      other active accounts hold it; otherwise the account, if it exists, has exactly the given status and its old roles,
      and nothing else changes. */
  lemma StatusIsWritten(db: Db, root: string, target: string, status: string)
    requires HasRoot(db, root)
    ensures var w := Serve(db, SetStatus(target, status));
            && (w.ok <==> !(status == "disabled" && Holds(db, root, target) && |OtherHolders(db, root, target)| <= 1))
            && w.db == if w.ok && target in db.admins
                       then Db(db.admins[target := Admin(status, db.admins[target].roles)], db.roles) else db
  {
    ServeOutcome(db, root, SetStatus(target, status));
    HoldersAreSupers(db, root, target);
    hide Serve, IsSuper, OtherHolders, ActiveSupers;
  }

  /** The roles of a request take the super_admin role away, or hand it out. */
  predicate TakesAway(root: string, roleIds: Option<seq<string>>) { roleIds.Some? && root !in roleIds.value }

  predicate HandsOut(root: string, roleIds: Option<seq<string>>) { roleIds.Some? && root in roleIds.value }

  /** The three grounds of refusal: handing the role out without holding it, leaving fewer than two other active holders,
      and roles or an account that do not exist. */
  predicate Refusable(db: Db, root: string, operator: string, target: string, status: string, roleIds: Option<seq<string>>) {
    || (HandsOut(root, roleIds) && !Holds(db, root, operator))
    || ((status == "disabled" || TakesAway(root, roleIds)) && Holds(db, root, target) && |OtherHolders(db, root, target)| <= 1)
    || (roleIds.Some? && roleIds.value != [] && (target !in db.admins || exists r <- roleIds.value :: r !in db.roles))
  }

  /** Main result on updates: refused exactly on these grounds; otherwise the account, if it exists, has the given status
      and exactly the given roles, keeps whichever was not given, and nothing else changes. */
  lemma UpdateIsWritten(db: Db, root: string, operator: string, target: string, status: string, roleIds: Option<seq<string>>)
    requires HasRoot(db, root)
    ensures var w := Serve(db, Update(operator, target, status, roleIds));
            && (w.ok <==> !Refusable(db, root, operator, target, status, roleIds))
            && w.db == if w.ok && target in db.admins
                       then Db(db.admins[target := Admin(if status == "" then db.admins[target].status else status,
                                                         if roleIds.None? then db.admins[target].roles
                                                         else set r | r in roleIds.value)], db.roles)
                       else db
  {
    var request := Update(operator, target, status, roleIds);
    ServeOutcome(db, root, request);
    HoldersAreSupers(db, root, target);
    HoldersAreSupers(db, root, operator);
    if roleIds.Some? { HasSuperIsRoot(db, root, roleIds.value); }
    WrittenUpdate(db, target, status, roleIds);
    hide Serve, IsSuper, OtherHolders, ActiveSupers, WriteUpdate, HasSuper;
  }

  lemma WrittenUpdate(db: Db, target: string, status: string, roleIds: Option<seq<string>>)
    ensures var w := WriteUpdate(db, target, status, roleIds);
            && (w.ok <==> !(roleIds.Some? && roleIds.value != [] && (target !in db.admins || exists r <- roleIds.value :: r !in db.roles)))
            && w.db == if w.ok && target in db.admins
                       then Db(db.admins[target := Admin(if status == "" then db.admins[target].status else status,
                                                         if roleIds.None? then db.admins[target].roles
                                                         else set r | r in roleIds.value)], db.roles)
                       else db
  {
    if roleIds.Some? { assert (set r <- roleIds.value) == (set r | r in roleIds.value); }
  }

  /** In particular an account can be disabled and enabled again. */
  lemma EnablingRestores(db: Db, root: string, target: string)
    requires HasRoot(db, root) && target in db.admins && db.admins[target].status == "active"
    requires Serve(db, SetStatus(target, "disabled")).ok
    ensures Serve(Serve(db, SetStatus(target, "disabled")).db, SetStatus(target, "active")) == Written(db, true)
  {
    StatusIsWritten(db, root, target, "disabled");
    var disabled := Serve(db, SetStatus(target, "disabled")).db;
    StatusIsWritten(disabled, root, target, "active");
    assert disabled.admins[target := db.admins[target]] == db.admins;
    hide Serve;
  }

  // ----- who hands out the role -----

  /** Some state of the run had this account as a holder. */
  ghost predicate HeldOnce(root: string, s: System, events: seq<Event>, admin: string) {
    exists n :: 0 <= n <= |events| && Holds(Run(s, events[..n]).db, root, admin)
  }

  /** Every request past its first check that hands out the role comes from somebody who held it. */
  ghost predicate Vouched(root: string, s: System, events: seq<Event>) {
    forall k <- Run(s, events).ops ::
      var op := Run(s, events).ops[k];
      op.request.Update? && op.phase != AskOperator && HandsOut(root, op.request.roleIds) ==>
        HeldOnce(root, s, events, op.request.operator)
  }

  /** New accounts come without the role; it is checked when they are created. */
  predicate NoNewHolder(root: string, e: Event) { e.AdminCreated? ==> root !in e.account.roles }

  lemma HeldLater(root: string, s: System, events: seq<Event>, admin: string, k: nat)
    requires k <= |events| && HeldOnce(root, s, events[..k], admin)
    ensures HeldOnce(root, s, events, admin)
  {
    var n :| 0 <= n <= k && Holds(Run(s, events[..k][..n]).db, root, admin);
    assert events[..k][..n] == events[..n];
  }

  lemma {:induction false} RunHasRoot(root: string, s: System, events: seq<Event>)
    requires HasRoot(s.db, root) && forall e <- events :: RootStays(root, e)
    ensures HasRoot(Run(s, events).db, root)
  {
    if events != [] {
      var front, last := events[..|events| - 1], events[|events| - 1];
      assert last in events;
      RunHasRoot(root, s, front);
      StepHasRoot(root, Run(s, front), last);
    }
  }

  /** The super_admin role itself is left alone. */
  predicate RootStays(root: string, e: Event) { e.RoleEdited? ==> e.edited != root }

  lemma StepHasRoot(root: string, s: System, e: Event)
    requires HasRoot(s.db, root) && RootStays(root, e)
    ensures HasRoot(Step(s, e).db, root)
  {
    if e.Advance? && e.op in s.ops && Next(s.db, s.ops[e.op]).Done? { WriteHasRoot(root, s.db, s.ops[e.op].request); }
    hide Write, IsSuper, HasSuper, OtherRows;
  }

  lemma WriteHasRoot(root: string, db: Db, request: Request)
    requires HasRoot(db, root)
    ensures HasRoot(Write(db, request).db, root)
  {
  }

  lemma StepVouches(root: string, s: System, e: Event, k: nat)
    requires HasRoot(s.db, root) && k in Step(s, e).ops
    requires var op := Step(s, e).ops[k]; op.request.Update? && op.phase != AskOperator && HandsOut(root, op.request.roleIds)
    ensures var op := Step(s, e).ops[k];
            || (k in s.ops && s.ops[k].phase != AskOperator && s.ops[k].request == op.request)
            || Holds(s.db, root, op.request.operator)
  {
    if e == Advance(k) && k in s.ops {
      var request := s.ops[k].request;
      if request.Update? && request.roleIds.Some? {
        HasSuperIsRoot(s.db, root, request.roleIds.value);
        IsSuperIsRoot(s.db, root, request.operator);
      }
    }
    hide Write, IsSuper, HasSuper, OtherRows;
  }

  lemma {:induction false} AllVouched(root: string, s: System, events: seq<Event>)
    requires HasRoot(s.db, root) && s.ops == map[] && forall e <- events :: RootStays(root, e)
    ensures Vouched(root, s, events)
  {
    if events != [] {
      var n := |events| - 1;
      var front, last := events[..n], events[n];
      AllVouched(root, s, front);
      RunHasRoot(root, s, front);
      var before, after := Run(s, front), Run(s, events);
      assert front[..n] == front;
      forall k | k in after.ops && after.ops[k].request.Update? && after.ops[k].phase != AskOperator
                 && HandsOut(root, after.ops[k].request.roleIds)
        ensures HeldOnce(root, s, events, after.ops[k].request.operator)
      {
        StepVouches(root, before, last, k);
        if Holds(before.db, root, after.ops[k].request.operator) {
          assert Holds(Run(s, front[..n]).db, root, after.ops[k].request.operator);
        }
        HeldLater(root, s, events, after.ops[k].request.operator, n);
      }
    }
  }

  /** A step gives the role to somebody only by writing a request that hands it out. */
  lemma StepGrants(root: string, s: System, e: Event, admin: string)
    requires NoNewHolder(root, e) && !Holds(s.db, root, admin) && Holds(Step(s, e).db, root, admin)
    ensures e.Advance? && e.op in s.ops && s.ops[e.op].request.Update? && s.ops[e.op].phase == Approved
            && HandsOut(root, s.ops[e.op].request.roleIds) && s.ops[e.op].request.target == admin
  {
    hide IsSuper, HasSuper, OtherRows;
  }

  /** Main result: however the requests of several operators interleave, whoever comes to hold the super_admin role was
      given it by a request of somebody who held it while that request was served. */
  lemma {:induction false} RoleComesFromHolder(root: string, s: System, events: seq<Event>, admin: string)
    requires HasRoot(s.db, root) && s.ops == map[] && forall e <- events :: RootStays(root, e) && NoNewHolder(root, e)
    requires !Holds(s.db, root, admin) && Holds(Run(s, events).db, root, admin)
    ensures exists n, key :: 0 <= n < |events| && key in Run(s, events[..n]).ops && Grants(root, s, events, n, key, admin)
  {
    var n := |events| - 1;
    var front, last := events[..n], events[n];
    assert last in events;
    if Holds(Run(s, front).db, root, admin) {
      RoleComesFromHolder(root, s, front, admin);
      var m, key :| 0 <= m < n && key in Run(s, front[..m]).ops && Grants(root, s, front, m, key, admin);
      assert front[..m] == events[..m];
      GrantsLonger(root, s, events, n, m, key, admin);
    } else {
      StepGrants(root, Run(s, front), last, admin);
      AllVouched(root, s, front);
      assert Grants(root, s, events, n, last.op, admin);
    }
  }

  /** At moment `n` an approved request that hands the role to `admin` is there, and its operator held the role. */
  ghost predicate Grants(root: string, s: System, events: seq<Event>, n: nat, key: nat, admin: string)
    requires n <= |events| && key in Run(s, events[..n]).ops
  {
    var op := Run(s, events[..n]).ops[key];
    op.request.Update? && op.request.target == admin && HandsOut(root, op.request.roleIds)
    && HeldOnce(root, s, events[..n], op.request.operator)
  }

  lemma GrantsLonger(root: string, s: System, events: seq<Event>, k: nat, n: nat, key: nat, admin: string)
    requires n <= k <= |events| && key in Run(s, events[..k][..n]).ops && Grants(root, s, events[..k], n, key, admin)
    ensures key in Run(s, events[..n]).ops && Grants(root, s, events, n, key, admin)
  {
    assert events[..k][..n] == events[..n];
  }

  // ----- the last super administrator, spelled out -----

  lemma SomebodyRemains(root: string, s: System, events: seq<Event>)
    requires Inv(root, s) && (forall e <- events :: Sane(root, e)) && Narrow(root, s, events)
    ensures exists a <- Run(s, events).db.admins ::
              Run(s, events).db.admins[a].status == "active" && root in Run(s, events).db.admins[a].roles
    ensures root in Run(s, events).db.roles && Run(s, events).db.roles[root] == Role("super_admin", true)
  {
    SuperAdminRemains(root, s, events);
    var db := Run(s, events).db;
    assert HasRoot(db, root);
    var a :| a in ActiveSupers(db);
    IsSuperIsRoot(db, root, a);
  }
}
