/**
 The guard that keeps an administration from losing its last super administrator. The check and the write are
 separate transactions, so each query of a request is a step of its own.
 */
module LastSuperAdmin {
  import opened Options
  import Sequences

  datatype Admin = Admin(status: string, roles: set<string>)
  datatype Role = Role(code: string, active: bool)
  datatype Db = Db(admins: map<string, Admin>, roles: map<string, Role>)

  /** `roleIds` is None when the request leaves the roles alone, which differs from an empty list. */
  datatype Request =
    | Update(operator: string, target: string, status: string, roleIds: Option<seq<string>>)
    | SetStatus(target: string, status: string)

  const SUPER := "super_admin"

  // ----- queries -----

  predicate SuperRole(db: Db, role: string) {
    role in db.roles && db.roles[role].code == SUPER && db.roles[role].active
  }

  predicate IsSuper(db: Db, admin: string) {
    admin in db.admins && exists r <- db.admins[admin].roles :: SuperRole(db, r)
  }

  function ActiveSupers(db: Db): set<string> {
    set a | a in db.admins && db.admins[a].status == "active" && IsSuper(db, a)
  }

  /** The rows of the join that the guard counts. */
  function OtherRows(db: Db, excluded: string): set<(string, string)> {
    set a, r | a in db.admins && a != excluded && db.admins[a].status == "active"
               && r in db.admins[a].roles && SuperRole(db, r) :: (a, r)
  }

  /** Unknown role ids are skipped. */
  predicate HasSuper(db: Db, ids: seq<string>) {
    exists r <- ids :: r in db.roles && db.roles[r].code == SUPER
  }

  /** Role codes are unique; the super_admin role exists and is enabled; links refer to existing roles. */
  ghost predicate HasRoot(db: Db, root: string) {
    && root in db.roles && db.roles[root] == Role(SUPER, true)
    && (forall r <- db.roles :: db.roles[r].code == SUPER ==> r == root)
    && (forall a <- db.admins :: db.admins[a].roles <= db.roles.Keys)
  }

  /** Then the guard counts exactly the other active super administrators. */
  lemma RowsAreAdmins(db: Db, root: string, excluded: string)
    requires HasRoot(db, root)
    ensures |OtherRows(db, excluded)| == |ActiveSupers(db) - {excluded}|
  {
    var others := ActiveSupers(db) - {excluded};
    assert OtherRows(db, excluded) == set a | a in others :: (a, root);
    PairsCount(others, root);
  }

  lemma {:induction false} PairsCount(s: set<string>, root: string)
    ensures |set a | a in s :: (a, root)| == |s|
  {
    if s != {} {
      var x :| x in s;
      PairsCount(s - {x}, root);
      assert (set a | a in s :: (a, root)) == (set a | a in s - {x} :: (a, root)) + {(x, root)};
    }
  }

  // ----- the write transactions -----

  datatype Written = Written(db: Db, ok: bool)

  /** An unknown administrator is updated in vain; an unknown role rolls everything back. */
  function WriteUpdate(db: Db, target: string, status: string, roleIds: Option<seq<string>>): Written {
    if roleIds.Some? && roleIds.value != [] && (target !in db.admins || exists r <- roleIds.value :: r !in db.roles)
    then Written(db, false)
    else if target !in db.admins then Written(db, true)
    else
      var before := db.admins[target];
      var after := Admin(if status == "" then before.status else status,
                         if roleIds.Some? then set r <- roleIds.value else before.roles);
      Written(db.(admins := db.admins[target := after]), true)
  }

  function WriteStatus(db: Db, target: string, status: string): Written {
    Written(if target in db.admins then db.(admins := db.admins[target := db.admins[target].(status := status)]) else db, true)
  }

  // ----- one request, query by query -----

  datatype Phase = AskOperator | AskTarget | AskOthers | Approved
  datatype Op = Op(request: Request, phase: Phase)
  datatype Outcome = Goes(op: Op) | Refused | Done(written: Written)

  function Start(request: Request): Op { Op(request, if request.Update? then AskOperator else AskTarget) }

  predicate MayAssign(db: Db, operator: string, roleIds: Option<seq<string>>) {
    roleIds.None? || roleIds.value == [] || IsSuper(db, operator) || !HasSuper(db, roleIds.value)
  }

  predicate WillLose(db: Db, request: Request) {
    request.status == "disabled" || (request.Update? && request.roleIds.Some? && !HasSuper(db, request.roleIds.value))
  }

  predicate Watched(request: Request) {
    request.status == "disabled" || (request.Update? && request.roleIds.Some?)
  }

  function Write(db: Db, request: Request): Written {
    match request
    case Update(_, target, status, roleIds) => WriteUpdate(db, target, status, roleIds)
    case SetStatus(target, status) => WriteStatus(db, target, status)
  }

  function Next(db: Db, op: Op): Outcome {
    var request := op.request;
    match op.phase
    case AskOperator =>
      if request.Update? && !MayAssign(db, request.operator, request.roleIds) then Refused
      else Goes(Op(request, AskTarget))
    case AskTarget =>
      if Watched(request) && IsSuper(db, request.target) && WillLose(db, request)
      then Goes(Op(request, AskOthers)) else Goes(Op(request, Approved))
    case AskOthers =>
      if |OtherRows(db, request.target)| <= 1 then Refused else Goes(Op(request, Approved))
    case Approved => Done(Write(db, request))
  }

  // ----- requests side by side -----

  datatype System = System(db: Db, ops: map<nat, Op>)

  datatype Event =
    | Begin(key: nat, request: Request)
    | Advance(op: nat)
    | Drop(gone: nat)
    | AdminCreated(admin: string, account: Admin)
    | RoleCreated(created: string, role: Role)
    | RoleEdited(edited: string, active: bool)
    | RoleDeleted(deleted: string)

  /** Deleting a role takes its links along. */
  function WithoutRole(db: Db, role: string): Db {
    Db(map a | a in db.admins :: db.admins[a].(roles := db.admins[a].roles - {role}), db.roles - {role})
  }

  function Step(s: System, e: Event): System {
    match e
    case Begin(key, request) => if key in s.ops then s else s.(ops := s.ops[key := Start(request)])
    case Advance(key) =>
      if key !in s.ops then s
      else (match Next(s.db, s.ops[key])
            case Goes(op) => s.(ops := s.ops[key := op])
            case Refused => s.(ops := s.ops - {key})
            case Done(w) => System(w.db, s.ops - {key}))
    case Drop(key) => s.(ops := s.ops - {key})
    case AdminCreated(id, account) =>
      if id in s.db.admins || !(account.roles <= s.db.roles.Keys) then s
      else s.(db := s.db.(admins := s.db.admins[id := account]))
    case RoleCreated(id, role) =>
      if id in s.db.roles || (exists r <- s.db.roles :: s.db.roles[r].code == role.code) then s
      else s.(db := s.db.(roles := s.db.roles[id := role]))
    case RoleEdited(id, active) =>
      if id !in s.db.roles then s else s.(db := s.db.(roles := s.db.roles[id := s.db.roles[id].(active := active)]))
    case RoleDeleted(id) =>
      if id !in s.db.roles || s.db.roles[id].code == SUPER then s else s.(db := WithoutRole(s.db, id))
  }

  function Run(s: System, events: seq<Event>): System {
    if events == [] then s else Step(Run(s, events[..|events| - 1]), events[|events| - 1])
  }

  /** Statuses are those the schema knows, and the super_admin role itself is left alone. */
  predicate Sane(root: string, e: Event) {
    && (e.Begin? ==> e.request.status in {"active", "disabled"} || (e.request.Update? && e.request.status == ""))
    && (e.RoleEdited? ==> e.edited != root)
  }

  predicate Demotes(root: string, request: Request) {
    request.status == "disabled" || (request.Update? && request.roleIds.Some? && root !in request.roleIds.value)
  }

  /** Approved demotions that are not written yet. */
  function Pending(root: string, s: System): set<nat> {
    set k | k in s.ops && s.ops[k].phase == Approved && Demotes(root, s.ops[k].request)
  }

  function Targets(root: string, s: System): set<string> {
    set k | k in Pending(root, s) :: s.ops[k].request.target
  }

  /** Some active super administrator is the target of no approved demotion. */
  ghost predicate Inv(root: string, s: System) {
    && HasRoot(s.db, root)
    && (forall k <- s.ops :: s.ops[k].request.status in {"", "active", "disabled"})
    && (forall k <- s.ops :: s.ops[k].request.status == "" ==> s.ops[k].request.Update?)
    && ActiveSupers(s.db) - Targets(root, s) != {}
  }

  lemma HasSuperIsRoot(db: Db, root: string, ids: seq<string>)
    requires HasRoot(db, root)
    ensures HasSuper(db, ids) <==> root in ids
  {
  }

  lemma IsSuperIsRoot(db: Db, root: string, admin: string)
    requires HasRoot(db, root)
    ensures IsSuper(db, admin) <==> admin in db.admins && root in db.admins[admin].roles
  {
  }

  /** A write touches its target only, and only a demotion takes the target out. */
  lemma WriteKeeps(db: Db, root: string, request: Request)
    requires HasRoot(db, root)
    requires request.status in {"", "active", "disabled"} && (request.status == "" ==> request.Update?)
    ensures HasRoot(Write(db, request).db, root)
    ensures forall a <- ActiveSupers(db) :: a != request.target || !Demotes(root, request) ==> a in ActiveSupers(Write(db, request).db)
  {
    var after := Write(db, request).db;
    assert after.roles == db.roles;
    forall a | a in ActiveSupers(db) && (a != request.target || !Demotes(root, request))
      ensures a in ActiveSupers(after)
    {
      IsSuperIsRoot(db, root, a);
      IsSuperIsRoot(after, root, a);
    }
  }

  /** The guard asks for two others: one may be the target of the other approved demotion. */
  lemma OneIsLeft(supers: set<string>, target: string, pending: set<nat>, key: nat, targetOf: map<nat, string>)
    requires |supers - {target}| >= 2
    requires key in pending && |pending| <= 2 && pending <= targetOf.Keys && targetOf[key] == target
    ensures supers - (set k <- pending :: targetOf[k]) != {}
  {
    var others := pending - {key};
    var x :| x in supers - {target};
    assert |supers - {target} - {x}| >= 1;
    var y :| y in supers - {target} - {x};
    if x in (set k <- pending :: targetOf[k]) && y in (set k <- pending :: targetOf[k]) {
      var i :| i in pending && targetOf[i] == x;
      var j :| j in pending && targetOf[j] == y;
      assert {key, i, j} <= pending && |{key, i, j}| == 3;
      Sequences.SubsetSize({key, i, j}, pending);
    }
  }

  /** Of these, the ones that can take an active super administrator out as things stand. */
  function Endangering(root: string, s: System): set<nat> {
    set k | k in Pending(root, s) && s.ops[k].request.target in ActiveSupers(s.db)
  }

  /** The step at which a request passes its last check. */
  predicate Approves(s: System, e: Event) {
    e.Advance? && e.op in s.ops && Next(s.db, s.ops[e.op]).Goes? && Next(s.db, s.ops[e.op]).op.phase == Approved
  }

  lemma ApprovalStep(s: System, key: nat)
    requires key in s.ops && Approves(s, Advance(key))
    ensures var after := Step(s, Advance(key));
            && after == s.(ops := s.ops[key := Op(s.ops[key].request, Approved)])
            && (s.ops[key].phase == AskOthers ==> |OtherRows(s.db, s.ops[key].request.target)| >= 2)
            && (s.ops[key].phase != AskOthers ==>
                  !(Watched(s.ops[key].request) && IsSuper(s.db, s.ops[key].request.target)
                    && WillLose(s.db, s.ops[key].request)))
  {
  }

  lemma SurvivesIfUntouched(root: string, s: System, after: System, survivor: string)
    requires HasRoot(after.db, root)
    requires survivor in ActiveSupers(s.db) - Targets(root, s) && survivor in ActiveSupers(after.db)
    requires forall k <- Pending(root, after) :: (k in s.ops && after.ops[k] == s.ops[k])
                                                 || after.ops[k].request.target != survivor
    requires forall k <- after.ops :: after.ops[k].request.status in {"", "active", "disabled"}
    requires forall k <- after.ops :: after.ops[k].request.status == "" ==> after.ops[k].request.Update?
    ensures Inv(root, after)
  {
    assert survivor !in Targets(root, after) by {
      forall k | k in Pending(root, after) ensures after.ops[k].request.target != survivor {
        if k in s.ops && after.ops[k] == s.ops[k] {
          assert k in Pending(root, s);
          assert s.ops[k].request.target in Targets(root, s);
        }
      }
    }
    assert survivor in ActiveSupers(after.db) - Targets(root, after);
  }

  /** A checked approval: the target is an active super administrator, and the guard counted two others. */
  lemma GuardedApproval(root: string, s: System, key: nat)
    requires Inv(root, s) && key in s.ops && Approves(s, Advance(key)) && s.ops[key].phase == AskOthers
    requires Demotes(root, s.ops[key].request) && s.ops[key].request.target in ActiveSupers(s.db)
    requires |Endangering(root, Step(s, Advance(key)))| <= 2
    ensures Inv(root, Step(s, Advance(key)))
  {
    hide Next, IsSuper, Demotes, Step;
    ApprovalStep(s, key);
    RowsAreAdmins(s.db, root, s.ops[key].request.target);
    var after := Step(s, Advance(key));
    var targetOf := map k | k in after.ops :: after.ops[k].request.target;
    assert key in Endangering(root, after);
    OneIsLeft(ActiveSupers(s.db), s.ops[key].request.target, Endangering(root, after), key, targetOf);
    var survivor :| survivor in ActiveSupers(s.db) - (set k <- Endangering(root, after) :: targetOf[k]);
    assert survivor !in Targets(root, after) by {
      forall k | k in Pending(root, after) ensures after.ops[k].request.target != survivor {
        assert after.ops[k].request.target in ActiveSupers(after.db) ==> k in Endangering(root, after);
      }
    }
  }

  /** Any other approval: the request demotes nobody, or nobody who is an active super administrator now. */
  lemma HarmlessApproval(root: string, s: System, key: nat)
    requires Inv(root, s) && key in s.ops && Approves(s, Advance(key))
    requires !Demotes(root, s.ops[key].request) || s.ops[key].request.target !in ActiveSupers(s.db)
    ensures Inv(root, Step(s, Advance(key)))
  {
    hide Next, IsSuper, Step;
    ApprovalStep(s, key);
    var after := Step(s, Advance(key));
    var survivor :| survivor in ActiveSupers(s.db) - Targets(root, s);
    SurvivesIfUntouched(root, s, after, survivor);
  }

  /** An unchecked request that demotes does not target a super administrator. */
  lemma UncheckedIsHarmless(root: string, s: System, key: nat)
    requires HasRoot(s.db, root) && key in s.ops && Approves(s, Advance(key)) && s.ops[key].phase != AskOthers
    ensures !Demotes(root, s.ops[key].request) || s.ops[key].request.target !in ActiveSupers(s.db)
  {
    var request := s.ops[key].request;
    ApprovalStep(s, key);
    if request.Update? && request.roleIds.Some? { HasSuperIsRoot(s.db, root, request.roleIds.value); }
    hide Next, IsSuper, HasSuper;
  }

  lemma ApprovalKeeps(root: string, s: System, key: nat)
    requires Inv(root, s) && key in s.ops && Approves(s, Advance(key))
    requires |Endangering(root, Step(s, Advance(key)))| <= 2
    ensures Inv(root, Step(s, Advance(key)))
  {
    hide Step, Approves, Demotes, ActiveSupers;
    if Demotes(root, s.ops[key].request) && s.ops[key].request.target in ActiveSupers(s.db) {
      if s.ops[key].phase != AskOthers { UncheckedIsHarmless(root, s, key); }
      GuardedApproval(root, s, key);
    } else {
      HarmlessApproval(root, s, key);
    }
  }

  /** A write takes out its target at most, and that is a target no longer once it is written. */
  lemma WrittenKeeps(root: string, s: System, key: nat)
    requires Inv(root, s) && key in s.ops && s.ops[key].phase == Approved
    ensures Inv(root, Step(s, Advance(key)))
  {
    var after := Step(s, Advance(key));
    var request := s.ops[key].request;
    assert after == System(Write(s.db, request).db, s.ops - {key});
    WriteKeeps(s.db, root, request);
    var survivor :| survivor in ActiveSupers(s.db) - Targets(root, s);
    if Demotes(root, request) { assert key in Pending(root, s); }
    hide Step, Write, IsSuper, Demotes;
    SurvivesIfUntouched(root, s, after, survivor);
  }

  /** A step that neither approves nor writes. */
  lemma QuietStepKeeps(root: string, s: System, key: nat)
    requires Inv(root, s) && !Approves(s, Advance(key)) && (key in s.ops ==> s.ops[key].phase != Approved)
    ensures Inv(root, Step(s, Advance(key)))
  {
    var after := Step(s, Advance(key));
    assert after.db == s.db;
    assert forall k <- Pending(root, after) :: k in s.ops && after.ops[k] == s.ops[k];
    var survivor :| survivor in ActiveSupers(s.db) - Targets(root, s);
    hide Step, IsSuper, Demotes, Next;
    SurvivesIfUntouched(root, s, after, survivor);
  }

  lemma AdvanceKeeps(root: string, s: System, key: nat)
    requires Inv(root, s)
    requires Approves(s, Advance(key)) ==> |Endangering(root, Step(s, Advance(key)))| <= 2
    ensures Inv(root, Step(s, Advance(key)))
  {
    if Approves(s, Advance(key)) {
      ApprovalKeeps(root, s, key);
    } else if key in s.ops && s.ops[key].phase == Approved {
      WrittenKeeps(root, s, key);
    } else {
      QuietStepKeeps(root, s, key);
    }
  }

  /** Events that are no request leave the roles and states of existing accounts alone. */
  lemma OtherKeepsRoot(root: string, s: System, e: Event)
    requires HasRoot(s.db, root) && !e.Advance? && Sane(root, e)
    ensures HasRoot(Step(s, e).db, root)
    ensures forall a <- ActiveSupers(s.db) :: a in ActiveSupers(Step(s, e).db)
  {
    var after := Step(s, e);
    assert HasRoot(after.db, root);
    forall a | a in ActiveSupers(s.db) ensures a in ActiveSupers(after.db) {
      IsSuperIsRoot(s.db, root, a);
      IsSuperIsRoot(after.db, root, a);
    }
  }

  lemma OtherKeeps(root: string, s: System, e: Event)
    requires Inv(root, s) && !e.Advance? && Sane(root, e)
    ensures Inv(root, Step(s, e))
  {
    var after := Step(s, e);
    OtherKeepsRoot(root, s, e);
    assert forall k <- Pending(root, after) :: k in s.ops && after.ops[k] == s.ops[k];
    assert forall k <- after.ops ::
        (k in s.ops && after.ops[k] == s.ops[k]) || (e.Begin? && after.ops[k] == Start(e.request));
    var survivor :| survivor in ActiveSupers(s.db) - Targets(root, s);
    hide Step, IsSuper, Demotes;
    SurvivesIfUntouched(root, s, after, survivor);
  }

  /** Whenever a request is approved, at most two approved and unwritten demotions target active super
      administrators. Demotions of ordinary accounts do not matter. */
  ghost predicate Narrow(root: string, s: System, events: seq<Event>) {
    forall n :: 0 <= n < |events| && Approves(Run(s, events[..n]), events[n]) ==>
                  |Endangering(root, Run(s, events[..n + 1]))| <= 2
  }

  lemma NarrowPrefix(root: string, s: System, events: seq<Event>, n: nat)
    requires n <= |events| && Narrow(root, s, events)
    ensures Narrow(root, s, events[..n])
  {
    forall k | 0 <= k < n && Approves(Run(s, events[..n][..k]), events[..n][k])
      ensures |Endangering(root, Run(s, events[..n][..k + 1]))| <= 2
    {
      assert events[..n][..k] == events[..k] && events[..n][..k + 1] == events[..k + 1];
    }
  }

  /** Main result: whatever the interleaving, an active super administrator remains. */
  lemma {:induction false} SuperAdminRemains(root: string, s: System, events: seq<Event>)
    requires Inv(root, s)
    requires forall e <- events :: Sane(root, e)
    requires Narrow(root, s, events)
    ensures Inv(root, Run(s, events)) && ActiveSupers(Run(s, events).db) != {}
  {
    if events != [] {
      var n := |events| - 1;
      var front, last := events[..n], events[n];
      assert last in events;
      NarrowPrefix(root, s, events, n);
      SuperAdminRemains(root, s, front);
      assert events[..n + 1] == events;
      hide Inv, Step, Endangering, ActiveSupers;
      if last.Advance? { AdvanceKeeps(root, Run(s, front), last.op); }
      else { OtherKeeps(root, Run(s, front), last); }
    }
    assert Inv(root, Run(s, events));
  }

  /** A system without requests in flight satisfies the invariant as soon as somebody is a super administrator. */
  lemma QuietStart(root: string, db: Db)
    requires HasRoot(db, root) && ActiveSupers(db) != {}
    ensures Inv(root, System(db, map[]))
  {
    assert Targets(root, System(db, map[])) == {};
  }

  // ----- three at once -----

  /** Three active super administrators, one of them disabled already in `gone`. */
  function Three(a: string, b: string, c: string, root: string, gone: set<string>): Db {
    Db(map x | x in {a, b, c} :: Admin(if x in gone then "disabled" else "active", {root}), map[root := Role(SUPER, true)])
  }

  /** Three demotions, the first two at one phase and the third at another. */
  function Disabling(a: string, b: string, c: string, phase: Phase, third: Phase): map<nat, Op> {
    map[0 := Op(SetStatus(a, "disabled"), phase), 1 := Op(SetStatus(b, "disabled"), phase),
        2 := Op(SetStatus(c, "disabled"), third)]
  }

  const EACH: seq<Event> := [Advance(0), Advance(1), Advance(2)]

  lemma RunThree(s: System, e: Event, f: Event, g: Event)
    ensures Run(s, [e, f, g]) == Step(Step(Step(s, e), f), g)
  {
    assert [e, f, g][..2] == [e, f] && [e, f][..1] == [e] && [e][..0] == [];
    assert Run(s, [e]) == Step(s, e);
    assert Run(s, [e, f]) == Step(Step(s, e), f);
  }

  lemma RunConcat(s: System, first: seq<Event>, second: seq<Event>)
    ensures Run(s, first + second) == Run(Run(s, first), second)
  {
    if second == [] {
      assert first + second == first;
    } else {
      var n := |second| - 1;
      RunConcat(s, first, second[..n]);
      assert (first + second)[..|first| + n] == first + second[..n];
    }
  }

  lemma TwoOthers(a: string, b: string, c: string, target: string)
    requires a != b && b != c && a != c && target in {a, b, c}
    ensures |{a, b, c} - {target}| == 2
  {
    assert {a, b, c} - {a} == {b, c} && {a, b, c} - {b} == {a, c} && {a, b, c} - {c} == {a, b};
  }

  lemma ThreeAreSuper(a: string, b: string, c: string, root: string)
    ensures HasRoot(Three(a, b, c, root, {}), root)
    ensures ActiveSupers(Three(a, b, c, root, {})) == {a, b, c}
  {
    var db := Three(a, b, c, root, {});
    forall x | x in {a, b, c} ensures IsSuper(db, x) { assert root in db.admins[x].roles && SuperRole(db, root); }
    assert forall x :: x in ActiveSupers(db) <==> x in {a, b, c};
  }

  lemma ThreeAreCounted(a: string, b: string, c: string, root: string, target: string)
    requires a != b && b != c && a != c && target in {a, b, c}
    ensures var db := Three(a, b, c, root, {});
            IsSuper(db, target) && |OtherRows(db, target)| == 2
  {
    hide Three, OtherRows;
    var db := Three(a, b, c, root, {});
    ThreeAreSuper(a, b, c, root);
    RowsAreAdmins(db, root, target);
    TwoOthers(a, b, c, target);
    assert target in ActiveSupers(db);
  }

  lemma EachChecks(a: string, b: string, c: string, root: string, phase: Phase, next: Phase)
    requires a != b && b != c && a != c
    requires (phase, next) in {(AskTarget, AskOthers), (AskOthers, Approved)}
    ensures var db := Three(a, b, c, root, {});
            Run(System(db, Disabling(a, b, c, phase, phase)), EACH) == System(db, Disabling(a, b, c, next, next))
  {
    var db := Three(a, b, c, root, {});
    ThreeAreCounted(a, b, c, root, a);
    ThreeAreCounted(a, b, c, root, b);
    ThreeAreCounted(a, b, c, root, c);
    RunThree(System(db, Disabling(a, b, c, phase, phase)), Advance(0), Advance(1), Advance(2));
  }

  lemma DisableOne(a: string, b: string, c: string, root: string, gone: set<string>, x: string)
    requires x in {a, b, c}
    ensures WriteStatus(Three(a, b, c, root, gone), x, "disabled").db == Three(a, b, c, root, gone + {x})
  {
  }

  lemma EachWrites(a: string, b: string, c: string, root: string)
    requires a != b && b != c && a != c
    ensures Run(System(Three(a, b, c, root, {}), Disabling(a, b, c, Approved, Approved)), EACH) ==
            System(Three(a, b, c, root, {a, b, c}), map[])
  {
    hide Three, WriteStatus;
    var s0 := System(Three(a, b, c, root, {}), Disabling(a, b, c, Approved, Approved));
    RunThree(s0, Advance(0), Advance(1), Advance(2));
    DisableOne(a, b, c, root, {}, a);
    DisableOne(a, b, c, root, {} + {a}, b);
    DisableOne(a, b, c, root, {} + {a} + {b}, c);
    assert {} + {a} + {b} + {c} == {a, b, c};
  }

  /** With three demotions side by side the guard is beaten: each sees two others, then all are written. */
  lemma ThreeDemotionsEmptyTheSystem(a: string, b: string, c: string, root: string)
    requires a != b && b != c && a != c
    ensures var s := System(Three(a, b, c, root, {}), map[]);
            var begins := [Begin(0, SetStatus(a, "disabled")), Begin(1, SetStatus(b, "disabled")), Begin(2, SetStatus(c, "disabled"))];
            && ActiveSupers(s.db) == {a, b, c}
            && ActiveSupers(Run(s, begins + EACH + EACH + EACH).db) == {}
  {
    var db := Three(a, b, c, root, {});
    var s := System(db, map[]);
    var e, f, g := Begin(0, SetStatus(a, "disabled")), Begin(1, SetStatus(b, "disabled")), Begin(2, SetStatus(c, "disabled"));
    RunThree(s, e, f, g);
    assert Run(s, [e, f, g]) == System(db, Disabling(a, b, c, AskTarget, AskTarget));
    EachChecks(a, b, c, root, AskTarget, AskOthers);
    EachChecks(a, b, c, root, AskOthers, Approved);
    EachWrites(a, b, c, root);
    RunConcat(s, [e, f, g], EACH);
    RunConcat(s, [e, f, g] + EACH, EACH);
    RunConcat(s, [e, f, g] + EACH + EACH, EACH);
    ThreeAreSuper(a, b, c, root);
  }

  // ----- two guarded demotions and one that was never checked -----

  /** Two super administrators and an ordinary account `c`. */
  function TwoAndOne(a: string, b: string, c: string, root: string): Db {
    Db(map[a := Admin("active", {root}), b := Admin("active", {root}), c := Admin("active", {})],
       map[root := Role(SUPER, true)])
  }

  function Promotion(a: string, c: string, root: string): Request { Update(a, c, "", Some([root])) }

  lemma RunTwo(s: System, e: Event, f: Event)
    ensures Run(s, [e, f]) == Step(Step(s, e), f)
  {
    assert [e, f][..1] == [e] && [e][..0] == [];
    assert Run(s, [e]) == Step(s, e);
  }

  lemma TwoAndOneFacts(a: string, b: string, c: string, root: string)
    requires a != b && b != c && a != c
    ensures var db := TwoAndOne(a, b, c, root);
            HasRoot(db, root) && ActiveSupers(db) == {a, b} && IsSuper(db, a) && !IsSuper(db, c)
  {
    var db := TwoAndOne(a, b, c, root);
    forall x | x in {a, b, c} ensures IsSuper(db, x) <==> x != c { IsSuperIsRoot(db, root, x); }
    assert forall x :: x in ActiveSupers(db) <==> x in {a, b};
  }

  lemma PromotionWrites(a: string, b: string, c: string, root: string)
    requires a != b && b != c && a != c
    ensures WriteUpdate(TwoAndOne(a, b, c, root), c, "", Some([root])) == Written(Three(a, b, c, root, {}), true)
  {
    var db := TwoAndOne(a, b, c, root);
    assert (set r <- [root]) == {root} by { assert root in [root]; }
    assert db.admins[c := Admin("active", {root})] == Three(a, b, c, root, {}).admins;
  }

  /** The demotion of an ordinary account is approved unchecked, */
  lemma StaleApproval(a: string, b: string, c: string, root: string)
    requires a != b && b != c && a != c
    ensures var s := System(TwoAndOne(a, b, c, root), map[]);
            Run(s, [Begin(2, SetStatus(c, "disabled")), Advance(2)]) ==
            System(s.db, map[2 := Op(SetStatus(c, "disabled"), Approved)])
  {
    TwoAndOneFacts(a, b, c, root);
    RunTwo(System(TwoAndOne(a, b, c, root), map[]), Begin(2, SetStatus(c, "disabled")), Advance(2));
  }

  lemma PromotionEnds(a: string, b: string, c: string, root: string, ops: map<nat, Op>)
    requires a != b && b != c && a != c && 3 !in ops
    ensures Run(System(TwoAndOne(a, b, c, root), ops[3 := Op(Promotion(a, c, root), AskTarget)]), [Advance(3), Advance(3)])
            == System(Three(a, b, c, root, {}), ops)
  {
    var s1 := System(TwoAndOne(a, b, c, root), ops[3 := Op(Promotion(a, c, root), AskTarget)]);
    TwoAndOneFacts(a, b, c, root);
    PromotionWrites(a, b, c, root);
    RunTwo(s1, Advance(3), Advance(3));
    hide TwoAndOne, Three, IsSuper, WriteUpdate, Run;
    assert Step(s1, Advance(3)) == System(TwoAndOne(a, b, c, root), ops[3 := Op(Promotion(a, c, root), Approved)]);
    assert ops[3 := Op(Promotion(a, c, root), Approved)] - {3} == ops;
  }

  /** then the account is promoted, */
  lemma Promoted(a: string, b: string, c: string, root: string)
    requires a != b && b != c && a != c
    ensures var ops := map[2 := Op(SetStatus(c, "disabled"), Approved)];
            Run(System(TwoAndOne(a, b, c, root), ops), [Begin(3, Promotion(a, c, root)), Advance(3)] + [Advance(3), Advance(3)])
            == System(Three(a, b, c, root, {}), ops)
  {
    var ops := map[2 := Op(SetStatus(c, "disabled"), Approved)];
    var db := TwoAndOne(a, b, c, root);
    var s := System(db, ops);
    TwoAndOneFacts(a, b, c, root);
    hide TwoAndOne, Three, IsSuper, WriteUpdate, Run;
    RunConcat(s, [Begin(3, Promotion(a, c, root)), Advance(3)], [Advance(3), Advance(3)]);
    RunTwo(s, Begin(3, Promotion(a, c, root)), Advance(3));
    var s1 := Run(s, [Begin(3, Promotion(a, c, root)), Advance(3)]);
    assert s1 == System(db, ops[3 := Op(Promotion(a, c, root), AskTarget)]);
    PromotionEnds(a, b, c, root, ops);
  }

  lemma PairChecks(a: string, b: string, c: string, root: string, phase: Phase, next: Phase)
    requires a != b && b != c && a != c
    requires (phase, next) in {(AskTarget, AskOthers), (AskOthers, Approved)}
    ensures var db := Three(a, b, c, root, {});
            Run(System(db, Disabling(a, b, c, phase, Approved)), [Advance(0), Advance(1)]) ==
            System(db, Disabling(a, b, c, next, Approved))
  {
    var db := Three(a, b, c, root, {});
    ThreeAreCounted(a, b, c, root, a);
    ThreeAreCounted(a, b, c, root, b);
    RunTwo(System(db, Disabling(a, b, c, phase, Approved)), Advance(0), Advance(1));
  }

  /** and two guarded demotions pass: the guard counts the promoted account, whose own demotion is still waiting.
      So it is not enough that at most two guarded demotions are in flight. */
  lemma StaleDemotionBeatsTheGuard(a: string, b: string, c: string, root: string)
    requires a != b && b != c && a != c
    ensures var s := System(TwoAndOne(a, b, c, root), map[]);
            var stale := [Begin(2, SetStatus(c, "disabled")), Advance(2)];
            var promoted := [Begin(3, Promotion(a, c, root)), Advance(3)] + [Advance(3), Advance(3)];
            var guarded := [Begin(0, SetStatus(a, "disabled")), Begin(1, SetStatus(b, "disabled"))];
            var checks := [Advance(0), Advance(1)];
            && ActiveSupers(s.db) == {a, b}
            && ActiveSupers(Run(s, stale + promoted + guarded + checks + checks + EACH).db) == {}
  {
    var s := System(TwoAndOne(a, b, c, root), map[]);
    var stale := [Begin(2, SetStatus(c, "disabled")), Advance(2)];
    var promoted := [Begin(3, Promotion(a, c, root)), Advance(3)] + [Advance(3), Advance(3)];
    var guarded := [Begin(0, SetStatus(a, "disabled")), Begin(1, SetStatus(b, "disabled"))];
    var checks := [Advance(0), Advance(1)];
    TwoAndOneFacts(a, b, c, root);
    StaleApproval(a, b, c, root);
    Promoted(a, b, c, root);
    var s2 := System(Three(a, b, c, root, {}), map[2 := Op(SetStatus(c, "disabled"), Approved)]);
    RunTwo(s2, guarded[0], guarded[1]);
    assert Run(s2, guarded) == System(s2.db, Disabling(a, b, c, AskTarget, Approved));
    PairChecks(a, b, c, root, AskTarget, AskOthers);
    PairChecks(a, b, c, root, AskOthers, Approved);
    EachWrites(a, b, c, root);
    hide Run, Three, TwoAndOne, Disabling;
    RunConcat(s, stale, promoted);
    RunConcat(s, stale + promoted, guarded);
    RunConcat(s, stale + promoted + guarded, checks);
    RunConcat(s, stale + promoted + guarded + checks, checks);
    RunConcat(s, stale + promoted + guarded + checks + checks, EACH);
    ThreeAreGone(a, b, c, root);
  }

  lemma ThreeAreGone(a: string, b: string, c: string, root: string)
    ensures ActiveSupers(Three(a, b, c, root, {a, b, c})) == {}
  {
  }

  // ----- one at a time -----

  function Rank(p: Phase): nat {
    match p case AskOperator => 3 case AskTarget => 2 case AskOthers => 1 case Approved => 0
  }

  /** A request served from beginning to end without interference. */
  function Finish(db: Db, op: Op): Written
    decreases Rank(op.phase)
  {
    match Next(db, op)
    case Goes(next) => Finish(db, next)
    case Refused => Written(db, false)
    case Done(w) => w
  }

  function Serve(db: Db, request: Request): Written { Finish(db, Start(request)) }

  /** A refusal leaves everything as it is. */
  lemma RefusalChangesNothing(db: Db, op: Op)
    ensures !Finish(db, op).ok ==> Finish(db, op).db == db
    decreases Rank(op.phase)
  {
    match Next(db, op)
    case Goes(next) => RefusalChangesNothing(db, next);
    case Refused =>
    case Done(_) =>
  }

  /** What a single request does, in one piece. */
  lemma ServeOutcome(db: Db, root: string, request: Request)
    requires HasRoot(db, root)
    ensures var assigns := request.Update? ==> MayAssign(db, request.operator, request.roleIds);
            var guarded := Watched(request) && IsSuper(db, request.target) && WillLose(db, request);
            Serve(db, request) ==
            if !assigns || (guarded && |ActiveSupers(db) - {request.target}| <= 1) then Written(db, false)
            else Write(db, request)
  {
    RowsAreAdmins(db, root, request.target);
    var asks := Op(request, AskTarget);
    assert Finish(db, Op(request, Approved)) == Write(db, request);
    assert Finish(db, Op(request, AskOthers)) ==
           if |OtherRows(db, request.target)| <= 1 then Written(db, false) else Finish(db, Op(request, Approved));
    assert Finish(db, asks) ==
           if Watched(request) && IsSuper(db, request.target) && WillLose(db, request)
           then Finish(db, Op(request, AskOthers)) else Finish(db, Op(request, Approved));
  }

  /** Served alone, a demotion of an active super administrator that is accepted leaves at least two. */
  lemma SerialDemotionLeavesTwo(db: Db, root: string, request: Request)
    requires HasRoot(db, root)
    requires request.status in {"active", "disabled"} || (request.Update? && request.status == "")
    requires request.target in ActiveSupers(db) && request.target !in ActiveSupers(Serve(db, request).db)
    ensures |ActiveSupers(Serve(db, request).db)| >= 2
  {
    ServeOutcome(db, root, request);
    WriteKeeps(db, root, request);
    if request.Update? && request.roleIds.Some? { HasSuperIsRoot(db, root, request.roleIds.value); }
    assert Serve(db, request) == Write(db, request);
    Sequences.SubsetSize(ActiveSupers(db) - {request.target}, ActiveSupers(Write(db, request).db));
  }

  /** A status the guard does not know, with the super_admin role kept or not mentioned. */
  predicate Slips(db: Db, root: string, request: Request) {
    && request.Update?
    && request.status !in {"", "active", "disabled"}
    && (request.roleIds.Some? ==> root in request.roleIds.value && IsSuper(db, request.operator)
                                  && forall r <- request.roleIds.value :: r in db.roles)
  }

  /** Main result for one request at a time: the last active super administrator is lost exactly when the request
      names that administrator and slips past the guard. */
  lemma SerialLossExactly(db: Db, root: string, request: Request)
    requires HasRoot(db, root) && ActiveSupers(db) != {}
    requires request.SetStatus? ==> request.status in {"active", "disabled"}
    ensures ActiveSupers(Serve(db, request).db) == {} <==> ActiveSupers(db) == {request.target} && Slips(db, root, request)
  {
    ServeOutcome(db, root, request);
    if request.Update? && request.roleIds.Some? { HasSuperIsRoot(db, root, request.roleIds.value); }
    OthersStay(db, root, request);
    var after := Serve(db, request).db;
    if ActiveSupers(db) == {request.target} {
      assert ActiveSupers(db) - {request.target} == {};
      assert IsSuper(db, request.target);
      TargetAfter(db, root, request);
      assert ActiveSupers(after) <= {request.target} by { OnlyTarget(db, root, request); }
    } else {
      var other :| other in ActiveSupers(db) && other != request.target;
      assert other in ActiveSupers(after);
    }
  }

  lemma OthersStay(db: Db, root: string, request: Request)
    requires HasRoot(db, root)
    ensures forall a <- ActiveSupers(db) :: a != request.target ==> a in ActiveSupers(Serve(db, request).db)
  {
    ServeOutcome(db, root, request);
    assert Write(db, request).db.roles == db.roles;
  }

  lemma OnlyTarget(db: Db, root: string, request: Request)
    requires HasRoot(db, root)
    ensures forall a <- ActiveSupers(Serve(db, request).db) :: a == request.target || a in ActiveSupers(db)
  {
    ServeOutcome(db, root, request);
    assert Write(db, request).db.roles == db.roles;
  }

  lemma TargetAfter(db: Db, root: string, request: Request)
    requires HasRoot(db, root) && ActiveSupers(db) == {request.target}
    requires request.SetStatus? ==> request.status in {"active", "disabled"}
    ensures request.target in ActiveSupers(Serve(db, request).db) <==> !Slips(db, root, request)
  {
    ServeOutcome(db, root, request);
    var after := Serve(db, request).db;
    var target := request.target;
    assert target in ActiveSupers(db);
    assert ActiveSupers(db) - {target} == {};
    if request.Update? && request.roleIds.Some? { HasSuperIsRoot(db, root, request.roleIds.value); }
    IsSuperIsRoot(db, root, target);
    assert after.roles == db.roles;
    assert IsSuper(after, target) <==> target in after.admins && root in after.admins[target].roles;
  }
}
