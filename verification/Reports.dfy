/**
 The life of a report under concurrent handling: each transition reads status and version in one step and writes
 them under a version check in another, and a resolution may end in a ban of the reported user.
 */
module Reports {
  import Sequences

  datatype Status = Pending | Processing | Resolved | Rejected | Reopened
  datatype Verb = Start | Resolve | Reject | Reopen

  /** A row of the audit table; only transitions carry statuses. */
  datatype Action = Assigned(assignedTo: string) | Moved(verb: Verb, before: Status, after: Status)

  datatype Report = Report(targetType: string, targetId: string, status: Status, version: nat, assignee: string,
                           actions: seq<Action>)

  const BAN_THRESHOLD: nat := 3

  function Goal(verb: Verb): Status {
    match verb case Start => Processing case Resolve => Resolved case Reject => Rejected case Reopen => Reopened
  }

  predicate ValidTransition(before: Status, goal: Status) {
    match goal
    case Processing => before in {Pending, Reopened}
    case Resolved => before in {Pending, Processing, Reopened}
    case Rejected => before in {Pending, Processing, Reopened}
    case Reopened => before == Rejected
    case Pending => false
  }

  function Filed(targetType: string, targetId: string): Report {
    Report(targetType, targetId, Pending, 1, "", [])
  }

  /** The write half, for a caller that read `before` at `version`. */
  function Commit(r: Report, verb: Verb, before: Status): Report {
    r.(status := Goal(verb), version := r.version + 1, actions := r.actions + [Moved(verb, before, Goal(verb))])
  }

  function Assign(r: Report, worker: string): Report {
    r.(assignee := worker, actions := r.actions + [Assigned(worker)])
  }

  // ----- the audit trail -----

  function Moves(actions: seq<Action>): seq<Action> {
    if actions == [] then []
    else Moves(actions[..|actions| - 1]) + (if actions[|actions| - 1].Moved? then [actions[|actions| - 1]] else [])
  }

  /** A path of legal transitions from `Pending` to `status`. */
  ghost predicate Path(moves: seq<Action>, status: Status) {
    if moves == [] then status == Pending
    else
      var last := moves[|moves| - 1];
      && last.Moved? && last.after == status && last.after == Goal(last.verb)
      && ValidTransition(last.before, last.after)
      && Path(moves[..|moves| - 1], last.before)
  }

  /** The trail tells the whole story: where the report is, and how many transitions it took. */
  ghost predicate Audited(r: Report) {
    && Path(Moves(r.actions), r.status)
    && r.version == 1 + |Moves(r.actions)|
  }

  lemma FiledIsAudited(targetType: string, targetId: string)
    ensures Audited(Filed(targetType, targetId))
  {
  }

  lemma MovesAppend(actions: seq<Action>, a: Action)
    ensures Moves(actions + [a]) == Moves(actions) + if a.Moved? then [a] else []
  {
    assert (actions + [a])[..|actions|] == actions;
  }

  lemma CommitIsAudited(r: Report, verb: Verb)
    requires Audited(r) && ValidTransition(r.status, Goal(verb))
    ensures Audited(Commit(r, verb, r.status))
    ensures Moves(Commit(r, verb, r.status).actions) == Moves(r.actions) + [Moved(verb, r.status, Goal(verb))]
  {
    var a := Moved(verb, r.status, Goal(verb));
    MovesAppend(r.actions, a);
    assert (Moves(r.actions) + [a])[..|Moves(r.actions)|] == Moves(r.actions);
  }

  lemma AssignIsAudited(r: Report, worker: string)
    requires Audited(r)
    ensures Audited(Assign(r, worker)) && Moves(Assign(r, worker).actions) == Moves(r.actions)
  {
    MovesAppend(r.actions, Assigned(worker));
  }

  // ----- calls side by side -----

  datatype Phase = Begun | Read(before: Status, version: nat) | Committed | Counting(user: string)
  datatype Call = Call(report: string, verb: Verb, phase: Phase)

  /** `bans` are the ban requests sent, with the count that triggered each. */
  datatype Ban = Ban(banned: string, count: nat)
  datatype World = World(reports: map<string, Report>, calls: map<nat, Call>, bans: seq<Ban>)

  datatype Event =
    | File(filed: string, targetType: string, targetId: string)
    | AssignTo(given: string, worker: string)
    | Begin(key: nat, report: string, verb: Verb)
    | Advance(call: nat)
    | Fail(failed: nat)

  /** The resolved reports on a user. */
  function ResolvedIn(reports: map<string, Report>, user: string): set<string> {
    set id | id in reports && reports[id].targetType == "user" && reports[id].targetId == user && reports[id].status == Resolved
  }

  function ResolvedOn(w: World, user: string): set<string> { ResolvedIn(w.reports, user) }

  function Ended(w: World, key: nat): World { w.(calls := w.calls - {key}) }

  /** Lock, read and check. */
  function ReadStep(w: World, key: nat): World
    requires key in w.calls
  {
    var c := w.calls[key];
    if c.report !in w.reports || !ValidTransition(w.reports[c.report].status, Goal(c.verb)) then Ended(w, key)
    else w.(calls := w.calls[key := c.(phase := Read(w.reports[c.report].status, w.reports[c.report].version))])
  }

  predicate Accepts(w: World, key: nat) {
    key in w.calls && w.calls[key].phase.Read? && w.calls[key].report in w.reports
    && w.reports[w.calls[key].report].version == w.calls[key].phase.version
  }

  function CommitStep(w: World, key: nat): World
    requires key in w.calls && w.calls[key].phase.Read?
  {
    var c := w.calls[key];
    if !Accepts(w, key) then Ended(w, key)
    else World(w.reports[c.report := Commit(w.reports[c.report], c.verb, c.phase.before)],
               if c.verb == Resolve then w.calls[key := c.(phase := Committed)] else w.calls - {key}, w.bans)
  }

  /** After a resolution: look the report up again, then count. */
  function LookStep(w: World, key: nat): World
    requires key in w.calls
  {
    var c := w.calls[key];
    if c.report !in w.reports || w.reports[c.report].targetType != "user" then Ended(w, key)
    else w.(calls := w.calls[key := c.(phase := Counting(w.reports[c.report].targetId))])
  }

  function CountStep(w: World, key: nat): World
    requires key in w.calls && w.calls[key].phase.Counting?
  {
    var user := w.calls[key].phase.user;
    var n := |ResolvedOn(w, user)|;
    if n >= BAN_THRESHOLD then Ended(w, key).(bans := w.bans + [Ban(user, n)]) else Ended(w, key)
  }

  function Step(w: World, e: Event): World {
    match e
    case File(id, targetType, targetId) =>
      if id in w.reports then w else w.(reports := w.reports[id := Filed(targetType, targetId)])
    case AssignTo(id, worker) =>
      if id !in w.reports then w else w.(reports := w.reports[id := Assign(w.reports[id], worker)])
    case Begin(key, report, verb) =>
      if key in w.calls then w else w.(calls := w.calls[key := Call(report, verb, Begun)])
    case Advance(key) =>
      if key !in w.calls then w
      else (match w.calls[key].phase
            case Begun => ReadStep(w, key)
            case Read(_, _) => CommitStep(w, key)
            case Committed => LookStep(w, key)
            case Counting(_) => CountStep(w, key))
    case Fail(key) => Ended(w, key)
  }

  function Run(w: World, events: seq<Event>): World {
    if events == [] then w else Step(Run(w, events[..|events| - 1]), events[|events| - 1])
  }

  // ----- the invariant -----

  /** A call holds a version no newer than the report's, and the status that version had. */
  ghost predicate Informed(w: World, c: Call) {
    c.phase.Read? ==>
      && c.report in w.reports
      && c.phase.version <= w.reports[c.report].version
      && (c.phase.version == w.reports[c.report].version ==> c.phase.before == w.reports[c.report].status)
      && ValidTransition(c.phase.before, Goal(c.verb))
  }

  ghost predicate Sound(w: World) {
    && (forall id <- w.reports :: Audited(w.reports[id]))
    && (forall k <- w.calls :: Informed(w, w.calls[k]))
  }

  /** One report later in time: the trail grows, and a resolved report stays as it is. */
  ghost predicate Continues(r: Report, later: Report) {
    && r.actions <= later.actions
    && later.targetType == r.targetType && later.targetId == r.targetId
    && r.version <= later.version
    && later.version - r.version == |Moves(later.actions)| - |Moves(r.actions)|
    && (later.version == r.version ==> later.status == r.status)
    && (r.status == Resolved ==> later.status == Resolved && later.version == r.version)
  }

  ghost predicate AllContinue(w: World, later: World) {
    forall id <- w.reports :: id in later.reports && Continues(w.reports[id], later.reports[id])
  }

  lemma CommitContinues(r: Report, verb: Verb)
    requires Audited(r) && ValidTransition(r.status, Goal(verb))
    ensures Continues(r, Commit(r, verb, r.status))
  {
    CommitIsAudited(r, verb);
  }

  lemma CommitStepSound(w: World, key: nat)
    requires Sound(w) && key in w.calls && w.calls[key].phase.Read?
    ensures Sound(CommitStep(w, key)) && AllContinue(w, CommitStep(w, key))
  {
    var c := w.calls[key];
    var after := CommitStep(w, key);
    if Accepts(w, key) {
      var r := w.reports[c.report];
      CommitIsAudited(r, c.verb);
      CommitContinues(r, c.verb);
      assert after.reports == w.reports[c.report := Commit(r, c.verb, r.status)];
      assert forall k <- after.calls :: k != key ==> after.calls[k] == w.calls[k];
    }
  }

  lemma SameReportsSound(w: World, after: World)
    requires Sound(w) && after.reports == w.reports
    requires forall k <- after.calls :: Informed(w, after.calls[k])
    ensures Sound(after) && AllContinue(w, after)
  {
  }

  /** One report moves on, or is new; the calls stay. */
  lemma OneReportSound(w: World, id: string, r: Report)
    requires Sound(w) && Audited(r)
    requires id in w.reports ==> Continues(w.reports[id], r)
    ensures var after := w.(reports := w.reports[id := r]); Sound(after) && AllContinue(w, after)
  {
    var after := w.(reports := w.reports[id := r]);
    forall k | k in after.calls ensures Informed(after, after.calls[k]) {
      assert Informed(w, w.calls[k]);
    }
  }

  lemma StepSound(w: World, e: Event)
    requires Sound(w)
    ensures Sound(Step(w, e)) && AllContinue(w, Step(w, e))
  {
    match e
    case File(id, targetType, targetId) =>
      FiledIsAudited(targetType, targetId);
      if id !in w.reports { OneReportSound(w, id, Filed(targetType, targetId)); }
      else { SameReportsSound(w, w); }
    case AssignTo(id, worker) =>
      if id in w.reports {
        AssignIsAudited(w.reports[id], worker);
        OneReportSound(w, id, Assign(w.reports[id], worker));
      } else { SameReportsSound(w, w); }
    case Begin(key, report, verb) =>
      SameReportsSound(w, Step(w, e));
    case Fail(key) =>
      SameReportsSound(w, Step(w, e));
    case Advance(key) =>
      if key in w.calls && w.calls[key].phase.Read? { CommitStepSound(w, key); }
      else { SameReportsSound(w, Step(w, e)); }
  }

  lemma ContinuesTransitive(a: Report, b: Report, c: Report)
    requires Continues(a, b) && Continues(b, c)
    ensures Continues(a, c)
  {
  }

  /** Main result: over every run the trail of every report stays a legal path to its status, one version per
      transition; nothing is ever taken back, and a resolved report is never moved again. */
  lemma {:induction false} AuditTrail(w: World, events: seq<Event>)
    requires Sound(w)
    ensures Sound(Run(w, events)) && AllContinue(w, Run(w, events))
  {
    if events == [] {
    } else {
      var front, last := events[..|events| - 1], events[|events| - 1];
      AuditTrail(w, front);
      var middle := Run(w, front);
      StepSound(middle, last);
      forall id | id in w.reports
        ensures id in Run(w, events).reports && Continues(w.reports[id], Run(w, events).reports[id])
      {
        ContinuesTransitive(w.reports[id], middle.reports[id], Run(w, events).reports[id]);
      }
    }
  }

  lemma EmptySound()
    ensures Sound(World(map[], map[], []))
  {
  }

  /** An attempt that is turned down, at the read or at the write, leaves no trace. */
  lemma RejectionLeavesNoTrace(w: World, key: nat)
    requires key in w.calls && !Accepts(w, key)
    ensures Step(w, Advance(key)).reports == w.reports
  {
  }

  /** An accepted attempt adds exactly one step to the trail, from the status that was current. */
  lemma AcceptanceAddsOneStep(w: World, key: nat)
    requires Sound(w) && Accepts(w, key)
    ensures var c := w.calls[key];
            var r, after := w.reports[c.report], Step(w, Advance(key)).reports[c.report];
            && after.version == r.version + 1
            && after.actions == r.actions + [Moved(c.verb, r.status, Goal(c.verb))]
            && ValidTransition(r.status, Goal(c.verb))
            && Step(w, Advance(key)).reports - {c.report} == w.reports - {c.report}
  {
  }

  /** Of two calls that read the same version only one can be accepted, however much later the other writes. */
  lemma OneWinner(w: World, first: nat, second: nat, events: seq<Event>)
    requires Sound(w) && Accepts(w, first) && Accepts(w, second) && first != second
    requires w.calls[first].report == w.calls[second].report
    requires var later := Run(Step(w, Advance(first)), events); second in later.calls && later.calls[second] == w.calls[second]
    ensures !Accepts(Run(Step(w, Advance(first)), events), second)
  {
    var after := Step(w, Advance(first));
    AcceptanceAddsOneStep(w, first);
    StepSound(w, Advance(first));
    AuditTrail(after, events);
  }

  // ----- the automatic ban -----

  /** A call that resolved a report on `user` and has still to count. */
  predicate Owes(w: World, key: nat, user: string) {
    key in w.calls &&
    match w.calls[key].phase
    case Committed => w.calls[key].report in w.reports && w.reports[w.calls[key].report].targetType == "user"
                      && w.reports[w.calls[key].report].targetId == user
    case Counting(u) => u == user
    case _ => false
  }

  predicate BanSent(w: World, user: string) {
    exists b <- w.bans :: b.banned == user
  }

  /** Every ban was due, and still is. */
  ghost predicate NotPremature(w: World) {
    forall b <- w.bans :: BAN_THRESHOLD <= b.count <= |ResolvedOn(w, b.banned)|
  }

  /** Whoever has enough resolved reports was banned, or some call is about to find out. */
  ghost predicate NotMissed(w: World) {
    forall user :: |ResolvedOn(w, user)| >= BAN_THRESHOLD ==> BanSent(w, user) || exists k :: Owes(w, k, user)
  }

  /** The count behind a ban never falls. */
  lemma CountNeverFalls(w: World, later: World, user: string)
    requires AllContinue(w, later)
    ensures |ResolvedOn(w, user)| <= |ResolvedOn(later, user)|
  {
    ResolvedGrows(w, later, user);
    Sequences.SubsetSize(ResolvedOn(w, user), ResolvedOn(later, user));
  }

  lemma StepNotPremature(w: World, e: Event)
    requires Sound(w) && NotPremature(w)
    ensures NotPremature(Step(w, e))
  {
    StepSound(w, e);
    var after := Step(w, e);
    forall b | b in after.bans ensures BAN_THRESHOLD <= b.count <= |ResolvedOn(after, b.banned)| {
      CountNeverFalls(w, after, b.banned);
    }
  }

  /** No request fails between resolving and counting. */
  predicate Quiet(w: World, e: Event) {
    e.Fail? && e.failed in w.calls ==> w.calls[e.failed].phase.Begun? || w.calls[e.failed].phase.Read?
  }

  /** Only an accepted write changes a status; who is reported never changes. */
  lemma StatusOnlyByCommit(w: World, e: Event)
    ensures forall id <- w.reports ::
              (id in Step(w, e).reports && Step(w, e).reports[id].targetType == w.reports[id].targetType
               && Step(w, e).reports[id].targetId == w.reports[id].targetId)
    ensures forall id <- Step(w, e).reports :: Step(w, e).reports[id].status == Resolved ==>
              (id in w.reports && w.reports[id].status == Resolved)
              || (e.Advance? && Accepts(w, e.call) && w.calls[e.call].report == id && w.calls[e.call].verb == Resolve)
  {
  }

  lemma ResolvedGrows(w: World, later: World, user: string)
    requires AllContinue(w, later)
    ensures ResolvedOn(w, user) <= ResolvedOn(later, user)
  {
    forall id | id in ResolvedOn(w, user) ensures id in ResolvedOn(later, user) {
      assert Continues(w.reports[id], later.reports[id]);
    }
  }

  /** Only the commit of a resolution adds to the resolved reports of a user, and its call then owes the count. */
  lemma NewResolution(w: World, e: Event, user: string)
    requires Sound(w)
    ensures ResolvedOn(Step(w, e), user) != ResolvedOn(w, user) ==> e.Advance? && Owes(Step(w, e), e.call, user)
  {
    StepSound(w, e);
    StatusOnlyByCommit(w, e);
    ResolvedGrows(w, Step(w, e), user);
    if ResolvedOn(Step(w, e), user) != ResolvedOn(w, user) {
      var id :| id in ResolvedOn(Step(w, e), user) && id !in ResolvedOn(w, user);
      assert Step(w, e) == CommitStep(w, e.call);
    }
  }

  /** A call that owes the count keeps owing it until it has counted. */
  lemma OwesUntilCounted(w: World, e: Event, key: nat, user: string)
    requires Quiet(w, e) && Owes(w, key, user)
    ensures Owes(Step(w, e), key, user)
            || (e == Advance(key) && w.calls[key].phase.Counting? && Step(w, e) == CountStep(w, key))
  {
    StatusOnlyByCommit(w, e);
    if e == Advance(key) {
      if w.calls[key].phase.Committed? { assert Step(w, e) == LookStep(w, key); }
    } else {
      OthersStay(w, e, key);
    }
  }

  lemma OthersStay(w: World, e: Event, key: nat)
    requires key in w.calls && e != Advance(key) && e != Fail(key)
    ensures key in Step(w, e).calls && Step(w, e).calls[key] == w.calls[key]
  {
  }

  lemma StepNotMissed(w: World, e: Event)
    requires Sound(w) && Quiet(w, e) && NotMissed(w)
    ensures NotMissed(Step(w, e))
  {
    var after := Step(w, e);
    forall user | |ResolvedOn(after, user)| >= BAN_THRESHOLD
      ensures BanSent(after, user) || exists k :: Owes(after, k, user)
    {
      NewResolution(w, e, user);
      if ResolvedOn(after, user) == ResolvedOn(w, user) {
        if BanSent(w, user) {
          var b :| b in w.bans && b.banned == user;
          assert b in after.bans;
        } else {
          var k :| Owes(w, k, user);
          OwesUntilCounted(w, e, k, user);
          if !Owes(after, k, user) {
            assert Ban(user, |ResolvedOn(w, user)|) in after.bans;
          }
        }
      }
    }
  }

  ghost predicate AllQuiet(w: World, events: seq<Event>) {
    forall n :: 0 <= n < |events| ==> Quiet(Run(w, events[..n]), events[n])
  }

  /** Main result: in every run of concurrent calls a ban is sent only when enough reports are resolved, and once
      no call has still to count, everyone with enough resolved reports has been banned. */
  lemma {:induction false} BanIsNeitherMissedNorPremature(w: World, events: seq<Event>)
    requires Sound(w) && NotPremature(w) && NotMissed(w) && AllQuiet(w, events)
    ensures NotPremature(Run(w, events)) && NotMissed(Run(w, events))
    ensures (forall k <- Run(w, events).calls :: !Run(w, events).calls[k].phase.Committed? && !Run(w, events).calls[k].phase.Counting?)
            ==> forall user :: |ResolvedOn(Run(w, events), user)| >= BAN_THRESHOLD <==> BanSent(Run(w, events), user)
  {
    if events != [] {
      var n := |events| - 1;
      var front := events[..n];
      assert AllQuiet(w, front) by {
        forall k | 0 <= k < n ensures Quiet(Run(w, front[..k]), front[k]) { assert front[..k] == events[..k]; }
      }
      BanIsNeitherMissedNorPremature(w, front);
      AuditTrail(w, front);
      StepNotPremature(Run(w, front), events[n]);
      StepNotMissed(Run(w, front), events[n]);
    }
  }
}
