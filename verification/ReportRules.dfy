/** The life of a report spelled out: which transition is open from which status, what it records, and when a ban follows. */
module ReportRules {
  import opened Reports
  import opened ReportService

  /** Work starts on a new or reopened report; a report that is neither resolved nor rejected can be concluded either way;
      only a rejected one is reopened. */
  predicate Open(status: Status, verb: Verb) {
    match verb
    case Start => status == Pending || status == Reopened
    case Resolve => status != Resolved && status != Rejected
    case Reject => status != Resolved && status != Rejected
    case Reopen => status == Rejected
  }

  /** The report after the transition. */
  function Recorded(r: Report, verb: Verb, status: Status): Report {
    Report(r.targetType, r.targetId, status, r.version + 1, r.assignee, r.actions + [Moved(verb, r.status, status)])
  }

  function ResultOf(verb: Verb): Status {
    if verb == Start then Processing else if verb == Resolve then Resolved else if verb == Reject then Rejected else Reopened
  }

  /** Main result on single transitions: accepted exactly where it is open, and then recorded with its number; refused
      otherwise, without a trace. */
  lemma TransitionExactly(reports: map<string, Report>, id: string, verb: Verb)
    ensures var t := Transition(reports, id, verb);
            && (t.ok <==> id in reports && Open(reports[id].status, verb))
            && t.reports == if t.ok then reports[id := Recorded(reports[id], verb, ResultOf(verb))] else reports
  {
  }

  /** So nothing moves a resolved report, and every report that is not resolved can still be resolved, after reopening it
      if it was rejected. */
  lemma EveryReportConcludes(reports: map<string, Report>, id: string)
    requires id in reports
    ensures reports[id].status == Resolved ==> forall verb: Verb :: !Transition(reports, id, verb).ok
    ensures reports[id].status !in {Resolved, Rejected} ==>
              Transition(reports, id, Resolve).ok && Transition(reports, id, Reject).ok
              && Transition(reports, id, Resolve).reports[id].status == Resolved
    ensures reports[id].status == Rejected ==>
              Transition(reports, id, Reopen).ok && Transition(Transition(reports, id, Reopen).reports, id, Resolve).ok
  {
    forall verb: Verb ensures Transition(reports, id, verb).ok <==> Open(reports[id].status, verb) {
      TransitionExactly(reports, id, verb);
    }
    TransitionExactly(reports, id, Reopen);
    TransitionExactly(Transition(reports, id, Reopen).reports, id, Resolve);
  }

  /** Among concurrent calls the same table decides at the read: a call goes on, with what it read, exactly when its
      transition is open; otherwise it ends. */
  lemma ReadDecides(w: World, key: nat)
    requires key in w.calls && w.calls[key].phase.Begun?
    ensures var c := w.calls[key];
            Step(w, Advance(key)) ==
            if c.report in w.reports && Open(w.reports[c.report].status, c.verb)
            then w.(calls := w.calls[key := Call(c.report, c.verb, Read(w.reports[c.report].status, w.reports[c.report].version))])
            else w.(calls := w.calls - {key})
  {
  }

  /** At the write the version decides: the transition is recorded exactly when the report still has the version read. */
  lemma WriteDecides(w: World, key: nat)
    requires Sound(w) && key in w.calls && w.calls[key].phase.Read?
    ensures var c := w.calls[key];
            var accepted := c.report in w.reports && w.reports[c.report].version == c.phase.version;
            && Step(w, Advance(key)).reports ==
               (if accepted then w.reports[c.report := Recorded(w.reports[c.report], c.verb, ResultOf(c.verb))] else w.reports)
            && Step(w, Advance(key)).calls ==
               (if accepted && c.verb == Resolve then w.calls[key := Call(c.report, c.verb, Committed)] else w.calls - {key})
            && Step(w, Advance(key)).bans == w.bans
  {
    assert Informed(w, w.calls[key]);
  }

  // ----- the trail -----

  /** The steps a report can take. */
  predicate LegalStep(before: Status, after: Status) {
    || (before == Pending && after in {Processing, Resolved, Rejected})
    || (before == Processing && after in {Resolved, Rejected})
    || (before == Rejected && after == Reopened)
    || (before == Reopened && after in {Processing, Resolved, Rejected})
  }

  /** What a trail says: from `Pending` step by legal step to the present status. */
  ghost predicate Story(moves: seq<Action>, status: Status) {
    && (forall i :: 0 <= i < |moves| ==> moves[i].Moved? && LegalStep(moves[i].before, moves[i].after))
    && (forall i :: 0 < i < |moves| ==> moves[i].before == moves[i - 1].after)
    && (moves != [] ==> moves[0].before == Pending && moves[|moves| - 1].after == status)
    && (moves == [] ==> status == Pending)
  }

  lemma {:induction false} PathIsStory(moves: seq<Action>, status: Status)
    requires Path(moves, status)
    ensures Story(moves, status)
  {
    if moves != [] {
      var front, last := moves[..|moves| - 1], moves[|moves| - 1];
      PathIsStory(front, last.before);
      assert forall i :: 0 <= i < |front| ==> moves[i] == front[i];
    }
  }

  /** Main result: in every run every report's trail is such a story, with as many steps as its version says. */
  lemma EveryTrailIsStory(w: World, events: seq<Event>, id: string)
    requires Sound(w) && id in Run(w, events).reports
    ensures var r := Run(w, events).reports[id]; Story(Moves(r.actions), r.status) && r.version == 1 + |Moves(r.actions)|
  {
    AuditTrail(w, events);
    PathIsStory(Moves(Run(w, events).reports[id].actions), Run(w, events).reports[id].status);
    hide Run;
  }

  /** Assigning a report records the worker and moves nothing. */
  lemma AssignmentIsRecorded(w: World, id: string, worker: string)
    requires id in w.reports
    ensures var r := w.reports[id];
            Step(w, AssignTo(id, worker)) ==
            w.(reports := w.reports[id := Report(r.targetType, r.targetId, r.status, r.version, worker, r.actions + [Assigned(worker)])])
  {
  }

  // ----- bans -----

  /** The resolved reports on a user. */
  function ResolvedAgainst(reports: map<string, Report>, user: string): set<string> {
    set id | id in reports && reports[id].status == Resolved && reports[id].targetType == "user" && reports[id].targetId == user
  }

  lemma SameResolved(reports: map<string, Report>, user: string)
    ensures ResolvedAgainst(reports, user) == ResolvedIn(reports, user)
  {
  }

  /** Main result on resolving without interference: the report is resolved if it was open, and a ban of its user follows
      exactly when that makes at least three resolved reports on a user. */
  lemma ResolvingAlone(w: World, key: nat, id: string)
    requires key !in w.calls
    ensures var w' := Run(w, Alone(key, id, Resolve));
            if id in w.reports && w.reports[id].status !in {Resolved, Rejected} then
              var r := w.reports[id];
              && w'.reports == w.reports[id := Recorded(r, Resolve, Resolved)]
              && w'.bans == w.bans + (if r.targetType == "user" && |ResolvedAgainst(w'.reports, r.targetId)| >= 3
                                      then [Ban(r.targetId, |ResolvedAgainst(w'.reports, r.targetId)|)] else [])
            else w' == w
  {
    AloneIsSerial(w, key, id, Resolve);
    TransitionExactly(w.reports, id, Resolve);
    if id in w.reports { SameResolved(Transition(w.reports, id, Resolve).reports, w.reports[id].targetId); }
    hide Run, Transition;
  }

  /** Among concurrent calls: once none has still to count, exactly the users with three resolved reports were banned. */
  lemma BannedAtThree(w: World, events: seq<Event>, user: string)
    requires Sound(w) && NotPremature(w) && NotMissed(w) && AllQuiet(w, events)
    requires forall k <- Run(w, events).calls :: !Run(w, events).calls[k].phase.Committed? && !Run(w, events).calls[k].phase.Counting?
    ensures |ResolvedAgainst(Run(w, events).reports, user)| >= 3 <==> exists b <- Run(w, events).bans :: b.banned == user
    ensures forall b <- Run(w, events).bans :: 3 <= b.count <= |ResolvedAgainst(Run(w, events).reports, b.banned)|
  {
    BanIsNeitherMissedNorPremature(w, events);
    var v := Run(w, events);
    forall u ensures ResolvedAgainst(v.reports, u) == ResolvedOn(v, u) { SameResolved(v.reports, u); }
    assert BanSent(v, user) <==> exists b <- v.bans :: b.banned == user;
    hide Run, ResolvedOn, ResolvedAgainst;
  }

  /** The steps after a resolution: the report is looked up again, and its user's resolved reports are counted. */
  lemma CountingExactly(w: World, key: nat)
    requires key in w.calls
    ensures var c, w' := w.calls[key], Step(w, Advance(key));
            && (c.phase.Committed? ==>
                  w' == if c.report in w.reports && w.reports[c.report].targetType == "user"
                        then w.(calls := w.calls[key := Call(c.report, c.verb, Counting(w.reports[c.report].targetId))])
                        else w.(calls := w.calls - {key}))
            && (c.phase.Counting? ==>
                  var n := |ResolvedAgainst(w.reports, c.phase.user)|;
                  w' == w.(calls := w.calls - {key}, bans := if n >= 3 then w.bans + [Ban(c.phase.user, n)] else w.bans))
  {
    if w.calls[key].phase.Counting? { SameResolved(w.reports, w.calls[key].phase.user); }
  }
}
