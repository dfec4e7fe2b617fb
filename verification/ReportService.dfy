/** The report operations as the service runs them, one at a time, and their place among the concurrent runs. */
module ReportService {
  import opened Reports

  datatype Outcome = Outcome(reports: map<string, Report>, ok: bool)

  /** A transition without interference. */
  function Transition(reports: map<string, Report>, id: string, verb: Verb): Outcome {
    if id !in reports || !ValidTransition(reports[id].status, Goal(verb)) then Outcome(reports, false)
    else Outcome(reports[id := Commit(reports[id], verb, reports[id].status)], true)
  }

  /** The ban that follows a resolution, if any. */
  function BanAfter(w: World, id: string): seq<Ban> {
    if id !in w.reports || w.reports[id].targetType != "user" then []
    else
      var n := |ResolvedOn(w, w.reports[id].targetId)|;
      if n >= BAN_THRESHOLD then [Ban(w.reports[id].targetId, n)] else []
  }

  function Alone(key: nat, id: string, verb: Verb): seq<Event> {
    [Begin(key, id, verb), Advance(key), Advance(key), Advance(key), Advance(key)]
  }

  lemma RunFive(w: World, a: Event, b: Event)
    ensures Run(w, [a, b, b, b, b]) == Step(Step(Step(Step(Step(w, a), b), b), b), b)
  {
    assert [a, b, b, b, b][..4] == [a, b, b, b] && [a, b, b, b][..3] == [a, b, b] && [a, b, b][..2] == [a, b];
    assert [a, b][..1] == [a] && [a][..0] == [];
    assert Run(w, [a]) == Step(w, a);
    assert Run(w, [a, b]) == Step(Step(w, a), b);
    assert Run(w, [a, b, b]) == Step(Step(Step(w, a), b), b);
    assert Run(w, [a, b, b, b]) == Step(Step(Step(Step(w, a), b), b), b);
  }

  /** Begin, read and write. */
  lemma AloneMoves(w: World, key: nat, id: string, verb: Verb)
    requires key !in w.calls
    ensures var t := Transition(w.reports, id, verb);
            Step(Step(Step(w, Begin(key, id, verb)), Advance(key)), Advance(key)) ==
            if t.ok && verb == Resolve then World(t.reports, w.calls[key := Call(id, verb, Committed)], w.bans)
            else w.(reports := t.reports)
  {
    var s1 := Step(w, Begin(key, id, verb));
    assert s1.calls - {key} == w.calls;
    var s2 := Step(s1, Advance(key));
    if Transition(w.reports, id, verb).ok {
      assert s2.calls == w.calls[key := Call(id, verb, Read(w.reports[id].status, w.reports[id].version))];
      assert s2.calls - {key} == w.calls;
      assert s2.calls[key := Call(id, verb, Committed)] == w.calls[key := Call(id, verb, Committed)];
    }
  }

  /** Look up and count. */
  lemma AloneCounts(w: World, key: nat, id: string)
    requires key !in w.calls
    ensures var s := w.(calls := w.calls[key := Call(id, Resolve, Committed)]);
            Step(Step(s, Advance(key)), Advance(key)) == w.(bans := w.bans + BanAfter(w, id))
  {
    var s := w.(calls := w.calls[key := Call(id, Resolve, Committed)]);
    assert s.calls - {key} == w.calls;
    var s1 := Step(s, Advance(key));
    if id in w.reports && w.reports[id].targetType == "user" {
      assert s1.calls - {key} == w.calls;
    } else {
      assert s1 == w;
    }
  }

  /** A call that is not interleaved is the plain transition followed by the plain count. */
  lemma AloneIsSerial(w: World, key: nat, id: string, verb: Verb)
    requires key !in w.calls
    ensures var t := Transition(w.reports, id, verb);
            var moved := w.(reports := t.reports);
            Run(w, Alone(key, id, verb)) ==
            if t.ok && verb == Resolve then moved.(bans := w.bans + BanAfter(moved, id)) else moved
  {
    RunFive(w, Begin(key, id, verb), Advance(key));
    AloneMoves(w, key, id, verb);
    var t := Transition(w.reports, id, verb);
    AloneCounts(w.(reports := t.reports), key, id);
  }

  lemma OneFewer<T>(all: set<T>, left: set<T>, x: T)
    requires x in left
    ensures |all - (left - {x})| == |all - left| + if x in all then 1 else 0
  {
    if x in all {
      assert all - (left - {x}) == (all - left) + {x};
    } else {
      assert all - (left - {x}) == all - left;
    }
  }

  class DataService {
    var reports: map<string, Report>
    var bans: seq<Ban>

    constructor ()
      ensures reports == map[] && bans == []
    {
      reports, bans := map[], [];
    }

    method CreateReport(id: string, targetType: string, targetId: string)
      requires id !in reports
      modifies this`reports
      ensures reports == old(reports)[id := Filed(targetType, targetId)]
    {
      reports := reports[id := Report(targetType, targetId, Pending, 1, "", [])];
    }

    /** Status and version are read first; the update insists on the version. */
    method TransitionReport(id: string, verb: Verb) returns (ok: bool)
      modifies this`reports
      ensures Outcome(reports, ok) == Transition(old(reports), id, verb)
    {
      if id !in reports { return false; }
      var before, version := reports[id].status, reports[id].version;
      if !ValidTransition(before, Goal(verb)) { return false; }
      if reports[id].version == version {
        var row := reports[id].(status := Goal(verb), version := version + 1);
        reports := reports[id := row.(actions := row.actions + [Moved(verb, before, Goal(verb))])];
        return true;
      }
      return false;
    }

    method AssignReport(id: string, worker: string) returns (ok: bool)
      modifies this`reports
      ensures ok == (id in old(reports))
      ensures reports == if ok then old(reports)[id := Assign(old(reports)[id], worker)] else old(reports)
    {
      if id !in reports { return false; }
      var row := reports[id].(assignee := worker);
      reports := reports[id := row.(actions := row.actions + [Assigned(worker)])];
      return true;
    }

    /** The count of a user's resolved reports, row by row. */
    method CountResolvedReports(user: string) returns (n: nat)
      ensures n == |ResolvedIn(reports, user)|
    {
      n := 0;
      var rows, left := reports, reports.Keys;
      ghost var all := ResolvedIn(rows, user);
      assert all - left == {};
      while left != {}
        invariant left <= rows.Keys
        invariant n == |all - left|
        decreases |left|
      {
        var id :| id in left;
        var r := rows[id];
        OneFewer(all, left, id);
        if r.targetType == "user" && r.targetId == user && r.status == Resolved { n := n + 1; }
        left := left - {id};
      }
      assert all - left == all;
    }

    method AutoBanOnReports(id: string)
      modifies this`bans
      ensures bans == old(bans) + BanAfter(World(reports, map[], old(bans)), id)
    {
      if id !in reports || reports[id].targetType != "user" { return; }
      var user := reports[id].targetId;
      var n := CountResolvedReports(user);
      if n >= BAN_THRESHOLD { bans := bans + [Ban(user, n)]; }
    }

    /** What one call does is what the concurrent machine does when the call runs alone. */
    method ResolveReport(id: string) returns (ok: bool)
      modifies this
      ensures World(reports, map[], bans) == Run(World(old(reports), map[], old(bans)), Alone(0, id, Resolve))
    {
      AloneIsSerial(World(reports, map[], bans), 0, id, Resolve);
      ok := TransitionReport(id, Resolve);
      if ok { AutoBanOnReports(id); }
    }
  }
}
