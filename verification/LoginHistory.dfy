/** What the login limiter promises for one key, told from the full history of failures. */
module LoginHistory {
  import opened Options

  /** Failures counted since the last reset, oldest first, and the end of the current lock. */
  datatype History = History(recorded: seq<int>, lock: Option<int>)
  datatype Policy = Policy(threshold: int, lockDuration: int, window: int)

  const FRESH := History([], None)

  /** The failures no more than `window` before `now`. */
  function Within(times: seq<int>, now: int, window: int): (r: seq<int>)
    ensures |r| <= |times|
  {
    if times == [] then []
    else Within(times[..|times| - 1], now, window) +
         (if now - times[|times| - 1] <= window then [times[|times| - 1]] else [])
  }

  predicate Locked(h: History, now: int) { h.lock.Some? && now < h.lock.value }

  /** The clock is read twice: once for the lock and, if that is over, once for the failure. */
  function Fail(p: Policy, h: History, first: int, second: int): History {
    if Locked(h, first) then h
    else
      var recorded := h.recorded + [second];
      if |Within(recorded, second, p.window)| >= p.threshold then History([], Some(second + p.lockDuration))
      else h.(recorded := recorded)
  }

  /** Asking after the end of a lock forgets the lock and whatever was recorded since. */
  function Ask(h: History, now: int): History {
    if h.lock.Some? && !Locked(h, now) then FRESH else h
  }

  datatype Event = Failure(first: int, second: int) | Query(at: int) | Success

  function After(p: Policy, h: History, e: Event): History {
    match e
    case Failure(first, second) => Fail(p, h, first, second)
    case Query(at) => Ask(h, at)
    case Success => FRESH
  }

  function Run(p: Policy, h: History, events: seq<Event>): History {
    if events == [] then h else After(p, Run(p, h, events[..|events| - 1]), events[|events| - 1])
  }

  // ----- forgetting early is harmless -----

  lemma {:induction false} WithinAppend(times: seq<int>, x: int, now: int, window: int)
    ensures Within(times + [x], now, window) == Within(times, now, window) + if now - x <= window then [x] else []
  {
    assert (times + [x])[..|times|] == times;
  }

  /** What has left the window never comes back, so a list pruned earlier prunes to the same. */
  lemma {:induction false} PrunedAgain(times: seq<int>, earlier: int, now: int, window: int)
    requires earlier <= now
    ensures Within(Within(times, earlier, window), now, window) == Within(times, now, window)
  {
    if times != [] {
      var front, x := times[..|times| - 1], times[|times| - 1];
      PrunedAgain(front, earlier, now, window);
      if earlier - x <= window { WithinAppend(Within(front, earlier, window), x, now, window); }
      else { assert Within(front, earlier, window) + [] == Within(front, earlier, window); }
    }
  }

  /** The failures still remembered: those within the window of the latest one. */
  function Remembered(p: Policy, h: History): seq<int> {
    if h.recorded == [] then [] else Within(h.recorded, h.recorded[|h.recorded| - 1], p.window)
  }

  /** The limiter keeps only the remembered failures; the next failure cannot tell the difference. */
  lemma NextFailureFromRemembered(p: Policy, h: History, now: int)
    requires h.recorded != [] ==> h.recorded[|h.recorded| - 1] <= now
    ensures Within(Remembered(p, h), now, p.window) == Within(h.recorded, now, p.window)
    ensures p.window >= 0 ==>
              Within(Remembered(p, h), now, p.window) + [now] == Remembered(p, h.(recorded := h.recorded + [now]))
    ensures Remembered(p, h.(recorded := h.recorded + [now])) == Within(h.recorded + [now], now, p.window)
  {
    if h.recorded != [] { PrunedAgain(h.recorded, h.recorded[|h.recorded| - 1], now, p.window); }
    WithinAppend(h.recorded, now, now, p.window);
  }

  /** In a history that is not locked out, fewer failures are remembered than the threshold. */
  ghost predicate Below(p: Policy, h: History) {
    h.recorded != [] ==> |Remembered(p, h)| < p.threshold
  }

  lemma StaysBelow(p: Policy, h: History, e: Event)
    requires Below(p, h)
    ensures Below(p, After(p, h, e))
  {
  }

  /** What a failure outside a lock leads to. */
  lemma FailOutcome(p: Policy, h: History, first: int, now: int)
    requires Below(p, h) && !Locked(h, first)
    ensures Fail(p, h, first, now) == if |Within(h.recorded + [now], now, p.window)| >= p.threshold
                                      then History([], Some(now + p.lockDuration)) else h.(recorded := h.recorded + [now])
    ensures Below(p, Fail(p, h, first, now))
  {
    StaysBelow(p, h, Failure(first, now));
  }

  /** The positions of the failures no more than `window` before `now`. */
  function RecentOnes(times: seq<int>, now: int, window: int): set<nat> {
    set i: nat | i < |times| && now - times[i] <= window
  }

  lemma {:induction false} WithinCounts(times: seq<int>, now: int, window: int)
    ensures |Within(times, now, window)| == |RecentOnes(times, now, window)|
    ensures forall x <- Within(times, now, window) :: x in times && now - x <= window
  {
    if times == [] {
      assert RecentOnes(times, now, window) == {};
    } else {
      var n := |times| - 1;
      WithinCounts(times[..n], now, window);
      assert RecentOnes(times, now, window) ==
             RecentOnes(times[..n], now, window) + if now - times[n] <= window then {n} else {};
    }
  }

  /** A failure outside a lock locks exactly when it is the `threshold`-th within its window, for `lockDuration` from
      then on, and starts the count anew; otherwise it is counted. */
  lemma FailureLocksExactly(p: Policy, h: History, first: int, second: int)
    requires h.lock.None? || h.lock.value <= first
    ensures var all := h.recorded + [second];
            After(p, h, Failure(first, second)) ==
            if |RecentOnes(all, second, p.window)| >= p.threshold then History([], Some(second + p.lockDuration))
            else History(all, h.lock)
  {
    WithinCounts(h.recorded + [second], second, p.window);
  }

  /** A success forgets failures and lock; a question forgets them once the lock is over, and nothing else. */
  lemma ForgottenExactly(p: Policy, h: History, events: seq<Event>, now: int)
    ensures Run(p, h, events + [Success]) == History([], None)
    ensures var before := Run(p, h, events);
            Run(p, h, events + [Query(now)]) ==
            if before.lock.Some? && before.lock.value <= now then History([], None) else before
  {
    assert (events + [Success])[..|events|] == events && (events + [Query(now)])[..|events|] == events;
  }

  // ----- the lock -----

  /** While a lock lasts, attempts neither extend it nor count, and every question is answered with it. */
  lemma {:induction false} LockHolds(p: Policy, h: History, events: seq<Event>)
    requires h.lock.Some?
    requires forall e <- events :: !e.Success? && (if e.Failure? then e.first else e.at) < h.lock.value
    ensures Run(p, h, events) == h
  {
    if events != [] {
      assert events[|events| - 1] in events;
      LockHolds(p, h, events[..|events| - 1]);
    }
  }

  /** From the failure that starts it, a lock is reported at every moment before `lockDuration` has passed, whatever
      attempts and questions come in between, and at no moment after. */
  lemma ReportedExactlyUntil(p: Policy, h: History, first: int, second: int, events: seq<Event>, now: int)
    requires !Locked(h, first) && |Within(h.recorded + [second], second, p.window)| >= p.threshold
    requires forall e <- events :: !e.Success? && (if e.Failure? then e.first else e.at) < second + p.lockDuration
    ensures Locked(Run(p, Fail(p, h, first, second), events), now) <==> now < second + p.lockDuration
    ensures now >= second + p.lockDuration ==> Ask(Run(p, Fail(p, h, first, second), events), now) == FRESH
  {
    LockHolds(p, Fail(p, h, first, second), events);
  }

  // ----- when the lock starts -----

  function Failures(times: seq<int>): seq<Event> {
    seq(|times|, i requires 0 <= i < |times| => Failure(times[i], times[i]))
  }

  /** No failure among the first ones had `threshold` failures, itself included, in its window. */
  ghost predicate Sparse(p: Policy, times: seq<int>) {
    forall i :: 0 <= i < |times| ==> |Within(times[..i + 1], times[i], p.window)| < p.threshold
  }

  lemma SparseStep(p: Policy, times: seq<int>, last: int)
    ensures Sparse(p, times + [last]) <==> Sparse(p, times) && |Within(times + [last], last, p.window)| < p.threshold
  {
    var all := times + [last];
    assert all[..|all|] == all;
    forall i | 0 <= i < |times| ensures all[..i + 1] == times[..i + 1] && all[i] == times[i] {
    }
    if Sparse(p, all) {
      forall i | 0 <= i < |times| ensures |Within(times[..i + 1], times[i], p.window)| < p.threshold {
        assert all[..i + 1] == times[..i + 1];
      }
    }
    if Sparse(p, times) && |Within(all, last, p.window)| < p.threshold {
      forall i | 0 <= i < |all| ensures |Within(all[..i + 1], all[i], p.window)| < p.threshold {
        if i < |times| { assert all[..i + 1] == times[..i + 1]; }
      }
    }
  }

  lemma FailuresStep(p: Policy, times: seq<int>, last: int)
    ensures Run(p, FRESH, Failures(times + [last])) == Fail(p, Run(p, FRESH, Failures(times)), last, last)
  {
    var all := Failures(times + [last]);
    assert all[..|times|] == Failures(times);
  }

  /** A run of failures goes unpunished exactly as long as no window holds `threshold` of them. */
  lemma {:induction false} UnlockedExactlyWhenSparse(p: Policy, times: seq<int>)
    ensures Run(p, FRESH, Failures(times)).lock == None <==> Sparse(p, times)
    ensures Sparse(p, times) ==> Run(p, FRESH, Failures(times)) == History(times, None)
  {
    if times != [] {
      var front, last := times[..|times| - 1], times[|times| - 1];
      assert times == front + [last];
      UnlockedExactlyWhenSparse(p, front);
      FailuresStep(p, front, last);
      SparseStep(p, front, last);
    }
  }

  /** A failure between the end of a lock and the first question about it is forgotten with the lock. */
  lemma LateQuestionForgets(p: Policy, until: int, failure: int, asked: int)
    requires until <= failure <= asked && p.threshold > 1
    ensures Run(p, History([], Some(until)), [Failure(failure, failure), Query(asked)]) == FRESH
    ensures Run(p, History([], Some(until)), [Query(asked), Failure(asked, asked)]) == History([asked], None)
  {
    var h := History([], Some(until));
    var e, q, f := Failure(failure, failure), Query(asked), Failure(asked, asked);
    assert [e, q][..1] == [e] && [q, f][..1] == [q] && [e][..0] == [] && [q][..0] == [];
    assert Run(p, h, [e]) == After(p, h, e);
    assert Run(p, h, [q]) == After(p, h, q);
    assert h.recorded + [failure] == [failure] && h.recorded + [asked] == [asked];
  }
}
