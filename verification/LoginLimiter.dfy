/** The limiter itself: two maps under one mutex, and slices that are compacted in their own backing array. */
module LoginLimiter {
  import opened Options
  import opened LoginHistory

  /** A slice: a backing array and how much of it is in use. */
  datatype Slice = Slice(data: array<int>, len: nat)

  /** Keep what lies within the window, in order, overwriting the list while reading it. */
  method Compact(a: array<int>, len: nat, now: int, window: int) returns (kept: nat)
    requires len <= a.Length
    modifies a
    ensures kept <= len
    ensures a[..kept] == Within(old(a[..len]), now, window)
  {
    kept := 0;
    for i := 0 to len
      invariant kept <= i
      invariant a[..kept] == Within(old(a[..i]), now, window)
      invariant forall j :: i <= j < a.Length ==> a[j] == old(a[j])
    {
      ghost var done := old(a[..i + 1]);
      assert done[..i] == old(a[..i]) && done[i] == a[i];
      var t := a[i];
      if now - t <= window {
        a[kept] := t;
        assert a[..kept + 1] == a[..kept] + [t];
        kept := kept + 1;
      }
    }
  }

  /** Append, into a larger array when the old one is full. */
  method Append(a: array<int>, len: nat, x: int) returns (s: Slice)
    requires len <= a.Length
    modifies a
    ensures s.data == a || fresh(s.data)
    ensures s.len == len + 1 <= s.data.Length
    ensures s.data[..s.len] == old(a[..len]) + [x]
  {
    if len < a.Length {
      a[len] := x;
      s := Slice(a, len + 1);
    } else {
      var b := new int[2 * len + 1];
      for i := 0 to len
        invariant b[..i] == a[..i]
        invariant a[..len] == old(a[..len])
      {
        b[i] := a[i];
        assert b[..i + 1] == b[..i] + [b[i]] && a[..i + 1] == a[..i] + [a[i]];
      }
      b[len] := x;
      assert b[..len + 1] == b[..len] + [x];
      s := Slice(b, len + 1);
    }
  }

  class Limiter {
    var failures: map<string, Slice>
    var lockedUntil: map<string, int>
    const policy: Policy

    /** What happened to each key since its last reset, and the latest reading of the clock. */
    ghost var histories: map<string, History>
    ghost var latest: int

    ghost function HistoryOf(key: string): History
      reads this
    {
      if key in histories then histories[key] else FRESH
    }

    function LockOf(key: string): Option<int>
      reads this
    {
      if key in lockedUntil then Some(lockedUntil[key]) else None
    }

    /** The backing array of a key, if it has one. */
    ghost function Own(key: string): set<array<int>>
      reads this
    {
      if key in failures then {failures[key].data} else {}
    }

    /** The stored list of a key: the remembered failures, each in the past. */
    ghost predicate Stores(key: string)
      reads this, Own(key)
    {
      && LockOf(key) == HistoryOf(key).lock
      && (key in failures ==>
            && failures[key].len <= failures[key].data.Length
            && failures[key].data[..failures[key].len] == Remembered(policy, HistoryOf(key)))
      && (key !in failures ==> Remembered(policy, HistoryOf(key)) == [])
      && (HistoryOf(key).recorded != [] ==> HistoryOf(key).recorded[|HistoryOf(key).recorded| - 1] <= latest)
      && Below(policy, HistoryOf(key))
    }

    /** No two keys share a backing array. */
    ghost predicate Valid()
      reads this, set k | k in failures :: failures[k].data
    {
      && policy.window >= 0
      && (forall j, k :: j in failures && k in failures && j != k ==> failures[j].data != failures[k].data)
      && (forall key :: Stores(key))
    }

    /** What is stored for a key depends on that key's entries and array only. */
    twostate lemma StoresFrame(key: string)
      requires old(Stores(key)) && old(latest) <= latest
      requires key in failures <==> key in old(failures)
      requires key in failures ==> failures[key] == old(failures)[key] && unchanged(failures[key].data)
      requires HistoryOf(key) == old(HistoryOf(key)) && LockOf(key) == old(LockOf(key))
      ensures Stores(key)
    {
    }

    constructor (threshold: int, lockMinutes: nat)
      ensures Valid() && histories == map[]
      ensures policy == Policy(threshold, lockMinutes * 60_000_000_000, lockMinutes * 60_000_000_000)
      ensures failures == map[] && lockedUntil == map[]
    {
      failures, lockedUntil := map[], map[];
      policy := Policy(threshold, lockMinutes * 60_000_000_000, lockMinutes * 60_000_000_000);
      histories, latest := map[], 0;
    }

    /** Whether the key is locked, and for how long, by a second look at the clock. */
    method IsLocked(key: string, first: int, second: int) returns (locked: bool, left: int)
      requires Valid() && latest <= first <= second
      modifies this
      ensures Valid() && latest == second
      ensures locked == Locked(old(HistoryOf(key)), first)
      ensures left == if locked then old(HistoryOf(key)).lock.value - second else 0
      ensures histories == old(histories)[key := Ask(old(HistoryOf(key)), first)]
    {
      assert Stores(key);
      latest := second;
      histories := histories[key := Ask(HistoryOf(key), first)];
      locked, left := false, 0;
      if key in lockedUntil {
        var until := lockedUntil[key];
        if first < until {
          locked, left := true, until - second;
        } else {
          lockedUntil := lockedUntil - {key};
          failures := failures - {key};
        }
      }
      forall k ensures Stores(k) { assert old(Stores(k)); }
    }

    /** The list of a key without what has left the window, and with the new failure. */
    method Recent(key: string, ghost before: History, now: int) returns (recent: Slice)
      requires key in failures ==> failures[key].len <= failures[key].data.Length
                                   && failures[key].data[..failures[key].len] == Remembered(policy, before)
      requires key !in failures ==> Remembered(policy, before) == []
      requires before.recorded != [] ==> before.recorded[|before.recorded| - 1] <= now
      requires policy.window >= 0
      modifies Own(key)
      ensures fresh(recent.data) || (key in failures && recent.data == failures[key].data)
      ensures recent.len <= recent.data.Length
      ensures recent.data[..recent.len] == Remembered(policy, before.(recorded := before.recorded + [now]))
      ensures recent.len == |Within(before.recorded + [now], now, policy.window)|
    {
      hide Within, Remembered;
      var empty := new int[0];
      var s := if key in failures then failures[key] else Slice(empty, 0);
      assert s.data[..s.len] == Remembered(policy, before);
      NextFailureFromRemembered(policy, before, now);
      var kept := Compact(s.data, s.len, now, policy.window);
      recent := Append(s.data, kept, now);
    }

    /** Everything is in order but for one key, whose list is being replaced. */
    ghost predicate ValidBut(key: string)
      reads this, set k | k in failures :: failures[k].data
    {
      && policy.window >= 0
      && (forall j, k :: j in failures && k in failures && j != k ==> failures[j].data != failures[k].data)
      && (forall k :: k != key ==> Stores(k))
    }

    /** Overwriting one array leaves the other keys in order. */
    twostate lemma OthersStore(key: string)
      requires old(Valid()) && failures == old(failures) && lockedUntil == old(lockedUntil)
      requires histories == old(histories) && latest == old(latest)
      requires forall k :: k in failures && k != key ==> unchanged(failures[k].data)
      ensures ValidBut(key)
    {
      forall k | k != key ensures Stores(k) {
        assert old(Stores(k));
        StoresFrame(k);
      }
    }

    /** Store the new list or, at the threshold, a lock in its place. */
    method Settle(key: string, recent: Slice, ghost after: History, now: int)
      requires ValidBut(key) && latest <= now && Below(policy, after)
      requires recent.len <= recent.data.Length
      requires forall k :: k in failures && k != key ==> failures[k].data != recent.data
      requires recent.len < policy.threshold ==> after.lock == LockOf(key)
      requires recent.len < policy.threshold ==> after.recorded != [] && after.recorded[|after.recorded| - 1] == now
      requires recent.len < policy.threshold ==> recent.data[..recent.len] == Remembered(policy, after)
      requires recent.len >= policy.threshold ==> after == History([], Some(now + policy.lockDuration))
      modifies this
      ensures Valid() && latest == now && histories == old(histories)[key := after]
    {
      latest, histories := now, histories[key := after];
      failures := failures[key := recent];
      if recent.len >= policy.threshold {
        lockedUntil := lockedUntil[key := now + policy.lockDuration];
        failures := failures - {key};
      }
      assert Stores(key);
      hide Stores;
      forall k | k != key ensures Stores(k) {
        assert old(Stores(k));
        StoresFrame(k);
      }
    }

    /** A failure outside a lock: the list is brought up to date and, at the threshold, exchanged for a lock. */
    method CountFailure(key: string, ghost first: int, now: int)
      requires Valid() && latest <= first <= now && !Locked(HistoryOf(key), first)
      modifies this, Own(key)
      ensures Valid() && latest == now
      ensures histories == old(histories)[key := Fail(policy, old(HistoryOf(key)), first, now)]
    {
      assert Stores(key);
      hide Within, Below, Fail, Remembered, Locked;
      ghost var before := HistoryOf(key);
      FailOutcome(policy, before, first, now);
      var recent := Recent(key, before, now);
      OthersStore(key);
      Settle(key, recent, Fail(policy, before, first, now), now);
    }

    method RecordFailure(key: string, first: int, second: int)
      requires Valid() && latest <= first <= second
      modifies this, Own(key)
      ensures Valid() && latest == second
      ensures histories == old(histories)[key := Fail(policy, old(HistoryOf(key)), first, second)]
    {
      assert Stores(key);
      if key in lockedUntil && first < lockedUntil[key] {
        latest, histories := second, histories[key := HistoryOf(key)];
        forall k ensures Stores(k) { assert old(Stores(k)); }
      } else {
        CountFailure(key, first, second);
      }
    }

    method Clear(key: string)
      requires Valid()
      modifies this
      ensures Valid() && latest == old(latest)
      ensures histories == old(histories)[key := FRESH]
    {
      histories := histories[key := FRESH];
      failures := failures - {key};
      lockedUntil := lockedUntil - {key};
      forall k ensures Stores(k) { assert old(Stores(k)); }
    }
  }
}
