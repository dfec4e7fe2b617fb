/** Facts about finite lists of identifiers that the other modules share. */
module Sequences {

  ghost predicate Distinct<T(!new)>(s: seq<T>) {
    forall i, j :: 0 <= i < j < |s| ==> s[i] != s[j]
  }

  function Elements<T>(s: seq<T>): set<T> {
    set x | x in s
  }

  function Flatten<T>(parts: seq<seq<T>>): seq<T> {
    if parts == [] then [] else Flatten(parts[..|parts| - 1]) + parts[|parts| - 1]
  }

  lemma DistinctAppend<T(!new)>(s: seq<T>, x: T)
    requires Distinct(s) && x !in s
    ensures Distinct(s + [x])
  {
  }

  lemma DistinctPrefix<T(!new)>(s: seq<T>, n: nat)
    requires Distinct(s) && n <= |s|
    ensures Distinct(s[..n]) && (n < |s| ==> s[n] !in s[..n])
  {
  }

  /** The slices at 0, size, 2 * size, ... that cover a list. */
  function Chunks<T>(s: seq<T>, size: nat): (r: seq<seq<T>>)
    requires size > 0
  {
    if s == [] then []
    else if |s| <= size then [s]
    else [s[..size]] + Chunks(s[size..], size)
  }

  lemma Regroup<T>(a: seq<T>, b: seq<T>, c: seq<T>)
    ensures (a + b) + c == a + (b + c)
  {
  }

  lemma FirstChunk<T>(s: seq<T>, size: nat)
    requires size > 0 && s != []
    ensures var n := if |s| < size then |s| else size;
            Chunks(s, size) == [s[..n]] + Chunks(s[n..], size)
  {
    if |s| <= size {
      assert s[..|s|] == s && s[|s|..] == [];
    }
  }

  lemma FlattenPrepend<T>(head: seq<T>, parts: seq<seq<T>>)
    ensures Flatten([head] + parts) == head + Flatten(parts)
  {
    if parts == [] {
      assert [head] + parts == [head];
      assert [head][..0] == [];
      assert Flatten([head]) == Flatten([]) + head;
    } else {
      var n := |parts|;
      FlattenPrepend(head, parts[..n - 1]);
      assert ([head] + parts)[..n] == [head] + parts[..n - 1];
      assert ([head] + parts)[n] == parts[n - 1];
    }
  }

  /** Slicing loses nothing, repeats nothing, and only the last slice may be short. */
  lemma {:induction false} ChunksCover<T>(s: seq<T>, size: nat)
    requires size > 0
    ensures Flatten(Chunks(s, size)) == s
    ensures forall part :: part in Chunks(s, size) ==> 0 < |part| <= size
    ensures forall k :: 0 <= k < |Chunks(s, size)| - 1 ==> |Chunks(s, size)[k]| == size
    decreases |s|
  {
    if s == [] {
    } else if |s| <= size {
      FlattenPrepend(s, []);
      assert [s] + [] == [s];
    } else {
      ChunksCover(s[size..], size);
      FlattenPrepend(s[..size], Chunks(s[size..], size));
      assert s[..size] + s[size..] == s;
    }
  }

  /** A part of a set is no larger. */
  lemma {:induction false} SubsetSize<T>(a: set<T>, b: set<T>)
    requires a <= b
    ensures |a| <= |b|
  {
    if a != {} {
      var x :| x in a;
      SubsetSize(a - {x}, b - {x});
    }
  }
}
