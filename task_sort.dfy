/**
 * `Array.prototype.sort` with a comparator of the form
 * `(a, b) => key(a) - key(b)`, which the screens use on task lists. The sort
 * is stable (required of `Array.prototype.sort` since ECMAScript 2019), so
 * its result is the stable insertion sort `SortBy` defined here; `SortInPlace`
 * performs it on an array.
 */
module TaskSort {
  import opened Records
  import opened Seqs

  /** Every task's key is at most the key of every later task. */
  ghost predicate SortedBy(s: seq<Task>, key: Task -> int) {
    forall i, j :: 0 <= i < j < |s| ==> key(s[i]) <= key(s[j])
  }

  /** Inserts `x` after every task of `s` whose key is at most `key(x)`, scanning from the end. */
  function Insert(s: seq<Task>, x: Task, key: Task -> int): seq<Task>
    decreases |s|
  {
    if s == [] || key(s[|s| - 1]) <= key(x) then s + [x]
    else Insert(s[..|s| - 1], x, key) + [s[|s| - 1]]
  }

  /** Insertion adds `x` and loses nothing. */
  lemma {:induction false} InsertPermutes(s: seq<Task>, x: Task, key: Task -> int)
    ensures multiset(Insert(s, x, key)) == multiset(s) + multiset{x}
    decreases |s|
  {
    if s != [] && key(s[|s| - 1]) > key(x) {
      InsertPermutes(s[..|s| - 1], x, key);
      LastSplit(s);
    }
  }

  /** The stable sort of `s` by `key`: each task in turn inserted into the sorted prefix. */
  function SortBy(s: seq<Task>, key: Task -> int): seq<Task>
    decreases |s|
  {
    if s == [] then [] else Insert(SortBy(s[..|s| - 1], key), s[|s| - 1], key)
  }

  /** The sort returns a permutation of its input. */
  lemma {:induction false} SortByPermutes(s: seq<Task>, key: Task -> int)
    ensures multiset(SortBy(s, key)) == multiset(s)
    decreases |s|
  {
    if s != [] {
      SortByPermutes(s[..|s| - 1], key);
      InsertPermutes(SortBy(s[..|s| - 1], key), s[|s| - 1], key);
      LastSplit(s);
    }
  }

  /** The sort returns its input in non-decreasing key order. */
  lemma {:induction false} SortBySorted(s: seq<Task>, key: Task -> int)
    ensures SortedBy(SortBy(s, key), key)
    decreases |s|
  {
    if s != [] {
      SortBySorted(s[..|s| - 1], key);
      InsertSorted(SortBy(s[..|s| - 1], key), s[|s| - 1], key);
    }
  }

  /** Inserting into a sorted sequence keeps it sorted. */
  lemma {:induction false} InsertSorted(s: seq<Task>, x: Task, key: Task -> int)
    requires SortedBy(s, key)
    ensures SortedBy(Insert(s, x, key), key)
    decreases |s|
  {
    if s == [] || key(s[|s| - 1]) <= key(x) {
      SortedAppend(s, x, key);
    } else {
      var init, last := s[..|s| - 1], s[|s| - 1];
      SortedInit(s, key);
      InsertSorted(init, x, key);
      InsertBound(init, x, key, key(last));
      SortedAppend(Insert(init, x, key), last, key);
    }
  }

  /** Every task of `s` has a key of at most `b`. */
  ghost predicate KeysAtMost(s: seq<Task>, key: Task -> int, b: int) {
    forall i :: 0 <= i < |s| ==> key(s[i]) <= b
  }

  /** A bound on the keys of `s` and of `x` bounds the keys after insertion. */
  lemma {:induction false} InsertBound(s: seq<Task>, x: Task, key: Task -> int, b: int)
    requires KeysAtMost(s, key, b) && key(x) <= b
    ensures KeysAtMost(Insert(s, x, key), key, b)
    decreases |s|
  {
    if s != [] && key(s[|s| - 1]) > key(x) {
      InsertBound(s[..|s| - 1], x, key, b);
    }
  }

  /** Appending a task whose key bounds a sorted sequence keeps it sorted. */
  lemma SortedAppend(s: seq<Task>, x: Task, key: Task -> int)
    requires SortedBy(s, key)
    requires s == [] || key(s[|s| - 1]) <= key(x) || KeysAtMost(s, key, key(x))
    ensures SortedBy(s + [x], key)
  {
  }

  /** The tasks of `s` whose key is `k`. */
  function KeyIs(key: Task -> int, k: int): Task -> bool {
    t => key(t) == k
  }

  /** Insertion places `x` after every task with the same key, and moves nothing else. */
  lemma {:induction false} InsertStable(s: seq<Task>, x: Task, key: Task -> int, k: int)
    ensures Filter(Insert(s, x, key), KeyIs(key, k))
         == Filter(s, KeyIs(key, k)) + (if key(x) == k then [x] else [])
    decreases |s|
  {
    var p := KeyIs(key, k);
    if s == [] || key(s[|s| - 1]) <= key(x) {
      assert Insert(s, x, key) == s + [x];
      FilterConcat(s, [x], p);
      FilterOne(x, key, k);
    } else {
      var init, last := s[..|s| - 1], s[|s| - 1];
      var r := Insert(init, x, key);
      assert Insert(s, x, key) == r + [last];
      InsertStable(init, x, key, k);
      FilterConcat(r, [last], p);
      FilterConcat(init, [last], p);
      FilterOne(last, key, k);
      LastSplit(s);
    }
  }

  /** Filtering a single task by its key. */
  lemma FilterOne(x: Task, key: Task -> int, k: int)
    ensures Filter([x], KeyIs(key, k)) == if key(x) == k then [x] else []
  {
    assert [x][1..] == [];
  }

  /**
   * The sort is stable: for every key, the tasks with that key appear in the
   * result in the same relative order as in the input.
   */
  lemma {:induction false} SortByStable(s: seq<Task>, key: Task -> int, k: int)
    ensures Filter(SortBy(s, key), KeyIs(key, k)) == Filter(s, KeyIs(key, k))
    decreases |s|
  {
    if s != [] {
      var init, last := s[..|s| - 1], s[|s| - 1];
      SortByStable(init, key, k);
      InsertStable(SortBy(init, key), last, key, k);
      FilterConcat(init, [last], KeyIs(key, k));
      assert s == init + [last];
    }
  }

  /** A sequence already in key order is returned unchanged. */
  lemma {:induction false} SortBySortedIsIdentity(s: seq<Task>, key: Task -> int)
    requires SortedBy(s, key)
    ensures SortBy(s, key) == s
    decreases |s|
  {
    if s != [] {
      var init, last := s[..|s| - 1], s[|s| - 1];
      SortedInit(s, key);
      SortBySortedIsIdentity(init, key);
      InsertStop(init, |init|, last, key);
      assert init[..|init|] == init;
      LastSplit(s);
    }
  }

  /** Dropping the last task keeps a sorted sequence sorted, and its key is the largest. */
  lemma SortedInit(s: seq<Task>, key: Task -> int)
    requires s != [] && SortedBy(s, key)
    ensures SortedBy(s[..|s| - 1], key)
    ensures |s| >= 2 ==> key(s[|s| - 2]) <= key(s[|s| - 1])
  {
  }

  lemma LastSplit(s: seq<Task>)
    requires s != []
    ensures s == s[..|s| - 1] + [s[|s| - 1]]
  {
  }

  /** Sorting a prefix one longer inserts the next task into the sorted prefix. */
  lemma SortByExtend(s: seq<Task>, i: nat, key: Task -> int)
    requires i < |s|
    ensures SortBy(s[..i + 1], key) == Insert(SortBy(s[..i], key), s[i], key)
  {
    assert s[..i + 1][..i] == s[..i];
  }

  /** Sorts `a` in place, as `a.sort((x, y) => key(x) - key(y))` does. */
  method SortInPlace(a: array<Task>, key: Task -> int)
    modifies a
    ensures a[..] == SortBy(old(a[..]), key)
  {
    ghost var input := a[..];
    var i := 0;
    while i < a.Length
      invariant 0 <= i <= a.Length
      invariant a[..] == SortBy(input[..i], key) + input[i..]
    {
      ghost var before := a[..];
      InsertInPlace(a, i, key);
      SortByExtend(input, i, key);
      PrefixOf(before, SortBy(input[..i], key), input[i..]);
      assert input[i..][1..] == input[i + 1..];
      i := i + 1;
    }
    assert a[..] == a[..a.Length] && input == input[..a.Length];
  }

  /**
   * One step of the insertion sort: moves `a[i]` left past every task of
   * `a[..i]` with a greater key.
   */
  method InsertInPlace(a: array<Task>, i: nat, key: Task -> int)
    requires i < a.Length
    modifies a
    ensures a[..] == Insert(old(a[..i]), old(a[i]), key) + old(a[i + 1..])
  {
    var x := a[i];
    ghost var prefix, suffix := a[..i], a[i + 1..];
    var j := i;
    assert prefix[..j] == prefix && prefix[j..] == [];
    assert a[..] == prefix[..j] + [x] + prefix[j..] + suffix;
    while j > 0 && key(a[j - 1]) > key(x)
      invariant 0 <= j <= i
      invariant a[..] == prefix[..j] + [x] + prefix[j..] + suffix
      invariant Insert(prefix, x, key) == Insert(prefix[..j], x, key) + prefix[j..]
    {
      InsertShift(prefix, j, x, key);
      SwapStep(a[..], prefix, j, x, suffix);
      a[j - 1], a[j] := a[j], a[j - 1];
      j := j - 1;
    }
    InsertStop(prefix, j, x, key);
  }

  /** Swapping `x` with the task before it moves it one place left. */
  lemma SwapStep(b: seq<Task>, prefix: seq<Task>, j: nat, x: Task, suffix: seq<Task>)
    requires 0 < j <= |prefix|
    requires b == prefix[..j] + [x] + prefix[j..] + suffix
    ensures b[j - 1 := x][j := b[j - 1]] == prefix[..j - 1] + [x] + prefix[j - 1..] + suffix
  {
    assert prefix[..j] == prefix[..j - 1] + [prefix[j - 1]];
    assert prefix[j - 1..] == [prefix[j - 1]] + prefix[j..];
  }

  /** Splitting `p + rest` at the end of `p`. */
  lemma PrefixOf(b: seq<Task>, p: seq<Task>, rest: seq<Task>)
    requires b == p + rest && rest != []
    ensures b[..|p|] == p && b[|p|] == rest[0] && b[|p| + 1..] == rest[1..]
  {
  }

  /** Moving past a task with a greater key. */
  lemma InsertShift(p: seq<Task>, j: nat, x: Task, key: Task -> int)
    requires 0 < j <= |p| && key(p[j - 1]) > key(x)
    ensures Insert(p[..j], x, key) + p[j..] == Insert(p[..j - 1], x, key) + p[j - 1..]
  {
    assert p[..j][..j - 1] == p[..j - 1];
    assert p[j - 1..] == [p[j - 1]] + p[j..];
  }

  /** Reaching the start or a task whose key is at most `key(x)`. */
  lemma InsertStop(p: seq<Task>, j: nat, x: Task, key: Task -> int)
    requires j <= |p| && (j == 0 || key(p[j - 1]) <= key(x))
    ensures Insert(p[..j], x, key) == p[..j] + [x]
  {
  }
}
