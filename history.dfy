/** The bounded history of src/lib/logger.ts as a value: appending one entry and
    trimming to the newest `maxLogs` with `slice(-maxLogs)`, and what a run of
    such appends retains. */
module History {
  import opened Entries

  function Min(a: nat, b: nat): nat {
    if a <= b then a else b
  }

  /** `s.slice(-n)` for an array `s` and a count `n`, as JavaScript defines it:
      the last `n` elements, or all of `s` when `n` is at least its length. Since
      `-0` is `0`, `slice(-0)` is the whole array. */
  function SliceLast<T>(s: seq<T>, n: nat): seq<T> {
    if n == 0 || n >= |s| then s else s[|s| - n..]
  }

  /** `slice(-n)` keeps a suffix: `min(n, |s|)` elements for a positive `n`, and
      all of them for `n == 0`. */
  lemma SliceLastSuffix<T>(s: seq<T>, n: nat)
    ensures |SliceLast(s, n)| == if n == 0 then |s| else Min(n, |s|)
    ensures SliceLast(s, n) == s[|s| - |SliceLast(s, n)|..]
  {
  }

  /** The history after `log` pushes `entry` and, when the history has grown past
      `maxLogs`, replaces it with its last `maxLogs` elements. */
  function Record<T>(history: seq<T>, entry: T, maxLogs: nat): seq<T> {
    var grown := history + [entry];
    if |grown| > maxLogs then SliceLast(grown, maxLogs) else grown
  }

  /** One append under the length bound: the bound still holds, the new entry is
      last, and either nothing is dropped or exactly the oldest entry is. */
  lemma RecordShape<T>(history: seq<T>, entry: T, maxLogs: nat)
    requires 0 < maxLogs && |history| <= maxLogs
    ensures |Record(history, entry, maxLogs)| <= maxLogs
    ensures Record(history, entry, maxLogs)[|Record(history, entry, maxLogs)| - 1] == entry
    ensures |history| < maxLogs ==> Record(history, entry, maxLogs) == history + [entry]
    ensures |history| == maxLogs ==> Record(history, entry, maxLogs) == history[1..] + [entry]
  {
    if |history| == maxLogs {
      assert (history + [entry])[1..] == history[1..] + [entry];
    }
  }

  /** Whatever the history held before, one append keeps exactly the newest
      `maxLogs` elements of the old history followed by the entry. */
  lemma RecordKeepsNewest<T>(history: seq<T>, entry: T, maxLogs: nat)
    requires 0 < maxLogs
    ensures Record(history, entry, maxLogs) == SliceLast(history + [entry], maxLogs)
  {
  }

  /** The history after the writes `writes`, in call order, starting from `history`. */
  function Replay<T>(history: seq<T>, writes: seq<T>, maxLogs: nat): seq<T>
    decreases |writes|
  {
    if writes == [] then history
    else Replay(Record(history, writes[0], maxLogs), writes[1..], maxLogs)
  }

  /** Trimming before appending more does not change what a later trim keeps. */
  lemma SliceLastAppend<T>(x: seq<T>, y: seq<T>, n: nat)
    requires 0 < n
    ensures SliceLast(SliceLast(x, n) + y, n) == SliceLast(x + y, n)
  {
    var a := SliceLast(x, n);
    var r := SliceLast(a + y, n);
    var q := SliceLast(x + y, n);
    assert |r| == |q|;
    forall k | 0 <= k < |r| ensures r[k] == q[k] {
      var p := |r| - k;  // the position counted from the end
      if p <= |y| {
        assert r[k] == y[|y| - p] == q[k];
      } else {
        assert r[k] == a[|a| - (p - |y|)];
        assert q[k] == x[|x| - (p - |y|)];
      }
    }
  }

  /** Bounded retention: after any run of writes the history is the newest
      `maxLogs` of the old history followed by the writes, in call order. */
  lemma {:induction false} ReplayKeepsNewest<T>(history: seq<T>, writes: seq<T>, maxLogs: nat)
    requires 0 < maxLogs && |history| <= maxLogs
    ensures Replay(history, writes, maxLogs) == SliceLast(history + writes, maxLogs)
    decreases |writes|
  {
    if writes == [] {
      assert history + writes == history;
    } else {
      var w, rest := writes[0], writes[1..];
      var next := Record(history, w, maxLogs);
      RecordShape(history, w, maxLogs);
      RecordKeepsNewest(history, w, maxLogs);
      assert writes == [w] + rest;
      calc {
        Replay(history, writes, maxLogs);
        Replay(next, rest, maxLogs);
        { ReplayKeepsNewest(next, rest, maxLogs); }
        SliceLast(next + rest, maxLogs);
        { SliceLastAppend(history + [w], rest, maxLogs); }
        SliceLast(history + [w] + rest, maxLogs);
        { assert history + [w] + rest == history + writes; }
        SliceLast(history + writes, maxLogs);
      }
    }
  }

  /** After at least `maxLogs` writes the history is exactly the last `maxLogs`
      writes in call order, whatever it held before. */
  lemma RetainsLastWrites<T>(history: seq<T>, writes: seq<T>, maxLogs: nat)
    requires 0 < maxLogs <= |writes| && |history| <= maxLogs
    ensures Replay(history, writes, maxLogs) == writes[|writes| - maxLogs..]
  {
    ReplayKeepsNewest(history, writes, maxLogs);
    var r := Replay(history, writes, maxLogs);
    forall k | 0 <= k < maxLogs ensures r[k] == writes[|writes| - maxLogs + k] {
      assert (history + writes)[|history| + |writes| - maxLogs + k] == writes[|writes| - maxLogs + k];
    }
  }

  /** With room for three, the writes "a", "b", "c", "d" leave "b", "c", "d". */
  lemma CapacityThree()
    ensures Replay([], ["a", "b", "c", "d"], 3) == ["b", "c", "d"]
  {
    RetainsLastWrites([], ["a", "b", "c", "d"], 3);
  }

  /** A suffix of a chronological history is chronological. */
  lemma SuffixChronological(s: seq<LogEntry>, from: nat)
    requires Chronological(s) && from <= |s|
    ensures Chronological(s[from..])
  {
    forall i, j | 0 <= i < j < |s| - from ensures s[from..][i].timestamp <= s[from..][j].timestamp {
      assert s[from..][i] == s[from + i] && s[from..][j] == s[from + j];
    }
  }

  /** Timestamps stay in order when each write's time is no earlier than the
      newest retained entry's. */
  lemma RecordChronological(history: seq<LogEntry>, entry: LogEntry, maxLogs: nat)
    requires Chronological(history)
    requires history != [] ==> history[|history| - 1].timestamp <= entry.timestamp
    ensures Chronological(Record(history, entry, maxLogs))
  {
    var grown := history + [entry];
    assert Chronological(grown) by {
      forall i, j | 0 <= i < j < |grown| ensures grown[i].timestamp <= grown[j].timestamp {
        if j == |history| && i < |history| - 1 {
          assert history[i].timestamp <= history[|history| - 1].timestamp;
        }
      }
    }
    SuffixChronological(grown, |grown| - |Record(history, entry, maxLogs)|);
  }
}
