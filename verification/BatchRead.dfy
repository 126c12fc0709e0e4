/**
  Merging neighbouring reads: the runs built by VirtualMedia._merge_runs (bmpclient/virtual_media.py) and the row
  plan of bmpclient/bench/single_ssd.py, each with the scatter step that follows it.
 */
module BatchRead {
  import opened Arith
  import opened Bytes
  import opened Finite
  import opened Sorting

  /** A pending device read: output position and byte offset. */
  datatype Piece = Piece(pos: nat, off: nat)

  datatype Limit = Unlimited | AtMost(bytes: nat)

  ghost predicate SortedByOffset(s: seq<Piece>) {
    forall i, j :: 0 <= i < j < |s| ==> s[i].off <= s[j].off
  }

  method SortByOffset(s: seq<Piece>) returns (r: seq<Piece>)
    ensures SortedByOffset(r)
    ensures multiset(r) == multiset(s)
  {
    r := [];
    for i := 0 to |s|
      invariant SortedByOffset(r)
      invariant multiset(r) == multiset(s[..i])
    {
      assert s[..i + 1] == s[..i] + [s[i]];
      r := InsertByOffset(r, s[i]);
    }
    assert s[..|s|] == s;
  }

  method InsertByOffset(s: seq<Piece>, x: Piece) returns (r: seq<Piece>)
    requires SortedByOffset(s)
    ensures SortedByOffset(r)
    ensures multiset(r) == multiset(s) + multiset{x}
  {
    var k := |s|;
    while k > 0 && x.off < s[k - 1].off
      invariant 0 <= k <= |s|
      invariant forall j :: k <= j < |s| ==> x.off < s[j].off
    {
      k := k - 1;
    }
    r := s[..k] + [x] + s[k..];
    InsertSorted(s, k, x);
    InsertCounts(s, k, x);
  }

  lemma InsertCounts(s: seq<Piece>, k: nat, x: Piece)
    requires k <= |s|
    ensures multiset(s[..k] + [x] + s[k..]) == multiset(s) + multiset{x}
  {
    assert s == s[..k] + s[k..];
  }

  lemma InsertSorted(s: seq<Piece>, k: nat, x: Piece)
    requires SortedByOffset(s) && k <= |s|
    requires k > 0 ==> s[k - 1].off <= x.off
    requires k < |s| ==> x.off <= s[k].off
    ensures SortedByOffset(s[..k] + [x] + s[k..])
  {
  }

  function Flatten<T>(runs: seq<seq<T>>): seq<T> {
    if runs == [] then [] else Flatten(runs[..|runs| - 1]) + runs[|runs| - 1]
  }

  /** A run can be fetched with one read: each unit starts where the last one ends. */
  ghost predicate Contiguous(run: seq<Piece>, unit: nat) {
    run != [] && forall i :: 0 <= i < |run| ==> run[i].off == run[0].off + i * unit
  }

  predicate Fits(bytes: int, limit: Limit) {
    limit.Unlimited? || bytes <= limit.bytes
  }

  /** The next unit would extend the run within the limit. */
  predicate Extends(run: seq<Piece>, next: Piece, unit: nat, limit: Limit)
    requires run != []
  {
    next.off == run[|run| - 1].off + unit && Fits(next.off + unit - run[0].off, limit)
  }

  /** Two neighbouring runs that could not have been one: they do not touch, or one more unit would be too much. */
  ghost predicate Apart(run: seq<Piece>, next: seq<Piece>, unit: nat, limit: Limit) {
    && run != [] && next != []
    && (|| next[0].off != run[|run| - 1].off + unit
        || (limit.AtMost? && next[0].off + unit - run[0].off > limit.bytes))
  }

  /** One read of the run stays within the limit. */
  ghost predicate Within(run: seq<Piece>, unit: nat, limit: Limit) {
    run != [] && (limit.AtMost? ==> run[|run| - 1].off + unit - run[0].off <= limit.bytes)
  }

  /**
    Runs split the requests in order, each is one contiguous read within the limit, and no two neighbouring runs
    could have been one. Without merging every unit is read on its own.
   */
  ghost predicate GoodRuns(items: seq<Piece>, runs: seq<seq<Piece>>, merge: bool, unit: nat, limit: Limit) {
    && Flatten(runs) == items
    && (forall k :: 0 <= k < |runs| ==> Contiguous(runs[k], unit) && Within(runs[k], unit, limit))
    && (merge ==> forall k :: 1 <= k < |runs| ==> Apart(runs[k - 1], runs[k], unit, limit))
    && (!merge ==> forall k :: 0 <= k < |runs| ==> |runs[k]| == 1)
  }

  method MergeRuns(items: seq<Piece>, merge: bool, unit: nat, limit: Limit) returns (runs: seq<seq<Piece>>)
    requires limit.AtMost? ==> unit <= limit.bytes
    ensures GoodRuns(items, runs, merge, unit, limit)
  {
    runs := [];
    for i := 0 to |items|
      invariant GoodRuns(items[..i], runs, merge, unit, limit)
    {
      var last := |runs| - 1;
      assert items[..i + 1] == items[..i] + [items[i]];
      if merge && last >= 0 && Extends(runs[last], items[i], unit, limit) {
        ExtendLast(items[..i], runs, merge, unit, limit, items[i]);
        runs := runs[..last] + [runs[last] + [items[i]]];
      } else {
        StartRun(items[..i], runs, merge, unit, limit, items[i]);
        runs := runs + [[items[i]]];
      }
    }
    assert items[..|items|] == items;
  }

  lemma ExtendLast(items: seq<Piece>, runs: seq<seq<Piece>>, merge: bool, unit: nat, limit: Limit, next: Piece)
    requires GoodRuns(items, runs, merge, unit, limit) && runs != [] && merge
    requires runs[|runs| - 1] != [] && Extends(runs[|runs| - 1], next, unit, limit)
    ensures GoodRuns(items + [next], runs[..|runs| - 1] + [runs[|runs| - 1] + [next]], merge, unit, limit)
  {
    var last := |runs| - 1;
    var longer := runs[last] + [next];
    var after := runs[..last] + [longer];
    assert after[..last] == runs[..last];
    assert Flatten(after) == Flatten(runs[..last]) + longer;
    assert Flatten(after) == items + [next];
    assert next.off == runs[last][0].off + |runs[last]| * unit by {
      assert (|runs[last]| - 1) * unit + unit == |runs[last]| * unit;
    }
    assert Contiguous(longer, unit);
    assert Within(longer, unit, limit);
    forall k | 1 <= k < |after|
      ensures Apart(after[k - 1], after[k], unit, limit)
    {
      assert Apart(runs[k - 1], runs[k], unit, limit);
      assert after[k][0] == runs[k][0];
    }
  }

  lemma StartRun(items: seq<Piece>, runs: seq<seq<Piece>>, merge: bool, unit: nat, limit: Limit, next: Piece)
    requires GoodRuns(items, runs, merge, unit, limit)
    requires limit.AtMost? ==> unit <= limit.bytes
    requires runs != [] ==> runs[|runs| - 1] != [] && !(merge && Extends(runs[|runs| - 1], next, unit, limit))
    ensures GoodRuns(items + [next], runs + [[next]], merge, unit, limit)
  {
    var after := runs + [[next]];
    assert after[..|runs|] == runs;
    assert Contiguous([next], unit);
    forall k | 1 <= k < |after| && merge
      ensures Apart(after[k - 1], after[k], unit, limit)
    {
      if k < |runs| {
        assert Apart(runs[k - 1], runs[k], unit, limit);
      }
    }
  }

  /** Every request is in one of the runs. */
  lemma {:induction false} InSomeRun<T>(runs: seq<seq<T>>, x: T)
    ensures x in Flatten(runs) <==> exists k :: 0 <= k < |runs| && x in runs[k]
  {
    if runs != [] {
      var last := |runs| - 1;
      InSomeRun(runs[..last], x);
      assert runs == runs[..last] + [runs[last]];
      if x in Flatten(runs[..last]) {
        var k :| 0 <= k < last && x in runs[..last][k];
        assert x in runs[k];
      }
      if k :| 0 <= k < |runs| && x in runs[k] {
        if k < last {
          assert x in runs[..last][k];
        }
      }
    }
  }

  /** The bytes of a run fetched with one read hold each of its units at the offset the scatter uses. */
  lemma RunHoldsUnit(disk: seq<byte>, run: seq<Piece>, unit: nat, i: nat)
    requires Contiguous(run, unit) && i < |run|
    requires run[|run| - 1].off + unit <= |disk|
    ensures run[0].off <= run[i].off && run[i].off + unit <= run[|run| - 1].off + unit
    ensures disk[run[0].off..run[|run| - 1].off + unit][run[i].off - run[0].off..run[i].off - run[0].off + unit]
         == disk[run[i].off..run[i].off + unit]
  {
    MulMono(0, i, unit);
    MulMono(i, |run| - 1, unit);
    SliceOfSlice(disk, run[0].off, run[|run| - 1].off + unit, run[i].off, unit);
  }

  lemma SliceOfSlice(s: seq<byte>, lo: nat, hi: nat, from: nat, n: nat)
    requires lo <= from && from + n <= hi <= |s|
    ensures s[lo..hi][from - lo..from - lo + n] == s[from..from + n]
  {
    var a, b := s[lo..hi][from - lo..from - lo + n], s[from..from + n];
    assert |a| == |b|;
    assert forall k :: 0 <= k < n ==> a[k] == b[k];
  }

  // ---------- row plans ----------

  /** Rows start.. count of them, to be copied to the output from row dst on. */
  datatype RowRun = RowRun(start: nat, dst: nat, count: nat)

  /** One run: a stretch of consecutive rows, longer than one only when merging and then within the limit. */
  ghost predicate GoodRowRun(rows: seq<int>, r: RowRun, merge: bool, maxRows: nat) {
    && 0 < r.count && r.dst + r.count <= |rows|
    && (r.count == 1 || (merge && r.count <= maxRows))
    && forall i :: r.dst <= i < r.dst + r.count ==> rows[i] == r.start + (i - r.dst)
  }

  /** How many rows the runs read. */
  ghost function RowsRead(runs: seq<RowRun>): nat {
    if runs == [] then 0 else runs[|runs| - 1].dst + runs[|runs| - 1].count
  }

  /** Neighbouring runs could not have been one: merging is off, the first is full, or they do not touch. */
  ghost predicate Unmergeable(a: RowRun, b: RowRun, merge: bool, maxRows: nat) {
    !merge || maxRows <= a.count || a.start + a.count != b.start
  }

  /** The runs read the rows of the plan in order, without gaps or repeats, merged as far as the limit allows. */
  ghost predicate GoodRowRuns(rows: seq<int>, runs: seq<RowRun>, merge: bool, maxRows: nat) {
    runs == [] ||
    (var r, before := runs[|runs| - 1], runs[..|runs| - 1];
     && GoodRowRun(rows, r, merge, maxRows) && r.dst == RowsRead(before) && GoodRowRuns(rows, before, merge, maxRows)
     && (before != [] ==> Unmergeable(before[|before| - 1], r, merge, maxRows)))
  }

  /** The rows asked for, in order and with repeats. */
  function Wanted(indices: seq<nat>, base: nat): (w: seq<int>)
    ensures |w| == |indices| && forall i :: 0 <= i < |w| ==> w[i] == base + indices[i]
  {
    seq(|indices|, i requires 0 <= i < |indices| => base + indices[i])
  }

  /** rows are the distinct rows asked for, in order; slots says where each request finds its row. */
  ghost predicate GoodPlan(indices: seq<nat>, base: nat, rows: seq<int>, slots: seq<nat>) {
    && Ascending(rows)
    && Elements(rows) == Elements(Wanted(indices, base))
    && |slots| == |indices|
    && (forall i :: 0 <= i < |indices| ==> slots[i] < |rows| && rows[slots[i]] == base + indices[i])
  }

  /** plan_rows: distinct rows in order, where each requested position finds its row, and the bounded runs. */
  method PlanRows(indices: seq<nat>, base: nat, merge: bool, maxRows: nat)
    returns (rows: seq<int>, slots: seq<nat>, runs: seq<RowRun>)
    ensures GoodPlan(indices, base, rows, slots)
    ensures GoodRowRuns(rows, runs, merge, maxRows) && RowsRead(runs) == |rows|
  {
    var wanted := Wanted(indices, base);
    rows := SortDistinct(wanted);
    forall i | 0 <= i < |indices|
      ensures base + indices[i] in rows
    {
      assert wanted[i] in Elements(wanted);
      assert wanted[i] in Elements(rows);
    }
    slots := Slots(indices, base, rows);
    forall i | 0 <= i < |rows|
      ensures 0 <= rows[i]
    {
      RowWanted(indices, base, rows, i);
    }
    runs := RowRuns(rows, merge, maxRows);
  }

  /** A planned row is one that was asked for. */
  lemma RowWanted(indices: seq<nat>, base: nat, rows: seq<int>, i: nat)
    requires Elements(rows) == Elements(Wanted(indices, base)) && i < |rows|
    ensures exists k :: 0 <= k < |indices| && rows[i] == base + indices[k]
  {
    assert rows[i] in Elements(rows);
    var k :| 0 <= k < |indices| && Wanted(indices, base)[k] == rows[i];
  }

  /** Where each requested position finds its row. */
  method Slots(indices: seq<nat>, base: nat, rows: seq<int>) returns (slots: seq<nat>)
    requires Ascending(rows) && forall i :: 0 <= i < |indices| ==> base + indices[i] in rows
    ensures |slots| == |indices|
    ensures forall i :: 0 <= i < |indices| ==> slots[i] < |rows| && rows[slots[i]] == base + indices[i]
  {
    slots := [];
    for i := 0 to |indices|
      invariant |slots| == i
      invariant forall j :: 0 <= j < i ==> slots[j] < |rows| && rows[slots[j]] == base + indices[j]
    {
      var k := Place(rows, base + indices[i]);
      slots := slots + [k];
    }
  }

  method RowRuns(rows: seq<int>, merge: bool, maxRows: nat) returns (runs: seq<RowRun>)
    requires forall i :: 0 <= i < |rows| ==> 0 <= rows[i]
    ensures GoodRowRuns(rows, runs, merge, maxRows) && RowsRead(runs) == |rows|
  {
    runs := [];
    for pos := 0 to |rows|
      invariant GoodRowRuns(rows, runs, merge, maxRows) && RowsRead(runs) == pos
    {
      var last := |runs| - 1;
      if merge && last >= 0 && rows[pos] == runs[last].start + runs[last].count && runs[last].count < maxRows {
        LongerRun(rows, runs, merge, maxRows);
        runs := runs[last := RowRun(runs[last].start, runs[last].dst, runs[last].count + 1)];
      } else {
        NewRun(rows, runs, merge, maxRows);
        runs := runs + [RowRun(rows[pos], pos, 1)];
      }
    }
  }

  lemma LongerRun(rows: seq<int>, runs: seq<RowRun>, merge: bool, maxRows: nat)
    requires runs != [] && GoodRowRuns(rows, runs, merge, maxRows) && RowsRead(runs) < |rows| && merge
    requires var r := runs[|runs| - 1]; rows[RowsRead(runs)] == r.start + r.count && r.count < maxRows
    ensures var last, r := |runs| - 1, runs[|runs| - 1];
      var more := runs[last := RowRun(r.start, r.dst, r.count + 1)];
      GoodRowRuns(rows, more, merge, maxRows) && RowsRead(more) == RowsRead(runs) + 1
  {
    var last, r := |runs| - 1, runs[|runs| - 1];
    assert runs[last := RowRun(r.start, r.dst, r.count + 1)][..last] == runs[..last];
  }

  lemma NewRun(rows: seq<int>, runs: seq<RowRun>, merge: bool, maxRows: nat)
    requires GoodRowRuns(rows, runs, merge, maxRows) && RowsRead(runs) < |rows| && 0 <= rows[RowsRead(runs)]
    requires runs != [] && merge ==>
      var r := runs[|runs| - 1]; !(rows[RowsRead(runs)] == r.start + r.count && r.count < maxRows)
    ensures var more := runs + [RowRun(rows[RowsRead(runs)], RowsRead(runs), 1)];
      GoodRowRuns(rows, more, merge, maxRows) && RowsRead(more) == RowsRead(runs) + 1
  {
    assert (runs + [RowRun(rows[RowsRead(runs)], RowsRead(runs), 1)])[..|runs|] == runs;
  }

  lemma {:induction false} PrefixGood(rows: seq<int>, runs: seq<RowRun>, merge: bool, maxRows: nat, k: nat)
    requires GoodRowRuns(rows, runs, merge, maxRows) && k <= |runs|
    ensures GoodRowRuns(rows, runs[..k], merge, maxRows)
    decreases |runs|
  {
    if k == |runs| {
      assert runs[..k] == runs;
    } else {
      PrefixGood(rows, runs[..|runs| - 1], merge, maxRows, k);
      assert runs[..|runs| - 1][..k] == runs[..k];
    }
  }

  /** Each run is read at once and copied to its place in the output. */
  method ReadRuns<Page(==)>(disk: seq<Page>, output: array<Page>, rows: seq<int>, runs: seq<RowRun>, merge: bool,
                       maxRows: nat)
    requires GoodRowRuns(rows, runs, merge, maxRows) && RowsRead(runs) == |rows| == output.Length
    requires forall i :: 0 <= i < |rows| ==> 0 <= rows[i] < |disk|
    modifies output
    ensures forall i :: 0 <= i < |rows| ==> output[i] == disk[rows[i]]
  {
    for k := 0 to |runs|
      invariant RowsRead(runs[..k]) <= |rows|
      invariant forall i :: 0 <= i < RowsRead(runs[..k]) ==> output[i] == disk[rows[i]]
    {
      PrefixGood(rows, runs, merge, maxRows, k + 1);
      assert runs[..k + 1][..k] == runs[..k];
      CopyRun(disk, output, rows, runs[k], merge, maxRows);
    }
    assert runs[..|runs|] == runs;
  }

  method CopyRun<Page(==)>(disk: seq<Page>, output: array<Page>, rows: seq<int>, r: RowRun, merge: bool, maxRows: nat)
    requires GoodRowRun(rows, r, merge, maxRows) && output.Length == |rows|
    requires forall i :: 0 <= i < |rows| ==> 0 <= rows[i] < |disk|
    modifies output
    ensures forall i :: r.dst <= i < r.dst + r.count ==> output[i] == disk[rows[i]]
    ensures forall i :: 0 <= i < |rows| && !(r.dst <= i < r.dst + r.count) ==> output[i] == old(output[i])
  {
    for c := 0 to r.count
      invariant forall i :: r.dst <= i < r.dst + c ==> output[i] == disk[rows[i]]
      invariant forall i :: 0 <= i < |rows| && !(r.dst <= i < r.dst + c) ==> output[i] == old(output[i])
    {
      assert rows[r.dst + c] == r.start + c;
      output[r.dst + c] := disk[r.start + c];
    }
  }

  /**
    Replaying a plan: every run is read once into the output at its place, then each requested position takes its
    row. The result is the same as reading every requested row on its own, in the requested order.
   */
  method Replay<Page(==)>(disk: seq<Page>, blank: Page, indices: seq<nat>, base: nat, merge: bool, maxRows: nat)
    returns (ordered: seq<Page>)
    requires forall i :: 0 <= i < |indices| ==> base + indices[i] < |disk|
    ensures |ordered| == |indices|
    ensures forall i :: 0 <= i < |indices| ==> ordered[i] == disk[base + indices[i]]
  {
    var rows, slots, runs := PlanRows(indices, base, merge, maxRows);
    forall i | 0 <= i < |rows|
      ensures 0 <= rows[i] < |disk|
    {
      RowWanted(indices, base, rows, i);
    }
    var output := new Page[|rows|](_ => blank);
    ReadRuns(disk, output, rows, runs, merge, maxRows);
    ordered := [];
    for i := 0 to |indices|
      invariant |ordered| == i
      invariant forall j :: 0 <= j < i ==> ordered[j] == disk[base + indices[j]]
    {
      ordered := ordered + [output[slots[i]]];
    }
  }
}
