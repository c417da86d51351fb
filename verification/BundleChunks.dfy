/** Result chunks of a calculation bundle and the query index over them
    (crates/solver-worker/src/calculation_bundle.rs, crates/solver-worker/src/artifacts.rs). */
module BundleChunks {
  import opened Wrappers

  const WIDTH: nat := 256

  /** The processes one LCIA artifact covers, both ends included. */
  datatype Range = Range(first: nat, last: nat)

  /** Recorded chunk starts, and the LCIA artifacts of the chunks that were written. */
  datatype Bundle = Bundle(processes: nat, starts: set<nat>, chunks: seq<Range>)

  /** A call of `write_result_chunk`; `sound` tells whether its items carry complete vectors. */
  datatype Write = Write(first: nat, count: nat, sound: bool)

  predicate Acceptable(b: Bundle, w: Write) {
    w.first % WIDTH == 0 && 1 <= w.count <= WIDTH && w.first + w.count <= b.processes && w.first !in b.starts
  }

  /** The start is recorded before the items are looked at. */
  function AfterWrite(b: Bundle, w: Write): Bundle {
    if !Acceptable(b, w) then b
    else
      var marked := b.(starts := b.starts + {w.first});
      if w.sound then marked.(chunks := b.chunks + [Range(w.first, w.first + w.count - 1)]) else marked
  }

  function AfterWrites(processes: nat, writes: seq<Write>): Bundle {
    if writes == [] then Bundle(processes, {}, [])
    else AfterWrite(AfterWrites(processes, writes[..|writes| - 1]), writes[|writes| - 1])
  }

  predicate Shaped(processes: nat, r: Range) {
    r.first % WIDTH == 0 && r.first <= r.last < processes && r.last - r.first < WIDTH
  }

  /** What every sequence of writes leaves behind. */
  ghost predicate Recorded(b: Bundle) {
    && (forall s :: s in b.starts ==> s % WIDTH == 0 && s < b.processes)
    && (forall i :: 0 <= i < |b.chunks| ==> Shaped(b.processes, b.chunks[i]) && b.chunks[i].first in b.starts)
    && (forall i, j :: 0 <= i < j < |b.chunks| ==> b.chunks[i].first != b.chunks[j].first)
  }

  lemma WriteKeepsRecorded(b: Bundle, w: Write)
    requires Recorded(b)
    ensures Recorded(AfterWrite(b, w))
  {
  }

  lemma {:induction false} EveryRunIsRecorded(processes: nat, writes: seq<Write>)
    ensures Recorded(AfterWrites(processes, writes)) && AfterWrites(processes, writes).processes == processes
  {
    if writes == [] {
    } else {
      EveryRunIsRecorded(processes, writes[..|writes| - 1]);
      WriteKeepsRecorded(AfterWrites(processes, writes[..|writes| - 1]), writes[|writes| - 1]);
    }
  }

  /** Every 256th process starts a recorded chunk, and nothing else does. */
  ghost predicate StartsComplete(b: Bundle) {
    forall s: nat :: s in b.starts <==> s % 256 == 0 && s < b.processes
  }

  // ---------------------------------------------------------------------
  // What a sequence of writes leaves, on the writes alone
  // ---------------------------------------------------------------------

  /** On the grid of 256 processes, not empty, no wider than that, and within the axis. */
  ghost predicate WellShaped(processes: nat, w: Write) {
    w.first % 256 == 0 && 1 <= w.count <= 256 && w.first + w.count <= processes
  }

  /** Write `i` is the first well-shaped one with its start. */
  ghost predicate Lands(processes: nat, writes: seq<Write>, i: nat) {
    i < |writes| && WellShaped(processes, writes[i])
    && forall j :: 0 <= j < i && WellShaped(processes, writes[j]) ==> writes[j].first != writes[i].first
  }

  /** Write `i` lands with complete items and covers the processes of `r`. */
  ghost predicate Leaves(processes: nat, writes: seq<Write>, i: nat, r: Range) {
    Lands(processes, writes, i) && writes[i].sound
    && r.first == writes[i].first && r.last + 1 == writes[i].first + writes[i].count
  }

  ghost predicate StartWritten(processes: nat, writes: seq<Write>, s: nat) {
    exists i :: 0 <= i < |writes| && WellShaped(processes, writes[i]) && writes[i].first == s
  }

  ghost predicate ChunkWritten(processes: nat, writes: seq<Write>, r: Range) {
    exists i: nat :: Leaves(processes, writes, i, r)
  }

  lemma OneMoreStart(processes: nat, writes: seq<Write>, w: Write, s: nat)
    ensures StartWritten(processes, writes + [w], s) <==>
            StartWritten(processes, writes, s) || (WellShaped(processes, w) && w.first == s)
  {
    var more := writes + [w];
    assert more[|writes|] == w && forall i :: 0 <= i < |writes| ==> more[i] == writes[i];
    if StartWritten(processes, writes, s) {
      var i :| 0 <= i < |writes| && WellShaped(processes, writes[i]) && writes[i].first == s;
      assert more[i] == writes[i];
    }
  }

  lemma OneMoreChunk(processes: nat, writes: seq<Write>, w: Write, r: Range)
    ensures ChunkWritten(processes, writes + [w], r) <==>
            ChunkWritten(processes, writes, r) || Leaves(processes, writes + [w], |writes|, r)
  {
    var more := writes + [w];
    assert forall i :: 0 <= i < |writes| ==> more[i] == writes[i];
    if ChunkWritten(processes, writes, r) {
      var i :| Leaves(processes, writes, i, r);
      assert Leaves(processes, more, i, r);
    }
    if ChunkWritten(processes, more, r) {
      var i: nat :| Leaves(processes, more, i, r);
      assert i < |writes| ==> Leaves(processes, writes, i, r);
    }
  }

  /** After any writes: a start is recorded exactly when a well-shaped write used it, and a chunk exists
      exactly when the first such write had complete items. */
  lemma {:induction false} RunLeaves(processes: nat, writes: seq<Write>)
    ensures forall s: nat :: s in AfterWrites(processes, writes).starts <==> StartWritten(processes, writes, s)
    ensures forall r :: r in AfterWrites(processes, writes).chunks <==> ChunkWritten(processes, writes, r)
  {
    if writes == [] {
    } else {
      var front, w := writes[..|writes| - 1], writes[|writes| - 1];
      var before, after := AfterWrites(processes, front), AfterWrites(processes, writes);
      assert writes == front + [w];
      RunLeaves(processes, front);
      EveryRunIsRecorded(processes, front);
      forall s: nat ensures s in after.starts <==> StartWritten(processes, writes, s) {
        OneMoreStart(processes, front, w, s);
      }
      LastLands(processes, front, w);
      forall r ensures r in after.chunks <==> ChunkWritten(processes, writes, r) {
        OneMoreChunk(processes, front, w, r);
      }
    }
  }

  lemma LastLands(processes: nat, front: seq<Write>, w: Write)
    ensures Lands(processes, front + [w], |front|) <==>
            WellShaped(processes, w) && !StartWritten(processes, front, w.first)
  {
    var more := front + [w];
    assert more[|front|] == w && forall i :: 0 <= i < |front| ==> more[i] == front[i];
  }

  /** The writer object. */
  class BundleWriter {
    const processes: nat
    var starts: set<nat>
    var chunks: seq<Range>

    ghost function View(): Bundle
      reads this
    {
      Bundle(processes, starts, chunks)
    }

    constructor (processes: nat)
      ensures View() == Bundle(processes, {}, [])
    {
      this.processes := processes;
      starts := {};
      chunks := [];
    }

    method WriteResultChunk(w: Write) returns (ok: bool)
      requires Recorded(View())
      modifies this
      ensures Recorded(View()) && View() == AfterWrite(old(View()), w)
      ensures ok <==> WellShaped(processes, w) && w.first !in old(starts) && w.sound
      ensures starts == if WellShaped(processes, w) then old(starts) + {w.first} else old(starts)
      ensures chunks == if ok then old(chunks) + [Range(w.first, w.first + w.count - 1)] else old(chunks)
    {
      WriteKeepsRecorded(View(), w);
      if w.first % WIDTH != 0 || w.count == 0 || w.count > WIDTH || w.first + w.count > processes {
        return false;
      }
      if w.first in starts {
        return false;
      }
      starts := starts + {w.first};
      if !w.sound {
        return false;
      }
      chunks := chunks + [Range(w.first, w.first + w.count - 1)];
      ok := true;
    }

    /** The completeness check of `finish`. */
    method Finish() returns (ok: bool)
      ensures ok <==> StartsComplete(View())
    {
      var expected: set<nat> := {};
      var next: nat := 0;
      while next < processes
        invariant next % WIDTH == 0
        invariant forall s: nat :: s in expected <==> s % WIDTH == 0 && s < processes && s < next
        decreases processes - next
      {
        assert forall s: nat :: s % WIDTH == 0 && next <= s < next + WIDTH ==> s == next;
        expected := expected + {next};
        next := next + WIDTH;
      }
      ok := starts == expected;
    }
  }

  // ---------------------------------------------------------------------
  // The query index
  // ---------------------------------------------------------------------

  function Insert(r: Range, s: seq<Range>): seq<Range> {
    if s == [] || r.first <= s[0].first then [r] + s else [s[0]] + Insert(r, s[1..])
  }

  /** Chunks in ascending order of their first process. */
  function Sorted(s: seq<Range>): seq<Range> {
    if s == [] then [] else Insert(s[0], Sorted(s[1..]))
  }

  function Covered(s: seq<Range>): nat
    requires forall i :: 0 <= i < |s| ==> s[i].first <= s[i].last
  {
    if s == [] then 0 else Covered(s[..|s| - 1]) + s[|s| - 1].last - s[|s| - 1].first + 1
  }

  ghost predicate Ascending(s: seq<Range>) {
    forall i, j :: 0 <= i < j < |s| ==> s[i].first < s[j].first
  }

  lemma {:induction false} InsertMembers(r: Range, s: seq<Range>)
    ensures multiset(Insert(r, s)) == multiset{r} + multiset(s)
  {
    if s == [] || r.first <= s[0].first {
    } else {
      InsertMembers(r, s[1..]);
      assert s == [s[0]] + s[1..];
    }
  }

  lemma {:induction false} SortedMembers(s: seq<Range>)
    ensures multiset(Sorted(s)) == multiset(s)
  {
    if s == [] {
    } else {
      SortedMembers(s[1..]);
      InsertMembers(s[0], Sorted(s[1..]));
      assert s == [s[0]] + s[1..];
    }
  }

  lemma {:induction false} InsertAscends(r: Range, s: seq<Range>)
    requires Ascending(s) && forall i :: 0 <= i < |s| ==> s[i].first != r.first
    ensures Ascending(Insert(r, s))
  {
    if s == [] || s[0].first >= r.first {
    } else {
      InsertAscends(r, s[1..]);
      InsertMembers(r, s[1..]);
      var t := Insert(r, s[1..]);
      forall i | 0 <= i < |t| ensures s[0].first < t[i].first {
        assert t[i] in multiset(t);
        assert t[i] == r || t[i] in s[1..];
      }
    }
  }

  lemma {:induction false} SortedAscends(s: seq<Range>)
    requires forall i, j :: 0 <= i < j < |s| ==> s[i].first != s[j].first
    ensures Ascending(Sorted(s))
  {
    if s == [] {
    } else {
      SortedAscends(s[1..]);
      SortedMembers(s[1..]);
      var t := Sorted(s[1..]);
      forall i | 0 <= i < |t| ensures t[i].first != s[0].first {
        assert t[i] in multiset(t);
        assert t[i] in s[1..];
      }
      InsertAscends(s[0], t);
    }
  }

  /** Full chunks one after the other from zero, and a last one up to the end of the axis. */
  ghost predicate IsPartition(processes: nat, s: seq<Range>) {
    && (forall i :: 0 <= i < |s| ==> s[i].first == WIDTH * i)
    && (forall i :: 0 <= i < |s| - 1 ==> s[i].last == WIDTH * i + WIDTH - 1)
    && (if s == [] then processes == 0 else Shaped(processes, s[|s| - 1]) && s[|s| - 1].last + 1 == processes)
  }

  function End(s: seq<Range>): nat {
    if s == [] then 0 else s[|s| - 1].last + 1
  }

  ghost predicate Chunks(processes: nat, s: seq<Range>) {
    Ascending(s) && forall i :: 0 <= i < |s| ==> Shaped(processes, s[i])
  }

  /** Starts on the grid cannot overlap, so what is covered never reaches past the last chunk. */
  lemma {:induction false} CoveredFits(processes: nat, s: seq<Range>)
    requires Chunks(processes, s)
    ensures Covered(s) <= End(s) <= processes
  {
    if s == [] {
    } else {
      var front := s[..|s| - 1];
      CoveredFits(processes, front);
      if front != [] {
        GridStep(front[|front| - 1].first, s[|s| - 1].first);
      }
    }
  }

  lemma GridStep(a: nat, b: nat)
    requires a % WIDTH == 0 && b % WIDTH == 0 && a < b
    ensures a + WIDTH <= b
  {
  }

  /** Covering everything up to its end leaves a list no gap and no short chunk before the last. */
  lemma {:induction false} TightMeansPartition(processes: nat, s: seq<Range>)
    requires Chunks(processes, s) && Covered(s) == End(s)
    ensures IsPartition(End(s), s)
  {
    if s == [] {
    } else {
      var front, back := s[..|s| - 1], s[|s| - 1];
      CoveredFits(processes, front);
      if front != [] {
        GridStep(front[|front| - 1].first, back.first);
      }
      assert Covered(front) == End(front) == back.first;
      TightMeansPartition(processes, front);
      if front != [] {
        assert front[|front| - 1].last - front[|front| - 1].first < WIDTH;
        assert back.first == WIDTH * |front|;
      }
    }
  }

  lemma {:induction false} PartitionIsTight(processes: nat, s: seq<Range>)
    requires Chunks(processes, s) && IsPartition(End(s), s)
    ensures Covered(s) == End(s)
  {
    if s == [] {
    } else {
      var front := s[..|s| - 1];
      if front != [] {
        assert front[|front| - 1].last == WIDTH * (|front| - 1) + WIDTH - 1;
      }
      PartitionIsTight(processes, front);
    }
  }

  /** Some chunk of `s` holds process `x`. */
  ghost predicate Holds(s: seq<Range>, x: nat) {
    exists i :: 0 <= i < |s| && s[i].first <= x <= s[i].last
  }

  /** Starts on the grid lie no further apart than they must when every grid point is held. */
  lemma {:induction false} HeldStarts(processes: nat, s: seq<Range>, i: nat)
    requires Chunks(processes, s) && (forall x: nat :: x < processes ==> Holds(s, x)) && i < |s|
    ensures s[i].first == WIDTH * i
  {
    forall j | 0 <= j < i ensures s[j].first == WIDTH * j {
      HeldStarts(processes, s, j);
    }
    if i > 0 {
      GridStep(s[i - 1].first, s[i].first);
    }
    assert WIDTH * i <= s[i].first;
    assert Holds(s, WIDTH * i);
    var j :| 0 <= j < |s| && s[j].first <= WIDTH * i <= s[j].last;
    SameGridPoint(s[j].first, WIDTH * i);
    assert i < j ==> s[i].first < s[j].first;
  }

  lemma SameGridPoint(a: nat, b: nat)
    requires a % WIDTH == 0 && b % WIDTH == 0 && a <= b < a + WIDTH
    ensures a == b
  {
  }

  /** Sorted chunks partition the axis exactly when they hold every process. */
  lemma PartitionIffHeld(processes: nat, s: seq<Range>)
    requires Chunks(processes, s)
    ensures IsPartition(processes, s) <==> forall x: nat :: x < processes ==> Holds(s, x)
  {
    if IsPartition(processes, s) {
      forall x: nat | x < processes ensures Holds(s, x) {
        PartitionHolds(processes, s, x);
      }
    }
    if forall x: nat :: x < processes ==> Holds(s, x) {
      HeldIsPartition(processes, s);
    }
  }

  lemma PartitionHolds(processes: nat, s: seq<Range>, x: nat)
    requires IsPartition(processes, s) && x < processes
    ensures Holds(s, x)
  {
    var i := x / WIDTH;
    var n := |s| - 1;
    assert s[n].first == WIDTH * n && s[n].last < WIDTH * n + WIDTH;
    assert i <= n;
    assert s[i].first <= x <= s[i].last;
  }

  lemma HeldIsPartition(processes: nat, s: seq<Range>)
    requires Chunks(processes, s) && forall x: nat :: x < processes ==> Holds(s, x)
    ensures IsPartition(processes, s)
  {
    forall i | 0 <= i < |s| ensures s[i].first == WIDTH * i {
      HeldStarts(processes, s, i);
    }
    forall i | 0 <= i < |s| - 1 ensures s[i].last == WIDTH * i + WIDTH - 1 && s[i].last + 1 < processes {
      var x := WIDTH * i + WIDTH - 1;
      assert s[i + 1].first == WIDTH * (i + 1);
      assert Holds(s, x);
      var j :| 0 <= j < |s| && s[j].first <= x <= s[j].last;
      assert j == i;
    }
    if processes > 0 {
      assert Holds(s, processes - 1);
      var j :| 0 <= j < |s| && s[j].first <= processes - 1 <= s[j].last;
    }
  }

  /** The first well-shaped write with its start covers process `x` and has complete items. */
  ghost predicate Written(processes: nat, writes: seq<Write>, x: nat) {
    exists i: nat :: Lands(processes, writes, i) && writes[i].sound
                     && writes[i].first <= x < writes[i].first + writes[i].count
  }

  lemma SortedHas(s: seq<Range>, r: Range)
    ensures r in Sorted(s) <==> r in s
  {
    SortedMembers(s);
    assert r in Sorted(s) <==> r in multiset(Sorted(s));
  }

  lemma HeldIsWritten(processes: nat, writes: seq<Write>, x: nat)
    requires Holds(Sorted(AfterWrites(processes, writes).chunks), x)
    ensures Written(processes, writes, x)
  {
    var s := Sorted(AfterWrites(processes, writes).chunks);
    var i :| 0 <= i < |s| && s[i].first <= x <= s[i].last;
    SortedHas(AfterWrites(processes, writes).chunks, s[i]);
    RunLeaves(processes, writes);
    var k: nat :| Leaves(processes, writes, k, s[i]);
  }

  lemma WrittenIsHeld(processes: nat, writes: seq<Write>, x: nat)
    requires Written(processes, writes, x)
    ensures Holds(Sorted(AfterWrites(processes, writes).chunks), x)
  {
    var k: nat :| Lands(processes, writes, k) && writes[k].sound
                  && writes[k].first <= x < writes[k].first + writes[k].count;
    var r := Range(writes[k].first, writes[k].first + writes[k].count - 1);
    assert Leaves(processes, writes, k, r);
    RunLeaves(processes, writes);
    SortedHas(AfterWrites(processes, writes).chunks, r);
    HasHolds(Sorted(AfterWrites(processes, writes).chunks), r, x);
  }

  lemma HasHolds(s: seq<Range>, r: Range, x: nat)
    requires r in s && r.first <= x <= r.last
    ensures Holds(s, x)
  {
    var i :| 0 <= i < |s| && s[i] == r;
  }

  /** The sorted chunks of any run partition the axis exactly when every process was written. */
  lemma RunPartitions(processes: nat, writes: seq<Write>)
    ensures IsPartition(processes, Sorted(AfterWrites(processes, writes).chunks)) <==>
            forall x: nat :: x < processes ==> Written(processes, writes, x)
  {
    var b := AfterWrites(processes, writes);
    EveryRunIsRecorded(processes, writes);
    RecordedSorts(b);
    PartitionIffHeld(processes, Sorted(b.chunks));
    forall x: nat ensures Holds(Sorted(b.chunks), x) <==> Written(processes, writes, x) {
      if Holds(Sorted(b.chunks), x) {
        HeldIsWritten(processes, writes, x);
      }
      if Written(processes, writes, x) {
        WrittenIsHeld(processes, writes, x);
      }
    }
  }

  /** The coverage loop. */
  method CountCovered(s: seq<Range>) returns (covered: nat)
    requires forall i :: 0 <= i < |s| ==> s[i].first <= s[i].last
    ensures covered == Covered(s)
  {
    covered := 0;
    for i := 0 to |s|
      invariant covered == Covered(s[..i])
    {
      assert s[..i + 1][..i] == s[..i];
      covered := covered + (s[i].last - s[i].first + 1);
    }
    assert s[..|s|] == s;
  }

  /** `encode_solve_all_unit_query_artifact`, up to the coverage check: whatever was written, the
      index is produced exactly when every process was written with complete items, and then lists the
      chunks in ascending order. */
  method EncodeQueryIndex(b: Bundle) returns (index: Option<seq<Range>>)
    requires Recorded(b)
    ensures index.Some? <==> IsPartition(b.processes, Sorted(b.chunks))
    ensures index.Some? ==> Ascending(index.value) && multiset(index.value) == multiset(b.chunks)
    ensures forall writes {:trigger AfterWrites(b.processes, writes)} :: b == AfterWrites(b.processes, writes) ==>
      (index.Some? <==> forall x: nat :: x < b.processes ==> Written(b.processes, writes, x))
  {
    forall writes | b == AfterWrites(b.processes, writes)
      ensures IsPartition(b.processes, Sorted(b.chunks)) <==>
              forall x: nat :: x < b.processes ==> Written(b.processes, writes, x)
    {
      RunPartitions(b.processes, writes);
    }
    SortedMembers(b.chunks);
    var sorted := Sorted(b.chunks);
    RecordedSorts(b);
    CoveredFits(b.processes, sorted);
    var covered := CountCovered(sorted);
    if covered != b.processes {
      if IsPartition(b.processes, sorted) {
        PartitionIsTight(b.processes, sorted);
      }
      return None;
    }
    TightMeansPartition(b.processes, sorted);
    index := Some(sorted);
  }

  lemma RecordedSorts(b: Bundle)
    requires Recorded(b)
    ensures Chunks(b.processes, Sorted(b.chunks))
  {
    SortedAscends(b.chunks);
    SortedMembers(b.chunks);
    var t := Sorted(b.chunks);
    forall i | 0 <= i < |t| ensures Shaped(b.processes, t[i]) {
      assert t[i] in multiset(t);
      assert t[i] in b.chunks;
    }
  }

  /** `finish` alone is not enough: a short chunk and a failed one both pass it. */
  lemma FinishAcceptsShortChunks()
    ensures exists writes ::
      && StartsComplete(AfterWrites(300, writes))
      && !IsPartition(300, Sorted(AfterWrites(300, writes).chunks))
  {
    var first, second := Write(0, 10, true), Write(256, 44, false);
    var writes := [first, second];
    assert writes[..1] == [first] && [first][..0] == [];
    var empty := AfterWrites(300, []);
    var b1 := AfterWrites(300, [first]);
    assert b1 == AfterWrite(empty, first);
    assert b1.starts == {0} && b1.chunks == [Range(0, 9)];
    var b2 := AfterWrites(300, writes);
    assert b2 == AfterWrite(b1, second);
    assert b2.starts == {0, 256} && b2.chunks == [Range(0, 9)];
    forall s: nat ensures s in b2.starts <==> s % WIDTH == 0 && s < 300 {
    }
    assert b2.chunks[1..] == [];
    assert Sorted(b2.chunks) == [Range(0, 9)];
  }
}
