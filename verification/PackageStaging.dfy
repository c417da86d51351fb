/** Greedy chunked staging of a whole package (crates/solver-worker/src/package_import_v2.rs). */
module PackageStaging {
  import opened Wrappers

  const MAX_GROUP_BYTES: nat := 64 * 1024 * 1024
  const MAX_CHUNK_BYTES: nat := MAX_GROUP_BYTES / 2
  const MAX_CHUNK_ENTRIES: nat := 1000

  /** A serialized document. */
  datatype Entry = Entry(payload: nat, bytes: nat)

  datatype Chunk = Chunk(offset: nat, entries: seq<Entry>)

  function Bytes(entries: seq<Entry>, lo: nat, hi: nat): nat
    requires lo <= hi <= |entries|
    decreases hi - lo
  {
    if lo == hi then 0 else Bytes(entries, lo, hi - 1) + entries[hi - 1].bytes
  }

  /** The entries from `lo` to `hi` may travel as one chunk. */
  predicate Fits(entries: seq<Entry>, lo: nat, hi: nat)
    requires lo <= hi <= |entries|
  {
    hi - lo <= MAX_CHUNK_ENTRIES && Bytes(entries, lo, hi) <= MAX_CHUNK_BYTES
  }

  /** `cuts` splits the first `end` entries, in order, into non-empty chunks that fit. */
  ghost predicate LegalCuts(entries: seq<Entry>, cuts: seq<nat>, end: nat) {
    && |cuts| > 0 && cuts[0] == 0 && cuts[|cuts| - 1] == end <= |entries|
    && (forall i, j :: 0 <= i < j < |cuts| ==> cuts[i] < cuts[j])
    && (forall i :: 0 <= i < |cuts| ==> cuts[i] <= end)
    && (forall i, j :: 0 <= i && j == i + 1 < |cuts| ==> Fits(entries, cuts[i], cuts[j]))
  }

  /** No chunk but the last could have taken the entry after it. */
  ghost predicate Filled(entries: seq<Entry>, cuts: seq<nat>) {
    forall i, j :: 0 <= i && j == i + 1 < |cuts| && cuts[i] <= cuts[j] < |entries| ==>
      !Fits(entries, cuts[i], cuts[j] + 1)
  }

  /** The chunks cut out of the entries, with their offsets. */
  ghost predicate CutOut(entries: seq<Entry>, cuts: seq<nat>, chunks: seq<Chunk>) {
    |chunks| == |cuts| - 1
    && forall i, j :: 0 <= i && j == i + 1 < |cuts| && cuts[i] <= cuts[j] <= |entries| ==>
         chunks[i] == Chunk(cuts[i], entries[cuts[i]..cuts[j]])
  }

  /** Part of a chunk that fits also fits. */
  lemma {:induction false} PartFits(entries: seq<Entry>, lo: nat, hi: nat, lo': nat, hi': nat)
    requires lo <= lo' <= hi' <= hi <= |entries|
    ensures Bytes(entries, lo', hi') <= Bytes(entries, lo, hi)
    ensures Fits(entries, lo, hi) ==> Fits(entries, lo', hi')
    decreases hi - lo
  {
    if hi' < hi {
      PartFits(entries, lo, hi - 1, lo', hi');
    } else if lo' < hi' {
      PartFits(entries, lo, hi - 1, lo', hi' - 1);
    }
  }

  /** Greedy cuts stay at or ahead of those of any other split. */
  lemma {:induction false} GreedyStaysAhead(entries: seq<Entry>, cuts: seq<nat>, other: seq<nat>, k: nat)
    requires LegalCuts(entries, cuts, |entries|) && Filled(entries, cuts)
    requires LegalCuts(entries, other, |entries|)
    requires k < |cuts| && k < |other|
    ensures cuts[k] >= other[k]
  {
    if k == 0 {
    } else {
      GreedyStaysAhead(entries, cuts, other, k - 1);
      if cuts[k] < other[k] {
        PartFits(entries, other[k - 1], other[k], cuts[k - 1], cuts[k] + 1);
      }
    }
  }

  /** So no split uses fewer chunks. */
  lemma GreedyIsFewest(entries: seq<Entry>, cuts: seq<nat>, other: seq<nat>)
    requires LegalCuts(entries, cuts, |entries|) && Filled(entries, cuts)
    requires LegalCuts(entries, other, |entries|)
    ensures |cuts| <= |other|
  {
    if |other| < |cuts| {
      GreedyStaysAhead(entries, cuts, other, |other| - 1);
    }
  }

  ghost function Joined(chunks: seq<Chunk>): seq<Entry> {
    if chunks == [] then [] else Joined(chunks[..|chunks| - 1]) + chunks[|chunks| - 1].entries
  }

  lemma {:induction false} JoinedIsPrefix(entries: seq<Entry>, cuts: seq<nat>, chunks: seq<Chunk>, end: nat)
    requires LegalCuts(entries, cuts, end) && CutOut(entries, cuts, chunks)
    ensures Joined(chunks) == entries[..end]
    decreases |cuts|
  {
    if |cuts| == 1 {
    } else {
      var mid := cuts[|cuts| - 2];
      var cuts', chunks' := cuts[..|cuts| - 1], chunks[..|chunks| - 1];
      assert LegalCuts(entries, cuts', mid);
      assert CutOut(entries, cuts', chunks');
      JoinedIsPrefix(entries, cuts', chunks', mid);
      assert chunks[|chunks| - 1] == Chunk(mid, entries[mid..end]);
      assert entries[..mid] + entries[mid..end] == entries[..end];
    }
  }

  /** The chunks closed so far are a greedy split of the first `end` entries. */
  ghost predicate Greedy(entries: seq<Entry>, cuts: seq<nat>, chunks: seq<Chunk>, end: nat) {
    LegalCuts(entries, cuts, end) && CutOut(entries, cuts, chunks) && Filled(entries, cuts)
  }

  lemma CloseChunk(entries: seq<Entry>, cuts: seq<nat>, chunks: seq<Chunk>, lo: nat, hi: nat)
    requires Greedy(entries, cuts, chunks, lo)
    requires lo < hi <= |entries| && Fits(entries, lo, hi)
    requires hi < |entries| ==> !Fits(entries, lo, hi + 1)
    ensures Greedy(entries, cuts + [hi], chunks + [Chunk(lo, entries[lo..hi])], hi)
  {
  }

  lemma StagingDone(entries: seq<Entry>, cuts: seq<nat>, chunks: seq<Chunk>)
    requires Greedy(entries, cuts, chunks, |entries|)
    ensures Joined(chunks) == entries
    ensures forall other :: LegalCuts(entries, other, |entries|) ==> |cuts| <= |other|
  {
    JoinedIsPrefix(entries, cuts, chunks, |entries|);
    assert entries[..|entries|] == entries;
    forall other | LegalCuts(entries, other, |entries|) ensures |cuts| <= |other| {
      GreedyIsFewest(entries, cuts, other);
    }
  }

  /** The open chunk holds the entries from `lo` to `hi` and fits. */
  ghost predicate IsOpen(entries: seq<Entry>, chunk: seq<Entry>, bytes: nat, lo: nat, hi: nat) {
    lo <= hi <= |entries| && chunk == entries[lo..hi] && bytes == Bytes(entries, lo, hi) && Fits(entries, lo, hi)
  }

  lemma OpenTakes(entries: seq<Entry>, chunk: seq<Entry>, bytes: nat, lo: nat, hi: nat)
    requires IsOpen(entries, chunk, bytes, lo, hi) && hi < |entries|
    ensures Fits(entries, lo, hi + 1) <==>
            bytes + entries[hi].bytes <= MAX_CHUNK_BYTES && |chunk| < MAX_CHUNK_ENTRIES
    ensures Fits(entries, lo, hi + 1) ==>
            IsOpen(entries, chunk + [entries[hi]], bytes + entries[hi].bytes, lo, hi + 1)
  {
    assert entries[lo..hi + 1] == entries[lo..hi] + [entries[hi]];
  }

  /** The chunk loop of `execute_whole_package`. It succeeds exactly when every document fits a
      chunk of its own; then the chunks join to the package in order at contiguous offsets, obey
      both limits, and no in-order split obeying them has fewer. */
  method StageWholePackage(entries: seq<Entry>) returns (staged: Option<seq<Chunk>>, ghost cuts: seq<nat>)
    ensures staged.Some? <==> forall i :: 0 <= i < |entries| ==> entries[i].bytes <= MAX_CHUNK_BYTES
    ensures staged.Some? ==>
      && LegalCuts(entries, cuts, |entries|) && CutOut(entries, cuts, staged.value)
      && Joined(staged.value) == entries
      && forall other :: LegalCuts(entries, other, |entries|) ==> |cuts| <= |other|
  {
    var chunks := [];
    var chunk := [];
    var bytes: nat, offset: nat := 0, 0;
    cuts := [0];
    for i := 0 to |entries|
      invariant Greedy(entries, cuts, chunks, offset)
      invariant IsOpen(entries, chunk, bytes, offset, i)
      invariant i > 0 ==> offset < i
      invariant forall j :: 0 <= j < i ==> entries[j].bytes <= MAX_CHUNK_BYTES
    {
      var size := entries[i].bytes;
      OpenTakes(entries, chunk, bytes, offset, i);
      if chunk != [] && (bytes + size > MAX_CHUNK_BYTES || |chunk| >= MAX_CHUNK_ENTRIES) {
        CloseChunk(entries, cuts, chunks, offset, i);
        chunks := chunks + [Chunk(offset, chunk)];
        cuts := cuts + [i];
        offset := offset + |chunk|;
        chunk := [];
        bytes := 0;
        OpenTakes(entries, chunk, bytes, offset, i);
      }
      if size > MAX_CHUNK_BYTES {
        return None, cuts;
      }
      bytes := bytes + size;
      chunk := chunk + [entries[i]];
    }
    if chunk != [] {
      CloseChunk(entries, cuts, chunks, offset, |entries|);
      chunks := chunks + [Chunk(offset, chunk)];
      cuts := cuts + [|entries|];
    }
    StagingDone(entries, cuts, chunks);
    staged := Some(chunks);
  }
}
