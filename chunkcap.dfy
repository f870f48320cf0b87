/** The --max-chunks cap of the command-line entry point: when the policy text was split
    into more chunks than allowed, the surplus is merged into the last chunk kept. */
module ChunkCap {
  import opened Seqs
  import opened Text

  /** The index a Python slice bound k denotes in a list of length n: for k >= 0,
      xs[:k] keeps the first min(k, n) elements; for k < 0, xs[k:] keeps the last
      min(-k, n). */
  function SliceIndex(k: int, n: nat): (i: nat)
    ensures i <= n
    ensures 0 <= k ==> i == Min(k, n)
    ensures k < 0 ==> n - i == Min(-k, n)
  {
    if k < 0 then (if n + k < 0 then 0 else n + k) else Min(k, n)
  }

  /** The --max-chunks cap: when there are more chunks than maxChunks, the chunks from
      slice index maxChunks - 1 on are joined with spaces into one last chunk. */
  function MergeTail(chunks: seq<string>, maxChunks: int): (r: seq<string>)
    ensures |chunks| <= maxChunks ==> r == chunks
    ensures 1 <= maxChunks < |chunks| ==>
      |r| == maxChunks && r[..maxChunks - 1] == chunks[..maxChunks - 1]
      && r[maxChunks - 1] == Join(" ", chunks[maxChunks - 1..])
  {
    if |chunks| > maxChunks then
      var c := SliceIndex(maxChunks - 1, |chunks|);
      chunks[..c] + [Join(" ", chunks[c..])]
    else chunks
  }

  /** Merging loses no text: joined with spaces, the merged chunks read as the original
      chunks joined with spaces. */
  lemma MergeTailKeepsText(chunks: seq<string>, maxChunks: int)
    ensures Join(" ", MergeTail(chunks, maxChunks)) == Join(" ", chunks)
  {
    if |chunks| > maxChunks {
      var c := SliceIndex(maxChunks - 1, |chunks|);
      if c == |chunks| {
        assert chunks[c..] == [];
      } else if c > 0 {
        JoinConcat(" ", chunks[..c], [Join(" ", chunks[c..])]);
        JoinConcat(" ", chunks[..c], chunks[c..]);
        assert chunks[..c] + chunks[c..] == chunks;
      } else {
        assert chunks[c..] == chunks;
      }
    }
  }

  /** With a cap below one Python's negative slice bounds apply: a cap of 0 keeps every
      chunk, and a negative cap -d merges the last d + 1 chunks. */
  lemma MergeTailNonPositiveCap(chunks: seq<string>, maxChunks: int)
    requires maxChunks <= 0 < |chunks|
    ensures |MergeTail(chunks, maxChunks)| == if |chunks| + maxChunks < 1 then 1 else |chunks| + maxChunks
  {
  }
}
