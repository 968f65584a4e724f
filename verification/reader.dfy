/**
 The reader of the batch-inference script (`load_data`): input lines are
 parsed one at a time and collected into a pending batch, which is yielded
 as soon as its length equals the batch size; whatever is still pending
 when the input ends is yielded as a final, shorter batch.

 `load_data` yields one list object and then clears it, so a consumer that
 keeps a batch past the next step sees it emptied. Batches here are
 immutable snapshots of that list at the moment it is yielded.
 */
module Reader {
  import opened Common

  /** Where the batching loop stands: the batches yielded so far and the
      records collected since the last yield. */
  datatype Progress<T> = Progress(emitted: seq<seq<T>>, pending: seq<T>)

  /** The loop over the records: append each record to the pending batch and
      yield it when its length equals `b`. The length test is an equality,
      so for `b <= 0` it never holds and nothing is yielded here. */
  function Loop<T>(records: seq<T>, b: int, pending: seq<T>): Progress<T>
    decreases |records|
  {
    if |records| == 0 then Progress([], pending)
    else
      var batch := pending + [records[0]];
      if |batch| == b then
        var rest := Loop(records[1..], b, []);
        Progress([batch] + rest.emitted, rest.pending)
      else
        Loop(records[1..], b, batch)
  }

  /** The loop neither drops, duplicates nor reorders records: the yielded
      batches followed by the pending ones are the pending batch it started
      with followed by its input. */
  lemma {:induction false} LoopKeepsRecords<T>(records: seq<T>, b: int, pending: seq<T>)
    ensures Flatten(Loop(records, b, pending).emitted) + Loop(records, b, pending).pending
            == pending + records
    decreases |records|
  {
    if |records| > 0 {
      var batch := pending + [records[0]];
      var tail := records[1..];
      assert batch + tail == pending + records;
      if |batch| == b {
        var rest := Loop(tail, b, []);
        LoopKeepsRecords(tail, b, []);
        FlattenCons(batch, rest.emitted);
        assert Flatten(rest.emitted) + rest.pending == tail;
      } else {
        LoopKeepsRecords(tail, b, batch);
      }
    }
  }

  /** After the loop, a non-empty pending batch is yielded as well. */
  function Flush<T>(p: Progress<T>): (batches: seq<seq<T>>)
    ensures Flatten(batches) == Flatten(p.emitted) + p.pending
    ensures |p.pending| == 0 ==> batches == p.emitted
    ensures |p.pending| > 0 ==> batches == p.emitted + [p.pending]
  {
    var last := if |p.pending| > 0 then [p.pending] else [];
    FlattenAppend(p.emitted, last);
    assert Flatten(last) == p.pending by {
      if |last| > 0 {
        assert last[1..] == [];
      }
    }
    p.emitted + last
  }

  /** Every batch the reader yields for `records` and batch size `b`, in
      order. Concatenated, they give back the input exactly. */
  function Chunk<T>(records: seq<T>, b: int): (batches: seq<seq<T>>)
    ensures Flatten(batches) == records
  {
    LoopKeepsRecords(records, b, []);
    assert [] + records == records;
    Flush(Loop(records, b, []))
  }

  /** The loop over a record sequence, written with a mutable pending batch
      exactly as the generator keeps it. */
  method LoadBatches<T>(records: seq<T>, b: int) returns (batches: seq<seq<T>>)
    ensures batches == Chunk(records, b)
  {
    batches := [];
    var batch: seq<T> := [];
    for i := 0 to |records|
      invariant Flush(Loop(records, b, [])) ==
                Flush(Progress(batches + Loop(records[i..], b, batch).emitted,
                               Loop(records[i..], b, batch).pending))
    {
      assert records[i..][0] == records[i];
      assert records[i..][1..] == records[i + 1..];
      batch := batch + [records[i]];
      if |batch| == b {
        assert batches + [batch] + Loop(records[i + 1..], b, []).emitted
            == batches + ([batch] + Loop(records[i + 1..], b, []).emitted);
        batches := batches + [batch];
        batch := [];
      }
    }
    assert records[|records|..] == [];
    if |batch| > 0 {
      batches := batches + [batch];
    }
  }

  /** Loop invariant for a positive batch size: every yielded batch is full
      and the pending batch stays shorter than `b`. */
  lemma {:induction false} LoopShape<T>(records: seq<T>, b: int, pending: seq<T>)
    requires 1 <= b && |pending| < b
    ensures forall i :: 0 <= i < |Loop(records, b, pending).emitted| ==>
              |Loop(records, b, pending).emitted[i]| == b
    ensures |Loop(records, b, pending).pending| < b
  {
    if |records| > 0 {
      var batch := pending + [records[0]];
      if |batch| == b {
        LoopShape(records[1..], b, []);
      } else {
        LoopShape(records[1..], b, batch);
      }
    }
  }

  /** For a positive batch size, the yielded batches are all non-empty,
      all full except possibly the last, and the last holds between 1 and
      `b` records. */
  lemma ChunkSizes<T>(records: seq<T>, b: int)
    requires 1 <= b
    ensures forall i :: 0 <= i < |Chunk(records, b)| ==> 1 <= |Chunk(records, b)[i]| <= b
    ensures forall i :: 0 <= i < |Chunk(records, b)| - 1 ==> |Chunk(records, b)[i]| == b
  {
    LoopShape(records, b, []);
  }

  lemma {:induction false} FullBatchesSize<T>(batches: seq<seq<T>>, b: nat)
    requires forall i :: 0 <= i < |batches| ==> |batches[i]| == b
    ensures |Flatten(batches)| == |batches| * b
  {
    if |batches| > 0 {
      FullBatchesSize(batches[1..], b);
    }
  }

  lemma MulStep(a: int, c: int, b: int)
    requires a < c && 0 <= b
    ensures a * b + b <= c * b
    decreases c - a
  {
    assert (a + 1) * b == a * b + b;
    if a + 1 < c {
      MulStep(a + 1, c, b);
    }
  }

  /** Integer division determined by its bounds. */
  lemma DivByBounds(x: int, b: int, q: int)
    requires 1 <= b && q * b <= x < q * b + b
    ensures x / b == q
  {
    var d, m := x / b, x % b;
    assert x == d * b + m && 0 <= m < b;
    if d < q {
      MulStep(d, q, b);
    } else if d > q {
      MulStep(q, d, b);
    }
  }

  /** N records with a positive batch size give ceil(N / b) batches; in
      particular none at all for an empty input. */
  lemma ChunkCount<T>(records: seq<T>, b: int)
    requires 1 <= b
    ensures |Chunk(records, b)| == (|records| + b - 1) / b
    ensures |records| == 0 <==> |Chunk(records, b)| == 0
  {
    var p := Loop(records, b, []);
    LoopKeepsRecords(records, b, []);
    LoopShape(records, b, []);
    FullBatchesSize(p.emitted, b);
    var k := |p.emitted|;
    assert |records| == k * b + |p.pending|;
    if |p.pending| == 0 {
      DivByBounds(|records| + b - 1, b, k);
    } else {
      assert (k + 1) * b == k * b + b;
      DivByBounds(|records| + b - 1, b, k + 1);
    }
  }

  /** For `b <= 0` the flush inside the loop never fires: a non-empty input
      comes back as one batch holding every record. */
  lemma {:induction false} LoopNonPositive<T>(records: seq<T>, b: int, pending: seq<T>)
    requires b <= 0
    ensures Loop(records, b, pending) == Progress([], pending + records)
  {
    if |records| > 0 {
      LoopNonPositive(records[1..], b, pending + [records[0]]);
      assert pending + [records[0]] + records[1..] == pending + records;
    }
  }

  lemma ChunkNonPositive<T>(records: seq<T>, b: int)
    requires b <= 0
    ensures |records| == 0 ==> Chunk(records, b) == []
    ensures |records| > 0 ==> Chunk(records, b) == [records]
  {
    LoopNonPositive(records, b, []);
    assert [] + records == records;
  }

  /** Reference definition of batching for a positive size: take `b`
      records at a time from the front. */
  function SplitEvery<T>(records: seq<T>, b: int): seq<seq<T>>
    requires 1 <= b
    decreases |records|
  {
    if |records| == 0 then []
    else if |records| <= b then [records]
    else [records[..b]] + SplitEvery(records[b..], b)
  }

  lemma {:induction false} LoopIsSplitEvery<T>(records: seq<T>, b: int, pending: seq<T>)
    requires 1 <= b && |pending| < b
    ensures Flush(Loop(records, b, pending)) == SplitEvery(pending + records, b)
    decreases |records|
  {
    if |records| == 0 {
      assert pending + records == pending;
    } else {
      var batch := pending + [records[0]];
      var all := pending + records;
      assert all == batch + records[1..];
      if |batch| == b {
        var rest := Loop(records[1..], b, []);
        LoopIsSplitEvery(records[1..], b, []);
        assert [] + records[1..] == records[1..];
        if |records[1..]| == 0 {
          assert all == batch;
          assert Flush(rest) == [];
        } else {
          assert all[..b] == batch;
          assert all[b..] == records[1..];
          assert Flush(Loop(records, b, pending)) == [batch] + Flush(rest);
        }
      } else {
        LoopIsSplitEvery(records[1..], b, batch);
      }
    }
  }

  /** The reader agrees with the reference definition for every positive
      batch size. */
  lemma ChunkIsSplitEvery<T>(records: seq<T>, b: int)
    requires 1 <= b
    ensures Chunk(records, b) == SplitEvery(records, b)
  {
    LoopIsSplitEvery(records, b, []);
    assert [] + records == records;
  }

  /** An input of at least one and at most `b` records is read as a single
      batch. */
  lemma ChunkSmallInput<T>(records: seq<T>, b: int)
    requires 1 <= |records| <= b
    ensures Chunk(records, b) == [records]
  {
    ChunkIsSplitEvery(records, b);
  }

  /** The records parsed before the first malformed line, and the index of
      that line if there is one. */
  datatype Parsed = Parsed(records: seq<Record>, bad: Option<nat>)

  /** Parse lines front to back, stopping at the first one `parse` rejects
      (where `json.loads` raises). */
  function ParseLines(lines: seq<string>, parse: string -> Option<Record>): (p: Parsed)
    ensures p.bad.None? ==> |p.records| == |lines|
    ensures p.bad.Some? ==> p.bad.value == |p.records| < |lines| && parse(lines[p.bad.value]).None?
    ensures forall i :: 0 <= i < |p.records| ==> parse(lines[i]) == Some(p.records[i])
  {
    if |lines| == 0 then Parsed([], None)
    else match parse(lines[0])
      case None => Parsed([], Some(0))
      case Some(rec) =>
        var rest := ParseLines(lines[1..], parse);
        var bad := if rest.bad.Some? then Some(rest.bad.value + 1) else None;
        Parsed([rec] + rest.records, bad)
  }

  /** What the generator produces before it is exhausted: its batches, and
      the error it raises at the end, if any. */
  datatype Stream = Stream(batches: seq<Batch>, failure: Option<Error>)

  /** The reader over the lines of the input file. A malformed line raises
      inside the loop: the full batches yielded before it stand, and the
      records pending at that point are never yielded. */
  function Read(lines: seq<string>, b: int, parse: string -> Option<Record>): Stream {
    var p := ParseLines(lines, parse);
    match p.bad
    case None => Stream(Chunk(p.records, b), None)
    case Some(j) => Stream(Loop(p.records, b, []).emitted, Some(MalformedLine(j)))
  }

  /** When every line parses, the reader yields the batching of the parsed
      records and ends without error. */
  lemma ReadWellFormed(lines: seq<string>, b: int, parse: string -> Option<Record>)
    requires forall i :: 0 <= i < |lines| ==> parse(lines[i]).Some?
    ensures Read(lines, b, parse).failure == None
    ensures |Flatten(Read(lines, b, parse).batches)| == |lines|
    ensures forall i :: 0 <= i < |lines| ==>
              parse(lines[i]) == Some(Flatten(Read(lines, b, parse).batches)[i])
  {
    var p := ParseLines(lines, parse);
    assert p.bad == None;
  }

  /** When line `j` is the first malformed one, the error names it, and
      only records from lines before `j` were yielded, in order; for a
      positive batch size that is exactly j / b full batches, and for a
      non-positive one nothing at all. */
  lemma ReadMalformed(lines: seq<string>, b: int, parse: string -> Option<Record>, j: nat)
    requires j < |lines| && parse(lines[j]).None?
    requires forall i :: 0 <= i < j ==> parse(lines[i]).Some?
    ensures Read(lines, b, parse).failure == Some(MalformedLine(j))
    ensures |Flatten(Read(lines, b, parse).batches)| <= j
    ensures forall i :: 0 <= i < |Flatten(Read(lines, b, parse).batches)| ==>
              parse(lines[i]) == Some(Flatten(Read(lines, b, parse).batches)[i])
    ensures 1 <= b ==> |Read(lines, b, parse).batches| == j / b
    ensures 1 <= b ==> |Flatten(Read(lines, b, parse).batches)| == (j / b) * b
    ensures 1 <= b ==> forall k :: 0 <= k < |Read(lines, b, parse).batches| ==>
              |Read(lines, b, parse).batches[k]| == b
    ensures b <= 0 ==> Read(lines, b, parse).batches == []
  {
    var p := ParseLines(lines, parse);
    ParseLinesFirstBad(lines, parse, j);
    if 1 <= b {
      LoopShape(p.records, b, []);
    }
    LoopEmittedPrefix(p.records, b);
    if 1 <= b {
      LoopEmittedCount(p.records, b);
    } else {
      LoopNonPositive(p.records, b, []);
    }
  }

  /** Parsing stops exactly at the first malformed line. */
  lemma {:induction false} ParseLinesFirstBad(lines: seq<string>, parse: string -> Option<Record>, j: nat)
    requires j < |lines| && parse(lines[j]).None?
    requires forall i :: 0 <= i < j ==> parse(lines[i]).Some?
    ensures ParseLines(lines, parse).bad == Some(j)
  {
    if j > 0 {
      assert parse(lines[0]).Some?;
      assert lines[1..][j - 1] == lines[j];
      assert forall i :: 0 <= i < j - 1 ==> lines[1..][i] == lines[i + 1];
      ParseLinesFirstBad(lines[1..], parse, j - 1);
    }
  }

  /** The records yielded inside the loop are a prefix of its input. */
  lemma LoopEmittedPrefix<T>(records: seq<T>, b: int)
    ensures |Flatten(Loop(records, b, []).emitted)| <= |records|
    ensures forall i :: 0 <= i < |Flatten(Loop(records, b, []).emitted)| ==>
              Flatten(Loop(records, b, []).emitted)[i] == records[i]
  {
    var l := Loop(records, b, []);
    LoopKeepsRecords(records, b, []);
    assert [] + records == records;
    var flat := Flatten(l.emitted);
    assert flat + l.pending == records;
    forall i | 0 <= i < |flat| ensures flat[i] == records[i] {
      assert (flat + l.pending)[i] == flat[i];
    }
  }

  /** For a positive batch size the loop yields |records| / b full
      batches. */
  lemma LoopEmittedCount<T>(records: seq<T>, b: int)
    requires 1 <= b
    ensures |Loop(records, b, []).emitted| == |records| / b
    ensures |Flatten(Loop(records, b, []).emitted)| == (|records| / b) * b
  {
    var l := Loop(records, b, []);
    LoopKeepsRecords(records, b, []);
    assert [] + records == records;
    LoopShape(records, b, []);
    FullBatchesSize(l.emitted, b);
    assert |records| == |l.emitted| * b + |l.pending|;
    DivByBounds(|records|, b, |l.emitted|);
  }
}
