/**
 The driver of the batch-inference script (`main`): read the input in
 batches of 20, run each batch through the inference runner with the
 default input field, and append the results to the output file before
 asking for the next batch. The first error ends the run; whatever was
 appended before it stays in the file.
 */
module Driver {
  import opened Common
  import Reader
  import Inference
  import Writer

  /** The batch size the script reads with. */
  const BatchSize: int := 20

  /** The end of a run: the lines of the output file, and the error that
      stopped the run early, if any. */
  datatype Outcome = Outcome(log: Writer.Log, failure: Option<Error>)

  /** Every record of every batch carries `field`. */
  ghost predicate AllBatchesHave(batches: seq<Batch>, field: string) {
    forall i :: 0 <= i < |batches| ==> Inference.AllHave(batches[i], field)
  }

  lemma AllBatchesHaveCons(batches: seq<Batch>, field: string)
    requires |batches| > 0
    ensures AllBatchesHave(batches, field)
            <==> Inference.AllHave(batches[0], field) && AllBatchesHave(batches[1..], field)
  {
    if Inference.AllHave(batches[0], field) && AllBatchesHave(batches[1..], field) {
      forall i | 0 <= i < |batches| ensures Inference.AllHave(batches[i], field) {
        if i > 0 {
          assert batches[i] == batches[1..][i - 1];
        }
      }
    }
  }

  /** The loop over the batches: infer, append, continue. */
  function Drive(batches: seq<Batch>, field: string, engine: Inference.Engine,
                 isSpace: char -> bool, serialize: Record -> string, log: Writer.Log): (o: Outcome)
    ensures |log| <= |o.log| && o.log[..|log|] == log
    ensures o.failure.None? <==> AllBatchesHave(batches, field)
    ensures o.failure.Some? ==> o.failure == Some(MissingField(field))
    decreases |batches|
  {
    if |batches| == 0 then Outcome(log, None)
    else
      var r := Inference.Infer(batches[0], field, engine, isSpace);
      AllBatchesHaveCons(batches, field);
      if r.Failure? then Outcome(log, Some(r.error))
      else
        var log' := Writer.SaveData(log, r.value, serialize);
        var o := Drive(batches[1..], field, engine, isSpace, serialize, log');
        PrefixOfPrefix(log, log', o.log);
        o
  }

  /** A prefix of a prefix is a prefix. */
  lemma PrefixOfPrefix<T>(a: seq<T>, b: seq<T>, c: seq<T>)
    requires |a| <= |b| && b[..|a|] == a
    requires |b| <= |c| && c[..|b|] == b
    ensures |a| <= |c| && c[..|a|] == a
  {
    assert c[..|a|] == c[..|b|][..|a|];
  }

  /** A whole run over the lines of the input file: the batches the reader
      yields are processed in order; if the reader then raises, its error
      ends the run. */
  function Run(lines: seq<string>, b: int, parse: string -> Option<Record>, field: string,
               engine: Inference.Engine, isSpace: char -> bool, serialize: Record -> string,
               log: Writer.Log): (o: Outcome)
    ensures |log| <= |o.log| && o.log[..|log|] == log
    ensures o.failure == None <==>
              Reader.Read(lines, b, parse).failure == None
              && AllBatchesHave(Reader.Read(lines, b, parse).batches, field)
    ensures !AllBatchesHave(Reader.Read(lines, b, parse).batches, field) ==>
              o.failure == Some(MissingField(field))
    ensures AllBatchesHave(Reader.Read(lines, b, parse).batches, field) ==>
              o.failure == Reader.Read(lines, b, parse).failure
  {
    var stream := Reader.Read(lines, b, parse);
    var o := Drive(stream.batches, field, engine, isSpace, serialize, log);
    if o.failure.Some? then o else Outcome(o.log, stream.failure)
  }

  /** The script as written: batch size 20 and the default input field. */
  function Script(lines: seq<string>, parse: string -> Option<Record>, engine: Inference.Engine,
                  isSpace: char -> bool, serialize: Record -> string, log: Writer.Log): Outcome
  {
    Run(lines, BatchSize, parse, Inference.DefaultInputField, engine, isSpace, serialize, log)
  }

  /** The loop over the batches with the output file as a variable that
      each step appends to. */
  method ProcessBatches(batches: seq<Batch>, field: string, engine: Inference.Engine,
                        isSpace: char -> bool, serialize: Record -> string, log0: Writer.Log)
    returns (o: Outcome)
    ensures o == Drive(batches, field, engine, isSpace, serialize, log0)
  {
    var log := log0;
    for i := 0 to |batches|
      invariant Drive(batches, field, engine, isSpace, serialize, log0)
             == Drive(batches[i..], field, engine, isSpace, serialize, log)
    {
      assert batches[i..][0] == batches[i];
      assert batches[i..][1..] == batches[i + 1..];
      var result := Inference.Infer(batches[i], field, engine, isSpace);
      if result.Failure? {
        return Outcome(log, Some(result.error));
      }
      log := Writer.SaveData(log, result.value, serialize);
    }
    assert batches[|batches|..] == [];
    o := Outcome(log, None);
  }

  /** The texts the engine produces for each batch, in batch order. */
  function Answers(batches: seq<Batch>, field: string, engine: Inference.Engine,
                   isSpace: char -> bool): (answers: seq<seq<string>>)
    ensures |answers| == |batches|
  {
    if |batches| == 0 then []
    else [Inference.Generated(batches[0], field, engine, isSpace)]
         + Answers(batches[1..], field, engine, isSpace)
  }

  /** The engine returns exactly one text per prompt. */
  ghost predicate OnePerPrompt(engine: Inference.Engine) {
    forall ps :: |engine(ps)| == |ps|
  }

  /** When every record carries `field` and the engine answers every
      prompt, the run ends without error, the output file gains one line
      per record of every batch, in order, and that line is the record
      merged with its own answer. */
  lemma {:induction false} DriveWritesEveryRecord(batches: seq<Batch>, field: string,
      engine: Inference.Engine, isSpace: char -> bool, serialize: Record -> string, log: Writer.Log)
    requires AllBatchesHave(batches, field)
    requires OnePerPrompt(engine)
    ensures |Flatten(Answers(batches, field, engine, isSpace))| == |Flatten(batches)|
    ensures Drive(batches, field, engine, isSpace, serialize, log)
         == Outcome(Writer.SaveData(log, Inference.Merge(Flatten(batches),
                                                         Flatten(Answers(batches, field, engine, isSpace))),
                                    serialize),
                    None)
    decreases |batches|
  {
    if |batches| == 0 {
      assert Writer.SaveData(log, [], serialize) == log;
    } else {
      var b0, rest := batches[0], batches[1..];
      assert Inference.AllHave(b0, field);
      assert AllBatchesHave(rest, field) by {
        forall i | 0 <= i < |rest| ensures Inference.AllHave(rest[i], field) {
          assert rest[i] == batches[i + 1];
        }
      }
      Inference.InferSuccess(b0, field, engine, isSpace);
      var g0 := Inference.Generated(b0, field, engine, isSpace);
      assert |g0| == |b0|;
      var m0 := Inference.Merge(b0, g0);
      var log' := Writer.SaveData(log, m0, serialize);
      DriveWritesEveryRecord(rest, field, engine, isSpace, serialize, log');
      var answers := Answers(batches, field, engine, isSpace);
      assert answers[0] == g0 && answers[1..] == Answers(rest, field, engine, isSpace);
      var fr := Flatten(rest);
      var fa := Flatten(Answers(rest, field, engine, isSpace));
      assert Flatten(batches) == b0 + fr;
      assert Flatten(answers) == g0 + fa;
      Inference.MergeAppend(b0, fr, g0, fa);
      Writer.SaveDataTwice(log, m0, Inference.Merge(fr, fa), serialize);
    }
  }

  /** The records each batch contributes to the output file: the batch
      merged with the stripped texts the engine produced for it. */
  function PerBatch(batches: seq<Batch>, field: string, engine: Inference.Engine,
                    isSpace: char -> bool): (out: seq<seq<Record>>)
    ensures |out| == |batches|
    ensures forall k :: 0 <= k < |batches| ==>
              out[k] == Inference.Merge(batches[k], Inference.Generated(batches[k], field, engine, isSpace))
  {
    if |batches| == 0 then []
    else [Inference.Merge(batches[0], Inference.Generated(batches[0], field, engine, isSpace))]
         + PerBatch(batches[1..], field, engine, isSpace)
  }

  /** For any engine, when every record carries `field`, the run ends
      without error and the output file gains, batch after batch, each
      batch's records merged with that batch's own answers. An engine that
      answers fewer prompts than the batch has records shortens only that
      batch's contribution. */
  lemma {:induction false} DriveAppendsPerBatch(batches: seq<Batch>, field: string,
      engine: Inference.Engine, isSpace: char -> bool, serialize: Record -> string, log: Writer.Log)
    requires AllBatchesHave(batches, field)
    ensures Drive(batches, field, engine, isSpace, serialize, log)
         == Outcome(Writer.SaveData(log, Flatten(PerBatch(batches, field, engine, isSpace)), serialize), None)
    decreases |batches|
  {
    if |batches| == 0 {
      assert Writer.SaveData(log, [], serialize) == log;
    } else {
      var b0, rest := batches[0], batches[1..];
      AllBatchesHaveCons(batches, field);
      Inference.InferSuccess(b0, field, engine, isSpace);
      var m0 := Inference.Merge(b0, Inference.Generated(b0, field, engine, isSpace));
      var log' := Writer.SaveData(log, m0, serialize);
      DriveAppendsPerBatch(rest, field, engine, isSpace, serialize, log');
      var tail := PerBatch(rest, field, engine, isSpace);
      assert PerBatch(batches, field, engine, isSpace) == [m0] + tail;
      FlattenCons(m0, tail);
      Writer.SaveDataTwice(log, m0, Flatten(tail), serialize);
    }
  }

  /** When batch k is the first with a record lacking `field`, the run ends
      with the key error and the output file holds exactly what the first k
      batches appended: nothing of batch k or any later batch. */
  lemma {:induction false} DriveStopsAtMissingField(batches: seq<Batch>, k: nat, field: string,
      engine: Inference.Engine, isSpace: char -> bool, serialize: Record -> string, log: Writer.Log)
    requires k < |batches|
    requires AllBatchesHave(batches[..k], field)
    requires !Inference.AllHave(batches[k], field)
    ensures Drive(batches, field, engine, isSpace, serialize, log)
         == Outcome(Drive(batches[..k], field, engine, isSpace, serialize, log).log,
                    Some(MissingField(field)))
    decreases k
  {
    if k > 0 {
      assert Inference.AllHave(batches[..k][0], field);
      assert batches[..k][0] == batches[0];
      var out := Inference.Infer(batches[0], field, engine, isSpace).value;
      var log' := Writer.SaveData(log, out, serialize);
      assert batches[1..][..k - 1] == batches[..k][1..];
      var pre := batches[1..][..k - 1];
      assert AllBatchesHave(pre, field) by {
        forall i | 0 <= i < |pre| ensures Inference.AllHave(pre[i], field) {
          assert pre[i] == batches[..k][i + 1];
        }
      }
      assert batches[1..][k - 1] == batches[k];
      DriveStopsAtMissingField(batches[1..], k - 1, field, engine, isSpace, serialize, log');
    }
  }

  /** The records of a run's batches, in order, each merged with the text
      the engine produced for it. */
  ghost function Merged(lines: seq<string>, b: int, parse: string -> Option<Record>, field: string,
                        engine: Inference.Engine, isSpace: char -> bool): seq<Record>
  {
    var batches := Reader.Read(lines, b, parse).batches;
    Inference.Merge(Flatten(batches), Flatten(Answers(batches, field, engine, isSpace)))
  }

  /** End to end, for an input whose lines all parse into records carrying
      `field` and an engine that answers every prompt: the run ends without
      error, the old lines of the output file are untouched, and one line
      follows per input line, in input order, each the serialisation of
      that line's record with the `output` key set and every other key
      unchanged. */
  lemma RunWritesEveryRecord(lines: seq<string>, b: int, parse: string -> Option<Record>,
      field: string, engine: Inference.Engine, isSpace: char -> bool,
      serialize: Record -> string, log: Writer.Log)
    requires forall i :: 0 <= i < |lines| ==> parse(lines[i]).Some? && field in parse(lines[i]).value
    requires OnePerPrompt(engine)
    ensures Run(lines, b, parse, field, engine, isSpace, serialize, log).failure == None
    ensures |Run(lines, b, parse, field, engine, isSpace, serialize, log).log| == |log| + |lines|
    ensures Run(lines, b, parse, field, engine, isSpace, serialize, log).log[..|log|] == log
    ensures |Merged(lines, b, parse, field, engine, isSpace)| == |lines|
    ensures Run(lines, b, parse, field, engine, isSpace, serialize, log).log
         == Writer.SaveData(log, Merged(lines, b, parse, field, engine, isSpace), serialize)
    ensures forall j :: 0 <= j < |lines| ==>
              Merged(lines, b, parse, field, engine, isSpace)[j].Keys
              == parse(lines[j]).value.Keys + {Inference.OutputKey}
    ensures forall j, key :: 0 <= j < |lines| && key in parse(lines[j]).value && key != Inference.OutputKey ==>
              Merged(lines, b, parse, field, engine, isSpace)[j][key] == parse(lines[j]).value[key]
  {
    Reader.ReadWellFormed(lines, b, parse);
    var batches := Reader.Read(lines, b, parse).batches;
    AllHaveFromFlatten(batches, field);
    DriveWritesEveryRecord(batches, field, engine, isSpace, serialize, log);
  }

  /** A whole run, for any engine, when every batch the reader yields has
      the field in every record: the output file gains each batch's merged
      records in batch order, and the run ends with whatever error the
      reader raised after its last batch, if any. */
  lemma RunAppendsPerBatch(lines: seq<string>, b: int, parse: string -> Option<Record>,
      field: string, engine: Inference.Engine, isSpace: char -> bool,
      serialize: Record -> string, log: Writer.Log)
    requires AllBatchesHave(Reader.Read(lines, b, parse).batches, field)
    ensures Run(lines, b, parse, field, engine, isSpace, serialize, log)
         == Outcome(Writer.SaveData(log, Flatten(PerBatch(Reader.Read(lines, b, parse).batches,
                                                         field, engine, isSpace)),
                                    serialize),
                    Reader.Read(lines, b, parse).failure)
  {
    var batches := Reader.Read(lines, b, parse).batches;
    DriveAppendsPerBatch(batches, field, engine, isSpace, serialize, log);
  }

  /** A property of every record of the flattening holds of every record of
      every batch. */
  lemma AllHaveFromFlatten(batches: seq<Batch>, field: string)
    requires forall i :: 0 <= i < |Flatten(batches)| ==> field in Flatten(batches)[i]
    ensures AllBatchesHave(batches, field)
  {
    forall i | 0 <= i < |batches| ensures Inference.AllHave(batches[i], field) {
      forall r | 0 <= r < |batches[i]| ensures field in batches[i][r] {
        FlattenMember(batches, i, r);
      }
    }
  }

  /** When line j is the first that does not parse, the run ends with the
      parse error after appending the merged records of the full batches
      read before line j: for a positive batch size those are the records
      of the first (j / b) * b lines, and only they need the field, since
      the records pending when the error is raised are never looked up; for
      a non-positive batch size no batch is ever completed and nothing is
      appended. With an engine that answers every prompt that is exactly
      one line per completed record. */
  lemma RunStopsAtMalformedLine(lines: seq<string>, b: int, parse: string -> Option<Record>,
      field: string, engine: Inference.Engine, isSpace: char -> bool,
      serialize: Record -> string, log: Writer.Log, j: nat)
    requires j < |lines| && parse(lines[j]).None?
    requires forall i :: 0 <= i < j ==> parse(lines[i]).Some?
    requires forall i :: 0 <= i < j && 1 <= b && i < (j / b) * b ==> field in parse(lines[i]).value
    ensures 1 <= b ==> |Flatten(Reader.Read(lines, b, parse).batches)| == (j / b) * b
    ensures b <= 0 ==> Reader.Read(lines, b, parse).batches == []
    ensures forall i :: 0 <= i < |Flatten(Reader.Read(lines, b, parse).batches)| ==>
              parse(lines[i]) == Some(Flatten(Reader.Read(lines, b, parse).batches)[i])
    ensures Run(lines, b, parse, field, engine, isSpace, serialize, log)
         == Outcome(Writer.SaveData(log, Flatten(PerBatch(Reader.Read(lines, b, parse).batches,
                                                         field, engine, isSpace)),
                                    serialize),
                    Some(MalformedLine(j)))
    ensures |log| <= |Run(lines, b, parse, field, engine, isSpace, serialize, log).log|
    ensures Run(lines, b, parse, field, engine, isSpace, serialize, log).log[..|log|] == log
    ensures b <= 0 ==> Run(lines, b, parse, field, engine, isSpace, serialize, log).log == log
    ensures OnePerPrompt(engine) && 1 <= b ==>
              |Run(lines, b, parse, field, engine, isSpace, serialize, log).log| == |log| + (j / b) * b
  {
    Reader.ReadMalformed(lines, b, parse, j);
    var batches := Reader.Read(lines, b, parse).batches;
    var flat := Flatten(batches);
    forall i | 0 <= i < |flat| ensures field in flat[i] {
      assert 1 <= b;
      assert parse(lines[i]) == Some(flat[i]);
    }
    AllHaveFromFlatten(batches, field);
    RunAppendsPerBatch(lines, b, parse, field, engine, isSpace, serialize, log);
    if b <= 0 {
      assert PerBatch(batches, field, engine, isSpace) == [];
      assert Writer.SaveData(log, [], serialize) == log;
    }
    if OnePerPrompt(engine) {
      DriveWritesEveryRecord(batches, field, engine, isSpace, serialize, log);
    }
  }

  /** The script reads an input of 1 to 20 well-formed lines as a single
      batch, so the engine is called once for the whole file. */
  lemma ScriptReadsSmallInputAsOneBatch(lines: seq<string>, parse: string -> Option<Record>)
    requires 1 <= |lines| <= BatchSize
    requires forall i :: 0 <= i < |lines| ==> parse(lines[i]).Some?
    ensures Reader.Read(lines, BatchSize, parse).failure == None
    ensures Reader.Read(lines, BatchSize, parse).batches == [Reader.ParseLines(lines, parse).records]
  {
    var p := Reader.ParseLines(lines, parse);
    assert p.bad == None;
    Reader.ChunkSmallInput(p.records, BatchSize);
  }

  /** The script on an input of 1 to 20 well-formed lines that all carry
      the `input` key: one engine call for the whole file, no error, and
      the output file gains the records merged with that call's answers. */
  lemma ScriptSmallInput(lines: seq<string>, parse: string -> Option<Record>, engine: Inference.Engine,
      isSpace: char -> bool, serialize: Record -> string, log: Writer.Log)
    requires 1 <= |lines| <= BatchSize
    requires forall i :: 0 <= i < |lines| ==>
               parse(lines[i]).Some? && Inference.DefaultInputField in parse(lines[i]).value
    ensures var records := Reader.ParseLines(lines, parse).records;
            Script(lines, parse, engine, isSpace, serialize, log)
            == Outcome(Writer.SaveData(log, Inference.Merge(records,
                         Inference.Generated(records, Inference.DefaultInputField, engine, isSpace)),
                                       serialize),
                       None)
  {
    var records := Reader.ParseLines(lines, parse).records;
    var field := Inference.DefaultInputField;
    var batches := Reader.Read(lines, BatchSize, parse).batches;
    assert batches == [records] && Reader.Read(lines, BatchSize, parse).failure == None by {
      ScriptReadsSmallInputAsOneBatch(lines, parse);
    }
    assert AllBatchesHave(batches, field) by {
      Reader.ReadWellFormed(lines, BatchSize, parse);
      AllHaveFromFlatten(batches, field);
    }
    var m := Inference.Merge(records, Inference.Generated(records, field, engine, isSpace));
    assert Flatten(PerBatch(batches, field, engine, isSpace)) == m by {
      assert PerBatch(batches, field, engine, isSpace) == [m];
      FlattenCons(m, []);
    }
    RunAppendsPerBatch(lines, BatchSize, parse, field, engine, isSpace, serialize, log);
  }
}
