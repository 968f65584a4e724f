/**
 The writer of the batch-inference script (`save_data`): each record is
 serialised and written, followed by a newline, to the end of the output
 file, which is opened for appending and never truncated.

 The file is modelled as the sequence of lines written to it so far, each
 line being the exact text written for one record; its content is their
 concatenation. The serialiser (`json.dumps`) is a parameter.
 */
module Writer {
  import opened Common

  type Log = seq<string>

  /** The line written for one record. */
  function Line(rec: Record, serialize: Record -> string): string {
    serialize(rec) + "\n"
  }

  /** Append one line per record, in order, after the existing lines. */
  function SaveData(log: Log, data: seq<Record>, serialize: Record -> string): (log': Log)
    ensures |log'| == |log| + |data|
    ensures log'[..|log|] == log
    ensures forall i :: 0 <= i < |data| ==> log'[|log| + i] == Line(data[i], serialize)
    decreases |data|
  {
    if |data| == 0 then log
    else
      var log' := SaveData(log + [Line(data[0], serialize)], data[1..], serialize);
      assert log'[..|log|] == (log + [Line(data[0], serialize)])[..|log|];
      log'
  }

  /** Two appends in a row are one append of both record lists. */
  lemma SaveDataTwice(log: Log, a: seq<Record>, b: seq<Record>, serialize: Record -> string)
    ensures SaveData(SaveData(log, a, serialize), b, serialize) == SaveData(log, a + b, serialize)
  {
    var l1 := SaveData(SaveData(log, a, serialize), b, serialize);
    var l2 := SaveData(log, a + b, serialize);
    assert |l1| == |l2|;
    forall i | 0 <= i < |l1|
      ensures l1[i] == l2[i]
    {
      if i < |log| {
        assert l1[i] == l1[..|log|][i];
        assert l2[i] == l2[..|log|][i];
      } else if i < |log| + |a| {
        assert l1[i] == SaveData(log, a, serialize)[..|log| + |a|][i];
        assert (a + b)[i - |log|] == a[i - |log|];
      } else {
        assert (a + b)[i - |log|] == b[i - |log| - |a|];
      }
    }
  }

  /** Saving the same records twice writes them twice: there is no
      deduplication. */
  lemma SaveDataRepeats(log: Log, data: seq<Record>, serialize: Record -> string)
    ensures |SaveData(SaveData(log, data, serialize), data, serialize)| == |log| + 2 * |data|
    ensures SaveData(SaveData(log, data, serialize), data, serialize)
         == SaveData(log, data + data, serialize)
  {
    SaveDataTwice(log, data, data, serialize);
  }
}
