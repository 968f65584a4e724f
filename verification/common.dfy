/**
 Shared vocabulary of the batch-inference model: optional and fallible
 values, the parsed record, the batch, and sequence helpers used by every
 stage.
 */
module Common {

  /** A value that may be absent (Python's `None`). */
  datatype Option<+T> = None | Some(value: T)

  /** The outcome of a stage that can raise: a value, or the error raised. */
  datatype Result<+T, +E> = Success(value: T) | Failure(error: E)

  /** The errors the script can raise on its own data. Engine and file
      failures are outside the model. */
  datatype Error =
    | MalformedLine(line: nat)     // the index of an input line the JSON parser rejects
    | MissingField(field: string)  // a record lacks the configured input field (KeyError)

  /** One parsed line of the input file: a JSON object with string values. */
  type Record = map<string, string>

  /** A group of consecutive records handed to the engine in one call. */
  type Batch = seq<Record>

  function Min(a: int, b: int): int {
    if a <= b then a else b
  }

  /** All the elements of `ss`, in order. */
  function Flatten<T>(ss: seq<seq<T>>): seq<T> {
    if |ss| == 0 then [] else ss[0] + Flatten(ss[1..])
  }

  lemma FlattenCons<T>(s: seq<T>, ss: seq<seq<T>>)
    ensures Flatten([s] + ss) == s + Flatten(ss)
  {
    assert ([s] + ss)[1..] == ss;
  }

  /** Flattening distributes over concatenation of the outer sequence. */
  lemma {:induction false} FlattenAppend<T>(a: seq<seq<T>>, b: seq<seq<T>>)
    ensures Flatten(a + b) == Flatten(a) + Flatten(b)
  {
    if |a| == 0 {
      assert a + b == b;
    } else {
      assert (a + b)[1..] == a[1..] + b;
      FlattenAppend(a[1..], b);
    }
  }

  /** Every element of every inner sequence occurs in the flattening. */
  lemma {:induction false} FlattenMember<T>(ss: seq<seq<T>>, i: nat, r: nat)
    requires i < |ss| && r < |ss[i]|
    ensures ss[i][r] in Flatten(ss)
  {
    if i == 0 {
      assert Flatten(ss)[r] == ss[0][r];
    } else {
      FlattenMember(ss[1..], i - 1, r);
      assert ss[1..][i - 1] == ss[i];
    }
  }
}
