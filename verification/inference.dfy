/**
 The record-merging half of the inference runner (`inference`): pick the
 input field of every record, format each into a prompt with the default
 system message, hand all prompts to the engine in one call, strip each
 generated text, and pair the texts back up with the records by position,
 setting the `output` key of each.

 The engine is a parameter: a function from the list of prompts to the
 list of generated texts (the first completion of each request), with the
 sampling parameters fixed. Nothing here assumes it returns one text per
 prompt; the pairing stops at the shorter list, as `zip` does.
 */
module Inference {
  import opened Common
  import Prompt
  import Text

  /** The key the generated text is stored under. */
  const OutputKey: string := "output"

  /** The field read when the caller names none. */
  const DefaultInputField: string := "input"

  type Engine = seq<string> -> seq<string>

  /** Every record carries `field`. */
  ghost predicate AllHave(data: seq<Record>, field: string) {
    forall i :: 0 <= i < |data| ==> field in data[i]
  }

  /** The input texts of a batch, or the key error the first record without
      `field` raises. */
  function Inputs(data: seq<Record>, field: string): (r: Result<seq<string>, Error>)
    ensures r.Failure? <==> !AllHave(data, field)
    ensures r.Failure? ==> r.error == MissingField(field)
    ensures r.Success? ==> |r.value| == |data|
    ensures r.Success? ==> forall i :: 0 <= i < |data| ==> r.value[i] == data[i][field]
  {
    if |data| == 0 then Success([])
    else if field !in data[0] then Failure(MissingField(field))
    else match Inputs(data[1..], field)
      case Failure(e) =>
        assert !AllHave(data, field) by {
          var i :| 0 <= i < |data| - 1 && field !in data[1..][i];
          assert field !in data[i + 1];
        }
        Failure(e)
      case Success(rest) => Success([data[0][field]] + rest)
  }

  /** The prompts sent to the engine, one per input text, each under the
      default system message. */
  function Prompts(inputs: seq<string>): (ps: seq<string>)
    ensures |ps| == |inputs|
    ensures forall i :: 0 <= i < |ps| ==> Prompt.UserMessage(ps[i], None) == Some(inputs[i])
  {
    if |inputs| == 0 then []
    else
      Prompt.UserMessageInvertsFormat(Prompt.FormatPrompt(inputs[0], None), inputs[0], None);
      [Prompt.FormatPrompt(inputs[0], None)] + Prompts(inputs[1..])
  }

  /** Each generated text with surrounding whitespace removed. */
  function Trimmed(outputs: seq<string>, isSpace: char -> bool): seq<string> {
    seq(|outputs|, i requires 0 <= i < |outputs| => Text.Strip(outputs[i], isSpace))
  }

  /** Pair records with texts by position, stopping at the shorter list; in
      each pair the record gains (or has replaced) its `output` key and
      keeps every other key and value. */
  function Merge(data: seq<Record>, outputs: seq<string>): (r: seq<Record>)
    ensures |r| == Min(|data|, |outputs|)
    ensures forall i :: 0 <= i < |r| ==> r[i].Keys == data[i].Keys + {OutputKey}
    ensures forall i :: 0 <= i < |r| ==> r[i][OutputKey] == outputs[i]
    ensures forall i, k :: 0 <= i < |r| && k in data[i] && k != OutputKey ==> r[i][k] == data[i][k]
  {
    if |data| == 0 || |outputs| == 0 then []
    else [data[0][OutputKey := outputs[0]]] + Merge(data[1..], outputs[1..])
  }

  /** The stripped texts the engine produces for a batch, none if the
      batch has a record without `field` (the engine is then never
      called). */
  function Generated(data: seq<Record>, field: string, engine: Engine, isSpace: char -> bool)
    : (r: seq<string>)
    ensures !AllHave(data, field) ==> r == []
    ensures AllHave(data, field) ==> |r| == |engine(Prompts(Inputs(data, field).value))|
    ensures forall i :: 0 <= i < |r| && |r[i]| > 0 ==> !isSpace(r[i][0]) && !isSpace(r[i][|r[i]| - 1])
  {
    match Inputs(data, field)
    case Failure(_) => []
    case Success(inputs) => Trimmed(engine(Prompts(inputs)), isSpace)
  }

  /** One call of the runner on a batch: the key error if a record lacks
      `field`, and otherwise at most one augmented record per input
      record. */
  function Infer(data: seq<Record>, field: string, engine: Engine, isSpace: char -> bool)
    : (r: Result<seq<Record>, Error>)
    ensures r.Failure? <==> !AllHave(data, field)
    ensures r.Failure? ==> r.error == MissingField(field)
    ensures r.Success? ==> |r.value| <= |data|
  {
    match Inputs(data, field)
    case Failure(e) => Failure(e)
    case Success(_) => Success(Merge(data, Generated(data, field, engine, isSpace)))
  }

  /** On a batch whose records all carry `field`: the prompt for record i
      is the formatting of its input under the default system message, and
      the result is record i with `output` set to the stripped text i, for
      as many records as the engine returned texts. */
  lemma InferSuccess(data: seq<Record>, field: string, engine: Engine, isSpace: char -> bool)
    requires AllHave(data, field)
    ensures forall i :: 0 <= i < |data| ==>
              Prompts(Inputs(data, field).value)[i] == Prompt.FormatPrompt(data[i][field], None)
    ensures Infer(data, field, engine, isSpace) == Success(Merge(data, Generated(data, field, engine, isSpace)))
    ensures |Generated(data, field, engine, isSpace)| == |engine(Prompts(Inputs(data, field).value))|
    ensures forall i :: 0 <= i < |Generated(data, field, engine, isSpace)| ==>
              Generated(data, field, engine, isSpace)[i]
              == Text.Strip(engine(Prompts(Inputs(data, field).value))[i], isSpace)
  {
    var ps := Prompts(Inputs(data, field).value);
    forall i | 0 <= i < |data|
      ensures ps[i] == Prompt.FormatPrompt(data[i][field], None)
    {
      Prompt.UserMessageInvertsFormat(ps[i], data[i][field], None);
    }
  }

  /** When the engine returns one text per prompt, every record comes back,
      in order; when it returns fewer, the result is cut to that many. */
  lemma InferLength(data: seq<Record>, field: string, engine: Engine, isSpace: char -> bool)
    requires AllHave(data, field)
    ensures |engine(Prompts(Inputs(data, field).value))| >= |data| ==>
              |Infer(data, field, engine, isSpace).value| == |data|
    ensures |engine(Prompts(Inputs(data, field).value))| < |data| ==>
              |Infer(data, field, engine, isSpace).value| == |engine(Prompts(Inputs(data, field).value))|
  {
    InferSuccess(data, field, engine, isSpace);
  }

  /** Merging is positional: merging two concatenated batches with their
      concatenated texts is merging each batch with its own texts, provided
      the first batch got one text per record. */
  lemma {:induction false} MergeAppend(a: seq<Record>, b: seq<Record>, oa: seq<string>, ob: seq<string>)
    requires |oa| == |a|
    ensures Merge(a + b, oa + ob) == Merge(a, oa) + Merge(b, ob)
    decreases |a|
  {
    if |a| == 0 {
      assert a + b == b && oa + ob == ob;
    } else {
      assert (a + b)[1..] == a[1..] + b;
      assert (oa + ob)[1..] == oa[1..] + ob;
      MergeAppend(a[1..], b, oa[1..], ob);
    }
  }
}
