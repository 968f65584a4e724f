# Batch inference over JSON lines — a Dafny model

The script `vllm_batch_inference/adv_batch_inference.py` reads a JSON-lines
file of prompts, groups the records into batches of 20, formats each
record's `input` text into the Phi-3.5-mini-instruct chat template, sends a
batch's prompts to the vLLM engine in one call, strips each generated text,
stores it under the record's `output` key, and appends the augmented
records to an output file, one JSON line each.

This project models the pure parts of that script and proves their
contracts:

- `common.dfy` (module `Common`): `Option`, `Result`, the script's own
  errors (malformed line, missing input field), `Record` as
  `map<string, string>`, `Batch`, and `Flatten`.
- `reader.dfy` (module `Reader`): `load_data`. `Loop` is the `for` loop
  with its pending batch and equality test, `Flush` the final `if batch`,
  `Chunk` the two together, and `LoadBatches` the same loop with a mutable
  pending batch. `SplitEvery` is an independent reference definition.
  `ParseLines` and `Read` add the line parser as a parameter, so the error
  raised by a malformed line is modelled too.
- `prompt.dfy` (module `Prompt`): `format_prompt`, with its default system
  message and an inverse, `UserMessage`.
- `text.dfy` (module `Text`): `str.strip()` over a whitespace predicate
  given as a parameter.
- `inference.dfy` (module `Inference`): the record side of `inference`.
  It extracts the input field, builds the prompts, calls the engine (a
  function parameter), strips the outputs and zips them back into the
  records.
- `writer.dfy` (module `Writer`): `save_data`. The output file is a
  sequence of written lines, and saving appends to it.
- `driver.dfy` (module `Driver`): the `main` loop. `Drive` is the loop over
  the batches and `Run` is the reader composed with it. `Script` fixes the
  constants of `main`, and `ProcessBatches` is the loop written as a
  method.

Three properties of the code shape the model:

- `load_data` accepts any integer batch size. For a size of zero or less,
  the test `len(batch) == batch_size` on line 22 never fires, so the whole
  input comes back as one final batch (`Reader.ChunkNonPositive`).
- `inference` constructs the engine on every call (line 62), so once per
  batch. In a pure model that only affects cost: every batch uses the same
  engine function.
- `format_prompt` does not escape either message. A system message that
  contains the end and user tags makes two different message pairs give
  the same prompt (`Prompt.TagsAreNotEscaped`). A user message, which is
  what `inference` passes (line 60), that contains the end and assistant
  tags opens an assistant turn inside the user section
  (`Prompt.UserTagsAreNotEscaped`). For messages without `<`, the
  system, user and assistant tags each occur exactly once, in that order
  (`Prompt.MarkersOnce`); the default system message has no `<`
  (`Prompt.DefaultLacks`), so for the prompts `inference` builds only the
  user message matters (`Prompt.MarkersOnceDefault`).

## Model

| member | source | states |
|---|---|---|
| Reader.Loop | vllm_batch_inference/adv_batch_inference.py:19-24 | the loop body: append, compare the length with the batch size, yield and clear. It has no contract of its own; `LoopKeepsRecords`, `LoopShape` and `LoopNonPositive` characterise it |
| Reader.Flush | vllm_batch_inference/adv_batch_inference.py:25-26 | the batches after the loop are the ones yielded inside it, followed by the pending batch exactly when it is non-empty; concatenated they are the yielded records followed by the pending ones |
| Reader.LoopKeepsRecords | vllm_batch_inference/adv_batch_inference.py:19-24 | the batches yielded by the loop, followed by the still-pending records, are exactly the records read, in order |
| Reader.Chunk | vllm_batch_inference/adv_batch_inference.py:18-26 | concatenating every batch the reader yields gives back the input record sequence exactly: nothing dropped, duplicated or reordered |
| Reader.LoadBatches | vllm_batch_inference/adv_batch_inference.py:18-26 | the generator loop, with a mutable pending batch that is yielded when its length equals the batch size and flushed at the end if non-empty, yields exactly the batching `Chunk` defines |
| Reader.LoopShape | vllm_batch_inference/adv_batch_inference.py:20-24 | for a positive batch size, every batch yielded inside the loop is full and the pending batch always stays shorter than the batch size |
| Reader.ChunkSizes | vllm_batch_inference/adv_batch_inference.py:20-26 | for a batch size b >= 1, every batch has between 1 and b records, and every batch but the last has exactly b |
| Reader.ChunkCount | vllm_batch_inference/adv_batch_inference.py:22-26 | for N records and b >= 1 there are exactly ceil(N / b) batches, and none exactly when N = 0 |
| Reader.ChunkNonPositive | vllm_batch_inference/adv_batch_inference.py:22-26 | for a batch size <= 0 the flush inside the loop never fires: no batch for an empty input, exactly one batch holding every record otherwise |
| Reader.ChunkIsSplitEvery | vllm_batch_inference/adv_batch_inference.py:18-26 | for b >= 1 the reader agrees with the reference definition that repeatedly takes b records from the front |
| Reader.ChunkSmallInput | vllm_batch_inference/adv_batch_inference.py:22-26 | an input of 1 to b records is yielded as one batch |
| Reader.ParseLines | vllm_batch_inference/adv_batch_inference.py:20-21 | lines are parsed in order up to the first one the parser rejects; every record is the parse of its own line, and the reported index is that of the first rejected line |
| Reader.Read | vllm_batch_inference/adv_batch_inference.py:18-26 | the reader with the line parser: no contract of its own; `ReadWellFormed` characterises it when every line parses and `ReadMalformed` when one does not |
| Reader.ReadWellFormed | vllm_batch_inference/adv_batch_inference.py:18-26 | when every line parses, the reader ends without error and its batches concatenate to the parsed lines, in order |
| Reader.ReadMalformed | vllm_batch_inference/adv_batch_inference.py:20-24 | when line j is the first line the JSON parser rejects, the reader raises the parse error (the model records j in it) after yielding only records of earlier lines, each the parse of its own line: j / b batches of exactly b records each for b >= 1, none for b <= 0; no batch holding line j is ever produced |
| Prompt.FormatPrompt | vllm_batch_inference/adv_batch_inference.py:35-45 | the prompt is the header, then the user message unchanged, then the trailer (the end tag and the assistant tag), each in place and nothing else in between; its length is the three lengths added up |
| Prompt.HeaderLayout | vllm_batch_inference/adv_batch_inference.py:35-42 | the header is the system tag, then the system message (the fixed default when none is given, an explicit one otherwise, even an empty one), then the end tag and the user tag |
| Prompt.UserMessageInvertsFormat | vllm_batch_inference/adv_batch_inference.py:39-45 | reading the user message back out of a prompt under the same system message gives `u` exactly when the prompt is the formatting of `u` |
| Prompt.FormatPromptInjective | vllm_batch_inference/adv_batch_inference.py:39-45 | under one system message, different user messages give different prompts |
| Prompt.TagsAreNotEscaped | vllm_batch_inference/adv_batch_inference.py:39-45 | because the system message is not escaped, the system message a + end tag + user tag + b with the user message c gives the same prompt as the system message a with the user message b + end tag + user tag + c |
| Prompt.MarkersOnce | vllm_batch_inference/adv_batch_inference.py:39-45 | when neither the system message in effect nor the user message contains `<`, the system tag occurs in the prompt only at its start, the user tag only right after the system message and its end tag, and the assistant tag only at the very end, so each occurs exactly once and in that order |
| Prompt.DefaultLacks | vllm_batch_inference/adv_batch_inference.py:35-38 | the default system message contains no `<` |
| Prompt.MarkersOnceDefault | vllm_batch_inference/adv_batch_inference.py:35-45 | for the prompts built as at line 60, with no system message, a user message without `<` gives a prompt in which the system, user and assistant tags each occur exactly once, at the template's positions and in that order |
| Prompt.UserTagsAreNotEscaped | vllm_batch_inference/adv_batch_inference.py:39-45 | because the user message is not escaped, the prompt for a user message x + end tag + assistant tag + y begins with the complete prompt for x, assistant tag included, and is strictly longer, so a second assistant tag follows |
| Text.Strip | vllm_batch_inference/adv_batch_inference.py:65 | the stripped text is a slice of the original. Only whitespace is cut before and after it, and when non-empty it starts and ends with a non-space |
| Text.StripIdempotent | vllm_batch_inference/adv_batch_inference.py:65 | stripping an already stripped text changes nothing |
| Text.StripEmpty | vllm_batch_inference/adv_batch_inference.py:65 | a text strips to empty exactly when it is all whitespace |
| Inference.Inputs | vllm_batch_inference/adv_batch_inference.py:59 | input extraction fails with a key error naming the field exactly when some record lacks it; otherwise it gives one input per record, the record's value for the field |
| Inference.Prompts | vllm_batch_inference/adv_batch_inference.py:60 | one prompt per input, in order, each reading back (under the default system message) to its own input |
| Inference.Merge | vllm_batch_inference/adv_batch_inference.py:66 | zip semantics: the result has min(records, texts) elements; element i has the keys of record i plus `output`, `output` holds text i (overwriting any earlier value), and every other key keeps its value |
| Inference.Generated | vllm_batch_inference/adv_batch_inference.py:59-65 | no text at all when a record lacks the field; otherwise one text per engine answer, each without leading or trailing whitespace; `InferSuccess` gives each text as the stripped answer to its prompt |
| Inference.Infer | vllm_batch_inference/adv_batch_inference.py:59-66 | the runner fails with the key error exactly when a record lacks the input field, and otherwise returns at most one record per input record |
| Inference.InferSuccess | vllm_batch_inference/adv_batch_inference.py:59-66 | for a batch whose records all carry the field: prompt i is the formatting of record i's input under the default system message, and the result is the records merged with the stripped engine outputs, one per engine output |
| Inference.InferLength | vllm_batch_inference/adv_batch_inference.py:64-66 | the result has one record per input when the engine answers every prompt, and is cut to the number of answers when it returns fewer |
| Inference.MergeAppend | vllm_batch_inference/adv_batch_inference.py:66 | merging is positional: when the first batch has exactly one text per record, merging the concatenated batches with the concatenated texts equals merging each batch with its own texts |
| Writer.SaveData | vllm_batch_inference/adv_batch_inference.py:76-78 | saving k records adds exactly k lines after the existing ones, leaves those untouched, and line i is the serialisation of record i followed by a newline |
| Writer.SaveDataTwice | vllm_batch_inference/adv_batch_inference.py:76-78 | two saves in a row equal one save of both record lists, in order |
| Writer.SaveDataRepeats | vllm_batch_inference/adv_batch_inference.py:76-78 | saving the same records twice writes them twice; there is no deduplication |
| Driver.Drive | vllm_batch_inference/adv_batch_inference.py:86-88 | the loop never changes lines already in the output file; it ends without error exactly when every record of every batch carries the input field, and otherwise with the key error |
| Driver.Run | vllm_batch_inference/adv_batch_inference.py:84-88 | a whole run never changes lines already in the output file; it ends without error exactly when the reader raises nothing and every record read carries the field; a missing field ends it with the key error even when the reader also raises, and otherwise it ends with the reader's error. `RunAppendsPerBatch`, `RunWritesEveryRecord` and `RunStopsAtMalformedLine` give the lines written |
| Driver.ProcessBatches | vllm_batch_inference/adv_batch_inference.py:86-88 | the loop written as a method, with the output file as a variable appended to per batch and an early return on the first error, ends exactly as `Drive` does |
| Driver.DriveWritesEveryRecord | vllm_batch_inference/adv_batch_inference.py:86-88 | with every field present and one answer per prompt, the run ends without error and the file gains the merged records of every batch, in batch order and input order |
| Driver.DriveAppendsPerBatch | vllm_batch_inference/adv_batch_inference.py:86-88 | for any engine, even one that answers fewer prompts than it is given, when every record carries the field the run ends without error and the file gains, batch after batch, each batch's records merged with that batch's own stripped answers |
| Driver.DriveStopsAtMissingField | vllm_batch_inference/adv_batch_inference.py:86-88 | when batch k is the first with a record lacking the field, the run ends with the key error, and the file holds exactly what the first k batches appended |
| Driver.RunWritesEveryRecord | vllm_batch_inference/adv_batch_inference.py:84-88 | end to end, with well-formed lines carrying the field and one answer per prompt: no error, old lines untouched, one new line per input line in input order, each the line's record with `output` added and every other key unchanged |
| Driver.RunAppendsPerBatch | vllm_batch_inference/adv_batch_inference.py:84-88 | end to end, for any engine, when every record of every batch read carries the field: the file gains each batch's merged records in batch order, and the run ends with the reader's parse error if there was one, else without error |
| Driver.RunStopsAtMalformedLine | vllm_batch_inference/adv_batch_inference.py:84-88 | when line j is the first malformed line, and (for b >= 1) the records of the first (j / b) * b lines carry the field, the field of the records still pending being never looked up: the batches read hold exactly the parses of those first (j / b) * b lines (none for b <= 0), the file gains exactly those batches' merged records in order, and the run ends with the parse error; with one answer per prompt that is (j / b) * b new lines |
| Driver.Script | vllm_batch_inference/adv_batch_inference.py:84-88 | `Run` with the batch size 20 and the `input` field of `main`: no contract of its own; `ScriptReadsSmallInputAsOneBatch` and `ScriptSmallInput` characterise it |
| Driver.ScriptReadsSmallInputAsOneBatch | vllm_batch_inference/adv_batch_inference.py:84 | with the script's batch size of 20, an input of 1 to 20 well-formed lines is read as one batch |
| Driver.ScriptSmallInput | vllm_batch_inference/adv_batch_inference.py:84-88 | the script itself, with batch size 20 and the `input` field, on 1 to 20 well-formed lines that all carry `input`: one engine call for the whole file, no error, and the file gains the parsed records merged with that call's stripped answers |

## Left out

- JSON parsing and serialisation (`json.loads`, `json.dumps`) are library calls. The parser is a parameter `string -> Option<Record>`, and the serialiser a parameter `Record -> string`.
- Record values are strings, as the type annotation `dict[str, str]` says. Numbers, nested objects and key order in the written JSON are not modelled. A `map` has no order, so where `{**item, "output": ...}` places the `output` key is not represented.
- The vLLM engine (`LLM`, `SamplingParams`, `llm.generate`) is an external library. It is a function parameter from the prompt list to the list of first-completion texts. It is assumed to return one text per prompt only where a lemma says so (`OnePerPrompt`). An engine exception, or a request with no completion, is not modelled.
- The temperature and maximum-token arguments are sampling parameters passed straight to the engine. The temperature is a float. Both are folded into the engine parameter.
- Reader.ReadMalformed: the error Python raises does not name the line of the file; its position counts characters within the one line. The index in `MalformedLine(j)` exists only in the model.
- A line holding valid JSON that is not an object (`42`, `[1]`) is accepted by `json.loads` and only fails later, at the `item[input_field]` lookup on line 59, with a type error rather than a key error. The parser parameter returns `Option<Record>`, so it cannot express such a value; the model treats the line as one the parser rejects or as a record.
- Text.Strip: the whitespace class is a parameter, not Python's exact Unicode whitespace set.
- File handling (`open`, missing input file, write failures, partial final lines after a crash) is I/O. The output file is the sequence of lines written to it.
- The progress `print` in `main` is console output.
- Generator laziness and the aliasing of the yielded list, which is cleared after each yield, are not modelled. Batches are immutable snapshots. The interleaving that laziness causes is modelled: batches yielded before a malformed line are processed and written before the parse error ends the run.
- Python's `KeyError` carries only the missing key, and `Error.MissingField` carries the same. Which record lacked the key is not reported.
