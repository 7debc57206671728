# Resumable pipeline executor of EVcouplings

This project models the executor behind EVcouplings' pipelines. `execute` takes a configuration
that names a pipeline from the `PIPELINES` registry, the stages to run, a `global` section with
the output `prefix`, the `tools` and `databases` sections, and one section per stage. It goes
through the pipeline's stages in order and handles each one in one of two ways:

- A requested stage is run fresh. The executor writes the stage's input record
  (`<stage_prefix>_<stage>.incfg`), invokes the runner, prefixes the output keys when the stage asks
  for it, and writes the output record (`<stage_prefix>_<stage>.outcfg`).
- A stage that is not requested is resumed. The executor checks that the stored output record
  exists, reads it back, and checks that every file it names under a `*_file` key exists.

Each stage's output is merged into the global state. A countdown that starts at the number of
requested names stops the loop once that many fresh runs have happened. At the end the global
state is written to `<prefix>_final.outcfg` and returned.

The model has these modules:

- `Wrappers`: `Option` and `Result`.
- `ConfigOps`: configurations, which are maps from keys to values. It defines the dictionary
  merge `{**a, **b}`, the layered input of a stage, and key prefixing.
- `Registry`: the two registered pipelines, `protein_monomer` and `protein_complex`, with their
  stages, runners and key prefixes.
- `Storage`: the file system as a value `Disk` (written configuration records, other files
  created by runners, created folders) and as a `FileStore` class. The class changes the file
  system in place, and its methods are specified against `Disk`.
- `Executor`:
  - `Step` specifies one loop iteration, `Steps` the loop as a fold of `Step`, and `ExecuteSpec`
    the whole execution. All three are functions of the invocation, the collaborators and the
    file system beforehand.
  - The methods `Execute`, `RunStages`, `ProcessStage`, `RunRequestedStage` and
    `ResumeStoredStage` do the same work imperatively, with a `while` loop that keeps the
    countdown and the global state in local variables and mutates a `FileStore`. Each method is
    proved equal to its specification function.
- `ExecutorProperties`: properties of whole executions:
  - only requested stages are run, and the stages are visited in order;
  - how the countdown relates to the requested names;
  - resuming a stage gives the same result as running it;
  - the two alignments of the complex pipeline do not interfere;
  - an empty stage list is accepted;
  - a failed execution never writes the final record.

Stage runners and the path helper `insert_dir` are parameters of the model (`Env`). A runner maps
its input configuration either to an output configuration plus the set of files it created, or
to a raised exception.

Here the code and its documentation disagree, and the model follows the code:

- The error message for `stages is None` says at least one stage is needed, but an empty list is
  accepted. The countdown then starts at 0, no stage is touched, and only the final record is
  written.
- A requested name that no stage of the pipeline has is silently ignored, and so is a repeated
  name. Either way the countdown never reaches 0, so the loop goes on to resume every later stage
  (`UnknownRequestVisitsEveryStage`, `CountdownZeroMeansAllRequestedRan`).

## Model

| member | source | states |
|---|---|---|
| Registry.Pipelines | evcouplings/utils/pipeline.py:38-52 | exactly the two pipelines `protein_monomer` and `protein_complex` are registered, and within each pipeline every stage name is distinct |
| ConfigOps.Merge | evcouplings/utils/pipeline.py:183 | the merged configuration has the union of the keys; a key of the later layer takes its value from that layer, and any other key keeps its earlier value |
| ConfigOps.StageInput | evcouplings/utils/pipeline.py:132-138 | the input of a stage has the keys of tools, databases, the stage section and the global state, plus `prefix`; `prefix` is the stage prefix; any other key takes its value from the latest of global state, section, databases and tools that has it |
| ConfigOps.ApplyKeyPrefix | evcouplings/utils/pipeline.py:148-151 | without a key prefix the output is unchanged; with prefix `p`, every output key `k` appears as `p + k` with its value, and every key of the result is `p` followed by an output key |
| Executor.MissingRequired | evcouplings/utils/pipeline.py:72-75 | each of `pipeline`, `stages` and `global` is reported missing exactly when the invocation lacks it |
| Executor.RunStage | evcouplings/utils/pipeline.py:129-157 | a missing `tools` section fails with `MissingKey("tools")` and a missing `databases` section with `MissingKey("databases")`, both before anything is written. Otherwise the input record is written first and holds the layered input; the runner is invoked on it and a `Ran` event is appended; the stage succeeds exactly when the runner returns, and a raising runner fails as `StageFailed` of this stage. On success the countdown drops by one, the output record holds the runner's output with keys prefixed, exactly that record is merged into the global state, and the files the runner created are added. On failure the output record, the files and the global state are as before. No other record changes, and no folder is created |
| Executor.ResumeStage | evcouplings/utils/pipeline.py:158-183 | a stage that is not requested succeeds exactly when its output record exists and every `*_file` value in it names an existing file. A missing record is a `Checkpoint` failure, and every failure names this stage. On success exactly the stored record is merged into the global state. The countdown and the file system are unchanged |
| Executor.Step | evcouplings/utils/pipeline.py:111-183 | after a failure, and once the countdown is 0, nothing happens; a missing stage section fails with that stage's name; the countdown drops by one only on a successful fresh run of a requested stage; at most one event is added, a `Ran` only for a requested stage and a `Resumed` only for one that is not requested; the global keys, the records and the files only grow |
| Executor.Steps | evcouplings/utils/pipeline.py:108-183 | the loop extends the trace; if it ends running, it started running and the countdown plus the number of fresh runs is conserved; the countdown stays between 0 and its start; the global keys, the records and the files only grow |
| Executor.ExecuteSpec | evcouplings/utils/pipeline.py:72-190 | missing required keys, an unknown pipeline, `stages` given as None, and a missing or non-string `prefix` each fail with that error before anything is written. Once validation passes, the execution fails exactly when the loop fails, and with the loop's error; when the loop does not fail, it returns the final global state and writes it to `<prefix>_final.outcfg`, whether or not any stage ran. A success's result contains every key of the global section, and no record is ever removed |
| Executor.StepsAppend | evcouplings/utils/pipeline.py:111 | running the loop over `a + b` is running it over `a` and then over `b` |
| Executor.HaltedStaysHalted | evcouplings/utils/pipeline.py:114-115 | once the loop has failed or its countdown is 0, the remaining stages change nothing |
| Executor.HaltedAfterPrefix | evcouplings/utils/pipeline.py:111-115 | the `break` is sound: if the loop has halted after the first `i` stages, the result over the whole pipeline is the result over those `i` stages |
| Executor.RunRequestedStage | evcouplings/utils/pipeline.py:129-157 | the run of a requested stage on a `FileStore` yields exactly the state `RunStage` specifies: failure, global state, countdown and file system |
| Executor.ResumeStoredStage | evcouplings/utils/pipeline.py:158-180 | the resumption of a stage on a `FileStore` yields exactly the state `ResumeStage` specifies |
| Executor.ProcessStage | evcouplings/utils/pipeline.py:117-183 | one loop iteration on a `FileStore` yields exactly the state `Step` specifies |
| Executor.RunStages | evcouplings/utils/pipeline.py:103-183 | the loop with its countdown and `break` yields exactly the state `Steps` specifies over the whole pipeline |
| Executor.Execute | evcouplings/utils/pipeline.py:56-190 | the result and the new file system are exactly the outcome `ExecuteSpec` gives for the file system beforehand |
| Storage.FileStore.WriteConfig | evcouplings/utils/pipeline.py:140 | after writing, the path holds the configuration, and no other record, file or folder changes |
| Storage.FileStore.ReadConfig | evcouplings/utils/pipeline.py:168 | reading a stored record returns it |
| Storage.FileStore.HasRecord | evcouplings/utils/pipeline.py:160-165 | the checkpoint check answers whether an output record is stored at the path |
| Storage.FileStore.OutputFilesPresent | evcouplings/utils/pipeline.py:170-180 | the check of output files answers whether every `*_file` value names an existing file |
| Storage.FileStore.CreatePrefixFolders | evcouplings/utils/pipeline.py:122 | the folder for the prefix is recorded and nothing else changes |
| Storage.FileStore.AddArtifacts | evcouplings/utils/pipeline.py:143 | the files a runner created are added, and nothing else changes |
| ExecutorProperties.OnlyRequestedStagesRun | evcouplings/utils/pipeline.py:129-180 | every event of the loop is a fresh run exactly when its stage was requested, and a resumption otherwise |
| ExecutorProperties.VisitsEveryStage | evcouplings/utils/pipeline.py:111-115 | a loop that ends running with a non-zero countdown added one event for every stage |
| ExecutorProperties.StepFollowsStages | evcouplings/utils/pipeline.py:111-183 | one iteration keeps the trace naming the pipeline's stages in order |
| ExecutorProperties.VisitsStagesInOrder | evcouplings/utils/pipeline.py:111 | from the start of the loop, the `j`-th event names the `j`-th stage of the pipeline, with at most one event per stage |
| ExecutorProperties.RunsOfDistinctTrace | evcouplings/utils/pipeline.py:157 | with distinct stage names, the number of fresh runs is the number of distinct stages run |
| ExecutorProperties.RunsBoundedByHonoured | evcouplings/utils/pipeline.py:108-157 | the number of fresh runs is at most the number of distinct requested names that are stages of the pipeline, which is at most the number of requested names |
| ExecutorProperties.CountdownBounds | evcouplings/utils/pipeline.py:108-157 | while running, the countdown is the number of requested names minus the fresh runs, and never falls below the number of requested names that no stage can honour |
| ExecutorProperties.UnknownRequestVisitsEveryStage | evcouplings/utils/pipeline.py:108-129 | a requested name that is no stage of the pipeline keeps the countdown above 0, so a loop that does not fail visits every stage |
| ExecutorProperties.CountdownZeroMeansAllRequestedRan | evcouplings/utils/pipeline.py:105-157 | while running, the countdown is 0 exactly when the requested names are distinct and each of them has been run |
| ExecutorProperties.RunsOfLoopTrace | evcouplings/utils/pipeline.py:129-157 | from the start of the loop, the number of fresh runs is the number of distinct stages run, and each of them was requested |
| ExecutorProperties.RunThenResumeAgree | evcouplings/utils/pipeline.py:140-183 | once a stage has run, a later loop that does not request it, finds the same stage folder, and still finds the output record that run stored (with its output files present) resumes it successfully. It merges exactly the record the run merged, does not invoke the runner, and does not change the countdown; from the same global state it gives the same global state as the run |
| ExecutorProperties.KeyPrefixIsolation | evcouplings/utils/pipeline.py:145-183 | the outputs of `align_1` and `align_2` in the complex pipeline land under disjoint keys, and after both merges every value of each is present under its own prefix |
| ExecutorProperties.AlignmentKeysDisjoint | evcouplings/utils/pipeline.py:47-48 | keys stored under `first_` and keys stored under `second_` never collide |
| ExecutorProperties.PrefixedKeysStartWith | evcouplings/utils/pipeline.py:148-151 | every key stored under a non-empty key prefix starts with the prefix's first character |
| ExecutorProperties.PrefixedValuesSurviveMerge | evcouplings/utils/pipeline.py:183 | two prefixed outputs with disjoint keys both survive being merged one after the other |
| ExecutorProperties.EmptyStageListWritesOnlyFinal | evcouplings/utils/pipeline.py:86-190 | an empty stage list is accepted: no stage is touched, and the only changes are the prefix folder and the final record, which holds the global section unchanged |
| ExecutorProperties.StepLeavesOtherRecords | evcouplings/utils/pipeline.py:125-154 | one iteration changes no record whose path is not a record path of that stage |
| ExecutorProperties.LoopLeavesOtherRecords | evcouplings/utils/pipeline.py:111-183 | the loop changes no record at a path that is no stage's record path |
| ExecutorProperties.FinalPathIsNoStageRecord | evcouplings/utils/pipeline.py:125-126 | the final-record path cannot end like the input or output record of a non-empty stage name whose last letter is not `l` |
| ExecutorProperties.FinalRecordIsNoStageRecord | evcouplings/utils/pipeline.py:38-54 | no stage of a registered pipeline has a record at a final-record path |
| ExecutorProperties.FailureWritesNoFinalRecord | evcouplings/utils/pipeline.py:185-188 | a failed execution leaves the final record as it was, because it is written only after the whole loop succeeds |

## Left out

- The command-line entry points `run` and `app`, with option parsing, configuration file loading and the plotting backend switch: they are I/O around `execute`.
- The stage runners and their internals (alignment, couplings, comparison, mutation, folding, concatenation): they are parameters of the model, as a function from the stage input to an output and the created files, or to a raised exception.
- The path helper `insert_dir`: its definition is not part of this model, so it is an uninterpreted parameter from prefix and stage name to stage prefix.
- `check_required`, `verify_resources`, `read_config_file`, `write_config_file` and `create_prefix_folders`: their definitions are not part of this model. They are modelled by their effect on `Disk`: a key is checked for presence, the checkpoint check is "a record is stored at the path", a file check succeeds for a stored record or a file a runner created, a write replaces the record, and folder creation records the folder.
- Error message text: errors are modelled by kind and by the key or stage they name.
- Partial writes, permissions and concurrent access to the file system: the file system only changes through the executor's own writes.
- Python's dynamic typing: the invocation has a fixed shape, so a `pipeline` value that is not a string, a `global` section that is not a dictionary, and a `stages` value given as a string (where `in` would test for substrings) are not modelled. A non-string `prefix` fails as `WrongType` before any folder or record exists. The source fails later, if at all: the folder helper and `insert_dir` see the value first, and the only concatenation on `prefix` is the final-record path, after the whole loop. A value that supports those operations would even succeed.
- Storage.FileStore.OutputFilesPresent: a `*_file` value that is not a string counts as a missing file, where `verify_resources` behaves as the helper's own code dictates.
- Storage.FileStore.HasRecord: a file at the checkpoint path that is not a configuration record is not distinguished from a missing one.
- Dictionary insertion order: configurations are maps, so key order in the written records is not modelled. The output-file check does not depend on order.
- Executor.ExecuteSpec: a stage section that holds something other than a configuration is not modelled, because sections are typed as configurations.

