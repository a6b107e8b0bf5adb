# AoE2 build-order documents, modelled in Dafny

This project models the build-order document layer of RTS Overlay for Age of
Empires II (`aoe2/aoe2_build_order.py`) and proves properties of it. A build
order is a JSON document: a `name`, an optional `civilization`, and a
`build_order` list of steps. Each step has a villager count, an age, four
resources (plus an optional `builder`) and notes. The layer has five
operations:

- `check_valid_aoe2_build_order` decides whether a document is valid and
  returns `(is_valid, message)`. The message names the first violation, and
  optionally starts with the document's name.
- `aoe2_build_order_sorting` is the sorting key: build orders for any
  civilization come last.
- `get_aoe2_build_order_step` builds a new step, carrying the villager count,
  age and resources forward from the last step.
- `get_aoe2_build_order_template` builds a fresh document with one default
  step.
- `evaluate_aoe2_build_order_timing` writes a `time` field into every step,
  in place: the formatted `25 * villager_count + time_offset`.

Files:

- `py_json.dfy` (module `PyJson`): decoded JSON values as Python sees them,
  and the Python built-ins the code applies to them. These are `d[k]`,
  `k in v`, `len`, iteration, `isinstance(v, int)`, `str`, `repr` and
  `d[k] = x`. Each built-in that can raise returns a `Result` holding either
  a value or a `KeyError`, `TypeError` or `AssertionError`.
- `aoe2_build_order.dfy` (module `Aoe2BuildOrder`): the validator, the
  sorting key and the templates as pure functions. The validator is checked
  against a declarative definition of a well-formed document.
- `aoe2_build_order_properties.dfy`: lemmas about the validator, the sorting
  key and the templates.
- `aoe2_timing.dfy` (module `Aoe2Timing`): the timing pass.
  - The document is a class, `BuildOrderDocument`, that holds the top-level
    dict.
  - The pass is a method with a `while` loop that writes each timed step back
    into the document.
  - The method is proved equal to the specification function
    `TimedDocument`.
- `aoe2_timing_properties.dfy`: lemmas about `TimedDocument`.

Three collaborators whose code is not in this file become parameters:

- the key set of the civilization table `aoe2_civilization_icon`, as
  `civs: set<string>`;
- `is_valid_resource`, as `isValidResource: Json -> bool`;
- `build_order_time_to_str`, as `timeToStr: int -> string`.

The text `str(err)` of exceptions other than `KeyError` is a fourth
parameter, `describe`.

Notable behaviour of the code:

- Steps are numbered from 0 in messages ("Step 0"), not from 1.
- `name` is required: without it, reading `data['name']` raises a `KeyError`
  and the message is `Wrong JSON key: 'name'.`.
- There is no lower bound on `age`: 0 and negative ints pass.
- A `bool` passes as a villager count or an age, because a bool is an int in
  Python.
- `notes` may be a string or a dict as well as a list. Looping over a string
  visits its characters, and looping over a dict visits its keys, so both
  pass.
- A `build_order` given as a dict or a string is not rejected for its type.
  The checks on its first element (a string) report missing fields, or raise
  a `TypeError` at the first subscript.
- Every other exception is caught, so the validator always returns a pair.

## Model

| member | source | states |
|---|---|---|
| PyJson.SetItem | aoe2/aoe2_build_order.py:207 | `d[k] = x` makes `k` map to `x`; an existing key keeps its place, a new key is appended |
| PyJson.SetItemOther | aoe2/aoe2_build_order.py:207 | `d[k] = x` leaves every other key's value unchanged |
| PyJson.SetItemSame | aoe2/aoe2_build_order.py:205-207 | storing the value a key already holds leaves the dict unchanged |
| PyJson.SetItemTwice | aoe2/aoe2_build_order.py:205-207 | a second store under the same key overrides the first |
| PyJson.LookupAt | aoe2/aoe2_build_order.py:20 | a dict lookup returns the value of the first entry with the key |
| PyJson.LookupAbsent | aoe2/aoe2_build_order.py:27 | a key that no entry carries is absent |
| PyJson.Contains | aoe2/aoe2_build_order.py:48-58 | `k in v` raises a TypeError exactly for None, bools and ints; on a dict it is a key test, on a list an element test |
| PyJson.GetItem | aoe2/aoe2_build_order.py:20-24 | `v[k]` succeeds exactly on a dict holding `k`; otherwise KeyError(k) on a dict and TypeError on anything else |
| PyJson.Iter | aoe2/aoe2_build_order.py:44 | a loop visits a list's elements; over a dict or string it visits strings, as many as `len`; it raises exactly when `len` does |
| PyJson.Len | aoe2/aoe2_build_order.py:40 | `len(v)` raises a TypeError exactly for None, bools and ints |
| Aoe2BuildOrder.KnownCivilization | aoe2/aoe2_build_order.py:34 | a civilization is accepted iff it is a string in the table or a wildcard; a list or dict raises a TypeError (unhashable) |
| Aoe2BuildOrder.FirstUnknownCivilization | aoe2/aoe2_build_order.py:33-35 | no result iff every listed civilization is accepted; otherwise the first one that is not |
| Aoe2BuildOrder.CheckCivilization | aoe2/aoe2_build_order.py:27-38 | passes iff the civilization is absent, accepted, or a non-empty list of accepted values; a failure carries a message |
| Aoe2BuildOrder.FirstMissing | aoe2/aoe2_build_order.py:48-58 | none missing iff every key is `in` the container; otherwise the first absent key, in the given order, and whenever `keys[i]` is the first absent one it is the one reported; raises iff the container supports no `in` |
| Aoe2BuildOrder.FirstInvalidResource | aoe2/aoe2_build_order.py:83-93 | none invalid iff every value can be read and is valid; otherwise the first key, in the given order, whose value fails, with that value; a raise comes from reading one of the keys |
| Aoe2BuildOrder.FirstNonString | aoe2/aoe2_build_order.py:101-103 | none iff every note is a string; otherwise the first note, in order, that is not a string |
| Aoe2BuildOrder.MissingFieldMessage | aoe2/aoe2_build_order.py:49 | the message starts with the step's label |
| Aoe2BuildOrder.InvalidVillagerCountMessage | aoe2/aoe2_build_order.py:62 | the message starts with the step's label |
| Aoe2BuildOrder.InvalidAgeMessage | aoe2/aoe2_build_order.py:66 | the message starts with the step's label |
| Aoe2BuildOrder.MissingResourceMessage | aoe2/aoe2_build_order.py:72 | the message starts with the step's label |
| Aoe2BuildOrder.InvalidResourceMessage | aoe2/aoe2_build_order.py:84 | the message starts with the step's label |
| Aoe2BuildOrder.InvalidBuilderMessage | aoe2/aoe2_build_order.py:97 | the message starts with the step's label |
| Aoe2BuildOrder.NonStringNoteMessage | aoe2/aoe2_build_order.py:103 | the message starts with the step's label |
| Aoe2BuildOrder.CheckBuilder | aoe2/aoe2_build_order.py:96-97 | never raises; passes iff `builder` is absent or valid |
| Aoe2BuildOrder.CheckResources | aoe2/aoe2_build_order.py:69-97 | passes iff the four resources are present and valid and `builder` is absent or valid; the first missing resource (wood, food, gold, stone) is reported, then the first invalid one with its value, then an invalid `builder`; raises only TypeErrors |
| Aoe2BuildOrder.CheckNotes | aoe2/aoe2_build_order.py:100-103 | passes iff every value the loop over `notes` visits is a string; for a list, the first note that is not a string is reported with its value; raises only the TypeError of a non-iterable |
| Aoe2BuildOrder.CheckStep | aoe2/aoe2_build_order.py:44-103 | a step passes iff it is well formed; the first missing field is reported, then a non-int villager count with its value, then a bad age (what follows is `ResourcesThenNotes`); every failure starts with "Step N "; raises only TypeErrors |
| Aoe2BuildOrder.CheckStepsFrom | aoe2/aoe2_build_order.py:44-45 | with `check` as the loop body (`StepCheck` gives the step check), passes iff every step from `from` on passes; otherwise gives the result of the first step that does not |
| Aoe2BuildOrder.CheckBuildOrder | aoe2/aoe2_build_order.py:19-103 | a failure message is never empty; a KeyError can only name `name` or `build_order` |
| Aoe2BuildOrder.CheckValidAoe2BuildOrder | aoe2/aoe2_build_order.py:5-111 | true iff the checks pass, and then the message is empty; otherwise the message starts with the name prefix |
| Aoe2BuildOrder.SortingKey | aoe2/aoe2_build_order.py:114-125 | the key is 0 or 1, and 1 iff `civilization` is absent or one of 'any', 'Any', 'Generic' |
| Aoe2BuildOrder.ZeroResources | aoe2/aoe2_build_order.py:145-150 | the four resources are all 0 and there is no `builder` |
| Aoe2BuildOrder.MakeStep | aoe2/aoe2_build_order.py:142-155 | a step dict has exactly the four step keys, in order, holding the given values |
| Aoe2BuildOrder.FieldOr | aoe2/aoe2_build_order.py:143-150 | on a dict, the field when present and the default otherwise |
| Aoe2BuildOrder.NextStep | aoe2/aoe2_build_order.py:128-170 | no argument, or None, gives the default step; any other value but a non-empty list fails the assert; a result has the four step keys and placeholder notes |
| Aoe2BuildOrder.Template | aoe2/aoe2_build_order.py:173-186 | the template is named 'Build order name', has civilization 'Generic', and its `build_order` is exactly one default step |
| Aoe2BuildOrderProperties.AllStepsPass | aoe2/aoe2_build_order.py:44-103 | every step passes iff every step is well formed |
| Aoe2BuildOrderProperties.ValidExactlyWhenWellFormed | aoe2/aoe2_build_order.py:19-111 | the validator accepts a document iff it is a dict with a name, an acceptable civilization and a non-empty list of well-formed steps |
| Aoe2BuildOrderProperties.ReportedPair | aoe2/aoe2_build_order.py:5-111 | `(True, '')` iff the document is well formed; otherwise the message is non-empty and starts with the name prefix |
| Aoe2BuildOrderProperties.OnlyTopLevelKeysRaiseKeyError | aoe2/aoe2_build_order.py:20-24 | a KeyError means `name` is missing, or `name` is there and `build_order` is missing |
| Aoe2BuildOrderProperties.EmptyCivilizationListRejected | aoe2/aoe2_build_order.py:30-31 | an empty civilization list gives "Valid civilization list is empty." after the prefix |
| Aoe2BuildOrderProperties.CivilizationCheckedFirst | aoe2/aoe2_build_order.py:27-40 | a civilization failure decides the outcome, whatever the build order holds |
| Aoe2BuildOrderProperties.WildcardIgnoresTable | aoe2/aoe2_build_order.py:34-37 | 'Any'/'any' (or a non-empty list of them) passes, and the outcome does not depend on the table |
| Aoe2BuildOrderProperties.UnknownCivilizationRejected | aoe2/aoe2_build_order.py:37-38 | an unknown civilization string is reported by name |
| Aoe2BuildOrderProperties.EmptyBuildOrderRejected | aoe2/aoe2_build_order.py:40-41 | an empty build order gives "Build order is empty." after the prefix |
| Aoe2BuildOrderProperties.FirstBadStepDecides | aoe2/aoe2_build_order.py:44-45 | the first ill-formed step decides the result, and its message names that step's 0-based index |
| Aoe2BuildOrderProperties.FirstBadStepOfLoop | aoe2/aoe2_build_order.py:44-45 | when every step before `j` is well formed and step `j` is not, the loop's result is step `j`'s own check |
| Aoe2BuildOrderProperties.MissingStepFieldReported | aoe2/aoe2_build_order.py:48-58 | a step missing a field gets "Step N is missing the 'F' field." for the first missing field F |
| Aoe2BuildOrderProperties.VillagerCountRule | aoe2/aoe2_build_order.py:61-62 | with the four fields there, a non-int villager count is reported as "Step N has invalid villager count (V)."; an int (or bool) count passes on to the age, resource and notes checks |
| Aoe2BuildOrderProperties.AgeRule | aoe2/aoe2_build_order.py:65-66 | an int age of at most 4 passes, with no lower bound; otherwise the age message |
| Aoe2BuildOrderProperties.ResourcesThenNotes | aoe2/aoe2_build_order.py:69-103 | with the fields there, an int villager count and an accepted age, a resource failure decides the step; only when the resources pass are the notes checked |
| Aoe2BuildOrderProperties.MissingResourceReported | aoe2/aoe2_build_order.py:71-81 | the first missing resource, in the order wood, food, gold, stone, is reported |
| Aoe2BuildOrderProperties.InvalidResourceReported | aoe2/aoe2_build_order.py:83-93 | with all four resources present, the first invalid one in the order wood, food, gold, stone is reported as "Step N has an invalid 'R' resource (V)." |
| Aoe2BuildOrderProperties.BuilderRule | aoe2/aoe2_build_order.py:95-97 | an absent `builder` never fails a step; a present one fails it iff invalid |
| Aoe2BuildOrderProperties.NonStringNoteReported | aoe2/aoe2_build_order.py:100-103 | with everything before them right, the first note that is not a string is reported as "Step N note 'V' is not a string." |
| Aoe2BuildOrderProperties.SortedLastPassesCivilization | aoe2/aoe2_build_order.py:125 | a build order sorted last for any reason but 'Generic' passes the civilization check |
| Aoe2BuildOrderProperties.GenericDependsOnTable | aoe2/aoe2_build_order.py:125 | 'Generic' sorts last but passes the civilization check iff the table has it |
| Aoe2BuildOrderProperties.WildcardListSortsFirst | aoe2/aoe2_build_order.py:125 | any civilization list sorts first, even a list of wildcards, which passes the civilization check whatever the table holds |
| Aoe2BuildOrderProperties.DefaultStepRule | aoe2/aoe2_build_order.py:156-170 | the default step is valid iff a zero resource is valid |
| Aoe2BuildOrderProperties.DefaultStepWellFormed | aoe2/aoe2_build_order.py:156-170 | the default step is well formed iff a zero resource is valid |
| Aoe2BuildOrderProperties.TemplateRule | aoe2/aoe2_build_order.py:173-186 | the template sorts last; it validates iff the table has 'Generic' and zero is a valid resource |
| Aoe2BuildOrderProperties.TemplateWellFormed | aoe2/aoe2_build_order.py:173-186 | the template is well formed iff the table has 'Generic' and a zero resource is valid |
| Aoe2BuildOrderProperties.NextStepCarriesForward | aoe2/aoe2_build_order.py:139-155 | villager count, age and resources come from the last step when present, else 0, 1 and zero resources; notes are placeholders |
| Aoe2BuildOrderProperties.NextStepOfWellFormed | aoe2/aoe2_build_order.py:139-155 | the step made after a well-formed last step is well formed |
| Aoe2BuildOrderProperties.AppendNextStepKeepsValid | aoe2/aoe2_build_order.py:139-155 | appending that step to a valid document keeps it valid |
| Aoe2BuildOrderProperties.OneStepDocumentValid | aoe2/aoe2_build_order.py:5-111 | a document with one six-villager Dark Age step is valid when zero resources are |
| Aoe2BuildOrderProperties.AgeAndCountEdges | aoe2/aoe2_build_order.py:61-66 | any int (or bool) villager count and any age up to 4, however low, pass |
| Aoe2BuildOrderProperties.AgeFiveRejected | aoe2/aoe2_build_order.py:65-66 | age 5 is reported as "Step N has invalid age number (5) (max: 4 for Imperial)." |
| Aoe2BuildOrderProperties.StringNotesPass | aoe2/aoe2_build_order.py:100-103 | notes given as a single string pass |
| Aoe2BuildOrderProperties.FailureReported | aoe2/aoe2_build_order.py:105-111 | a failed check is returned as `False` with the name prefix and its message |
| Aoe2BuildOrderProperties.FirstStepMissingField | aoe2/aoe2_build_order.py:44-58 | a first step that lacks a field fails the document with "Step 0 is missing the 'F' field." |
| Aoe2BuildOrderProperties.FirstStepLabel | aoe2/aoe2_build_order.py:45 | the first step is labelled "Step 0" |
| Aoe2BuildOrderProperties.KeyErrorReported | aoe2/aoe2_build_order.py:105-106 | a KeyError escaping the checks becomes `False` with the name prefix and "Wrong JSON key: 'K'." |
| Aoe2BuildOrderProperties.MissingNameReported | aoe2/aoe2_build_order.py:105-106 | any dict without `name` gives `(False, "Wrong JSON key: 'name'.")`, with no prefix even when one is asked for |
| Aoe2Timing.StepSeconds | aoe2/aoe2_build_order.py:198-207 | succeeds iff the step is a dict with an int villager count, giving 25 * count + offset; otherwise the subscript's error or a TypeError |
| Aoe2Timing.TimedStep | aoe2/aoe2_build_order.py:206-207 | succeeds iff the seconds do; the result's `time` is the formatted seconds |
| Aoe2Timing.TimeSteps | aoe2/aoe2_build_order.py:205-207 | the loop keeps the number of steps |
| Aoe2Timing.TimedDocument | aoe2/aoe2_build_order.py:200-202 | without `build_order` the document is unchanged and nothing is raised |
| Aoe2Timing.BuildOrderDocument.EvaluateTiming | aoe2/aoe2_build_order.py:189-207 | the document and the escaping exception afterwards are those `TimedDocument` gives for the document before |
| Aoe2Timing.BuildOrderDocument.TimeEachStep | aoe2/aoe2_build_order.py:204-207 | the loop, writing each timed step back into the list, ends as `TimeSteps` says |
| Aoe2Timing.TimeStepsExtend | aoe2/aoe2_build_order.py:205-207 | one more iteration appends the next step, timed, or stops with its exception |
| Aoe2Timing.TimeStepsStopAt | aoe2/aoe2_build_order.py:205-207 | the first step that cannot be timed stops the loop; it and later steps are untouched |
| Aoe2Timing.TimeStepsAfterFailure | aoe2/aoe2_build_order.py:205-207 | once the loop has raised, later steps are left as they are |
| Aoe2TimingProperties.TimeStepsRaisesIff | aoe2/aoe2_build_order.py:205-207 | the loop raises iff some step cannot be timed |
| Aoe2TimingProperties.TimeStepsAt | aoe2/aoe2_build_order.py:205-207 | step k comes out timed iff it and all before it can be timed, else untouched; its time depends on that step alone |
| Aoe2TimingProperties.TimeStepsRaisedBy | aoe2/aoe2_build_order.py:205-207 | the exception raised is that of the first step that cannot be timed |
| Aoe2TimingProperties.TimedStepKeepsFields | aoe2/aoe2_build_order.py:207 | timing a step changes no field but `time` |
| Aoe2TimingProperties.TimedStepIdempotent | aoe2/aoe2_build_order.py:206-207 | timing a timed step again changes nothing |
| Aoe2TimingProperties.TimeStepsIdempotent | aoe2/aoe2_build_order.py:205-207 | running the loop over its own output gives the same steps and exception |
| Aoe2TimingProperties.TimingTouchesOnlyBuildOrder | aoe2/aoe2_build_order.py:200-207 | every top-level field but `build_order` keeps its value, and the keys keep their order |
| Aoe2TimingProperties.TimingKeepsSteps | aoe2/aoe2_build_order.py:204-207 | the list keeps its length and order; each step is either untouched or its timed version |
| Aoe2TimingProperties.ValidDocumentFullyTimed | aoe2/aoe2_build_order.py:189-207 | a valid document is timed in full, with no exception |
| Aoe2TimingProperties.StepTimeRule | aoe2/aoe2_build_order.py:198-207 | a dict step with an int villager count gets `time` = format(25 * count + offset) |
| Aoe2TimingProperties.TimingKeepsValid | aoe2/aoe2_build_order.py:189-207 | timing a valid document keeps it valid, so the validator still accepts it |
| Aoe2TimingProperties.TimingIdempotent | aoe2/aoe2_build_order.py:189-207 | running the pass twice leaves the document as running it once, and raises the same exception |
| Aoe2TimingProperties.TimingExamples | aoe2/aoe2_build_order.py:198-207 | 0 villagers take 0 s; 4 villagers take 100 s; 1 villager with a 30 s offset takes 55 s |

## Left out

- JSON numbers with a fraction (Python floats) are not values of the model. `isinstance(1.5, int)` and float arithmetic in the timing pass are therefore not modelled.
- The warning that the timing pass prints when `build_order` is missing is console output. The model only records that nothing changes.
- The contents of the civilization table, `is_valid_resource` and `build_order_time_to_str` are not part of this model. They are parameters, and both functions are total: `is_valid_resource` never raises, and `build_order_time_to_str` never raises for any int. The timing results `TimeStepsRaisesIff` and `ValidDocumentFullyTimed` rely on the second.
- Aoe2BuildOrder.CheckValidAoe2BuildOrder: the text of a `TypeError` or `AssertionError` is the opaque parameter `describe`, not Python's wording. Only the `KeyError` text (`repr` of the key) is exact.
- PyJson.Repr: non-ASCII characters that Python escapes in `repr` are rendered as they are.
- Dicts with duplicate keys: lookups take the first entry, while a JSON decoder keeps the last.
- Aoe2Timing.BuildOrderDocument.EvaluateTiming: step dicts are values, so a dict shared between two steps, or with code outside the document, is not modelled. When the loop completes, a dict shared within the list gets the same `time` each time and the document comes out as modelled. When the loop raises between two occurrences of a shared dict, Python has already written `time` into it, so the later occurrence shows that field while the model leaves it untouched.
- Aoe2Timing.BuildOrderDocument.EvaluateTiming: the document is a dict, as the source's type annotation says. Passing any other value is not modelled.
- Aoe2BuildOrder.SortingKey: `elem` is a dict, as the source's type annotation says.
- The Qt overlay and window files, the settings file and the entry point are not part of this model: they are GUI, threading and file I/O around this layer.
