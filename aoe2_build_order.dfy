/** The AoE2 build-order document layer: the validator, the sorting key used
    to order build orders, and the step and document templates. The timing
    pass, which updates a document in place, is in module Aoe2Timing.

    Three collaborators of the source are parameters here:
    - `civs`, the key set of the civilization table (a dict of civilization
      name to icon);
    - `isValidResource`, the resource-value check;
    - `describe`, the text of a TypeError, which the validator copies into
      its message. */
module Aoe2BuildOrder {
  import opened PyJson

  /** How a check ends when it does not raise: `return True, ''` or
      `return False, message`. */
  datatype Verdict = Pass | Fail(message: string)

  /** Civilization values accepted whatever the civilization table holds. */
  const Wildcards: seq<string> := ["Any", "any"]
  /** Civilization values the sorting key puts last. */
  const GenericCivilizations: seq<string> := ["any", "Any", "Generic"]
  /** The fields every step must have, in the order they are checked. */
  const StepKeys: seq<string> := ["villager_count", "age", "resources", "notes"]
  /** The resources every step must give, in the order they are checked. */
  const ResourceKeys: seq<string> := ["wood", "food", "gold", "stone"]
  /** The highest age number (Imperial Age). */
  const MaxAge: int := 4

  // ---------------------------------------------------------------------
  // What a valid document is, stated declaratively.
  // ---------------------------------------------------------------------

  predicate CivilizationAccepted(c: Json, civs: set<string>) {
    c.JStr? && (c.s in civs || c.s in Wildcards)
  }

  /** `civilization` is absent, an accepted value, or a non-empty list of
      accepted values. */
  predicate CivilizationOk(data: Json, civs: set<string>)
    requires data.JDict?
  {
    match Lookup(data.entries, "civilization")
    case None => true
    case Some(c) =>
      if c.JList? then |c.items| > 0 && forall x :: x in c.items ==> CivilizationAccepted(x, civs)
      else CivilizationAccepted(c, civs)
  }

  /** The four resources are present and valid, and so is `builder` when it
      is there. */
  predicate ResourcesOk(resources: Json, isValidResource: Json -> bool) {
    && resources.JDict?
    && (forall k :: k in ResourceKeys ==>
          Lookup(resources.entries, k).Some? && isValidResource(Lookup(resources.entries, k).value))
    && (Lookup(resources.entries, "builder").Some? ==>
          isValidResource(Lookup(resources.entries, "builder").value))
  }

  /** Every value a loop over `notes` visits is a string: a list of strings,
      or any dict (its keys) or string (its characters). */
  predicate NotesOk(notes: Json) {
    notes.JDict? || notes.JStr? || (notes.JList? && forall n :: n in notes.items ==> n.JStr?)
  }

  predicate WellFormedStep(item: Json, isValidResource: Json -> bool) {
    && item.JDict?
    && match (Lookup(item.entries, "villager_count"), Lookup(item.entries, "age"),
              Lookup(item.entries, "resources"), Lookup(item.entries, "notes"))
       case (Some(villagerCount), Some(age), Some(resources), Some(notes)) =>
         && IsInt(villagerCount)
         && IsInt(age) && IntValue(age) <= MaxAge
         && ResourcesOk(resources, isValidResource)
         && NotesOk(notes)
       case _ => false
  }

  predicate WellFormedBuildOrder(data: Json, civs: set<string>, isValidResource: Json -> bool) {
    && data.JDict?
    && HasKey(data.entries, "name")
    && CivilizationOk(data, civs)
    && match Lookup(data.entries, "build_order")
       case Some(JList(steps)) =>
         |steps| >= 1 && forall s :: s in steps ==> WellFormedStep(s, isValidResource)
       case _ => false
  }

  // ---------------------------------------------------------------------
  // The validator, check by check in the source's order.
  // ---------------------------------------------------------------------

  /** `(c not in table) and (c not in ['Any', 'any'])`, negated. The table
      lookup comes first, so a list or dict raises (it is unhashable). */
  function KnownCivilization(c: Json, civs: set<string>): (r: Result<bool>)
    ensures r.Raise? <==> c.JList? || c.JDict?
    ensures r.Raise? ==> r.exc == TypeError(Hashing, TypeOf(c))
    ensures r == Ok(true) <==> CivilizationAccepted(c, civs)
  {
    match c
    case JList(_) => Raise(TypeError(Hashing, ListType))
    case JDict(_) => Raise(TypeError(Hashing, DictType))
    case JStr(s) => Ok(s in civs || s in Wildcards)
    case _ => Ok(false)
  }

  /** The first entry of a civilization list that is not accepted. */
  function FirstUnknownCivilization(cs: seq<Json>, civs: set<string>): (r: Result<Option<Json>>)
    ensures r == Ok(None) <==> forall c :: c in cs ==> CivilizationAccepted(c, civs)
    ensures r.Ok? && r.value.Some? ==>
      exists i :: 0 <= i < |cs| && cs[i] == r.value.value && KnownCivilization(cs[i], civs) == Ok(false)
                  && forall j :: 0 <= j < i ==> CivilizationAccepted(cs[j], civs)
    ensures r.Raise? ==> r.exc.TypeError? && r.exc.operation == Hashing
  {
    if cs == [] then Ok(None)
    else
      var known :- KnownCivilization(cs[0], civs);
      if !known then Ok(Some(cs[0]))
      else
        var rest := FirstUnknownCivilization(cs[1..], civs);
        assert forall c :: c in cs ==> c == cs[0] || c in cs[1..];
        assert rest.Ok? && rest.value.Some? ==> exists i :: 1 <= i < |cs| && cs[i] == rest.value.value
          && KnownCivilization(cs[i], civs) == Ok(false) && forall j :: 0 <= j < i ==> CivilizationAccepted(cs[j], civs) by {
          if rest.Ok? && rest.value.Some? {
            var i :| 0 <= i < |cs| - 1 && cs[1..][i] == rest.value.value && KnownCivilization(cs[1..][i], civs) == Ok(false)
                     && forall j :: 0 <= j < i ==> CivilizationAccepted(cs[1..][j], civs);
            assert cs[i + 1] == rest.value.value;
            assert forall j :: 0 <= j < i + 1 ==> CivilizationAccepted(cs[j], civs) by {
              forall j | 0 <= j < i + 1 ensures CivilizationAccepted(cs[j], civs) {
                if j > 0 { assert cs[j] == cs[1..][j - 1]; }
              }
            }
          }
        }
        rest
  }

  function UnknownCivilizationMessage(c: Json): string {
    "Unknown civilization '" + Str(c) + "' (check spelling)."
  }

  /** The `civilization` check, run once `data` is known to be a dict. */
  function CheckCivilization(data: Json, civs: set<string>): (r: Result<Verdict>)
    requires data.JDict?
    ensures r == Ok(Pass) <==> CivilizationOk(data, civs)
    ensures r.Raise? ==> r.exc.TypeError? && r.exc.operation == Hashing
    ensures r.Ok? && r.value.Fail? ==> r.value.message != ""
  {
    // On a dict, `'civilization' in data` and `data['civilization']` are a lookup.
    match Lookup(data.entries, "civilization")
    case None => Ok(Pass)
    case Some(civilization) =>
      if civilization.JList? then
        if |civilization.items| == 0 then Ok(Fail("Valid civilization list is empty."))
        else
          match FirstUnknownCivilization(civilization.items, civs)
          case Raise(exc) => Raise(exc)
          case Ok(None) => Ok(Pass)
          case Ok(Some(unknown)) => Ok(Fail(UnknownCivilizationMessage(unknown)))
      else
        match KnownCivilization(civilization, civs)
        case Raise(exc) => Raise(exc)
        case Ok(known) => if known then Ok(Pass) else Ok(Fail(UnknownCivilizationMessage(civilization)))
  }

  /** `keys[i]` is the first of `keys` that `key in container` finds absent. */
  predicate FirstAbsentAt(container: Json, keys: seq<string>, i: nat) {
    && i < |keys|
    && Contains(container, keys[i]) == Ok(false)
    && forall j :: 0 <= j < i ==> Contains(container, keys[j]) == Ok(true)
  }

  /** The first of `keys` that `key in container` finds absent; raises when
      the container does not support `in`. */
  function FirstMissing(container: Json, keys: seq<string>): (r: Result<Option<string>>)
    ensures r.Raise? <==> |keys| > 0 && !SupportsIn(container)
    ensures r.Raise? ==> r.exc == TypeError(Membership, TypeOf(container))
    ensures r == Ok(None) <==> forall k :: k in keys ==> Contains(container, k) == Ok(true)
    ensures r.Ok? && r.value.Some? ==>
      exists i :: 0 <= i < |keys| && keys[i] == r.value.value && Contains(container, keys[i]) == Ok(false)
                  && forall j :: 0 <= j < i ==> Contains(container, keys[j]) == Ok(true)
    ensures forall i: nat :: FirstAbsentAt(container, keys, i) ==> r == Ok(Some(keys[i]))
  {
    if keys == [] then Ok(None)
    else
      var present :- Contains(container, keys[0]);
      if !present then Ok(Some(keys[0]))
      else
        var rest := FirstMissing(container, keys[1..]);
        assert forall k :: k in keys ==> k == keys[0] || k in keys[1..];
        assert rest.Ok? && rest.value.Some? ==> exists i :: 1 <= i < |keys| && keys[i] == rest.value.value
          && Contains(container, keys[i]) == Ok(false)
          && forall j :: 0 <= j < i ==> Contains(container, keys[j]) == Ok(true) by {
          if rest.Ok? && rest.value.Some? {
            var i :| 0 <= i < |keys| - 1 && keys[1..][i] == rest.value.value
                     && Contains(container, keys[1..][i]) == Ok(false)
                     && forall j :: 0 <= j < i ==> Contains(container, keys[1..][j]) == Ok(true);
            assert keys[i + 1] == rest.value.value;
            forall j | 0 <= j < i + 1 ensures Contains(container, keys[j]) == Ok(true) {
              if j > 0 { assert keys[j] == keys[1..][j - 1]; }
            }
          }
        }
        assert forall i: nat :: FirstAbsentAt(container, keys, i) ==> rest == Ok(Some(keys[i])) by {
          forall i: nat | FirstAbsentAt(container, keys, i) ensures rest == Ok(Some(keys[i])) {
            assert i != 0;
            assert keys[1..][i - 1] == keys[i];
            forall j | 0 <= j < i - 1 ensures Contains(container, keys[1..][j]) == Ok(true) {
              assert keys[1..][j] == keys[j + 1];
            }
            assert FirstAbsentAt(container, keys[1..], i - 1);
          }
        }
        rest
  }

  /** The values of the first `i` of `keys` can be read from `resources`
      and pass `isValidResource`. */
  predicate ValidUpTo(resources: Json, keys: seq<string>, i: nat, isValidResource: Json -> bool)
    requires i <= |keys|
  {
    forall j :: 0 <= j < i ==> GetItem(resources, keys[j]).Ok? && isValidResource(GetItem(resources, keys[j]).value)
  }

  /** `keys[i]` is the first of `keys` whose value fails `isValidResource`. */
  predicate FirstInvalidAt(resources: Json, keys: seq<string>, i: nat, isValidResource: Json -> bool) {
    && i < |keys|
    && ValidUpTo(resources, keys, i, isValidResource)
    && GetItem(resources, keys[i]).Ok?
    && !isValidResource(GetItem(resources, keys[i]).value)
  }

  /** The first of `keys` whose value in `resources` fails `isValidResource`,
      with that value. */
  function FirstInvalidResource(resources: Json, keys: seq<string>, isValidResource: Json -> bool)
    : (r: Result<Option<(string, Json)>>)
    ensures r == Ok(None) <==> ValidUpTo(resources, keys, |keys|, isValidResource)
    ensures r.Ok? && r.value.Some? ==>
      exists i: nat :: FirstInvalidAt(resources, keys, i, isValidResource)
                  && r.value.value == (keys[i], GetItem(resources, keys[i]).value)
    ensures forall i: nat :: FirstInvalidAt(resources, keys, i, isValidResource)
                        ==> r == Ok(Some((keys[i], GetItem(resources, keys[i]).value)))
    ensures r.Raise? ==> exists k :: k in keys && GetItem(resources, k) == Raise(r.exc)
  {
    if keys == [] then Ok(None)
    else
      var v :- GetItem(resources, keys[0]);
      if !isValidResource(v) then
        assert FirstInvalidAt(resources, keys, 0, isValidResource);
        Ok(Some((keys[0], v)))
      else
        var rest := FirstInvalidResource(resources, keys[1..], isValidResource);
        FirstInvalidShift(resources, keys, isValidResource);
        assert forall k :: k in keys ==> k == keys[0] || k in keys[1..];
        assert rest.Ok? && rest.value.Some? ==>
          exists i: nat :: FirstInvalidAt(resources, keys, i, isValidResource)
                           && rest.value.value == (keys[i], GetItem(resources, keys[i]).value) by {
          if rest.Ok? && rest.value.Some? {
            var i: nat :| FirstInvalidAt(resources, keys[1..], i, isValidResource)
                          && rest.value.value == (keys[1..][i], GetItem(resources, keys[1..][i]).value);
            assert keys[1..][i] == keys[i + 1];
            assert FirstInvalidAt(resources, keys, i + 1, isValidResource);
          }
        }
        rest
  }

  /** Once the first key's value is valid, the checks on `keys` are those on
      `keys[1..]` shifted by one. */
  lemma FirstInvalidShift(resources: Json, keys: seq<string>, isValidResource: Json -> bool)
    requires keys != [] && GetItem(resources, keys[0]).Ok? && isValidResource(GetItem(resources, keys[0]).value)
    ensures forall i :: 1 <= i <= |keys| ==>
              (ValidUpTo(resources, keys, i, isValidResource) <==> ValidUpTo(resources, keys[1..], i - 1, isValidResource))
    ensures forall i :: 1 <= i < |keys| ==>
              (FirstInvalidAt(resources, keys, i, isValidResource) <==> FirstInvalidAt(resources, keys[1..], i - 1, isValidResource))
    ensures !FirstInvalidAt(resources, keys, 0, isValidResource)
  {
    forall i | 1 <= i <= |keys|
      ensures ValidUpTo(resources, keys, i, isValidResource) <==> ValidUpTo(resources, keys[1..], i - 1, isValidResource)
    {
      if ValidUpTo(resources, keys[1..], i - 1, isValidResource) {
        forall j | 0 <= j < i
          ensures GetItem(resources, keys[j]).Ok? && isValidResource(GetItem(resources, keys[j]).value)
        {
          if j > 0 { assert keys[j] == keys[1..][j - 1]; }
        }
      }
    }
  }

  /** The first value a loop over the notes visits that is not a string. */
  function FirstNonString(notes: seq<Json>): (r: Option<Json>)
    ensures r.None? <==> forall n :: n in notes ==> n.JStr?
    ensures r.Some? ==>
      exists i :: 0 <= i < |notes| && notes[i] == r.value && !r.value.JStr?
                  && forall j :: 0 <= j < i ==> notes[j].JStr?
    ensures forall i :: 0 <= i < |notes| && !notes[i].JStr? && (forall j :: 0 <= j < i ==> notes[j].JStr?)
                        ==> r == Some(notes[i])
  {
    if notes == [] then None
    else if !notes[0].JStr? then Some(notes[0])
    else
      var rest := FirstNonString(notes[1..]);
      assert forall n :: n in notes ==> n == notes[0] || n in notes[1..];
      assert rest.Some? ==> exists i :: (1 <= i < |notes| && notes[i] == rest.value
        && forall j :: 0 <= j < i ==> notes[j].JStr?) by {
        if rest.Some? {
          var i :| 0 <= i < |notes| - 1 && notes[1..][i] == rest.value
                   && forall j :: 0 <= j < i ==> notes[1..][j].JStr?;
          assert notes[i + 1] == rest.value;
          forall j | 0 <= j < i + 1 ensures notes[j].JStr? {
            if j > 0 { assert notes[j] == notes[1..][j - 1]; }
          }
        }
      }
      assert forall i :: 1 <= i < |notes| && !notes[i].JStr? && (forall j :: 0 <= j < i ==> notes[j].JStr?)
                         ==> rest == Some(notes[i]) by {
        forall i | 1 <= i < |notes| && !notes[i].JStr? && (forall j :: 0 <= j < i ==> notes[j].JStr?)
          ensures rest == Some(notes[i])
        {
          assert notes[1..][i - 1] == notes[i];
          forall j | 0 <= j < i - 1 ensures notes[1..][j].JStr? {
            assert notes[1..][j] == notes[j + 1];
          }
        }
      }
      rest
  }

  /** `f'Step {step_id}'`: steps are numbered from 0. */
  function StepLabel(stepId: nat): string {
    "Step " + IntToString(stepId)
  }

  function MissingFieldMessage(stepName: string, key: string): (m: string)
    ensures stepName + " " <= m
  {
    stepName + " is missing the '" + key + "' field."
  }

  function InvalidVillagerCountMessage(stepName: string, villagerCount: Json): (m: string)
    ensures stepName + " " <= m
  {
    stepName + " has invalid villager count (" + Str(villagerCount) + ")."
  }

  function InvalidAgeMessage(stepName: string, age: Json): (m: string)
    ensures stepName + " " <= m
  {
    stepName + " has invalid age number (" + Str(age) + ") (max: 4 for Imperial)."
  }

  function MissingResourceMessage(stepName: string, key: string): (m: string)
    ensures stepName + " " <= m
  {
    stepName + " is missing the '" + key + "' field in 'resources'."
  }

  function InvalidResourceMessage(stepName: string, key: string, value: Json): (m: string)
    ensures stepName + " " <= m
  {
    stepName + " has an invalid '" + key + "' resource (" + Str(value) + ")."
  }

  function InvalidBuilderMessage(stepName: string): (m: string)
    ensures stepName + " " <= m
  {
    stepName + " has an invalid 'builder' resource."
  }

  function NonStringNoteMessage(stepName: string, note: Json): (m: string)
    ensures stepName + " " <= m
  {
    stepName + " note '" + Str(note) + "' is not a string."
  }

  predicate AgeAccepted(age: Json) {
    IsInt(age) && IntValue(age) <= MaxAge
  }

  /** The `builder` check: only a present, invalid builder fails. */
  function CheckBuilder(resources: Json, stepName: string, isValidResource: Json -> bool): (r: Result<Verdict>)
    requires resources.JDict?
    ensures r.Ok?
    ensures r == Ok(Pass) <==>
      (Lookup(resources.entries, "builder").Some? ==> isValidResource(Lookup(resources.entries, "builder").value))
  {
    // On a dict, `'builder' in resources` and `resources['builder']` are a lookup.
    match Lookup(resources.entries, "builder")
    case None => Ok(Pass)
    case Some(builder) =>
      if isValidResource(builder) then Ok(Pass) else Ok(Fail(InvalidBuilderMessage(stepName)))
  }

  /** The resource checks of one step, once `item['resources']` is read:
      the four keys in order, then their values in order, then `builder`. */
  function CheckResources(resources: Json, stepName: string, isValidResource: Json -> bool): (r: Result<Verdict>)
    ensures r == Ok(Pass) <==> ResourcesOk(resources, isValidResource)
    ensures r.Raise? ==> r.exc.TypeError?
    ensures r.Ok? && r.value.Fail? ==> stepName + " " <= r.value.message
    // Missing resources first, in the order wood, food, gold, stone.
    ensures forall i: nat :: FirstAbsentAt(resources, ResourceKeys, i)
                             ==> r == Ok(Fail(MissingResourceMessage(stepName, ResourceKeys[i])))
    // Then the first invalid one, in the same order, with its value.
    ensures (forall k :: k in ResourceKeys ==> Contains(resources, k) == Ok(true)) ==>
              forall i: nat :: FirstInvalidAt(resources, ResourceKeys, i, isValidResource)
                ==> r == Ok(Fail(InvalidResourceMessage(stepName, ResourceKeys[i],
                                                        GetItem(resources, ResourceKeys[i]).value)))
    // Then `builder`.
    ensures ValidUpTo(resources, ResourceKeys, |ResourceKeys|, isValidResource)
            && GetItem(resources, "builder").Ok? && !isValidResource(GetItem(resources, "builder").value)
            ==> r == Ok(Fail(InvalidBuilderMessage(stepName)))
  {
    var missing :- FirstMissing(resources, ResourceKeys);
    if missing.Some? then Ok(Fail(MissingResourceMessage(stepName, missing.value)))
    else
      var invalid :- FirstInvalidResource(resources, ResourceKeys, isValidResource);
      if invalid.Some? then Ok(Fail(InvalidResourceMessage(stepName, invalid.value.0, invalid.value.1)))
      else
        assert resources.JDict? by { assert GetItem(resources, ResourceKeys[0]).Ok?; }
        CheckBuilder(resources, stepName, isValidResource)
  }

  /** The loop over the notes of one step. */
  function CheckNotes(notes: Json, stepName: string): (r: Result<Verdict>)
    ensures r == Ok(Pass) <==> NotesOk(notes)
    ensures r.Raise? ==> r.exc == TypeError(Iteration, TypeOf(notes))
    ensures r.Ok? && r.value.Fail? ==> stepName + " " <= r.value.message
    ensures notes.JList? ==>
              forall i :: 0 <= i < |notes.items| && !notes.items[i].JStr?
                          && (forall j :: 0 <= j < i ==> notes.items[j].JStr?)
                          ==> r == Ok(Fail(NonStringNoteMessage(stepName, notes.items[i])))
  {
    match Iter(notes)
    case Raise(exc) => Raise(exc)
    case Ok(values) =>
      match FirstNonString(values)
      case Some(note) => Ok(Fail(NonStringNoteMessage(stepName, note)))
      case None => Ok(Pass)
  }

  /** A dict step that holds all four step keys. */
  predicate HasStepFields(item: Json) {
    && item.JDict?
    && HasKey(item.entries, "villager_count") && HasKey(item.entries, "age")
    && HasKey(item.entries, "resources") && HasKey(item.entries, "notes")
  }

  /** The body of the loop over steps, for step number `stepId`. The checks
      run in order, and the first that fails gives the message. */
  function CheckStep(item: Json, stepId: nat, isValidResource: Json -> bool): (r: Result<Verdict>)
    ensures r == Ok(Pass) <==> WellFormedStep(item, isValidResource)
    ensures r.Raise? ==> r.exc.TypeError?
    ensures r.Ok? && r.value.Fail? ==> StepLabel(stepId) + " " <= r.value.message
    // Missing fields first, in the order villager_count, age, resources, notes.
    ensures forall i: nat :: FirstAbsentAt(item, StepKeys, i)
                             ==> r == Ok(Fail(MissingFieldMessage(StepLabel(stepId), StepKeys[i])))
    // Then the villager count and the age; the resources and the notes
    // follow (lemma ResourcesThenNotes).
    ensures HasStepFields(item) ==>
              var villagerCount := Lookup(item.entries, "villager_count").value;
              var age := Lookup(item.entries, "age").value;
              && (!IsInt(villagerCount) ==> r == Ok(Fail(InvalidVillagerCountMessage(StepLabel(stepId), villagerCount))))
              && (IsInt(villagerCount) && !AgeAccepted(age) ==> r == Ok(Fail(InvalidAgeMessage(StepLabel(stepId), age))))
  {
    var stepName := StepLabel(stepId);
    var missing :- FirstMissing(item, StepKeys);
    if missing.Some? then Ok(Fail(MissingFieldMessage(stepName, missing.value)))
    else
      var villagerCount :- GetItem(item, "villager_count");
      // `item` is a dict holding all four fields from here on.
      assert Contains(item, StepKeys[1]) == Ok(true) && Contains(item, StepKeys[2]) == Ok(true)
             && Contains(item, StepKeys[3]) == Ok(true);
      if !IsInt(villagerCount) then Ok(Fail(InvalidVillagerCountMessage(stepName, villagerCount)))
      else
        var age := GetItem(item, "age").value;
        if !AgeAccepted(age) then Ok(Fail(InvalidAgeMessage(stepName, age)))
        else
          var resources := CheckResources(GetItem(item, "resources").value, stepName, isValidResource);
          if resources != Ok(Pass) then resources
          else CheckNotes(GetItem(item, "notes").value, stepName)
  }

  /** Step number `i` of `steps` passes its checks. */
  predicate StepPasses(steps: seq<Json>, i: nat, isValidResource: Json -> bool)
    requires i < |steps|
  {
    CheckStep(steps[i], i, isValidResource) == Ok(Pass)
  }

  /** The loop body `CheckStep` as a value, for the given resource check. */
  function StepCheck(isValidResource: Json -> bool): (Json, nat) -> Result<Verdict> {
    (item: Json, stepId: nat) => CheckStep(item, stepId, isValidResource)
  }

  /** The loop `for step_id, item in enumerate(build_order)` from step
      `from` on, with `check` as its body: the first step that does not
      pass decides. */
  function CheckStepsFrom(steps: seq<Json>, from: nat, check: (Json, nat) -> Result<Verdict>): (r: Result<Verdict>)
    requires from <= |steps|
    decreases |steps| - from
    ensures r == Ok(Pass) <==> forall i :: from <= i < |steps| ==> check(steps[i], i) == Ok(Pass)
    ensures r != Ok(Pass) ==>
      exists j :: from <= j < |steps| && r == check(steps[j], j)
                  && forall i :: from <= i < j ==> check(steps[i], i) == Ok(Pass)
  {
    if from == |steps| then Ok(Pass)
    else
      var step := check(steps[from], from);
      if step != Ok(Pass) then step
      else CheckStepsFrom(steps, from + 1, check)
  }

  /** `check_valid_aoe2_build_order` up to its `try` block's exit: a verdict,
      or the exception the `except` clauses turn into a message. */
  function CheckBuildOrder(data: Json, civs: set<string>, isValidResource: Json -> bool): (r: Result<Verdict>)
    ensures r.Ok? && r.value.Fail? ==> r.value.message != ""
    ensures r.Raise? && r.exc.KeyError? ==> r.exc.key == "name" || r.exc.key == "build_order"
  {
    var name :- GetItem(data, "name");
    var buildOrder :- GetItem(data, "build_order");
    var civilization :- CheckCivilization(data, civs);
    if civilization.Fail? then Ok(civilization)
    else
      var size :- Len(buildOrder);
      if size < 1 then Ok(Fail("Build order is empty."))
      else
        match Iter(buildOrder)
        case Raise(exc) => Raise(exc)
        case Ok(steps) => CheckStepsFrom(steps, 0, StepCheck(isValidResource))
  }

  /** `f'{name} | '` when the name is wanted in messages and could be read;
      the empty string otherwise. */
  function NamePrefix(data: Json, boNameMsg: bool): string {
    if boNameMsg && data.JDict? && Lookup(data.entries, "name").Some?
    then Str(Lookup(data.entries, "name").value) + " | "
    else ""
  }

  /** `check_valid_aoe2_build_order(data, bo_name_msg)`: the pair
      `(is_valid, message)`. A KeyError prints as `repr` of its key; the
      text of any other exception is `describe`'s. */
  function CheckValidAoe2BuildOrder(data: Json, boNameMsg: bool, civs: set<string>,
                                    isValidResource: Json -> bool, describe: Exception -> string)
    : (r: (bool, string))
    ensures r.0 <==> CheckBuildOrder(data, civs, isValidResource) == Ok(Pass)
    ensures r.0 ==> r.1 == ""
    ensures !r.0 ==> NamePrefix(data, boNameMsg) <= r.1
  {
    var prefix := NamePrefix(data, boNameMsg);
    match CheckBuildOrder(data, civs, isValidResource)
    case Ok(Pass) => (true, "")
    case Ok(Fail(message)) => (false, prefix + message)
    case Raise(KeyError(key)) => (false, prefix + "Wrong JSON key: " + ReprString(key) + ".")
    case Raise(exc) => (false, prefix + describe(exc))
  }

  // ---------------------------------------------------------------------
  // Sorting key and templates.
  // ---------------------------------------------------------------------

  /** `aoe2_build_order_sorting`: build orders for any civilization sort last. */
  function SortingKey(elem: Json): (k: int)
    requires elem.JDict?
    ensures k == 0 || k == 1
    ensures k == 1 <==> Lookup(elem.entries, "civilization").None?
                        || exists g :: g in GenericCivilizations && Lookup(elem.entries, "civilization") == Some(JStr(g))
  {
    var civilization := Lookup(elem.entries, "civilization");
    if civilization.None? || civilization.value in [JStr("any"), JStr("Any"), JStr("Generic")] then 1 else 0
  }

  /** The resources of a new step: zero of each, and no `builder`. */
  function ZeroResources(): (z: Json)
    ensures z.JDict?
    ensures forall k :: k in ResourceKeys ==> Lookup(z.entries, k) == Some(JInt(0))
    ensures !HasKey(z.entries, "builder")
  {
    var entries := [("wood", JInt(0)), ("food", JInt(0)), ("gold", JInt(0)), ("stone", JInt(0))];
    LookupAt(entries, "wood", 0);
    LookupAt(entries, "food", 1);
    LookupAt(entries, "gold", 2);
    LookupAt(entries, "stone", 3);
    LookupAbsent(entries, "builder");
    JDict(entries)
  }

  function PlaceholderNotes(): Json {
    JList([JStr("Note 1."), JStr("Note 2.")])
  }

  /** A step dict with its four fields in the template's order. */
  function MakeStep(villagerCount: Json, age: Json, resources: Json, notes: Json): (s: Json)
    ensures s.JDict? && Keys(s.entries) == StepKeys
    ensures Lookup(s.entries, "villager_count") == Some(villagerCount)
    ensures Lookup(s.entries, "age") == Some(age)
    ensures Lookup(s.entries, "resources") == Some(resources)
    ensures Lookup(s.entries, "notes") == Some(notes)
  {
    var entries := [("villager_count", villagerCount), ("age", age), ("resources", resources),
                    ("notes", notes)];
    LookupAt(entries, "villager_count", 0);
    LookupAt(entries, "age", 1);
    LookupAt(entries, "resources", 2);
    LookupAt(entries, "notes", 3);
    assert Keys(entries[3..]) == ["notes"];
    assert Keys(entries[2..]) == ["resources", "notes"];
    assert Keys(entries[1..]) == ["age", "resources", "notes"];
    JDict(entries)
  }

  /** The step built when no build order is given. */
  function DefaultStep(): Json {
    MakeStep(JInt(0), JInt(1), ZeroResources(), PlaceholderNotes())
  }

  /** `data[key] if (key in data) else default`. */
  function FieldOr(data: Json, key: string, default: Json): (r: Result<Json>)
    ensures data.JDict? ==> r == Ok(if HasKey(data.entries, key) then Lookup(data.entries, key).value else default)
    ensures r.Raise? ==> r.exc.TypeError?
  {
    var present :- Contains(data, key);
    if present then GetItem(data, key) else Ok(default)
  }

  /** `get_aoe2_build_order_step(build_order_data)`: a new step carrying the
      last step's villager count, age and resources forward, with
      placeholder notes. The argument defaults to None (`JNull`), which
      gives the default step; otherwise the `assert` on it raises an
      AssertionError unless it is a non-empty list. */
  function NextStep(buildOrderData: Json := JNull): (r: Result<Json>)
    ensures buildOrderData.JNull? ==> r == Ok(DefaultStep())
    ensures !buildOrderData.JNull? && !(buildOrderData.JList? && |buildOrderData.items| >= 1)
            ==> r == Raise(AssertionError)
    ensures r.Ok? ==> r.value.JDict? && Keys(r.value.entries) == StepKeys
                      && Lookup(r.value.entries, "notes") == Some(PlaceholderNotes())
  {
    if buildOrderData.JNull? then Ok(DefaultStep())
    else if !(buildOrderData.JList? && |buildOrderData.items| >= 1) then Raise(AssertionError)
    else
      var last := buildOrderData.items[|buildOrderData.items| - 1];
      var villagerCount :- FieldOr(last, "villager_count", JInt(0));
      var age :- FieldOr(last, "age", JInt(1));
      var resources :- FieldOr(last, "resources", ZeroResources());
      Ok(MakeStep(villagerCount, age, resources, PlaceholderNotes()))
  }

  /** `get_aoe2_build_order_template()`. */
  function Template(): (t: Json)
    ensures t.JDict? && Lookup(t.entries, "build_order") == Some(JList([DefaultStep()]))
    ensures Lookup(t.entries, "name") == Some(JStr("Build order name"))
    ensures Lookup(t.entries, "civilization") == Some(JStr("Generic"))
  {
    var entries := [("name", JStr("Build order name")), ("civilization", JStr("Generic")),
                    ("author", JStr("Author")), ("source", JStr("Source")),
                    ("build_order", JList([NextStep().value]))];
    LookupAt(entries, "build_order", 4);
    JDict(entries)
  }
}
