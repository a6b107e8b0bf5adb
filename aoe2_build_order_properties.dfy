/** Properties of the AoE2 validator, sorting key and templates, stated over
    all inputs (and, at the end, a few worked documents). */
module Aoe2BuildOrderProperties {
  import opened PyJson
  import opened Aoe2BuildOrder

  // ---------------------------------------------------------------------
  // The validator against its declarative definition.
  // ---------------------------------------------------------------------

  /** Every step of the loop passes exactly when every step is well formed. */
  lemma AllStepsPass(steps: seq<Json>, isValidResource: Json -> bool)
    ensures (forall i :: 0 <= i < |steps| ==> StepPasses(steps, i, isValidResource))
            <==> (forall s :: s in steps ==> WellFormedStep(s, isValidResource))
  {
    if forall i :: 0 <= i < |steps| ==> StepPasses(steps, i, isValidResource) {
      forall s | s in steps ensures WellFormedStep(s, isValidResource) {
        var i :| 0 <= i < |steps| && steps[i] == s;
        assert StepPasses(steps, i, isValidResource);
      }
    }
    if forall s :: s in steps ==> WellFormedStep(s, isValidResource) {
      forall i | 0 <= i < |steps| ensures StepPasses(steps, i, isValidResource) {
        assert steps[i] in steps;
      }
    }
  }

  /** The validator accepts a document exactly when it is well formed: a
      dict with a `name`, an acceptable `civilization` if any, and a
      non-empty list of well-formed steps under `build_order`. */
  lemma ValidExactlyWhenWellFormed(data: Json, civs: set<string>, isValidResource: Json -> bool)
    ensures CheckBuildOrder(data, civs, isValidResource) == Ok(Pass)
            <==> WellFormedBuildOrder(data, civs, isValidResource)
  {
    if data.JDict? && HasKey(data.entries, "name") && HasKey(data.entries, "build_order")
       && CivilizationOk(data, civs) {
      var buildOrder := Lookup(data.entries, "build_order").value;
      if Len(buildOrder).Ok? && Len(buildOrder).value >= 1 {
        var steps := Iter(buildOrder).value;
        if buildOrder.JList? {
          AllStepsPass(steps, isValidResource);
        } else {
          // A dict or string yields strings, and a string is not a step.
          assert steps[0] in steps;
          assert !StepPasses(steps, 0, isValidResource);
        }
      }
    }
  }

  /** The pair the source returns: `(True, '')` exactly for a well-formed
      document; otherwise `False` and a message that starts with the name
      prefix and is never empty, provided exception texts are not. */
  lemma ReportedPair(data: Json, boNameMsg: bool, civs: set<string>,
                     isValidResource: Json -> bool, describe: Exception -> string)
    requires forall e :: describe(e) != ""
    ensures var r := CheckValidAoe2BuildOrder(data, boNameMsg, civs, isValidResource, describe);
            && (r == (true, "") <==> WellFormedBuildOrder(data, civs, isValidResource))
            && (!r.0 ==> r.1 != "" && NamePrefix(data, boNameMsg) <= r.1)
  {
    ValidExactlyWhenWellFormed(data, civs, isValidResource);
  }

  /** A KeyError can only come from reading `name` or `build_order`: every
      later subscript is guarded by an `in` test. */
  lemma OnlyTopLevelKeysRaiseKeyError(data: Json, civs: set<string>, isValidResource: Json -> bool)
    ensures var r := CheckBuildOrder(data, civs, isValidResource);
            r.Raise? && r.exc.KeyError? ==>
              (r.exc.key == "name" && !(data.JDict? && HasKey(data.entries, "name")))
              || (r.exc.key == "build_order" && data.JDict? && HasKey(data.entries, "name")
                  && !HasKey(data.entries, "build_order"))
  {
  }

  // ---------------------------------------------------------------------
  // The civilization check.
  // ---------------------------------------------------------------------

  /** An empty civilization list is rejected with its own message, whatever
      the build order holds. */
  lemma EmptyCivilizationListRejected(data: Json, boNameMsg: bool, civs: set<string>,
                                      isValidResource: Json -> bool, describe: Exception -> string)
    requires data.JDict? && HasKey(data.entries, "name") && HasKey(data.entries, "build_order")
    requires Lookup(data.entries, "civilization") == Some(JList([]))
    ensures CheckValidAoe2BuildOrder(data, boNameMsg, civs, isValidResource, describe)
            == (false, NamePrefix(data, boNameMsg) + "Valid civilization list is empty.")
  {
  }

  /** The civilization is checked before the build order: a failing
      civilization check decides the outcome, whatever `build_order` is. */
  lemma CivilizationCheckedFirst(data: Json, civs: set<string>, isValidResource: Json -> bool)
    requires data.JDict? && HasKey(data.entries, "name") && HasKey(data.entries, "build_order")
    requires CheckCivilization(data, civs) != Ok(Pass)
    ensures CheckBuildOrder(data, civs, isValidResource) == CheckCivilization(data, civs)
  {
  }

  /** `civilization` is `'Any'`/`'any'`, or a non-empty list of those. */
  predicate WildcardCivilization(data: Json)
    requires data.JDict?
  {
    match Lookup(data.entries, "civilization")
    case Some(JStr(s)) => s in Wildcards
    case Some(JList(cs)) => |cs| > 0 && forall c :: c in cs ==> c.JStr? && c.s in Wildcards
    case _ => false
  }

  /** A wildcard civilization always passes, and the validator's outcome
      then does not depend on the civilization table at all. */
  lemma WildcardIgnoresTable(data: Json, civs1: set<string>, civs2: set<string>,
                             isValidResource: Json -> bool)
    requires data.JDict? && WildcardCivilization(data)
    ensures CheckCivilization(data, civs1) == Ok(Pass)
    ensures CheckBuildOrder(data, civs1, isValidResource) == CheckBuildOrder(data, civs2, isValidResource)
  {
    assert CivilizationOk(data, civs1) && CivilizationOk(data, civs2);
  }

  /** A single unknown civilization string is reported by name. */
  lemma UnknownCivilizationRejected(data: Json, civs: set<string>, isValidResource: Json -> bool, s: string)
    requires data.JDict? && HasKey(data.entries, "name") && HasKey(data.entries, "build_order")
    requires Lookup(data.entries, "civilization") == Some(JStr(s))
    requires s !in civs && s !in Wildcards
    ensures CheckBuildOrder(data, civs, isValidResource)
            == Ok(Fail("Unknown civilization '" + s + "' (check spelling)."))
  {
  }

  // ---------------------------------------------------------------------
  // The build order and its steps.
  // ---------------------------------------------------------------------

  /** An empty build order (list, dict or string) is rejected once the
      civilization has passed. */
  lemma EmptyBuildOrderRejected(data: Json, boNameMsg: bool, civs: set<string>,
                                isValidResource: Json -> bool, describe: Exception -> string)
    requires data.JDict? && HasKey(data.entries, "name") && HasKey(data.entries, "build_order")
    requires Len(Lookup(data.entries, "build_order").value) == Ok(0)
    requires CivilizationOk(data, civs)
    ensures CheckValidAoe2BuildOrder(data, boNameMsg, civs, isValidResource, describe)
            == (false, NamePrefix(data, boNameMsg) + "Build order is empty.")
  {
  }

  /** Only the first step that is not well formed is reported, with its own
      0-based number. */
  lemma FirstBadStepDecides(data: Json, civs: set<string>, isValidResource: Json -> bool,
                            steps: seq<Json>, j: nat)
    requires data.JDict? && HasKey(data.entries, "name") && CivilizationOk(data, civs)
    requires Lookup(data.entries, "build_order") == Some(JList(steps))
    requires j < |steps|
    requires forall i :: 0 <= i < j ==> WellFormedStep(steps[i], isValidResource)
    requires !WellFormedStep(steps[j], isValidResource)
    ensures CheckBuildOrder(data, civs, isValidResource) == CheckStep(steps[j], j, isValidResource)
    ensures CheckBuildOrder(data, civs, isValidResource).Ok? ==>
              StepLabel(j) + " " <= CheckBuildOrder(data, civs, isValidResource).value.message
  {
    FirstBadStepOfLoop(steps, isValidResource, j);
  }

  /** The loop over the steps ends with the first step that is not well
      formed. */
  lemma FirstBadStepOfLoop(steps: seq<Json>, isValidResource: Json -> bool, j: nat)
    requires j < |steps|
    requires forall i :: 0 <= i < j ==> WellFormedStep(steps[i], isValidResource)
    requires !WellFormedStep(steps[j], isValidResource)
    ensures CheckStepsFrom(steps, 0, StepCheck(isValidResource)) == CheckStep(steps[j], j, isValidResource)
  {
    var check := StepCheck(isValidResource);
    assert check(steps[j], j) != Ok(Pass);
    var r := CheckStepsFrom(steps, 0, check);
    var k :| 0 <= k < |steps| && r == check(steps[k], k)
             && forall i :: 0 <= i < k ==> check(steps[i], i) == Ok(Pass);
    assert k == j;
  }

  /** Missing step fields are reported first, in the order villager_count,
      age, resources, notes. */
  lemma MissingStepFieldReported(item: Json, stepId: nat, isValidResource: Json -> bool, i: nat)
    requires item.JDict? && i < |StepKeys|
    requires !HasKey(item.entries, StepKeys[i])
    requires forall j :: 0 <= j < i ==> HasKey(item.entries, StepKeys[j])
    ensures CheckStep(item, stepId, isValidResource)
            == Ok(Fail(StepLabel(stepId) + " is missing the '" + StepKeys[i] + "' field."))
  {
    assert Contains(item, StepKeys[i]) == Ok(false);
  }

  /** The villager-count rule: once the four fields are there, a count that
      is not an int is reported with its value; an int count (a bool is one)
      passes on to the age, resource and notes checks. */
  lemma VillagerCountRule(item: Json, stepId: nat, isValidResource: Json -> bool)
    requires HasStepFields(item)
    ensures var villagerCount := Lookup(item.entries, "villager_count").value;
            var r := CheckStep(item, stepId, isValidResource);
            && (!IsInt(villagerCount) ==> r == Ok(Fail(StepLabel(stepId) + " has invalid villager count ("
                                                       + Str(villagerCount) + ").")))
            && (IsInt(villagerCount) ==>
                  (r == Ok(Pass) <==> AgeAccepted(Lookup(item.entries, "age").value)
                                      && ResourcesOk(Lookup(item.entries, "resources").value, isValidResource)
                                      && NotesOk(Lookup(item.entries, "notes").value)))
  {
  }

  /** Once the villager count and the age pass, the resource checks run,
      and the notes are looked at only when the resources pass. */
  lemma ResourcesThenNotes(item: Json, stepId: nat, isValidResource: Json -> bool)
    requires HasStepFields(item)
    requires IsInt(Lookup(item.entries, "villager_count").value)
    requires AgeAccepted(Lookup(item.entries, "age").value)
    ensures var resources := CheckResources(Lookup(item.entries, "resources").value, StepLabel(stepId), isValidResource);
            CheckStep(item, stepId, isValidResource)
            == if resources != Ok(Pass) then resources
               else CheckNotes(Lookup(item.entries, "notes").value, StepLabel(stepId))
  {
    assert "villager_count" in StepKeys;
  }

  /** The age rule: an int age of at most 4 passes, with no lower bound;
      anything else is reported once the villager count has passed. */
  lemma AgeRule(item: Json, stepId: nat, isValidResource: Json -> bool)
    requires HasStepFields(item)
    requires IsInt(Lookup(item.entries, "villager_count").value)
    ensures var age := Lookup(item.entries, "age").value;
            var r := CheckStep(item, stepId, isValidResource);
            && (!AgeAccepted(age) ==> r == Ok(Fail(StepLabel(stepId) + " has invalid age number ("
                                                   + Str(age) + ") (max: 4 for Imperial).")))
            && (AgeAccepted(age) ==>
                  (r == Ok(Pass) <==> ResourcesOk(Lookup(item.entries, "resources").value, isValidResource)
                                      && NotesOk(Lookup(item.entries, "notes").value)))
  {
    assert "villager_count" in StepKeys && "age" in StepKeys;
  }

  /** With the step fields right, missing resources are reported next, in
      the order wood, food, gold, stone. */
  lemma MissingResourceReported(item: Json, stepId: nat, isValidResource: Json -> bool,
                                resources: Json, i: nat)
    requires HasStepFields(item)
    requires IsInt(Lookup(item.entries, "villager_count").value)
    requires AgeAccepted(Lookup(item.entries, "age").value)
    requires Lookup(item.entries, "resources") == Some(resources) && resources.JDict?
    requires i < |ResourceKeys|
    requires !HasKey(resources.entries, ResourceKeys[i])
    requires forall j :: 0 <= j < i ==> HasKey(resources.entries, ResourceKeys[j])
    ensures CheckStep(item, stepId, isValidResource)
            == Ok(Fail(StepLabel(stepId) + " is missing the '" + ResourceKeys[i] + "' field in 'resources'."))
  {
    ResourcesThenNotes(item, stepId, isValidResource);
    assert FirstAbsentAt(resources, ResourceKeys, i);
  }

  /** With all four resources present, the first invalid one, in the order
      wood, food, gold, stone, is reported with its value. */
  lemma InvalidResourceReported(item: Json, stepId: nat, isValidResource: Json -> bool,
                                resources: Json, i: nat)
    requires HasStepFields(item)
    requires IsInt(Lookup(item.entries, "villager_count").value)
    requires AgeAccepted(Lookup(item.entries, "age").value)
    requires Lookup(item.entries, "resources") == Some(resources) && resources.JDict?
    requires forall j :: 0 <= j < |ResourceKeys| ==> Lookup(resources.entries, ResourceKeys[j]).Some?
    requires i < |ResourceKeys|
    requires forall j :: 0 <= j < i ==> isValidResource(Lookup(resources.entries, ResourceKeys[j]).value)
    requires !isValidResource(Lookup(resources.entries, ResourceKeys[i]).value)
    ensures CheckStep(item, stepId, isValidResource)
            == Ok(Fail(StepLabel(stepId) + " has an invalid '" + ResourceKeys[i] + "' resource ("
                       + Str(Lookup(resources.entries, ResourceKeys[i]).value) + ")."))
  {
    assert FirstInvalidAt(resources, ResourceKeys, i, isValidResource);
  }

  /** With everything before them right, the first note that is not a
      string is reported with its value. */
  lemma NonStringNoteReported(item: Json, stepId: nat, isValidResource: Json -> bool,
                              notes: seq<Json>, i: nat)
    requires HasStepFields(item)
    requires IsInt(Lookup(item.entries, "villager_count").value)
    requires AgeAccepted(Lookup(item.entries, "age").value)
    requires ResourcesOk(Lookup(item.entries, "resources").value, isValidResource)
    requires Lookup(item.entries, "notes") == Some(JList(notes))
    requires i < |notes| && !notes[i].JStr?
    requires forall j :: 0 <= j < i ==> notes[j].JStr?
    ensures CheckStep(item, stepId, isValidResource)
            == Ok(Fail(StepLabel(stepId) + " note '" + Str(notes[i]) + "' is not a string."))
  {
  }

  /** `builder` is optional: without it the resources pass once the four
      required ones do; with it, they pass exactly when it is valid. */
  lemma BuilderRule(resources: Json, stepName: string, isValidResource: Json -> bool)
    requires resources.JDict?
    requires forall k :: k in ResourceKeys ==>
               Lookup(resources.entries, k).Some? && isValidResource(Lookup(resources.entries, k).value)
    ensures !HasKey(resources.entries, "builder") ==> CheckResources(resources, stepName, isValidResource) == Ok(Pass)
    ensures HasKey(resources.entries, "builder") ==>
              CheckResources(resources, stepName, isValidResource)
              == (if isValidResource(Lookup(resources.entries, "builder").value) then Ok(Pass)
                  else Ok(Fail(stepName + " has an invalid 'builder' resource.")))
  {
    assert ResourceKeys[0] in ResourceKeys;
  }

  // ---------------------------------------------------------------------
  // Sorting key.
  // ---------------------------------------------------------------------

  /** A build order sorted last for a reason other than `'Generic'` passes
      the civilization check whatever the table holds. */
  lemma SortedLastPassesCivilization(data: Json, civs: set<string>)
    requires data.JDict? && SortingKey(data) == 1
    requires Lookup(data.entries, "civilization") != Some(JStr("Generic"))
    ensures CheckCivilization(data, civs) == Ok(Pass)
  {
  }

  /** `'Generic'` sorts last, yet passes the civilization check only if the
      table has it. */
  lemma GenericDependsOnTable(data: Json, civs: set<string>)
    requires data.JDict? && Lookup(data.entries, "civilization") == Some(JStr("Generic"))
    ensures SortingKey(data) == 1
    ensures CheckCivilization(data, civs) == Ok(Pass) <==> "Generic" in civs
  {
  }

  /** Any civilization list sorts first, even one that holds only wildcards
      and so passes the civilization check whatever the table holds. */
  lemma WildcardListSortsFirst(data: Json, civs: set<string>, cs: seq<Json>)
    requires data.JDict? && Lookup(data.entries, "civilization") == Some(JList(cs))
    ensures SortingKey(data) == 0
    ensures WildcardCivilization(data) ==> CheckCivilization(data, civs) == Ok(Pass)
  {
    if WildcardCivilization(data) {
      assert CivilizationOk(data, civs);
    }
  }

  // ---------------------------------------------------------------------
  // Templates.
  // ---------------------------------------------------------------------

  /** The default step is valid exactly when a zero resource is. */
  lemma DefaultStepRule(stepId: nat, isValidResource: Json -> bool)
    ensures CheckStep(DefaultStep(), stepId, isValidResource) == Ok(Pass) <==> isValidResource(JInt(0))
  {
    DefaultStepWellFormed(isValidResource);
  }

  lemma DefaultStepWellFormed(isValidResource: Json -> bool)
    ensures WellFormedStep(DefaultStep(), isValidResource) <==> isValidResource(JInt(0))
  {
    var resources := ZeroResources();
    assert Lookup(resources.entries, "wood") == Some(JInt(0));
    if isValidResource(JInt(0)) {
      assert ResourcesOk(resources, isValidResource);
    }
  }

  /** The document template holds one default step under civilization
      `'Generic'`; it validates exactly when the table knows `'Generic'`
      and a zero resource is valid. */
  lemma TemplateRule(civs: set<string>, isValidResource: Json -> bool)
    ensures SortingKey(Template()) == 1
    ensures CheckBuildOrder(Template(), civs, isValidResource) == Ok(Pass)
            <==> "Generic" in civs && isValidResource(JInt(0))
  {
    ValidExactlyWhenWellFormed(Template(), civs, isValidResource);
    TemplateWellFormed(civs, isValidResource);
  }

  lemma TemplateWellFormed(civs: set<string>, isValidResource: Json -> bool)
    ensures WellFormedBuildOrder(Template(), civs, isValidResource)
            <==> "Generic" in civs && isValidResource(JInt(0))
  {
    var t := Template();
    DefaultStepWellFormed(isValidResource);
    assert CivilizationOk(t, civs) <==> "Generic" in civs;
    assert (forall s :: s in [DefaultStep()] ==> WellFormedStep(s, isValidResource))
           <==> WellFormedStep(DefaultStep(), isValidResource) by {
      assert [DefaultStep()][0] == DefaultStep();
    }
  }

  /** Villager count, age and resources come from the last step when it has
      them, and from the defaults otherwise; the notes are placeholders. */
  lemma NextStepCarriesForward(steps: seq<Json>)
    requires |steps| >= 1 && steps[|steps| - 1].JDict?
    ensures var last := steps[|steps| - 1];
            NextStep(JList(steps)) == Ok(MakeStep(
              FieldOr(last, "villager_count", JInt(0)).value,
              FieldOr(last, "age", JInt(1)).value,
              FieldOr(last, "resources", ZeroResources()).value,
              PlaceholderNotes()))
  {
  }

  /** A step made from a build order whose last step is well formed is
      well formed itself. */
  lemma NextStepOfWellFormed(steps: seq<Json>, isValidResource: Json -> bool)
    requires |steps| >= 1 && WellFormedStep(steps[|steps| - 1], isValidResource)
    ensures NextStep(JList(steps)).Ok?
    ensures WellFormedStep(NextStep(JList(steps)).value, isValidResource)
  {
    NextStepCarriesForward(steps);
    var last := steps[|steps| - 1];
    var next := NextStep(JList(steps)).value;
    assert Lookup(next.entries, "villager_count") == Lookup(last.entries, "villager_count");
    assert Lookup(next.entries, "age") == Lookup(last.entries, "age");
    assert Lookup(next.entries, "resources") == Lookup(last.entries, "resources");
    assert Lookup(next.entries, "notes") == Some(PlaceholderNotes());
    assert NotesOk(PlaceholderNotes());
  }

  /** Appending the next step to a valid build order keeps it valid. */
  lemma AppendNextStepKeepsValid(data: Json, civs: set<string>, isValidResource: Json -> bool)
    requires WellFormedBuildOrder(data, civs, isValidResource)
    ensures var steps := Lookup(data.entries, "build_order").value.items;
            var next := NextStep(JList(steps));
            && next.Ok?
            && WellFormedBuildOrder(JDict(SetItem(data.entries, "build_order", JList(steps + [next.value]))),
                                    civs, isValidResource)
  {
    var steps := Lookup(data.entries, "build_order").value.items;
    assert steps[|steps| - 1] in steps;
    NextStepOfWellFormed(steps, isValidResource);
    var next := NextStep(JList(steps)).value;
    var entries := SetItem(data.entries, "build_order", JList(steps + [next]));
    SetItemOther(data.entries, "build_order", JList(steps + [next]), "name");
    SetItemOther(data.entries, "build_order", JList(steps + [next]), "civilization");
    assert CivilizationOk(JDict(entries), civs);
    forall s | s in steps + [next] ensures WellFormedStep(s, isValidResource) {
      if s != next { assert s in steps; }
    }
  }

  // ---------------------------------------------------------------------
  // Worked documents.
  // ---------------------------------------------------------------------

  function ZeroResourceStep(villagerCount: Json, age: Json, notes: Json): Json {
    MakeStep(villagerCount, age, ZeroResources(), notes)
  }

  function Document(steps: seq<Json>): Json {
    JDict([("name", JStr("Scouts")), ("build_order", JList(steps))])
  }

  /** One step with six villagers, Dark Age, zero resources and one note:
      valid whenever a zero resource is. */
  lemma OneStepDocumentValid(civs: set<string>, isValidResource: Json -> bool, describe: Exception -> string)
    requires isValidResource(JInt(0))
    ensures CheckValidAoe2BuildOrder(Document([ZeroResourceStep(JInt(6), JInt(1), JList([JStr("Start")]))]),
                                     false, civs, isValidResource, describe) == (true, "")
  {
    var step := ZeroResourceStep(JInt(6), JInt(1), JList([JStr("Start")]));
    assert ResourcesOk(ZeroResources(), isValidResource);
    assert WellFormedStep(step, isValidResource);
    ValidExactlyWhenWellFormed(Document([step]), civs, isValidResource);
  }

  /** Any int villager count (a bool counts as an int) and any int age of
      at most 4, however low, pass. */
  lemma AgeAndCountEdges(isValidResource: Json -> bool, villagerCount: Json, age: int)
    requires isValidResource(JInt(0))
    requires IsInt(villagerCount) && age <= MaxAge
    ensures CheckStep(ZeroResourceStep(villagerCount, JInt(age), JList([])), 0, isValidResource) == Ok(Pass)
  {
    var step := ZeroResourceStep(villagerCount, JInt(age), JList([]));
    assert ResourcesOk(ZeroResources(), isValidResource);
    assert WellFormedStep(step, isValidResource);
  }

  /** Age 5 is past the Imperial Age and is reported. */
  lemma AgeFiveRejected(isValidResource: Json -> bool, stepId: nat)
    ensures CheckStep(ZeroResourceStep(JInt(6), JInt(5), JList([])), stepId, isValidResource)
            == Ok(Fail(StepLabel(stepId) + " has invalid age number (5) (max: 4 for Imperial)."))
  {
    var step := ZeroResourceStep(JInt(6), JInt(5), JList([]));
    AgeRule(step, stepId, isValidResource);
    assert CheckStep(step, stepId, isValidResource) == Ok(Fail(InvalidAgeMessage(StepLabel(stepId), JInt(5))));
    AgeFiveMessage(StepLabel(stepId));
  }

  lemma AgeFiveMessage(stepName: string)
    ensures InvalidAgeMessage(stepName, JInt(5)) == stepName + " has invalid age number (5) (max: 4 for Imperial)."
  {
    assert DigitChar(5) == '5';
    assert NatToString(5) == "5";
    assert Str(JInt(5)) == "5";
    AgeFiveText();
  }

  lemma AgeFiveText()
    ensures " has invalid age number (" + "5" + ") (max: 4 for Imperial)."
            == " has invalid age number (5) (max: 4 for Imperial)."
  {
  }

  /** Notes given as one string pass: looping over it visits characters. */
  lemma StringNotesPass(isValidResource: Json -> bool)
    requires isValidResource(JInt(0))
    ensures CheckStep(ZeroResourceStep(JInt(6), JInt(1), JStr("Build houses")), 0, isValidResource) == Ok(Pass)
  {
    assert ResourcesOk(ZeroResources(), isValidResource);
    assert NotesOk(JStr("Build houses"));
  }

  /** A failed check is reported as the name prefix followed by its message. */
  lemma FailureReported(data: Json, boNameMsg: bool, civs: set<string>, isValidResource: Json -> bool,
                        describe: Exception -> string, message: string)
    requires CheckBuildOrder(data, civs, isValidResource) == Ok(Fail(message))
    ensures CheckValidAoe2BuildOrder(data, boNameMsg, civs, isValidResource, describe)
            == (false, NamePrefix(data, boNameMsg) + message)
  {
  }

  /** A first step lacking one of its fields fails the whole document with
      that field's message. */
  lemma FirstStepMissingField(data: Json, civs: set<string>, isValidResource: Json -> bool,
                              steps: seq<Json>, i: nat)
    requires data.JDict? && HasKey(data.entries, "name") && CivilizationOk(data, civs)
    requires Lookup(data.entries, "build_order") == Some(JList(steps)) && |steps| >= 1
    requires steps[0].JDict? && i < |StepKeys|
    requires !HasKey(steps[0].entries, StepKeys[i])
    requires forall j :: 0 <= j < i ==> HasKey(steps[0].entries, StepKeys[j])
    ensures CheckBuildOrder(data, civs, isValidResource)
            == Ok(Fail(StepLabel(0) + " is missing the '" + StepKeys[i] + "' field."))
  {
    MissingStepFieldReported(steps[0], 0, isValidResource, i);
    assert !WellFormedStep(steps[0], isValidResource);
    FirstBadStepDecides(data, civs, isValidResource, steps, 0);
  }

  /** Steps are numbered from 0: the first step is "Step 0". */
  lemma FirstStepLabel()
    ensures StepLabel(0) == "Step 0"
  {
    assert NatToString(0) == "0";
  }

  /** A document without `name` raises KeyError('name'), reported without a
      prefix even when one is asked for. */
  lemma MissingNameReported(data: Json, boNameMsg: bool, civs: set<string>, isValidResource: Json -> bool,
                            describe: Exception -> string)
    requires data.JDict? && !HasKey(data.entries, "name")
    ensures CheckValidAoe2BuildOrder(data, boNameMsg, civs, isValidResource, describe)
            == (false, "Wrong JSON key: 'name'.")
  {
    assert CheckBuildOrder(data, civs, isValidResource) == Raise(KeyError("name"));
    KeyErrorReported(data, boNameMsg, civs, isValidResource, describe, "name");
    assert NamePrefix(data, boNameMsg) == "";
    NameKeyText();
  }

  /** A KeyError is reported as the name prefix and `Wrong JSON key: 'k'.`. */
  lemma KeyErrorReported(data: Json, boNameMsg: bool, civs: set<string>, isValidResource: Json -> bool,
                         describe: Exception -> string, key: string)
    requires CheckBuildOrder(data, civs, isValidResource) == Raise(KeyError(key))
    ensures CheckValidAoe2BuildOrder(data, boNameMsg, civs, isValidResource, describe)
            == (false, NamePrefix(data, boNameMsg) + "Wrong JSON key: " + ReprString(key) + ".")
  {
  }

  lemma NameKeyText()
    ensures "" + "Wrong JSON key: " + ReprString("name") + "." == "Wrong JSON key: 'name'."
  {
    assert EscapeString("e", '\'') == "e";
    assert EscapeString("me", '\'') == "me";
    assert EscapeString("ame", '\'') == "ame";
    assert EscapeString("name", '\'') == "name";
    assert '\'' !in "name";
  }
}
