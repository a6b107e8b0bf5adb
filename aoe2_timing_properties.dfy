/** What the timing pass promises: each step's time depends on that step
    alone, nothing but `time` changes, a valid build order is timed in full
    and stays valid, and running the pass twice is the same as once. */
module Aoe2TimingProperties {
  import opened PyJson
  import opened Aoe2BuildOrder
  import opened Aoe2BuildOrderProperties
  import opened Aoe2Timing

  /** The first `k` steps can all be timed. */
  predicate TimedUpTo(steps: seq<Json>, k: nat, timeOffset: int, timeToStr: int -> string)
    requires k <= |steps|
  {
    forall m :: 0 <= m < k ==> TimedStep(steps[m], timeOffset, timeToStr).Ok?
  }

  /** The first `k` steps of a list and of its front agree. */
  lemma TimedUpToFront(steps: seq<Json>, n: nat, k: nat, timeOffset: int, timeToStr: int -> string)
    requires k <= n <= |steps|
    ensures TimedUpTo(steps, k, timeOffset, timeToStr) == TimedUpTo(steps[..n], k, timeOffset, timeToStr)
  {
    assert forall m :: 0 <= m < k ==> steps[m] == steps[..n][m];
  }

  /** The loop finishes without an exception exactly when every step can
      be timed. */
  lemma {:induction false} TimeStepsRaisesIff(steps: seq<Json>, timeOffset: int, timeToStr: int -> string)
    ensures TimeSteps(steps, timeOffset, timeToStr).1.None? <==> TimedUpTo(steps, |steps|, timeOffset, timeToStr)
    decreases |steps|
  {
    if steps != [] {
      var n := |steps| - 1;
      TimeStepsRaisesIff(steps[..n], timeOffset, timeToStr);
      TimedUpToFront(steps, n, n, timeOffset, timeToStr);
    }
  }

  /** Step `k` comes out timed exactly when it and every step before it can
      be timed, and untouched otherwise: its time depends on that step alone. */
  lemma {:induction false} TimeStepsAt(steps: seq<Json>, k: nat, timeOffset: int, timeToStr: int -> string)
    requires k < |steps|
    ensures TimeSteps(steps, timeOffset, timeToStr).0[k]
            == if TimedUpTo(steps, k + 1, timeOffset, timeToStr)
               then TimedStep(steps[k], timeOffset, timeToStr).value else steps[k]
    decreases |steps|
  {
    var n := |steps| - 1;
    if k < n {
      TimeStepsAt(steps[..n], k, timeOffset, timeToStr);
      TimedUpToFront(steps, n, k + 1, timeOffset, timeToStr);
    } else {
      TimeStepsRaisesIff(steps[..n], timeOffset, timeToStr);
      TimedUpToFront(steps, n, n, timeOffset, timeToStr);
    }
  }

  /** When the loop raises, it is with the exception of the first step that
      cannot be timed. */
  lemma {:induction false} TimeStepsRaisedBy(steps: seq<Json>, timeOffset: int, timeToStr: int -> string)
    requires TimeSteps(steps, timeOffset, timeToStr).1.Some?
    ensures exists j :: && 0 <= j < |steps| && TimedUpTo(steps, j, timeOffset, timeToStr)
                        && TimedStep(steps[j], timeOffset, timeToStr)
                           == Raise(TimeSteps(steps, timeOffset, timeToStr).1.value)
    decreases |steps|
  {
    var n := |steps| - 1;
    if TimeSteps(steps[..n], timeOffset, timeToStr).1.Some? {
      TimeStepsRaisedBy(steps[..n], timeOffset, timeToStr);
      var j :| && 0 <= j < n && TimedUpTo(steps[..n], j, timeOffset, timeToStr)
               && TimedStep(steps[..n][j], timeOffset, timeToStr)
                  == Raise(TimeSteps(steps[..n], timeOffset, timeToStr).1.value);
      TimedUpToFront(steps, n, j, timeOffset, timeToStr);
      assert steps[..n][j] == steps[j];
    } else {
      TimeStepsRaisesIff(steps[..n], timeOffset, timeToStr);
      TimedUpToFront(steps, n, n, timeOffset, timeToStr);
    }
  }

  /** Setting `time` leaves every other field of the step as it was. */
  lemma TimedStepKeepsFields(step: Json, timeOffset: int, timeToStr: int -> string, key: string)
    requires TimedStep(step, timeOffset, timeToStr).Ok? && key != "time"
    ensures Lookup(TimedStep(step, timeOffset, timeToStr).value.entries, key) == Lookup(step.entries, key)
  {
    SetItemOther(step.entries, "time", JStr(timeToStr(StepSeconds(step, timeOffset).value)), key);
  }

  /** Timing a timed step again changes nothing. */
  lemma TimedStepIdempotent(step: Json, timeOffset: int, timeToStr: int -> string)
    requires TimedStep(step, timeOffset, timeToStr).Ok?
    ensures TimedStep(TimedStep(step, timeOffset, timeToStr).value, timeOffset, timeToStr)
            == TimedStep(step, timeOffset, timeToStr)
  {
    var time := JStr(timeToStr(StepSeconds(step, timeOffset).value));
    TimedStepKeepsFields(step, timeOffset, timeToStr, "villager_count");
    SetItemTwice(step.entries, "time", time, time);
  }

  /** Running the loop over its own output gives the same steps and the
      same exception. */
  lemma {:induction false} TimeStepsIdempotent(steps: seq<Json>, timeOffset: int, timeToStr: int -> string)
    ensures TimeSteps(TimeSteps(steps, timeOffset, timeToStr).0, timeOffset, timeToStr)
            == TimeSteps(steps, timeOffset, timeToStr)
    decreases |steps|
  {
    if steps != [] {
      var front := steps[..|steps| - 1];
      var last := steps[|steps| - 1];
      TimeStepsIdempotent(front, timeOffset, timeToStr);
      var (done, raised) := TimeSteps(steps, timeOffset, timeToStr);
      var frontDone := TimeSteps(front, timeOffset, timeToStr).0;
      assert done[..|done| - 1] == frontDone;
      if raised.None? || TimedStep(last, timeOffset, timeToStr).Ok? {
        if TimeSteps(front, timeOffset, timeToStr).1.None? && TimedStep(last, timeOffset, timeToStr).Ok? {
          TimedStepIdempotent(last, timeOffset, timeToStr);
        }
      }
    }
  }

  /** Only `build_order` can change: every other top-level field keeps its
      value, and the document keeps its keys in order. */
  lemma TimingTouchesOnlyBuildOrder(entries: seq<(string, Json)>, timeOffset: int, timeToStr: int -> string,
                                    key: string)
    requires key != "build_order"
    ensures var r := TimedDocument(entries, timeOffset, timeToStr);
            Lookup(r.0, key) == Lookup(entries, key) && Keys(r.0) == Keys(entries)
  {
    match Lookup(entries, "build_order")
    case None =>
    case Some(buildOrder) =>
      if buildOrder.JList? {
        SetItemOther(entries, "build_order", JList(TimeSteps(buildOrder.items, timeOffset, timeToStr).0), key);
      }
  }

  /** A list of steps stays a list with the same number of steps, each
      either timed or untouched, in the same order. */
  lemma TimingKeepsSteps(entries: seq<(string, Json)>, timeOffset: int, timeToStr: int -> string, steps: seq<Json>)
    requires Lookup(entries, "build_order") == Some(JList(steps))
    ensures var r := TimedDocument(entries, timeOffset, timeToStr);
            && Lookup(r.0, "build_order").Some?
            && Lookup(r.0, "build_order").value.JList?
            && |Lookup(r.0, "build_order").value.items| == |steps|
            && forall k :: 0 <= k < |steps| ==>
                 var after := Lookup(r.0, "build_order").value.items[k];
                 after == steps[k]
                 || (TimedStep(steps[k], timeOffset, timeToStr).Ok?
                     && after == TimedStep(steps[k], timeOffset, timeToStr).value)
  {
    var timed := TimeSteps(steps, timeOffset, timeToStr).0;
    assert Lookup(TimedDocument(entries, timeOffset, timeToStr).0, "build_order") == Some(JList(timed));
    forall k | 0 <= k < |steps|
      ensures timed[k] == steps[k]
              || (TimedStep(steps[k], timeOffset, timeToStr).Ok? && timed[k] == TimedStep(steps[k], timeOffset, timeToStr).value)
    {
      TimeStepsAt(steps, k, timeOffset, timeToStr);
    }
  }

  /** A build order the validator accepts is timed in full: no exception,
      and every step is replaced by its timed version, whose `time` is the
      formatted time of its own villager count (see `StepTimeRule`). */
  lemma ValidDocumentFullyTimed(entries: seq<(string, Json)>, civs: set<string>, isValidResource: Json -> bool,
                                timeOffset: int, timeToStr: int -> string)
    requires WellFormedBuildOrder(JDict(entries), civs, isValidResource)
    ensures var steps := Lookup(entries, "build_order").value.items;
            var r := TimedDocument(entries, timeOffset, timeToStr);
            && r.1 == None
            && Lookup(r.0, "build_order").Some?
            && Lookup(r.0, "build_order").value.JList?
            && |Lookup(r.0, "build_order").value.items| == |steps|
            && forall k :: 0 <= k < |steps| ==>
                 && TimedStep(steps[k], timeOffset, timeToStr).Ok?
                 && Lookup(r.0, "build_order").value.items[k] == TimedStep(steps[k], timeOffset, timeToStr).value
  {
    var steps := Lookup(entries, "build_order").value.items;
    forall m | 0 <= m < |steps| ensures TimedStep(steps[m], timeOffset, timeToStr).Ok? {
      assert steps[m] in steps;
    }
    TimeStepsRaisesIff(steps, timeOffset, timeToStr);
    var timed := TimeSteps(steps, timeOffset, timeToStr).0;
    assert Lookup(TimedDocument(entries, timeOffset, timeToStr).0, "build_order") == Some(JList(timed));
    forall k | 0 <= k < |steps|
      ensures timed[k] == TimedStep(steps[k], timeOffset, timeToStr).value
    {
      TimeStepsAt(steps, k, timeOffset, timeToStr);
      assert TimedUpTo(steps, k + 1, timeOffset, timeToStr);
    }
  }

  /** A dict step with an int villager count gets `time` set to the
      formatted `25 * villager_count + time_offset`. */
  lemma StepTimeRule(step: Json, timeOffset: int, timeToStr: int -> string)
    requires step.JDict? && HasKey(step.entries, "villager_count")
    requires IsInt(Lookup(step.entries, "villager_count").value)
    ensures TimedStep(step, timeOffset, timeToStr).Ok?
    ensures Lookup(TimedStep(step, timeOffset, timeToStr).value.entries, "time")
            == Some(JStr(timeToStr(25 * IntValue(Lookup(step.entries, "villager_count").value) + timeOffset)))
  {
  }

  /** Timing a valid build order keeps it valid, so the validator's verdict
      does not change. */
  lemma TimingKeepsValid(entries: seq<(string, Json)>, civs: set<string>, isValidResource: Json -> bool,
                         timeOffset: int, timeToStr: int -> string)
    requires WellFormedBuildOrder(JDict(entries), civs, isValidResource)
    ensures var timedEntries := TimedDocument(entries, timeOffset, timeToStr).0;
            && WellFormedBuildOrder(JDict(timedEntries), civs, isValidResource)
            && CheckBuildOrder(JDict(timedEntries), civs, isValidResource) == Ok(Pass)
  {
    var steps := Lookup(entries, "build_order").value.items;
    var timedEntries := TimedDocument(entries, timeOffset, timeToStr).0;
    ValidDocumentFullyTimed(entries, civs, isValidResource, timeOffset, timeToStr);
    var timed := TimeSteps(steps, timeOffset, timeToStr).0;
    TimingTouchesOnlyBuildOrder(entries, timeOffset, timeToStr, "name");
    TimingTouchesOnlyBuildOrder(entries, timeOffset, timeToStr, "civilization");
    assert CivilizationOk(JDict(timedEntries), civs);
    assert Lookup(timedEntries, "build_order") == Some(JList(timed));
    forall s | s in timed ensures WellFormedStep(s, isValidResource) {
      var k :| 0 <= k < |timed| && timed[k] == s;
      assert steps[k] in steps;
      TimedStepKeepsFields(steps[k], timeOffset, timeToStr, "villager_count");
      TimedStepKeepsFields(steps[k], timeOffset, timeToStr, "age");
      TimedStepKeepsFields(steps[k], timeOffset, timeToStr, "resources");
      TimedStepKeepsFields(steps[k], timeOffset, timeToStr, "notes");
    }
    ValidExactlyWhenWellFormed(JDict(timedEntries), civs, isValidResource);
  }

  /** Running the pass twice leaves the document as running it once, and
      raises the same exception. */
  lemma TimingIdempotent(entries: seq<(string, Json)>, timeOffset: int, timeToStr: int -> string)
    ensures var once := TimedDocument(entries, timeOffset, timeToStr);
            TimedDocument(once.0, timeOffset, timeToStr) == once
  {
    match Lookup(entries, "build_order")
    case None =>
    case Some(buildOrder) =>
      if buildOrder.JList? {
        var steps := buildOrder.items;
        var timed := TimeSteps(steps, timeOffset, timeToStr).0;
        TimeStepsIdempotent(steps, timeOffset, timeToStr);
        SetItemTwice(entries, "build_order", JList(timed), JList(timed));
      }
  }

  /** Four villagers with no offset take 100 seconds; one villager with a
      30-second offset takes 55; none takes 0. */
  lemma TimingExamples(timeToStr: int -> string)
    ensures StepSeconds(DefaultStep(), 0) == Ok(0)
    ensures StepSeconds(MakeStep(JInt(4), JInt(1), ZeroResources(), PlaceholderNotes()), 0) == Ok(100)
    ensures StepSeconds(MakeStep(JInt(1), JInt(1), ZeroResources(), PlaceholderNotes()), 30) == Ok(55)
  {
  }
}
