/** The timing pass `evaluate_aoe2_build_order_timing`: every step of a
    build order gets a `time` field, the formatted time needed to train its
    villager count, plus an offset. The pass mutates the document in place
    and lets exceptions escape, so a failing step leaves the steps before it
    already timed. */
module Aoe2Timing {
  import opened PyJson
  import opened Aoe2BuildOrder

  /** Training time of one villager, in seconds. */
  const VillagerTime: int := 25

  /** `villager_time * step['villager_count'] + time_offset` for one step.
      Multiplying a string or a list by 25 repeats it, and adding an int to
      the result raises a TypeError, as do None and dicts. */
  function StepSeconds(step: Json, timeOffset: int): (r: Result<int>)
    ensures r.Ok? <==> step.JDict? && HasKey(step.entries, "villager_count")
                       && IsInt(Lookup(step.entries, "villager_count").value)
    ensures r.Ok? ==> r.value == VillagerTime * IntValue(Lookup(step.entries, "villager_count").value) + timeOffset
    ensures r.Raise? && step.JDict? && HasKey(step.entries, "villager_count")
            ==> r.exc == TypeError(Arithmetic, TypeOf(Lookup(step.entries, "villager_count").value))
    ensures r.Raise? && !(step.JDict? && HasKey(step.entries, "villager_count"))
            ==> r == GetItem(step, "villager_count").PropagateFailure()
  {
    var villagerCount :- GetItem(step, "villager_count");
    if IsInt(villagerCount) then Ok(VillagerTime * IntValue(villagerCount) + timeOffset)
    else Raise(TypeError(Arithmetic, TypeOf(villagerCount)))
  }

  /** One iteration of the loop: the step with its `time` field set. */
  function TimedStep(step: Json, timeOffset: int, timeToStr: int -> string): (r: Result<Json>)
    ensures r.Ok? <==> StepSeconds(step, timeOffset).Ok?
    ensures r.Raise? ==> r.exc == StepSeconds(step, timeOffset).exc
    ensures r.Ok? ==> && r.value.JDict?
                      && Lookup(r.value.entries, "time") == Some(JStr(timeToStr(StepSeconds(step, timeOffset).value)))
  {
    var seconds :- StepSeconds(step, timeOffset);
    Ok(JDict(SetItem(step.entries, "time", JStr(timeToStr(seconds)))))
  }

  /** The loop over `steps` as a whole: the steps after the pass, and the
      exception that stopped it, if any. The steps before the failing one
      are timed, and it and those after it are as they were. */
  function TimeSteps(steps: seq<Json>, timeOffset: int, timeToStr: int -> string)
    : (r: (seq<Json>, Option<Exception>))
    ensures |r.0| == |steps|
    decreases |steps|
  {
    if steps == [] then ([], None)
    else
      var (done, raised) := TimeSteps(steps[..|steps| - 1], timeOffset, timeToStr);
      var last := steps[|steps| - 1];
      if raised.Some? then (done + [last], raised)
      else
        match TimedStep(last, timeOffset, timeToStr)
        case Raise(exc) => (done + [last], Some(exc))
        case Ok(timed) => (done + [timed], None)
  }

  /** The whole pass on the top-level entries of a document: the entries
      afterwards, and the exception that escaped, if any. Without
      `build_order` only a warning is printed. Only a list of steps is
      written to; looping over a dict or a string visits strings, and the
      first of them cannot be subscripted. */
  function TimedDocument(entries: seq<(string, Json)>, timeOffset: int, timeToStr: int -> string)
    : (r: (seq<(string, Json)>, Option<Exception>))
    ensures !HasKey(entries, "build_order") ==> r == (entries, None)
  {
    match Lookup(entries, "build_order")
    case None => (entries, None)
    case Some(buildOrder) =>
      match Iter(buildOrder)
      case Raise(exc) => (entries, Some(exc))
      case Ok(steps) =>
        var (done, raised) := TimeSteps(steps, timeOffset, timeToStr);
        if buildOrder.JList? then (SetItem(entries, "build_order", JList(done)), raised)
        else (entries, raised)
  }

  /** A build-order document held by reference, as the pass receives it. */
  class BuildOrderDocument {
    var entries: seq<(string, Json)>

    constructor (entries: seq<(string, Json)>)
      ensures this.entries == entries
    {
      this.entries := entries;
    }

    function Data(): Json
      reads this
    {
      JDict(entries)
    }

    /** `evaluate_aoe2_build_order_timing(data, time_offset)`: returns the
        exception the source lets escape, or None. */
    method EvaluateTiming(timeOffset: int, timeToStr: int -> string) returns (raised: Option<Exception>)
      modifies this
      ensures (entries, raised) == TimedDocument(old(entries), timeOffset, timeToStr)
    {
      if !HasKey(entries, "build_order") {
        return None;
      }
      var buildOrder := Lookup(entries, "build_order").value;
      match Iter(buildOrder) {
        case Raise(exc) =>
          raised := Some(exc);
        case Ok(steps) =>
          raised := TimeEachStep(steps, buildOrder.JList?, timeOffset, timeToStr);
      }
    }

    /** The `for step in build_order_data` loop. Each timed step is stored
        back into the document's `build_order` list when `inList` holds,
        which is when the steps are the list's own elements. */
    method TimeEachStep(steps: seq<Json>, inList: bool, timeOffset: int, timeToStr: int -> string)
      returns (raised: Option<Exception>)
      requires inList ==> Lookup(entries, "build_order") == Some(JList(steps))
      modifies this
      ensures raised == TimeSteps(steps, timeOffset, timeToStr).1
      ensures inList ==> entries == SetItem(old(entries), "build_order", JList(TimeSteps(steps, timeOffset, timeToStr).0))
      ensures !inList ==> entries == old(entries)
    {
      ghost var original := entries;
      if inList {
        SetItemSame(entries, "build_order", JList(steps));
      }
      var items := steps;
      var i := 0;
      assert steps[..0] == [];
      while i < |steps|
        invariant 0 <= i <= |steps|
        invariant TimeSteps(steps[..i], timeOffset, timeToStr).1 == None
        invariant items == TimeSteps(steps[..i], timeOffset, timeToStr).0 + steps[i..]
        invariant inList ==> entries == SetItem(original, "build_order", JList(items))
        invariant !inList ==> entries == original
      {
        var step := items[i];
        assert step == steps[i];
        var seconds := StepSeconds(step, timeOffset);
        if seconds.Raise? {
          TimeStepsStopAt(steps, i, timeOffset, timeToStr);
          assert TimeSteps(steps, timeOffset, timeToStr).0 == items;
          return Some(seconds.exc);
        }
        var timed := JDict(SetItem(step.entries, "time", JStr(timeToStr(seconds.value))));
        assert TimedStep(steps[i], timeOffset, timeToStr) == Ok(timed);
        TimeStepsExtend(steps, i, timeOffset, timeToStr);
        ReplaceAfterPrefix(TimeSteps(steps[..i], timeOffset, timeToStr).0, steps[i..], timed);
        assert steps[i..][1..] == steps[i + 1..];
        if inList {
          SetItemTwice(original, "build_order", JList(items), JList(items[i := timed]));
          entries := SetItem(entries, "build_order", JList(items[i := timed]));
        }
        items := items[i := timed];
        i := i + 1;
      }
      assert steps[..i] == steps && steps[i..] == [];
      assert TimeSteps(steps, timeOffset, timeToStr).0 == items;
      return None;
    }
  }

  /** Replacing the element just after a prefix. */
  lemma ReplaceAfterPrefix(prefix: seq<Json>, rest: seq<Json>, x: Json)
    requires rest != []
    ensures (prefix + rest)[|prefix| := x] == (prefix + [x]) + rest[1..]
  {
  }

  /** One more step through a loop that has not raised yet. */
  lemma TimeStepsExtend(steps: seq<Json>, i: nat, timeOffset: int, timeToStr: int -> string)
    requires i < |steps|
    requires TimeSteps(steps[..i], timeOffset, timeToStr).1 == None
    ensures TimeSteps(steps[..i + 1], timeOffset, timeToStr)
            == match TimedStep(steps[i], timeOffset, timeToStr)
               case Raise(exc) => (TimeSteps(steps[..i], timeOffset, timeToStr).0 + [steps[i]], Some(exc))
               case Ok(timed) => (TimeSteps(steps[..i], timeOffset, timeToStr).0 + [timed], None)
  {
    assert steps[..i + 1][..i] == steps[..i];
  }

  /** The first step the loop cannot time stops it: that step and the ones
      after it are left as they are. */
  lemma TimeStepsStopAt(steps: seq<Json>, i: nat, timeOffset: int, timeToStr: int -> string)
    requires i < |steps|
    requires TimeSteps(steps[..i], timeOffset, timeToStr).1 == None
    requires TimedStep(steps[i], timeOffset, timeToStr).Raise?
    ensures TimeSteps(steps, timeOffset, timeToStr)
            == (TimeSteps(steps[..i], timeOffset, timeToStr).0 + steps[i..],
                Some(TimedStep(steps[i], timeOffset, timeToStr).exc))
  {
    TimeStepsExtend(steps, i, timeOffset, timeToStr);
    TimeStepsAfterFailure(steps, i + 1, timeOffset, timeToStr);
    var before := TimeSteps(steps[..i], timeOffset, timeToStr).0;
    assert (before + [steps[i]]) + steps[i + 1..] == before + steps[i..];
  }

  /** Once the loop has raised on the first `k` steps, the remaining steps
      are left as they are and the same exception escapes. */
  lemma {:induction false} TimeStepsAfterFailure(steps: seq<Json>, k: nat, timeOffset: int, timeToStr: int -> string)
    requires k <= |steps|
    requires TimeSteps(steps[..k], timeOffset, timeToStr).1.Some?
    ensures TimeSteps(steps, timeOffset, timeToStr)
            == (TimeSteps(steps[..k], timeOffset, timeToStr).0 + steps[k..],
                TimeSteps(steps[..k], timeOffset, timeToStr).1)
    decreases |steps| - k
  {
    if |steps| == k {
      assert steps[..k] == steps;
      assert steps[k..] == [];
      assert TimeSteps(steps, timeOffset, timeToStr).0 + [] == TimeSteps(steps, timeOffset, timeToStr).0;
    } else {
      var front := steps[..|steps| - 1];
      assert front[..k] == steps[..k];
      TimeStepsAfterFailure(front, k, timeOffset, timeToStr);
      var (done, raised) := TimeSteps(front, timeOffset, timeToStr);
      assert raised.Some?;
      assert TimeSteps(steps, timeOffset, timeToStr) == (done + [steps[|steps| - 1]], raised);
      assert front[k..] + [steps[|steps| - 1]] == steps[k..];
      var before := TimeSteps(steps[..k], timeOffset, timeToStr).0;
      assert done == before + front[k..];
      assert done + [steps[|steps| - 1]] == before + steps[k..];
    }
  }
}
