/** The helpers behind `auth0 actions logs`: the trigger list keeps only
    current triggers, triggers and actions become picker options, a `<none>`
    option is put in front of each picker, an action is looked up by name,
    and the chosen trigger and action are normalised. The HTTP request that
    lists triggers or actions is replaced by its decoded payload (or its
    error), passed in as a `Result`. */
module Actions {
  import opened Wrappers

  datatype Action = Action(id: string, name: string)

  datatype Trigger = Trigger(id: string, status: string, version: string)

  /** A picker entry: the value it selects and the text it shows (`label`). */
  datatype PickerOption = PickerOption(value: string, caption: string)

  /** The trigger filter and the logs command after the prompts: the trigger
      to follow ("" for any) and the action ID ("" for any). */
  datatype LogsFilter = LogsFilter(trigger: string, actionId: string)

  const StatusCurrent: string := "CURRENT"

  const OptNone: string := "<none>"

  /** The triggers whose status is `CURRENT`, in list order; specifies
      `ListActionsTriggers`. */
  function CurrentTriggers(triggers: seq<Trigger>): seq<Trigger>
  {
    if triggers == [] then []
    else
      var last := triggers[|triggers| - 1];
      CurrentTriggers(triggers[..|triggers| - 1]) + if last.status == StatusCurrent then [last] else []
  }

  /** `r` can be obtained from `s` by dropping elements, keeping the order of
      the rest. */
  ghost predicate SubsequenceOf<T>(r: seq<T>, s: seq<T>)
    decreases |s|
  {
    || r == []
    || (&& s != []
        && (|| (r[|r| - 1] == s[|s| - 1] && SubsequenceOf(r[..|r| - 1], s[..|s| - 1]))
            || SubsequenceOf(r, s[..|s| - 1])))
  }

  /** The filter keeps each current trigger as often as the input has it and
      no other trigger. */
  lemma {:induction false} CurrentTriggersCount(triggers: seq<Trigger>, t: Trigger)
    ensures multiset(CurrentTriggers(triggers))[t]
         == if t.status == StatusCurrent then multiset(triggers)[t] else 0
  {
    if triggers != [] {
      var init, last := triggers[..|triggers| - 1], triggers[|triggers| - 1];
      CurrentTriggersCount(init, t);
      assert triggers == init + [last];
    }
  }

  /** A trigger is in the filtered list exactly when it is in the input and
      its status is `CURRENT`. */
  lemma {:induction false} CurrentTriggersMembers(triggers: seq<Trigger>, t: Trigger)
    ensures t in CurrentTriggers(triggers) <==> t in triggers && t.status == StatusCurrent
  {
    CurrentTriggersCount(triggers, t);
    assert t in CurrentTriggers(triggers) <==> multiset(CurrentTriggers(triggers))[t] > 0;
    assert t in triggers <==> multiset(triggers)[t] > 0;
  }

  /** The filter keeps the input's order and is never longer than its input. */
  lemma {:induction false} CurrentTriggersOrdered(triggers: seq<Trigger>)
    ensures SubsequenceOf(CurrentTriggers(triggers), triggers)
    ensures |CurrentTriggers(triggers)| <= |triggers|
  {
    if triggers != [] {
      var init, last := triggers[..|triggers| - 1], triggers[|triggers| - 1];
      CurrentTriggersOrdered(init);
      var r := CurrentTriggers(triggers);
      if last.status == StatusCurrent {
        assert r[..|r| - 1] == CurrentTriggers(init);
      } else {
        assert r == CurrentTriggers(init);
      }
    }
  }

  /** `listActionsTriggers`: keep the current triggers of the payload. */
  method ListActionsTriggers(payload: Result<seq<Trigger>>) returns (r: Result<seq<Trigger>>)
    ensures payload.Err? ==> r == Err(payload.error)
    ensures payload.Ok? ==> r == Ok(CurrentTriggers(payload.value))
  {
    if payload.Err? {
      return Err(payload.error);
    }
    var triggers := payload.value;
    var result := [];
    for i := 0 to |triggers|
      invariant result == CurrentTriggers(triggers[..i])
    {
      assert triggers[..i + 1][..i] == triggers[..i];
      if triggers[i].status == StatusCurrent {
        result := result + [triggers[i]];
      }
    }
    assert triggers[..|triggers|] == triggers;
    return Ok(result);
  }

  /** `triggerPickerOptions`: one option per current trigger, in order, with
      the trigger ID as both value and label. */
  method TriggerPickerOptions(payload: Result<seq<Trigger>>) returns (r: Result<seq<PickerOption>>)
    ensures payload.Err? ==> r == Err(payload.error)
    ensures payload.Ok? ==>
      && r.Ok?
      && |r.value| == |CurrentTriggers(payload.value)|
      && forall i :: 0 <= i < |r.value| ==>
           var t := CurrentTriggers(payload.value)[i]; r.value[i] == PickerOption(t.id, t.id)
  {
    var triggers := ListActionsTriggers(payload);
    if triggers.Err? {
      return Err(triggers.error);
    }
    var opts := [];
    for i := 0 to |triggers.value|
      invariant |opts| == i
      invariant forall k :: 0 <= k < i ==> opts[k] == PickerOption(triggers.value[k].id, triggers.value[k].id)
    {
      opts := opts + [PickerOption(triggers.value[i].id, triggers.value[i].id)];
    }
    return Ok(opts);
  }

  /** `actionPickerOptions`: one option per action, in order, with the action
      name as both value and label. */
  method ActionPickerOptions(payload: Result<seq<Action>>) returns (r: Result<seq<PickerOption>>)
    ensures payload.Err? ==> r == Err(payload.error)
    ensures payload.Ok? ==>
      && r.Ok?
      && |r.value| == |payload.value|
      && forall i :: 0 <= i < |r.value| ==>
           r.value[i] == PickerOption(payload.value[i].name, payload.value[i].name)
  {
    if payload.Err? {
      return Err(payload.error);
    }
    var actions := payload.value;
    var opts := [];
    for i := 0 to |actions|
      invariant |opts| == i
      invariant forall k :: 0 <= k < i ==> opts[k] == PickerOption(actions[k].name, actions[k].name)
    {
      opts := opts + [PickerOption(actions[i].name, actions[i].name)];
    }
    return Ok(opts);
  }

  /** `pickerOptionsWithNone`: an error passes through with no options;
      otherwise the `<none>` option comes first, followed by the given
      options in order. */
  function PickerOptionsWithNone(opts: Result<seq<PickerOption>>): (r: Result<seq<PickerOption>>)
    ensures opts.Err? ==> r == Err(opts.error)
    ensures opts.Ok? ==>
      && r.Ok?
      && |r.value| == |opts.value| + 1
      && r.value[0] == PickerOption(OptNone, OptNone)
      && r.value[1..] == opts.value
  {
    match opts
    case Err(e) => Err(e)
    case Ok(o) => Ok([PickerOption(OptNone, OptNone)] + o)
  }

  /** The position of the first action named exactly `name`, if any. */
  function FirstNamed(actions: seq<Action>, name: string): (r: Option<nat>)
    ensures r.Some? ==>
      && r.value < |actions|
      && actions[r.value].name == name
      && forall j :: 0 <= j < r.value ==> actions[j].name != name
    ensures r.None? ==> forall j :: 0 <= j < |actions| ==> actions[j].name != name
  {
    if actions == [] then None
    else if actions[0].name == name then Some(0)
    else match FirstNamed(actions[1..], name)
      case None => None
      case Some(i) => Some(i + 1)
  }

  /** The message of the error for an action name that is not found. */
  function NotFound(name: string): string
  {
    "Unable to find action with name: " + name
  }

  /** What `getActionByName` yields for a listing and a name; specifies
      `GetActionByName`. */
  function LookupAction(listed: Result<seq<Action>>, name: string): Result<Action>
  {
    match listed
    case Err(e) => Err(e)
    case Ok(actions) =>
      match FirstNamed(actions, name)
      case Some(i) => Ok(actions[i])
      case None => Err(NotFound(name))
  }

  /** `getActionByName`: the first listed action whose name equals `name`
      exactly; an error exactly when the listing failed or no action has that
      name. */
  method GetActionByName(listed: Result<seq<Action>>, name: string) returns (r: Result<Action>)
    ensures r == LookupAction(listed, name)
    ensures listed.Ok? ==>
      (r.Ok? <==> exists i :: 0 <= i < |listed.value| && listed.value[i].name == name)
    ensures r.Ok? ==> r.value.name == name && r.value in listed.value
  {
    if listed.Err? {
      return Err(listed.error);
    }
    var actions := listed.value;
    for i := 0 to |actions|
      invariant forall j :: 0 <= j < i ==> actions[j].name != name
    {
      if actions[i].name == name {
        return Ok(actions[i]);
      }
    }
    return Err(NotFound(name));
  }

  /** The end of the logs command: an action is looked up only when a name
      was given and it is not `<none>`, and its ID becomes the action filter;
      otherwise the action filter is empty. A chosen trigger of `<none>`
      becomes the empty trigger filter. */
  function ResolveLogsFilter(actionName: string, trigger: string, listed: Result<seq<Action>>): (r: Result<LogsFilter>)
    ensures r.Ok? && trigger == OptNone ==> r.value.trigger == ""
    ensures r.Ok? && trigger != OptNone ==> r.value.trigger == trigger
    ensures actionName == "" || actionName == OptNone ==> r.Ok? && r.value.actionId == ""
    ensures actionName != "" && actionName != OptNone ==>
      && (r.Err? <==> LookupAction(listed, actionName).Err?)
      && (r.Err? ==> r.error == LookupAction(listed, actionName).error)
      && (r.Ok? ==> exists i :: && 0 <= i < |listed.value|
                                && listed.value[i].name == actionName
                                && r.value.actionId == listed.value[i].id
                                && forall j :: 0 <= j < i ==> listed.value[j].name != actionName)
  {
    var normalised := if trigger == OptNone then "" else trigger;
    if actionName != "" && actionName != OptNone then
      match LookupAction(listed, actionName)
      case Err(e) => Err(e)
      case Ok(a) => Ok(LogsFilter(normalised, a.id))
    else
      Ok(LogsFilter(normalised, ""))
  }
}
