/**
  Worked runs of the plugin: requests and parameter changes made between two
  blocks, and what the next run sends. Each starts from a state with nothing
  pending, such as the one right after construction or activate.
 */
module Scenarios {
  import opened Wrappers
  import opened Midi
  import opened CText
  import opened Mapping
  import opened Emission
  import opened Plugin
  import opened PluginProperties

  /** A sink that accepts every write a run can make. */
  predicate Willing(sink: seq<bool>, t: PluginState) {
    forall m :: 0 <= m < ActionCount + |t.params| ==> Accepts(sink, m)
  }

  /**
    A run with only action i dirty and a willing sink sends that action's
    event, if it has one, and clears its flag; otherwise it sends nothing and
    leaves the state as it was.
   */
  lemma OneActionRun(t: PluginState, allowedCCs: seq<Byte>, sink: seq<bool>, o: Outcome, i: nat)
    requires WellFormed(t, allowedCCs) && o == EmissionPass(t, allowedCCs, sink)
    requires i < ActionCount && Willing(sink, t)
    requires forall j :: 0 <= j < ActionCount ==> t.updatedActions[j] == (j == i)
    requires forall j :: 0 <= j < |t.params| ==> !t.updatedParams[j]
    ensures var e := ActionEvent(ActionAt(i), t.actions[i]);
      Output(o) == (if e.Some? then [e.value] else []) &&
      o.state == (if e.Some? then t.(updatedActions := t.updatedActions[i := false]) else t)
  {
    var ae := ActionEvents(t.actions);
    var pe := ParamEvents(t.params, allowedCCs);
    var e := ActionEvent(ActionAt(i), t.actions[i]);
    EmissionWithWillingSink(t, allowedCCs, sink, o);
    PendingOnly(ae, t.updatedActions, 0, i);
    PendingOnly(pe, t.updatedParams, 0, 0);
    ActionEventAt(t.actions, i);
    var flags := if e.Some? then t.updatedActions[i := false] else t.updatedActions;
    assert o.state.updatedActions == flags by {
      forall j | 0 <= j < ActionCount
        ensures o.state.updatedActions[j] == flags[j]
      {
        ActionEventAt(t.actions, j);
      }
    }
    assert o.state.updatedParams == t.updatedParams;
  }

  /** The state a request leaves behind when nothing was pending before it. */
  lemma RequestOnClean(s: PluginState, allowedCCs: seq<Byte>, key: string, value: seq<Byte>)
    requires WellFormed(s, allowedCCs) && Clean(s)
    requires ParseRequest(key, value).Some?
    ensures var r := ParseRequest(key, value).value;
      var t := ApplyRequest(s, Some(r));
      WellFormed(t, allowedCCs) &&
      (forall j :: 0 <= j < ActionCount ==> t.updatedActions[j] == (j == ActionIndex(r.action))) &&
      (forall j :: 0 <= j < |t.params| ==> !t.updatedParams[j])
  {
    RequestTouchesOnlyItsAction(s, allowedCCs, key, value);
  }

  /** scene "n" for n in 0..3 sends CC 107 with value n and clears the request. */
  lemma SceneSelect(s: PluginState, allowedCCs: seq<Byte>, sink: seq<bool>, o: Outcome, n: nat)
    requires WellFormed(s, allowedCCs) && Clean(s) && Willing(sink, s) && n <= 3
    requires o == EmissionPass(ApplyRequest(s, ParseRequest("scene", [DigitZero + n])), allowedCCs, sink)
    ensures Output(o) == [Cc(107, n)] && Clean(o.state)
  {
    var c: Int8 := DigitZero + n;
    assert ParseRequest("scene", [DigitZero + n]) == Some(Request(Scene, Some(c)));
    assert ActionEvent(Scene, c) == Some(Cc(107, n));
    var t := ApplyRequest(s, ParseRequest("scene", [DigitZero + n]));
    RequestOnClean(s, allowedCCs, "scene", [DigitZero + n]);
    OneActionRun(t, allowedCCs, sink, o, ActionIndex(Scene));
  }

  /** scene with any first character but '0'..'3', '+' or '-' is never sent and stays pending. */
  lemma SceneOutOfRange(s: PluginState, allowedCCs: seq<Byte>, sink: seq<bool>, o: Outcome, value: seq<Byte>)
    requires WellFormed(s, allowedCCs) && Clean(s) && Willing(sink, s)
    requires var c := FirstByte(value); !(DigitZero <= c <= DigitZero + 3 || c == PlusSign || c == MinusSign)
    requires o == EmissionPass(ApplyRequest(s, ParseRequest("scene", value)), allowedCCs, sink)
    ensures Output(o) == [] && o.state == ApplyRequest(s, ParseRequest("scene", value))
    ensures o.state.updatedActions[ActionIndex(Scene)]
  {
    var t := ApplyRequest(s, ParseRequest("scene", value));
    RequestOnClean(s, allowedCCs, "scene", value);
    OneActionRun(t, allowedCCs, sink, o, ActionIndex(Scene));
  }

  /** preset "-" sends CC 106 (previous preset), not a Program Change. */
  lemma PresetPrevious(s: PluginState, allowedCCs: seq<Byte>, sink: seq<bool>, o: Outcome, tail: seq<Byte>)
    requires WellFormed(s, allowedCCs) && Clean(s) && Willing(sink, s)
    requires o == EmissionPass(ApplyRequest(s, ParseRequest("preset", [MinusSign] + tail)), allowedCCs, sink)
    ensures Output(o) == [Cc(106, 0)] && Clean(o.state)
  {
    var t := ApplyRequest(s, ParseRequest("preset", [MinusSign] + tail));
    RequestOnClean(s, allowedCCs, "preset", [MinusSign] + tail);
    OneActionRun(t, allowedCCs, sink, o, ActionIndex(Preset));
  }

  /**
    bank "n" sends a bank select with n truncated to a byte, except that the
    numbers whose low byte is 43 or 45 (the codes of '+' and '-') step to the
    next or previous bank instead.
   */
  lemma BankNumber(s: PluginState, allowedCCs: seq<Byte>, sink: seq<bool>, o: Outcome, n: nat)
    requires WellFormed(s, allowedCCs) && Clean(s) && Willing(sink, s)
    requires o == EmissionPass(ApplyRequest(s, ParseRequest("bank", Decimal(n))), allowedCCs, sink)
    ensures Output(o) ==
      if Low8(n) == PlusSign then [Cc(103, 0)]
      else if Low8(n) == MinusSign then [Cc(104, 0)]
      else [Cc(102, Low8(n))]
    ensures Clean(o.state)
  {
    var t := ApplyRequest(s, ParseRequest("bank", Decimal(n)));
    RequestOnClean(s, allowedCCs, "bank", Decimal(n));
    DecimalPayload(n, []);
    assert Decimal(n) + [] == Decimal(n);
    SameLowByte(n);
    OneActionRun(t, allowedCCs, sink, o, ActionIndex(Bank));
  }

  /** mode with an empty value reads the NUL terminator, which wraps below '1' and selects mode 2. */
  lemma ModeEmptyAfterActivate(s: PluginState, allowedCCs: seq<Byte>, sink: seq<bool>, o: Outcome)
    requires WellFormed(s, allowedCCs) && Willing(sink, s)
    requires o == EmissionPass(ApplyRequest(Activated(s), ParseRequest("mode", [])), allowedCCs, sink)
    ensures Output(o) == [Cc(85, 2)] && Clean(o.state)
  {
    var a := Activated(s);
    ActivateResets(s, allowedCCs);
    var t := ApplyRequest(a, ParseRequest("mode", []));
    RequestOnClean(a, allowedCCs, "mode", []);
    OneActionRun(t, allowedCCs, sink, o, ActionIndex(Mode));
  }

  /** The block where bank '+' was requested and pot 1 moved to 100. */
  function BankStepAndPot(s: PluginState): PluginState
    requires |s.actions| == ActionCount && |s.updatedActions| == ActionCount
  {
    SetParameter(ApplyRequest(s, ParseRequest("bank", [PlusSign])), ParamPot1, 100)
  }

  /** A willing sink gets the bank step first, then pot 1's Control Change, and nothing stays pending. */
  lemma BankStepThenPot(s: PluginState, allowedCCs: seq<Byte>, sink: seq<bool>, o: Outcome)
    requires WellFormed(s, allowedCCs) && Clean(s) && Willing(sink, s)
    requires o == EmissionPass(BankStepAndPot(s), allowedCCs, sink)
    ensures Output(o) == [Cc(103, 0), Cc(20, 100)] && Clean(o.state)
  {
    var t := BankStepAndPot(s);
    RequestOnClean(s, allowedCCs, "bank", [PlusSign]);
    EmissionWithWillingSink(t, allowedCCs, sink, o);
    var ae := ActionEvents(t.actions);
    var pe := ParamEvents(t.params, allowedCCs);
    PendingOnly(ae, t.updatedActions, 0, ActionIndex(Bank));
    PendingOnly(pe, t.updatedParams, 0, ParamPot1);
    assert ae[0] == ActionEvent(Bank, PlusSign);
    assert pe[0] == Some(ParamEvent(ParamPot1, 100, allowedCCs));
  }

  /**
    When the sink refuses the bank step, the action loop stops with bank still
    pending, and pot 1 still goes out on the next write.
   */
  lemma BankRefusedThenPot(s: PluginState, allowedCCs: seq<Byte>, sink: seq<bool>, o: Outcome)
    requires WellFormed(s, allowedCCs) && Clean(s)
    requires |sink| >= 2 && !sink[0] && sink[1]
    requires o == EmissionPass(BankStepAndPot(s), allowedCCs, sink)
    ensures Output(o) == [Cc(20, 100)]
    ensures o.state.updatedActions[ActionIndex(Bank)] && !o.state.updatedParams[ParamPot1]
  {
    var t := BankStepAndPot(s);
    RequestOnClean(s, allowedCCs, "bank", [PlusSign]);
    var ae := ActionEvents(t.actions);
    var pe := ParamEvents(t.params, allowedCCs);
    assert ae[0] == ActionEvent(Bank, PlusSign);
    DrainStep(ae, t.updatedActions, sink, 0, 0);
    assert o.actionAttempts == [Attempt(0, Cc(103, 0), false)];
    assert pe[0] == Some(ParamEvent(ParamPot1, 100, allowedCCs));
    DrainStep(pe, t.updatedParams, sink, 0, 1);
    var rest := Drain(pe, t.updatedParams[0 := false], sink, 1, 2);
    DrainIdle(pe, t.updatedParams[0 := false], sink, 1, 2);
    assert o.paramAttempts == [Attempt(0, Cc(20, 100), true)];
  }

  /**
    The same block driven through the plugin object: construct it, request
    bank '+', move pot 1 to 100, then run two blocks with a willing host. The
    first block sends the bank step and pot 1; the second sends nothing.
   */
  method BankStepBlocks(allowedCCs: seq<Byte>) returns (first: seq<MidiEvent>, second: seq<MidiEvent>)
    ensures first == [Cc(103, 0), Cc(20, 100)]
    ensures second == []
  {
    var plugin := new AnagramControlPlugin(allowedCCs);
    plugin.SetState("bank", [PlusSign]);
    plugin.SetParameterValue(ParamPot1, 100);
    var sink := seq(ActionCount + ParamCount(allowedCCs), _ => true);
    ghost var before := plugin.State();
    assert before == BankStepAndPot(InitialState(allowedCCs));
    var actionAttempts, paramAttempts := plugin.Run(sink);
    BankStepThenPot(InitialState(allowedCCs), allowedCCs, sink, EmissionPass(before, allowedCCs, sink));
    first := Sent(actionAttempts) + Sent(paramAttempts);
    ghost var between := plugin.State();
    actionAttempts, paramAttempts := plugin.Run(sink);
    EmissionIdle(between, allowedCCs, sink, EmissionPass(between, allowedCCs, sink));
    second := Sent(actionAttempts) + Sent(paramAttempts);
  }
}
