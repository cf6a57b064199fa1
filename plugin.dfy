/**
  The AnagramControlPlugin: parameter values and action payloads with their
  dirty flags, the entry points that set them, and the per-block pass that
  turns dirty entries into MIDI messages.

  Each entry point is specified by a function on the plugin's state as a value
  (PluginState); the class's methods update the arrays in place and promise
  that the new state is that function of the old one.
 */
module Plugin {
  import opened Wrappers
  import opened Midi
  import opened CText
  import opened Mapping
  import opened Emission

  // ------------------------------------------------------------------
  // The state as a value, and each entry point as a function of it

  /** The four arrays of the plugin. */
  datatype PluginState = PluginState(
    params: seq<int>,
    updatedParams: seq<bool>,
    actions: seq<Int8>,
    updatedActions: seq<bool>)

  /** Array sizes, and every parameter value a valid 7-bit data byte. */
  predicate WellFormed(s: PluginState, allowedCCs: seq<Byte>) {
    |s.params| == ParamCount(allowedCCs) && |s.updatedParams| == |s.params| &&
    |s.actions| == ActionCount && |s.updatedActions| == ActionCount &&
    forall j :: 0 <= j < |s.params| ==> 0 <= s.params[j] <= 127
  }

  /** Nothing is waiting to be sent. */
  predicate Clean(s: PluginState) {
    (forall j :: 0 <= j < |s.updatedParams| ==> !s.updatedParams[j]) &&
    (forall j :: 0 <= j < |s.updatedActions| ==> !s.updatedActions[j])
  }

  /** The state right after construction. */
  function InitialState(allowedCCs: seq<Byte>): (s: PluginState)
    ensures WellFormed(s, allowedCCs) && Clean(s)
  {
    var n := ParamCount(allowedCCs);
    PluginState(
      seq(n, j => if ParamPot1 <= j <= ParamPot6 then PotDefault else 0),
      seq(n, j => false),
      seq(ActionCount, j => 0),
      seq(ActionCount, j => false))
  }

  /** getParameterValue: the stored value, or 0 for an index out of range. */
  function ParameterValue(s: PluginState, index: nat): int {
    if index < |s.params| then s.params[index] else 0
  }

  /**
    setParameterValue, given the value already rounded to an integer: clamp it
    to [0, 127], store it and mark the parameter dirty; an index out of range
    changes nothing.
   */
  function SetParameter(s: PluginState, index: nat, rounded: int): PluginState {
    if index < |s.params| && index < |s.updatedParams| then
      s.(params := s.params[index := Clamp(rounded, 0, 127)],
         updatedParams := s.updatedParams[index := true])
    else s
  }

  /** setState: store the request's payload, if it has one, and mark its action dirty. */
  function ApplyRequest(s: PluginState, r: Option<Request>): PluginState
    requires |s.actions| == ActionCount && |s.updatedActions| == ActionCount
  {
    match r
    case None => s
    case Some(Request(a, payload)) =>
      s.(actions := if payload.Some? then s.actions[ActionIndex(a) := payload.value] else s.actions,
         updatedActions := s.updatedActions[ActionIndex(a) := true])
  }

  /** activate: clear every flag and every action payload; parameter values stay. */
  function Activated(s: PluginState): (t: PluginState)
    ensures Clean(t)
  {
    PluginState(
      s.params,
      seq(|s.updatedParams|, j => false),
      seq(|s.actions|, j => 0),
      seq(|s.updatedActions|, j => false))
  }

  /** The event (or None) each action slot becomes with the stored payloads. */
  function ActionEvents(actions: seq<Int8>): seq<Option<MidiEvent>>
    requires |actions| == ActionCount
  {
    seq(ActionCount, i requires 0 <= i < ActionCount => ActionEvent(ActionAt(i), actions[i]))
  }

  /** The event each parameter becomes with the stored values; every parameter has one. */
  function ParamEvents(params: seq<int>, allowedCCs: seq<Byte>): seq<Option<MidiEvent>>
    requires |params| == ParamCount(allowedCCs)
  {
    seq(|params|, i requires 0 <= i < |params| => Some(ParamEvent(i, params[i], allowedCCs)))
  }

  /** What one run call leaves behind and offers to the sink, loop by loop. */
  datatype Outcome = Outcome(state: PluginState, actionAttempts: seq<Attempt>, paramAttempts: seq<Attempt>)

  /** The action loop of run over the state's actions, from the sink's first answer. */
  function ActionPass(s: PluginState, sink: seq<bool>): Pass
    requires |s.actions| == ActionCount && |s.updatedActions| == ActionCount
  {
    Drain(ActionEvents(s.actions), s.updatedActions, sink, 0, 0)
  }

  /** The parameter loop of run, whose first write gets the sink's k-th answer. */
  function BindingPass(s: PluginState, allowedCCs: seq<Byte>, sink: seq<bool>, k: nat): Pass
    requires WellFormed(s, allowedCCs)
  {
    Drain(ParamEvents(s.params, allowedCCs), s.updatedParams, sink, 0, k)
  }

  /**
    run: the action loop, then the parameter loop. The parameter loop runs
    whatever the action loop did, and its writes take the sink's next answers.
   */
  function EmissionPass(s: PluginState, allowedCCs: seq<Byte>, sink: seq<bool>): (o: Outcome)
    requires WellFormed(s, allowedCCs)
    ensures WellFormed(o.state, allowedCCs)
    ensures o.state.params == s.params && o.state.actions == s.actions
  {
    Outcome(
      s.(updatedActions := ActionPass(s, sink).flags,
         updatedParams := BindingPass(s, allowedCCs, sink, |ActionPass(s, sink).attempts|).flags),
      ActionPass(s, sink).attempts,
      BindingPass(s, allowedCCs, sink, |ActionPass(s, sink).attempts|).attempts)
  }

  /** The two loops of run, as they appear in its outcome. */
  lemma EmissionLoops(s: PluginState, allowedCCs: seq<Byte>, sink: seq<bool>)
    requires WellFormed(s, allowedCCs)
    ensures var o := EmissionPass(s, allowedCCs, sink);
      var k := |ActionPass(s, sink).attempts|;
      o.actionAttempts == ActionPass(s, sink).attempts &&
      o.paramAttempts == BindingPass(s, allowedCCs, sink, k).attempts &&
      o.state.updatedActions == ActionPass(s, sink).flags &&
      o.state.updatedParams == BindingPass(s, allowedCCs, sink, k).flags
  {
  }

  /** The events the sink accepted, in the order they were written. */
  function Output(o: Outcome): seq<MidiEvent> {
    Sent(o.actionAttempts) + Sent(o.paramAttempts)
  }

  // ------------------------------------------------------------------
  // The plugin object

  class AnagramControlPlugin {
    /** The allow-listed CC numbers of the generic parameter slots. */
    const allowedCCs: seq<Byte>

    const params: array<int>
    const updatedParams: array<bool>
    const actions: array<Int8>
    const updatedActions: array<bool>

    ghost predicate Valid()
      reads this, params
    {
      params.Length == ParamCount(allowedCCs) && updatedParams.Length == params.Length &&
      actions.Length == ActionCount && updatedActions.Length == ActionCount &&
      updatedParams != updatedActions &&
      forall j :: 0 <= j < params.Length ==> 0 <= params[j] <= 127
    }

    ghost function State(): PluginState
      reads this, params, updatedParams, actions, updatedActions
    {
      PluginState(params[..], updatedParams[..], actions[..], updatedActions[..])
    }

    /** Every array zeroed, then the pots set to their default 63. */
    constructor (allowedCCs: seq<Byte>)
      ensures Valid() && this.allowedCCs == allowedCCs
      ensures fresh(params) && fresh(updatedParams) && fresh(actions) && fresh(updatedActions)
      ensures State() == InitialState(allowedCCs)
    {
      this.allowedCCs := allowedCCs;
      var n := ParamCount(allowedCCs);
      params := new int[n](j => 0);
      updatedParams := new bool[n](j => false);
      actions := new Int8[ActionCount](j => 0);
      updatedActions := new bool[ActionCount](j => false);
      new;
      for i := ParamPot1 to ParamPot6 + 1
        invariant forall j :: 0 <= j < n ==> params[j] == if ParamPot1 <= j < i then PotDefault else 0
        invariant updatedParams[..] == seq(n, j => false)
        invariant actions[..] == seq(ActionCount, j => 0)
        invariant updatedActions[..] == seq(ActionCount, j => false)
      {
        params[i] := PotDefault;
      }
      assert params[..] == InitialState(allowedCCs).params;
    }

    method GetParameterValue(index: nat) returns (v: int)
      requires Valid()
      ensures v == ParameterValue(State(), index)
      ensures 0 <= v <= 127
      ensures index >= params.Length ==> v == 0
    {
      if index >= params.Length {
        return 0;
      }
      v := params[index];
    }

    method SetParameterValue(index: nat, rounded: int)
      requires Valid()
      modifies params, updatedParams
      ensures Valid()
      ensures State() == SetParameter(old(State()), index, rounded)
    {
      if index >= params.Length {
        return;
      }
      params[index] := Clamp(rounded, 0, 127);
      updatedParams[index] := true;
    }

    method SetState(key: string, value: seq<Byte>)
      requires Valid()
      modifies actions, updatedActions
      ensures Valid()
      ensures State() == ApplyRequest(old(State()), ParseRequest(key, value))
    {
      if key == "bank" {
        var c := FirstByte(value);
        if c == MinusSign || c == PlusSign {
          actions[ActionIndex(Bank)] := Wrap8(c);
        } else {
          actions[ActionIndex(Bank)] := Wrap8(Atoi(value));
        }
        updatedActions[ActionIndex(Bank)] := true;
      } else if key == "preset" {
        var c := FirstByte(value);
        if c == MinusSign || c == PlusSign {
          actions[ActionIndex(Preset)] := Wrap8(c);
        } else {
          actions[ActionIndex(Preset)] := Wrap8(Atoi(value));
        }
        updatedActions[ActionIndex(Preset)] := true;
      } else if key == "scene" {
        actions[ActionIndex(Scene)] := Wrap8(FirstByte(value));
        updatedActions[ActionIndex(Scene)] := true;
      } else if key == "mode" {
        actions[ActionIndex(Mode)] := Wrap8(FirstByte(value));
        updatedActions[ActionIndex(Mode)] := true;
      } else if key == "tuner" {
        updatedActions[ActionIndex(Tuner)] := true;
      }
    }

    method Activate()
      requires Valid()
      modifies updatedParams, updatedActions, actions
      ensures Valid()
      ensures State() == Activated(old(State()))
    {
      forall j | 0 <= j < updatedParams.Length {
        updatedParams[j] := false;
      }
      forall j | 0 <= j < updatedActions.Length {
        updatedActions[j] := false;
      }
      forall j | 0 <= j < actions.Length {
        actions[j] := 0;
      }
    }

    /**
      One processing block. `sink[k]` is the answer of the host's event output
      to the k-th write of the block; the writes offered are returned loop by loop.
     */
    method Run(sink: seq<bool>) returns (actionAttempts: seq<Attempt>, paramAttempts: seq<Attempt>)
      requires Valid()
      modifies updatedActions, updatedParams
      ensures Valid()
      ensures var o := EmissionPass(old(State()), allowedCCs, sink);
        State() == o.state && actionAttempts == o.actionAttempts && paramAttempts == o.paramAttempts
    {
      actionAttempts := RunActions(sink);
      paramAttempts := RunBindings(sink, |actionAttempts|);
    }

    /** The action loop of run: Bank, Preset, Scene, Mode, Tuner. */
    method RunActions(sink: seq<bool>) returns (attempts: seq<Attempt>)
      requires Valid()
      modifies updatedActions
      ensures Valid()
      ensures var p := Drain(ActionEvents(actions[..]), old(updatedActions[..]), sink, 0, 0);
        updatedActions[..] == p.flags && attempts == p.attempts
    {
      ghost var flags0 := updatedActions[..];
      ghost var events := ActionEvents(actions[..]);
      attempts := [];
      ResumeStart(events, flags0, sink, 0);
      for i := 0 to ActionCount
        invariant Resumes(events, flags0, sink, 0, updatedActions[..], i, attempts)
      {
        ResumeStep(events, flags0, sink, 0, updatedActions[..], i, attempts);
        if !updatedActions[i] {
          continue;
        }
        var event := ActionEvent(ActionAt(i), actions[i]);
        assert event == events[i];
        if event.None? {
          continue;
        }
        var accepted := Accepts(sink, |attempts|);
        attempts := attempts + [Attempt(i, event.value, accepted)];
        if !accepted {
          return;
        }
        updatedActions[i] := false;
      }
      ResumeEnd(events, flags0, sink, 0, updatedActions[..], attempts);
    }

    /** The bindings loop of run: every parameter in index order, after `written` writes this block. */
    method RunBindings(sink: seq<bool>, written: nat) returns (attempts: seq<Attempt>)
      requires Valid()
      modifies updatedParams
      ensures Valid()
      ensures var p := Drain(ParamEvents(params[..], allowedCCs), old(updatedParams[..]), sink, 0, written);
        updatedParams[..] == p.flags && attempts == p.attempts
    {
      ghost var flags0 := updatedParams[..];
      ghost var events := ParamEvents(params[..], allowedCCs);
      attempts := [];
      ResumeStart(events, flags0, sink, written);
      for i := 0 to params.Length
        invariant Resumes(events, flags0, sink, written, updatedParams[..], i, attempts)
      {
        ResumeStep(events, flags0, sink, written, updatedParams[..], i, attempts);
        if !updatedParams[i] {
          continue;
        }
        var event := ParamEvent(i, params[i], allowedCCs);
        var accepted := Accepts(sink, written + |attempts|);
        attempts := attempts + [Attempt(i, event, accepted)];
        if !accepted {
          return;
        }
        updatedParams[i] := false;
      }
      ResumeEnd(events, flags0, sink, written, updatedParams[..], attempts);
    }
  }
}
