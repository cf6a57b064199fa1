/**
  What one call of run does, stated about EmissionPass, and what the other
  entry points promise, stated about their state functions.
 */
module PluginProperties {
  import opened Wrappers
  import opened Midi
  import opened CText
  import opened Mapping
  import opened Emission
  import opened Plugin

  /** An entry point that sets a parameter changes that parameter and its flag and nothing else. */
  lemma SetThenGet(s: PluginState, allowedCCs: seq<Byte>, index: nat, rounded: int)
    requires WellFormed(s, allowedCCs)
    ensures var t := SetParameter(s, index, rounded);
      WellFormed(t, allowedCCs) &&
      ParameterValue(t, index) == (if index < |s.params| then Clamp(rounded, 0, 127) else 0) &&
      (index < |s.params| ==> t.updatedParams[index]) &&
      (forall j :: 0 <= j < |s.params| && j != index ==>
        t.params[j] == s.params[j] && t.updatedParams[j] == s.updatedParams[j]) &&
      t.actions == s.actions && t.updatedActions == s.updatedActions
    ensures index >= |s.params| ==> SetParameter(s, index, rounded) == s
  {
  }

  /**
    A request sets only its own action's flag and, unless it is the tuner, its
    payload; an unknown key changes nothing; parameters are never touched.
   */
  lemma RequestTouchesOnlyItsAction(s: PluginState, allowedCCs: seq<Byte>, key: string, value: seq<Byte>)
    requires WellFormed(s, allowedCCs)
    ensures var r := ParseRequest(key, value);
      var t := ApplyRequest(s, r);
      WellFormed(t, allowedCCs) && t.params == s.params && t.updatedParams == s.updatedParams &&
      (r.None? ==> t == s) &&
      (r.Some? ==>
        var i := ActionIndex(r.value.action);
        t.updatedActions[i] &&
        t.actions[i] == (if r.value.payload.Some? then r.value.payload.value else s.actions[i]) &&
        forall j :: 0 <= j < ActionCount && j != i ==>
          t.actions[j] == s.actions[j] && t.updatedActions[j] == s.updatedActions[j])
  {
  }

  /** activate clears every flag and payload and keeps every parameter value. */
  lemma ActivateResets(s: PluginState, allowedCCs: seq<Byte>)
    requires WellFormed(s, allowedCCs)
    ensures var t := Activated(s);
      WellFormed(t, allowedCCs) && t.params == s.params && Clean(t) &&
      forall j :: 0 <= j < ActionCount ==> t.actions[j] == 0 && !t.updatedActions[j]
  {
  }

  /** With nothing dirty, run offers nothing and changes nothing. */
  lemma EmissionIdle(s: PluginState, allowedCCs: seq<Byte>, sink: seq<bool>, o: Outcome)
    requires WellFormed(s, allowedCCs) && Clean(s)
    requires o == EmissionPass(s, allowedCCs, sink)
    ensures o.state == s && o.actionAttempts == [] && o.paramAttempts == [] && Output(o) == []
  {
    DrainIdle(ActionEvents(s.actions), s.updatedActions, sink, 0, 0);
    DrainIdle(ParamEvents(s.params, allowedCCs), s.updatedParams, sink, 0, 0);
  }

  /** After activate, run is silent, whatever the sink. */
  lemma ActivateSilences(s: PluginState, allowedCCs: seq<Byte>, sink: seq<bool>)
    requires WellFormed(s, allowedCCs)
    ensures WellFormed(Activated(s), allowedCCs)
    ensures Output(EmissionPass(Activated(s), allowedCCs, sink)) == []
  {
    EmissionIdle(Activated(s), allowedCCs, sink, EmissionPass(Activated(s), allowedCCs, sink));
  }

  lemma ActionEventAt(actions: seq<Int8>, i: nat)
    requires |actions| == ActionCount && i < ActionCount
    ensures ActionEvents(actions)[i] == ActionEvent(ActionAt(i), actions[i])
  {
  }

  /**
    The action writes of a run: Bank, Preset, Scene, Mode, Tuner in that
    order, one per dirty action that has an event, none passed over until
    the write that ends the loop, each a frame-0 Control or Program Change;
    the t-th write gets the sink's t-th answer, and only the last can be
    refused.
   */
  lemma ActionWrites(s: PluginState, allowedCCs: seq<Byte>, sink: seq<bool>, o: Outcome)
    requires WellFormed(s, allowedCCs)
    requires o == EmissionPass(s, allowedCCs, sink)
    ensures forall t :: 0 <= t < |o.actionAttempts| ==>
      var a := o.actionAttempts[t];
      a.index < ActionCount && s.updatedActions[a.index] &&
      ActionEvent(ActionAt(a.index), s.actions[a.index]) == Some(a.event) &&
      IsChannelVoice(a.event) && a.accepted == Accepts(sink, t)
    ensures forall t, u :: 0 <= t < u < |o.actionAttempts| ==>
      o.actionAttempts[t].index < o.actionAttempts[u].index
    ensures forall t :: 0 <= t < |o.actionAttempts| - 1 ==> o.actionAttempts[t].accepted
    ensures forall j :: 0 <= j < ActionCount && s.updatedActions[j] && ActionEvent(ActionAt(j), s.actions[j]).Some? ==>
      |o.actionAttempts| > 0 && o.actionAttempts[0].index <= j
    ensures forall t, j ::
      (0 <= t < |o.actionAttempts| - 1 && j < ActionCount &&
       o.actionAttempts[t].index < j < o.actionAttempts[t + 1].index) ==>
      !(s.updatedActions[j] && ActionEvent(ActionAt(j), s.actions[j]).Some?)
    ensures forall j ::
      (0 <= j < ActionCount && s.updatedActions[j] && ActionEvent(ActionAt(j), s.actions[j]).Some? &&
       |o.actionAttempts| > 0 && o.actionAttempts[|o.actionAttempts| - 1].index < j) ==>
      EndedByRefusal(o.actionAttempts)
  {
    EmissionLoops(s, allowedCCs, sink);
    var ae := ActionEvents(s.actions);
    DrainAttempts(ae, s.updatedActions, sink, 0, 0);
    DrainFirst(ae, s.updatedActions, sink, 0, 0);
    DrainBetween(ae, s.updatedActions, sink, 0, 0);
    DrainAfterLast(ae, s.updatedActions, sink, 0, 0);
    forall j | 0 <= j < ActionCount
      ensures ae[j] == ActionEvent(ActionAt(j), s.actions[j])
    {
      ActionEventAt(s.actions, j);
    }
    forall t | 0 <= t < |o.actionAttempts|
      ensures var a := o.actionAttempts[t];
        a.index < ActionCount && s.updatedActions[a.index] &&
        ActionEvent(ActionAt(a.index), s.actions[a.index]) == Some(a.event) &&
        IsChannelVoice(a.event) && a.accepted == Accepts(sink, t)
    {
      DrainAttemptAt(ae, s.updatedActions, sink, 0, 0, t);
      ActionEventAt(s.actions, o.actionAttempts[t].index);
    }
  }

  /** The parameter loop skips no dirty parameter before the write that ends it. */
  lemma BindingNoSkips(s: PluginState, allowedCCs: seq<Byte>, sink: seq<bool>, o: Outcome)
    requires WellFormed(s, allowedCCs)
    requires o == EmissionPass(s, allowedCCs, sink)
    ensures forall j :: 0 <= j < |s.params| && s.updatedParams[j] ==>
      |o.paramAttempts| > 0 && o.paramAttempts[0].index <= j
    ensures forall t, j ::
      (0 <= t < |o.paramAttempts| - 1 && j < |s.params| &&
       o.paramAttempts[t].index < j < o.paramAttempts[t + 1].index) ==>
      !s.updatedParams[j]
    ensures forall j ::
      (0 <= j < |s.params| && s.updatedParams[j] &&
       |o.paramAttempts| > 0 && o.paramAttempts[|o.paramAttempts| - 1].index < j) ==>
      EndedByRefusal(o.paramAttempts)
  {
    EmissionLoops(s, allowedCCs, sink);
    var pe := ParamEvents(s.params, allowedCCs);
    var k := |o.actionAttempts|;
    DrainFirst(pe, s.updatedParams, sink, 0, k);
    DrainBetween(pe, s.updatedParams, sink, 0, k);
    DrainAfterLast(pe, s.updatedParams, sink, 0, k);
    forall j | 0 <= j < |s.params|
      ensures pe[j].Some?
    {
      assert pe[j] == Some(ParamEvent(j, s.params[j], allowedCCs));
    }
  }

  /**
    The parameter writes of a run, after the action writes: in index order,
    each from a dirty parameter, at most one per parameter (BindingNoSkips
    says none is passed over), each a frame-0
    Control Change on that parameter's controller carrying its stored value;
    they take the sink's answers right after the action writes', and only the
    last can be refused.
   */
  lemma BindingWrites(s: PluginState, allowedCCs: seq<Byte>, sink: seq<bool>, o: Outcome)
    requires WellFormed(s, allowedCCs)
    requires o == EmissionPass(s, allowedCCs, sink)
    ensures forall t :: 0 <= t < |o.paramAttempts| ==>
      var a := o.paramAttempts[t];
      a.index < |s.params| && s.updatedParams[a.index] &&
      a.event == Cc(ParamController(a.index, allowedCCs), s.params[a.index]) &&
      IsChannelVoice(a.event) && a.accepted == Accepts(sink, |o.actionAttempts| + t)
    ensures forall t, u :: 0 <= t < u < |o.paramAttempts| ==>
      o.paramAttempts[t].index < o.paramAttempts[u].index
    ensures forall t :: 0 <= t < |o.paramAttempts| - 1 ==> o.paramAttempts[t].accepted
  {
    EmissionLoops(s, allowedCCs, sink);
    var pe := ParamEvents(s.params, allowedCCs);
    var k := |o.actionAttempts|;
    DrainAttempts(pe, s.updatedParams, sink, 0, k);
    forall t | 0 <= t < |o.paramAttempts|
      ensures var a := o.paramAttempts[t];
        a.index < |s.params| && s.updatedParams[a.index] &&
        a.event == Cc(ParamController(a.index, allowedCCs), s.params[a.index]) &&
        IsChannelVoice(a.event) && a.accepted == Accepts(sink, k + t)
    {
      DrainAttemptAt(pe, s.updatedParams, sink, 0, k, t);
      var i := o.paramAttempts[t].index;
      assert pe[i] == Some(ParamEvent(i, s.params[i], allowedCCs));
    }
  }

  /**
    An entry is dirty after run exactly when it was dirty before and the sink
    did not accept a write from it: an accepted write clears exactly its own
    entry, and nothing else is cleared.
   */
  lemma EmissionFlags(s: PluginState, allowedCCs: seq<Byte>, sink: seq<bool>, o: Outcome)
    requires WellFormed(s, allowedCCs)
    requires o == EmissionPass(s, allowedCCs, sink)
    ensures (forall j :: 0 <= j < ActionCount ==>
        o.state.updatedActions[j] == (s.updatedActions[j] && !Written(o.actionAttempts, j))) &&
      (forall j :: 0 <= j < |s.params| ==>
        o.state.updatedParams[j] == (s.updatedParams[j] && !Written(o.paramAttempts, j)))
  {
    var ae := ActionEvents(s.actions);
    var a := Drain(ae, s.updatedActions, sink, 0, 0);
    DrainFlags(ae, s.updatedActions, sink, 0, 0);
    DrainFlags(ParamEvents(s.params, allowedCCs), s.updatedParams, sink, 0, |a.attempts|);
  }

  /**
    A refusal ends only its own loop: the refused entry and every later entry
    of that loop stay dirty, and a refusal in the action loop does not stop the
    parameter loop, whose first write takes the sink's next answer.
   */
  lemma EmissionRefusal(s: PluginState, allowedCCs: seq<Byte>, sink: seq<bool>, o: Outcome)
    requires WellFormed(s, allowedCCs)
    requires o == EmissionPass(s, allowedCCs, sink)
    ensures EndedByRefusal(o.actionAttempts) ==>
        forall j :: o.actionAttempts[|o.actionAttempts| - 1].index <= j < ActionCount ==>
          o.state.updatedActions[j] == s.updatedActions[j]
    ensures EndedByRefusal(o.paramAttempts) ==>
        forall j :: o.paramAttempts[|o.paramAttempts| - 1].index <= j < |s.params| ==>
          o.state.updatedParams[j] == s.updatedParams[j]
    ensures (exists j :: 0 <= j < |s.params| && s.updatedParams[j]) ==>
        |o.paramAttempts| > 0 && o.paramAttempts[0].accepted == Accepts(sink, |o.actionAttempts|)
  {
    var ae := ActionEvents(s.actions);
    var pe := ParamEvents(s.params, allowedCCs);
    var a := Drain(ae, s.updatedActions, sink, 0, 0);
    DrainRefusal(ae, s.updatedActions, sink, 0, 0);
    DrainRefusal(pe, s.updatedParams, sink, 0, |a.attempts|);
    if j :| 0 <= j < |s.params| && s.updatedParams[j] {
      DrainOffers(pe, s.updatedParams, sink, 0, |a.attempts|, j);
    }
  }

  /**
    A dirty scene whose payload is not '0'..'3', '+' or '-' is never written
    and never cleared: it stays dirty through every run until a new request or
    activate replaces it.
   */
  lemma InvalidSceneStaysDirty(s: PluginState, allowedCCs: seq<Byte>, sink: seq<bool>, o: Outcome)
    requires WellFormed(s, allowedCCs)
    requires o == EmissionPass(s, allowedCCs, sink)
    requires ActionEvent(Scene, s.actions[ActionIndex(Scene)]).None?
    ensures o.state.updatedActions[ActionIndex(Scene)] == s.updatedActions[ActionIndex(Scene)] &&
      forall t :: 0 <= t < |o.actionAttempts| ==> o.actionAttempts[t].index != ActionIndex(Scene)
  {
    var ae := ActionEvents(s.actions);
    DrainSkips(ae, s.updatedActions, sink, 0, 0);
    DrainAttempts(ae, s.updatedActions, sink, 0, 0);
  }

  /**
    With a sink that accepts every write of the block, run sends the pending
    action events in action order followed by the pending parameter events in
    index order, and leaves dirty only the scene entries it had to skip.
   */
  lemma EmissionWithWillingSink(s: PluginState, allowedCCs: seq<Byte>, sink: seq<bool>, o: Outcome)
    requires WellFormed(s, allowedCCs)
    requires o == EmissionPass(s, allowedCCs, sink)
    requires forall m :: 0 <= m < ActionCount + |s.params| ==> Accepts(sink, m)
    ensures Output(o) == Pending(ActionEvents(s.actions), s.updatedActions, 0) +
                   Pending(ParamEvents(s.params, allowedCCs), s.updatedParams, 0)
    ensures (forall j :: 0 <= j < ActionCount ==>
        o.state.updatedActions[j] == (s.updatedActions[j] && ActionEvent(ActionAt(j), s.actions[j]).None?)) &&
      (forall j :: 0 <= j < |s.params| ==> !o.state.updatedParams[j])
  {
    var ae := ActionEvents(s.actions);
    var pe := ParamEvents(s.params, allowedCCs);
    var a := Drain(ae, s.updatedActions, sink, 0, 0);
    NoRefusal(ae, s.updatedActions, sink, 0, 0);
    NoRefusal(pe, s.updatedParams, sink, 0, |a.attempts|);
    DrainSendsPending(ae, s.updatedActions, sink, 0, 0);
    DrainSendsPending(pe, s.updatedParams, sink, 0, |a.attempts|);
    DrainComplete(ae, s.updatedActions, sink, 0, 0);
    DrainComplete(pe, s.updatedParams, sink, 0, |a.attempts|);
  }

  /**
    A sink that refuses every write leaves the whole state as it was, so the
    same dirty set is offered again, in the same order, on the next run.
   */
  lemma RefusingSinkKeepsState(s: PluginState, allowedCCs: seq<Byte>, sink: seq<bool>, o: Outcome)
    requires WellFormed(s, allowedCCs)
    requires o == EmissionPass(s, allowedCCs, sink)
    requires forall m :: 0 <= m < ActionCount + |s.params| ==> !Accepts(sink, m)
    ensures o.state == s && Output(o) == []
  {
    EmissionLoops(s, allowedCCs, sink);
    var k := |ActionPass(s, sink).attempts|;
    DrainRefused(ActionEvents(s.actions), s.updatedActions, sink, 0, 0);
    DrainRefused(ParamEvents(s.params, allowedCCs), s.updatedParams, sink, 0, k);
  }
}
