/**
  The plugin's fixed tables: the discrete actions and the parameter layout,
  how a key/value request becomes an action payload, and which MIDI message
  each dirty action or parameter becomes.
 */
module Mapping {
  import opened Wrappers
  import opened Midi
  import opened CText

  // ------------------------------------------------------------------
  // Actions

  /** The discrete actions, in the order the emission pass visits them. */
  datatype Action = Bank | Preset | Scene | Mode | Tuner

  const ActionCount: nat := 5

  /** The action's slot in the payload and flag arrays. */
  function ActionIndex(a: Action): (i: nat)
    ensures i < ActionCount
  {
    match a
    case Bank => 0
    case Preset => 1
    case Scene => 2
    case Mode => 3
    case Tuner => 4
  }

  /** The action stored in slot `i`. */
  function ActionAt(i: nat): (a: Action)
    requires i < ActionCount
    ensures ActionIndex(a) == i
  {
    if i == 0 then Bank
    else if i == 1 then Preset
    else if i == 2 then Scene
    else if i == 3 then Mode
    else Tuner
  }

  const ModeDigitOne: Byte := 49  // '1'

  predicate IsSceneDigit(p: Int8) {
    DigitZero <= p <= DigitZero + 3
  }

  /**
    The mode value sent with CC 85: the payload minus '1', taken as an
    unsigned byte, then clamped to [0, 2]. Only '1' and '2' give 0 and 1;
    every other payload, '3' and the cleared payload 0 included, gives 2.
   */
  function ModeValue(p: Int8): (v: Byte)
    ensures v == if p == ModeDigitOne then 0 else if p == ModeDigitOne + 1 then 1 else 2
  {
    Clamp(Low8(p - ModeDigitOne), 0, 2)
  }

  /** The scene value sent with CC 107: the digit's value, clamped to [0, 3] as an unsigned byte. */
  function SceneValue(p: Int8): (v: Byte)
    requires IsSceneDigit(p)
    ensures v == p - DigitZero
  {
    Clamp(Low8(p - DigitZero), 0, 3)
  }

  /**
    The one event a dirty action with payload `p` becomes, or None for a scene
    payload that is neither a digit '0'..'3' nor '+' or '-' (the pass skips it).
   */
  function ActionEvent(a: Action, p: Int8): (r: Option<MidiEvent>)
    ensures r.None? <==> a == Scene && !(IsSceneDigit(p) || p == PlusSign || p == MinusSign)
    ensures r.Some? ==> IsChannelVoice(r.value)
    ensures r.Some? && r.value.data[0] == ProgramChange <==> a == Preset && p != PlusSign && p != MinusSign
  {
    match a
    case Bank =>
      if p == PlusSign then Some(Cc(103, 0))
      else if p == MinusSign then Some(Cc(104, 0))
      else Some(Cc(102, Low8(p)))
    case Preset =>
      if p == PlusSign then Some(Cc(105, 0))
      else if p == MinusSign then Some(Cc(106, 0))
      else Some(Pc(Low8(p)))
    case Scene =>
      if IsSceneDigit(p) then Some(Cc(107, SceneValue(p)))
      else if p == PlusSign then Some(Cc(108, 0))
      else if p == MinusSign then Some(Cc(109, 0))
      else None
    case Mode => Some(Cc(85, ModeValue(p)))
    case Tuner => Some(Cc(86, 0))
  }

  // ------------------------------------------------------------------
  // What the messages mean to the device

  datatype Step = Previous | Next

  datatype Command =
    | SelectBank(bank: Byte) | StepBank(step: Step)
    | SelectPreset(preset: Byte) | StepPreset(step: Step)
    | SelectScene(scene: Byte) | StepScene(step: Step)
    | SelectMode(mode: Byte) | ToggleTuner
    | Controller(cc: Byte, value: Byte)

  /**
    How the Anagram reads a channel-1 message: a Program Change selects a
    preset; a Control Change is read by its controller number.
   */
  function Interpret(e: MidiEvent): Option<Command> {
    if |e.data| == 2 && e.data[0] == ProgramChange then Some(SelectPreset(e.data[1]))
    else if |e.data| == 3 && e.data[0] == ControlChange then
      var cc, v := e.data[1], e.data[2];
      Some(
        if cc == 102 then SelectBank(v)
        else if cc == 103 then StepBank(Next)
        else if cc == 104 then StepBank(Previous)
        else if cc == 105 then StepPreset(Next)
        else if cc == 106 then StepPreset(Previous)
        else if cc == 107 then SelectScene(v)
        else if cc == 108 then StepScene(Next)
        else if cc == 109 then StepScene(Previous)
        else if cc == 85 then SelectMode(v)
        else if cc == 86 then ToggleTuner
        else Controller(cc, v))
    else None
  }

  /** The controller numbers the device reads as actions rather than as plain controllers. */
  predicate IsActionController(cc: Byte) {
    cc == 85 || cc == 86 || 102 <= cc <= 109
  }

  function StepOf(p: Int8): Step
    requires p == PlusSign || p == MinusSign
  {
    if p == PlusSign then Next else Previous
  }

  /**
    What a stored payload asks for: '+' and '-' are relative steps for bank,
    preset and scene; any other bank or preset payload is an absolute target;
    a scene digit selects that scene; a mode payload selects ModeValue(p).
   */
  function Intent(a: Action, p: Int8): Option<Command> {
    match a
    case Bank =>
      if p == PlusSign || p == MinusSign then Some(StepBank(StepOf(p))) else Some(SelectBank(Low8(p)))
    case Preset =>
      if p == PlusSign || p == MinusSign then Some(StepPreset(StepOf(p))) else Some(SelectPreset(Low8(p)))
    case Scene =>
      if IsSceneDigit(p) then Some(SelectScene(p - DigitZero))
      else if p == PlusSign || p == MinusSign then Some(StepScene(StepOf(p)))
      else None
    case Mode => Some(SelectMode(ModeValue(p)))
    case Tuner => Some(ToggleTuner)
  }

  /**
    The event emitted for an action is read by the device as exactly what its
    payload asks for; a relative step and the tuner toggle carry the value 0.
   */
  lemma ActionEventMeansIntent(a: Action, p: Int8)
    ensures ActionEvent(a, p).None? <==> Intent(a, p).None?
    ensures ActionEvent(a, p).Some? ==> Interpret(ActionEvent(a, p).value) == Intent(a, p)
    ensures a == Tuner || (a != Mode && (p == PlusSign || p == MinusSign)) ==>
      ActionEvent(a, p).Some? && ActionEvent(a, p).value == Cc(ActionEvent(a, p).value.data[1], 0)
  {
  }

  /** Two different actions never put the same message on the wire. */
  lemma ActionEventsDistinct(a: Action, p: Int8, b: Action, q: Int8)
    requires a != b && ActionEvent(a, p).Some? && ActionEvent(b, q).Some?
    ensures ActionEvent(a, p).value != ActionEvent(b, q).value
  {
    ActionEventMeansIntent(a, p);
    ActionEventMeansIntent(b, q);
  }

  // ------------------------------------------------------------------
  // Parameters

  /** Parameter layout: six pots, three foot switches, the expression pedal, then one slot per allowed CC. */
  const ParamPot1: nat := 0
  const ParamPot6: nat := 5
  const ParamFoot1: nat := 6
  const ParamFoot3: nat := 8
  const ParamExpPedal: nat := 9
  const ParamCCs: nat := 10

  /** Default values: pots start at 63, every other parameter at 0. */
  const PotDefault: int := 63

  function ParamCount(allowedCCs: seq<Byte>): nat {
    ParamCCs + |allowedCCs|
  }

  /** The controller number parameter `i` is sent on. */
  function ParamController(i: nat, allowedCCs: seq<Byte>): Byte
    requires i < ParamCount(allowedCCs)
  {
    if i <= ParamPot6 then 20 + i
    else if i <= ParamFoot3 then 17 + i - ParamFoot1
    else if i == ParamExpPedal then 89
    else allowedCCs[i - ParamCCs]
  }

  /** The Control Change a dirty parameter with stored value `value` becomes. */
  function ParamEvent(i: nat, value: int, allowedCCs: seq<Byte>): (e: MidiEvent)
    requires i < ParamCount(allowedCCs)
    ensures IsChannelVoice(e) && |e.data| == 3
    ensures 0 <= value <= 127 ==> e.data[2] == value && IsDataByte(e.data[2])
  {
    Cc(ParamController(i, allowedCCs), Low8(value))
  }

  /**
    Pot n (0-based) is sent on CC 20+n, foot switch k on CC 17+k, the pedal on
    CC 89, generic slot j on the j-th allowed CC, whatever the value; the ten
    fixed controllers are distinct and none is an action controller, so the
    device reads each fixed parameter event as a plain controller move.
   */
  lemma ParamEventMeaning(i: nat, value: int, allowedCCs: seq<Byte>)
    requires i < ParamCount(allowedCCs) && 0 <= value <= 127
    ensures ParamPot1 <= i <= ParamPot6 ==> ParamEvent(i, value, allowedCCs) == Cc(20 + (i - ParamPot1), value)
    ensures ParamFoot1 <= i <= ParamFoot3 ==> ParamEvent(i, value, allowedCCs) == Cc(17 + (i - ParamFoot1), value)
    ensures i == ParamExpPedal ==> ParamEvent(i, value, allowedCCs) == Cc(89, value)
    ensures ParamCCs <= i ==> ParamEvent(i, value, allowedCCs) == Cc(allowedCCs[i - ParamCCs], value)
    ensures i < ParamCCs ==> !IsActionController(ParamController(i, allowedCCs))
    ensures !IsActionController(ParamController(i, allowedCCs)) ==>
      Interpret(ParamEvent(i, value, allowedCCs)) == Some(Controller(ParamController(i, allowedCCs), value))
  {
  }

  lemma FixedControllersDistinct(i: nat, j: nat, allowedCCs: seq<Byte>)
    requires i < j < ParamCCs
    ensures ParamController(i, allowedCCs) != ParamController(j, allowedCCs)
  {
  }

  // ------------------------------------------------------------------
  // Requests (setState)

  /** A recognised request: the action whose flag it sets and the payload it stores, if any. */
  datatype Request = Request(action: Action, payload: Option<Int8>)

  /**
    The bank and preset payload: a leading '+' or '-' is stored as that
    character, anything else goes through atoi and is truncated to int8_t.
   */
  function RelativeOrAbsolute(value: seq<Byte>): Int8 {
    var c := FirstByte(value);
    if c == MinusSign || c == PlusSign then Wrap8(c) else Wrap8(Atoi(value))
  }

  /** The key setState recognises for each action. */
  function KeyName(a: Action): string {
    match a
    case Bank => "bank"
    case Preset => "preset"
    case Scene => "scene"
    case Mode => "mode"
    case Tuner => "tuner"
  }

  /** The request a key/value pair makes; None for a key the plugin does not know. */
  function ParseRequest(key: string, value: seq<Byte>): (r: Option<Request>)
    ensures r.Some? <==> key in {"bank", "preset", "scene", "mode", "tuner"}
    ensures r.Some? ==> KeyName(r.value.action) == key
    ensures r.Some? ==> (r.value.payload.None? <==> r.value.action == Tuner)
    ensures r.Some? && r.value.action in {Bank, Preset} ==> r.value.payload == Some(RelativeOrAbsolute(value))
    ensures r.Some? && r.value.action in {Scene, Mode} ==> r.value.payload == Some(Wrap8(FirstByte(value)))
  {
    if key == "bank" then Some(Request(Bank, Some(RelativeOrAbsolute(value))))
    else if key == "preset" then Some(Request(Preset, Some(RelativeOrAbsolute(value))))
    else if key == "scene" then Some(Request(Scene, Some(Wrap8(FirstByte(value)))))
    else if key == "mode" then Some(Request(Mode, Some(Wrap8(FirstByte(value)))))
    else if key == "tuner" then Some(Request(Tuner, None))
    else None
  }

  /** What a bank or preset request asks for, once parsed into its payload. */
  function RequestIntent(a: Action, value: seq<Byte>): Option<Command>
    requires a == Bank || a == Preset
  {
    Intent(a, RelativeOrAbsolute(value))
  }

  /** A value starting with '+' or '-' is a relative step, whatever follows. */
  lemma RelativeRequest(a: Action, value: seq<Byte>)
    requires a == Bank || a == Preset
    requires |value| > 0 && (value[0] == PlusSign || value[0] == MinusSign)
    ensures RequestIntent(a, value) ==
      Some(if a == Bank then StepBank(StepOf(value[0])) else StepPreset(StepOf(value[0])))
  {
  }

  /** A decimal number followed by anything but a digit is stored truncated to int8_t. */
  lemma DecimalPayload(n: nat, tail: seq<Byte>)
    requires |tail| == 0 || !IsDigit(tail[0])
    ensures RelativeOrAbsolute(Decimal(n) + tail) == Wrap8(n)
  {
    var s := Decimal(n) + tail;
    assert FirstByte(s) == Decimal(n)[0];
    assert SignedDecimal(n) == Decimal(n);
    AtoiOfDecimal(n, tail);
  }

  /**
    A decimal number n (followed by anything but a digit) selects bank or
    preset n modulo 256; when n modulo 256 is the code of '+' (43) or '-' (45)
    it is indistinguishable from a relative step and is read as one.
   */
  lemma AbsoluteRequest(a: Action, n: nat, tail: seq<Byte>)
    requires a == Bank || a == Preset
    requires |tail| == 0 || !IsDigit(tail[0])
    ensures RequestIntent(a, Decimal(n) + tail) ==
      if Low8(n) == PlusSign then Some(if a == Bank then StepBank(Next) else StepPreset(Next))
      else if Low8(n) == MinusSign then Some(if a == Bank then StepBank(Previous) else StepPreset(Previous))
      else Some(if a == Bank then SelectBank(Low8(n)) else SelectPreset(Low8(n)))
  {
    DecimalPayload(n, tail);
    var p := Wrap8(n);
    SameLowByte(n);
    assert RequestIntent(a, Decimal(n) + tail) == Intent(a, p);
  }

  /** Truncating to int8_t and then reading the result as uint8_t is truncating to uint8_t. */
  lemma SameLowByte(x: int)
    ensures Low8(Wrap8(x)) == Low8(x)
    ensures Wrap8(x) == PlusSign <==> Low8(x) == PlusSign
    ensures Wrap8(x) == MinusSign <==> Low8(x) == MinusSign
  {
    var p := Wrap8(x);
    assert p == (x + 128) % 256 - 128;
    assert Low8(x) == x % 256;
    if p < 0 {
      assert (x + 128) % 256 < 128;
      assert x % 256 == (x + 128) % 256 + 128;
    } else {
      assert x % 256 == (x + 128) % 256 - 128;
    }
  }
}
