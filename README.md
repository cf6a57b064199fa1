# Anagram MIDI Control: the plugin's MIDI emission core in Dafny

`AnagramControlPlugin` drives a Darkglass Anagram over MIDI channel 1. The
host sets it in two ways. It sets integer parameters (six pots, three foot
switches, the expression pedal and one slot per allow-listed controller). It
also sends key/value requests: `bank`, `preset`, `scene`, `mode` and `tuner`.
Each change stores a value and raises a dirty flag. Once per processing
block, `run` turns every dirty entry into one message at frame 0. It visits
the actions first (Bank, Preset, Scene, Mode, Tuner), then the parameters in
index order. A message the host's output accepts clears its entry's flag. A
refused message ends that loop, and its entry stays dirty for the next block.

The model has eight modules:

- `Wrappers` (midi.dfy): the `Option` type the other modules share.
- `Midi` (midi.dfy): bytes, `int8_t`, the two truncating conversions
  (`Low8`, `Wrap8`), `std::clamp`, and the Control Change and Program Change
  events.
- `CText` (ctext.dfy): C strings as their bytes before the NUL, `value[0]`,
  and `std::atoi`.
- `Mapping` (mapping.dfy): the action and parameter tables, how a request
  becomes a payload, and which message each dirty entry becomes. It also has
  an independent reference for the messages: `Interpret`, how the device reads
  a message, and `Intent`, what a payload asks for.
- `Emission` (emission.dfy): one loop of `run` as a recursive function,
  `Drain`, plus closed-form lemmas about it. The host's output is an oracle:
  `sink[k]` is its answer to the k-th write of the block, and a write past
  the end of `sink` is refused.
- `Plugin` (plugin.dfy): the state as a value (`PluginState`), each entry
  point as a function of it, and the class `AnagramControlPlugin`. The class
  keeps the four arrays of the source. Each method updates them in place and
  is proved to leave the state that its function gives.
- `PluginProperties` (properties.dfy): what one `run` does, and what the
  other entry points promise.
- `Scenarios` (scenarios.dfy): worked blocks. One is driven through the class
  itself (`BankStepBlocks`).

A refusal in the action loop (`break` at src/AnagramControlPlugin.cpp:307)
ends only that loop. The parameter loop still runs and takes the host's next
answers (`EmissionRefusal`, `BankRefusedThenPot`). A host that refuses every
write changes nothing (`RefusingSinkKeepsState`).

The model keeps several quirks of the source as they are:

- A bank or preset number whose low byte is 43 or 45 (the codes of `+` and
  `-`) is sent as a step, not as a select (`BankNumber`, `AbsoluteRequest`).
- Numbers are stored truncated to `int8_t`. A bank or preset number from 128
  to 255 is sent as that byte, which is not a valid MIDI data byte.
- For mode, the payload minus `'1'` is taken as an unsigned byte before the
  clamp. So `'0'` and the cleared payload 0 both select mode 2
  (`ModeValue`, `ModeEmptyAfterActivate`).
- A scene payload other than `'0'`..`'3'`, `+` or `-` is skipped without being
  cleared. It stays dirty until a new request or `activate` replaces it
  (`InvalidSceneStaysDirty`, `SceneOutOfRange`).

## Model

| member | source | states |
|---|---|---|
| Midi.Low8 | src/AnagramControlPlugin.cpp:245 | an `int8_t` payload stored in a `uint8_t` event byte becomes the byte congruent to it modulo 256 |
| Midi.Wrap8 | src/AnagramControlPlugin.cpp:172 | the `int` atoi returns, stored in `int8_t`, stays congruent modulo 256 and is unchanged when already in [-128, 127] |
| Midi.Clamp | src/AnagramControlPlugin.cpp:154 | `std::clamp`: the result lies in [lo, hi], equals x inside, and equals the violated bound outside |
| CText.FirstByte | src/AnagramControlPlugin.cpp:165 | `value[0]` of the empty C string is its NUL terminator |
| CText.SkipSpace | src/AnagramControlPlugin.cpp:172 | atoi's skip of leading white space leaves a suffix of the input that does not start with white space |
| CText.SkipSpaceDropsOnlySpace | src/AnagramControlPlugin.cpp:172 | atoi's skip drops only white space: every byte before the suffix it leaves is white space, and the suffix does not start with any |
| CText.DigitPrefix | src/AnagramControlPlugin.cpp:172 | atoi reads the longest prefix made only of decimal digits |
| CText.AtoiUnsigned | src/AnagramControlPlugin.cpp:172 | text that starts with a digit is read from its first byte |
| CText.AtoiNegative | src/AnagramControlPlugin.cpp:172 | text that starts with `-` is read as the negated digit run after it |
| CText.AtoiOfDecimal | src/AnagramControlPlugin.cpp:172 | atoi reads back every integer written in decimal when no digit follows it |
| CText.AtoiSkipsSpace | src/AnagramControlPlugin.cpp:172 | leading white space does not change what atoi reads |
| CText.AtoiOfNonNumber | src/AnagramControlPlugin.cpp:172 | text that starts with no space, sign or digit (the empty string included) reads as 0 |
| Mapping.ActionIndex | src/AnagramControlPlugin.cpp:15-21 | every action has a slot below kActionCount |
| Mapping.ActionAt | src/AnagramControlPlugin.cpp:15-21 | slot i holds the action whose slot is i, so the two maps are inverse |
| Mapping.ModeValue | src/AnagramControlPlugin.cpp:294-297 | the mode value is 0 for `'1'`, 1 for `'2'` and 2 for every other payload, including `'0'`, `'3'` and 0 |
| Mapping.SceneValue | src/AnagramControlPlugin.cpp:278-281 | a scene digit `'0'`..`'3'` sends its own digit value |
| Mapping.ActionEvent | src/AnagramControlPlugin.cpp:235-304 | there is no event exactly for a scene payload outside `'0'`..`'3'`, `+`, `-`; every event is a frame-0 Control or Program Change; it is a Program Change exactly for an absolute preset |
| Mapping.ActionEventMeansIntent | src/AnagramControlPlugin.cpp:238-304 | the device reads each action's message as exactly what the payload asks for (step, select, mode, tuner), and no message exists exactly when the payload asks for nothing; a `+`/`-` step of bank, preset or scene, and the tuner toggle, are Control Changes with value 0 |
| Mapping.ActionEventsDistinct | src/AnagramControlPlugin.cpp:238-304 | two different actions never send the same message |
| Mapping.ParamEvent | src/AnagramControlPlugin.cpp:316-339 | a parameter's message is a 3-byte Control Change at frame 0 that carries the stored value as a valid data byte |
| Mapping.ParamEventMeaning | src/AnagramControlPlugin.cpp:321-336 | pot n goes on CC 20+n, foot switch k on CC 17+k, the pedal on CC 89 and generic slot j on the j-th allowed CC; no fixed parameter uses an action's controller |
| Mapping.FixedControllersDistinct | src/AnagramControlPlugin.cpp:325-333 | the ten fixed parameters use ten different controllers |
| Mapping.ParseRequest | src/AnagramControlPlugin.cpp:161-205 | a request exists exactly for the five known keys, and it is for the action whose key was given; it has no payload exactly for tuner; bank and preset store the `+`/`-`-or-atoi payload; scene and mode store `value[0]` as `int8_t` |
| Mapping.RelativeRequest | src/AnagramControlPlugin.cpp:165-170 | a bank or preset value that starts with `+` or `-` is a step in that direction, whatever follows |
| Mapping.DecimalPayload | src/AnagramControlPlugin.cpp:171-173 | a decimal bank or preset value is stored as that number truncated to `int8_t` |
| Mapping.AbsoluteRequest | src/AnagramControlPlugin.cpp:163-190 | decimal n selects bank or preset n modulo 256, except that 43 and 45 modulo 256 are read as next and previous |
| Mapping.SameLowByte | src/AnagramControlPlugin.cpp:241-245 | truncating to `int8_t` and then reading as `uint8_t` is truncating to `uint8_t`, and the `+`/`-` cases agree |
| Emission.Drain | src/AnagramControlPlugin.cpp:230-310 | one loop keeps the flag count, leaves the entries before its start untouched, and offers at most one write per remaining entry |
| Emission.DrainAttempts | src/AnagramControlPlugin.cpp:230-310 | each write comes from a dirty entry that has an event; entries strictly increase; the t-th write gets the host's (k+t)-th answer; only the last write can be refused |
| Emission.DrainFirst | src/AnagramControlPlugin.cpp:230-306 | if some entry is pending (dirty and with an event), the loop writes, and its first write comes from the first pending entry or an earlier one |
| Emission.DrainBetween | src/AnagramControlPlugin.cpp:230-310 | no pending entry lies between two consecutive writes, so none is passed over |
| Emission.DrainAfterLast | src/AnagramControlPlugin.cpp:306-307 | a pending entry after the loop's last write means that write was refused and ended the loop |
| Emission.DrainFlags | src/AnagramControlPlugin.cpp:306-309 | after the loop, an entry is dirty exactly when it was dirty and no accepted write came from it |
| Emission.DrainRefusal | src/AnagramControlPlugin.cpp:306-307 | a refused write is the loop's last, and it and every later entry keep their flags |
| Emission.DrainSkips | src/AnagramControlPlugin.cpp:290-291 | an entry with no event keeps its flag |
| Emission.DrainComplete | src/AnagramControlPlugin.cpp:230-310 | if no write was refused, exactly the dirty entries with no event stay dirty |
| Emission.DrainIdle | src/AnagramControlPlugin.cpp:232-233 | with nothing dirty the loop offers nothing and changes nothing |
| Emission.DrainOffers | src/AnagramControlPlugin.cpp:230-306 | if some dirty entry has an event, the loop offers a write, and the first one gets the host's k-th answer |
| Emission.DrainRefused | src/AnagramControlPlugin.cpp:306-307 | if the host refuses every write, all flags stay as they were and nothing is sent |
| Emission.DrainSendsPending | src/AnagramControlPlugin.cpp:230-310 | if no write was refused, the loop sends exactly the events of the dirty entries, in entry order |
| Emission.NoRefusal | src/AnagramControlPlugin.cpp:306-307 | a host that accepts every write never stops the loop |
| Plugin.InitialState | src/AnagramControlPlugin.cpp:26-41 | the state after construction is well formed and nothing is dirty |
| Plugin.Activated | src/AnagramControlPlugin.cpp:213-218 | after activate nothing is dirty |
| Plugin.EmissionPass | src/AnagramControlPlugin.cpp:224-346 | run keeps the state well formed and never changes a parameter value or an action payload |
| Plugin.AnagramControlPlugin.constructor | src/AnagramControlPlugin.cpp:37-42 | the new plugin holds the pots at 63, every other parameter at 0, zero payloads and no dirty flag |
| Plugin.AnagramControlPlugin.GetParameterValue | src/AnagramControlPlugin.cpp:138-142 | returns the stored value, which lies in [0, 127], or 0 for an index out of range |
| Plugin.AnagramControlPlugin.SetParameterValue | src/AnagramControlPlugin.cpp:150-156 | the new state clamps the value into [0, 127] at the index and marks it dirty; an index out of range changes nothing |
| Plugin.AnagramControlPlugin.SetState | src/AnagramControlPlugin.cpp:161-205 | the new state is the old one with the parsed request applied |
| Plugin.AnagramControlPlugin.Activate | src/AnagramControlPlugin.cpp:213-218 | clears every flag and payload and keeps the parameter values |
| Plugin.AnagramControlPlugin.Run | src/AnagramControlPlugin.cpp:224-346 | the writes offered and the new flags are those of the action loop, then of the parameter loop, which starts at the host's next answer |
| Plugin.AnagramControlPlugin.RunActions | src/AnagramControlPlugin.cpp:229-310 | the action loop's writes and flags are those of `Drain` over the five action events |
| Plugin.AnagramControlPlugin.RunBindings | src/AnagramControlPlugin.cpp:312-345 | the parameter loop's writes and flags are those of `Drain` over the parameter events |
| PluginProperties.SetThenGet | src/AnagramControlPlugin.cpp:150-156 | getParameterValue after setParameterValue returns the clamped value; no other parameter, flag or action changes; an index out of range changes nothing |
| PluginProperties.RequestTouchesOnlyItsAction | src/AnagramControlPlugin.cpp:161-205 | a request marks only its own action dirty and stores its payload (tuner stores none); an unknown key changes nothing; parameters are untouched |
| PluginProperties.ActivateResets | src/AnagramControlPlugin.cpp:213-218 | activate zeroes every payload, every action flag and every parameter flag, and keeps every parameter value |
| PluginProperties.EmissionIdle | src/AnagramControlPlugin.cpp:224-346 | with nothing dirty, run offers no write and changes nothing |
| PluginProperties.ActivateSilences | src/AnagramControlPlugin.cpp:213-218 | the run right after activate sends nothing, whatever the host answers |
| PluginProperties.ActionWrites | src/AnagramControlPlugin.cpp:229-310 | action writes go in action order, one per dirty action that has a message, none passed over until the write that ends the loop, each its table message at frame 0; the t-th gets the t-th answer; a pending action after the last write means it was refused |
| PluginProperties.BindingWrites | src/AnagramControlPlugin.cpp:312-345 | parameter writes go in index order, at most one per parameter and each from a dirty one, each a CC on its controller with its value; they take the answers after the action writes |
| PluginProperties.BindingNoSkips | src/AnagramControlPlugin.cpp:316-345 | the parameter loop passes over no dirty parameter: the first write is at or before the first dirty one, none lies between two writes, and one after the last write means that write was refused |
| PluginProperties.EmissionFlags | src/AnagramControlPlugin.cpp:306-344 | after run, an entry is dirty exactly when it was dirty and the host accepted no write from it |
| PluginProperties.EmissionRefusal | src/AnagramControlPlugin.cpp:306-345 | a refusal leaves the refused and later entries of its loop dirty; a refusal in the action loop does not stop the parameter loop |
| PluginProperties.InvalidSceneStaysDirty | src/AnagramControlPlugin.cpp:275-292 | a scene payload with no message is never written and its flag never cleared |
| PluginProperties.EmissionWithWillingSink | src/AnagramControlPlugin.cpp:224-346 | with a host that accepts everything, run sends the pending action messages, then the pending parameter messages, and only skipped scenes stay dirty |
| PluginProperties.RefusingSinkKeepsState | src/AnagramControlPlugin.cpp:224-346 | with a host that refuses everything, run sends nothing and the state is unchanged, so the same set is retried next block |
| Scenarios.OneActionRun | src/AnagramControlPlugin.cpp:229-310 | with one action dirty and a willing host, run sends that action's message and clears it, or sends nothing and changes nothing |
| Scenarios.RequestOnClean | src/AnagramControlPlugin.cpp:161-205 | after a known request on a clean state, exactly its action is dirty |
| Scenarios.SceneSelect | src/AnagramControlPlugin.cpp:278-281 | scene `"n"` for n in 0..3 sends CC 107 with value n and clears the request |
| Scenarios.SceneOutOfRange | src/AnagramControlPlugin.cpp:290-291 | a scene value that does not start with `'0'`..`'3'`, `+` or `-` sends nothing and stays dirty |
| Scenarios.PresetPrevious | src/AnagramControlPlugin.cpp:269-272 | preset `"-..."` sends CC 106, not a Program Change |
| Scenarios.BankNumber | src/AnagramControlPlugin.cpp:240-255 | bank `"n"` sends CC 102 with n modulo 256, or CC 103/104 when n modulo 256 is 43/45 |
| Scenarios.ModeEmptyAfterActivate | src/AnagramControlPlugin.cpp:294-297 | an empty mode value after activate sends CC 85 with value 2 |
| Scenarios.BankStepThenPot | src/AnagramControlPlugin.cpp:224-346 | bank `+` and pot 1 at 100 send CC 103 then CC 20 = 100, and nothing stays dirty |
| Scenarios.BankRefusedThenPot | src/AnagramControlPlugin.cpp:306-307 | if the bank step is refused and the next write accepted, pot 1 is still sent and bank stays dirty |
| Scenarios.BankStepBlocks | src/AnagramControlPlugin.cpp:224-346 | through the class: construct, request bank `+`, set pot 1 to 100, run twice; the first block sends both messages and the second sends nothing |

## Left out

- src/AnagramControlUI.cpp, the editor window, is not part of this model.
- The plugin metadata is not modelled: label, maker, licence, version and
  the parameter names, symbols and hints (src/AnagramControlPlugin.cpp:44-129).
  Only the parameter layout and the defaults are kept.
- The header that defines `kParamPot1` … `kParamCount` and `kAllowedCCs` is
  not part of this model. The layout is inferred from its use in the source:
  pots 0-5, foot switches 6-8, pedal 9, generic slots from 10. The allowed CC
  list is the constructor's argument.
- Plugin.AnagramControlPlugin.SetParameterValue: takes the value already
  rounded by `d_roundToIntPositive`, a framework function outside the source,
  so rounding of floats is not modelled.
- Plugin.AnagramControlPlugin.GetParameterValue: returns the stored integer
  rather than converting it to `float`.
- CText.Atoi: reads the digits as an unbounded integer, which is then
  truncated to `int8_t`. This equals truncation through a 32-bit `int`. Overflow
  is undefined in C and is not modelled.
- `std::strcmp(key, …) == 0` is modelled as equality of the key's characters.
- The debug assertion log in `DISTRHO_SAFE_ASSERT_RETURN` is not modelled,
  only its early return.
- `run`'s audio buffers and inbound MIDI events are ignored by the source and
  are not parameters of the model.
- `writeMidiEvent` is modelled only by its answer, taken from the `sink`
  oracle. The host's buffer is not modelled.
- The source reuses one `outEvent` across iterations, while the model builds
  each event fresh. This changes nothing: every byte within the event's size
  is rewritten before each write (src/AnagramControlPlugin.cpp:235-236 and
  :313-321).
- The `default: continue;` branches of the two outer switches
  (src/AnagramControlPlugin.cpp:302-303 and :337-338) have no counterpart.
  Every loop index falls into one of the listed cases.
- Concurrency is not modelled: the entry points may run on another thread
  while `run` is in progress. Each entry point is modelled as one atomic step.
