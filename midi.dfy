/** Small option type shared by the other modules. */
module Wrappers {
  datatype Option<+T> = None | Some(value: T)
}

/**
  Bytes, fixed-width integer conversions and the outbound MIDI event.
  The plugin writes 1.0 channel-voice messages on channel 1: Control Change
  (status 0xB0, three bytes) and Program Change (status 0xC0, two bytes).
 */
module Midi {

  /** An unsigned byte (uint8_t): the type of every slot of a MIDI event. */
  type Byte = x: int | 0 <= x < 256

  /** A signed byte (int8_t): the type of an action payload. */
  type Int8 = x: int | -128 <= x < 128

  /** Status byte of a Control Change on channel 1. */
  const ControlChange: Byte := 0xB0
  /** Status byte of a Program Change on channel 1. */
  const ProgramChange: Byte := 0xC0

  /** Conversion of an integer to uint8_t: the byte congruent to it modulo 256. */
  function Low8(x: int): (b: Byte)
    ensures (b - x) % 256 == 0
  {
    x % 256
  }

  /** Conversion of an integer to int8_t: the two's-complement wrap-around. */
  function Wrap8(x: int): (r: Int8)
    ensures (r - x) % 256 == 0
    ensures -128 <= x < 128 ==> r == x
  {
    (x + 128) % 256 - 128
  }

  /** std::clamp over integers. */
  function Clamp(x: int, lo: int, hi: int): (r: int)
    requires lo <= hi
    ensures lo <= r <= hi
    ensures lo <= x <= hi ==> r == x
    ensures x < lo ==> r == lo
    ensures hi < x ==> r == hi
  {
    if x < lo then lo else if hi < x then hi else x
  }

  /** A data byte of a MIDI message has its top bit clear. */
  predicate IsDataByte(b: Byte) {
    b < 128
  }

  /**
    One outbound event: its position in the block and its bytes
    (the event's size is the length of `data`).
   */
  datatype MidiEvent = MidiEvent(frame: nat, data: seq<Byte>)

  /** A Control Change at frame 0. */
  function Cc(controller: Byte, value: Byte): MidiEvent {
    MidiEvent(0, [ControlChange, controller, value])
  }

  /** A Program Change at frame 0. */
  function Pc(program: Byte): MidiEvent {
    MidiEvent(0, [ProgramChange, program])
  }

  /** The event is a 3-byte Control Change or a 2-byte Program Change at the start of the block. */
  predicate IsChannelVoice(e: MidiEvent) {
    e.frame == 0 &&
    ((|e.data| == 3 && e.data[0] == ControlChange) || (|e.data| == 2 && e.data[0] == ProgramChange))
  }
}
