/**
  The vocabulary of the serial link: frame kinds, limits, logical channels and
  the frame record itself, as both ends of the link know them.
  */
module Frames {
  type byte = x: int | 0 <= x < 0x100
  type u16 = x: int | 0 <= x < 0x1_0000
  type u32 = x: int | 0 <= x < 0x1_0000_0000

  datatype Option<+T> = None | Some(value: T)

  const HELLO: byte := 1
  const HELLO_ACK: byte := 2
  const ACK: byte := 3
  const OPEN: byte := 4
  const OPENED: byte := 5
  const DATA: byte := 6
  const CLOSE: byte := 7
  const RPC: byte := 8
  const RPC_REPLY: byte := 9
  const ERROR: byte := 10
  const BUSY: byte := 11
  const ABORT: byte := 12

  const MAX_PAYLOAD := 4096
  const DATA_CHUNK := 1024
  const CHANNELS := 8

  datatype Frame = Frame(kind: byte, session: u32, channel: byte, sequence: u32, payload: seq<byte>)

  // Channels 1 to 4 carry TCP streams; 0 and 5 to 7 carry management lanes.
  predicate IsDataChannel(channel: int) { 1 <= channel <= 4 }

  predicate IsRpcChannel(channel: int) { channel == 0 || 5 <= channel <= 7 }

  // The kinds that live in the per-channel sequence space.
  predicate Sequenced(f: Frame) { OPEN <= f.kind <= ERROR }

  predicate Legal(f: Frame) {
    |f.payload| <= MAX_PAYLOAD && f.channel < CHANNELS && HELLO <= f.kind <= ABORT
  }

  // 32-bit increment with the wrap-around both implementations test for.
  function Succ(n: u32): (r: u32) {
    if n == 0xFFFF_FFFF then 0 else n + 1
  }
}
