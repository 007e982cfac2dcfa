/** The button byte both producers keep: bit 0 left, bit 1 right, bit 2 middle. */
module Buttons {
  datatype Button = Left | Right | Middle

  function Bit(b: Button): bv8 {
    match b
    case Left => 0x01
    case Right => 0x02
    case Middle => 0x04
  }

  predicate IsDown(mask: bv8, b: Button) { mask & Bit(b) != 0 }

  function Press(mask: bv8, b: Button, down: bool): bv8 {
    if down then mask | Bit(b) else mask & !Bit(b)
  }

  /** The bits are those of a HID mouse: 1 is left, 2 right, 4 middle. */
  lemma HidBits(b: Button)
    ensures IsDown(1, b) <==> b == Left
    ensures IsDown(2, b) <==> b == Right
    ensures IsDown(4, b) <==> b == Middle
    ensures !IsDown(0xF8, b)
  {
    match b
    case Left =>
    case Right =>
    case Middle =>
  }

  /** A press or release changes the one button and nothing else in the byte. */
  lemma PressChangesOneButton(mask: bv8, b: Button, down: bool, c: Button)
    ensures IsDown(Press(mask, b, down), c) <==> if b == c then down else IsDown(mask, c)
    ensures Press(mask, b, down) & 0xF8 == mask & 0xF8
  {
    match b
    case Left => match c { case Left => case Right => case Middle => }
    case Right => match c { case Left => case Right => case Middle => }
    case Middle => match c { case Left => case Right => case Middle => }
  }
}
