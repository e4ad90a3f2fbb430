/** Fixed-width unsigned integers of the AVR target and a small Option type. */
module MachineTypes {

  /** An 8-bit unsigned value (`uint8_t`, one byte on the serial line). */
  type uint8 = x: int | 0 <= x < 0x100

  /** A 16-bit unsigned value (`uint16_t`, and the width of the TCNT1 timer). */
  type uint16 = x: int | 0 <= x < 0x1_0000

  datatype Option<+T> = None | Some(value: T)
}
