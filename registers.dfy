/** Register map, command-byte bits and register values of the ADXL345
    accelerometer, as the driver declares them (Analog Devices ADXL345
    datasheet). Only DEVID, POWER_CTL, DATA_FORMAT and DATAX0 are used on
    the bus; the others are declared and never read or written. */
module Registers {

  // Command byte: | Read/Write | Multibyte | A5 | A4 | A3 | A2 | A1 | A0 |
  const SPI_WRITE: bv8 := 0x00
  const SPI_READ: bv8 := 0x80
  const MULTI_BYTE: bv8 := 0x40

  // Register addresses
  const DEVID: bv8 := 0x00
  const THRESH_TAP: bv8 := 0x1D
  const OFFSX: bv8 := 0x1E
  const OFFSY: bv8 := 0x1F
  const OFFSZ: bv8 := 0x20
  const DUR: bv8 := 0x21
  const LATENT: bv8 := 0x22
  const WINDOW: bv8 := 0x23
  const THRESH_ACT: bv8 := 0x24
  const THRESH_INACT: bv8 := 0x25
  const TIME_INACT: bv8 := 0x26
  const ACT_INACT_CTL: bv8 := 0x27
  const THRESH_FF: bv8 := 0x28
  const TIME_FF: bv8 := 0x29
  const TAP_AXES: bv8 := 0x2A
  const ACT_TAP_STATUS: bv8 := 0x2B
  const BW_RATE: bv8 := 0x2C
  const POWER_CTL: bv8 := 0x2D
  const INT_ENABLE: bv8 := 0x2E
  const INT_MAP: bv8 := 0x2F
  const INT_SOURCE: bv8 := 0x30
  const DATA_FORMAT: bv8 := 0x31
  const DATAX0: bv8 := 0x32
  const DATAX1: bv8 := 0x33
  const DATAY0: bv8 := 0x34
  const DATAY1: bv8 := 0x35
  const DATAZ0: bv8 := 0x36
  const DATAZ1: bv8 := 0x37
  const FIFO_CTL: bv8 := 0x38
  const FIFO_STATUS: bv8 := 0x39

  // Reset values
  const DEFAULT_RESET_VALUE: bv8 := 0x00
  const DEVID_RESET_VALUE: bv8 := 0xE5
  const BW_RATE_RESET_VALUE: bv8 := 0x0A
  const INT_SOURCE_RESET_VALUE: bv8 := 0x02

  // POWER_CTL: | 0 | 0 | Link | AUTO_SLEEP | Measure | Sleep | Wakeup |
  const POWER_CTL_MEASURE: bv8 := 0x08

  // DATA_FORMAT: | SELF_TEST | SPI | INT_INVERT | 0 | FULL_RES | Justify | Range |
  const SPI_3WIRE: bv8 := 0x40
  const RANGE_2G: bv8 := 0x00
  const RANGE_4G: bv8 := 0x01
  const RANGE_8G: bv8 := 0x02
  const RANGE_16G: bv8 := 0x03

  // Sizes of the driver's working buffers, in bytes
  const READ_BUFFER_SIZE: nat := 10
  const WRITE_BUFFER_SIZE: nat := 10
}
