/** The `modbus` section of the exporter's configuration and how
    `read_config` turns it into the serial, slave and register settings. */
module ExporterConfig {
  import opened Wrappers
  import opened Registers

  /** The keys of the `modbus` section the exporter reads; `None` is a key
      that is absent from the section. */
  datatype ModbusSection = ModbusSection(
    serialPort: Option<string>,
    serialBaudrate: Option<int>,
    serialTimeout: Option<int>,
    serialParity: Option<string>,
    serialBytesize: Option<int>,
    serialStopbits: Option<int>,
    slaveAddress: Option<int>,
    registers: Option<RegisterTable>)

  /** The loaded configuration, as far as this exporter reads it. */
  datatype Config = Config(modbus: Option<ModbusSection>)

  /** The values `read_config` stores on the exporter. */
  datatype Settings = Settings(
    serialPort: string,
    serialBaudrate: int,
    serialTimeout: int,
    serialParity: string,
    serialBytesize: int,
    serialStopbits: int,
    slave: int,
    registers: RegisterTable)

  const DefaultSerialPort := "/dev/ttyUSB0"
  const DefaultBaudrate := 9600
  const DefaultTimeout := 1
  const DefaultParity := "N"
  const DefaultBytesize := 8
  const DefaultStopbits := 1
  const DefaultSlave := 1
  const NoModbusConfig := "No Modbus config defined."

  function Get<T>(o: Option<T>, default: T): T {
    match o
    case Some(v) => v
    case None => default
  }

  /** Each setting is the section's value when its key is present and the
      fixed default otherwise. */
  function Resolve(m: ModbusSection): (s: Settings)
    ensures m.serialPort.Some? ==> s.serialPort == m.serialPort.value
    ensures m.serialPort.None? ==> s.serialPort == "/dev/ttyUSB0"
    ensures m.serialBaudrate.Some? ==> s.serialBaudrate == m.serialBaudrate.value
    ensures m.serialBaudrate.None? ==> s.serialBaudrate == 9600
    ensures m.serialTimeout.Some? ==> s.serialTimeout == m.serialTimeout.value
    ensures m.serialTimeout.None? ==> s.serialTimeout == 1
    ensures m.serialParity.Some? ==> s.serialParity == m.serialParity.value
    ensures m.serialParity.None? ==> s.serialParity == "N"
    ensures m.serialBytesize.Some? ==> s.serialBytesize == m.serialBytesize.value
    ensures m.serialBytesize.None? ==> s.serialBytesize == 8
    ensures m.serialStopbits.Some? ==> s.serialStopbits == m.serialStopbits.value
    ensures m.serialStopbits.None? ==> s.serialStopbits == 1
    ensures m.slaveAddress.Some? ==> s.slave == m.slaveAddress.value
    ensures m.slaveAddress.None? ==> s.slave == 1
    ensures m.registers.Some? ==> s.registers == m.registers.value
    ensures m.registers.None? ==> s.registers == []
  {
    Settings(
      Get(m.serialPort, DefaultSerialPort),
      Get(m.serialBaudrate, DefaultBaudrate),
      Get(m.serialTimeout, DefaultTimeout),
      Get(m.serialParity, DefaultParity),
      Get(m.serialBytesize, DefaultBytesize),
      Get(m.serialStopbits, DefaultStopbits),
      Get(m.slaveAddress, DefaultSlave),
      Get(m.registers, []))
  }

  /** A section that spells out every setting. */
  function Explicit(s: Settings): (m: ModbusSection)
    ensures m.serialPort.Some? && m.serialBaudrate.Some? && m.serialTimeout.Some? && m.serialParity.Some?
    ensures m.serialBytesize.Some? && m.serialStopbits.Some? && m.slaveAddress.Some? && m.registers.Some?
  {
    ModbusSection(Some(s.serialPort), Some(s.serialBaudrate), Some(s.serialTimeout), Some(s.serialParity),
      Some(s.serialBytesize), Some(s.serialStopbits), Some(s.slave), Some(s.registers))
  }

  /** Every setting can be configured: writing all of them out gives them back. */
  lemma ResolveExplicit(s: Settings)
    ensures Resolve(Explicit(s)) == s
  {
  }

  /** What `read_config` concludes from a configuration: a ValueError when the
      `modbus` section is missing, otherwise the resolved settings. */
  function ReadConfigResult(c: Config): (r: Result<Settings, string>)
    ensures r.Failure? <==> c.modbus.None?
    ensures r.Failure? ==> r.error == "No Modbus config defined."
    ensures r.Success? ==> r.value == Resolve(c.modbus.value)
  {
    match c.modbus
    case None => Failure(NoModbusConfig)
    case Some(m) => Success(Resolve(m))
  }
}
