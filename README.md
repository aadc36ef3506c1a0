# modbus_exporter, modelled in Dafny

A model of the `ModbusExporter` class of modbus_exporter. The exporter is a
Prometheus exporter that polls holding registers from one Modbus device over
a serial (RTU) line and hands them to the metrics-serving framework as gauges.

The model has five modules:

- `Wrappers` (wrappers.dfy) holds `Option`, `Result` and `Outcome`.
- `Decimal` (decimal.dfy) models Python's `str()` on integers, which the
  exporter uses to render label values. A parser reads the text back, so the
  round trip can be proved.
- `Registers` (registers.dfy) holds the register table, the read requests and
  replies, and the metric record. It also specifies the poll cycle of
  `get_modbus_values` as functions of the table and of the device's replies:
  - `Flatten` is the group-then-entry visiting order.
  - `Requests` is the reads issued.
  - `Collect` is the metrics returned.
  - `OkIndices` is the entries whose read succeeded.
- `ExporterConfig` (config.dfy) models the `modbus` configuration section and
  how `read_config` resolves each setting or its default.
- `Exporter` (exporter.dfy) holds two classes.
  - `ModbusClient` is the serial client. Its replies come from outside, as two
    oracle functions:
    - `device` answers the n-th read.
    - `link` decides the n-th connection attempt.
  - `ModbusExporter` has the fields `read_config` sets, the client and the
    last metric list. Its methods follow `__init__`, `startup_tasks`,
    `read_config`, `get_modbus_values` and `get_metrics`.
  - The nested loop of `get_modbus_values` is written out in three methods:
    `PollTable` is the outer loop, `PollGroup` the inner loop and `PollEntry`
    one pass of it. Each is proved against the specification functions.

The model follows the code where a more general design of such an exporter
differs:

- The slave id is exported under the label `slave`.
- Exactly one register is read per entry, and the value is its first word,
  undecoded.
- A connection exception during a read skips only that entry; polling goes on
  with the next one. A design that aborts the whole cycle on a connection
  failure would drop the later entries. `FailedReadSkipsOnlyItsEntry` states
  the behaviour the code has.
- `get_metrics` catches only a raised connection exception from `connect()`.
  When `connect()` returns without raising, the registers are polled whatever
  it returned.

## Model

| member | source | states |
|---|---|---|
| Exporter.ListenPort | src/modbus_exporter/modbus_exporter.py:11 | the listen port is the caller's when given and 9502 otherwise |
| Exporter.ModbusExporter.constructor | src/modbus_exporter/modbus_exporter.py:9-12 | a new exporter has the resolved listen port, no client yet and no configuration read |
| Exporter.ModbusExporter.StartupTasks | src/modbus_exporter/modbus_exporter.py:14-23 | startup, which reads the settings and so needs `read_config` to have succeeded, creates a new client: not connected, no reads issued, no connection attempts made |
| ExporterConfig.Resolve | src/modbus_exporter/modbus_exporter.py:31-38 | each of the eight settings is the section's value when its key is present, and otherwise its default: `/dev/ttyUSB0`, 9600, 1, `N`, 8, 1, slave 1, no registers |
| ExporterConfig.ResolveExplicit | src/modbus_exporter/modbus_exporter.py:31-38 | every setting can be configured: a section naming all eight keys resolves to exactly those values |
| ExporterConfig.ReadConfigResult | src/modbus_exporter/modbus_exporter.py:28-38 | reading the configuration fails exactly when the `modbus` section is missing, with the message "No Modbus config defined.", and otherwise yields the resolved settings |
| Exporter.ModbusExporter.ReadConfig | src/modbus_exporter/modbus_exporter.py:25-38 | it does what `ReadConfigResult` decides: with no `modbus` section it fails with that message and leaves every setting unchanged; otherwise it stores the resolved settings on the exporter |
| Exporter.ModbusClient.ReadHoldingRegisters | src/modbus_exporter/modbus_exporter.py:51 | a read is appended to the client's request log, and its reply is the device's answer to that request at that position in the log |
| Exporter.ModbusClient.Connect | src/modbus_exporter/modbus_exporter.py:76-81 | a connection attempt is counted and either raises or returns; when it returns, the connected flag is what it returned |
| Registers.FlattenAt | src/modbus_exporter/modbus_exporter.py:48-49 | entry `e` of group `g` is visited after all entries of the earlier groups and the earlier entries of its own group |
| Registers.FlattenLayout | src/modbus_exporter/modbus_exporter.py:48-49 | the visiting order holds every entry of every group at that position, and nothing else |
| Registers.RequestsAt | src/modbus_exporter/modbus_exporter.py:48-51 | a poll issues one read per entry; the k-th read asks the configured slave for one register at the k-th entry's address |
| Registers.EmitIdentifiesEntry | src/modbus_exporter/modbus_exporter.py:60-67 | a gauge has its group's name as name, the entry's key as help, type `gauge` and the word read as value; its only labels are `slave` and `address`, and their values read back as the slave id and the register address |
| Registers.OkIndicesSpec | src/modbus_exporter/modbus_exporter.py:50-58 | the indices kept are increasing and are exactly the entries whose read neither raised nor returned an error |
| Registers.PollStep | src/modbus_exporter/modbus_exporter.py:50-68 | reading one more entry logs its request; on success its gauge extends the metrics, and on a connection exception or an error reply the metrics stay as they are |
| Registers.CollectIsOkEntries | src/modbus_exporter/modbus_exporter.py:47-70 | a poll returns one gauge per successful read, in visiting order, each carrying the first word of that read; it returns no other metric |
| Registers.CollectBound | src/modbus_exporter/modbus_exporter.py:47-70 | a poll never returns more metrics than there are configured entries |
| Registers.FailedReadSkipsOnlyItsEntry | src/modbus_exporter/modbus_exporter.py:50-58 | a read that raises or returns an error drops only its own entry: the metrics of the entries before and after it are kept; a successful read puts its gauge between them |
| Decimal.IntToStringSign | src/modbus_exporter/modbus_exporter.py:62 | a rendered label value is never empty and starts with '-' exactly for a negative number |
| Decimal.NatToStringCanonical | src/modbus_exporter/modbus_exporter.py:62 | the digits of a rendered number have no leading zero (only 0 starts with `0`), so with the round trip the label text is the one canonical decimal text `str()` gives |
| Decimal.IntToStringRoundTrip | src/modbus_exporter/modbus_exporter.py:62 | parsing a rendered label value gives back the integer |
| Decimal.IntToStringInjective | src/modbus_exporter/modbus_exporter.py:62 | different slave ids or addresses get different label values |
| Exporter.PollEntry | src/modbus_exporter/modbus_exporter.py:50-68 | one pass of the inner loop extends the poll state by exactly one entry: its request, and its gauge when the read succeeds |
| Exporter.PollGroup | src/modbus_exporter/modbus_exporter.py:49-68 | the inner loop extends the poll state by the entries of one group, in order |
| Exporter.PollTable | src/modbus_exporter/modbus_exporter.py:47-70 | the outer loop ends with the metrics of every entry in visiting order and with one read per entry logged |
| Exporter.ModbusExporter.GetModbusValues | src/modbus_exporter/modbus_exporter.py:40-70 | the result is the specified poll of the configured table (`Collect`), and the reads issued are the specified requests (`Requests`), appended to the client's log |
| Exporter.ModbusExporter.GetMetrics | src/modbus_exporter/modbus_exporter.py:72-87 | it connects only when not connected, and a returning attempt leaves the client connected exactly when it returned true. When that attempt raises, it returns the base metrics, issues no reads and keeps the stored list. Otherwise it returns the base metrics followed by the poll, and stores that list |

## Left out

- The transport parameters `startup_tasks` passes to the pymodbus serial client, and the `rtu` method, are not modelled. `StartupTasks` creates the client from the device's and the line's behaviour instead.
- The pymodbus library itself is not part of this model. The device's replies and the outcome of each connection attempt are oracle functions of the client. The library may also change the connection state during a read; the model does not.
- Exporter.ModbusClient.ReadHoldingRegisters: the only failures a read can produce are a connection exception and an error response. The source catches only `ConnectionException`, so any other exception from the read (a timeout raised under another class, say) is not modelled.
- Exporter.ModbusExporter.GetMetrics: an exception other than `ConnectionException` from `connect()`, from a read or from building a `Metric` escapes `get_metrics` without a result and leaves `self.metrics` as it was. The model cannot produce such an exception.
- `async`/`await` and the concurrency it allows are not modelled. Each method runs to completion.
- Logging is not modelled; the calls to `self.logger` only write messages.
- The base class calls `super().__init__`, `super().read_config` and `super().get_metrics` are not modelled. `ReadConfig` takes the loaded configuration as a parameter, and `GetMetrics` takes the base metric list as a parameter.
- `label_filter` is only handed to the base class, so it is left out with it.
- `self.endpoints = []` is left out: nothing reads it.
- main.py (argument parsing and start-up) is not part of this model.
- ExporterConfig.ModbusSection: configuration values are typed. A value of the wrong type under a known key (for example a string baud rate) is not modelled.
- ExporterConfig.Resolve: `serial_timeout` is an integer, though Python would also accept a float there.
- Registers.Words: a successful reply is assumed to carry at least one register. A reply with none would raise `IndexError` at `value.registers[0]`, and that is not modelled.
- Exporter.ModbusExporter.GetMetrics: `metric_list += ...` extends the base class's list in place. The model builds a new sequence, so aliasing between the returned list and the base class's list is not captured.
- Metric records keep no logger; the metrics framework's rendering of them is not modelled.
