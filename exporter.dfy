/** The Modbus client as the exporter uses it, and the exporter itself:
    configuration, the poll loop of `get_modbus_values` and the per-scrape
    connect-or-return logic of `get_metrics`. */
module Exporter {
  import opened Wrappers
  import opened Registers
  import opened ExporterConfig

  /** What one `connect()` call does: raise a connection exception, or return
      whether the line is now open. */
  datatype ConnectResult = Raised | Returned(ok: bool)

  const DefaultListenPort := 9502

  /** `listen_port` keeps the caller's value and is 9502 when none is given. */
  function ListenPort(requested: Option<int>): (p: int)
    ensures requested.None? ==> p == 9502
    ensures requested.Some? ==> p == requested.value
  {
    Get(requested, DefaultListenPort)
  }

  /** One pass of the inner loop of `get_modbus_values`: read entry `e` of
      group `g`, the `k`-th entry visited, and when the read succeeds append
      its gauge. */
  method PollEntry(c: ModbusClient, table: RegisterTable, g: nat, e: nat, ghost slots: seq<Slot>, ghost k: nat,
                   slave: int, ghost r0: seq<ReadRequest>, before: seq<Metric>) returns (ms: seq<Metric>)
    requires g < |table| && e < |table[g].entries|
    requires k == EntryCount(table, g) + e && VisitedAt(table, slots, g, e)
    requires Polled(slots, slave, c.device, r0, k, before, c.requests)
    modifies c`requests
    ensures Polled(slots, slave, c.device, r0, k + 1, ms, c.requests)
  {
    var group := table[g];
    var entry := group.entries[e];
    ghost var log := c.requests;
    var value := c.ReadHoldingRegisters(entry.address, 1, slave);
    PollStep(slots, k, slave, c.device, |r0|, r0, log, before, value);
    ms := before;
    if value.Ok? {
      ms := ms + [Emit(Slot(group.name, entry.help, entry.address), slave, value.words[0])];
    }
    // otherwise the read raised a connection error or returned an error
    // response: it is logged and the next entry is polled
  }

  /** The inner loop of `get_modbus_values`: the entries of group `g`, in
      order, appended to the metrics of the `k0` entries before it. */
  method PollGroup(c: ModbusClient, table: RegisterTable, g: nat, ghost slots: seq<Slot>, ghost k0: nat, slave: int,
                   ghost r0: seq<ReadRequest>, before: seq<Metric>) returns (ms: seq<Metric>)
    requires g < |table| && k0 == EntryCount(table, g)
    requires forall e: nat :: e < |table[g].entries| ==> VisitedAt(table, slots, g, e)
    requires Polled(slots, slave, c.device, r0, k0, before, c.requests)
    modifies c`requests
    ensures Polled(slots, slave, c.device, r0, k0 + |table[g].entries|, ms, c.requests)
  {
    ghost var k := k0;
    ms := before;
    for e := 0 to |table[g].entries|
      invariant k == k0 + e
      invariant Polled(slots, slave, c.device, r0, k, ms, c.requests)
    {
      ms := PollEntry(c, table, g, e, slots, k, slave, r0, ms);
      k := k + 1;
    }
  }

  /** The outer loop of `get_modbus_values`: every group of the table, in
      order. `slots` is the order in which the entries are visited. */
  method PollTable(c: ModbusClient, table: RegisterTable, ghost slots: seq<Slot>, slave: int) returns (ms: seq<Metric>)
    requires |slots| == EntryCount(table, |table|)
    requires forall g: nat, e: nat :: g < |table| && e < |table[g].entries| ==> VisitedAt(table, slots, g, e)
    modifies c`requests
    ensures Polled(slots, slave, c.device, old(c.requests), |slots|, ms, c.requests)
  {
    ghost var r0 := c.requests;
    ghost var k := 0;
    ms := [];
    for g := 0 to |table|
      invariant k == EntryCount(table, g)
      invariant Polled(slots, slave, c.device, r0, k, ms, c.requests)
    {
      ms := PollGroup(c, table, g, slots, k, slave, r0, ms);
      k := k + |table[g].entries|;
    }
  }

  /** The serial Modbus client. Its behaviour is given from outside: `device`
      answers each read, `link` decides each connection attempt. It records
      the reads issued and the attempts made. */
  class ModbusClient {
    var connected: bool
    var requests: seq<ReadRequest>
    var connectAttempts: nat
    const device: Device
    const link: nat -> ConnectResult

    constructor (device: Device, link: nat -> ConnectResult)
      ensures !connected && requests == [] && connectAttempts == 0
      ensures this.device == device && this.link == link
    {
      connected := false;
      requests := [];
      connectAttempts := 0;
      this.device := device;
      this.link := link;
    }

    /** Read `count` holding registers from `address` of `slave`. */
    method ReadHoldingRegisters(address: int, count: nat, slave: int) returns (r: ReadResult)
      modifies this`requests
      ensures requests == old(requests) + [ReadRequest(address, count, slave)]
      ensures r == device(|old(requests)|, ReadRequest(address, count, slave))
    {
      r := device(|requests|, ReadRequest(address, count, slave));
      requests := requests + [ReadRequest(address, count, slave)];
    }

    /** Try to open the serial line. */
    method Connect() returns (r: ConnectResult)
      modifies this`connected, this`connectAttempts
      ensures connectAttempts == old(connectAttempts) + 1
      ensures r == link(old(connectAttempts))
      ensures connected == (if r.Returned? then r.ok else old(connected))
    {
      r := link(connectAttempts);
      connectAttempts := connectAttempts + 1;
      if r.Returned? {
        connected := r.ok;
      }
    }
  }

  class ModbusExporter {
    var listenPort: int
    var config: Config
    var serialPort: string
    var serialBaudrate: int
    var serialTimeout: int
    var serialParity: string
    var serialBytesize: int
    var serialStopbits: int
    var modbusSlave: int
    var modbusRegisters: RegisterTable
    var client: ModbusClient?
    var metrics: seq<Metric>
    /** The settings fields exist: `read_config` has succeeded. */
    ghost var configured: bool

    function CurrentSettings(): Settings
      reads this
    {
      Settings(serialPort, serialBaudrate, serialTimeout, serialParity, serialBytesize, serialStopbits,
        modbusSlave, modbusRegisters)
    }

    /** Ready to poll: configured, and the client has been created. */
    ghost predicate Ready()
      reads this
    {
      configured && client != null
    }

    constructor (listenPort: Option<int>)
      ensures this.listenPort == ListenPort(listenPort)
      ensures !configured && client == null
    {
      this.listenPort := ListenPort(listenPort);
      client := null;
      configured := false;
    }

    /** `startup_tasks`: create the serial client from the settings. The
        device behind the line and the outcome of each connection attempt
        are given. */
    method StartupTasks(device: Device, link: nat -> ConnectResult)
      requires configured
      modifies this`client
      ensures fresh(client)
      ensures client.device == device && client.link == link
      ensures !client.connected && client.requests == [] && client.connectAttempts == 0
    {
      client := new ModbusClient(device, link);
    }

    /** `read_config`: fail when there is no `modbus` section, leaving every
        setting as it was; otherwise store each setting or its default. */
    method ReadConfig(config: Config) returns (r: Outcome<string>)
      modifies this`config, this`serialPort, this`serialBaudrate, this`serialTimeout, this`serialParity
      modifies this`serialBytesize, this`serialStopbits, this`modbusSlave, this`modbusRegisters, this`configured
      ensures this.config == config
      ensures ReadConfigResult(config).Failure? ==>
        r == Fail(ReadConfigResult(config).error) && CurrentSettings() == old(CurrentSettings()) &&
        configured == old(configured)
      ensures ReadConfigResult(config).Success? ==>
        r == Pass && CurrentSettings() == ReadConfigResult(config).value && configured
    {
      this.config := config;
      if config.modbus.None? {
        return Fail(NoModbusConfig);
      }
      var s := Resolve(config.modbus.value);
      serialPort, serialBaudrate, serialTimeout, serialParity := s.serialPort, s.serialBaudrate, s.serialTimeout, s.serialParity;
      serialBytesize, serialStopbits, modbusSlave, modbusRegisters := s.serialBytesize, s.serialStopbits, s.slave, s.registers;
      configured := true;
      r := Pass;
    }

    /** `get_modbus_values`: one single-register read per configured entry,
        group by group; an entry whose read raises or returns an error is
        skipped, every other one becomes a gauge. */
    method GetModbusValues() returns (ms: seq<Metric>)
      requires Ready()
      modifies client`requests
      ensures ms == Collect(Flatten(modbusRegisters), modbusSlave, client.device, |old(client.requests)|)
      ensures client.requests == old(client.requests) + Requests(Flatten(modbusRegisters), modbusSlave)
    {
      FlattenLayout(modbusRegisters);
      ms := PollTable(client, modbusRegisters, Flatten(modbusRegisters), modbusSlave);
    }

    /** Whether the connection attempt of the next scrape raises. */
    ghost predicate ConnectWouldRaise()
      reads this, client
      requires client != null
    {
      !client.connected && client.link(client.connectAttempts).Raised?
    }

    /** `get_metrics`: connect if needed; when that raises, hand back the base
        metrics untouched; otherwise append the polled metrics, remember the
        list and return it. */
    method GetMetrics(base: seq<Metric>) returns (result: seq<Metric>)
      requires Ready()
      modifies this`metrics, client`requests, client`connected, client`connectAttempts
      ensures old(client.connected) ==> client.connectAttempts == old(client.connectAttempts) && client.connected
      ensures !old(client.connected) ==> client.connectAttempts == old(client.connectAttempts) + 1
      ensures !old(client.connected) && !old(ConnectWouldRaise()) ==>
        client.connected == old(client.link(client.connectAttempts)).ok
      ensures old(ConnectWouldRaise()) ==>
        result == base && metrics == old(metrics) && client.requests == old(client.requests) && !client.connected
      ensures !old(ConnectWouldRaise()) ==>
        result == base + Collect(Flatten(modbusRegisters), modbusSlave, client.device, |old(client.requests)|) &&
        metrics == result &&
        client.requests == old(client.requests) + Requests(Flatten(modbusRegisters), modbusSlave)
    {
      result := base;
      if !client.connected {
        var outcome := client.Connect();
        if outcome.Raised? {
          // logged as a connection error
          return;
        }
      }
      var polled := GetModbusValues();
      result := result + polled;
      metrics := result;
    }
  }
}
