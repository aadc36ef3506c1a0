/** The register table, the read requests and replies exchanged with the
    device, the metric record, and the poll cycle of `get_modbus_values`
    stated as functions of the table and of the device's replies. */
module Registers {
  import opened Decimal

  /** A holding register holds one 16-bit word. */
  type Word = x: int | 0 <= x < 0x1_0000

  /** The words of a successful read; a reply always carries at least one. */
  type Words = s: seq<Word> | |s| > 0 witness [0]

  /** One configured register: the help text (the inner key) and its address. */
  datatype Entry = Entry(help: string, address: int)

  /** One metric group: its name (the outer key) and its entries, in
      configuration order (Python dicts iterate in insertion order). */
  datatype Group = Group(name: string, entries: seq<Entry>)

  type RegisterTable = seq<Group>

  /** One entry together with the group it belongs to. */
  datatype Slot = Slot(group: string, help: string, address: int)

  /** A "read holding registers" request: start address, register count, slave. */
  datatype ReadRequest = ReadRequest(address: int, count: nat, slave: int)

  /** What one read gives: a raised connection exception, a device error
      response, or the registers read. */
  datatype ReadResult = ConnErr | ErrResp | Ok(words: Words)

  /** The device as seen by the exporter: the reply to the n-th read ever
      issued on the client, given the request. */
  type Device = (nat, ReadRequest) -> ReadResult

  /** A metric record as handed to the metrics-serving library. */
  datatype Metric = Metric(name: string, labels: map<string, string>, value: int, metricType: string, help: string)

  const Gauge := "gauge"
  const SlaveLabel := "slave"
  const AddressLabel := "address"

  /** Number of entries in the first `g` groups. */
  function EntryCount(t: RegisterTable, g: nat): nat
    requires g <= |t|
  {
    if g == 0 then 0 else EntryCount(t, g - 1) + |t[g - 1].entries|
  }

  /** The first `e` entries of a group, each tagged with the group's name. */
  function GroupSlots(grp: Group, e: nat): (r: seq<Slot>)
    requires e <= |grp.entries|
    ensures |r| == e
  {
    if e == 0 then [] else GroupSlots(grp, e - 1) + [Slot(grp.name, grp.entries[e - 1].help, grp.entries[e - 1].address)]
  }

  /** The entries of the first `g` groups in the order the nested loop visits
      them: group by group, and within a group entry by entry. */
  function FlattenUpTo(t: RegisterTable, g: nat): (r: seq<Slot>)
    requires g <= |t|
    ensures |r| == EntryCount(t, g)
  {
    if g == 0 then [] else FlattenUpTo(t, g - 1) + GroupSlots(t[g - 1], |t[g - 1].entries|)
  }

  /** Every entry of the table in visiting order. */
  function Flatten(t: RegisterTable): seq<Slot> {
    FlattenUpTo(t, |t|)
  }

  lemma {:induction false} GroupSlotsAt(grp: Group, n: nat, e: nat)
    requires e < n <= |grp.entries|
    ensures GroupSlots(grp, n)[e] == Slot(grp.name, grp.entries[e].help, grp.entries[e].address)
    decreases n
  {
    if e < n - 1 {
      GroupSlotsAt(grp, n - 1, e);
    }
  }

  lemma {:induction false} FlattenUpToAt(t: RegisterTable, h: nat, g: nat, e: nat)
    requires g < h <= |t| && e < |t[g].entries|
    ensures EntryCount(t, g) + e < EntryCount(t, h)
    ensures FlattenUpTo(t, h)[EntryCount(t, g) + e] == Slot(t[g].name, t[g].entries[e].help, t[g].entries[e].address)
    decreases h
  {
    if g == h - 1 {
      GroupSlotsAt(t[g], |t[g].entries|, e);
    } else {
      FlattenUpToAt(t, h - 1, g, e);
    }
  }

  /** Entry `e` of group `g` is visited after every entry of the groups
      before `g` and after the entries before it in its own group. */
  lemma FlattenAt(t: RegisterTable, g: nat, e: nat)
    requires g < |t| && e < |t[g].entries|
    ensures EntryCount(t, g) + e < |Flatten(t)|
    ensures Flatten(t)[EntryCount(t, g) + e] == Slot(t[g].name, t[g].entries[e].help, t[g].entries[e].address)
  {
    FlattenUpToAt(t, |t|, g, e);
  }

  /** The request issued for an entry: one register at its address, from the slave. */
  function RequestFor(s: Slot, slave: int): ReadRequest {
    ReadRequest(s.address, 1, slave)
  }

  /** The requests issued for the first `x` entries, in visiting order. */
  function RequestsUpTo(slots: seq<Slot>, slave: int, x: nat): (r: seq<ReadRequest>)
    requires x <= |slots|
    ensures |r| == x
  {
    if x == 0 then [] else RequestsUpTo(slots, slave, x - 1) + [RequestFor(slots[x - 1], slave)]
  }

  /** The requests a poll issues, one per entry. */
  function Requests(slots: seq<Slot>, slave: int): seq<ReadRequest> {
    RequestsUpTo(slots, slave, |slots|)
  }

  lemma {:induction false} RequestsUpToAt(slots: seq<Slot>, slave: int, x: nat, k: nat)
    requires k < x <= |slots|
    ensures RequestsUpTo(slots, slave, x)[k] == ReadRequest(slots[k].address, 1, slave)
    decreases x
  {
    if k < x - 1 {
      RequestsUpToAt(slots, slave, x - 1, k);
    }
  }

  /** A poll issues one read per entry, and the k-th read asks for exactly
      one register at the k-th entry's address from the configured slave. */
  lemma RequestsAt(slots: seq<Slot>, slave: int, k: nat)
    requires k < |slots|
    ensures |Requests(slots, slave)| == |slots|
    ensures Requests(slots, slave)[k] == ReadRequest(slots[k].address, 1, slave)
  {
    RequestsUpToAt(slots, slave, |slots|, k);
  }

  /** The reply to the read for entry k of a poll that starts after `n0`
      earlier reads on the client. */
  function Reply(slots: seq<Slot>, slave: int, device: Device, n0: nat, k: nat): ReadResult
    requires k < |slots|
  {
    device(n0 + k, RequestFor(slots[k], slave))
  }

  /** The gauge built from a successful read. */
  function Emit(s: Slot, slave: int, value: Word): Metric {
    Metric(s.group, map[SlaveLabel := IntToString(slave), AddressLabel := IntToString(s.address)], value, Gauge, s.help)
  }

  /** The gauge of an entry is named after its group, carries the entry's
      help text and the word read, and has exactly the labels `slave` and
      `address`, whose values read back as the slave and the register address. */
  lemma EmitIdentifiesEntry(s: Slot, slave: int, value: Word)
    ensures Emit(s, slave, value).name == s.group && Emit(s, slave, value).help == s.help
    ensures Emit(s, slave, value).metricType == "gauge" && Emit(s, slave, value).value == value
    ensures Emit(s, slave, value).labels.Keys == {"slave", "address"}
    ensures ParseInt(Emit(s, slave, value).labels["slave"]) == slave
    ensures ParseInt(Emit(s, slave, value).labels["address"]) == s.address
  {
    IntToStringRoundTrip(slave);
    IntToStringRoundTrip(s.address);
  }

  /** What one entry contributes: its gauge when the read succeeded, nothing
      when it raised a connection exception or got an error response. */
  function MetricsFor(s: Slot, slave: int, r: ReadResult): seq<Metric> {
    match r
    case Ok(w) => [Emit(s, slave, w[0])]
    case _ => []
  }

  /** The metrics produced by entries lo .. hi-1 of a poll. */
  function CollectRange(slots: seq<Slot>, slave: int, device: Device, n0: nat, lo: nat, hi: nat): seq<Metric>
    requires lo <= hi <= |slots|
    decreases hi
  {
    if lo == hi then []
    else CollectRange(slots, slave, device, n0, lo, hi - 1) + MetricsFor(slots[hi - 1], slave, Reply(slots, slave, device, n0, hi - 1))
  }

  /** The state of a poll after its first `k` entries, started when `|r0|`
      reads had been issued before it: the metrics gathered so far and the
      request log. */
  ghost predicate Polled(slots: seq<Slot>, slave: int, device: Device, r0: seq<ReadRequest>, k: nat,
                         ms: seq<Metric>, log: seq<ReadRequest>)
  {
    k <= |slots| &&
    ms == CollectRange(slots, slave, device, |r0|, 0, k) &&
    log == r0 + RequestsUpTo(slots, slave, k)
  }

  /** One step of the poll: reading entry `k` after the entries before it
      extends the metrics and the request log by that entry's share. */
  lemma PollStep(slots: seq<Slot>, k: nat, slave: int, device: Device, n0: nat,
                 r0: seq<ReadRequest>, log: seq<ReadRequest>, ms: seq<Metric>, value: ReadResult)
    requires k < |slots| && |r0| == n0
    requires ms == CollectRange(slots, slave, device, n0, 0, k)
    requires log == r0 + RequestsUpTo(slots, slave, k)
    requires value == device(|log|, RequestFor(slots[k], slave))
    ensures value.Ok? ==> ms + [Emit(slots[k], slave, value.words[0])] == CollectRange(slots, slave, device, n0, 0, k + 1)
    ensures !value.Ok? ==> ms == CollectRange(slots, slave, device, n0, 0, k + 1)
    ensures log + [RequestFor(slots[k], slave)] == r0 + RequestsUpTo(slots, slave, k + 1)
  {
    assert |log| == n0 + k;
    assert value == Reply(slots, slave, device, n0, k);
    assert CollectRange(slots, slave, device, n0, 0, k + 1) ==
      CollectRange(slots, slave, device, n0, 0, k) + MetricsFor(slots[k], slave, Reply(slots, slave, device, n0, k));
    if !value.Ok? {
      assert MetricsFor(slots[k], slave, value) == [];
      assert ms + [] == ms;
    }
    assert (r0 + RequestsUpTo(slots, slave, k)) + [RequestFor(slots[k], slave)] ==
      r0 + (RequestsUpTo(slots, slave, k) + [RequestFor(slots[k], slave)]);
  }

  /** Entry `e` of group `g` is visited at position `EntryCount(t, g) + e`
      of `slots`: after the entries of the groups before `g` and the entries
      before `e`. */
  ghost predicate VisitedAt(t: RegisterTable, slots: seq<Slot>, g: nat, e: nat)
    requires g < |t| && e < |t[g].entries|
  {
    EntryCount(t, g) + e < |slots| &&
    slots[EntryCount(t, g) + e] == Slot(t[g].name, t[g].entries[e].help, t[g].entries[e].address)
  }

  /** The layout of the visiting order, for every entry at once. */
  lemma FlattenLayout(t: RegisterTable)
    ensures |Flatten(t)| == EntryCount(t, |t|)
    ensures forall g: nat, e: nat :: g < |t| && e < |t[g].entries| ==> VisitedAt(t, Flatten(t), g, e)
  {
    forall g: nat, e: nat | g < |t| && e < |t[g].entries|
      ensures VisitedAt(t, Flatten(t), g, e)
    {
      FlattenAt(t, g, e);
    }
  }

  /** The metrics a whole poll returns. */
  function Collect(slots: seq<Slot>, slave: int, device: Device, n0: nat): seq<Metric> {
    CollectRange(slots, slave, device, n0, 0, |slots|)
  }

  /** The positions below `hi` of the entries whose read succeeded, in increasing order. */
  function OkIndices(slots: seq<Slot>, slave: int, device: Device, n0: nat, hi: nat): seq<nat>
    requires hi <= |slots|
  {
    if hi == 0 then []
    else OkIndices(slots, slave, device, n0, hi - 1) + (if Reply(slots, slave, device, n0, hi - 1).Ok? then [hi - 1] else [])
  }

  /** `OkIndices` lists, in increasing order, exactly the entries below `hi`
      whose read succeeded. */
  lemma {:induction false} OkIndicesSpec(slots: seq<Slot>, slave: int, device: Device, n0: nat, hi: nat)
    requires hi <= |slots|
    ensures forall j :: 0 <= j < |OkIndices(slots, slave, device, n0, hi)| ==> OkIndices(slots, slave, device, n0, hi)[j] < hi
    ensures forall i, j :: 0 <= i < j < |OkIndices(slots, slave, device, n0, hi)| ==>
      OkIndices(slots, slave, device, n0, hi)[i] < OkIndices(slots, slave, device, n0, hi)[j]
    ensures forall k :: 0 <= k < hi ==> (k in OkIndices(slots, slave, device, n0, hi) <==> Reply(slots, slave, device, n0, k).Ok?)
    decreases hi
  {
    if hi > 0 {
      OkIndicesSpec(slots, slave, device, n0, hi - 1);
    }
  }

  /** The first `hi` entries produce exactly one gauge per successful read, in
      visiting order, carrying that read's first word. */
  lemma {:induction false} CollectRangeIsOkEntries(slots: seq<Slot>, slave: int, device: Device, n0: nat, hi: nat)
    requires hi <= |slots|
    ensures |CollectRange(slots, slave, device, n0, 0, hi)| == |OkIndices(slots, slave, device, n0, hi)|
    ensures forall j :: 0 <= j < |OkIndices(slots, slave, device, n0, hi)| ==>
      var k := OkIndices(slots, slave, device, n0, hi)[j];
      k < hi && Reply(slots, slave, device, n0, k).Ok? &&
      CollectRange(slots, slave, device, n0, 0, hi)[j] == Emit(slots[k], slave, Reply(slots, slave, device, n0, k).words[0])
    decreases hi
  {
    if hi > 0 {
      var k := hi - 1;
      CollectRangeIsOkEntries(slots, slave, device, n0, k);
      var c, ix := CollectRange(slots, slave, device, n0, 0, k), OkIndices(slots, slave, device, n0, k);
      var r := Reply(slots, slave, device, n0, k);
      if r.Ok? {
        assert CollectRange(slots, slave, device, n0, 0, hi) == c + [Emit(slots[k], slave, r.words[0])];
        assert OkIndices(slots, slave, device, n0, hi) == ix + [k];
      } else {
        assert CollectRange(slots, slave, device, n0, 0, hi) == c + [];
        assert c + [] == c;
        assert ix + [] == ix;
      }
    }
  }

  /** A poll returns exactly the gauges of the entries whose read succeeded,
      in group-then-entry order. */
  lemma CollectIsOkEntries(slots: seq<Slot>, slave: int, device: Device, n0: nat)
    ensures |Collect(slots, slave, device, n0)| == |OkIndices(slots, slave, device, n0, |slots|)|
    ensures forall j :: 0 <= j < |OkIndices(slots, slave, device, n0, |slots|)| ==>
      var k := OkIndices(slots, slave, device, n0, |slots|)[j];
      k < |slots| && Reply(slots, slave, device, n0, k).Ok? &&
      Collect(slots, slave, device, n0)[j] == Emit(slots[k], slave, Reply(slots, slave, device, n0, k).words[0])
  {
    CollectRangeIsOkEntries(slots, slave, device, n0, |slots|);
  }

  lemma {:induction false} CollectRangeBound(slots: seq<Slot>, slave: int, device: Device, n0: nat, lo: nat, hi: nat)
    requires lo <= hi <= |slots|
    ensures |CollectRange(slots, slave, device, n0, lo, hi)| <= hi - lo
    decreases hi
  {
    if lo < hi {
      CollectRangeBound(slots, slave, device, n0, lo, hi - 1);
      var m := MetricsFor(slots[hi - 1], slave, Reply(slots, slave, device, n0, hi - 1));
      assert |m| <= 1;
      assert CollectRange(slots, slave, device, n0, lo, hi) == CollectRange(slots, slave, device, n0, lo, hi - 1) + m;
    }
  }

  /** A poll never returns more metrics than there are entries. */
  lemma CollectBound(slots: seq<Slot>, slave: int, device: Device, n0: nat)
    ensures |Collect(slots, slave, device, n0)| <= |slots|
  {
    CollectRangeBound(slots, slave, device, n0, 0, |slots|);
  }

  /** Polling entries lo .. mid-1 and then mid .. hi-1. */
  lemma {:induction false} CollectRangeSplit(slots: seq<Slot>, slave: int, device: Device, n0: nat, lo: nat, mid: nat, hi: nat)
    requires lo <= mid <= hi <= |slots|
    ensures CollectRange(slots, slave, device, n0, lo, hi) ==
      CollectRange(slots, slave, device, n0, lo, mid) + CollectRange(slots, slave, device, n0, mid, hi)
    decreases hi
  {
    if mid == hi {
      assert CollectRange(slots, slave, device, n0, mid, hi) == [];
      assert CollectRange(slots, slave, device, n0, lo, mid) + [] == CollectRange(slots, slave, device, n0, lo, mid);
    } else {
      CollectRangeSplit(slots, slave, device, n0, lo, mid, hi - 1);
      assert CollectRange(slots, slave, device, n0, lo, mid) + CollectRange(slots, slave, device, n0, mid, hi - 1)
          + MetricsFor(slots[hi - 1], slave, Reply(slots, slave, device, n0, hi - 1)) ==
        CollectRange(slots, slave, device, n0, lo, mid) + (CollectRange(slots, slave, device, n0, mid, hi - 1)
          + MetricsFor(slots[hi - 1], slave, Reply(slots, slave, device, n0, hi - 1)));
    }
  }

  /** A failed read (a connection exception or an error response) drops only
      its own entry: the entries after it are still polled. A successful one
      adds its gauge between the two. */
  lemma FailedReadSkipsOnlyItsEntry(slots: seq<Slot>, slave: int, device: Device, n0: nat, k: nat)
    requires k < |slots|
    ensures !Reply(slots, slave, device, n0, k).Ok? ==>
      Collect(slots, slave, device, n0) ==
        CollectRange(slots, slave, device, n0, 0, k) + CollectRange(slots, slave, device, n0, k + 1, |slots|)
    ensures Reply(slots, slave, device, n0, k).Ok? ==>
      Collect(slots, slave, device, n0) ==
        CollectRange(slots, slave, device, n0, 0, k)
        + [Emit(slots[k], slave, Reply(slots, slave, device, n0, k).words[0])]
        + CollectRange(slots, slave, device, n0, k + 1, |slots|)
  {
    var pre := CollectRange(slots, slave, device, n0, 0, k);
    var one := CollectRange(slots, slave, device, n0, k, k + 1);
    var post := CollectRange(slots, slave, device, n0, k + 1, |slots|);
    CollectRangeSplit(slots, slave, device, n0, 0, k + 1, |slots|);
    CollectRangeSplit(slots, slave, device, n0, 0, k, k + 1);
    assert one == MetricsFor(slots[k], slave, Reply(slots, slave, device, n0, k)) by {
      assert CollectRange(slots, slave, device, n0, k, k) == [];
    }
    if !Reply(slots, slave, device, n0, k).Ok? {
      assert one == [];
      assert pre + [] == pre;
    }
  }
}
