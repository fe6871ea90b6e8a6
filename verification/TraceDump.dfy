/**
 The two readers of the deadlock trace: one unpacks raw memory images with fixed
 little-endian formats, the other asks a debugger for the same structures field by field.
 */
module TraceDump {
  import opened Basics
  import opened TraceRing

  // ---------------------------------------------------------------- struct formats

  type Byte = b: int | 0 <= b < 256

  /** One field of a packed little-endian structure; `S(n)` is n bytes, read as one number. */
  datatype Format = Q | I | Signed | S(n: nat)

  function Width(f: Format): nat {
    match f case Q => 8 case I => 4 case Signed => 4 case S(n) => n
  }

  function Size(fs: seq<Format>): nat {
    if fs == [] then 0 else Width(fs[0]) + Size(fs[1..])
  }

  function Pow256(n: nat): (p: nat)
    ensures p > 0
  {
    if n == 0 then 1 else 256 * Pow256(n - 1)
  }

  function ToLittleEndian(v: nat, n: nat): (b: seq<Byte>)
    ensures |b| == n
  {
    if n == 0 then [] else [v % 256] + ToLittleEndian(v / 256, n - 1)
  }

  function FromLittleEndian(b: seq<Byte>): nat {
    if b == [] then 0 else b[0] + 256 * FromLittleEndian(b[1..])
  }

  lemma {:induction false} LittleEndianRoundTrip(v: nat, n: nat)
    requires v < Pow256(n)
    ensures FromLittleEndian(ToLittleEndian(v, n)) == v
  {
    if n > 0 {
      LittleEndianRoundTrip(v / 256, n - 1);
      assert ToLittleEndian(v, n)[1..] == ToLittleEndian(v / 256, n - 1);
    }
  }

  const TWO_31: int := 0x8000_0000
  const TWO_32: int := 0x1_0000_0000

  ghost predicate Fits(f: Format, v: int) {
    if f.Signed? then -TWO_31 <= v < TWO_31 else 0 <= v < Pow256(Width(f))
  }

  function PackField(f: Format, v: int): (b: seq<Byte>)
    requires Fits(f, v)
    ensures |b| == Width(f)
  {
    ToLittleEndian(if v < 0 then v + TWO_32 else v, Width(f))
  }

  function UnpackField(f: Format, b: seq<Byte>): int
    requires |b| == Width(f)
  {
    var u := FromLittleEndian(b);
    if f.Signed? && u >= TWO_31 then u - TWO_32 else u
  }

  lemma FieldRoundTrip(f: Format, v: int)
    requires Fits(f, v)
    ensures UnpackField(f, PackField(f, v)) == v
  {
    assert Pow256(4) == TWO_32 by {
      assert Pow256(1) == 256 && Pow256(2) == 65536 && Pow256(3) == 16777216;
    }
    LittleEndianRoundTrip(if v < 0 then v + TWO_32 else v, Width(f));
  }

  ghost predicate RowFits(fs: seq<Format>, row: seq<int>) {
    |row| == |fs| && forall k | 0 <= k < |fs| :: Fits(fs[k], row[k])
  }

  function Pack(fs: seq<Format>, row: seq<int>): (b: seq<Byte>)
    requires RowFits(fs, row)
    ensures |b| == Size(fs)
  {
    if fs == [] then [] else PackField(fs[0], row[0]) + Pack(fs[1..], row[1..])
  }

  /** `Struct.unpack_from`: never reads outside the buffer. */
  function Unpack(fs: seq<Format>, b: seq<Byte>, offset: nat): (row: seq<int>)
    requires offset + Size(fs) <= |b|
    ensures |row| == |fs|
  {
    if fs == [] then []
    else [UnpackField(fs[0], b[offset..offset + Width(fs[0])])] + Unpack(fs[1..], b, offset + Width(fs[0]))
  }

  /** Unpacking finds exactly what was packed, wherever it lies in the buffer. */
  lemma {:induction false} UnpackPacked(fs: seq<Format>, row: seq<int>, b: seq<Byte>, offset: nat)
    requires RowFits(fs, row)
    requires offset + Size(fs) <= |b| && b[offset..offset + Size(fs)] == Pack(fs, row)
    ensures Unpack(fs, b, offset) == row
  {
    hide PackField, UnpackField, Fits, Width;
    if fs != [] {
      var head, tail := PackField(fs[0], row[0]), Pack(fs[1..], row[1..]);
      var whole, w := b[offset..offset + Size(fs)], |head|;
      assert whole == head + tail;
      assert b[offset..offset + w] == whole[..w] == head;
      assert b[offset + w..offset + w + Size(fs[1..])] == whole[w..] == tail;
      FieldRoundTrip(fs[0], row[0]);
      UnpackPacked(fs[1..], row[1..], b, offset + w);
    }
  }

  function PackAll(fs: seq<Format>, rows: seq<seq<int>>): (b: seq<Byte>)
    requires forall k | 0 <= k < |rows| :: RowFits(fs, rows[k])
    ensures |b| == |rows| * Size(fs)
  {
    if rows == [] then [] else
      assert (|rows| - 1) * Size(fs) + Size(fs) == |rows| * Size(fs);
      Pack(fs, rows[0]) + PackAll(fs, rows[1..])
  }

  lemma {:induction false} RowAt(fs: seq<Format>, rows: seq<seq<int>>, k: nat, before: seq<Byte>)
    requires forall j | 0 <= j < |rows| :: RowFits(fs, rows[j])
    requires k < |rows|
    ensures k * Size(fs) + Size(fs) <= |rows| * Size(fs)
    ensures Unpack(fs, before + PackAll(fs, rows), |before| + k * Size(fs)) == rows[k]
  {
    hide Pack, Unpack, Size, RowFits;
    var w := Size(fs);
    MulMonotone(k + 1, |rows|, w);
    assert (k + 1) * w == k * w + w;
    var head, tail := Pack(fs, rows[0]), PackAll(fs, rows[1..]);
    assert before + PackAll(fs, rows) == before + head + tail;
    if k == 0 {
      assert (before + head + tail)[|before|..|before| + w] == head;
      UnpackPacked(fs, rows[0], before + head + tail, |before|);
    } else {
      RowAt(fs, rows[1..], k - 1, before + head);
      assert (k - 1) * w + w == k * w;
    }
  }

  // ---------------------------------------------------------------- the trace's memory

  const TRACE_MAGIC := 0x5643414E4E545243
  const TRACE_ABI_VERSION := 3
  const TRACE_CAPACITY: nat := 4096
  const REGISTRY_MAGIC := 0x5643414E4E4B5247
  const REGISTRY_ABI_VERSION := 1
  const REGISTRY_CAPACITY: nat := 512

  const TRACE_HEADER := [Q, I, I, I, I, Q]
  const TRACE_RECORD := [Q, Q, Q, Q, Q, Q, I, I, I, I]
  const SYNC_PROBE := [I, I, Signed, I, Q, Q, Q]
  const HOST_SYNC_PROBE := [I, I, I, Signed, Q, Q, Q]
  const REGISTRY_HEADER := [Q, I, I, Q, I, I]
  const REGISTRATION := [Q, Q, Q, Q, I, I, S(128), S(128)]

  /** The four global structures, as rows of field values in declaration order. */
  datatype Memory = Memory(
    header: seq<int>, locks: seq<seq<int>>, records: seq<seq<int>>,
    probe: seq<int>, hostProbe: seq<int>,
    registry: seq<int>, registrations: seq<seq<int>>)

  ghost predicate Valid(m: Memory) {
    && RowFits(TRACE_HEADER, m.header)
    && |m.locks| == TRACE_CAPACITY && (forall k | 0 <= k < |m.locks| :: RowFits([I], m.locks[k]))
    && |m.records| == TRACE_CAPACITY && (forall k | 0 <= k < |m.records| :: RowFits(TRACE_RECORD, m.records[k]))
    && RowFits(SYNC_PROBE, m.probe)
    && RowFits(HOST_SYNC_PROBE, m.hostProbe)
    && RowFits(REGISTRY_HEADER, m.registry)
    && |m.registrations| == REGISTRY_CAPACITY
    && (forall k | 0 <= k < |m.registrations| :: RowFits(REGISTRATION, m.registrations[k]))
  }

  /** What `dump binary memory` writes for the trace and the registry. */
  function TraceImage(m: Memory): seq<Byte>
    requires Valid(m)
  {
    Pack(TRACE_HEADER, m.header) + PackAll([I], m.locks) + PackAll(TRACE_RECORD, m.records)
  }

  function RegistryImage(m: Memory): seq<Byte>
    requires Valid(m)
  {
    Pack(REGISTRY_HEADER, m.registry) + PackAll(REGISTRATION, m.registrations)
  }

  // ---------------------------------------------------------------- the report

  /** `fields`: timestamp, stream, object, auxiliary, value, kind, blocks, args_size, tid. */
  datatype Entry = Entry(sequence: nat, fields: seq<int>, onSyncStream: bool)

  datatype Report =
    | WrongSize
    | WrongAbi(magic: int, abi: int, capacity: int)
    | Dump(header: seq<int>, probe: seq<int>, syncStream: int, hostProbe: seq<int>,
           registry: seq<int>, registrations: seq<(nat, seq<int>)>, entries: seq<Entry>)

  function ToEntry(r: (nat, seq<int>), syncStream: int): Entry {
    Entry(r.0, r.1, |r.1| > 1 && syncStream != 0 && r.1[1] == syncStream)
  }

  function ToEntries(rs: seq<(nat, seq<int>)>, syncStream: int): seq<Entry> {
    seq(|rs|, i requires 0 <= i < |rs| => ToEntry(rs[i], syncStream))
  }

  function SyncStream(probe: seq<int>): int
    requires |probe| == |SYNC_PROBE|
  {
    if probe[0] != 0 then probe[6] else 0
  }

  predicate AbiMatches(header: seq<int>)
    requires |header| == |TRACE_HEADER|
  {
    header[0] == TRACE_MAGIC && header[1] == TRACE_ABI_VERSION && header[2] == TRACE_CAPACITY
  }

  predicate RegistryMatches(registry: seq<int>)
    requires |registry| == |REGISTRY_HEADER|
  {
    registry[0] == REGISTRY_MAGIC && registry[1] == REGISTRY_ABI_VERSION && registry[2] == REGISTRY_CAPACITY
  }

  function RegistrationCount(registry: seq<int>): nat
    requires |registry| == |REGISTRY_HEADER|
  {
    if !RegistryMatches(registry) || registry[3] < 0 then 0
    else if registry[3] < REGISTRY_CAPACITY then registry[3] else REGISTRY_CAPACITY
  }

  /** A row of an array of stamped structures: its stamp and the fields after it. */
  function RowSlot(row: seq<int>): Slot<seq<int>> {
    if |row| == 0 || row[0] < 0 then Slot(0, [], false) else Slot(row[0], row[1..], false)
  }

  ghost function Slots(rows: seq<seq<int>>): seq<Slot<seq<int>>> {
    seq(|rows|, k requires 0 <= k < |rows| => RowSlot(rows[k]))
  }

  function NextSequence(header: seq<int>): nat
    requires |header| == |TRACE_HEADER|
  {
    if header[5] < 0 then 0 else header[5]
  }

  /** The entries for the records that are still in their slots, flagged against the sync stream. */
  ghost function Reported(rows: seq<seq<int>>, next: nat, limit: nat, syncStream: int): seq<Entry>
    requires |rows| == TRACE_CAPACITY
  {
    ToEntries(DecodeFrom(Slots(rows), FirstSequence(next, limit, TRACE_CAPACITY), next), syncStream)
  }

  /** Every structure has its fields, whatever their values. */
  ghost predicate Shaped(m: Memory) {
    && |m.header| == |TRACE_HEADER| && |m.probe| == |SYNC_PROBE| && |m.registry| == |REGISTRY_HEADER|
    && |m.records| == TRACE_CAPACITY && |m.registrations| == REGISTRY_CAPACITY
  }

  /** The report on the structures themselves; both readers are measured against it. */
  ghost function Described(m: Memory, limit: nat): Report
    requires Shaped(m)
  {
    if !AbiMatches(m.header) then WrongAbi(m.header[0], m.header[1], m.header[2])
    else
      var stream := SyncStream(m.probe);
      Dump(m.header, m.probe, stream, m.hostProbe, m.registry,
           DecodeFrom(Slots(m.registrations), 1, RegistrationCount(m.registry)),
           Reported(m.records, NextSequence(m.header), limit, stream))
  }

  // ---------------------------------------------------------------- the debugger's reader

  lemma ToEntriesSnoc(rs: seq<(nat, seq<int>)>, r: (nat, seq<int>), syncStream: int)
    ensures ToEntries(rs + [r], syncStream) == ToEntries(rs, syncStream) + [ToEntry(r, syncStream)]
  {
  }

  /** `vcann-trace-dump`: index the debugger's view of the structures. */
  method DumpStructures(m: Memory, limit: nat) returns (d: Report)
    requires Shaped(m)
    ensures d == Described(m, limit)
  {
    if !AbiMatches(m.header) {
      return WrongAbi(m.header[0], m.header[1], m.header[2]);
    }
    var next := NextSequence(m.header);
    var syncStream := SyncStream(m.probe);
    var count := RegistrationCount(m.registry);
    var registrations := [];
    for index := 0 to count
      invariant registrations == DecodeFrom(Slots(m.registrations), 1, index)
    {
      DecodeSnoc(Slots(m.registrations), 1, index);
      var row := m.registrations[index];
      if RowSlot(row).committed == index + 1 {
        registrations := registrations + [(index + 1, row[1..])];
      }
    }
    var first := FirstSequence(next, limit, TRACE_CAPACITY);
    var entries := [];
    var sequence := first;
    while sequence < next + 1
      invariant first <= sequence <= next + 1
      invariant entries == ToEntries(DecodeFrom(Slots(m.records), first, sequence - 1), syncStream)
    {
      DecodeSnoc(Slots(m.records), first, sequence - 1);
      var row := m.records[(sequence - 1) % TRACE_CAPACITY];
      if RowSlot(row).committed == sequence {
        var r := (sequence, row[1..]);
        ToEntriesSnoc(DecodeFrom(Slots(m.records), first, sequence - 1), r, syncStream);
        entries := entries + [ToEntry(r, syncStream)];
      }
      sequence := sequence + 1;
    }
    d := Dump(m.header, m.probe, syncStream, m.hostProbe, m.registry, registrations, entries);
  }

  // ---------------------------------------------------------------- the raw reader

  /** The files have exactly the sizes of the structures. */
  predicate SizesMatch(trace: seq<Byte>, probe: seq<Byte>, host: seq<Byte>, registry: seq<Byte>) {
    && |trace| == RecordsOffset() + TRACE_CAPACITY * Size(TRACE_RECORD)
    && |probe| == Size(SYNC_PROBE)
    && |host| == Size(HOST_SYNC_PROBE)
    && |registry| == Size(REGISTRY_HEADER) + REGISTRY_CAPACITY * Size(REGISTRATION)
  }

  function RecordsOffset(): nat { Size(TRACE_HEADER) + TRACE_CAPACITY * Size([I]) }

  /** Offsets of array elements stay inside the size-checked buffer. */
  lemma ElementInside(k: nat, capacity: nat, w: nat)
    requires k < capacity
    ensures k * w + w <= capacity * w
  {
    MulMonotone(k + 1, capacity, w);
    assert (k + 1) * w == k * w + w;
  }

  function RecordRow(trace: seq<Byte>, k: nat): (row: seq<int>)
    requires |trace| == RecordsOffset() + TRACE_CAPACITY * Size(TRACE_RECORD) && k < TRACE_CAPACITY
  {
    ElementInside(k, TRACE_CAPACITY, Size(TRACE_RECORD));
    Unpack(TRACE_RECORD, trace, RecordsOffset() + k * Size(TRACE_RECORD))
  }

  function RegistrationRow(registry: seq<Byte>, k: nat): (row: seq<int>)
    requires |registry| == Size(REGISTRY_HEADER) + REGISTRY_CAPACITY * Size(REGISTRATION) && k < REGISTRY_CAPACITY
  {
    ElementInside(k, REGISTRY_CAPACITY, Size(REGISTRATION));
    Unpack(REGISTRATION, registry, Size(REGISTRY_HEADER) + k * Size(REGISTRATION))
  }

  ghost function RecordRows(trace: seq<Byte>): (rows: seq<seq<int>>)
    requires |trace| == RecordsOffset() + TRACE_CAPACITY * Size(TRACE_RECORD)
    ensures |rows| == TRACE_CAPACITY
    ensures forall k | 0 <= k < TRACE_CAPACITY :: rows[k] == RecordRow(trace, k)
  {
    seq(TRACE_CAPACITY, k requires 0 <= k < TRACE_CAPACITY => RecordRow(trace, k))
  }

  ghost function RegistrationRows(registry: seq<Byte>): (rows: seq<seq<int>>)
    requires |registry| == Size(REGISTRY_HEADER) + REGISTRY_CAPACITY * Size(REGISTRATION)
    ensures |rows| == REGISTRY_CAPACITY
    ensures forall k | 0 <= k < REGISTRY_CAPACITY :: rows[k] == RegistrationRow(registry, k)
  {
    seq(REGISTRY_CAPACITY, k requires 0 <= k < REGISTRY_CAPACITY => RegistrationRow(registry, k))
  }

  /** The structures the bytes stand for; the slot locks are never looked at. */
  ghost function Unpacked(trace: seq<Byte>, probe: seq<Byte>, host: seq<Byte>, registry: seq<Byte>): (m: Memory)
    requires SizesMatch(trace, probe, host, registry)
    ensures Shaped(m)
  {
    Memory(
      Unpack(TRACE_HEADER, trace, 0), [], RecordRows(trace),
      Unpack(SYNC_PROBE, probe, 0), Unpack(HOST_SYNC_PROBE, host, 0),
      Unpack(REGISTRY_HEADER, registry, 0), RegistrationRows(registry))
  }

  method DecodeRawRecords(trace: seq<Byte>, next: nat, limit: nat, syncStream: int) returns (entries: seq<Entry>)
    requires |trace| == RecordsOffset() + TRACE_CAPACITY * Size(TRACE_RECORD)
    ensures entries == Reported(RecordRows(trace), next, limit, syncStream)
  {
    hide RecordRow, RecordRows, Size;
    ghost var slots := Slots(RecordRows(trace));
    var first := FirstSequence(next, limit, TRACE_CAPACITY);
    entries := [];
    var sequence := first;
    while sequence < next + 1
      invariant first <= sequence <= next + 1
      invariant entries == ToEntries(DecodeFrom(slots, first, sequence - 1), syncStream)
    {
      DecodeSnoc(slots, first, sequence - 1);
      var row := RecordRow(trace, (sequence - 1) % TRACE_CAPACITY);
      assert RecordRows(trace)[(sequence - 1) % TRACE_CAPACITY] == row;
      if RowSlot(row).committed == sequence {
        var r := (sequence, row[1..]);
        ToEntriesSnoc(DecodeFrom(slots, first, sequence - 1), r, syncStream);
        entries := entries + [ToEntry(r, syncStream)];
      }
      sequence := sequence + 1;
    }
  }

  method DecodeRawRegistrations(registry: seq<Byte>, count: nat) returns (registrations: seq<(nat, seq<int>)>)
    requires |registry| == Size(REGISTRY_HEADER) + REGISTRY_CAPACITY * Size(REGISTRATION)
    requires count <= REGISTRY_CAPACITY
    ensures registrations == DecodeFrom(Slots(RegistrationRows(registry)), 1, count)
  {
    hide RegistrationRow, RegistrationRows, Size;
    ghost var slots := Slots(RegistrationRows(registry));
    registrations := [];
    for index := 0 to count
      invariant registrations == DecodeFrom(slots, 1, index)
    {
      DecodeSnoc(slots, 1, index);
      var row := RegistrationRow(registry, index);
      if RowSlot(row).committed == index + 1 {
        registrations := registrations + [(index + 1, row[1..])];
      }
    }
  }

  /** `decode_raw_trace`: the report on exactly the structures the bytes stand for. */
  method DecodeRaw(trace: seq<Byte>, probe: seq<Byte>, host: seq<Byte>, registry: seq<Byte>, limit: nat)
    returns (d: Report)
    ensures d == if SizesMatch(trace, probe, host, registry)
                 then Described(Unpacked(trace, probe, host, registry), limit) else WrongSize
  {
    hide Unpack, Size, RecordRows, RegistrationRows, Reported, Slots, DecodeFrom;
    if !SizesMatch(trace, probe, host, registry) {
      return WrongSize;
    }
    var header := Unpack(TRACE_HEADER, trace, 0);
    if !AbiMatches(header) {
      return WrongAbi(header[0], header[1], header[2]);
    }
    var probeFields := Unpack(SYNC_PROBE, probe, 0);
    var registryFields := Unpack(REGISTRY_HEADER, registry, 0);
    var syncStream := SyncStream(probeFields);
    var registrations := DecodeRawRegistrations(registry, RegistrationCount(registryFields));
    var entries := DecodeRawRecords(trace, NextSequence(header), limit, syncStream);
    d := Dump(header, probeFields, syncStream, Unpack(HOST_SYNC_PROBE, host, 0), registryFields, registrations, entries);
  }

  // ---------------------------------------------------------------- the readers agree

  lemma HeadUnpacked(fs: seq<Format>, row: seq<int>, after: seq<Byte>)
    requires RowFits(fs, row)
    ensures Unpack(fs, Pack(fs, row) + after, 0) == row
  {
    hide Pack, Unpack, Size, RowFits;
    assert (Pack(fs, row) + after)[0..Size(fs)] == Pack(fs, row);
    UnpackPacked(fs, row, Pack(fs, row) + after, 0);
  }

  /** The bytes written from memory have the expected sizes and stand for that memory. */
  lemma ImageRoundTrip(m: Memory)
    requires Valid(m)
    ensures SizesMatch(TraceImage(m), Pack(SYNC_PROBE, m.probe), Pack(HOST_SYNC_PROBE, m.hostProbe), RegistryImage(m))
    ensures Unpacked(TraceImage(m), Pack(SYNC_PROBE, m.probe), Pack(HOST_SYNC_PROBE, m.hostProbe), RegistryImage(m))
         == m.(locks := [])
  {
    hide Pack, Unpack, Size, RowFits, PackAll;
    var locks, records := PackAll([I], m.locks), PackAll(TRACE_RECORD, m.records);
    var registrations := PackAll(REGISTRATION, m.registrations);
    var header, registry := Pack(TRACE_HEADER, m.header), Pack(REGISTRY_HEADER, m.registry);
    assert TraceImage(m) == header + (locks + records);
    HeadUnpacked(TRACE_HEADER, m.header, locks + records);
    HeadUnpacked(SYNC_PROBE, m.probe, []);
    HeadUnpacked(HOST_SYNC_PROBE, m.hostProbe, []);
    HeadUnpacked(REGISTRY_HEADER, m.registry, registrations);
    assert Pack(SYNC_PROBE, m.probe) + [] == Pack(SYNC_PROBE, m.probe);
    assert Pack(HOST_SYNC_PROBE, m.hostProbe) + [] == Pack(HOST_SYNC_PROBE, m.hostProbe);
    assert |locks| == TRACE_CAPACITY * Size([I]);
    forall k | 0 <= k < TRACE_CAPACITY
      ensures RecordRow(TraceImage(m), k) == m.records[k]
    {
      RowAt(TRACE_RECORD, m.records, k, header + locks);
    }
    forall k | 0 <= k < REGISTRY_CAPACITY
      ensures RegistrationRow(RegistryImage(m), k) == m.registrations[k]
    {
      RowAt(REGISTRATION, m.registrations, k, registry);
    }
    assert RecordRows(TraceImage(m)) == m.records;
    assert RegistrationRows(RegistryImage(m)) == m.registrations;
  }

  /** For every memory and limit, the report on its bytes is the report on its structures. */
  lemma RawRefinesStructured(m: Memory, limit: nat)
    requires Valid(m)
    ensures SizesMatch(TraceImage(m), Pack(SYNC_PROBE, m.probe), Pack(HOST_SYNC_PROBE, m.hostProbe), RegistryImage(m))
    ensures Described(Unpacked(TraceImage(m), Pack(SYNC_PROBE, m.probe), Pack(HOST_SYNC_PROBE, m.hostProbe),
                               RegistryImage(m)), limit)
         == Described(m, limit)
  {
    hide TraceImage, RegistryImage, SizesMatch, Unpacked, Pack;
    ImageRoundTrip(m);
  }

  /** Locks do not matter to the reader. */
  lemma {:induction false} DecodeIgnoresLocks<P>(a: seq<Slot<P>>, b: seq<Slot<P>>, q: nat, next: nat)
    requires 0 < q && 0 < |a| == |b|
    requires forall k | 0 <= k < |a| :: a[k].committed == b[k].committed && a[k].payload == b[k].payload
    ensures DecodeFrom(a, q, next) == DecodeFrom(b, q, next)
    decreases next + 1 - q
  {
    if q <= next { DecodeIgnoresLocks(a, b, q + 1, next); }
  }

  /**
   End to end: the raw image of a process stopped anywhere in any concurrent run decodes to
   the published records of the window, as their writers were given them.
   */
  lemma FrozenProcessReport(s: State<seq<int>>, steps: seq<Step<seq<int>>>, s': State<seq<int>>, m: Memory, limit: nat)
    requires Initial(s) && Reaches(s, steps, s') && |s.slots| == |s'.slots| == TRACE_CAPACITY
    requires Valid(m) && AbiMatches(m.header) && m.header[5] == s'.next
    requires forall k | 0 <= k < TRACE_CAPACITY :: m.records[k] == [s'.slots[k].committed] + s'.slots[k].payload
    ensures SizesMatch(TraceImage(m), Pack(SYNC_PROBE, m.probe), Pack(HOST_SYNC_PROBE, m.hostProbe), RegistryImage(m))
    ensures |s'.intended| == s'.next
    ensures var d := Described(Unpacked(TraceImage(m), Pack(SYNC_PROBE, m.probe), Pack(HOST_SYNC_PROBE, m.hostProbe),
                                        RegistryImage(m)), limit);
            d.Dump? && d.entries == ToEntries(Published(s', FirstSequence(s'.next, limit, TRACE_CAPACITY)), d.syncStream)
  {
    hide TraceImage, RegistryImage, SizesMatch, Unpacked, Pack, Reaches, Initial, RowFits;
    RawRefinesStructured(m, limit);
    DecodeExact(s, steps, s', limit);
    DecodeIgnoresLocks(Slots(m.records), s'.slots, FirstSequence(s'.next, limit, TRACE_CAPACITY), s'.next);
  }
}
