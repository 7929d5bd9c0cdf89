/** The rate engine of backend/src/monitor.c.

    The pseudo-files /proc/stat, /proc/meminfo, /proc/net/dev and
    /proc/diskstats are not read here: each reader receives the lines it
    would have parsed, as abstract records carrying what `sscanf` returned,
    and `None` for a file that could not be opened. Counters are `uint64_t`
    in the source, so sums and differences wrap modulo 2^64 (module Uint64). */
module Monitor {
  import opened Wrappers
  import opened Uint64
  import opened CText

  // ---------------------------------------------------------------------
  // Parsed records
  // ---------------------------------------------------------------------

  /** The first line of /proc/stat: the eight cumulative tick counters. */
  datatype CpuTimes = CpuTimes(user: u64, nice: u64, system: u64, idle: u64,
                               iowait: u64, irq: u64, softirq: u64, steal: u64)

  /** A line of /proc/meminfo. A "MemTotal:" or "MemAvailable:" line whose
      number did not parse leaves the value unchanged, exactly like a line
      of any other kind, so it is an `OtherMemLine`. */
  datatype MemLine = MemTotal(kb: u64) | MemAvailable(kb: u64) | OtherMemLine

  /** A line of /proc/net/dev: whether it has a ':' after the interface
      name, how many of the nine numbers after it parsed, and the receive
      (first) and transmit (ninth) byte counters. */
  datatype NetLine = NetLine(hasColon: bool, parsed: int, rxBytes: u64, txBytes: u64)

  /** A line of /proc/diskstats: how many fields `sscanf` filled, the device
      name, and the sectors-read (6th) and sectors-written (10th) fields. */
  datatype DiskRecord = DiskRecord(parsed: int, name: string, readSectors: u64, writeSectors: u64)

  /** A percentage as the two integers it is computed from:
      `part / whole * 100`, and 0 when `whole` is 0. */
  datatype Usage = Usage(part: u64, whole: u64)

  /** The four cumulative counters the engine turns into rates. */
  datatype Counters = Counters(netRx: u64, netTx: u64, diskRead: u64, diskWrite: u64)

  function Percent(u: Usage): (p: real)
    ensures u.whole == 0 ==> p == 0.0
    ensures u.part <= u.whole ==> 0.0 <= p <= 100.0
    ensures u.whole != 0 && u.part > u.whole ==> p > 100.0
  {
    if u.whole == 0 then 0.0
    else
      var frac := (u.part as real) / (u.whole as real);
      FractionBounds(u.part as real, u.whole as real);
      frac * 100.0
  }

  lemma FractionBounds(x: real, y: real)
    requires y > 0.0
    ensures x <= y ==> x / y <= 1.0
    ensures x > y ==> x / y > 1.0
    ensures 0.0 <= x ==> 0.0 <= x / y
  {
    var q := x / y;
    assert q * y == x;
  }

  // ---------------------------------------------------------------------
  // CPU usage (get_cpu_usage)
  // ---------------------------------------------------------------------

  function IdleTotal(t: CpuTimes): u64 {
    Wrap(t.idle + t.iowait)
  }

  function NonIdle(t: CpuTimes): u64 {
    Wrap(t.user + t.nice + t.system + t.irq + t.softirq + t.steal)
  }

  function TotalTicks(t: CpuTimes): u64 {
    Wrap(IdleTotal(t) + NonIdle(t))
  }

  /** The exact sum of the eight counters, without wrapping. */
  function ExactTotal(t: CpuTimes): nat {
    t.user + t.nice + t.system + t.idle + t.iowait + t.irq + t.softirq + t.steal
  }

  predicate NonDecreasing(prev: CpuTimes, cur: CpuTimes) {
    && prev.user <= cur.user && prev.nice <= cur.nice && prev.system <= cur.system
    && prev.idle <= cur.idle && prev.iowait <= cur.iowait && prev.irq <= cur.irq
    && prev.softirq <= cur.softirq && prev.steal <= cur.steal
  }

  /** Busy and total tick deltas between two readings, as `uint64_t`
      differences; no elapsed ticks gives usage 0. */
  function CpuDelta(prev: CpuTimes, cur: CpuTimes): Usage {
    var totalD := Sub(TotalTicks(cur), TotalTicks(prev));
    var idleD := Sub(IdleTotal(cur), IdleTotal(prev));
    if totalD == 0 then Usage(0, 0) else Usage(Sub(totalD, idleD), totalD)
  }

  /** What get_cpu_usage returns and what the previous counters become.
      An unreadable /proc/stat returns 0 and leaves them alone. */
  function CpuSample(prev: CpuTimes, reading: Option<CpuTimes>): (Usage, CpuTimes) {
    match reading
    case None => (Usage(0, 0), prev)
    case Some(cur) => (CpuDelta(prev, cur), cur)
  }

  /** When no counter went backwards and the totals fit in 64 bits, the
      deltas are the exact ones: the total delta is the growth of the sum
      of all eight counters, the idle part is the growth of idle + iowait,
      and the usage lies in [0, 100]. */
  lemma {:induction false} CpuDeltaBounded(prev: CpuTimes, cur: CpuTimes)
    requires NonDecreasing(prev, cur)
    requires ExactTotal(cur) < Modulus
    ensures var u := CpuDelta(prev, cur);
      && u.whole == ExactTotal(cur) - ExactTotal(prev)
      && (u.whole != 0 ==> u.whole - u.part == (cur.idle + cur.iowait) - (prev.idle + prev.iowait))
      && u.part <= u.whole
      && 0.0 <= Percent(u) <= 100.0
  {
    assert ExactTotal(prev) <= ExactTotal(cur);
    assert IdleTotal(cur) == cur.idle + cur.iowait;
    assert IdleTotal(prev) == prev.idle + prev.iowait;
    assert NonIdle(cur) == cur.user + cur.nice + cur.system + cur.irq + cur.softirq + cur.steal;
    assert NonIdle(prev) == prev.user + prev.nice + prev.system + prev.irq + prev.softirq + prev.steal;
    assert TotalTicks(cur) == ExactTotal(cur);
    assert TotalTicks(prev) == ExactTotal(prev);
  }

  /** The deltas are not guarded against a counter that goes backwards:
      if iowait drops by one tick while user grows by five, the idle delta
      wraps and the reported usage is 125%, outside the 0-100 range the
      header declares. */
  lemma IowaitDropExceedsRange()
    ensures var prev := CpuTimes(0, 0, 0, 100, 10, 0, 0, 0);
      var cur := CpuTimes(5, 0, 0, 100, 9, 0, 0, 0);
      Percent(CpuDelta(prev, cur)) == 125.0
  {
    var prev := CpuTimes(0, 0, 0, 100, 10, 0, 0, 0);
    var cur := CpuTimes(5, 0, 0, 100, 9, 0, 0, 0);
    assert TotalTicks(prev) == 110 && TotalTicks(cur) == 114;
    assert Sub(IdleTotal(cur), IdleTotal(prev)) == Modulus - 1;
    assert CpuDelta(prev, cur) == Usage(5, 4);
  }

  // ---------------------------------------------------------------------
  // Memory usage (get_memory_usage)
  // ---------------------------------------------------------------------

  /** The value of the last "MemTotal:" line, 0 when there is none. */
  function LastTotal(lines: seq<MemLine>): u64 {
    if lines == [] then 0
    else if lines[|lines| - 1].MemTotal? then lines[|lines| - 1].kb
    else LastTotal(lines[..|lines| - 1])
  }

  /** The value of the last "MemAvailable:" line, 0 when there is none. */
  function LastAvailable(lines: seq<MemLine>): u64 {
    if lines == [] then 0
    else if lines[|lines| - 1].MemAvailable? then lines[|lines| - 1].kb
    else LastAvailable(lines[..|lines| - 1])
  }

  /** Memory usage as (total - available, total); no clamp is applied. */
  function MemoryUsage(source: Option<seq<MemLine>>): Usage {
    match source
    case None => Usage(0, 0)
    case Some(lines) =>
      var total := LastTotal(lines);
      if total == 0 then Usage(0, 0) else Usage(Sub(total, LastAvailable(lines)), total)
  }

  method MemoryStats(source: Option<seq<MemLine>>) returns (u: Usage)
    ensures u == MemoryUsage(source)
  {
    if source.None? {
      return Usage(0, 0);
    }
    var lines := source.value;
    var total: u64, available: u64 := 0, 0;
    var i := 0;
    while i < |lines|
      invariant 0 <= i <= |lines|
      invariant total == LastTotal(lines[..i])
      invariant available == LastAvailable(lines[..i])
    {
      assert lines[..i + 1][..i] == lines[..i];
      match lines[i] {
        case MemTotal(kb) => total := kb;
        case MemAvailable(kb) => available := kb;
        case OtherMemLine =>
      }
      i := i + 1;
    }
    assert lines[..i] == lines;
    if total == 0 {
      return Usage(0, 0);
    }
    u := Usage(Sub(total, available), total);
  }

  /** Memory usage lies in [0, 100] when MemAvailable does not exceed
      MemTotal, and exceeds 100 when it does: the subtraction is not
      clamped. */
  lemma {:induction false} MemoryUsageRange(lines: seq<MemLine>)
    ensures LastAvailable(lines) <= LastTotal(lines) ==> 0.0 <= Percent(MemoryUsage(Some(lines))) <= 100.0
    ensures 0 < LastTotal(lines) < LastAvailable(lines) ==> Percent(MemoryUsage(Some(lines))) > 100.0
  {
  }

  // ---------------------------------------------------------------------
  // Totals as folds (get_network_stats, get_disk_stats)
  // ---------------------------------------------------------------------

  /** Exact sum of `val` over the elements that `keep` accepts. */
  function SumWhere<T>(s: seq<T>, keep: T -> bool, val: T -> nat): nat {
    if s == [] then 0
    else SumWhere(s[..|s| - 1], keep, val) + (if keep(s[|s| - 1]) then val(s[|s| - 1]) else 0)
  }

  lemma {:induction false} SumWhereAppend<T>(a: seq<T>, b: seq<T>, keep: T -> bool, val: T -> nat)
    ensures SumWhere(a + b, keep, val) == SumWhere(a, keep, val) + SumWhere(b, keep, val)
  {
    if b != [] {
      assert (a + b)[..|a + b| - 1] == a + b[..|b| - 1];
      SumWhereAppend(a, b[..|b| - 1], keep, val);
    } else {
      assert a + b == a;
    }
  }

  /** One step of a `total += x` loop over the kept elements: the wrapped
      running total stays the wrapped exact sum of the prefix. */
  lemma FoldStep<T>(s: seq<T>, i: int, keep: T -> bool, val: T -> nat, total: u64)
    requires 0 <= i < |s|
    requires total == Wrap(SumWhere(s[..i], keep, val))
    ensures Wrap(SumWhere(s[..i + 1], keep, val)) == if keep(s[i]) then Wrap(total + val(s[i])) else total
  {
    assert s[..i + 1][..i] == s[..i];
    if keep(s[i]) {
      WrapAdd(SumWhere(s[..i], keep, val), val(s[i]));
    }
  }

  function RxBytes(l: NetLine): nat { l.rxBytes }
  function TxBytes(l: NetLine): nat { l.txBytes }

  predicate NetCounted(l: NetLine) {
    l.hasColon && l.parsed == 9
  }

  /** The interface lines: the two header lines are skipped unread. */
  function NetBody(lines: seq<NetLine>): seq<NetLine> {
    if |lines| <= 2 then [] else lines[2..]
  }

  /** Received and transmitted bytes summed over the interface lines that
      have a ':' and nine parsed numbers, as wrapping `uint64_t` sums;
      0/0 when /proc/net/dev cannot be opened. */
  function NetTotals(source: Option<seq<NetLine>>): (u64, u64) {
    match source
    case None => (0, 0)
    case Some(lines) =>
      var body := NetBody(lines);
      (Wrap(SumWhere(body, NetCounted, RxBytes)),
       Wrap(SumWhere(body, NetCounted, TxBytes)))
  }

  method NetworkStats(source: Option<seq<NetLine>>) returns (rx: u64, tx: u64)
    ensures (rx, tx) == NetTotals(source)
  {
    if source.None? {
      return 0, 0;
    }
    var lines := source.value;
    var body := NetBody(lines);
    var totalRx: u64, totalTx: u64 := 0, 0;
    var i := 0;
    while i < |body|
      invariant 0 <= i <= |body|
      invariant totalRx == Wrap(SumWhere(body[..i], NetCounted, RxBytes))
      invariant totalTx == Wrap(SumWhere(body[..i], NetCounted, TxBytes))
    {
      var line := body[i];
      FoldStep(body, i, NetCounted, RxBytes, totalRx);
      FoldStep(body, i, NetCounted, TxBytes, totalTx);
      if line.hasColon && line.parsed == 9 {
        totalRx := Wrap(totalRx + line.rxBytes);
        totalTx := Wrap(totalTx + line.txBytes);
      }
      i := i + 1;
    }
    assert body[..i] == body;
    rx, tx := totalRx, totalTx;
  }

  /** The physical-disk heuristic: sd* and vd* devices whose name does not
      end in a digit, nvme* and mmcblk* devices whose name has no 'p'. */
  predicate IsDisk(name: string) {
    if StartsWith(name, "sd") || StartsWith(name, "vd") then !IsDigit(name[|name| - 1])
    else if StartsWith(name, "nvme") then 'p' !in name
    else if StartsWith(name, "mmcblk") then 'p' !in name
    else false
  }

  /** A name extended at the end keeps the prefixes it had. */
  lemma StartsWithExtended(name: string, tail: string, prefix: string)
    requires |prefix| <= |name|
    ensures StartsWith(name + tail, prefix) == StartsWith(name, prefix)
  {
    assert (name + tail)[..|prefix|] == name[..|prefix|];
  }

  /** A partition name built from a disk name never counts: a digit
      appended to an sd/vd name, or "p" and a number appended to an
      nvme/mmcblk name. Every name outside these four families never
      counts. */
  lemma {:induction false} PartitionsNeverCount(disk: string, suffix: string)
    ensures ((StartsWith(disk, "sd") || StartsWith(disk, "vd")) && suffix != [] && IsDigit(suffix[|suffix| - 1]))
      ==> !IsDisk(disk + suffix)
    ensures (StartsWith(disk, "nvme") || StartsWith(disk, "mmcblk")) ==> !IsDisk(disk + "p" + suffix)
    ensures (!StartsWith(disk, "sd") && !StartsWith(disk, "vd") && !StartsWith(disk, "nvme")
      && !StartsWith(disk, "mmcblk")) ==> !IsDisk(disk)
  {
    if StartsWith(disk, "sd") || StartsWith(disk, "vd") {
      var name := disk + suffix;
      StartsWithExtended(disk, suffix, "sd");
      StartsWithExtended(disk, suffix, "vd");
      assert suffix != [] ==> name[|name| - 1] == suffix[|suffix| - 1];
    }
    if StartsWith(disk, "nvme") || StartsWith(disk, "mmcblk") {
      var tail := "p" + suffix;
      var part := disk + tail;
      assert disk + "p" + suffix == part;
      StartsWithExtended(disk, tail, "sd");
      StartsWithExtended(disk, tail, "vd");
      StartsWithExtended(disk, tail, "nvme");
      if |disk| >= 6 {
        StartsWithExtended(disk, tail, "mmcblk");
      }
      assert disk[0] == 'n' || disk[0] == 'm';
      assert part[|disk|] == 'p';
    }
  }

  /** Whole disks of the four families count. */
  lemma DiskNamesCounted()
    ensures IsDisk("sda") && IsDisk("vdb") && IsDisk("nvme0n1") && IsDisk("mmcblk0")
  {
    assert "sda"[..2] == "sd" && "vdb"[..2] == "vd";
    assert "nvme0n1"[..2][0] == 'n' && "nvme0n1"[..4] == "nvme";
    assert "mmcblk0"[..2][0] == 'm' && "mmcblk0"[..4][0] == 'm' && "mmcblk0"[..6] == "mmcblk";
  }

  /** Their partitions do not. */
  lemma PartitionNamesSkipped()
    ensures !IsDisk("sda1") && !IsDisk("vdb2") && !IsDisk("nvme0n1p1") && !IsDisk("mmcblk0p1")
  {
    assert "sda1"[..2] == "sd";
    assert "vdb2"[..2] == "vd";
    assert "nvme0n1p1"[..2][0] == 'n' && "nvme0n1p1"[..4] == "nvme" && "nvme0n1p1"[7] == 'p';
    assert "mmcblk0p1"[..2][0] == 'm' && "mmcblk0p1"[..4][0] == 'm';
    assert "mmcblk0p1"[..6] == "mmcblk" && "mmcblk0p1"[7] == 'p';
  }

  /** Devices of other families never count: Xen disks (xvda) included,
      although nearby comments in the source list them among the names to
      keep. */
  lemma OtherNamesSkipped()
    ensures !IsDisk("xvda") && !IsDisk("loop0") && !IsDisk("dm-0") && !IsDisk("sr0")
  {
    assert "xvda"[..2][0] == 'x' && "xvda"[..4][0] == 'x';
    assert "loop0"[..2][0] == 'l' && "loop0"[..4][0] == 'l';
    assert "dm-0"[..2][0] == 'd' && "dm-0"[..4][0] == 'd';
    assert "sr0"[..2][1] == 'r' && "sr0"[..2][0] == 's';
  }

  function ReadSectors(d: DiskRecord): nat { d.readSectors }
  function WriteSectors(d: DiskRecord): nat { d.writeSectors }

  predicate DiskCounted(d: DiskRecord) {
    d.parsed >= 11 && IsDisk(d.name)
  }

  /** Sectors read and written summed over the physical disks, as wrapping
      `uint64_t` sums; 0/0 when /proc/diskstats cannot be opened. */
  function DiskTotals(source: Option<seq<DiskRecord>>): (u64, u64) {
    match source
    case None => (0, 0)
    case Some(records) =>
      (Wrap(SumWhere(records, DiskCounted, ReadSectors)),
       Wrap(SumWhere(records, DiskCounted, WriteSectors)))
  }

  method DiskStats(source: Option<seq<DiskRecord>>) returns (read: u64, write: u64)
    ensures (read, write) == DiskTotals(source)
  {
    if source.None? {
      return 0, 0;
    }
    var records := source.value;
    var totalRead: u64, totalWrite: u64 := 0, 0;
    var i := 0;
    while i < |records|
      invariant 0 <= i <= |records|
      invariant totalRead == Wrap(SumWhere(records[..i], DiskCounted, ReadSectors))
      invariant totalWrite == Wrap(SumWhere(records[..i], DiskCounted, WriteSectors))
    {
      var d := records[i];
      FoldStep(records, i, DiskCounted, ReadSectors, totalRead);
      FoldStep(records, i, DiskCounted, WriteSectors, totalWrite);
      if d.parsed >= 11 && IsDisk(d.name) {
        totalRead := Wrap(totalRead + d.readSectors);
        totalWrite := Wrap(totalWrite + d.writeSectors);
      }
      i := i + 1;
    }
    assert records[..i] == records;
    read, write := totalRead, totalWrite;
  }

  /** An element `keep` rejects adds nothing to a sum, wherever it stands. */
  lemma {:induction false} SumWhereSkips<T>(a: seq<T>, b: seq<T>, extra: T, keep: T -> bool, val: T -> nat)
    requires !keep(extra)
    ensures SumWhere(a + [extra] + b, keep, val) == SumWhere(a + b, keep, val)
  {
    SumWhereAppend(a + [extra], b, keep, val);
    SumWhereAppend(a, [extra], keep, val);
    SumWhereAppend(a, b, keep, val);
    assert [extra][..0] == [];
  }

  /** A record that is not a physical disk, or whose line parsed fewer than
      eleven fields, never contributes: inserting it anywhere among the
      records leaves both disk totals unchanged. */
  lemma {:induction false} DiskTotalsIgnoreUncounted(a: seq<DiskRecord>, b: seq<DiskRecord>, extra: DiskRecord)
    requires !DiskCounted(extra)
    ensures DiskTotals(Some(a + [extra] + b)) == DiskTotals(Some(a + b))
  {
    SumWhereSkips(a, b, extra, DiskCounted, ReadSectors);
    SumWhereSkips(a, b, extra, DiskCounted, WriteSectors);
  }

  /** Likewise for /proc/net/dev: a line without ':' or without nine parsed
      numbers, inserted anywhere after the two header lines, leaves both
      network totals unchanged. */
  lemma {:induction false} NetTotalsIgnoreUncounted(headers: seq<NetLine>, a: seq<NetLine>, b: seq<NetLine>,
                                                    extra: NetLine)
    requires |headers| == 2
    requires !NetCounted(extra)
    ensures NetTotals(Some(headers + a + [extra] + b)) == NetTotals(Some(headers + a + b))
  {
    assert NetBody(headers + a + [extra] + b) == a + [extra] + b;
    assert NetBody(headers + a + b) == a + b;
    SumWhereSkips(a, b, extra, NetCounted, RxBytes);
    SumWhereSkips(a, b, extra, NetCounted, TxBytes);
  }

  // ---------------------------------------------------------------------
  // The collect step (monitor_collect, monitor_init)
  // ---------------------------------------------------------------------

  /** Everything one collect reads: the clock and the four pseudo-files. */
  datatype Readings = Readings(clock: int, cpu: Option<CpuTimes>, mem: Option<seq<MemLine>>,
                               net: Option<seq<NetLine>>, disk: Option<seq<DiskRecord>>)

  /** The SystemMetrics record that monitor_collect fills in. */
  datatype Metrics = Metrics(timestamp: int, cpu: Usage, memory: Usage, totals: Counters, rates: Counters)

  /** The process-wide statics that survive between collects. */
  datatype EngineState = EngineState(prevCpu: CpuTimes, prev: Counters, firstRun: bool)

  /** The statics as the program starts. */
  const Boot: EngineState := EngineState(CpuTimes(0, 0, 0, 0, 0, 0, 0, 0), Counters(0, 0, 0, 0), true)

  /** A per-tick rate: the growth of a counter, or 0 when it went down;
      never the wrapped difference. */
  function Rate(cur: u64, prev: u64): (r: u64)
    ensures r <= cur
    ensures r == 0 || prev + r == cur
    ensures cur >= prev ==> r == Sub(cur, prev)
    ensures cur < prev ==> r == 0 && Sub(cur, prev) > cur
  {
    if cur >= prev then cur - prev else 0
  }

  function RatesBetween(cur: Counters, prev: Counters): Counters {
    Counters(Rate(cur.netRx, prev.netRx), Rate(cur.netTx, prev.netTx),
             Rate(cur.diskRead, prev.diskRead), Rate(cur.diskWrite, prev.diskWrite))
  }

  /** The four totals one collect reads. */
  function CountersOf(r: Readings): Counters {
    var net := NetTotals(r.net);
    var disk := DiskTotals(r.disk);
    Counters(net.0, net.1, disk.0, disk.1)
  }

  /** One monitor_collect: the new statics and the filled-in metrics. */
  function Collected(s: EngineState, r: Readings): (EngineState, Metrics) {
    var cpu := CpuSample(s.prevCpu, r.cpu);
    var totals := CountersOf(r);
    var rates := if s.firstRun then Counters(0, 0, 0, 0) else RatesBetween(totals, s.prev);
    (EngineState(cpu.1, totals, s.firstRun), Metrics(r.clock, cpu.0, MemoryUsage(r.mem), totals, rates))
  }

  /** monitor_init: one calibration collect whose metrics are dropped, then
      the first-run flag is cleared. */
  function Initialized(s: EngineState, r: Readings): EngineState {
    Collected(s, r).0.(firstRun := false)
  }

  /** The metrics of a sequence of collects. */
  function Run(s: EngineState, rs: seq<Readings>): seq<Metrics>
    decreases |rs|
  {
    if rs == [] then []
    else
      var step := Collected(s, rs[0]);
      [step.1] + Run(step.0, rs[1..])
  }

  /** While the first-run flag is set every rate is 0, whatever the
      counters; in every case the previous counters become the totals just
      read, clamped or not, and the flag itself is left alone. */
  lemma CollectedStep(s: EngineState, r: Readings)
    ensures s.firstRun ==> Collected(s, r).1.rates == Counters(0, 0, 0, 0)
    ensures !s.firstRun ==> Collected(s, r).1.rates == RatesBetween(CountersOf(r), s.prev)
    ensures Collected(s, r).0.prev == CountersOf(r) == Collected(s, r).1.totals
    ensures Collected(s, r).0.firstRun == s.firstRun
  {
  }

  /** Once the flag is clear, every collect in a run reports the clamped
      growth of each counter since the collect before it (or since the
      state's previous counters, for the first one). */
  lemma {:induction false} RunRates(s: EngineState, rs: seq<Readings>)
    requires !s.firstRun
    decreases |rs|
    ensures |Run(s, rs)| == |rs|
    ensures forall i :: 0 <= i < |rs| ==> Run(s, rs)[i].totals == CountersOf(rs[i])
    ensures forall i :: 0 <= i < |rs| ==>
      Run(s, rs)[i].rates == RatesBetween(CountersOf(rs[i]), if i == 0 then s.prev else CountersOf(rs[i - 1]))
  {
    if rs != [] {
      var next := Collected(s, rs[0]).0;
      RunRates(next, rs[1..]);
      forall i | 0 < i < |rs|
        ensures Run(s, rs)[i] == Run(next, rs[1..])[i - 1]
        ensures rs[1..][i - 1] == rs[i]
      {
      }
    }
  }

  /** monitor_init, then any number of collects: the calibration read is
      the only one with forced-zero rates, and every later collect takes
      the delta branch against the collect before it. */
  lemma {:induction false} CalibratedRun(r0: Readings, rs: seq<Readings>)
    ensures !Initialized(Boot, r0).firstRun
    ensures Initialized(Boot, r0).prev == CountersOf(r0)
    ensures Collected(Boot, r0).1.rates == Counters(0, 0, 0, 0)
    ensures |Run(Initialized(Boot, r0), rs)| == |rs|
    ensures forall i :: 0 <= i < |rs| ==>
      Run(Initialized(Boot, r0), rs)[i].rates
        == RatesBetween(CountersOf(rs[i]), CountersOf(if i == 0 then r0 else rs[i - 1]))
  {
    RunRates(Initialized(Boot, r0), rs);
  }

  /** The statics of monitor.c (lines 8-12) and the functions that update
      them. */
  class Engine {
    var prevCpu: CpuTimes
    var prevNetRx: u64
    var prevNetTx: u64
    var prevDiskRead: u64
    var prevDiskWrite: u64
    var firstRun: bool

    function State(): EngineState
      reads this
    {
      EngineState(prevCpu, Counters(prevNetRx, prevNetTx, prevDiskRead, prevDiskWrite), firstRun)
    }

    constructor ()
      ensures State() == Boot
    {
      prevCpu := CpuTimes(0, 0, 0, 0, 0, 0, 0, 0);
      prevNetRx, prevNetTx, prevDiskRead, prevDiskWrite := 0, 0, 0, 0;
      firstRun := true;
    }

    /** get_cpu_usage: deltas against the previous counters, which are
        overwritten before returning, also when no tick elapsed. */
    method CpuUsage(reading: Option<CpuTimes>) returns (u: Usage)
      modifies this`prevCpu
      ensures (u, prevCpu) == CpuSample(old(prevCpu), reading)
    {
      if reading.None? {
        return Usage(0, 0);
      }
      var cur := reading.value;
      var prevIdleTotal := IdleTotal(prevCpu);
      var idleTotal := IdleTotal(cur);
      var prevNonIdle := NonIdle(prevCpu);
      var nonIdle := NonIdle(cur);
      var prevTotal := TotalTicks(prevCpu);
      var total := TotalTicks(cur);
      var totalD := Sub(total, prevTotal);
      var idleD := Sub(idleTotal, prevIdleTotal);
      prevCpu := cur;
      if totalD == 0 {
        return Usage(0, 0);
      }
      u := Usage(Sub(totalD, idleD), totalD);
    }

    /** monitor_collect. */
    method Collect(r: Readings) returns (m: Metrics)
      modifies this
      ensures (State(), m) == Collected(old(State()), r)
    {
      var cpu := CpuUsage(r.cpu);
      var memory := MemoryStats(r.mem);
      var rx, tx := NetworkStats(r.net);
      var dread, dwrite := DiskStats(r.disk);
      var rates: Counters;
      if firstRun {
        rates := Counters(0, 0, 0, 0);
      } else {
        rates := Counters(if rx >= prevNetRx then rx - prevNetRx else 0,
                          if tx >= prevNetTx then tx - prevNetTx else 0,
                          if dread >= prevDiskRead then dread - prevDiskRead else 0,
                          if dwrite >= prevDiskWrite then dwrite - prevDiskWrite else 0);
      }
      prevNetRx, prevNetTx, prevDiskRead, prevDiskWrite := rx, tx, dread, dwrite;
      m := Metrics(r.clock, cpu, memory, Counters(rx, tx, dread, dwrite), rates);
    }

    /** monitor_init. */
    method Init(r: Readings)
      modifies this
      ensures State() == Initialized(old(State()), r)
    {
      var calibration := Collect(r);
      firstRun := false;
    }
  }
}
