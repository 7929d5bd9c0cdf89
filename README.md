# server_monitor backend core, modelled in Dafny

server_monitor is a small Linux host monitor. Its C backend samples the
kernel's pseudo-files once a second and turns the readings into metrics:

- CPU and memory usage percentages;
- network bytes received and transmitted;
- disk sectors read and written.

Each of the four counters also gets a per-tick rate. The backend stores
the samples in SQLite. An HTTP endpoint, `GET /api/history?span=…`,
serves them back as a JSON array, downsampled to one averaged row per
time bucket.

This project models three parts of that backend and proves properties
about them:

- **`monitor.dfy`: the rate engine of `backend/src/monitor.c`.**
  - The statics that survive between collects become the class
    `Monitor.Engine`. One collect is also stated as the pure step
    `Monitor.Collected`.
  - The CPU tick deltas use `uint64_t` wrap-around.
  - The memory usage follows the last MemTotal and MemAvailable lines.
  - The network and disk totals are folds over the parsed lines. A
    network line counts when it has a ':' and all nine numbers after it
    parsed. A disk record counts when at least eleven of the fourteen
    fields parsed and its name passes the disk heuristic.
  - `IsDisk` is the physical-disk heuristic.
  - The rate clamp and the first-run flag are included.
- **`history.dfy`: the history query of `backend/src/db.c`.**
  - The span table.
  - The meaning of the SQL statement: the `WHERE timestamp >= start`
    filter, SQLite's truncating integer division for the bucket key,
    `GROUP BY`, `AVG` and `ORDER BY`. These are stated as functions over
    the rows of the `stats` table. An independent per-key reference
    `Group` states what every bucket holds.
- **`json_body.dfy`: the JSON text `db_query_history` builds.**
  - The growable character buffer of `json_append` is a class over an
    array that is reallocated and copied.
  - The row loop writes `[`, the rows separated by commas, and `]`.
- **`server.dfy`: request handling of `backend/src/server.c`.**
  - `get_query_param` copies the parameter value into a caller's
    fixed-size array.
  - `handle_client` chooses the reply: no reply, 204, 200 with a
    Content-Length, 500 or 404.
- **`common.dfy`:** an `Option` type and `uint64_t` arithmetic
  modulo 2^64.

Inputs the program gets from the outside world are parameters of the
model:

- The lines of each pseudo-file arrive as parsed records. Each record
  carries the count `sscanf` returned.
- An unopenable file is `None`.
- The clock value is an input.
- The database is the sequence of stored samples.
- "The statement could not be prepared" is a boolean.
- The request is the bytes `read` returned.

Where the code and its own comments or declarations disagree, the model
follows the code:

- **The 30-day span groups by 14400 s (four hours).** The comment at
  `backend/src/db.c:101` speaks of six hours (`History.SpanTable`).
- **Memory usage is not clamped.** `backend/include/monitor.h:11`
  declares `memory_usage` a "Percentage (0-100)". A MemAvailable above
  MemTotal still gives more than 100 % (`Monitor.MemoryUsageRange`).
- **CPU usage is not guarded against a counter that goes backwards.**
  `backend/include/monitor.h:10` declares `cpu_usage` a "Percentage
  (0-100)". The wrapped idle delta can still give 125 %
  (`Monitor.IowaitDropExceedsRange`).
- **The disk filter never counts Xen disks (`xvda`).** The comments at
  `backend/src/monitor.c:148-149` list `xvda` among the names to keep and
  mention "xvd" as a family (`Monitor.OtherNamesSkipped`).
- **The history window has no upper bound.** The statement at
  `backend/src/db.c:131` filters only on `timestamp >= start`, so samples
  stamped after `now` are included.

## Model

| member | source | states |
|---|---|---|
| Uint64.Sub | backend/src/monitor.c:46-47 | `uint64_t` subtraction: the exact difference when no borrow, otherwise the difference plus 2^64, which is then larger than the minuend |
| Monitor.Percent | backend/src/monitor.c:54-55 | a usage is 0 when no ticks (or no memory) are counted, lies in [0, 100] when the part does not exceed the whole, and exceeds 100 when it does |
| Monitor.CpuDeltaBounded | backend/src/monitor.c:37-55 | when no counter went backwards and the totals fit in 64 bits, the total delta is the exact growth of all eight counters, the idle delta is the growth of idle + iowait, and the CPU usage lies in [0, 100] |
| Monitor.IowaitDropExceedsRange | backend/src/monitor.c:46-55 | an iowait counter that drops by one tick while user grows by five makes the idle delta wrap and the reported usage 125 % |
| Monitor.Engine.CpuUsage | backend/src/monitor.c:21-56 | get_cpu_usage returns the busy/total delta against the previous counters and overwrites them with the new reading, also when no tick elapsed; an unreadable /proc/stat returns 0 and leaves them unchanged |
| Monitor.MemoryStats | backend/src/monitor.c:58-76 | the loop over /proc/meminfo keeps the last MemTotal and MemAvailable values and yields (total - available, total), or 0 when the file cannot be opened or MemTotal is 0 |
| Monitor.MemoryUsageRange | backend/src/monitor.c:74-75 | memory usage lies in [0, 100] when MemAvailable does not exceed MemTotal and exceeds 100 when it does |
| Monitor.NetworkStats | backend/src/monitor.c:78-113 | the loop sums receive and transmit bytes, wrapping at 2^64, over the lines after the two headers that have a ':' and nine parsed numbers; 0/0 when the file cannot be opened |
| Monitor.NetTotalsIgnoreUncounted | backend/src/monitor.c:99-108 | a line without ':' or with fewer than nine parsed numbers, inserted anywhere after the two header lines, does not change the network totals |
| Monitor.PartitionsNeverCount | backend/src/monitor.c:151-161 | a partition name never counts as a disk: an sd/vd name ending in a digit, or an nvme/mmcblk name with "p" appended; every name outside these four families never counts |
| Monitor.DiskNamesCounted | backend/src/monitor.c:151-161 | the whole disks sda, vdb, nvme0n1 and mmcblk0 count |
| Monitor.PartitionNamesSkipped | backend/src/monitor.c:151-161 | the partitions sda1, vdb2, nvme0n1p1 and mmcblk0p1 do not count |
| Monitor.OtherNamesSkipped | backend/src/monitor.c:148-161 | xvda, loop0, dm-0 and sr0 never count, although the comment at line 148 names xvda among the disks to keep |
| Monitor.DiskStats | backend/src/monitor.c:115-172 | the loop sums sectors read and written, wrapping at 2^64, over the lines with at least eleven parsed fields whose name passes the disk heuristic; 0/0 when the file cannot be opened |
| Monitor.DiskTotalsIgnoreUncounted | backend/src/monitor.c:133-166 | a record that is not a physical disk, or that parsed fewer than eleven fields, does not change the disk totals wherever it appears |
| Monitor.Rate | backend/src/monitor.c:200-203 | a rate is never above the current counter, is either 0 or exactly the growth since the previous counter, and is 0 (never the wrapped difference) when the counter went down |
| Monitor.CollectedStep | backend/src/monitor.c:192-209 | while the first-run flag is set all four rates are 0; otherwise they are the clamped deltas against the previous totals; in both cases the previous totals become the totals just read and the flag is unchanged |
| Monitor.RunRates | backend/src/monitor.c:174-212 | over any run of collects with the flag clear, each collect reports the totals it read and the clamped growth since the collect before it |
| Monitor.CalibratedRun | backend/src/monitor.c:14-19 | after monitor_init, the flag is clear, the baseline is the calibration read, the calibration's rates are 0, and every later collect's rates are deltas against the collect before it |
| Monitor.Engine.constructor | backend/src/monitor.c:8-12 | the statics start at zero with the first-run flag set |
| Monitor.Engine.Collect | backend/src/monitor.c:174-212 | monitor_collect produces the metrics and the new statics of the step function `Collected` |
| Monitor.Engine.Init | backend/src/monitor.c:14-19 | monitor_init performs one collect and then clears the first-run flag |
| History.SpanWindow | backend/src/db.c:95-117 | every span selects an interval of at least one second and a start at most 30 days back whose distance from now is a whole number of intervals |
| History.SpanTable | backend/src/db.c:99-117 | the exact (start, interval) pair of each of the five spans, with 14400 s for "30d"; every other string, including "realtime" and "", gives the "1m" window |
| History.TruncDiv | backend/src/db.c:123 | SQLite's integer division truncates toward zero: for a non-negative timestamp the quotient times the interval lies in (timestamp - interval, timestamp], for a negative one in [timestamp, timestamp + interval), and it never changes sign |
| History.BucketKey | backend/src/db.c:123 | a bucket key is a multiple of the interval; a non-negative timestamp lies in [key, key + interval) and a negative one in (key - interval, key] |
| History.InWindow | backend/src/db.c:131 | a sample is kept exactly when it is in the table and its timestamp is at least the start, and it is kept as many times as it is stored |
| History.Aggregate | backend/src/db.c:122-133 | the groups are in strictly ascending key order, their keys are exactly the keys of the samples, and none is empty |
| History.AggregateFind | backend/src/db.c:122-133 | the group found under a key is the reference group of exactly the samples with that key, and there is one exactly when some sample has that key |
| History.AggregateSound | backend/src/db.c:122-133 | every group equals the reference group of its key, and some sample has that key |
| History.AggregateComplete | backend/src/db.c:122-133 | every sample's key has a group |
| History.QueryHistory | backend/src/db.c:92-140 | there are no rows (NULL) exactly when the database is not open or the statement cannot be prepared |
| History.DownsampleOrdered | backend/src/db.c:122-133 | the rows are in strictly ascending timestamp order and every row timestamp is a multiple of the interval |
| History.DownsampleSound | backend/src/db.c:122-131 | every row is the bucket of some sample in the window, and its values are the averages over exactly the samples in the window with that key |
| History.DownsampleComplete | backend/src/db.c:122-133 | every sample in the window has its bucket among the rows |
| JsonBody.JsonArrayShape | backend/src/db.c:142-169 | the body starts with '[' and ends with ']', is "[]" without rows, and is as long as the row texts plus the brackets plus one separator between each two rows |
| JsonBody.JsonArrayCommas | backend/src/db.c:148-153 | besides the commas inside the row texts, the body holds exactly n - 1 commas for n rows |
| JsonBody.JsonBuffer.constructor | backend/src/db.c:142-146 | the body starts as a 4096-byte allocation holding "[" |
| JsonBody.JsonBuffer.Append | backend/src/db.c:72-90 | json_append leaves the old text followed by the new one and a terminator, grows the length by the text's length, and reallocates to twice the old capacity plus the needed size exactly when the text and terminator do not fit |
| JsonBody.JsonBuffer.Reserve | backend/src/db.c:82-85 | the capacity check keeps the text and length, and when `len + needed >= cap` reallocates to `(cap + needed) * 2` with the old contents copied |
| JsonBody.JsonBuffer.Write | backend/src/db.c:87-88 | the formatted write puts the text and a terminator right after the current text, in place |
| JsonBody.AssembleBody | backend/src/db.c:142-169 | the row loop with its first-row flag produces exactly "[", the row texts joined by commas, and "]" |
| JsonBody.DbQueryHistory | backend/src/db.c:92-173 | db_query_history returns NULL exactly when the database is not open or the statement cannot be prepared; otherwise, with every step delivering its row, the JSON array of the formatted query rows in order, "[]" when there are none |
| Server.CStr | backend/src/server.c:32-37 | the text C string functions see holds no NUL and is the part of the buffer before its first NUL |
| Server.IndexOf | backend/src/server.c:16 | strstr finds the first position where the key occurs, or reports that it occurs nowhere |
| Server.QueryKey | backend/src/server.c:14-15 | the key is the parameter name followed by '=', cut to the 63 characters the 64-byte buffer holds |
| Server.TakeValueSpec | backend/src/server.c:19-24 | the copied value is a prefix of the text after the key, holds no space or '&', is at most the limit long, and stops only at the limit, at the end of the text, or before a space or '&' |
| Server.ParamValueSpec | backend/src/server.c:13-28 | without an occurrence of `param=` the value is empty; otherwise it is taken from the text right after the first occurrence, at most `max_len - 1` characters, with no space, '&' or NUL |
| Server.CopyValue | backend/src/server.c:19-24 | the copy loop leaves exactly the value it takes (a prefix of the text after the key, stopped by a space, '&', the end or the limit) followed by a NUL, and every later byte unchanged |
| Server.GetQueryParam | backend/src/server.c:13-28 | get_query_param leaves exactly the parameter's value followed by a NUL at the start of the caller's array, and every later byte unchanged |
| Server.SpanParam | backend/src/server.c:52-53 | the span handed to the query has at most 15 characters; a request without "span=" overwrites the "realtime" default with "", which selects the "1m" window |
| Server.DecimalRoundTrip | backend/src/server.c:62-63 | the Content-Length digits are decimal digits that read back as the number written |
| Server.ContentLengthMatches | backend/src/server.c:57-65 | a 200 reply is the fixed header prefix, the decimal length of the body, a blank line and the body, and the length read back is the body's length |
| Server.BodyIsWholeArray | backend/src/server.c:63-65 | when no row text holds a NUL, the body written is the whole JSON array |
| Server.HandleClient | backend/src/server.c:30-77 | an empty or failed read gives no reply; "OPTIONS" gives the 204 preflight; "GET /api/history" gives a 200 with the history of its span and a matching Content-Length, or the 500 db error when there is no result; anything else gives 404 (row stepping as for JsonBody.DbQueryHistory) |

## Left out

- Reading `/proc/stat`, `/proc/meminfo`, `/proc/net/dev` and `/proc/diskstats` is not modelled. `fopen`, `fgets` and `sscanf` are replaced by parsed records, and a failed open is `None`.
- `fgets` splitting a line longer than its buffer into several pieces is not modelled.
- Monitor.Engine.CpuUsage: the return value of `sscanf` on the /proc/stat line is not checked by the source. A line that parses short leaves C variables uninitialised, which the model cannot express, so the reading is taken as complete.
- Monitor.Percent: the `double` division and the multiplication by 100.0 are exact real arithmetic here. The conversion of `uint64_t` to `double` and its rounding are not modelled.
- The `if` at backend/src/monitor.c:140-145 has an empty body and no effect. It is not modelled.
- `time(NULL)` is the input `clock` of `Monitor.Readings` and the input `now` of the history query.
- SQLite itself is not modelled: opening, preparing, stepping and finalising. So are `db_init`, `db_close` and `db_insert_metrics`, along with the `%.2f` rounding of the stored percentages. The database is a sequence of samples, and preparation failure is a boolean.
- History.Average: SQLite's floating-point `AVG` is exact real division here.
- JsonBody.DbQueryHistory: a `sqlite3_step` that fails ends the row loop at `backend/src/db.c:149` without any error. The source then returns the rows read so far, and "[]" when the first step fails, which looks the same as an empty window. The model takes every step as delivering its row, so it always returns all the rows of the query.
- JsonBody.Texts: the `vsnprintf` formatting of a row (`%ld`, `%.2f`, `%.0f`) is an input function from row to text.
- JsonBody.JsonBuffer.Append: `malloc`/`realloc` failure and `size_t` overflow of the capacity are not modelled. `realloc` is a fresh array plus a copy, so the address is not kept.
- Server.HandleClient: sockets, `read` errors versus end of stream (both close without a reply), `write`, `close`, `free` and the 256-byte header buffer's truncation are not modelled. A 200 reply's header is far shorter than 256 bytes.
- `server_start` is not modelled: socket setup, `accept`, and one detached thread per client. Neither is concurrency between the collector thread and request threads.
- `backend/src/main.c` is not modelled: the once-a-second loop, `sleep` and the insert of each sample. The frontend is not part of this model either.
