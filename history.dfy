/** The history query of backend/src/db.c (db_query_history): the span
    table and the meaning of its SQL statement

      SELECT (timestamp / interval) * interval AS ts_group, AVG(...) ...
      FROM stats WHERE timestamp >= start GROUP BY ts_group ORDER BY ts_group ASC

    as a function over the rows of the `stats` table. The database itself
    is a sequence of samples in insertion order. */
module History {
  import opened Wrappers

  /** A row of the `stats` table. */
  datatype Sample = Sample(timestamp: int, cpu: real, memory: real,
                           netRx: int, netTx: int, diskRead: int, diskWrite: int)

  /** The time range and bucket width a span selects. */
  datatype Window = Window(start: int, interval: int)

  /** One output row: a bucket start and the averages of its samples. */
  datatype Row = Row(timestamp: int, cpu: real, memory: real,
                     netRx: real, netTx: real, diskRead: real, diskWrite: real)

  /** The span table, matched exactly and case-sensitively; any other
      string selects the last 60 seconds at one-second resolution. */
  function SpanWindow(span: string, now: int): (w: Window)
    ensures w.interval >= 1
    ensures now - 30 * 24 * 3600 <= w.start <= now
    ensures (now - w.start) % w.interval == 0
  {
    if span == "30d" then Window(now - 30 * 24 * 3600, 3600 * 4)
    else if span == "7d" then Window(now - 7 * 24 * 3600, 3600)
    else if span == "1d" then Window(now - 24 * 3600, 300)
    else if span == "1h" then Window(now - 3600, 60)
    else if span == "1m" then Window(now - 60, 1)
    else Window(now - 60, 1)
  }

  predicate KnownSpan(span: string) {
    span in {"30d", "7d", "1d", "1h", "1m"}
  }

  /** The table with its constants multiplied out: the 30-day span groups
      by 14400 s (four hours). Every unknown span, including "" and
      "realtime", gives the same window as "1m". */
  lemma SpanTable(span: string, now: int)
    ensures SpanWindow("30d", now) == Window(now - 2592000, 14400)
    ensures SpanWindow("7d", now) == Window(now - 604800, 3600)
    ensures SpanWindow("1d", now) == Window(now - 86400, 300)
    ensures SpanWindow("1h", now) == Window(now - 3600, 60)
    ensures SpanWindow("1m", now) == Window(now - 60, 1)
    ensures !KnownSpan(span) ==> SpanWindow(span, now) == SpanWindow("1m", now)
    ensures !KnownSpan("realtime") && !KnownSpan("") && !KnownSpan("30D")
  {
  }

  /** SQLite's integer division truncates toward zero: a non-negative
      dividend lies in [q*b, q*b + b), a negative one in (q*b - b, q*b],
      and the quotient times the divisor never changes sign. */
  function TruncDiv(a: int, b: int): (q: int)
    requires b > 0
    ensures 0 <= a ==> 0 <= q * b <= a < q * b + b
    ensures a < 0 ==> q * b - b < a <= q * b <= 0
  {
    if a >= 0 then
      DivBounds(a, b);
      a / b
    else
      DivBounds(-a, b);
      assert (-((-a) / b)) * b == -(((-a) / b) * b);
      -((-a) / b)
  }

  /** Euclidean division of a non-negative number by a positive one. */
  lemma DivBounds(n: int, b: int)
    requires n >= 0 && b > 0
    ensures 0 <= (n / b) * b <= n < (n / b) * b + b
  {
    var q, r := n / b, n % b;
    assert n == q * b + r && 0 <= r < b;
    assert q >= 0;
    MultipleBound(q, b);
  }

  /** The group a timestamp falls in: `(timestamp / interval) * interval`.
      A non-negative timestamp lies in [key, key + interval); because the
      division truncates, a negative one lies in (key - interval, key]. */
  function BucketKey(ts: int, interval: int): (k: int)
    requires interval >= 1
    ensures k % interval == 0
    ensures 0 <= ts ==> k <= ts < k + interval
    ensures ts < 0 ==> k - interval < ts <= k
  {
    var q := TruncDiv(ts, interval);
    MultipleMod(q, interval);
    q * interval
  }

  lemma MultipleMod(q: int, b: int)
    requires b >= 1
    ensures (q * b) % b == 0
  {
    var x := q * b;
    var d, r := x / b, x % b;
    assert x == d * b + r && 0 <= r < b;
    assert r == (q - d) * b;
    MultipleBound(q - d, b);
  }

  lemma MultipleBound(m: int, b: int)
    requires b >= 1
    ensures m >= 1 ==> m * b >= b
    ensures m <= -1 ==> m * b <= -b
    ensures m >= 0 ==> m * b >= 0
  {
  }

  /** The running sums of one group. */
  datatype Acc = Acc(key: int, count: nat, cpu: real, memory: real,
                     netRx: int, netTx: int, diskRead: int, diskWrite: int)

  function Empty(key: int): Acc {
    Acc(key, 0, 0.0, 0.0, 0, 0, 0, 0)
  }

  function Add(a: Acc, x: Sample): Acc {
    Acc(a.key, a.count + 1, a.cpu + x.cpu, a.memory + x.memory,
        a.netRx + x.netRx, a.netTx + x.netTx, a.diskRead + x.diskRead, a.diskWrite + x.diskWrite)
  }

  function KeySet(accs: seq<Acc>): set<int> {
    set a | a in accs :: a.key
  }

  /** Keys strictly increase from each group to the next. */
  predicate Ascending(accs: seq<Acc>) {
    |accs| <= 1 || (accs[0].key < accs[1].key && Ascending(accs[1..]))
  }

  lemma {:induction false} AscendingOrdered(accs: seq<Acc>)
    requires Ascending(accs)
    ensures forall i, j :: 0 <= i < j < |accs| ==> accs[i].key < accs[j].key
  {
    if |accs| > 1 {
      AscendingOrdered(accs[1..]);
      forall j | 1 <= j < |accs| ensures accs[0].key < accs[j].key {
        assert accs[1..][0] == accs[1];
        if j > 1 {
          assert accs[1..][j - 1] == accs[j];
        }
      }
      forall i, j | 0 <= i < j < |accs| ensures accs[i].key < accs[j].key {
        if i > 0 {
          assert accs[1..][i - 1] == accs[i] && accs[1..][j - 1] == accs[j];
        }
      }
    }
  }

  lemma KeySetCons(a: Acc, rest: seq<Acc>)
    ensures KeySet([a] + rest) == {a.key} + KeySet(rest)
  {
    assert forall b :: b in [a] + rest <==> b == a || b in rest;
  }

  /** Adds a sample to the group with key `k`, creating that group in its
      place in key order when there is none yet. */
  function Insert(accs: seq<Acc>, k: int, x: Sample): (r: seq<Acc>)
    requires Ascending(accs)
    ensures Ascending(r)
    ensures r != [] && r[0].key == if accs == [] || k < accs[0].key then k else accs[0].key
    ensures KeySet(r) == KeySet(accs) + {k}
    ensures (forall a :: a in accs ==> a.count > 0) ==> forall a :: a in r ==> a.count > 0
  {
    if accs == [] then [Add(Empty(k), x)]
    else
      assert accs == [accs[0]] + accs[1..];
      KeySetCons(accs[0], accs[1..]);
      if accs[0].key == k then
        KeySetCons(Add(accs[0], x), accs[1..]);
        [Add(accs[0], x)] + accs[1..]
      else if k < accs[0].key then
        KeySetCons(Add(Empty(k), x), accs);
        [Add(Empty(k), x)] + accs
      else
        var rest := Insert(accs[1..], k, x);
        KeySetCons(accs[0], rest);
        var r := [accs[0]] + rest;
        assert r[1..] == rest;
        r
  }

  /** The keys of the samples. */
  function SampleKeys(samples: seq<Sample>, interval: int): set<int>
    requires interval >= 1
  {
    set x | x in samples :: BucketKey(x.timestamp, interval)
  }

  /** GROUP BY ts_group ORDER BY ts_group: one group per distinct key, in
      ascending key order, none of them empty. */
  function Aggregate(samples: seq<Sample>, interval: int): (r: seq<Acc>)
    requires interval >= 1
    ensures Ascending(r)
    ensures KeySet(r) == SampleKeys(samples, interval)
    ensures forall a :: a in r ==> a.count > 0
  {
    if samples == [] then []
    else
      var r := Insert(Aggregate(samples[1..], interval), BucketKey(samples[0].timestamp, interval), samples[0]);
      assert SampleKeys(samples, interval)
          == SampleKeys(samples[1..], interval) + {BucketKey(samples[0].timestamp, interval)} by {
        assert forall x :: x in samples <==> x == samples[0] || x in samples[1..];
      }
      r
  }

  /** The reference meaning of one group: the sums over exactly the samples
      whose key is `k`. */
  function Group(samples: seq<Sample>, interval: int, k: int): Acc
    requires interval >= 1
  {
    if samples == [] then Empty(k)
    else
      var g := Group(samples[1..], interval, k);
      if BucketKey(samples[0].timestamp, interval) == k then Add(g, samples[0]) else g
  }

  /** The group with key `k`, if there is one. */
  function Find(accs: seq<Acc>, k: int): (r: Option<Acc>)
    ensures r.None? <==> k !in KeySet(accs)
    ensures r.Some? ==> r.value.key == k && r.value in accs
  {
    if accs == [] then None
    else if accs[0].key == k then Some(accs[0])
    else
      assert KeySet(accs) == {accs[0].key} + KeySet(accs[1..]) by {
        assert forall a :: a in accs <==> a == accs[0] || a in accs[1..];
      }
      Find(accs[1..], k)
  }

  function FindOr(accs: seq<Acc>, k: int): Acc {
    match Find(accs, k)
    case None => Empty(k)
    case Some(a) => a
  }

  lemma {:induction false} FindAt(accs: seq<Acc>, i: int)
    requires Ascending(accs)
    requires 0 <= i < |accs|
    ensures Find(accs, accs[i].key) == Some(accs[i])
  {
    if i > 0 {
      AscendingOrdered(accs);
      FindAt(accs[1..], i - 1);
    }
  }

  lemma {:induction false} InsertFind(accs: seq<Acc>, k: int, x: Sample, j: int)
    requires Ascending(accs)
    ensures Find(Insert(accs, k, x), j) == if j == k then Some(Add(FindOr(accs, k), x)) else Find(accs, j)
  {
    if accs != [] && k < accs[0].key {
      AscendingOrdered(accs);
      assert k !in KeySet(accs);
    } else if accs != [] && k > accs[0].key {
      InsertFind(accs[1..], k, x, j);
    }
  }

  lemma {:induction false} GroupAbsent(samples: seq<Sample>, interval: int, k: int)
    requires interval >= 1
    requires k !in SampleKeys(samples, interval)
    ensures Group(samples, interval, k) == Empty(k)
  {
    if samples != [] {
      assert samples[0] in samples;
      assert SampleKeys(samples[1..], interval) <= SampleKeys(samples, interval);
      GroupAbsent(samples[1..], interval, k);
    }
  }

  /** Each group the aggregation produces holds exactly the sums of the
      samples with its key, and there is a group for a key exactly when
      some sample has that key. */
  lemma {:induction false} AggregateFind(samples: seq<Sample>, interval: int, k: int)
    requires interval >= 1
    ensures Find(Aggregate(samples, interval), k)
         == if k in SampleKeys(samples, interval) then Some(Group(samples, interval, k)) else None
  {
    if samples != [] {
      var t := samples[1..];
      var kx := BucketKey(samples[0].timestamp, interval);
      assert SampleKeys(samples, interval) == SampleKeys(t, interval) + {kx} by {
        assert forall x :: x in samples <==> x == samples[0] || x in t;
      }
      InsertFind(Aggregate(t, interval), kx, samples[0], k);
      AggregateFind(t, interval, k);
      if k == kx {
        AggregateFind(t, interval, kx);
        if kx !in SampleKeys(t, interval) {
          GroupAbsent(t, interval, kx);
        }
      }
    }
  }

  /** WHERE timestamp >= start, keeping the table's order and every
      matching row as often as it is stored. */
  function InWindow(store: seq<Sample>, start: int): (r: seq<Sample>)
    ensures forall x :: x in r <==> x in store && x.timestamp >= start
    ensures forall y :: multiset(r)[y] == if y.timestamp >= start then multiset(store)[y] else 0
  {
    if store == [] then []
    else
      var rest := InWindow(store[1..], start);
      assert store == [store[0]] + store[1..];
      assert multiset(store) == multiset{store[0]} + multiset(store[1..]);
      if store[0].timestamp >= start then
        assert multiset([store[0]] + rest) == multiset{store[0]} + multiset(rest);
        [store[0]] + rest
      else rest
  }

  /** The AVG(...) columns of one group. */
  function Average(a: Acc): Row
    requires a.count > 0
  {
    var n := a.count as real;
    Row(a.key, a.cpu / n, a.memory / n, (a.netRx as real) / n, (a.netTx as real) / n,
        (a.diskRead as real) / n, (a.diskWrite as real) / n)
  }

  /** The rows the statement returns for a window. */
  function Downsample(store: seq<Sample>, w: Window): (rows: seq<Row>)
    requires w.interval >= 1
  {
    Rows(Aggregate(InWindow(store, w.start), w.interval))
  }

  /** The rows the statement returns for a span at time `now`. */
  function Query(store: seq<Sample>, span: string, now: int): seq<Row> {
    Downsample(store, SpanWindow(span, now))
  }

  /** db_query_history before the JSON text is built: no result when the
      database is not open or the statement cannot be prepared; otherwise
      the rows, possibly none. */
  function QueryHistory(db: Option<seq<Sample>>, prepared: bool, span: string, now: int): (r: Option<seq<Row>>)
    ensures r.None? <==> db.None? || !prepared
  {
    if db.None? || !prepared then None else Some(Query(db.value, span, now))
  }

  /** Each group is the reference group of its key, and that key belongs
      to some sample. */
  lemma AggregateSound(samples: seq<Sample>, interval: int, i: int)
    requires interval >= 1
    requires 0 <= i < |Aggregate(samples, interval)|
    ensures var a := Aggregate(samples, interval)[i];
      && a == Group(samples, interval, a.key)
      && exists x :: x in samples && BucketKey(x.timestamp, interval) == a.key
  {
    var accs := Aggregate(samples, interval);
    assert accs[i].key in KeySet(accs) by { assert accs[i] in accs; }
    FindAt(accs, i);
    AggregateFind(samples, interval, accs[i].key);
  }

  /** Every sample's key has a group. */
  lemma AggregateComplete(samples: seq<Sample>, interval: int, x: Sample)
    requires interval >= 1
    requires x in samples
    ensures exists i :: 0 <= i < |Aggregate(samples, interval)|
                && Aggregate(samples, interval)[i].key == BucketKey(x.timestamp, interval)
  {
    var accs := Aggregate(samples, interval);
    assert BucketKey(x.timestamp, interval) in SampleKeys(samples, interval);
    var a :| a in accs && a.key == BucketKey(x.timestamp, interval);
    var i :| 0 <= i < |accs| && accs[i] == a;
  }

  function Rows(accs: seq<Acc>): (rows: seq<Row>)
    requires forall a :: a in accs ==> a.count > 0
    ensures |rows| == |accs|
    ensures forall i :: 0 <= i < |accs| ==> rows[i] == Average(accs[i])
  {
    seq(|accs|, i requires 0 <= i < |accs| => Average(accs[i]))
  }

  /** The rows of a history query are in strictly ascending bucket order,
      and each row's bucket start is a multiple of the interval. */
  lemma {:induction false} DownsampleOrdered(store: seq<Sample>, w: Window)
    requires w.interval >= 1
    ensures var rows := Downsample(store, w);
      && (forall i, j :: 0 <= i < j < |rows| ==> rows[i].timestamp < rows[j].timestamp)
      && (forall i :: 0 <= i < |rows| ==> rows[i].timestamp % w.interval == 0)
  {
    var accs := Aggregate(InWindow(store, w.start), w.interval);
    AscendingOrdered(accs);
    forall i | 0 <= i < |accs| ensures accs[i].key % w.interval == 0 {
      AggregateSound(InWindow(store, w.start), w.interval, i);
    }
  }

  /** Every row is the bucket of some sample in the window, and its values
      are the averages over exactly the window's samples with that key. */
  lemma {:induction false} DownsampleSound(store: seq<Sample>, w: Window, i: int)
    requires w.interval >= 1
    requires 0 <= i < |Downsample(store, w)|
    ensures var row := Downsample(store, w)[i];
      && (exists x :: x in store && x.timestamp >= w.start && BucketKey(x.timestamp, w.interval) == row.timestamp)
      && var g := Group(InWindow(store, w.start), w.interval, row.timestamp);
         g.count > 0 && row == Average(g)
  {
    var accs := Aggregate(InWindow(store, w.start), w.interval);
    assert accs[i] in accs;
    AggregateSound(InWindow(store, w.start), w.interval, i);
  }

  /** Every sample in the window has its bucket among the rows. */
  lemma {:induction false} DownsampleComplete(store: seq<Sample>, w: Window, x: Sample)
    requires w.interval >= 1
    requires x in store && x.timestamp >= w.start
    ensures exists i :: 0 <= i < |Downsample(store, w)|
              && Downsample(store, w)[i].timestamp == BucketKey(x.timestamp, w.interval)
  {
    var accs := Aggregate(InWindow(store, w.start), w.interval);
    AggregateComplete(InWindow(store, w.start), w.interval, x);
    var i :| 0 <= i < |accs| && accs[i].key == BucketKey(x.timestamp, w.interval);
    assert Downsample(store, w)[i].timestamp == accs[i].key;
  }
}
