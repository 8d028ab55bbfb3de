/**
 Export of one scope's audit rows to an append-only sink. Any number of passes run at
 once over a table that only gains rows; the watermark row is written last, and a pass
 may stop anywhere.
 */
module AuditExport {
  import opened Basics
  import opened Text

  /** A row as it leaves the table: its number and its canonical body. */
  datatype Entry = Entry(number: nat, line: Text)

  datatype Object = Object(first: nat, last: int, lines: seq<Text>)

  /** Between the queries and writes of one pass. */
  datatype Pass =
    | Scoped(max: nat, watermark: nat)
    | Fetched(first: nat, last: int, lines: seq<Text>)
    | Shipped(first: nat, last: int)

  /** `logged` holds the numbers that were only logged, for want of a bucket. */
  datatype World = World(
    table: map<nat, Text>,
    sink: seq<Object>,
    logged: set<nat>,
    watermark: nat,
    passes: map<nat, Pass>)

  datatype Event =
    | Record(number: nat, line: Text)
    | Query(t: nat, max: nat)
    | Fetch(t: nat, rows: seq<Entry>)
    | Ship(t: nat)
    | LogOnly(t: nat)
    | Advance(t: nat)
    | Stop(t: nat)

  /** Event `e` is a step of pass `t`. */
  predicate By(e: Event, t: nat) {
    match e
    case Record(_, _) => false
    case Query(u, _) => u == t
    case Fetch(u, _) => u == t
    case Ship(u) => u == t
    case LogOnly(u) => u == t
    case Advance(u) => u == t
    case Stop(u) => u == t
  }

  function End(p: Pass, batch: nat): int
    requires p.Scoped?
  {
    Min(p.max, p.watermark + batch)
  }

  /** `seq BETWEEN first AND last ORDER BY seq`: the unique index makes the order strict. */
  predicate Answers(table: map<nat, Text>, first: int, last: int, rows: seq<Entry>) {
    && (forall i :: 0 <= i < |rows| ==>
      first <= rows[i].number <= last && rows[i].number in table && rows[i].line == table[rows[i].number])
    && (forall i, j :: 0 <= i < j < |rows| ==> rows[i].number < rows[j].number)
    && (forall n :: n in table && first <= n <= last ==> exists i :: 0 <= i < |rows| && rows[i].number == n)
  }

  predicate Enabled(w: World, batch: nat, e: Event) {
    match e
    case Record(n, _) => 1 <= n && n !in w.table
    case Query(t, max) => t !in w.passes && max in w.table && forall n :: n in w.table ==> n <= max
    case Fetch(t, rows) =>
      && t in w.passes && w.passes[t].Scoped?
      && Answers(w.table, w.passes[t].watermark + 1, End(w.passes[t], batch), rows)
    case Ship(t) => t in w.passes && w.passes[t].Fetched?
    case LogOnly(t) => t in w.passes && w.passes[t].Fetched?
    case Advance(t) => t in w.passes && w.passes[t].Shipped? && 0 <= w.passes[t].last
    case Stop(t) => t in w.passes
  }

  function Numbers(first: nat, last: int): (r: set<nat>)
    ensures forall n :: n in r <==> first <= n <= last
    decreases last - first
  {
    if last < first then {} else Numbers(first, last - 1) + {last}
  }

  function LinesOf(rows: seq<Entry>): (r: seq<Text>)
    ensures |r| == |rows|
  {
    seq(|rows|, i requires 0 <= i < |rows| => rows[i].line)
  }

  function Apply(w: World, batch: nat, e: Event): World
    requires Enabled(w, batch, e)
  {
    match e
    case Record(n, line) => w.(table := w.table[n := line])
    case Query(t, max) => w.(passes := w.passes[t := Scoped(max, w.watermark)])
    case Fetch(t, rows) =>
      var p := w.passes[t];
      var last := End(p, batch);
      if p.max <= p.watermark || |rows| != last - p.watermark then w.(passes := w.passes - {t})
      else w.(passes := w.passes[t := Fetched(p.watermark + 1, last, LinesOf(rows))])
    case Ship(t) =>
      var p := w.passes[t];
      w.(sink := w.sink + [Object(p.first, p.last, p.lines)], passes := w.passes[t := Shipped(p.first, p.last)])
    case LogOnly(t) =>
      var p := w.passes[t];
      w.(logged := w.logged + Numbers(p.first, p.last), passes := w.passes[t := Shipped(p.first, p.last)])
    case Advance(t) => w.(watermark := w.passes[t].last, passes := w.passes - {t})
    case Stop(t) => w.(passes := w.passes - {t})
  }

  // ---------- the gap test ----------

  /** As many rows as numbers means no number is missing: each row stands where it should. */
  lemma {:induction false} NoGap(first: int, last: int, rows: seq<Entry>, i: nat)
    requires forall k :: 0 <= k < |rows| ==> first <= rows[k].number <= last
    requires forall j, k :: 0 <= j < k < |rows| ==> rows[j].number < rows[k].number
    requires |rows| == last - first + 1 && i < |rows|
    ensures rows[i].number == first + i
  {
    AtLeast(first, rows, i);
    AtMost(last, rows, i);
  }

  lemma {:induction false} AtLeast(first: int, rows: seq<Entry>, i: nat)
    requires forall k :: 0 <= k < |rows| ==> first <= rows[k].number
    requires forall j, k :: 0 <= j < k < |rows| ==> rows[j].number < rows[k].number
    requires i < |rows|
    ensures first + i <= rows[i].number
  {
    if i > 0 { AtLeast(first, rows, i - 1); }
  }

  lemma {:induction false} AtMost(last: int, rows: seq<Entry>, i: nat)
    requires forall k :: 0 <= k < |rows| ==> rows[k].number <= last
    requires forall j, k :: 0 <= j < k < |rows| ==> rows[j].number < rows[k].number
    requires i < |rows|
    ensures rows[i].number <= last - (|rows| - 1 - i)
    decreases |rows| - i
  {
    if i + 1 < |rows| { AtMost(last, rows, i + 1); }
  }

  /** The gap test passes exactly when every number of the batch is in the table. */
  lemma GapTestIsExact(table: map<nat, Text>, first: nat, last: int, rows: seq<Entry>)
    requires Answers(table, first, last, rows) && first <= last + 1
    ensures |rows| == last - first + 1 <==> forall n :: first <= n <= last ==> n in table
    ensures |rows| == last - first + 1 ==> forall i :: 0 <= i < |rows| ==> rows[i] == Entry(first + i, table[first + i])
  {
    if |rows| == last - first + 1 {
      forall i | 0 <= i < |rows| ensures rows[i].number == first + i { NoGap(first, last, rows, i); }
      forall n | first <= n <= last ensures n in table { assert rows[n - first].number == n; }
    } else if forall n :: first <= n <= last ==> n in table {
      AllThere(table, first, last, rows, last - first + 1);
      if |rows| > last - first + 1 { AtLeast(first, rows, |rows| - 1); }
    }
  }

  /** With every number present, the answer has all of them. */
  lemma {:induction false} AllThere(table: map<nat, Text>, first: nat, last: int, rows: seq<Entry>, k: nat)
    requires Answers(table, first, last, rows) && k <= last - first + 1
    requires forall n :: first <= n <= last ==> n in table
    ensures |rows| >= k && forall i :: 0 <= i < k ==> rows[i].number == first + i
  {
    if k > 0 {
      AllThere(table, first, last, rows, k - 1);
      var n := first + k - 1;
      assert n in table;
      var i :| 0 <= i < |rows| && rows[i].number == n;
      if i >= k { assert rows[k - 1].number < n; AtLeast(first, rows, k - 1); }
    }
  }

  // ---------- what every reachable state satisfies ----------

  predicate InSink(w: World, n: nat) {
    exists i :: 0 <= i < |w.sink| && w.sink[i].first <= n <= w.sink[i].last
  }

  /** Rows 1 to `n` exist and have each been shipped, or logged in place of shipping. */
  ghost predicate Done(w: World, n: int) {
    forall k :: 1 <= k <= n ==> k in w.table && (InSink(w, k) || k in w.logged)
  }

  /** `lines` is what the table has from `first` to `last`. */
  predicate Copies(table: map<nat, Text>, first: nat, last: int, lines: seq<Text>) {
    && |lines| == last - first + 1
    && forall k :: first <= k <= last ==> k in table && lines[k - first] == table[k]
  }

  ghost predicate PassSound(w: World, p: Pass) {
    match p
    case Scoped(max, wm) => max in w.table && Done(w, wm)
    case Fetched(first, last, lines) => 1 <= first && Done(w, first - 1) && Copies(w.table, first, last, lines)
    case Shipped(first, last) => 1 <= first <= last + 1 && Done(w, last)
  }

  ghost predicate Sound(w: World) {
    && Done(w, w.watermark)
    && 0 !in w.table
    && (forall t :: t in w.passes ==> PassSound(w, w.passes[t]))
    && (forall i :: 0 <= i < |w.sink| ==> 1 <= w.sink[i].first && Copies(w.table, w.sink[i].first, w.sink[i].last, w.sink[i].lines))
  }

  /** Nothing leaves the table, the sink or the log. */
  ghost predicate Grows(w: World, w': World) {
    && (forall n :: n in w.table ==> n in w'.table && w'.table[n] == w.table[n])
    && w.sink <= w'.sink && w.logged <= w'.logged
  }

  lemma StepGrows(w: World, batch: nat, e: Event)
    requires Enabled(w, batch, e)
    ensures Grows(w, Apply(w, batch, e))
  {}

  lemma DoneStays(w: World, w': World, n: int)
    requires Grows(w, w') && Done(w, n)
    ensures Done(w', n)
  {
    forall k | 1 <= k <= n ensures k in w'.table && (InSink(w', k) || k in w'.logged) {
      if InSink(w, k) {
        var i :| 0 <= i < |w.sink| && w.sink[i].first <= k <= w.sink[i].last;
        assert w'.sink[i] == w.sink[i];
      }
    }
  }

  lemma PassStays(w: World, w': World, p: Pass)
    requires Grows(w, w') && PassSound(w, p)
    ensures PassSound(w', p)
  {
    hide Done;
    match p
    case Scoped(_, wm) => DoneStays(w, w', wm);
    case Fetched(first, _, _) => DoneStays(w, w', first - 1);
    case Shipped(_, last) => DoneStays(w, w', last);
  }

  lemma RowsCopy(table: map<nat, Text>, first: nat, last: int, rows: seq<Entry>)
    requires Answers(table, first, last, rows) && first <= last + 1 && |rows| == last - first + 1
    ensures Copies(table, first, last, LinesOf(rows))
  {
    hide LinesOf;
    forall k | first <= k <= last ensures k in table && LinesOf(rows)[k - first] == table[k] {
      RowStands(table, first, last, rows, k - first);
    }
  }

  lemma RowStands(table: map<nat, Text>, first: nat, last: int, rows: seq<Entry>, i: nat)
    requires Answers(table, first, last, rows) && |rows| == last - first + 1 && i < |rows|
    ensures first + i in table && LinesOf(rows)[i] == table[first + i]
  {
    NoGap(first, last, rows, i);
  }

  /** What a fetch leaves behind: nothing, or a batch without a gap. */
  lemma FetchIs(w: World, batch: nat, t: nat, rows: seq<Entry>)
    requires Enabled(w, batch, Fetch(t, rows)) && t in Apply(w, batch, Fetch(t, rows)).passes
    ensures var p := w.passes[t];
      && p.max > p.watermark && |rows| == End(p, batch) - p.watermark
      && Answers(w.table, p.watermark + 1, End(p, batch), rows)
      && Apply(w, batch, Fetch(t, rows)).passes[t] == Fetched(p.watermark + 1, End(p, batch), LinesOf(rows))
      && Apply(w, batch, Fetch(t, rows)).table == w.table
  {
    hide Answers, LinesOf;
  }

  /** The pass an event leaves behind is sound. */
  lemma FetchSound(w: World, batch: nat, t: nat, rows: seq<Entry>)
    requires Sound(w) && Enabled(w, batch, Fetch(t, rows)) && t in Apply(w, batch, Fetch(t, rows)).passes
    ensures PassSound(Apply(w, batch, Fetch(t, rows)), Apply(w, batch, Fetch(t, rows)).passes[t])
  {
    var p := w.passes[t];
    assert PassSound(w, p);
    assert Done(w, p.watermark);
    FetchIs(w, batch, t, rows);
    hide Done, Apply, Answers, LinesOf, Copies, Enabled, Sound, Grows;
    var w' := Apply(w, batch, Fetch(t, rows));
    StepGrows(w, batch, Fetch(t, rows));
    DoneStays(w, w', p.watermark);
    RowsCopy(w.table, p.watermark + 1, End(p, batch), rows);
  }

  lemma ShippedSound(w: World, batch: nat, t: nat, e: Event)
    requires Sound(w) && Enabled(w, batch, e) && (e == Ship(t) || e == LogOnly(t))
    ensures var w' := Apply(w, batch, e); PassSound(w', w'.passes[t])
  {
    var w', p := Apply(w, batch, e), w.passes[t];
    assert PassSound(w, p);
    StepGrows(w, batch, e);
    DoneStays(w, w', p.first - 1);
    if e.Ship? { assert w'.sink[|w.sink|] == Object(p.first, p.last, p.lines); }
    forall k | 1 <= k <= p.last ensures k in w'.table && (InSink(w', k) || k in w'.logged) {
      if p.first <= k && e.Ship? { assert w'.sink[|w.sink|].first <= k <= w'.sink[|w.sink|].last; }
    }
  }

  lemma OwnPassSound(w: World, batch: nat, e: Event)
    requires Sound(w) && Enabled(w, batch, e) && !e.Record?
    ensures var w' := Apply(w, batch, e); e.t in w'.passes ==> PassSound(w', w'.passes[e.t])
  {
    match e
    case Fetch(t, rows) => if t in Apply(w, batch, e).passes { FetchSound(w, batch, t, rows); }
    case Ship(_) | LogOnly(_) => ShippedSound(w, batch, e.t, e);
    case Query(_, _) => DoneStays(w, Apply(w, batch, e), w.watermark);
    case Advance(_) | Stop(_) =>
  }

  lemma StepKeepsSound(w: World, batch: nat, e: Event)
    requires Sound(w) && Enabled(w, batch, e)
    ensures Sound(Apply(w, batch, e))
  {
    var w' := Apply(w, batch, e);
    StepGrows(w, batch, e);
    if !e.Record? { OwnPassSound(w, batch, e); }
    forall t | t in w'.passes ensures PassSound(w', w'.passes[t]) {
      if e.Record? || t != e.t { PassStays(w, w', w.passes[t]); }
    }
    if e.Advance? {
      assert PassSound(w, w.passes[e.t]);
      DoneStays(w, w', w.passes[e.t].last);
    } else {
      DoneStays(w, w', w.watermark);
    }
    hide Done, PassSound;
    forall i | 0 <= i < |w'.sink|
      ensures 1 <= w'.sink[i].first && Copies(w'.table, w'.sink[i].first, w'.sink[i].last, w'.sink[i].lines)
    {
      if i == |w.sink| { FetchedCopies(w, e.t); }
    }
  }

  lemma FetchedCopies(w: World, t: nat)
    requires Sound(w) && t in w.passes && w.passes[t].Fetched?
    ensures var p := w.passes[t]; 1 <= p.first && Copies(w.table, p.first, p.last, p.lines)
  {
    assert PassSound(w, w.passes[t]);
  }

  // ---------- runs ----------

  ghost predicate Runnable(w: World, batch: nat, es: seq<Event>)
    decreases |es|
  {
    es != [] ==> Enabled(w, batch, es[0]) && Runnable(Apply(w, batch, es[0]), batch, es[1..])
  }

  ghost function Exec(w: World, batch: nat, es: seq<Event>): World
    requires Runnable(w, batch, es)
    decreases |es|
  {
    if es == [] then w else Exec(Apply(w, batch, es[0]), batch, es[1..])
  }

  const EMPTY := World(map[], [], {}, 0, map[])

  lemma {:induction false} RunKeepsSound(w: World, batch: nat, es: seq<Event>)
    requires Sound(w) && Runnable(w, batch, es)
    ensures Sound(Exec(w, batch, es))
    decreases |es|
  {
    hide Sound, Enabled, Apply;
    if es != [] {
      StepKeepsSound(w, batch, es[0]);
      RunKeepsSound(Apply(w, batch, es[0]), batch, es[1..]);
    }
  }

  /**
   Whatever passes overlap or stop, rows 1 to the watermark exist without a gap, each is
   in the sink unless it was only logged, and every object in the sink is a copy of the table.
   */
  lemma WatermarkIsCovered(batch: nat, es: seq<Event>)
    requires Runnable(EMPTY, batch, es)
    ensures var w := Exec(EMPTY, batch, es);
      && (forall n :: 1 <= n <= w.watermark ==> n in w.table && (n in w.logged || InSink(w, n)))
      && (w.watermark > 0 ==> w.watermark in w.table)
      && (forall i :: 0 <= i < |w.sink| ==> Copies(w.table, w.sink[i].first, w.sink[i].last, w.sink[i].lines))
  {
    RunKeepsSound(EMPTY, batch, es);
    assert Done(Exec(EMPTY, batch, es), Exec(EMPTY, batch, es).watermark);
  }

  // ---------- one exporter, no crash between the write and the watermark ----------

  /** Passes follow one another, a bucket is configured, and what was shipped is noted. */
  predicate Orderly(w: World, e: Event) {
    && (e.Query? ==> w.passes == map[])
    && !e.LogOnly?
    && (e.Stop? && e.t in w.passes ==> !w.passes[e.t].Shipped?)
  }

  function Flat(sink: seq<Object>): seq<Text> {
    if sink == [] then [] else Flat(sink[..|sink| - 1]) + sink[|sink| - 1].lines
  }

  /** The sink, read through, is exactly what the table has from 1 to `n`. */
  ghost predicate SinkIs(w: World, n: int) {
    Copies(w.table, 1, n, Flat(w.sink))
  }

  ghost predicate Exact(w: World) {
    && (forall t, u :: t in w.passes && u in w.passes ==> t == u)
    && (forall t :: t in w.passes ==>
      match w.passes[t]
      case Scoped(_, wm) => wm == w.watermark && SinkIs(w, w.watermark)
      case Fetched(first, last, _) => first == w.watermark + 1 <= last + 1 && SinkIs(w, w.watermark)
      case Shipped(first, last) => first == w.watermark + 1 <= last + 1 && SinkIs(w, last))
    && (w.passes == map[] ==> SinkIs(w, w.watermark))
  }

  lemma SinkStays(w: World, w': World, n: int)
    requires SinkIs(w, n) && w'.sink == w.sink && Grows(w, w')
    ensures SinkIs(w', n)
  {}

  lemma ShipExtends(w: World, batch: nat, t: nat)
    requires Sound(w) && Exact(w) && Enabled(w, batch, Ship(t))
    ensures SinkIs(Apply(w, batch, Ship(t)), w.passes[t].last)
  {
    var p, w' := w.passes[t], Apply(w, batch, Ship(t));
    assert PassSound(w, p);
    assert w'.sink[..|w.sink|] == w.sink;
    assert Flat(w'.sink) == Flat(w.sink) + p.lines;
  }

  lemma StepKeepsExact(w: World, batch: nat, e: Event)
    requires Sound(w) && Exact(w) && Enabled(w, batch, e) && Orderly(w, e)
    ensures Exact(Apply(w, batch, e)) && w.watermark <= Apply(w, batch, e).watermark
  {
    var w' := Apply(w, batch, e);
    StepGrows(w, batch, e);
    match e
    case Ship(t) =>
      ShipExtends(w, batch, t);
      assert t in w'.passes;
    case Advance(t) => SinkStays(w, w', w.passes[t].last);
    case Stop(t) => SinkStays(w, w', w.watermark);
    case Query(_, _) => SinkStays(w, w', w.watermark);
    case Fetch(t, _) => SinkStays(w, w', w.watermark);
    case Record(_, _) =>
      forall n | SinkIs(w, n) ensures SinkIs(w', n) { SinkStays(w, w', n); }
  }

  ghost predicate OrderlyRun(w: World, batch: nat, es: seq<Event>)
    requires Runnable(w, batch, es)
    decreases |es|
  {
    es != [] ==> Orderly(w, es[0]) && OrderlyRun(Apply(w, batch, es[0]), batch, es[1..])
  }

  lemma {:induction false} OrderlyKeepsExact(w: World, batch: nat, es: seq<Event>)
    requires Sound(w) && Exact(w) && Runnable(w, batch, es) && OrderlyRun(w, batch, es)
    ensures Exact(Exec(w, batch, es)) && w.watermark <= Exec(w, batch, es).watermark
    decreases |es|
  {
    hide Sound, Exact, Orderly, Enabled, Apply;
    if es != [] {
      StepKeepsSound(w, batch, es[0]);
      StepKeepsExact(w, batch, es[0]);
      OrderlyKeepsExact(Apply(w, batch, es[0]), batch, es[1..]);
    }
  }

  /** Between passes the sink is rows 1 to the watermark, each once and in order; the watermark never falls. */
  lemma ExportedExactlyOnce(batch: nat, es: seq<Event>, fs: seq<Event>)
    requires Runnable(EMPTY, batch, es) && OrderlyRun(EMPTY, batch, es)
    requires Runnable(Exec(EMPTY, batch, es), batch, fs) && OrderlyRun(Exec(EMPTY, batch, es), batch, fs)
    ensures var w, w' := Exec(EMPTY, batch, es), Exec(Exec(EMPTY, batch, es), batch, fs);
      && w.watermark <= w'.watermark
      && (w'.passes == map[] ==> Copies(w'.table, 1, w'.watermark, Flat(w'.sink)))
  {
    RunKeepsSound(EMPTY, batch, es);
    OrderlyKeepsExact(EMPTY, batch, es);
    OrderlyKeepsExact(Exec(EMPTY, batch, es), batch, fs);
  }

  // ---------- without a bucket ----------

  ghost predicate NoDryRun(es: seq<Event>) {
    forall i :: 0 <= i < |es| ==> !es[i].LogOnly?
  }

  lemma {:induction false} NothingLogged(w: World, batch: nat, es: seq<Event>)
    requires Runnable(w, batch, es) && NoDryRun(es)
    ensures Exec(w, batch, es).logged == w.logged
    decreases |es|
  {
    if es != [] {
      forall i | 0 <= i < |es[1..]| ensures !es[1..][i].LogOnly? { assert es[1..][i] == es[i + 1]; }
      NothingLogged(Apply(w, batch, es[0]), batch, es[1..]);
    }
  }

  /** As long as every pass had a bucket, whatever passes overlap or stop, every row to the watermark is in the sink. */
  lemma EverythingIsInSink(batch: nat, es: seq<Event>)
    requires Runnable(EMPTY, batch, es) && NoDryRun(es)
    ensures forall n :: 1 <= n <= Exec(EMPTY, batch, es).watermark ==> InSink(Exec(EMPTY, batch, es), n)
  {
    RunKeepsSound(EMPTY, batch, es);
    NothingLogged(EMPTY, batch, es);
    assert Done(Exec(EMPTY, batch, es), Exec(EMPTY, batch, es).watermark);
  }

  // ---------- when the watermark moves back ----------

  /** The pass started from watermark `wm` and ends no lower. */
  predicate StartedFrom(p: Pass, wm: nat) {
    match p
    case Scoped(_, watermark) => watermark == wm
    case Fetched(first, last, _) => first == wm + 1 <= last + 1
    case Shipped(first, last) => first == wm + 1 <= last + 1
  }

  lemma StartedFromStays(w: World, batch: nat, e: Event, t: nat, wm: nat)
    requires Enabled(w, batch, e) && t in w.passes && StartedFrom(w.passes[t], wm)
    requires t in Apply(w, batch, e).passes && !(e.Query? && e.t == t)
    ensures StartedFrom(Apply(w, batch, e).passes[t], wm)
  {
    hide Answers, LinesOf;
  }

  /** Where the last pass to finish in a run moved the watermark. */
  ghost function LastMove(w: World, batch: nat, es: seq<Event>): Option<int>
    requires Runnable(w, batch, es)
    decreases |es|
  {
    if es == [] then None
    else
      var later := LastMove(Apply(w, batch, es[0]), batch, es[1..]);
      if later.Some? then later
      else if es[0].Advance? then Some(w.passes[es[0].t].last)
      else None
  }

  /** Pass `t` goes on through the whole run and is not started anew. */
  ghost predicate Continues(w: World, batch: nat, es: seq<Event>, t: nat)
    requires Runnable(w, batch, es)
    decreases |es|
  {
    && t in w.passes
    && (es != [] ==> !(es[0].Query? && es[0].t == t) && Continues(Apply(w, batch, es[0]), batch, es[1..], t))
  }

  lemma {:induction false} RunMoves(w: World, batch: nat, es: seq<Event>, t: nat, wm: nat)
    requires Runnable(w, batch, es) && Continues(w, batch, es, t) && StartedFrom(w.passes[t], wm)
    ensures var w', moved := Exec(w, batch, es), LastMove(w, batch, es);
      && t in w'.passes && StartedFrom(w'.passes[t], wm)
      && w'.watermark == if moved.Some? then moved.value else w.watermark
    decreases |es|
  {
    if es != [] {
      var v := Apply(w, batch, es[0]);
      assert t in v.passes;
      StartedFromStays(w, batch, es[0], t, wm);
      assert v.watermark == if es[0].Advance? then w.passes[es[0].t].last else w.watermark;
      hide Enabled, Apply, StartedFrom;
      RunMoves(v, batch, es[1..], t, wm);
    }
  }

  /**
   A pass that writes its watermark lowers it exactly when, since the pass read the
   watermark, another pass has moved it, and the last to do so moved it beyond this pass's end.
   */
  lemma AdvanceLowersIff(w: World, batch: nat, es: seq<Event>, t: nat)
    requires Runnable(w, batch, es) && Continues(w, batch, es, t)
    requires w.passes[t].Scoped? && w.passes[t].watermark == w.watermark
    requires Enabled(Exec(w, batch, es), batch, Advance(t))
    ensures var v, moved := Exec(w, batch, es), LastMove(w, batch, es);
      Apply(v, batch, Advance(t)).watermark < v.watermark <==> moved.Some? && moved.value > v.passes[t].last
  {
    RunMoves(w, batch, es, t, w.watermark);
  }

  /** One pass at a time, whether or not passes stop or lack a bucket. */
  ghost predicate OneAtATime(w: World, batch: nat, es: seq<Event>)
    requires Runnable(w, batch, es)
    decreases |es|
  {
    es != [] ==> (es[0].Query? ==> w.passes == map[]) && OneAtATime(Apply(w, batch, es[0]), batch, es[1..])
  }

  ghost predicate OnePass(w: World) {
    && (forall t, u :: t in w.passes && u in w.passes ==> t == u)
    && (forall t :: t in w.passes ==> StartedFrom(w.passes[t], w.watermark))
  }

  lemma StepKeepsOnePass(w: World, batch: nat, e: Event)
    requires OnePass(w) && Enabled(w, batch, e) && (e.Query? ==> w.passes == map[])
    ensures OnePass(Apply(w, batch, e)) && w.watermark <= Apply(w, batch, e).watermark
  {
    var w' := Apply(w, batch, e);
    hide Answers, LinesOf;
    forall t | t in w'.passes ensures StartedFrom(w'.passes[t], w'.watermark) {
      if !e.Query? { StartedFromStays(w, batch, e, t, w.watermark); }
    }
  }

  lemma {:induction false} OnePassRun(w: World, batch: nat, es: seq<Event>)
    requires OnePass(w) && Runnable(w, batch, es) && OneAtATime(w, batch, es)
    ensures OnePass(Exec(w, batch, es)) && w.watermark <= Exec(w, batch, es).watermark
    decreases |es|
  {
    hide OnePass, Enabled, Apply;
    if es != [] {
      StepKeepsOnePass(w, batch, es[0]);
      OnePassRun(Apply(w, batch, es[0]), batch, es[1..]);
    }
  }

  /** While passes do not overlap the watermark never falls, though passes stop anywhere or only log. */
  lemma WatermarkNeverFalls(batch: nat, es: seq<Event>, fs: seq<Event>)
    requires Runnable(EMPTY, batch, es) && OneAtATime(EMPTY, batch, es)
    requires Runnable(Exec(EMPTY, batch, es), batch, fs) && OneAtATime(Exec(EMPTY, batch, es), batch, fs)
    ensures Exec(EMPTY, batch, es).watermark <= Exec(Exec(EMPTY, batch, es), batch, fs).watermark
  {
    OnePassRun(EMPTY, batch, es);
    OnePassRun(Exec(EMPTY, batch, es), batch, fs);
  }

  // ---------- two such runs ----------

  function DryRunEvents(line: Text): (es: seq<Event>)
    ensures |es| == 5
  {
    [Record(1, line), Query(0, 1), Fetch(0, [Entry(1, line)]), LogOnly(0), Advance(0)]
  }

  function DryRunState(line: Text, i: nat): World {
    var table := map[1 := line];
    if i == 0 then EMPTY
    else if i == 1 then EMPTY.(table := table)
    else if i == 2 then EMPTY.(table := table, passes := map[0 := Scoped(1, 0)])
    else if i == 3 then EMPTY.(table := table, passes := map[0 := Fetched(1, 1, [line])])
    else if i == 4 then EMPTY.(table := table, logged := Numbers(1, 1), passes := map[0 := Shipped(1, 1)])
    else EMPTY.(table := table, logged := Numbers(1, 1), watermark := 1)
  }

  lemma DryRunStep(line: Text, i: nat)
    requires i < 5
    ensures Enabled(DryRunState(line, i), 500, DryRunEvents(line)[i])
    ensures Apply(DryRunState(line, i), 500, DryRunEvents(line)[i]) == DryRunState(line, i + 1)
  {
    if i == 2 {
      assert [Entry(1, line)][0].number == 1;
      assert LinesOf([Entry(1, line)]) == [line];
    }
  }

  lemma {:induction false} DryRunFrom(line: Text, i: nat)
    requires i <= 5
    ensures Runnable(DryRunState(line, i), 500, DryRunEvents(line)[i..])
    ensures Exec(DryRunState(line, i), 500, DryRunEvents(line)[i..]) == DryRunState(line, 5)
    decreases 5 - i
  {
    hide Enabled, Apply, DryRunState, DryRunEvents;
    if i < 5 {
      DryRunStep(line, i);
      DryRunFrom(line, i + 1);
      assert DryRunEvents(line)[i..][1..] == DryRunEvents(line)[i + 1..];
    }
  }

  /** Without a bucket the watermark moves all the same: a run after which row 1 is in no sink. */
  lemma DryRunAdvances(line: Text)
    ensures Runnable(EMPTY, 500, DryRunEvents(line))
    ensures Exec(EMPTY, 500, DryRunEvents(line)).watermark == 1 && !InSink(Exec(EMPTY, 500, DryRunEvents(line)), 1)
  {
    DryRunFrom(line, 0);
    assert DryRunEvents(line)[0..] == DryRunEvents(line);
  }

  function OverlapEvents(line: Text): (es: seq<Event>)
    ensures |es| == 10
  {
    [Record(1, line), Query(0, 1), Record(2, line), Query(1, 2), Fetch(0, [Entry(1, line)]),
     Fetch(1, [Entry(1, line), Entry(2, line)]), Ship(0), Ship(1), Advance(1), Advance(0)]
  }

  function OverlapState(line: Text, i: nat): World {
    var two := map[1 := line, 2 := line];
    var a, b := Object(1, 1, [line]), Object(1, 2, [line, line]);
    if i == 0 then EMPTY
    else if i == 1 then EMPTY.(table := map[1 := line])
    else if i == 2 then EMPTY.(table := map[1 := line], passes := map[0 := Scoped(1, 0)])
    else if i == 3 then EMPTY.(table := two, passes := map[0 := Scoped(1, 0)])
    else if i == 4 then EMPTY.(table := two, passes := map[0 := Scoped(1, 0), 1 := Scoped(2, 0)])
    else if i == 5 then EMPTY.(table := two, passes := map[0 := Fetched(1, 1, [line]), 1 := Scoped(2, 0)])
    else if i == 6 then EMPTY.(table := two, passes := map[0 := Fetched(1, 1, [line]), 1 := Fetched(1, 2, [line, line])])
    else if i == 7 then EMPTY.(table := two, sink := [a], passes := map[0 := Shipped(1, 1), 1 := Fetched(1, 2, [line, line])])
    else if i == 8 then EMPTY.(table := two, sink := [a, b], passes := map[0 := Shipped(1, 1), 1 := Shipped(1, 2)])
    else if i == 9 then EMPTY.(table := two, sink := [a, b], watermark := 2, passes := map[0 := Shipped(1, 1)])
    else EMPTY.(table := two, sink := [a, b], watermark := 1)
  }

  lemma OverlapReads(line: Text, i: nat)
    requires i < 4
    ensures Enabled(OverlapState(line, i), 500, OverlapEvents(line)[i])
    ensures Apply(OverlapState(line, i), 500, OverlapEvents(line)[i]) == OverlapState(line, i + 1)
  {}

  lemma OverlapFetchesOne(line: Text)
    ensures Enabled(OverlapState(line, 4), 500, OverlapEvents(line)[4])
    ensures Apply(OverlapState(line, 4), 500, OverlapEvents(line)[4]) == OverlapState(line, 5)
  {
    assert [Entry(1, line)][0].number == 1;
    assert LinesOf([Entry(1, line)]) == [line];
  }

  lemma OverlapFetchesTwo(line: Text)
    ensures Enabled(OverlapState(line, 5), 500, OverlapEvents(line)[5])
    ensures Apply(OverlapState(line, 5), 500, OverlapEvents(line)[5]) == OverlapState(line, 6)
  {
    var rows := [Entry(1, line), Entry(2, line)];
    assert rows[0].number == 1 && rows[1].number == 2;
    assert LinesOf(rows) == [line, line];
  }

  lemma OverlapStep(line: Text, i: nat)
    requires i < 10
    ensures Enabled(OverlapState(line, i), 500, OverlapEvents(line)[i])
    ensures Apply(OverlapState(line, i), 500, OverlapEvents(line)[i]) == OverlapState(line, i + 1)
  {
    if i < 4 {
      OverlapReads(line, i);
    } else if i == 4 {
      OverlapFetchesOne(line);
    } else if i == 5 {
      OverlapFetchesTwo(line);
    }
  }

  lemma {:induction false} OverlapFrom(line: Text, i: nat)
    requires i <= 10
    ensures Runnable(OverlapState(line, i), 500, OverlapEvents(line)[i..])
    ensures Exec(OverlapState(line, i), 500, OverlapEvents(line)[i..]) == OverlapState(line, 10)
    decreases 10 - i
  {
    hide Enabled, Apply, OverlapState, OverlapEvents;
    if i < 10 {
      OverlapStep(line, i);
      OverlapFrom(line, i + 1);
      assert OverlapEvents(line)[i..][1..] == OverlapEvents(line)[i + 1..];
    }
  }

  /** Two passes at once can move the watermark back, from 2 to 1, and ship row 1 twice. */
  lemma OverlapMovesBack(line: Text)
    ensures Runnable(EMPTY, 500, OverlapEvents(line))
    ensures OverlapState(line, 9).watermark == 2 && Exec(EMPTY, 500, OverlapEvents(line)).watermark == 1
    ensures Runnable(OverlapState(line, 9), 500, OverlapEvents(line)[9..])
  {
    OverlapFrom(line, 0);
    OverlapFrom(line, 9);
    assert OverlapEvents(line)[0..] == OverlapEvents(line);
  }

  // ---------- the worker ----------

  lemma {:induction false} MaxExists(numbers: set<nat>) returns (max: nat)
    requires numbers != {}
    ensures max in numbers && forall n :: n in numbers ==> n <= max
    decreases |numbers|
  {
    var n :| n in numbers;
    if numbers == {n} {
      max := n;
    } else {
      var rest := numbers - {n};
      assert rest != {};
      var m := MaxExists(rest);
      max := if n > m then n else m;
      assert forall k :: k in numbers ==> k == n || k in rest;
    }
  }

  lemma GrowsSelf(w: World)
    ensures Grows(w, w)
  {}

  lemma GrowsComposes(u: World, v: World, w: World)
    requires Grows(u, v) && Grows(v, w)
    ensures Grows(u, w)
  {}

  datatype Outcome = Nothing | Gap | Exported(last: nat)

  /** The last number there is, and 0 for none. */
  ghost predicate IsLast(table: map<nat, Text>, max: nat) {
    (max == 0 && table == map[]) || (max in table && forall n :: n in table ==> n <= max)
  }

  /** A batch ends where the table or the batch size ends it. */
  predicate EndsAt(last: int, max: nat, watermark: nat, batch: nat) {
    last <= max && last <= watermark + batch && (last == max || last == watermark + batch)
  }

  /** A number of the batch that the table does not have. */
  predicate Missing(n: nat, watermark: nat, max: nat, batch: nat, table: map<nat, Text>) {
    watermark < n <= max && n <= watermark + batch && n !in table
  }

  /** The outcome is what the last number and the watermark at the start call for; a gap may have closed since. */
  ghost predicate CalledFor(start: World, r: Outcome, max: nat, batch: nat, table: map<nat, Text>) {
    && (r.Nothing? <==> max <= start.watermark)
    && (r.Gap? ==> exists n :: Missing(n, start.watermark, max, batch, start.table))
    && (r.Exported? ==> EndsAt(r.last, max, start.watermark, batch) && forall n :: start.watermark < n <= r.last ==> n in table)
  }

  /** Counting the rows of a batch tells whether it is whole. */
  lemma BatchIsWhole(table: map<nat, Text>, watermark: nat, max: nat, batch: nat, last: nat, rows: seq<Entry>)
    requires watermark < max && EndsAt(last, max, watermark, batch) && Answers(table, watermark + 1, last, rows)
    ensures |rows| != last - watermark <==> exists n :: Missing(n, watermark, max, batch, table)
    ensures |rows| == last - watermark ==> Copies(table, watermark + 1, last, LinesOf(rows))
  {
    if |rows| == last - watermark { RowsCopy(table, watermark + 1, last, rows); }
    WholeOrMissing(table, watermark, max, batch, last, rows);
    hide Answers, Copies;
  }

  lemma WholeOrMissing(table: map<nat, Text>, watermark: nat, max: nat, batch: nat, last: nat, rows: seq<Entry>)
    requires watermark < max && EndsAt(last, max, watermark, batch) && Answers(table, watermark + 1, last, rows)
    ensures |rows| != last - watermark <==> exists n :: Missing(n, watermark, max, batch, table)
  {
    var whole := |rows| == last - watermark;
    assert whole <==> forall n :: watermark + 1 <= n <= last ==> n in table by {
      GapTestIsExact(table, watermark + 1, last, rows);
    }
    hide Answers;
    if whole {
      forall n ensures !Missing(n, watermark, max, batch, table) {}
    } else {
      var n: nat :| watermark + 1 <= n <= last && n !in table;
      assert Missing(n, watermark, max, batch, table);
    }
  }

  /** What the table lacks later it lacked before. */
  lemma MissingBefore(u: World, w: World, watermark: nat, max: nat, batch: nat)
    requires Grows(u, w) && exists n :: Missing(n, watermark, max, batch, w.table)
    ensures exists n :: Missing(n, watermark, max, batch, u.table)
  {
    var n :| Missing(n, watermark, max, batch, w.table);
    assert Missing(n, watermark, max, batch, u.table);
  }

  lemma SoundIsDone(w: World)
    requires Sound(w)
    ensures Done(w, w.watermark)
  {}

  lemma CopiedIsThere(w: World, w': World, first: nat, last: int, lines: seq<Text>)
    requires Copies(w.table, first, last, lines) && Grows(w, w')
    ensures forall n :: first <= n <= last ==> n in w'.table
  {}

  lemma NothingMissing(watermark: nat, max: nat, batch: nat, table: map<nat, Text>)
    ensures max <= watermark ==> forall n :: !Missing(n, watermark, max, batch, table)
  {}

  class Exporter {
    const batch: nat
    var w: World

    ghost predicate Valid()
      reads this
    {
      Sound(w)
    }

    constructor (batch: nat)
      ensures Valid() && this.batch == batch && w == EMPTY
    {
      this.batch := batch;
      this.w := EMPTY;
    }

    /** Rows are recorded, and other passes work, while this pass awaits. */
    method Await(t: nat)
      requires Valid()
      modifies this
      ensures Valid() && Grows(old(w), w)
      ensures (t in w.passes <==> t in old(w).passes) && (t in w.passes ==> w.passes[t] == old(w).passes[t])
    {
      hide Sound, Grows;
      GrowsSelf(w);
      var left: nat := *;
      while left > 0
        invariant Valid() && Grows(old(w), w)
        invariant (t in w.passes <==> t in old(w).passes) && (t in w.passes ==> w.passes[t] == old(w).passes[t])
      {
        var e: Event := *;
        if Enabled(w, batch, e) && !By(e, t) {
          Take(e);
        }
        left := left - 1;
      }
    }

    /** One event of the machine. */
    method Take(e: Event)
      requires Valid() && Enabled(w, batch, e)
      modifies this
      ensures Valid() && w == Apply(old(w), batch, e) && Grows(old(w), w)
      ensures forall t :: !By(e, t) ==>
        (t in w.passes <==> t in old(w).passes) && (t in w.passes ==> w.passes[t] == old(w).passes[t])
      ensures forall u :: Grows(u, old(w)) ==> Grows(u, w)
    {
      StepKeepsSound(w, batch, e);
      StepGrows(w, batch, e);
      forall u | Grows(u, w) ensures Grows(u, Apply(w, batch, e)) { GrowsComposes(u, w, Apply(w, batch, e)); }
      w := Apply(w, batch, e);
    }

    /** The pass `t` writes its rows, or its variables, and leaves them as event `e` does. */
    ghost method Justify(t: nat, e: Event, before: World)
      requires Sound(before) && Enabled(before, batch, e) && By(e, t) && w == Apply(before, batch, e)
      ensures Valid() && Grows(before, w)
    {
      StepKeepsSound(before, batch, e);
      StepGrows(before, batch, e);
    }

    /** The scope query: the last number and the watermark, as they are now. */
    method ReadScope(t: nat) returns (found: bool)
      requires Valid() && t !in w.passes
      modifies this
      ensures Valid() && Grows(old(w), w) && (found <==> t in w.passes) && (found <==> w.table != map[])
      ensures found ==>
        && w.passes[t].Scoped? && w.passes[t].watermark == w.watermark && w.passes[t].max in w.table
        && IsLast(w.table, w.passes[t].max)
      ensures w == old(w).(passes := w.passes)
    {
      hide Sound, Grows;
      GrowsSelf(w);
      if w.table.Keys == {} {
        assert w.table == map[];
        return false;
      }
      ghost var before, numbers := w, w.table.Keys;
      ghost var m := MaxExists(numbers);
      var max: nat :| max in w.table && forall n :: n in w.table ==> n <= max;
      w := w.(passes := w.passes[t := Scoped(max, w.watermark)]);
      Justify(t, Query(t, max), before);
      return true;
    }

    /** Read the batch and refuse it if its numbers have a gap. */
    method FetchBatch(t: nat) returns (r: Outcome)
      requires Valid() && t in w.passes && w.passes[t].Scoped?
      modifies this
      ensures Valid() && Grows(old(w), w) && (t in w.passes <==> r.Exported?) && w == old(w).(passes := w.passes)
      ensures var p := old(w).passes[t];
        && (r.Nothing? <==> p.max <= p.watermark)
        && (r.Gap? <==> exists n :: Missing(n, p.watermark, p.max, batch, w.table))
        && (r.Exported? ==>
          && w.passes[t].Fetched? && w.passes[t].first == p.watermark + 1 && w.passes[t].last == r.last
          && EndsAt(r.last, p.max, p.watermark, batch) && Copies(w.table, w.passes[t].first, r.last, w.passes[t].lines))
    {
      hide Sound, Grows, Answers, Missing, Copies;
      var p := w.passes[t];
      var last := End(p, batch);
      var rows := SelectRange(p.watermark + 1, last);
      ghost var before := w;
      if p.watermark < p.max { BatchIsWhole(w.table, p.watermark, p.max, batch, last, rows); }
      if p.max <= p.watermark || |rows| != last - p.watermark {
        w := w.(passes := w.passes - {t});
        Justify(t, Fetch(t, rows), before);
        NothingMissing(p.watermark, p.max, batch, w.table);
        return if p.max <= p.watermark then Nothing else Gap;
      }
      var lines := [];
      for i := 0 to |rows|
        invariant |lines| == i && forall k :: 0 <= k < i ==> lines[k] == rows[k].line
      {
        lines := lines + [rows[i].line];
      }
      assert lines == LinesOf(rows);
      w := w.(passes := w.passes[t := Fetched(p.watermark + 1, last, lines)]);
      Justify(t, Fetch(t, rows), before);
      return Exported(last);
    }

    method Put(t: nat, live: bool)
      requires Valid() && t in w.passes && w.passes[t].Fetched?
      modifies this
      ensures Valid() && Grows(old(w), w) && t in w.passes && w.watermark == old(w).watermark && w.table == old(w).table
      ensures w.passes[t] == Shipped(old(w).passes[t].first, old(w).passes[t].last)
      ensures var p := old(w).passes[t];
        && w.sink == (if live then old(w).sink + [Object(p.first, p.last, p.lines)] else old(w).sink)
        && (forall n :: n in w.logged <==> n in old(w).logged || (!live && p.first <= n <= p.last))
      ensures live ==> forall n :: old(w).passes[t].first <= n <= old(w).passes[t].last ==> InSink(w, n)
    {
      hide Sound, Grows;
      ghost var before := w;
      var p := w.passes[t];
      if live {
        w := w.(sink := w.sink + [Object(p.first, p.last, p.lines)], passes := w.passes[t := Shipped(p.first, p.last)]);
        assert w.sink[|before.sink|] == Object(p.first, p.last, p.lines);
        Justify(t, Ship(t), before);
      } else {
        w := w.(logged := w.logged + Numbers(p.first, p.last), passes := w.passes[t := Shipped(p.first, p.last)]);
        Justify(t, LogOnly(t), before);
      }
    }

    method AdvanceWatermark(t: nat)
      requires Valid() && t in w.passes && w.passes[t].Shipped? && 0 <= w.passes[t].last
      modifies this
      ensures Valid() && Grows(old(w), w) && t !in w.passes && w.watermark == old(w).passes[t].last
      ensures w == old(w).(watermark := w.watermark, passes := w.passes)
    {
      hide Sound, Grows;
      ghost var before := w;
      w := w.(watermark := w.passes[t].last, passes := w.passes - {t});
      Justify(t, Advance(t), before);
    }

    /** The part of `exportPass` that concerns this scope. */
    method ExportPass(t: nat, live: bool) returns (r: Outcome)
      requires Valid() && t !in w.passes
      modifies this
      ensures Valid() && Grows(old(w), w) && t !in w.passes
      ensures r.Exported? ==> w.watermark == r.last && Done(w, r.last)
      ensures exists max: nat :: IsLast(old(w).table, max) && CalledFor(old(w), r, max, batch, w.table)
    {
      hide Sound, Grows, Done, Copies, Missing;
      var found := ReadScope(t);
      if !found {
        assert IsLast(old(w).table, 0);
        return Nothing;
      }
      ghost var start, max := w, w.passes[t].max;
      ghost var was := w;
      Await(t);
      GrowsComposes(old(w), was, w);
      was := w;
      r := FetchBatch(t);
      GrowsComposes(old(w), was, w);
      if !r.Exported? {
        if r.Gap? { MissingBefore(old(w), w, start.watermark, max, batch); }
        assert CalledFor(old(w), r, max, batch, w.table);
        return;
      }
      ghost var fetched := w;
      Await(t);
      was := w;
      Put(t, live);
      GrowsComposes(fetched, was, w);
      was := w;
      Await(t);
      GrowsComposes(fetched, was, w);
      was := w;
      AdvanceWatermark(t);
      GrowsComposes(fetched, was, w);
      GrowsComposes(old(w), fetched, w);
      SoundIsDone(w);
      CopiedIsThere(fetched, w, start.watermark + 1, r.last, fetched.passes[t].lines);
      assert CalledFor(old(w), r, max, batch, w.table);
    }

    /** `findMany` over a range of numbers, in order. */
    method SelectRange(first: nat, last: int) returns (rows: seq<Entry>)
      ensures Answers(w.table, first, last, rows)
    {
      hide Answers;
      rows := [];
      var n := first;
      NoneAnswers(w.table, first, first - 1);
      while n <= last
        invariant first <= n && (n <= last + 1 || (n == first && rows == []))
        invariant Answers(w.table, first, n - 1, rows)
        decreases last - n
      {
        AnswersExtend(w.table, first, n, rows);
        if n in w.table { rows := rows + [Entry(n, w.table[n])]; }
        n := n + 1;
      }
      if last < first - 1 { NoneAnswers(w.table, first, last); }
    }
  }

  lemma NoneAnswers(table: map<nat, Text>, first: int, last: int)
    requires last < first
    ensures Answers(table, first, last, [])
  {}

  lemma AnswersExtend(table: map<nat, Text>, first: nat, n: nat, rows: seq<Entry>)
    requires Answers(table, first, n - 1, rows) && first <= n
    ensures Answers(table, first, n, if n in table then rows + [Entry(n, table[n])] else rows)
  {
    var more := if n in table then rows + [Entry(n, table[n])] else rows;
    forall m | m in table && first <= m <= n ensures exists i :: 0 <= i < |more| && more[i].number == m {
      if m < n {
        var i :| 0 <= i < |rows| && rows[i].number == m;
        assert more[i].number == m;
      } else {
        assert more[|more| - 1].number == n;
      }
    }
  }
}
