/**
 * The collector of main.go: one `ProcessStats` record per monitored
 * process name, updated once per tick by `Collect` (Go's `collectOnce`),
 * registered by `StartCollector`, copied out by `Snapshot`
 * (`metricsHandler`), and the parsing of the comma-separated name list.
 *
 * What `collectOnce` gets from outside is passed in: the resolved pid
 * (0 when no process has that executable name), the wall-clock timestamp
 * in milliseconds, and the contents of /proc/<pid>/stat and
 * /proc/<pid>/statm (None when the read fails).
 */
module Collector {
  import opened Wrappers
  import opened Strings
  import opened Strconv

  /** The history kept per process (Go's `maxSamples`). */
  const MaxSamples: nat := 300

  /** One point of a series: CPU ticks since the previous sample, and the
      virtual and resident size in pages. */
  datatype Sample = Sample(timestamp: int, cpu: int, vsize: int, rss: int)

  /** The newest `MaxSamples` entries of `s`, oldest first. */
  function Trim<T>(s: seq<T>): (r: seq<T>)
    ensures |r| == if |s| > MaxSamples then MaxSamples else |s|
    ensures r == s[|s| - |r|..]
  {
    if |s| > MaxSamples then s[|s| - MaxSamples..] else s
  }

  /** Trimming twice is trimming once: a window of the window of `a`,
      extended by `b`, is the window of `a + b`. */
  lemma TrimAppend<T>(a: seq<T>, b: seq<T>)
    ensures Trim(Trim(a) + b) == Trim(a + b)
  {
    var t := Trim(a) + b;
    var u := a + b;
    assert t == u[|u| - |t|..];
    var n := |Trim(u)|;
    assert |Trim(t)| == n;
    assert Trim(t) == t[|t| - n..] == u[|u| - n..];
  }

  /** What one tick learns about the process. */
  datatype Reading =
    | NotFound                                      // pid 0
    | Unreadable                                    // a read failed or a field list was short
    | Observed(totalCPU: int, vsize: int, rss: int)

  /** The part of `collectOnce` that turns the pid and the two /proc texts
      into a reading: `utime + ktime` from fields 13 and 14 of stat, the
      sizes from fields 0 and 1 of statm, each token read with `Atoi`. */
  function ReadProc(pid: nat, stat: Option<string>, statm: Option<string>): (r: Reading)
    ensures r.NotFound? <==> pid == 0
    ensures r.Unreadable? <==>
      pid != 0 && !(stat.Some? && |Fields(stat.value)| >= 15 && statm.Some? && |Fields(statm.value)| >= 2)
    ensures r.Observed? ==> InInt64(r.vsize) && InInt64(r.rss)
  {
    if pid == 0 then NotFound
    else if stat.None? then Unreadable
    else
      var fields := Fields(stat.value);
      if |fields| < 15 then Unreadable
      else if statm.None? then Unreadable
      else
        var sm := Fields(statm.value);
        if |sm| < 2 then Unreadable
        else Observed(Atoi(fields[13]) + Atoi(fields[14]), Atoi(sm[0]), Atoi(sm[1]))
  }

  /** On /proc texts laid out as the kernel writes them (single-space
      separated tokens ending in a newline), the reading takes its counters
      from stat tokens 13 and 14 and its sizes from statm tokens 0 and 1. */
  lemma ReadProcOfFormatted(pid: nat, tokens: seq<string>, mtokens: seq<string>)
    requires pid != 0
    requires |tokens| >= 15 && |mtokens| >= 2
    requires forall i :: 0 <= i < |tokens| ==> IsField(tokens[i])
    requires forall i :: 0 <= i < |mtokens| ==> IsField(mtokens[i])
    ensures ReadProc(pid, Some(Join(tokens, ' ') + "\n"), Some(Join(mtokens, ' ') + "\n"))
         == Observed(Atoi(tokens[13]) + Atoi(tokens[14]), Atoi(mtokens[0]), Atoi(mtokens[1]))
  {
    assert Fields("\n") == Fields([]);
    FieldsOfJoin(tokens, "\n");
    FieldsOfJoin(mtokens, "\n");
    assert tokens + [] == tokens && mtokens + [] == mtokens;
  }

  /** The abstract value of a `ProcessStats` record. */
  datatype Series = Series(samples: seq<Sample>, prevCPU: int, initialized: bool)

  /** The zero value `&ProcessStats{}`. */
  const Fresh := Series([], 0, false)

  /** The sample a tick appends: zeros when the process is absent; otherwise
      the CPU delta against the previous total, or 0 if there is none. */
  function NewSample(s: Series, ts: int, r: Reading): Sample
    requires !r.Unreadable?
  {
    match r
    case NotFound => Sample(ts, 0, 0, 0)
    case Observed(total, vsize, rss) =>
      Sample(ts, if s.initialized then total - s.prevCPU else 0, vsize, rss)
  }

  /** One `collectOnce` on the abstract value. */
  function Step(s: Series, ts: int, r: Reading): (s': Series)
    ensures r.Unreadable? ==> s' == s
    ensures |s.samples| <= MaxSamples ==> |s'.samples| <= MaxSamples
    ensures !r.Unreadable? ==>
      && 0 < |s'.samples| <= |s.samples| + 1
      && s'.samples[|s'.samples| - 1] == NewSample(s, ts, r)
      && s'.initialized == r.Observed?
      && s'.prevCPU == (if r.Observed? then r.totalCPU else s.prevCPU)
  {
    match r
    case Unreadable => s
    case NotFound => Series(Trim(s.samples + [NewSample(s, ts, r)]), s.prevCPU, false)
    case Observed(total, _, _) => Series(Trim(s.samples + [NewSample(s, ts, r)]), total, true)
  }

  /** One tick's inputs once the pid and the files are resolved. */
  datatype Tick = Tick(ts: int, reading: Reading)

  /** The record after a sequence of ticks. */
  function Run(s: Series, ticks: seq<Tick>): Series
    decreases |ticks|
  {
    if ticks == [] then s else Run(Step(s, ticks[0].ts, ticks[0].reading), ticks[1..])
  }

  /** The samples one tick appends: none when its reads failed. */
  function Appended(s: Series, t: Tick): seq<Sample>
  {
    if t.reading.Unreadable? then [] else [NewSample(s, t.ts, t.reading)]
  }

  /** Every sample a sequence of ticks appends, before trimming. */
  function Emitted(s: Series, ticks: seq<Tick>): seq<Sample>
    decreases |ticks|
  {
    if ticks == [] then []
    else Appended(s, ticks[0]) + Emitted(Step(s, ticks[0].ts, ticks[0].reading), ticks[1..])
  }

  lemma StepAppends(s: Series, t: Tick)
    requires |s.samples| <= MaxSamples
    ensures Step(s, t.ts, t.reading).samples == Trim(s.samples + Appended(s, t))
  {
    if t.reading.Unreadable? {
      assert s.samples + [] == s.samples;
    }
  }

  /** After any number of ticks the record holds exactly the newest
      `MaxSamples` samples ever appended, in order, and never more. */
  lemma {:induction false} RunKeepsNewestWindow(s: Series, ticks: seq<Tick>)
    requires |s.samples| <= MaxSamples
    ensures Run(s, ticks).samples == Trim(s.samples + Emitted(s, ticks))
    ensures |Run(s, ticks).samples| <= MaxSamples
    decreases |ticks|
  {
    if ticks == [] {
      assert s.samples + [] == s.samples;
    } else {
      var t := ticks[0];
      var s' := Step(s, t.ts, t.reading);
      var e := Appended(s, t);
      var rest := Emitted(s', ticks[1..]);
      StepAppends(s, t);
      RunKeepsNewestWindow(s', ticks[1..]);
      TrimAppend(s.samples + e, rest);
      assert Emitted(s, ticks) == e + rest;
      ConcatAssoc(s.samples, e, rest);
    }
  }

  /** Kept apart from `RunKeepsNewestWindow`: proved there, among the
      facts about `Trim` and `Step`, the same step is far more expensive. */
  lemma ConcatAssoc<T>(a: seq<T>, b: seq<T>, c: seq<T>)
    ensures a + b + c == a + (b + c)
  {
  }

  /** Ticks whose /proc reads failed leave the record exactly as it was. */
  lemma {:induction false} UnreadableTicksChangeNothing(s: Series, ticks: seq<Tick>)
    requires forall t :: t in ticks ==> t.reading.Unreadable?
    ensures Run(s, ticks) == s
    ensures Emitted(s, ticks) == []
    decreases |ticks|
  {
    if ticks != [] {
      assert ticks[0] in ticks;
      UnreadableTicksChangeNothing(s, ticks[1..]);
    }
  }

  /** Two observations with only failed reads between them: the second
      sample's CPU is exactly the difference of the two totals. */
  lemma ConsecutiveObservationsDelta(s: Series, ts1: int, first: Reading, gap: seq<Tick>, ts2: int, second: Reading)
    requires first.Observed? && second.Observed?
    requires forall t :: t in gap ==> t.reading.Unreadable?
    ensures NewSample(Run(Step(s, ts1, first), gap), ts2, second).cpu == second.totalCPU - first.totalCPU
  {
    var s1 := Step(s, ts1, first);
    UnreadableTicksChangeNothing(s1, gap);
    assert s1.initialized && s1.prevCPU == first.totalCPU;
  }

  /** Re-baselining: when the record is not initialized (a fresh record, or
      the tick before found no process), the next observation after any
      failed reads reports CPU 0 and becomes the new baseline. */
  lemma ObservationAfterResetReportsZero(s: Series, gap: seq<Tick>, ts: int, r: Reading)
    requires !s.initialized && r.Observed?
    requires forall t :: t in gap ==> t.reading.Unreadable?
    ensures NewSample(Run(s, gap), ts, r) == Sample(ts, 0, r.vsize, r.rss)
    ensures Step(Run(s, gap), ts, r).prevCPU == r.totalCPU
    ensures Step(Run(s, gap), ts, r).initialized
  {
    UnreadableTicksChangeNothing(s, gap);
  }

  /** Absence: the sample carries zeros, the record is no longer
      initialized, and the CPU baseline is kept (though unused). */
  lemma AbsenceResets(s: Series, ts: int)
    ensures var s' := Step(s, ts, NotFound);
      && s'.samples[|s'.samples| - 1] == Sample(ts, 0, 0, 0)
      && !s'.initialized && s'.prevCPU == s.prevCPU
  {
  }

  /** Below the bound nothing is evicted: the tick's sample is appended. */
  lemma StepBelowBound(s: Series, ts: int, r: Reading)
    requires |s.samples| < MaxSamples && !r.Unreadable?
    ensures Step(s, ts, r).samples == s.samples + [NewSample(s, ts, r)]
  {
  }

  /** Four ticks of one process: observed with 15 ticks of CPU, observed
      with 18, absent, then observed again (restarted) with 2. The first
      observation and the one after the absence report CPU 0, and the
      absence leaves an all-zero sample. */
  lemma FourTickHistory(vsize: int)
    ensures
      var s1 := Step(Fresh, 1000, Observed(15, vsize, 200));
      var s2 := Step(s1, 2000, Observed(18, vsize, 210));
      var s3 := Step(s2, 3000, NotFound);
      var s4 := Step(s3, 4000, Observed(2, vsize, 50));
      s4.samples == [Sample(1000, 0, vsize, 200), Sample(2000, 3, vsize, 210),
                     Sample(3000, 0, 0, 0), Sample(4000, 0, vsize, 50)]
  {
    var a := Sample(1000, 0, vsize, 200);
    var b := Sample(2000, 3, vsize, 210);
    var c := Sample(3000, 0, 0, 0);
    var s1 := Step(Fresh, 1000, Observed(15, vsize, 200));
    StepBelowBound(Fresh, 1000, Observed(15, vsize, 200));
    assert s1 == Series([a], 15, true);
    var s2 := Step(s1, 2000, Observed(18, vsize, 210));
    StepBelowBound(s1, 2000, Observed(18, vsize, 210));
    assert s2 == Series([a, b], 18, true);
    var s3 := Step(s2, 3000, NotFound);
    StepBelowBound(s2, 3000, NotFound);
    assert s3 == Series([a, b, c], 18, false);
    StepBelowBound(s3, 4000, Observed(2, vsize, 50));
  }

  predicate TimestampsOrdered(samples: seq<Sample>)
  {
    forall i, j :: 0 <= i < j < |samples| ==> samples[i].timestamp <= samples[j].timestamp
  }

  predicate TicksOrdered(ticks: seq<Tick>)
  {
    forall i, j :: 0 <= i < j < |ticks| ==> ticks[i].ts <= ticks[j].ts
  }

  lemma TrimKeepsTimestampsOrdered(u: seq<Sample>)
    requires TimestampsOrdered(u)
    ensures TimestampsOrdered(Trim(u))
  {
    var t := Trim(u);
    var k := |u| - |t|;
    forall i, j | 0 <= i < j < |t|
      ensures t[i].timestamp <= t[j].timestamp
    {
      assert t[i] == u[k + i] && t[j] == u[k + j];
    }
  }

  lemma AppendKeepsTimestampsOrdered(u: seq<Sample>, x: Sample)
    requires TimestampsOrdered(u)
    requires u != [] ==> u[|u| - 1].timestamp <= x.timestamp
    ensures TimestampsOrdered(u + [x])
  {
    var v := u + [x];
    forall i, j | 0 <= i < j < |v|
      ensures v[i].timestamp <= v[j].timestamp
    {
      assert v[i] == u[i];
      if j < |u| {
        assert v[j] == u[j];
      } else {
        assert u[i].timestamp <= u[|u| - 1].timestamp;
      }
    }
  }

  /** A tick whose clock reading is not older than the newest sample keeps
      the series ordered, and its sample (if any) becomes the newest. */
  lemma StepKeepsTimestampsOrdered(s: Series, ts: int, r: Reading)
    requires TimestampsOrdered(s.samples)
    requires s.samples != [] ==> s.samples[|s.samples| - 1].timestamp <= ts
    ensures TimestampsOrdered(Step(s, ts, r).samples)
    ensures Step(s, ts, r).samples != [] ==> Step(s, ts, r).samples[|Step(s, ts, r).samples| - 1].timestamp <= ts
  {
    if !r.Unreadable? {
      var u := s.samples + [NewSample(s, ts, r)];
      AppendKeepsTimestampsOrdered(s.samples, NewSample(s, ts, r));
      TrimKeepsTimestampsOrdered(u);
      assert Step(s, ts, r).samples == Trim(u);
    }
  }

  /** The series is ordered by time as long as the clock readings handed to
      the ticks do not go backwards (the wall clock is not monotonic). */
  lemma {:induction false} RunKeepsTimestampsOrdered(s: Series, ticks: seq<Tick>)
    requires TimestampsOrdered(s.samples) && TicksOrdered(ticks)
    requires s.samples != [] && ticks != [] ==> s.samples[|s.samples| - 1].timestamp <= ticks[0].ts
    ensures TimestampsOrdered(Run(s, ticks).samples)
    decreases |ticks|
  {
    if ticks != [] {
      var t, rest := ticks[0], ticks[1..];
      var next := Step(s, t.ts, t.reading);
      StepKeepsTimestampsOrdered(s, t.ts, t.reading);
      forall i, j | 0 <= i < j < |rest|
        ensures rest[i].ts <= rest[j].ts
      {
        assert rest[i] == ticks[i + 1] && rest[j] == ticks[j + 1];
      }
      if rest != [] {
        assert rest[0] == ticks[1];
        assert t.ts <= ticks[1].ts;
      }
      RunKeepsTimestampsOrdered(next, rest);
      assert Run(s, ticks) == Run(next, rest);
    }
  }

  /** A monitored process's record (Go's `ProcessStats`, without its mutex). */
  class ProcessStats {
    var samples: seq<Sample>
    var prevCPU: int
    var initialized: bool

    function State(): Series
      reads this
    {
      Series(samples, prevCPU, initialized)
    }

    /** `&ProcessStats{}`. */
    constructor ()
      ensures State() == Fresh
    {
      samples := [];
      prevCPU := 0;
      initialized := false;
    }

    /** Go's `collectOnce` for this record. */
    method Collect(pid: nat, ts: int, stat: Option<string>, statm: Option<string>)
      modifies this
      ensures State() == Step(old(State()), ts, ReadProc(pid, stat, statm))
      ensures |old(samples)| <= MaxSamples ==> |samples| <= MaxSamples
    {
      if pid == 0 {
        initialized := false;
        samples := samples + [Sample(ts, 0, 0, 0)];
        ghost var appended := samples;
        if |samples| > MaxSamples {
          samples := samples[|samples| - MaxSamples..];
        }
        assert samples == Trim(appended);
        return;
      }

      if stat.None? {
        return;
      }
      var fields := Fields(stat.value);
      if |fields| < 15 {
        return;
      }
      var utime := Atoi(fields[13]);
      var ktime := Atoi(fields[14]);
      var totalCPU := utime + ktime;

      if statm.None? {
        return;
      }
      var sm := Fields(statm.value);
      if |sm| < 2 {
        return;
      }
      var vsize := Atoi(sm[0]);
      var rss := Atoi(sm[1]);

      var cpuDelta := 0;
      if initialized {
        cpuDelta := totalCPU - prevCPU;
      }
      ghost var reading := Observed(totalCPU, vsize, rss);
      assert ReadProc(pid, stat, statm) == reading;
      assert NewSample(State(), ts, reading) == Sample(ts, cpuDelta, vsize, rss);
      prevCPU := totalCPU;
      initialized := true;
      samples := samples + [Sample(ts, cpuDelta, vsize, rss)];
      ghost var appended := samples;
      if |samples| > MaxSamples {
        samples := samples[|samples| - MaxSamples..];
      }
      assert samples == Trim(appended);
    }
  }

  /** The process-wide `statsMap`, passed around explicitly. */
  class Registry {
    var statsMap: map<string, ProcessStats>

    /** Every name owns its own record: collecting one never touches another. */
    ghost predicate Valid()
      reads this
    {
      forall a, b :: a in statsMap && b in statsMap && a != b ==> statsMap[a] != statsMap[b]
    }

    constructor ()
      ensures Valid() && statsMap == map[]
    {
      statsMap := map[];
    }

    /** Go's `startCollector` without the ticker goroutine: every listed
        name gets a new zero record; a name listed twice ends up with one. */
    method StartCollector(names: seq<string>)
      requires Valid()
      modifies this
      ensures Valid()
      ensures statsMap.Keys == old(statsMap).Keys + set n | n in names
      ensures forall n :: n in names ==> fresh(statsMap[n]) && statsMap[n].State() == Fresh
      ensures forall n :: n in old(statsMap) && n !in names ==> statsMap[n] == old(statsMap)[n]
    {
      var i := 0;
      while i < |names|
        invariant 0 <= i <= |names|
        invariant Valid()
        invariant statsMap.Keys == old(statsMap).Keys + set n | n in names[..i]
        invariant forall n :: n in names[..i] ==> fresh(statsMap[n]) && statsMap[n].State() == Fresh
        invariant forall n :: n in old(statsMap) && n !in names[..i] ==> statsMap[n] == old(statsMap)[n]
      {
        var record := new ProcessStats();
        statsMap := statsMap[names[i] := record];
        assert names[..i + 1] == names[..i] + [names[i]];
        i := i + 1;
      }
      assert names[..i] == names;
    }

    /** Go's `metricsHandler` before JSON encoding: a copy of every
        registered record's samples, keyed by name. */
    method Snapshot() returns (result: map<string, seq<Sample>>)
      ensures result.Keys == statsMap.Keys
      ensures forall name :: name in result ==> result[name] == statsMap[name].samples
    {
      result := map[];
      var pending := statsMap.Keys;
      while pending != {}
        invariant pending <= statsMap.Keys
        invariant result.Keys == statsMap.Keys - pending
        invariant forall name :: name in result ==> result[name] == statsMap[name].samples
        decreases pending
      {
        var name :| name in pending;
        var samples := statsMap[name].samples;
        result := result[name := samples];
        pending := pending - {name};
      }
    }
  }

  /** The name list of `main`: split the flag on commas, then trim each
      piece in place. */
  method ParseNames(flagValue: string) returns (names: seq<string>)
    ensures |names| == Occurrences(flagValue, ',') + 1
    ensures forall i :: 0 <= i < |names| ==> names[i] == TrimSpace(Split(flagValue, ',')[i])
  {
    var pieces := Split(flagValue, ',');
    var buf := new string[|pieces|](i requires 0 <= i < |pieces| => pieces[i]);
    var i := 0;
    while i < buf.Length
      invariant 0 <= i <= buf.Length
      invariant forall k :: 0 <= k < i ==> buf[k] == TrimSpace(pieces[k])
      invariant forall k :: i <= k < buf.Length ==> buf[k] == pieces[k]
    {
      buf[i] := TrimSpace(buf[i]);
      i := i + 1;
    }
    names := buf[..];
  }
}
