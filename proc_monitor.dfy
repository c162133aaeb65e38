/**
 * The standalone monitor of proc.go: `GetProcessStats` reads the two /proc
 * files of the process and picks four tokens out of them by splitting on
 * single spaces, and `MonitorProcessStats` reports, once per iteration,
 * how many CPU ticks the process used since the previous iteration.
 *
 * The resolved pid and the file contents (None when the read fails) come
 * in as an `Observation`. A Go panic (from `check`, or from indexing past
 * the end of a token slice) ends the program; here it is a `Panic` value.
 */
module ProcMonitor {
  import opened Wrappers
  import opened Strings
  import opened Strconv

  /** Why `GetProcessStats` panics. */
  datatype Panic =
    | ReadError                                  // `check` on a failed read
    | IndexOutOfRange(index: nat, length: nat)   // a token slice too short

  /** What one call of `GetProcessStats` sees from outside. */
  datatype Observation = Observation(pid: nat, stat: Option<string>, statm: Option<string>)

  /** `check(err)`: a failed read panics, a successful one yields its text. */
  function Check(dat: Option<string>): (r: Result<string, Panic>)
    ensures r.Success? <==> dat.Some?
    ensures r.Success? ==> r.value == dat.value
    ensures r.Failure? ==> r.error == ReadError
  {
    match dat
    case None => Failure(ReadError)
    case Some(text) => Success(text)
  }

  /** The stat and statm texts are long enough for the tokens taken. */
  predicate Complete(o: Observation)
  {
    && o.stat.Some? && |Split(o.stat.value, ' ')| >= 15
    && o.statm.Some? && |Split(o.statm.value, ' ')| >= 2
  }

  /** The result of `GetProcessStats`, panics included, in the order the
      Go code reaches them: stat is read and indexed before statm. */
  function StatsOf(o: Observation): (r: Result<map<string, string>, Panic>)
    ensures o.pid == 0 ==> r == Success(map[])
    ensures r.Failure? <==> o.pid != 0 && !Complete(o)
    ensures r.Success? && o.pid != 0 ==>
      && r.value.Keys == {"vsizem", "rsizem", "utime", "ktime"}
      && r.value["utime"] == Split(o.stat.value, ' ')[13]
      && r.value["ktime"] == Split(o.stat.value, ' ')[14]
      && r.value["vsizem"] == Split(o.statm.value, ' ')[0]
      && r.value["rsizem"] == Split(o.statm.value, ' ')[1]
  {
    if o.pid == 0 then Success(map[])
    else if o.stat.None? then Failure(ReadError)
    else
      var s := Split(o.stat.value, ' ');
      if |s| <= 13 then Failure(IndexOutOfRange(13, |s|))
      else if |s| <= 14 then Failure(IndexOutOfRange(14, |s|))
      else if o.statm.None? then Failure(ReadError)
      else
        var sm := Split(o.statm.value, ' ');
        if |sm| <= 1 then Failure(IndexOutOfRange(1, |sm|))
        else Success(map["vsizem" := sm[0], "rsizem" := sm[1], "utime" := s[13], "ktime" := s[14]])
  }

  /** `GetProcessStats`: fills the map by successive insertions. */
  method GetProcessStats(o: Observation) returns (r: Result<map<string, string>, Panic>)
    ensures r == StatsOf(o)
  {
    var m: map<string, string> := map[];
    if o.pid == 0 {
      return Success(m);
    }
    var dat := Check(o.stat);
    if dat.Failure? {
      return Failure(dat.error);
    }
    var s := Split(dat.value, ' ');
    if |s| <= 13 {
      return Failure(IndexOutOfRange(13, |s|));
    }
    var utime := s[13];
    if |s| <= 14 {
      return Failure(IndexOutOfRange(14, |s|));
    }
    var ktime := s[14];
    dat := Check(o.statm);
    if dat.Failure? {
      return Failure(dat.error);
    }
    var sm := Split(dat.value, ' ');
    var vsizem := sm[0];
    if |sm| <= 1 {
      return Failure(IndexOutOfRange(1, |sm|));
    }
    var rsizem := sm[1];
    m := m["vsizem" := vsizem];
    m := m["rsizem" := rsizem];
    m := m["utime" := utime];
    m := m["ktime" := ktime];
    return Success(m);
  }

  /** On texts whose tokens are separated by single spaces, the four
      values are exactly stat tokens 13 and 14 and statm tokens 0 and 1
      (a trailing newline stays attached to the last token). */
  lemma StatsOfFormatted(pid: nat, tokens: seq<string>, mtokens: seq<string>)
    requires pid != 0
    requires |tokens| >= 15 && |mtokens| >= 2
    requires forall i :: 0 <= i < |tokens| ==> ' ' !in tokens[i]
    requires forall i :: 0 <= i < |mtokens| ==> ' ' !in mtokens[i]
    ensures StatsOf(Observation(pid, Some(Join(tokens, ' ')), Some(Join(mtokens, ' '))))
         == Success(map["vsizem" := mtokens[0], "rsizem" := mtokens[1],
                        "utime" := tokens[13], "ktime" := tokens[14]])
  {
    SplitOfJoin(tokens, ' ');
    SplitOfJoin(mtokens, ' ');
  }

  /** `m[key]` on a Go map: the empty string when the key is missing. */
  function Lookup(m: map<string, string>, key: string): string
  {
    if key in m then m[key] else ""
  }

  /** `utime + ktime` as the loop parses them; a missing or malformed
      value counts as 0. */
  function CpuTotal(m: map<string, string>): int
  {
    Atoi(Lookup(m, "utime")) + Atoi(Lookup(m, "ktime"))
  }

  /** The map of an absent process holds no counters. */
  lemma AbsentCpuTotal()
    ensures CpuTotal(map[]) == 0
  {
    assert !IsDecimal("");
  }

  /** The differences of successive totals, the first one taken against
      `prev`. */
  function Deltas(prev: int, totals: seq<int>): (r: seq<int>)
    ensures |r| == |totals|
    ensures forall i :: 0 <= i < |r| ==> r[i] == totals[i] - (if i == 0 then prev else totals[i - 1])
    decreases |totals|
  {
    if totals == [] then [] else [totals[0] - prev] + Deltas(totals[0], totals[1..])
  }

  function Sum(xs: seq<int>): int
  {
    if xs == [] then 0 else xs[0] + Sum(xs[1..])
  }

  /** The deltas add up to the growth from `prev` to the last total. */
  lemma {:induction false} DeltasTelescope(prev: int, totals: seq<int>)
    requires totals != []
    ensures Sum(Deltas(prev, totals)) == totals[|totals| - 1] - prev
    decreases |totals|
  {
    if |totals| > 1 {
      DeltasTelescope(totals[0], totals[1..]);
    }
  }

  /** What one iteration prints: the map and the CPU ticks used since the
      previous iteration. */
  datatype Report = Report(stats: map<string, string>, cpuLastSecond: int)

  function Totals(reports: seq<Report>): (r: seq<int>)
  {
    seq(|reports|, i requires 0 <= i < |reports| => CpuTotal(reports[i].stats))
  }

  function Cpus(reports: seq<Report>): (r: seq<int>)
  {
    seq(|reports|, i requires 0 <= i < |reports| => reports[i].cpuLastSecond)
  }

  /** The total an iteration's delta is taken against: the previous
      report's, or 0 before the first report. */
  function PrevTotal(reports: seq<Report>, i: nat): int
    requires i <= |reports|
  {
    if i == 0 then 0 else CpuTotal(reports[i - 1].stats)
  }

  predicate DeltaAt(reports: seq<Report>, i: nat)
    requires i < |reports|
  {
    reports[i].cpuLastSecond == CpuTotal(reports[i].stats) - PrevTotal(reports, i)
  }

  /** Each report's CPU value is its total minus the previous report's
      total, or minus 0 for the first report. */
  predicate DeltaReports(reports: seq<Report>)
  {
    forall i: nat :: i < |reports| ==> DeltaAt(reports, i)
  }

  lemma DeltaReportsAppend(reports: seq<Report>, next: Report)
    requires DeltaReports(reports)
    requires next.cpuLastSecond == CpuTotal(next.stats) - PrevTotal(reports, |reports|)
    ensures DeltaReports(reports + [next])
  {
    var r := reports + [next];
    forall i: nat | i < |r|
      ensures DeltaAt(r, i)
    {
      if i < |reports| {
        assert DeltaAt(reports, i);
        assert r[i] == reports[i];
        assert PrevTotal(r, i) == PrevTotal(reports, i) by {
          if i > 0 {
            assert r[i - 1] == reports[i - 1];
          }
        }
      } else {
        assert PrevTotal(r, i) == PrevTotal(reports, |reports|) by {
          if i > 0 {
            assert r[i - 1] == reports[|reports| - 1];
          }
        }
      }
    }
  }

  /** Each report holds the map its iteration's `GetProcessStats` returned. */
  predicate Reported(observations: seq<Observation>, reports: seq<Report>)
  {
    |reports| <= |observations| &&
    forall i :: 0 <= i < |reports| ==> StatsOf(observations[i]) == Success(reports[i].stats)
  }

  lemma ReportedAppend(observations: seq<Observation>, reports: seq<Report>, next: Report)
    requires Reported(observations, reports)
    requires |reports| < |observations|
    requires StatsOf(observations[|reports|]) == Success(next.stats)
    ensures Reported(observations, reports + [next])
  {
    var r := reports + [next];
    forall i | 0 <= i < |r|
      ensures StatsOf(observations[i]) == Success(r[i].stats)
    {
      if i < |reports| {
        assert r[i] == reports[i];
      }
    }
  }

  /** `MonitorProcessStats` over a finite run of iterations: it stops at the
      first panic. Each report carries the map of its observation and the
      delta of `utime + ktime` against the previous iteration, whose
      counters start at 0. */
  method Monitor(observations: seq<Observation>) returns (reports: seq<Report>, panicked: Option<Panic>)
    ensures |reports| <= |observations|
    ensures panicked.None? ==> |reports| == |observations|
    ensures panicked.Some? ==>
      |reports| < |observations| && StatsOf(observations[|reports|]) == Failure(panicked.value)
    ensures Reported(observations, reports)
    ensures DeltaReports(reports)
  {
    var utimeCurrent, ktimeCurrent := 0, 0;
    var utimePrevious, ktimePrevious := 0, 0;
    var cpuLastSecond := 0;
    reports := [];
    var n := 0;
    while n < |observations|
      invariant n <= |observations| && |reports| == n
      invariant Reported(observations, reports)
      invariant DeltaReports(reports)
      invariant utimeCurrent == (if n == 0 then 0 else Atoi(Lookup(reports[n - 1].stats, "utime")))
      invariant ktimeCurrent == (if n == 0 then 0 else Atoi(Lookup(reports[n - 1].stats, "ktime")))
    {
      utimePrevious := utimeCurrent;
      ktimePrevious := ktimeCurrent;
      var r := GetProcessStats(observations[n]);
      if r.Failure? {
        panicked := Some(r.error);
        return;
      }
      var m := r.value;
      utimeCurrent := Atoi(Lookup(m, "utime"));
      ktimeCurrent := Atoi(Lookup(m, "ktime"));
      cpuLastSecond := (utimeCurrent + ktimeCurrent) - (utimePrevious + ktimePrevious);
      DeltaReportsAppend(reports, Report(m, cpuLastSecond));
      ReportedAppend(observations, reports, Report(m, cpuLastSecond));
      reports := reports + [Report(m, cpuLastSecond)];
      n := n + 1;
    }
    panicked := None;
  }

  /** The reports are the deltas of the observed totals, starting from 0. */
  lemma ReportsAreDeltas(reports: seq<Report>)
    requires DeltaReports(reports)
    ensures Cpus(reports) == Deltas(0, Totals(reports))
  {
    var d := Deltas(0, Totals(reports));
    forall i | 0 <= i < |reports|
      ensures Cpus(reports)[i] == d[i]
    {
      assert DeltaAt(reports, i);
      assert Totals(reports)[i] == CpuTotal(reports[i].stats);
      if i > 0 {
        assert Totals(reports)[i - 1] == CpuTotal(reports[i - 1].stats);
      }
    }
  }

  /** The first report, and every report right after an iteration that
      found no process, is the raw `utime + ktime` of its observation. */
  lemma ReportAfterAbsence(observations: seq<Observation>, reports: seq<Report>, i: nat)
    requires i < |reports|
    requires Reported(observations, reports)
    requires DeltaReports(reports)
    requires i == 0 || observations[i - 1].pid == 0
    ensures reports[i].cpuLastSecond == CpuTotal(reports[i].stats)
  {
    if i > 0 {
      assert StatsOf(observations[i - 1]) == Success(reports[i - 1].stats);
      assert reports[i - 1].stats == map[];
      AbsentCpuTotal();
    }
    assert DeltaAt(reports, i);
  }

  /** Over the reports of a run, the per-iteration CPU values add up to the
      last observed total. */
  lemma ReportedCpuAddsUp(reports: seq<Report>)
    requires reports != []
    requires DeltaReports(reports)
    ensures Sum(Cpus(reports)) == CpuTotal(reports[|reports| - 1].stats)
  {
    ReportsAreDeltas(reports);
    DeltasTelescope(0, Totals(reports));
  }
}
