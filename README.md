# linux-proc-exporter, modelled in Dafny

linux-proc-exporter watches processes by executable name. Once per second it
reads `/proc/<pid>/stat` and `/proc/<pid>/statm` for each of them. It keeps
a bounded per-process history of samples, and it serves that history as
JSON. Each sample holds:

- the timestamp;
- the CPU ticks used since the previous sample;
- the virtual size;
- the resident size.

This project models the sampling core of `main.go` and the older standalone
monitor of `proc.go`, and proves properties of both.

Modules:

- `Wrappers` (`wrappers.dfy`): `Option` and `Result`.
- `Strings` (`strings.dfy`): the Go string helpers the program relies on:
  - `strings.Fields`, which splits on runs of Unicode white space;
  - `strings.Split` on one separator character;
  - `strings.TrimSpace`.

  Each one comes with a partner:
  - `Fields` with `Squeeze` (the text with every white-space character
    removed) and with `Join`, its round trip;
  - `Split` with `Join`, its round trip in both directions;
  - `TrimSpace` with `TrimSpaceIsMiddle` (the result is a slice of the text)
    and `TrimSpaceOfPadded` (padding around a word is removed exactly).
- `Strconv` (`strconv.dfy`): `strconv.Atoi` with its error discarded, on a
  64-bit platform:
  - the text is scanned left to right, as Go's `ParseUint` does;
  - an optional sign followed by decimal digits gives the value, clamped to
    the int64 range as `ParseInt` reports it;
  - a leading digit run whose value passes 2^64 - 1 is a range error even
    when a non-digit follows it, because that error is found first: the
    result is the int64 bound of the sign;
  - anything else gives 0.

  `Itoa` is its round-trip partner.
- `Collector` (`collector.dfy`): the collector of `main.go`.
  - `ProcessStats` is a class with the Go record's three fields. Its
    `Collect` method is `collectOnce` and updates them in place.
  - `Registry` holds `statsMap`. It does the registration of
    `startCollector` and the copy loop of `metricsHandler`.
  - `ParseNames` is the name-list parsing of `main`.
  - `Collect` is proved against the pure specification `Step` over
    `Series`, the abstract value of a record. `ReadProc` turns the pid and
    the two file texts into a `Reading`.
  - The lemmas about `Step` and `Run` (a fold of `Step` over ticks) state
    the history's properties:
    - the bound of 300 samples;
    - the newest-window property;
    - failed ticks change nothing;
    - the CPU delta formula;
    - re-baselining after an absence;
    - timestamp order.
- `ProcMonitor` (`proc_monitor.dfy`): `proc.go`.
  - `GetProcessStats` fills a four-key map. Its specification `StatsOf`
    includes the panics: a failed read (`check`) and an index past the end
    of the token slice.
  - `Monitor` is `MonitorProcessStats` run over a finite sequence of
    observations. It stops at the first panic, and its CPU reports are
    proved to be the successive differences (`Deltas`) of the observed
    totals.

The world outside the code is passed in as parameters:

- the resolved pid, where 0 means no process has that name;
- the wall-clock timestamp in milliseconds;
- the contents of the two /proc files, where `None` means the read failed.

The model follows the code on these points:

- The first CPU value after start, and the first after an absence, is 0.
  It is not omitted from the sample.
- The sample appended while the process is absent carries zeros, not
  missing values.
- A failed read or a short field list drops the whole tick. It does not
  append a sample with missing values.

`FourTickHistory` shows these rules on the observe, observe, absent,
observe sequence.

Both files pick CPU counters by position: fields 13 and 14 after splitting
the stat text. The command name in that text can contain spaces, which
shifts those positions. The model keeps the code's indexing, so it shifts
the same way.

## Model

| member | source | states |
|---|---|---|
| Strings.Fields | main.go:67 | every token is non-empty and free of white space |
| Strings.FieldsKeepsText | main.go:67 | the tokens, concatenated, are exactly the text with its white space removed: nothing is lost, added or reordered |
| Strings.FieldsOfJoin | main.go:79 | space-joined tokens followed by a tail that starts with white space tokenize back to those tokens, followed by the tail's tokens |
| Strings.Split | main.go:249 | there is one more piece than the text has separators, and no piece contains the separator |
| Strings.JoinOfSplit | main.go:249 | joining the pieces with the separator gives back the text |
| Strings.SplitOfJoin | proc.go:40 | splitting a join of separator-free pieces gives back the pieces |
| Strings.TrimSpace | main.go:251 | the result is no longer than the text and neither starts nor ends with white space |
| Strings.TrimSpaceIsMiddle | main.go:251 | the result is a contiguous slice of the text |
| Strings.TrimSpaceOfPadded | main.go:251 | any white-space padding around a word that neither starts nor ends with white space is removed, and the word is kept exactly |
| Strconv.Atoi | main.go:71-72 | the result is in the int64 range. An optionally signed decimal number reads as its value clamped to that range. Any other token reads as 0, unless its leading digit run passes 2^64 - 1, in which case it reads as the int64 bound of its sign |
| Strconv.ScanDigitsOutcome | main.go:71-72 | scanning the digits of a token ends in a range error exactly when its leading digit run exceeds 2^64 - 1, in a syntax error when the run stops early at a non-digit, and otherwise in the token's value |
| Strconv.AtoiOfDigitsThenJunk | main.go:71-72 | digits followed by one non-digit read as 0 when the digits fit in 64 bits, and as the int64 bound of the sign when they do not |
| Strconv.AtoiOverflowBeforeSyntaxError | main.go:71-72 | for every number n followed by a non-digit: the token reads as 0 when n fits in 64 bits and as MaxInt64 (MinInt64 when negated) when it does not |
| Strconv.AtoiOfItoa | main.go:71-72 | every int64 written in decimal is read back exactly |
| Collector.Trim | main.go:56-58 | the result has min(300, n) elements and is the newest suffix of the input |
| Collector.TrimAppend | main.go:99-101 | trimming, appending more and trimming again is the same as appending everything and trimming once |
| Collector.ReadProc | main.go:63-84 | the reading is NotFound exactly when pid is 0. It is Unreadable exactly when a read fails, stat has fewer than 15 fields or statm fewer than 2. Otherwise it is an observation whose sizes are int64 values |
| Collector.ReadProcOfFormatted | main.go:67-84 | on kernel-formatted texts the reading is utime + ktime from stat fields 13 and 14, and the sizes from statm fields 0 and 1 |
| Collector.Step | main.go:48-103 | a failed tick leaves the record unchanged. Otherwise the newest sample is the new one, the bound of 300 is kept, `initialized` is set exactly on an observation, and the CPU baseline moves to the observed total (it is kept on an absence) |
| Collector.StepAppends | main.go:93-101 | one tick's samples are the window of the old samples plus whatever the tick appended |
| Collector.RunKeepsNewestWindow | main.go:93-101 | after any ticks the record holds exactly the newest 300 of all samples ever appended, in order |
| Collector.UnreadableTicksChangeNothing | main.go:63-82 | ticks whose reads fail leave the record unchanged and append nothing |
| Collector.ConsecutiveObservationsDelta | main.go:87-91 | two observations separated only by failed ticks: the second reports exactly the difference of the two totals |
| Collector.ObservationAfterResetReportsZero | main.go:87-92 | on an uninitialized record (fresh, or right after an absence) the next observation reports CPU 0 and becomes the baseline |
| Collector.AbsenceResets | main.go:52-60 | an absence appends an all-zero sample, clears `initialized` and keeps `prevCPU` |
| Collector.FourTickHistory | main.go:48-103 | concrete history for observe 15, observe 18, absent, observe 2: the CPU values are 0, 3, 0 and 0 |
| Collector.TrimKeepsTimestampsOrdered | main.go:99-101 | trimming keeps a time-ordered series time-ordered |
| Collector.StepKeepsTimestampsOrdered | main.go:50-57 | a tick whose clock is not older than the newest sample keeps the series time-ordered |
| Collector.RunKeepsTimestampsOrdered | main.go:50-57 | with clock readings that never go backwards, the series stays time-ordered |
| Collector.ProcessStats.constructor | main.go:108 | a new record has no samples, a zero baseline and is not initialized |
| Collector.ProcessStats.Collect | main.go:48-103 | the new state is `Step` applied to the old state and the reading of the inputs, and the 300 bound is kept |
| Collector.Registry.constructor | main.go:34 | the registry starts empty |
| Collector.Registry.StartCollector | main.go:105-110 | every listed name gets a newly allocated zero record (a repeated name gets a single entry), other names keep their records, and distinct names own distinct records |
| Collector.Registry.Snapshot | main.go:124-133 | the copy maps exactly the registered names, each to that record's samples |
| Collector.ParseNames | main.go:249-252 | there is one name per comma-separated piece (commas + 1), and each is that piece with its surrounding white space trimmed |
| ProcMonitor.Check | proc.go:13-17 | a failed read is the ReadError panic, and a successful one passes its text through |
| ProcMonitor.StatsOf | proc.go:30-65 | pid 0 gives the empty map. A panic happens exactly when the process is found and a read fails, stat has fewer than 15 space-separated tokens or statm fewer than 2. Otherwise the map has exactly the keys vsizem, rsizem, utime and ktime, holding statm tokens 0 and 1 and stat tokens 13 and 14 |
| ProcMonitor.GetProcessStats | proc.go:30-65 | the successive insertions produce `StatsOf`, panics included |
| ProcMonitor.StatsOfFormatted | proc.go:40-56 | on texts with single-space-separated tokens, the map holds exactly the tokens at those positions |
| ProcMonitor.AbsentCpuTotal | proc.go:77-79 | the map of an absent process parses to a total of 0 |
| ProcMonitor.Deltas | proc.go:75-80 | each value is the total minus the previous total, and the first is taken against the starting value |
| ProcMonitor.DeltasTelescope | proc.go:75-80 | the deltas add up to the last total minus the starting value |
| ProcMonitor.Monitor | proc.go:67-85 | one report per observation until the first panic, which is returned with the observation that caused it. Each report holds its observation's map and the change of utime + ktime since the previous iteration, with the counters starting at 0 |
| ProcMonitor.ReportsAreDeltas | proc.go:75-80 | the reported CPU values are `Deltas` from 0 of the observed totals |
| ProcMonitor.ReportAfterAbsence | proc.go:68-80 | the first report, and every report right after an iteration that found no process, is the raw utime + ktime total |
| ProcMonitor.ReportedCpuAddsUp | proc.go:75-80 | the reported CPU values of a run add up to the last observed total |

## Left out

- Process resolution through go-ps (`getProcessPID`, `GetProcesses`): a foreign library call, so the pid is a parameter.
- File reads (`ioutil.ReadFile`) and `time.Now`: the file contents and the timestamp are parameters. Building the `/proc/<pid>/...` path is not modelled.
- The mutexes (`ProcessStats.mu`, `statsMapMu`): concurrency. Each operation is modelled as if it held its locks throughout.
- The ticker goroutine of `startCollector` (main.go:112-121), which calls `collectOnce` for every registered record once a second: concurrency and timing. One call is `ProcessStats.Collect`, and a sequence of calls on one record is `Run`.
- The infinite loop and `time.Sleep` of `MonitorProcessStats`: it is modelled as a loop over a finite sequence of observations.
- HTTP handlers, JSON encoding, the embedded HTML/JavaScript page and `ListenAndServe`: transport and user interface. `Snapshot` models only the copy that `metricsHandler` encodes.
- Flag parsing, `fmt.Println` and `fmt.Printf` output: command line and I/O. `ParseNames` takes the flag's value as a parameter, and `Monitor` returns its reports instead of printing them.
- Collector.ProcessStats.Collect: does not model Go's 64-bit wrap-around of `utime + ktime` and `totalCPU - prevCPU`, because integers are unbounded here. The counters would have to exceed 2^62 ticks to wrap.
- ProcMonitor.Monitor: does not model the 64-bit wrap-around of the sums and difference of the counters, for the same reason.
- Strings.Fields, Strings.Split, Strings.TrimSpace: work on Unicode code points, not bytes. The byte-to-rune decoding of invalid UTF-8 that Go performs is not modelled.
