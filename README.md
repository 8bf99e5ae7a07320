# Operating-system algorithm simulators, modelled in Dafny

The repository is a set of Swing windows that simulate four classic
operating-system algorithms. This project models the computing core behind
each window:

- **CPU scheduling** (`ProcessSchedulingGUI.schedule`). The arrival, burst and
  priority arrays become a list of process records with ids 1..n. Six policies
  then schedule them: FCFS, SJF and Priority (each non-preemptive or
  preemptive), and Round Robin with a quantum. The result is a Gantt chart (one
  entry per time unit, `-1` for idle) and a table of completion, turnaround and
  waiting times.
- **Disk-head scheduling** (`DiskSchedulingGUI`). FCFS, SSTF, SCAN, LOOK,
  C-SCAN and C-LOOK each turn a request list and a head position into the head's
  path and the total seek distance.
- **Page replacement** (`PageReplacementGUI`). FIFO, LRU and Optimal run a
  bounded set of frames over a reference string. They emit one table row per
  reference (page, frame contents, "Hit" or "Page Fault") and count the faults.
- **Banker's safety check** (`BankersAlgorithmGUI.bankersAlgorithm`). Given the
  allocation and maximum matrices and the available vector, it either finds a
  safe sequence by repeated index-order passes or reports an unsafe state.

The source code is imperative, and so is the model. The process table is an
`array<Process>` that the methods update record by record. The done, enqueued
and finish flags are `array<bool>`, and the work vector and need matrix are
arrays. The request array is sorted in place. Each loop is a `method` proved
against a declarative specification function, which gives one state change per
iteration:
- `Step`/`Run` for the schedulers;
- `Resident`/`Faults`/`TableOf` for page replacement;
- `Visit`/`Pass`/`Safety` for the Banker's check;
- a path and `SeekLength` for the disk algorithms.

Lemmas then prove what the algorithms promise about those functions:
- every process finishes with consistent figures, and the chart holds exactly
  its burst;
- the selection rules pick the first best candidate;
- FIFO evicts the earliest-loaded page, and LRU the least recently used one;
- SSTF always moves to a nearest unvisited request;
- a "safe" verdict is a real safe sequence, and with non-negative allocations
  an "unsafe" verdict means no safe sequence exists.

Modules and files:

| module | file | models |
|---|---|---|
| `Lists` | lists.dfy | `List.remove(Object)`, flag counting |
| `Sorting` | sorting.dfy | the stable sorts (`List.sort`, `Arrays.sort`) |
| `Processes` | processes.dfy | the `Process` record and what all policies share |
| `FcfsScheduling` | fcfs_scheduling.dfy | the FCFS branch |
| `NonPreemptive` | nonpreemptive_scheduling.dfy | SJF and Priority, non-preemptive |
| `Preemptive` | preemptive_scheduling.dfy | SJF and Priority, preemptive |
| `RoundRobin` | round_robin.dfy | the Round Robin branch |
| `ProcessScheduling` | process_scheduling.dfy | `schedule()`: list creation, dispatch, input errors |
| `DiskScheduling` | disk_scheduling.dfy | the six disk algorithms |
| `PageReplacement` | page_replacement.dfy | `fifo`, `lru`, `optimal`, `buildRow` |
| `Bankers` | bankers.dfy | `bankersAlgorithm` |

## Model

All source paths are under `algorithm/src/algorithm/`.

| member | source | states |
|---|---|---|
| Lists.Remove | algorithm/src/algorithm/PageReplacementGUI.java:95 | Removing a value drops exactly one copy of it if present (the multiset minus that value) and leaves the list unchanged otherwise. |
| Lists.RemoveDistinct | algorithm/src/algorithm/PageReplacementGUI.java:95 | On a duplicate-free list, removing a member keeps it duplicate-free, and the survivors are exactly the other members. |
| Lists.RemoveAt | algorithm/src/algorithm/PageReplacementGUI.java:95 | Removing a value cuts the list at its first occurrence. |
| Lists.UnfinishedMark | algorithm/src/algorithm/BankersAlgorithmGUI.java:151-152 | Setting one unset finish flag lowers the number of unfinished entries by one. |
| Lists.UnfinishedNone | algorithm/src/algorithm/BankersAlgorithmGUI.java:136 | No unfinished entries exactly when every flag is set, so the loop guard `count < n` is the same as "some flag unset". |
| Sorting.SortBy | algorithm/src/algorithm/ProcessSchedulingGUI.java:97 | The sort returns a permutation of its input. |
| Sorting.SortBySorted | algorithm/src/algorithm/ProcessSchedulingGUI.java:97 | The sort's result is ordered by the key. |
| Sorting.SortByStable | algorithm/src/algorithm/ProcessSchedulingGUI.java:97 | The sort is stable: among equal arrival times, processes keep their id order. |
| Sorting.SortInPlace | algorithm/src/algorithm/DiskSchedulingGUI.java:139 | Sorting the array in place leaves it holding the sorted permutation of its old contents. |
| Processes.CreatedIds | algorithm/src/algorithm/ProcessSchedulingGUI.java:73-89 | Process i gets id i+1 (never the idle marker), its own arrival, burst and priority, and remaining time equal to its burst; ids strictly increase. |
| Processes.DistinctIdsPermuted | algorithm/src/algorithm/ProcessSchedulingGUI.java:97 | Re-ordering the process list keeps the ids distinct. |
| Processes.AddEntries | algorithm/src/algorithm/ProcessSchedulingGUI.java:104 | The chart loop appends exactly k copies of the process id. |
| Processes.RepeatCount | algorithm/src/algorithm/ProcessSchedulingGUI.java:104 | A block of k copies of an id holds that id k times and nothing else. |
| Processes.FirstMin | algorithm/src/algorithm/ProcessSchedulingGUI.java:113-118 | The "strictly smaller replaces" scan returns none exactly when no candidate exists; otherwise it returns a candidate of minimum key that beats every earlier candidate strictly. |
| Processes.LatestArrivalBounds | algorithm/src/algorithm/ProcessSchedulingGUI.java:119 | Every process arrives no later than the latest arrival, so idle ticks stop once the clock passes it. |
| Processes.LeftUpdate | algorithm/src/algorithm/ProcessSchedulingGUI.java:137 | Replacing one record changes the total remaining work by that record's change. |
| Processes.AccountedStart | algorithm/src/algorithm/ProcessSchedulingGUI.java:88-93 | Before any tick, fresh records and an empty chart are consistent. |
| Processes.IdleAccounted | algorithm/src/algorithm/ProcessSchedulingGUI.java:197 | An idle tick keeps every record consistent with the chart. |
| Processes.RunAccounted | algorithm/src/algorithm/ProcessSchedulingGUI.java:198-214 | Running process i for `ex` ticks (0 < ex <= remaining) keeps every record consistent with the chart: executed time equals chart count, and finished records have correct figures and their last tick at ct-1. |
| Processes.RanRecord | algorithm/src/algorithm/ProcessSchedulingGUI.java:137-143 | After running, the record keeps its job, its remaining time stays within [0, burst], and when it reaches 0 the completion, turnaround and waiting figures are filled in consistently. |
| Processes.RunCounts | algorithm/src/algorithm/ProcessSchedulingGUI.java:137 | Running a block adds `ex` entries of that process's id to the chart and none of any other. |
| Processes.CompletedKept | algorithm/src/algorithm/ProcessSchedulingGUI.java:198-201 | A finished process stays correctly finished when later ticks run other processes. |
| Processes.FinalRecord | algorithm/src/algorithm/ProcessSchedulingGUI.java:139-143 | A record whose remaining time ran out has rt = 0, ct = at + tat, tat = wt + bt, wt >= 0, chart count equal to its burst, and its last chart entry at ct-1. |
| FcfsScheduling.FcfsRun | algorithm/src/algorithm/ProcessSchedulingGUI.java:96-106 | The in-place FCFS loop over the sorted array yields exactly the records and chart of the FCFS specification. |
| FcfsScheduling.ServeAll | algorithm/src/algorithm/ProcessSchedulingGUI.java:98-105 | The serve loop from time 0 equals the recursive specification. |
| FcfsScheduling.Serve | algorithm/src/algorithm/ProcessSchedulingGUI.java:99-104 | One iteration updates only record k: it starts at max(time, arrival), and appends its burst of chart entries. |
| FcfsScheduling.FcfsTable | algorithm/src/algorithm/ProcessSchedulingGUI.java:98-105 | For any bursts, each process starts at the later of the previous completion and its arrival; its waiting time is that start minus arrival (never negative), and ct = start + burst. |
| FcfsScheduling.FcfsGantt | algorithm/src/algorithm/ProcessSchedulingGUI.java:104 | The chart holds each process's id exactly burst times and no foreign id. |
| FcfsScheduling.FcfsCompletionsIncrease | algorithm/src/algorithm/ProcessSchedulingGUI.java:98-105 | With positive bursts, completion times strictly increase in service order. |
| NonPreemptive.Pick | algorithm/src/algorithm/ProcessSchedulingGUI.java:112-118 | The selection scan returns the first arrived, not-done process with the smallest key (burst or priority), or -1 when none has arrived. |
| NonPreemptive.RunBlock | algorithm/src/algorithm/ProcessSchedulingGUI.java:120-126 | Running the picked process finishes only its record, marks it done, and appends its whole burst to the chart. |
| NonPreemptive.Iterate | algorithm/src/algorithm/ProcessSchedulingGUI.java:111-127 | One loop iteration over the arrays performs exactly one `Step` of the specification. |
| NonPreemptive.Loop | algorithm/src/algorithm/ProcessSchedulingGUI.java:111-127 | The whole loop ends in the state `Run` gives from the starting state. |
| NonPreemptive.NonPreemptiveRun | algorithm/src/algorithm/ProcessSchedulingGUI.java:108-168 | The SJF and Priority non-preemptive branches yield the records and chart of the specification over the arrival-sorted list. |
| NonPreemptive.StepRule | algorithm/src/algorithm/ProcessSchedulingGUI.java:113-126 | A step idles exactly when no process is ready; otherwise a first-best ready process exists, and the step runs it to completion. |
| NonPreemptive.StepProgress | algorithm/src/algorithm/ProcessSchedulingGUI.java:111-127 | Each step either finishes a process or, while idle, brings the clock closer to the next arrival, so the loop ends. |
| NonPreemptive.StepGood | algorithm/src/algorithm/ProcessSchedulingGUI.java:111-127 | A step keeps every record consistent with the chart. |
| NonPreemptive.RunGood | algorithm/src/algorithm/ProcessSchedulingGUI.java:111-127 | The loop ends with every process done and every record consistent. |
| NonPreemptive.NonPreemptiveJobs | algorithm/src/algorithm/ProcessSchedulingGUI.java:108-168 | For any bursts, the table is the arrival-sorted list, each row keeping its entry's job. |
| NonPreemptive.NonPreemptiveCorrect | algorithm/src/algorithm/ProcessSchedulingGUI.java:108-168 | Each sorted process keeps its job and gets settled figures with wt >= 0; its burst is one contiguous block of chart entries ending at ct; the chart holds no foreign id. |
| Preemptive.Pick | algorithm/src/algorithm/ProcessSchedulingGUI.java:132-135 | The scan returns the first arrived, unfinished process with the smallest key (remaining time or priority), or -1 if none. |
| Preemptive.StepRule | algorithm/src/algorithm/ProcessSchedulingGUI.java:132-144 | A tick idles exactly when no process is ready; otherwise it runs a first-best ready process for one unit. |
| Preemptive.StepProgress | algorithm/src/algorithm/ProcessSchedulingGUI.java:131-145 | Each tick lowers the remaining work or, while idle, the wait for the next arrival. |
| Preemptive.Iterate | algorithm/src/algorithm/ProcessSchedulingGUI.java:131-145 | One loop iteration over the array performs exactly one `Step` of the specification. |
| Preemptive.PreemptiveRun | algorithm/src/algorithm/ProcessSchedulingGUI.java:130-186 | The preemptive SJF and Priority branches yield the records and chart of the specification. |
| Preemptive.StepGood | algorithm/src/algorithm/ProcessSchedulingGUI.java:131-145 | A tick keeps every record consistent with the chart. |
| Preemptive.RunGood | algorithm/src/algorithm/ProcessSchedulingGUI.java:131-145 | The loop ends with no remaining time anywhere and every record consistent. |
| Preemptive.PreemptiveCorrect | algorithm/src/algorithm/ProcessSchedulingGUI.java:130-186 | Every process finishes with rt = 0 and settled figures (wt >= 0); the chart holds its id exactly burst times, the last at ct-1 and none after; no foreign id appears. |
| RoundRobin.ArrivalsSpec | algorithm/src/algorithm/ProcessSchedulingGUI.java:192-196 | The admission scan appends exactly the arrived, not-yet-enqueued processes, in increasing index order. |
| RoundRobin.AdmitOk | algorithm/src/algorithm/ProcessSchedulingGUI.java:192-196 | Admission keeps the queue duplicate-free and consistent with the enqueued flags, and finishes nobody. |
| RoundRobin.RunHeadFacts | algorithm/src/algorithm/ProcessSchedulingGUI.java:198-202 | Polling the head removes it from the queue; a process with time left has run for min(rt, quantum) ticks. |
| RoundRobin.SliceOrder | algorithm/src/algorithm/ProcessSchedulingGUI.java:198-214 | After a slice, enqueued flags are never cleared. A process with time left goes behind the old queue and the newcomers (arrived during the slice, in index order). A finished one leaves the queue and the completed count rises by one. |
| RoundRobin.SliceProgress | algorithm/src/algorithm/ProcessSchedulingGUI.java:198-214 | A slice with a positive quantum finishes the head or lowers the remaining work. |
| RoundRobin.StepProgress | algorithm/src/algorithm/ProcessSchedulingGUI.java:191-215 | Each iteration finishes a process, lowers the remaining work, or brings the clock closer to the next arrival. |
| RoundRobin.AdmitInto | algorithm/src/algorithm/ProcessSchedulingGUI.java:192-196 | The admission loop sets exactly the flags of arrived processes and appends the admitted indices to the queue. |
| RoundRobin.Iterate | algorithm/src/algorithm/ProcessSchedulingGUI.java:191-215 | One loop iteration over the arrays performs exactly one `Step` of the specification. |
| RoundRobin.RoundRobinRun | algorithm/src/algorithm/ProcessSchedulingGUI.java:188-216 | The Round Robin branch yields the records and chart of the specification. |
| RoundRobin.SliceGood | algorithm/src/algorithm/ProcessSchedulingGUI.java:198-214 | A slice keeps the records consistent with the chart, and the queue, flags and remaining times consistent with each other. |
| RoundRobin.RunGood | algorithm/src/algorithm/ProcessSchedulingGUI.java:191-215 | The loop ends with rt = 0 everywhere and every record consistent. |
| RoundRobin.StepTally | algorithm/src/algorithm/ProcessSchedulingGUI.java:191-215 | For a list with non-negative bursts (zero allowed), a step keeps every record's job and 0 <= rt <= bt, the chart count bt - rt, the arrival-plus-work bound on the clock, and settled figures for finished processes. |
| RoundRobin.RunTally | algorithm/src/algorithm/ProcessSchedulingGUI.java:191-215 | The loop keeps those facts and ends with every process finished. |
| RoundRobin.RoundRobinTally | algorithm/src/algorithm/ProcessSchedulingGUI.java:188-216 | With non-negative bursts, zero included, every process finishes with rt = 0 and settled figures with wt >= 0; the chart holds its id exactly burst times and no foreign id. |
| RoundRobin.RoundRobinJobs | algorithm/src/algorithm/ProcessSchedulingGUI.java:188-216 | For any bursts, the table keeps the input order and each row the job (id, arrival, burst, priority) of its input entry. |
| RoundRobin.RoundRobinCorrect | algorithm/src/algorithm/ProcessSchedulingGUI.java:188-216 | Every process finishes with rt = 0 and settled figures (wt >= 0); the chart holds its id exactly burst times, the last at ct-1 and none after; no foreign id appears. |
| ProcessScheduling.ScheduleRun | algorithm/src/algorithm/ProcessSchedulingGUI.java:80-236 | `schedule()` over arrays produces the outcome of the declarative `Schedule`. |
| ProcessScheduling.ScheduleInvalid | algorithm/src/algorithm/ProcessSchedulingGUI.java:88-89 | The window shows the error exactly when the arrival or priority array is shorter than the burst array. |
| ProcessScheduling.PolicyFacts | algorithm/src/algorithm/ProcessSchedulingGUI.java:95-217 | Under every policy, for non-negative bursts (zero included, Round Robin too), the chart holds process k+1 exactly bt[k] times, and the table holds the created jobs in list order (sorted by arrival for FCFS and the non-preemptive policies). |
| ProcessScheduling.PolicyJobs | algorithm/src/algorithm/ProcessSchedulingGUI.java:95-217 | Under every policy and for any bursts the loop ends on, the table holds the created jobs in list order, sorted by arrival for FCFS and the non-preemptive policies. |
| ProcessScheduling.ScheduleCorrect | algorithm/src/algorithm/ProcessSchedulingGUI.java:95-229 | Under every policy, for non-negative bursts, the table has one row per process with settled figures and wt >= 0; the chart shows process k+1 exactly bt[k] times and no other id besides idle. |
| ProcessScheduling.ScheduleTableOrder | algorithm/src/algorithm/ProcessSchedulingGUI.java:219-229 | For any bursts the loop ends on, FCFS and the non-preemptive policies print the table sorted by arrival, ties in id order; the other policies print it in input order. |
| DiskScheduling.SeekLengthAtLeastDisplacement | algorithm/src/algorithm/DiskSchedulingGUI.java:105-108 | The total seek distance is at least the straight distance from start to finish. |
| DiskScheduling.SeekLengthAppend | algorithm/src/algorithm/DiskSchedulingGUI.java:105-108 | The seek distance of two joined legs is the sum of theirs plus the connecting hop. |
| DiskScheduling.Fcfs | algorithm/src/algorithm/DiskSchedulingGUI.java:100-112 | The head visits the requests in input order, and the total is that path's seek length. |
| DiskScheduling.Nearest | algorithm/src/algorithm/DiskSchedulingGUI.java:121-128 | The inner scan returns an unvisited request at minimum distance, the lowest index among ties. |
| DiskScheduling.SstfPrefixExtend | algorithm/src/algorithm/DiskSchedulingGUI.java:129-132 | Moving to a nearest unvisited request extends a greedy SSTF run. |
| DiskScheduling.Sstf | algorithm/src/algorithm/DiskSchedulingGUI.java:114-136 | Every request is visited once, each move goes to a nearest unvisited request (lowest index on ties), and the total is the path's seek length. |
| DiskScheduling.FindSplit | algorithm/src/algorithm/DiskSchedulingGUI.java:143 | The split index is the first request at or above the head. |
| DiskScheduling.UpLegOrdered | algorithm/src/algorithm/DiskSchedulingGUI.java:147-152 | On sorted requests, the upward leg visits only requests at or above the head, in ascending order. |
| DiskScheduling.DownLegOrdered | algorithm/src/algorithm/DiskSchedulingGUI.java:163-168 | On sorted requests, the downward leg visits only requests below the head, in descending order. |
| DiskScheduling.LegsCoverRequests | algorithm/src/algorithm/DiskSchedulingGUI.java:138-273 | The two legs together visit every request exactly once, in every combination the algorithms use. |
| DiskScheduling.ScanSweeps | algorithm/src/algorithm/DiskSchedulingGUI.java:143-178 | SCAN goes up through the requests, turns at `range` if not already there, then comes down; or it goes down, turns at 0, then comes up. The total is the seek length, except that the turn at 0 is charged as the position it leaves from. |
| DiskScheduling.Scan | algorithm/src/algorithm/DiskSchedulingGUI.java:138-182 | SCAN sorts the requests in place and produces the sweep path and total above over the sorted requests. |
| DiskScheduling.LookSweeps | algorithm/src/algorithm/DiskSchedulingGUI.java:189-214 | LOOK reverses at the last request instead of the disk edge; the total is exactly the path's seek length. |
| DiskScheduling.Look | algorithm/src/algorithm/DiskSchedulingGUI.java:184-218 | LOOK sorts the requests in place and produces that path and total. |
| DiskScheduling.CScanSweeps | algorithm/src/algorithm/DiskSchedulingGUI.java:225-245 | C-SCAN goes up, then (unless already at `range`) to `range` and a jump to 0 charged `range`, then up through the lower requests. |
| DiskScheduling.CScan | algorithm/src/algorithm/DiskSchedulingGUI.java:220-249 | C-SCAN sorts the requests in place and produces that path and total. |
| DiskScheduling.CLookSweeps | algorithm/src/algorithm/DiskSchedulingGUI.java:256-269 | C-LOOK serves the upper requests, jumps to the lowest, and serves the rest upward; the total is the path's seek length. |
| DiskScheduling.CLook | algorithm/src/algorithm/DiskSchedulingGUI.java:251-273 | C-LOOK sorts the requests in place and produces that path and total. |
| PageReplacement.RowLayout | algorithm/src/algorithm/PageReplacementGUI.java:172-184 | A row has frames+2 cells: the page, the resident pages in order padded with blanks, and "Hit" exactly on a hit. |
| PageReplacement.BuildRow | algorithm/src/algorithm/PageReplacementGUI.java:172-184 | The row-building loop produces that row. |
| PageReplacement.TableExtend | algorithm/src/algorithm/PageReplacementGUI.java:87-103 | Appending the row of the next reference extends a correct table prefix. |
| PageReplacement.FifoRun | algorithm/src/algorithm/PageReplacementGUI.java:81-106 | The FIFO loop emits exactly the specified table and fault count. |
| PageReplacement.LruRun | algorithm/src/algorithm/PageReplacementGUI.java:108-130 | The LRU loop emits exactly the specified table and fault count. |
| PageReplacement.FindNextUse | algorithm/src/algorithm/PageReplacementGUI.java:148-154 | The inner scan returns the next position after i where the page is referenced, or "never". |
| PageReplacement.FindVictim | algorithm/src/algorithm/PageReplacementGUI.java:145-159 | The victim scan returns a frame whose page is next used farthest away, the lowest frame among ties. |
| PageReplacement.NextUse | algorithm/src/algorithm/PageReplacementGUI.java:148-154 | The next use is a reference of the page, with none between. |
| PageReplacement.Farthest | algorithm/src/algorithm/PageReplacementGUI.java:145-159 | The victim has the greatest next-use distance and beats every earlier frame strictly. |
| PageReplacement.OptimalRun | algorithm/src/algorithm/PageReplacementGUI.java:132-170 | The Optimal loop emits exactly the specified table and fault count. |
| PageReplacement.Run | algorithm/src/algorithm/PageReplacementGUI.java:81-170 | For each policy, the run emits the specified table and fault count. |
| PageReplacement.ResidentWellFormed | algorithm/src/algorithm/PageReplacementGUI.java:87-103 | At most `frames` pages are resident, all distinct and all referenced already. |
| PageReplacement.ReferencedPageResident | algorithm/src/algorithm/PageReplacementGUI.java:88-99 | Right after a reference, the page is resident. |
| PageReplacement.HitKeepsResidents | algorithm/src/algorithm/PageReplacementGUI.java:88 | On a hit, FIFO and Optimal leave the frames untouched, LRU moves the page to most-recent, and the resident set is unchanged. |
| PageReplacement.FirstReferenceFaults | algorithm/src/algorithm/PageReplacementGUI.java:88-99 | The first reference of a page is always a fault. |
| PageReplacement.FifoLoadOrder | algorithm/src/algorithm/PageReplacementGUI.java:87-98 | FIFO's memory list is ordered by load time, earliest first. |
| PageReplacement.FifoEvictsEarliestLoaded | algorithm/src/algorithm/PageReplacementGUI.java:93-97 | A FIFO fault with full frames evicts the earliest-loaded page and appends the new one. |
| PageReplacement.LruRecencyOrder | algorithm/src/algorithm/PageReplacementGUI.java:113-124 | LRU's cache keys are ordered by last use, least recent first. |
| PageReplacement.LruEvictsLeastRecentlyUsed | algorithm/src/algorithm/PageReplacementGUI.java:116-120 | An LRU fault with full frames evicts the least recently used page and appends the new one. |
| Bankers.Visit | algorithm/src/algorithm/BankersAlgorithmGUI.java:139-155 | A visit never shrinks the safe sequence, and each process it adds is one fewer unfinished process. |
| Bankers.Pass | algorithm/src/algorithm/BankersAlgorithmGUI.java:138-156 | A pass keeps the number of unfinished processes plus the sequence length constant. |
| Bankers.ComputeNeed | algorithm/src/algorithm/BankersAlgorithmGUI.java:130-132 | The need matrix holds max minus allocation for every process and resource. |
| Bankers.CanFinish | algorithm/src/algorithm/BankersAlgorithmGUI.java:140-146 | The inner check is true exactly when the process's whole need fits in work. |
| Bankers.ReleaseInto | algorithm/src/algorithm/BankersAlgorithmGUI.java:148-150 | Work gains the finishing process's allocation, entry by entry. |
| Bankers.ScanPass | algorithm/src/algorithm/BankersAlgorithmGUI.java:137-156 | One pass over the arrays is the specified pass, and `found` is set exactly when it finished someone. |
| Bankers.SafetyCheck | algorithm/src/algorithm/BankersAlgorithmGUI.java:121-170 | The whole check over arrays returns the declarative verdict. |
| Bankers.ReleaseIsWork | algorithm/src/algorithm/BankersAlgorithmGUI.java:148-150 | After releasing, work is available plus everything held by the finished processes. |
| Bankers.PassConsistent | algorithm/src/algorithm/BankersAlgorithmGUI.java:138-156 | A pass keeps the sequence duplicate-free, each member's need fitting when it was chosen, and work equal to available plus released allocations. |
| Bankers.NoneFits | algorithm/src/algorithm/BankersAlgorithmGUI.java:157-159 | A pass that finished nobody found no unfinished process whose need fits. |
| Bankers.SafetySound | algorithm/src/algorithm/BankersAlgorithmGUI.java:162-169 | A safe verdict lists every process once, each one's need fitting in available plus what its predecessors released. |
| Bankers.HeldMonotone | algorithm/src/algorithm/BankersAlgorithmGUI.java:148-150 | With non-negative allocations, more finished processes release at least as much. |
| Bankers.ProgressPossible | algorithm/src/algorithm/BankersAlgorithmGUI.java:138-156 | If some safe sequence exists, an unfinished process always fits the current work. |
| Bankers.SafetyComplete | algorithm/src/algorithm/BankersAlgorithmGUI.java:157-159 | With non-negative allocations, an unsafe verdict means no safe sequence exists. |
| Bankers.SafetyNeverErrs | algorithm/src/algorithm/BankersAlgorithmGUI.java:136-161 | On well-shaped input, the loop reports safe or unsafe, never an input error. |
| Bankers.VerdictMeaning | algorithm/src/algorithm/BankersAlgorithmGUI.java:116-170 | An input error occurs exactly on ill-shaped matrices; a safe verdict is a safe sequence; with non-negative allocations, an unsafe verdict means none exists. |

## Left out

- The Swing windows, text parsing, the output formatting and the floating-point
  averages are left out. The models take the parsed arrays and return
  structured results: a chart and a table, a path and a total, table rows, or a
  verdict. The empty-field defaults (priorities 0, quantum 1) belong to parsing
  and are left out too.
- Only one input error of the scheduling window is modelled: an arrival or
  priority array shorter than the burst array (`Outcome.Invalid`). Parse errors
  belong to the parsing that is left out.
- The Banker's "Error in input format" message is modelled as `InputError` only
  for the matrix shapes that make the need computation read past a row.
- Java's 32-bit `int` arithmetic is not modelled; all integers are unbounded.
  Where the source uses `Integer.MAX_VALUE` as a sentinel:
  - Optimal's "never used again" is `|pages|`, which orders the same way.
  - SSTF's initial minimum distance is not modelled. A distance of
    `Integer.MAX_VALUE` or more (overflowing cylinder differences) would leave
    `idx = -1`.
- NonPreemptive.Pick: the SJF scan starts from `minBt = Integer.MAX_VALUE`, so
  the source never picks a process whose burst is exactly `Integer.MAX_VALUE`
  and loops forever on it. The model has no such bound and picks it.
- ProcessScheduling.Schedule: the preemptive branches never end when a burst is
  zero or negative, and Round Robin never ends with a non-positive quantum.
  These inputs are excluded by `Terminates`.
- ProcessScheduling.ScheduleCorrect: requires non-negative bursts. With a
  negative burst the chart loops add no entry, so the chart holds that process
  0 times, not `bt` times, and under Round Robin the clock goes backwards. The
  table order (`ScheduleTableOrder`) is proved for every burst.
- RoundRobin.RoundRobinTally: a zero burst is run for a slice of 0 ticks and
  completes at once with no chart entry, so for bursts that may be zero only
  the counts and figures are stated. The position of the last entry (the tick
  before `ct`) is stated by `RoundRobinCorrect` for positive bursts.
- PageReplacement.Run: requires at least one frame. With `frames <= 0` and at
  least one reference, the source fails with an uncaught runtime exception at
  the first page, and the window shows no result:
  - FIFO unboxes the `null` that `queue.poll()` returns from an empty queue;
  - LRU takes `iterator().next()` of an empty key set, and with a negative
    count the `LinkedHashMap` constructor already rejects it;
  - Optimal calls `memory.set(-1, page)`.
  Only `NumberFormatException` is caught. With no references, FIFO and Optimal
  print an empty table.
- `List.sort` (TimSort) and `Arrays.sort` are modelled as a stable insertion
  sort. Both library sorts have a unique result for these keys, so the order is
  the same.
- The process objects are values held in an array; each update stores a new
  record at its index. Priority's `processes.indexOf(minP)` is the selected
  index, since the records are distinct objects. The Round Robin queue holds
  list indices instead of object references.
- DiskScheduling.ScanSweeps: when SCAN turns at cylinder 0, the source adds
  `head` to the total. For a negative position this is not the distance
  travelled, and the contract states the difference (`2 * BottomOf`).
- DiskScheduling.CScanSweeps: C-SCAN's jump is charged `range`, which is not the
  distance of the jump when `range` is negative. The contract states the
  difference in the same way.
- LRU's `LinkedHashMap` in access order is modelled as its key sequence, least
  recently used first. `get` and `put` move a key to the end.
