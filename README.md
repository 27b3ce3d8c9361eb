# A verified model of the HTTP-AI server's scheduling core and tooling

The repository is an HTTP/1.1 server written in C++. A worker pool serves
the requests it accepts, in an order decided by a pluggable scheduler:

- FIFO, a plain queue;
- SJF, shortest estimated job first;
- RR, round robin with a time slice;
- WFQ, smallest estimate-to-weight ratio first;
- an adaptive scheduler that wraps one of those four and switches between
  them from the CPU load, the queue length and the variance of the recent
  workload estimates.

Around the server sit Python and JavaScript tools:

- an inference service that prepares the feature row for a trained model;
- a dataset builder that labels each (workload, queue bin) with the best
  algorithm and balances the classes;
- a dataset report that bins queue lengths;
- a dashboard API that tails the server's CSV log into a bounded history;
- the dashboard page, which keeps the recent events, draws the algorithm
  timeline and groups latency and throughput by algorithm.

This Dafny project models all of that and proves properties of the model.
It has one module per source file:

- `Tasks`: the task record;
- `FifoQueue`, `SjfQueue`, `RrQueue` and `WfqQueue`: the four disciplines, as
  classes whose fields the methods update;
- `HeapOrder`: what `std::priority_queue` hands out;
- `Scheduling`: the `Scheduler*` interface, as a tagged reference to one of
  the four classes;
- `SchedulerFactory` and `Adaptive`;
- `HttpParser`, `Responses` and `HttpServerHelpers`: request parsing,
  response building and the server's pure helpers;
- `AiInference`, `MergeDataset`, `AnalyzeDataset`, `DashboardApi` and
  `DashboardApp`: the tooling;
- `Wrappers`, `Text` and `Window`: shared option types, string helpers and
  keep-the-newest windows.

Code that works step by step is modelled by methods with loops. Most such
methods are proved equal to a specification function, and the properties
are proved about that function. The rest are characterised by relational
ensures instead: `MergeDataset.BestTable`, `MergeDataset.MinCount`,
`MergeDataset.Balance`, `DashboardApp.Bars`, `DashboardApp.SortByAlgoIndex`
and `HttpServerHelpers.AdmitAll`. Blocking waits become preconditions. Clock,
CPU, randomness and string-to-number conversions become parameters.

Behaviour of the code worth knowing:

- A discipline switch of the adaptive scheduler replaces the inner scheduler
  with a fresh empty one. Tasks still queued are not migrated; they are
  dropped (`Adaptive.MigrationDropsQueuedTasks`).
- WFQ keeps no virtual time. It orders by `estimatedTime / weight` alone.
- The request body the parser returns joins the remaining lines with `'\n'`.
  Lines are CR-trimmed first. A body whose last line is empty therefore
  still ends in `'\n'`.
- The inference service and the dataset builder put a queue length that
  equals a bin edge (5, 20, 50, 100, 200, 400) into different bins.
  `AiInference.BinsDisagreeAtEdges` shows this.

## Model

| member | source | states |
|---|---|---|
| `Tasks.DefaultTask` | server/include/scheduler/Task.hpp:12 | The default task has id 0, and its estimate, weight and remaining time are all 1. |
| `Tasks.NewTask` | server/include/scheduler/Task.hpp:14-15 | The constructor keeps id, estimate and weight, and remaining time starts equal to the estimate. |
| `Tasks.NameIsInjective` | server/src/scheduler/SchedulerFactory.cpp:8-18 | The four algorithm names are distinct, and each is one of "FIFO", "SJF", "RR", "WFQ". |
| `Window.KeepLast` | dashboard/dashboard_api.py:122 | Returns the newest min(n, size) entries, in order, as a suffix of the input. |
| `Window.PushBoundedKeepsLast` | server/src/scheduler/AdaptiveScheduler.cpp:116-118 | An append that drops the oldest entry beyond n keeps the window equal to the newest n of everything appended. |
| `Window.KeepLastAppend` | dashboard/app.js:202-203 | Trimming to n after each push is the same as trimming once at the end. |
| `HeapOrder.TopExists` | server/include/scheduler/SJFScheduler.hpp:35-36 | A non-empty priority queue always has an element with a minimal key to hand out. |
| `HeapOrder.DrainStep` | server/include/scheduler/SJFScheduler.hpp:35-36 | Appending a minimal-key element to a drain keeps the output in key order, with no output key above a remaining one. |
| `FifoQueue.FifoScheduler.constructor` | server/include/scheduler/FIFOScheduler.hpp:10 | A new FIFO scheduler is empty. |
| `FifoQueue.FifoScheduler.CurrentAlgorithm` | server/include/scheduler/FIFOScheduler.hpp:12-14 | Reports the FIFO discipline's name. |
| `FifoQueue.FifoScheduler.Empty` | server/include/scheduler/FIFOScheduler.hpp:39-42 | True exactly when no task is held. |
| `FifoQueue.FifoScheduler.Enqueue` | server/include/scheduler/FIFOScheduler.hpp:16-18 | The task goes to the tail of the queue. |
| `FifoQueue.FifoScheduler.EnqueueWithLength` | server/include/scheduler/FIFOScheduler.hpp:20-26 | The length hint is ignored, and the task goes to the tail. |
| `FifoQueue.FifoScheduler.Dequeue` | server/include/scheduler/FIFOScheduler.hpp:28-37 | Hands out the head, and the rest of the queue stays in order. |
| `FifoQueue.EnqueueThenDrain` | server/include/scheduler/FIFOScheduler.hpp:16-37 | Enqueueing a batch and draining it returns the batch in arrival order. |
| `SjfQueue.SjfScheduler.constructor` | server/include/scheduler/SJFScheduler.hpp:11 | A new SJF scheduler holds nothing. |
| `SjfQueue.SjfScheduler.CurrentAlgorithm` | server/include/scheduler/SJFScheduler.hpp:13-15 | Reports the SJF discipline's name. |
| `SjfQueue.SjfScheduler.Empty` | server/include/scheduler/SJFScheduler.hpp:40-43 | True exactly when the pool is empty. |
| `SjfQueue.SjfScheduler.Enqueue` | server/include/scheduler/SJFScheduler.hpp:17-19 | Adds the task to the pool. |
| `SjfQueue.SjfScheduler.EnqueueWithLength` | server/include/scheduler/SJFScheduler.hpp:21-27 | Ignores the length hint and adds the task to the pool. |
| `SjfQueue.SjfScheduler.Dequeue` | server/include/scheduler/SJFScheduler.hpp:29-38 | Removes and returns a task whose estimate is no larger than any other held. |
| `SjfQueue.EnqueueThenDrain` | server/include/scheduler/SJFScheduler.hpp:46-51 | Draining returns a permutation of the batch in non-decreasing estimate order. |
| `RrQueue.Served` | server/include/scheduler/RRScheduler.hpp:39-44 | The served copy keeps id, estimate and weight. Its remaining time drops by the slice, or becomes 0 when at most one slice was left. |
| `RrQueue.RrScheduler.constructor` | server/include/scheduler/RRScheduler.hpp:10-11 | A new RR scheduler is empty, with the given slice (5 by default). |
| `RrQueue.RrScheduler.CurrentAlgorithm` | server/include/scheduler/RRScheduler.hpp:13-15 | Reports the RR discipline's name. |
| `RrQueue.RrScheduler.SetTimeSlice` | server/include/scheduler/RRScheduler.hpp:17-19 | Replaces the slice with any integer and leaves the queue alone. |
| `RrQueue.RrScheduler.Empty` | server/include/scheduler/RRScheduler.hpp:49-52 | True exactly when no task is held. |
| `RrQueue.RrScheduler.Enqueue` | server/include/scheduler/RRScheduler.hpp:21-25 | The task goes to the tail, and the slice is unchanged. |
| `RrQueue.RrScheduler.EnqueueWithLength` | server/include/scheduler/Scheduler.hpp:15-18 | The inherited two-argument form drops the hint and appends to the tail. |
| `RrQueue.RrScheduler.Dequeue` | server/include/scheduler/RRScheduler.hpp:27-47 | Hands out the served copy of the head. The copy goes back to the tail exactly when the head needed more than one slice. |
| `RrQueue.LoneTaskRounds` | server/include/scheduler/RRScheduler.hpp:39-44 | A lone task with remaining time R and slice T >= 1 is served ceil(R/T) times. Only the last serving reports it finished. |
| `RrQueue.NonPositiveSliceMakesNoProgress` | server/include/scheduler/RRScheduler.hpp:39-44 | With a slice of 0 or less, a task whose remaining time exceeds the slice never shrinks and is always requeued. |
| `WfqQueue.FinishKey` | server/include/scheduler/WFQScheduler.hpp:46-55 | The key times the weight is the estimate, and a weight of 0 or less counts as 1. |
| `WfqQueue.WfqScheduler.constructor` | server/include/scheduler/WFQScheduler.hpp:11 | A new WFQ scheduler holds nothing. |
| `WfqQueue.WfqScheduler.CurrentAlgorithm` | server/include/scheduler/WFQScheduler.hpp:13-15 | Reports the WFQ discipline's name. |
| `WfqQueue.WfqScheduler.Empty` | server/include/scheduler/WFQScheduler.hpp:40-43 | True exactly when the pool is empty. |
| `WfqQueue.WfqScheduler.Enqueue` | server/include/scheduler/WFQScheduler.hpp:17-19 | Adds the task to the pool. |
| `WfqQueue.WfqScheduler.EnqueueWithLength` | server/include/scheduler/WFQScheduler.hpp:21-27 | Ignores the length hint and adds the task to the pool. |
| `WfqQueue.WfqScheduler.UpdateWeights` | server/include/scheduler/Scheduler.hpp:30 | The inherited weight update changes nothing. |
| `WfqQueue.WfqScheduler.Dequeue` | server/include/scheduler/WFQScheduler.hpp:29-38 | Removes and returns a task of minimal estimate-to-weight key. |
| `WfqQueue.EnqueueThenDrain` | server/include/scheduler/WFQScheduler.hpp:46-55 | Draining returns a permutation of the batch in non-decreasing key order. |
| `Scheduling.Snapshot.Contents` | server/include/scheduler/Scheduler.hpp:7-34 | The tasks a scheduler holds, as a multiset, whatever its order. |
| `Scheduling.Snapshot.With` | server/include/scheduler/Scheduler.hpp:12 | An enqueue adds exactly the task. Queues grow at the tail and the RR slice is kept. |
| `Scheduling.Initial` | server/src/scheduler/SchedulerFactory.cpp:7-23 | A new scheduler holds nothing, has its discipline's shape, and RR carries the given slice. |
| `Scheduling.ServedRemoves` | server/include/scheduler/Scheduler.hpp:21 | A FIFO, SJF or WFQ dequeue hands out a held task and removes exactly that one. |
| `Scheduling.RoundServedContents` | server/include/scheduler/RRScheduler.hpp:39-44 | An RR dequeue removes the head, and the pool shrinks by one exactly when the task is reported finished. |
| `Scheduling.Instance.CurrentAlgorithm` | server/include/scheduler/Scheduler.hpp:33 | The virtual call reports the name of the discipline behind the reference. |
| `Scheduling.Instance.State` | server/include/scheduler/Scheduler.hpp:7-34 | The value view of the object has the shape of its discipline. |
| `Scheduling.Instance.Empty` | server/include/scheduler/Scheduler.hpp:24 | True exactly when the scheduler holds nothing. |
| `Scheduling.Instance.EnqueueWithLength` | server/include/scheduler/Scheduler.hpp:15-18 | Every discipline adds the task as its snapshot's `With` says. |
| `Scheduling.Instance.Enqueue` | server/include/scheduler/Scheduler.hpp:12 | Same as the two-argument form. |
| `Scheduling.Instance.Dequeue` | server/include/scheduler/Scheduler.hpp:21 | Each discipline serves by its own rule: the head, a minimal estimate, a minimal ratio, or a slice of the head. |
| `Scheduling.Instance.SetTimeSlice` | server/include/scheduler/Scheduler.hpp:27 | Only RR takes the new slice, and every other scheduler is left unchanged. |
| `Scheduling.NewInstance` | server/src/scheduler/SchedulerFactory.cpp:8-22 | Allocates a fresh, empty scheduler of the requested discipline. |
| `SchedulerFactory.Resolve` | server/src/scheduler/SchedulerFactory.cpp:7-23 | A known name selects the discipline of that name, and any other name falls back to FIFO. |
| `SchedulerFactory.ResolveName` | server/src/scheduler/SchedulerFactory.cpp:7-23 | Resolving a discipline's own name gives that discipline back. |
| `SchedulerFactory.Create` | server/src/scheduler/SchedulerFactory.cpp:7-23 | Creates a fresh, empty scheduler of the resolved discipline, and RR gets the given slice. |
| `Adaptive.SquaredDeviationNonNegative` | server/src/scheduler/AdaptiveScheduler.cpp:50-53 | The accumulated squared deviations are never negative. |
| `Adaptive.SumStep` | server/src/scheduler/AdaptiveScheduler.cpp:46-48 | The running sum over a prefix grows by the next estimate. |
| `Adaptive.DeviationStep` | server/src/scheduler/AdaptiveScheduler.cpp:51-53 | The running squared deviation grows by the next term. |
| `Adaptive.Variance` | server/src/scheduler/AdaptiveScheduler.cpp:41-56 | The population variance is non-negative, and it is 0 for fewer than 5 estimates. |
| `Adaptive.SumOfConstant` | server/src/scheduler/AdaptiveScheduler.cpp:46-48 | n equal estimates c sum to n * c. |
| `Adaptive.SquaredDeviationAtConstant` | server/src/scheduler/AdaptiveScheduler.cpp:50-53 | Equal estimates have no deviation from their value. |
| `Adaptive.VarianceOfConstant` | server/src/scheduler/AdaptiveScheduler.cpp:41-56 | A window of identical estimates has variance 0. |
| `Adaptive.DecideAlgorithm` | server/src/scheduler/AdaptiveScheduler.cpp:62-88 | Gives each discipline's exact region of (cpu, queue length, variance), each as an if-and-only-if. |
| `Adaptive.SteadyWorkloadSelectsSjf` | server/src/scheduler/AdaptiveScheduler.cpp:72-74 | With uniform estimates, any load that is not light and has CPU under 70% selects SJF. |
| `Adaptive.Make` | server/src/scheduler/AdaptiveScheduler.cpp:94-100 | Creates a fresh, empty scheduler for the name, with RR's slice fixed at 5 and FIFO for unknown names. |
| `Adaptive.AdaptiveScheduler.constructor` | server/src/scheduler/AdaptiveScheduler.cpp:23-26 | Starts on an empty FIFO named "FIFO", with an empty window. |
| `Adaptive.AdaptiveScheduler.CurrentAlgorithm` | server/src/scheduler/AdaptiveScheduler.cpp:32-35 | The reported name is the inner discipline's name, one of the four. |
| `Adaptive.AdaptiveScheduler.WorkloadVariability` | server/src/scheduler/AdaptiveScheduler.cpp:41-56 | The sum-then-deviation loop computes the variance of the window. |
| `Adaptive.AdaptiveScheduler.RecordWorkload` | server/src/scheduler/AdaptiveScheduler.cpp:114-119 | Appends the estimate and keeps only the newest 40 estimates recorded. |
| `Adaptive.AdaptiveScheduler.EnqueueWithLength` | server/src/scheduler/AdaptiveScheduler.cpp:110-137 | Records the estimate and switches to the decided discipline. On a switch the inner scheduler is fresh and holds only the new task. Otherwise the task is added to the current one. |
| `Adaptive.AdaptiveScheduler.Enqueue` | server/src/scheduler/AdaptiveScheduler.cpp:106-108 | The one-argument form records the estimate in the arrivals and in the window of the last 40, and decides with a queue length of 0. |
| `Adaptive.AdaptiveScheduler.Dequeue` | server/src/scheduler/AdaptiveScheduler.cpp:143-151 | Serves by the inner discipline's own rule. |
| `Adaptive.AdaptiveScheduler.Empty` | server/src/scheduler/AdaptiveScheduler.cpp:157-161 | True exactly when the inner scheduler holds nothing. |
| `Adaptive.AdaptiveScheduler.SetTimeSlice` | server/include/scheduler/AdaptiveScheduler.hpp:28 | Ignored: no state changes. |
| `Adaptive.AdaptiveScheduler.UpdateWeights` | server/include/scheduler/AdaptiveScheduler.hpp:29 | Ignored: no state changes. |
| `Adaptive.MigrationDropsQueuedTasks` | server/src/scheduler/AdaptiveScheduler.cpp:130-136 | A switch from FIFO to WFQ loses the task queued before it. Only the triggering task is kept. |
| `Text.NatToDecimal` | server/src/core/Response.cpp:9 | `std::to_string` of a size gives non-empty digits with no leading zero. |
| `Text.IntToDecimal` | server/src/core/Response.cpp:6 | `std::to_string` of an int is non-empty, and it starts with '-' exactly for negative numbers. |
| `Text.DecimalRoundTrip` | server/src/core/HttpServer.cpp:146-150 | Reading back the digits of a rendered number gives that number. |
| `Text.LeadingDigits` | server/src/core/HttpServer.cpp:147-150 | The digit run read is all digits and no longer than the input. |
| `Text.LeadingDigitsSpan` | server/src/core/HttpServer.cpp:147-150 | The run is a prefix, and it stops only at the end or at a non-digit. |
| `Text.LeadingDigitsOfConcat` | server/src/core/HttpServer.cpp:147-150 | Digits followed by a non-digit are read as exactly those digits. |
| `Text.IndexOfChar` | server/src/core/HttpParser.cpp:35 | Finds the first occurrence of a character, and reports none exactly when the character is absent. |
| `Text.FindFrom` | server/src/core/HttpServer.cpp:140 | Finds the first occurrence of a key at or after a position, or reports that none exists. |
| `Text.FindFirst` | server/src/core/HttpServer.cpp:140 | `std::string::find`: finds the first occurrence, and reports none exactly when the key never occurs. |
| `Text.FindFirstAfterSeam` | server/src/core/HttpServer.cpp:140 | When the key cannot start in a prefix, searching the whole text finds the first occurrence in the rest, shifted. |
| `HttpParser.Trimmed` | server/src/core/HttpParser.cpp:5-10 | Trimming gives a prefix with no trailing CR or LF, and only CRs and LFs are cut. |
| `HttpParser.TrimCrlf` | server/src/core/HttpParser.cpp:5-10 | The pop-back loop computes the trimmed prefix. |
| `HttpParser.TrimAll` | server/src/core/HttpParser.cpp:53-54 | Trims every line, keeping the count. |
| `HttpParser.LineLength` | server/src/core/HttpParser.cpp:30 | A line ends at the first newline, or at the end of the text. |
| `HttpParser.Lines` | server/src/core/HttpParser.cpp:14-18 | There are no lines exactly when the input is empty. |
| `HttpParser.LinesHaveNoNewline` | server/src/core/HttpParser.cpp:30 | No line `getline` returns contains a newline. |
| `HttpParser.LinesOfLineBreak` | server/src/core/HttpParser.cpp:30 | A newline-free line followed by a newline is read as that line. |
| `HttpParser.LinesOfTerminated` | server/src/core/HttpParser.cpp:53-57 | Reading back newline-free lines, each written with a newline, gives the lines. |
| `HttpParser.TerminatedOfLines` | server/src/core/HttpParser.cpp:53-57 | Writing back the lines read restores the input, plus a final newline when it lacked one. |
| `HttpParser.TerminatedIsJoin` | server/src/core/HttpParser.cpp:55-61 | The body built line by line, minus its last newline, is the lines joined with newlines. |
| `HttpParser.GetLine` | server/src/core/HttpParser.cpp:18 | `getline` fails exactly at the end of the input. Otherwise it returns the next line and moves past its newline. |
| `HttpParser.WordLength` | server/src/core/HttpParser.cpp:22 | A token runs up to the first whitespace. |
| `HttpParser.Tokens` | server/src/core/HttpParser.cpp:21-22 | Every extracted token is non-empty and free of whitespace. |
| `HttpParser.TokensOfSpacedWord` | server/src/core/HttpParser.cpp:22 | A word followed by a space is extracted as that word. |
| `HttpParser.RequestLineRoundTrip` | server/src/core/HttpParser.cpp:21-22 | "method path version" separated by single spaces reads back as the three words. |
| `HttpParser.TrimmedWord` | server/src/core/HttpParser.cpp:24-26 | CR trimming leaves an extracted token unchanged. |
| `HttpParser.ParseRequestLine` | server/src/core/HttpParser.cpp:18-27 | The trimmed line's first three tokens, with "" for any that are missing. |
| `HttpParser.StripLeadingSpaces` | server/src/core/HttpParser.cpp:42-43 | Only leading ' ' characters are cut, and the result does not start with one. |
| `HttpParser.DropLeadingSpaces` | server/src/core/HttpParser.cpp:42-43 | The erase-front loop computes the stripped value. |
| `HttpParser.HeaderEntry` | server/src/core/HttpParser.cpp:35-46 | A line yields an entry exactly when it has a colon, and the key is colon-free. |
| `HttpParser.HeaderEntryRoundTrip` | server/src/core/HttpParser.cpp:35-46 | "key: value" reads back as (key, value) for a colon-free key and a trimmed value. |
| `HttpParser.ParseHeaderLine` | server/src/core/HttpParser.cpp:31-46 | The header step computes the entry of the line. |
| `HttpParser.Fields` | server/src/core/HttpParser.cpp:30-46 | Each header line contributes the entry of its CR-trimmed form. |
| `HttpParser.AssignKeys` | server/src/core/HttpParser.cpp:48 | A key is in the map exactly when some header line carries it. |
| `HttpParser.AssignLastWins` | server/src/core/HttpParser.cpp:48 | A repeated key keeps the value of its last line. |
| `HttpParser.HeaderEnd` | server/src/core/HttpParser.cpp:33 | Headers stop at the first line that is blank after trimming. |
| `HttpParser.HeaderEndUnique` | server/src/core/HttpParser.cpp:33 | Any position with non-blank lines before it and a blank line at it is the header end. |
| `HttpParser.NextTrimmedLine` | server/src/core/HttpParser.cpp:30-31 | Reads the next line, CR-trimmed, in step with the remaining lines. |
| `HttpParser.ReadHeaders` | server/src/core/HttpParser.cpp:30-49 | Consumes the header block and the blank line, and builds the headers from its lines. |
| `HttpParser.ReadBody` | server/src/core/HttpParser.cpp:52-61 | The body is the remaining trimmed lines joined with newlines. |
| `HttpParser.Parse` | server/src/core/HttpParser.cpp:12-66 | The parse is the request given by the line-based specification `Parsed`. |
| `HttpParser.EmptyInputParse` | server/src/core/HttpParser.cpp:12-66 | Empty input leaves every field empty. |
| `HttpParser.BareRequestParse` | server/src/core/HttpParser.cpp:12-66 | "M P V\r\n\r\n" parses to that method, path and version, with no headers and no body. |
| `Responses.Build` | server/src/core/Response.cpp:3-19 | Builds the serialisation for some iteration order of the header map, which lists every key once. |
| `Responses.WriteHeaders` | server/src/core/Response.cpp:12-14 | Writes one "name: value" line per header entry, each key once. |
| `Responses.HeaderBlockSnoc` | server/src/core/Response.cpp:12-14 | One more entry adds its line at the end of the block. |
| `Responses.SerializedLayout` | server/src/core/Response.cpp:6-17 | The output is the status line, the Content-Length line, the header lines, a blank line and the body, in that order. |
| `Responses.HeaderLinePresent` | server/src/core/Response.cpp:12-14 | Every header entry's line occurs in the block. |
| `Responses.SuppliedContentLengthKept` | server/src/core/Response.cpp:8-14 | A caller-supplied Content-Length is written as well, after the computed one. |
| `Responses.DefaultSerialization` | server/include/core/Response.hpp:7-8 | A default response serialises to "HTTP/1.1 200 OK", "Content-Length: 0" and the blank line. |
| `HttpServerHelpers.EndsWith` | server/src/core/HttpServer.cpp:85-88 | True exactly when the suffix fits and equals the tail. |
| `HttpServerHelpers.SkipBlanks` | server/src/core/HttpServer.cpp:144 | Cuts leading spaces and tabs, and the result starts with neither. |
| `HttpServerHelpers.SkipBlanksFrom` | server/src/core/HttpServer.cpp:144 | The advancing loop stops where the blanks end. |
| `HttpServerHelpers.DigitsFrom` | server/src/core/HttpServer.cpp:146-150 | The accumulation loop gives the value of the leading digit run. |
| `HttpServerHelpers.ParseContentLength` | server/src/core/HttpServer.cpp:137-152 | Returns 0 without the exact-case key. Otherwise it returns the value of the digits after the key and any blanks, which is never negative. |
| `HttpServerHelpers.ContentLengthRoundTrip` | server/src/core/HttpServer.cpp:137-152 | Parsing the Content-Length of a built response gives back the body's length. |
| `HttpServerHelpers.ValueOfRenderedLength` | server/src/core/HttpServer.cpp:144-150 | A blank, a rendered number and a CR read back as that number. |
| `HttpServerHelpers.EstimateTaskWorkload` | server/src/core/HttpServer.cpp:193-205 | The estimate is at least 1, and it is 1 plus a tenth of the path and body length, rounded down. |
| `HttpServerHelpers.WeightFor` | server/src/core/HttpServer.cpp:300-317 | The weight is between 1 and 4, and it is 4 exactly for a light GET. |
| `HttpServerHelpers.AssignWeight` | server/src/core/HttpServer.cpp:300-317 | The successive updates compute the weight rule. |
| `HttpServerHelpers.WeightNonIncreasing` | server/src/core/HttpServer.cpp:303-309 | A heavier estimate never gets a larger weight. |
| `HttpServerHelpers.GetIsPreferred` | server/src/core/HttpServer.cpp:312-314 | GET gets exactly one more than any other method at the same estimate. |
| `HttpServerHelpers.ReqSize` | server/src/core/HttpServer.cpp:294-295 | The size is the body length when the body is non-empty, and the path length when it is empty. |
| `HttpServerHelpers.Server.constructor` | server/src/core/HttpServer.cpp:94 | Task ids start at 0. |
| `HttpServerHelpers.Server.Admit` | server/src/core/HttpServer.cpp:283-322 | Takes the next id and builds the task from the estimate and the weight, with the method, path length and request size. |
| `HttpServerHelpers.AdmitAll` | server/src/core/HttpServer.cpp:283-322 | A fresh server numbers tasks 0, 1, 2, ... with weights 1-4, estimates of at least 1, and remaining time equal to the estimate. |
| `HttpServerHelpers.StaticFilePath` | server/src/core/HttpServer.cpp:381-382 | "/" maps to www/index.html, and any other path to "www" followed by the path. |
| `HttpServerHelpers.ContentTypeFor` | server/src/core/HttpServer.cpp:395-406 | Each MIME type is chosen exactly when its suffix is the first one that matches. |
| `HttpServerHelpers.MapToFilePath` | server/src/core/HttpServer.cpp:414-429 | Non-empty exactly for "/api/file/" plus a name without ".." or '\\'. The result is then www/files/ plus that name. |
| `HttpServerHelpers.MappedPathIsConfined` | server/src/core/HttpServer.cpp:423-428 | A mapped path contains neither ".." nor '\\', and it stays under www/files/. |
| `AiInference.ComputeQueueBin` | ai/ai_infer_service.py:36-44 | The bin is 0-6, and it is i exactly when the length lies in the i-th closed-above interval. |
| `AiInference.ComputeQueueBinMonotone` | ai/ai_infer_service.py:36-44 | A longer queue never gets a smaller bin. |
| `AiInference.ComputeQueueBinBoundaries` | ai/ai_infer_service.py:38-44 | The edges belong to the lower bin, and negative lengths get bin 0. |
| `AiInference.BinsDisagreeAtEdges` | ai/ai_infer_service.py:36-44 | The service and the training bins differ exactly at the six edges, where the service is one bin lower. |
| `AiInference.ResolveQueueBin` | ai/ai_infer_service.py:79-80 | A caller's bin is kept, and otherwise the bin is computed from the queue length. |
| `AiInference.PrepareFeatures` | ai/ai_infer_service.py:75-94 | The model row copies the request fields, with the resolved bin rendered as a decimal string. |
| `AnalyzeDataset.BinQueueLen` | data/merged/analyze_dataset.py:19-23 | A value inside a bin gets that bin's label, and a value in no bin gets "unknown". |
| `AnalyzeDataset.FirstBin` | data/merged/analyze_dataset.py:20-21 | Finds the first bin containing x, or reports that none does. |
| `AnalyzeDataset.BinsAreContiguous` | data/merged/analyze_dataset.py:9-17 | The bins start at 0 and tile the half-line, and the last one is unbounded. |
| `AnalyzeDataset.ExactlyOneBin` | data/merged/analyze_dataset.py:19-23 | Every non-negative length lies in exactly one bin. |
| `AnalyzeDataset.LongQueues` | data/merged/analyze_dataset.py:16-22 | Lengths of 100 and more are labelled "100-inf". |
| `AnalyzeDataset.NegativeIsUnknown` | data/merged/analyze_dataset.py:23 | Negative lengths are labelled "unknown". |
| `MergeDataset.ParseName` | scripts/merge_dataset.py:18-24 | A name parses only if it starts with W, ends in .csv and carries a non-empty word as its algorithm. |
| `MergeDataset.ParseNameSound` | scripts/merge_dataset.py:18-24 | Only "W<digits>_<word>.csv" parses, into the digits' value and the word. A trailing newline is not accepted (see "## Left out"). |
| `MergeDataset.ParseNameRoundTrip` | scripts/merge_dataset.py:18-24 | Every name of that shape parses back into its parts. |
| `MergeDataset.Selected` | scripts/merge_dataset.py:30-32 | A file is used exactly when its name parses with one of the four algorithms. |
| `MergeDataset.Tagged` | scripts/merge_dataset.py:39-40 | Every row is tagged with the file's workload and algorithm. |
| `MergeDataset.FramesNoneIff` | scripts/merge_dataset.py:29-37 | The loop raises exactly when some used file lacks a required column. |
| `MergeDataset.FramesKnownAlgos` | scripts/merge_dataset.py:29-41 | Every collected row carries one of the four algorithms. |
| `MergeDataset.CollectFrames` | scripts/merge_dataset.py:26-41 | The file loop computes the frames, or the error. |
| `MergeDataset.NoneExtends` | scripts/merge_dataset.py:36-37 | An error in any file aborts the whole run. |
| `MergeDataset.Concat` | scripts/merge_dataset.py:43 | Fails after an error or on an empty list of frames. Otherwise it holds exactly the rows of the frames. |
| `MergeDataset.FlattenMembers` | scripts/merge_dataset.py:43 | The concatenation holds exactly the rows of the frames. |
| `MergeDataset.FramesEmptyIff` | scripts/merge_dataset.py:27-41 | The loop collects no frame without an error exactly when no file is used. |
| `MergeDataset.ConcatFails` | scripts/merge_dataset.py:27-43 | The script stops with an error exactly when a used file lacks a required column or no file is used. |
| `MergeDataset.LateWorkloads` | scripts/merge_dataset.py:49 | Keeps exactly the rows of workloads 4 and above, each as often as it occurs in the input. |
| `MergeDataset.BinQueueLen` | scripts/merge_dataset.py:55-63 | Every length gets one of the seven labels. |
| `MergeDataset.BinQueueLenIsBin` | scripts/merge_dataset.py:55-63 | A label is given exactly to the lengths of its half-open bin. |
| `MergeDataset.BinIndex` | scripts/merge_dataset.py:55-63 | The bin position of a length, consistent with its label. |
| `MergeDataset.BinIndexMonotone` | scripts/merge_dataset.py:55-63 | A longer queue never gets an earlier bin. |
| `MergeDataset.BestTable` | scripts/merge_dataset.py:82-95 | Each (workload, bin) with an eligible group (n >= 50) maps to an eligible group of minimal mean, and only those keys appear. |
| `MergeDataset.BestLabels` | scripts/merge_dataset.py:93-95 | Each key is labelled with the algorithm of its best group. |
| `MergeDataset.Labelled` | scripts/merge_dataset.py:102-116 | Keeps exactly the rows whose (workload, bin) has a best label among RR, SJF and WFQ, and tags each row with that label. Each kept row occurs as often as its source row. |
| `MergeDataset.Count` | scripts/merge_dataset.py:118 | A class count never exceeds the rows. |
| `MergeDataset.CountAppend` | scripts/merge_dataset.py:130 | Counts add up over concatenation. |
| `MergeDataset.ClassesPresent` | scripts/merge_dataset.py:118 | The classes are exactly the labels that occur. |
| `MergeDataset.ClassesDistinct` | scripts/merge_dataset.py:118 | Each class is listed once. |
| `MergeDataset.PartRows` | scripts/merge_dataset.py:125 | A class's part holds only that class, each of its rows as often as in the input. |
| `MergeDataset.SampledPart` | scripts/merge_dataset.py:125-127 | Each kept part has exactly the minimum count of rows, drawn from its class. |
| `MergeDataset.MinCount` | scripts/merge_dataset.py:122 | Gives the smallest class count, attained by some class. |
| `MergeDataset.AddPart` | scripts/merge_dataset.py:124-128 | One loop step keeps the balancing invariants. |
| `MergeDataset.Balance` | scripts/merge_dataset.py:118-130 | Fails exactly on no rows. Otherwise every class present gets the minimum count and no other class gets any. The result is a sub-multiset of the input. |
| `DashboardApi.StripLeft` | dashboard/dashboard_api.py:42 | Never lengthens a string. |
| `DashboardApi.StripLeftCutsPrefix` | dashboard/dashboard_api.py:42 | Cuts exactly a whitespace prefix, and stops at a non-whitespace character. |
| `DashboardApi.StripRightCutsSuffix` | dashboard/dashboard_api.py:42 | Cuts exactly a whitespace suffix, and stops at a non-whitespace character. |
| `DashboardApi.StripTrims` | dashboard/dashboard_api.py:42 | `strip()` gives a slice with whitespace only cut away, and neither end is whitespace. |
| `DashboardApi.Split` | dashboard/dashboard_api.py:86 | Splitting yields at least one piece. |
| `DashboardApi.SplitPiecesHaveNoComma` | dashboard/dashboard_api.py:86 | No piece contains a comma. |
| `DashboardApi.SplitJoin` | dashboard/dashboard_api.py:86 | Rejoining the pieces with commas gives the line back. |
| `DashboardApi.StrippedFieldsKeys` | dashboard/dashboard_api.py:41-42 | Every stripped header name is a key, and it maps to its last column's stripped value. |
| `DashboardApi.Alias` | dashboard/dashboard_api.py:50-52 | Copies the source to the destination only when the source is present and the destination absent. Existing keys are kept. |
| `DashboardApi.WithAliases` | dashboard/dashboard_api.py:45-52 | Aliasing never changes an existing field. |
| `DashboardApi.FloatField` | dashboard/dashboard_api.py:55 | A missing field reads as 0.0, and a present one reads through the conversion. |
| `DashboardApi.IntField` | dashboard/dashboard_api.py:56 | A missing field reads as 0, and a present one reads through the conversion. |
| `DashboardApi.CsvRow` | dashboard/dashboard_api.py:39-62 | An empty line and a line whose field count does not match the header are rejected. A line parses exactly when it is non-empty, has the header's field count and all four plotted fields convert. A parsed row holds the aliased fields, each plotted value is its field's conversion, and missing plotted fields read 0. |
| `DashboardApi.ConversionFailureIsNone` | dashboard/dashboard_api.py:55-62 | A cpu, queue_len, response_time_ms or prev_latency_avg field that fails to convert makes the line rejected. |
| `DashboardApi.ParseCsvLine` | dashboard/dashboard_api.py:39-62 | The successive row updates compute the parsed row. |
| `DashboardApi.StripFields` | dashboard/dashboard_api.py:42 | The pairing loop computes the stripped field map. |
| `DashboardApi.HeaderOf` | dashboard/dashboard_api.py:85-86 | The header is the stripped pieces of the stripped first line. |
| `DashboardApi.ParsedRows` | dashboard/dashboard_api.py:90-93 | Parsing never yields more rows than lines. |
| `DashboardApi.History.constructor` | dashboard/dashboard_api.py:21 | The history starts empty, with the given limit. |
| `DashboardApi.History.Append` | dashboard/dashboard_api.py:110 | The history stays the newest `limit` rows appended, in arrival order. |
| `DashboardApi.History.AppendParsed` | dashboard/dashboard_api.py:91-93 | Appends a parsed row, and drops a line that did not parse. |
| `DashboardApi.History.Get` | dashboard/dashboard_api.py:119-122 | The count is clamped to 1..limit, and the newest that many rows are returned. |
| `DashboardApi.History.Snapshot` | dashboard/dashboard_api.py:130-131 | Returns the newest 200 rows, or all of them when there are fewer. |
| `DashboardApi.History.LoadBacklog` | dashboard/dashboard_api.py:89-93 | Appends the parsed rows of the last 500 lines, in order. |
| `DashboardApi.History.Ingest` | dashboard/dashboard_api.py:98-111 | A blank or unparsable line is skipped. Otherwise the line's row is appended and returned for broadcast. |
| `DashboardApp.IndexOf` | dashboard/app.js:30 | Finds the first position of a name, and reports none exactly when it is absent. |
| `DashboardApp.AlgoIndex` | dashboard/app.js:29-32 | The index is always a valid position in the list. |
| `DashboardApp.AlgoIndexFinds` | dashboard/app.js:29-32 | A known name maps to its own slot, and any other name to UNKNOWN's slot. |
| `DashboardApp.AlgoIndexOfAlgo` | dashboard/app.js:28-32 | Each listed name maps back to its own position. |
| `DashboardApp.RunAlgo` | dashboard/app.js:169 | Gives the event's algorithm when it is present and non-empty, and "UNKNOWN" otherwise. |
| `DashboardApp.Dashboard.constructor` | dashboard/app.js:47 | The page starts with no events. |
| `DashboardApp.Dashboard.PushEvent` | dashboard/app.js:201-203 | After a push the list is the newest 2000 of the snapshot plus every event pushed since. |
| `DashboardApp.Dashboard.PushKeepsNewest` | dashboard/app.js:201-203 | Trimming after each push equals trimming the whole arrival history. |
| `DashboardApp.Dashboard.ApplySnapshot` | dashboard/app.js:240-241 | A snapshot replaces the list wholesale. |
| `DashboardApp.TimelineY` | dashboard/app.js:143-145 | There is one height per event of the newest 300, each its algorithm's index. |
| `DashboardApp.SwitchPoints` | dashboard/app.js:148-155 | The marker loop computes the switch list. |
| `DashboardApp.SwitchesSound` | dashboard/app.js:148-155 | Every marker sits where two named neighbours differ, at the new algorithm's height. |
| `DashboardApp.SwitchesComplete` | dashboard/app.js:148-155 | Every such change gets its marker. |
| `DashboardApp.SwitchesOrdered` | dashboard/app.js:148-155 | Markers come in event order. |
| `DashboardApp.UpdateTimeline` | dashboard/app.js:141-163 | Computes the heights and markers of the newest 300 events. |
| `DashboardApp.GroupOfGroups` | dashboard/app.js:167-174 | The grouping lists each algorithm seen once, in first-seen order. Each carries its event count and summed latency, and the counts total the events. |
| `DashboardApp.GroupByAlgo` | dashboard/app.js:167-174 | The grouping loop builds exactly that map, keys in first-seen order included. |
| `DashboardApp.InsertPermutes` | dashboard/app.js:190 | Insertion adds the element and loses nothing. |
| `DashboardApp.InsertSorted` | dashboard/app.js:190 | Insertion into sorted rows keeps them sorted. |
| `DashboardApp.SortByAlgoIndex` | dashboard/app.js:190 | The sort is ordered by algorithm index and is a permutation of its input. |
| `DashboardApp.TimeWindow` | dashboard/app.js:177-182 | The throughput window is at least one second. |
| `DashboardApp.Bars` | dashboard/app.js:184-189 | There is one bar per grouped algorithm, with its mean latency and its rate over the window. |
| `DashboardApp.UpdatePerfCharts` | dashboard/app.js:165-199 | Bars are sorted by index. Each algorithm with events has exactly one bar, and each bar's mean and rate come from that algorithm's events. |
| `DashboardApp.OneBarEachPermutes` | dashboard/app.js:186-190 | Sorting rows with distinct algorithms keeps them distinct. |

## Left out

- Concurrency is not modelled: the mutexes, the condition variables and the worker pool. Each blocking `dequeue` wait becomes the precondition that a task is held.
- The executable `func` member of `Task` is not modelled.
- The HttpServer.cpp `Task` also carries the name of the algorithm at enqueue time, which is not modelled. Its method, path length and request size are kept in the `Admission` record.
- The accept loop's I/O is left out: sockets, SSL, request reading, logging, the file reads of `serveStaticFile` and the handlers around `mapToFilePath`. Only the path and MIME choice and the path mapping are modelled.
- `SystemMetrics::getCpuUsage` is a parameter of the adaptive enqueue. The AI client declared in AdaptiveScheduler.hpp is not used by the code modelled.
- Adaptive.AdaptiveScheduler.Dequeue: the null guards of `dequeue` and `empty` are left out. `inner_` is set by the constructor and every switch, so it is never null.
- WfqQueue.FinishKey: the key is an exact rational. The source divides in `double`, and its rounding is not modelled.
- Adaptive.AdaptiveScheduler.WorkloadVariability: computed in exact reals. The source's `double` rounding is not modelled.
- HttpServerHelpers.ParseContentLength: the `long long` accumulator is unbounded here, so overflow is not modelled.
- HttpServerHelpers.Server.Admit: the 8-argument `Task` constructor called at HttpServer.cpp:319-322 is not declared in Task.hpp:12-15. The model assumes it sets the remaining time to the estimate, as the 4-argument constructor does. The same holds for HttpServerHelpers.AdmitAll.
- HttpServerHelpers.Server.Admit: `nextTaskId` is an `int` (HttpServer.hpp:25) and is unbounded here, so its overflow after 2^31 tasks is not modelled.
- RrQueue.RrScheduler.Dequeue: `remainingTime` is an unbounded integer. With a negative slice, `remainingTime -= timeSlice_` grows every round and would overflow an `int`; that is not modelled.
- HttpServerHelpers.EstimateTaskWorkload: the `int` casts of the sizes are unbounded here, so overflow is not modelled.
- SjfQueue.SjfScheduler.Dequeue: any task of minimal key may be handed out. The tie order of `std::priority_queue` depends on the library and is not modelled.
- The other minimal-key dequeues do not model that tie order either.
- DashboardApp.SortByAlgoIndex: states order and permutation only. The stability of `Array.prototype.sort` is not stated.
- MergeDataset.BestTable: any eligible group of minimal mean may be chosen. Which one pandas keeps on equal means depends on its sort and is not modelled.
- MergeDataset.Balance: the parts are concatenated in first-appearance order of the classes. merge_dataset.py:118-124 iterates `value_counts()`, most frequent class first, so the row order of the result differs.
- MergeDataset.Balance: `DataFrame.sample` is a sampler parameter that draws the requested number of rows from the part. Which rows it draws is not modelled.
- The dataset builder's pandas group-by and mean are not modelled. They are taken as the list of (workload, bin, algorithm, count, mean) groups.
- Reading and writing CSV files, the column selection of the output, and the printing are not modelled.
- DashboardApi.CsvRow: a line is split at every comma. CSV quoting is not modelled.
- DashboardApi.CsvRow: when two header names strip to the same key, the model keeps the later column. Which column Python keeps there depends on dict insertion order, which is not modelled.
- Python's `float` and `int` conversions are parameters.
- MergeDataset.ParseName: the `\w` class is restricted to ASCII. The `\d` of `W(\d+)_` matches any Unicode decimal digit in Python; the model accepts ASCII digits only. Python's `$` also matches just before a final "\n", so `parse_name("W1_FIFO.csv\n")` gives `(1, "FIFO")` while the model gives None. The script's `endswith(".csv")` filter at merge_dataset.py:26 keeps such names away from `parse_name`, so the script's behaviour is the same.
- The C++ server's `std::string` is a byte string. The model's `seq<char>` stands for its bytes: the Content-Length, `|req.path|` and `|req.body|` count bytes, not characters.
- `str.strip` removes ASCII whitespace only. Unicode whitespace is not modelled.
- The unused `_to_int` and `_to_float` helpers are not modelled.
- The WebSocket broadcast, the client list and the tail's sleeping are not modelled.
- In the dashboard page, timestamps, `Date` and `fmtTime` are not modelled. The throughput window takes the elapsed seconds as a parameter.
- Chart drawing, `toFixed` rounding and the overview and AI panels are not modelled.
- Floating point and NaN in the tooling are exact reals here.
- The model call, the label decoding and the FastAPI plumbing of the inference service are not modelled. Only the feature row handed to the model is.
- `Text.DigitValue` gives 0 for a non-digit character. It is only ever applied to runs of digits.
- The ThreadPool, Config, Logger, Socket and AIClient sources are not part of this model.
