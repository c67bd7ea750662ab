# A verified model of AKS Periscope's concurrent core

AKS Periscope collects diagnostics on every node of a Kubernetes cluster whenever the run ID in a
mounted file changes. Most of the program queries the cluster. This project models the parts that
hold state machines, concurrency and loops whose result is not obvious, and proves what they keep.
`dafny verify dfyconfig.toml` checks everything.

| Module | What it models |
| --- | --- |
| `Common`, `Strings` | file reads, sequences, and the Go string functions used: splitting, joining, fields |
| `FileContentWatching` | the polling file watcher: classes whose methods update items in place, each tied to a function on snapshots |
| `WatchHistories`, `WatchDeliveries` | any history of registrations and polls of that watcher: what each listener receives, and through which channel |
| `WatchAndRun`, `WatchOutcome` | the poller, the runner and `main`, joined by two unbuffered channels, as a step relation beside an environment that rewrites the run ID file |
| `ForkJoin`, `RunOutcome` | one Periscope run: collectors, barrier, diagnosers, barrier, archive, and what it leaves behind |
| `MarkerHandshake`, `MarkerSchedules` | the PowerShell script and the Windows logs collector sharing a directory, up to the upload of what was collected |
| `StatusSegments` | the network outbound diagnoser's one-pass accumulator |
| `ImagePulls` | parallel Docker image pulls with an error channel |
| `OsmKeys` | the keys of the OSM collector, with a decoder |
| `ZipArchive`, `RunArchive` | the archive with one entry per producer and key, by itself and at the end of a run |
| `NodeLogs` | key normalisation of the node logs, from the configured list to the stored data |
| `PortForward` | the rendezvous around one pod's Envoy queries |
| `RuntimeInfo` | reading a run's configuration with accumulated errors |
| `KubeletFlags` | the kubelet flag scan, and the name server scan |

The interleavings are lists of atomic events: `Enabled` says what may happen next, `Next` what it
does, and `Exec` runs a whole list. Every theorem about a protocol holds of every such list. Loops and
objects that the program updates in place are methods and classes, proved equal to a function of
the inputs or of the old state; the lemmas are about that function. What file reads, network calls,
pulls and exports yield is an arbitrary parameter, and so is the order in which Go ranges over a map.

## Where the code does not do what one would expect

Each of these is a lemma that exhibits the failure, next to one that says exactly when it happens.

* A file that fails and is then read back empty is announced as failed and never as recovered, and a
  listener registered for a file already read hears nothing of it until it next changes
  (`RecoveryToEmptyIsSilent`, `LateListenerHearsNothing`; exactly: `UpToDateExactly`).
* The ID delivered on the channel is only logged, and the run reads the file again. Whenever the
  file's present ID was in the file before another ID, the last run can be for another ID than the
  file's, and otherwise it cannot (`ReturnDefeatsLastUsed`; exactly: `LastUsedExactly`).
* Between taking an error and exiting, `main` does not stop the other goroutines: a run can still
  start (`RunAfterError`; exactly: `RunsAfterErrorExactly`).
* The collector tests only that something exists at the marker's path. For the run ID `logs` in any
  spelling and with any dots or spaces after it, and for IDs of dots and spaces alone, something
  else does (`NotPlainIsNotExact`, `ExcludedIds`). And a collection can list, or later upload, another
  run's files if, after the first ID of its run's name, the script's view has shown anything but its
  run: when the view moves on, also before the marker is found, when an ID comes back whose old marker
  is still there, or when two IDs differ only in dots and spaces at the end (`UnsettledIsNotExact`,
  `ReturningIdMixesRuns`, `MovedViewMixesUpload`). Exactly these things go wrong: `ExactExactly`.
* Go's zero time marks the absence of a block: data are lost when one at that time comes first or
  does not continue the one before it (`ZeroTimeIsLost`; exactly: `NothingLostExactly`, `IntervalsExactly`).
* `pullDockerImages` closes the error channel that other goroutines may still send on, and a failed
  pull goes on to use its missing output. Left running, the process crashes exactly if some pull
  fails or two copies do (`OneFailedPullCrashes`, `DoomedCrashes`; exactly: `CrashesExactlyIfDoomed`).
* The caller of the port forwarder has no time limit: it waits as long as the forwarder neither
  becomes ready nor fails, and can never return once the forwarder has returned without an error
  before it was ready (`WaitsForForwarder`, `BlockedAtOnce`; exactly: `BlockedExactly`). The
  forwarding goroutine is left behind if it fails while the queries are made (`LeakHappens`;
  exactly: `LeakedExactly`, `LeakInevitableExactly`).
* Two node logs whose paths differ only in slashes against underscores share a key, and one is lost
  (`SharedKeyLosesALog`; exactly: `SameKeyExactly`, `NoneLostExactly`).
* The name server scan indexes past the last word if the text is `nameserver` or ends in it after a
  space (`CutOffAfterKeyword`; exactly: `PanicsExactly`).

## Model

| member | source | states |
|---|---|---|
| FileContentWatching.FileContentItem.UpdateIfChanged | pkg/utils/fileContentWatcher.go:58-69 | The item takes over content and error, and reports a change, if there is an error or the content differs; otherwise it stays as it was, an old error included. |
| FileContentWatching.FileContentItem.HandleUpdated | pkg/utils/fileContentWatcher.go:71-84 | If an error is stored, one send of it into each registered error channel, in order; else one send of the content into each content channel. |
| FileContentWatching.FileContentWatcher.AddHandler | pkg/utils/fileContentWatcher.go:43-56 | The pair of channels is appended to the path's two lists, the item being created if there is none; no other path's item changes and no two paths come to share an item. |
| FileContentWatching.FileContentWatcher.Visit | pkg/utils/fileContentWatcher.go:88-91 | One path's turn: only its item changes, and its listeners are sent what its read calls for. |
| FileContentWatching.FileContentWatcher.CheckFilePaths | pkg/utils/fileContentWatcher.go:86-93 | A poll visits every registered path exactly once in an arbitrary order; whatever the order, each item ends as its own read makes it, and the sends are those of the paths in that order. |
| WatchHistories.ItemIsHistory | pkg/utils/fileContentWatcher.go:43-69 | After any history a path's stored content is that of its last read, empty for a failed one, and its two handler lists are the registered pairs, index for index. |
| WatchHistories.PollDelivers | pkg/utils/fileContentWatcher.go:58-93 | In any history a poll sends a path's listeners exactly what that poll's own read calls for: an error at every failing read, a content exactly when it differs from the previous effective content. A stored error from an earlier poll is never sent. |
| WatchHistories.EveryHandlerGetsTheSameSequence | pkg/utils/fileContentWatcher.go:71-93 | Over any history every registration of a path receives the messages that the path's reads determine, from its registration on: none lost, repeated or reordered. |
| WatchDeliveries.EverythingIsAddressed | pkg/utils/fileContentWatcher.go:75-82 | In every history every message enters the channel that its registration named for its kind: contents the content channel, errors the error channel. |
| WatchDeliveries.PollSends | pkg/utils/fileContentWatcher.go:58-93 | What one poll sends for a path, said outright: a failed read its error into every error channel; a content into every content channel if it differs from what the read before held, a failed one counting as empty; otherwise nothing. |
| WatchDeliveries.ContentChannelReceives | pkg/utils/fileContentWatcher.go:79-82 | A content channel registered once receives over any history exactly the contents announced for its path from its registration on, in order. |
| WatchDeliveries.ErrorChannelReceives | pkg/utils/fileContentWatcher.go:75-78 | And an error channel registered once exactly the errors. |
| WatchDeliveries.EveryFailureIsAnnounced | pkg/utils/fileContentWatcher.go:62-78 | Every failing read is announced, also one with the same error as before. |
| WatchHistories.WithoutErrorsStutterFree | pkg/utils/fileContentWatcher.go:62-66 | With no failed reads, the delivered contents are the reads with stuttering removed. |
| WatchHistories.AnnouncementsUpToDateExactly | pkg/utils/fileContentWatcher.go:62-68 | A path's latest announcement describes its latest read, unless that read was empty and nothing but empty reads came since an error or the start: if and only if. |
| WatchHistories.UpToDateExactly | pkg/utils/fileContentWatcher.go:43-82 | For every single registration in any history: its latest message describes the latest read if and only if that read is not such an unspoken one and a read since the registration failed or differed from the one before it. |
| WatchHistories.LateListenerHearsNothing | pkg/utils/fileContentWatcher.go:43-69 | The concrete failure of a late registration: for any path and text, the second listener of an unchanged file has received nothing although the file was read for it. |
| WatchHistories.RecoveryToEmptyIsSilent | pkg/utils/fileContentWatcher.go:62-68 | The concrete failure: an error followed by a successful empty read leaves the listener with the error. |
| WatchAndRun.StepInv | cmd/aks-periscope/aks-periscope.go:36-59 | Every step of poller, runner, main and environment keeps the invariant: announcements received in order and once, runs mirroring announcements, the stored content announced last, reads dated to the file. |
| WatchAndRun.ExecInv | cmd/aks-periscope/aks-periscope.go:36-59 | That invariant holds in every reachable state, for any initial file. |
| WatchAndRun.NoticesAndRuns | cmd/aks-periscope/aks-periscope.go:42-53 | The runner receives the announced contents in order with at most one outstanding, and the runs correspond to them one for one, so at most one is active. |
| WatchOutcome.HistoryIsWrites | cmd/aks-periscope/aks-periscope.go:30-40 | The file's content and history are its initial content and the writes, and nothing else. |
| WatchOutcome.ReadsAreMade | pkg/utils/fileContentWatcher.go:86-93 | What the poller acts on is, one for one and in order, what the file held at each of its reads. |
| WatchOutcome.RunsAreLoads | cmd/aks-periscope/aks-periscope.go:62-66 | The runs under way or done are the successful loads of the runtime information, one for one and in order, each with the ID that the file held at that moment; a load that fails for whatever reason begins none. |
| WatchOutcome.FailuresAreReturned | cmd/aks-periscope/aks-periscope.go:46-49 | The failures accounted for are exactly the errors that runs returned. |
| WatchOutcome.EndExactly | cmd/aks-periscope/aks-periscope.go:58-66 | The process has ended if and only if main exited with an error, or the runtime information could not be loaded: for a reason of its own, or because the run ID could not be read or was empty. |
| WatchOutcome.NothingAfterTheEnd | cmd/aks-periscope/aks-periscope.go:58-66 | After that nothing is read, announced, run or reported any more. |
| WatchAndRun.QuiescentLastNotified | cmd/aks-periscope/aks-periscope.go:42-63 | In every quiescent state the last run was started by the notice for the present content. |
| WatchAndRun.QuiescentLastUsed | cmd/aks-periscope/aks-periscope.go:42-63 | If the file did not have its present run ID before another one, the last run in every quiescent state used exactly the present content, although a run reads its ID from the file. |
| WatchAndRun.LastUsedExactly | cmd/aks-periscope/aks-periscope.go:42-63 | The exact condition, for every history of contents that ends with a run ID: in all quiescent states after it the last run used this ID, if and only if the ID was not in the file before another one. |
| WatchAndRun.WithoutReuseNoReturn | cmd/aks-periscope/aks-periscope.go:42-63 | Histories in which no run ID occurs twice meet that condition, so that the last ID is always run if IDs are never reused. |
| WatchAndRun.ReturnDefeatsLastUsed | pkg/utils/runtimeInfo.go:43 | For every history and every choice of the earlier occurrence and of another ID after it, a schedule with that history in which the last run used the other ID. |
| WatchAndRun.ReuseDefeatsLastUsed | pkg/utils/runtimeInfo.go:43 | The shortest case: the ID is replaced during the start of its run and put back before the next poll. |
| WatchAndRun.NoErrorLost | cmd/aks-periscope/aks-periscope.go:46-59 | Every failed read and every failed run raises its error once and unaltered, main holds the first of one of the two origins, and every other error is still waiting in a blocked send; with none on its way and main waiting, nothing has failed. |
| WatchAndRun.NeverDeadlocked | cmd/aks-periscope/aks-periscope.go:55-59 | While the process lives some goroutine can move without the environment. |
| WatchAndRun.BlockedErrorIsTakenOrExit | cmd/aks-periscope/aks-periscope.go:46-59 | However an execution goes on, an error send of the runner or the poller, once blocked, stays possible at every moment until it is taken, unless main holds another error, and then it is the exit that stays possible. |
| WatchAndRun.BlockedPollerIsReleased | cmd/aks-periscope/aks-periscope.go:42-59 | From every live state in which the poller is blocked in a send, three steps of the program alone can release it, or end the process. |
| WatchAndRun.CanCatchUp | cmd/aks-periscope/aks-periscope.go:42-53 | From any state with a usable ID and no error on its way, at most eleven steps of the program alone lead to a quiescent state. |
| WatchAndRun.PresentContentCanAlwaysBeServed | cmd/aks-periscope/aks-periscope.go:42-63 | After any execution that is healthy and whose present ID has not returned, the program left to itself can within eleven steps have made its last run one for the content the file has now. |
| WatchAndRun.RunsAfterErrorExactly | cmd/aks-periscope/aks-periscope.go:58-59 | Once main holds an error but has not exited, another run can start if and only if neither goroutine is on its way to reporting an error. |
| WatchAndRun.RunAfterError | cmd/aks-periscope/aks-periscope.go:58-59 | A schedule from the initial state in which a run starts after main has taken an error. |
| ForkJoin.StepKeepsInv | cmd/aks-periscope/aks-periscope.go:115-129 | Each step of a worker, on data seen amid all the others, keeps it on the course it would take alone, and the WaitGroup counters equal to the numbers of running workers. |
| ForkJoin.SpawnKeepsInv | cmd/aks-periscope/aks-periscope.go:106-129 | Skipping an unsupported collector, or starting a supported one, keeps the producer list, the workers and the counters in step. |
| ForkJoin.DoneFindsPositive | cmd/aks-periscope/aks-periscope.go:103-145 | In every interleaving a worker that can still step finds its group's counter positive, so Done never takes it below zero. |
| ForkJoin.DiagnosersAfterCollectors | cmd/aks-periscope/aks-periscope.go:132-158 | Once any diagnoser has started, every collector is in its final state with no step left, and the data the diagnosers see is the collectors' final data. |
| ForkJoin.CompleteIsSequential | cmd/aks-periscope/aks-periscope.go:103-163 | Any interleaving that completes ends in exactly the state of running all supported collectors and then all diagnosers one after the other: producers, data, attempted exports, archive input. |
| ForkJoin.SomethingCanMove | cmd/aks-periscope/aks-periscope.go:132-161 | Neither barrier can deadlock: until the archive is written something can move. |
| ForkJoin.EveryInterleavingIsSequential | cmd/aks-periscope/aks-periscope.go:103-163 | Interleavings are bounded in length, and every one that cannot go on has completed in the sequential state. |
| ForkJoin.CanBeCompleted | cmd/aks-periscope/aks-periscope.go:103-163 | Every interleaving, at whatever point, can go on to completion, in the sequential state. |
| RunOutcome.CollectorOutcome | cmd/aks-periscope/aks-periscope.go:105-130 | In every complete interleaving a collector that is not supported has neither data nor exports; one that is holds the last value written for each key and no other key, and has attempted to export just this if it returned without error, and nothing otherwise. |
| RunOutcome.DiagnoserOutcome | cmd/aks-periscope/aks-periscope.go:134-159 | The same for every diagnoser, on the data the collectors end with. |
| RunOutcome.ProducersAndArchive | cmd/aks-periscope/aks-periscope.go:105-163 | The producers are the supported collectors and all diagnosers, each once, in spawn order; and the archive is built from the data each of them ends with, in this order. |
| RunOutcome.LastValueExactly | cmd/aks-periscope/aks-periscope.go:119 | The value last written is that of the last entry for the key. |
| RunArchive.EveryKeyIsArchivedOnce | cmd/aks-periscope/aks-periscope.go:103-163 | For every complete interleaving, whatever fails in the archive and in whatever order maps are ranged over: each key of the data that a supported collector or a diagnoser ends with occurs exactly once under its name, with its whole text if that could be written, or not at all if its own entry could not be created. |
| RunArchive.WhatWasCollectedIsArchived | pkg/exporter/zip.go:17-47 | In particular what a supported collector wrote last for a key is what the archive holds for it. |
| RunArchive.ApartIfWorkersAre | pkg/exporter/zip.go:17-20 | The condition on names and keys can be read off the workers: names without slashes, and workers of equal name without a common key in their final data. |
| MarkerHandshake.StepInv | deployment/components/win-hpc/CollectDiagnostics.ps1:13-33 | Every step of the script, the collector, the uploads and the environment keeps the layout of the folder, the order of the run IDs the script is at, and the soundness of what the collector has gathered; no ID is assumed to be new. |
| MarkerHandshake.MarkerMeansComplete | deployment/components/win-hpc/CollectDiagnostics.ps1:13-33 | In every reachable state outside the removal, a marker is that of the run whose iteration completed last, it is the only one, and the logs directory holds exactly that run's archive; whatever IDs are shown, and however often. |
| MarkerHandshake.SettledMarkerMeansComplete | deployment/components/win-hpc/CollectDiagnostics.ps1:13-33 | The same in every reachable state, the removal file by file included, for the marker of a run that is settled: from the first ID of its name on, the script's view has shown nothing but this run. |
| MarkerHandshake.AliveExactly | deployment/components/win-hpc/CollectDiagnostics.ps1:1-33 | The script is alive if and only if it has met no error: none from outside, no unreadable run ID, no marker that cannot be made. |
| MarkerHandshake.FirstErrorIsTheEnd | deployment/components/win-hpc/CollectDiagnostics.ps1:1-33 | After its first error no step of the script happens any more, and the folder stays as it is. |
| MarkerHandshake.SettledCollectionIsExact | pkg/collector/windowslogs_collector.go:66-99 | A successful collection for a settled run lists every file of the run's archive with that run's content and nothing else, and the files later read for the upload are the same; though neither the listing nor the upload is atomic, and the view may turn empty, unreadable or to the same ID again. |
| MarkerSchedules.SettledCollectionHappens | pkg/collector/windowslogs_collector.go:66-99 | For every history of shown IDs that is settled for a run and shows it, such a collection, and such an upload, is reachable. |
| MarkerSchedules.NotPlainIsNotExact | pkg/utils/fileSystem.go:21-29 | For each excluded ID and every history of shown IDs, a schedule in which the collector succeeds without a single file. |
| MarkerSchedules.UnsettledIsNotExact | deployment/components/win-hpc/CollectDiagnostics.ps1:14-29 | For every other ID and every history of shown IDs that is not settled for it, a schedule in which the collection lists, and uploads, the files of another run. |
| MarkerSchedules.ReturningIdMixesRuns | deployment/components/win-hpc/CollectDiagnostics.ps1:14-29 | In particular for every two runs, when the first is shown again after the second. |
| MarkerSchedules.MovedViewMixesUpload | pkg/utils/filePathDataValue.go:27-29 | For every two runs, a schedule in which the collection lists its own files and the upload sends the other run's. |
| MarkerSchedules.ExactExactly | pkg/collector/windowslogs_collector.go:69-98 | The exact condition, for every run ID and every history of what the script's view has shown by the end of a collection, or of its upload, with IDs that are ordinary path elements: all of these are exact, if and only if the ID is not one of the excluded ones and the history is settled for it. |
| MarkerSchedules.ExcludedIds | pkg/utils/fileSystem.go:21-29 | The excluded IDs include the name of the logs directory in every spelling and with any dots or spaces after it, and all IDs of dots and spaces alone, as the Windows file system reads them. |
| MarkerSchedules.ExcludedExamples | pkg/utils/fileSystem.go:21-29 | Among them `logs`, `LOGS`, `Logs.`, `.` and `..`. |
| StatusSegments.SplitAtSixSeconds | pkg/diagnoser/networkoutbound_diagnoser.go:80 | Truncation makes "more than five seconds" a gap of at least six, negative gaps included. |
| StatusSegments.Diagnose | pkg/diagnoser/networkoutbound_diagnoser.go:45-100 | For any values in any order, the result is the values' intervals in sequence; a value that cannot be read contributes none. |
| StatusSegments.DiagnoseLines | pkg/diagnoser/networkoutbound_diagnoser.go:64-92 | The one-pass accumulator yields the intervals of the block partition of the lines that parse. |
| StatusSegments.BlocksPartition | pkg/diagnoser/networkoutbound_diagnoser.go:73-92 | The blocks are a partition of the data in order, none split inside and a split between any two: no datum is lost or counted twice. |
| StatusSegments.PartitionUnique | pkg/diagnoser/networkoutbound_diagnoser.go:73-92 | There is only one such partition of any data. |
| StatusSegments.IntervalsExactly | pkg/diagnoser/networkoutbound_diagnoser.go:73-92 | For any data at all: the intervals are those of the blocks not starting at the zero time, and the data these leave out are exactly those at the zero time where a block must start. |
| StatusSegments.NothingLostExactly | pkg/diagnoser/networkoutbound_diagnoser.go:73-92 | No datum is left out if and only if every datum at the zero time follows one of the same status, less than six seconds after it. |
| StatusSegments.ZeroTimeIsLost | pkg/diagnoser/networkoutbound_diagnoser.go:73-92 | The concrete failure: a single datum at the zero time yields no interval. |
| StatusSegments.IntervalsOfThePartition | pkg/diagnoser/networkoutbound_diagnoser.go:64-92 | With no zero times, any partition into blocks of equal status and gaps under six seconds, with a change of status or a gap of six seconds between neighbours, gives the intervals one for one: first time, last time, status, first type. |
| StatusSegments.IntervalsOfMaximalRuns | pkg/diagnoser/networkoutbound_diagnoser.go:64-114 | Said outright, for data without zero times and any way of cutting them into runs of one status and gaps under 6,000,000,000 nanoseconds, with a change of status or a longer gap between neighbours: one interval for each run, of the given host, with the run's first type, its first and last time, and the status of all its data. |
| StatusSegments.MaximalRunsExist | pkg/diagnoser/networkoutbound_diagnoser.go:73-92 | All such data can be cut so. |
| StatusSegments.DiagnosisOfLines | pkg/diagnoser/networkoutbound_diagnoser.go:57-71 | A value of several lines yields the intervals of the data on those lines that hold any, in order; other lines are skipped, and a value that cannot be read yields none. |
| StatusSegments.DiagnosisConcat | pkg/diagnoser/networkoutbound_diagnoser.go:48-93 | The intervals of several values follow one another. |
| StatusSegments.IntervalsInTime | pkg/diagnoser/networkoutbound_diagnoser.go:73-92 | For data in time order, intervals run forward, are ordered and do not overlap, and one of n data spans less than 6(n - 1) seconds, or none for n = 1. |
| StatusSegments.DiagnosisOfCollected | pkg/collector/networkoutbound_collector.go:73-94 | On what the collector writes, for any map iteration order, the diagnosis is one instant per collected datum, with its type, time and status. |
| ImagePulls.StepInv | pkg/test/dockerImageManagement.go:100-136 | Every step keeps: a failed image gets past its send only by handing over the one error ever taken, and a channel is closed only when its closer has come that far. |
| ImagePulls.ResultIsRight | pkg/test/dockerImageManagement.go:124-135 | nil is returned only if every pull and every copy succeeded; a returned error is that of a step that failed. |
| ImagePulls.SelectNeverStuck | pkg/test/dockerImageManagement.go:129-135 | While the caller selects, something can always move, for any number of images and any outcomes. |
| ImagePulls.NoCrashUnlessDoomed | pkg/test/dockerImageManagement.go:109-135 | With every pull successful and at most one failed copy, no interleaving crashes. |
| ImagePulls.CrashesExactlyIfDoomed | pkg/test/dockerImageManagement.go:109-135 | An execution that goes on until nothing can move has crashed if and only if some pull fails or two copies do; otherwise it returned nil if and only if all succeeded. |
| ImagePulls.EveryRunEnds | pkg/test/dockerImageManagement.go:100-136 | No execution over n images is longer than 6n + 4 steps. |
| ImagePulls.CanGoToItsEnd | pkg/test/dockerImageManagement.go:100-136 | Every execution can be continued until nothing can move. |
| ImagePulls.DoomedCrashes | pkg/test/dockerImageManagement.go:109-135 | With a failed pull or two failed copies, every execution, from whatever point, can be continued to the crash. |
| ImagePulls.OneFailedPullCrashes | pkg/test/dockerImageManagement.go:112-117 | The smallest case: one image whose pull fails. |
| OsmKeys.DecodePrint | pkg/collector/osm_collector.go:124-395 | Every key of the five families is recovered from its printed form, also where pod name and query are joined without a separator; names only have to be free of slashes. |
| OsmKeys.PrintInjective | pkg/collector/osm_collector.go:124-395 | No two keys, of the same or of different families, print alike. |
| OsmKeys.NamespaceKeys | pkg/collector/osm_collector.go:124-151 | The twelve keys of a namespace, letter by letter. |
| OsmKeys.PodKeys | pkg/collector/osm_collector.go:180-395 | Those of pod configurations, pod logs and the control plane. |
| OsmKeys.EnvoyKeys | pkg/collector/osm_collector.go:238-250 | And those of the five Envoy queries. |
| OsmKeys.OsmCollector.CollectNamespaceResources | pkg/collector/osm_collector.go:124-164 | Each of the twelve keys, by its spelling, holds its query's output, or the message with its own resource if the query failed; every other key is as before. |
| OsmKeys.NamespaceEntries | pkg/collector/osm_collector.go:124-164 | Looking any key up afterwards gives this namespace's outputs for its own keys, and for every other key of every family what was there before. |
| OsmKeys.OsmCollector.RunEnvoyQueries | pkg/collector/osm_collector.go:237-253 | Each of the five keys, by its spelling, holds its response, or is as before if its query failed; every other key is as before. |
| OsmKeys.EnvoyEntries | pkg/collector/osm_collector.go:237-253 | Looking any key up afterwards gives this pod's successful responses, and for every other key what was there before. |
| ZipArchive.Zip | pkg/exporter/zip.go:12-47 | Whatever fails, the entries are those of every producer and key in visiting order: absent if not created, empty or partial if not readable, whole otherwise. |
| ZipArchive.OccurrencesAreBearers | pkg/exporter/zip.go:17-26 | A name occurs in the archive once for each producer that has a key of that name and could create its entry. |
| ZipArchive.EachItemOnItsOwn | pkg/exporter/zip.go:17-47 | For producer names without slashes and producers of equal name without common keys, each key has exactly one entry with what could be read of its own value, or none if its own creation failed, whatever happens to all others. |
| ZipArchive.DistinctExactlyIfApart | pkg/exporter/zip.go:17-20 | When all entries can be created, the names are pairwise distinct if and only if producers of equal name share no key. |
| Strings.FieldsAreWords | pkg/utils/runtimeInfo.go:81-84 | Splitting yields only non-empty words without white space. |
| Strings.FieldsOfSpread | pkg/utils/runtimeInfo.go:81-84 | Any list of words, printed with any white space before, between and after them, is split back into itself. |
| Strings.EveryTextIsSpread | pkg/utils/runtimeInfo.go:81-84 | Every text is its words so printed, so that splitting loses nothing but white space. |
| Strings.SeparatorsExactly | pkg/utils/runtimeInfo.go:81-84 | Between two letters exactly the six ASCII white space characters separate words. |
| NodeLogs.LoadedPathsAreWords | pkg/collector/nodelogs_collector.go:43-45 | Whatever the configuration holds, no loaded path is empty, so the collector's look at a path's first character is safe. |
| NodeLogs.ConfiguredLogsAreKept | pkg/collector/nodelogs_collector.go:42-58 | From configuration to data: absolute paths without underscores, written with any white space, are loaded as that list, and if their sizes can be read each is found under its key. |
| NodeLogs.NodeLogsCollector.Collect | pkg/collector/nodelogs_collector.go:42-58 | Success exactly if all sizes can be read, with all paths stored in order; otherwise the first failing path is reported and the ones before it are stored. |
| NodeLogs.SameKeyExactly | pkg/collector/nodelogs_collector.go:44-47 | Two paths share a key if and only if, past a leading slash or underscore, they differ only in slashes against underscores. |
| NodeLogs.RestoredNormalized | pkg/collector/nodelogs_collector.go:44-47 | For absolute paths without underscores the normalisation has an inverse. |
| NodeLogs.LastPathWins | pkg/collector/nodelogs_collector.go:43-54 | A key holds the last listed path that normalises to it. |
| NodeLogs.NoneLostExactly | pkg/collector/nodelogs_collector.go:43-57 | Every listed log is found under its key if and only if no two different listed paths share one. |
| NodeLogs.SharedKeyLosesALog | pkg/collector/nodelogs_collector.go:43-57 | The concrete failure: of `/a/b` and `/a_b` one is lost. |
| NodeLogs.SimplePathsAreKept | pkg/collector/nodelogs_collector.go:43-57 | Absolute paths without underscores are all kept. |
| PortForward.QueriesAndResult | pkg/collector/osm_collector.go:202-235 | In every interleaving the queries start at most once and only after readiness, success means they were made, an error is the forwarder's own and then none were made, and the stop channel is closed exactly when the caller has returned. |
| PortForward.WaitsForForwarder | pkg/collector/osm_collector.go:211-232 | As long as the forwarder neither becomes ready nor returns an error, the caller stays in its select, for any continuation. |
| PortForward.BlockedExactly | pkg/collector/osm_collector.go:211-232 | From any reachable state in which the caller is in its select, no continuation makes it return, if and only if the forwarder has returned without an error and without having been ready. |
| PortForward.BlockedAtOnce | pkg/collector/osm_collector.go:211-232 | The concrete failure: the forwarder returns at once without an error, and nothing can move. |
| PortForward.LeakedExactly | pkg/collector/osm_collector.go:211-232 | An execution that can go no further has left the forwarding goroutine blocked in its send if and only if the forwarder failed and the queries were made. |
| PortForward.LeakInevitableExactly | pkg/collector/osm_collector.go:211-232 | From a reachable state every continuation to the end leaves that goroutine blocked, if and only if it is now in its send and the caller has already taken the readiness. |
| PortForward.LeakHappens | pkg/collector/osm_collector.go:211-232 | For every error an execution that ends so exists. |
| RuntimeInfo.ReadFileContent | pkg/utils/runtimeInfo.go:93-114 | At most one problem is appended, the one the file's state and the mandatory flag call for; the value is the content, empty wherever there is none. |
| RuntimeInfo.ReadFeatures | pkg/utils/runtimeInfo.go:64-72 | The features' files add their problems after all earlier ones, in order, and the enabled features are collected. |
| RuntimeInfo.GetRuntimeInfo | pkg/utils/runtimeInfo.go:39-91 | On success every field holds what its own file says, or is empty if that file is missing: the run ID and host name always there, the lists as the words of their files, a feature on if and only if its own file has text. On failure the problems are exactly those that the files and the host name give rise to, each file's at most once, in the order configuration, secret, host name, features. |
| RuntimeInfo.NoProblemsExactly | pkg/utils/runtimeInfo.go:39-91 | No problem is accumulated if and only if every single check passes. |
| RuntimeInfo.ProblemsThatOccur | pkg/utils/runtimeInfo.go:93-114 | A problem is reported if and only if it occurs: a file that cannot be checked or read, the run ID missing or empty, no host name; nothing is reported of other files that are missing or empty. |
| RuntimeInfo.SuccessHasRunId | pkg/utils/runtimeInfo.go:39-91 | Success means the run ID file was there, readable and not empty, and the host name was set. |
| RuntimeInfo.EnabledExactly | pkg/utils/runtimeInfo.go:64-72 | The enabled features are exactly the known ones whose own file is non-empty. |
| KubeletFlags.ScanFlags | pkg/diagnoser/networkconfig_diagnoser.go:51-67 | The scan finds each flag's last value, `cni` read as `azurecni`, an unreadable pod limit as 0. |
| Strings.SplitJoin | pkg/diagnoser/networkconfig_diagnoser.go:51 | Splitting undoes joining for parts free of the separator. |
| KubeletFlags.AtoiOfDecimal | pkg/diagnoser/networkconfig_diagnoser.go:63-65 | A number printed in decimal is read back, up to the largest 64-bit integer. |
| KubeletFlags.FlagsRoundTrip | pkg/diagnoser/networkconfig_diagnoser.go:51-67 | Any arguments free of spaces, printed and scanned, give the last value of each flag; a decimal pod limit comes back as that number. |
| KubeletFlags.PluginIsScanned | pkg/diagnoser/networkconfig_diagnoser.go:51-60 | Of the arguments `--network-plugin=` the last one counts, and its value is reported, `cni` as `azurecni`. |
| KubeletFlags.MaxPodsAreScanned | pkg/diagnoser/networkconfig_diagnoser.go:62-66 | Of the arguments `--max-pods=` the last one counts; a decimal number, negative or not, is reported, and what is no number as 0. |
| KubeletFlags.NothingIsScanned | pkg/diagnoser/networkconfig_diagnoser.go:51-67 | Without the flags the plugin is empty and the limit 0. |
| KubeletFlags.AtoiElsewhere | pkg/diagnoser/networkconfig_diagnoser.go:64 | Beyond 64 bits the nearest integer is taken, and a sign in front is understood. |
| KubeletFlags.GetDns | pkg/diagnoser/networkconfig_diagnoser.go:79-89 | Panics if the last word is `nameserver`; otherwise gives the words following each `nameserver`, less one trailing newline. |
| KubeletFlags.DnsExactly | pkg/diagnoser/networkconfig_diagnoser.go:79-89 | There is one server for each keyword, in order: the word after it, less one newline at its end. |
| KubeletFlags.PanicsExactly | pkg/diagnoser/networkconfig_diagnoser.go:81-84 | The scan panics if and only if the text is `nameserver` or ends in a space and that word. |
| KubeletFlags.CutOffAfterKeyword | pkg/diagnoser/networkconfig_diagnoser.go:81-84 | It does so on every text to which a space and the keyword are appended. |

## Left out

- The behaviour of the Kubernetes, Helm, SPDY, Azure blob and Docker clients, of the PowerShell log script and of the operating system: their results are arbitrary parameters.
- All collectors not named above, table and YAML printing, the redaction of secrets in Envoy responses, the CRD version fallback loops, the retries of URL requests, the constant tables: easy members or outside code.
- The filter of images to pull and the set comparison of images on the nodes (pkg/test/dockerImageManagement.go:65-77, 144-178): one membership test each.
- Time: tickers, sleeps, back-off and the collector's polling timeout. A timeout is an event that may happen at any moment (`GiveUp`), and goroutines may be arbitrarily slow.
- JSON: an encoding is any pair of functions of which one undoes the other and whose output has no raw newline, as section 7 of RFC 8259 demands.
- `Start` called twice, and handlers added while a poll is under way, which the program never does.
- The watcher's lock, which nothing else competes for.
- A restart of the PowerShell script while an old marker exists.
- Run IDs that are not one ordinary path element on Windows: with separators or other forbidden characters, with control characters or line ends, or named like a device. `Ordinary` says which, and `ExactExactly` is stated for the others. Case is ignored for the letters A to Z only.
- A `Remove-Item` or `Expand-Archive` that fails half-way is the event `Abort`, after which the script does nothing more.
- Reading one log file for the upload is one step of the handshake model; a file that is missing by then is skipped.
- The prefix that the Windows logs collector puts before its relative paths, which is the same for all of them.
- Saturation of Go's time differences at about 292 years, which cannot change a comparison with six seconds.
- Wide white space in `strings.Fields`, which also splits at the Unicode spaces outside ASCII.
- Which list of name servers a resolver would use: the scan splits at single spaces only, so no such claim holds of the code.
- Uniqueness of pod keys across namespaces: these keys leave the namespace out, so injectivity is stated on the pod name.
- The text stored for a pod whose JSON cannot be printed (pkg/collector/osm_collector.go:177), which is assigned to a shadowing variable and lost.
- A failed image pull is taken to hand back no output, as the Docker client's does.
- Blob names in the storage account, which omit the producer's name.
- Failures of `Zip` as a whole and of its upload, which are only logged.
