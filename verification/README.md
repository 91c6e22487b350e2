# Container Desktop in Dafny

Container Desktop installs a Docker engine in a WSL 2 distribution and connects it to Windows. This project models the parts
of it that keep state or run as steps, and proves what they guarantee over all inputs, runs and interleavings.

| file | models |
|---|---|
| `Text.dfy`, `Common.dfy` | splitting, joining, replacing and ASCII case folding of strings; shared types |
| `Resources.dfy` | installer resources over an abstract world, and the laws they may keep there |
| `AddToPath.dfy`, `WindowsFeatures.dfy`, `InstalledVersion.dfy` | concrete resources: the PATH entry, Windows features that ask for a restart, the look-up and registration of the installed version |
| `Interpreter.dfy`, `InstallerRuns.dfy`, `Updates.dfy` | the Test/Set/Unset interpreter as a function; desired state and rollback of single runs; what install, update and uninstall do to each resource |
| `Resumption.dfy`, `Uninstall.dfy` | installations that take several runs because resources ask for a restart; what uninstalling leaves behind |
| `DependencySort.dfy` | the stall-detecting dependency sort as a function: soundness and exactness |
| `Manifest.dfy`, `ManifestProperties.dfy` | the manifest as it runs, with lists edited in place, proved equal to those functions; the graph it yields |
| `UdpProxy.dfy`, `TcpProxy.dfy` | the two port forwarders as threads that interleave, with the lock, the wait group and the sockets |
| `UpgradeCopiers.dfy`, `LatencyWriter.dfy`, `CopyBuffer.dfy`, `Headers.dfy` | the reverse proxy: switched protocols, bounded flush delay, body copying, hop-by-hop fields |
| `Paths.dfy`, `Rewrite.dfy`, `RewriteBody.dfy` | path translation, and its lifting to Docker JSON bodies |
| `PortForwarding.dfy`, `PortForwardingEngine.dfy` | the port-forwarder table against published ports and enabled interfaces |
| `Folding.dfy` | the span that a collapsed section swallows in the log view |

Where the source works by changing things (the manifest, the PATH variable, header maps, the flush writer, JSON slices, the
forwarder table, the folding loop) a class or an array method does the same steps and is proved equal to a function of the
old state, and the properties are proved about that function. The forwarders and the upgrade copiers are step relations
`Can`/`Do`; a schedule is any list of events each of which can happen where it comes, and a theorem about `After(Start, es)`
holds in every interleaving.

## What the code does differently from its evident intent

The model follows the code; each of these has a lemma that gives the exact condition or a concrete run.

- The dependency loop removes an entry and still moves its index on, so the entry behind it is skipped. With the stall exit
  this rejects some acyclic manifests: `DependencySort.SkippedIsRejected`, and `WrittenSortCompleteExactly` for when it cannot.
- The nested `Apply` decides on the captured `context`, so its rollback runs in install mode and undoes nothing:
  `InstallerRuns.RollbackAsWritten`, against `RollbackRestores` for the reading the rollback call assumes.
- An action that the manifest marks as requiring a reboot makes the installer ask for one on every run:
  `Resumption.ResumeSucceedsExactly`. Running again without the restart sets a second time what waits for it:
  `Resumption.RerunSetsAgainExactly`.
- The uninstall graph reverses only the sorted resources, and a resource may be unset although it was there before, or be kept
  although it was not: `Uninstall.UninstallRestoresExactly`, `Uninstall.AlwaysFirstLeavesResidue`.
- Disabled ids that were loaded from the state file are not saved again: `ManifestProperties.SelectionSurvivesExactly`.
- A PATH entry with a `;` in it is never found again, and an empty PATH is deleted by Set and Unset:
  `AddToPath.LawfulExactly`, `AddToPath.EmptyPathIsLost`.
- The connection key of the UDP proxy has no IPv6 zone, so two clients that differ in the zone alone share a connection:
  `UdpProxy.ZonesShareConnection`, `UdpProxy.ExactSendersExactly`.
- In a Linux distribution the path translation does not undo itself on absolute paths; it drops the leading slash:
  `Paths.DistroTwiceLosesSlash`, `Rewrite.DistroBodyRoundTripExactly`.
- Stopping port forwarding forgets its table even when a forwarder could not be killed, and keeps the list of published
  ports: `PortForwardingEngine.DefaultContainerEngine.StopPortForwarding`, `PortForwarding.StopForgetsNoPort`.

## Model

| member | source | states |
|---|---|---|
| AddToPath.AddToPathResource.Set | container-desktop/DesiredStateConfiguration/AddToPath.cs:12-22 | afterwards the entries of PATH are those before and, unless it was among them, the resource's own, taken apart at semicolons; it throws exactly without a PATH |
| AddToPath.AddToPathResource.Unset | container-desktop/DesiredStateConfiguration/AddToPath.cs:24-35 | the first entry that is the resource's own is taken out and the others stay; the variable is deleted when nothing or one empty entry is left, because writing the empty text deletes it |
| AddToPath.SetEstablishesTest | container-desktop/DesiredStateConfiguration/AddToPath.cs:12-42 | for every PATH and `;`-free entry, Set makes Test true and a second Set changes nothing |
| AddToPath.UnsetUndoesSet | container-desktop/DesiredStateConfiguration/AddToPath.cs:12-35 | where Test was false, Set then Unset gives back the very same string if and only if the PATH was not empty |
| AddToPath.EmptyPathIsLost | container-desktop/DesiredStateConfiguration/AddToPath.cs:44-52 | from the empty PATH, Set then Unset deletes the variable, and the next Test throws |
| AddToPath.LawfulExactly | container-desktop/DesiredStateConfiguration/AddToPath.cs:12-42 | on each PATH the resource keeps the contract if and only if there is nothing to do, or its entry has no `;` and the PATH is not the empty text |
| AddToPath.LawfulWhereNotEmpty | container-desktop/DesiredStateConfiguration/AddToPath.cs:12-42 | on the PATHs that are no empty text, which Set and Unset never write, it keeps the contract if and only if its entry has no `;` |
| AddToPath.OtherEntriesFramed | container-desktop/DesiredStateConfiguration/AddToPath.cs:12-42 | adding one entry leaves the verdict on every other entry |
| WindowsFeatures.EnableWindowsFeatures.Test | container-desktop/DesiredStateConfiguration/EnableWindowsFeatures.cs:69-90 | counting the installed features tells whether all are; an unknown one fails the test |
| WindowsFeatures.EnableWindowsFeatures.Set | container-desktop/DesiredStateConfiguration/EnableWindowsFeatures.cs:25-67 | unless it throws all features are on after the next restart at the latest, others are untouched; the reboot flag goes on exactly when the test still fails and the restart is not ignored |
| WindowsFeatures.SetSettles | container-desktop/DesiredStateConfiguration/EnableWindowsFeatures.cs:25-89 | after Set the test holds at once if and only if nothing missing needed a restart, and in any case after the next restart |
| WindowsFeatures.LawfulExactly | container-desktop/DesiredStateConfiguration/EnableWindowsFeatures.cs:25-89 | Set takes effect at once and Unset takes it back exactly if and only if all features were off and switch without a restart |
| WindowsFeatures.FeatureManifestResumable | container-desktop/DesiredStateConfiguration/EnableWindowsFeatures.cs:25-89 | every manifest of such resources meets the hypotheses of the resumption theorems |
| InstalledVersion.GetInstalledVersion | container-desktop/DesiredStateConfiguration/GetInstalledVersion.cs:11-25 | the run counts as an update exactly when another, non-empty version is registered; nothing else of what resources can see changes |
| InstalledVersion.NeutralExactly | container-desktop/DesiredStateConfiguration/GetInstalledVersion.cs:11-20 | the look-up leaves alone what can be seen if and only if no version is registered or it says what is known already |
| InstalledVersion.VersionManifestWellBehaved | container-desktop/DesiredStateConfiguration/RegisterProduct.cs:19-51 | a manifest of version look-ups and registrations is well behaved on the worlds of a fresh install |
| DependencySort.SortSound | container-desktop/DesiredStateConfiguration/ConfigurationManifest.cs:122-150 | for any dependency lists: an accepted manifest yields each resource as often as it was listed, and each id it was loaded with is matched, but for case, by a strictly earlier element |
| DependencySort.SortExact | container-desktop/DesiredStateConfiguration/ConfigurationManifest.cs:124-150 | with at most one dependency each the sort accepts if and only if the dependencies are closed and acyclic; with the index stepped back, for all lists |
| DependencySort.AcceptedIsWellFounded | container-desktop/DesiredStateConfiguration/ConfigurationManifest.cs:124-150 | for any lists, only closed and acyclic manifests are accepted |
| DependencySort.SkippedIsWellFounded | container-desktop/DesiredStateConfiguration/ConfigurationManifest.cs:131-137 | X(A, B), A, B is closed and acyclic |
| DependencySort.SkippedIsRejected | container-desktop/DesiredStateConfiguration/ConfigurationManifest.cs:131-137 | the code rejects it: after A is removed B is skipped, and the next pass counts as a stall |
| DependencySort.WrittenSortCompleteExactly | container-desktop/DesiredStateConfiguration/ConfigurationManifest.cs:124-150 | allowing k dependencies per resource, every acyclic manifest is accepted if and only if k is at most one |
| DependencySort.LastResolvedExactly | container-desktop/DesiredStateConfiguration/ConfigurationManifest.cs:124-150 | a resource listed behind its dependencies, which need nothing, is resolved if and only if it lists at most three |
| DependencySort.FirstResolvedExactly | container-desktop/DesiredStateConfiguration/ConfigurationManifest.cs:124-150 | listed in front of them, if and only if it lists at most one |
| Manifest.StripResolved | container-desktop/DesiredStateConfiguration/ConfigurationManifest.cs:131-137 | the innermost loop, deleting while it iterates, leaves exactly the entries `Strip` keeps |
| Manifest.PassOver | container-desktop/DesiredStateConfiguration/ConfigurationManifest.cs:126-145 | one pass, editing `rest`, the resolved list and each `DependsOn` in place, is one `Pass` |
| Manifest.SortResources | container-desktop/DesiredStateConfiguration/ConfigurationManifest.cs:122-146 | the loops end and leave what `Sort` computes from the dependency lists as they were loaded |
| Manifest.ConfigurationManifest.BuildDependencyGraph | container-desktop/DesiredStateConfiguration/ConfigurationManifest.cs:114-179 | the graph holds, once each, exactly the resources that are enabled in the manifest and not disabled by the state file, without those not to be uninstalled when uninstalling; the always-first ones stand in front, in manifest order, the sorted rest behind, reversed for uninstall; it throws exactly when the sort does not accept, and saves the disabled ids otherwise |
| Manifest.ConfigurationManifest.RunLoop | container-desktop/DesiredStateConfiguration/ConfigurationManifest.cs:38-98 | the foreach over the resources makes the calls, reports, world and processed stack of `Loop` |
| Manifest.ConfigurationManifest.Visit | container-desktop/DesiredStateConfiguration/ConfigurationManifest.cs:46-95 | one resource: test, run-always, uninstall, the two updating modes, Set or Unset, and the reboot request read after them from the flag they may turn on |
| Manifest.ConfigurationManifest.ApplyResources | container-desktop/DesiredStateConfiguration/ConfigurationManifest.cs:36-111 | the nested function, with its catch block and second pass, does what `Inner` computes with the captured mode |
| Manifest.ConfigurationManifest.Apply | container-desktop/DesiredStateConfiguration/ConfigurationManifest.cs:24-34 | a whole run ends in the world, calls, reports and result of `Interpreter.Apply` on the graph; the state file survives exactly when a restart is pending, which the result tells unless the run was rolled back |
| ManifestProperties.GraphHoldsSelection | container-desktop/DesiredStateConfiguration/ConfigurationManifest.cs:116-159 | the graph holds each selected resource exactly as often as it was selected, in either order |
| ManifestProperties.GraphOrdersDependencies | container-desktop/DesiredStateConfiguration/ConfigurationManifest.cs:122-155 | every listed id of a sorted resource is matched by a strictly earlier resource when installing, by a strictly later one when uninstalling |
| ManifestProperties.SavedIdsExactly | container-desktop/DesiredStateConfiguration/ConfigurationManifest.cs:174-179 | the saved ids are exactly those of resources disabled in the manifest itself |
| ManifestProperties.SelectionSurvivesExactly | container-desktop/DesiredStateConfiguration/ConfigurationManifest.cs:116-118 | the next run selects the same resources if and only if no loaded id names a resource the manifest enables |
| Interpreter.ProgressStaysInRange | container-desktop/DesiredStateConfiguration/ConfigurationManifest.cs:28-109 | whatever the resources do, every reported value lies between 0 and the number of changes, rollback included |
| Interpreter.ProgressGrows | container-desktop/DesiredStateConfiguration/ConfigurationManifest.cs:44-98 | when the loop finishes the reported values grow strictly, one for each resource that is set or unset and each a place in the list, and end with the number of changes |
| Interpreter.RollbackCountsDown | container-desktop/DesiredStateConfiguration/ConfigurationManifest.cs:99-109 | a rollback that gets through reports falling values from the place of the failed resource, one for each resource it acts on, and 0 at the end |
| Interpreter.PendingExactly | container-desktop/DesiredStateConfiguration/ConfigurationManifest.cs:85-107 | a restart is marked as pending exactly when the result says so, unless the run was rolled back |
| Interpreter.RollbackVisitsInReverse | container-desktop/DesiredStateConfiguration/ConfigurationManifest.cs:40-106 | a rollback visits the processed resources once each in reverse order, all of them unless one throws or turns its reboot flag on while it is undone |
| InstallerRuns.InstallReachesDesiredState | container-desktop/DesiredStateConfiguration/ConfigurationManifest.cs:44-98 | a fresh install that finishes leaves every resource that settles in its desired state, at once or after the next restart |
| InstallerRuns.SecondInstallDoesNothing | container-desktop/DesiredStateConfiguration/ConfigurationManifest.cs:44-98 | installing lawful resources again calls no Set and no Unset and leaves the world as it is |
| InstallerRuns.RollbackRestores | container-desktop/DesiredStateConfiguration/ConfigurationManifest.cs:99-106 | with the mode taken from the context that is passed, a failed fresh install ends in the world it started in |
| InstallerRuns.RollbackOnlyTests | container-desktop/DesiredStateConfiguration/ConfigurationManifest.cs:47-104 | as written the rollback calls no Set and no Unset and leaves the world of the failed install |
| InstallerRuns.NothingProcessed | container-desktop/DesiredStateConfiguration/ConfigurationManifest.cs:44-98 | an install throws with nothing processed if and only if the first resource not in its desired state is the one that throws |
| InstallerRuns.RollbackAsWritten | container-desktop/DesiredStateConfiguration/ConfigurationManifest.cs:47-104 | as written a rollback restores the start if and only if the first resource that was not in its desired state is the one that threw |
| Updates.InstallTreats | container-desktop/DesiredStateConfiguration/ConfigurationManifest.cs:44-98 | in a fresh install that succeeds, a resource is set once, right after its test, if the test fails or it always runs, and the world moves on by that Set alone; otherwise it is only asked |
| Updates.UninstallTreats | container-desktop/DesiredStateConfiguration/ConfigurationManifest.cs:47-83 | in an uninstall that succeeds, the same with Unset and a test that holds |
| Updates.UpdateTreats | container-desktop/DesiredStateConfiguration/ConfigurationManifest.cs:48-83 | in an update that succeeds, a resource to be installed anew whose test holds is unset and right after that set, each once, and the world is its Set applied to its Unset; one whose test fails is set once unless it is to be skipped; nothing else is called |
| Updates.InstallStopsAt | container-desktop/DesiredStateConfiguration/ConfigurationManifest.cs:85-106 | a run that reaches a resource of which a due call throws is rolled back; where the Set asks for a reboot it ends pending, in the world of that Set |
| Updates.UninstallStopsAt | container-desktop/DesiredStateConfiguration/ConfigurationManifest.cs:85-107 | an uninstall fails there, and ends pending likewise |
| Updates.UpdateStopsAt | container-desktop/DesiredStateConfiguration/ConfigurationManifest.cs:54-106 | an update likewise, where the Unset before the Set may throw or ask as well |
| Updates.UpdateReachesDesiredState | container-desktop/DesiredStateConfiguration/ConfigurationManifest.cs:44-98 | from where a successful run counts as an update on, every resource not to be skipped, of which Set establishes the test, also after an Unset, ends in its desired state; so does every one that was in it, provided that installing one anew spoils no other |
| Updates.UpdateLeavesSkippedAlone | container-desktop/DesiredStateConfiguration/ConfigurationManifest.cs:48-71 | in an update, whatever the resources do and however it ends, one to be skipped is only asked, and only one to be installed anew is unset |
| Resumption.SetAtMostOnce | container-desktop/DesiredStateConfiguration/ConfigurationManifest.cs:44-98 | over any number of runs with restarts between them, a resource that settles is set at most once, and only if its test failed at the start, also when its Set asks for the restart its effect waits for |
| Resumption.RerunSetsAgainExactly | container-desktop/DesiredStateConfiguration/ConfigurationManifest.cs:44-98 | running again without a restart sets some resource a second time if and only if the suspended run has set one whose test still fails |
| Resumption.ResumedInstall | container-desktop/DesiredStateConfiguration/ConfigurationManifest.cs:85-94 | re-running after each restart succeeds within one run more than the restarts due, in the world one run reaches when the machine restarts in place |
| Resumption.NaggingNeverFinishes | container-desktop/DesiredStateConfiguration/ConfigurationManifest.cs:85-94 | with an action marked as requiring a reboot every re-run ends in a pending restart |
| Resumption.ResumeSucceedsExactly | container-desktop/DesiredStateConfiguration/ConfigurationManifest.cs:44-98 | re-running ever succeeds if and only if no action is marked as requiring a reboot |
| Uninstall.UninstallRestoresExactly | container-desktop/DesiredStateConfiguration/ConfigurationManifest.cs:151-158 | uninstalling what a fresh install has made, in the order of the uninstall graph, succeeds; it restores the world from before if and only if each resource that can change it was in its desired state before exactly when it is marked as not to be uninstalled |
| Uninstall.Residue | container-desktop/DesiredStateConfiguration/ConfigurationManifest.cs:151-158 | the test of a resource for which that fails is not what it was before |
| Uninstall.AlwaysFirstLeavesResidue | container-desktop/DesiredStateConfiguration/ConfigurationManifest.cs:151-158 | an always-first resource is undone while later ones are still there; where that does not commute it leaves a residue |
| UdpProxy.KeyInjective | cmd/container-desktop-port-forwarder/udp_proxy.go:28-41 | for IPs of equal length the keys agree if and only if IP and port do |
| UdpProxy.MixedLengthCollision | cmd/container-desktop-port-forwarder/udp_proxy.go:28-41 | a 4-byte and a 16-byte IP share a key if and only if the ports agree and the long one is twelve zero bytes and the short one |
| UdpProxy.TableOwnership | cmd/container-desktop-port-forwarder/udp_proxy.go:75-81 | in every interleaving `table[k] = c` exactly when the reply loop of c, dialled for k, has not yet run its deferred delete |
| UdpProxy.DeleteRemovesOwnEntry | cmd/container-desktop-port-forwarder/udp_proxy.go:76-81 | that delete removes its own entry, never a successor's |
| UdpProxy.DatagramsStayWithTheirClient | cmd/container-desktop-port-forwarder/udp_proxy.go:99-145 | a datagram is written only to a connection dialled for its sender's IP and port, also when the entry expires between unlock and write; replies go only to the address the connection was dialled for |
| UdpProxy.RepliesArePassedOn | cmd/container-desktop-port-forwarder/udp_proxy.go:84-106 | in every schedule the bytes written back for a connection are the start of the bytes read from it, all of them whenever its loop reads again, and all go to the client it was dialled for |
| UdpProxy.DatagramsArePassedOn | cmd/container-desktop-port-forwarder/udp_proxy.go:110-146 | in every schedule what was forwarded of the i-th datagram received is the start of it, all of it once Run is done with it and it was not given up |
| UdpProxy.NothingGivenUp | cmd/container-desktop-port-forwarder/udp_proxy.go:126-143 | only a failing dial or a failing write gives a datagram up |
| UdpProxy.ExchangeGoesThrough | cmd/container-desktop-port-forwarder/udp_proxy.go:84-146 | any datagram can go out whole and any answer come back whole to its sender |
| UdpProxy.ZonesShareConnection | cmd/container-desktop-port-forwarder/udp_proxy.go:124-136 | two clients that differ in the zone alone share one connection, whose replies go to the first |
| UdpProxy.ExactSendersExactly | cmd/container-desktop-port-forwarder/udp_proxy.go:113-146 | for a set of clients, every datagram of every schedule goes out on a connection of exactly its sender if and only if no two of them differ in the zone alone |
| UdpProxy.NothingLeaks | cmd/container-desktop-port-forwarder/udp_proxy.go:75-157 | when Run and all reply loops have ended the table is empty and every dialled connection is closed, also one inserted after Close walked the table |
| UdpProxy.CloseReachesListed | cmd/container-desktop-port-forwarder/udp_proxy.go:150-157 | when Close is through with the table, the listener and every connection that was listed when it took the lock are closed |
| UdpProxy.NeverStuck | cmd/container-desktop-port-forwarder/udp_proxy.go:75-157 | after Close some step of the proxy can happen until that state is reached: no thread waits for ever on the lock |
| UdpProxy.WindsDown | cmd/container-desktop-port-forwarder/udp_proxy.go:75-157 | every step of the proxy itself leaves less to do |
| UdpProxy.SchedulesAreBounded | cmd/container-desktop-port-forwarder/udp_proxy.go:75-157 | left alone, the proxy makes no more steps than the rank of its state |
| UdpProxy.ComesToRest | cmd/container-desktop-port-forwarder/udp_proxy.go:75-157 | after Close some schedule of its own brings it to quiescence |
| UdpProxy.CloseBringsToRest | cmd/container-desktop-port-forwarder/udp_proxy.go:75-157 | after any schedule Close can be called, and then the proxy alone can bring itself to rest with the table empty and all sockets closed |
| UdpProxy.ClosedWindsDownToNothing | cmd/container-desktop-port-forwarder/udp_proxy.go:75-157 | every schedule after Close that only the outside could continue ends with Run and all reply loops gone, the table empty and every connection closed |
| TcpProxy.DeliveredIsPrefix | cmd/container-desktop-port-forwarder/tcp_proxy.go:47-52 | bytes delivered each way are always a prefix of the bytes sent that way |
| TcpProxy.HalfClose | cmd/container-desktop-port-forwarder/tcp_proxy.go:47-70 | unless the quit was taken, no socket is fully closed before both copies have ended, nor closed outright before both brokers have finished |
| TcpProxy.HalvesShutExactly | cmd/container-desktop-port-forwarder/tcp_proxy.go:47-52 | in every schedule a broker has shut its read half and its write half exactly when it is past those steps |
| TcpProxy.EndIsPassedOn | cmd/container-desktop-port-forwarder/tcp_proxy.go:47-52 | without a quit and without faults, a direction whose broker has finished has delivered the whole stream and then the end of it |
| TcpProxy.OtherDirectionGoesOn | cmd/container-desktop-port-forwarder/tcp_proxy.go:46-70 | that can be so while the other direction is still copying |
| TcpProxy.AnythingCanBeDelivered | cmd/container-desktop-port-forwarder/tcp_proxy.go:47-52 | in either direction any bytes sent can be delivered |
| TcpProxy.BothStreamsComplete | cmd/container-desktop-port-forwarder/tcp_proxy.go:46-70 | without a quit and without network faults both streams were delivered whole when the client loop returns |
| TcpProxy.NeverStuck | cmd/container-desktop-port-forwarder/tcp_proxy.go:64-70 | after a quit, or when both brokers have finished, the client loop is never stuck until it returns, and never has to wait for a peer or for the network to fail |
| TcpProxy.WindsDown | cmd/container-desktop-port-forwarder/tcp_proxy.go:46-70 | every step of the proxy leaves less to do |
| TcpProxy.SchedulesAreBounded | cmd/container-desktop-port-forwarder/tcp_proxy.go:46-70 | while the peers are silent the proxy makes no more steps than the rank of its state |
| TcpProxy.ClientLoopReturns | cmd/container-desktop-port-forwarder/tcp_proxy.go:64-70 | every schedule after a quit, or in which both brokers have finished, that only the outside could continue has returned from the client loop, with both sockets closed and both brokers finished |
| TcpProxy.QuitEnds | cmd/container-desktop-port-forwarder/tcp_proxy.go:46-70 | after any schedule a quit lets the proxy alone end the session, with both sockets closed and no network fault, whatever the peers have left undone |
| UpgradeCopiers.NeitherCopierBlocks | internal/httputil/reverseproxy.go:624-663 | with capacity one no copier is ever blocked for ever on the channel |
| UpgradeCopiers.UnbufferedStrands | internal/httputil/reverseproxy.go:624-631 | an unbuffered channel strands the second copier after a first error |
| UpgradeCopiers.CapacityNeededExactly | internal/httputil/reverseproxy.go:624 | copiers are safe in all schedules if and only if the capacity is at least one |
| UpgradeCopiers.CleanOnlyAfterBoth | internal/httputil/reverseproxy.go:628-634 | the handler leaves without an error only after both directions ended without one |
| UpgradeCopiers.FailsExactly | internal/httputil/reverseproxy.go:628-634 | a handler that has stopped receiving reports an error if and only if a copier that has finished ended with one |
| UpgradeCopiers.HalvesShutExactly | internal/httputil/reverseproxy.go:643-663 | in every schedule a copier has shut its read half and its write half exactly when it is past those steps, both before it hands over its result |
| UpgradeCopiers.EndClosesBoth | internal/httputil/reverseproxy.go:592-635 | a schedule that nothing but the outside can continue, after an error was received or both directions have ended, has closed both connections and ended both copiers |
| UpgradeCopiers.CancelClosesBackend | internal/httputil/reverseproxy.go:592-605 | when the client has gone, such a schedule has closed the backend connection and ended the copier that reads from it |
| UpgradeCopiers.NeverStuck | internal/httputil/reverseproxy.go:592-635 | once the handler has stopped receiving, or neither direction is copying any more, some step can happen until all has ended |
| UpgradeCopiers.WindsDown | internal/httputil/reverseproxy.go:592-663 | every step leaves less to do |
| LatencyWriter.MaxLatencyWriter.constructor | internal/httputil/reverseproxy.go:446-454 | the writer starts with a timer running and a flush pending |
| LatencyWriter.MaxLatencyWriter.Write | internal/httputil/reverseproxy.go:524-542 | all that was written is what was flushed, then what waits; whatever waits goes on having a flush coming in time, and with a negative latency nothing waits |
| LatencyWriter.MaxLatencyWriter.DelayedFlush | internal/httputil/reverseproxy.go:544-552 | after the timer's function nothing waits, unless stop has withdrawn the flush; then nothing is flushed |
| LatencyWriter.MaxLatencyWriter.Stop | internal/httputil/reverseproxy.go:554-561 | nothing is flushed or lost, and no later run of the timer's function flushes |
| LatencyWriter.OneTimerOutstanding | internal/httputil/reverseproxy.go:524-561 | in every schedule at most one flush is outstanding, and unflushed bytes imply one is |
| LatencyWriter.FlushedInTime | internal/httputil/reverseproxy.go:524-561 | every flushed byte was flushed no later than the time of its write plus the latency plus the time the goroutine needs for the lock, and what was flushed, then what is buffered, is what was written |
| LatencyWriter.UnflushedIsYoung | internal/httputil/reverseproxy.go:524-561 | a byte that is not flushed yet is no older than that |
| LatencyWriter.NoFlushAfterStop | internal/httputil/reverseproxy.go:547-560 | after stop nothing is flushed, whatever timers and goroutines are still about |
| CopyBuffer.Copy | internal/httputil/reverseproxy.go:471-500 | what arrived is the start of the source's data and `written` tells how much; no error if and only if all of it arrived and the source ended with EOF; otherwise which error |
| Headers.Header.RemoveConnectionHeaders | internal/httputil/reverseproxy.go:414-422 | exactly the fields named in Connection are removed |
| Headers.Header.RemoveHopHeaders | internal/httputil/reverseproxy.go:266-268 | exactly the nine fixed fields are removed |
| Headers.Header.Forward | internal/httputil/reverseproxy.go:256-298 | the value of every field of the outgoing request; those that are neither hop-by-hop nor named in Connection keep theirs, X-Forwarded-For apart; nothing is changed when the requested protocol is no printable text |
| Headers.Header.Strip | internal/httputil/reverseproxy.go:315-319 | the response header keeps exactly the other fields with their values, and names none in Connection any more |
| Headers.HopHeadersAreCanonical | internal/httputil/reverseproxy.go:175-185 | the fixed names are spelled canonically, so deleting by canonical name reaches them |
| Headers.NothingForTheHopIsForwarded | internal/httputil/reverseproxy.go:256-298 | an outgoing hop-by-hop or Connection-named field is one of the four the proxy writes itself, with the value it writes (section 6.1 of RFC 7230) |
| Headers.OwnFieldsAreSent | internal/httputil/reverseproxy.go:275-297 | the proxy says `Te: trailers` exactly when the client takes trailers, and `Connection: Upgrade` with the requested protocol exactly when one is requested; it adds the address of the client behind the earlier ones, one comma-separated entry each and in order, unless the field was set to nothing |
| Headers.TrimExactly | internal/httputil/reverseproxy.go:416-418 | trimming a token takes the blanks off both ends and nothing else |
| Headers.CaseDoesNotMatter | internal/httputil/reverseproxy.go:266-268 | names of field-name characters have the same canonical spelling if and only if they agree up to case |
| Headers.TokensReadBack | internal/httputil/reverseproxy.go:275 | a comma-separated list is found to hold a token if and only if it was written with it, blanks and case aside |
| Headers.NamesReadBack | internal/httputil/reverseproxy.go:414-422 | a Connection field names exactly the fields it was written with, in canonical spelling |
| Headers.UpgradeSurvives | internal/httputil/reverseproxy.go:281-284 | a second proxy reads the same requested protocol from the outgoing header |
| Paths.DriveToHost | internal/rewrite/rewrite.go:241-245 | a drive path becomes the host mount, the lower-cased drive and the rest in slashes |
| Text.LowerByLetter | internal/rewrite/rewrite.go:243 | lower case letter by letter over the alphabet, every other character its own |
| Paths.DriveRoundTripExactly | internal/rewrite/rewrite.go:228-250 | for every `x:…` string, mapping twice gives it back with its drive in lower case if and only if it is absolute, in backslashes, with options free of backslashes |
| Paths.DriveMappingInjective | internal/rewrite/rewrite.go:228-250 | such paths have the same image if and only if they differ at most in the case of the drive |
| Paths.PlainUntouchedOnWindows | internal/rewrite/rewrite.go:228-250 | other strings without backslashes and outside the mount points are left alone |
| Paths.DistroToPath | internal/rewrite/rewrite.go:237-240 | a path under a distribution's mount loses the mount and one slash, options kept |
| Paths.DistroTwiceLosesSlash | internal/rewrite/rewrite.go:237-248 | in a distribution, mapping an absolute path twice gives it without its leading slash |
| Paths.DistroRoundTripExactly | internal/rewrite/rewrite.go:237-248 | in a distribution, outside the mount points, mapping twice gives the string back if and only if it is not absolute and has no backslash |
| Rewrite.EditsItsSitesOnly | internal/rewrite/rewrite.go:109-226 | at every position of the tree a rewriter keeps the node, except that strings in Binds and sources of bind mounts go through the translation |
| Rewrite.SameTree | internal/rewrite/rewrite.go:109-226 | trees that agree at every position are equal, so the previous row describes the result completely |
| Rewrite.TwiceExactly | internal/rewrite/rewrite.go:109-226 | one rewriting after another is the rewriting with h if and only if the two translations make h on every string they touch |
| Rewrite.WindowsRoundTripExactly | internal/rewrite/rewrite.go:109-250 | the response rewriting undoes the request rewriting up to drive case if and only if every drive path in the body is canonical |
| Rewrite.DistroBodyRoundTripExactly | internal/rewrite/rewrite.go:109-250 | in a distribution the round trip gives the body back if and only if it names no absolute path and no backslash |
| Rewrite.ServiceRoundTrip | internal/rewrite/rewrite.go:143-161 | a service specification rewritten on creation comes back inside a service, whatever surrounds it |
| RewriteBody.RewriteBinds | internal/rewrite/rewrite.go:198-203 | the in-place loop over binds: each string translated, a panic at the first other value, what follows untouched |
| RewriteBody.RewriteMounts | internal/rewrite/rewrite.go:214-226 | the in-place loop over mounts: sources of bind mounts translated up to the first ill-typed one; a panic exactly when an object has no string `Type`, or is a bind mount without a string `Source` |
| RewriteBody.RewriteContainer | internal/rewrite/rewrite.go:109-143 | the container rewriters give the rewritten tree, or panic exactly on ill-typed bodies |
| RewriteBody.RewriteServiceSpec | internal/rewrite/rewrite.go:153-181 | the service specification rewriter likewise |
| RewriteBody.RewriteBody | internal/rewrite/rewrite.go:66-93 | an object or an array of objects is rewritten item by item; other bodies are ignored |
| RewriteBody.BodyRoundTripExactly | internal/rewrite/rewrite.go:66-93 | the exact round trip for whole bodies, arrays included |
| PortForwarding.KeysAreDistinct | container-desktop/ContainerDesktop/Services/DefaultContainerEngine.cs:513 | a key tells the address, the port and the protocol it was made from |
| PortForwarding.StepAgrees | container-desktop/ContainerDesktop/Services/DefaultContainerEngine.cs:215-286 | one message, toggle, dying forwarder or stop keeps the table in agreement |
| PortForwarding.TableAgreesWithPorts | container-desktop/ContainerDesktop/Services/DefaultContainerEngine.cs:215-286 | over every sequence of them the ports have no duplicates and every key is that of a published port on a configured interface, or on loopback with udp; when forwarders start and the engine is not stopped, all such keys are there |
| PortForwarding.ListsFollowHistory | container-desktop/ContainerDesktop/Services/DefaultContainerEngine.cs:226-244 | over every sequence of events a port is published if and only if the last IPv4 message about it opened it, or there was none and it was published before; an interface is configured if and only if the last toggle that found the WSL address enabled it, or likewise |
| PortForwarding.MessageLeaves | container-desktop/ContainerDesktop/Services/DefaultContainerEngine.cs:226-268 | when forwarders start and stop as asked, a message leaves the keys of its port on the configured interfaces, or on loopback with udp, if and only if it opens the port, and every other key as it was |
| PortForwarding.ToggleLeaves | container-desktop/ContainerDesktop/Services/DefaultContainerEngine.cs:502-535 | a toggle likewise for the keys of the published ports on its interface |
| PortForwarding.StopForgetsNoPort | container-desktop/ContainerDesktop/Services/DefaultContainerEngine.cs:270-286 | after a stop, enabling an interface forwards it for every port published before |
| PortForwardingEngine.PortForwarder.Start | container-desktop/ContainerDesktop/Services/PortForwarder.cs:17-32 | starting throws exactly when the process does not keep running |
| PortForwardingEngine.PortForwarder.Stop | container-desktop/ContainerDesktop/Services/PortForwarder.cs:34-40 | stopping kills a running process and throws exactly when that fails |
| PortForwardingEngine.DefaultContainerEngine.Visit | container-desktop/ContainerDesktop/Services/DefaultContainerEngine.cs:511-532 | one address and port, for every outcome of Kill and Start; each live forwarder stays the unique one under its key |
| PortForwardingEngine.DefaultContainerEngine.EnableOn | container-desktop/ContainerDesktop/Services/DefaultContainerEngine.cs:502-535 | the nested loops over ports and addresses do what `VisitAll` computes |
| PortForwardingEngine.DefaultContainerEngine.ForwardPort | container-desktop/ContainerDesktop/Services/DefaultContainerEngine.cs:215-268 | after an IPv4 message the port is in the list if and only if the message opens it, other ports as before, and when forwarders start and stop as asked its keys on the configured interfaces are there exactly then; an IPv6 message changes nothing; whatever is thrown, the engine is in the state of `Step` |
| PortForwardingEngine.DefaultContainerEngine.TogglePortForwardInterface | container-desktop/ContainerDesktop/ViewModels/MainViewModel.cs:249-270 | the engine comes first; the configuration follows only if the WSL address was found, and then names the interface exactly as the user asked, others as before; when forwarders start and stop as asked, the keys of all published ports on it are there exactly then |
| PortForwardingEngine.DefaultContainerEngine.StopPortForwarding | container-desktop/ContainerDesktop/Services/DefaultContainerEngine.cs:270-286 | the table ends empty; no forwarder is left alive if and only if every running one can be killed |
| Folding.Extend | container-desktop/ContainerDesktop/NoBorderFoldingElementGenerator.cs:147-159 | the do-while ends, at the least offset beyond the start where no folded section around it goes further; every offset on the way is covered by a folded section |
| Folding.ConstructElement | container-desktop/ContainerDesktop/NoBorderFoldingElementGenerator.cs:123-176 | an element is built exactly when a folded section around the offset goes beyond it; it carries the first section that goes furthest and swallows that span |
| Folding.SpanGrows | container-desktop/ContainerDesktop/NoBorderFoldingElementGenerator.cs:142-159 | the span depends on the set of folded sections only, and folding more of them never shortens it |

## Left out

- Concurrent code is modelled on values: the UDP and TCP proxies and the upgrade copiers are step relations rather than classes,
  because their threads interleave; reads and writes of a socket are single steps with any outcome the network may give.
- The laws of resources (Set makes Test true, at once or after a restart; Unset takes that back; a throwing Set changes nothing;
  other tests are not spoilt) are hypotheses, asked for on a set of worlds that the resources do not leave. AddToPath,
  EnableWindowsFeatures, GetInstalledVersion and RegisterProduct are shown to keep them where they do. Resources whose Test does
  not reflect Set, such as file copies, stay outside.
- Rollback and resumption theorems are about fresh installs. Of a failed update it is stated that it is rolled back and what it may
  have called, not the world it leaves, since an Unset may have taken effect whose Set threw. Resumption has no throwing resource.
- Resumption.ResumedInstall: every re-run applies the same list of resources, while the source reloads the manifest and builds
  the graph again from the state file; the selection is then the same exactly as SelectionSurvivesExactly says, and always when the
  first run found no state file.
- Uninstall.UninstallRestoresExactly: no resource carries the manifest's reboot flag, which would suspend the uninstall, and what
  always-first resources change can be undone before the rest; without that the outcome depends on what their Unset does
  in a world it was not made for.
- EnableWindowsFeatures: DISM is a map of feature states and a set of features whose switching needs a restart; parent features and
  failing sessions are not modelled.
- UDP: one datagram socket family per listener, as the operating system guarantees; a connection refused on read is a read that
  goes on. Close is called once.
- TCP: the accept loop, several clients sharing one quit channel, and a failing dial, which closes the client at once.
- Switched protocols: the checks before the copiers start (protocol mismatch, hijacking, writing the response) and their error pages.
- LatencyWriter.FlushedInTime: a timer fires punctually, and its goroutine gets the lock within `slack`; with slack 0 firing is atomic.
- The `;`-free, colon-free and slash-free requirements on distribution names and IPv4 addresses hold of every name WSL accepts and
  every address the system reports.
- Case folding is ASCII only; `OrdinalIgnoreCase` and Go's `ToLower` on other letters are not modelled, nor null ids.
- JSON parsing and printing, and the regular expressions that choose a rewriter by URL: a body is a parsed tree of known kind.
- Nested JSON objects are values, slices are arrays while they are rewritten; sharing between parts of a parsed tree is not modelled.
- Strings of a Go path are sequences of bytes written as characters; header text likewise.
- Windows itself: registry, MSI, DISM, reboot requests, WSL and process calls. Consent and reboot answers are one constant of a
  run; a forwarder's start and kill are answers of the environment.
- `WithUninstall` re-reads the state file and switches the user interface to uninstalling; neither affects a decision of the run.
- Port-forwarding messages and toggles are atomic; the source runs them on different threads without a lock.
- The command-line parser of port-forwarding messages, logging, titles and text layout of folded sections, and all other user interface.
- Engine start and stop sequencing, DNS, certificates, update checks and configuration files.
