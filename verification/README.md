# The `olad` server core

`olad` is the daemon of the Open Lighting Architecture. It routes DMX512 frames, and RDM requests, between
*ports* (on devices, which plugins own) and *clients* (which connect to the daemon) through numbered *universes*.
Everything the daemon decides follows from an in-memory graph of objects with pointers both ways: a port points to
its universe, the universe lists its ports and clients, a store owns the universes by id and remembers which may be
deleted. This project models that graph with classes, fields and in-place updates, as the daemon has them, and proves
what holds in every state it can reach. Beside the graph it models the parts of the daemon that keep state of their
own, and the recorder and player that ship with it.

| module | what it models |
|---|---|
| `Sequences`, `Dmx` | vectors without duplicates; frames of at most 512 channels, sources with a timestamp and a priority, activity (2.5 s), highest-takes-precedence |
| `Merging` | what a universe is to output, stated declaratively over the set of its feeds |
| `SourceClients` | the staleness flags of source clients over any history |
| `Discovery` | the index from RDM UIDs to ports over rounds of discovery |
| `Universes` | clients, devices, ports, universes, and the store with its garbage collection |
| `PortManagers` | patching, its guards, priorities, deletion of ports and devices, the port broker |
| `Servers` | data from clients and ports, registration, disconnection, housekeeping, and arbitrary runs of all of it |
| `CandidatePorts` | the query for the ports that could be patched |
| `Broadcasts` | joining the replies to a broadcast RDM request |
| `UidResolver` | the queue of label lookups behind the web pages |
| `Plugins` | loading plugins and resolving their conflicts |
| `PreferenceStore` | preferences as a multimap, and their text file |
| `PortKeys`, `PortSettings` | the keys and numbers under which port settings are saved; what restoring makes of them, and what survives in a file |
| `DeviceManagers` | registered devices, aliases, saving and restoring |
| `Daemons` | server and device manager together, over arbitrary runs; devices that go and come back; restarts |
| `Shows` | recording a show to a file and playing it back |

Time is a number of microseconds. The event loop takes one step at a time. Whether a port's own hook vetoes a change
of universe (`PreSetUniverse`) is an input of each patch. Where the daemon walks a container ordered by address or by
key, the model walks it in any order, and the results are proved not to depend on it.

The invariant of a whole server is `OlaServer.Valid`, built from `PortManager.Valid` (`Linked`, `Owned`, `Legal`),
`PortManager.AllConfigured` and `Universe.Sound` (`PortsWf`, `ClientsWf`, `Collectable`, `Synced`); `OlaServer.Run` shows
that any interleaving of any number of steps keeps it. `Daemon.Valid` adds the device manager and the preferences, and
`Daemon.Run` and `Daemon.Meanwhile` show the same for the whole daemon.

## Where the code does less than one would expect

Each of these is stated by a contract or a lemma, with the exact condition where it depends on one.

* A port that vetoes leaving a universe ends up pointing to a universe that no longer lists it: `PatchPort` and
  `UnPatchPort` keep the invariants exactly unless a bound port vetoes.
* After one round of discovery a UID that moved between ports can be missing; `OneRoundExact` says exactly when, and
  `OneRoundCanLoseAMovedUid` gives an instance. Two rounds always suffice.
* `NewUIDList` for a port that is not bound plants a dangling owner exactly if it reports a UID nobody owns.
* Unregistering a client from a universe that does not exist creates the universe, which counts as never used
  (`RegisterForDmx`): however often housekeeping runs, it stays, with nobody on it, exactly if the request was to
  unregister (`AskAndLeave`).
* A priority a client asks for is cut to a byte before it is brought into range, so 300 becomes 44; `PriorityIsCutFirst`
  says exactly when that makes no difference.
* A rejected change of data still sets the active priority, with nothing sent (`MergeAll`).
* A port whose id is taken on its device is not listed by the device, though the device reports success (`AddPort`).
* A candidate query without a universe lists every device that has ports, with nothing to offer exactly if all of them
  are bound (`BoundDeviceListedInVain`).
* A broadcast on a universe without output ports is never answered.
* The code of a DUB broadcast depends on the order of the replies exactly if neither a response nor a timeout is among
  them and the codes differ; that of a plain one exactly if two ports report different errors.
* Loading plugins compares only what is new. Peace between active plugins is kept exactly if nothing on offer that is to
  start conflicts with what is active (`LoadKeepsPeace`); that can fail only if loaders come to offer more between two
  loads with no unloading in between (`LateOffer`), which the daemon's own loader never does: over its loads and unloads
  there is always peace (`Plugins.Run`). A plugin whose start fails is active all the same. A plugin that conflicts both
  ways round is listed twice.
* A saved patching is restored exactly if the universe id is below 2^31. A saved layout as a whole is restored exactly
  if it has no two ports where the guards forbid it (`RestoredIffHarmless`), and the layout of a legal device has none.
* When a device is unregistered without port preferences, its timecode ports stay behind: the set stays right exactly if
  there are preferences or no output of the device supports timecode (`UnregisterDevice`). Unregistering all devices does
  not reset the next alias, although the comment on it says so.
* Preferences survive saving and loading exactly if every key and value is trimmed and free of `=` and newlines and no
  key starts with `#`; empty keys and values do survive. So the settings of a device survive a restart exactly if its id
  is free of `=` and newlines and does not start with white space or `#` (or there was nothing to lose), as long as the
  file could express the rest of the preferences and the other ids before the shutdown. A daemon that has booted and has
  registered only devices with such ids is always in that state, and loses nothing (`Boot`, `Run`, `Restart`).
* A recording plays back exactly if the clock read other than zero at every frame but the last, did not run backwards,
  and left no gap of 2^32 milliseconds; empty frames do play back. Otherwise it plays up to the frame before the first
  bad gap.
* The player sends the first frame before its event loop starts, and ending the loop does nothing before that. `Playback`
  ends exactly if that first call leaves a timer: if the file opens with a valid frame line followed by a valid gap, or
  has at most one frame, nothing invalid, and more than one pass is asked for. Otherwise the program loops for ever with
  nothing to do: with a file whose first frame or gap is invalid, and with a recording of at most one frame that is
  played once, which is the default (`StartsOfRecording`, `OneFrameOnceNeverStarts`).

## Model

| member | source | states |
|---|---|---|
| `Merging.ActivePriority` | olad/Universe.cpp:661-705 | the active priority is the highest of all sources that have data and were heard of less than 2.5 seconds ago, or zero if there is none |
| `Merging.OldFeedsDoNotCount` | olad/Universe.cpp:672-680 | sources never heard of, not heard of for 2.5 seconds, or without data might as well not be there: priority, verdict and buffer are the same without them |
| `Merging.AtPriorityIsFilter` | olad/Universe.cpp:668-705 | the kept list is exactly the live sources of one priority |
| `Merging.ScanEffect` | olad/Universe.cpp:672-705 | a turn of the one-pass scan (drop what was kept when a higher priority turns up) keeps its three variables equal to the declarative values for all feeds so far |
| `Merging.HtpIsChannelMax` | olad/Universe.cpp:643-650 | the HTP result is as long as the longest source and holds in every channel the largest value supplied |
| `Merging.ChannelMaxUnique` | olad/UniverseTest.cpp:439-441 | there is only one channel-wise maximum, and it depends on the set of sources alone |
| `Merging.OrderIsIrrelevant` | olad/Universe.cpp:661-749 | priority, verdict and buffer are the same in whatever order ports and clients are stored |
| `Merging.HtpOutcome` | olad/Universe.cpp:707-748 | in HTP mode a change is accepted exactly if its source has data, is less than 2.5 seconds old and at the active priority; then the buffer is the channel-wise maximum of the sources of which the same can be said, else it stays |
| `Merging.LtpOutcome` | olad/Universe.cpp:713-748 | in LTP mode a change takes effect exactly if its source has data, is less than 2.5 seconds old, and every other such source has a lower priority, or the same and is no newer; then the buffer is its data, else it stays |
| `Universes.Universe.Consider` | olad/Universe.cpp:672-705 | one turn of either scan loop updates priority, list and flag to the declarative values |
| `Universes.Universe.MergeAll` | olad/Universe.cpp:661-749 | the two scans and the merge give the declarative outcome for the ports and clients the universe has; a rejected change leaves the buffer (the active priority is set either way) |
| `Universes.Universe.AnyListing` | olad/Universe.cpp:668-705 | that outcome does not depend on the listing of the feeds |
| `Universes.Universe.HtpMergeSources` | olad/Universe.cpp:643-650 | the loop computes the HTP result of all sources, whatever the buffer held |
| `Universes.Universe.UpdateDependants` | olad/Universe.cpp:594-612 | every output port and sink client holds the current buffer and priority afterwards, and clients nothing new for other universes |
| `Universes.Universe.SetDmx` | olad/Universe.cpp:359-367 | an empty frame changes and sends nothing, another becomes the buffer and reaches every dependant |
| `Universes.Universe.PortDataChanged` | olad/Universe.cpp:374-382 | data from a port the universe does not list changes nothing; other data merges as declared, and is sent to everyone or to no one |
| `Universes.Universe.SourceClientDataChanged` | olad/Universe.cpp:389-397 | the client is a fresh source, and the data it last sent for this universe (an empty frame if none) merges as declared, sent to everyone or to no one |
| `Universes.Universe.AddPort` | olad/Universe.cpp:173-184 | the port is listed, once, on its side, with the counters right |
| `Universes.Universe.RemovePort` | olad/Universe.cpp:192-211 | the port goes, and of the UIDs exactly those that led to it; the others keep their owners; the universe becomes a deletion candidate exactly if it fell out of use |
| `Sequences.EraseCuts` | olad/Universe.cpp:901-910 | taking a port off a list cuts out its first entry and leaves the others in order |
| `Universes.Universe.RemoveSourceClient` | olad/Universe.cpp:280-293 | the counters stay right, and the universe becomes a candidate exactly if it fell out of use |
| `Universes.Universe.RemoveSinkClient` | olad/Universe.cpp:329-341 | the same for a sink |
| `Universes.Universe.CleanStaleSourceClients` | olad/Universe.cpp:403-419 | exactly the clients flagged stale go and all others are flagged; the counter follows, and an emptied universe becomes a candidate |
| `SourceClients.SourceIffHeardRecently` | olad/Universe.cpp:259-293 | over any history a client is a source exactly if it sent data, was not removed since, and at most one sweep has run since; it is stale exactly if one has |
| `Universes.Universe.SourcesAreRecent` | olad/Universe.cpp:259-293 | that holds of every universe and everything that ever happened to its source clients |
| `Universes.UniverseStore.GetUniverseOrCreate` | olad/UniverseStore.cpp:91-110 | the universe with the id is found, or stored new and unused, with the merge mode saved for its id if there is one; every other stays |
| `Universes.UniverseStore.GarbageCollectUniverses` | olad/UniverseStore.cpp:153-166 | the survivors are exactly the universes in use and those never used; the merge modes of the others are saved, and no other saved mode changes; no candidate is left |
| `Universes.UniverseStore.OthersStaySound` | olad/UniverseStore.cpp:144-146 | queueing one universe for collection leaves the invariants of all others |
| `Discovery.OwnersStayBound` | olad/Universe.cpp:533-558 | owners stay bound ports exactly if the reporting port is bound or reports no UID that nobody owns |
| `Discovery.CompleteRound` | olad/Universe.cpp:489-558 | after a complete round, in any order of completion, every owner reported its UIDs, and a UID is in the index exactly under the stated condition |
| `Discovery.OneRoundExact` | olad/Universe.cpp:533-558 | one round gives the union of the reports exactly if no reported UID is stuck with an owner that completes after all its reporters |
| `Discovery.OneRoundCanLoseAMovedUid` | olad/Universe.cpp:533-558 | a UID that moved, reported before its old owner completes, is missing afterwards |
| `Discovery.TwoRoundsConverge` | olad/Universe.cpp:489-555 | two rounds with unchanged answers leave exactly the union of all reports, each UID with a port that reported it, whatever the orders, duplicates and moves |
| `Discovery.RoundsAreStable` | olad/Universe.cpp:533-555 | from there a further round changes nothing |
| `Universes.Universe.NewUidList` | olad/Universe.cpp:533-558 | exactly the reported UIDs and those of other ports are in the index then, each with the owner it had, or this port if it had none; the counter follows, and owners are bound exactly under the stated condition |
| `Universes.Universe.RunRdmDiscovery` | olad/Universe.cpp:489-526 | when all ports have answered, in any order, the callback has run exactly once, with the index of the whole round |
| `Universes.Universe.RunRdmDiscoveryTwice` | olad/Universe.cpp:489-558 | two rounds with the same answers leave in the index of a universe exactly the union of the answers, each UID with a port that reported it |
| `Universes.DiscoveryRound.PortDiscoveryComplete` | olad/Universe.cpp:755-771 | whatever happens to the universe between two answers, the callback runs exactly on the last one, with the index of that moment; owners stay bound exactly if the port is still bound or reports nothing new |
| `PortManagers.PortManager.PatchPort` | olad/PortManager.cpp:115-160 | the guards alone decide, a refusal changes nothing, a success moves the port and no other, and takes from the old universe exactly the UIDs that led to the port; the invariants hold afterwards exactly unless a bound port vetoed |
| `PortManagers.PortManager.UnPatchPort` | olad/PortManager.cpp:164-177 | the port leaves its universe and the broker, and exactly the UIDs that led to it go; the invariants hold afterwards exactly unless a bound port vetoed |
| `PortManagers.PortManager.CheckGuards` | olad/PortManager.cpp:124-136 | the two checks agree with the declarative guard |
| `PortManagers.PortManager.AllowedMoveIsLegal` | olad/PortManager.cpp:180-251 | a move the guards allow keeps every device free of forbidden pairs on one universe |
| `PortManagers.PortManager.SpoilsNoSibling` | olad/PortManager.cpp:124-136 | on a multi-patch device a patched port leaves its universe open to the other ports of its direction |
| `PortManagers.PortManager.DeleteAllPorts` | olad/Device.cpp:143-211 | every port of the device leaves its universe before it ceases to exist; nothing points to it, in every universe the UIDs of other devices keep their owners, and the invariants hold |
| `PortManagers.PortManager.AddPort` | olad/Device.cpp:190-199 | a port with a new id is put into the list of its direction in the order of ids; one with a taken id is not listed at all |
| `PortManagers.PortManager.CollectGarbage` | olad/UniverseStore.cpp:153-166 | collecting leaves no port pointing to a deleted universe, and deletes exactly the universes that were used and are not |
| `PortManagers.PortManager.BoundMeansActive` | olad/Universe.cpp:579-583 | a universe that a live port points to is in use, so it is not collected |
| `PortManagers.PortManager.LinkIsExact` | olad/PortManager.cpp:114-177 | a live port points to a stored universe exactly if that universe lists it, and then lists it exactly once and on its own side only |
| `PortManagers.PortManager.NoDanglingPort` | olad/UniverseStore.cpp:153-166 | what a port points to is stored, under its own id, and in use |
| `Servers.OlaServer.UpdateDmxData` | olad/OlaServerServiceImpl.cpp:127-157 | data for a missing universe is refused with nothing changed, in the client either; other data is stored with the time and with 100 or the low byte of the number asked for, up to 200, the client is a fresh source, and it merges as declared |
| `Servers.OlaServer.PriorityIsCutFirst` | olad/OlaServerServiceImpl.cpp:143-151 | the exact condition under which the number asked for is simply brought into range |
| `Servers.OlaServer.DmxChanged` | olad/Port.cpp:89-100 | a bound input port stamps its data with the time and the inherited priority if it has the full capability and is set to inherit, else with its own, and the merge is as declared; an unbound one does nothing |
| `Servers.OlaServer.OverrideThenData` | olad/PortManager.cpp:93-111 | once a priority is set, data of the port carries it, up to 200, whatever is inherited; of a port that can have none, the default of 100 |
| `Servers.OlaServer.InheritThenData` | olad/PortManager.cpp:78-85 | once a port is set to inherit, its data carries the inherited priority if it has the full capability; on any other port the inherited priority does not matter |
| `Servers.OlaServer.RegisterForDmx` | olad/OlaServerServiceImpl.cpp:104-121 | the universe exists afterwards, and the client is its sink exactly if it registered; a universe it creates has nothing else on it, and counts as used exactly if the client registered |
| `Servers.OlaServer.KeepHouse` | olad/OlaServer.cpp:315-334 | over any number of rounds of housekeeping an unused universe stays exactly if it was never used |
| `Servers.OlaServer.AskAndLeave` | olad/OlaServerServiceImpl.cpp:104-121 | a universe that a client made by asking for it outlives the client, whatever housekeeping does, exactly if the request was to unregister |
| `Servers.OlaServer.CleanupConnection` | olad/OlaServer.cpp:431-455 | no universe knows the client any more, and the universes it kept in use become candidates |
| `Servers.OlaServer.RunHousekeeping` | olad/OlaServer.cpp:315-334 | collection, saving the merge modes of what goes, then a sweep of every surviving universe, keeping every invariant |
| `Servers.OlaServer.UpdateUids` | olad/Port.cpp:234-239 | UIDs found by an output port reach its universe, and by an unbound one nobody |
| `Servers.OlaServer.OthersUntouched` | olad/Universe.cpp:594-612 | frames that one universe sends change nothing another universe watches over |
| `Servers.OlaServer.Run` | olad/OlaServer.cpp:315-334 | every interleaving of patching, priorities, data, registration, disconnection, discovery, housekeeping, overrides, and of devices and ports that come and go keeps every invariant |
| `CandidatePorts.Survey` | olad/OlaServerServiceImpl.cpp:513-530 | whether the universe is seen on some port, and how many ports are unbound |
| `CandidatePorts.FlagsAreGuards` | olad/OlaServerServiceImpl.cpp:536-546 | the two flags are the guard's verdicts on every unbound port of their direction |
| `CandidatePorts.SelectionIsRight` | olad/OlaServerServiceImpl.cpp:548-572 | what is offered would be accepted; if anything would be, it is all unbound ports, in order, on a multi-patch device, and the first unbound one on another |
| `CandidatePorts.OfferFor` | olad/OlaServerServiceImpl.cpp:499-572 | for a stored universe a device is listed exactly if PatchPort would accept some unbound port of it, and its offer is right |
| `CandidatePorts.GetCandidatePorts` | olad/OlaServerServiceImpl.cpp:469-574 | an unknown universe is an error; else exactly the listable devices are listed, each once and in order, each with a right offer: without a universe all unbound ports, in order, or the first of them |
| `CandidatePorts.BoundDeviceListedInVain` | olad/OlaServerServiceImpl.cpp:531-550 | without a universe every device with ports is listed, and its offer is empty exactly if all of them are bound |
| `CandidatePorts.PatchAll` | olad/OlaServerServiceImpl.cpp:556-572 | the ports offered for one direction of a multi-patch device can all be patched, one after another |
| `Broadcasts.Tracker.HandleBroadcastAck` | olad/Universe.cpp:779-798 | the state joins the replies so far; the callback runs on the last expected reply and not before |
| `Broadcasts.Tracker.HandleBroadcastDiscovery` | olad/Universe.cpp:814-849 | the same for DUB, with the precedence of codes and the packets of all replies in order of arrival |
| `Broadcasts.SendBroadcast` | olad/Universe.cpp:438-468 | with ports that reply while being asked or later, in any order, the callback runs exactly once, with the join of one reply of each port, which is the right answer for the ports; with no port it never runs |
| `Broadcasts.JoinedIsAnswerTo` | olad/Universe.cpp:779-849 | a plain answer has the code of the last reply that is no RDM_WAS_BROADCAST, if there is one, and the packets of the last; a DUB answer is a response if any reply is, else a timeout if any is, else has the code of the last, and has the packets of all replies in order |
| `Broadcasts.AnswerOfPorts` | olad/Universe.cpp:800-849 | the right answer in terms of the ports alone, whatever the order: RDM_WAS_BROADCAST exactly if all said so, else what some port reported; for DUB the highest precedence reported, and every packet of every port exactly once |
| `Broadcasts.PlainIsBroadcastWhenAllAre` | olad/Universe.cpp:779-798 | a plain broadcast reports RDM_WAS_BROADCAST exactly if every port did, and otherwise a code that some port reported |
| `Broadcasts.DubIsPrecedenceMax` | olad/Universe.cpp:800-835 | with the documented codes a DUB broadcast reports their precedence maximum |
| `Broadcasts.DubOrderIrrelevant` | olad/Universe.cpp:821-835 | the exact condition under which the code of a DUB broadcast does not depend on the order of the replies |
| `Broadcasts.PlainOrderIrrelevant` | olad/Universe.cpp:783-786 | the same for a plain broadcast |
| `Broadcasts.PacketsConserved` | olad/Universe.cpp:840-843 | rearranging the replies loses and duplicates no packet |
| `Broadcasts.SendRdmRequest` | olad/Universe.cpp:428-481 | a broadcast goes to every output port of the universe and is answered once, with the answer to one reply of each in order of arrival, which is the right answer for the ports, or never if there is none; another request goes to the bound port that owns the UID and is answered with its reply, or at once with RDM_UNKNOWN_UID if nobody owns it |
| `UidResolver.Resolution.ResolveNextUid` | olad/RDMHTTPModule.cpp:712-758 | the request in flight afterwards is the first in the queue that the RDM API accepts; it and all before it have been handed to the API, in order, and the rest stays queued; none is in flight exactly if the API accepts none, and then all have been handed over |
| `UidResolver.Resolution.HandleUidList` | olad/RDMHTTPModule.cpp:640-705 | the list becomes exactly what was reported, labels of what stays are kept; the manufacturer and then the device lookup of each new UID, and nothing else, join the queue in the order of the report; they are offered to the API at once unless a request is in flight, which is left alone |
| `UidResolver.Resolution.UpdateUidManufacturerLabel` | olad/RDMHTTPModule.cpp:763-780 | the label goes to the UID asked for if it is still listed, the queue is offered to the API up to the first lookup that it accepts, and there is less to do than before |
| `UidResolver.Resolution.UpdateUidDeviceLabel` | olad/RDMHTTPModule.cpp:786-803 | the same for the device label |
| `UidResolver.Resolution.IdleMeansDone` | olad/RDMHTTPModule.cpp:712-758 | with nothing in flight everything ever queued has been handed to the API, in order, and among it both lookups of every listed UID since it was last added |
| `UidResolver.Resolution.Run` | olad/RDMHTTPModule.cpp:640-803 | after any sequence of reports and replies the running flag means exactly one request in flight, and the list is the last reported one |
| `UidResolver.Resolution.Drain` | olad/RDMHTTPModule.cpp:712-758 | if replies keep coming the resolver comes to rest, and then the API has been asked all that was queued, with both lookups of every listed UID since it was last added |
| `Plugins.OrderIsIrrelevant` | olad/PluginManager.cpp:50-115 | with unique ids the loaded and the active plugins depend only on which plugins there are, not on the order |
| `Plugins.OrderIsIrrelevantExactly` | olad/PluginManager.cpp:62-68 | what a first load loads is the same for every order exactly if ids are unique |
| `Plugins.NothingNew` | olad/PluginManager.cpp:62-68 | offering again what is loaded loads and starts nothing |
| `Plugins.PluginManager.LoadAll` | olad/PluginManager.cpp:50-115 | what is newly loaded is the first plugin on offer under each id that is new; of these exactly those become active whose preferences load and enable them and that list no other such plugin; those run whose start hook succeeds |
| `Plugins.NewlyActiveInPeace` | olad/PluginManager.cpp:85-115 | no two plugins that one load makes active conflict, in either direction |
| `Plugins.NewlyActiveIsToStart` | olad/PluginManager.cpp:62-111 | a load makes active just those plugins that are offered first under a new id, are enabled, and list no plugin that is new and enabled too |
| `Plugins.LoadKeepsPeace` | olad/PluginManager.cpp:85-101 | the exact condition on what is offered under which a load leaves no two active plugins in conflict |
| `Plugins.PluginManager.SecondLoadIsIdle` | olad/PluginManager.cpp:50-82 | a second LoadAll changes neither map |
| `Plugins.PluginManager.GetConflictList` | olad/PluginManager.cpp:176-194 | a loaded plugin is listed once for each direction of a conflict with the given id |
| `Plugins.PluginManager.PeaceSeenFromTheList` | olad/PluginManager.cpp:176-194 | in a peaceful state no active plugin is on another's conflict list |
| `Plugins.Run` | olad/PluginManager.cpp:50-134 | over every sequence of loads and unloads no two active plugins conflict, and once loaded, the same plugins are loaded, active and running as after a first load |
| `Plugins.LateOffer` | olad/PluginManager.cpp:85-101 | a plugin offered only to a second load, which conflicts with one already active, becomes active all the same |
| `PreferenceStore.SaveThenLoad` | olad/Preferences.cpp:340-442 | saving and loading gives back the multimap, values in order, exactly if the format can express each entry |
| `PreferenceStore.CleanLineRoundTrip` | olad/Preferences.cpp:354-356 | an expressible entry, with an empty key or value too, is read back from its line |
| `PreferenceStore.ParsedIsClean` | olad/Preferences.cpp:420-436 | whatever a line says is an entry the format can express |
| `PreferenceStore.OneEqualsOrNothing` | olad/Preferences.cpp:425-431 | a line without an equals sign, or with more than one, says nothing |
| `PreferenceStore.OneEqualsIsAnEntry` | olad/Preferences.cpp:420-437 | a line with one says its two sides, without the white space around them, unless the first starts with a hash |
| `PreferenceStore.CommentSaysNothing` | olad/Preferences.cpp:420-423 | a line that starts with a hash, after white space, says nothing |
| `PreferenceStore.LinesAreLines` | olad/Preferences.cpp:419 | a text is its lines with a newline after each, but that the newline of the last may be missing |
| `PreferenceStore.CleanFileRoundTrip` | olad/Preferences.cpp:417-441 | expressible entries are read back from a file in order |
| `PreferenceStore.FileBackedPreferences.SaveToFile` | olad/Preferences.cpp:340-358 | the file has a line for each value, and they are exactly the multimap, in whatever order the keys are walked; parsing it gives the multimap back exactly if every entry can be expressed |
| `PreferenceStore.FileBackedPreferences.LoadFromFile` | olad/Preferences.cpp:408-441 | the preferences become what the file says; without a file they stay |
| `PreferenceStore.FileBackedPreferences.SaveAndLoad` | olad/Preferences.cpp:340-442 | saving and loading changes nothing exactly if every entry can be expressed |
| `PreferenceStore.FileBackedPreferences.SetDefaultValue` | olad/Preferences.cpp:184-195 | a key without a valid first value gets the default as its only value, and only such a key changes |
| `PortKeys.KeysAreDistinct` | olad/Port.cpp:65-73 | keys of different devices, directions, ports or settings never collide, whatever the devices are called |
| `PortKeys.KeyTexts` | olad/Port.cpp:65-73 | a key is the device id, `-I-` or `-O-` for the direction, the port id, and nothing, `_priority_value` or `_priority_mode` |
| `PortKeys.NumberOfDec` | common/utils/StringUtils.cpp:92-96 | a printed number is read back |
| `PortKeys.NoLeadingZero` | common/utils/StringUtils.cpp:92-96 | a number is printed without leading zeros |
| `PortKeys.NumberInText` | olad/DeviceManager.cpp:374 | white space, a sign or none, leading zeros or none, and a number, whatever comes after it, is read as that number with that sign |
| `PortKeys.NoNumber` | olad/DeviceManager.cpp:374 | white space and a sign or none, with no digit after them, is read as no number |
| `PortKeys.SavedUniverseOf` | olad/DeviceManager.cpp:369-378 | an empty text names no universe, one without a number universe 0, and one with a number the universe of its low 32 bits, unless they are negative as an `int` or the number is no `long` |
| `PortKeys.SavedByteOf` | common/utils/StringUtils.cpp:140-148 | exactly a number from 0 to 255 is read as an 8-bit number |
| `PortKeys.UniverseSurvives` | olad/DeviceManager.cpp:372-378 | of all universe ids exactly those below 2^31 are restored |
| `DeviceManagers.DeviceManager.Index` | olad/DeviceManager.cpp:91-113 | a device gets the alias its id once had, or the next; the two indexes agree and aliases stay distinct |
| `DeviceManagers.DeviceManager.RegisterDevice` | olad/DeviceManager.cpp:80-129 | refused exactly without an id or if the id is taken; else the ports end as restoring them in order makes them, from however they were set; the timecode set stays exact |
| `DeviceManagers.DeviceManager.UnregisterDevice` | olad/DeviceManager.cpp:137-149 | everything about the device's ports is saved and no other key is written, the id keeps its alias, the indexes agree, and the timecode set stays exact exactly under the stated condition |
| `DeviceManagers.DeviceManager.UnregisterAllDevices` | olad/DeviceManager.cpp:225-232 | every device is saved, no save spoiling another, and no key is written but those of what a port's capability lets be saved; no alias is in use, and none is given up |
| `DeviceManagers.DeviceManager.Devices` | olad/DeviceManager.cpp:181-190 | exactly the registered devices with their aliases, each once |
| `DeviceManagers.DeviceManager.LookupsAgree` | olad/DeviceManager.cpp:197-219 | looking up by alias and by id agree, and no alias stands for a missing device |
| `DeviceManagers.StaysSaved` | olad/DeviceManager.cpp:279-316 | a saved setting outlives the saving of other settings and of other ports |
| `DeviceManagers.DeviceManager.OtherDeviceStaysSaved` | olad/DeviceManager.cpp:225-232 | what was saved of one device outlives the saving of another |
| `DeviceManagers.PriorityRoundTrip` | olad/DeviceManager.cpp:301-347 | restoring the saved priority and mode on a new port gives the saved ones, for every capability |
| `DeviceManagers.DeviceManager.RefusedIsBarred` | olad/PortManager.cpp:115-136 | the guards refuse a port of a device exactly if another of its ports is where the design forbids it |
| `DeviceManagers.DeviceManager.LegalIsHarmless` | olad/PortManager.cpp:115-136 | how the ports of a legally patched device are set has no two ports where the guards forbid it |
| `DeviceManagers.DeviceManager.SavedDeviceIsPromised` | olad/DeviceManager.cpp:248-316 | what was saved of a device is what the preferences hold for one of the same design, port by port and by key |
| `DeviceManagers.DeviceManager.RestorePortSettings` | olad/DeviceManager.cpp:354-380 | the ports get their saved priorities and modes, and in turn their saved universes unless a port restored or bound before stands in the way, for every layout |
| `PortSettings.RestoredIffHarmless` | olad/DeviceManager.cpp:354-380 | new ports are restored to exactly what the preferences hold if and only if that has no two ports where the guards forbid it |
| `PortSettings.RestoredFrom` | olad/DeviceManager.cpp:322-347 | a saved number up to 255 gives the priority, up to 200, to a port that can have one, and makes it override if it has the full capability; a saved mode of 0 lets it inherit; anything else changes nothing |
| `PortSettings.RestoredMayHave` | olad/DeviceManager.cpp:322-347 | whatever the preferences say, restoring gives no port a priority or mode that its capability does not let it have |
| `PortSettings.KeyIsClean` | olad/Preferences.cpp:340-442 | a setting of a port can be expressed in the file exactly if the id of the device and the value can |
| `PortSettings.UncleanIsLost` | olad/Preferences.cpp:408-441 | no file holds anything for a device with another id |
| `PortSettings.SurvivesIffCleanId` | olad/Preferences.cpp:340-442 | what is held for a device survives saving and loading exactly if its id can be expressed or there is nothing to lose |
| `DeviceManagers.DeviceManager.RegisterAsPromised` | olad/DeviceManager.cpp:80-129 | a new device is set to what the preferences hold for it exactly if that has no forbidden pair |
| `Daemons.PromiseStands` | olad/DeviceManager.cpp:248-316 | saving one device leaves what the preferences hold for another |
| `Daemons.StaysCleanBut` | olad/DeviceManager.cpp:248-316 | saving devices whose ids the file can express, and one more, adds nothing that the file cannot express but under the id of that one |
| `Daemons.Daemon.Run` | olad/OlaServer.cpp:315-334 | every interleaving of steps of the server with registrations and unregistrations of devices keeps the invariants of both, and every id keeps its alias; if no registered device stops or gains ports the timecode set stays exact, and if only devices with ids that the file can express are registered it can go on expressing everything |
| `Daemons.Daemon.Meanwhile` | olad/DeviceManager.cpp:80-149 | meanwhile the preferences go on holding how the ports of an absent device were set |
| `Daemons.Daemon.Remove` | plugins/usbpro/UsbSerialPlugin.cpp:330-336 | a device that is unregistered and stopped leaves no port behind, and the preferences hold how its ports were set |
| `Daemons.Daemon.Build` | olad/Device.cpp:190-199 | a device can be made to any design, port by port, in a running server |
| `Daemons.Daemon.Replace` | olad/DeviceManager.cpp:80-380 | a device goes, anything happens, and one of the same design is made and registered: it gets every universe (below 2^31), priority and mode back, and the alias |
| `Daemons.Daemon.Boot` | olad/DeviceManager.cpp:55-63 | a new daemon has what the file says, all of which a file can express, and no device |
| `Daemons.Daemon.Restart` | olad/OlaServer.cpp:384-394 | the same over a shutdown, the file, and a new process: what comes back, exactly under the stated condition on the id and the state before; after a boot and an orderly run it is everything |
| `Shows.FrameRoundTrip` | examples/ShowLoader.cpp:116-138 | a frame line, of an empty frame too, is read back, and is never taken for a timeout |
| `Shows.StrictRoundTrip` | examples/ShowLoader.cpp:97-109 | a printed gap is read back exactly if it is not negative and fits an `unsigned int` |
| `Shows.StrictInText` | common/utils/StringUtils.cpp:112-128 | white space, a sign or none, leading zeros or none, and a number are read exactly if nothing comes after it and an `unsigned int` can hold it |
| `Shows.StrictNoNumber` | common/utils/StringUtils.cpp:112-128 | without a digit after the white space and the sign nothing is read |
| `Shows.FrameInText` | examples/ShowLoader.cpp:116-138 | a line is a frame exactly if it has one space, with a universe before it and the channels after it |
| `Shows.BufferInText` | common/utils/DmxBuffer.cpp:162-184 | pieces of text separated by commas are the channels, of which those past the 512th are dropped |
| `Shows.ByteInText` | common/utils/DmxBuffer.cpp:178-181 | a channel is the low byte of the number its piece starts with, or zero if it starts with none |
| `Shows.BufferRoundTrip` | common/utils/DmxBuffer.cpp:162-184 | the text of a frame's channels is read back |
| `Shows.ShowSaver.NewFrame` | examples/ShowSaver.cpp:83-96 | a frame adds to the file the whole milliseconds since the last one, unless the time of that reads as not set, and then its own line; the file holds all frames so far |
| `Shows.PassOfRecording` | examples/ShowPlayer.cpp:92-139 | a recording plays exactly up to the frame before its first bad gap, and to its end exactly if it has none |
| `Shows.BeforeBadGapIsPrefix` | examples/ShowSaver.cpp:83-96 | those frames are a prefix of the recording, all of it exactly if every gap is good |
| `Shows.RecordThenPlay` | examples/ShowPlayer.cpp:77-157 | played n times it gives the frames in order n times with the recorded gaps exactly if it is recordable, and else the frames before the first bad gap, once |
| `Shows.StartsOfRecording` | examples/ShowPlayer.cpp:92-157 | for a recording the first call leaves a timer exactly if the first gap is good or, with at most one frame, more than one pass is asked for |
| `Shows.OneFrameOnceNeverStarts` | examples/ola-recorder.cpp:108-109 | with one frame and the default of one pass it does not |
| `Shows.ShowPlayer.SendNextFrame` | examples/ShowPlayer.cpp:92-157 | what has been sent and what is still to come are together what the file says; a timer is pending afterwards exactly under the stated condition, and else the loop is asked to end, which works only inside it |
| `Shows.ShowPlayer.RunLoop` | common/io/SelectServer.cpp:134-147 | the loop ends exactly if it starts with a timer pending and has as many turns as the show has waits; otherwise it does nothing for ever |
| `Shows.ShowPlayer.Playback` | examples/ShowPlayer.cpp:77-85 | with a number of iterations the loop ends, having done what the file says, exactly if the first call leaves a timer |
| `Shows.ShowPlayer.PlayForever` | examples/ShowPlayer.cpp:145-157 | without one, a show with no invalid line goes on for as many waits as timers fire, with another always pending, and one that opens with an invalid line never has |
| `Shows.RecordAndPlay` | examples/ShowPlayer.cpp:77-157 | recording and then playing sends the frames up to the first bad gap, in order, each followed by a wait for the whole milliseconds to the next; if there is no bad gap n times over, with the pause between the passes; and the loop ends, after as many turns as there are waits, exactly under the condition on the first two frames |
| `Shows.WhatIsPlayed` | examples/ShowPlayer.cpp:77-157 | event by event, what a recording comes to: its frames, the gaps in the recorded microseconds, and the pauses |

## Left out

- Names of universes and intervals of discovery, and their preferences: nothing that is modelled depends on them.
- HTTP handlers, JSON and the per-PID pages: request plumbing.
- The RPC layer, sockets, threads and timers: each callback is one step.
- The client broker, and replies to callers that are gone: a lookup before a callback is run.
- RDM message contents beyond the destination, the DUB flag, the response code and the packets.
- The fan-out of a merge to clients over RPC, and failures there: sending a frame always succeeds.
- Pruning of the universes of the label resolver.
- The port broker learns nothing of ports that a device deletes, so it is stated for existing ports only.
- The order of the devices in a reply and of the keys in a saved file is any order, not that of the strings.
- Null device arguments, which registering and unregistering refuse at once.
- Device and port objects without an id string of their own, whose settings the daemon does not save.
- The thread that writes the file.
- Servers.OlaServer.RunHousekeeping: does not start the periodic discovery, whose answers are steps of their own, `UpdateUids` and `PortDiscoveryComplete`.
- Servers.OlaServer.Run: a bound port does not veto leaving its universe, and an unbound port reports no UIDs to its old universe; either would break the invariants, exactly as `PatchPort` and `PortDiscoveryComplete` state.
- Universes.Universe.RunRdmDiscovery: the answers come with no other step in between; `PortDiscoveryComplete` is the step for when they do not.
- DeviceManagers.DeviceManager.RestorePortSettings: the two calls, for inputs and then outputs, are one call on the two lists joined, and no port vetoes.
- Daemons.Daemon.Replace: ports do not veto, and the old device is not freed but left without ports.
- Daemons.Daemon.Restart: the devices are saved by unregistering all of them, not plugin by plugin, which saves the same.
- Shows.StrictUnsigned: a NUL character inside a line, at which the original stops reading, is a character like any other.
- Shows.ByteOf: a channel value outside an `int`, which no recording has, is cut to a byte like any other.
- Shows.ShowPlayer.PlayForever: an endless show is followed for any finite number of timers.
- Shows.ShowPlayer.RunLoop: a loop that never ends is followed for any finite number of turns.
