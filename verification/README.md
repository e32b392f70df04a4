# A verified model of datahop

datahop is a data sharing node: contents are announced in a replicated key-value store, downloaded by the other
nodes, and summarised in Bloom filters that two mobile devices compare to see when they have nothing left to
exchange. This project models the node's own logic in Dafny and proves what it keeps over all inputs, runs and
interleavings. `dafny verify dfyconfig.toml` checks everything.

| module | what it models |
|---|---|
| `Text`, `Framing`, `FreshName` | string splitting and joining, the command framing between client and daemon, the search for a free output name |
| `Mfs`, `Adder`, `AdderEvents`, `Progress` | the mutable tree addressed by path strings, the directory adder on top of it, its two passes of events, the progress reader |
| `Walk`, `Download` | the concurrent block walk, file deletion, the read loop of a download |
| `ContentMatrix`, `Ledger`, `Keeper` | content records, connection records, and their two-key persisted image |
| `Bloom`, `StateKeeping`, `Keys` | filters of 2000 bits, the two filter files, the key families of the store |
| `Replication`, `Manager` | the replication node as a state machine, and the imperative code that refines it step by step |
| `GlobalFilter`, `GroupFilter`, `Convergence`, `GroupConvergence`, `Downloads`, `Records`, `Resumption` | what every run of that machine keeps |
| `Groups`, `GroupApi` | the group calls, their queries, and whole runs of them as runs of the machine |
| `Discovery`, `AutoDisconnect` | the discovery handlers, and devices that exchange filter snapshots with messages in flight |

Code that changes state is a class whose methods are proved equal to a step of a specification; the properties are
lemmas about all runs of the specification. `Manager`, `GroupApi`, `Keeper`, `Adder`, `Walk` and `Discovery` hold
those classes and methods.

## How the parts are read

- A node's store is a map. A local and a remote put, in any order, are the same step: the entry takes effect and its
  hook runs once. `GroupFilter.HookBeforeOrAfterWrite` shows that the order of the two does not matter.
- Group content enters the owner's global filter but only the group filter of a member that downloads it, and the
  group filter is filled when metadata arrives, before the download. Both are kept as the code has them.
- A blocked send on the download channel is a metadata that waits. The model lets everything else go on meanwhile,
  which allows more interleavings than the code does.
- The hash of the Bloom filter is a parameter; all results hold for every hash.
- Public keys are written as their base64 texts, group identifiers and peer identifiers as their texts. Clocks, found
  providers, peer counts, answers of the task manager and the orders in which maps and queries are visited are
  parameters of the steps.
- A store query returns the keys strictly below its prefix, in any order.

## What the proofs found

- The publisher reads its filter, waits ten seconds and then publishes (mobile/datahop.go:366-396). A match
  therefore speaks for what the sender had recorded at the snapshot, not at the publication
  (`AutoDisconnect.PublishedIsCoveredIff`, `AutoDisconnect.PublishedMayBeUncovered`).
- `DeleteFile` passes a closure that ignores its argument (internal/ipfs/ipfs.go:602-608), so only the root and its
  direct links are deleted (`Walk.CollectsWholeDagIff`, `Walk.GrandchildSurvives`).
- Unfinished downloads are looked up by the bare tag, under which group content has no record. A returning peer resumes
  exactly the hashes whose tag resolves (`Resumption.ReconnectResumesUnfinished`), and with plain tags that is plain
  content only (`Resumption.GroupDownloadsAreNotResumed`, `Resumption.FailedGroupDownloadStays`).
- Removal markers keep only the text after the last colon of the key's last element, so different deletions can leave
  one marker (`Keys.MarkersCollideIff`, `Keys.DifferentKeysOneMarker`).
- Group content enters its owner's global filter only, so two settled nodes with the same plain content hold equal
  global filters, and their messages match, if and only if the own group tags of each happen to test positive at the
  other (`Convergence.SettledNodesAgreeIff`, `AutoDisconnect.SettledDevicesMatchIff`). The filters of the group itself
  do converge among members, except for content deleted while one of them was not a member yet
  (`GroupConvergence.MembersConverge`, `GroupConvergence.LateMemberMissesDeleted`).
- A single empty argument reaches the daemon as an empty message, which ends the connection
  (`Framing.DaemonSeesArgumentsIff`).
- A stored name with a directory part makes the `get` command create a path it did not probe
  (`FreshName.CreatedIsProbedIff`, `FreshName.DirectoryPartOverwrites`).
- A disconnect without a connection records one that began at time 0; nothing else breaks the order of the history
  (`Ledger.ConnectionsAreDisjointIff`, `Ledger.DoubleDisconnectBreaksIntervals`).
- A crash while connected leaves the history in order but one success too many, if an image was saved while connected
  (`Keeper.HistoriesSurviveCrashes`, `Keeper.FirstReconnectIsBalancedIff`).
- Closing the discovery service leaves `connected` set (`Discovery.ClosedStaysConnected`).

## Model

| member | source | states |
|---|---|---|
| `Manager.ReplicationManager.Put` | internal/replication/replication.go:341-343 | A put takes effect in the store and its hook runs once: the whole new node (store, both filter files, groups, channel) is the specified step |
| `Manager.ReplicationManager.PutHook` | internal/replication/replication.go:107-176 | The hook's two branches, keyed on the prefixes of the key, leave exactly the specified node |
| `Manager.ReplicationManager.MemberPut` | internal/replication/replication.go:109-131 | A record for another user changes nothing; a record for this node puts all tags under the group's index into the group's filter, with membership set |
| `Manager.ReplicationManager.ContentPut` | internal/replication/replication.go:132-175 | Content that does not decode, or of a group without a matching membership record, changes nothing; otherwise group filter, then channel or global filter, by owner and auto-download |
| `Manager.ReplicationManager.Delete` | internal/replication/replication.go:177-185 | A deletion takes the key out of the store and records its marker, and nothing else, in the global filter and its file |
| `GlobalFilter.DeletionRecordsMarker` | internal/replication/replication.go:177-185 | On a new node, deleting a key sets exactly the bits of the text "removed " followed by what comes after the last colon of its last element, in filter and file |
| `GlobalFilter.PutEffect` | internal/replication/replication.go:163-165 | A put stores the value and hands the decoded metadata over unchanged, exactly if it is accepted and foreign; content records and other downloads stay |
| `Manager.ReplicationManager.GetContentMetadata` | internal/replication/replication.go:199-216 | The tags returned are exactly those of the decodable values strictly below the group's index, in whatever order the store answers |
| `Manager.ReplicationManager.Take` | internal/replication/replication.go:368-386 | The watcher takes one metadata; its hash has a record with all found providers, and a finish stamp that was there stays |
| `Manager.ReplicationManager.Launch` | internal/replication/replication.go:417-422 | An accepted task runs, a refused one has failed |
| `Manager.ReplicationManager.MarkStarted` | internal/replication/replication.go:423-423 | The start is stamped once per accepted task, possibly after the task has ended |
| `Manager.ReplicationManager.Execute` | internal/replication/replication.go:454-463 | The callback runs exactly when the download returned success, and then stamps the record and fills the group filter or the global filter, never both |
| `Manager.ReplicationManager.StartUnfinishedDownload` | internal/replication/replication.go:324-338 | The loop over the content records, in any map order, sends exactly the specified metadata |
| `Manager.ReplicationManager.Restarted` | internal/repo/repo.go:186-228 | A restart keeps the store, reloads both filters and the records from their files, and loses the downloads in flight |
| `GlobalFilter.GlobalFilterIsExact` | internal/replication/replication.go:163-185 | In every reachable state, restarts included, the global filter is bit for bit the union of the recorded texts, and its file agrees with it |
| `GlobalFilter.RecordedIffExplained` | internal/replication/replication.go:107-185 | A text is recorded if and only if some event of the run explains it: a deletion with its marker, an accepted put that is not foreign, or the successful end of a non-group download; so no foreign tag before its download |
| `GlobalFilter.GlobalFilterGrows` | internal/replication/replication.go:163-185 | The global filter never loses a bit over any run |
| `GlobalFilter.GroupPutSplitsGlobalFilters` | internal/replication/replication.go:139-174 | One group put from equal states leaves owner and downloading member with equal global filters if and only if the tag already tested positive |
| `Convergence.SettledNodesAgreeIff` | internal/replication/replication.go:139-174 | Two nodes that settled on the same plain content and deletions, along with any group content, hold equal global filters if and only if the own group tags of each test positive at the other |
| `Convergence.OwnerAndReaderAgreeIff` | internal/replication/replication.go:389-412 | A node with group content of its own and one without agree if and only if the first one's group tags happen to test positive in what both share |
| `GroupFilter.MemberFilterCoversIndex` | internal/replication/replication.go:109-161 | In every reachable state of a node whose membership record holds its own key, the group's filter tests positive for every tag below the group's index, whichever record came first, and so does the saved filter |
| `GroupConvergence.GroupFilterIsExact` | internal/replication/replication.go:109-161 | In every reachable state a group's filter is bit for bit the union of the tags recorded for it: the index when a membership of this node arrived, content accepted as a member, finished downloads of the group |
| `GroupConvergence.GroupFilterIsTagsIff` | internal/replication/replication.go:109-161 | Over any run, deletions included, a group's filter has no bit beyond those of the tags put below the group's index, and exactly theirs if and only if all of them test positive |
| `GroupConvergence.GroupFiltersAgreeIff` | internal/replication/replication.go:109-161 | Over any two runs two nodes hold equal filters of a group if and only if what each has recorded for it tests positive at the other |
| `GroupConvergence.MemberFilterIsExact` | internal/replication/replication.go:109-161 | A member's filter has exactly the bits of the tags ever put below the group's index, however late the membership and whether or not downloads ended, if content of the group was deleted only while the node was a member; all other deletions are free |
| `GroupConvergence.LateMemberMissesDeleted` | internal/replication/replication.go:115-126 | The failing case, for every configuration and tag: a node that joins after a deletion has no bit of the deleted tag |
| `GroupConvergence.MembersConverge` | internal/replication/replication.go:109-161 | Two such members that processed the same puts below a group's index, in any orders and repetitions, hold equal filters of the group |
| `GroupFilter.HookBeforeOrAfterWrite` | internal/replication/replication.go:107-176 | The hook gives the same node whether it runs before or after its write takes effect |
| `Convergence.SettledRecordsAll` | internal/replication/replication.go:163-185 | A settled node has recorded exactly the tags of the plain content, the group tags it accepted without a download, and the markers of the keys deleted |
| `Convergence.SettledNodesConverge` | internal/replication/replication.go:163-185 | Two nodes that processed the same non-group puts and deletes, in any orders and repetitions, hold equal global filters once settled, whoever owns what |
| `Downloads.DownloadsAreConserved` | internal/replication/replication.go:362-434 | In every reachable state each metadata ever sent is in exactly one of waiting, taken, running, finished, failed and lost |
| `Downloads.EndsAtMostOnce` | internal/replication/replication.go:454-463 | No download ends twice, so no callback runs twice |
| `Downloads.FinishedIffSucceeded` | internal/replication/replication.go:454-463 | A download is finished exactly if the run holds its successful end |
| `Records.DownloadsAreWhereTold` | internal/replication/replication.go:362-434 | Over every run each download is where its own events put it: waiting once sent, taken, running or refused, ended well or badly, and lost by a restart if it was still open |
| `Records.MarkedOncePerLaunch` | internal/replication/replication.go:417-423 | Over every run a download awaits the mark of its start exactly from its acceptance to that mark or a restart |
| `Records.RecordsAreTold` | internal/matrix/matrix.go:307-359 | Over every run each content record is what the events tell, field by field: the providers found, tag, size, times and speed of its download; a restart goes back to the last save |
| `Resumption.StampedIffCompleted` | internal/matrix/matrix.go:330-342 | A record has a nonzero finish stamp exactly if a download of its hash completed, in memory and in the saved image |
| `Resumption.CompletionIsPermanent` | internal/matrix/matrix.go:330-342 | From any moment of any run on, a finish stamp stays until the node restarts |
| `Resumption.SavedCompletionIsPermanent` | internal/matrix/matrix.go:330-342 | A stamp that is in memory and in the saved image stays in both over every continuation, restarts included |
| `Resumption.RestartKeepsIffSaved` | internal/matrix/matrix.go:74-102 | A completion survives a restart if and only if the saved image has it |
| `Resumption.ReconnectResumesUnfinished` | internal/replication/replication.go:324-338 | A returning peer triggers exactly one send per hash that never completed and whose tag is in the store, and each is of the metadata stored there, field by field |
| `Resumption.ReconnectSendsStored` | internal/replication/replication.go:253-264 | In terms of the channel: a metadata comes to wait if and only if it is the one stored under the tag of an unfinished record |
| `Resumption.ResumedGroupIff` | internal/replication/replication.go:324-338 | A metadata resumed belongs to a group if and only if the recorded tag is itself the key of content below an index |
| `Resumption.GroupDownloadsAreNotResumed` | internal/replication/replication.go:324-338 | So with plain tags a returning peer gets plain content only, whatever else the node holds: group puts, plain puts, deletions and restarts are free |
| `Resumption.GroupOnlyResumesNothing` | internal/replication/replication.go:324-338 | A node with group content only resumes nothing at all |
| `Resumption.FailedGroupDownloadStays` | internal/replication/replication.go:324-338 | A run, for every hash, after which a failed group download has an unfinished record and its content is in the store, and a returning peer resumes nothing |
| `StateKeeping.StateKeeper.Load` | internal/repo/state.go:28-64 | States are those of the file, or none with an empty file written |
| `StateKeeping.StateKeeper.AddOrUpdateState` | internal/repo/state.go:92-111 | The named filter gains exactly the bits of the deltas, a new group starting empty; membership is set; other groups stay; memory and file agree |
| `StateKeeping.AddOrUpdateMeans` | internal/repo/state.go:92-111 | Bit by bit what an update leaves: the old bits and five per tag, the membership given, all other groups as they were |
| `GroupConvergence.StatesAreMemberships` | internal/replication/replication.go:126-126 | In every reachable state every group state kept is marked as a membership |
| `Bloom.TestIff` | internal/replication/replication.go:402-404 | A tag tests positive exactly if its five bits of two thousand are set, and adding it sets exactly these |
| `StateKeeping.FsRepo.Open` | internal/repo/repo.go:325-346 | The filter is that of the file, or empty with an empty file written; file and memory agree |
| `GroupConvergence.RestartFindsFilters` | internal/repo/repo.go:115-133 | In every reachable state a restart finds the global filter and all group filters as they were, because each change was saved |
| `Keys.FamiliesAreDisjoint` | internal/replication/replication.go:33-37 | No key is in two of the reserved families, although the prefixes share their beginnings |
| `Keys.KeysAre` | internal/replication/replication.go:33-37 | The three kinds of keys, written out |
| `Keys.MemberKeyParses` | internal/replication/replication.go:109-111 | The hook recovers user and group from a membership key |
| `Keys.IndexKeyParses` | internal/replication/replication.go:139-140 | The hook recovers the group from any key below the group's index, whatever slashes the tag has |
| `Keys.IndexKeysAreInjective` | internal/replication/group_replication.go:237-237 | Distinct (group, tag) pairs have distinct keys, even when tags contain slashes |
| `Keys.MarkersAgreeIff` | internal/replication/replication.go:179-179 | For all keys, deletions leave the same marker if and only if the keys have the same name |
| `Keys.MarkerIs` | internal/replication/replication.go:179-179 | What the marker is, read off the key; it is never the deleted name itself |
| `Keys.NewKeyIs` | internal/replication/replication.go:253-254 | A key is the path with a leading slash, supplied only if missing |
| `Keys.MarkersCollideIff` | internal/replication/replication.go:179-179 | In terms of the keys: if and only if their last elements agree after the last colon, whatever the directories |
| `Keys.AfterLastColonIff` | internal/replication/replication.go:179-179 | The text after the last colon is the one colon-free end of the string that follows a colon or is all of it |
| `Keys.DifferentKeysOneMarker` | internal/replication/replication.go:179-179 | Three different keys whose deletions leave one marker, by directory and by colon |
| `GroupApi.CreateGroup` | internal/replication/group_replication.go:25-53 | The node after the call is the one after its two puts, and the store holds exactly the two new records |
| `GroupApi.CreateOpenGroup` | internal/replication/group_replication.go:55-90 | As for a closed group, and the group's filter is made at once |
| `GroupApi.OpenGroupFilterIsThere` | internal/replication/group_replication.go:84-88 | For an owner that creates its own group the extra filter update changes nothing: the put hook has done it |
| `GroupApi.GroupAddMember` | internal/replication/group_replication.go:92-133 | Errors are exactly those of the group, ownership and key checks, in that order; on success one membership record is written, on error nothing |
| `GroupApi.GroupAddContent` | internal/replication/group_replication.go:203-242 | The same checks; on success one index record with the group filled in, and its hook |
| `GroupApi.GroupGetInfo` | internal/replication/group_replication.go:135-169 | The group's record exactly if the checks pass |
| `GroupApi.GroupGetAllContent` | internal/replication/group_replication.go:244-276 | For a member, the decodable values below the index in the order of the query |
| `GroupApi.GroupGetAllGroups` | internal/replication/group_replication.go:171-201 | The decodable group records of the member keys that hold the given key; every such key splits into at least four parts |
| `GroupApi.CallsAreARun` | internal/replication/group_replication.go:25-242 | Any run of group calls is a legal run of the replicated store that ends in the store the calls leave |
| `GroupApi.MembersFilterHasContent` | internal/replication/group_replication.go:203-242 | After any run of calls, a node last given its own key finds every tag of the group's content in the group's filter |
| `GroupApi.MembersFilterIsContent` | internal/replication/group_replication.go:203-242 | For plain content without a group, that filter has exactly the bits of the tags of the group's content |
| `GroupApi.MembershipIsLastGrant` | internal/replication/replication.go:191-197 | After any run of calls the membership check accepts a node for a group if and only if the last key given to the node there is its own |
| `GroupApi.ContributorHasFilter` | internal/replication/group_replication.go:203-242 | Whoever adds content as itself has a filter of the group that holds the new tag |
| `GroupApi.AdvertiseGroup` | mobile/datahop.go:966-977 | The state advertised is the group's filter if the group has one; afterwards both drivers know it, and nothing else changed |
| `GroupApi.CallsAreOrderly` | internal/replication/group_replication.go:203-242 | Runs of calls with plain tags meet what the convergence results ask for |
| `Groups.GroupRecordIs` | internal/replication/group_replication.go:25-53 | After any run a group's record has exactly the name, owner, key, identifier and openness of its creation |
| `Groups.MemberRecordIs` | internal/replication/group_replication.go:127-131 | After any run a membership record is there exactly if some call granted it, and holds the key last given |
| `Groups.MembershipTracesToOwner` | internal/replication/group_replication.go:92-133 | Every membership record of every reachable store traces back, through ever earlier calls, to the owner set at creation |
| `Groups.ActorsAreEntitled` | internal/replication/group_replication.go:105-125 | Whoever succeeds in adding a member or content holds a record that traces back to the creation; in a closed group it is the owner |
| `Groups.SucceedsIff` | internal/replication/group_replication.go:105-125 | Exactly the entitled succeed, told from the calls: who holds the key last given to them in a group that is open or their own |
| `Groups.CheckIs` | internal/replication/group_replication.go:92-125 | Which error each caller gets, told from the calls: no group, no right, no record, another key, in that order |
| `Groups.CheckMemberIs` | internal/replication/group_replication.go:244-258 | The same for the shorter check of the content query |
| `Groups.ContentQueryIsLastContent` | internal/replication/group_replication.go:244-276 | After any run the content query returns exactly the last metadata of each tag of the group, each once |
| `Groups.GroupQueryIsJoinedGroups` | internal/replication/group_replication.go:171-201 | After any run the group query returns exactly the groups whose last record for the user holds the key, each once |
| `Adder.AdderState.AddAll` | internal/ipfs/adder.go:199-269 | On any valid input a fresh adder returns the isomorphic tree, from which the input can be read back, a single leaf as its own node, with a flush for every cache filled before the last node, and reports the leaves and then the directories; an input with a node of unknown type fails |
| `Adder.InputOfConvert` | internal/ipfs/adder.go:199-269 | Nothing is lost: every name, every content and every link target of a valid input can be read back from its tree |
| `AdderEvents.EventsCountNodes` | internal/ipfs/adder.go:271-298 | There are as many events as nodes counted: a leaf for each event of the first pass, a directory for each of the second |
| `AdderEvents.SingleLeafEvent` | internal/ipfs/adder.go:162-168 | A file or symlink added on its own is reported under the CID of its own node |
| `Adder.AdderState.AddFileNode` | internal/ipfs/adder.go:271-298 | Inserting by path string into a free place appends the converted subtree there and nowhere else |
| `Adder.AdderState.AddDir` | internal/ipfs/adder.go:341-369 | A directory is made and filled, or filled in place when it is the root |
| `Adder.AdderState.AddNode` | internal/ipfs/adder.go:162-196 | A leaf lands under its own path and is reported once unless silent; on failure nothing is reported |
| `Adder.AdderState.OutputDirs` | internal/ipfs/adder.go:127-160 | The second pass reports the directories below a path, each after its contents |
| `Adder.FullCachesClosed` | internal/ipfs/adder.go:272-284 | The caches filled before the last of n nodes number floor((n-1)/cache size) |
| `Adder.FlushCount` | internal/ipfs/adder.go:272-284 | The counter that flushes when the cache is full has flushed floor((n-1)/cache size) times after n nodes |
| `AdderEvents.EveryNodeReportedOnce` | internal/ipfs/adder.go:127-160 | The events of the two passes are exactly one for every node of the tree, under the node's own path |
| `AdderEvents.LeafEventIff` | internal/ipfs/adder.go:271-298 | The first pass reports exactly the leaves, each under the path of its node in the finished tree |
| `AdderEvents.DirectoriesArePostOrder` | internal/ipfs/adder.go:127-160 | The second pass reports directories only, in post-order with the root last |
| `Mfs.FillAppended` | internal/ipfs/adder.go:341-369 | Making an empty directory and then filling it gives the same tree as adding the full directory at once |
| `Mfs.PutNodeByString` | internal/ipfs/adder.go:162-190 | Storing under a joined path string is storing by path elements |
| `Mfs.PutTaken` | internal/ipfs/adder.go:176-190 | Inserting under a name that is taken, or into a directory that is not there, fails |
| `Progress.ProgressReader.Read` | internal/ipfs/adder.go:407-428 | Any sequence of reads leaves the specified reader: bytes, last report and events |
| `Progress.ProgressIsFaithful` | internal/ipfs/adder.go:407-428 | Less than one increment is unreported after each read, event values never go down, and each event short of the end stands for a full increment |
| `Progress.EofEventIsExact` | internal/ipfs/adder.go:417-425 | An event at the end of the input carries the exact total |
| `Progress.EventsAreTold` | internal/ipfs/adder.go:407-428 | Every event names the path and carries the bytes read up to the call that sent it |
| `AutoDisconnect.WatcherActsOnlyInAgreement` | mobile/datahop.go:397-452 | Over all interleavings and deliveries, the watcher touches hotspot or link only if every text the sender had recorded at its snapshot tests positive here, and every text recorded here tests positive at the sender now |
| `AutoDisconnect.ReachedIsHonest` | mobile/datahop.go:366-396 | In every reachable state each prepared and each published message holds its sender's global filter of the moment of its snapshot |
| `AutoDisconnect.MatchMeansAgreement` | mobile/datahop.go:414-418 | Whenever an honest snapshot equals the own filter, the sender's texts of that moment test positive here and the own texts test positive at the sender now |
| `AutoDisconnect.MatchIsAnswered` | mobile/datahop.go:414-448 | On a match the watcher sends its own state as it is now and lets go as a matching state demands; on any other message it does nothing |
| `AutoDisconnect.PublishedIsCoveredIff` | mobile/datahop.go:366-396 | On a match, the texts the sender had recorded when it published are covered if and only if its filter had not changed since the snapshot ten seconds before |
| `AutoDisconnect.PublishedMayBeUncovered` | mobile/datahop.go:366-396 | A reachable state, for every hash, in which a device drops its link although a tag its sender had recorded before publishing is missing |
| `AutoDisconnect.SettledDevicesMatchIff` | mobile/datahop.go:416-418 | Once two devices have settled on the same plain content, along with any group content, the next message of either matches at the other if and only if the own group tags of each test positive there |
| `AutoDisconnect.SettledDevicesMatch` | mobile/datahop.go:416-418 | Without group content it always matches, both ways |
| `AutoDisconnect.Watch` | mobile/datahop.go:397-452 | One turn of the watcher acts and publishes exactly if the message is another node's and equals the own filter |
| `Discovery.DiscoveryService.AddAdvertisingInfo` | mobile/discovery.go:120-128 | Both drivers are told exactly if the value differs from the cached one |
| `Discovery.DiscoveryService.DiscoveryPeerDifferentStatus` | mobile/discovery.go:185-195 | A peer that is found is recorded and connected to unless there is a link |
| `Discovery.DiscoveryService.AdvertiserPeerDifferentStatus` | mobile/discovery.go:203-219 | A peer that asks and is not linked is recorded; the hotspot is started exactly if the device is no host, which meets the driver's demand never to be started twice |
| `Discovery.DiscoveryService.OnConnectionSuccess` | mobile/discovery.go:221-227 | The Wifi data of the host are recorded and the link is believed up |
| `Discovery.DiscoveryService.OnConnectionFailure` | mobile/discovery.go:229-235 | The link is taken down and believed down |
| `Discovery.DiscoveryService.CloseAll` | mobile/discovery.go:144-154 | Hotspot and link are stopped and the device is no host; `connected` stays as it was |
| `Discovery.DiscoveryService.OnSameState` | mobile/datahop.go:436-447 | The link goes if the device is no host, then the hotspot if it is one with fewer than two peers |
| `Discovery.HotspotRunsIffHost` | mobile/discovery.go:203-219 | On every run the hotspot runs exactly while the device is a host, and is never started twice in a row |
| `Discovery.HotspotFollowsEvents` | mobile/discovery.go:203-219 | Told from the events: the hotspot runs if and only if an unlinked peer asked after the last close or releasing match, and it was given exactly the commands this takes |
| `Discovery.UnlinkedPeerGetsHotspot` | mobile/discovery.go:203-219 | After an unlinked peer has asked the hotspot runs, started just then if and only if it did not run before |
| `Discovery.WifiFollowsEvents` | mobile/discovery.go:185-235 | Told from the events: the wifi driver is told to connect to each found peer with its own network and password exactly if there is no link, and to disconnect on a failure, a close, or a match of a linked device that is no host |
| `Discovery.LedgerFollowsEvents` | mobile/discovery.go:185-227 | The connection ledger holds exactly the discoveries and connections that the handlers report, with their data |
| `Discovery.DriversKnowLastAsked` | mobile/discovery.go:120-128 | On every run drivers and cache hold for each topic what was last asked for, although unchanged values are not sent |
| `Discovery.EveryAdvertIsNews` | mobile/discovery.go:123-127 | Nothing is sent that the drivers already know |
| `Discovery.ConnectedIffReported` | mobile/discovery.go:185-240 | The device believes in its link exactly if the last event that concerns the link said so |
| `Discovery.ClosedStaysConnected` | mobile/discovery.go:144-154 | A closed device is connected if and only if it was; then it ignores every peer it finds until the driver reports the end of the link, otherwise it connects to each |
| `Discovery.MatchReleasesIff` | mobile/datahop.go:436-447 | After any run, one match stops hotspot and link if and only if the hotspot has not two peers to serve or a link beside it; a second match does the rest if there are fewer than two peers |
| `Walk.Descendants` | internal/ipfs/util.go:102-130 | For every link graph, cycles included, and every schedule of the workers, the walk ends; it succeeds exactly if all reachable nodes are valid and available, and then with exactly the nodes reachable from the roots |
| `Walk.DeleteFile` | internal/ipfs/ipfs.go:591-629 | When deletion succeeds, exactly the root and its direct links are gone; not found and failed walks remove nothing |
| `Walk.RootLinksReach` | internal/ipfs/ipfs.go:602-608 | With the closure as written, which asks for the root's links whatever node it is given, the walk reaches the root and its direct links only |
| `Walk.CollectsWholeDagIff` | internal/ipfs/ipfs.go:602-608 | The deleted set is the whole DAG below the root if and only if no direct link leads further |
| `Walk.GrandchildSurvives` | internal/ipfs/ipfs.go:591-629 | A chain of three blocks whose last block survives the deletion |
| `Download.Fetch` | internal/ipfs/ipfs.go:555-587 | Reading to the end succeeds exactly if the root is found and no byte is missing, and has then read the whole file, whatever the sizes of the reads |
| `Keeper.MatrixKeeper.NodeConnected` | internal/matrix/matrix.go:232-253 | The peer's record moves on by one connect, all other records stay |
| `Keeper.MatrixKeeper.NodeDisconnected` | internal/matrix/matrix.go:278-305 | The peer's record moves on by one disconnect, with its two clock readings |
| `Keeper.MatrixKeeper.ContentAddProvider` | internal/matrix/matrix.go:345-359 | A provider is appended exactly if it is not listed yet |
| `Keeper.PeersAreIndependent` | internal/matrix/matrix.go:192-305 | Each peer's record is the run of its own events, so the laws of one ledger hold for each |
| `Ledger.AliveIffStamped` | internal/matrix/matrix.go:232-305 | A peer is alive exactly between a connect and the next disconnect, and exactly if its connect stamp is nonzero |
| `Ledger.BalancedIffAlternating` | internal/matrix/matrix.go:232-305 | Successes are the history's length plus one when alive, at every moment of a run, if and only if connects and disconnects alternate |
| `Ledger.CountsEvents` | internal/matrix/matrix.go:232-305 | In any run successes count the connects and the history the disconnects |
| `Ledger.RecordIsTold` | internal/matrix/matrix.go:192-305 | In any run every field of a peer's record is what the events tell: the counts, the stamps with their Wifi data, what each connection in the history carries, its duration, and every delay as the time from discovery to connect |
| `Ledger.ConnectionsAreDisjointIff` | internal/matrix/matrix.go:278-305 | The history's intervals are ordered and disjoint if and only if no disconnect comes without a connection; a second connect does no harm |
| `Ledger.StampsAreInGaps` | internal/matrix/matrix.go:278-305 | Then each BLE and Wifi stamp is 0 or between the previous disconnect and its own connect |
| `Ledger.DelaysArePositive` | internal/matrix/matrix.go:246-252 | Every discovery delay is at least 1, even without alternation |
| `Ledger.DoubleDisconnectBreaksIntervals` | internal/matrix/matrix.go:278-305 | Two disconnects in a row record an interval that starts at 0 |
| `Keeper.MatrixKeeper.Flush` | internal/matrix/matrix.go:130-153 | A flush that stops after its first write leaves the new node image beside the old content image |
| `Keeper.RestartFinds` | internal/matrix/matrix.go:74-102 | After any history of flushes, some cut short, loading gives the last node matrix written with the content matrix of the last completed flush, or both empty if none completed |
| `Keeper.UptimeIsThirtyPerTick` | internal/matrix/matrix.go:105-120 | Total uptime is 30 per tick counted up to the image it came from, across restarts |
| `Keeper.PeerIsLedgerOfSurvivors` | internal/matrix/matrix.go:74-153 | After any history of flushes, crashes and restarts each peer's record is the ledger of exactly the events that survived |
| `Keeper.HistoriesSurviveCrashes` | internal/matrix/matrix.go:74-153 | If each process ends its own connections only, the intervals stay disjoint with stamps in the gaps over any such history, crashes while connected included |
| `Keeper.FirstReconnectIsBalancedIff` | internal/matrix/matrix.go:74-153 | After a crash the first connect keeps the account of successes balanced if and only if no image was saved while connected |
| `ContentMatrix.ProvidersAreDistinct` | internal/matrix/matrix.go:345-359 | A provider is listed once per hash, in the order of first addition |
| `Text.SplitUndoesJoinIff` | cli/datahop.go:116-116 | For a separator without self-overlap, splitting undoes joining if and only if the list is not empty and no element contains the separator |
| `Framing.DaemonSeesArgumentsIff` | cli/datahop.go:160-169 | The daemon sees the client's arguments if and only if there are some, they are not one empty argument, and none contains the separator |
| `Framing.ShortArgumentsArrive` | cli/datahop.go:160-169 | Arguments shorter than the separator's six characters always arrive |
| `Framing.TwoArgumentsOnTheWire` | cli/datahop.go:22-24 | The separator stands between two arguments on the wire, whatever they are |
| `Framing.MessagesAreUnambiguous` | cli/datahop.go:116-116 | Different argument lists without the separator never share a message |
| `Framing.ParsedCommandResends` | cli/datahop.go:169-169 | Sending what the daemon parsed gives the same message again, whatever arrived |
| `FreshName.FindFreshName` | cli/cmd/get.go:59-78 | The search ends within one more probe than there are files, at the least count whose path is free; for a name without directory part that path is the one created |
| `FreshName.CandidateIs` | cli/cmd/get.go:60-74 | The path tried for a count has an underscore and the count before the last dot of its last element |
| `FreshName.PlainCandidateIs` | cli/cmd/get.go:60-74 | Count 0 is the name itself, and without a dot the count goes to the end |
| `FreshName.DecimalIs` | cli/cmd/get.go:69-71 | The count is written in decimal digits without leading zeros |
| `FreshName.NumberedDiffer` | cli/cmd/get.go:66-74 | Candidates of different counts differ, because decimal texts do |
| `FreshName.CreatedIsProbedIff` | cli/cmd/get.go:75-97 | For every stored name, empty and all-slash ones included, the exact condition under which the created path is the probed one |
| `FreshName.DirectoryPartOverwrites` | cli/cmd/get.go:75-97 | With a directory part, the probed path can be free while the created one exists |

## Left out

- Discovery.DiscoveryService.DiscoveryPeerDifferentStatus: the drivers are the commands given to them; what they do on `Stop`, and the notifee list, are not modelled.
- Progress.ProgressIsFaithful: `atEof` marks in the model which test fired; the original event carries no such mark.
- Download.Fetch: the DAG reader is its results, honest about its bytes; a reader that returns empty reads forever is not modelled.
- FreshName.FindFreshName: the existing files are a fixed set for the length of the search; paths use `/`.
- Keeper.MatrixKeeper.NodeDisconnected: demands a known address, as the original dereferences its record without a check.
- ContentMatrix: average speeds are over reals, not 32-bit floats, and stamps are unbounded integers.
- Adder.AdderState.AddAll: `Sync`, pinning, position information, chunking, DAG layout and errors of the block store are not modelled; a flush only counts, since it does not change the tree. Failures are those of the tree operations.
- Adder.AdderState.AddFileNode: a flush is a counter; what `FlushMemFree` does to the cached tree is the library's, taken to leave the tree as it is.
- Adder.AdderState.AddAll: `out` holds the events of the nodes; the progress events that reading a file sends on the same channel (internal/ipfs/adder.go:319-339) are in `Progress`, and how the two interleave is not modelled.
- Manager.ReplicationManager.StartUnfinishedDownload: the loop is one step, although other steps can fall between its sends in the original.
- Manager.ReplicationManager.Put: a write and its hook are one step, and hooks run one at a time.
- StateKeeping.FsRepo.SetState: a crash between truncating and rewriting a state file, and errors of the file system, are not modelled.
- Keys: keys are clean paths; `path.Clean` inside `datastore.NewKey` is not modelled, so identifiers and tags that need cleaning, and plain tags that begin with a reserved prefix, are excluded where it matters.
- Replication.Metatag: the `Links` field, which no modelled code reads.
- Replication.Enabled: a key in a reserved family with too few elements makes the original hook index out of range; such keys are excluded.
- GroupApi.CreateGroup: the group identifier, a hash of name and time in the original, is a parameter; runs of calls have distinct ones.
- JSON encodings are taken to be faithful; a document of the other kind decodes with the fields the two share.
- AutoDisconnect: the locking of the watcher and publisher loops, and the marshalling error that leaves a lock held; each handler is one step.
- The replicated store's own protocol (priorities, tombstones, broadcast): it appears as a map with hooks.
- libp2p, DHT, bitswap, pubsub, zeroconf, relay and bootstrap code: network plumbing.
- The gateway, most commands of the command line, output formatting, generated code, and the thin mobile wrappers.
- The encryption package and the formatting of swarm keys: the hard part is in cryptography outside the repository.
- Configuration, key generation, lock files and opening the database.
- `RegisterNotifee` and `UnregisterNotifee` keep a list that nothing reads; the start methods of the discovery service pass the tag and the identifier on to the drivers.
- `Index`, `GetAllTags` and `GetAllCids` list the whole store without a filter; they change nothing.
