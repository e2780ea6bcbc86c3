# ObjectLink core: a model and its proofs

ObjectLink links local *sinks* on client nodes to remote *sources* behind remote nodes, over a message
channel. This project models the C++ core: the id storage, the two registries, the two node classes,
the message protocol and member names, and the example calculator as a replicated service.
To check the whole project, run `dafny verify dfyconfig.toml` with Dafny 4.11.

## How the model is built

- **Tables and classes.** What changes in place in C++ is a Dafny class with the same fields, and each of
  its methods is proved equal to a function on values. The functions live in `Storage`, `ClientTable`,
  `RemoteTable`, `Invocations` and `Calc`; the laws about them are lemmas in those modules.
- **Runs.** `StorageRuns`, `LinkAgreement` (with `NotifiedNodes` and `Takeovers`), `InvokeCorrelation`
  (with `LateReplies`), `CalcReplication`, `RacingLinkers` and `LockOrder` are state machines whose steps are those same functions.
  Their main results hold in every reachable state of every run, for any number of nodes, objects, calls or
  threads.
- **Liveness.** A weak pointer is the identity of its target. Which targets are still owned is a parameter
  (`live`) of every operation that looks, so each result covers every way in which objects can expire.
- **Order of effects.** A node's calls to the outside (write function, sinks, sources, callbacks) are recorded
  in order, each with the registry and the pending calls as the callee finds them. So the contracts say, for
  example, that a callback is stored before its request goes out and gone before it runs, and that a source is
  told of an unlink while the node is still in its list.
- **Order of iteration.** `std::map` is visited in the order of its keys (`KeyOrder`); the hash map of the storage is
  visited in an arbitrary order, and the answers are proved not to depend on it.
- **Integers.** Request ids wrap at 2^32, ids of messages pass through `int` and back, and JSON integers are
  cut to the C++ types as `get<int>()` and `get<unsigned int>()` do. The storage's counter cannot overflow
  because `maxCount` is at most 0xFFFFFFFF, the default; with more slots an issued id could equal the invalid
  id (`Storage.IssuedIdsAreNeverInvalid` gives the exact bound).

The storage's proof rests on one idea: an unbounded *sweep position*, of which the real counter is the
remainder modulo `maxCount` and the overflow flag the comparison with it. The counter mode before the
overflow and the cyclic search after it are then the same operation, "the first free id at or after the
position", and the history of all issued ids is one sweep.

## Where code and documentation differ

The model follows the code.

- `UniqueIdObjectStorage::add` promises to return the old id of a stored object; it tests for fullness first,
  so at full capacity it answers the invalid id. `Storage.ReAddReturnsItsId` says exactly when;
  `Storage.ReAddAtCapacityIsRefused` is a storage of one slot.
- `RemoteRegistry::addNodeForSource` is documented to add the node even without a source; without an entry
  it adds nothing (`RemoteTable.AddNodeAddsOnePair`).
- `RemoteRegistry::addSource` leaves an entry whose source expired as it is, so a new source cannot be
  registered until `removeSource` is called (`RemoteTable.AddSourceNeedsAFreeName`, and the case itself in
  `RemoteTable.ExpiredSourceBlocksItsName`); `ClientRegistry::addSink`
  does replace an expired sink (`ClientTable.AddSinkFillsTheName`).
- `ClientRegistry::setNode` says "NOT added" for a node that is gone, and stores the id all the same.
- A request id is called unique; ids repeat after 2^32 calls, and the call made 2^32 calls before is then
  overwritten if it still waits (`InvokeCorrelation.OverwritesExactlyTheCallBefore`, with a run in
  `LateReplies.OverwriteIsReachable`). A late reply then ends the last call made with its id, if that waits
  (`LateReplies.WhereRepliesGo`, with a run in `LateReplies.LateReplyReachesAnotherCall`).
- A second client node that links an object takes it over without an Unlink on the first connection, so the
  server keeps notifying both (`Takeovers.TakeoverKeepsTheFirstLinked`, with a run in
  `Takeovers.TakeoverNotifiesBoth`). `LinkAgreement.ServerFollowsLastRequest` is exact about what the server sees.
- Messages of a node without a write function are dropped, but `linkRemote` assigns the object all the same:
  the server never links it (`Takeovers.LinkWithoutWriterIsNeverLinked`).
- A node created while the storage is full has the invalid id, which also marks unassigned objects. Its
  destructor then unlinks all of those (`ClientNodes.ClientNode.Destroy` covers this id too, and
  `ClientNodes.NodeWithoutIdReleasesStrangers` is the case itself), and on the server
  it is never added to a source.
- The calculator source remembers one node only: a replica follows it while its connection is the one that
  linked last, and freezes as another one links (`CalcReplication.EveryReplicaEndsWhereTheHistorySays`, with a
  run in `CalcReplication.SupersededReplicaDiverges`). Any unlink, of whichever connection, makes it forget its
  node, and the next notification stops it. The destructor of a remote node does not tell the source, which goes
  on to notify the destroyed node (`CalcReplication.SourceStopsExactlyWithoutNode` is exact about both, with runs
  in `CalcReplication.UnlinkOfOneStopsTheSourceForAll` and `CalcReplication.CloseStopsTheSource`).
- A destructor and `unlinkRemote` unset an object whoever owns it, so a link that is complete can be lost to
  another node's destructor (`RacingLinkers.EndsUnsetIffNoSetFollows`, with the case in
  `RacingLinkers.DestructorLosesALink`).

## Model

| member | source | states |
|---|---|---|
| Types.SignedTransportKeepsUint | src/olink/clientnode.cpp:162 | an unsigned 32-bit value sent as `int` and cast back is unchanged |
| Types.CastsWrap | src/olink/core/protocol.cpp:95 | the casts to `unsigned int` and `int` change a value by a multiple of 2^32 only |
| KeyOrder.BelowIsLexicographic | src/olink/clientregistry.cpp:104-115 | the order of the map keys is the lexicographic one of `std::string` |
| Storage.SweepMeets | src/olink/core/uniqueidobjectstorage.h:139-146 | any `n` consecutive counter values name every id below `n` |
| Storage.SameIdIsSweepApart | src/olink/core/uniqueidobjectstorage.h:126-153 | two sweep positions with the same id are at least `n` apart |
| Storage.NextId | src/olink/core/uniqueidobjectstorage.h:148-151 | incrementing and wrapping the counter is moving to the next sweep position |
| Storage.IdAtIsMod | src/olink/core/uniqueidobjectstorage.h:126-153 | the id of a position is its remainder modulo `maxCount` |
| Storage.Pigeonhole | src/olink/core/uniqueidobjectstorage.h:139-146 | a whole sweep over occupied ids needs `maxCount` entries |
| Storage.ScanHasNotComeRound | src/olink/core/uniqueidobjectstorage.h:141-145 | with room left the search never comes back to its start, so the give-up return is dead |
| Storage.Scan | src/olink/core/uniqueidobjectstorage.h:138-146 | the search passes over occupied ids only and stops at the first free one |
| Storage.ScanFinds | src/olink/core/uniqueidobjectstorage.h:138-147 | a storage that is not full yields a free id within one sweep |
| Storage.NeverOverfull | src/olink/core/uniqueidobjectstorage.h:45-48 | no reachable storage holds more than `maxCount` entries |
| Storage.AddRefusesIffFull | src/olink/core/uniqueidobjectstorage.h:38-62 | `add` returns the invalid id exactly for dead objects and when all `maxCount` entries are of live objects, and then changes nothing |
| Storage.AddPurgesIffFull | src/olink/core/uniqueidobjectstorage.h:45-48 | `add` erases the expired entries iff all slots are taken |
| Storage.PurgingKeepsExactlyTheLive | src/olink/core/uniqueidobjectstorage.h:110-120 | a purge leaves exactly the entries of live objects |
| Storage.RemoveFreesOneId | src/olink/core/uniqueidobjectstorage.h:68-72 | `remove` erases one entry and no other |
| Storage.GetFindsTheLive | src/olink/core/uniqueidobjectstorage.h:79-88 | `get` yields exactly the object stored under the id, as long as it lives |
| Storage.AddKeepsWellFormed | src/olink/core/uniqueidobjectstorage.h:50-61 | `add` keeps one id per object and ids below `maxCount` |
| Storage.AllocationIsFresh | src/olink/core/uniqueidobjectstorage.h:58-61 | a new id was free, is the first free one of the sweep, and is the only entry written |
| Storage.CounterModeNeedsNoScan | src/olink/core/uniqueidobjectstorage.h:128-136 | before the overflow the unchecked counter is what the search would find |
| Storage.AddKeepsLiveEntries | src/olink/core/uniqueidobjectstorage.h:38-62 | every live entry survives an `add` and its purge; the added object is found under its id |
| Storage.ReAddReturnsItsId | src/olink/core/uniqueidobjectstorage.h:45-56 | a stored object gets its own id back iff not all `maxCount` entries are of live objects |
| Storage.ReAddAtCapacityIsRefused | src/olink/core/uniqueidobjectstorage.h:45-48 | a storage of one slot answers the invalid id for the object it holds |
| Storage.IssuedIdsAreNeverInvalid | src/olink/core/uniqueidobjectstorage.h:126-158 | the search can return the invalid id for some contents and start iff `maxCount > 0xFFFFFFFF` |
| UniqueIdObjectStorages.UniqueIdObjectStorage.Add | src/olink/core/uniqueidobjectstorage.h:38-62 | the class method computes the value-level `add`, keeping counter and flag in step with the sweep |
| UniqueIdObjectStorages.UniqueIdObjectStorage.FindId | src/olink/core/uniqueidobjectstorage.h:50-56 | the lookup in any hash order finds the object's only id, or none |
| UniqueIdObjectStorages.UniqueIdObjectStorage.GetUniqueId | src/olink/core/uniqueidobjectstorage.h:126-153 | returns the first free id of the sweep in both modes |
| UniqueIdObjectStorages.UniqueIdObjectStorage.SearchUnusedId | src/olink/core/uniqueidobjectstorage.h:138-152 | the search loop ends within `maxCount` steps and never reaches a give-up return |
| UniqueIdObjectStorages.UniqueIdObjectStorage.PurgeExpired | src/olink/core/uniqueidobjectstorage.h:110-120 | erasing while iterating removes exactly the expired entries |
| UniqueIdObjectStorages.UniqueIdObjectStorage.Remove | src/olink/core/uniqueidobjectstorage.h:68-72 | removes one id |
| UniqueIdObjectStorages.UniqueIdObjectStorage.Get | src/olink/core/uniqueidobjectstorage.h:79-88 | the live object stored under an id, or none |
| StorageRuns.IssuesAreASweep | src/olink/core/uniqueidobjectstorage.h:126-153 | over every run each issue takes the first free position after the previous issue; the first `n` positions are issued without gaps |
| StorageRuns.IdReuseIsAFullSweep | src/olink/core/uniqueidobjectstorage.h:137-152 | between two issues of one id every other id was issued or seen occupied |
| StorageRuns.FirstSweepIsDistinct | src/olink/core/uniqueidobjectstorage.h:128-136 | the first `maxCount` issued ids are pairwise distinct across all adds and removes |
| StorageRuns.StoredUntilRemoved | src/olink/core/uniqueidobjectstorage.h:38-88 | `get(add(o))` is `o` after any calls that do not remove its id while it lives |
| Names.MemberIdIffOneSlash | src/olink/core/types.cpp:31-34 | `isMemberId` holds iff the string has exactly one slash |
| Names.JoinInvertsSplit | src/olink/core/types.cpp:17-39 | joining the parts of a member id gives it back |
| Names.OtherIdsHaveNoMember | src/olink/core/types.cpp:17-29 | a string without a slash is an object id as it is, and only member ids have a member name |
| Names.SplitGivesObject | src/olink/core/types.cpp:17-20 | splitting a joined id gives the object iff the object has no slash, for every member part |
| Names.SplitGivesMember | src/olink/core/types.cpp:22-29 | it gives the member iff both parts are slash-free or the member is empty |
| Protocol.DispatchIsExact | src/olink/core/protocol.cpp:77-185 | a handler runs with some arguments iff the message has that call's documented layout |
| Protocol.LayoutsAreDisjoint | src/olink/core/protocol.cpp:96-177 | one message fits one call at most |
| Protocol.MessagesStartWithTheirNumber | src/olink/core/types.h:19-30 | the type numbers on the wire |
| Protocol.RefusalsAreExact | src/olink/core/protocol.cpp:77-185 | each refusal has its reason: no array, empty, type no integer, unknown type, too short, or the first field of the wrong kind |
| Protocol.RequestIdsAreCut | src/olink/core/protocol.cpp:134-154 | a floating point request id is cut to the integer below it, an integer to 32 bits |
| Protocol.RoundTrip | src/olink/core/protocol.cpp:13-75 | each builder's message triggers its own handler with the original arguments |
| Protocol.EncodeIsInjective | src/olink/core/protocol.cpp:13-75 | distinct calls have distinct messages |
| Protocol.TrailingElementsAreIgnored | src/olink/core/protocol.cpp:77-185 | appended elements change only the outcome of messages that were too short |
| Protocol.ErrorKeepsRequestId | src/olink/core/protocol.cpp:70-75 | every 32-bit request id survives the signed field of an Error message |
| Protocol.ProtocolHandler.HandleMessage | src/olink/core/protocol.cpp:77-185 | true means exactly one handler call and no error, false none and an error |
| ClientTable.UnsetEachAt | src/olink/clientregistry.cpp:41-50 | unsetting a list of objects affects exactly those |
| ClientTable.UnsettingTheOwnedReleases | src/olink/clientnode.cpp:76-84 | unsetting a snapshot of a node's objects one by one releases exactly that node |
| ClientTable.ReleaseFreesExactlyTheNode | src/olink/clientregistry.cpp:137-150 | unregistering leaves no entry with the id, and other nodes' objects and all sinks as they were |
| ClientTable.SetNodeNeverTakesOver | src/olink/clientregistry.cpp:25-38 | `setNode` fills an unset entry only |
| ClientTable.GetFindsTheLiveSink | src/olink/clientregistry.cpp:95-102 | exactly the sink of the entry, as long as it lives |
| ClientTable.RemoveSinkErasesOneEntry | src/olink/clientregistry.cpp:82-93 | the object loses sink and node, other entries stay |
| ClientTable.AddSinkFillsTheName | src/olink/clientregistry.cpp:52-80 | a live sink gets a free or expired name, never a live sink's, and no node assignment changes |
| ClientTable.AddSinkMayRefuse | src/olink/clientregistry.cpp:54-59 | an expired sink, or one whose name a live sink has, changes nothing |
| ClientTable.LinkTakesOver | src/olink/clientnode.cpp:35-36 | unset then set gives the object to the linking node and touches no other object |
| ClientRegistries.ClientRegistry.SetNode | src/olink/clientregistry.cpp:13-39 | the three branches on the entry |
| ClientRegistries.ClientRegistry.UnsetNode | src/olink/clientregistry.cpp:41-50 | resets the node id of an existing entry |
| ClientRegistries.ClientRegistry.AddSink | src/olink/clientregistry.cpp:52-80 | new entry, replacement of an expired sink, or no change |
| ClientRegistries.ClientRegistry.RemoveSink | src/olink/clientregistry.cpp:82-93 | erases the entry |
| ClientRegistries.ClientRegistry.GetSink | src/olink/clientregistry.cpp:95-102 | the live sink of an object, or none |
| ClientRegistries.ClientRegistry.GetObjectIds | src/olink/clientregistry.cpp:104-115 | exactly the node's objects, in key order |
| ClientRegistries.ClientRegistry.GetNode | src/olink/clientregistry.cpp:117-124 | the live node an object is assigned to, or none |
| ClientRegistries.ClientRegistry.RegisterNode | src/olink/clientregistry.cpp:126-135 | the storage's `add` |
| ClientRegistries.ClientRegistry.UnregisterNode | src/olink/clientregistry.cpp:137-150 | releases the node's entries, then frees its id; nothing for the invalid id |
| RemoteTable.EraseFirstDeletes | src/olink/remoteregistry.cpp:134-139 | erasing the first match of a duplicate-free list deletes the id and nothing else |
| RemoteTable.AddNodeAddsOnePair | src/olink/remoteregistry.cpp:112-123 | adds one pair to the relation, if the object has an entry, and keeps lists duplicate-free |
| RemoteTable.RemoveNodeRemovesOnePair | src/olink/remoteregistry.cpp:126-141 | removes one pair |
| RemoteTable.ReleaseRemovesOneNode | src/olink/remoteregistry.cpp:165-181 | unregistering removes exactly one node's pairs |
| RemoteTable.RemoveSourceRemovesOneObject | src/olink/remoteregistry.cpp:143-152 | removing a source removes exactly one object's pairs |
| RemoteTable.AddSourceAddsNoPair | src/olink/remoteregistry.cpp:27-30 | a new entry has no nodes |
| RemoteTable.GetFindsTheLiveSource | src/olink/remoteregistry.cpp:48-56 | exactly the source of the entry, as long as it lives |
| RemoteTable.AddSourceNeedsAFreeName | src/olink/remoteregistry.cpp:25-38 | a live source is registered iff the name has no entry or is already its own |
| RemoteTable.AddSourceMayRefuse | src/olink/remoteregistry.cpp:12-38 | an expired source, or one whose name has an entry, changes nothing |
| RemoteTable.ExpiredSourceBlocksItsName | src/olink/remoteregistry.cpp:25-38 | a new source is refused while an expired one has the name, and accepted after `removeSource` |
| RemoteTable.ReverseViewAgrees | src/olink/remoteregistry.cpp:80-97 | an object is listed for a node iff the node is in its list |
| RemoteTable.NodesAreInLinkOrder | src/olink/remoteregistry.cpp:99-141 | after any operations a node list holds exactly the current links, in the order they started |
| RemoteRegistries.LiveNodesAreTheLive | src/olink/remoteregistry.cpp:63-75 | `getNodes` skips exactly the ids that are free or whose node expired, and keeps the order |
| RemoteRegistries.AddNodeNeedsALiveNode | src/olink/remoteregistry.cpp:99-124 | the pair is added exactly if the node is stored and lives and the object has an entry |
| RemoteRegistries.RemoteRegistry.AddSource | src/olink/remoteregistry.cpp:12-39 | adds an entry for a new name only |
| RemoteRegistries.RemoteRegistry.RemoveSource | src/olink/remoteregistry.cpp:41-46 | erases the entry with its nodes |
| RemoteRegistries.RemoteRegistry.GetSource | src/olink/remoteregistry.cpp:48-56 | the live source of an object, or none |
| RemoteRegistries.RemoteRegistry.GetNodes | src/olink/remoteregistry.cpp:58-78 | the live nodes of an object in list order |
| RemoteRegistries.RemoteRegistry.GetObjectIds | src/olink/remoteregistry.cpp:80-97 | exactly the node's objects, in key order |
| RemoteRegistries.RemoteRegistry.AddNodeForSource | src/olink/remoteregistry.cpp:99-124 | adds the pair if node and entry are there, keeping lists duplicate-free |
| RemoteRegistries.RemoteRegistry.RemoveNodeFromSource | src/olink/remoteregistry.cpp:126-141 | removes the pair |
| RemoteRegistries.RemoteRegistry.RegisterNode | src/olink/remoteregistry.cpp:154-163 | the storage's `add` |
| RemoteRegistries.RemoteRegistry.UnregisterNode | src/olink/remoteregistry.cpp:165-181 | removes the node from every list, then frees its id; nothing for the invalid id |
| Invocations.UnknownIdsChangeNothing | src/olink/clientnode.cpp:123-138 | unknown or repeated ids leave the table and run nothing |
| Invocations.RepliesEndTheirCall | src/olink/clientnode.cpp:119-139 | a reply leaves the other calls waiting and runs a non-empty callback with method and value |
| Invocations.ErrorsEndInvocationsOnly | src/olink/clientnode.cpp:154-174 | an error about an Invoke or InvokeReply message ends that call with an empty answer; errors about the other seven end nothing |
| Invocations.ErrorsAboutNoMessageEndNothing | src/olink/clientnode.cpp:160 | neither do errors with any other type number than 30 and 31 |
| Invocations.ErrorResolvesItsCall | src/olink/clientnode.cpp:154-174 | an Error message for any 32-bit id ends exactly that call, for invocation errors only |
| ClientNodes.MemberMessagesReachTheirSink | src/olink/clientnode.cpp:105-152 | property changes and signals built for a slash-free object reach its sink and no other |
| ClientNodes.ServerMessagesCallTheSink | src/olink/clientnode.cpp:91-152 | Init, PropertyChange and Signal messages each make exactly one call, of the object's live sink, of their kind, with their id and payload |
| ClientNodes.OnlyRegisteredSinksAreCalled | src/olink/clientnode.cpp:91-152 | without a live sink, and for other messages, no sink is called |
| ClientNodes.ReleaseComesFirst | src/olink/clientnode.cpp:43-47 | an unlink releases a live sink before its message goes out |
| ClientNodes.ClientNode.constructor | src/olink/clientnode.cpp:23-28 | the node takes the id the registry gives it |
| ClientNodes.ClientNode.LinkRemote | src/olink/clientnode.cpp:30-37 | sends Link while the old assignment stands, then takes the object over |
| ClientNodes.ClientNode.UnlinkRemote | src/olink/clientnode.cpp:39-49 | releases a live sink, then sends Unlink, then unsets the object whoever owns it |
| ClientNodes.ClientNode.InvokeRemote | src/olink/clientnode.cpp:51-61 | stores the callback under the next id before it sends that id |
| ClientNodes.ClientNode.SetRemoteProperty | src/olink/clientnode.cpp:63-69 | sends the property request |
| ClientNodes.OneUnlinkPerObject | src/olink/clientnode.cpp:78-82 | the destructor's effects hold exactly one Unlink per object of its list, in list order; none without a write function |
| ClientNodes.EachOwnedSinkIsReleasedOnce | src/olink/clientnode.cpp:39-84 | with or without a write function the destructor releases each live sink of its objects exactly once, in key order, each finding its own object still assigned and the earlier ones unset |
| ClientNodes.NodeWithoutIdReleasesStrangers | src/olink/clientnode.cpp:76-84 | a node refused by a full storage releases and unlinks an object no node linked |
| ClientNodes.ClientNode.Destroy | src/olink/clientnode.cpp:76-84 | the owned objects in key order, each live sink released before its Unlink; no entry left with the id, other entries unchanged, id freed |
| ClientNodes.ClientNode.UnlinkEach | src/olink/clientnode.cpp:79-82 | each object is unlinked finding the earlier ones unset |
| ClientNodes.ClientNode.HandleMessage | src/olink/clientnode.cpp:91-174 | each message has exactly its effect on the pending calls, callbacks and sinks; others none |
| ClientNodes.ClientNode.HandleInvokeReply | src/olink/clientnode.cpp:119-139 | takes the callback out before it runs it with method and value |
| ClientNodes.ClientNode.HandleError | src/olink/clientnode.cpp:154-174 | ends a pending call with an empty answer, for invocation errors only |
| RemoteNodes.MemberMessagesReachTheirSource | src/olink/remotenode.cpp:59-76 | property and method requests for a slash-free object go to its source and no other |
| RemoteNodes.LinksAreServed | src/olink/remotenode.cpp:33-57 | Link and Unlink call exactly the live source of the object; a link is answered with Init and its properties |
| RemoteNodes.PropertyRequestsAreServed | src/olink/remotenode.cpp:59-66 | a property request calls exactly the live source of the object, with the property and the value |
| RemoteNodes.InvocationsAreServed | src/olink/remotenode.cpp:68-76 | an invocation calls it with method and arguments, and its result is sent under the request id, after the notes |
| RemoteNodes.OnlyRegisteredSourcesAreCalled | src/olink/remotenode.cpp:33-76 | without a live source, and for other messages, there is no call |
| RemoteNodes.RelinkChangesOnePair | src/olink/remotenode.cpp:33-57 | a Link adds its pair if the node lives, an Unlink removes it, other messages change no pair |
| RemoteNodes.RemoteNode.constructor | src/olink/remotenode.cpp:21-26 | the node takes the id the registry gives it |
| RemoteNodes.RemoteNode.Destroy | src/olink/remotenode.cpp:28-31 | unregisters the node |
| RemoteNodes.RemoteNode.HandleMessage | src/olink/remotenode.cpp:33-76 | lookup, source call, registry change and answers of every message, in order; nothing without a source |
| RemoteNodes.RemoteNode.HandleLink | src/olink/remotenode.cpp:33-48 | adds the node, then tells the source, then sends its notes and Init |
| RemoteNodes.RemoteNode.HandleUnlink | src/olink/remotenode.cpp:50-57 | tells the source, then removes the node |
| RemoteNodes.RemoteNode.HandleSetProperty | src/olink/remotenode.cpp:59-66 | forwards the value and sends the source's notes |
| RemoteNodes.RemoteNode.HandleInvoke | src/olink/remotenode.cpp:68-76 | the source's notes, then its reply under the same id; no answer without a source |
| RemoteNodes.RemoteNode.SourceSends | src/olink/remotenode.cpp:78-86 | notes are sent in order, one message each |
| LinkAgreement.RegisteringIsFresh | src/olink/core/uniqueidobjectstorage.h:38-62 | registering a new node while all stored ones live yields a free id or refuses |
| LinkAgreement.StepKeeps | src/olink/clientnode.cpp:30-84 | every API call, delivery, node creation and destruction keeps both registries and the channels consistent |
| LinkAgreement.LinkAgreementOverEveryRun | src/olink/clientnode.cpp:30-49 | in every run an assigned object, if its node had a write function when it linked, is linked on the server once the messages in flight are processed |
| LinkAgreement.ServerFollowsLastRequest | src/olink/remotenode.cpp:33-57 | in every run the server's outcome for a connection equals that connection's last request that had a write function, both ways |
| LinkAgreement.StepFollowsRequests | src/olink/remotenode.cpp:33-57 | a step changes a connection's outcome iff the connection asked for it |
| LinkAgreement.DrainingReachesTheOutcome | src/olink/remotenode.cpp:33-57 | delivering a connection's messages leaves the server's list as replaying them says |
| LinkAgreement.UnlinksUnlinkTheirObjects | src/olink/clientnode.cpp:78-82 | the destructor's messages unlink exactly the listed objects |
| LinkAgreement.NoInheritedAssociations | src/olink/remoteregistry.cpp:154-181 | in every run a newly registered id, recycled or not, is mentioned by no entry |
| NotifiedNodes.GetNodesListsTheLinkedInOrder | src/olink/remoteregistry.cpp:58-78 | in every run `getNodes` lists exactly the linked connections, each once, in the order in which their links started |
| NotifiedNodes.NotifiedIffLastAsked | src/olink/remoteregistry.cpp:99-141 | once its messages arrived, a connection is listed iff its last request says so |
| Takeovers.TakeoverKeepsTheFirstLinked | src/olink/clientnode.cpp:35-36 | a takeover moves the object on the client and changes nothing for the first connection on the server |
| Takeovers.TakeoverNotifiesBoth | src/olink/clientnode.cpp:30-37 | a run after which one object is assigned to one node and both are notified |
| Takeovers.LinkWithoutWriterIsNeverLinked | src/olink/core/basenode.cpp:37-42 | a run in which an assigned object is not linked, as its Link was dropped |
| InvokeCorrelation.NextIdIsFree | src/olink/clientnode.cpp:55-56 | within the window the next id overwrites no waiting callback |
| InvokeCorrelation.ReceiveEndsItsCall | src/olink/clientnode.cpp:119-132 | a reply ends exactly the waiting call under its id: its own if that waits, another one only after 2^32 calls |
| InvokeCorrelation.EveryReplyReachesItsCall | src/olink/clientnode.cpp:119-139 | in every run a callback runs at most once; within the window, by a reply only with what the source returned for that call's own method and arguments |
| InvokeCorrelation.EveryWaitingCallIsInOnePlace | src/olink/remotenode.cpp:68-76 | in every run a waiting call is in exactly one of: queue to server, queue to client, lost for want of a source or of a write function |
| InvokeCorrelation.CallsAreConserved | src/olink/clientnode.cpp:51-61 | in every run issued = waiting + ended by reply + ended by error + overwritten; within the window none is overwritten |
| InvokeCorrelation.FewCallsStayInWindow | src/olink/clientnode.cpp:176-180 | every run of up to 2^32 calls stays within the window |
| InvokeCorrelation.OverwritesExactlyTheCallBefore | src/olink/clientnode.cpp:55-56 | in every run, also outside the window, a call overwrites a waiting callback iff the call made 2^32 calls before still waits |
| LateReplies.ReplyEndsTheCallUnderItsId | src/olink/clientnode.cpp:123-132 | in every run a reply ends a call iff that call waits under the reply's id |
| LateReplies.WhereRepliesGo | src/olink/clientnode.cpp:119-139 | in every run the reply to a call ends, and runs with that call's result, the last call made with its id, if that waits; so it ends another call iff 2^32 calls followed and that last one waits |
| LateReplies.OverwriteIsReachable | src/olink/clientnode.cpp:176-180 | a run of 2^32 + 1 calls whose last one overwrites the first |
| LateReplies.LateReplyReachesAnotherCall | src/olink/clientnode.cpp:119-139 | the run goes on with the reply to the first call, which runs the callback of the last one |
| Calc.CalcSource.Add | examples/server/calcsource.cpp:27-35 | new total, its notification, and the signal at the upper limit |
| Calc.CalcSource.Sub | examples/server/calcsource.cpp:37-45 | new total, its notification, and the signal at the lower limit |
| Calc.CalcSource.Clear | examples/server/calcsource.cpp:47-51 | total 0 and its notification |
| Calc.CalcSource.OlinkInvoke | examples/server/calcsource.cpp:61-77 | the call by member name, its result and notes; an argument that is no number or boolean changes nothing |
| Calc.CalcSource.OlinkSetProperty | examples/server/calcsource.cpp:79-89 | sets the total and notifies only when it differs |
| Calc.MethodsDoWhatTheirNamesSay | examples/server/calcsource.cpp:61-77 | `add` adds, `sub` subtracts, `clear` clears: total, notes and result |
| Calc.OtherMethodsDoNothing | examples/server/calcsource.cpp:76 | any other method name leaves the total, sends nothing and returns null |
| Calc.ArgumentsAreNeeded | examples/server/calcsource.cpp:64-71 | `add` and `sub` throw iff their first argument is missing or no number or boolean |
| Calc.LimitsAreSignalled | examples/server/calcsource.cpp:27-45 | the total first, then `hitUpper` from 10 up and `hitLower` from 0 down |
| Calc.SettingTheTotalStoresIt | examples/server/calcsource.cpp:79-89 | the value is stored, and notified if it differs; other properties are ignored, ill-typed values throw |
| Calc.ValuesAreReadAsIntegers | examples/server/calcsource.cpp:83 | booleans are 0 and 1, floating point values are cut toward zero, integers to 32 bits |
| Calc.CollectedPropertiesReplicate | examples/server/calcsource.cpp:102-105 | the properties collected at any total bring a sink in any state to that total, ready |
| Calc.CalcSink.OlinkOnInit | examples/app/calcsink.cpp:82-96 | ready with name and node, and the total of the properties if present |
| Calc.CalcSink.OlinkOnPropertyChanged | examples/app/calcsink.cpp:70-81 | takes over a changed total |
| Calc.OnlyTheTotalIsTaken | examples/app/calcsink.cpp:70-81 | exactly the changes of the sink's own total with a usable value set it |
| Calc.OnlyItsOwnInitIsTaken | examples/app/calcsink.cpp:82-96 | an Init of another object is not the sink's, one without a usable total makes it ready only |
| CalcReplication.NoteReplicates | examples/server/calcsource.cpp:27-51 | the notes of an act bring any receiver to the new total |
| CalcReplication.SetReplicates | examples/server/calcsource.cpp:79-89 | so does setting the property, and when nothing is sent the total did not change |
| CalcReplication.LocalActsAreTheMethods | examples/server/calcsource.cpp:27-51 | local calls do what the same invocations do |
| CalcReplication.RepliesComeAfterNotes | examples/server/calcsource.cpp:61-77 | the caller gets its notes first, then the reply with its own id, method and result |
| CalcReplication.StepKeeps | src/olink/remotenode.cpp:33-57 | every act, link, unlink and delivery keeps the replica on its way to the source's total |
| CalcReplication.ReplicaConverges | examples/app/calcsink.cpp:70-96 | in every run the connection that linked last ends at the source's total, from any starting value |
| CalcReplication.RunKeepsHistory | examples/server/calcsource.cpp:91-100 | in every run the node the source remembers is that of the connection that linked last, or none if any unlinked since; it can notify that one unless it was closed since |
| CalcReplication.ReleaseDoesNotMatter | examples/app/calcsink.cpp:98-102 | a release changes no total the sink is heading for |
| CalcReplication.EveryReplicaEndsWhereTheHistorySays | examples/server/calcsource.cpp:91-105 | in every run every replica ends exactly at: the source's total while its connection linked last, the total at which another took over, or its own if it never linked; so it converges iff that is the source's total |
| CalcReplication.ClosedReplicaKeepsItsTarget | src/olink/remotenode.cpp:28-31 | in every run the replica of a connection whose remote node is destroyed ends at what it was heading for then |
| CalcReplication.SourceStopsExactlyWithoutNode | examples/server/calcsource.cpp:22-51 | in every run the source stops exactly when it has something to notify, and no connection linked since the last unlink of any or the one that did had its remote node destroyed |
| CalcReplication.UnlinkOfOneStopsTheSourceForAll | examples/server/calcsource.cpp:96-100 | a run in which one connection unlinks and the source stops while another is linked |
| CalcReplication.CloseStopsTheSource | src/olink/remotenode.cpp:28-31 | a run in which the source notifies a remote node that was destroyed without an unlink |
| CalcReplication.SupersededReplicaDiverges | examples/server/calcsource.cpp:91-94 | a run after which an earlier linked replica ends at 1 while the total is 6 |
| RacingLinkers.OwnerSinceLastUnset | src/olink/clientregistry.cpp:25-49 | after the last unset the object is unset until the first set, and that node's from then on |
| RacingLinkers.EndsUnsetIffNoSetFollows | src/olink/clientnode.cpp:39-49 | for any interleaving of linkers, unlinks and destructors of other nodes the object ends unset iff no set follows the last unset, else with the first setter's node |
| RacingLinkers.SomeLinkerWins | src/olink/clientnode.cpp:35-36 | for any interleaving of linkers, while the last unset is a linker's, the final owner is the first setter after it, never none |
| RacingLinkers.DestructorLosesALink | src/olink/clientnode.cpp:76-84 | a complete link that a destructor's earlier snapshot unsets |
| LockOrder.CodeThen | src/olink/core/basenode.cpp:22-43 | whatever path code takes that passes the rank test, and however deep its user code calls the library, it gives back what it takes and keeps the order |
| LockOrder.OperationsAreDisciplined | src/olink/clientregistry.cpp:13-150 | every path of every operation takes mutexes in rank order, entries before storage, and runs user code with none held |
| LockOrder.ProgramsAreDisciplined | src/olink/core/basenode.cpp:22-43 | so does everything a thread can do with the library, calling it again from user code to any depth |
| LockOrder.TablesAreGuarded | src/olink/remoteregistry.cpp:12-181 | on every path operations on entries, nodes, pending calls and log settings take the mutex of what they look at |
| LockOrder.NoRunGetsStuck | src/olink/remoteregistry.cpp:58-78 | in every run of any number of threads, each calling the library as it likes, while work is left some thread can go on |

## Left out

- JSON, BSON, MSGPACK and CBOR text (src/olink/core/types.cpp:60-110): messages are JSON values; the codec is taken to be lossless.
- Channels in the run models carry decoded calls; `Protocol.RoundTrip` is the step from the call to its message and back.
- Exceptions, except that a calculator call with an argument that is no number or boolean throws before it changes anything; handlers otherwise do not throw.
- The texts of `m_lastError` and of all log lines; which error it is is kept.
- Converting a floating point request id outside the range of `unsigned int`, and indexing an empty argument array: undefined in C++, modelled as wrap-around and as an exception.
- Signed overflow of the calculator's total: undefined in C++, modelled as two's complement wrap-around.
- Memory management of shared and weak pointers: a node's expiry and its `unregisterNode` are one step, and no last reference is dropped while a library mutex is held.
- Separately locked steps inside one API call are interleaved in `RacingLinkers` and `LockOrder`; in `LinkAgreement` each API call is one step.
- Qt classes, sockets and the transport: a FIFO queue per direction replaces them. Qt signals of the sink are not modelled.
- Sinks and sources that call back into a node while it handles a message are covered for mutexes (`LockOrder`), for a source's notes (`RemoteNodes`), not otherwise.
- C++ data races, such as the unlocked size hint in `ClientRegistry::getObjectIds`, the message size limit, and the handlers that only log "not implemented".
- LinkAgreement.LinkAgreementOverEveryRun: says nothing about objects whose source is removed or expires, since a Link that finds no source is dropped, nor about a connection whose remote node is gone or got the invalid id.
- CalcReplication.EveryReplicaEndsWhereTheHistorySays: the source and the sinks stay registered and the remote nodes have their write function throughout, since messages for an unregistered source or sink, and of a node without a write function, are dropped; what was sent before a remote node is destroyed is still delivered.
- CalcReplication.ReplicaConverges: holds under the same conditions.
- CalcReplication.SourceStopsExactlyWithoutNode: using a destroyed node is undefined in C++ and modelled as a stop, also where another node happens to take its address.
- RacingLinkers.EndsUnsetIffNoSetFollows: the linkers' own nodes stay registered during the race.
- InvokeCorrelation.EveryReplyReachesItsCall: the peer answers as `RemoteNode` does; it may add Error messages at any time, but does not forge replies.
- LockOrder.NoRunGetsStuck: log functions must not call the library, as one of them runs under the entries mutex (src/olink/remoteregistry.cpp:36).
