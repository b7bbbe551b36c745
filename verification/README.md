# Verification model of the IPAM controller

The controller keeps DNS records and IP reservations of an IPAM system in step with host names found
in an orchestration environment.  It takes groups of hosts that are to share an address, keeps an in-memory
store of which host is filed under which address, and edits the store and the IPAM system until both match
the groups.  This project models its four stateful parts and proves what they promise each other.

| file | part |
|---|---|
| `Types.dfy` | hosts, addresses, records, resources, groups |
| `StoreSpec.dfy`, `Store.dfy` | the store as a value, and the store object proved against it |
| `Reconcile.dfy`, `Removal.dfy`, `Addition.dfy`, `Attachment.dfy`, `Pass.dfy` | the effect of every step of a pass on store, records and reservations, and what a pass keeps |
| `Coherence.dfy`, `FixedPoint.dfy`, `Sharing.dfy`, `Rebuild.dfy`, `Zones.dfy`, `Addresses.dfy` | exactly when a pass ends coherent, second passes, shared addresses, drift detection, zones, and that it does not matter which free addresses are handed out |
| `Lossy.dfy`, `OneAddress.dfy`, `Failing.dfy`, `Service.dfy` | passes of a client that lacks references to its records, as after a restart |
| `Networks.dfy` | the network each host's address is from |
| `Runs.dfy` | whole runs of snapshots and ticks |
| `RecordTable.dfy`, `Infoblox.dfy` | records behind opaque references, the IPAM system and its client |
| `GroupUnits.dfy`, `Annotation.dfy`, `Controller.dfy` | the groups as the controller walks them, the addresses written back, the controller object |
| `HostSlice.dfy`, `GroupSpec.dfy`, `Orchestration.dfy` | host lists edited in place, the groups as a registry of resources, the groups object |
| `EventSpec.dfy`, `Sending.dfy`, `Kubernetes.dfy`, `Restart.dfy` | the orchestration client as a state machine, exactly when it sends, the client object, the first pass after startup |
| `Instances.dfy` | small systems on which the code does not do what one expects |

How it fits together: `Reconcile.Sys` is the controller's world (store, DNS records by name, reserved
addresses), and every statement of a pass is a function on it.  The classes are proved to compute
exactly these functions.  What Go leaves open is a parameter: the order of every `range` over a map, the
address the IPAM system hands out, the reference it gives a record.  A lemma about a pass therefore speaks of
all orders and all addresses.  A `range` over a map whose entries change while it runs sees the new values,
which the removal phase relies on: `SweepHost` reads the record type at the moment a host is met.

The words used in the statements:

- *Sound*: store, records and reservations agree.  Every stored address has exactly one A host, every host is
  stored at one address, the reserved addresses are the stored ones, and each stored host has the record its
  type says (`Reconcile.SoundMeans` spells this out).  *Coherent* adds that every CNAME points at the A host
  of the address it is stored under.  *Settled* is either of them for a named plan.
- *Unit*: a named group, or one spec of the unnamed group; the hosts that are to share an address.
- *Wanted* hosts are those of the groups; the others are *doomed*.
- *Lost* names are live names without an entry in `recordRef`.  A `Lossy.Memory` is the controller's world with
  its lost names and a flag, `clean`, that stays up while every release gives back an address that is reserved at
  that moment; reservations form a set, in which a double release would not show.

## Success assumptions

The statements about passes and runs assume what the code assumes but does not check:

- Calls to the IPAM system succeed, and an allocation finds a free address in the network asked for (`Roomy`,
  `Available`).  `GetNextAddr` and `AllocateIP` themselves are also modelled for a full network.
- Every address belongs to one network (`homes`), which is the one the network lookup finds for it.  The
  store is keyed by the bare address.
- Host names and zone names are not empty.  Units that share a host, and stored hosts and their unit, are in one
  network (`NetsAgree`, `GroupNets`): changing these fields of a live resource is documented as unsupported.

No assumption is made on the references.  `Controller.Controller.ProcessIPGroups` is proved for any `recordRef`: the
pass it makes is a `Lossy.LossyPass`.  That is a pass of the specification whenever no promotion misses a reference
(`Lossy.Unbroken`: a stored A host is wanted, or alone at its address, or no name at its address is lost), and
`Service.PassServesIff` says what it is worth otherwise.

## What the code does differently from what one expects

Each point names the lemma that shows an input and the theorem that says exactly when it happens.

- *Attachment.*  The first phase adds a CNAME at the address where the loop stands, but points it at the unit's
  first host.  That some hosts of the unit share an address is not enough for the two to agree.  The addition phase
  keeps coherence exactly when every unit is `Attachable` in the store its turn finds.  A whole pass can also repair
  what the addition phase has got wrong, by dropping the owner of the address (`Instances.RepairedByRemoval`).  So,
  from a coherent system, it ends coherent exactly when each unit is `Fitting` in the store its turn finds: every new
  host behind the first lands on an address owned by the first host or by a host nobody wants
  (`Coherence.PassKeepsCoherentIff`; `Instances.BrokenAttachment` fails it).
- *Hosts in two units.*  Two resources may name one host.  What the first turn has done then counts for the second:
  units that all fit the store before the pass can end with a CNAME that leads to a CNAME
  (`Instances.SharedHostChains`).  Only when no two units share a host does the store before the pass decide
  (`Coherence.DisjointFitting`).  The addresses handed out never matter (`Addresses.AddressesDoNotMatter`).
- *Restart.*  `CNAMEToA` without a reference deletes the A record and releases the address although other
  hosts still use it, and the store files the empty name as A host (`Instances.DropWithoutReference`).  A wanted
  host keeps its service exactly when the A host of its address is wanted or has a reference
  (`Service.PassServesIff`; `Instances.RestartLosesService` is a restart after which it has not).  The next tick files
  the hosts left behind under the empty address, where `GetIP` does not find them.  A first host among them gets an A
  record beside its CNAME, which section 3.6.2 of RFC 1034 forbids (`Instances.NextPassClashes`);
  `Controller.Controller.PlaceHost` says exactly when a host that is not found gets a clashing record.
- *Partial promotions.*  A promotion that meets a mate without a reference stops there: the hosts before it lead to the
  new A host, the others keep a CNAME to the host that is gone, and the store files the empty name
  (`Lossy.PartialDrop`).  Whatever references are missing, the wanted hosts all stay stored where they were, with a
  record (`Service.PassFilesWanted`).
- *Quiet updates.*  An update can change the groups of a started client without a mark that they are to be sent: an
  Ingress that changes its group and loses no host, a ConfigMap that loses a host (`Sending.StepStaleIff`).  The sync
  that follows sends them exactly when the resource is complete and has come into another group or has a host that is
  not listed (`Sending.QuietSyncIff`).  A ConfigMap that loses its host name annotation is not complete, so the
  controller keeps its host until something else changes (`Sending.ForgottenConfigMap`).
- *Aliased removal.*  The update handlers range over the array that `removeHost` shifts.  They pass over the
  host behind a removed one, except that the last host is found again in its stale copy.  The result is exact
  unless two neighbours other than the final pair are both gone (`HostSlice.PruneExact`, `Instances.OneStaysListed`);
  on a list without repeats it is exact only then (`HostSlice.SkippingIsExactIff`), while repeats can make up for it
  (`Instances.RepeatsHeal`).
- *Sync without a check.*  `syncResource` does not look at the watch annotation.  A queued resource that
  loses the annotation before it is synced is listed all the same (`EventSpec.SyncOrderlyIff`;
  `EventSpec.UnwatchedSyncLists`).  With each handler followed at once by the sync it asks for this cannot happen
  (`EventSpec.AtomicRunOrderly`).
- *Specs without hosts.*  An update can leave a listed resource without hosts, and the next snapshot sends that
  spec (`EventSpec.HostlessSnapshot`).  `getSpecsWithHosts` then reads the first host of an empty list, so
  `writeIPHosts` panics (`Controller.Controller.WriteIPHosts`).  `EventSpec.StepFillsIff` says which steps do it.
- *Zones.*  A CNAME in another zone than its A record is loaded under the empty address, so the store of
  a coherent system is the rebuilt one exactly when no CNAME crosses a zone (`Rebuild.LoadedIffOneZone`;
  `Instances.AcrossZones`).  A pass brings one about exactly when a new host lands on an address whose wanted hosts
  are in another zone (`Zones.PassZonesIff`).
- *Shared addresses.*  Over disjoint groups, hosts keep sharing addresses as the groups say exactly when every unit
  had its first host stored, or none of its hosts (`Sharing.PassSharesIff`; `Instances.BrokenAttachment`).  Over any
  groups, each unit has one address for all its hosts exactly when its turn finds its stored hosts on one address, the
  first of them stored or none (`Sharing.PassTogetherIff`).

## Model

| member | source | states |
|---|---|---|
| StoreSpec.DeleteHostsIsRestriction | pkg/store/store.go:69-86 | deleting hosts one by one, in any order and with repeats, removes that set and nothing else: surviving addresses keep hosts, types and network, empty ones go, the three maps keep equal keys, no host set is empty |
| StoreSpec.DeleteHostsIsFlatDeletion | pkg/store/store.go:82-86 | if each host is under at most one address, `DeleteHosts` is deletion of a key set from a flat host-to-(address, type) map |
| StoreSpec.DeletesIsDeleteHosts | pkg/store/store.go:69-86 | if each host is under at most one address, no order in which a scan finds it makes a difference |
| StoreSpec.DeletesTakes | pkg/store/store.go:69-86 | in any store, a listed host that is under one address at most is gone afterwards |
| StoreSpec.AddRecordIsFlatUpdate | pkg/store/store.go:41-59 | adding a host filed nowhere adds one entry to the flat map and touches no other |
| StoreSpec.AddRecordStores | pkg/store/store.go:41-59 | after it `GetIP` finds the new host at the address and every other host where it was |
| StoreSpec.AddRecordNets | pkg/store/store.go:41-51 | in any store: a host that is there keeps its type and the address its network; a new host has the given type, and the address the network it comes with; nothing else changes |
| Store.Store.constructor | pkg/store/store.go:32-38 | a new store is empty |
| Store.Store.AddRecord | pkg/store/store.go:41-51 | the new state of all three maps; a host already under the address changes nothing |
| Store.Store.OverwriteRecord | pkg/store/store.go:54-59 | the address holds this host only, with this network |
| Store.Store.DeleteRecord | pkg/store/store.go:62-66 | the address leaves the three maps |
| Store.Store.DeleteHost | pkg/store/store.go:69-79 | the host leaves one address that has it, found by scanning in any order; an emptied address goes; an unknown host changes nothing |
| Store.Store.DeleteHosts | pkg/store/store.go:82-86 | in any store the hosts leave one after the other, each from one address that has it; when none is under two addresses this is the deletion of `StoreSpec.DeleteHosts` |
| Store.Store.GetIP | pkg/store/store.go:102-109 | an address that has the host, or the empty string when none has |
| Reconcile.SoundMeans | pkg/controller/controller.go:114-219 | what the reconciler maintains: one A host per address, hosts at one address, reserved addresses = stored addresses, records = stored hosts with matching types |
| Reconcile.DropPromotes | pkg/controller/controller.go:198-206 | dropping an A host with hosts left: the promoted host owns the record and the address, every other mate is still backed, nothing else changes |
| Reconcile.DropReleases | pkg/controller/controller.go:207-209 | dropping the last host of an address removes its A record and exactly that reservation |
| Reconcile.DropUnlinks | pkg/controller/controller.go:210-212 | dropping a CNAME removes its record and leaves the owner in place |
| Reconcile.DropFollows | pkg/controller/controller.go:195-214 | whichever branch is taken, records, reservations and the types in the store again agree without the dropped host |
| Removal.SweepTurn | pkg/controller/controller.go:194-216 | one turn drops a host's record exactly when nobody wants it, and the mid-loop invariant survives |
| Removal.SweepHostsTrack | pkg/controller/controller.go:193-216 | after any prefix of any order, the available hosts are exactly those with live records at the address, so one of them holds the only A record while there are any, cascades of promotions included |
| Removal.SweepStoreTracks | pkg/controller/controller.go:190-217 | the same for the outer loop after any prefix of addresses; the removal list holds exactly the doomed hosts of the addresses visited |
| Removal.RemovePhaseSettles | pkg/controller/controller.go:187-218 | the whole phase keeps soundness, and coherence with no condition on first hosts, and leaves exactly the wanted hosts, each at its address |
| Addition.PlanHostsPlaced | pkg/controller/controller.go:145-175 | what the loop over a unit's hosts does: no stored host or owner moves, exactly its hosts are added, the fresh address is used exactly when the first host was not stored, and then the first host owns it |
| Addition.PlaceHostsInStep | pkg/controller/controller.go:145-175 | store, records, reservations and loop variables stay in step with that plan after every host |
| Addition.AddUnitSettles | pkg/controller/controller.go:129-184 | a unit keeps soundness: its reservation is bound to one A record or released |
| Addition.UnitReservesIff | pkg/controller/controller.go:129-184 | the address reserved for a unit is kept, with the first host as its A host, if and only if that host was not stored; otherwise it is given back, and no other reservation changes |
| Attachment.PlanUnique | pkg/controller/controller.go:114-219 | a sound system has one reading: where each host is and who owns each address |
| Attachment.PointedIff | pkg/controller/controller.go:155-174 | all CNAMEs point at their address's A host after n hosts of a unit if and only if they did before and each new host so far could be attached |
| Attachment.UnitCoherentIff | pkg/controller/controller.go:129-184 | a unit keeps coherence if and only if it is attachable |
| Pass.AddPhaseSettles | pkg/controller/controller.go:118-185 | the addition phase, in any order with any free addresses, keeps soundness and moves no host or owner |
| Pass.AddPhaseCoherentIff | pkg/controller/controller.go:118-185 | whatever hosts the units share, it ends coherent if and only if it started so and every unit is attachable in the store its turn finds |
| Pass.DisjointAttachable | pkg/controller/controller.go:118-185 | when no two units share a host, that is so if and only if every unit is attachable in the store the pass started from |
| Pass.PassConverges | pkg/controller/controller.go:114-219 | address conservation and convergence without churn: the pass keeps soundness, the stored hosts are exactly the wanted ones, a wanted host that was stored keeps its address |
| Coherence.RoutedDrop | pkg/controller/controller.go:198-212 | while an owner stays, a host's record is the one it came with; once it has been dropped, every host left at the address points home |
| Coherence.RemovePhaseCoherentIff | pkg/controller/controller.go:187-218 | from a sound system the removal phase ends coherent if and only if every wanted host whose address's owner is wanted points at that owner |
| Coherence.PlanHostsLanded | pkg/controller/controller.go:145-175 | each new host of a unit is put at the address of the last stored host before it, or at the fresh one, whatever the list repeats |
| Coherence.UnitPointsIff | pkg/controller/controller.go:129-184 | a unit leaves every wanted host pointing home or at an address about to lose its owner if and only if it did so before and the unit is fitting |
| Coherence.AddPhasePointsIff | pkg/controller/controller.go:118-185 | the same for the addition phase, in any order, over units that may share hosts: every unit is to be fitting in the store its turn finds |
| Coherence.DisjointFitting | pkg/controller/controller.go:118-185 | when no two units share a host, that is so if and only if every unit is fitting in the store before the phase |
| Coherence.PassCoherentIff | pkg/controller/controller.go:114-219 | any pass, over units that may share hosts, ends coherent if and only if the wanted hosts at addresses whose owner stays pointed home before it and every unit is fitting in the store its turn finds |
| Coherence.PassKeepsCoherentIff | pkg/controller/controller.go:114-219 | from a coherent system, if and only if every unit is fitting in the store its turn finds; when no two units share a host, in the store before the pass |
| Pass.PassReleasesExactly | pkg/controller/controller.go:121-218 | an address stored before stays reserved if and only if one of its hosts is wanted |
| FixedPoint.PassIdle | pkg/controller/controller.go:114-219 | a pass over exactly the stored hosts changes nothing: each fresh reservation goes back to the network it came from |
| FixedPoint.SecondPassIdle | pkg/controller/controller.go:114-219 | a second pass over the same hosts, with other orders, groupings and addresses on offer, leaves store, records and reservations of the first as they are |
| Addresses.PhaseAlike | pkg/controller/controller.go:118-185 | two addition phases over the same units with other free addresses put every host beside the same owner |
| Addresses.AddressesDoNotMatter | pkg/controller/controller.go:118-185 | so the conditions for coherence, for zones and for one address a unit hold of all addresses the IPAM system may hand out or of none, and can be checked before the pass |
| Sharing.AddPhaseGrouped | pkg/controller/controller.go:118-185 | every unit ends on one address, different units on different ones, when each unit's first host or no host was stored |
| Sharing.AddPhaseSplits | pkg/controller/controller.go:155-174 | a unit whose first host is missing while another is stored ends on two addresses, whatever its turn |
| Sharing.PassSharesIff | pkg/controller/controller.go:118-185 | the two together: the pass keeps sharing by unit if and only if each unit had its first host stored or no host |
| Sharing.UnitTogetherIff | pkg/controller/controller.go:129-184 | a unit ends up on one address if and only if it finds its stored hosts on one, the first of them stored or none |
| Sharing.AddPhaseTogetherIff | pkg/controller/controller.go:118-185 | the same for all units of the addition phase, in any order, whatever hosts they share: later turns move nothing |
| Sharing.PassTogetherIff | pkg/controller/controller.go:114-219 | any pass leaves every unit with all its hosts on one address if and only if each unit finds its hosts so when its turn comes |
| Sharing.FirstHostDecides | pkg/orchestration/orchestration.go:132-147 | the first-host shortcut is exact: the first host of a spec is at an address if and only if all its hosts are |
| Annotation.PassSharesByGroupsIff | pkg/orchestration/types.go:35-38 | the same in the terms of the groups only, so independent of every order: named groups share an address, specs of the unnamed group get their own, if and only if the first-host condition held |
| Annotation.PassCoherentByGroupsIff | pkg/controller/controller.go:114-219 | the same for the turns of any groups; over disjoint groups in the terms of the groups and the store before the pass only, so the same for every order |
| Annotation.SharedSpecsTogether | pkg/orchestration/orchestration.go:132-147 | a store that shares addresses by unit gives each resource one address for all its hosts |
| Annotation.PassTogetherByGroupsIff | pkg/controller/controller.go:114-219 | after a pass over any groups every unit of the groups has one address for all its hosts if and only if each finds its hosts so when its turn comes |
| Annotation.PassAnnotatesOnce | pkg/controller/controller.go:222-227 | then every resource with hosts has exactly one address to be annotated with, though other resources may name the same hosts |
| Annotation.DisjointTogether | pkg/controller/controller.go:118-185 | over disjoint groups that is so when the store shares addresses by unit and each unit has its first host stored, or none |
| Annotation.SameUnitIff | pkg/orchestration/types.go:35-38 | two hosts are to share an address exactly when a named group has both, or one spec of an unnamed group |
| Annotation.UnitsTogetherMeans | pkg/orchestration/types.go:35-38 | one address for every unit, in the terms of the groups: one for all hosts of all specs of a named group, one for each spec of the unnamed |
| Annotation.AnnotatedOnce | pkg/orchestration/orchestration.go:132-147 | the selection for an address takes a listed resource exactly when the first host of its spec is there |
| Rebuild.LoadStep | pkg/manager/infoblox.go:296-335 | loading one record more extends what has been loaded, whatever came before |
| Rebuild.LoadedUnique | pkg/manager/infoblox.go:285-337 | the rebuilt store does not depend on the order of zones and records |
| Rebuild.LoadedIffOneZone | pkg/manager/infoblox.go:324-334 | the store of a coherent system is the rebuilt one if and only if no CNAME crosses a zone |
| Rebuild.LoadedIsCoherent | pkg/controller/controller.go:229-237 | a store loaded from a healthy IPAM system is coherent with it |
| Rebuild.CoherentIffRebuilt | pkg/controller/controller.go:230-237 | cache coherence: coherent and in one zone if and only if the IPAM system is healthy and the store is the one `GetRecords` rebuilds |
| Runs.TickIdle | pkg/controller/controller.go:97-101 | a verify tick of a coherent system finds no drift and does nothing |
| Runs.DriftedTick | pkg/controller/controller.go:97-101 | a tick of a healthy system that loads another store makes a pass at once: sound afterwards, exactly the wanted hosts stored, those the IPAM system still knew where it has them; one that loads the same store changes nothing |
| Zones.AddPhaseZonesIff | pkg/controller/controller.go:145-175 | wanted hosts at one address are in one zone after the addition phase if and only if they were before and each new host shares the zone of the wanted hosts at the address it lands on, in the store its turn finds |
| Zones.PassZonesIff | pkg/controller/controller.go:114-219 | exactly then a pass that ends coherent leaves no CNAME in another zone than its A record |
| Zones.PassKeepsZonesIff | pkg/controller/controller.go:114-219 | from a coherent system without such CNAMEs only the new hosts matter; units that stay in one zone never bring one about |
| Networks.PhaseOwnNets | pkg/controller/controller.go:121-137 | after the addition phase every host of a named group is at an address of the network the group's key names, every other one of its spec's |
| Networks.PassInNets | pkg/controller/controller.go:114-219 | so it is after any pass, with any references and free addresses, in any order |
| Runs.SnapshotGoodIff | pkg/controller/controller.go:65-83 | one snapshot, whose units may share hosts, with whatever references its promotions need: coherent afterwards if and only if every unit is fitting in the store its turn finds, and without CNAMEs across zones if and only if the zones of its new hosts fit as well; no reference is lost and no release misses |
| Runs.RunGoodIff | pkg/controller/controller.go:65-111 | over any run of snapshots and ticks with no outside change, every state is coherent and without CNAMEs across zones if and only if every snapshot fits the state it finds, zones included |
| Runs.RunCoherentIff | pkg/controller/controller.go:65-111 | when no unit crosses a zone, every state is coherent if and only if every snapshot fits the state it finds |
| Runs.RunKeepsCoherent | pkg/controller/controller.go:65-111 | in such a run every store is the one `GetRecords` rebuilds, every tick is a no-op, no reference is ever lost, every release gives back a reserved address, and addresses are as `Service.PassKeepsServiceIff` needs them if they were at the start |
| Runs.FreshStart | pkg/controller/controller.go:53-62 | a run may start with nothing, and then no promotion ever misses a reference |
| Runs.LoadedStart | pkg/controller/controller.go:68-68 | or with the store loaded from a healthy IPAM system and no reference at all |
| Lossy.RecalledDrop | pkg/controller/controller.go:198-206 | with the references a promotion needs, a turn is the turn of the specification and breaks no other address |
| Lossy.PartialDrop | pkg/manager/infoblox.go:247-268 | a promotion that stops at the first mate without a reference: the mates before it lead to the new A host, those from there on keep their records, the address stays reserved, and the empty name is filed as A host |
| Lossy.RecalledPass | pkg/controller/controller.go:114-219 | with any set of lost names, a pass that misses no reference is the pass of the specification; every release gives back a reserved address, no further name is lost, and an address whose A host has a reference has one for every host |
| Lossy.SomePass | pkg/controller/controller.go:114-219 | a pass can be made from every state, in every order |
| OneAddress.DropMidvisit | pkg/controller/controller.go:197-214 | one turn, with any references: either every host left at the address still hangs on one A record, or the address is given back and the store names the empty host |
| OneAddress.MeetingTurn | pkg/controller/controller.go:193-216 | so between any two turns, while the addresses to come are as the pass found them |
| Failing.FailingDrop | pkg/manager/infoblox.go:232-238 | dropping a host without a reference removes its record, and with an A record the reservation, whoever else uses the address |
| Failing.RestartPass | pkg/controller/controller.go:114-219 | a pass without references to the hosts it drops, in full: exactly the wanted hosts keep their records, none of them moves, no other named host is stored, an address stays reserved exactly when its A host is wanted, and the empty name is filed only under addresses given back |
| Service.PassServesIff | pkg/manager/infoblox.go:214-268 | any pass with any references: a wanted stored host stays where it was and keeps a record; where the A host is wanted, or lost, or nothing at the address is lost, it leads to its address and the address is reserved if and only if the A host is wanted or has a reference |
| Service.PassKeepsServiceIff | pkg/manager/infoblox.go:214-268 | from the state a restart leaves, and from every state a run from there leads to while no promotion misses a reference: all wanted hosts keep their service if and only if none of them shares an address with a dropped A host that has no reference |
| Service.PassFilesWanted | pkg/controller/controller.go:114-219 | any pass, with any references, any orders and failed promotions: beside the empty name exactly the wanted hosts are stored, each at one address, those stored before where they were, and each has a record |
| RecordTable.CreateMirrors | pkg/manager/infoblox.go:127-128 | a new record under a fresh reference: the table read by name gains that name, references still lead to their own records |
| RecordTable.DeleteMirrors | pkg/manager/infoblox.go:157-158 | deleting a name's record and entry removes that name only |
| RecordTable.UpdateMirrors | pkg/manager/infoblox.go:244-245 | an update that renames a record, in place or under a new reference, moves the name; the stale entry of the old name does no harm |
| RecordTable.UniqueMatch | pkg/manager/infoblox.go:346-382 | a lookup finds at most one record, the one the name has |
| RecordTable.ClashIff | pkg/manager/infoblox.go:127-128 | one record more leaves every name with one record type if and only if its name has none of the other type |
| RecordTable.PromotionResolves | pkg/manager/infoblox.go:214-268 | promotion preserves resolution: the new A host answers at the same address, every available name leads there, the deleted name is gone, every other name answers as before |
| Infoblox.Server.AllocateIP | pkg/manager/infoblox.go:272-275 | any free address of the network, newly reserved, or the empty string when none is free |
| Infoblox.Server.UpdateObject | pkg/manager/infoblox.go:244-244 | a record changes name and data under the same or a fresh reference; an update without a view keeps the view; an unknown reference changes nothing |
| Infoblox.Server.ReleaseIP | pkg/manager/infoblox.go:280-282 | this address of this network is free again; whether it was reserved at that moment is recorded |
| Infoblox.IBloxClient.constructor | pkg/manager/infoblox.go:100-105 | a client starts without references: every live name is lost |
| Infoblox.IBloxClient.GetARecord | pkg/manager/infoblox.go:346-362 | exactly the A records with the name, address and view, or those of the zone when no name is given |
| Infoblox.IBloxClient.GetCNAMERecord | pkg/manager/infoblox.go:365-382 | exactly the CNAME records with the name and view, or those of the zone when no name is given |
| Infoblox.IBloxClient.CreateARecord | pkg/manager/infoblox.go:111-130 | refuses exactly when the same A record exists; otherwise one record and one reference more; a new name never ends with two record types |
| Infoblox.IBloxClient.CreateCNAMERecord | pkg/manager/infoblox.go:167-185 | keeps an existing CNAME of the name and view; otherwise one record and one reference more |
| Infoblox.IBloxClient.DeleteARecord | pkg/manager/infoblox.go:133-164 | for any name, the empty one included: the record goes exactly when its network is the expected one; the address is released in any case |
| Infoblox.IBloxClient.DeleteCNAMERecord | pkg/manager/infoblox.go:188-210 | the record goes exactly when the address is in the expected network |
| Infoblox.IBloxClient.DeleteAllA | pkg/manager/infoblox.go:153-160 | the loop over the A records found deletes those in the expected network, and the entry of the name with the first of them |
| Infoblox.IBloxClient.DeleteAll | pkg/manager/infoblox.go:203-209 | the loop over the CNAME records found deletes all of them or none |
| Infoblox.IBloxClient.TakeOver | pkg/manager/infoblox.go:239-245 | the CNAME goes before the A record is renamed, so no state gives a name both types |
| Infoblox.IBloxClient.Repoint | pkg/manager/infoblox.go:248-264 | one CNAME points at the new A host, every other name is untouched |
| Infoblox.IBloxClient.PromoteFirst | pkg/manager/infoblox.go:223-245 | after the first turn the first available host owns the A record and has a reference |
| Infoblox.IBloxClient.RepointNext | pkg/manager/infoblox.go:256-264 | a later turn re-points its host, or stops without changing anything when the host has no reference |
| Infoblox.IBloxClient.CNAMEToA | pkg/manager/infoblox.go:214-268 | promotes and re-points up to the first host without a reference, with the error and the returned name that go with it; without a reference to the deleted host, whose name may be empty, it deletes the A record and releases the address; no intermediate state gives a name an A and a CNAME record (section 3.6.2 of RFC 1034) |
| Infoblox.IBloxClient.GetNextAddr | pkg/manager/infoblox.go:271-277 | a free address, reserved, or the empty string and no change |
| Infoblox.IBloxClient.ReleaseAddr | pkg/manager/infoblox.go:280-282 | gives back exactly this address of this network |
| Infoblox.IBloxClient.GetRecords | pkg/manager/infoblox.go:285-337 | the rebuilt store holds every record under the address it loads at, whatever references the client has; where records of several views load under one address, its network is that of one of them |
| Infoblox.IBloxClient.LoadZone | pkg/manager/infoblox.go:296-335 | one zone adds exactly the names of that zone |
| Infoblox.IBloxClient.LoadCnames | pkg/manager/infoblox.go:324-334 | each CNAME of the zone is filed under the address of the zone's A record it names |
| Infoblox.IBloxClient.FindA | pkg/manager/infoblox.go:325-331 | the address of an A record with the canonical name, or the empty string |
| GroupUnits.ScheduleUnits | pkg/controller/controller.go:121-144 | in whatever order the groups are walked, the turns are their units, no more and no fewer |
| GroupUnits.ScheduleHosts | pkg/orchestration/orchestration.go:150-159 | the hosts the first phase places are the hosts the second phase keeps |
| GroupUnits.UnitOrder | pkg/controller/controller.go:145-153 | a named group is one unit, with the hosts of its specs one spec after the other, in their order |
| GroupUnits.UnitFirst | pkg/controller/controller.go:145-153 | its first host is the first host of its first spec that has any |
| Controller.Contains | pkg/controller/controller.go:239-246 | membership |
| Controller.MapKeys | pkg/controller/controller.go:249-255 | every key once, in any order |
| Controller.RemoveElement | pkg/controller/controller.go:257-265 | the list without the first occurrence, the rest in order |
| Controller.Controller.PlaceHost | pkg/controller/controller.go:155-174 | one host: the specified change of store, records and loop variables; and in any state of store and records, a host found at no address or filed under the empty one is filed where the loop stands with a record asked for, and no name has two record types then if and only if that record is not made or clashes with none of its name |
| Controller.Controller.PlaceSpec | pkg/controller/controller.go:145-175 | the hosts of one spec, with the first host carried across the specs of a named group |
| Controller.Controller.PlaceUnit | pkg/controller/controller.go:129-184 | one unit, from reservation to release |
| Controller.Controller.AddGroup | pkg/controller/controller.go:121-185 | one entry of the groups: one unit, or one per spec in the unnamed group; each turn reserves in the network of the group's key, or of the spec |
| Controller.Controller.AddMissing | pkg/controller/controller.go:118-185 | the whole addition phase, in any order, is the specified one; no reference is lost |
| Controller.Controller.HandOver | pkg/controller/controller.go:200-206 | the A host goes and hosts are left: the promotion with whatever references there are, and the type the store then files |
| Controller.Controller.DropHost | pkg/controller/controller.go:197-212 | one doomed host with whatever references there are, the empty name included: the change of `Lossy.LossyDrop`, failed promotions and what follows them included |
| Controller.Controller.MeetHost | pkg/controller/controller.go:194-216 | one host of the range: kept when wanted, else dropped and listed for removal |
| Controller.Controller.SweepAddress | pkg/controller/controller.go:190-217 | one address, its hosts in any order, each with the type it has when it is met; an entry for the empty name that appears meanwhile may be met or not |
| Controller.Controller.RemoveStale | pkg/controller/controller.go:187-218 | the whole removal phase, in any order and with any references, is the specified one |
| Controller.Controller.ProcessIPGroups | pkg/controller/controller.go:114-219 | with any references a pass is a `Lossy.LossyPass`, no name ever has two record types, beside the empty name exactly the hosts of the groups are stored, without churn, each in the network its group is for; when no promotion misses a reference it is a pass of the specification: sound, no reference lost, every release of a reserved address |
| Controller.Controller.RefreshStore | pkg/controller/controller.go:230-237 | the store becomes the rebuilt one; the answer says whether it differed |
| Controller.Controller.VerifyTick | pkg/controller/controller.go:97-101 | no drift: store, records and reservations stay as they are; drift: the rebuilt store is reconciled with these groups at once, which leaves exactly their hosts stored, each in its network, and a sound system when no promotion misses a reference |
| Controller.Controller.AnnotateAddress | pkg/controller/controller.go:223-226 | one address: the resources whose first host is there are annotated with it and no others; a spec without hosts makes it panic |
| Controller.Controller.WriteIPHosts | pkg/controller/controller.go:222-227 | it panics exactly when an address is stored and some spec has no hosts; otherwise a resource is annotated exactly when its first host is stored, with that host's address, which is the one of all its hosts when they have one |
| Controller.Controller.AnnotateResources | pkg/orchestration/kubernetes.go:760-805 | the selected resources, and no others, get the address |
| Controller.Controller.HandleIPGroups | pkg/controller/controller.go:78-82 | one snapshot from end to end, in any state, over groups that may share hosts: it panics exactly on a spec without hosts; every stored host of the groups is in the network its group is for; when no promotion misses a reference it is sound and converged, resources are annotated by their first hosts, it is coherent if and only if every unit is fitting in the store its turn finds, every unit is on one address if and only if it finds its hosts so, and then every resource with hosts is annotated with their address; for disjoint groups the store before decides all of it |
| HostSlice.ShiftIsWithout | pkg/orchestration/orchestration.go:115-121 | the shortened slice is the list without the host's first occurrence |
| HostSlice.PruneKeeps | pkg/orchestration/kubernetes.go:376-381 | on every list, repeats or not, no host that is still listed is lost, doubled or reordered |
| HostSlice.PruneIsSkipping | pkg/orchestration/kubernetes.go:376-381 | what the loop leaves of a list without repeats: it passes over the host behind a removed one, but sees the last host again |
| HostSlice.SkippingIsExactIff | pkg/orchestration/kubernetes.go:376-381 | it leaves exactly the listed hosts if and only if no two neighbours are both gone, the final pair excepted |
| HostSlice.PruneExact | pkg/orchestration/kubernetes.go:376-381 | on every list, repeats or not, it leaves exactly the listed hosts when no two neighbours are both gone, the final pair excepted |
| HostSlice.CloseGap | pkg/orchestration/orchestration.go:117-117 | the elements behind the gap move one place down, the last place keeps its value |
| HostSlice.RemoveHost | pkg/orchestration/orchestration.go:115-121 | the shift on the real array |
| GroupSpec.MergeHas | pkg/orchestration/orchestration.go:60-65 | merging keeps the old list as a prefix, adds exactly the missing hosts, and changes nothing if and only if none is missing |
| GroupSpec.MergeOrder | pkg/orchestration/orchestration.go:60-65 | the hosts that merging appends stand in the order of the list they come from, each once |
| GroupSpec.AddKeepsStructure | pkg/orchestration/orchestration.go:36-78 | adding keeps: no empty group, no resource twice in a group, every spec in its group's network |
| GroupSpec.CutKeepsStructure | pkg/orchestration/orchestration.go:81-104 | removing a spec keeps that structure, and the group goes exactly with its last spec |
| GroupSpec.SetHostsKeepsStructure | pkg/orchestration/orchestration.go:107-129 | removing hosts keeps that structure |
| GroupSpec.EditsKeepStructure | pkg/orchestration/orchestration.go:36-129 | so does every run of the three in any order |
| GroupSpec.NewComesLast | pkg/orchestration/orchestration.go:69-76 | a new resource comes last in its group, with its hosts as they are |
| GroupSpec.EditKeepsOrder | pkg/orchestration/orchestration.go:36-129 | no edit reorders the resources of a group |
| GroupSpec.AddNew | pkg/orchestration/orchestration.go:69-76 | an unlisted resource becomes listed once, in this group, with these hosts; all others stay |
| GroupSpec.AddMore | pkg/orchestration/orchestration.go:57-68 | a resource listed in this group gains the hosts it lacks; all others stay |
| GroupSpec.CutListed | pkg/orchestration/orchestration.go:86-103 | the resource is listed nowhere any more; all others stay |
| GroupSpec.SetListed | pkg/orchestration/orchestration.go:112-128 | the resource has the new host list; all others stay |
| Orchestration.IPGroup.AddToIPGroup | pkg/orchestration/orchestration.go:36-78 | the new groups, and an answer that says exactly whether anything changed |
| Orchestration.IPGroup.MergeHosts | pkg/orchestration/orchestration.go:60-65 | the merged list, and whether it grew |
| Orchestration.IPGroup.RemoveFromIPGroup | pkg/orchestration/orchestration.go:81-104 | copy, zero and truncate equal deleting one element; an emptied group is deleted; an unknown resource changes nothing |
| Orchestration.IPGroup.RemoveHost | pkg/orchestration/orchestration.go:107-129 | the search through all groups in any order, the shift in the array behind the spec's hosts, and the write-back; a host that is not there changes nothing |
| Orchestration.IPGroup.GetSpec | pkg/orchestration/orchestration.go:162-171 | a spec of the resource with its group's name, or the zero spec exactly when there is none |
| Orchestration.IPGroup.GetSpecsWithHosts | pkg/orchestration/orchestration.go:132-147 | exactly the specs whose first host is among the hosts; it panics exactly when some spec has no hosts |
| Orchestration.IPGroup.GetAllHosts | pkg/orchestration/orchestration.go:150-159 | exactly the hosts of the groups |
| EventSpec.StepInv | pkg/orchestration/kubernetes.go:313-410 | every event keeps: one spec per resource under its current key, none for an unwatched or deleted one, every watched complete resource queued or listed with all its hosts |
| EventSpec.RunInv | pkg/orchestration/kubernetes.go:313-410 | so does every run, in any interleaving of informers and queue |
| EventSpec.RunOrderly | pkg/orchestration/kubernetes.go:321-410 | from the start: each resource has at most one spec across all groups, under its current group, and none once it is unwatched or deleted |
| EventSpec.SyncOrderlyIff | pkg/orchestration/kubernetes.go:603-728 | a sync keeps this order if and only if its resource is gone, watched or incomplete |
| EventSpec.UnwatchedSyncLists | pkg/orchestration/kubernetes.go:603-728 | a run that breaks it: a resource is queued, loses its annotation and is synced |
| EventSpec.AtomicRunOrderly | pkg/orchestration/kubernetes.go:313-410 | the same for every run of handlers each followed by the sync it asks for, assuming only that networks never change: such a run never syncs an unwatched resource |
| EventSpec.StepFillsIff | pkg/orchestration/kubernetes.go:313-410 | a step leaves every listed spec with hosts if and only if it is not an update that empties a spec within its group, nor a sync that lists a resource without hosts |
| EventSpec.PrunedEmptyIff | pkg/orchestration/kubernetes.go:376-381 | an update empties a list without repeats if and only if it had two hosts at most and all are gone |
| EventSpec.RunSnapshots | pkg/orchestration/kubernetes.go:731-757 | every snapshot ever sent lists a resource once; if no step leaves a spec without hosts, no snapshot holds one |
| EventSpec.HostlessSnapshot | pkg/orchestration/kubernetes.go:368-399 | a run of handlers with their syncs that sends a spec without hosts: an Ingress with one host loses it |
| EventSpec.FirstSnapshotComplete | pkg/orchestration/kubernetes.go:731-757 | the first snapshot is sent with both queues empty and lists every watched complete resource with all its hosts |
| EventSpec.UpdateSyncExactIff | pkg/orchestration/kubernetes.go:368-399 | an update and its sync leave exactly the new hosts of an Ingress if no two neighbours of the old list are both gone, the final pair excepted; when the list has no repeats, only then |
| Sending.AddChangesIff | pkg/orchestration/orchestration.go:36-78 | adding a resource changes the groups if and only if it is not listed under the key or a host is missing |
| Sending.PrunedSameIff | pkg/orchestration/kubernetes.go:376-381 | the update handlers' loop changes a host list if and only if one of its hosts is gone |
| Sending.SendsIff | pkg/orchestration/kubernetes.go:313-757 | exactly when a step sends, and that it sends the groups it leaves: a listed resource is deleted or loses the annotation, a sync finds or leaves the groups changed and does not return early, or the startup check finds nothing queued; before the first snapshot only with nothing left in either queue, afterwards whatever is queued; and what the two flags are then |
| Sending.StepQueues | pkg/orchestration/kubernetes.go:313-410 | a resource is queued exactly when an informer brings it watched, taken out by its sync only, and cached as it was brought last |
| Sending.LossIsSent | pkg/orchestration/kubernetes.go:387-410 | a started client sends at once when a listed resource is deleted or loses the annotation, whatever is queued |
| Sending.TimerOpens | pkg/orchestration/kubernetes.go:574-583 | with nothing queued the startup check sends the groups; in a cluster without resources these are the empty groups |
| Sending.StepStaleIff | pkg/orchestration/kubernetes.go:313-757 | of the steps of a started client whose last snapshot is its groups, or that is marked to send, exactly the quiet updates end this |
| Sending.QuietSyncIff | pkg/orchestration/kubernetes.go:603-728 | the sync after a quiet update sends if and only if the resource is complete and has come into another group or has a host the update has left unlisted; otherwise the controller stays ignorant |
| Sending.OneHostHeard | pkg/orchestration/kubernetes.go:321-347 | for a ConfigMap with one host: if and only if it still has a host name |
| Sending.AtomicSettledIff | pkg/orchestration/kubernetes.go:313-757 | a handler and its sync leave the controller with the groups as they are if and only if the handler was no quiet update or the sync made up for it |
| Sending.AtomicRunSettled | pkg/orchestration/kubernetes.go:313-757 | over every run of handlers with their syncs from the start, networks constant and every quiet update made up for, the last snapshot is always the groups |
| Sending.ForgottenConfigMap | pkg/orchestration/kubernetes.go:321-347 | a run after which it is not: a ConfigMap loses its host name annotation |
| Kubernetes.K8sClient.WriteIPGroups | pkg/orchestration/kubernetes.go:731-757 | the startup gate: before the first snapshot both queues must be empty, afterwards it always writes (`Sending.SendsIff` says what follows for every step) |
| Kubernetes.K8sClient.AddResource | pkg/orchestration/kubernetes.go:361-365 | a watched resource is queued |
| Kubernetes.K8sClient.PruneSpec | pkg/orchestration/kubernetes.go:376-381 | the handlers' loop over the array that each `removeHost` shifts and writes back, the spec it leaves, and whether any host was gone |
| Kubernetes.K8sClient.FollowIngress | pkg/orchestration/kubernetes.go:374-386 | gone hosts leave the spec, a changed group loses it |
| Kubernetes.K8sClient.UpdateIngress | pkg/orchestration/kubernetes.go:368-399 | all four cases of watched before and after |
| Kubernetes.K8sClient.UpdateConfigMap | pkg/orchestration/kubernetes.go:321-347 | the same for a ConfigMap, which has no group and does not mark the groups as updated |
| Kubernetes.K8sClient.DeleteResource | pkg/orchestration/kubernetes.go:402-410 | a watched, listed resource leaves the groups and the groups are written (`Sending.LossIsSent`) |
| Kubernetes.K8sClient.RemoveListed | pkg/orchestration/kubernetes.go:389-393 | the resource's one spec goes, wherever the search starts |
| Kubernetes.K8sClient.ProcessNextResource | pkg/orchestration/kubernetes.go:585-600 | any queued key, taken out and synced |
| Kubernetes.K8sClient.SyncResource | pkg/orchestration/kubernetes.go:603-728 | the sync for the resource as it is now, early returns included |
| Kubernetes.K8sClient.CheckQueues | pkg/orchestration/kubernetes.go:574-583 | with nothing queued the groups are written even if they are empty (`Sending.TimerOpens`) |
| Restart.FirstPassKeepsHosts | pkg/controller/controller.go:68-69 | restart safety: the first pass, made without references on a store loaded from the IPAM system, deletes no host of a watched complete resource and keeps its address; the host keeps its service if and only if the A host of its address is in the groups too |
| Instances.RepairedByRemoval | pkg/controller/controller.go:114-219 | a unit that is not attachable, after whose pass the system is coherent all the same |
| Instances.BrokenAttachment | pkg/controller/controller.go:155-174 | a pass over a unit with its second host stored: sound, but a CNAME points away from its address, and the unit is on two addresses |
| Instances.SharedHostChains | pkg/controller/controller.go:145-175 | two units with a host in common, both fitting in the empty store: after the pass a CNAME leads to a CNAME; each unit is on one address all the same |
| Instances.AcrossZones | pkg/manager/infoblox.go:324-334 | a coherent system whose CNAME is in another zone: the loaded store has it under the empty address |
| Instances.DriftRepaired | pkg/controller/controller.go:97-101 | somebody has removed a host's record and reservation: after the next tick the host is stored again, with a record, in a sound system |
| Instances.OneStaysListed | pkg/orchestration/kubernetes.go:376-381 | two of three hosts are gone, one of them stays listed, also after the sync |
| Instances.RepeatsHeal | pkg/orchestration/kubernetes.go:376-381 | on a list with repeats two gone neighbours can both be removed |
| Instances.DropWithoutReference | pkg/manager/infoblox.go:232-238 | an A host without a reference is dropped: its mate is left with a CNAME to nothing and an address given back |
| Instances.NextPassClashes | pkg/controller/controller.go:155-159 | the store the next tick then loads files the mate under the empty address, where a pass does not find it, and the A record it is given as a first host clashes with its CNAME |
| Instances.RestartLosesService | pkg/controller/controller.go:68-69 | a startup, its first snapshot and every first pass on it after which a host of a watched resource is stored but not served |

## Left out

- HTTP, WAPI requests, URL encoding, credentials, extensible attributes and `NewInfobloxClient`: input and output of a library that is not part of this model; only the record table, allocation and release are.
- Failed `CreateObject`, `UpdateObject`, `GetObject` and allocation calls during a pass: excluded by the success assumptions.  A missing reference is modelled.
- Service.PassServesIff: says nothing of an address at which the A host has a reference but another host lacks one, which no run from a restart leads to before a promotion misses a reference (`Lossy.Uniform`); there the outcome depends on the order in which the hosts are met.
- Controller.Controller.ProcessIPGroups: after a pass that has missed a reference the system need not be sound, and a store loaded from it may file hosts under the empty address; of the passes on such a system only the single steps are modelled (`Controller.Controller.PlaceHost`, `Controller.Controller.DropHost`).
- Controller.Controller.VerifyTick: of a tick that finds the IPAM system unhealthy only the reload is modelled (`Controller.Controller.RefreshStore`).
- Infoblox.IBloxClient.CNAMEToA: says nothing about the records when the deleted host's A record or an available host's CNAME is not there to begin with.
- Restart.FirstPassKeepsHosts: assumes a healthy IPAM system (`Rebuild.Healthy`): each address has one A record and one network, and every CNAME names an A record in its own zone.  A system written only by this controller can lack the latter, after a promotion that missed a reference (`Instances.DropWithoutReference`) or a pass over units that share a host (`Instances.SharedHostChains`).
- Changing netview or cidr of a live resource (documented as unsupported), for the event machine (`Regular`) and for passes (`NetsAgree`).
- `Run` as a goroutine: snapshots and ticks are atomic steps; gob encoding, mutexes, sleeps and the three seconds after which a snapshot is dropped are not modelled, and nothing is claimed about delivery.
- `AnnotateResources` reads the client's groups of the moment; the model annotates from the groups of the snapshot, as they are when no event comes between.  The calls to the Kubernetes API become a map from resource to address.
- Informers, label selectors, namespaces being added and removed, retries of failed syncs: the queue is a set of keys, the namespace queue a pending count that may change at any time, the informers a map of current resources.
- Whether a resource is in a watched namespace and carries the watch annotation is one flag of the resource.
- Orchestration.IPGroup.RemoveHost: for a resource with one spec across all groups, as `EventSpec.RunOrderly` and `EventSpec.AtomicRunOrderly` show it to be; for a resource listed twice the search goes on into other groups and what it removes there depends on the map order.
- `removeElement` edits the slice in place; the list it is given has no other user, so the model returns the new list.
- `getNetworkCIDR`: the CIDR parsing and containment test are a function from view and address to the network.
- `NumHosts`, `getHosts` and the sorting of `GetAllHosts`: logging and presentation only.
- Command line, logging, build tools: plumbing.
