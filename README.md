# talosmon machine status, modelled in Dafny

talosmon is a terminal dashboard for a small fleet of Talos machines. For every
configured machine a `Manager` pings three addresses: the IPMI interface, the
primary IPv4 address and the primary IPv6 address. It records when each last
answered. It also polls the node agent over RPC for the list of system services
with their states, and for the installed Talos version. The dashboard lists the
machines under shortcut letters. It shows the selected machine's liveness and
services as coloured icons.

This project models the bookkeeping of `machine/machine.go` and the pure
display and selection logic of `machine.go`:

- `liveness.dfy` (module `Liveness`): the reply-timestamp map and the
  staleness rule of `PingUp`. It uses a strict two-second threshold on an
  integer nanosecond clock. It also replays a sequence of echo replies through
  the `OnRecv` callback.
- `facts.dfy` (module `Facts`): the service list and version poll as values.
  The RPC replies are `Result` values. It holds the reset-then-replace rule of
  `updateServiceStatus`, the last-message-wins rule of `updateVersion`, and the
  first-match search of `ServiceState`.
- `machine.dfy` (module `Machine`): `Manager` is a class whose fields are
  updated in place: `pingers`, `pingTimestamps` and a `Status` object. Its
  imperative operations are `NewManager`, `addPinger`, the `OnRecv` callback,
  `updateServiceStatus`, `updateVersion`, one poll tick, `Stop` and the
  `ServiceState` scan. The callback, the two updates, the tick and the scan
  are proved against the functions of `Facts` and `Liveness`. `AddPinger`
  and `Stop` state the new pinger table, the pingers' `running` flags and the
  client's close count outright. `NewManager` is proved against
  `ConstructionError` and `FirstUnresolvable`. The RPC client and the ICMP pingers are small classes. The client
  counts its `Close` calls. Each pinger has a `running` flag.
- `display.dfy` (module `Display`): `statusIcon`, `serviceStatusIcon` and the
  lower-casing they rely on.
- `grid.dfy` (module `Grid`): `machineGrid.selectMachine`, the list entry
  callback, the shortcut table, and the two loops of `machineStatusGrid`. One
  loop builds the managers; the other lists each machine under its letter.

`PingUp(kind, now)` applies the staleness rule `Liveness.Up` to the manager's
timestamp map. `Version()` reads `status.talosVersion`. The manager keeps a
ghost history of the `Version` replies it has applied, and the contract of
`Version()` says the stored version is the tag of the last reply that
delivered one.

Behaviour that follows the code rather than the intended design:

- All three kinds are always probed. A machine without an address hands
  `"<nil>"` (the text of a nil `net.IP`) to the pinger. Construction then fails
  unless that resolves (`Machine.MissingAddressFails`).
- Services are reset to `unknown` before every `ServiceList` call, not only
  when it fails.
- A successful `Version` reply whose last message has no version sets the
  version to `""`. This is what the nil-safe getters return.
- One client is shared by every manager. When `NewManager` fails on a pinger,
  its `Stop` closes that shared client. The client then also belongs to the
  managers built before it, and the builder does not stop those managers.
- `Stop` does not end the service poller. The poller is bound to the context,
  not to `Stop`, so ticks may still change services and version after `Stop`
  (the ghost field `polling` stays true). Each `Stop` closes the client once
  more, so a second `Stop` is not a no-op.
- A nil entry in the machine list crashes the program at machine.go:89 (see
  "## Findings"). The builder here follows the corrected behaviour and
  reports NewManager's "spec is required".
- An empty machine list crashes on `machines[0]`, and a 27th machine crashes
  on `shortcuts[26]`. Both are modelled as `Panic` outcomes. No empty grid is
  built.

## Model

| member | source | states |
|---|---|---|
| `Liveness.Record` | machine/machine.go:79-83 | a reply for kind k sets k's timestamp to the reply time and keeps every other kind's timestamp |
| `Liveness.Up` | machine/machine.go:155-166 | a kind is up iff a reply is recorded for it and the reading is strictly earlier than that reply's time plus two seconds |
| `Liveness.NeverSeenIsDown` | machine/machine.go:159-163 | a kind with no recorded reply is down at any time |
| `Liveness.ThresholdIsExclusive` | machine/machine.go:18 | one nanosecond under two seconds since the reply is up; exactly two seconds is down |
| `Liveness.StalenessIsMonotone` | machine/machine.go:165 | with no new reply, a kind that is down stays down as the clock advances |
| `Liveness.UpAfterRecord` | machine/machine.go:79-83 | after a reply, its kind is up iff less than the threshold has passed since it; other kinds read as before |
| `Liveness.ReplayKeepsOtherKinds` | machine/machine.go:79-83 | replies for other kinds never add or change a kind's timestamp |
| `Liveness.LastReplyWins` | machine/machine.go:79-83 | after any run of replies, a kind's timestamp is the time of its latest reply |
| `Liveness.ReplayNeverGoesBack` | machine/machine.go:81 | with replies in clock order, a kind's timestamp is at least the time of every reply seen for it |
| `Facts.Reset` | machine/machine.go:100-103 | the reset keeps every service in place with its id and makes its state unknown |
| `Facts.AfterServiceList` | machine/machine.go:100-110 | a reply that succeeded with messages gives the last message's list; otherwise every service keeps its place and id and reads unknown |
| `Facts.Lookup` | machine/machine.go:173-178 | the state of the first service with the name, and unknown when none has it |
| `Facts.LookupReset` | machine/machine.go:100-103 | after the reset every name reads as unknown |
| `Facts.LookupAfterPoll` | machine/machine.go:94-111 | after one poll a name reads as in the last message's list, or as unknown if the RPC failed or sent no message |
| `Facts.DroppedServiceIsUnknown` | machine/machine.go:105-110 | a service missing from the last reported list reads as unknown |
| `Facts.Tag` | machine/machine.go:122 | a message without a version gives ""; otherwise the version's tag |
| `Facts.AfterVersion` | machine/machine.go:119-124 | a reply that succeeded with messages gives the last message's tag; otherwise the version is kept |
| `Facts.LastReportedTag` | machine/machine.go:119-124 | there is no reported tag iff no poll succeeded with a message |
| `Facts.LastReportedTagIsLast` | machine/machine.go:113-125 | a reported tag is that of the last message of the last poll that delivered one: no later poll delivers a version |
| `Facts.VersionIsLastReportedTag` | machine/machine.go:113-125 | after any run of polls the version is the last delivered tag, else the starting version; failures never change it |
| `Machine.AddrString` | machine/machine.go:53 | a nil address is the text "<nil>"; any other address is its own text |
| `Machine.Addresses` | machine/machine.go:53-63 | one address per probed kind: position j holds the address configured for the kind at position j of Kinds (ipmi, ipv4, ipv6), as text |
| `Machine.FirstUnresolvable` | machine/machine.go:53-66 | every address before the result resolves and the address at the result does not |
| `Machine.FirstUnresolvableAt` | machine/machine.go:53-66 | the stopping position is unique: a position with only resolvable addresses before it and an unresolvable one (or the end) at it is the first unresolvable one |
| `Machine.ConstructionErrorCases` | machine/machine.go:37-66 | "spec is required" iff there is no spec; "client is required" iff there is a spec but no client; a pinger failure names the machine and a probed kind; success iff all three addresses resolve |
| `Machine.FailingKindIsFirst` | machine/machine.go:53-66 | the kind construction reports is the first whose pinger cannot be created; all earlier ones could |
| `Machine.MissingAddressFails` | machine/machine.go:53-66 | a missing address is not skipped: it is probed as "<nil>" and construction fails |
| `Machine.Client.Close` | machine/machine.go:150 | each call closes the client once more |
| `Machine.Pinger.constructor` | machine/machine.go:74 | a new pinger for the address, not yet running |
| `Machine.Pinger.Run` | machine/machine.go:89 | the pinger runs |
| `Machine.Pinger.Stop` | machine/machine.go:145 | the pinger delivers no more replies |
| `Machine.Status.constructor` | machine/machine.go:207-226 | a zeroed status: empty version, no services, flags false |
| `Machine.Manager.constructor` | machine/machine.go:45-51 | the given spec and client, a fresh zeroed status (no services, version "", the ipmi, hostV4 and hostV6 flags all false), and empty pinger and timestamp tables |
| `Machine.Manager.AddPinger` | machine/machine.go:73-92 | fails iff the address cannot be resolved, changing nothing; otherwise registers a fresh running pinger under the kind and keeps the others |
| `Machine.Manager.AddPingers` | machine/machine.go:53-66 | the ipmi, ipv4 and ipv6 pingers are added in order up to the first address that cannot be resolved; the count added is that position; every pinger added runs and probes the address configured for its kind, and all three are registered iff none failed |
| `Machine.Manager.AddNext` | machine/machine.go:53-66 | one addPinger block of the sequence: it succeeds iff the kind's address resolves, and then the kind is registered next, with a fresh pinger that probes the kind's configured address; every registered pinger still runs and probes its own kind's address |
| `Machine.Manager.OnReceive` | machine/machine.go:79-83 | the reply time becomes the kind's timestamp; other kinds are unchanged |
| `Machine.Manager.UpdateServiceStatus` | machine/machine.go:94-111 | the service list becomes the last message's list on success, else the old list reset to unknown; nothing else in the status is written, so the version and the three flags keep their values |
| `Machine.Manager.UpdateVersion` | machine/machine.go:113-125 | the version becomes the last message's tag on success and is unchanged otherwise; nothing else in the status is written; the reply joins the poll history and the version stays equal to the replay of that history |
| `Machine.Manager.Tick` | machine/machine.go:127-137 | one poll tick: the service update, then the version update; only the service list and the version are written, and the version stays equal to the replay of the poll history |
| `Machine.Manager.Stop` | machine/machine.go:139-152 | every registered pinger is stopped, the table is emptied and the client closed; timestamps, status and poller are untouched |
| `Machine.Manager.PingUp` | machine/machine.go:155-166 | false for a kind with no recorded reply; otherwise true iff strictly less than two seconds have passed since its last reply |
| `Machine.Manager.ServiceState` | machine/machine.go:168-179 | the scan returns the first matching service's state, or unknown |
| `Machine.Manager.Version` | machine/machine.go:181-187 | the stored version is the tag of the last poll that delivered one, and "" while none has |
| `Machine.NewManager` | machine/machine.go:36-71 | spec checked before client; pingers added in order; on the first failure all started pingers are stopped, the client is closed and no manager is returned; on success all three pingers run, each probing the address its kind has in the spec, the flags are false, the version is "" and the poller runs |
| `Display.Icon` | machine.go:163 | the icon is "[", then the colour, then "]⬤ [-]": seven characters longer than the colour, which can be read back from it |
| `Display.IconInjective` | machine.go:163 | different colours give different icon strings |
| `Display.StatusIcon` | machine.go:158-164 | only two icons: green iff up, red iff down |
| `Display.ToLower` | machine.go:169 | same length; every letter lower-cased in place |
| `Display.ToLowerIdempotent` | machine.go:169 | lower-casing twice equals lower-casing once |
| `Display.ToLowerFixes` | machine.go:169 | a string without upper-case letters is its own lower case |
| `Display.ServiceStatusIcon` | machine.go:166-190 | the icon's colour is the table entry for the lower-cased state: running lightgreen, finished darkgreen, waiting yellow, stopped orange, skipped grey, failed red, unknown darkgrey |
| `Display.ServiceStatusIconIgnoresCase` | machine.go:169 | a state and its lower case give the same icon |
| `Display.UnrecognisedStateShowsUnknown` | machine.go:182-187 | any state outside the table gives the icon of "unknown" |
| `Display.DistinctColorsShowDistinctly` | machine.go:166-190 | states with different table colours give different icons |
| `Grid.ShortcutIsLetter` | machine.go:17 | position i has the (i+1)-th lower-case letter |
| `Grid.ShortcutsDistinct` | machine.go:17 | no two positions share a shortcut |
| `Grid.BuildErrorAsWritten` | machine.go:88-90 | as written: a nil spec panics; otherwise the error names the machine and carries NewManager's cause |
| `Grid.NilSpecCrashesBuilder` | machine.go:87-90 | as written, a nil spec crashes the builder instead of being reported |
| `Grid.BuildError` | machine.go:87-90 | corrected: every construction failure is reported with its cause, never a crash |
| `Grid.FirstFailure` | machine.go:86-93 | every spec before the result builds, and the spec at the result does not |
| `Grid.MachineList.constructor` | machine.go:69 | the list starts empty |
| `Grid.MachineList.AddItem` | machine.go:107 | the entry is appended |
| `Grid.MachineStatus.constructor` | machine.go:129-139 | the status pane starts on the given machine |
| `Grid.MachineStatus.SetMachine` | machine.go:141-145 | the pane shows the given machine |
| `Grid.MachineGrid.constructor` | machine.go:95-99 | the grid holds the managers and the given selection |
| `Grid.MachineGrid.SelectMachine` | machine.go:29-33 | the selection becomes the manager at the index; the list is unchanged |
| `Grid.OnItemSelected` | machine.go:107-114 | an entry's callback selects its position and shows its machine in the status pane |
| `Grid.ItemFor` | machine.go:107 | the entry of position i shows the machine's name and FQDN, has the (i+1)-th lower-case letter as its key, and selects position i and machine m |
| `Grid.BuildOne` | machine.go:87 | one NewManager call: its outcome is the construction error, and the managers built in earlier rounds keep running |
| `Grid.BuildManagers` | machine.go:85-93 | managers are built in spec order; the first failure is returned through the corrected `BuildError`, so a nil spec is reported, not a crash; managers already built keep running; a pinger failure closes the shared client once more, and any other outcome (success, a nil spec, a missing client) leaves its close count unchanged |
| `Grid.AddMachineItems` | machine.go:105-115 | machine i is listed with its name, FQDN and shortcut i; more than 26 machines crash |
| `Grid.MachineStatusGrid` | machine.go:64-118 | build errors first, through the corrected `BuildError`, with the shared client closed once more only after a pinger failure and otherwise untouched; otherwise the first machine is selected and shown, and every machine is listed under its letter; an empty list crashes |

## Findings

| source | as written | input that shows it | evidently intended | confidence | as-written member | corrected member |
|---|---|---|---|---|---|---|
| machine.go:87-90 | when `NewManager` fails, the error is wrapped with `spec.Name`, which dereferences the spec | a machine list containing a nil entry, for example a null item under `machines:` | return the construction error ("spec is required") | high; not executed | `Grid.BuildErrorAsWritten`, `Grid.NilSpecCrashesBuilder` | `Grid.BuildError` |

## Left out

- Goroutines, locks and timed loops (`watchServices`, `machineStatus.run`, `time.After`, `go p.Run()`) are left out. The poll loop is modelled as one `Tick`: `updateServiceStatus` then `updateVersion`. Reader/writer locking and torn reads are not modelled.
- ICMP echo through the go-ping library is reduced to a `Pinger` with a `running` flag. Whether `ping.NewPinger` succeeds is the input set `resolvable` of addresses it can resolve. Each reply is an explicit `OnReceive` call carrying the clock reading.
- The Talos RPC client (`ServiceList`, `Version`, `client.WithNodes`) is left out. Its replies are `Result` parameters. Only `Close` is modelled, as a call counter.
- `time.Now` and `time.Since` are replaced by an integer nanosecond clock passed in as `now`.
- Rendering is left out: `machineDetail`, `render`, the tview layout and `QueueUpdateDraw`. `net.IP.String()` is reduced to "text of the address, or `<nil>`".
- config/config.go, config/talos.go and main.go are not part of this model. They load files, decode YAML and start the process.
- `log` diagnostics and the text of the wrapped errors are left out. Errors are the structured values `ManagerError` and `GridError`.
- `Display.ToLower`: lower-cases ASCII letters only. Go's `strings.ToLower` also maps other Unicode letters, so a state like "SKIPPED" spelt with a non-ASCII capital is modelled as unrecognised.
- `Facts.Reset`: the service entries are values. In the program they are pointers, and the reset writes through them, so any other holder of the same entries would see the change. It would panic on a nil entry. Neither aliasing nor nil entries are modelled.
- `Grid.BuildManagers`: follows the corrected error path of "## Findings". For a nil spec it reports `BuildFailed(None, SpecRequired)`, where the program as written crashes at machine.go:89. The crash itself is `Grid.BuildErrorAsWritten`.
- `Grid.MachineStatusGrid`: inherits the corrected error path from `Grid.BuildManagers`. A nil spec gives `BuildFailed(None, SpecRequired)` instead of the program's crash.
- `Machine.Manager.Version`: its contract holds while `VersionTracked()` does. `NewManager` establishes it, and only `UpdateVersion` and `Tick` write the version, both of which keep it.
- `Machine.Manager.OnReceive`: requires the kind's pinger to be registered and running. Replies delivered after `Stop`, in a race with the pinger's shutdown, are not modelled.
- `Liveness.ReplayNeverGoesBack`: takes clock order of the replies as a hypothesis (time.Now is monotonic). It does not derive it.
- The `IPMI`, `HostV4` and `HostV6` flags of `Status` are carried but never written, as in the program.
