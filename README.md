# image_grabber fleet coordination, modelled in Dafny

image_grabber runs a photogrammetry rig: many cameras and a few shutter/flash controllers are
coordinated by one HTTP server. Every device polls the server; the answer tells it to report its
options, to apply a configuration, or to fire. A trigger gateway polls as a "controller" and relays
configuration and fire commands to the hardware controllers on its LAN over UDP, and reports back
once they have all received the configuration.

This project models the two parts that hold that logic:

- `server.dfy` (module `Server`) — the coordination state of `server.py` as a class `Store`. Its
  fields are the heartbeat map, the options catalog, `options_received`, the `configuration`
  assignment, the `configured` acknowledgments and the fire flag. There is one method per endpoint,
  and the poll's priority chain is the pure function `Decide`. Time is an integer `now`
  parameter in ticks.
- `catalog.dfy` (module `Catalog`) — the options catalog merge of `update_options`: every choice
  list shrinks to the choices the reporting camera also offers. The `to_del` + `list.remove` loops
  are modelled as written and proved equal to an order-preserving filter.
- `packet.dfy` (module `Packet`) — the 118-byte binary configuration command the gateway builds:
  default-merged payload, truncated flash-power byte, three big-endian 16-bit flash durations and
  24 big-endian (open, close) pairs. It is proved to decode back to its fields.
- `gateway.dfy` (module `Gateway`) — the gateway of `trigger.py` as a class `Gateway`: the
  controller table updated by datagrams (announce, capture complete, received configuration), the
  all-ready barrier that notifies the server, and one round of the poll loop. Datagrams sent and
  notifications posted are recorded in the `sent` and `upstream` fields.
- `wrappers.dfy` — an `Option` type.

## Model

| member | source | states |
|---|---|---|
| `Server.Alive` | server.py:65-69 | a device is alive iff it has a heartbeat whose time is strictly later than `now - 3 * interval` |
| `Server.TouchedIsAlive` | server.py:52-57 | after a poll at time `t` the device is alive exactly for queries before `t + 3 * interval`; every other device's liveness is unchanged |
| `Server.SnapshotAlive` | server.py:143-151 | the loop over the heartbeats assigns the same payload to exactly the alive devices and marks each of them unacknowledged |
| `Server.AckEachMarks` | server.py:98-103 | after a series of acknowledgments every acknowledged id is present and true; every other id keeps its presence and value |
| `Server.AckEachIdempotent` | server.py:98-103 | replaying the same acknowledgments changes nothing more |
| `Server.AssignThenPending` | server.py:152-157 | after an explicit assignment, a polling device has exactly its own payload pending, or nothing if it is not targeted |
| `Server.AssignThenAckAll` | server.py:83 | once every targeted device has acknowledged (any order, any repetitions), no device has a configuration pending and every assigned key has an acknowledgment entry |
| `Server.Decide` | server.py:74-91 | the poll answer: options are requested iff a camera has not reported; a configuration is returned iff options are not requested and one is pending; fire is returned iff a controller polls, the flag is set and nothing is pending; the interval is a tenth iff a controller gets no configuration; the three outcomes exclude each other |
| `Server.OptionsBeforeConfiguration` | server.py:74-79 | a camera that has not reported its options gets only the options request, even with a configuration pending |
| `Server.FireIsOneShot` | server.py:85-90 | a controller poll that sees the flag set gets fire, and the next controller poll after the flag is cleared does not |
| `Server.AckUnassignedInvisible` | server.py:98-103 | acknowledging an unassigned id adds an entry but changes the answer to no poll |
| `Server.Store.constructor` | server.py:53 | the store starts empty: no heartbeats, no catalog, no assignment, fire unset |
| `Server.Store.UpdateHeartbeat` | server.py:52-57 | `heartbeats[id]` becomes `now`; every other entry is unchanged |
| `Server.Store.AliveDevices` | server.py:59-70 | the listed devices are exactly the alive ones, each listed once |
| `Server.Store.Heartbeat` | server.py:71-91 | records the poll, answers with `Decide`, and clears the fire flag exactly when the answer carries fire; every assigned id keeps an acknowledgment entry |
| `Server.Store.Fire` | server.py:93-96 | the fire flag is set |
| `Server.Store.UpdateConfigured` | server.py:98-109 | `configured[id]` becomes true, whether or not `id` is assigned, and nothing else changes |
| `Server.Store.UpdateOptions` | server.py:111-138 | the first report becomes the catalog as it is and does not mark the camera; a later report replaces the catalog by `Catalog.Merge` and marks the camera; a report that cannot be merged changes nothing |
| `Server.Store.ConfigureAlive` | server.py:160-170 | the assignment is replaced by the snapshot of the alive devices, all unacknowledged, and the count answered is the number of alive devices |
| `Server.Store.ConfigureExplicit` | server.py:172-181 | the assignment is replaced by exactly the given map, all unacknowledged |
| `Catalog.RemoveFirst` | server.py:125 | `list.remove` shortens the list by one and removes exactly one occurrence of the value |
| `Catalog.KeepCount` | server.py:117-126 | after pruning, a choice occurs as often as before if the report offers it and not at all otherwise |
| `Catalog.KeepMember` | server.py:121-123 | a choice survives iff the catalog had it and the report offers it |
| `Catalog.KeepAppend` | server.py:121-125 | pruning distributes over concatenation, so survivors keep their relative order |
| `Catalog.DroppedAppend` | server.py:119-123 | the `to_del` list of a concatenation is the concatenation of the two `to_del` lists |
| `Catalog.KeepIdempotent` | server.py:121-125 | pruning a pruned list by the same report changes nothing |
| `Catalog.KeepAllOffered` | server.py:121-125 | a list whose every choice is offered is left unchanged |
| `Catalog.RemoveFirstDropped` | server.py:124-125 | removing the first entry of `to_del` keeps the survivors and leaves the rest of `to_del` to remove |
| `Catalog.DroppedHeadNotOffered` | server.py:122-123 | the first choice collected for deletion is one the report does not offer |
| `Catalog.NothingDropped` | server.py:124-125 | a list with nothing left to delete consists of exactly its surviving choices |
| `Catalog.PruneChoices` | server.py:119-125 | the two loops over one setting leave exactly the previous choices that the report offers, in their original order |
| `Catalog.MergeSectionReport` | server.py:118-125 | the loop over a reported section prunes every named setting and fails exactly when a named setting is missing, or lacks `choices` while the catalog's list is non-empty |
| `Catalog.MergeReport` | server.py:117-126 | the loop over the report's sections computes `Catalog.Merge`, failing exactly when the source raises |
| `Catalog.MergeShrinks` | server.py:117-126 | a merge keeps every section and setting, adds none, keeps attributes and whether choices exist, never increases a choice's count, and leaves unnamed settings untouched |
| `Catalog.DroppedStaysDropped` | server.py:117-126 | a choice missing from the catalog is missing after every later merge |
| `Catalog.MergedChoices` | server.py:117-126 | a reported setting exists in the catalog; it carries `choices` when the catalog's list is non-empty; a choice survives iff both lists have it |
| `Catalog.MergeWithItself` | server.py:111-126 | a camera's second report identical to the catalog is accepted and changes nothing |
| `Catalog.UnknownSettingRefused` | server.py:120 | a report naming a setting the catalog lacks is refused |
| `Catalog.MissingChoicesRefused` | server.py:121-122 | a report without `choices` for a setting with a non-empty catalog list is refused |
| `Packet.Ascii` | trigger.py:82 | the ASCII encoding has one byte per character |
| `Packet.U16` | trigger.py:87 | a 16-bit value packs into two bytes, high byte first, that read back as the value |
| `Packet.Words` | trigger.py:86-87 | the flash durations take two bytes each |
| `Packet.PairWords` | trigger.py:88-90 | the channel pairs take four bytes each |
| `Packet.WordsRoundTrip` | trigger.py:86-87 | reading back the written words gives the original values |
| `Packet.PairWordsRoundTrip` | trigger.py:88-90 | reading back the written pairs gives the original pairs |
| `Packet.WordsAppend` | trigger.py:86-87 | one more loop iteration appends exactly the next word |
| `Packet.PairWordsAppend` | trigger.py:88-90 | one more loop iteration appends exactly the next pair |
| `Packet.WordsAt` | trigger.py:86-87 | word `i` is at bytes `2i`, `2i+1` |
| `Packet.PairWordsAt` | trigger.py:88-90 | channel `c`'s open and close times are at bytes `4c` to `4c+3` |
| `Packet.DecodeFrame` | trigger.py:81-90 | every command with three flash durations decodes to the network id, power, durations and pairs it was built from |
| `Packet.BuildFrame` | trigger.py:81-90 | the `append`/`extend` loops build exactly the specified command |
| `Packet.Merged` | trigger.py:69-75 | each payload key present overrides its default; each missing one takes open 100, close 200, power 0.5, flash 150 |
| `Packet.PowerByteTruncates` | trigger.py:77 | the power byte is 2.55 times the power truncated toward zero |
| `Packet.EncodableInRange` | trigger.py:76-90 | encodable settings give field values that fit the command's bytes and words |
| `Packet.FrameFlashAt` | trigger.py:86-87 | flash duration `i` is the word at bytes `16+2i`, `17+2i` |
| `Packet.FrameChannelAt` | trigger.py:88-90 | channel `c`'s pair follows the flash durations, four bytes per channel |
| `Packet.BuildConfigurationPacket` | trigger.py:76-90 | the field values computed from the settings, then the command built from them, equal the specified command |
| `Packet.PacketLayout` | trigger.py:76-90 | the command is 118 bytes: the 13-byte tag, the network id, 24, the power byte, three durations of `flash_time*10` and 24 pairs `(open_time*10, close_time*10)` |
| `Packet.DefaultPayloadPacket` | trigger.py:69-90 | an empty payload is encodable and gives power byte 1, durations 1500 and pairs (1000, 2000) |
| `Gateway.ParseTagged` | trigger.py:29-30 | a datagram of a tag followed by a network id parses back to that tag and id |
| `Gateway.AnnounceKeepsKnown` | trigger.py:31-33 | an announcement records a new id as unknown at the sender's address, and leaves known records and every other id untouched |
| `Gateway.UnknownReportIgnored` | trigger.py:34-39 | a status report from an unknown id changes nothing |
| `Gateway.NotifiesWhenOthersReady` | trigger.py:37-44 | a "received configuration" from a known controller notifies the server iff every other controller is already ready |
| `Gateway.NotifiesAgainWhileReady` | trigger.py:37-44 | while all controllers are ready every further report notifies again and changes nothing |
| `Gateway.BarrierScenario` | trigger.py:37-44 | with one controller ready and one configuring, the second's report notifies, a duplicate notifies again, the first's does not; with no controllers every report notifies |
| `Gateway.WithStatus` | trigger.py:79-80 | setting every status keeps every network id and address |
| `Gateway.CommandNamesController` | trigger.py:83 | no two controllers receive the same command, since each carries its own network id |
| `Gateway.AddCommand` | trigger.py:79-91 | sending one more controller its command appends exactly that command, and adds it to the set of commands for the controllers done so far |
| `Gateway.ShippedStep` | trigger.py:79-91 | one more loop iteration keeps the record of what was sent: the earlier datagrams, then one command per controller done |
| `Gateway.ShippedAll` | trigger.py:79-91 | after the loop the earlier datagrams are kept, followed by exactly one command per controller (as a multiset, `Commands` of all of them), each to a single address |
| `Gateway.MarkingStep` | trigger.py:79-80 | one loop iteration marks exactly one more controller and leaves the rest as they were |
| `Gateway.MarkingEnds` | trigger.py:93-94 | before the status loop the table is unchanged; after it every controller has the new status |
| `Gateway.SleepTime` | trigger.py:98-100 | the wait is never negative and ends no earlier than the next poll time, waiting only as long as needed |
| `Gateway.DataAtFireTest` | trigger.py:81-92 | as written, `data` at the fire test is the server's reply iff no configuration arrived or no controller is known; otherwise it is the command of the last controller the loop visited |
| `Gateway.ShadowedReplyExample` | trigger.py:81-96 | a configuration reply with controller 5 known leaves `data` bound to controller 5's command at the fire test |
| `Gateway.Gateway.constructor` | trigger.py:19 | the gateway starts with no controllers, listening, and nothing sent |
| `Gateway.Gateway.AllControllersReady` | trigger.py:40-43 | the `for`/`else` answers true iff every known controller is ready |
| `Gateway.Gateway.HandleDatagram` | trigger.py:25-44 | datagrams from the gateway's own addresses are skipped; an empty one stops the listener; otherwise the table becomes `Receive` of it and one notification is posted iff `Notifies` |
| `Gateway.Gateway.MarkAll` | trigger.py:93-94 | every controller gets the given status; network ids and addresses are unchanged |
| `Gateway.Gateway.SendOne` | trigger.py:80-91 | one controller is marked configuring and its command is sent to its own address |
| `Gateway.Gateway.SendConfiguration` | trigger.py:79-91 | every controller is marked configuring; the visit order lists each controller once; the datagrams sent are the earlier ones followed by each visited controller's own command to its own address, in visit order |
| `Gateway.Gateway.Poll` | trigger.py:64-96 | one poll round reading the server's reply: the table becomes `AfterReply`; when a configuration arrives the loop's commands follow the earlier datagrams (`Shipped`), otherwise nothing is sent before the fire broadcast; a fire reply broadcasts `fire` last; the next poll time is `now` plus the reply's interval |
| `Gateway.Gateway.PollAsWritten` | trigger.py:64-96 | the round as written ends without a next poll time iff a configuration arrived while a controller was known; it then has kept every earlier datagram and appended one configuration command per known controller, in a visit order that covers each controller exactly once, marked every controller configuring and broadcast no `fire`; otherwise it behaves as `Poll` |

## Left out

- The Redis store, its transactions and JSON encoding: the five keys are fields of one object and
  every endpoint runs to completion before the next (no concurrency). A missing `configuration`,
  `configured` or `fire` key reads as an empty map or `false`, which the poll treats identically.
- Flask routing and request parsing. The `serial` and `type` fields are method parameters; a
  request missing them, which raises in the source, cannot be expressed.
- The GET branches of `/capture/configure` and `/capture/configure_all`, `/options`, and the Ceph
  image endpoints: reads of stored state or foreign storage, with nothing to prove.
- Time and intervals are integer ticks rather than floating-point seconds; the tenth interval is
  the abstract `Interval.Tenth`, and the gateway's poll interval is an integer.
- Sockets, threads, the 10-second discovery broadcaster, the HTTP poll and the post upstream.
  Datagrams are recorded in `sent`, posts in `upstream`, and the reply is a parameter. The
  gateway's own addresses are a fixed set rather than a host-name lookup.
- A tag that is not valid UTF-8 makes the source's listener raise; the model treats it as an
  unrecognised tag. Datagrams longer than 1024 bytes, which the source truncates, are not modelled.
- Packet.PowerByteTruncates: flash power is an integer in hundredths and the power byte is
  `power * 255 / 10000` truncated toward zero, exact where the source multiplies floating-point
  values; at full power (flash_power 100, 10000 hundredths) the model gives 255 where the source's
  `100 * 2.55` is 254.99999999999997 and truncates to 254.
- The controller table and report maps are visited in an unspecified order (`:|`), so the model
  states the commands sent as a multiset rather than in Python's dictionary order.
- Gateway.Gateway.Poll: requires that a received configuration be encodable (power byte 0-255,
  times that fit 16 bits after scaling) when any controller is known, because the source raises
  while building the command otherwise.
- Gateway.Gateway.PollAsWritten: requires, as `Poll` does, that a received configuration be
  encodable when any controller is known. With a power byte outside 0-255 or a scaled time that
  does not fit 16 bits, the source raises at trigger.py:85 or :87-90 partway through the command
  loop, after the controllers visited so far were marked configuring and sent their commands; that
  partial round is not modelled.
- Acknowledging a device with no pending assignment adds an entry for it to the configured map,
  and that entry changes the answer to no poll (`Server.AckUnassignedInvisible`). The gateway
  notifies the server on every received report while all controllers are ready
  (`Gateway.NotifiesAgainWhileReady`). The power byte is truncated toward zero.
- camera_driver.py (camera SDK glue) and projector.py (display driver) are not part of this model.

## Findings

| source | as written | input that shows it | evidently intended | confidence | as-written member | corrected member |
|---|---|---|---|---|---|---|
| trigger.py:81-96 | the command loop rebinds `data`, the name of the server's reply, to the last command built, so the fire test `'fire' in data` at line 92 is a str-in-bytearray test, which raises TypeError in Python 3; line 96 is never reached and the poll loop ends | a reply carrying a configuration while controller 5 is known | the fire test and the next poll time read the server's reply | high, not executed | `Gateway.Gateway.PollAsWritten` | `Gateway.Gateway.Poll` |
