# A verified model of the Signal client's store, worker and message list

This project models three connected parts of the client and proves what they
keep.

**The durable store.** A write-back cache of sessions with a dirty set
(`PddbStore`, `SessionStoreExt`) lies over a layer that defers writes while a
batch is open (`Buffering`), which lies over a client that streams values in
chunks, packs batches into one 3800-byte buffer and parses paged key lists
(`PddbBackend`, `BatchWire`, `KeyListWire`), which talks to a key-value server
(`PddbServer`). Each layer is shown to be the plain map it stands for, and so is
the stack: `Buffering.RunRefines`, `SessionPlain.RunRefinesPlain`. `FlushFailure`
and `AccountWipe` say what a failed flush or commit costs and that a wiped
account stays wiped. `EntryHistory` follows one key through any run of batches,
rollbacks and failed writes; `LayerHistory` and `SessionFaults` say what the batch
layer and the sessions answer in runs in which the server refuses requests.
`KyberModel` with `KyberPreKeys`, and `ThreadMessages`, are two users of the store
whose promises span such runs.

**The worker.** `WorkerModel` is the dispatcher and the manager task that owns the
receive stream as a step machine; `ManagerTask` and `HandleSend` are the same
code as it runs, over the store above, and are shown to follow that machine.
`Reconnect` proves that the machine gives up, `TaskLife` when exactly it ends, in
which order it works and what it announces, `SendLedger` that every send is
accounted for and how a deferred one ends.

**The message list.** `Dialogue` and `MessageStore` are the bounded buffer and
the conversation list derived from it. `EndToEnd` joins them to the worker: UI,
command channel, worker and events in every interleaving; `SharedStamps` says for
which sends that works.

## How things are modelled

- Objects whose methods change their fields are classes with specifications;
  what the specifications promise over whole runs is proved about pure states
  and relations (`SessionModel.Snap`, `WorkerModel.Worker`, `EndToEnd.System`).
- Iteration over a hash map or set is an arbitrary order.
- Names are UTF-8 byte strings (RFC 3629, section 4), because the caps count
  bytes. A legacy JSON session bundle never starts with byte 0x01, since a JSON
  text does not (RFC 8259, section 2); the version byte decides. Nor is a JSON
  text empty: where a write torn to nothing matters, the legacy decoder is taken
  to refuse the empty value.
- The server may fail any request, accept part of a write and stop a batch after
  any prefix, unless it is `reliable`. Failure properties say what is in doubt;
  properties that need the writes to arrive say `reliable`.
- Records, envelopes and message contents are byte strings with an assumed round
  trip of their encodings. The bincode body of a session bundle is real.
- How a send ends is one of four outcomes per attempt; the text match for a
  closing websocket and for "403 Forbidden" is part of those inputs. The clock
  enters as a number with each step.
- Close codes 4401 and 4409 are private use (RFC 6455, section 7.4.2), 1001 is
  defined in section 7.4.1.
- The backoff of 1.5 to the power n - 1 seconds is computed in integers,
  rounded down as the cast to an integer does.

## Where the code and its documentation differ

The model follows the code.

- `crates/presage-store-pddb/src/protocol/kyber_pre_key_store.rs:13-18` says that
  the same triple twice is an error. Only the latest base key of a pair is
  remembered: `KyberModel.OlderBaseKeyPassesAgain`. When exactly a use is
  refused is `KyberModel.RefusedExactlyWhenLatest`.
- The real `put` deletes before it writes, so a failing `put` can lose the old
  value. A failed flush loses no session exactly when every session of the
  address it stopped at is in the cache before it:
  `FlushFailure.NothingLostExactlyWhen`. A value cut short makes its address
  unreadable, and every later flush or deletion there fails:
  `FlushFailure.TornPutUnreadable`.
- A commit that fails after the in-batch flush leaves sessions clean that are not
  on disk, and the commit is made even if the flush failed. It is harmless exactly
  when no session was in the buffer and every dirty one already read the same
  below: `FlushFailure.CommitDurableExactlyWhen`. `SendComplete` is sent whatever the
  commit did: the event clause of `HandleSend.Sender.HandleSend` does not depend
  on the store.
- `delete_dict` inside a batch is not undone by an abort.
- Comments in the worker speak of a failure counter that a successful open
  clears; only a stream item clears it.
- The header's unread total is added up in 32 bits and wraps in a release build:
  `Dialogue.TotalIsCount` says exactly when it is right.

## Model

| member | source | states |
|---|---|---|
| BatchWire.DecodePackedBatch | crates/xous-pddb-ipc/src/api.rs:484-500 | any accepted list of entries, packed and terminated, decodes by the documented layout to the same entries in the same order, whatever stale bytes follow |
| BatchWire.EntryLayout | crates/xous-pddb-ipc/src/api.rs:484-500 | one packed entry byte by byte: dictionary behind its length, key behind its length, two length bytes low before high, value |
| BatchWire.DecodeEntryRoundTrip | crates/xous-pddb-ipc/src/api.rs:484-500 | one entry reads back field for field and leaves exactly the bytes behind it |
| BatchWire.RefusedIsNotAccepted | crates/xous-pddb-ipc/src/client.rs:545-601 | an entry refused at its turn means that no packing of the whole batch meets the caps |
| BatchWire.PackBatch | crates/xous-pddb-ipc/src/client.rs:545-601 | the packing loop succeeds exactly when names of 1 to 110 and at most 94 bytes and values of at most 65535 are all there is and the entries plus terminator fit 3800 bytes; the buffer then decodes to the entries; otherwise the error is that of the first offending entry and no write leaves the buffer |
| KeyListWire.PageUnique | crates/xous-pddb-ipc/src/api.rs:427-431 | a page, completely full or terminated, holds at most one list of names |
| KeyListWire.MalformedHoldsNothing | crates/xous-pddb-ipc/src/client.rs:420-468 | a page with a record that overruns it or is not UTF-8 holds no list of names at all |
| KeyListWire.ParsePage | crates/xous-pddb-ipc/src/client.rs:420-468 | on arbitrary page bytes the parser stays in bounds, ends, returns the page's names if it holds any, and fails exactly when it holds none |
| KeyListWire.ListingUnique | crates/xous-pddb-ipc/src/client.rs:380-469 | a sequence of replies drains to at most one listing |
| KeyListWire.DrainKeys | crates/xous-pddb-ipc/src/client.rs:380-469 | draining returns names exactly when the replies are a complete listing, and then their concatenation page by page |
| KeyListWire.FlattenMembers | crates/xous-pddb-ipc/src/client.rs:380-469 | a drained listing names exactly the names on its pages |
| PddbServer.PddbServer.ListPages | crates/xous-pddb-ipc/src/api.rs:427-431 | the server's pages, drained, name every key of the dictionary once |
| PddbServer.PddbServer.WriteKeyBatch | crates/xous-pddb-ipc/src/api.rs:484-500 | the batch opcode decodes the packed buffer and applies all entries, or fails after applying some prefix of them |
| PddbBackend.TailSurvives | crates/presage-store-pddb/src/backend_pddb.rs:188-222 | an overwrite without the pre-delete reads back as the new value if and only if the old one was no longer |
| PddbBackend.OverwriteTwice | crates/xous-pddb-ipc/src/client.rs:925-963 | two adjoining chunk writes are one write of both |
| PddbBackend.KeyHandle.Read | crates/xous-pddb-ipc/src/client.rs:835-880 | a read returns the bytes at the position, up to one chunk, and advances by what it returned |
| PddbBackend.KeyHandle.Write | crates/xous-pddb-ipc/src/client.rs:925-963 | a write may be accepted in part; what is accepted lands at the position, which advances by that much |
| PddbBackend.KeyHandle.WriteAll | crates/xous-pddb-ipc/src/client.rs:925-963 | against any server that accepts at least a byte at a time the write loop ends with the whole value stored; a failure leaves a proper prefix |
| PddbBackend.PddbBackend.Get | crates/presage-store-pddb/src/backend_pddb.rs:160-186 | the chunked read loop ends and returns exactly the stored value, absent as None |
| PddbBackend.PddbBackend.Put | crates/presage-store-pddb/src/backend_pddb.rs:188-222 | success stores exactly the new value for every old and new length; failure leaves the key as it was, absent, or with a proper prefix of the new value, and no other key changed |
| PddbBackend.PddbBackend.PutBatch | crates/presage-store-pddb/src/backend_pddb.rs:224-245 | success applies all entries; a batch refused by the packer changes nothing; any failure has applied some prefix |
| PddbBackend.PddbBackend.Delete | crates/presage-store-pddb/src/backend_pddb.rs:247-262 | afterwards the key is absent, an already absent key counting as success |
| PddbBackend.PddbBackend.DeleteDict | crates/presage-store-pddb/src/backend_pddb.rs:264-274 | afterwards the dictionary has no key, other dictionaries being untouched |
| PddbBackend.PddbBackend.ListKeys | crates/presage-store-pddb/src/backend_pddb.rs:276-292 | the dictionary's keys, each once; a missing dictionary lists as empty |
| Buffering.StepRefines | crates/presage-store-pddb/src/buffering_backend.rs:161-375 | each operation of the layer does to what readers see what one plain map, with a fallback while a batch is open, does |
| Buffering.RunRefines | crates/presage-store-pddb/src/buffering_backend.rs:161-375 | for every sequence of operations readers see exactly the plain map |
| Buffering.BatchReplays | crates/presage-store-pddb/src/buffering_backend.rs:195-285 | any prefix of the drained puts, in any order, leaves every key at its old value, its buffered value or on the way between them |
| Buffering.ReplayedIsOverlay | crates/presage-store-pddb/src/buffering_backend.rs:195-285 | once every buffered entry is replayed the backend below equals what readers saw |
| Buffering.BufferingBackend.BeginBatch | crates/presage-store-pddb/src/buffering_backend.rs:161-170 | succeeds exactly when no batch is open; a refusal changes nothing |
| Buffering.BufferingBackend.CommitBatch | crates/presage-store-pddb/src/buffering_backend.rs:195-285 | always empties the buffer and closes the batch; success leaves below exactly what readers saw and counts the entries, also when the bulk write failed after any prefix and the puts were replayed singly; a failure touches no key that was not buffered |
| Buffering.BufferingBackend.ReplayPuts | crates/presage-store-pddb/src/buffering_backend.rs:195-285 | falls back from the bulk write to one put per entry, for any order of the entries |
| Buffering.BufferingBackend.ReplayDeletes | crates/presage-store-pddb/src/buffering_backend.rs:195-285 | every buffered delete is tried even after a failure and the first error is kept |
| Buffering.BufferingBackend.AbortBatch | crates/presage-store-pddb/src/buffering_backend.rs:293-300 | readers see the backend below again, which is unchanged |
| Buffering.BufferingBackend.Get | crates/presage-store-pddb/src/buffering_backend.rs:303-317 | a buffered put or delete hides what is below |
| Buffering.BufferingBackend.Put | crates/presage-store-pddb/src/buffering_backend.rs:319-328 | deferred without failing while a batch is open, straight through otherwise |
| Buffering.BufferingBackend.Delete | crates/presage-store-pddb/src/buffering_backend.rs:330-338 | deferred without failing while a batch is open, straight through otherwise |
| Buffering.BufferingBackend.DeleteDict | crates/presage-store-pddb/src/buffering_backend.rs:340-350 | drops the dictionary's buffered entries and deletes it below at once, so an abort does not bring it back |
| Buffering.BufferingBackend.ListKeys | crates/presage-store-pddb/src/buffering_backend.rs:352-375 | keys below, plus buffered puts, minus buffered deletes, each once: the keys readers see |
| EntryHistory.HoldsLatest | crates/presage-store-pddb/src/buffering_backend.rs:161-375 | one key over every run of puts, deletes, dropped dictionaries, batches, commits, aborts and failed writes holds what the latest write not rolled back put there, and its first value if none stands |
| LayerHistory.ReadsLatest | crates/presage-store-pddb/src/buffering_backend.rs:161-375 | the same of the layer: in every run in which any request may be refused each key reads as its latest standing write left it, unless that write was refused; refusals for other keys do not matter |
| SessionBundle.AnyOrderRoundTrip | crates/presage-store-pddb/src/protocol/session_store.rs:122-146 | the versioned bincode body reads back to the same bundle for every iteration order of the map |
| SessionBundle.EntryLayout | crates/presage-store-pddb/src/protocol/session_store.rs:122-131 | one entry byte by byte: the device in four bytes and the record length in eight, lowest first, then the record |
| SessionBundle.ValueLayout | crates/presage-store-pddb/src/protocol/session_store.rs:122-131 | a stored value opens with 0x01 and the number of devices in eight bytes, lowest first |
| SessionBundle.Serialize | crates/presage-store-pddb/src/protocol/session_store.rs:122-131 | what is written is the version byte, the count and every device once, and deserializes to the same bundle whatever the legacy decoder does |
| SessionBundle.TornValueUnreadable | crates/presage-store-pddb/src/protocol/session_store.rs:136-146 | a stored bundle cut short anywhere does not read |
| SessionModel.LegacyReads | crates/presage-store-pddb/src/protocol/session_store.rs:136-146 | a value that does not begin with 0x01 reads as what the old decoder finds in it, device by device |
| SessionModel.NextKeepsInv | crates/presage-store-pddb/src/lib.rs:463-504 | every operation keeps: dirty keys are cached, every clean cached session equals what the backend, buffer included, decodes, and an unflushed batch can be aborted without losing a cached session |
| SessionModel.RunKeepsInv | crates/presage-store-pddb/src/protocol/session_store.rs:206-272 | that invariant holds at every point of every run mixing session operations, batches, aborts and writes elsewhere |
| SessionModel.NextRefinesMap | crates/presage-store-pddb/src/protocol/session_store.rs:206-272 | load, flush, batch edges and writes elsewhere leave the session map alone; store, delete and delete-all do what the plain map does |
| SessionPlain.NextRefinesPlain | crates/presage-store-pddb/src/protocol/session_store.rs:206-272 | one step of the stack, aborts included, is one step of a plain store with what is current, what is saved and what an abort falls back to |
| SessionPlain.RunRefinesPlain | crates/presage-store-pddb/src/protocol/session_store.rs:206-272 | over every run, with batches, commits and aborts, the layers together are one plain store from identity, name and device to record |
| SessionModel.AbortSessions | crates/presage-store-pddb/src/buffering_backend.rs:293-300 | an abort keeps every cached session and every session the store knew |
| SessionModel.IdentitiesApart | crates/presage-store-pddb/src/protocol/mod.rs:171-197 | an operation on one identity never touches the other's sessions |
| SessionModel.FlushThenCommitIsDurable | crates/xous-signal-worker/src/lib.rs:1892-1953 | flush, then commit: nothing dirty, no batch, and dropping the cache afterwards loses no session |
| SessionModel.SessionDictsDiffer | crates/presage-store-pddb/src/protocol/mod.rs:171-177 | the two identities' session dictionaries have different names |
| SessionModel.SessionPlaces | crates/presage-store-pddb/src/protocol/mod.rs:171-177 | an address's bundle is under its name in "signal.protocol.aci.session" or "signal.protocol.pni.session" |
| PddbStore.PddbStore.LoadSession | crates/presage-store-pddb/src/protocol/session_store.rs:206-251 | answers the session the map holds, at an address with an old value the one the old decoder finds; a miss caches the address's whole bundle behind what is cached already; an undecodable bundle is an error and changes nothing |
| PddbStore.PddbStore.StoreSession | crates/presage-store-pddb/src/protocol/session_store.rs:253-272 | caches and marks dirty without touching the backend |
| PddbStore.PddbStore.GetBundle | crates/presage-store-pddb/src/protocol/session_store.rs:152-163 | the bundle readers see, of an old value what the old decoder finds, empty for an absent address, an error for an unreadable one |
| PddbStore.PddbStore.PutBundle | crates/presage-store-pddb/src/protocol/session_store.rs:165-176 | writes one address's bundle, in the new encoding; a failure leaves only that address in doubt: as it was, gone, or unreadable |
| PddbStore.PddbStore.FlushSessions | crates/presage-store-pddb/src/lib.rs:463-504 | success writes every dirty session into its address's bundle, merged with the devices already there, old values included, clears the dirty set and counts the sessions; failure keeps the whole dirty set and leaves one address in doubt; a dirty session at an unreadable address makes it fail |
| PddbStore.FlushDone | crates/presage-store-pddb/src/lib.rs:463-504 | once every dirty session is written, the flush has done what the plain map says and every old value is read with the dirty devices put in |
| PddbStore.PddbStore.GroupDirty | crates/presage-store-pddb/src/lib.rs:463-504 | the groups are exactly the dirty cached sessions by address |
| SessionStoreExt.DeleteSession | crates/presage-store-pddb/src/protocol/session_store_ext.rs:79-115 | the session is gone from cache, dirty set and backend, its siblings stay; the last device takes the key with it |
| SessionStoreExt.DeleteAllSessions | crates/presage-store-pddb/src/protocol/session_store_ext.rs:117-156 | every session of the address is gone and the number returned is that of the distinct devices cached or stored |
| SessionStoreExt.GetSubDeviceSessions | crates/presage-store-pddb/src/protocol/session_store_ext.rs:43-77 | the devices with a session other than the default one that libsignal accepts, ascending, each once |
| SessionFaults.StoredIsAnswered | crates/presage-store-pddb/src/protocol/session_store.rs:206-272 | in every run in which flushes, commits, deletions and wipes may be refused part way, a session stored, and since then neither stored anew nor named in a deletion nor wiped, is what a load answers while the process lives |
| FlushFailure.FailedFlushLosesNothing | crates/presage-store-pddb/src/lib.rs:463-504 | over a backend whose failed put leaves its key alone a failed flush drops no dirty entry and changes no session |
| FlushFailure.RetryEndsTheSame | crates/presage-store-pddb/src/lib.rs:463-504 | the next successful flush ends as if the first had succeeded, for every group order in either |
| FlushFailure.LossIsConfined | crates/presage-store-pddb/src/lib.rs:463-504 | whatever a failed put did, only uncached sessions of the one address in doubt can be lost |
| FlushFailure.NothingLostExactlyWhen | crates/presage-store-pddb/src/lib.rs:463-504 | a flush outside a batch that stops at an address can lose no session, whatever it leaves there, if and only if every session stored there is cached beforehand |
| FlushFailure.FailedPutLosesNothingExactlyWhen | crates/presage-store-pddb/src/backend_pddb.rs:188-222 | the same of the real put and the bundle it writes: no outcome of its failure changes the session map if and only if all sessions of the address are cached |
| FlushFailure.TornPutUnreadable | crates/presage-store-pddb/src/backend_pddb.rs:188-222 | a put cut short is a possible outcome and leaves its address unreadable |
| FlushFailure.TornPutLosesSibling | crates/presage-store-pddb/src/backend_pddb.rs:188-222 | a concrete state in which an outcome of the failing put, its pre-delete, loses an uncached sibling device |
| FlushFailure.CommitDurableExactlyWhen | crates/xous-signal-worker/src/lib.rs:1892-1953 | whether or not the flush before it succeeded, a commit leaves every session below whatever of its replay failed, if and only if no session was in the buffer and every dirty one already read the same below |
| FlushFailure.FailedCommitLosesFlushed | crates/xous-signal-worker/src/lib.rs:1892-1953 | an instance: a failing commit after the flush loses a session at the next restart |
| AccountWipe.DeletedExactly | crates/presage-store-pddb/src/store.rs:64-92 | after the deletions exactly the keys of those dictionaries are gone, below and in the buffer |
| AccountWipe.DictsListed | crates/presage-store-pddb/src/store.rs:64-92 | the probe covers the account state and seven dictionaries of each identity by name, the wipe these and the six of contacts, groups and profiles, and nothing else |
| AccountWipe.Clear | crates/presage-store-pddb/src/store.rs:64-92 | success, even inside a batch, leaves no key of any named account or contact dictionary where a later step could bring it back, and empties cache and dirty set; an error leaves those two and a prefix of the dictionaries deleted |
| AccountWipe.AccountStaysWiped | crates/presage-store-pddb/src/store.rs:64-92 | once wiped, an account stays wiped through every later flush, load, delete, batch, commit and abort that writes no new account data |
| AccountWipe.HasAccountState | crates/presage-store-pddb/src/lib.rs:399-420 | true only if some account dictionary has a key; over a backend that answers, exactly if a key of the named dictionaries is there; false for a wiped account |
| SendPolicy.OneDecides | crates/xous-signal-worker/src/lib.rs:1809-2022 | for every behaviour of the network exactly one attempt decides a send |
| SendPolicy.SleepBound | crates/xous-signal-worker/src/lib.rs:1806-1813 | the sleeps before attempts 1 to 6 add up to 0, 2, 6, 14, 30 and 62 seconds |
| SendWork.Perform | crates/xous-signal-worker/src/lib.rs:1855-1865 | any storage calls made for a message keep an open batch open; inside a batch, or over a backend that answers, they keep the cache trustworthy, and what the last call about a session or another key wrote is there afterwards; inside a batch they reach the backend below only by deleting a dictionary |
| HandleSend.Sender.TryOnce | crates/xous-signal-worker/src/lib.rs:1826-1953 | an attempt opens its own batch, commits it after a success and leaves it open after anything else, the backend below being unchanged then unless a dictionary was deleted |
| HandleSend.Sender.RunAttempt | crates/xous-signal-worker/src/lib.rs:1892-2009 | what follows from the answer: completion after success, an error after any other failure, for a closing socket a sleep or on the sixth attempt a deadline 30 s away; only then the failed attempt's batch is dropped |
| HandleSend.Sender.FlushAndCommit | crates/xous-signal-worker/src/lib.rs:1892-1953 | flush before commit; over a backend that answers nothing is dirty, no batch is open, every session is below and nothing else readers saw has changed; otherwise any of the buffered writes may be missing below |
| HandleSend.Sender.HandleSend | crates/xous-signal-worker/src/lib.rs:1709-2022 | decided by the first attempt that is not a closing socket or by the sixth: success is announced as complete, any other answer as an error, a sixth closing socket defers the send by 30 s without a word; the sleeps are 0, 2, 6, 14, 30 or 62 s; every exit leaves no batch and an empty buffer; over a backend that answers, what is announced as complete is durable, and what the deciding attempt stored last is below; a completion is announced whatever the commit made of it; the code after the loop is never reached |
| Reconnect.CountersCount | crates/xous-signal-worker/src/lib.rs:968-1195 | the manager task's two counters are the failures and the counted 4401-then-403 failures since the last stream item |
| Reconnect.GivesUp | crates/xous-signal-worker/src/lib.rs:968-1195 | since the last stream item there are never more than 20 failures nor more than 3 counted 4401-then-403 failures |
| Reconnect.LimitsEndTheTask | crates/xous-signal-worker/src/lib.rs:1024-1136 | in every run, once 20 failures or 3 counted 403s are reached, no stream is opened and no item arrives at any later point; after the third 403 the manager task is gone |
| Reconnect.OneBannerPerOutage | crates/xous-signal-worker/src/lib.rs:1140-1145 | between two stream items a living task has shown exactly one transient error banner if there was a failure and none otherwise, never more |
| Reconnect.TerminalEventIsLast | crates/xous-signal-worker/src/lib.rs:1053-1136 | a terminal event is the last event of the manager task |
| Reconnect.ExitIsFinal | crates/xous-signal-worker/src/lib.rs:1053-1136 | after it the manager task sends nothing and opens no stream |
| Reconnect.NoOpenAfterConflict | crates/xous-signal-worker/src/lib.rs:1097-1115 | a failed open seen with close code 4409 is never followed by another open |
| Reconnect.BackoffGrows | crates/xous-signal-worker/src/lib.rs:1010-1020 | the backoff never shrinks from one failure to the next and is at most 30 s |
| Reconnect.BackoffTable | crates/xous-signal-worker/src/lib.rs:1010-1020 | the sleep after n failures: 1000, 1500, 2250, 3375, 5062, 7593, 11390, 17085, 25628 ms, and 30 s from the tenth on |
| TaskLife.EndsExactlyWhen | crates/xous-signal-worker/src/lib.rs:968-1332 | in every run the manager task ends at a closed channel, after a backoff behind 20 failures, at a failed open behind 4409, at the third counted 403, and at nothing else |
| TaskLife.LastWords | crates/xous-signal-worker/src/lib.rs:1053-1136 | what it then says last: gave up, conflicting device, login expired; nothing but overdue errors at a closed channel |
| TaskLife.RunsInOrder | crates/xous-signal-worker/src/lib.rs:972-1004 | operations run in the order handed over, none skipped; a send ends at its turn as its attempts decided, deferred ones with the deadline 30 s after their end |
| TaskLife.QueueBounded | crates/xous-signal-worker/src/lib.rs:752 | the channel never holds more than eight operations |
| TaskLife.LateSendsRefused | crates/xous-signal-worker/src/lib.rs:465-492 | a living linked task is given every send; after its end every send is refused with one error at once |
| TaskLife.SleepsBeforeReopening | crates/xous-signal-worker/src/lib.rs:1010-1064 | in every run, after a failure each attempt to open the stream has a backoff sleep of its own before it |
| TaskLife.AnnouncesOnce | crates/xous-signal-worker/src/lib.rs:1154-1206 | in every run every text received is passed on once and the start of reception is announced once, with the first open stream |
| SendLedger.NextBalanced | crates/xous-signal-worker/src/lib.rs:1417-1434 | every step of dispatcher and task keeps: sends taken equal completed plus failed plus in grace plus queued |
| SendLedger.RunBalanced | crates/xous-signal-worker/src/lib.rs:1542-1567 | in every run, for every timestamp taken at most once, the account balances, also after the manager task's end |
| SendLedger.AtMostOneOutcome | crates/xous-signal-worker/src/lib.rs:465-492 | with distinct timestamps every send gets at most one outcome event over the whole run, and none exactly while it is queued or in its grace window |
| SendLedger.DeferredEndsOnce | crates/xous-signal-worker/src/lib.rs:1417-1434 | in every run a deferred send named in a receipt before its deadline is completed at that step and never failed, and one found past its deadline is failed at that step and never completed |
| SendLedger.DeferredWaits | crates/xous-signal-worker/src/lib.rs:1542-1567 | until then it keeps its deadline and has no outcome |
| ManagerTask.Task.Dispatch | crates/xous-signal-worker/src/lib.rs:465-492 | a send is queued behind the others for a living linked task and refused with an error otherwise |
| ManagerTask.Task.SweepExpired | crates/xous-signal-worker/src/lib.rs:1542-1567 | exactly the deferred sends whose deadline is not after the clock are removed, each with one error, in any order; the others keep theirs |
| ManagerTask.Task.ProcessReceipts | crates/xous-signal-worker/src/lib.rs:1417-1434 | a delivery receipt removes and completes the deferred sends it names, each once, and means nothing for others |
| ManagerTask.Task.OpArrives | crates/xous-signal-worker/src/lib.rs:972-1004 | one operation runs while no stream holds the manager, a send to the verdict of its deciding attempt, another with whatever storage calls it makes; then the stream is reopened, with backoff after a failure; over a backend that answers the session cache stays trustworthy |
| ManagerTask.Task.OpenFails | crates/xous-signal-worker/src/lib.rs:1069-1151 | a failed open counts, ends the manager task for a conflict or an expired login, shows a banner for the first failure of an outage |
| ManagerTask.Task.BackoffOver | crates/xous-signal-worker/src/lib.rs:1010-1064 | the sleep is the table's, plus 10 s behind close code 4401 and 1 s behind 4409 or 1001; behind 20 failures the manager task gives up instead of opening |
| ManagerTask.Task.ItemArrives | crates/xous-signal-worker/src/lib.rs:1185-1206 | a stream item, whose decryption made storage calls, resets both counters and is processed; over a backend that answers what those calls wrote is there, an empty server queue leaves no session dirty, and the session cache stays trustworthy |
| ManagerTask.Task.StreamEnds | crates/xous-signal-worker/src/lib.rs:1313-1325 | the end of a stream counts as a failure, with a banner if it is the first |
| ManagerTask.Task.RunTask | crates/xous-signal-worker/src/lib.rs:968-1332 | of any answers offered exactly those possible in the state they met are handled, what the manager task does is a run of the step machine, each send to the verdict of what it met, and over a backend that answers the session cache stays trustworthy through sends, other operations, decryption and flushes |
| Dialogue.SummaryUnique | crates/xous-app-signal/src/dialogue.rs:116-161 | the messages determine a conversation's row: last message the latest among maximal timestamps, name from the last incoming message, unread count, group tag |
| Dialogue.UnreadCounted | crates/xous-app-signal/src/dialogue.rs:152-155 | the unread count is the number of the conversation's incoming messages with status sent that are not read |
| Dialogue.RowIsNamed | crates/xous-app-signal/src/dialogue.rs:134-143 | a conversation is called by its last incoming message's name, or by the short label where that is an identifier |
| Dialogue.ShortLabelReads | crates/xous-app-signal/src/dialogue.rs:205-212 | the short label is "uuid:" and the eight hex digits of the first four bytes |
| Dialogue.RawUuidsRecognised | crates/xous-app-signal/src/dialogue.rs:214-232 | every identifier is recognised with dashes and without; texts of other lengths or with other characters are names |
| Dialogue.RebuildUnique | crates/xous-app-signal/src/dialogue.rs:116-161 | two rebuilds differ only in the order of rows with equal timestamps |
| Dialogue.Absorbed | crates/xous-app-signal/src/dialogue.rs:118-156 | folding one more message into its conversation's row keeps the row right |
| Dialogue.OthersIgnored | crates/xous-app-signal/src/dialogue.rs:118-156 | messages of other conversations do not change what a row should say |
| Dialogue.FoldMessages | crates/xous-app-signal/src/dialogue.rs:116-156 | after the loop there is one right row for each conversation and no other |
| Dialogue.SortRows | crates/xous-app-signal/src/dialogue.rs:158-160 | the same rows, newest first |
| Dialogue.RebuildSummaries | crates/xous-app-signal/src/dialogue.rs:116-161 | one row per conversation, newest first, each right |
| Dialogue.TotalIsCount | crates/xous-app-signal/src/store.rs:62 | the header's total is the number of unread incoming messages exactly while that number fits 32 bits |
| Dialogue.Ellipsize | crates/xous-app-signal/src/dialogue.rs:166-179 | at most max characters; a longer text keeps its first max - 1 and ends in an ellipsis |
| MessageStore.MessageStore.PushIncoming | crates/xous-app-signal/src/store.rs:77-98 | appends after at most one eviction of the oldest row; the list is a fresh rebuild in which the conversation is called by the new message's name; if nothing is evicted one more message is unread |
| MessageStore.MessageStore.PushOutgoingPending | crates/xous-app-signal/src/store.rs:103-118 | appends a pending, read, 1:1 row after at most one eviction; the list is a fresh rebuild; if nothing is evicted the unread count stays |
| MessageStore.MessageStore.SetOutgoingStatus | crates/xous-app-signal/src/store.rs:193-203 | the newest outgoing row with the timestamp, and no other, gets the status; says whether there was one |
| MessageStore.MessageStore.MarkThreadRead | crates/xous-app-signal/src/store.rs:136-148 | the conversation has nothing unread, the others as much as before; the list is right though it is rebuilt only on a change |
| MessageStore.MessageStore.ResolveAuthorLabels | crates/xous-app-signal/src/store.rs:153-165 | identifiers standing in for the contact's name are replaced, nothing else, and a conversation shown by its identifier is then called by the name; the list is right though it is rebuilt only on a change |
| MessageStore.MessageStore.IsGroupThread | crates/xous-app-signal/src/store.rs:67-69 | the cached rows answer whether any message of the conversation has group context |
| MessageStore.MessageStore.HeaderUnread | crates/xous-app-signal/src/store.rs:62 | the cached rows count the unread messages |
| MessageStore.MessageStore.Seed | crates/xous-app-signal/src/store.rs:180-183 | appends all rows past the capacity; the list is a fresh rebuild |
| MessageStore.MessageStore.Clear | crates/xous-app-signal/src/store.rs:169-172 | no messages, no rows |
| MessageStore.PushesKeepSuffix | crates/xous-app-signal/src/store.rs:187-191 | after any pushes the buffer is a suffix of all rows, one row dropped per push once it is full, also when it was seeded past its capacity |
| MessageStore.PushesKeepLast | crates/xous-app-signal/src/store.rs:187-191 | pushes from empty leave exactly the last capacity rows in order |
| MessageStore.ThreadOfParts | crates/xous-app-signal/src/store.rs:57-59 | a conversation's messages are those of any two parts of the buffer, in order |
| StatusView.SetStatuses | crates/xous-app-signal/src/store.rs:193-203 | a status change shows for its timestamp only |
| StatusView.PushedStatuses | crates/xous-app-signal/src/store.rs:77-118 | a push shows its own status and may forget the oldest row's |
| EndToEnd.ToldAtMostOnce | crates/xous-app-signal/src/gam_app.rs:1737-1760 | in every history the UI is told at most once how a send ended, and only about sends it composed |
| EndToEnd.RowTellsOutcome | crates/xous-app-signal/src/gam_app.rs:1737-1760 | in every history a row whose timestamp nothing shares is delivered exactly after a completion, failed exactly after an error, pending exactly before either |
| EndToEnd.LeavesPendingOnce | crates/xous-app-signal/src/gam_app.rs:902-924 | in every interleaving of UI sends, worker outcomes, receipts, expiries and evictions a row whose timestamp no other outgoing row or send shares leaves pending at most once, for delivered or failed, and never goes from one to the other |
| SharedStamps.SharedTimestampMisreports | crates/xous-app-signal/src/gam_app.rs:902-924 | a history of two sends stamped alike, one completing and one failing, in which a row shown as delivered becomes failed |
| SharedStamps.SafeExactlyWhenDistinct | crates/xous-app-signal/src/gam_app.rs:902-924 | for any set of sends: in no reachable state can a row go from one outcome to the other, if and only if no two of the sends share a timestamp |
| EndToEnd.App.SendCompose | crates/xous-app-signal/src/gam_app.rs:902-924 | a group thread takes no reply; otherwise a pending row and a command, or a failed row if the worker cannot be reached |
| EndToEnd.App.HandleEvent | crates/xous-app-signal/src/gam_app.rs:1737-1760 | an outcome event sets the status of the newest row with its timestamp, a message event appends a row |
| Numerals.DottedInjective | crates/presage-store-pddb/src/protocol/kyber_pre_key_store.rs:120 | the key made of the two decimal identifiers determines both |
| Numerals.DottedReads | crates/presage-store-pddb/src/protocol/kyber_pre_key_store.rs:120 | the pair's key is the two decimal identifiers around a dot |
| Numerals.DecimalInjective | crates/presage-store-pddb/src/protocol/kyber_pre_key_store.rs:66-76 | different identifiers have different keys |
| Numerals.DecimalReads | crates/presage-store-pddb/src/protocol/kyber_pre_key_store.rs:66-76 | an identifier's key is its decimal digits, highest first, without leading zero |
| KyberPreKeys.PlacesNamed | crates/presage-store-pddb/src/protocol/mod.rs:90-101 | a key is under its decimal identifier in the identity's "kyber_prekey" dictionary, a base key under both identifiers around a dot in "kyber_meta" |
| KyberModel.RepeatIsSeparated | crates/presage-store-pddb/src/protocol/kyber_pre_key_store.rs:106-140 | in every run with batches, commits, aborts and failures two accepted uses of the same last-resort key, EC key and base key have between them an accepted use of the pair with another base key, a deletion or a failed write of the pair's memory, or an abort (or failed deletion of the memory dictionary) in the very batch that was open at the first |
| KyberModel.RefusedExactlyWhenLatest | crates/presage-store-pddb/src/protocol/kyber_pre_key_store.rs:113-130 | in every such run that began with no memory of the pair, a use of a last-resort key is refused exactly when the latest use noted for the pair and not rolled back had the same base key, unless the latest write of the pair's memory failed |
| KyberModel.OlderBaseKeyPassesAgain | crates/presage-store-pddb/src/protocol/kyber_pre_key_store.rs:13-18 | a base key used before the latest one is accepted again |
| KyberModel.OneTimeOncePerSave | crates/presage-store-pddb/src/protocol/kyber_pre_key_store.rs:131-137 | in every such run, between two accepted uses of one identifier, the first of a one-time key, a key was saved under it, a write of it failed, or the very batch open at the first use was aborted (or the deletion of the key dictionary failed in it) |
| KyberPreKeys.OpenSteps | crates/presage-store-pddb/src/buffering_backend.rs:161-170 | opening a batch of the layer is the key model's opening step |
| KyberPreKeys.CommitSteps | crates/presage-store-pddb/src/buffering_backend.rs:195-285 | a commit of the layer is the key model's commit |
| KyberPreKeys.FailedCommitSteps | crates/presage-store-pddb/src/buffering_backend.rs:195-285 | whatever a failed replay left, only the keys and pairs the batch had buffered are in doubt |
| KyberPreKeys.AbortSteps | crates/presage-store-pddb/src/buffering_backend.rs:293-300 | an abort of the layer brings back exactly the keys and memory below the batch |
| KyberPreKeys.DropSteps | crates/presage-store-pddb/src/buffering_backend.rs:340-350 | deleting a dictionary empties it above and below an open batch; a failed deletion forgets what the batch had buffered for it |
| KyberPreKeys.WipedForgets | crates/presage-store-pddb/src/store.rs:64-92 | a cleared account holds no key and remembers no base key, above an open batch or below it |
| KyberPreKeys.KyberPreKeyStore.MarkUsed | crates/presage-store-pddb/src/protocol/kyber_pre_key_store.rs:106-140 | refuses unknown keys, unreadable envelopes and the pair's latest base key without changing anything; an accepted use notes the base key or deletes the one-time key; a failed write leaves only that pair's memory in doubt |
| KyberPreKeys.KyberPreKeyStore.StoreEnvelope | crates/presage-store-pddb/src/protocol/kyber_pre_key_store.rs:66-76 | saves the key; a failure leaves only that key in doubt |
| KyberPreKeys.KyberPreKeyStore.LoadEnvelope | crates/presage-store-pddb/src/protocol/kyber_pre_key_store.rs:78-85 | the key readers see, absent, or an error for an unreadable one |
| KyberPreKeys.KyberPreKeyStore.RemoveKey | crates/presage-store-pddb/src/protocol/kyber_pre_key_store_ext.rs:50-57 | the key is gone and nothing else |
| Numerals.MessageKeyRoundTrip | crates/presage-store-pddb/src/content.rs:149 | every u64 timestamp's 16-digit key parses back to it |
| Numerals.KeyDigits | crates/presage-store-pddb/src/content.rs:149 | the key is sixteen digits 0-9 and a-f, highest first, worth the timestamp |
| Numerals.KeyOrderIsNumeric | crates/presage-store-pddb/src/content.rs:146-149 | byte order of keys is numeric order of timestamps |
| ThreadMessages.RunHolds | crates/presage-store-pddb/src/content.rs:421-483 | after any run of saves, deletions, cleared threads, batches, aborts and writes elsewhere the threads' dictionaries hold exactly the messages the run leaves |
| ThreadMessages.ReadsLatestMessage | crates/presage-store-pddb/src/content.rs:421-483 | in every run in which saves, commits and clearings may be refused, a message reads as its latest operation not rolled back left it, unless that very write was refused |
| ThreadMessages.ListingSorted | crates/presage-store-pddb/src/content.rs:446-463 | parsing, filtering and sorting a listing gives the saved timestamps in range, ascending, each once |
| ThreadMessages.RangesSplit | crates/presage-store-pddb/src/content.rs:526-538 | the listing of a range cut at a timestamp within it is that of its two halves, one after the other |
| ThreadMessages.RangeOfOne | crates/presage-store-pddb/src/content.rs:526-538 | a range of one timestamp lists its message if it is saved |
| ThreadMessages.ThreadStore.SaveMessage | crates/presage-store-pddb/src/content.rs:421-426 | stores the message under its timestamp; a failure leaves only that key in doubt |
| ThreadMessages.ThreadStore.DeleteMessage | crates/presage-store-pddb/src/content.rs:428-434 | removes the message and says whether it was there |
| ThreadMessages.ThreadStore.ClearThreadDict | crates/presage-store-pddb/src/content.rs:478-482 | the thread's messages are gone, also below an open batch; a failure forgets only what the batch had buffered for the thread |
| ThreadMessages.ThreadStore.ListMessages | crates/presage-store-pddb/src/content.rs:446-476 | one item per saved timestamp not before an included or at an excluded start, nor past an included or at an excluded end, ascending, each the saved message unless the backend fails |

## Left out

- TLS, HTTP, websocket threads and the Xous message passing: the server follows its documented opcodes, and close codes are inputs of the worker.
- The Signal protocol itself, presage and all cryptography: what a send does to the store is any sequence of storage calls, records are opaque, and a record libsignal refuses to serialize is not modelled.
- Stores built without the batch layer: the sends then write straight through.
- Contact, group, profile, sticker, EC pre-key, signed pre-key and sender-key stores: direct wrappers of the same map.
- Thread dictionary names: SHA-256 is not modelled, a thread is its dictionary name.
- Counting and maximum helpers of the pre-key stores, `message` (one lookup) and `clear_messages` (which does nothing).
- The legacy JSON session bundle: its decoder is a parameter, only the dispatch to it is modelled.
- Screens, key handling and rendering: the UI is the send of the compose box, the outcome and message events and the calls that mark, resolve and wipe; relative timestamps are not modelled.
- Relinking: one lifetime of the manager task is modelled, with its event channel open; contact sync, profile fetches and username lookups are one kind of operation, any storage calls whose answers are not modelled.
- A logout racing a send: the wipe is proved for runs without new writes after it.
- Mutex poisoning, logging, timing measurements, redaction and zeroing of memory.
- SessionStoreExt.GetSubDeviceSessions: the device identifiers libsignal accepts are a parameter, and the raw identifier used for the lookup is taken to be the address's name, which is so for ACI addresses.
- SessionStoreExt.DeleteAllSessions: likewise only for addresses whose raw identifier is their name.
- SessionModel.RunKeepsInv: an in-batch flush is followed by that batch's commit, as in `handle_send`; an abort after it would break the cache.
- KyberModel.RefusedExactlyWhenLatest: nothing is claimed while the latest write of the pair's memory has failed, which may have left any base key or none there.
- EndToEnd.LeavesPendingOnce: the row's timestamp is shared by no other outgoing row or send; `SharedStamps.SafeExactlyWhenDistinct` shows that this is exactly what is needed.
- ThreadMessages.ThreadStore.ListMessages: the thread's dictionary holds message keys only, which `ThreadMessages.RunHolds` proves of every run.
