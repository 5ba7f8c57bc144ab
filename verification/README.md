# PAI: a verified model of its protocols, cipher and state store

PAI (Paradox Alarm Interface) talks to Paradox alarm panels over a serial line or an IP module, keeps
the state of zones, partitions and outputs in memory, and publishes every change. This project models
the parts of it that carry state or arithmetic, and proves what they are for:

- **The block cipher** (`Gf256`, `CryptoTables`, `TableFacts`, `CipherSteps`, `Rounds`, `Fips197`,
  `BlockCipher`, `Crypto`). The lookup tables of the source are proved to be the functions of FIPS 197;
  decryption undoes encryption for every message and key; every block is AES-256 of FIPS 197 between two
  transpositions. Bytes are bit vectors; the in-place key schedule, the memo and the block loops are
  methods proved against functions.
- **Requests and replies** (`Handlers`, `SendWait`). The handler registry is a class. `send_wait` is a
  transition system over any number of tasks, one lock and the registry, in which messages, timeouts
  and cancellations happen at any time; the theorems hold in every reachable state.
- **The poll loop** (`PollLoop`). When it gives up for missing replies.
- **The EEPROM batch reader** (`Eeprom`). It reads what reading field by field reads, in the fewest
  possible requests.
- **The stream framers** (`Peeling`, `SerialFramer`, `GsmFramer`). What is delivered depends on the
  bytes received and not on the chunks; nothing is lost.
- **Merging and status** (`DeepMerge`, `DictObjects`, `Status`, `StatusTables`). `deep_merge` in place, on
  objects that refer to each other, and on values; where every leaf of the RAM blocks ends up in the
  status table, first over plain dictionaries and then over element containers.
- **The state store** (`Containers`, `ElementContainers`, `Storage`, `StorageRuns`, `MemoryStorages`,
  `Partitions`, `StatusUpdates`). The element container keeps its text index right; the published changes
  mirror the store over every run; partition states; a whole status update on the store object, which may
  be repeated any number of times.
- **Wire formats** (`IpMessage`, `DottedAddresses`, `Stun`). IP module messages, on top of the cipher, and
  STUN messages.

The classes hold the state that the source's objects hold. Functions say what a method computes, and
lemmas say what is promised about those functions. Python exceptions are results (`None`, a flag or an
ending). Python dictionaries are maps, with a separate list of keys where their order matters.

Two habits keep the proofs cheap. A predicate over objects or whole states often has a `match` for its
body: Dafny then does not unfold it in every goal that mentions it. And a quantifier over pairs of items
often ranges over a named predicate that is its only trigger, to be asserted where it is needed.

## Where the code and its description differ

- `tests/lib/README.md` calls the cipher custom, with a custom key schedule and S-box. The code is
  AES-256 of FIPS 197 with the state loaded row by row and the last block padded with 0xEE
  (`Crypto.IsAes`).
- A comment in `paradox/data/memory_storage.py:73` says that an initial value is not notified. The code
  publishes it like any other change (`Storage.ApplyMirrors`).
- The text of `filter` in `paradox/data/element_type_container.py:22` says that textual keys are not
  supported. It keeps the right items for them too, as long as elements have text keys; without, an
  element of equal value can be taken for another (`Containers.IndexIsPlaceIff`,
  `Containers.DeletesTheTwin`).
- `build_connect_request` always declares a body of 12 bytes; that is true exactly of an address of 8
  bytes (`Stun.ConnectRequestNeedsEightBytes`), and not of the 6 bytes that the client makes from a host
  and a port (`Stun.ConnectRequestFromHost`).
- `deep_merge` keeps every leaf of both sides exactly when no leaf stands where the other side has a
  dictionary (`DeepMerge.MergeKeepsLeavesIff`, `DeepMerge.DictDisplacesLeaf`).
- Merging into an element container under a text key stores the element a second time under that key,
  which breaks the index (`Containers.MergeItemAgreesIff`, `Containers.StoresTwice`).
- Status items that name an element by a text of digits in one block and by the number in another meet in
  one element (`StatusTables.ConvertIsPlainIff`, `StatusTables.DigitsShareAnElement`). An item for an element
  whose name is the property "key" of another element ends up in that one (`StatusTables.KeyFindsAnother`).

## Model

| member | source | states |
|---|---|---|
| TableFacts.XtimeTblIsXtime | paradox/lib/crypto.py:8-41 | each entry of the doubling table is multiplication by {02} in GF(2^8) |
| TableFacts.SBoxIsSubByte | paradox/lib/crypto.py:109-141 | each S-box entry is the affine map of the inverse in GF(2^8), section 5.1.1 of FIPS 197 |
| TableFacts.InvSBoxInverts | paradox/lib/crypto.py:142-174 | the inverse S-box undoes the S-box on every byte |
| Crypto.PrepareInverseMixColumnParts | paradox/lib/crypto.py:189-205 | the four tables built from logarithms list the products with {0e}, {0b}, {0d} and {09} |
| Crypto.LoadTables | paradox/lib/crypto.py:8-205 | after import, all tables are the operations of FIPS 197 |
| Crypto.StandardAlgebra | paradox/lib/crypto.py:182-205 | those tables are additive where the cipher needs it, and the products combine as the inverse column step needs |
| CipherSteps.InvMixColumnInverts | paradox/lib/crypto.py:292-313 | the table-driven inverse column step undoes the doubling-based column step on every state |
| CipherSteps.InvRoundUndoesRound | paradox/lib/crypto.py:277-331 | a round of decryption undoes the round of encryption with the same key |
| BlockCipher.DecryptEncryptBlock | paradox/lib/crypto.py:381-476 | fourteen rounds back undo fourteen rounds forth, whatever the key schedule |
| BlockCipher.DecryptEncrypt | paradox/lib/crypto.py:245-478 | decrypting a ciphertext returns the message padded with 0xEE to whole blocks, so its first bytes are the message |
| Crypto.RoundTrip | paradox/lib/crypto.py:245-478 | the same for the tables of the source, with the exact ciphertext length |
| BlockCipher.ScheduleHolds | paradox/lib/crypto.py:207-242 | every word of the expanded key is the word of section 5.2 of FIPS 197 under the first 32 padded key bytes, at its row-by-row place |
| BlockCipher.EncryptBlockRefines | paradox/lib/crypto.py:257-363 | encrypting one state refines the cipher of section 5.1 of FIPS 197 round by round |
| BlockCipher.ChunkAt | paradox/lib/crypto.py:253-365 | block i of the output depends on block i of the padded message alone |
| Crypto.IsAes | paradox/lib/crypto.py:245-367 | every block of every padded message is AES-256 between two transpositions |
| Crypto.Keygen | paradox/lib/crypto.py:208-242 | the array filled in place is the key schedule; an empty key raises; every index, computed by mask and shift, is in bounds |
| Crypto.MaskedIsOffset | paradox/lib/crypto.py:221-240 | for every word number the masked and shifted index is the place of the word: its column within a group of four words, sixteen bytes a group |
| Crypto.ExpandWord | paradox/lib/crypto.py:219-240 | one turn of the expansion loop, at masked and shifted indices, adds exactly the next word and leaves the others alone |
| Crypto.CopyKey | paradox/lib/crypto.py:216-217 | the triple loop puts every key byte at its transposed place |
| Crypto.Memoized.Call | paradox/lib/utils.py:121-132 | the memo returns the schedule of the key asked for, and never changes a cached one |
| Crypto.EncryptMessage | paradox/lib/crypto.py:245-367 | the loops compute the function that the theorems are about, through the memo |
| Crypto.DecryptMessage | paradox/lib/crypto.py:370-478 | likewise; trailing bytes short of a block are dropped |
| Rounds.UnwindIterate | paradox/lib/crypto.py:414-465 | undoing rounds in reverse order undoes the whole iteration |
| Handlers.DispatchAt | paradox/lib/handlers.py:43-53 | a future is resolved by a dispatch exactly if it is pending, accepts the message and no handler before it raises; nothing else changes |
| Handlers.DispatchFlags | paradox/lib/handlers.py:111-128 | a dispatch raises exactly if some handler does, and counts as handled exactly if a handler it reaches takes the message |
| Handlers.HandlerRegistry.Handle | paradox/lib/handlers.py:105-128 | the loop over the handlers leaves the futures and flags that a dispatch defines; a handler registered twice ends up as its first entry does |
| Handlers.HandlerRegistry.Remove | paradox/lib/handlers.py:88-90 | removes exactly the first entry of that handler, keeping the order of the others, and reports if it was missing |
| Handlers.HandlerRegistry.Append | paradox/lib/handlers.py:84-86 | adds the handler at the end, registered already or not |
| SendWait.StepKeepsInv | paradox/paradox.py:363-429 | every step of every task, message, timeout or cancellation keeps the invariant of lock, handlers and attempts |
| SendWait.TransientHandlers | paradox/lib/handlers.py:97-103 | in every reachable state at most one transient handler is registered, by the lock holder, inside the wait that registered it |
| SendWait.NoLeftoverHandler | paradox/lib/handlers.py:101-103 | no handler outlives its wait |
| SendWait.WritesAndOutcomes | paradox/paradox.py:381-429 | a call writes at most `retries` times; with a message, a timeout is raised only after exactly that many writes; None is returned only without an expected reply or without attempts |
| SendWait.RepliesAreGenuine | paradox/paradox.py:392-412 | a returned reply satisfies the caller's predicate, was dispatched to that caller's registered pending future, and followed a write |
| SendWait.ResolvedOnce | paradox/lib/handlers.py:43-53 | no run resolves the same future twice |
| SendWait.CallsEnd | paradox/paradox.py:379-429 | a call takes at most 3 * retries + 1 steps of its own, however it is interleaved |
| SendWait.NeverStuck | paradox/paradox.py:385-427 | while a call is unfinished, some task can move or the external lock holder can let go |
| PollLoop.Loop | paradox/paradox.py:277-314 | the counter is the largest excess of failures over all suffixes of the poll history; the loop ends as that history says |
| PollLoop.OnePoll | paradox/paradox.py:283-300 | one poll moves the counter to the new largest excess, or ends the loop |
| PollLoop.GivesUpExactlyAtBadWindow | paradox/paradox.py:291-296 | the loop gives up exactly at the first poll that completes a window with four more failures than successes |
| Eeprom.GreedyIsOptimal | paradox/hardware/panel.py:231-252 | no other split of the list into contiguous runs within the limit has fewer runs |
| Eeprom.BatchReader | paradox/hardware/panel.py:227-263 | the loop ends; every address, in order and once, is yielded with the bytes at that address, all of them unless the field length is 0 or a read is refused; the requests are a greedy split of what was read, and a refused one is for a batch that may follow it |
| Eeprom.FetchBatch | paradox/hardware/panel.py:259-263 | cutting one answer gives each field its own bytes |
| Eeprom.ReadIsWithinLimitAndOptimal | paradox/hardware/panel.py:237-247 | if a field fits, every request is within the limit and the requests are the fewest possible |
| Eeprom.WithinLimitExactly | paradox/hardware/panel.py:242-247 | all answered requests keep the limit exactly if a single field does, or there is no address, or the panel refuses the first field |
| Peeling.ParseUnique | paradox/connections/protocols.py:112-148 | a stream has at most one division into items and rest under a lawful rule |
| Peeling.ParseExtends | paradox/connections/protocols.py:107-108 | parsing more input after a leftover gives the parse of the whole |
| SerialFramer.CalculateChecksum | paradox/hardware/common.py:4-9 | the byte is the sum modulo 256 |
| SerialFramer.Checksum | paradox/connections/protocols.py:18-29 | accepts exactly data of the minimum length whose last byte is the sum of the others modulo 256; raises exactly for no data with no minimum |
| SerialFramer.BuildFrame | paradox/hardware/common.py:4-27 | PacketLength writes the length of the whole frame or fails from 256 bytes on; the frame is well formed for the framer exactly if the first byte makes the framer take its length from the second |
| SerialFramer.NextItem | paradox/connections/protocols.py:112-148 | one turn delivers the announced frame, drops one byte, or waits for more |
| SerialFramer.SerialConnectionProtocol.DataReceived | paradox/connections/protocols.py:107-148 | after any chunk the object holds the parse of everything received so far |
| SerialFramer.ChunksDoNotMatter | paradox/connections/protocols.py:107-148 | two objects that have received the same bytes have delivered the same frames and hold the same leftover |
| SerialFramer.CutTwice | paradox/connections/protocols.py:107-148 | so have two objects fed a stream in any two cuttings |
| SerialFramer.BytesConserved | paradox/connections/protocols.py:136-148 | frames and dropped bytes in order, then the buffer, are all input; the leftover is at most 65534 bytes, and over 254 only after a head nibble 0xC |
| SerialFramer.DeliveredFramesAreGood | paradox/connections/protocols.py:139-146 | every delivered frame passes the checksum and has the length it announces |
| SerialFramer.WellFormedStreamDelivered | paradox/connections/protocols.py:112-146 | a concatenation of well-formed frames is delivered as exactly that list, leaving nothing |
| GsmFramer.SerialConnectionProtocol.DataReceived | paradox/interfaces/text/gsm.py:31-55 | after any chunk the object holds the parse of everything received, and has delivered the non-empty segments of the old leftover and the chunk, except the first one equal to the pending echo |
| GsmFramer.SerialConnectionProtocol.SendMessage | paradox/interfaces/text/gsm.py:27-29 | writes the message and CRLF, and remembers it as the pending echo |
| GsmFramer.TextsAreSegments | paradox/interfaces/text/gsm.py:34-50 | the texts are exactly the non-empty segments between CRLFs, and the leftover what follows the last CRLF |
| GsmFramer.EchoSuppressedOnce | paradox/interfaces/text/gsm.py:51-55 | of a run of texts, exactly the first one equal to the pending echo is left out, and uses it up |
| GsmFramer.RestHasNoCrlf | paradox/interfaces/text/gsm.py:35-38 | the leftover holds no CRLF, also when a chunk ended between CR and LF |
| GsmFramer.DeliveryOfStream | paradox/interfaces/text/gsm.py:31-55 | both together, for any input |
| DeepMerge.MergeKeepsLeavesIff | paradox/lib/utils.py:63-82 | a merge holds at every path what both sides hold there, the later leaf or both lists, if and only if no leaf is displaced by a dictionary |
| DeepMerge.DictDisplacesLeaf | paradox/lib/utils.py:76-77 | a leaf whose later value is a dictionary is lost |
| DeepMerge.MergeAllLeaves | paradox/lib/utils.py:84 | merging blocks of one shape never raises and holds at every path what the blocks hold, in block order |
| DeepMerge.ListsConcatenated | paradox/lib/utils.py:69-75 | with extend_lists, a list path holds the first list and then the concatenation of the blocks' lists |
| DeepMerge.ListsFromNothing | paradox/lib/utils.py:67-75 | and from an empty start the concatenation of the blocks' lists, if one block has a list there |
| DeepMerge.LastBlockWins | paradox/lib/utils.py:76-81 | other paths hold the leaf of the last block that has one |
| DeepMerge.MergeCannotRaise | paradox/lib/utils.py:63-82 | without extend_lists no merge raises |
| DictObjects.DeepCopy | paradox/lib/utils.py:68 | a copy has the same value and only new objects |
| DictObjects.MergeInto | paradox/lib/utils.py:63-82 | the first dictionary object becomes the merge in place; the second and everything in it is unchanged; it raises exactly where a merge does, with the keys before that merged, the others as before and nothing shared |
| DictObjects.DeepMergeInto | paradox/lib/utils.py:62-84 | the reduction over all inputs, none of which is changed if the initializer shares nothing with them; all objects added to the initializer are new |
| DictObjects.DeepMergeFirst | paradox/lib/utils.py:64-65 | without an initializer the first input becomes the merge and is returned, the others are not changed; without inputs the result is None |
| Status.ParseKeepsLeaf | paradox/parsers/status.py:38-56 | every public leaf of an item is in the parsed item, at its place |
| Status.ParseInventsNothing | paradox/parsers/status.py:38-56 | every leaf of the parsed item is a public leaf of the item, and is at its place |
| Status.NumberedPlacement | paradox/parsers/status.py:44-47 | `{i: v}` under a property name is found at element i, that property |
| Status.FlagsPlacement | paradox/parsers/status.py:48-54 | `{i: {p: v}}` is found at element i, property p |
| Status.PlainPlacesLeaf | paradox/parsers/status.py:23-35 | over plain dictionaries, if property names do not collide, every public leaf of every item is under its element type, at its place |
| StatusTables.ConvertRawStatus | paradox/parsers/status.py:23-35 | the loops over items and elements, merging into element containers, compute the conversion that the theorems are about |
| StatusTables.MergeElementIsMergeItem | paradox/data/element_type_container.py:62-63 | on dictionaries, merging one element is the merge step of Containers |
| StatusTables.MergeParsedIsPlain | paradox/parsers/status.py:33 | for elements that go by no indexed text and by no text of digits, merging a parsed item into the container is the plain merge of its dictionaries |
| StatusTables.ConvertIsPlainIff | paradox/parsers/status.py:23-35 | as long as no element goes by the property "key" of an element of its type, the containers hold what plain dictionaries would if and only if no element goes by a text of digits |
| StatusTables.DigitsShareAnElement | paradox/data/element_type_container.py:113-117 | elements "5" and 5 of one type share an element, and the later value is found for both |
| StatusTables.WithoutKeyProperty | paradox/data/element_type_container.py:97-98 | without a property "key" nothing is indexed, and the conditions on the index are met |
| StatusTables.KeyFindsAnother | paradox/data/element_type_container.py:84-91 | an item for element "a" is merged into element 1 if that has the property "key" "a", and found under both |
| StatusTables.ConvertPlacesLeaf | paradox/parsers/status.py:23-35 | for ordinary keys and property names that do not collide, every public leaf of every item is found, looked up as the container does, under its element type at its place |
| StatusTables.ConvertInventsNothing | paradox/parsers/status.py:23-35 | and every leaf that is found under a key that is not indexed comes from such an item |
| StatusTables.ConvertRaisesIff | paradox/parsers/status.py:26-28 | the conversion raises exactly if some public key is no text |
| StatusTables.PipelinePlacesLeaf | paradox/paradox.py:285-318 | from RAM blocks to the table: every public leaf of the blocks, taken together in block order, is found at its place |
| StatusTables.BlockLeafIs | paradox/lib/utils.py:69-81 | taken together means the concatenation of all lists, or the last of other values |
| StatusTables.PipelineInventsNothing | paradox/paradox.py:285-318 | and every leaf that is found under a key that is not indexed is one of the blocks' leaves, taken together in block order |
| Containers.LookupsAgree | paradox/data/element_type_container.py:84-91 | lookup by id and by text key give the same element object, and get_index gives its place |
| Containers.SetItemAgreesIff | paradox/data/element_type_container.py:93-98 | an assignment keeps the index right if and only if the element fits: unique, not numeric, stable text key |
| Containers.DelItemAgrees | paradox/data/element_type_container.py:100-111 | a deletion removes one item and its text entry, keeps the index right, and raises exactly if nothing is found |
| Containers.IndexIsPlaceIff | paradox/data/element_type_container.py:65-72 | get_index gives an element's own place if and only if no earlier element has an equal value |
| Containers.DeletesTheTwin | paradox/data/element_type_container.py:100-111 | a concrete container in which deleting one element removes another of equal value |
| Containers.InPlace | paradox/data/element_type_container.py:65-72 | numbered elements and elements with text keys are always found at their place |
| Containers.FilterKeepsSelected | paradox/data/element_type_container.py:20-32 | filter keeps exactly the selected items that exist, in order, and the index right, in whatever order it deletes |
| Containers.MergeItemAgreesIff | paradox/data/element_type_container.py:62-63 | merging into an existing element keeps the index right if and only if the key is its place |
| Containers.StoresTwice | paradox/data/element_type_container.py:62-63 | a concrete container in which merging under the text key stores the element twice |
| Containers.MergeNewAgreesIff | paradox/data/element_type_container.py:62-63 | merging a new element keeps it right if and only if the element fits |
| Containers.MergeItemsAgree | paradox/data/element_type_container.py:62-63 | merging any list of items keeps the index right if each changes an element at its place, without its text key, or adds a new one that fits |
| Containers.RunAgrees | paradox/data/element_type_container.py:6-117 | over any sequence of set, delete, filter and merge with unique, stable, non-numeric text keys the index agrees with the dictionary |
| ElementContainers.ElementTypeContainer.Get | paradox/data/element_type_container.py:74-91 | the lookup through the index, then the dictionary |
| ElementContainers.ElementTypeContainer.GetIndexOf | paradox/data/element_type_container.py:65-72 | the loop finds the first key of equal value |
| ElementContainers.ElementTypeContainer.Set | paradox/data/element_type_container.py:93-98 | dictionary and index change together |
| ElementContainers.ElementTypeContainer.Delete | paradox/data/element_type_container.py:100-111 | dictionary and index change together, also where it raises |
| ElementContainers.ElementTypeContainer.SelectKeys | paradox/data/element_type_container.py:34-60 | "all" and "0" select everything, needles what they find |
| ElementContainers.ElementTypeContainer.Filter | paradox/data/element_type_container.py:20-32 | deletes what is not selected; with a right index exactly the selected items remain |
| ElementContainers.ElementTypeContainer.DeepMergeItems | paradox/data/element_type_container.py:62-63 | found elements change in place and keep their identity; what is stored under a missing key, and whatever the container has gained, are new objects |
| Storage.ApplyMirrors | paradox/data/memory_storage.py:41-80 | what one call publishes, replayed, gives what it stored; each old value is the value before |
| Storage.SilentIff | paradox/data/memory_storage.py:66-69 | plain values are published exactly if one of them is not there yet |
| Storage.ReapplyIsSilent | paradox/data/memory_storage.py:66-69 | applying the same values again publishes nothing and changes nothing |
| StorageRuns.UpdateObjectMirrors | paradox/data/memory_storage.py:29-80 | one call's log mirrors its effect on the whole store; no other element changes |
| StorageRuns.UpdateObjectGood | paradox/data/memory_storage.py:21-39 | a call keeps every index right and does not raise |
| StorageRuns.RunMirrors | paradox/data/memory_storage.py:29-80 | over any run of calls the log, replayed by container, key and property, gives the stored value; changes chain; the rest is as before |
| MemoryStorages.MemoryStorage.GetContainer | paradox/data/memory_storage.py:18-19 | a missing container is created empty, no other changes, and the log still tells what the store holds |
| MemoryStorages.MemoryStorage.GetContainerObject | paradox/data/memory_storage.py:21-27 | the element found, or a new object with its key, stored and indexed; nothing else in the whole store changes and nothing is published; the store gains new objects only |
| MemoryStorages.MemoryStorage.ApplyUpdates | paradox/data/memory_storage.py:41-80 | the loop changes the element in place and publishes as the specification says |
| MemoryStorages.MemoryStorage.UpdateContainerObject | paradox/data/memory_storage.py:29-80 | the call does to the whole store and to the log exactly the step that the run theorems are about, and keeps the index of every container and the agreement of log and store; the store gains new objects only, so that calls can follow each other |
| MemoryStorages.MemoryStorage.StoredIsPublished | paradox/data/memory_storage.py:66-80 | whatever calls have been made, every stored property is the last value published for it, or what it was at the start |
| Partitions.StatesAfterRefresh | paradox/paradox.py:768-793 | the states after a refresh: exit delay before alarm before arming; the target is left alone in an alarm |
| Partitions.SecondRefreshIsSilent | paradox/paradox.py:763-795 | a second refresh of a partition publishes and changes nothing |
| Partitions.RepeatedRefreshIsSilent | paradox/paradox.py:763-795 | nor does a second refresh of all partitions |
| Partitions.TargetsStayPlain | paradox/paradox.py:768-793 | no refresh makes a target state "triggered" or "arming" |
| Partitions.CallRefreshes | paradox/paradox.py:795 | the call with the partition's own text key finds that partition, and is a step of the run theorems |
| Partitions.UpdatePartitionStates | paradox/paradox.py:763-795 | a missing container is created; the loop over the store refreshes every partition once and publishes accordingly, up to the first partition without "key", where it raises; the other containers stay as they are, and a store that its log mirrors stays one, all its partitions refreshed |
| Partitions.RefreshReached | paradox/paradox.py:763-795 | refreshing any list of partitions continues a run: index, growth and the agreement of log and store are kept |
| StatusUpdates.ProcessTroubles | paradox/paradox.py:728-743 | each trouble with a boolean state is stored by one call, others are skipped; the last call stores whether some trouble is on, and that is what the store then says |
| StatusUpdates.UpdateType | paradox/paradox.py:703-724 | the elements of a type are stored in order, those that are neither dictionary nor list skipped, up to the first list, on which the call asserts |
| StatusUpdates.OnStatusUpdate | paradox/paradox.py:692-726 | the calls for troubles and elements are a run from the store, the partitions are refreshed afterwards unless a list has made a call raise, and the log mirrors the store throughout; the call can be repeated |
| StatusUpdates.CallKeepsLookable | paradox/data/memory_storage.py:21-27 | a call keeps every partition where its "key" finds it, a new partition included |
| IpMessage.BuiltLength | paradox/connections/ip/parsers.py:92-177 | building succeeds exactly up to 65535 bytes and with a key if encrypted; the exact length of the result |
| IpMessage.ParseBuild | paradox/connections/ip/parsers.py:78-177 | parsing a built message gives back header and payload; what follows is swallowed, or makes an encrypted message unreadable exactly if it is no whole number of blocks |
| IpMessage.FlagsRoundTrip | paradox/connections/ip/parsers.py:104-114 | the flag byte gives back all eight flags |
| IpMessage.LengthRoundTrip | paradox/connections/ip/parsers.py:98-102 | the two length bytes, low byte first, give back the length |
| DottedAddresses.DottedToBytes | paradox/lib/stun.py:190-201 | the dotted text of four octets is encoded as these octets, exclusive-or'ed with the magic cookie if asked for |
| Stun.AddressRoundTrip | paradox/lib/stun.py:190-244 | a mapped address decodes to the dotted text and the port number it was encoded from, plain or exclusive-or'ed |
| Stun.ReadAttributes | paradox/lib/stun.py:247-280 | the loop computes the reading that the theorems are about; it ends |
| Stun.ReadsEncoded | paradox/lib/stun.py:247-280 | a body laid out as in section 15 of RFC 5389 is read attribute by attribute, in order, up to its end |
| Stun.ParseAllAt | paradox/lib/stun.py:257-273 | every attribute appears once, parsed as by itself |
| Stun.BindingRequestCarriesNothing | paradox/lib/stun.py:83-88 | a valid request with an empty body |
| Stun.ChangeRequestCarriesItsAttributes | paradox/lib/stun.py:91-114 | a valid request with its true length and exactly its three attributes |
| Stun.ConnectionBindRequestCarriesItsId | paradox/lib/stun.py:117-135 | likewise with the connection id |
| Stun.RefreshRequestCarriesItsLifetime | paradox/lib/stun.py:138-153 | likewise with a lifetime of ten minutes |
| Stun.ConnectRequestNeedsEightBytes | paradox/lib/stun.py:156-174 | the connect request declares its true length if and only if the address has eight bytes |
| Stun.ConnectRequestFromHost | paradox/lib/stun.py:322-333 | the address made from a host and a port has six bytes, so that request declares two bytes more than it has |

## Left out

- Crypto.LoadTables: the literal tables are functions of their index.
- Crypto.EncryptMessage: the rounds of one block are applied as functions to a 16-byte block, where the source rebinds a tuple.
- SendWait.StepKeepsInv: building the message from its type, which may raise before the first attempt, and exceptions of `write` other than ConnectionError. Time is a step that may happen at any moment.
- Handlers.HandlerRegistry.Handle: a dispatch runs without interruption; callbacks that suspend, or that change the registry while it is being traversed, and `remove_by_name` are not part of this model. In SendWait each wait registers a handler of its own.
- PollLoop.Loop: the busy lock, the waiting between polls, and the merging of the answers, which is in DeepMerge and StatusTables.
- Eeprom.BatchReader: the reader is drained to its end; a caller that stops early is not modelled. What callers do with the fields (decoding labels, definitions and their index arithmetic) is left out.
- SerialFramer.SerialConnectionProtocol.DataReceived: the length mode is fixed for the life of the object; switching it between chunks changes how the leftover is read.
- SerialFramer.BuildFrame: the message definitions around PacketLength and PacketChecksum; the fields are their bytes.
- GsmFramer.SerialConnectionProtocol.DataReceived: losing the connection, which clears buffer and echo.
- DictObjects.DeepCopy: list objects are values here, so that a copied list is another list object is not captured.
- DictObjects.MergeInto: for the same reason aliasing between lists is not captured. A value under both keys is taken out while it is merged and put back afterwards, also if the merge raises; a callback that looked at the first dictionary in between would see it missing. What a nested merge that raises has made of the value under its key is described for that merge, not as a function of the outer inputs. The order of keys in a merged dictionary is not modelled.
- DictObjects.DeepMergeInto: inputs that share objects with the dictionary merged into.
- StatusTables.ConvertPlacesLeaf: an element that goes by the property "key" of an element of its type is shut out, as its place then depends on the order of the items (StatusTables.KeyFindsAnother). The order of keys in the table is not modelled. The containers are values with element identities; ElementContainers has the object that changes in place.
- StatusTables.ConvertRawStatus: a property "key" that is a list or a dictionary, which cannot be hashed, raises TypeError in the source; here it is not indexed, and the theorems shut it out.
- StatusTables.ConvertInventsNothing: what is found under an indexed text is not described.
- Containers.RunAgrees: elements are dictionaries; a container value that is none, a "key" that cannot be hashed, Python's equality of True and 1, digits outside ASCII, and `reindex` of a container made from a dictionary are left out.
- StorageRuns.RunMirrors: runs are of elements that have text keys, calls that leave the property "key" alone and new elements whose text key is no number; other calls break the index as Containers.SetItemAgreesIff says. Limits and the filtering of status updates before they are applied are left out.
- StatusUpdates.OnStatusUpdate: the status table is a list of types with lists of elements, with keys already transformed as the containers hold them and no property "key"; the time synchronisation that may follow, and what subscribers do to the store when a change is published, are left out.
- MemoryStorages.MemoryStorage.UpdateContainerObject: likewise. Containers that are filled or filtered directly, as labels are loaded and limits applied, are taken over by the ghost method Adopt, from which on the log is read.
- Partitions.UpdatePartitionStates: the "key" of a partition, if it has one, is a text or a number under which the container finds that partition; otherwise the call would create an element in the container that is being traversed.
- IpMessage.ParseBuild: the defaults of omitted header fields, and the names that Enum fields give to known numbers; a field is its byte. The rest of the construct library is not part of this model.
- Stun.AddressRoundTrip: ports are 16-bit numbers; what int() takes beside digits (signs, spaces, underscores) is None in DottedAddresses.FromDecimal. The names of attributes, `is_error` and `get_error` are left out.
- `IPConnectionProtocol.data_received`: it decides by the latest chunk and one length byte, so its result depends on the chunks.
- Event and property maps, character sets, message formatting, the interfaces to MQTT, push services and home automation, configuration, logging and sockets: tables, text and input or output.
