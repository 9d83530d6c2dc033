# Citadel, verified

Citadel is a reference monitor in two halves. An SGX enclave decides; a Linux security module enforces.
A process asks the enclave for access. The enclave seals a *ticket* (process ID, object identifier,
operation) and hands it to the kernel. The kernel opens it, keeps it until the process next enters a hook,
and lets the process at the protected object while the ticket is less than fifteen seconds old. Objects and
processes that touch protected data are *in realm* ("tainted"); labels live in inodes and in extended
attributes. Every accepted message carries a random value that both ends combine into their key.

This project models the system in Dafny and proves what it is for.

## How it is built

| file | what it holds |
|---|---|
| `Options`, `Bytes`, `Wire`, `Frames` | optional values, byte strings, the memory layout of messages, authenticated encryption at both ends |
| `Tickets`, `TicketRing`, `SearchTree`, `TicketCache` | tickets as sequences; the circular rings, the reservation tree and the ticket cache, in place |
| `Labels` | labels, extended attributes and the re-entrant housekeeping between them |
| `Monitor`, `MonitorRuns`, `Guarantees`, `Terminals`, `Decisions` | every hook and record as one step of a machine; its invariant; what follows over all runs for tickets, labels and terminals; the access decision for every kind of object, pipes and declassified files among them |
| `Hooks` | the hooks on heap objects, proved equal to the machine's functions |
| `ShmPool` | the pool of shared-memory inhabitants |
| `Lsm`, `Enclave` | the two ends of the protocol, in place |
| `Citadel`, `Protocol` | both ends and the monitor together; what one exchange keeps |
| `SystemRuns`, `Sessions`, `Claims` | all runs of the whole system, in which anybody may write any frame: soundness; keys and what disturbs them; completeness |
| `Outcomes`, `Requests` | exactly when a request is approved, what the kernel then holds and for how long, and how the bytes of the request decide it |
| `ClientCache`, `ClientRuns` | libcitadel's cache in place; its runs, alone and together with the kernel |
| `Anubis`, `Blowfish` | two vendored block ciphers |

Where the source updates something in place, the model is a class or a method with loops, and its contract
ties the new state to a function on values. What the source promises is then proved of those functions and
of machines built from them.

The main results:

* **Grant soundness and completeness.** In every run of the whole system, whatever frames anybody writes to the
  kernel and whatever its tree loses, a process that opens a protected object, or passes the permission hook on
  it, got a ticket for it less than fifteen seconds before. Unless the kernel has read records from behind an
  update, the enclave had approved a request of that process to open that very object, and the request carried a
  token the kernel had given it (`SystemSoundness`); the right to a terminal goes back to an approved request in
  the same way (`SystemTerminals`). After an approved claim with OPEN, the process can open the file until its
  ticket is fifteen seconds old, whatever else the system does, unless the file is relabelled, the credential
  goes, or a process ID is stored that the tree's comparison cannot order with the others
  (`SystemCompleteness`). "Process" means process ID throughout: what waits for a process that ends goes to the
  next one with its ID (`SuccessorClaims`).
* **Decisions.** Both file hooks decide exactly by an order-free list of exemptions and otherwise by tickets, on every
  kind of object (`DecisionExact`), and in every run what is not exempt was granted less than fifteen seconds
  before (`AccessSound`). A pipe belongs to the first tainted process that touches it, along every run
  (`PipeOwnership`).
* **Requests.** A request is approved exactly when it passes every check and every message it needs gets through
  (`ApprovedExact`); it then makes the kernel store exactly the tickets that its bytes ask for (`RequestTickets`).
  After an approved declassification the file is open to every process out of realm, along every run of the system
  without a further registration (`SystemDeclassifies`); after an approved terminal request every terminal is open
  to the process while it lives (`SystemTerminal`), and to the children it forks once it has claimed the right
  (`ChildTerminal`).
* **Key agreement.** In every run in which nothing arrives out of place both ends hold the same keys whenever
  no handshake answer is on its way (`KeyAgreement`). Over all runs the keys are equal exactly when the updates
  of both ends come to the same (`KeysExact`), and a step leads from agreement to agreement exactly when it is
  harmless (`StepAgreesExact`). Frames that do not open change nothing (`ForgeryInert`).
* **Labels and taint.** The label of a file in memory agrees with the disk in every state reached by steps whose
  attribute writes for that file succeed (`LabelCoherence`, `SystemLabels`). Taint spreads along every chain of
  grants, forks and shared memory, never goes away by itself and comes from nowhere else, in every run at all
  (`TaintExact`, `SystemTaint`), and it reaches every file created if its mark is written (`FileTaintPersistence`).
* **Rings.** Insertion, splicing and expiry on circular lists are exact, node by node, down to which nodes
  are freed (`CheckTicketCache`).
* **Client cache.** A yes of the cache that does not come from an entry without a date means that the kernel has a
  live ticket, in every run of process and kernel together (`AnswerMeansLive`).
* **Ciphers.** Both directions undo each other for all keys and blocks, through the code's own loops. The Anubis key
  schedule loses nothing from round to round (`KappaInjective`), and the Blowfish tables are a chain of enciphered
  blocks (`ExpansionChain`).

Some properties that one would expect are false of the code. Each has a counterexample and an exact condition:

* Equal timestamps break both ring walks (`TiesBreakTheWalks`; exact: `ScanExact`, `ExpiryExact`).
* Tree keys that the wrapping comparison does not order get lost in a rotation (`FarKeysGetLost`; exact:
  `SearchExact`, `LinkExact`, and `OneMoreExact` for one more key). Then a live ticket no longer opens
  (`LostIsDenied`); soundness does not depend on it.
* An installation with neither REGISTER nor DECLASSIFY splits memory from disk (`NopInstallSplits`; exact:
  `InstallExact`). The enclave never sends one for a request, but a process token can be taken for one.
* A declassification is accepted as already done, and leaves the file in realm on disk, after a registration that
  set the attribute and failed at the identifier (`DeclassifyMisses`; exact: `DeclassifyExact`, and
  `DeclassifyTakesOut` for a request).
* With two cache entries for one descriptor, the first can hide one that is in date (`RefusalHides`; exact:
  `ValidatedExact`, and `RefusalExact` for at most one).
* A new file of a tainted process whose identifier cannot be written differs from its disk attributes
  (`NamelessBirth`; exact: `CreateExact`).
* The kernel does not tell its own frames from the enclave's. The token key is the handshake key, so a process
  token opens as an update or a label whenever the updates of the session cancel out, above all right after the
  handshake (exact: `SessionOpensExact`). As an update it turns the kernel's key alone (`TokenTurnsKey`), puts a
  process ID of any sign into the tree (`TokenStoresId`, `TokenLosesTickets`) and, if it announces more records
  than it holds, makes the kernel store whatever lies behind it (`OverrunStores`; exact: `UpdatesInBounds`). As a
  label it takes a file out of realm in memory (`TokenUnlabels`). What the update file gives when it is read
  opens when it is written back, and turns the kernel's key alone, always (`DumpTurnsKey`). An enclave frame
  that opens again stores its ticket again (`ReplayStores`; exact: `ReplayExact`). Short of an overrun, none of
  these stores a ticket with an operation, or a terminal right, that was not approved (`EntriesVouched`).
* Before its first answer the enclave has the zero keys it is built with, and accepts tokens that anybody can
  make (`EarlyForgery`; exact: `AuthenticExact`). The kernel stores nothing for such requests.
* A handshake answer that arrives late or twice leaves the two ends with different keys
  (`ReplayDisagrees`; exact: `LateAnswer`).
* The shared-memory hook follows a null pointer for a tainted process without tickets, such as a new child
  (`ChildFaults`; exact: `ShmFaultExact`).
* Moving the last of several cache entries to the end loses it (`LastGetsLost`; exact: `MoveExact`).

What is assumed:

* AES-GCM is ideal in the sense of sections 7.1 and 7.2 of NIST SP 800-38D taken without collisions
  (`Frames.Ideal`: a sealed frame opens under its own key and no other, and only sealed frames open;
  `IdealExists` shows that this can be met).
* A frame that opens under the kernel's key, once it is registered, or under the enclave's token key, once it has
  answered a challenge, was sealed by the enclave or the kernel since the enclave's first answer (`Unforged`);
  handshake answers come from the enclave.
* The clock is positive and moves between two insertions.
* For completeness and the exact decisions alone: the tree's comparison can order the process IDs in it
  (`Orderable`), as it can all from zero on (`NearOrderable`).
* For coherence, completeness and the taint of files alone: the extended-attribute writes that the label of the
  file depends on succeed.

Where the code and what it says of itself disagree, the code is followed. The kernel logs that an update with
a wrong signature is rejected (`lsm/src/communication/payload_io.c`, lines 162 to 164) but goes on to process
it; what makes a bad update harmless is the zeroed buffer.

## Model

| member | source | states |
|---|---|---|
| `SystemRuns.SystemSoundness` | lsm/src/common.c:361-462 | in every run of enclave, kernel and processes from boot, with any frames written by anybody and whatever the tree loses, a process that opens a protected object or passes the permission hook on it has a ticket for it stored less than 15 s before; unless the kernel has read past an update, a request of that process to open that very object was approved, for which it had a token from the kernel |
| `SystemRuns.SystemTerminals` | lsm/src/ticketing/ticket_cache.c:195-201 | in every such run a terminal right, held, pending or lost in the tree, goes back along forks to a terminal record; unless the kernel has read past an update, that record was approved for a process with a token |
| `SystemRuns.SystemTaint` | lsm/src/common.c:453-458 | along every run of the system every process and segment connected to a tainted one by grants, forks and shared memory is in realm, and no other; and so is every file that such a process creates or that is created in a directory in realm, until it is declassified, if its in_realm write succeeds |
| `SystemRuns.SystemLabels` | lsm/src/common.c:305-343 | in every such run in which the in_realm writes for this one file succeed and no label that opens leaves it split, its loaded label has the realm flag a fresh read would give, and the identifier too if that was written each time |
| `Claims.SystemCompleteness` | daemon/enclave_core/userspace_io.cpp:18-33 | after an approved CLAIM with OPEN under agreed keys, along every further run of the whole system the process can open the file and passes the permission hook on it before its ticket is 15 s old, unless a label is installed on the file, the credential goes, or a process ID was stored that the tree cannot order with the others |
| `Claims.ClaimOpens` | daemon/enclave_core/userspace_io.cpp:18-33 | the same for every further run of the kernel |
| `Claims.CoreHolds` | daemon/enclave_core/userspace_io.cpp:11-80 | an approved CLAIM with OPEN and without DECLASSIFY leaves the ticket stored and the file named by the ticket's identifier, on disk and in memory, whatever other operations it carries |
| `Claims.LabelNames` | lsm/src/communication/payload_io.c:296-317 | a registration that the kernel accepts names the file on disk and in memory and keeps the keys agreed |
| `Claims.TicketHeld` | lsm/src/communication/payload_io.c:137-176 | a ticket sent under agreed keys and written is stored, stamped after all earlier ones |
| `Sessions.KeyAgreement` | daemon/enclave_core/lsm_communication.cpp:45-50 | in every run from boot, the labelling of the daemon's socket included, in which answers arrive once, before the enclave uses its new key, and no frame is written under the key it was sealed with: while no answer is under way both token keys are the handshake key and both message keys are the handshake key combined with every accepted update |
| `Sessions.KeysExact` | lsm/src/communication/payload_io.c:121-134 | in every run from boot, without any condition on what arrives, the message keys of the two ends are equal if and only if the updates of both since their handshakes come to the same |
| `Sessions.StepAgreesExact` | lsm/src/communication/payload_io.c:75-325 | from agreement, any step of the system leads to agreement if and only if it is harmless: requests always are; an update exactly when it carries a zero key update; a label exactly when it does, or does not open, or lacks the attribute write that its acceptance needs; an answer exactly when the enclave's keys are still its own |
| `Sessions.HonestOpens` | lsm/src/communication/payload_io.c:155-157 | a frame that either end sealed, for whatever purpose, opens under exactly the key it was sealed with |
| `Sessions.SessionOpensExact` | lsm/src/communication/payload_io.c:107-108 | a frame sealed in this session after given updates opens if and only if the updates accepted until now come to the same; a process token, if and only if they cancel out |
| `Sessions.TokenTurnsKey` | lsm/src/communication/payload_io.c:137-176 | a token written to the update file while the updates cancel out turns the kernel's key alone: the ends then agree if and only if the token's process ID, nonce and first four identifier bytes are zero |
| `Sessions.TokenStoresId` | lsm/src/communication/payload_io.c:167-172 | a token that announces one record puts the process ID that four of its identifier bytes spell into the tree |
| `Sessions.TokenLosesTickets` | lsm/src/ticketing/ticket_cache.c:41-65 | if that ID cannot be ordered with those in the tree, the tree may from then on lose any reservation |
| `Sessions.OverrunStores` | lsm/src/communication/payload_io.c:167-172 | a token that announces three records makes the kernel store any record that happens to lie behind its buffer |
| `Sessions.TokenUnlabels` | lsm/src/communication/payload_io.c:257-317 | a token set as a file's install attribute while the updates cancel out takes the file out of realm in memory and renames it, and leaves the realm attribute on disk |
| `Sessions.DumpTurnsKey` | lsm/src/communication/payload_io.c:179-228 | what the kernel seals for a reader of the update file, written back, turns the kernel's key alone in every state of agreement |
| `Sessions.ReplayStores` | lsm/src/communication/payload_io.c:137-176 | an enclave frame that opens again stores its ticket again with a new stamp, and keeps agreement if and only if its key update is zero |
| `Sessions.UpdatesInBounds` | lsm/src/communication/payload_io.c:167-172 | of all frames ever sealed only process tokens can announce more records than the buffer holds, and exactly those whose fifth identifier byte is above one |
| `Sessions.LabelsInBounds` | lsm/src/communication/payload_io.c:257-265 | no label that opens makes the kernel read past its buffer |
| `SystemRuns.StepInv` | lsm/src/communication/payload_io.c:75-176 | every step of the system keeps the monitor's trace, the key history of both ends, the truth of the history of sealed frames, and that every stored record, for tickets or a terminal, asks for nothing a hook looks for or is one that an approved request is good for, unless the kernel has read past an update |
| `SystemRuns.EntriesVouched` | lsm/src/communication/payload_io.c:167-172 | whatever frame opens as an update and holds the records it announces, sealed for whatever purpose, makes the kernel store only records that ask for nothing a hook looks for or that an approved request is good for |
| `SystemRuns.LogOrigin` | lsm/src/ticketing/ticket_cache.c:175-248 | every stored ticket comes from a record of the run with the same process, identifier and operation |
| `SystemRuns.RequestAuthenticity` | daemon/enclave_core/userspace_io.cpp:83-160 | a request changes something only if it parses, its token speaks for the peer process and the policy approved; once the enclave has answered, the kernel issued that token to that process, and before, the kernel stores nothing; every record it makes the kernel store, for tickets or for a terminal, and every record it seals is one the request is good for and carries the ID of that process; a token that does not open is INVALID and changes nothing |
| `SystemRuns.TokenAuthentic` | lsm/src/communication/payload_io.c:328-373 | an unforged token that the enclave accepts for a process was issued by the kernel to that process under the current token key |
| `SystemRuns.AuthenticExact` | daemon/enclave_core/userspace_io.cpp:3-7 | every token the enclave accepts was issued by the kernel to the process it is accepted for if and only if the enclave has answered a challenge |
| `SystemRuns.EarlyForgery` | daemon/enclave_core/userspace_io.cpp:3-7 | before that, a token made by anybody under the zero key is accepted for any process |
| `SystemRuns.TokenAccepted` | lsm/src/communication/payload_io.c:328-373 | under agreed keys the enclave accepts every token the kernel issues, for the process it was issued to |
| `Sessions.HandshakeCompletes` | daemon/enclave_core/lsm_communication.cpp:13-64 | from any state an undisturbed handshake is a possible run, ends in agreement on the new key, and makes the answering process the daemon and changes nothing else in the monitor |
| `Requests.RequestTickets` | daemon/enclave_core/userspace_io.cpp:11-80 | an approved request keeps the keys agreed and makes the kernel store exactly the tickets its bytes ask for, in order and for the requesting process: operation bits at bytes 8 and 9, the subject at 10; the ticket of an OPEN names bytes 10 to 25 of a short request, bytes 92 to 107 of a path that was translated, and for a path without an identifier the one that is now written on the file |
| `Requests.ExpectedAsked` | daemon/enclave_core/userspace_io.cpp:37-52 | what the handler's branches ask for is what the bytes say, for every buffer that parses |
| `Requests.CoreTickets` | daemon/enclave_core/userspace_io.cpp:11-80 | the same for a request that is already parsed |
| `Requests.InductedName` | daemon/enclave_core/userspace_io.cpp:40-46 | the path that had no identifier carries the new one on disk at the end of the request, declassified or not |
| `Outcomes.ApprovedExact` | daemon/enclave_core/userspace_io.cpp:83-160 | between ends that agree, a request gets the answer APPROVED if and only if it passes every check and every ticket it needs is written and every label accepted |
| `Outcomes.HandleVerdict` | daemon/enclave_core/userspace_io.cpp:83-160 | which buffers are answered ERROR, INVALID, FORGED or with the policy's own verdict, read off the bytes and the sealed token at byte 26; the state is then as it was |
| `Outcomes.TicketExact` | daemon/enclave_core/lsm_communication.cpp:80-119 | between ends that agree a written ticket is a tick and an insertion with its process, identifier and operation, an unwritten one nothing, and the enclave knows which |
| `Outcomes.LabelExact` | daemon/enclave_core/lsm_communication.cpp:152-193 | between ends that agree a label is an installation on the file, accepted if and only if its identifier is written, or for a declassification if the file was not in realm or its attribute is removed |
| `Outcomes.DeclassifyTakesOut` | daemon/enclave_core/userspace_io.cpp:72-77 | after an approved request with DECLASSIFY the file is out of realm in memory and on disk if and only if it was not out of realm in memory and in realm on disk when the label arrived |
| `Outcomes.DeclassifyOpens` | lsm/src/communication/payload_io.c:267-295 | after such a request on a file whose label is in step, along every run of the kernel without a further registration, every process out of realm passes both hooks on the file without a ticket |
| `Outcomes.SystemDeclassifies` | lsm/src/communication/payload_io.c:267-295 | the same along every run of the whole system |
| `Outcomes.RequestGivesPty` | daemon/enclave_core/userspace_io.cpp:54-59 | an approved request with the PTY bit leaves the right to a terminal with the process or waiting for it |
| `Outcomes.SystemTerminal` | lsm/src/common.c:345-348 | after such a request, along every run of the whole system, every object of the terminal file system passes both hooks for the process while it lives, if the tree can order the process IDs in it |
| `Outcomes.SocketIsPublic` | daemon/enclave_core/userspace_io.cpp:163-166 | the daemon's socket file, once labelled, passes both hooks for every process along every run in which it gets no other label |
| `Requests.TicketGrew` | daemon/enclave_core/lsm_communication.cpp:80-119 | one ticket that is written, with memory for it, is stored exactly once, as sent; a record with the terminal bit alone stores none |
| `Requests.LabelGrew` | daemon/enclave_core/lsm_communication.cpp:152-193 | a label, accepted or not, stores no ticket and keeps the keys agreed |
| `SystemRuns.TokenOpens` | daemon/enclave_core/crypto/aes.cpp:10-26 | although aes_decrypt always reports success, a token that does not open has no signature and names no process |
| `Sessions.ForgeryInert` | lsm/src/communication/payload_io.c:121-176 | an update or label that does not open changes no ticket, no label and no key |
| `Sessions.LateAnswer` | lsm/src/communication/payload_io.c:94-113 | taking the enclave's last answer late or again brings the ends into agreement if and only if the updates the enclave has made since it answered cancel out |
| `Sessions.ReplayDisagrees` | lsm/src/communication/payload_io.c:94-113 | after one accepted update a replayed answer leaves the two ends with different keys |
| `SystemRuns.SystemIsMonitored` | lsm/src/common.c:361-462 | the kernel part of every system run, with any frames written, is a run of the monitor, so every guarantee over those runs holds of the system; short of an overrun every record stored in it is without an operation a hook looks for or approved, for a process with a token; each end's message key is its handshake key combined with its updates |
| `Protocol.ReplayExact` | lsm/src/communication/payload_io.c:121-134 | a message sealed under a key opens again after further updates exactly when the updates cancel out |
| `Protocol.HandleServed` | daemon/enclave_core/userspace_io.cpp:83-160 | any request keeps keys agreed, moves the monitor only by its own steps, and makes the kernel store only records the request is good for, tickets and terminal rights alike, and label only the file it names; one that is not approved changes nothing |
| `Protocol.StoreIsInsertAll` | lsm/src/communication/payload_io.c:168-172 | storing by steps of the monitor is what the kernel's record loop does, record i at the time of its tick |
| `Protocol.TicketServed` | daemon/enclave_core/lsm_communication.cpp:80-119 | the same for one ticket, whether or not the keys agree and whether or not it is written |
| `Protocol.LabelServed` | daemon/enclave_core/lsm_communication.cpp:152-193 | the same for one label, accepted or rejected; a rejected label turns neither key |
| `Protocol.FrameRead` | lsm/src/communication/payload_io.c:137-176 | the kernel reads an enclave frame as the one record sent when the keys agree, and as no record and a zero key update otherwise |
| `Citadel.TicketInBounds` | daemon/enclave_core/lsm_communication.cpp:80-119 | every frame the enclave makes lies within bounds under any kernel key; as a label the kernel sees its record under the same key and nothing under another |
| `Guarantees.GrantSoundness` | lsm/src/common.c:271-278 | in every run of the monitor, whatever the tree loses, a protected object that a process opens, or whose permission hook it passes, is one it has a ticket for, stored less than 15 s before, with the same identifier and a shared operation bit |
| `Decisions.DecisionExact` | lsm/src/common.c:361-462 | both hooks on every object: exempt exactly for the first inodes, two sides out of realm, directories, sockets, sysfs, securityfs and tmpfs, a pipe with the process's identifier, sixteen bytes of ones, the daemon, and a terminal with the right held or waiting; otherwise granted exactly when the object has a name and a stored, live ticket backs the access; else denied |
| `Decisions.ExemptAlways` | lsm/src/common.c:370-415 | what is exempt is let through whatever became of the tickets |
| `Decisions.AccessSound` | lsm/src/common.c:361-462 | in every run, whatever the tree loses, an access to any kind of object that is not exempt was granted by a ticket stored for the process less than 15 s before |
| `Decisions.PipeExact` | lsm/src/common.c:386-397 | a process other than the daemon is let through to a pipe if and only if neither side is in realm, the identifiers are equal, the pipe is public, or it has a name and a stored, live ticket backs the access |
| `Decisions.PipeOwnership` | lsm/src/common.c:280-303 | along every run without a label for it, a pipe first touched by a tainted process is open to that process while it keeps its credential, and closed to every other process in realm with another identifier and no ticket |
| `Decisions.OutOfRealmOpens` | lsm/src/common.c:370-372 | a file out of realm on disk and in memory passes both hooks for every process out of realm after every run without a registration for it |
| `Guarantees.ScanRecent` | lsm/src/common.c:429-451 | whatever the stamps in the ring, what the scan finds after housekeeping was stored for this process less than 15 s before |
| `Guarantees.GrantCompleteness` | lsm/src/common.c:429-459 | a stored ticket for a named file opens it, and passes the permission hook on it, at every moment before it is 15 s old, along every run in which no label is installed on the file, the credential stays and the tree can order the process IDs stored; labels may be refused and other attribute writes fail |
| `Guarantees.LostIsDenied` | lsm/src/ticketing/ticket_cache.c:21-39 | a process whose reservation the tree has lost is denied, although its ticket was neither dropped nor taken |
| `Guarantees.SuccessorClaims` | lsm/src/ticketing/ticket_cache.c:69-128 | what waits for a process that ends goes to the next process with its ID |
| `Terminals.TerminalOrigin` | lsm/src/ticketing/ticket_cache.c:77-81 | in every run of the monitor a terminal right, held or pending, goes back along forks to a record with the terminal bit for the process or an ancestor |
| `Terminals.TerminalCompleteness` | lsm/src/ticketing/ticket_cache.c:195-201 | after a record with the PTY bit is stored for a process, whatever its other bits, every object of the terminal file system passes both hooks for it along every run while it lives, whatever credentials it takes, if the tree can order the process IDs in it |
| `Terminals.ChildTerminal` | lsm/src/lsm_functions/task.c:19-35 | once the process has claimed the right in any hook, every child it forks later has it too, along every run while the child lives |
| `Terminals.HookClaims` | lsm/src/ticketing/ticket_cache.c:77-128 | a hook hands over all that waits for the process, the right to a terminal included, once, and nobody else's right changes |
| `Guarantees.OpenExact` | lsm/src/lsm_functions/file.c:35-91 | on a protected object the open and file permission hooks grant exactly when the object has an identifier and a stored, live ticket backs the access |
| `Guarantees.PermissionExact` | lsm/src/lsm_functions/inode.c:133-142 | the same for the inode permission hook, which decides on the label in memory |
| `Guarantees.ScanIsBacked` | lsm/src/common.c:429-451 | after housekeeping the ring scan succeeds exactly when a ticket was stored for this process and object, is live, and did not go away with a credential |
| `Guarantees.LabelCoherence` | lsm/src/common.c:305-343 | in every state reached by steps whose in_realm writes for this file succeed, a checked label of an ordinary file has the realm flag a fresh read would give; if its identifier was written too, also the same identifier when it is in realm and has one |
| `Guarantees.TaintPersistence` | lsm/src/lsm_functions/ipc.c:40-91 | along every run, whatever attribute writes fail and labels are set, every process and segment connected to a tainted one by grants, forks and shared memory is in realm |
| `Guarantees.TaintExact` | lsm/src/lsm_functions/ipc.c:40-91 | along every run a process or segment is in realm if and only if grants, forks and shared memory connect it to one that was at the start |
| `Guarantees.FileTaintPersistence` | lsm/src/lsm_functions/inode.c:100-119 | the same for files too, if each file created by a process in realm or in a directory in realm gets its in_realm write; only a declassification unmarks a file |
| `Guarantees.MarkedFileIsProtected` | lsm/src/common.c:305-343 | a marked file whose label is in step with the disk is in realm for the open hook |
| `Guarantees.ShmExact` | lsm/src/lsm_functions/ipc.c:40-91 | when a decision by ticket is due, the hook follows a null pointer if the ring is empty, and otherwise grants exactly when the process holds a matching ticket, however old; every held ticket was once stored for it |
| `Guarantees.ShmSound` | lsm/src/lsm_functions/ipc.c:57-79 | whatever the tree has lost, shared memory is granted only by a ticket once stored for the process and segment |
| `Guarantees.ShmFaultExact` | lsm/src/lsm_functions/ipc.c:40-60 | the hook follows a null pointer if and only if either side is in realm, the process is not the daemon and its ring is empty; access is exempt if and only if neither side is in realm or the process is the daemon |
| `Guarantees.ChildFaults` | lsm/src/lsm_functions/ipc.c:57-60 | a child just forked from a tainted process faults on every segment |
| `Guarantees.StepKeepsName` | lsm/src/lsm_functions/inode.c:236-253 | no step but an installation that is not refused changes the identifier of a named file, in memory or on disk |
| `MonitorRuns.Reachable` | lsm/src/ticketing/ticket_cache.c:69-248 | in every reachable state, whatever the tree loses and attribute writes fail, every ticket that is held, pending or lost in the tree was stored for that process, and no label waits to be written |
| `MonitorRuns.ReachableTickets` | lsm/src/ticketing/ticket_cache.c:69-248 | in every reachable state in which the tree can order the process IDs stored so far, held and pending tickets are strictly time-ordered across both rings, all were stored, no live one is missing |
| `MonitorRuns.ReachableLabels` | lsm/src/common.c:305-343 | the label of a file agrees with the disk in every state reached by steps that are safe for it |
| `MonitorRuns.StepTickets` | lsm/src/ticketing/ticket_cache.c:69-248 | every step that leaves process IDs the tree can order keeps tickets ordered and complete |
| `MonitorRuns.StepRecorded` | lsm/src/ticketing/ticket_cache.c:69-248 | every step keeps that all tickets were stored for their process |
| `MonitorRuns.StepLabels` | lsm/src/common.c:305-343 | every step that is safe for a file keeps its label in step with the disk |
| `Tickets.ScanOrdered` | lsm/src/common.c:429-451 | on positive, strictly increasing stamps the scan succeeds exactly when some ticket matches identifier and operation |
| `Tickets.ScanExact` | lsm/src/common.c:429-451 | for tickets of different objects the scan is right for all requests if and only if stamps are positive and strictly increasing |
| `Tickets.ExpiryOrdered` | lsm/src/ticketing/ticket_cache.c:130-166 | on strictly increasing stamps expiry keeps exactly the live tickets, in order, and frees exactly the others |
| `Tickets.ExpiryExact` | lsm/src/ticketing/ticket_cache.c:130-166 | on a clock that may stand still expiry is right if and only if no two neighbouring expired tickets share a stamp |
| `Tickets.TiesBreakTheWalks` | lsm/src/ticketing/ticket_cache.c:130-166 | three tickets, two of them stamped together: the scan misses one, expiry drops a live one and leaks two |
| `TicketRing.CountTickets` | lsm/src/ticketing/ticket_cache.c:86-91 | the counting walk ends on every ring, whatever its stamps, and counts the first ascending stretch |
| `TicketRing.ScanRing` | lsm/src/common.c:429-451 | the scan on the linked ring ends on every ring and finds what the scan of the sequence finds |
| `TicketRing.SameId` | lsm/src/common.c:435-441 | the byte loop decides equality of identifiers |
| `TicketRing.Append` | lsm/src/ticketing/ticket_cache.c:215-231 | the four pointer writes put the new node at the end of the ring |
| `TicketRing.Splice` | lsm/src/ticketing/ticket_cache.c:120-124 | the pointer writes join two rings into one, the second after the first |
| `TicketRing.Concatenate` | lsm/src/ticketing/ticket_cache.c:96-127 | joining also when the first ring is empty |
| `TicketRing.ExpiryWalk` | lsm/src/ticketing/ticket_cache.c:131-140 | the walk stops at the first live ticket, or at the last one before the stamps stop growing |
| `TicketRing.CloseGap` | lsm/src/ticketing/ticket_cache.c:147-153 | the ring closes over the dropped nodes, which stay chained for freeing |
| `TicketRing.FreeNodes` | lsm/src/ticketing/ticket_cache.c:156-162 | exactly the dropped nodes are freed, each once, and none is read after it is freed |
| `TicketRing.RemoveExpired` | lsm/src/ticketing/ticket_cache.c:130-166 | the remaining ring is well formed and holds what expiry is meant to keep; exactly the others are freed |
| `SearchTree.Search` | lsm/src/ticketing/ticket_cache.c:21-39 | the descent loop finds what the search of the tree as a value finds |
| `SearchTree.FindIsLookup` | lsm/src/ticketing/ticket_cache.c:21-39 | in an ordered tree a search is a look-up in the map it stands for |
| `SearchTree.LinkIsUpdate` | lsm/src/ticketing/ticket_cache.c:41-65 | an insertion of a key that can be ordered with those stored is a map update and keeps the order, whatever order-preserving rebalancing follows |
| `SearchTree.LinkExact` | lsm/src/ticketing/ticket_cache.c:41-65 | an insertion of a new key leaves the tree ordered, so that every key stays reachable whatever the rebalancing, if and only if the comparison orders all keys together |
| `SearchTree.OneMoreExact` | lsm/src/ticketing/ticket_cache.c:41-65 | keys that are not negative can be ordered with one more key if and only if it is not negative, or its distance from all of them fits 31 bits, or from none |
| `SearchTree.NegativeUnorders` | lsm/src/ticketing/ticket_cache.c:21-39 | two ordinary process IDs and a negative one that cannot be ordered |
| `SearchTree.LinkStands` | lsm/src/ticketing/ticket_cache.c:41-65 | in any tree, ordered or not, an insertion and any rebalancing add one node; if all keys can be ordered the search then finds every node |
| `SearchTree.SearchExact` | lsm/src/ticketing/shm_tracking.c:19-37 | all stored keys stay reachable under every rebalancing if and only if the wrapping comparison orders each key before each later one |
| `SearchTree.FarKeysGetLost` | lsm/src/ticketing/shm_tracking.c:19-37 | two keys half the range apart: one rotation loses the second |
| `TicketCache.Cache.InsertTicket` | lsm/src/ticketing/ticket_cache.c:175-248 | in any tree the record goes to the reservation the search finds, or to a new one, for every outcome of the two allocations, with the right to a terminal whenever it has the PTY bit, and no other reservation changes; if the process IDs can be ordered the pending table changes as the record says; all rings stay well formed and disjoint |
| `TicketCache.Cache.CheckTicketCache` | lsm/src/ticketing/ticket_cache.c:69-173 | the task holds exactly (its tickets, then the pending ones) without the expired ones, in order; exactly the dropped nodes are freed; nothing stays pending; all other rings are untouched |
| `TicketCache.Cache.PrepareCred` | lsm/src/lsm_functions/task.c:19-67 | a new credential inherits taint and terminal right, has its own identifier and an empty ring |
| `TicketCache.Cache.ClaimPending` | lsm/src/ticketing/ticket_cache.c:77-128 | the pending ring moves to the end of the task's ring as it is, and the terminal right with it |
| `TicketCache.Cache.ExpireTask` | lsm/src/ticketing/ticket_cache.c:130-166 | expiry on the task's ring, node by node |
| `TicketCache.InsertReservation` | lsm/src/ticketing/ticket_cache.c:41-65 | the tree holds one more reservation, whatever the rebalancing; if the process IDs can be ordered, the search finds it and all others |
| `TicketCache.TaskData.TakeRing` | lsm/src/ticketing/ticket_cache.c:96-127 | the nodes change owner and keep their order |
| `TicketCache.TaskData.DropExpired` | lsm/src/ticketing/ticket_cache.c:130-166 | what the task keeps and which nodes are freed |
| `Labels.Inode.DentryHousekeeping` | lsm/src/common.c:305-343 | housekeeping ends although every attribute write re-enters it, and its nested calls make no difference to its result |
| `Labels.Inode.PostSetxattr` | lsm/src/lsm_functions/inode.c:284-298 | the re-entrant hook does one housekeeping |
| `Labels.Inode.SetInRealm` | lsm/src/common.c:197-228 | an attribute write made by housekeeping changes the disk and leaves the label alone although the hook runs in between |
| `Labels.Inode.SetIdentifier` | lsm/src/common.c:211-220 | the same for the identifier |
| `Labels.Inode.InodeHousekeeping` | lsm/src/common.c:280-303 | an unnamed pipe takes the identifier of the first tainted process that touches it |
| `Labels.Inode.XattrInstallation` | lsm/src/communication/payload_io.c:267-324 | the label, the attributes and the verdict after an installation, for every outcome of the attribute operations; an accepted declassification leaves the inode out of realm, and removes the attribute if it was in realm |
| `Labels.Inode.CreateFile` | lsm/src/lsm_functions/inode.c:100-119 | a new file after init_security and d_instantiate |
| `Labels.HousekeepCached` | lsm/src/common.c:305-343 | housekeeping keeps a label whose realm flag agrees with the disk, and its identifier if that does, marks it checked and writes nothing |
| `Labels.CreateExact` | lsm/src/lsm_functions/inode.c:100-119 | the realm flag of a new file agrees with the disk if and only if the in_realm write it needs succeeds, and its identifier too if and only if that write does |
| `Labels.BirthReadBack` | lsm/src/lsm_functions/inode.c:100-119 | a fresh read of a new file finds it in realm exactly when its directory or creator is and the attribute was written, with the creator's identifier exactly when the creator is in realm and both were |
| `Labels.NamelessBirth` | lsm/src/common.c:328-340 | a tainted process creates a file whose identifier cannot be written: memory names it, a fresh read would not |
| `Labels.InstallExact` | lsm/src/communication/payload_io.c:267-324 | an installation keeps the label in step with the disk if and only if it declassifies, its identifier cannot be written, it registers with in_realm on disk, or it leaves a file that was out of realm; it is accepted if and only if the attribute operation it depends on succeeds or there is nothing to remove |
| `Labels.DeclassifyExact` | lsm/src/communication/payload_io.c:267-295 | a declassification is accepted if and only if the file is not in realm in memory or its attribute is removed; it leaves the file out of realm in memory, and a fresh read finds it there too if and only if it was not out of realm in memory alone before; a refused one changes no attribute |
| `Labels.DeclassifyMisses` | lsm/src/communication/payload_io.c:268-274 | after a registration that set the attribute and failed at the identifier, a declassification is accepted and the file is in realm at the next look |
| `Labels.RefusedPipe` | lsm/src/communication/payload_io.c:296-323 | a refused registration of an unnamed pipe by a tainted task gives the pipe that task's identifier |
| `Labels.NopInstallSplits` | lsm/src/communication/payload_io.c:296-317 | an accepted installation with neither bit leaves a file in realm on disk and out of it in memory |
| `Labels.ReadBack` | lsm/src/common.c:254-269 | an identifier stored with or without the final NUL reads back as it was |
| `Bytes.ToHexString` | lsm/src/common.c:27-40 | the loop writes two digits a byte and a NUL |
| `Bytes.HexStringToBytes` | lsm/src/common.c:239-252 | the loop decodes strings of even length and refuses others |
| `Bytes.HexRoundTrip` | lsm/src/common.c:239-252 | decoding undoes encoding, for all byte strings |
| `Bytes.HexAt` | lsm/src/common.c:27-40 | byte i is written at 2i and 2i + 1, the high digit first, in capital letters |
| `Hooks.CanAccess` | lsm/src/common.c:361-462 | the decision on heap objects, written out without its order: the exemptions, the pipe's and the public identifier, the daemon, the terminal, or a named object that the ring scan finds a ticket for; decision and taint are those of the machine |
| `Hooks.TaskHousekeeping` | lsm/src/common.c:271-278 | housekeeping of a task with an ID above one is the machine's step, and nothing otherwise |
| `Hooks.FileOpen` | lsm/src/lsm_functions/file.c:78-91 | the open hook on heap objects is the machine's step: task, inode, pending table and verdict |
| `Hooks.DecideOpen` | lsm/src/lsm_functions/file.c:35-59 | label housekeeping and decision together |
| `Hooks.InodePermission` | lsm/src/lsm_functions/inode.c:133-142 | the inode permission hook on heap objects is the machine's step |
| `Hooks.ShmDecide` | lsm/src/lsm_functions/ipc.c:40-91 | the decision, the null pointer and the taint in both directions on heap objects are those of the machine |
| `Hooks.ShmAccess` | lsm/src/lsm_functions/ipc.c:35-91 | an admitted process is entered in the pool, and only a failing entry turns admission into an error |
| `Hooks.SegmentId` | lsm/src/lsm_functions/ipc.c:16-22 | the identifier of a segment is its key followed by zeros |
| `ShmPool.PoolIsFirstGrants` | lsm/src/ticketing/shm_tracking.c:67-102 | for every sequence of grants each key lists exactly the processes granted it, each once, in the order of their first grants |
| `ShmPool.GrantExact` | lsm/src/ticketing/shm_tracking.c:67-102 | for every outcome of the two allocations, the value returned says whether the process is listed afterwards, exactly when it was before or the memory was there, and no other listing changes |
| `ShmPool.Pool.AddToShmid` | lsm/src/ticketing/shm_tracking.c:67-102 | in any tree the process joins the list the search finds, or a new one, for every outcome of the two allocations, and no other list changes; if the keys can be ordered the pool changes as the map of lists does |
| `ShmPool.Pool.FindOrAdd` | lsm/src/ticketing/shm_tracking.c:70-81 | a key the search does not find gets an empty list, whatever the rebalancing; a failed allocation changes nothing |
| `ShmPool.ShmNode.Add` | lsm/src/ticketing/shm_tracking.c:84-101 | the list grows at its end, once a process |
| `ShmPool.ShmNode.Count` | lsm/src/ticketing/shm_tracking.c:119-124 | the loop counts the entries |
| `ShmPool.ShmNode.Copy` | lsm/src/ticketing/shm_tracking.c:133-140 | the loop copies the process IDs in order |
| `ShmPool.Pool.GetInhabitants` | lsm/src/ticketing/shm_tracking.c:104-151 | every answer: error, length alone, or length with the hexadecimal report, on the tree and lists as they are |
| `ShmPool.ReportExact` | lsm/src/ticketing/shm_tracking.c:126-150 | the length that comes with a report is that of the text with its only NUL, the answer without allocation is the same number, and the text reads back as the list |
| `ShmPool.ReportNames` | lsm/src/ticketing/shm_tracking.c:104-118 | the key string of a segment asks about that segment, an unlisted one gives length zero, and strings of another length are refused |
| `ShmPool.ReportReadsBack` | lsm/src/ticketing/shm_tracking.c:104-151 | the report can be read back to the same processes in the same order |
| `Frames.OpenSealed` | lsm/src/crypto/aes.c:57-145 | a frame opens under the key it was sealed with and no other |
| `Frames.KernelDecrypt` | lsm/src/crypto/aes.c:57-145 | a failure leaves the output buffer as it was; success overwrites exactly the plaintext's length |
| `Frames.KernelEncrypt` | lsm/src/crypto/aes.c:57-145 | ciphertext, tag and vector lie where the enclave looks for them |
| `Frames.EnclaveDecrypt` | daemon/enclave_core/crypto/aes.cpp:10-26 | the plaintext, or zeros when the frame does not open |
| `Frames.EnclaveEncrypt` | daemon/enclave_core/crypto/aes.cpp:28-45 | the same frame as the kernel makes |
| `Wire.UpdateRoundTrip` | lsm/includes/_citadel_shared.h:111-121 | the kernel's view of the enclave's buffer has the signature, the key update and the one record that were put in, whatever follows |
| `Wire.UpdateLayout` | lsm/includes/_citadel_shared.h:111-121 | where the fields of an update lie, the least significant byte first |
| `Wire.ZeroUpdate` | lsm/includes/_citadel_shared.h:111-121 | a zeroed buffer has no record, a zero key update and no signature |
| `Wire.TokenRoundTrip` | lsm/includes/_citadel_shared.h:132-137 | a token decodes to what was encoded |
| `Wire.TokenLayout` | lsm/includes/_citadel_shared.h:132-137 | where the fields of a token lie |
| `Wire.ZeroToken` | lsm/includes/_citadel_shared.h:132-137 | zeros are no token |
| `Wire.TokenAsUpdate` | lsm/includes/_citadel_shared.h:111-137 | what a token holds when its bytes are read as an update, and that its records lie within the buffer if and only if its fifth identifier byte is at most one |
| `Wire.TokenOverrun` | lsm/includes/_citadel_shared.h:111-137 | a token that announces three records is read with a third record from behind its buffer |
| `Wire.KernelUpdateReads` | lsm/src/communication/payload_io.c:179-228 | the kernel's own update reads as five records without an operation and a key update that is not zero |
| `Wire.RequestRoundTrip` | daemon/_citadel_shared.h:186-207 | every request, short or extended, parses back from its bytes |
| `Wire.RequestExact` | daemon/_citadel_shared.h:186-207 | a buffer is accepted if and only if it has one of the two sizes and the signature, and it is then the encoding of what it parses to, but for the values of flags that are set |
| `Lsm.InertUpdate` | lsm/src/communication/payload_io.c:137-176 | a frame that does not open holds no record and leaves the key as it is |
| `Lsm.SealedUpdate` | lsm/src/communication/payload_io.c:137-176 | what the enclave seals is what the kernel reads |
| `Lsm.SealedInstall` | lsm/src/communication/payload_io.c:230-265 | the same for a label |
| `Lsm.SealedToken` | lsm/src/communication/payload_io.c:137-176 | a process token taken for an update or a label, under the key it was sealed with |
| `Lsm.SealedKernelUpdate` | lsm/src/communication/payload_io.c:179-228 | the kernel's own update taken for an update or a label |
| `Lsm.Module.UpdateAesKey` | lsm/src/communication/payload_io.c:121-134 | the key is combined in place with a long enough value and left alone by a short one |
| `Lsm.Module.ProcessChallengeResponse` | lsm/src/communication/payload_io.c:75-118 | only an answer with the signature and the current challenge is taken; it sets both keys and the daemon's ID |
| `Lsm.Module.ReadUpdate` | lsm/src/communication/payload_io.c:155-157 | the zeroed buffer after decryption |
| `Lsm.Module.InsertRecords` | lsm/src/communication/payload_io.c:168-172 | after the record loop every ticket in the tree was there before, in the same reservation, or is one of the records, for its process; if the process IDs can be ordered the records are stored one after the other |
| `Lsm.Module.ProcessReceivedUpdate` | lsm/src/communication/payload_io.c:137-176 | tickets and key after an update, opened or not, with whatever lies behind its buffer |
| `Lsm.Module.XattrEnclaveInstallation` | lsm/src/communication/payload_io.c:230-325 | label and key after an installation; a rejected one turns no key |
| `Lsm.Module.GenerateUpdate` | lsm/src/communication/payload_io.c:179-228 | the loop fills five records; an update only once registered, sealed with the message key |
| `Lsm.Module.GenerateToken` | lsm/src/communication/payload_io.c:328-373 | a token only once registered, sealed with the token key for the asking process |
| `Enclave.Core.UpdateAesKey` | daemon/enclave_core/lsm_communication.cpp:66-78 | the key is combined in place |
| `Enclave.Core.HandleKernelChallenge` | daemon/enclave_core/lsm_communication.cpp:13-64 | the answer repeats the challenge with a new key that becomes both keys; anything without the signature changes nothing |
| `Enclave.Core.BuildUpdate` | daemon/enclave_core/lsm_communication.cpp:82-99 | the buffer filled field by field is the update the kernel parses |
| `Enclave.Core.GenerateTicket` | daemon/enclave_core/lsm_communication.cpp:80-119 | the enclave in place makes the exchange of the value model: the key turns exactly when the frame was written |
| `Enclave.Core.GenerateXattrTicket` | daemon/enclave_core/lsm_communication.cpp:152-203 | the label carries the random identifier, or the public one for the daemon's own socket; the key turns exactly when the kernel signals acceptance |
| `Enclave.Core.Protect` | daemon/enclave_core/userspace_io.cpp:163-166 | labelling the socket makes the exchange of the value model |
| `Enclave.Core.ClaimFile` | daemon/enclave_core/userspace_io.cpp:18-33 | the CLAIM branch |
| `Enclave.Core.OpenObject` | daemon/enclave_core/userspace_io.cpp:35-52 | the OPEN branch makes the exchange of the value model, with induction of a file that has no identifier yet; RequestTickets says for every request which identifier the ticket names |
| `Enclave.Core.FileTickets` | daemon/enclave_core/userspace_io.cpp:18-52 | both branches in turn; a claim clears the OPEN bit |
| `Enclave.Core.SubjectTickets` | daemon/enclave_core/userspace_io.cpp:54-65 | the terminal, socket and shared-memory branches |
| `Enclave.Core.CoreHandleRequest` | daemon/enclave_core/userspace_io.cpp:11-80 | the branch chain with its running verdict and operation makes the exchanges of the value model, in order |
| `Enclave.Core.HandleRequest` | daemon/enclave_core/userspace_io.cpp:83-160 | the checks in their order, then the policy's verdict, then the work |
| `ClientRuns.GroupsStayOrdered` | libcitadel/src/cache.c:21-116 | over every sequence of calls all groups stay in time order, so looking up a file name removes exactly the entries 15 s old or older |
| `ClientRuns.CallKeepsOrder` | libcitadel/src/cache.c:64-116 | every call keeps all groups in time order |
| `ClientRuns.CachedMeansLive` | libcitadel/src/cache.c:145-197 | in every run of process and kernel together in which the credential stays, with validation calls with and without an operation, a descriptor entry that is in date has a live ticket in the kernel, if the tree can order the process IDs in it |
| `ClientRuns.AnswerMeansLive` | libcitadel/src/cache.c:145-193 | in every run of process and kernel together, when a look at a descriptor says yes for an operation without the NOP bit, the kernel's scan finds a live ticket for that identifier and operation after housekeeping: at the time of the look for an entry in date, at the time of the enclave's answer for a refreshed or new one |
| `ClientRuns.InDateIsLive` | libcitadel/src/cache.c:84-91 | an entry in date, stamped at most a second after its ticket, is backed by a live ticket |
| `ClientCache.CleanupExact` | libcitadel/src/cache.c:41-54 | in time order, with no entry from the future, cleaning removes exactly the expired entries |
| `ClientCache.MoveExact` | libcitadel/src/cache.c:106-116 | moving to the end is "remove, then append", and loses nothing, if and only if the entry has a successor or no predecessor |
| `ClientCache.LastGetsLost` | libcitadel/src/cache.c:106-116 | of two entries, moving the second to the end loses it |
| `ClientCache.RefreshOrdered` | libcitadel/src/cache.c:175-176 | a refreshed entry goes to the end with the latest time and the group stays ordered |
| `ClientCache.Group.Create` | libcitadel/src/cache.c:64-82 | the new entry is appended |
| `ClientCache.Group.Cleanup` | libcitadel/src/cache.c:21-55 | the leading expired entries go, and exactly their items are freed |
| `ClientCache.Group.Pop` | libcitadel/src/cache.c:93-100 | the first entry goes; an empty group stays empty |
| `ClientCache.Group.MoveToEnd` | libcitadel/src/cache.c:106-116 | the list after the pointer writes, for every position |
| `ClientCache.Group.Find` | libcitadel/src/cache.c:159-184 | the first entry for descriptor, identifier and operation, and its predecessor |
| `ClientCache.Group.Refresh` | libcitadel/src/cache.c:175-176 | a new stamp, and the move that follows it |
| `ClientCache.Group.ValidateFd` | libcitadel/src/cache.c:145-193 | every outcome: in date, NOP, refreshed, refused, newly granted; without an approval the entries stay as they are, and a yes then comes from an entry that stands for the descriptor and is in date or has the NOP bit |
| `ClientCache.ValidatedExact` | libcitadel/src/cache.c:145-193 | the first entry for the descriptor decides: yes if it is in date or has the NOP bit, or the enclave approves, which moves it to the end with the new time; with none, yes exactly when an operation is wanted and approved, which adds an entry; a refusal changes nothing |
| `ClientCache.RefusalExact` | libcitadel/src/cache.c:159-188 | with at most one entry for the descriptor, identifier and operation, the answer is no if and only if it is neither in date nor has the NOP bit, and the enclave was not asked or refused |
| `ClientCache.RefusalHides` | libcitadel/src/cache.c:159-173 | of two entries the first, out of date and refused, hides a second in date |
| `ClientCache.ForkedAnswers` | libcitadel/src/cache.c:199-217 | from the fourteenth second on, a parent's entry answers for a child exactly when it has the NOP bit and another |
| `ClientCache.Group.Remember` | libcitadel/src/socket.c:19-28 | a granted request is cached at the end |
| `ClientCache.Group.Fork` | libcitadel/src/cache.c:199-217 | all times become zero and NOP becomes PARENT, in place |
| `Anubis.SetupEncryptDecrypt` | daemon/enclave_core/crypto/ltc/src/ciphers/anubis.c:887-1016 | for every legal key and block, setting up, encrypting and decrypting gives the block back, and so does decrypting and encrypting |
| `Anubis.DecryptUndoes` | daemon/enclave_core/crypto/ltc/src/ciphers/anubis.c:1029-1120 | the cipher with the inverse schedule undoes the cipher with the forward one, for any number of rounds and any round keys |
| `Anubis.EncryptUndoes` | daemon/enclave_core/crypto/ltc/src/ciphers/anubis.c:1029-1120 | and the other way round |
| `Anubis.InvertedTwice` | daemon/enclave_core/crypto/ltc/src/ciphers/anubis.c:997-1013 | inverting a schedule twice gives it back |
| `Anubis.ThetaInvolutive` | daemon/enclave_core/crypto/ltc/src/ciphers/anubis.c:1048-1080 | the diffusion layer undoes itself, from linearity of doubling alone |
| `Anubis.ThetaLinear` | daemon/enclave_core/crypto/ltc/src/ciphers/anubis.c:1048-1080 | the diffusion layer is linear |
| `Anubis.LookupIsTheta` | daemon/enclave_core/crypto/ltc/src/ciphers/anubis.c:1048-1107 | four table look-ups are substitution and diffusion; with the last round's masks, substitution alone |
| `Anubis.AnubisCrypt` | daemon/enclave_core/crypto/ltc/src/ciphers/anubis.c:1029-1120 | the in-place rounds compute the cipher |
| `Anubis.HornerIsTableSum` | daemon/enclave_core/crypto/ltc/src/ciphers/anubis.c:937-972 | the loop over T5 computes what the large tables U of the other form would |
| `Anubis.XorIsAdditive` | daemon/enclave_core/crypto/ltc/src/ciphers/anubis.c:1053-1080 | the exclusive or by which the code adds bytes has the laws the proofs rest on |
| `Anubis.Schedule.MakeRoundKey` | daemon/enclave_core/crypto/ltc/src/ciphers/anubis.c:937-976 | four Horner sums side by side are the round key |
| `Anubis.Schedule.NextKappa` | daemon/enclave_core/crypto/ltc/src/ciphers/anubis.c:978-995 | the key state evolves as the circular definition says |
| `Anubis.ConstantAlone` | daemon/enclave_core/crypto/ltc/src/ciphers/anubis.c:991-994 | the round constant reaches word 0 of the key state alone |
| `Anubis.EvolveInjective` | daemon/enclave_core/crypto/ltc/src/ciphers/anubis.c:978-995 | the key state loses nothing from one round to the next |
| `Anubis.KappaInjective` | daemon/enclave_core/crypto/ltc/src/ciphers/anubis.c:887-995 | in every round two keys of one length have the same key state if and only if they are equal |
| `Anubis.FirstEntries` | daemon/enclave_core/crypto/ltc/src/ciphers/anubis.c:43-380 | with the S-box's first entry, the first entries of T0 to T4 and the second of T5 are the code's |
| `Anubis.CodeIsField` | daemon/enclave_core/crypto/ltc/src/ciphers/anubis.c:43-380 | the code's doubling and exclusive or have the laws the cipher rests on |
| `Anubis.Schedule.FillDec` | daemon/enclave_core/crypto/ltc/src/ciphers/anubis.c:997-1013 | the inverse schedule, in place |
| `Anubis.Schedule.Setup` | daemon/enclave_core/crypto/ltc/src/ciphers/anubis.c:887-1016 | which keys and round counts are refused, and both schedules otherwise |
| `Blowfish.MutualInverses` | daemon/enclave_core/crypto/ltc/src/ciphers/blowfish.c:304-335 | for all tables and blocks decryption undoes encryption and encryption undoes decryption |
| `Blowfish.Schedule.Encipher` | daemon/enclave_core/crypto/ltc/src/ciphers/blowfish.c:304-335 | the loop of four rounds an iteration computes the sixteen rounds |
| `Blowfish.Schedule.Decipher` | daemon/enclave_core/crypto/ltc/src/ciphers/blowfish.c:524-564 | the loop takes the rounds back in reverse |
| `Blowfish.WordBytes` | daemon/enclave_core/crypto/ltc/src/ciphers/blowfish.c:348-363 | byte j of the word read at position a is byte (a + j) mod length |
| `Blowfish.Stream2Word` | daemon/enclave_core/crypto/ltc/src/ciphers/blowfish.c:348-363 | the loop reads that word and stops at position a + 4 mod length |
| `Blowfish.Schedule.LoadKey` | daemon/enclave_core/crypto/ltc/src/ciphers/blowfish.c:385-390 | word x of K is combined with the key bytes from 4x on, read in a circle |
| `Blowfish.Schedule.Expand` | daemon/enclave_core/crypto/ltc/src/ciphers/blowfish.c:375-428 | K and then S are overwritten by the cipher run on the tables as they stand at each step, with and without extra data |
| `Blowfish.ExpansionChain` | daemon/enclave_core/crypto/ltc/src/ciphers/blowfish.c:392-428 | each pair of words of the finished tables deciphers, under the tables as they were before it was written, to the pair before it with the extra data in |
| `Blowfish.ExpandStep` | daemon/enclave_core/crypto/ltc/src/ciphers/blowfish.c:392-428 | each step writes its two words of the 1042 and no others |
| `Blowfish.RoundBytes` | daemon/enclave_core/crypto/ltc/src/ciphers/blowfish.c:298-302 | each byte of a word selects from a row of its own, the most significant from the first |
| `Blowfish.Schedule.Setup` | daemon/enclave_core/crypto/ltc/src/ciphers/blowfish.c:438-471 | which keys and round counts are refused, and the tables otherwise |

## Left out

- AES-GCM, RSA (section 7.2 of RFC 8017) and SGX sealing, random numbers: idealised or inputs of the steps; the handshake is modelled on the plaintext of challenge and answer.
- Lengths of fixed C buffers: byte strings are sequences; the one overrun modelled is that of the record loop, with the memory behind the update as an input. Uninitialised pointers that are only freed are left out.
- Linux red-black rebalancing: any tree with the same entries in order; the trees are values, not linked nodes, so parent pointers and node reuse are not captured.
- Concurrency inside the kernel: every hook and every record is one atomic step.
- Credentials shared between threads: the model has one credential per process ID; the cred PID used for logging is left out.
- The empty branch at the end of check_ticket_cache, which dereferences a reservation only to do nothing.
- Clock: the runs need a positive clock that moves between insertions; ticks that are equal are covered by the exact lemmas on walks.
- Processes 0 and 1: housekeeping skips them, as in the code, and the theorems on grants are about IDs above one.
- Socket hooks and socket creation, directories and special file systems beyond the exemptions of can_access, hard links, renames: they would only add easy members.
- Inode labels on pipes: the tagging is modelled, label coherence is stated for files whose label is on disk.
- Securityfs plumbing, systemd, signals, retries, the daemon's identifier cache: foreign calls without a firm invariant.
- Policy modules: their verdict is an input.
- A request for a path with no metadata: the path is an input, absent when there is none or when the file is not loaded.
- citadel_remove_fd: its loop steps through the removed node and is not a clean removal.
- citadel_declare_fd: it caches a descriptor without asking the enclave, so its entries are outside CachedMeansLive.
- The array of the three cache groups: each group is an object; bounds checks are in ClientRuns.
- The tables of constants of the ciphers: the S-box is any involution, doubling any linear map over an addition with the laws of exclusive or (CodeIsField shows that the code's are), round constants and initial tables any values; a 32-bit word of Anubis is its four bytes.
- ECB byte order of Blowfish, blowfish_enc over several blocks, self-tests, the other ciphers.
- Refused registrations of pipes: Labels.InstallAt covers them; the machine's installation step does not tag the pipe.
- Lsm.Module.XattrEnclaveInstallation: needs the one record of a label to lie within its buffer; LabelsInBounds shows that no frame that opens violates this.
