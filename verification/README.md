# dbsec: a verified model

dbsec is a PostgreSQL proxy and library that encrypts columns. The proxy sits between a client and
the server: on the way in it seals values, on the way out it opens them, and it forwards everything
else. This project models the parts of it where a mistake is silent, and proves what they promise.

- **The extended-protocol tracker.** `Portals` is the tracker itself, a class with the statement and
  portal maps and the queue of owed responses. `Frames`, `Backend`, `Queue` and `Session` put a client,
  a pipelining backend and a write path that refuses frames beside it, after sections 55.2.3, 55.2.4
  and 55.2.6 of the PostgreSQL 16 documentation. Nothing is asked of any of them: the client sends
  any frame at any time, and the backend fails, discards, starts and aborts copies as it likes.
  `Session` couples the tracker with `History`, what it has recorded, in every state of every session;
  `Upstream` is what the backend makes of the same frames, from the positions of those that took
  effect, with a portal's statement planned at its Bind. `QueueProofs`
  shows that an ideal queue, which forgets an entry as soon as the backend has consumed its frame
  without answering it, explains every message. `Mirror`, `Descriptions`, `MarkerLaw` and
  `SessionTheorems` compare the real queue with it: exactly by how much they differ, and what is
  guaranteed for as long as nothing is in the way of a message (it is handled in a *clear* state).
  `Discipline` and `Closed` give conditions on client and backend under which that is the whole
  session, `Refusals` what refusals leave of them, and `Closed`, `CopyLimits` and `Misattribution` the
  sessions in which the guarantees fail without them. `StrayCopies` is about copy frames outside a
  copy, `Positions` about descriptions that stay, and `Capacity` about the limits.
- **Envelopes and keys.** `Envelope` has the stored format and its associated data over a symbolic
  authenticated cipher: a ledger of every sealing ever made, in which a ciphertext opens exactly
  under the key, nonce and associated data it was made with. `DekBudget` is the cipher cache shared
  by any number of threads, under the invocation limit of section 8.3 of NIST SP 800-38D.
  `IndexKeys` is the minting of index keys by several proxies over check-and-set storage.
- **Columns.** `Transforms`, `Policy` and `Protector` build the column-level library out of these.
- **The read path.** `Wire`, `Hex`, `Text`, `RowKeys` and `Resolution` are its codecs and mappings,
  `Rows` rewrites a DataRow, `Publication` brings new resolutions to cached statements, `ReadPath`
  joins them with the envelope, and `Relay` is the frame relay.
- **The write path.** `Params` records what a statement asks to be done to its parameters,
  `BindRewrite` does it to a Bind, and `WritePath` follows a value from the Bind that seals it, in a
  session, to the row it is read back in.

`Bytes` holds octets and big-endian integers. Protocols between threads, proxies or parties are state
machines over their atomic steps, and their theorems hold in every state of every run; loops are
methods with invariants, each proved against a function that says what it computes.

What is outside stays outside as a parameter: the cryptographic primitives, transforms and masks the
read path is given, the key source, nonces and entropy, the answers and failures of the store, and
the choices of client and backend.

## Where code and documentation differ

The model follows the code.

- `crates/core/src/rowkey.rs:192-195` says a uuid's hyphens are in the standard places or absent. The
  code drops a hyphen anywhere; `UuidSpelling` is what it accepts.
- `crates/proxy/src/rows.rs:345-355` says a position that is already protected keeps what it was
  described with. The code takes the new resolution's column wherever it has one there, and keeps the
  old one only where it has none (`MergedExact`).
- `crates/proxy/src/session.rs:569-572` calls an end of input inside a frame an error. Inside the
  five-byte header it ends the relay without one (`TransparentIsPrefix`).
- `crates/proxy/src/encrypt/frame.rs:255-262` calls a refused Bind the same shape as a refused Parse.
  A refused Parse leaves nothing behind; a Bind has replaced the portal in the tracker by the time it
  is refused. Rows of the portal the backend still holds are then read with the refused Bind's
  description and formats (`RefusedBindMisattributes`).
- `crates/proxy/src/portal.rs:46-48` and `269-273` say that a queued Execute stays with the incarnation
  it was bound against even after the name is parsed again. The code looks the statement's name up at
  the Execute (`portal.rs:486-500`), so a Parse of that name between Bind and Execute moves the
  Execute to the new incarnation, while the backend runs what the Bind planned
  (`ReparseMisattributes`). What holds is that nothing recorded after the Execute moves it
  (`AttributionIsFixed`).
- `crates/proxy/src/portal.rs:432-448` replaces the portal when the Bind is recorded, whatever the
  backend then does. A Bind, Parse or Close that the backend fails or discards counts for the tracker
  and not for the backend (`FailedBindMisattributes`). `EntryAttributedIff` and `RowsFollowBackend`
  say exactly when tracker and backend agree, over all three.
- `crates/proxy/src/portal.rs:582-585` queues one marker for a Query, whatever came before it. A
  Query or FunctionCall inside an unclosed extended-protocol batch, which the backend may discard,
  can leave that marker behind, whatever the frames around it (`UnclosedDesyncs`); and a refusal in
  the middle of a batch makes the backend see the next Query that way (`ForwardedClosedIff`).
- `crates/proxy/src/portal.rs:526-545` gives the reason why dropping the markers behind the copying
  Execute keeps the queue aligned, also with a second batch pipelined behind it. It does so exactly
  when the markers dropped are those of the Syncs the backend ignored (`AlignedIff`). A backend that
  aborts the copy on that second batch, or of its own accord, and a client that sends its payload
  before it has seen the CopyInResponse, break that (`BatchBehindCopyDesyncs`,
  `AbortedCopyDesyncs`, `EarlyPayloadDesyncs`, `OwedMarkerDropped`).
- `crates/core/src/policy.rs:278-304` does not look at the bytes of a name. A column's name can be the
  framing of another column and a row; then that row's values can be made to open in the one column,
  and the one column's values in that row (`FramedNameOpens`, `FramingNamedOpens`,
  `NulNamesCollide`). `AuthenticIff` is the condition on a policy, and names without a leading NUL
  meet it (`NulFreeNamesAuthentic`).
- The relation of budget and key source is documented for a source that rotates forward; one that
  returns to a key it had left gets a fresh budget for it (`ReturningSourceExceeds`).

## Model

| member | source | states |
|---|---|---|
| `SessionTheorems.RowAttribution` | crates/proxy/src/portal.rs:486-500 | In every session, for as long as nothing was in the way of a message: the rows of an Execute are attributed to the statement incarnation its portal's statement denoted when it was recorded, with the formats of the Bind recorded last and positions that cover an answer to a Describe of that incarnation; they are refused exactly when no such Describe has been answered; the rows of a simple Query are read with its own RowDescription |
| `SessionTheorems.EntryAttributedIff` | crates/proxy/src/portal.rs:486-500 | In every state of every session, and for every queued Execute the backend has consumed and that runs a statement, the entry names the incarnation and formats the backend executes exactly when nothing recorded since the Parse that the portal's Bind planned parses or closes that statement's name, and nothing recorded since that Bind binds or closes the portal or the Bind recorded last asks for the same; frames that were refused, failed or discarded are recorded like any other |
| `SessionTheorems.RowsFollowBackend` | crates/proxy/src/portal.rs:650-659 | A row of an Execute that is read at all, with nothing in its way, is read with the answer to a Describe or one re-derived from it; answer and formats are those of what the backend executes exactly when the Describe and the executed portal's Bind were looked up under one statement name, no Parse or Close of it took effect between the two, and the Bind recorded last asks for the formats of the one the backend holds |
| `Upstream.AttributedIff` | crates/proxy/src/portal.rs:486-500 | The condition of `EntryAttributedIff` on the recorded history and the set of frames that took effect, for any such set |
| `Upstream.DescribesExecutedIff` | crates/proxy/src/portal.rs:463-477 | Exactly when the backend's answer to a Describe, of a statement or of a portal, describes what it executes for an Execute |
| `Misattribution.RefusedBindMisattributes` | crates/proxy/src/encrypt/frame.rs:231-262 | From any session at rest in which the backend holds a portal and another statement is described, refusing a Bind of that portal to that statement, or with other formats, and executing the portal gives a run in which a row is read with the refused Bind's description and formats |
| `Misattribution.FailedBindMisattributes` | crates/proxy/src/portal.rs:432-448 | The same of a Bind that is forwarded and that the backend fails, with the Sync and the Query that follow |
| `Misattribution.ReparseMisattributes` | crates/proxy/src/portal.rs:486-500 | From any session at rest in which the backend holds a portal as it is recorded, parsing and describing the portal's statement name again and executing the portal gives a run in which a row is read with the new statement's description, which is not that of what the backend executes |
| `Misattribution.PreparedRun` | crates/proxy/src/encrypt/frame.rs:149-174 | Sessions as these three ask for are reachable, for any two statements and any portal |
| `SessionTheorems.AttributionIsFixed` | crates/proxy/src/portal.rs:409-460 | Between any two states of a session in which an Execute is queued, its entry keeps id, incarnation and formats, whatever was closed, parsed or bound in between; and what the backend executes for it is the same in every state once it has been consumed |
| `SessionTheorems.BindActions` | crates/proxy/src/portal.rs:409-448 | In every state of every session, a Bind is answered the parameter actions of the Parse its statement's name denotes in the recorded history, and none exactly when it denotes no Parse |
| `SessionTheorems.BoundAsPlannedIff` | crates/proxy/src/portal.rs:432-448 | Once the backend has taken a Bind, its parameters were transformed as the Parse it planned asks exactly when nothing recorded between that Parse and the Bind, refused, failed or discarded as it may have been, parses or closes the name, or what was parsed since asks for the same |
| `MarkerLaw.MarkersBalance` | crates/proxy/src/portal.rs:556-685 | In every state of every session, markers queued plus markers dropped by copy frames equal the ReadyForQuery messages owed (in flight, for frames not consumed yet, for a copying Query) plus the markers whose frames the backend ignored or discarded plus the ReadyForQuery messages that found no marker; so markers and owed messages are equal in number exactly when as many were dropped as lost or missed |
| `SessionTheorems.AlignedIff` | crates/proxy/src/portal.rs:526-579 | For as long as nothing was in the way: a marker is queued exactly when its ReadyForQuery is owed or its frame was lost, and it was not dropped; so the queue is aligned exactly when the markers dropped are those of the frames the backend ignored or discarded |
| `SessionTheorems.AlignedCounts` | crates/proxy/src/portal.rs:582-685 | An aligned queue then holds one marker for each ReadyForQuery owed and no other |
| `SessionTheorems.FoundIff` | crates/proxy/src/rows.rs:600-667 | Exactly when the next message finds the frame it answers: its entry was not dropped and nothing lost is queued ahead of it |
| `SessionTheorems.ReadySettlesItsBatch` | crates/proxy/src/portal.rs:673-685 | After a ReadyForQuery the queue is exactly the expectations recorded after the frame it answers, less dropped markers |
| `Discipline.DisciplineClears` | crates/proxy/src/portal.rs:502-579 | If batches are closed before Query and FunctionCall and copies follow the protocol with nothing else pipelined and none is aborted unprompted, nothing is ever in the way of a message, and lost and dropped markers differ only during a copy, by the Syncs ignored before its first copy frame or not ignored yet after it |
| `Discipline.DisciplineAligns` | crates/proxy/src/portal.rs:526-579 | Then the queue is aligned in every state outside a copy, so copies ended by CopyDone or CopyFail leave it aligned |
| `Closed.ClosedStaysAligned` | crates/proxy/src/portal.rs:582-585 | Without copies, a history closed before every Query and FunctionCall keeps the queue aligned in every run, whatever the backend fails |
| `Closed.UnclosedDesyncs` | crates/proxy/src/portal.rs:582-585 | Conversely, any frames the tracker accepts in which a Query or FunctionCall comes inside an open batch have a run without copies that ends with nothing in flight, nothing owed and a marker queued |
| `Refusals.ForwardedClosedIff` | crates/proxy/src/encrypt/frame.rs:324-341 | For a client that closes its batches, the backend sees closed batches exactly when every refusal inside a batch is followed by a forwarded Sync before the next forwarded Query or FunctionCall |
| `Closed.HistoryIsForwarded` | crates/proxy/src/encrypt/frame.rs:112-225 | In every run, what the backend sees of the history is what refusals and discarding up to Sync leave of the frames sent |
| `Closed.RefusalsStayAligned` | crates/proxy/src/encrypt/frame.rs:324-341 | So such a client keeps the queue aligned in every run without copies that meets the condition |
| `CopyLimits.EarlyPayloadDesyncs` | crates/proxy/src/portal.rs:517-562 | From any session at rest, a payload of any size sent before its CopyInResponse is handled leaves one marker for each Sync pipelined behind the Execute, with nothing owed |
| `CopyLimits.BatchBehindCopyDesyncs` | crates/proxy/src/portal.rs:538-579 | So does a second batch pipelined behind the copy, on which the backend aborts |
| `CopyLimits.AbortedCopyDesyncs` | crates/proxy/src/portal.rs:663-685 | So does a copy aborted before its first copy frame: it stays aligned exactly when no Sync was pipelined |
| `CopyLimits.OwedMarkerDropped` | crates/proxy/src/portal.rs:556-579 | A copy frame sent behind an abort the client has not seen drops the marker of a Sync the backend will answer |
| `CopyLimits.MissedMarkerRealigns` | crates/proxy/src/portal.rs:673-685 | Once that ReadyForQuery has found no marker the queue is aligned again, so without the condition that nothing was in the way `AlignedIff` would be false |
| `StrayCopies.StrayCopyFrames` | crates/proxy/src/portal.rs:547-562 | In every state of every session, any copy frames sent while no copy is fed leave statements, portals and queue as they are, and after any further frames and messages the queue and the source of the next row are as they would have been |
| `StrayCopies.CopyEnds` | crates/proxy/src/portal.rs:517-685 | In every session, once the client has ended the copy, its Execute has been answered or a ReadyForQuery has been handled, no copy is fed in any later state until a CopyInResponse is handled |
| `SessionTheorems.CopyFrameRemoves` | crates/proxy/src/portal.rs:556-579 | Inside copy mode, exactly the maximal run of batch markers behind the copying Execute goes, wherever it is queued, and every other entry keeps its place |
| `QueueProofs.SendKeepsIdeal` | crates/proxy/src/encrypt/frame.rs:112-225 | Recording any frame at any time keeps the ideal queue explaining every message in flight |
| `QueueProofs.ConsumeKeepsIdeal` | crates/proxy/src/portal.rs:582-685 | So does whatever the backend does with its next frame: errors, discarding to Sync, copies with anything behind them |
| `QueueProofs.AbortKeepsIdeal` | crates/proxy/src/portal.rs:526-545 | So does an abort that no frame prompted |
| `QueueProofs.HandleKeepsIdeal` | crates/proxy/src/rows.rs:600-667 | Every message finds the expectation it answers at the front of the ideal queue |
| `Mirror.IdealIsOwed` | crates/proxy/src/portal.rs:582-685 | The markers of the ideal queue are exactly the ReadyForQuery messages owed |
| `Mirror.FindsExpectation` | crates/proxy/src/rows.rs:600-667 | With nothing in its way, a message finds the expectation it answers at the front of the real queue |
| `Mirror.HandleKeepsMirror` | crates/proxy/src/portal.rs:599-685 | Handled so, it keeps the real queue equal to the ideal one up to lost and dropped entries |
| `Session.RunsCoupled` | crates/proxy/src/portal.rs:393-685 | In every state of every session the tracker agrees with the recorded history: names denote the last Parse and the last Bind, refused or not, and queue entries record what their frames asked for |
| `Session.RecordCoupled` | crates/proxy/src/portal.rs:409-585 | Recording any frame, forwarded or refused, keeps that agreement |
| `Session.HandleCoupled` | crates/proxy/src/portal.rs:599-685 | So does every message, whatever it finds at the front of the queue |
| `Descriptions.RunsInformed` | crates/proxy/src/portal.rs:599-643 | For as long as nothing was in the way, every description the tracker holds for a statement or a queued Execute is the answer to a Describe of that incarnation or derived from one, and is there exactly when one has been answered |
| `Positions.DescriptionIsFixed` | crates/proxy/src/portal.rs:599-643 | In every session, a queued Execute that is described keeps its description until one of its own rows is handled, whatever is described, parsed, bound or closed meanwhile |
| `Positions.RowKeepsPositions` | crates/proxy/src/portal.rs:636-643 | The next row of an Execute is read with the positions the last one was re-derived to |
| `Portals.SessionPortals.Parse` | crates/proxy/src/portal.rs:409-424 | New incarnation of a statement with its parameter actions, under the limits; the whole new tracker state, or the state unchanged on refusal |
| `Portals.SessionPortals.Bind` | crates/proxy/src/portal.rs:432-448 | New portal under the limits, answered with the actions held for its statement; all else unchanged |
| `Portals.SessionPortals.CloseStatement` | crates/proxy/src/portal.rs:452-456 | Forgets the statement and the portals built from it, and nothing else |
| `Portals.SessionPortals.ExpectDescribe` | crates/proxy/src/portal.rs:463-477 | Queues a Describe for the incarnation its target denotes now |
| `Portals.SessionPortals.ExpectExecute` | crates/proxy/src/portal.rs:486-500 | Queues an Execute with incarnation, positions and formats fixed now |
| `Portals.SessionPortals.CopyData` | crates/proxy/src/portal.rs:556-579 | The effect of one copy frame on the whole tracker |
| `Portals.SessionPortals.AnswerDescribe` | crates/proxy/src/portal.rs:599-620 | Gives a description to its statement and to every queued Execute of the same incarnation |
| `Portals.SessionPortals.Rederive` | crates/proxy/src/portal.rs:636-643 | Replaces the positions of the Execute being answered, and nothing else |
| `Portals.SessionPortals.AnswerBatch` | crates/proxy/src/portal.rs:673-685 | Settles everything up to the first marker |
| `Capacity.RefusedIffOver` | crates/proxy/src/portal.rs:409-477 | A frame is refused exactly for a name over 256 bytes, or else for a limit it would exceed: 1024 statements, 1024 portals, 4096 owed responses; a name already known is never over |
| `Capacity.RunsCapped` | crates/proxy/src/portal.rs:49-50 | In every state of every session those are bounds on what the tracker holds |
| `Portals.RemoveMarkers` | crates/proxy/src/portal.rs:569-578 | The removal loop computes the queue without the markers behind one Execute |
| `Portals.FillPositions` | crates/proxy/src/portal.rs:613-619 | The back-filling loop fills exactly the Executes of one incarnation |
| `Portals.PopBatch` | crates/proxy/src/portal.rs:673-685 | The popping loop leaves the queue behind the first marker |
| `Params.Recorder.Record` | crates/proxy/src/portal.rs:228-237 | One recorded action, or a conflict that changes nothing |
| `Params.RecordsIffConsistent` | crates/proxy/src/portal.rs:188-237 | A statement's calls all succeed exactly when those for each placeholder are the same: kind, transform object, and for a sealed value the source of its row; the result is then the first call for each |
| `Params.FirstSeenDistinct` | crates/proxy/src/portal.rs:202-216 | That result holds at most one action per placeholder |
| `Params.FirstSeenHas` | crates/proxy/src/portal.rs:202-216 | It holds one for every placeholder mentioned |
| `Params.ConflictNamed` | crates/proxy/src/portal.rs:228-237 | A conflict is reported for the placeholder, counted from one, of the first call that differs from an earlier one |
| `BindRewrite.RewriteBind` | crates/proxy/src/encrypt/frame.rs:231-319 | The loop that replaces parameters in place computes the rule in which every action reads the Bind as it arrived; relays, refusals and failures included |
| `BindRewrite.ForwardedParameters` | crates/proxy/src/encrypt/frame.rs:231-319 | A Bind is relayed as it came only if its statement asks for nothing; otherwise what is forwarded parses back to the same Bind but for its parameters, each of which is what its own action makes of it, in the format it arrived in, and those with no action and NULLs are as they came; where that is to be refused, no array is left unindexed |
| `BindRewrite.EachParameterItsOwn` | crates/proxy/src/encrypt/frame.rs:248-292 | After any number of actions, parameter by parameter: what its own action makes of the Bind as it arrived, whatever the others do |
| `BindRewrite.BoundKeyNamesRow` | crates/proxy/src/encrypt/frame.rs:85-107 | A value is sealed under a key exactly when it is that of the row the Bind names: none, the statement's literal, or the canonical form of another parameter as it arrived, in its own format |
| `BindRewrite.StopsAtFirst` | crates/proxy/src/encrypt/frame.rs:248-292 | What stops a Bind is its first action that cannot be carried out: a row key that cannot be read, by placeholder and column, or what a transform answers |
| `BindRewrite.RefusedForArrays` | crates/proxy/src/encrypt/frame.rs:272-311 | A Bind is refused for its arrays only where that is asked for, and by exactly the columns whose array could not be indexed |
| `BindRewrite.RecordedAreDistinct` | crates/proxy/src/portal.rs:202-237 | The actions a statement records have distinct placeholders, which is what the loop relies on |
| `WritePath.SessionsSealParameters` | crates/proxy/src/encrypt/frame.rs:231-319 | In every session, whatever is forwarded for a Bind has every parameter sealed or indexed that the Parse of its statement in the recorded history asks for, and a Bind is relayed as it came only if there is no such Parse or it asks for nothing |
| `WritePath.WrittenReadsBack` | crates/proxy/src/rows.rs:850-1014 | A value sealed in a Bind, stored by the server and read in a row whose key is the one the Bind named is shown as it was written, or as the column's mask of that |
| `WritePath.ReadsBackInItsRowIff` | crates/core/src/rowkey.rs:10-24 | With the row given by an integer parameter, in any spelling or in binary, it is read back, in either result format, exactly in the row with that integer as its key |
| `WritePath.SearchFindsWrittenIff` | crates/proxy/src/encrypt/frame.rs:262-270 | A searched parameter of one Bind is the index that a value sealed in another is stored behind exactly when their keyed hashes are the same |
| `Envelope.AadIsInjective` | crates/core/src/envelope.rs:166-210 | Associated data determines the key id, and within a version the column and the row |
| `Envelope.AadAcrossVersions` | crates/core/src/envelope.rs:166-210 | Exactly which bindings of different versions share associated data |
| `Envelope.OpensWhereSealed` | crates/core/src/envelope.rs:421-457 | Whatever bytes are presented, a value opens in a column only if it was sealed for it, in its row if row-bound, strictly only as sealed for that row; provided no sealing of the ledger is confusable with this cell, that is, of another version with the same associated data |
| `Envelope.OpensItsOwnIff` | crates/core/src/envelope.rs:166-210 | Over all bytes, and all ledgers whose cell-bound values were sealed under names that are neither empty nor framings, a column opens nothing but what was sealed for the cell exactly when its own name is neither empty nor the framing of a column and a row |
| `Envelope.SealedOpens` | crates/core/src/envelope.rs:349-457 | A sealed value opens to its plaintext in its own cell, and older versions too until strictness forbids it |
| `Envelope.RelabelledNeverOpens` | crates/core/src/envelope.rs:421-457 | Rewriting the version of a sealed value never opens it in its column, for every row key and strictness |
| `Envelope.FramedNameOpens` | crates/core/src/envelope.rs:194-210 | Under a name that is a framing, the row-bound value that opens and the bytes that open it |
| `Envelope.FramingNamedOpens` | crates/core/src/envelope.rs:194-210 | The other way round: in a row, the cell-bound value of a column named like the framing of this column and this row opens once its version is rewritten, strictly or not |
| `Envelope.UnsealOf` | crates/core/src/envelope.rs:453-457 | The symbolic cipher opens a recorded ciphertext under its own associated data and no other |
| `Envelope.EnvelopedIff` | crates/core/src/envelope.rs:313-316 | Bytes are an envelope exactly when they start with a known magic and go on past the header |
| `Envelope.OpenRefusedIff` | crates/core/src/envelope.rs:421-457 | Why bytes do not open, for each reason exactly when: no envelope, unknown key, downgrade, no row, too long a name or row, or nothing sealed so |
| `DekBudget.Ciphers.GetOrInsert` | crates/core/src/envelope.rs:521-530 | The write section of `active`: first cipher wins |
| `DekBudget.Ciphers.Replace` | crates/core/src/envelope.rs:532-547 | The write section of `roll_active`: replaces only the spent key's cipher |
| `DekBudget.Ciphers.Encrypt` | crates/core/src/envelope.rs:349-357 | Charges before anything can fail, refuses at the budget, touches no other cipher |
| `DekBudget.GrantedWithinBudget` | crates/core/src/envelope.rs:355-357 | The 64-bit counter keeps its budget exactly until it has wrapped |
| `DekBudget.BudgetPerInstall` | crates/core/src/envelope.rs:499-547 | For any key source and any interleaving, envelopes under one key id stay within one budget per cipher built for it |
| `DekBudget.BudgetHolds` | crates/core/src/envelope.rs:499-547 | With a source that only moves forward, keys are installed in strictly increasing order and at most `budget` envelopes ever carry one id |
| `DekBudget.NoFreshKeyNoSeal` | crates/core/src/envelope.rs:499-508 | While the newest key is spent and the source offers no other, nothing more is sealed in any thread |
| `DekBudget.LoneSeal` | crates/core/src/envelope.rs:499-508 | From any reachable state an undisturbed call seals once, under the active key while it has budget and else under the source's, and fails exactly when there is no other key |
| `DekBudget.GivesUpOnlyWhenDry` | crates/core/src/envelope.rs:532-536 | A call that gives up at the source does so only in that situation |
| `DekBudget.AtMostTwice` | crates/core/src/envelope.rs:499-508 | In every run, a call encrypts at most twice, the second time behind a new key: no call goes round again |
| `DekBudget.OneEnvelopePerCall` | crates/core/src/envelope.rs:499-508 | In every run, every call that has succeeded has written one envelope and no other has written any |
| `DekBudget.FailsExhausted` | crates/core/src/envelope.rs:499-547 | A call fails as exhausted exactly when the source offers the spent key again, or the new key was spent too before the call could use it |
| `DekBudget.ReturningSourceExceeds` | crates/core/src/envelope.rs:532-547 | For every budget, any two keys and any number of rounds, a source that alternates between the keys has that many whole budgets sealed under one of them |
| `IndexKeys.RecordsNeverChange` | crates/vault/src/source.rs:232-238 | A stored record stays, unchanged, in every later state |
| `IndexKeys.LookupsAgree` | crates/vault/src/source.rs:604-664 | All successful lookups of a name, in any proxies at any times and with any failures, answer the same key; a name from the legacy map keeps its key |
| `IndexKeys.OnlyConfirmedAbsenceCreates` | crates/vault/src/source.rs:602-607 | Unless a read of that very name succeeded and found nothing, its record is neither created nor changed |
| `IndexKeys.LoneLookup` | crates/vault/src/source.rs:604-664 | From any reachable state an undisturbed lookup ends with the cached, recorded, adopted or minted key, in that order of preference, or with an error on a malformed one, and changes no other name's record |
| `IndexKeys.LosesRace` | crates/vault/src/source.rs:626-634 | From any run, a call about to create a name recorded meanwhile answers the recorded key and leaves the record |
| `IndexKeys.LostRaceAdopts` | crates/vault/src/source.rs:604-664 | Two proxies that both find a name absent and draw keys: the run in which both end with the key of the first to create, which is the one recorded |
| `IndexKeys.AnsweredStaysCached` | crates/vault/src/source.rs:604-664 | In every run, a proxy that has answered a name has it in its cache from then on |
| `IndexKeys.LateCreateLands` | crates/vault/src/source.rs:604-664 | From any run, a create whose caller gave up on the answer may still be applied, and the name is then recorded with its key |
| `IndexKeys.PrematureRetirementDisagrees` | crates/vault/src/source.rs:645-664 | Retiring a legacy entry before its record exists lets two proxies resolve different keys |
| `IndexKeys.RecordRoundTrip` | crates/vault/src/source.rs:160-175 | A record written for a key reads back as that key |
| `IndexKeys.CurrentKeyIff` | crates/vault/src/source.rs:166-174 | Of a record with any number of versions, the current one is answered, exactly when it is there and is the hexadecimal form of a whole key |
| `IndexKeys.NewestVersionAnswers` | crates/vault/src/source.rs:166-174 | So a record given a newer version answers the newer key |
| `Transforms.RoundTrip` | crates/core/src/transform.rs:160-189 | Behind an index a value always opens to its plaintext; bare, exactly when its ciphertext is not shaped like an envelope |
| `Transforms.SealThenOpen` | crates/core/src/transform.rs:160-189 | The same across changes of `searchable` and strictness between writing and reading |
| `Transforms.FoundByIndex` | crates/core/src/transform.rs:154-193 | The stored prefix equals another plaintext's search index exactly when the keyed hashes do, for every row and key |
| `Transforms.OpenedIsAuthentic` | crates/core/src/transform.rs:175-189 | Any bytes a column opens, over a ledger with nothing confusable with the cell, were sealed for it, and which part of them is the envelope |
| `Transforms.SplitPrepended` | crates/core/src/blind_index.rs:23-36 | Splitting undoes prepending, and what it makes of a bare envelope |
| `Transforms.TransformDigits` | crates/core/src/transform.rs:244-262 | The gathering and scattering loops answer the value of the same shape whose digits are those of the given permutation, in either direction, or refuse below six digits |
| `Transforms.Scatter` | crates/core/src/transform.rs:257-261 | Writing back by position is replacement by rank |
| `Transforms.FpePermutesDigits` | crates/core/src/transform.rs:244-278 | A value is sealed to `w` exactly when it has six digits or more, `w` has its shape and the digits of `w` are its digits encrypted; opening is the same with decryption, and opens nothing without `detokenize` |
| `Transforms.DigitsOfNumeral` | crates/core/src/transform.rs:244-262 | The digits of a decimal numeral are the values of its characters |
| `Transforms.FpeIsABijectionOfShapes` | crates/core/src/transform.rs:244-278 | Sealing exists exactly for values of six digits or more, keeps length, digit places and every other byte, and open and seal undo each other |
| `Policy.Validate` | crates/core/src/policy.rs:278-304 | Accepts exactly the admissible policies, and every refusal is true of the policy it refuses |
| `Policy.ValidateColumns` | crates/core/src/policy.rs:278-302 | The column half: unique qualified names and admissible columns |
| `Policy.ValidateRowKeys` | crates/core/src/policy.rs:313-363 | The table half: unique tables, each binding something, with a readable key |
| `Policy.TableNameInjective` | crates/core/src/policy.rs:47-52 | A joined table name determines schema and table |
| `Protector.New` | crates/core/src/protector.rs:105-124 | A protector exists exactly for admissible policies |
| `Protector.LookupFinds` | crates/core/src/protector.rs:207-217 | Every column is found under its full name, and under the short one in the default schema |
| `Protector.CheckRow` | crates/core/src/protector.rs:221-227 | A row key is accepted exactly for row-bound columns |
| `Protector.ColumnStores` | crates/core/src/protector.rs:148-166 | What each kind of column stores, and every refusal: the envelope, behind the keyed hash of the plaintext if searchable; the value with its digits encrypted; 64 lower-case hexadecimal digits that decode to the keyed hash; the value itself. Every key is the one named like the column |
| `Protector.TokensAgreeIff` | crates/core/src/transform.rs:312-316 | Two values of a token column are stored alike exactly when their keyed hashes are the same |
| `Protector.ColumnReads` | crates/core/src/protector.rs:168-183 | What each kind of column reads, and every refusal |
| `Protector.SealedOpensAgain` | crates/core/src/protector.rs:153-183 | What each kind of column gives back for what it sealed |
| `Protector.MigrationWindowIff` | crates/core/src/envelope.rs:421-457 | A value written before its table's rows were bound is read in any row exactly while the table's migration window is open, and refused as a downgrade after |
| `Protector.KnownIff` | crates/core/src/protector.rs:207-217 | A name is known exactly when it is a column's own, or lacks only the default schema |
| `Protector.UnknownRefused` | crates/core/src/protector.rs:207-217 | Sealing, opening and searching under any other name is refused by that name |
| `Protector.SearchTermIs` | crates/core/src/protector.rs:190-195 | Only searchable columns have a search term, the keyed hash under the key named like the column |
| `Protector.MasksWhereDeclared` | crates/core/src/protector.rs:197-204 | A value is masked exactly where the policy declares a mask, with that mask |
| `Protector.SearchTermFinds` | crates/core/src/protector.rs:190-195 | The search term is the prefix a searchable column stores |
| `Protector.RelocationRefused` | crates/core/src/protector.rs:153-183 | A value sealed for one column and row is never returned as that value for another column of any kind or another row, and an encrypting column refuses it |
| `Protector.ValuesAreAuthentic` | crates/core/src/protector.rs:170-183 | Any value an encrypting column returns, from any bytes, was sealed for it, and with the migration window closed for that row; provided the ledger holds nothing that is confusable with this cell |
| `Protector.AuthenticIff` | crates/core/src/policy.rs:278-304 | For an admissible policy that provision is met by everything the policy can have sealed exactly when no encrypting column's name is the framing of a row-bound encrypting column's name and a row: then, and only then, whatever is read was sealed for the cell it is read in |
| `Protector.NulFreeNamesAuthentic` | crates/core/src/policy.rs:278-304 | Names without a leading NUL meet that condition |
| `Protector.DeclaredOnce` | crates/core/src/policy.rs:383-388 | In a valid policy the first table entry found is the only one |
| `Protector.FramedColumnOpens` | crates/core/src/protector.rs:170-183 | In any admissible policy, a column without row binding whose name is a framing returns that row's value once its version is rewritten |
| `Protector.NulNamesCollide` | crates/core/src/policy.rs:278-304 | A policy that validates and in which the guarantee over all bytes fails |
| `Resolution.ProtectedExact` | crates/proxy/src/rows.rs:257-269 | A position is protected exactly when its field's table and attribute number are a column of the resolution, as that column, with the key the result set tells for its own table |
| `Resolution.RowKeyRefMeaning` | crates/proxy/src/rows.rs:271-303 | What is told of a table's key, both ways and with the names: a slot for exactly one projection of the declared key under its resolved type, ambiguous for two, changed for one of another type, absent for none or without a declared key |
| `Resolution.Refresh` | crates/proxy/src/rows.rs:356-365 | The merge-and-sort computes the position-by-position choice |
| `Resolution.MergedExact` | crates/proxy/src/rows.rs:356-365 | Re-derivation holds exactly the new resolution's columns (those of `ProtectedExact`), and the old ones where there is no new one, in strict order |
| `Resolution.RefreshedCovers` | crates/proxy/src/rows.rs:345-365 | It only grows: all of the old positions and all of the new resolution's |
| `Publication.RowsFollowPublication` | crates/proxy/src/rows.rs:434-448 | Once a publication has returned, every later row of any Execute of a cached statement, the first or a repeated one, covers the statement's description and all of a resolution at least as new, which is the one its stamp names |
| `Publication.RunsPublished` | crates/proxy/src/rows.rs:688-696 | In every run every description, cached or re-derived for one Execute, carries its stamp's resolution and nothing newer |
| `Publication.RowsMayDescribe` | crates/proxy/src/rows.rs:688-696 | The positions `current` picks for a row of the Execute being answered are ones the session theorems allow |
| `Publication.TwoPublishersRegress` | crates/proxy/src/resolve.rs:83-87 | With two publishers a row can use the older resolution after both have returned |
| `Publication.SaturatedPublicationIsMissed` | crates/proxy/src/rows.rs:434-443 | With one publisher, the run in which the generation number has saturated and a row read after a further publication has returned still uses the older resolution |
| `Wire.DataRowRoundTrip` | crates/pgwire/src/lib.rs:184-213 | A printed row parses back |
| `Wire.DataRowReprint` | crates/pgwire/src/lib.rs:184-213 | A parsed body prints back to the same bytes exactly when its count is not negative, and what a negative count means |
| `Wire.BindRoundTrip` | crates/pgwire/src/lib.rs:291-347 | A printed Bind with NUL-free names parses back |
| `Wire.BindReprint` | crates/pgwire/src/lib.rs:291-347 | A parsed Bind prints back to the same bytes exactly when neither of its counts is negative |
| `Wire.ParseRoundTrip` | crates/pgwire/src/lib.rs:223-237 | Parse bodies, in both directions |
| `Wire.ReadDataRow` | crates/pgwire/src/lib.rs:184-194 | The cursor loop is the recursive parser, errors included |
| `Wire.WriteDataRow` | crates/pgwire/src/lib.rs:204-213 | The buffer loop is the printer, and fails exactly on a field that does not fit |
| `Wire.ReadBind` | crates/pgwire/src/lib.rs:291-305 | The Bind loops are the recursive parser |
| `Wire.WriteBind` | crates/pgwire/src/lib.rs:314-347 | The Bind printer's loops, with the same failure condition |
| `Wire.ParsedLength` | crates/pgwire/src/lib.rs:184-194 | A parsed body is as long as its values print, whatever its count |
| `RowKeys.SpellingsAgree` | crates/core/src/rowkey.rs:179-190 | Every accepted spelling of an integer gives one key, or is refused out of range |
| `RowKeys.OnlySpellings` | crates/core/src/rowkey.rs:179-190 | Nothing else has a key |
| `RowKeys.IntegerFormsAgree` | crates/core/src/rowkey.rs:100-142 | Binary form, canonical text and typed constructor agree; the canonical text is a fixed point |
| `RowKeys.IntegerKeysDistinct` | crates/core/src/rowkey.rs:100-142 | Distinct integers have distinct keys |
| `RowKeys.TextKeys` | crates/core/src/rowkey.rs:100-127 | Text keys are themselves in both formats, exactly when they are valid UTF-8; NULL and every other type have no key |
| `RowKeys.BinaryKeys` | crates/core/src/rowkey.rs:114-119 | A binary key has exactly its type's width: the two's complement of an integer, the 16 octets of a uuid |
| `Text.DecodesIffEncoded` | crates/core/src/rowkey.rs:164-170 | Exactly the encodings of Unicode scalar values by section 3 of RFC 3629 are texts, each of the values it encodes |
| `RowKeys.UuidFromText` | crates/core/src/rowkey.rs:195-214 | The digit-collecting loop, with its refusals |
| `RowKeys.UuidSpellingsAgree` | crates/core/src/rowkey.rs:195-214 | Every accepted spelling of a uuid gives the key of its 16 bytes |
| `RowKeys.OnlyUuidSpellings` | crates/core/src/rowkey.rs:195-214 | Nothing else has a key |
| `RowKeys.UuidFixedPoint` | crates/core/src/rowkey.rs:153-161 | The canonical uuid is a fixed point and is what the binary form gives |
| `RowKeys.UuidKeysDistinct` | crates/core/src/rowkey.rs:226-229 | Distinct uuids have distinct keys |
| `Rows.DecryptRow` | crates/proxy/src/rows.rs:850-1014 | Cached keys, in-place replacement and running size compute the simple rule that reads everything from the row as it arrived, errors in the same order |
| `Rows.Rewrite` | crates/proxy/src/rows.rs:902-1009 | The loop's tracked size is the printed size of the row at every step |
| `Rows.OpenWithCached` | crates/proxy/src/rows.rs:941-984 | The cached key is the key of the row, and the recorded reason is there when it is taken |
| `Rows.ReadKeys` | crates/proxy/src/rows.rs:923-926 | Each distinct slot is read once, before anything is rewritten |
| `Rows.DistinctSlots` | crates/proxy/src/rows.rs:1030-1040 | Every slot of the description, each place once |
| `Rows.RepeatedNames` | crates/proxy/src/rows.rs:888-897 | Exactly the columns that came back more than once |
| `Rows.RowIsColumnwise` | crates/proxy/src/rows.rs:850-1014 | Each value depends on its own position and the arrived row only; NULLs, unprotected columns and the count are untouched |
| `Rows.CellShows` | crates/proxy/src/rows.rs:929-1008 | A value within the size limit is shown as the mask of what its transform opened, or of the stored bytes if it opened nothing or there is none; without a mask as what was opened, or as it came; always in the form it came in |
| `Rows.CellRefuses` | crates/proxy/src/rows.rs:929-1008 | Exactly when and why a value is refused |
| `Rows.MasksReachTheClient` | crates/proxy/src/rows.rs:985-1013 | In every row that reaches the client, whatever its other columns do, a masked column is masked; and a row with a masked value is never passed on as it is |
| `Rows.RefusedUpFront` | crates/proxy/src/rows.rs:861-881 | The first ambiguous or changed key of the description refuses the row, by its names, and nothing else does before it is read |
| `Rows.RowRefused` | crates/proxy/src/rows.rs:927-1009 | A row is refused at the first position whose own value is, or with which it would be longer than the limit |
| `Rows.FormatIffAsked` | crates/pgwire/src/lib.rs:279-289 | The format a column is read in is the one the Bind asked for: text by default, one code for all, or one for each |
| `Rows.RewrittenRowPrints` | crates/proxy/src/rows.rs:995-1013 | A rewritten row prints, to exactly its tracked length, within the bound, and parses back |
| `Rows.DescriptionsQualify` | crates/proxy/src/rows.rs:339-365 | What descriptions and re-derivations leave behind meets what the row rewriter asks for |
| `Rows.HexTextRoundTrip` | crates/proxy/src/rows.rs:1154-1177 | A value sent back as hex text decodes to itself |
| `Rows.DecodesHexIff` | crates/proxy/src/rows.rs:1154-1177 | A value is taken for hex exactly when its column is BYTEA and it is `\x` and the hex of something |
| `Rows.KeyReadIff` | crates/proxy/src/rows.rs:1069-1096 | A row's key is read exactly when the description has a place for it, the row reaches that far and the value there has a canonical form in the format asked for |
| `ReadPath.BoundValueReads` | crates/proxy/src/rows.rs:921-1008 | In its own row a sealed value is shown as its plaintext or the column's mask of it, in the form it came in |
| `ReadPath.CellBoundValueReads` | crates/proxy/src/rows.rs:921-1008 | So is a value sealed without a row, where no key is read or the migration window is open |
| `ReadPath.MovedValueIsNamed` | crates/proxy/src/rows.rs:1114-1138 | In another row it is refused by cell and row, or as a self-join; without a usable key the refusal says that |
| `ReadPath.DriversAgreeOnRows` | crates/core/src/rowkey.rs:10-24 | A value sealed under any spelling of key `n` reads back, in either format, exactly in the row whose key is `n` |
| `ReadPath.WireForm` | crates/proxy/src/rows.rs:1154-1177 | Raw stored bytes are never mistaken for hex text |
| `Hex.EncodeDenotes` | crates/proxy/src/rows.rs:1154-1177 | The hexadecimal form of octets denotes the number they denote, most significant first |
| `Bytes.ReadsUnsigned` | crates/pgwire/src/lib.rs:184-194 | Fixed-width fields are read in network byte order |
| `Relay.Run` | crates/proxy/src/session.rs:586-698 | The loop is the recursive stream transformer, and never holds a body over the limit asked for that frame |
| `Relay.RelayIsFramewise` | crates/proxy/src/session.rs:586-698 | For every input, transform and ending, both sides are sent complete frames only, and parsed back these are what the transform made of the frames that arrived: forwarded or replaced under their own type, answered ones withheld, nothing behind a refusal |
| `Relay.TransparentIsPrefix` | crates/proxy/src/session.rs:586-698 | Relaying everything forwards the longest prefix of complete frames |
| `Relay.RelayEnds` | crates/proxy/src/session.rs:586-698 | For every input and transform, what the relay goes on behind and what ends it, with its error: shutdown or end of input, a bad length, a body over the limit, one cut off, a failed transform, a replacement that fits no frame, a refusal |
| `Relay.HeaderRoundTrip` | crates/proxy/src/session.rs:538-555 | Headers are written exactly for the lengths they can be read for, and read back |
| `Relay.RewrittenRowFrames` | crates/proxy/src/session.rs:538-555 | A rewritten DataRow always gets a header, and never fails to print |
| `Relay.NoteAuthentication` | crates/proxy/src/session.rs:273-277 | The flag is set by AuthenticationOk and nothing else, and stays |
| `Relay.RelayBoth` | crates/proxy/src/session.rs:218-252 | The two loops with their shared flag and shared sockets, in any interleaving, compute the two-direction machine: each backend frame noted before it is handled, each client header held to the limit the flag sets then, each turn's bytes sent whole to the socket they go to |
| `Relay.FlagThroughout` | crates/proxy/src/session.rs:111-126 | In every interleaving, the flag at the client's k-th header says whether one of the backend frames handled until then accepts the client, and no body over 16 KiB is held before one does |
| `Relay.RelayedTogether` | crates/proxy/src/session.rs:218-277 | For the relays: so it is, the frames noted are the first of those that arrive from the backend, and a direction that has ended has the outcome it has alone, given the flag |
| `Relay.SocketsStayFramed` | crates/proxy/src/session.rs:556-566 | Each socket is written by both relays, forward by one and back by the other; in any interleaving it is sent complete frames and nothing else, the frames of one turn after those of the turn before, and what each relay wrote to the two sockets is its own output |

## Left out

- SQL parsing and rewriting: the statements reach the model as the frames and parameter actions they turn into.
- The cryptography: AES-GCM is the ledger, HMAC-SHA-256 any function with a 32-byte result, FF1 any permutation of numeral strings of each length.
- Random nonces: that no two sealings share key, nonce and ciphertext is part of what a genuine ledger is.
- Sockets, TLS, startup, timeouts and process management: the relay is a function of its input bytes.
- Backend messages the tracker ignores (notices, parameter status, ParseComplete and the like, CopyOut) and RowDescription parsing: they only add easy members.
- Upstream: names the backend makes and forgets in SQL (PREPARE, DEALLOCATE, DECLARE, CLOSE), portals that die with their transaction, and the unnamed statement and portal that a simple Query destroys; the backend of the model forgets a name only on a Close or a new Parse or Bind.
- Relay: once one direction has ended, the other is cut off after a drain timeout, even inside a frame, and cannot write to a socket that has been shut down; here a turn is written whole and a socket takes it.
- BindRewrite: the codec of a bound array is a parameter, which indexes an array or leaves it; sealing, indexing and the choice to refuse are too.
- The stale-mapping heuristics on column names: they warn or refuse and change no state.
- Session: a frame that aborts a copy is consumed by the abort or processed after it; section 55.2.6 leaves both open, and a backend that closes the connection instead ends the session here.
- Session: statement and Execute counters are unbounded; the source's are 64 bits wide.
- The negative cache of missing DEKs and the DEK cache by id: bounded map updates with no property across calls.
- IndexKeys: a Vault lookup is a machine of steps rather than a method, since what it promises is about interleavings; nothing but these proxies and the retirement of legacy entries writes to the store.
- Error messages: refusals are modelled by kind and by the names and numbers they carry, not by wording; all reasons for an unusable row key are one kind.
- `warn` and `reject` settings of the read path: only what happens to rows that are decrypted.
- Masks: any function of a value; which values they are applied to is modelled, their own rules are single-function facts.
- Publication: atomic loads and stores interleave sequentially; weaker memory orders are not modelled.
