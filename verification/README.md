# Zero-trust file drop: a verified model

A Dafny model of a client/server file drop. A server relays encrypted files between users who trust
only a certificate authority; it keeps three SQL tables and a directory of encrypted blobs, and runs one
thread per connection beside a cleanup thread. The clients are verification pipelines over signed,
length-framed JSON messages. The project proves what these parts promise together.

`dafny verify dfyconfig.toml` checks everything.

## How it is laid out

Foundations

- `crypto.dfy`: byte strings as sequences of plain bytes and opaque blocks. OAEP, AES-GCM, SHA-256, HKDF and
  RSA-PSS are free constructors, so a hash has one preimage and a signature names its key and its body. A log of
  honest signatures (`SigLog`, `Known`) says what a network can deliver.
- `replay.dfy`, `store.dfy`, `names.dfy`, `file_crypto.dfy`, `messages.dfy`: the nonce cache, the tables and their
  transactions (class `Database`), the names that may enter them, the associated data, the envelopes and their checks.

The server, one handler at a time

- `handler_spec.dfy` gives each handler as a function on the whole state; `server.dfy` is the server object, with
  one method per handler, the connection loop and the cleanup loop, proved against those functions.
- `lifecycle.dfy`, `row_history.dfy`, `isolation.dfy`, `delivery.dfy`, `connections.dfy`: theorems about every run of
  requests and cleanup passes. `answers.dfy` says which request gets which answer, with the codes on the wire, and what
  one answer says about later ones.

The server as it really runs

- `threads.dfy` takes every SQL transaction, clock reading and file operation as one step of one thread, with a
  snapshot of the row in the thread's program counter and a crash possible between any two steps.
  `thread_invariant.dfy`, `thread_safety.dfy`, `thread_theorems.dfy`, `thread_replies.dfy` and `crash.dfy` prove what holds in every
  reachable state and along every run; `solo.dfy` shows that a thread left alone does exactly what the handler
  function says, so the two server models are one program.

The clients and the network

- `client.dfy` (building and opening a package), `client_session.dfy` (`upload_file`, `download_file` and
  `revoke_file` on the socket and the disk), `certificates.dfy`.
- `world.dfy`: honest clients, the interleaved server, the certificate authority and a network that delivers
  anything it can put together.
- `handshake.dfy` (both roles as automata, and both procedures on a socket), `handshake_outcomes.dfy` (when each side
  finishes, and with what) and `handshake_net.dfy` (any number of
  runs over a network that drops, reorders, replays and injects).

The codecs

- `utf8.dfy`, `json_text.dfy`, `canonical_json.dfy`, `signed_bytes.dfy`, `framing.dfy`: from characters to frames. They
  justify treating the signed messages as distinct constructors everywhere else (`SignedBytes.BodiesNeverMeet`).

## Where the code and its prose differ

The model follows the code in each case.

- The certificate docstring asks for `valid_until > now`; the code accepts `now == valid_until`
  (zerotrust/ca/cert.py:86, 111).
- The revoke docstring says the cleanup thread may touch the filesystem; cleanup never touches a blob
  (zerotrust/server/handler.py:830-832, zerotrust/server/cleanup.py:48-53).
- Serving a download does not change the status; only an acknowledgement sets `downloaded`
  (zerotrust/server/handler.py:669-691, 779-782).
- The upload step calls itself an atomic write, but the blob is replaced before the row is inserted, so a repeated
  file id leaves the old row beside the new blob (zerotrust/server/handler.py:402-411). `Delivery.SecondUpload` says
  exactly when the two still match.

## Model

| member | source | states |
|---|---|---|
| Replay.AtMostOnceBound | zerotrust/server/replay.py:21-69 | for every d: over all runs of checks and purges whose clock steps back by at most d seconds, no (nonce, timestamp) pair is accepted twice, if and only if d <= 240 |
| Replay.AcceptedOnce | zerotrust/server/replay.py:40-69 | two accepted checks of one run never carry the same nonce and timestamp while the clock steps back by at most 240 s |
| Replay.Retained | zerotrust/server/replay.py:63-69 | an accepted nonce is still in the table, with its time, until a purge more than 300 s later |
| Replay.PurgedRefinesFullBound | zerotrust/server/replay.py:40-69 | with one timestamp per nonce, every check answers as it would over a table that is never purged, in all runs stepping back by at most d, if and only if d <= 240 |
| Replay.PurgedAnswersAgree | zerotrust/server/replay.py:40-69 | the direction used elsewhere: under that bound all answers agree |
| Replay.TablesShadow | zerotrust/server/replay.py:51-69 | the simulation behind it: the purged table is part of the full one, and what it lost is older than 300 s |
| Replay.RegressionAcceptsTwice | zerotrust/server/replay.py:21-22 | a run with 241 s of regression accepts the same message twice |
| Store.Database.CheckAndRecord | zerotrust/server/replay.py:40-60 | accepts exactly a 16-byte nonce within 30 s either way that is not in the table, and then records it with the clock reading |
| Store.Database.PurgeOldNonces | zerotrust/server/replay.py:63-69 | keeps exactly the entries with seen_at >= now - 300, unchanged, and returns how many went |
| Store.Database.InsertFile | zerotrust/server/store.py:55-86 | inserts a row unless the id is taken or an integer does not fit 64 bits; a taken id keeps its row |
| Store.Database.GetFile | zerotrust/server/store.py:99-106 | returns the stored row or nothing |
| Store.Database.SetStatus | zerotrust/server/store.py:108-117 | changes one status, and nothing when the id is absent |
| Store.Database.ExpirePending | zerotrust/server/store.py:120-143 | flips exactly the pending rows with expiration < now and returns their number |
| Store.Database.AddAck | zerotrust/server/store.py:145-152 | the first acknowledgement of a file stays; a timestamp beyond 64 bits raises |
| Names.UuidIff | zerotrust/server/handler.py:329-330 | a file id is accepted if and only if it is five dashed groups of lower-case hex digits |
| Names.UsernameIff | zerotrust/server/storage_layout.py:24-36 | a username is accepted if and only if it has one to 32 letters, digits, underscores and hyphens |
| FileCrypto.AadDecodes | zerotrust/common/file_crypto.py:22-24 | associated data of two triples are equal if and only if the triples are, for UUID ids, valid recipients and any senders |
| FileCrypto.UuidHasNoBar | zerotrust/server/handler.py:329-330 | the id check of the upload handler keeps the separator out of the first field |
| Messages.LookupCert | zerotrust/server/handler.py:144-165 | whatever the directory holds, a certificate found in it verifies for exactly the user asked for |
| Server.Server.HandleGetPubkey | zerotrust/server/handler.py:172-206 | a certificate only if the name is valid, listed, and its certificate verifies for that name; otherwise NOT_FOUND; no state changes |
| Server.Server.HandleListPending | zerotrust/server/handler.py:213-246 | the loop builds exactly the entries of the caller's pending, unexpired rows, with the blob size when it can be read |
| Server.Server.HandleUploadRequest | zerotrust/server/handler.py:309-448 | check order, error codes, blob replaced before the row is inserted, and the connection dropped when the insert fails, as HandlerSpec.HandleUpload says |
| Server.Server.AuthoriseDownload | zerotrust/server/handler.py:465-576 | row or error code from ownership, expiration and status, and the opportunistic expiry write exactly for the recipient's overdue pending row |
| Server.Server.HandleDownloadRequest | zerotrust/server/handler.py:618-682 | the whole outcome of a download, including the refusals before and after the access decision |
| Server.Server.HandleDownloadAck | zerotrust/server/handler.py:733-787 | the ack is stored before the status is written, from any status, and only after ownership, certificate and signature |
| Server.Server.HandleRevokeRequest | zerotrust/server/handler.py:865-1020 | pending becomes revoked, revoked answers again without a write, downloaded and expired are refused, all after ownership and signature |
| Server.Server.HandleEnvelope | zerotrust/server/handler.py:1072-1121 | four request types pass the replay cache first; the others do not touch it |
| Server.Server.ServeConnection | zerotrust/server/handler.py:1065-1121 | the loop answers the session's envelopes in order and stops at the first one whose handler raises |
| Server.Server.RunCleanupPass | zerotrust/server/cleanup.py:38-53 | one pass purges and expires, a failing purge skips the rest, and both counts are exact |
| Server.Server.CleanupLoop | zerotrust/server/cleanup.py:72-88 | the loop is the sequence of its passes, failing ones included |
| Answers.StaleAnswers | zerotrust/server/replay.py:40-60 | exactly the uploads, downloads, acks and revokes with a nonce that is not 16 bytes, a timestamp more than 30 s off, or a seen nonce get STALE and change nothing; the other ones record their nonce |
| Answers.PubkeyAnswers | zerotrust/server/handler.py:144-206 | the listed certificate goes out exactly for a valid name whose listed certificate verifies for it, and NOT_FOUND otherwise |
| Answers.UploadAnswers | zerotrust/server/handler.py:309-448 | which upload gets which answer: AUTH_FAILED, MALFORMED, AUTH_FAILED, NOT_FOUND unless the recipient's listed certificate verifies, INTERNAL_ERROR, a dropped connection, UPLOAD_ACK |
| Answers.UploadEffects | zerotrust/server/handler.py:404-448 | an error left the state alone, an acknowledgement stored this row and blob field by field, a dropped connection replaced the blob alone |
| Answers.DownloadAnswers | zerotrust/server/handler.py:465-682 | which download gets which answer, with the wire codes and every field of the response |
| Answers.AckAnswers | zerotrust/server/handler.py:733-787 | which acknowledgement gets which answer, and what an accepted one writes |
| Answers.RevokeAnswers | zerotrust/server/handler.py:865-1020 | which revoke gets which answer, and what an accepted one writes |
| Answers.ListAnswers | zerotrust/server/handler.py:213-246 | a delivered list holds exactly one entry for each pending, unexpired row of the caller, with that row's sender and times and the size of its blob |
| Answers.CleanupEffects | zerotrust/server/cleanup.py:48-53 | what one pass does to each row and each nonce, failing passes included |
| Answers.DownloadAfterRevoke | zerotrust/server/handler.py:543-553 | after REVOKE_ACK, and any events short of an ack by the recipient, the recipient's download before expiration is answered REVOKED |
| Answers.DownloadAfterAck | zerotrust/server/handler.py:554-564 | after ACK_OK, and any events at all, it is answered ALREADY_DOWNLOADED |
| Answers.DownloadAfterUpload | zerotrust/server/handler.py:496-526 | after UPLOAD_ACK, and any events at all, a stranger's download is answered AUTH_FAILED and the recipient's at or past expiration EXPIRED |
| Answers.ListAfterUpload | zerotrust/server/handler.py:222-239 | after an acknowledged upload and harmless events, a list delivered to the recipient before expiration has exactly one entry for the file, with the sender, times and size of that upload |
| Answers.RowPersists | zerotrust/server/store.py:84-117 | over any run a row keeps everything but its status, which only climbs |
| Connections.ServeAnswersAll | zerotrust/server/handler.py:1065-1121 | a connection's envelopes are answered one by one in the state their predecessors left, and the loop stops early only after a handler that raised; an ERROR reply keeps the connection |
| Connections.PassesRunAll | zerotrust/server/cleanup.py:72-88 | the cleanup loop is the run of all its passes |
| Connections.FailedPassIsSkipped | zerotrust/server/cleanup.py:79-88 | a pass that fails at once changes nothing and the next one follows |
| Lifecycle.CleanupInvisible | zerotrust/server/cleanup.py:48-53 | two runs with the same requests and any cleanup passes in either give the same reply to every request, except to a revoke of a row past its expiration |
| Lifecycle.AlikeRuns | zerotrust/server/store.py:136-143 | the simulation: with and without cleanup, rows differ in status only when past expiration |
| Lifecycle.AlikeArrival | zerotrust/server/handler.py:497-564 | one request keeps the simulation and answers alike on both sides, or is a late revoke |
| Lifecycle.LateRevokeSeesCleanup | zerotrust/server/handler.py:955-1003 | the exception is real: the same late revoke is acknowledged before a pass and refused as expired after it, and an earlier one is not affected |
| RowHistory.AtMostTwoChanges | zerotrust/server/store.py:108-143 | with whole handlers every status change climbs the ranks pending, expired or revoked, downloaded, so a file changes status at most twice in any run |
| RowHistory.StepGrows | zerotrust/server/store.py:84-86 | no request or pass removes or replaces a row; a new row is pending; a status only climbs |
| RowHistory.DispatchWritesOnce | zerotrust/server/handler.py:1072-1121 | a request writes at most one row, the one it names |
| RowHistory.ReachableRowsHaveBlobs | zerotrust/server/handler.py:407-411 | every row of a reachable state has a blob |
| RowHistory.ListingSurvivesCleanup | zerotrust/server/store.py:88-97 | a pass at or before the listing's reading changes no list, although its comparison differs |
| RowHistory.ListedIffServed | zerotrust/server/handler.py:511-531 | in every reachable state a file is listed to a user at a time if and only if a fresh download by this user at that time is served, before and after a cleanup pass |
| Isolation.NonInterference | zerotrust/server/handler.py:497-515 | erasing all requests of other users leaves every answer about a file unchanged, its entry in delivered lists included, given separate nonces and that the file is uploaded only among its users |
| Isolation.AgreeRuns | zerotrust/server/handler.py:904-916 | the two runs agree on the file's row, blob, ack and on the users' nonces after every prefix |
| Isolation.LeavesAlone | zerotrust/server/handler.py:759-761 | a request that does not name the file, or comes from a stranger, leaves everything stored about it alone |
| Isolation.OwnersStay | zerotrust/server/handler.py:411-428 | the two owners of a row never change |
| ThreadInvariant.NextExtends | zerotrust/server/store.py:108-152 | no step of any thread removes or replaces a row or an ack, returns a file to pending, or loses a blob |
| ThreadSafety.NextOk | zerotrust/server/handler.py:483-531 | every step of every thread, with any other threads in flight, keeps the invariant of rows, acks, disk and thread snapshots |
| ThreadSafety.InvHolds | zerotrust/server/main.py:16-31 | so the invariant holds after any interleaving, crashes included |
| ThreadTheorems.RunExtends | zerotrust/server/store.py:84-86 | between any two points of a run rows persist, a file that left pending stays out of it, and first acks persist |
| ThreadTheorems.StatusProvenance | zerotrust/server/handler.py:767-782 | downloaded has an ack signed under a certificate of the recipient, revoked a verified revoke of the sender, expired a clock reading at or past expiration, and every ack has a row |
| ThreadTheorems.StoredRowVerifies | zerotrust/server/handler.py:357-428 | every stored row's certificate, signature, digests and associated data verify together |
| ThreadTheorems.ReadingsAreReal | zerotrust/server/handler.py:511-515 | each clock reading in the provenance is the reading of an earlier step |
| ThreadTheorems.RevokesAreReal | zerotrust/server/handler.py:936-953 | each revoke in the provenance was verified by an earlier step of a thread that held the row |
| ThreadTheorems.NoServeAfterTerminalWrite | zerotrust/server/handler.py:483-531 | a download whose status read follows a committed revoke, ack or expiry write is never answered with the file |
| ThreadTheorems.LateChangesBounded | zerotrust/server/handler.py:955-1003 | after a file left pending, its further status changes are at most the acks plus the threads that still held a stale pending read |
| ThreadReplies.RepliesAreBacked | zerotrust/server/handler.py:445-448 | in every interleaved run, each UPLOAD_ACK, ACK_OK, REVOKE_ACK and DOWNLOAD_RESPONSE is backed, as it is sent, by the stored row, blob, ack and status, and goes to the row's own user |
| ThreadReplies.CleanerAloneIsPass | zerotrust/server/cleanup.py:38-53 | the cleanup thread's steps without interference are one cleanup pass |
| ThreadReplies.ConnectedIffCertified | zerotrust/server/handshake.py:143-148 | a connection is opened exactly for a certificate of the CA in date, and speaks for its subject |
| CrashConsistency.RowHasBlob | zerotrust/server/handler.py:402-443 | with a crash between any two steps, every row has a blob |
| CrashConsistency.RowHasItsBlob | zerotrust/server/handler.py:402-443 | and if the id is uploaded at most once, that blob is complete and hashes to the row's digest |
| CrashConsistency.UploadInvariant | zerotrust/server/handler.py:407-411 | the phases of the one upload: temporary file a prefix, then blob complete, then row |
| SoloRuns.AloneIsHandle | zerotrust/server/handler.py:1065-1121 | the steps of one thread without interference change the state and reply exactly as the handler function does |
| SoloRuns.StoredReplacesBlob | zerotrust/server/handler.py:404-410 | temporary file, write and rename together replace one blob and touch no other |
| Client.PackageIsValid | zerotrust/client/upload.py:96-133 | what upload_file sends passes the package checks and its signature verifies under the sender's key |
| Client.PackageOpens | zerotrust/client/download.py:145-176 | a stored package opens to the plaintext if and only if the reader holds the key it was wrapped for |
| Client.AcceptedIsDrafted | zerotrust/client/download.py:148-176 | an accepted payload whose verified struct is that of an honest upload decrypts to that upload's plaintext |
| Client.AcceptedIff | zerotrust/client/download.py:121-176 | field by field, what a payload must be for the client to accept a plaintext |
| Client.RefusedBy | zerotrust/client/download.py:121-161 | which refusals are protocol errors and which are authentication errors |
| ClientSession.ClientSession.AtomicWrite | zerotrust/client/download.py:61-73 | the final name gets the whole file or keeps what it had; the temporary file is gone |
| ClientSession.ClientSession.FetchPeerCert | zerotrust/client/peer.py:24-60 | only a certificate that verifies for this very user is returned |
| ClientSession.ClientSession.UploadFile | zerotrust/client/upload.py:70-146 | messages sent and consumed and the result, for every reply; local errors touch no network |
| ClientSession.ClientSession.DownloadFile | zerotrust/client/download.py:185-229 | messages sent and consumed, the file saved and the result, for every reply and every disk failure |
| ClientSession.ClientSession.RevokeFile | zerotrust/client/revoke.py:54-90 | one signed request naming this user, file and time, and success exactly on a REVOKE_ACK; an empty id touches no network |
| ClientSession.SavedOnlyVerified | zerotrust/client/download.py:198-229 | a file changes only to a verified plaintext and after its ack was sent; the ack is sent exactly when the plaintext verified; success also needs a reply and the disk |
| ClientSession.UploadSucceedsIff | zerotrust/client/upload.py:70-146 | upload_file succeeds exactly when the file exists and fits, the first reply certifies the recipient and the second is an UPLOAD_ACK, whose expiration it returns; every other course has its own error |
| ClientSession.SealedForRecipient | zerotrust/client/upload.py:88-104 | an uploaded key is wrapped for a key the CA certified for the named recipient, and for no other |
| ClientSession.AckIsAccepted | zerotrust/client/download.py:205-216 | the server accepts the ack that download_file sends and marks the row |
| ClientSession.RevokeIsAccepted | zerotrust/server/handler.py:955-1020 | the server accepts the request that revoke_file sends: pending becomes revoked, a second revoke is acknowledged and changes nothing, finished files are refused and kept |
| ClientSession.DownloadSavesPlaintext | zerotrust/client/download.py:191-229 | the honest round trip down to the recipient's disk |
| Delivery.RoundTrip | zerotrust/client/upload.py:97-133 | from any server state, an acknowledged upload followed by any harmless events is served before expiration and decrypts to the sender's plaintext |
| Delivery.HoldsThrough | zerotrust/server/handler.py:497-564 | row and blob of an upload survive every event other than its ack, revoke, expiry or second upload |
| Delivery.SecondUpload | zerotrust/server/handler.py:404-428 | a second upload of a stored id drops the connection and keeps the row, and blob and row still match if and only if the bytes are the same |
| World.WorldHolds | zerotrust/client/download.py:198-216 | in every run over an arbitrary network every honest signature was made by the code that makes it |
| World.ReceiptAgrees | zerotrust/client/download.py:145-176 | whatever server and network do, a plaintext accepted from an honest claimed sender was encrypted by it for this reader and file id, and it signed exactly the received bytes |
| World.DownloadedMeansDelivered | zerotrust/server/handler.py:754-787 | in every run a file marked downloaded for an honest recipient was verified and decrypted by that client, and from an honest sender it is that sender's plaintext |
| World.RevokedMeansAsked | zerotrust/server/handler.py:936-1003 | in every run a file of an honest sender is marked revoked only if that sender's client signed a revoke of it |
| Handshake.TranscriptInjective | zerotrust/common/transcript.py:68-83 | transcripts are equal if and only if both nonces and the encrypted pre-master are, because nonces have fixed width |
| Handshake.PerformServerHandshake | zerotrust/server/handshake.py:120-252 | the procedure is the server automaton: messages consumed and sent, one AUTH_FAILED on any failure, session keys only on success |
| Handshake.PerformClientHandshake | zerotrust/client/handshake.py:85-188 | the procedure is the client automaton: nothing is sent for an unverified server certificate, and each failure has its error class |
| Handshake.HonestHandshakeAgrees | zerotrust/server/handshake.py:220-252 | two honest sides over a faithful network end with equal keys and transcript, each with the other's certificate |
| HandshakeOutcomes.ServerFinishesIff | zerotrust/server/handshake.py:120-252 | the server finishes exactly with a client that shows a certificate in date, a 32-byte pre-master for this server and a proof over both nonces and the ciphertext; session and messages are given in full, and every other course ends in one AUTH_FAILED |
| HandshakeOutcomes.ClientFinishesIff | zerotrust/client/handshake.py:85-188 | the client finishes exactly with a proving server under an accepted certificate, has the stated error class otherwise, and sends its two messages exactly after a verified hello |
| HandshakeNetwork.NetHolds | zerotrust/client/handshake.py:92-163 | after any events of any number of runs, honest keys signed only transcripts of their own runs |
| HandshakeNetwork.ClientAgrees | zerotrust/client/handshake.py:124-173 | a client that completes with an honest server key shares nonces, pre-master and both keys with one completed run of that key, the only one with its nonce |
| HandshakeNetwork.ServerAgrees | zerotrust/server/handshake.py:175-235 | a server that completes with an honest client key shares them with one run of that key, which encrypted for this server |
| HandshakeNetwork.SameExchange | zerotrust/common/transcript.py:68-83 | equal transcripts of sound exchanges mean the same exchange, plaintext pre-master and server key included |
| Certificates.IssueCertificate | zerotrust/ca/cert.py:45-74 | refuses an empty subject or a non-positive validity; otherwise the signature is over exactly the bytes that verification rebuilds |
| Certificates.IssuedVerifies | zerotrust/ca/cert.py:77-117 | presented claims verify under an issued signature if and only if they are the issued ones, under the issuing key, in date with both ends included, for the expected subject |
| Utf8.DecodeUndoesEncode | zerotrust/common/canonical.py:23 | UTF-8 is undone by its decoder for every text |
| Utf8.EncodedShape | zerotrust/common/canonical.py:23 | every character becomes one of the four byte patterns of RFC 3629 |
| JsonText.PrintPlain | zerotrust/common/protocol.py:67 | no control character is written, and by default only printable ASCII |
| JsonText.ParsePrints | zerotrust/common/canonical.py:18-23 | a parser reads back every printed value and stops where it ends, for both settings of ensure_ascii |
| JsonText.PrintInjective | zerotrust/common/canonical.py:18-23 | printed texts are equal if and only if the values are |
| CanonicalJson.LessIff | zerotrust/common/canonical.py:20 | keys are ordered by the first differing code point, prefixes first |
| CanonicalJson.KeysAscend | zerotrust/common/canonical.py:20 | the keys of every written dict ascend in that order |
| CanonicalJson.CompactAndSorted | zerotrust/common/canonical.py:18-23 | the text of a two-key dict, in order and without spaces |
| CanonicalJson.NormKeeps | zerotrust/common/canonical.py:20 | sorting the keys at every level reaches a canonical form and keeps the meaning |
| CanonicalJson.CanonicalIsUnique | zerotrust/common/canonical.py:20 | a meaning has one canonical form |
| CanonicalJson.CanonicalIffSameMeaning | zerotrust/common/canonical.py:16-23 | canonical bytes are equal if and only if the values mean the same, for all nested values |
| CanonicalJson.OrderIsInvisible | zerotrust/common/canonical.py:20 | a dict's bytes do not depend on the order it was filled in |
| SignedBytes.BytesIffSame | zerotrust/common/origin.py:26-52 | origin, revoke, ack and certificate structs share bytes if and only if they are the same struct; certificates if and only if they agree outside the signature, extra fields included |
| SignedBytes.OriginOrder | zerotrust/common/origin.py:42-52 | an origin struct is written with its seven keys and values in the stated order |
| SignedBytes.NoticeOrder | zerotrust/common/revoke.py:51-58 | a revoke starts with its action, an acknowledgement with its file, and both carry the stated values |
| SignedBytes.IssuedFields | zerotrust/ca/cert.py:64-71 | what an issued certificate carries under each of its six keys |
| SignedBytes.KindShows | zerotrust/common/revoke.py:51-58 | one key gives each kind of struct away |
| SignedBytes.IssuedBytesRoundTrip | zerotrust/ca/cert.py:40-42 | stripping the signature from an issued certificate gives back the bytes that were signed |
| SignedBytes.NeverDigestSized | zerotrust/common/transcript.py:79-83 | no signed struct is 32 bytes long, so none is a transcript digest |
| SignedBytes.BodiesNeverMeet | zerotrust/server/handler.py:769-771 | the symbolic bodies are sound: equal bytes if and only if equal bodies, and never digest-sized |
| Framing.LengthRoundTrip | zerotrust/common/protocol.py:29 | the 4-byte header gives back every length below 2^32 |
| Framing.Stream.RecvAll | zerotrust/common/protocol.py:39-56 | exactly n bytes in order over any chunking, a protocol error after an early close, a value error for a negative n, and termination |
| Framing.Stream.RecvMessage | zerotrust/common/protocol.py:80-99 | the outcome and the bytes left unread depend only on the byte stream, not on the chunks |
| Framing.Stream.RecvMessages | zerotrust/server/handler.py:1065-1070 | receiving until the first failure yields the messages of the stream |
| Framing.NoOverRead | zerotrust/common/protocol.py:80-99 | a packed message is read back exactly, whatever follows it, and not one byte more |
| Framing.ReceivedIffFramed | zerotrust/common/protocol.py:80-99 | a message is received exactly when the stream begins with a length of at most 64 MiB and a body of that length that reads as this dict; everything else is a protocol error |
| Framing.PackedIffSmall | zerotrust/common/protocol.py:59-72 | a non-dict is a type error, a body over 64 MiB a protocol error, and everything else one frame |
| Framing.CutStream | zerotrust/common/protocol.py:39-99 | a stream of frames cut after any number of bytes yields exactly the whole messages, then a protocol error |
| Framing.WireRoundTrip | zerotrust/common/protocol.py:59-99 | any sequence of packed messages is read back as the same sequence |
| Framing.ParserReadsBack | zerotrust/common/protocol.py:67 | the printer and parser of this project meet what the framing theorems ask of a decoder |
| Framing.EnvelopeFields | zerotrust/common/protocol.py:130-147 | what make_envelope puts under each of the six keys |
| Framing.ValidIffMade | zerotrust/common/protocol.py:150-176 | a received value validates if and only if make_envelope could have made it, up to extra keys, any request id, true for version 1 and a boolean timestamp, and is then handed on unchanged |
| Framing.DefectsAreRefused | zerotrust/common/protocol.py:156-175 | each single defect is refused whatever else the message holds: a missing key, another version, an unknown type, a bad payload, nonce or timestamp; a list or dict as type is the one type error |
| Framing.EnvelopeSurvivesTheWire | zerotrust/common/protocol.py:130-176 | an envelope built by one side is received as the same dict by the other and validates there |

## Left out

- Probabilistic security and the internals of RSA-PSS, OAEP, AES-GCM, HKDF and SHA-256: the primitives are free constructors, so key secrecy and collisions are outside the model.
- Known: the network may use any bytes except honest signatures that were never made; confidentiality of keys and plaintexts is not stated.
- SQLite locking and disk-full errors inside a handler, and the INTERNAL_ERROR replies they lead to; a failing cleanup transaction is modelled.
- The row order of PENDING_LIST: the reply is a set of entries.
- Threads.OnReceive: LIST_PENDING and GET_PUBKEY, which write nothing, are one step each in the interleaved model.
- World: connections start from any certificate the CA signed, without running the handshake; this allows more behaviours than the server, and the theorems hold for all of them.
- Isolation.NonInterference: compares the entries for the file in two lists that were both delivered; a list over the message cap drops the connection, and the uploads of others to the same recipient can make it that long.
- HandshakeNetwork.ServerAgrees: says nothing about which certificate of the client's key the server recorded, because the transcript does not cover certificates.
- Framing.NextMessage: the decoder of bodies is any function that reads back what json.dumps wrote, so floats, whitespace, repeated keys and integers too long for Python to print are not interpreted.
- Lone surrogates in strings: a text here is a sequence of Unicode scalar values, so the UnicodeEncodeError branches are missing.
- Messages.Envelope: the handlers' model starts from validated envelopes; booleans that pass as integers are plain integers there.
- The message cap on replies is the parameter fits of Config; Framing has the cap on bytes.
- Upload after a failing mkdir of the blob directory, outside the handler's try block, and file names: blobs, temporary files and downloads are keyed by file id.
- Crypto.Cert: extra members of a certificate are kept only in SignedBytes.CertStruct.
- Base64, UUID generation, clocks and randomness: values handed in as parameters.
- ClientSession.ClientSession.UploadFile: the size test reads the bytes it then sends; a file that changes between the two is not modelled.
- Post-handshake channel encryption, which the program does not use: keys are derived and agreed, envelopes travel in the clear.
- list_pending on the client, session setup, password handling, the loaders of keys and certificates, the CA command line, the web interface, logging and audit lines: plumbing without state of its own.
