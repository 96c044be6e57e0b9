# A Dafny model of the stream, UDP and TLS handles of php_ext_uv

The extension wraps libuv handles as PHP objects. Its own logic, as opposed to
that of libuv, OpenSSL and PHP, is a small amount of state that must stay right
over every run: five flag bits, a reference the object holds on itself, callback
slots that own closures, cached addresses, write requests, a handshake gate, and
two loops that cut byte streams into pieces. This project models that logic and
proves what it promises.

## What is modelled

- `Streams.dfy` says, as functions on values, what every API call, libuv event
  and callback does to a TCP, pipe or TLS handle. A run is a sequence of events.
  A callback carries a script of API calls, so user code re-enters the handle in
  every way the API allows. The answers of libuv, the kernel and OpenSSL are
  parameters of the calls and events, and arbitrary.
- `StreamHandle.dfy` is the resource struct as a class, with the bits of `flag`,
  the collector's table and the 256-byte read buffer, and its C functions as
  methods that work in place. Each method is proved to perform the step that
  `Streams.dfy` gives for it; `Dispatch` delivers one event, `Continue` a whole run,
  and `Sound` says what then holds of the fields. `TlsEngine.dfy` is the engine behind
  it: record framing over two byte queues, with the cipher taken as the identity.
- `CallEffects.dfy`, `EventEffects.dfy` and `TlsEffects.dfy` say what every call, event
  and handshake leads to, in the terms of its arguments and of what libuv and OpenSSL
  answer: when it succeeds, what it returns, what the user is told, and the state it leaves.
- `StreamSteps.dfy`, `TlsSteps.dfy` and `StreamRuns.dfy` prove the invariant of
  single steps and of whole runs. `Ownership.dfy` proves what each call does to the
  references of the callback slots. `Promises.dfy` follows chosen parts of the state
  over a run. `Lifetime.dfy` says when a handle outlives its callbacks and its requests,
  and when it does not. `Moments.dfy` looks into the events of a run, at every state
  between two calls of user code. `TlsStreams.dfy` proves the byte stream from one handle's
  `write` to another's read callback; `WriteReports.dfy` proves what the write callback
  is told.
- `Callbacks.dfy` is `src/fcall.h`: slots, the references they own, and the table.
- `CycleCollector.dfy` is a heap with trial deletion; `HandleHeaps.dfy` fills it with
  closures and handles in any state in which PHP code runs.
- `CertificateNames.dfy` is `src/ssl_verify.c`.
- `UdpHandle.dfy` is `src/uv_udp.c`.
- `Records.dfy` and `Basics.dfy` hold byte streams and small types.

Some names recur. `Inv` is the invariant of a handle in any state, also inside a
callback; `Safe` is the invariant between events; `Reachable` says that some run
of a newly constructed or accepted handle leads to the state. `ReachableWith` adds
that the run kept some terms, such as "no name resolution fails". `Due` says which
events libuv owes a handle; `Enabled` adds that its object has not been freed.
`Occurs` says that some run comes to the state while PHP code runs, inside a callback
or outside.

## What the code does that a reader may not expect

- A wildcard certificate name matches a subject that goes on after the matched
  suffix, because the `strcmp` at `src/ssl_verify.c:10` is never zero.
  `CertificateNames.MatcherMeaning` states the meaning the code has,
  `CertificateNames.StrictExactly` on which pairs that is the stricter meaning of
  section 6.4.3 of RFC 6125, and `CertificateNames.TextAfterSuffix` gives a pair on
  which it is not.
- `listen` fills the connect slot before it owns the function. When it then fails,
  the slot holds a function it only borrowed; so does a `setCallback` of which only
  the first arguments parse. `Ownership.PerformOwnership` says for which calls
  ownership is kept, in both directions, and `Promises.BorrowedStays` that nothing
  undoes it. `HandleHeaps.HeapIsExact` says that reference counts are right exactly
  where nothing is borrowed; `HandleHeaps.HeldButCollected` is a heap in which the
  collector frees a closure that a PHP variable holds.
- To the collector an open handle is not alive by itself: only the self-reference keeps
  it. An accepted handle that libuv reads from, but on which `setCallback` was not
  called, is collected when only its own closures refer to it, and was never closed:
  `HandleHeaps.OpenButCollected`. The exact condition is in `HandleHeaps.CollectedOfAll`.
- The self-reference does not cover every callback. `Lifetime.FreedInEventExactly`
  gives the exact condition under which an event's callbacks can free the handle that
  the event still uses; `Lifetime.HandshakeOnlyDies`, `Lifetime.ServerNameDies`,
  `Lifetime.PartlyParsedDies` and `Lifetime.FailedResolutionDies` are runs on which it
  happens.
- Nor does it cover every request. A handle that was never pinned can be closed or
  written to and then forgotten; libuv then calls back for an object that has been freed:
  `Lifetime.CloseOwedToFreed`, `Lifetime.WriteOwedToFreed`. The answer of a name
  resolution can come after the close callback, and each `connect` by name adds one:
  `Lifetime.ResolutionOwedToFreed`, `Lifetime.SecondResolutionOwed`.
  `Lifetime.OwedToFreed` and `Lifetime.PinnedOwesNothing` say what can be owed, and when
  nothing is.
- `setCallback`, `shutdown`, `listen` and `connect` take the self-reference also
  after the close callback, and only a failing name resolution gives it back then:
  `Promises.SelfReferenceTaken`, `Promises.GivenBackExactly`, `Lifetime.PinnedAfterClose`.
- A TLS `connect` stores its host before it can be refused, so that a refused second
  `connect` changes the name that the first connection's certificate is checked
  against: `TlsSteps.HostIsLastNamed`, `TlsSteps.RefusedConnectRenames`, `Promises.HostStays`.
- UDP `setCallback` takes its self-reference without testing the bit. That is
  right, because the bit always equals `READ_START`: `UdpRuns.UdpFlagCoupling`.

## Model

| member | source | states |
|---|---|---|
| `CertificateNames.MatcherMeaning` | src/ssl_verify.c:3-14 | the `strstr`/`strchr` form is true exactly if the names are equal, or the certificate is `*.` and more with a further dot and every later label of it equals the subject's label there, the last one being a prefix |
| `CertificateNames.EarliestAtFirstDot` | src/ssl_verify.c:9-10 | the earliest occurrence of the suffix is at the first dot exactly when the suffix occurs there |
| `CertificateNames.StrictExactly` | src/ssl_verify.c:3-14 | the matcher agrees with strict label equality exactly on the pairs where no text follows the matched suffix |
| `CertificateNames.TextAfterSuffix` | src/ssl_verify.c:10 | a pair of names on which text after the suffix is let through |
| `CertificateNames.MatchesSanList` | src/ssl_verify.c:16-66 | the scan answers true exactly if some entry names the subject: a DNS entry by the matcher's meaning without one trailing dot, a four-octet address by its dotted text |
| `CertificateNames.AddressAccepts` | src/ssl_verify.c:46-57 | an address entry accepts exactly the subjects with four labels that are the decimal numerals of its four octets, in their order, without leading zeros |
| `CertificateNames.DnsAccepts` | src/ssl_verify.c:27-45 | a DNS entry with an embedded NUL accepts nothing, any other what its name matches, where one trailing dot does not count |
| `CertificateNames.LabelsMeaning` | src/ssl_verify.c:3-14 | the labels are the dot-free pieces of the name, in order |
| `CertificateNames.CStringEnds` | src/ssl_verify.c:28-33 | a C string ends at the first NUL of its buffer |
| `CertificateNames.LengthTestMeansNoNul` | src/ssl_verify.c:28-33 | where the conversion keeps the length, the length test passes exactly for entries without an embedded NUL |
| `CertificateNames.CaseFoldIsExact` | src/ssl_verify.c:54-56 | the case-insensitive comparison with a dotted address is equality |
| `CertificateNames.DottedIsInjective` | src/ssl_verify.c:46-57 | two address entries that match the same subject are the same address |
| `CertificateNames.DottedFitsBuffer` | src/ssl_verify.c:19-53 | the printed address fits the 64-byte buffer |
| `Records.Refragment` | src/uv_ssl.c:139-147 | decoding a stream piece by piece, keeping the incomplete record, decodes the whole stream |
| `Records.DecodeEncode` | src/uv_ssl.c:470-473 | what was framed by a write decodes to the message, whatever follows on the wire |
| `Records.WriteChunksShape` | src/uv_ssl.c:479-487 | the pieces of a full drain are the output in order, as many as there are started 512 bytes, all but the last full |
| `Records.ReadChunksShape` | src/uv_ssl.c:146-158 | the chunks of one read are the plaintext in order: full 256-byte chunks, then one of the remaining length, possibly empty |
| `Callbacks.FreeKeepsAccount` | src/fcall.h:42-49 | freeing a slot drops the reference it stood for, keeps every other one accounted for and owned as before, and is idempotent |
| `Callbacks.FreeFirstKeepsAccount` | src/uv_tcp.h:67-73 | so does freeing all slots when the object is freed |
| `Callbacks.FillBorrows` | src/uv_tcp.c:283-305 | parsing a counted function into a slot breaks ownership, and a plain name does not; the references stay accounted for |
| `Callbacks.InstallKeepsAccount` | src/uv_tcp.c:412-416 | free, parse and add-reference replace a callback, keep every reference accounted for and borrow nothing |
| `Callbacks.OwnedExactly` | src/fcall.h:3 | accounted slots are owned exactly if nothing is borrowed |
| `Callbacks.TableIsExact` | src/fcall.h:17-23 | the collector's table has a function as often as slots hold it, which is the number of references the slots stand for |
| `Callbacks.EmptyTail` | src/fcall.h:17-23 | empty slots add nothing to the table |
| `StreamHandles.StreamHandle.constructor` | src/uv_tcp.c:161-168 | a new handle is idle, unpinned and held by one variable |
| `StreamHandles.StreamHandle.Accept` | src/uv_tcp.c:440-456 | an accepted handle is started and reading, and holds no reference on itself |
| `StreamHandles.StreamHandle.CloseSocket` | src/uv_tcp.c:3-9 | issues `uv_close` and sets the bit, unless the bit was set |
| `StreamHandles.StreamHandle.SetSelfReference` | src/uv_tcp.c:11-18 | takes one reference and sets the bit, unless the bit was set |
| `StreamHandles.StreamHandle.ReleaseAddresses` | src/uv_tcp.c:43-53 | frees each cached address once |
| `StreamHandles.StreamHandle.ReleaseResource` | src/uv_tcp.c:42-69 | stops the handle and drops the self-reference after clearing its bit; the nested call through the free handler terminates |
| `StreamHandles.StreamHandle.FreeObject` | src/uv_tcp.c:170-176 | the free handler releases the resource, then the slots |
| `StreamHandles.StreamHandle.TableEntry` | src/fcall.h:17-23 | one step of the table keeps it the in-order filter of the filled slots so far |
| `StreamHandles.StreamHandle.GetGc` | src/uv_tcp.c:29-40 | the table holds exactly the filled slots of the TCP part, in order; of TCP handles and pipes, all their filled slots |
| `StreamHandles.StreamHandle.GetGcSsl` | src/uv_ssl.c:21-31 | the TLS table extends the TCP table without disturbing it and never exceeds seven entries |
| `StreamHandles.StreamHandle.SetCallback` | src/uv_tcp.c:311-328 | frees three slots, parses into them, and on full success owns them and pins the handle |
| `StreamHandles.StreamHandle.Listen` | src/uv_tcp.c:267-309 | every return value and what each failing step leaves behind |
| `StreamHandles.StreamHandle.Connect` | src/uv_tcp.c:402-438 | a refused connect frees the slot again; a started one pins and starts the handle |
| `StreamHandles.StreamHandle.ConnectSsl` | src/uv_ssl.c:495-544 | the same for TLS, where a host that is no address adds one pending name resolution, and the host is stored even if the connection is then refused |
| `StreamHandles.StreamHandle.Shutdown` | src/uv_tcp.c:381-400 | installs the callback, and pins the handle if libuv accepts the request |
| `StreamHandles.StreamHandle.WriteRaw` | src/uv_tcp.c:372-379 | one request is allocated, and is in flight or refused |
| `StreamHandles.StreamHandle.Write` | src/uv_tcp.c:357-370 | enables the write callback and queues the data |
| `StreamHandles.StreamHandle.WriteBioToSocket` | src/uv_ssl.c:479-493 | the draining loop computes the drain that `TlsSteps.DrainConserves` is about |
| `StreamHandles.StreamHandle.WriteSsl` | src/uv_ssl.c:460-477 | a write is framed and drained; an `SSL_write` that fails still drains, because the size is unsigned |
| `StreamHandles.StreamHandle.ResolveSocket` | src/uv_tcp.c:178-190 | a cached address is kept, otherwise the kernel's answer is cached |
| `StreamHandles.StreamHandle.ResolvePeerSocket` | src/uv_tcp.c:192-204 | the same for the peer |
| `StreamHandles.StreamHandle.GetSockname` | src/uv_tcp.c:206-214 | the cached name, else that of the kernel's answer, else false |
| `StreamHandles.StreamHandle.GetSockport` | src/uv_tcp.c:216-224 | the same for the port, where zero counts as no answer |
| `StreamHandles.StreamHandle.GetPeername` | src/uv_tcp.c:226-234 | the same for the name of the peer |
| `StreamHandles.StreamHandle.GetPeerport` | src/uv_tcp.c:236-244 | the same for the port of the peer |
| `StreamHandles.StreamHandle.SetSSLHandshakeCallback` | src/uv_ssl.c:294-303 | replaces the handshake callback |
| `StreamHandles.StreamHandle.AttachIPC` | src/uv_pipe.c:408-431 | every return value and what each failing step leaves behind |
| `StreamHandles.StreamHandle.CallBack` | src/fcall.h:32-40 | a filled slot is called with a reference held by its arguments, an empty one is not |
| `StreamHandles.StreamHandle.ReadCb` | src/uv_tcp.c:109-131 | data goes to the read callback; an error or end goes to the error callback and closes |
| `StreamHandles.StreamHandle.WriteCb` | src/uv_tcp.c:87-102 | the enabled write callback gets the length of the oldest write in flight, whose request is freed |
| `StreamHandles.StreamHandle.ShutdownCb` | src/uv_tcp.c:71-81 | the shutdown callback is called for a request that is then no longer pending |
| `StreamHandles.StreamHandle.ClientConnectionCb` | src/uv_tcp.c:133-148 | a connection starts reading, sets both bits and calls back |
| `StreamHandles.StreamHandle.OpenEngine` | src/uv_ssl.c:205-218 | a TLS client gets a fresh engine and sends its first flight |
| `StreamHandles.StreamHandle.CloseCb` | src/uv_tcp.c:83-85 | the close callback releases the resource |
| `StreamHandles.StreamHandle.OnAddrinfoResolved` | src/uv_ssl.c:224-246 | one answer takes one pending resolution; a failed one calls back and releases, a successful one connects |
| `StreamHandles.StreamHandle.HandleHandshakeCallback` | src/uv_ssl.c:33-52 | a callback that is missing or refuses closes the socket |
| `StreamHandles.StreamHandle.VerifyCallbacks` | src/uv_ssl.c:54-72 | verification errors are reported one by one until one is refused |
| `StreamHandles.StreamHandle.CheckCertificate` | src/uv_ssl.c:106-116 | in client mode the peer's names are checked and the certificate freed on both paths |
| `StreamHandles.StreamHandle.HandleHandshake` | src/uv_ssl.c:79-118 | what each outcome of the handshake leads to, and whether reading goes on; the server-name callback and the verification callbacks run first |
| `StreamHandles.StreamHandle.ReadMore` | src/uv_ssl.c:147-150 | one read moves bytes from the engine to the end of the buffer, losing and reordering none |
| `StreamHandles.StreamHandle.ReadLoop` | src/uv_ssl.c:146-163 | however the engine cuts its answers, the loop makes one read callback for each canonical chunk of the plaintext, and terminates |
| `StreamHandles.StreamHandle.ReadCbSsl` | src/uv_ssl.c:120-165 | an error calls back and closes; otherwise feeding, handshake and delivery of one read event |
| `StreamHandles.StreamHandle.Dispatch` | src/uv_tcp.c:71-158 | delivering any event that libuv owes performs its step, and keeps the invariant of runs |
| `StreamHandles.StreamHandle.Continue` | src/uv_tcp.c:3-456 | after any run the fields hold: count, bits and ledger agree, one close at most, reading only if started, write requests, addresses and callback references accounted for, and for TLS the handshake gate |
| `StreamHandles.Live` | src/uv_tcp.c:161-176 | so they do from the constructor, or from `accept`, to the end of any run |
| `TlsEngines.TlsEngine.Receive` | src/uv_ssl.c:139 | bytes that arrive in pieces decode as if they had arrived at once |
| `TlsEngines.TlsEngine.ReadInto` | src/uv_ssl.c:147 | a read returns a non-empty prefix of the available plaintext, and nothing only if there is none |
| `StreamSteps.DropKeeps` | src/uv_tcp.c:170-176 | dropping a reference keeps the ledger exact; the last one frees a handle that is unpinned and leaves it bare |
| `StreamSteps.ReleaseIsIdempotent` | src/uv_tcp.c:42-69 | releasing twice is releasing once |
| `StreamSteps.ScriptKeeps` | src/uv_tcp.c:246-438 | any script of API calls keeps the invariant and cannot clear the closing bit, the self-reference or the engine's input |
| `StreamSteps.CallBackKeeps` | src/fcall.h:32-40 | a callback, whatever it does, keeps the invariant, and a pinned handle outlives it |
| `TlsSteps.DrainConserves` | src/uv_ssl.c:479-493 | queued chunks, the one refused chunk and what is left in the BIO are the original content in order; success queues all of it in canonical chunks |
| `TlsSteps.DrainCount` | src/uv_ssl.c:479-493 | a successful drain makes one write for each started 512 bytes |
| `TlsSteps.CheckPeerKeeps` | src/uv_ssl.c:106-116 | a certificate that was obtained is freed once on every path |
| `TlsSteps.HandshakeKeeps` | src/uv_ssl.c:79-118 | a finished handshake either had its OK report accepted last, or leaves the socket closing |
| `TlsSteps.HostIsLastNamed` | src/uv_ssl.c:106-116 | a peer certificate is checked against the host of the last `connect` whose arguments parsed and whose host had an acceptable length |
| `TlsSteps.RefusedConnectRenames` | src/uv_ssl.c:519-538 | a refused `connect` changes that host, and nothing else of the engine, the flags or the requests |
| `StreamRuns.WatchMeaning` | src/uv_ssl.c:33-118 | the watch kept over the log decides what was accepted before each callback |
| `StreamRuns.StepSafe` | src/uv_tcp.c:3-165 | every event, with every script in it, keeps the invariant of runs, and the closing bit |
| `StreamRuns.LedgerOverRuns` | src/uv_tcp.c:11-69 | in every reachable state the count is the outside references plus one exactly if the bit is set; the free handler runs once, when nothing refers to the object, never with the bit set |
| `StreamRuns.SingleClose` | src/uv_tcp.c:3-9 | over every run `uv_close` is issued at most once |
| `StreamRuns.StateOverRuns` | src/uv_tcp.c:42-69 | reading implies started; address strings are freed, lost or owned by a cached address; write requests are freed, in flight or refused |
| `StreamRuns.HandshakeGate` | src/uv_ssl.c:79-165 | over every run each read callback follows an accepted OK report of its own connection, each write callback some accepted OK report, no connection reports OK twice, and an unaccepted handshake closes the socket |
| `StreamRuns.CloseReleases` | src/uv_tcp.c:83-85 | the close callback leaves no self-reference, and frees the object exactly if nothing else refers to it |
| `StreamRuns.ListenTwice` | src/uv_tcp.c:277-279 | `listen` on a started handle returns -1 and changes nothing |
| `CallEffects.ListenMeans` | src/uv_tcp.c:267-309 | `listen` succeeds exactly if the host has an acceptable length and every answer is zero, and then starts, pins and owns; else it returns -1 or the first answer that is not zero, and changes only the slot, which borrows |
| `CallEffects.ConnectMeans` | src/uv_tcp.c:402-438 | when `connect` succeeds, what it returns, and the whole state it leaves, for TCP, pipes and TLS |
| `CallEffects.SetCallbackMeans` | src/uv_tcp.c:311-328 | the first callable is the read, the second the write, the third the error callback; all are owned and the handle is pinned |
| `CallEffects.PartlyParsedMeans` | src/uv_tcp.c:316-321 | with fewer that parse those are borrowed, the other slots of the three are empty, and nothing else changes |
| `CallEffects.SetHandshakeMeans` | src/uv_ssl.c:294-303 | the handshake callback is replaced, or its slot emptied |
| `CallEffects.ShutdownMeans` | src/uv_tcp.c:381-400 | the callback is installed; a request that libuv takes is pending and pins the handle; the answer is returned |
| `CallEffects.AttachMeans` | src/uv_pipe.c:408-431 | every return value of `attachIPC`, and the whole state it leaves |
| `CallEffects.UnparsedMeans` | src/uv_tcp.c:283-289 | calls whose arguments do not parse leave an empty slot and change nothing else |
| `CallEffects.CloseMeans` | src/uv_tcp.c:330-335 | `close` has `uv_close` issued, and changes nothing else |
| `CallEffects.VariablesMean` | src/uv_tcp.c:170-176 | PHP variables count one reference each, and the last reference frees the object |
| `CallEffects.WriteMeans` | src/uv_tcp.c:357-379 | `write` enables the write callback, and its data is the last that libuv took or refused |
| `CallEffects.TlsWriteReturns` | src/uv_ssl.c:460-493 | `UVSSL::write` returns zero exactly if no piece was refused, else the refusing answer; before the handshake is over it takes nothing |
| `EventEffects.EventTells` | src/uv_tcp.c:71-158 | which callback each event calls, and with which data, error, status or length |
| `EventEffects.FailedReadCloses` | src/uv_tcp.c:121-129 | an error or the end of the stream is reported once and has `uv_close` issued, for TCP, pipes and TLS, whatever the callback does |
| `EventEffects.DataLeaves` | src/uv_tcp.c:114-120 | received data and waiting connections change nothing else |
| `EventEffects.ErrorLeaves` | src/uv_ssl.c:128-137 | an error starts the close and nothing else |
| `EventEffects.ShutdownLeaves` | src/uv_tcp.c:71-81 | a shutdown that is over is no longer pending |
| `EventEffects.WriteLeaves` | src/uv_tcp.c:87-102 | a finished write is completed and its request freed |
| `EventEffects.ConnectionLeaves` | src/uv_tcp.c:133-148 | a connection that libuv reads from is started and reading, any other is just over |
| `EventEffects.ResolutionLeaves` | src/uv_ssl.c:224-246 | a resolved name is being connected to; for another the user is told and the handle released |
| `EventEffects.CloseLeaves` | src/uv_tcp.c:42-69 | the close callback stops the handle, frees its addresses and gives the self-reference back |
| `EventEffects.AcceptedReads` | src/uv_tcp.c:259-264 | libuv reads from an accepted handle, and from no new one |
| `EventEffects.ReadingStays` | src/uv_tcp.c:55-58 | where it reads it goes on, over every run, until the handle is released or freed |
| `TlsEffects.VerifyTells` | src/uv_ssl.c:54-72 | one verification error is reported, as a chain too long beyond depth nine, and the callback decides; without one it is refused |
| `TlsEffects.VerifyAllTells` | src/uv_ssl.c:54-72 | what is reported begins the list of errors up to the first refusal, and is all of it if the verification goes through |
| `TlsEffects.AttemptMeans` | src/uv_ssl.c:89-92 | a refused certificate is fatal, else OpenSSL decides; an engine that is finished takes what is left of the input for application data |
| `TlsEffects.OutcomeMeans` | src/uv_ssl.c:84-104 | what wanting to read, wanting to write, a fatal answer and an engine that was finished before change, and what not |
| `TlsEffects.FittingCertificate` | src/uv_ssl.c:106-117 | on an accepting handle, without a certificate, or with one whose names fit the stored host, the one report from then on is the OK report |
| `TlsEffects.MisfittingCertificate` | src/uv_ssl.c:106-117 | a misfit is reported first; refused, or with nobody to report it to, it stops everything and closes; accepted, the OK report follows |
| `TlsEffects.MismatchStops` | src/uv_ssl.c:106-144 | a read event with such a misfit reports no OK, reads nothing and leaves the socket closing |
| `TlsEffects.FeedAppends` | src/uv_ssl.c:139 | bytes that arrive in pieces, before the handshake or after, are as if they had arrived at once |
| `TlsEffects.FlightIsSent` | src/uv_ssl.c:89-90 | a handshake step sends what was in the BIO and then its own flight, all of it, in order |
| `TlsEffects.FirstFlight` | src/uv_ssl.c:205-219 | a connecting handle gets a new engine whose first flight goes to the socket |
| `TlsEffects.TlsConnectionLeaves` | src/uv_ssl.c:189-222 | a TLS connection that libuv reads from is started and reading, and the user is told |
| `Ownership.PerformAccount` | src/uv_tcp.c:267-438 | every call keeps the references of the slots accounted for, and leaves borrowed exactly the closures it parsed and took no reference on |
| `Ownership.PerformOwnership` | src/uv_tcp.c:267-328 | a call leaves the slots owned exactly if they were and it does not borrow: a partly parsed `setCallback`, or a `listen` that parses and fails |
| `Ownership.FailedListenBorrows` | src/uv_tcp.c:283-303 | such a `listen` leaves its closure in the slot without a reference |
| `Promises.RunKept` | src/uv_tcp.c:3-438 | a run that keeps the terms keeps the parts of the state that they name |
| `Promises.SlotsAccounted` | src/uv_tcp.c:311-438 | over every run, the references taken on a closure and those borrowed are the dropped ones and those that stand in slots; in none once the object is freed |
| `Promises.OwnedUnlessBorrowed` | src/uv_tcp.c:267-328 | in every reachable state the slots own what they hold exactly if nothing was left borrowed |
| `Promises.BorrowedStays` | src/uv_tcp.c:267-328 | what was left borrowed stays so over every further run |
| `Lifetime.OutlivesExactly` | src/fcall.h:32-40 | the object outlives a callback, whatever it does, exactly if the handle holds its self-reference or is called from inside another callback |
| `Lifetime.FreedInEventExactly` | src/uv_tcp.c:71-158 | the user code of an event can free the handle under it exactly if there is some, a callback of the handle or the server-name callback of its server, and the self-reference is not held |
| `Lifetime.RequestsRunPinned` | src/uv_tcp.c:133-158 | until a name resolution fails, connections, shutdowns and resolutions of an open handle find the self-reference held, and leave it held |
| `Lifetime.ExposedOnlyInHandshake` | src/uv_ssl.c:79-118 | if no `setCallback` parses partly either, only a handshake and a resolution after the close call back without it |
| `Lifetime.HandshakeOnlyDies` | src/uv_ssl.c:33-52 | an accepted TLS handle with only a handshake callback: a read event that frees the handle it uses |
| `Lifetime.ServerNameDies` | src/uv_ssl.c:167-187 | an accepted TLS handle on which nothing is set: the server-name callback of its server does the same |
| `Lifetime.PartlyParsedDies` | src/uv_tcp.c:316-321 | an accepted handle on which only the read callback parsed: the same |
| `Lifetime.FailedResolutionDies` | src/uv_ssl.c:236-242 | a failed resolution gives the self-reference back while a shutdown is pending, whose callback then frees the handle |
| `Lifetime.InitialRests` | src/uv_tcp.c:161-168 | new and accepted handles are where those runs start |
| `Lifetime.FreedNeverReads` | src/uv_tcp.c:55-58 | no read is owed to a freed handle, on any run |
| `Lifetime.OwedToFreed` | src/uv_tcp.c:42-69 | until a name resolution fails, what libuv owes a freed handle is exactly its pending write callbacks and close callback, and after that one the answers of the resolutions still pending |
| `Lifetime.PinnedOwesNothing` | src/uv_tcp.c:11-18 | a handle that was pinned once is freed after its close callback only, and then nothing but answers of resolutions is owed |
| `Lifetime.CloseOwedToFreed` | src/uv_tcp.c:3-9 | `close` on a handle that was never pinned, and no variable left: the close callback is owed to a freed handle |
| `Lifetime.WriteOwedToFreed` | src/uv_tcp.c:372-379 | the same for a write callback |
| `Lifetime.ResolutionOwedToFreed` | src/uv_ssl.c:224-246 | `close` while a name is being resolved: the answer is owed to a freed handle |
| `Lifetime.SecondResolutionOwed` | src/uv_ssl.c:523-532 | two connects by name, one answer, `close`: after the close callback the other answer is owed to a freed handle |
| `Promises.NoHandshakeNoDelivery` | src/uv_ssl.c:33-52 | without a handshake callback nothing is delivered and a finished handshake closes the socket |
| `Promises.HostStays` | src/uv_ssl.c:519-521 | the host that certificates are checked against stays over every run in which no `connect` names one of acceptable length |
| `Promises.SockAnswersOnce` | src/uv_tcp.c:178-224 | until it is released, a cached own address answers what it answered at first, name and port |
| `Promises.PeerAnswersOnce` | src/uv_tcp.c:192-244 | the same for the address of the peer |
| `Promises.AnswersFromOneReply` | src/uv_tcp.c:178-244 | over every run, a cached name and its port come from one answer of the kernel |
| `Promises.GetterAnswers` | src/uv_tcp.c:206-244 | what the getters return, and that asked again they return the same |
| `Promises.SelfReferenceTaken` | src/uv_tcp.c:305-437 | which calls take the self-reference, in both directions |
| `Promises.GivenBackExactly` | src/uv_ssl.c:236-242 | after the close callback an event gives the self-reference back exactly if it is a failing name resolution |
| `Promises.TakenAfterCloseStays` | src/uv_tcp.c:311-328 | so a self-reference taken after the close callback stays over every run in which no name resolution fails |
| `Lifetime.PinnedAfterClose` | src/uv_tcp.c:311-328 | a run to such a state: `close`, the close callback, `setCallback` |
| `TlsStreams.RunSends` | src/uv_ssl.c:460-493 | over every run, what the socket took decodes to what the user wrote |
| `TlsStreams.RefusedWriteIsPrefix` | src/uv_ssl.c:470-493 | whatever the socket answers, what it took of a message decodes to a prefix of it |
| `TlsStreams.HandshakeSends` | src/uv_ssl.c:92-118 | from the moment the engine is done, inside the event of the handshake, the same holds of what the callbacks write |
| `TlsStreams.GreetingDelivers` | src/uv_ssl.c:141-163 | the event in which the handshake is accepted hands over, in canonical chunks, what arrived behind the last flight |
| `TlsStreams.RunDelivers` | src/uv_ssl.c:120-165 | over every run, what the read callback was given since the engine was made is what the bytes decode to that arrived since the handshake |
| `TlsStreams.CanonicalChunks` | src/uv_ssl.c:146-163 | one read event hands over exactly the canonical chunks of the plaintext then available, also the event that ends the handshake |
| `TlsStreams.ListensBefore` | src/uv_tcp.c:311-328 | a pinned handle with its callbacks set before its handshake is over can be the receiver |
| `TlsStreams.ListensAfter` | src/uv_ssl.c:117-163 | so can one whose callbacks are set by the time its handshake is accepted, as by the handshake callback |
| `TlsStreams.EndToEnd` | src/uv_ssl.c:120-493 | for any writes from the handshake callback on, any such receiver, and any cutting of the ciphertext into read events, what was delivered is a prefix of what was written, and all of it once everything arrived |
| `TlsStreams.SessionExists` | src/uv_ssl.c:370-390 | every accepted TLS handle has a run that makes it such an end, with a message written in the handshake callback and any bytes arriving behind the handshake |
| `WriteReports.RunReports` | src/uv_tcp.c:87-102 | over every run with the write callback in place, the reported lengths are those of the completed writes, in order, and sum to their bytes |
| `CycleCollector.Collect` | src/uv_tcp.c:29-40 | trial deletion over the tables collects exactly the objects that the roots reach and no remaining count keeps |
| `CycleCollector.WhiteIsGarbage` | src/uv_tcp.c:29-40 | with exact counts, a remaining count is a variable, a self-reference, or a reference from outside |
| `CycleCollector.HeldSurvives` | src/uv_tcp.c:11-40 | nothing reached from a PHP variable or from a handle with its self-reference set is collected, whatever the roots |
| `CycleCollector.CollectedExactly` | src/uv_tcp.c:29-40 | with every object reached from the roots, exactly the rest is collected |
| `CycleCollector.NotHeldIsGarbage` | src/uv_tcp.c:62-68 | an object in a cycle that nothing outside holds is collected |
| `CycleCollector.ReleaseKeepsExact` | src/uv_tcp.c:65-68 | releasing a handle keeps all counts exact and takes away exactly its own anchor |
| `Moments.OccursConsistent` | src/fcall.h:32-40 | in every run, whenever PHP code runs, inside a callback or outside, the count is what variables, call frames and the self-reference hold, and the references of the slots are accounted for |
| `Moments.CallOccurs` | src/uv_tcp.c:109-131 | the start of a callback is such a moment, with a frame on the handle |
| `HandleHeaps.TableAccountsForSlots` | src/fcall.h:17-23 | the table of a handle has as many entries for a closure as its calls have references taken and borrowed, also while a callback runs |
| `HandleHeaps.CountFallsShort` | src/uv_tcp.c:11-40 | in a heap of handles and closures, at any moment at which PHP code runs, a count is the number of references, less what calls have borrowed of a closure |
| `HandleHeaps.HeapIsExact` | src/uv_tcp.c:11-40 | such a heap is exact exactly if no closure in it is borrowed |
| `HandleHeaps.ActiveHandleSurvives` | src/uv_tcp.c:11-40 | where slots own what they hold, nothing that a variable or a handle with its self-reference set reaches is collected |
| `HandleHeaps.IdleCycleIsCollected` | src/uv_tcp.c:62-68 | there, a released handle in a cycle with its closures that nothing outside holds is collected |
| `HandleHeaps.CollectedOfAll` | src/uv_tcp.c:29-40 | what is collected of every such heap, exactly, borrowed closures included: each borrowed reference outweighs one variable |
| `HandleHeaps.HeldButCollected` | src/uv_tcp.c:283-303 | a heap in which a closure that a variable holds is collected, its slot having borrowed it |
| `HandleHeaps.RefusedListenBorrows` | src/uv_tcp.c:283-303 | a refused `listen` leads to that handle |
| `HandleHeaps.OpenButCollected` | src/uv_tcp.c:440-456 | a heap with exact counts in which an open handle that libuv reads from is collected |
| `HandleHeaps.AcceptedIsOpen` | src/uv_ssl.c:294-303 | an accepted handle on which only the handshake callback is set is such a handle |
| `UdpHandles.UdpHandle.Release` | src/uv_udp.c:23-45 | frees the address, stops receiving, and drops the self-reference after clearing its bit |
| `UdpHandles.UdpHandle.FreeObject` | src/uv_udp.c:123-129 | the free handler releases, then frees the slots |
| `UdpHandles.UdpHandle.SetCallback` | src/uv_udp.c:216-243 | every return value and what each failing step leaves behind |
| `UdpHandles.UdpHandle.Bind` | src/uv_udp.c:183-214 | every return value; only a successful bind starts the handle |
| `UdpHandles.UdpHandle.SendTo` | src/uv_udp.c:245-282 | which of request and buffer are allocated, freed or lost on each path |
| `UdpHandles.UdpHandle.ResolveSocket` | src/uv_udp.c:131-143 | a cached address is kept, otherwise the kernel's answer is cached |
| `UdpHandles.UdpHandle.RecvCb` | src/uv_udp.c:80-112 | data goes to the receive callback, errors and empty reads to the error callback |
| `UdpHandles.UdpHandle.SendCb` | src/uv_udp.c:51-73 | the send callback is called, with a reference on the object only once `setCallback` has set it, and the request and buffer are freed |
| `UdpHandles.UdpHandle.Dispatch` | src/uv_udp.c:47-112 | delivering any event that libuv owes performs its step, and keeps the invariant of runs |
| `UdpHandles.UdpHandle.Continue` | src/uv_udp.c:23-288 | after any run the fields hold: the coupled bits, the count, the ledgers of requests and buffers |
| `UdpHandles.Live` | src/uv_udp.c:114-129 | so they do from the constructor to the end of any run |
| `UdpRuns.UdpFlagCoupling` | src/uv_udp.c:216-243 | in every reachable state the self-reference bit equals the reading bit, so the unguarded reference is never taken twice |
| `UdpRuns.SendLedger` | src/uv_udp.c:245-282 | every request and buffer is freed, in flight or lost to a refused send |
| `UdpRuns.UdpReceivesPinned` | src/uv_udp.c:80-112 | on every run, data and errors find the self-reference held, so that the handle outlives their callbacks |
| `UdpRuns.UdpEventTells` | src/uv_udp.c:51-112 | a datagram is handed to the receive callback, an error or empty read to the error callback, a status to the send callback, exactly once |
| `UdpRuns.DatagramsArrive` | src/uv_udp.c:80-112 | over every run the receive callback is given exactly the datagrams that arrive, in order |
| `UdpRuns.UdpEventLeaves` | src/uv_udp.c:51-73 | nothing else changes, but that a finished send has its request and buffer freed |
| `UdpRuns.UdpCallbackStarts` | src/uv_udp.c:216-243 | a successful `setCallback` installs receive, send and error callback in this order, owned, and starts, pins and receives |
| `UdpRuns.UdpCallbackRefused` | src/uv_udp.c:217-219 | on a handle that receives it returns -1 and changes nothing |
| `UdpRuns.UdpCallbackFails` | src/uv_udp.c:221-231 | where it fails, what parsed is borrowed, and nothing else changes |
| `UdpRuns.BindMeans` | src/uv_udp.c:183-214 | `bind` succeeds exactly if the host has an acceptable length and both answers are zero, and then starts the handle |
| `UdpRuns.SendToMeans` | src/uv_udp.c:245-282 | `sendTo` queues its message, last, exactly if the host has an acceptable length and both answers are zero; what it returns, frees and loses otherwise |
| `UdpRuns.UdpGetterMeans` | src/uv_udp.c:131-143 | a cached address is kept, otherwise the kernel's answer is cached |
| `UdpRuns.UdpCloseMeans` | src/uv_udp.c:284-288 | `close` has `uv_close` issued |
| `UdpRuns.UdpStopMeans` | src/uv_udp.c:23-39 | a release frees the address, clears the bits and stops receiving |
| `UdpRuns.UdpReleaseMeans` | src/uv_udp.c:41-44 | and it gives the self-reference back |
| `UdpRuns.UdpOwedToFreed` | src/uv_udp.c:23-45 | what libuv owes a freed handle is exactly its pending send callbacks and close callback |
| `UdpRuns.UdpCallbackOwnership` | src/uv_udp.c:221-239 | `setCallback` leaves the slots owned exactly if they were, unless it parses a counted callable and does not start receiving |
| `UdpRuns.UdpSlotsAccounted` | src/uv_udp.c:216-243 | over every run the references on a closure are accounted for, and owned exactly if none is borrowed |
| `UdpRuns.UdpBorrowedStays` | src/uv_udp.c:221-231 | what was left borrowed stays so over every further run |
| `UdpRuns.FreedInSendExactly` | src/uv_udp.c:51-73 | a send callback can free its handle exactly if the handle holds no reference on itself, whether or not it is passed the object |

## Left out

- TlsStreams.EndToEnd: the sender makes no further connection on the same handle, which would replace its engine; each `setCallback` of the receiver parses, since plaintext that finds no read callback is dropped; and the socket takes every write of the sender, since a refused one loses a piece in the middle of the stream, after which the engine of the peer can decode no more (`TlsStreams.RefusedWriteIsPrefix` says what it gets before that).
- StreamHandles.StreamHandle.WriteSsl: a TLS handle that was neither accepted nor connected has no engine, and the C code passes a null pointer to `SSL_write`; here the write is refused.
- Callbacks.FreeKeepsAccount: the C code drops the reference before it empties the slot; a destructor that runs in between, and calls back into the handle, is not modelled.
- Lifetime.FreedInEventExactly: leaves out the close callback and the failing name resolution, which release the handle themselves; for the callback of the latter, `Lifetime.OutlivesExactly` holds.
- Lifetime.OwedToFreed: what happens when libuv delivers an event to a freed object is undefined, and the model stops there; it says what is owed, not what follows.
- CertificateNames.MatchesSanList: a failing conversion to UTF-8 is not modelled; an entry carries the length of the ASN.1 string and the converted text.
- UdpRuns.UdpFlagCoupling: UDP `close` is called at most once, as `close` itself does not guard against a second call.
- libuv, the kernel, DNS and OpenSSL cryptography are foreign; only their answers and byte queues appear, and the record cipher is the identity.
- libuv is taken to deliver no reads or connections after `uv_close`, to call back the other requests of a handle before its close callback, and nothing after that but the answer of a name resolution.
- `SSL_write` before the end of the handshake is taken to fail without finishing the handshake; renegotiation, alerts and a zero-sized `SSL_read` at end of stream are not modelled.
- `parent::write` on a TLS handle, user destructors and forced destruction at PHP shutdown.
- The setter of the server-name callback and the context it selects, certificate and key loading, SSL contexts and their release, and the host name string's allocation. What the server-name callback does to the accepted handle is part of the handshake.
- A second connect while one is pending, on the level of libuv, which refuses it; each name resolution is its own request.
- `matches_common_name`: only its answer appears, as part of the peer certificate.
- The return values of `setCallback` and of a pipe's `connect`, which the C code leaves uninitialised.
- `accept` when `uv_accept` or `uv_read_start` fails; a successful `accept` is a starting state.
- The loop over pending handles of an attached pipe: each handle it announces is one connection event.
- The collector's tables of pipes and UDP handles, which are the first slots of the same kind of table.
- Truncation of buffer sizes to C `int`, and of the port to 16 bits.
- The idle, signal, timer, worker, process, resolver and utility classes, PHP class registration and argument info.
