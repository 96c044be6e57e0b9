/**
  What one stream handle does, step by step: `src/uv_tcp.c`, its copy for pipes
  in `src/uv_pipe.c`, and the TLS layer on top of it in `src/uv_ssl.c`.

  A run is a sequence of libuv events. An event may call user callbacks; what a
  callback does is a script of API calls carried by the event. The answers of
  libuv, the kernel and OpenSSL are carried the same way, so that all of them
  are arbitrary. `Step` ignores an event that libuv cannot deliver.

  These functions specify the methods of `StreamHandle.dfy`; what holds over whole
  runs is proved in `StreamRuns.dfy`, `Promises.dfy`, `Lifetime.dfy` and `TlsStreams.dfy`.
*/
module Streams {
  import opened Basics
  import opened Records
  import opened Callbacks
  import opened CertificateNames

  datatype Kind = Tcp | Pipe | Ssl

  /** The five bits of `flag`. */
  datatype Flags = Flags(internalRef: bool, handleStart: bool, readStart: bool,
                         closingStart: bool, writeEnable: bool)

  /**
    The reference count of the handle's own PHP object, and who holds the
    references: PHP variables, argument lists of running callbacks, and the
    extension itself. `taken` and `dropped` count the self-references.
  */
  datatype Refs = Refs(count: int, external: nat, frames: int, taken: nat, dropped: nat,
                       freed: nat, freedWhilePinned: bool)

  /** A cached socket address, with the strings allocated, freed and lost for it. */
  datatype Cache = Cache(port: nat, addr: Option<string>, made: nat, freed: nat, lost: nat)

  /** The answer of `getsockname` or `getpeername`. */
  datatype NameReply = Failed | Reply(port: nat, name: string)

  /**
    libuv's side of the handle. `accepted` and `refused` are the buffers that `uv_write`
    took and refused, `completed` counts the callbacks made for accepted ones; `made`
    and `released` count write requests.
  */
  datatype Uv = Uv(reading: bool, listening: bool, connecting: bool, resolving: nat, shutdowns: nat,
                   closes: nat, closed: bool,
                   accepted: seq<seq<byte>>, completed: nat, refused: seq<seq<byte>>,
                   made: nat, released: nat)

  /**
    The TLS engine. Until the handshake is over, `input` is what has arrived;
    from then on arrived bytes are decoded into `plain`, with the incomplete
    record in `partial`. `fed` and `written` record all that went in afterwards.
  */
  datatype Tls = Tls(initFinished: bool, input: seq<byte>, plain: seq<byte>, partial: seq<byte>,
                     output: seq<byte>, fed: seq<byte>, written: seq<byte>,
                     clientMode: bool, host: string, certsTaken: nat, certsFreed: nat)

  /** The user callbacks that were called, and `SslNew` where a connection got its engine. */
  datatype Call =
    | SslNew
    | HandshakeCall(err: int, accepted: bool)
    | ReadCall(data: seq<byte>)
    | WriteCall(writeStatus: int, length: nat)
    | ErrorCall(nread: int)
    | ConnectCall(status: int)
    | ShutdownCall(shutdownStatus: int)

  datatype Handle = Handle(kind: Kind, flags: Flags, refs: Refs, slots: Slots, sock: Cache, peer: Cache,
                           uv: Uv, tls: Tls, log: seq<Call>)

  /** What an API call returns. */
  datatype Ret = Null | Long(value: int)

  // ---------- initial states ----------

  const NO_CACHE := Cache(0, None, 0, 0, 0)
  const NO_REFS := Refs(1, 1, 0, 0, 0, 0, false)
  const NO_TLS := Tls(false, [], [], [], [], [], [], false, "", 0, 0)
  const IDLE := Uv(false, false, false, 0, 0, 0, false, [], 0, [], 0, 0)

  /** After `__construct`; one PHP variable refers to the object. */
  function Constructed(kind: Kind): Handle {
    Handle(kind, Flags(false, false, false, false, false), NO_REFS, EMPTY, NO_CACHE, NO_CACHE, IDLE, NO_TLS, [])
  }

  /** The handle that `accept` returns: started and reading, with no self-reference. */
  function Accepted(kind: Kind): Handle {
    Constructed(kind).(flags := Flags(false, true, true, false, false), uv := IDLE.(reading := true))
  }

  predicate Initial(h: Handle) {
    h == Constructed(h.kind) || h == Accepted(h.kind)
  }

  // ---------- closing and the self-reference ----------

  /** `tcp_close_socket`, `pipe_close_socket`. */
  function CloseSocket(h: Handle): Handle {
    if h.flags.closingStart then h
    else h.(flags := h.flags.(closingStart := true), uv := h.uv.(closes := h.uv.closes + 1))
  }

  /** `setSelfReference`. */
  function SetSelfReference(h: Handle): Handle {
    if h.flags.internalRef then h
    else h.(flags := h.flags.(internalRef := true),
            refs := h.refs.(count := h.refs.count + 1, taken := h.refs.taken + 1))
  }

  predicate IsCached(kind: Kind, c: Cache) {
    if kind.Pipe? then c.addr.Some? else c.port != 0
  }

  function ReleaseCache(kind: Kind, c: Cache): Cache {
    if IsCached(kind, c) then c.(port := 0, addr := None, freed := c.freed + 1) else c
  }

  /** The part of `releaseResource` that stops the handle. */
  function StopActivity(h: Handle): Handle {
    h.(sock := ReleaseCache(h.kind, h.sock),
       peer := ReleaseCache(h.kind, h.peer),
       flags := h.flags.(readStart := false, handleStart := false),
       uv := h.uv.(reading := h.uv.reading && !h.flags.readStart))
  }

  /** `releaseResource`. */
  function Release(h: Handle): Handle
    decreases Bit(h.flags.internalRef), 0
  {
    var s := StopActivity(h);
    if s.flags.internalRef then
      Drop(s.(flags := s.flags.(internalRef := false), refs := s.refs.(dropped := s.refs.dropped + 1)))
    else s
  }

  /** `zval_ptr_dtor` on the handle's object; the last reference runs the free handler. */
  function Drop(h: Handle): Handle
    decreases Bit(h.flags.internalRef), 2
  {
    var s := h.(refs := h.refs.(count := h.refs.count - 1));
    if s.refs.count == 0 then FreeObject(s) else s
  }

  /** `freeUVTcpResource`, `freeUVPipeResource`, `freeUVSSLResource`. */
  function FreeObject(h: Handle): Handle
    decreases Bit(h.flags.internalRef), 1
  {
    var s := Release(h.(refs := h.refs.(freed := h.refs.freed + 1,
                                        freedWhilePinned := h.refs.freedWhilePinned || h.flags.internalRef)));
    s.(slots := FreeFirst(s.slots, if h.kind.Ssl? then SLOTS else TCP_SLOTS))
  }

  // ---------- API calls ----------

  datatype ListenArgs = ListenArgs(host: string, fn: Fn, addrRet: int, bindRet: int, listenRet: int)
  datatype ConnectArgs = ConnectArgs(host: string, fn: Fn, addrRet: int, connectRet: int)

  /** The leading callables of a `"fff"` argument list; the list is well typed when all three are there. */
  type Parsed = fns: seq<Fn> | |fns| <= 3

  /** What user code can do to the handle. `None` stands for arguments that do not parse. */
  datatype Act =
    | CopyRef
    | DropRef
    | Close
    | SetCallback(fns: Parsed)
    | Listen(listenArgs: Option<ListenArgs>)
    | Connect(connectArgs: Option<ConnectArgs>)
    | Shutdown(fn: Option<Fn>, shutdownRet: int)
    | Write(data: seq<byte>, writeRet: int)
    | TlsWrite(message: seq<byte>, writeRets: seq<int>)
    | GetSock(sockReply: NameReply)
    | GetPeer(peerReply: NameReply)
    | SetHandshake(fn: Option<Fn>)
    | AttachIpc(openRet: int, fn: Option<Fn>, readRet: int)

  type Script = seq<Act>

  /** User code can reach the object: a variable or a running callback's arguments refer to it. */
  predicate Callable(h: Handle) {
    h.refs.freed == 0 && h.refs.external + h.refs.frames > 0
  }

  function BadHost(kind: Kind, host: string): bool {
    |host| == 0 || (!kind.Pipe? && |host| >= 30)
  }

  /** The first `n` callables, parsed into the first `n` slots. */
  function FillSlots(s: Slots, fns: Parsed, n: nat): (t: Slots)
    requires n <= |fns|
    ensures forall i :: 0 <= i < n ==> t.cell[i] == Some(fns[i])
    ensures forall i :: n <= i < SLOTS ==> t.cell[i] == s.cell[i]
  {
    if n == 0 then s else Fill(FillSlots(s, fns, n - 1), n - 1, fns[n - 1])
  }

  /** The read, write and error slots, freed. */
  function Cleared(s: Slots): Slots { Free(Free(Free(s, READ), WRITE), ERROR) }

  /** The slots after a `"fff"` argument list was parsed into the first three. */
  function ParseCallbacks(s: Slots, fns: Parsed): Slots { FillSlots(Cleared(s), fns, |fns|) }

  function OwnCallbacks(s: Slots): Slots {
    AddRef(AddRef(AddRef(s, READ), WRITE), ERROR)
  }

  function SetCallbacks(h: Handle, fns: Parsed): Handle {
    var s := ParseCallbacks(h.slots, fns);
    if |fns| < 3 then h.(slots := s) else SetSelfReference(h.(slots := OwnCallbacks(s)))
  }

  /** How far `listen` gets: the first failing answer, or zero. */
  function ListenCode(kind: Kind, a: ListenArgs): int {
    if BadHost(kind, a.host) then -1
    else if !kind.Pipe? && a.addrRet != 0 then a.addrRet
    else if a.bindRet != 0 then a.bindRet
    else a.listenRet
  }

  /** How every successful start ends: the handle is pinned and started. */
  function Start(h: Handle, s: Slots, reading: bool, u: Uv, t: Tls): Handle {
    var p := SetSelfReference(h.(slots := s));
    p.(flags := p.flags.(handleStart := true, readStart := p.flags.readStart || reading), uv := u, tls := t)
  }

  function DoListen(h: Handle, args: Option<ListenArgs>): (Handle, Ret) {
    if h.flags.handleStart then (h, Long(-1))
    else
      var freed := Free(h.slots, CONNECT);
      match args
      case None => (h.(slots := freed), Null)
      case Some(a) =>
        var filled := Fill(freed, CONNECT, a.fn);
        var code := ListenCode(h.kind, a);
        if code != 0 then (h.(slots := filled), Long(code))
        else (Start(h, AddRef(filled, CONNECT), false, h.uv.(listening := true), h.tls), Long(0))
  }

  datatype ConnectStart = Refused(code: int) | Connecting | Resolving

  function StartConnect(kind: Kind, a: ConnectArgs): ConnectStart {
    if BadHost(kind, a.host) then Refused(-1)
    else if kind.Pipe? then Connecting
    else if a.addrRet != 0 then (if kind.Ssl? then Resolving else Refused(a.addrRet))
    else if a.connectRet != 0 then Refused(a.connectRet)
    else Connecting
  }

  /** A TLS `connect` stores the host before anything can refuse the connection. */
  function StoreHost(h: Handle, a: ConnectArgs): Handle {
    if h.kind.Ssl? && !BadHost(h.kind, a.host) then h.(tls := h.tls.(host := CString(a.host))) else h
  }

  /** What a started TLS connection remembers. */
  function ConnectTls(h: Handle, a: ConnectArgs): Tls {
    if h.kind.Ssl? then h.tls.(clientMode := true, host := CString(a.host)) else h.tls
  }

  function DoConnect(h: Handle, args: Option<ConnectArgs>): (Handle, Ret) {
    match args
    case None => (h.(slots := Free(h.slots, CONNECT)), Null)
    case Some(a) =>
      var owned := Install(h.slots, CONNECT, a.fn);
      match StartConnect(h.kind, a)
      case Refused(code) => (StoreHost(h, a).(slots := Free(owned, CONNECT)), Long(code))
      case Resolving => (Start(h, owned, false, h.uv.(resolving := h.uv.resolving + 1), ConnectTls(h, a)), Long(0))
      case Connecting => (Start(h, owned, false, h.uv.(connecting := true), ConnectTls(h, a)), Long(0))
  }

  function DoShutdown(h: Handle, fn: Option<Fn>, ret: int): (Handle, Ret) {
    match fn
    case None => (h.(slots := Free(h.slots, SHUTDOWN)), Null)
    case Some(f) =>
      var s := h.(slots := Install(h.slots, SHUTDOWN, f));
      if ret != 0 then (s, Long(ret))
      else
        var t := SetSelfReference(s);
        (t.(uv := t.uv.(shutdowns := t.uv.shutdowns + 1)), Long(0))
  }

  /** `tcp_write_raw`, `pipe_write_raw`; `ret` is the answer of `uv_write`. */
  function WriteRaw(h: Handle, data: seq<byte>, ret: int): Handle {
    var u := h.uv.(made := h.uv.made + 1);
    if ret == 0 then h.(uv := u.(accepted := u.accepted + [data]))
    else h.(uv := u.(refused := u.refused + [data]))
  }

  /** The answers of successive `uv_write` calls; a list that runs out goes on with success. */
  function Head(rets: seq<int>): int { if rets == [] then 0 else rets[0] }
  function Tail<T>(list: seq<T>): seq<T> { if list == [] then [] else list[1..] }

  /** `write_bio_to_socket`. */
  function WriteBio(h: Handle, rets: seq<int>): (Handle, int)
    decreases |h.tls.output|
  {
    if h.tls.output == [] then (h, 0)
    else
      var chunk := Cut(h.tls.output);
      var s := WriteRaw(h.(tls := h.tls.(output := h.tls.output[|chunk|..])), chunk, Head(rets));
      if Head(rets) != 0 then (s, Head(rets)) else WriteBio(s, Tail(rets))
  }

  /** `SSL_write`: refused until the handshake is over. */
  function SslWrite(t: Tls, message: seq<byte>): (Tls, int) {
    if !t.initFinished then (t, -1)
    else (t.(output := t.output + Encode(message), written := t.written + message), |message|)
  }

  /** `UVSSL::write`; the size is unsigned, so that a failed `SSL_write` drains the BIO too. */
  function DoTlsWrite(h: Handle, message: seq<byte>, rets: seq<int>): (Handle, Ret) {
    var (tls, size) := SslWrite(h.tls, message);
    var s := h.(tls := tls);
    if size != 0 then
      var (t, ret) := WriteBio(s, rets);
      (t, Long(ret))
    else (s, Long(0))
  }

  /** `resolveSocket`, `resolvePeerSocket`. */
  function Resolve(kind: Kind, c: Cache, reply: NameReply): Cache {
    if IsCached(kind, c) then c
    else match reply
      case Failed => if kind.Pipe? then c.(made := c.made + 1, freed := c.freed + 1) else c
      case Reply(port, name) =>
        if kind.Pipe? then c.(addr := Some(name), made := c.made + 1)
        else c.(port := port, addr := Some(name), made := c.made + 1, lost := c.lost + Bit(port == 0))
  }

  /** What `getSockname` and `getPeername` return from a cache; `None` is `false`. */
  function NameAnswer(kind: Kind, c: Cache): Option<string> {
    if IsCached(kind, c) then c.addr else None
  }

  /** What `getSockport` and `getPeerport` return; pipes have neither. */
  function PortAnswer(kind: Kind, c: Cache): Option<nat> {
    if IsCached(kind, c) && !kind.Pipe? then Some(c.port) else None
  }

  function DoAttachIpc(h: Handle, openRet: int, fn: Option<Fn>, readRet: int): (Handle, Ret) {
    if openRet != 0 then (h, Long(openRet))
    else match fn
      case None => (h.(slots := Free(h.slots, CONNECT)), Long(-1))
      case Some(f) =>
        var owned := Install(h.slots, CONNECT, f);
        if readRet != 0 then (h.(slots := owned), Long(readRet))
        else (Start(h, owned, true, h.uv.(listening := true), h.tls), Long(0))
  }

  /** One call of user code. A method of the wrong class, or on an unreachable object, is no call. */
  function Perform(h: Handle, a: Act): Handle {
    if !Callable(h) then h
    else match a
      case CopyRef => h.(refs := h.refs.(count := h.refs.count + 1, external := h.refs.external + 1))
      case DropRef =>
        if h.refs.external == 0 then h else Drop(h.(refs := h.refs.(external := h.refs.external - 1)))
      case Close => CloseSocket(h)
      case SetCallback(fns) => SetCallbacks(h, fns)
      case Listen(args) => DoListen(h, args).0
      case Connect(args) => DoConnect(h, args).0
      case Shutdown(fn, ret) => DoShutdown(h, fn, ret).0
      case Write(data, ret) =>
        if h.kind.Ssl? then h
        else WriteRaw(h.(flags := h.flags.(writeEnable := true)), data, ret)
      case TlsWrite(message, rets) => if h.kind.Ssl? then DoTlsWrite(h, message, rets).0 else h
      case GetSock(reply) => h.(sock := Resolve(h.kind, h.sock, reply))
      case GetPeer(reply) => h.(peer := Resolve(h.kind, h.peer, reply))
      case SetHandshake(fn) =>
        if !h.kind.Ssl? then h
        else if fn.None? then h.(slots := Free(h.slots, HANDSHAKE))
        else h.(slots := Install(h.slots, HANDSHAKE, fn.value))
      case AttachIpc(openRet, fn, readRet) => if h.kind.Pipe? then DoAttachIpc(h, openRet, fn, readRet).0 else h
  }

  function RunScript(h: Handle, script: Script): Handle
    decreases |script|
  {
    if script == [] then h else RunScript(Perform(h, script[0]), script[1..])
  }

  // ---------- user callbacks ----------

  /** The arguments of the running callback hold a reference. */
  function EnterCall(h: Handle, call: Call): Handle {
    h.(log := h.log + [call], refs := h.refs.(count := h.refs.count + 1, frames := h.refs.frames + 1))
  }

  function LeaveCall(h: Handle): Handle {
    Drop(h.(refs := h.refs.(frames := h.refs.frames - 1)))
  }

  /** `fci_call_function` on the function in a slot; an empty slot is not called. */
  function CallBack(h: Handle, slot: Slot, call: Call, script: Script): Handle {
    if h.slots.cell[slot].None? then h else LeaveCall(RunScript(EnterCall(h, call), script))
  }

  /** What a handshake callback does and what it returns. */
  datatype Verdict = Verdict(script: Script, accepts: bool)

  const X509_V_OK := 0
  const X509_V_ERR_CERT_CHAIN_TOO_LONG := 22
  const X509_V_ERR_SUBJECT_ISSUER_MISMATCH := 29
  const VERIFY_DEPTH := 9

  /** `handleHandshakeCallback`. */
  function HandshakeCallback(h: Handle, err: int, v: Verdict): (Handle, bool) {
    var ok := h.slots.cell[HANDSHAKE].Some? && v.accepts;
    var s := CallBack(h, HANDSHAKE, HandshakeCall(err, v.accepts), v.script);
    (if ok then s else CloseSocket(s), ok)
  }

  // ---------- the TLS layer ----------

  datatype Outcome = Done | WantRead | WantWrite | Fatal

  /** One call of `verify_callback` from inside `SSL_do_handshake`. */
  datatype Verify = Verify(err: int, depth: nat, verdict: Verdict)

  /** The peer certificate: what `matches_common_name` answers for it, and its alternative names. */
  datatype PeerCert = PeerCert(commonName: bool, altNames: seq<AltName>)

  /** Everything `handleHandshake` asks OpenSSL, libuv and the user. `serverName` is what the
      server-name callback of the accepting server does, where OpenSSL calls it. */
  datatype Handshake = Handshake(serverName: Option<Script>, verify: seq<Verify>, outcome: Outcome, consumed: nat,
                                 emitted: seq<byte>, rets: seq<int>, retsAgain: seq<int>, cert: Option<PeerCert>,
                                 onMismatch: Verdict, onDone: Verdict)

  /** `verify_callback`. */
  function VerifyCallback(h: Handle, v: Verify): (Handle, bool) {
    if v.err == X509_V_OK then (h, true)
    else HandshakeCallback(h, if v.depth > VERIFY_DEPTH then X509_V_ERR_CERT_CHAIN_TOO_LONG else v.err, v.verdict)
  }

  /** The verify callbacks of one handshake step, up to the first refusal. */
  function VerifyAll(h: Handle, vs: seq<Verify>): (Handle, bool)
    decreases |vs|
  {
    if vs == [] then (h, true)
    else
      var (s, ok) := VerifyCallback(h, vs[0]);
      if ok then VerifyAll(s, vs[1..]) else (s, false)
  }

  /** The engine after `SSL_do_handshake`. A refused certificate is fatal. */
  function Advance(t: Tls, hs: Handshake, verified: bool): (Tls, Outcome) {
    var outcome := if verified then hs.outcome else Fatal;
    var rest := t.input[if hs.consumed <= |t.input| then hs.consumed else |t.input|..];
    var s := t.(output := t.output + hs.emitted);
    if outcome == Done then
      (s.(initFinished := true, input := [], plain := Payload(rest), partial := Rest(rest), fed := rest), Done)
    else (s.(input := rest), outcome)
  }

  /** Whether the names of the peer certificate fit the host. */
  predicate CertificateFits(h: Handle, hs: Handshake) {
    hs.cert.Some? ==> hs.cert.value.commonName || AltNamesAccept(hs.cert.value.altNames, h.tls.host)
  }

  /** `SSL_get_peer_certificate` and `X509_free`. */
  function TakeCert(h: Handle): Handle { h.(tls := h.tls.(certsTaken := h.tls.certsTaken + 1)) }
  function FreeCert(h: Handle): Handle { h.(tls := h.tls.(certsFreed := h.tls.certsFreed + 1)) }

  /** The certificate check of `handleHandshake` in client mode. */
  function CheckPeer(h: Handle, hs: Handshake, fits: bool): (Handle, bool) {
    if !h.tls.clientMode || hs.cert.None? then (h, true)
    else if fits then (FreeCert(TakeCert(h)), true)
    else
      var (s, ok) := HandshakeCallback(TakeCert(h), X509_V_ERR_SUBJECT_ISSUER_MISMATCH, hs.onMismatch);
      (FreeCert(s), ok)
  }

  /** `sni_cb`: it belongs to the server, so that nothing of this handle is among its arguments. */
  function ServerName(h: Handle, hs: Handshake): Handle {
    match hs.serverName case None => h case Some(script) => RunScript(h, script)
  }

  /** `SSL_do_handshake`, with the callbacks it makes, and the flush of what it emitted. */
  function Attempt(h: Handle, hs: Handshake): (Handle, Outcome) {
    var (s, verified) := VerifyAll(ServerName(h, hs), hs.verify);
    var (tls, outcome) := Advance(s.tls, hs, verified);
    (WriteBio(s.(tls := tls), hs.rets).0, outcome)
  }

  /** The end of `handleHandshake`, once the engine is done. */
  function Finish(h: Handle, hs: Handshake, fits: bool): (Handle, bool) {
    var (s, ok) := CheckPeer(h, hs, fits);
    if ok then HandshakeCallback(s, X509_V_OK, hs.onDone) else (s, false)
  }

  /** `handleHandshake`; the second component says whether to go on reading. */
  function HandleHandshake(h: Handle, hs: Handshake): (Handle, bool) {
    if h.tls.initFinished then (h.(flags := h.flags.(writeEnable := true)), true)
    else
      var (s, outcome) := Attempt(h, hs);
      match outcome
      case WantRead => (s, false)
      case WantWrite => (WriteBio(s, hs.retsAgain).0, false)
      case Fatal => (CloseSocket(s), false)
      case Done => Finish(s, hs, CertificateFits(s, hs))
  }

  /** `BIO_write` on the read BIO. */
  function Feed(t: Tls, data: seq<byte>): Tls {
    if t.initFinished then
      t.(plain := t.plain + Payload(t.partial + data), partial := Rest(t.partial + data), fed := t.fed + data)
    else t.(input := t.input + data)
  }

  /** The scripts of successive read callbacks; a list that runs out goes on with empty ones. */
  function Next(scripts: seq<Script>): Script { if scripts == [] then [] else scripts[0] }

  /** The engine after `chunk` was read from it. */
  function Consume(t: Tls, chunk: seq<byte>): Tls {
    t.(plain := t.plain[if |chunk| <= |t.plain| then |chunk| else |t.plain|..])
  }

  /** The reading loop of `read_cb`, callback by callback. */
  function Deliver(h: Handle, chunks: seq<seq<byte>>, scripts: seq<Script>): Handle
    decreases |chunks|
  {
    if chunks == [] then h
    else
      var s := CallBack(h.(tls := Consume(h.tls, chunks[0])), READ, ReadCall(chunks[0]), Next(scripts));
      Deliver(s, chunks[1..], Tail(scripts))
  }

  // ---------- events ----------

  datatype Event =
    | UserCode(script: Script)
    | ReadData(data: seq<byte>, script: Script)
    | ReadFailed(nread: int, script: Script)
    | Connected(status: int, readRet: int, hello: seq<byte>, rets: seq<int>, script: Script)
    | Incoming(status: int, script: Script)
    | ShutdownDone(status: int, script: Script)
    | WriteDone(status: int, script: Script)
    | Resolved(ret: int, script: Script)
    | TlsRead(data: seq<byte>, handshake: Handshake, scripts: seq<Script>)
    | CloseDone

  /** libuv owes the event: no reads or connections once `uv_close` was called, the close callback
      after every other request of the handle, and nothing after it, but for the answer of a name
      resolution, which is no request of the handle. */
  predicate Due(kind: Kind, u: Uv, e: Event) {
    match e
    case UserCode(_) => false
    case Resolved(_, _) => kind.Ssl? && u.resolving > 0
    case ReadData(data, _) => !u.closed && !kind.Ssl? && u.reading && u.closes == 0 && data != []
    case ReadFailed(nread, _) =>
      !u.closed && u.reading && u.closes == 0 && (if kind.Ssl? then nread < 0 else nread <= 0)
    case TlsRead(_, _, _) => !u.closed && kind.Ssl? && u.reading && u.closes == 0
    case Connected(_, readRet, _, _, _) => !u.closed && u.connecting && (u.closes > 0 ==> readRet != 0)
    case Incoming(_, _) => !u.closed && u.listening && u.closes == 0
    case ShutdownDone(_, _) => !u.closed && u.shutdowns > 0
    case WriteDone(_, _) => !u.closed && u.completed < |u.accepted|
    case CloseDone =>
      !u.closed && u.closes > 0 && u.completed >= |u.accepted| && u.shutdowns == 0 && !u.connecting
  }

  /** The event happens: user code can always run; what libuv owes is followed up to the moment the
      object is freed. libuv may owe it more: see `Lifetime.dfy`. */
  predicate Enabled(h: Handle, e: Event) {
    e.UserCode? || (h.refs.freed == 0 && Due(h.kind, h.uv, e))
  }

  /** `read_cb`, failing half. */
  function OnReadFailed(h: Handle, nread: int, script: Script): Handle {
    CloseSocket(CallBack(h, ERROR, ErrorCall(nread), script))
  }

  /** A fresh engine in connect state, its first flight queued. */
  function NewClient(t: Tls, hello: seq<byte>): Tls {
    NO_TLS.(output := hello, clientMode := t.clientMode, host := t.host,
            certsTaken := t.certsTaken, certsFreed := t.certsFreed)
  }

  /** What a TLS client does on connecting: a new engine, whose first flight is sent. */
  function OpenEngine(h: Handle, hello: seq<byte>, rets: seq<int>): Handle {
    if !h.kind.Ssl? then h
    else WriteBio(h.(tls := NewClient(h.tls, hello), log := h.log + [SslNew]), rets).0
  }

  function MarkReading(h: Handle): Handle {
    h.(flags := h.flags.(handleStart := true, readStart := true))
  }

  /** `client_connection_cb`. */
  function OnConnected(h: Handle, status: int, readRet: int, hello: seq<byte>, rets: seq<int>,
                       script: Script): Handle {
    if readRet != 0 then h.(uv := h.uv.(connecting := false))
    else
      var s := MarkReading(h.(uv := h.uv.(connecting := false, reading := true)));
      CallBack(OpenEngine(s, hello, rets), CONNECT, ConnectCall(status), script)
  }

  /** `write_cb`. */
  function OnWriteDone(h: Handle, status: int, script: Script): Handle
    requires h.uv.completed < |h.uv.accepted|
  {
    var s := if h.flags.writeEnable
             then CallBack(h, WRITE, WriteCall(status, |h.uv.accepted[h.uv.completed]|), script)
             else h;
    s.(uv := s.uv.(completed := s.uv.completed + 1, released := s.uv.released + 1))
  }

  /** `on_addrinfo_resolved`; `ret` is the first non-zero answer of its chain, or zero. */
  function OnResolved(h: Handle, ret: int, script: Script): Handle
    requires h.uv.resolving > 0
  {
    var s := h.(uv := h.uv.(resolving := h.uv.resolving - 1));
    if ret == 0 then s.(uv := s.uv.(connecting := true))
    else Release(CallBack(s, CONNECT, ConnectCall(ret), script))
  }

  /** `read_cb` of `src/uv_ssl.c` for arrived bytes. */
  function OnTlsRead(h: Handle, data: seq<byte>, hs: Handshake, scripts: seq<Script>): Handle {
    var (s, goOn) := HandleHandshake(h.(tls := Feed(h.tls, data)), hs);
    if goOn then Deliver(s, ReadChunks(s.tls.plain), scripts) else s
  }

  function Step(h: Handle, e: Event): Handle {
    if !Enabled(h, e) then h
    else match e
      case UserCode(script) => RunScript(h, script)
      case ReadData(data, script) => CallBack(h, READ, ReadCall(data), script)
      case ReadFailed(nread, script) => OnReadFailed(h, nread, script)
      case Connected(status, readRet, hello, rets, script) => OnConnected(h, status, readRet, hello, rets, script)
      case Incoming(status, script) => CallBack(h, CONNECT, ConnectCall(status), script)
      case ShutdownDone(status, script) =>
        CallBack(h.(uv := h.uv.(shutdowns := h.uv.shutdowns - 1)), SHUTDOWN, ShutdownCall(status), script)
      case WriteDone(status, script) => OnWriteDone(h, status, script)
      case Resolved(ret, script) => OnResolved(h, ret, script)
      case TlsRead(data, hs, scripts) => OnTlsRead(h, data, hs, scripts)
      case CloseDone => Release(h.(uv := h.uv.(closed := true)))
  }

  function Run(h: Handle, events: seq<Event>): Handle
    decreases |events|
  {
    if events == [] then h else Run(Step(h, events[0]), events[1..])
  }
}
