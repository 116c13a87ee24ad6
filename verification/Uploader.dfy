/**
 The uploader as a protocol: a client folder, the server's two directories and any number of
 sessions, each step being one send, one `recv` of some bytes, one move to the next part of a
 message, or the death of a side. Files keep their content while they wait for upload. The stream
 is first in first out; what it carries of a file may be damaged, the framing and the digest not.
 */
module Uploader {
  import opened Sequences
  import opened Framing

  /** Where `ClientProcessor.run` is: the part it waits for and what it holds of it. */
  datatype Server =
    | NameHdr(buf: Bytes)
    | NameBody(len: int, buf: Bytes)
    | SizeHdr(name: Bytes, buf: Bytes)
    | Content(name: Bytes, left: int, seen: Bytes, chunk: Bytes)
    | DigestHdr(name: Bytes, seen: Bytes, buf: Bytes)
    | DigestBody(name: Bytes, seen: Bytes, len: int, buf: Bytes)
    | Replying(seen: Bytes, out: Bytes)

  /**
   One connection: `file` is the content as the stream carries it, `digest` the client's own;
   `unsent` and `up` are on their way to the server, `down` to the client, who holds `echo`.
   */
  datatype Session = Session(
    name: Bytes, file: Bytes, digest: Bytes, unsent: Bytes, up: Bytes, server: Server,
    down: Bytes, echo: Bytes, clientOn: bool, serverOn: bool)

  /** `made` remembers every tarball that was ever put in the client's folder. */
  datatype State = State(
    made: map<Bytes, Bytes>, folder: map<Bytes, Bytes>, recv: map<Bytes, Bytes>, tar: map<Bytes, Bytes>,
    sessions: seq<Session>)

  datatype Step =
    | Make(name: Bytes, file: Bytes)
    | Start(name: Bytes, carried: Bytes)
    | Send(i: nat, k: nat)
    | ServerRecv(i: nat, k: nat)
    | ServerTurn(i: nat)
    | ServerSend(i: nat, k: nat)
    | ClientRecv(i: nat, k: nat)
    | ClientEnd(i: nat)
    | ClientDies(i: nat)
    | ServerDies(i: nat)

  predicate Live(s: Session) {
    s.clientOn || s.serverOn
  }

  // ---- the server's side ----

  /** How many bytes the next `recv` asks for. */
  function Want(s: Server): int {
    match s
    case NameHdr(buf) => 4 - |buf|
    case NameBody(len, buf) => len - |buf|
    case SizeHdr(_, buf) => 4 - |buf|
    case Content(_, left, _, chunk) => (if left > CHUNK then CHUNK else left) - |chunk|
    case DigestHdr(_, _, buf) => 4 - |buf|
    case DigestBody(_, _, len, buf) => len - |buf|
    case Replying(_, _) => 0
  }

  /** A file is asked for in chunks of 4096 bytes, the last one shorter. */
  lemma {:induction false} ChunkAsked(name: Bytes, left: nat, seen: Bytes)
    ensures Want(Content(name, left, seen, [])) == if left < 4096 then left else 4096
  {
  }

  function Take(s: Server, b: Bytes): Server {
    match s
    case NameHdr(buf) => NameHdr(buf + b)
    case NameBody(len, buf) => NameBody(len, buf + b)
    case SizeHdr(name, buf) => SizeHdr(name, buf + b)
    case Content(name, left, seen, chunk) => Content(name, left, seen, chunk + b)
    case DigestHdr(name, seen, buf) => DigestHdr(name, seen, buf + b)
    case DigestBody(name, seen, len, buf) => DigestBody(name, seen, len, buf + b)
    case Replying(_, _) => s
  }

  /** `mv` of a received file. */
  function Move(st: State, name: Bytes): State {
    if name in st.recv then st.(tar := st.tar[name := st.recv[name]], recv := st.recv - {name}) else st
  }

  /** The part under way is complete: the next one, and what happens to the directories. */
  function Turn(h: Digest, st: State, s: Session): (State, Session) {
    match s.server
    case NameHdr(buf) =>
      if |buf| != 4 then (st, s) else (st, s.(server := NameBody(Unpack(buf), [])))
    case NameBody(len, buf) =>
      if len < 0 then (st, s.(serverOn := false))
      else (st.(recv := st.recv[buf := []]), s.(server := SizeHdr(buf, [])))
    case SizeHdr(name, buf) =>
      if |buf| != 4 then (st, s) else (st, s.(server := Content(name, Unpack(buf), [], [])))
    case Content(name, left, seen, chunk) =>
      if left > 0 && name in st.recv then
        (st.(recv := st.recv[name := st.recv[name] + chunk]),
         s.(server := Content(name, left - |chunk|, seen + chunk, [])))
      else (st, s.(server := DigestHdr(name, seen, [])))
    case DigestHdr(name, seen, buf) =>
      if |buf| != 4 then (st, s) else (st, s.(server := DigestBody(name, seen, Unpack(buf), [])))
    case DigestBody(name, seen, len, buf) =>
      if len < 0 || !Fits(h(seen)) then (st, s.(serverOn := false))
      else (if buf == h(seen) then Move(st, name) else st, s.(server := Replying(seen, Frame(h(seen)))))
    case Replying(_, _) => (st, s)
  }

  // ---- the client's side ----

  /** What the client hands to the socket; a file too long for its length field ends the upload. */
  function Upload(name: Bytes, file: Bytes, digest: Bytes): Bytes
    requires Fits(name) && Fits(digest)
  {
    Frame(name) + Body(file, digest)
  }

  function Body(file: Bytes, digest: Bytes): Bytes
    requires Fits(digest)
  {
    if Fits(file) then Frame(file) + Frame(digest) else []
  }

  /** The bytes that `Framing.Socket.SendUpload` sends. */
  lemma {:induction false} UploadIsSent(name: Bytes, file: Bytes, digest: Bytes)
    requires Fits(name) && Fits(digest)
    ensures Upload(name, file, digest) == if Fits(file) then Message(name, file, digest) else Frame(name)
  {
    assert Frame(name) + [] == Frame(name);
  }

  /** How many bytes of the echoed digest the client still waits for. */
  function EchoWant(echo: Bytes): int {
    if |echo| < 4 then 4 - |echo| else 4 + Unpack(echo[..4]) - |echo|
  }

  // ---- steps ----

  predicate Enabled(h: Digest, st: State, step: Step) {
    match step
    case Make(name, _) => name !in st.made
    case Start(name, carried) =>
      name in st.folder && Fits(name) && |carried| == |st.folder[name]| && Fits(h(st.folder[name])) &&
      (forall j :: 0 <= j < |st.sessions| && st.sessions[j].name == name ==> !Live(st.sessions[j]))
    case Send(i, k) => i < |st.sessions| && st.sessions[i].clientOn && k <= |st.sessions[i].unsent|
    case ServerRecv(i, k) =>
      i < |st.sessions| && st.sessions[i].serverOn && 1 <= k <= |st.sessions[i].up| && k <= Want(st.sessions[i].server)
    case ServerTurn(i) => i < |st.sessions| && st.sessions[i].serverOn && Want(st.sessions[i].server) <= 0
    case ServerSend(i, k) =>
      i < |st.sessions| && st.sessions[i].serverOn && st.sessions[i].server.Replying? &&
      k <= |st.sessions[i].server.out|
    case ClientRecv(i, k) =>
      i < |st.sessions| && st.sessions[i].clientOn && st.sessions[i].unsent == [] &&
      1 <= k <= |st.sessions[i].down| && k <= EchoWant(st.sessions[i].echo)
    case ClientEnd(i) =>
      i < |st.sessions| && st.sessions[i].clientOn && st.sessions[i].unsent == [] &&
      |st.sessions[i].echo| >= 4 && EchoWant(st.sessions[i].echo) == 0
    case ClientDies(i) => i < |st.sessions|
    case ServerDies(i) => i < |st.sessions|
  }

  function Put(st: State, i: nat, s: Session): State
    requires i < |st.sessions|
  {
    st.(sessions := st.sessions[i := s])
  }

  /** An enabled step; a step that is not enabled changes nothing. */
  function Apply(h: Digest, st: State, step: Step): State {
    if !Enabled(h, st, step) then st
    else
      match step
      case Make(name, file) => st.(made := st.made[name := file], folder := st.folder[name := file])
      case Start(name, carried) =>
        var digest := h(st.folder[name]);
        st.(sessions := st.sessions +
              [Session(name, carried, digest, Upload(name, carried, digest), [], NameHdr([]), [], [], true, true)])
      case Send(i, k) =>
        var s := st.sessions[i];
        Put(st, i, s.(up := s.up + s.unsent[..k], unsent := s.unsent[k..]))
      case ServerRecv(i, k) =>
        var s := st.sessions[i];
        Put(st, i, s.(server := Take(s.server, s.up[..k]), up := s.up[k..]))
      case ServerTurn(i) =>
        var next := Turn(h, st, st.sessions[i]);
        next.0.(sessions := st.sessions[i := next.1])
      case ServerSend(i, k) =>
        var s := st.sessions[i];
        Put(st, i, s.(down := s.down + s.server.out[..k], server := s.server.(out := s.server.out[k..])))
      case ClientRecv(i, k) =>
        var s := st.sessions[i];
        Put(st, i, s.(echo := s.echo + s.down[..k], down := s.down[k..]))
      case ClientEnd(i) =>
        var s := st.sessions[i];
        var kept := if s.echo[4..] == s.digest then st.folder - {s.name} else st.folder;
        Put(st.(folder := kept), i, s.(clientOn := false))
      case ClientDies(i) => Put(st, i, st.sessions[i].(clientOn := false))
      case ServerDies(i) => Put(st, i, st.sessions[i].(serverOn := false))
  }

  function Run(h: Digest, steps: seq<Step>): State {
    if steps == [] then State(map[], map[], map[], map[], [])
    else Apply(h, Run(h, steps[..|steps| - 1]), steps[|steps| - 1])
  }

  // ---- what every reachable state keeps ----

  /** What the server holds and what is still to come make up what the client sends. */
  predicate Tracks(s: Server, rest: Bytes, name: Bytes, file: Bytes, digest: Bytes)
    requires Fits(name) && Fits(digest)
  {
    match s
    case NameHdr(buf) => |buf| <= 4 && buf + rest == Frame(name) + Body(file, digest)
    case NameBody(len, buf) => len == |name| && |buf| <= len && buf + rest == name + Body(file, digest)
    case SizeHdr(n, buf) => n == name && |buf| <= 4 && buf + rest == Body(file, digest)
    case Content(n, left, seen, chunk) =>
      Fits(file) && n == name && |chunk| <= left && |chunk| <= CHUNK && |seen| + left == |file| &&
      seen + chunk + rest == file + Frame(digest)
    case DigestHdr(n, seen, buf) => n == name && seen == file && |buf| <= 4 && buf + rest == Frame(digest)
    case DigestBody(n, seen, len, buf) =>
      n == name && seen == file && len == |digest| && |buf| <= len && buf + rest == digest
    case Replying(seen, _) => seen == file && rest == []
  }

  /** The file being received is on disk as far as its chunks are complete. */
  predicate OnDisk(s: Server, name: Bytes, recv: map<Bytes, Bytes>) {
    match s
    case NameHdr(_) => true
    case NameBody(_, _) => true
    case SizeHdr(_, _) => name in recv && recv[name] == []
    case Content(_, _, seen, _) => name in recv && recv[name] == seen
    case DigestHdr(_, seen, _) => name in recv && recv[name] == seen
    case DigestBody(_, seen, _, _) => name in recv && recv[name] == seen
    case Replying(_, _) => true
  }

  /** The client can only hear the digest of what the server received, and hears its own only after the move. */
  predicate Echoes(h: Digest, s: Session, tar: map<Bytes, Bytes>) {
    if s.server.Replying? then
      Fits(h(s.file)) && s.echo + s.down + s.server.out == Frame(h(s.file)) &&
      (h(s.file) == s.digest ==> s.name in tar)
    else s.echo == [] && s.down == []
  }

  predicate SessionOk(h: Digest, files: set<Bytes>, made: map<Bytes, Bytes>, recv: map<Bytes, Bytes>,
                      tar: map<Bytes, Bytes>, s: Session) {
    Fits(s.name) && Fits(s.digest) && s.name in made && s.digest == h(made[s.name]) && s.file in files &&
    Tracks(s.server, s.up + s.unsent, s.name, s.file, s.digest) &&
    Echoes(h, s, tar) && (s.serverOn ==> OnDisk(s.server, s.name, recv))
  }

  ghost predicate Directories(files: set<Bytes>, st: State) {
    (forall n :: n in st.made ==> st.made[n] in files && (n in st.folder || n in st.tar)) &&
    (forall n :: n in st.folder ==> n in st.made && st.folder[n] == st.made[n]) &&
    (forall n :: n in st.tar ==> n in st.made && st.tar[n] == st.made[n])
  }

  ghost predicate Inv(h: Digest, files: set<Bytes>, st: State) {
    Directories(files, st) &&
    (forall i :: 0 <= i < |st.sessions| ==> SessionOk(h, files, st.made, st.recv, st.tar, st.sessions[i])) &&
    (forall i, j :: 0 <= i < j < |st.sessions| && st.sessions[i].name == st.sessions[j].name ==> !Live(st.sessions[i]))
  }

  /** The digest tells apart the contents that occur in a run. */
  ghost predicate Injective(h: Digest, files: set<Bytes>) {
    forall a, b :: a in files && b in files && h(a) == h(b) ==> a == b
  }

  predicate Uses(step: Step, files: set<Bytes>) {
    (step.Make? ==> step.file in files) && (step.Start? ==> step.carried in files)
  }

  // ---- the server keeps track ----

  /** A prefix of known length settles both parts. */
  lemma {:induction false} Settle(a: Bytes, b: Bytes, c: Bytes, d: Bytes)
    requires a + b == c + d && |a| == |c|
    ensures a == c && b == d
  {
    assert a == (a + b)[..|a|] && c == (c + d)[..|c|];
    assert b == (a + b)[|a|..] && d == (c + d)[|c|..];
  }

  /** Bytes taken from the stream are the next ones of the part under way. */
  lemma {:induction false} TakeTracks(s: Server, b: Bytes, rest: Bytes, name: Bytes, file: Bytes, digest: Bytes)
    requires Fits(name) && Fits(digest) && Tracks(s, b + rest, name, file, digest) && |b| <= Want(s)
    ensures Tracks(Take(s, b), rest, name, file, digest)
  {
    match s {
      case NameHdr(buf) => assert buf + b + rest == buf + (b + rest);
      case NameBody(_, buf) => assert buf + b + rest == buf + (b + rest);
      case SizeHdr(_, buf) => assert buf + b + rest == buf + (b + rest);
      case Content(_, _, seen, chunk) => assert seen + (chunk + b) + rest == seen + chunk + (b + rest);
      case DigestHdr(_, _, buf) => assert buf + b + rest == buf + (b + rest);
      case DigestBody(_, _, _, buf) => assert buf + b + rest == buf + (b + rest);
      case Replying(_, _) => assert b == [] && b + rest == rest;
    }
  }

  lemma {:induction false} TurnName(h: Digest, st: State, s: Session)
    requires Fits(s.name) && Fits(s.digest) && Want(s.server) <= 0 && (s.server.NameHdr? || s.server.NameBody?)
    requires Tracks(s.server, s.up + s.unsent, s.name, s.file, s.digest)
    ensures Tracks(Turn(h, st, s).1.server, s.up + s.unsent, s.name, s.file, s.digest)
  {
    var rest := s.up + s.unsent;
    if s.server.NameHdr? {
      assert s.server.buf + rest == Pack(|s.name|) + (s.name + Body(s.file, s.digest));
      Settle(s.server.buf, rest, Pack(|s.name|), s.name + Body(s.file, s.digest));
      UnpackPack(|s.name|);
    } else {
      Settle(s.server.buf, rest, s.name, Body(s.file, s.digest));
    }
  }

  lemma {:induction false} TurnSize(h: Digest, st: State, s: Session)
    requires Fits(s.name) && Fits(s.digest) && Want(s.server) <= 0 && s.server.SizeHdr?
    requires Tracks(s.server, s.up + s.unsent, s.name, s.file, s.digest)
    ensures Tracks(Turn(h, st, s).1.server, s.up + s.unsent, s.name, s.file, s.digest)
  {
    var rest := s.up + s.unsent;
    assert Fits(s.file);
    assert s.server.buf + rest == Pack(|s.file|) + (s.file + Frame(s.digest));
    Settle(s.server.buf, rest, Pack(|s.file|), s.file + Frame(s.digest));
    UnpackPack(|s.file|);
  }

  lemma {:induction false} TurnContent(h: Digest, st: State, s: Session)
    requires Fits(s.name) && Fits(s.digest) && Want(s.server) <= 0 && s.server.Content?
    requires Tracks(s.server, s.up + s.unsent, s.name, s.file, s.digest) && OnDisk(s.server, s.name, st.recv)
    ensures Tracks(Turn(h, st, s).1.server, s.up + s.unsent, s.name, s.file, s.digest)
  {
    var rest := s.up + s.unsent;
    if s.server.left == 0 {
      assert s.server.seen + s.server.chunk + rest == s.server.seen + rest;
      Settle(s.server.seen, rest, s.file, Frame(s.digest));
    }
  }

  lemma {:induction false} TurnDigest(h: Digest, st: State, s: Session)
    requires Fits(s.name) && Fits(s.digest) && Want(s.server) <= 0 && (s.server.DigestHdr? || s.server.DigestBody?)
    requires Tracks(s.server, s.up + s.unsent, s.name, s.file, s.digest)
    ensures Tracks(Turn(h, st, s).1.server, s.up + s.unsent, s.name, s.file, s.digest)
    ensures s.server.DigestBody? ==> s.server.buf == s.digest
  {
    var rest := s.up + s.unsent;
    if s.server.DigestHdr? {
      Settle(s.server.buf, rest, Pack(|s.digest|), s.digest);
      UnpackPack(|s.digest|);
    } else {
      assert s.digest == s.digest + [];
      Settle(s.server.buf, rest, s.digest, []);
    }
  }

  // ---- every step keeps the invariant ----

  /** Where two versions of the receiving directory agree. */
  predicate Agree(recv: map<Bytes, Bytes>, after: map<Bytes, Bytes>, name: Bytes) {
    (name in recv <==> name in after) && (name in recv ==> recv[name] == after[name])
  }

  lemma {:induction false} OtherOk(h: Digest, files: set<Bytes>, st: State, recv: map<Bytes, Bytes>, tar: map<Bytes, Bytes>, s: Session)
    requires SessionOk(h, files, st.made, st.recv, st.tar, s)
    requires (s.serverOn ==> Agree(st.recv, recv, s.name)) && (s.name in st.tar ==> s.name in tar)
    ensures SessionOk(h, files, st.made, recv, tar, s)
  {
  }

  /** Session `i` becomes `s` and touches no file but its own. */
  lemma {:induction false} PutKeeps(h: Digest, files: set<Bytes>, st: State, after: State, i: nat, s: Session)
    requires Inv(h, files, st) && i < |st.sessions| && after.sessions == st.sessions[i := s] && after.made == st.made
    requires s.name == st.sessions[i].name && (Live(s) ==> Live(st.sessions[i]))
    requires SessionOk(h, files, st.made, after.recv, after.tar, s) && Directories(files, after)
    requires forall n :: n in st.tar ==> n in after.tar
    requires after.recv == st.recv || (Live(st.sessions[i]) && forall n :: n != s.name ==> Agree(st.recv, after.recv, n))
    ensures Inv(h, files, after)
  {
    forall j | 0 <= j < |after.sessions|
      ensures SessionOk(h, files, after.made, after.recv, after.tar, after.sessions[j])
    {
      if j != i {
        assert st.sessions[j].serverOn && st.recv != after.recv ==> st.sessions[j].name != s.name;
        OtherOk(h, files, st, after.recv, after.tar, st.sessions[j]);
      }
    }
  }

  lemma {:induction false} MakeKeeps(h: Digest, files: set<Bytes>, st: State, name: Bytes, file: Bytes)
    requires Inv(h, files, st) && name !in st.made && file in files
    ensures Inv(h, files, Apply(h, st, Make(name, file)))
  {
    var after := Apply(h, st, Make(name, file));
    forall i | 0 <= i < |st.sessions|
      ensures SessionOk(h, files, after.made, after.recv, after.tar, after.sessions[i])
    {
      assert SessionOk(h, files, st.made, st.recv, st.tar, st.sessions[i]);
    }
  }

  lemma {:induction false} StartKeeps(h: Digest, files: set<Bytes>, st: State, name: Bytes, carried: Bytes)
    requires Inv(h, files, st) && carried in files && Enabled(h, st, Start(name, carried))
    ensures Inv(h, files, Apply(h, st, Start(name, carried)))
  {
    var after := Apply(h, st, Start(name, carried));
    var n := |st.sessions|;
    assert [] + ([] + after.sessions[n].unsent) == after.sessions[n].unsent;
    assert SessionOk(h, files, after.made, after.recv, after.tar, after.sessions[n]);
    forall i | 0 <= i < n ensures after.sessions[i] == st.sessions[i] {}
  }

  lemma {:induction false} SendKeeps(h: Digest, files: set<Bytes>, st: State, i: nat, k: nat)
    requires Inv(h, files, st) && Enabled(h, st, Send(i, k))
    ensures Inv(h, files, Apply(h, st, Send(i, k)))
  {
    var s := st.sessions[i];
    var next := s.(up := s.up + s.unsent[..k], unsent := s.unsent[k..]);
    assert next.up + next.unsent == s.up + s.unsent;
    PutKeeps(h, files, st, Put(st, i, next), i, next);
  }

  lemma {:induction false} RecvOk(h: Digest, files: set<Bytes>, st: State, s: Session, k: nat)
    requires SessionOk(h, files, st.made, st.recv, st.tar, s) && 1 <= k <= |s.up| && k <= Want(s.server)
    ensures SessionOk(h, files, st.made, st.recv, st.tar, s.(server := Take(s.server, s.up[..k]), up := s.up[k..]))
  {
    assert s.up[..k] + (s.up[k..] + s.unsent) == s.up + s.unsent;
    TakeTracks(s.server, s.up[..k], s.up[k..] + s.unsent, s.name, s.file, s.digest);
  }

  lemma {:induction false} ServerRecvKeeps(h: Digest, files: set<Bytes>, st: State, i: nat, k: nat)
    requires Inv(h, files, st) && Enabled(h, st, ServerRecv(i, k))
    ensures Inv(h, files, Apply(h, st, ServerRecv(i, k)))
  {
    var s := st.sessions[i];
    RecvOk(h, files, st, s, k);
    var next := s.(server := Take(s.server, s.up[..k]), up := s.up[k..]);
    PutKeeps(h, files, st, Put(st, i, next), i, next);
  }

  lemma {:induction false} ReplyOk(h: Digest, files: set<Bytes>, st: State, s: Session, k: nat)
    requires SessionOk(h, files, st.made, st.recv, st.tar, s) && s.server.Replying? && k <= |s.server.out|
    ensures SessionOk(h, files, st.made, st.recv, st.tar,
                      s.(down := s.down + s.server.out[..k], server := s.server.(out := s.server.out[k..])))
  {
    var out := s.server.out;
    assert s.echo + (s.down + out[..k]) + out[k..] == s.echo + s.down + out;
  }

  lemma {:induction false} ServerSendKeeps(h: Digest, files: set<Bytes>, st: State, i: nat, k: nat)
    requires Inv(h, files, st) && Enabled(h, st, ServerSend(i, k))
    ensures Inv(h, files, Apply(h, st, ServerSend(i, k)))
  {
    var s := st.sessions[i];
    ReplyOk(h, files, st, s, k);
    var next := s.(down := s.down + s.server.out[..k], server := s.server.(out := s.server.out[k..]));
    PutKeeps(h, files, st, Put(st, i, next), i, next);
  }

  lemma {:induction false} EchoOk(h: Digest, files: set<Bytes>, st: State, s: Session, k: nat)
    requires SessionOk(h, files, st.made, st.recv, st.tar, s) && k <= |s.down|
    ensures SessionOk(h, files, st.made, st.recv, st.tar, s.(echo := s.echo + s.down[..k], down := s.down[k..]))
  {
    assert s.echo + s.down[..k] + s.down[k..] == s.echo + s.down;
  }

  lemma {:induction false} ClientRecvKeeps(h: Digest, files: set<Bytes>, st: State, i: nat, k: nat)
    requires Inv(h, files, st) && Enabled(h, st, ClientRecv(i, k))
    ensures Inv(h, files, Apply(h, st, ClientRecv(i, k)))
  {
    var s := st.sessions[i];
    EchoOk(h, files, st, s, k);
    var next := s.(echo := s.echo + s.down[..k], down := s.down[k..]);
    PutKeeps(h, files, st, Put(st, i, next), i, next);
  }

  /** A complete echo is the digest of what the server received. */
  lemma {:induction false} EchoIsDigest(h: Digest, s: Session, tar: map<Bytes, Bytes>)
    requires Echoes(h, s, tar) && |s.echo| >= 4 && EchoWant(s.echo) == 0
    ensures s.echo[4..] == h(s.file) && s.server.Replying?
  {
    var d := h(s.file);
    var frame := s.echo + s.down + s.server.out;
    assert s.echo[..4] == frame[..4] == Pack(|d|);
    UnpackPack(|d|);
    assert s.echo == frame[..|s.echo|];
    assert s.echo == Pack(|d|) + d;
  }

  lemma {:induction false} ClientEndKeeps(h: Digest, files: set<Bytes>, st: State, i: nat)
    requires Inv(h, files, st) && Enabled(h, st, ClientEnd(i))
    ensures Inv(h, files, Apply(h, st, ClientEnd(i)))
  {
    var s := st.sessions[i];
    assert SessionOk(h, files, st.made, st.recv, st.tar, s);
    EchoIsDigest(h, s, st.tar);
    var next := s.(clientOn := false);
    PutKeeps(h, files, st, Apply(h, st, ClientEnd(i)), i, next);
  }

  lemma {:induction false} DiesKeep(h: Digest, files: set<Bytes>, st: State, i: nat, clientOn: bool, serverOn: bool)
    requires Inv(h, files, st) && i < |st.sessions|
    requires (clientOn ==> st.sessions[i].clientOn) && (serverOn ==> st.sessions[i].serverOn)
    ensures Inv(h, files, Put(st, i, st.sessions[i].(clientOn := clientOn, serverOn := serverOn)))
  {
    var s := st.sessions[i].(clientOn := clientOn, serverOn := serverOn);
    assert SessionOk(h, files, st.made, st.recv, st.tar, st.sessions[i]);
    PutKeeps(h, files, st, Put(st, i, s), i, s);
  }

  /** A turn leaves its session in order, and touches no file but its own. */
  ghost predicate TurnOk(h: Digest, files: set<Bytes>, st: State, s: Session) {
    var (after, next) := Turn(h, st, s);
    SessionOk(h, files, st.made, after.recv, after.tar, next) && Directories(files, after) &&
    next.name == s.name && next.clientOn == s.clientOn && (next.serverOn ==> s.serverOn) &&
    after.made == st.made && (forall n :: n in st.tar ==> n in after.tar) &&
    (forall n :: n != s.name ==> Agree(st.recv, after.recv, n))
  }

  ghost predicate TurnReady(h: Digest, files: set<Bytes>, st: State, s: Session) {
    Directories(files, st) && SessionOk(h, files, st.made, st.recv, st.tar, s) && Want(s.server) <= 0 && s.serverOn
  }

  /** The move: what lands in the directory is the tarball itself. */
  lemma {:induction false} TurnOkMove(h: Digest, files: set<Bytes>, st: State, s: Session)
    requires TurnReady(h, files, st, s) && s.server.DigestBody? && Injective(h, files) && IsDigest(h)
    ensures TurnOk(h, files, st, s)
  {
    TurnDigest(h, st, s);
    var d := h(s.file);
    assert [] + [] + Frame(d) == Frame(d);
    if s.server.buf == d {
      assert st.recv[s.name] == s.file == st.made[s.name];
    }
  }

  lemma {:induction false} TurnOkContent(h: Digest, files: set<Bytes>, st: State, s: Session)
    requires TurnReady(h, files, st, s) && s.server.Content?
    ensures TurnOk(h, files, st, s)
  {
    TurnContent(h, st, s);
  }

  lemma {:induction false} TurnOkName(h: Digest, files: set<Bytes>, st: State, s: Session)
    requires TurnReady(h, files, st, s) && s.server.NameBody?
    ensures TurnOk(h, files, st, s)
  {
    TurnName(h, st, s);
  }

  lemma {:induction false} TurnOkHdr(h: Digest, files: set<Bytes>, st: State, s: Session)
    requires TurnReady(h, files, st, s) && (s.server.NameHdr? || s.server.SizeHdr? || s.server.DigestHdr?)
    ensures TurnOk(h, files, st, s)
  {
    match s.server {
      case NameHdr(_) => TurnName(h, st, s);
      case SizeHdr(_, _) => TurnSize(h, st, s);
      case DigestHdr(_, _, _) => TurnDigest(h, st, s);
    }
  }

  lemma {:induction false} TurnKeeps(h: Digest, files: set<Bytes>, st: State, s: Session)
    requires TurnReady(h, files, st, s) && Injective(h, files) && IsDigest(h)
    ensures TurnOk(h, files, st, s)
  {
    match s.server {
      case NameBody(_, _) => TurnOkName(h, files, st, s);
      case Content(_, _, _, _) => TurnOkContent(h, files, st, s);
      case DigestBody(_, _, _, _) => TurnOkMove(h, files, st, s);
      case Replying(_, _) =>
      case _ => TurnOkHdr(h, files, st, s);
    }
  }

  lemma {:induction false} ServerTurnKeeps(h: Digest, files: set<Bytes>, st: State, i: nat)
    requires Inv(h, files, st) && Enabled(h, st, ServerTurn(i)) && Injective(h, files) && IsDigest(h)
    ensures Inv(h, files, Apply(h, st, ServerTurn(i)))
  {
    var s := st.sessions[i];
    assert SessionOk(h, files, st.made, st.recv, st.tar, s);
    TurnKeeps(h, files, st, s);
    PutKeeps(h, files, st, Apply(h, st, ServerTurn(i)), i, Turn(h, st, s).1);
  }

  lemma {:induction false} StepKeeps(h: Digest, files: set<Bytes>, st: State, step: Step)
    requires Inv(h, files, st) && Injective(h, files) && IsDigest(h) && Uses(step, files)
    ensures Inv(h, files, Apply(h, st, step))
  {
    if Enabled(h, st, step) {
      match step {
        case Make(name, file) => MakeKeeps(h, files, st, name, file);
        case Start(name, carried) => StartKeeps(h, files, st, name, carried);
        case Send(i, k) => SendKeeps(h, files, st, i, k);
        case ServerRecv(i, k) => ServerRecvKeeps(h, files, st, i, k);
        case ServerTurn(i) => ServerTurnKeeps(h, files, st, i);
        case ServerSend(i, k) => ServerSendKeeps(h, files, st, i, k);
        case ClientRecv(i, k) => ClientRecvKeeps(h, files, st, i, k);
        case ClientEnd(i) => ClientEndKeeps(h, files, st, i);
        case ClientDies(i) => DiesKeep(h, files, st, i, false, st.sessions[i].serverOn);
        case ServerDies(i) => DiesKeep(h, files, st, i, st.sessions[i].clientOn, false);
      }
    }
  }

  // ---- over whole runs ----

  ghost predicate RunUses(steps: seq<Step>, files: set<Bytes>) {
    forall i :: 0 <= i < |steps| ==> Uses(steps[i], files)
  }

  lemma {:induction false} RunKeeps(h: Digest, files: set<Bytes>, steps: seq<Step>)
    requires IsDigest(h) && Injective(h, files) && RunUses(steps, files)
    ensures Inv(h, files, Run(h, steps))
  {
    if steps != [] {
      RunKeeps(h, files, steps[..|steps| - 1]);
      StepKeeps(h, files, Run(h, steps[..|steps| - 1]), steps[|steps| - 1]);
    }
  }

  /** Every tarball is always in the client's folder or complete in the server's final directory. */
  lemma {:induction false} NothingLost(h: Digest, files: set<Bytes>, steps: seq<Step>, name: Bytes)
    requires IsDigest(h) && Injective(h, files) && RunUses(steps, files) && name in Run(h, steps).made
    ensures var st := Run(h, steps);
            (name in st.folder && st.folder[name] == st.made[name]) || (name in st.tar && st.tar[name] == st.made[name])
  {
    RunKeeps(h, files, steps);
  }

  lemma {:induction false} ApplyKeepsMade(h: Digest, st: State, step: Step, name: Bytes)
    requires name in st.made
    ensures name in Apply(h, st, step).made && Apply(h, st, step).made[name] == st.made[name]
  {
  }

  /** A tarball's content, once made, is the one every later state is measured against. */
  lemma {:induction false} MadeStays(h: Digest, steps: seq<Step>, m: nat, name: Bytes)
    requires m <= |steps| && name in Run(h, steps[..m]).made
    ensures name in Run(h, steps).made && Run(h, steps).made[name] == Run(h, steps[..m]).made[name]
  {
    if m == |steps| {
      assert steps[..m] == steps;
    } else {
      var front := steps[..|steps| - 1];
      assert front[..m] == steps[..m];
      MadeStays(h, front, m, name);
      ApplyKeepsMade(h, Run(h, front), steps[|steps| - 1], name);
    }
  }

  lemma {:induction false} OnlyEndDeletes(h: Digest, st: State, step: Step, name: Bytes)
    requires name in st.folder && name !in Apply(h, st, step).folder
    ensures step.ClientEnd? && Enabled(h, st, step) && st.sessions[step.i].name == name &&
            st.sessions[step.i].echo[4..] == st.sessions[step.i].digest
  {
  }

  /** The folder loses a tarball only while the server holds the same content. */
  lemma {:induction false} DeletedOnlyWhenHeld(h: Digest, files: set<Bytes>, steps: seq<Step>, step: Step, name: Bytes)
    requires IsDigest(h) && Injective(h, files) && RunUses(steps, files)
    requires name in Run(h, steps).folder && name !in Apply(h, Run(h, steps), step).folder
    ensures step.ClientEnd? && name in Run(h, steps).tar && Run(h, steps).tar[name] == Run(h, steps).folder[name]
  {
    var st := Run(h, steps);
    OnlyEndDeletes(h, st, step, name);
    var s := st.sessions[step.i];
    RunKeeps(h, files, steps);
    assert SessionOk(h, files, st.made, st.recv, st.tar, s);
    EchoIsDigest(h, s, st.tar);
  }

  /** An upload that ends deletes its tarball exactly when the file arrived undamaged. */
  lemma {:induction false} EndDeletesIff(h: Digest, files: set<Bytes>, steps: seq<Step>, i: nat)
    requires IsDigest(h) && Injective(h, files) && RunUses(steps, files)
    requires Enabled(h, Run(h, steps), ClientEnd(i))
    ensures var st := Run(h, steps);
            var s := st.sessions[i];
            s.name in st.made &&
            Apply(h, st, ClientEnd(i)).folder ==
            if s.file == st.made[s.name] then st.folder - {s.name} else st.folder
  {
    RunKeeps(h, files, steps);
    var st := Run(h, steps);
    var s := st.sessions[i];
    assert SessionOk(h, files, st.made, st.recv, st.tar, s);
    EchoIsDigest(h, s, st.tar);
  }

  // ---- an undisturbed session goes on to its end ----

  /** A step of session `i` that is not a death and does something. */
  predicate Progresses(st: State, i: nat, step: Step) {
    match step
    case Send(j, k) => j == i && k > 0
    case ServerRecv(j, _) => j == i
    case ServerTurn(j) => j == i && i < |st.sessions| && !st.sessions[i].server.Replying?
    case ServerSend(j, k) => j == i && k > 0
    case ClientRecv(j, _) => j == i
    case ClientEnd(j) => j == i
    case _ => false
  }

  /** What the server asks for is always on its way. */
  lemma {:induction false} NeverStarves(s: Server, rest: Bytes, name: Bytes, file: Bytes, digest: Bytes)
    requires Fits(name) && Fits(digest) && Fits(file) && Tracks(s, rest, name, file, digest)
    ensures Want(s) <= |rest|
  {
    match s {
      case NameHdr(buf) => assert |buf + rest| == |Frame(name) + Body(file, digest)|;
      case NameBody(_, buf) => assert |buf + rest| == |name + Body(file, digest)|;
      case SizeHdr(_, buf) => assert |buf + rest| == |Body(file, digest)|;
      case Content(_, _, seen, chunk) => assert |seen + chunk + rest| == |file + Frame(digest)|;
      case DigestHdr(_, _, buf) => assert |buf + rest| == |Frame(digest)|;
      case DigestBody(_, _, _, buf) => assert |buf + rest| == |digest|;
      case Replying(_, _) =>
    }
  }

  lemma {:induction false} EchoComplete(h: Digest, s: Session, tar: map<Bytes, Bytes>)
    requires Echoes(h, s, tar) && s.server.Replying?
    ensures |s.echo| < 4 ==> EchoWant(s.echo) + |s.echo| <= |Frame(h(s.file))|
    ensures |s.echo| >= 4 ==> EchoWant(s.echo) + |s.echo| == |Frame(h(s.file))|
  {
    if |s.echo| >= 4 {
      var d := h(s.file);
      var frame := s.echo + s.down + s.server.out;
      assert s.echo[..4] == frame[..4] == Pack(|d|);
      UnpackPack(|d|);
    }
  }

  /** While both sides live, a session can always go on. */
  lemma {:induction false} NoDeadlock(h: Digest, files: set<Bytes>, st: State, i: nat) returns (step: Step)
    requires Inv(h, files, st) && i < |st.sessions| && Fits(st.sessions[i].file)
    requires st.sessions[i].clientOn && st.sessions[i].serverOn
    ensures Enabled(h, st, step) && Progresses(st, i, step)
  {
    var s := st.sessions[i];
    assert SessionOk(h, files, st.made, st.recv, st.tar, s);
    if s.unsent != [] {
      step := Send(i, 1);
    } else if !s.server.Replying? {
      if Want(s.server) <= 0 {
        step := ServerTurn(i);
      } else {
        NeverStarves(s.server, s.up + s.unsent, s.name, s.file, s.digest);
        step := ServerRecv(i, 1);
      }
    } else if s.server.out != [] {
      step := ServerSend(i, 1);
    } else {
      EchoComplete(h, s, st.tar);
      step := if s.down != [] then ClientRecv(i, 1) else ClientEnd(i);
    }
  }

  /** An upper bound on the steps a session still has to take. */
  function Work(s: Session): int {
    2 * |s.unsent| + |s.up| + ServerWork(s.server, |s.file|) + |s.down| + if s.clientOn then 1 else 0
  }

  function ServerWork(s: Server, size: nat): int {
    match s
    case NameHdr(_) => 105 + size
    case NameBody(_, _) => 104 + size
    case SizeHdr(_, _) => 103 + size
    case Content(_, left, _, _) => 102 + left
    case DigestHdr(_, _, _) => 101
    case DigestBody(_, _, _, _) => 100
    case Replying(_, out) => 2 * |out|
  }

  lemma {:induction false} SizeTurnCosts(h: Digest, st: State, s: Session)
    requires Fits(s.name) && Fits(s.digest) && Want(s.server) <= 0 && s.server.SizeHdr?
    requires Tracks(s.server, s.up + s.unsent, s.name, s.file, s.digest)
    ensures ServerWork(Turn(h, st, s).1.server, |s.file|) < ServerWork(s.server, |s.file|)
  {
    TurnSize(h, st, s);
  }

  lemma {:induction false} TurnCosts(h: Digest, st: State, s: Session)
    requires Fits(s.name) && Fits(s.digest) && Want(s.server) <= 0 && s.serverOn && IsDigest(h)
    requires Tracks(s.server, s.up + s.unsent, s.name, s.file, s.digest) && OnDisk(s.server, s.name, st.recv)
    requires !s.server.Replying?
    ensures Work(Turn(h, st, s).1) < Work(s)
  {
    if s.server.SizeHdr? {
      SizeTurnCosts(h, st, s);
    }
  }

  lemma {:induction false} OtherCosts(h: Digest, st: State, i: nat, step: Step)
    requires Enabled(h, st, step) && Progresses(st, i, step) && !step.ServerTurn?
    ensures i < |st.sessions| && Work(Apply(h, st, step).sessions[i]) < Work(st.sessions[i])
  {
  }

  lemma {:induction false} WorkIsNatural(h: Digest, files: set<Bytes>, st: State, i: nat)
    requires Inv(h, files, st) && i < |st.sessions|
    ensures Work(st.sessions[i]) >= 0
  {
    assert SessionOk(h, files, st.made, st.recv, st.tar, st.sessions[i]);
  }

  /** Every step of a session brings it closer to its end: an undisturbed upload is bounded. */
  lemma {:induction false} ProgressEnds(h: Digest, files: set<Bytes>, st: State, i: nat, step: Step)
    requires Inv(h, files, st) && i < |st.sessions| && IsDigest(h) && Injective(h, files)
    requires Enabled(h, st, step) && Progresses(st, i, step)
    ensures 0 <= Work(Apply(h, st, step).sessions[i]) < Work(st.sessions[i])
  {
    assert 0 <= Work(Apply(h, st, step).sessions[i]) by {
      StepKeeps(h, files, st, step);
      WorkIsNatural(h, files, Apply(h, st, step), i);
    }
    if step.ServerTurn? {
      assert SessionOk(h, files, st.made, st.recv, st.tar, st.sessions[i]);
      TurnCosts(h, st, st.sessions[i]);
    } else {
      OtherCosts(h, st, i, step);
    }
  }

  // ---- an interrupted upload can be made good ----

  lemma {:induction false} RunNext(h: Digest, steps: seq<Step>, step: Step)
    ensures Run(h, steps + [step]) == Apply(h, Run(h, steps), step)
  {
    assert (steps + [step])[..|steps|] == steps;
  }

  /** Session `i` carries the tarball undamaged, and both its sides live. */
  ghost predicate Sound(st: State, i: nat, name: Bytes) {
    i < |st.sessions| && st.sessions[i].name == name && st.sessions[i].clientOn && st.sessions[i].serverOn &&
    name in st.made && st.sessions[i].file == st.made[name] && Fits(st.made[name])
  }

  lemma {:induction false} TurnStaysOn(h: Digest, st: State, s: Session)
    requires Fits(s.name) && Fits(s.digest) && s.serverOn && IsDigest(h) && Want(s.server) <= 0
    requires Tracks(s.server, s.up + s.unsent, s.name, s.file, s.digest)
    ensures Turn(h, st, s).1.serverOn && Turn(h, st, s).1.clientOn == s.clientOn
    ensures Turn(h, st, s).1.file == s.file && Turn(h, st, s).1.name == s.name
  {
  }

  /** Until it ends, a step of a sound session leaves it sound. */
  lemma {:induction false} ProgressStaysSound(h: Digest, files: set<Bytes>, st: State, i: nat, name: Bytes, step: Step)
    requires Inv(h, files, st) && IsDigest(h) && Sound(st, i, name)
    requires Enabled(h, st, step) && Progresses(st, i, step) && !step.ClientEnd?
    ensures Sound(Apply(h, st, step), i, name)
  {
    var s := st.sessions[i];
    assert SessionOk(h, files, st.made, st.recv, st.tar, s);
    if step.ServerTurn? {
      TurnStaysOn(h, st, s);
      TurnKeepsMade(h, st, s);
    }
  }

  lemma {:induction false} TurnKeepsMade(h: Digest, st: State, s: Session)
    ensures Turn(h, st, s).0.made == st.made
  {
  }

  /** A sound session can go on until its tarball has moved to the server. */
  lemma {:induction false} Finishes(h: Digest, files: set<Bytes>, steps: seq<Step>, i: nat, name: Bytes) returns (all: seq<Step>)
    requires IsDigest(h) && Injective(h, files) && RunUses(steps, files) && Sound(Run(h, steps), i, name)
    ensures steps <= all && RunUses(all, files) && name in Run(h, all).made && name !in Run(h, all).folder
    decreases if i < |Run(h, steps).sessions| then Work(Run(h, steps).sessions[i]) else 0
  {
    var st := Run(h, steps);
    RunKeeps(h, files, steps);
    var step := NoDeadlock(h, files, st, i);
    var more := steps + [step];
    RunNext(h, steps, step);
    assert RunUses(more, files);
    WorkIsNatural(h, files, st, i);
    ProgressEnds(h, files, st, i, step);
    if step.ClientEnd? {
      EndDeletesIff(h, files, steps, i);
      ApplyKeepsMade(h, st, step, name);
      all := more;
    } else {
      ProgressStaysSound(h, files, st, i, name, step);
      all := Finishes(h, files, more, i, name);
    }
  }

  lemma {:induction false} LiveSession(st: State, name: Bytes) returns (i: nat)
    ensures i <= |st.sessions| && (i < |st.sessions| ==> st.sessions[i].name == name && Live(st.sessions[i]))
    ensures i == |st.sessions| ==> forall j :: 0 <= j < |st.sessions| && st.sessions[j].name == name ==> !Live(st.sessions[j])
  {
    i := 0;
    while i < |st.sessions| && !(st.sessions[i].name == name && Live(st.sessions[i]))
      invariant i <= |st.sessions|
      invariant forall j :: 0 <= j < i && st.sessions[j].name == name ==> !Live(st.sessions[j])
    {
      i := i + 1;
    }
  }

  /** Once no side of an upload lives, the next scan of the folder can start it anew. */
  lemma {:induction false} Restarts(h: Digest, files: set<Bytes>, steps: seq<Step>, name: Bytes) returns (all: seq<Step>)
    requires IsDigest(h) && Injective(h, files) && RunUses(steps, files)
    requires name in Run(h, steps).folder && Fits(name) && Fits(Run(h, steps).folder[name])
    requires forall j :: 0 <= j < |Run(h, steps).sessions| && Run(h, steps).sessions[j].name == name ==>
               !Live(Run(h, steps).sessions[j])
    ensures steps <= all && RunUses(all, files) && name in Run(h, all).made && name !in Run(h, all).folder
  {
    var st := Run(h, steps);
    RunKeeps(h, files, steps);
    var step := Start(name, st.folder[name]);
    assert Enabled(h, st, step);
    RunNext(h, steps, step);
    var more := steps + [step];
    assert RunUses(more, files);
    assert Sound(Run(h, more), |st.sessions|, name);
    all := Finishes(h, files, more, |st.sessions|, name);
  }

  /** The death of one side leaves the other side, the stream and all files as they are. */
  lemma {:induction false} DeathTouches(h: Digest, st: State, i: nat)
    requires i < |st.sessions|
    ensures var s := st.sessions[i];
            Apply(h, st, ClientDies(i)) == st.(sessions := st.sessions[i := s.(clientOn := false)]) &&
            Apply(h, st, ServerDies(i)) == st.(sessions := st.sessions[i := s.(serverOn := false)])
  {
  }

  /** The deaths of both sides of a session. */
  function Deaths(i: nat): seq<Step> {
    [ClientDies(i), ServerDies(i)]
  }

  lemma {:induction false} DeathsEnd(h: Digest, steps: seq<Step>, i: nat)
    requires i < |Run(h, steps).sessions|
    ensures var st, after := Run(h, steps), Run(h, steps + Deaths(i));
            after == st.(sessions := st.sessions[i := st.sessions[i].(clientOn := false, serverOn := false)])
  {
    RunNext(h, steps, ClientDies(i));
    RunNext(h, steps + [ClientDies(i)], ServerDies(i));
    assert steps + [ClientDies(i)] + [ServerDies(i)] == steps + Deaths(i);
  }

  /**
   From every reachable state, whatever died before, every tarball in the folder can still be brought
   complete into the server's final directory, and leaves the folder then.
   */
  lemma {:induction false} CanStillArrive(h: Digest, files: set<Bytes>, steps: seq<Step>, name: Bytes) returns (all: seq<Step>)
    requires IsDigest(h) && Injective(h, files) && RunUses(steps, files)
    requires name in Run(h, steps).folder && Fits(name) && Fits(Run(h, steps).folder[name])
    ensures steps <= all && RunUses(all, files) && name !in Run(h, all).folder
    ensures name in Run(h, all).tar && Run(h, all).tar[name] == Run(h, steps).folder[name]
  {
    var st := Run(h, steps);
    RunKeeps(h, files, steps);
    var i := LiveSession(st, name);
    if i < |st.sessions| {
      var dead := steps + Deaths(i);
      DeathsEnd(h, steps, i);
      assert RunUses(dead, files);
      OnlyOneLives(h, files, st, i);
      all := Restarts(h, files, dead, name);
    } else {
      all := Restarts(h, files, steps, name);
    }
    NothingLost(h, files, all, name);
    assert all[..|steps|] == steps;
    MadeStays(h, all, |steps|, name);
  }

  lemma {:induction false} OnlyOneLives(h: Digest, files: set<Bytes>, st: State, i: nat)
    requires Inv(h, files, st) && i < |st.sessions| && Live(st.sessions[i])
    ensures forall j :: 0 <= j < |st.sessions| && j != i && st.sessions[j].name == st.sessions[i].name ==> !Live(st.sessions[j])
  {
    assert forall j :: i < j < |st.sessions| ==> st.sessions[j].name != st.sessions[i].name;
  }
}
