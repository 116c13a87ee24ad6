/**
 The byte stream of the uploader (`client_tools/data_uploader/uploader_client.py` and
 `server_tools/data_uploader/uploader_server.py`): four-byte signed big-endian lengths, a name, a
 file in chunks and its digest. A socket may hand over any non-empty part of what was asked for.
 */
module Framing {
  import opened Sequences

  type Bytes = seq<byte>

  const LIMIT := 0x8000_0000

  /** Lengths that `struct.pack("!i", n)` accepts. */
  predicate Packs(n: int) {
    -LIMIT <= n < LIMIT
  }

  lemma {:induction false} PacksIff(n: int)
    ensures Packs(n) <==> -2147483648 <= n <= 2147483647
  {
  }

  function Unsigned(a: int, b: int, c: int, d: int): int {
    a * 0x100_0000 + b * 0x1_0000 + c * 0x100 + d
  }

  function Pack(n: int): (r: Bytes)
    requires Packs(n)
    ensures |r| == 4
  {
    var u := if n < 0 then n + 0x1_0000_0000 else n;
    [u / 0x100_0000, u / 0x1_0000 % 0x100, u / 0x100 % 0x100, u % 0x100]
  }

  function Unpack(b: Bytes): (n: int)
    requires |b| == 4
    ensures Packs(n)
  {
    var u := Unsigned(b[0] as int, b[1] as int, b[2] as int, b[3] as int);
    if u >= LIMIT then u - 0x1_0000_0000 else u
  }

  lemma {:induction false} DigitsOf(u: int)
    requires 0 <= u < 0x1_0000_0000
    ensures Unsigned(u / 0x100_0000, u / 0x1_0000 % 0x100, u / 0x100 % 0x100, u % 0x100) == u
  {
    assert u / 0x1_0000 == u / 0x100 / 0x100;
    assert u / 0x100_0000 == u / 0x1_0000 / 0x100;
  }

  lemma {:induction false} UnpackPack(n: int)
    requires Packs(n)
    ensures Unpack(Pack(n)) == n
  {
    DigitsOf(if n < 0 then n + 0x1_0000_0000 else n);
  }

  lemma {:induction false} PackUnpack(b: Bytes)
    requires |b| == 4
    ensures Pack(Unpack(b)) == b
  {
    var a0, a1, a2, a3 := b[0] as int, b[1] as int, b[2] as int, b[3] as int;
    var u := Unsigned(a0, a1, a2, a3);
    assert u / 0x100 == a0 * 0x1_0000 + a1 * 0x100 + a2;
    assert u / 0x1_0000 == a0 * 0x100 + a1;
    assert u / 0x100_0000 == a0;
  }

  /** Network byte order, in two's complement: the first byte counts most. */
  lemma {:induction false} PackIsBigEndian(n: int)
    requires Packs(n)
    ensures var b := Pack(n);
            16777216 * b[0] as int + 65536 * b[1] as int + 256 * b[2] as int + b[3] as int == if n < 0 then n + 4294967296 else n
  {
    DigitsOf(if n < 0 then n + 0x1_0000_0000 else n);
  }

  // ---- messages ----

  predicate Fits(b: Bytes) {
    |b| < LIMIT
  }

  /** A length and that many bytes. */
  function Frame(b: Bytes): (r: Bytes)
    requires Fits(b)
    ensures |r| == 4 + |b|
  {
    Pack(|b|) + b
  }

  /** What the client sends for one file. */
  function Message(name: Bytes, file: Bytes, digest: Bytes): Bytes
    requires Fits(name) && Fits(file) && Fits(digest)
  {
    Frame(name) + (Frame(file) + Frame(digest))
  }

  /** `Md5.hexdigest`. */
  type Digest = Bytes -> Bytes

  ghost predicate IsDigest(h: Digest) {
    forall x :: |h(x)| == 32
  }

  datatype Received = Received(name: Bytes, file: Bytes, digest: Bytes)

  const CHUNK := 4096

  class Socket {
    var input: Bytes
    var output: Bytes

    constructor (incoming: Bytes)
      ensures input == incoming && output == []
    {
      input, output := incoming, [];
    }

    /** `recv`: any non-empty part of the next `n` bytes. */
    method Recv(n: nat) returns (tmp: Bytes)
      requires n > 0 && input != []
      modifies this`input
      ensures 0 < |tmp| <= n && old(input) == tmp + input
    {
      var k :| 1 <= k <= n && k <= |input|;
      tmp := input[..k];
      input := input[k..];
    }

    method SendAll(msg: Bytes)
      modifies this`output
      ensures output == old(output) + msg
    {
      output := output + msg;
    }

    /** `_recv_msg`; it waits for ever on a stream that ends too soon. */
    method RecvMsg(length: nat) returns (msg: Bytes)
      requires length <= |input|
      modifies this`input
      ensures msg == old(input)[..length] && input == old(input)[length..]
    {
      msg := [];
      var left := length;
      while left != 0
        invariant 0 <= left && left + |msg| == length && left <= |input| && msg + input == old(input)
      {
        var tmp := Recv(left);
        msg := msg + tmp;
        left := left - |tmp|;
      }
      assert (msg + input)[..length] == msg;
    }

    /** A frame, whatever the parts it arrives in. */
    method RecvFrame(ghost b: Bytes, ghost rest: Bytes) returns (msg: Bytes)
      requires Fits(b) && input == Frame(b) + rest
      modifies this`input
      ensures msg == b && input == rest
    {
      var hdr := RecvMsg(4);
      assert hdr == Pack(|b|) && input == b + rest;
      UnpackPack(|b|);
      msg := RecvMsg(Unpack(hdr));
    }

    /** The file, in chunks. */
    method RecvFile(size: nat) returns (file: Bytes)
      requires size <= |input|
      modifies this`input
      ensures file == old(input)[..size] && input == old(input)[size..]
    {
      file := [];
      var left := size;
      while left > 0
        invariant 0 <= left && left + |file| == size && left <= |input| && file + input == old(input)
      {
        var chunkSize := if left > CHUNK then CHUNK else left;
        var chunk := RecvMsg(chunkSize);
        left := left - chunkSize;
        file := file + chunk;
      }
      assert (file + input)[..size] == file;
    }

    /** The receiving half of a server session gets back what was sent. */
    method ReceiveAll(ghost sent: Received, ghost rest: Bytes) returns (r: Received)
      requires Fits(sent.name) && Fits(sent.file) && Fits(sent.digest)
      requires input == Message(sent.name, sent.file, sent.digest) + rest
      modifies this`input
      ensures r == sent && input == rest
    {
      ghost var tail := Frame(sent.digest) + rest;
      assert input == Frame(sent.name) + (Frame(sent.file) + tail);
      var name := RecvFrame(sent.name, Frame(sent.file) + tail);
      var hdr := RecvMsg(4);
      assert hdr == Pack(|sent.file|) && input == sent.file + tail;
      UnpackPack(|sent.file|);
      var file := RecvFile(Unpack(hdr));
      var digest := RecvFrame(sent.digest, rest);
      r := Received(name, file, digest);
    }

    /** The sending half of a client session; a file too long for its length field raises halfway. */
    method SendUpload(name: Bytes, file: Bytes, h: Digest) returns (r: Outcome<Bytes>)
      requires IsDigest(h)
      modifies this`output
      ensures r == if Fits(name) && Fits(file) then Done(h(file)) else Raised(StructError)
      ensures r.Done? ==> output == old(output) + Message(name, file, h(file))
      ensures r.Raised? ==> output == old(output) + if Fits(name) then Frame(name) else []
    {
      if |name| >= LIMIT {
        return Raised(StructError);
      }
      SendFrame(name);
      if |file| >= LIMIT {
        return Raised(StructError);
      }
      SendAll(Pack(|file|));
      var seen := SendFile(file);
      assert output == old(output) + Frame(name) + Frame(file);
      var digest := h(seen);
      SendFrame(digest);
      assert output == old(output) + Message(name, file, digest);
      return Done(digest);
    }

    method SendFrame(b: Bytes)
      requires Fits(b)
      modifies this`output
      ensures output == old(output) + Frame(b)
    {
      SendAll(Pack(|b|));
      SendAll(b);
    }

    method SendFile(file: Bytes) returns (seen: Bytes)
      modifies this`output
      ensures output == old(output) + file && seen == file
    {
      seen := [];
      var left := |file|;
      while left > 0
        invariant 0 <= left <= |file| && seen == file[..|file| - left] && output == old(output) + seen
      {
        var chunkSize := if left > CHUNK then CHUNK else left;
        var chunk := file[|file| - left..|file| - left + chunkSize];
        SendAll(chunk);
        seen := seen + chunk;
        left := left - |chunk|;
      }
    }
  }
}
