/** The bounded streaming checksum (package `checksum`). */
module Checksum {
  import opened Domain
  import opened Trees

  /** A hash as a fold over bytes; `finish` encodes the final state. */
  datatype Hash<!S> = Hash(start: S, absorb: (S, Byte) -> S, finish: S -> string)

  function Absorb<S>(h: Hash<S>, s: S, data: Bytes): S {
    if data == [] then s else h.absorb(Absorb(h, s, data[..|data| - 1]), data[|data| - 1])
  }

  function HashOf<S>(h: Hash<S>, data: Bytes): string {
    h.finish(Absorb(h, h.start, data))
  }

  /** The hash takes one byte after the other and encodes the state after the last. */
  lemma HashIsFold<S>(h: Hash<S>, data: Bytes, b: Byte)
    ensures HashOf(h, []) == h.finish(h.start)
    ensures Absorb(h, h.start, []) == h.start
    ensures Absorb(h, h.start, data + [b]) == h.absorb(Absorb(h, h.start, data), b)
    ensures HashOf(h, data + [b]) == h.finish(h.absorb(Absorb(h, h.start, data), b))
  {
    assert (data + [b])[..|data|] == data;
  }

  /** Writing in chunks is writing at once. */
  lemma {:induction false} AbsorbChunks<S>(h: Hash<S>, s: S, a: Bytes, b: Bytes)
    ensures Absorb(h, s, a + b) == Absorb(h, Absorb(h, s, a), b)
  {
    if b == [] {
      assert a + b == a;
    } else {
      var init := b[..|b| - 1];
      AbsorbChunks(h, s, a, init);
      assert (a + b)[..|a + b| - 1] == a + init;
    }
  }

  /** What a read reports besides its bytes. */
  datatype ReadStatus = More | Eof | ReadError

  /** An io.Reader over a finite stream. Its script says, call by call, the most it will hand over and
      whether it reports the end together with the last bytes; it may hand over nothing. After the script
      it fills every buffer. `failsAt` is the call on which it fails, if any. */
  class Reader {
    var rest: Bytes
    var script: seq<(nat, bool)>
    var failsAt: Option<nat>

    constructor (stream: Bytes, script: seq<(nat, bool)>, failsAt: Option<nat>)
      ensures rest == stream && this.script == script && this.failsAt == failsAt
    {
      this.rest, this.script, this.failsAt := stream, script, failsAt;
    }

    method Read(capacity: nat) returns (data: Bytes, status: ReadStatus)
      modifies this
      ensures data + rest == old(rest) && |data| <= capacity
      ensures status == Eof ==> rest == []
      ensures status == ReadError <==> old(failsAt) == Some(0)
      ensures old(failsAt).None? ==> failsAt.None?
      ensures |script| <= |old(script)|
      ensures capacity > 0 && status == More ==> |script| < |old(script)| || |rest| < |old(rest)|
    {
      if failsAt == Some(0) {
        data, status := [], ReadError;
        return;
      }
      if failsAt.Some? { failsAt := Some(failsAt.value - 1); }
      var most, eager := capacity, false;
      if script != [] {
        most, eager := script[0].0, script[0].1;
        script := script[1..];
      }
      var n := if most < capacity then most else capacity;
      if n > |rest| { n := |rest|; }
      data := rest[..n];
      var had := rest;
      rest := rest[n..];
      assert data + rest == had;
      status := if rest == [] && (data == [] || eager) then Eof else More;
    }
  }

  datatype Options = Options(maxSize: nat, bufferSize: nat)

  datatype Algorithm = MD5 | SHA256 | Other(name: string)

  datatype Error = UnsupportedAlgorithm | TooLarge | ReadFailed

  datatype Result = Ok(sum: string) | Err(error: Error)

  /** For any reader that does not fail, however it splits the stream, and any positive buffer: the hash of
      the whole stream when it fits the bound (or there is none), and an error when it is longer. */
  method Calculate<S>(opts: Options, reader: Reader, algo: Algorithm, md5: Hash<S>, sha256: Hash<S>) returns (r: Result)
    requires opts.bufferSize > 0
    modifies reader
    ensures algo.Other? ==> r == Err(UnsupportedAlgorithm)
    ensures !algo.Other? && old(reader.failsAt).None? ==>
              r == if opts.maxSize == 0 || |old(reader.rest)| <= opts.maxSize
                   then Ok(HashOf(if algo == MD5 then md5 else sha256, old(reader.rest))) else Err(TooLarge)
    ensures r.Ok? ==> r == Ok(HashOf(if algo == MD5 then md5 else sha256, old(reader.rest)))
                      && (opts.maxSize > 0 ==> |old(reader.rest)| <= opts.maxSize)
  {
    match algo {
      case MD5 => r := Stream(opts, reader, md5);
      case SHA256 => r := Stream(opts, reader, sha256);
      case Other(_) => r := Err(UnsupportedAlgorithm);
    }
  }

  lemma Regroup(a: Bytes, b: Bytes, c: Bytes)
    ensures (a + b) + c == a + (b + c)
  {
  }

  /** The streaming loop for a chosen hash. */
  method Stream<S>(opts: Options, reader: Reader, h: Hash<S>) returns (r: Result)
    requires opts.bufferSize > 0
    modifies reader
    ensures old(reader.failsAt).None? ==>
              r == if opts.maxSize == 0 || |old(reader.rest)| <= opts.maxSize
                   then Ok(HashOf(h, old(reader.rest))) else Err(TooLarge)
    ensures r.Ok? ==> r == Ok(HashOf(h, old(reader.rest))) && (opts.maxSize > 0 ==> |old(reader.rest)| <= opts.maxSize)
  {
    ghost var stream, seen: Bytes := reader.rest, [];
    assert seen + stream == stream;
    var limit := opts.maxSize + 1;
    var state := h.start;
    var totalBytes := 0;
    var status := More;
    while status == More
      invariant seen + reader.rest == stream && totalBytes == |seen|
      invariant state == Absorb(h, h.start, seen)
      invariant opts.maxSize > 0 ==> totalBytes <= opts.maxSize && limit == opts.maxSize + 1 - totalBytes
      invariant old(reader.failsAt).None? ==> reader.failsAt.None? && status != ReadError
      invariant status == Eof ==> reader.rest == []
      decreases status == More, |reader.script| + |reader.rest|
    {
      // io.LimitReader hands out at most `limit` more bytes; here it is never exhausted.
      var capacity := opts.bufferSize;
      if opts.maxSize > 0 && limit < capacity { capacity := limit; }
      var data;
      data, status := reader.Read(capacity);
      if opts.maxSize > 0 { limit := limit - |data|; }
      if |data| > 0 {
        totalBytes := totalBytes + |data|;
        AbsorbChunks(h, h.start, seen, data);
        Regroup(seen, data, reader.rest);
        seen := seen + data;
        if opts.maxSize > 0 && totalBytes > opts.maxSize { return Err(TooLarge); }
        state := Absorb(h, state, data);
      } else {
        assert data + reader.rest == reader.rest;
      }
    }
    if status == ReadError { return Err(ReadFailed); }
    assert seen == stream;
    return Ok(h.finish(state));
  }
}
