/** The sender's view of the input file: chunks, packets and the payload stream
    they carry (N-Channel-StopNWait/utils.h and the batch loop of client.c). */
module Payload {

  type Byte = x: int | 0 <= x < 256

  /** The value of eof_seq_no until the end of the input has been seen: (uint64_t) -1. */
  const NO_EOF: nat := 0xFFFF_FFFF_FFFF_FFFF

  /** The input file, PACKET_SIZE and NUM_CHANNELS. */
  datatype Config = Config(input: seq<Byte>, chunk: nat, channels: nat) {
    ghost predicate Valid() {
      1 <= chunk && 1 <= channels && |input| < NO_EOF
    }
  }

  datatype Header = Header(size: nat, seqNo: nat, isLast: bool, isAck: bool, channel: Byte)

  datatype Packet = Packet(header: Header, data: seq<Byte>)

  function Min(a: int, b: int): int {
    if a <= b then a else b
  }

  function Zeros(n: nat): (z: seq<Byte>)
    ensures |z| == n
    ensures forall j :: 0 <= j < n ==> z[j] == 0
  {
    seq(n, _ => 0)
  }

  // ---------------------------------------------------------------------
  // What the code computes
  // ---------------------------------------------------------------------

  /** strncpy(dst, src, n) as the value of dst: copies up to the first NUL, then pads with NULs. */
  function StrNCpy(src: seq<Byte>, n: nat): (dst: seq<Byte>)
    ensures |dst| == n
  {
    if n == 0 then []
    else if src == [] || src[0] == 0 then Zeros(n)
    else [src[0]] + StrNCpy(src[1..], n - 1)
  }

  /** One call of get_next_chunk at file offset `pos`: the C string left in the buffer,
      the payload size, the end-of-file flag and the new file offset. */
  datatype Chunk = Chunk(text: seq<Byte>, size: nat, eof: bool, pos: nat)

  function NextChunk(input: seq<Byte>, chunk: nat, pos: nat): (c: Chunk)
    requires pos <= |input|
    ensures c.size == |c.text| <= chunk && pos + c.size <= c.pos <= |input|
  {
    var ret := Min(chunk, |input| - pos);
    var size := if ret < chunk && ret > 0 then ret - 1 else ret;
    Chunk(input[pos..pos + size], size, ret < chunk, pos + ret)
  }

  // ---------------------------------------------------------------------
  // What it is meant to transport
  // ---------------------------------------------------------------------

  ghost predicate HasNul(s: seq<Byte>, lo: int, hi: int)
    requires 0 <= lo <= hi <= |s|
  {
    exists j :: lo <= j < hi && s[j] == 0
  }

  /** The whole input, except that its last byte is lost when the length is not a
      multiple of the chunk size. */
  function StreamLength(cfg: Config): nat
    requires cfg.Valid()
  {
    if |cfg.input| % cfg.chunk == 0 then |cfg.input| else |cfg.input| - 1
  }

  ghost function StreamByte(cfg: Config, j: nat): Byte
    requires cfg.Valid() && j < |cfg.input|
  {
    // within a chunk, everything from the first NUL on reads as NUL
    if HasNul(cfg.input, j - j % cfg.chunk, j + 1) then 0 else cfg.input[j]
  }

  /** The payload stream P. */
  ghost function Stream(cfg: Config): (p: seq<Byte>)
    requires cfg.Valid()
    ensures |p| == StreamLength(cfg)
  {
    seq(StreamLength(cfg), j requires 0 <= j < StreamLength(cfg) => StreamByte(cfg, j))
  }

  /** Byte offset of packet k. */
  function Off(cfg: Config, k: nat): (o: nat)
    requires cfg.Valid()
    ensures o <= StreamLength(cfg)
  {
    Min(k * cfg.chunk, StreamLength(cfg))
  }

  lemma MulLe(a: int, b: int, c: nat)
    requires a <= b
    ensures a * c <= b * c
  {
  }

  lemma OffMonotone(cfg: Config, j: nat, k: nat)
    requires cfg.Valid() && j <= k
    ensures Off(cfg, j) <= Off(cfg, k)
  {
    MulLe(j, k, cfg.chunk);
  }

  /** The payload of packet k. */
  ghost function Part(cfg: Config, k: nat): (p: seq<Byte>)
    requires cfg.Valid()
    ensures |p| == Off(cfg, k + 1) - Off(cfg, k) <= cfg.chunk
  {
    OffMonotone(cfg, k, k + 1);
    assert (k + 1) * cfg.chunk == k * cfg.chunk + cfg.chunk;
    Stream(cfg)[Off(cfg, k)..Off(cfg, k + 1)]
  }

  /** The number of data packets a complete transfer consists of: one per full chunk, one
      for the remainder, and an empty one after a non-empty remainder unless that remainder
      went out on the last channel of its batch. */
  function Total(cfg: Config): (t: nat)
    requires cfg.Valid()
    ensures t >= 1
  {
    var q := |cfg.input| / cfg.chunk;
    var r := |cfg.input| % cfg.chunk;
    if r > 1 && (q + 1) % cfg.channels != 0 then q + 2 else q + 1
  }

  // ---------------------------------------------------------------------
  // Arithmetic of chunk boundaries
  // ---------------------------------------------------------------------

  lemma DivModUnique(n: int, d: int, q: int, r: int)
    requires 0 < d && 0 <= r < d && n == q * d + r
    ensures n / d == q && n % d == r
  {
    var p := n / d;
    assert p * d <= n < p * d + d;
    assert (q + 1) * d == q * d + d && (p + 1) * d == p * d + d;
    if q < p {
      MulLe(q + 1, p, d);
    } else if p < q {
      MulLe(p + 1, q, d);
    }
  }

  lemma InChunk(cfg: Config, k: nat, d: nat)
    requires cfg.Valid() && d < cfg.chunk
    ensures (k * cfg.chunk + d) % cfg.chunk == d
  {
    DivModUnique(k * cfg.chunk + d, cfg.chunk, k, d);
  }

  /** A full chunk k: its packet has exactly the chunk's bounds and is not the last one. */
  lemma FullChunk(cfg: Config, k: nat)
    requires cfg.Valid() && (k + 1) * cfg.chunk <= |cfg.input|
    ensures (k + 1) * cfg.chunk <= StreamLength(cfg)
    ensures k * cfg.chunk + cfg.chunk == (k + 1) * cfg.chunk
    ensures k + 2 <= Total(cfg)
  {
    var q, r := |cfg.input| / cfg.chunk, |cfg.input| % cfg.chunk;
    assert |cfg.input| == q * cfg.chunk + r;
    assert k + 1 <= q by {
      if q < k + 1 {
        MulLe(q + 1, k + 1, cfg.chunk);
        assert false;
      }
    }
    MulLe(k + 1, q, cfg.chunk);
  }

  /** The chunk k in which the input ends, sent on channel i. */
  lemma LastChunk(cfg: Config, k: nat, i: nat)
    requires cfg.Valid() && k * cfg.chunk <= |cfg.input| < (k + 1) * cfg.chunk
    requires i <= k && i < cfg.channels && (k - i) % cfg.channels == 0
    ensures var r := |cfg.input| - k * cfg.chunk;
      && StreamLength(cfg) == k * cfg.chunk + (if r > 0 then r - 1 else 0)
      && Total(cfg) == (if r > 1 && i + 1 != cfg.channels then k + 2 else k + 1)
    ensures StreamLength(cfg) < (k + 1) * cfg.chunk
    ensures (k + 1) * cfg.chunk <= (k + 2) * cfg.chunk
  {
    var r := |cfg.input| - k * cfg.chunk;
    assert k * cfg.chunk + cfg.chunk == (k + 1) * cfg.chunk;
    DivModUnique(|cfg.input|, cfg.chunk, k, r);
    var b := (k - i) / cfg.channels;
    assert k - i == b * cfg.channels;
    if i + 1 == cfg.channels {
      assert k + 1 == (b + 1) * cfg.channels;
      DivModUnique(k + 1, cfg.channels, b + 1, 0);
    } else {
      DivModUnique(k + 1, cfg.channels, b, i + 1);
    }
  }

  lemma RoundRobin(cfg: Config, base: nat, i: nat)
    requires cfg.Valid() && base % cfg.channels == 0 && i < cfg.channels
    ensures (base + i) % cfg.channels == i
  {
    var b := base / cfg.channels;
    assert base == b * cfg.channels;
    DivModUnique(base + i, cfg.channels, b, i);
  }

  lemma NextBatchAligned(cfg: Config, base: nat)
    requires cfg.Valid() && base % cfg.channels == 0
    ensures (base + cfg.channels) % cfg.channels == 0
  {
    var b := base / cfg.channels;
    assert base + cfg.channels == (b + 1) * cfg.channels;
    DivModUnique(base + cfg.channels, cfg.channels, b + 1, 0);
  }

  // ---------------------------------------------------------------------
  // The chunker produces the parts of the stream
  // ---------------------------------------------------------------------

  lemma {:induction false} StrNCpyAt(src: seq<Byte>, n: nat, d: nat)
    requires d < n
    ensures StrNCpy(src, n)[d] == (if d < |src| && !HasNul(src, 0, d + 1) then src[d] else 0)
  {
    if src == [] {
    } else if src[0] == 0 {
      assert HasNul(src, 0, Min(d + 1, |src|));
    } else if d == 0 {
    } else {
      StrNCpyAt(src[1..], n - 1, d - 1);
      if d < |src| {
        if HasNul(src, 0, d + 1) {
          var j :| 0 <= j < d + 1 && src[j] == 0;
          assert src[1..][j - 1] == 0;
          assert HasNul(src[1..], 0, d);
        }
        if HasNul(src[1..], 0, d) {
          var j :| 0 <= j < d && src[1..][j] == 0;
          assert src[j + 1] == 0;
        }
      }
    }
  }

  lemma CopiedByte(cfg: Config, k: nat, size: nat, d: nat)
    requires cfg.Valid() && d < size <= cfg.chunk
    requires k * cfg.chunk + size <= |cfg.input|
    ensures var at := k * cfg.chunk;
      StrNCpy(cfg.input[at..at + size], cfg.chunk)[d] == StreamByte(cfg, at + d)
  {
    hide StrNCpy, HasNul;
    var at := k * cfg.chunk;
    var text := cfg.input[at..at + size];
    StrNCpyAt(text, cfg.chunk, d);
    InChunk(cfg, k, d);
    NulShift(cfg.input, text, at, d);
    assert text[d] == cfg.input[at + d];
  }

  /** Inside the stream, strncpy of chunk k's text yields the stream's bytes. */
  lemma CopiedText(cfg: Config, k: nat, size: nat)
    requires cfg.Valid() && size <= cfg.chunk
    requires k * cfg.chunk + size <= StreamLength(cfg)
    ensures var at := k * cfg.chunk;
      StrNCpy(cfg.input[at..at + size], cfg.chunk) == Stream(cfg)[at..at + size] + Zeros(cfg.chunk - size)
  {
    hide StreamByte, StrNCpy, HasNul;
    var at := k * cfg.chunk;
    var copy := StrNCpy(cfg.input[at..at + size], cfg.chunk);
    var spec := Stream(cfg)[at..at + size] + Zeros(cfg.chunk - size);
    forall d | 0 <= d < cfg.chunk
      ensures copy[d] == spec[d]
    {
      if d < size {
        CopiedByte(cfg, k, size, d);
        assert spec[d] == Stream(cfg)[at + d];
      } else {
        StrNCpyAt(cfg.input[at..at + size], cfg.chunk, d);
      }
    }
  }

  lemma NulShift(s: seq<Byte>, t: seq<Byte>, at: nat, d: nat)
    requires at + |t| <= |s| && t == s[at..at + |t|] && d < |t|
    ensures HasNul(t, 0, d + 1) == HasNul(s, at, at + d + 1)
  {
    if HasNul(s, at, at + d + 1) {
      var j :| at <= j < at + d + 1 && s[j] == 0;
      assert t[j - at] == 0;
    }
    if HasNul(t, 0, d + 1) {
      var j :| 0 <= j < d + 1 && t[j] == 0;
      assert s[at + j] == 0;
    }
  }

  /** The bounds of chunk k in the input are those of part k in the stream. */
  lemma ChunkBounds(cfg: Config, k: nat, i: nat)
    requires cfg.Valid() && k * cfg.chunk <= |cfg.input|
    requires i <= k && i < cfg.channels && (k - i) % cfg.channels == 0
    ensures var at := k * cfg.chunk; var c := NextChunk(cfg.input, cfg.chunk, at);
      && Off(cfg, k) == at && Off(cfg, k + 1) == at + c.size <= StreamLength(cfg)
      && c.text == cfg.input[at..at + c.size]
      && c.eof == ((k + 1) * cfg.chunk > |cfg.input|)
      && c.pos == Min((k + 1) * cfg.chunk, |cfg.input|)
  {
    hide Total;
    var at, next := k * cfg.chunk, (k + 1) * cfg.chunk;
    assert next == at + cfg.chunk;
    if next <= |cfg.input| {
      FullChunk(cfg, k);
    } else {
      LastChunk(cfg, k, i);
    }
  }

  lemma ChunkText(cfg: Config, k: nat, at: nat, c: Chunk)
    requires cfg.Valid() && at == k * cfg.chunk && c.size <= cfg.chunk
    requires Off(cfg, k) == at && Off(cfg, k + 1) == at + c.size <= StreamLength(cfg)
    requires c.text == cfg.input[at..at + c.size]
    ensures c.size == |Part(cfg, k)| && StrNCpy(c.text, cfg.chunk) == Part(cfg, k) + Zeros(cfg.chunk - c.size)
  {
    hide StrNCpy, Stream, Zeros, StreamLength, Off;
    CopiedText(cfg, k, c.size);
  }

  /** Reading chunk k while the input has not ended yet. */
  lemma ChunkWithin(cfg: Config, k: nat, i: nat)
    requires cfg.Valid() && k * cfg.chunk <= |cfg.input|
    requires i <= k && i < cfg.channels && (k - i) % cfg.channels == 0
    ensures var c := NextChunk(cfg.input, cfg.chunk, k * cfg.chunk);
      && c.size == |Part(cfg, k)| && c.eof == ((k + 1) * cfg.chunk > |cfg.input|)
      && StrNCpy(c.text, cfg.chunk) == Part(cfg, k) + Zeros(cfg.chunk - c.size)
      && c.pos == Min((k + 1) * cfg.chunk, |cfg.input|)
      && Off(cfg, k) == k * cfg.chunk
      && c.size <= cfg.chunk
  {
    hide StrNCpy, Total, Off, Stream, StreamLength, NextChunk, Min, Part, Zeros;
    var at := k * cfg.chunk;
    ChunkBounds(cfg, k, i);
    ChunkText(cfg, k, at, NextChunk(cfg.input, cfg.chunk, at));
  }

  /** Reading once more after a short chunk k yields the empty packet k + 1. */
  lemma ChunkAfterEnd(cfg: Config, k: nat, i: nat)
    requires cfg.Valid() && k * cfg.chunk <= |cfg.input| < (k + 1) * cfg.chunk
    requires i <= k && i < cfg.channels && (k - i) % cfg.channels == 0
    ensures var c := NextChunk(cfg.input, cfg.chunk, |cfg.input|);
      && c.size == 0 && c.eof && c.pos == |cfg.input|
      && Part(cfg, k + 1) == [] && Off(cfg, k + 1) == StreamLength(cfg)
      && StrNCpy(c.text, cfg.chunk) == Zeros(cfg.chunk)
  {
    LastChunk(cfg, k, i);
    assert (k + 2) * cfg.chunk >= (k + 1) * cfg.chunk;
  }

  /** Packet numbers grow strictly: only the very last packet can be empty. */
  lemma OffStrict(cfg: Config, j: nat, k: nat)
    requires cfg.Valid() && j < k < Total(cfg)
    ensures Off(cfg, j) < Off(cfg, k)
  {
    var q, r := |cfg.input| / cfg.chunk, |cfg.input| % cfg.chunk;
    assert |cfg.input| == q * cfg.chunk + r;
    assert j <= q;
    OffMonotone(cfg, j + 1, k);
    assert (j + 1) * cfg.chunk == j * cfg.chunk + cfg.chunk;
    if j < q {
      MulLe(j + 1, q, cfg.chunk);
      assert j * cfg.chunk < StreamLength(cfg);
    } else {
      assert r > 1;
    }
  }

  /** The packets cover the whole stream: the last one ends where the stream ends. */
  lemma TotalReachesEnd(cfg: Config)
    requires cfg.Valid()
    ensures Off(cfg, Total(cfg)) == StreamLength(cfg)
  {
    var q, r := |cfg.input| / cfg.chunk, |cfg.input| % cfg.chunk;
    assert |cfg.input| == q * cfg.chunk + r;
    assert (q + 1) * cfg.chunk == q * cfg.chunk + cfg.chunk;
    assert (q + 1) * cfg.chunk <= Total(cfg) * cfg.chunk;
  }

  /** Every byte of the stream lies in one of the first n parts, up to their end. */
  lemma {:induction false} PartOf(cfg: Config, n: nat, j: nat) returns (k: nat)
    requires cfg.Valid() && j < Off(cfg, n)
    ensures k < n && Off(cfg, k) <= j < Off(cfg, k + 1)
    decreases n
  {
    assert n > 0;
    if j < Off(cfg, n - 1) {
      k := PartOf(cfg, n - 1, j);
    } else {
      k := n - 1;
    }
  }

  // ---------------------------------------------------------------------
  // When is the stream the input?
  // ---------------------------------------------------------------------

  /** The README promises that the input file is uploaded.  That is what happens exactly
      when the length is a multiple of the chunk size and no chunk has a non-NUL byte
      after a NUL byte. */
  ghost predicate Transparent(cfg: Config)
    requires cfg.Valid()
  {
    && |cfg.input| % cfg.chunk == 0
    && forall i, j :: 0 <= i < j < |cfg.input| && i / cfg.chunk == j / cfg.chunk && cfg.input[i] == 0
                      ==> cfg.input[j] == 0
  }

  lemma SameChunk(cfg: Config, i: nat, j: nat)
    requires cfg.Valid() && i <= j
    ensures i / cfg.chunk == j / cfg.chunk <==> j - j % cfg.chunk <= i
  {
    var q, r := j / cfg.chunk, j % cfg.chunk;
    assert j == q * cfg.chunk + r;
    if j - r <= i {
      DivModUnique(i, cfg.chunk, q, i - q * cfg.chunk);
    }
    if i / cfg.chunk == q {
      assert i == q * cfg.chunk + i % cfg.chunk;
    }
  }

  lemma TransparentByte(cfg: Config, j: nat)
    requires cfg.Valid() && Transparent(cfg) && j < |cfg.input|
    ensures StreamByte(cfg, j) == cfg.input[j]
  {
    var lo := j - j % cfg.chunk;
    if HasNul(cfg.input, lo, j + 1) {
      var i :| lo <= i < j + 1 && cfg.input[i] == 0;
      SameChunk(cfg, i, j);
    }
  }

  lemma StreamAt(cfg: Config, j: nat)
    requires cfg.Valid() && j < StreamLength(cfg)
    ensures Stream(cfg)[j] == StreamByte(cfg, j)
  {
    hide StreamByte;
  }

  lemma NulBefore(cfg: Config, i: nat, j: nat)
    requires cfg.Valid() && j - j % cfg.chunk <= i <= j < |cfg.input| && cfg.input[i] == 0
    ensures StreamByte(cfg, j) == 0
  {
  }

  lemma CopiedIsTransparent(cfg: Config, i: nat, j: nat)
    requires cfg.Valid() && Stream(cfg) == cfg.input
    requires i < j < |cfg.input| && i / cfg.chunk == j / cfg.chunk && cfg.input[i] == 0
    ensures cfg.input[j] == 0
  {
    hide Stream, StreamByte;
    SameChunk(cfg, i, j);
    StreamAt(cfg, j);
    NulBefore(cfg, i, j);
  }

  lemma StreamIsInputIff(cfg: Config)
    requires cfg.Valid()
    ensures Stream(cfg) == cfg.input <==> Transparent(cfg)
  {
    hide StreamByte;
    if Transparent(cfg) {
      forall j: nat | j < |cfg.input|
        ensures StreamByte(cfg, j) == cfg.input[j]
      {
        TransparentByte(cfg, j);
      }
    }
    if Stream(cfg) == cfg.input {
      assert |cfg.input| == StreamLength(cfg);
      forall i, j | 0 <= i < j < |cfg.input| && i / cfg.chunk == j / cfg.chunk && cfg.input[i] == 0
        ensures cfg.input[j] == 0
      {
        CopiedIsTransparent(cfg, i, j);
      }
    }
  }

  /** The last byte is lost when the length is not a multiple of the chunk size ... */
  lemma LastByteLost()
    ensures Stream(Config([7, 8, 9], 2, 1)) == [7, 8]
  {
  }

  /** ... and a byte behind a NUL does not survive its chunk. */
  lemma ByteAfterNulLost()
    ensures Stream(Config([7, 0, 9], 3, 1)) == [7, 0, 0]
  {
    var cfg := Config([7, 0, 9], 3, 1);
    assert cfg.input[1] == 0;
    assert HasNul(cfg.input, 0, 2) && HasNul(cfg.input, 0, 3) && !HasNul(cfg.input, 0, 1);
  }
}
