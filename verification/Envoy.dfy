/** The Envoy side of the wire: what one body chunk is, how a body is cut into
    chunks (pkg/common/envoy/chunking.go), and decimal lengths. */
module Envoy {

  newtype byte = x: int | 0 <= x < 256
  type bytes = seq<byte>

  const BODY_BYTE_LIMIT: nat := 62000

  datatype Chunk = Chunk(body: bytes, eos: bool)

  function ConcatChunks(chunks: seq<Chunk>): bytes {
    if chunks == [] then [] else chunks[0].body + ConcatChunks(chunks[1..])
  }

  function Min(a: nat, b: nat): nat { if a < b then a else b }

  /** What `BuildChunkedBodyResponses` returns, by recursion on what is left. */
  function ChunkBody(body: bytes, setEos: bool): seq<Chunk>
    decreases |body|
  {
    if |body| <= BODY_BYTE_LIMIT then [Chunk(body, setEos)]
    else [Chunk(body[..BODY_BYTE_LIMIT], false)] + ChunkBody(body[BODY_BYTE_LIMIT..], setEos)
  }

  /** The loop of the source. */
  method BuildChunkedBodyResponses(body: bytes, setEos: bool) returns (responses: seq<Chunk>)
    ensures responses == ChunkBody(body, setEos)
  {
    responses := [];
    var startingIndex := 0;
    if |body| == 0 {
      return [Chunk(body, setEos)];
    }
    while startingIndex < |body|
      invariant 0 <= startingIndex <= |body|
      invariant startingIndex < |body| ==> responses + ChunkBody(body[startingIndex..], setEos) == ChunkBody(body, setEos)
      invariant startingIndex == |body| ==> responses == ChunkBody(body, setEos)
    {
      var eos := false;
      var len := Min(|body| - startingIndex, BODY_BYTE_LIMIT);
      var chunk := body[startingIndex..len + startingIndex];
      if setEos && len + startingIndex >= |body| {
        eos := true;
      }
      assert body[startingIndex..][..len] == chunk;
      assert body[startingIndex..][len..] == body[len + startingIndex..];
      assert len == |body| - startingIndex ==> body[startingIndex..] == chunk;
      responses := responses + [Chunk(chunk, eos)];
      startingIndex := startingIndex + len;
    }
  }

  /** The number of chunks a body of n bytes needs: max(1, ceil(n / 62000)). */
  function ChunkCount(n: nat): nat {
    if n == 0 then 1 else (n + BODY_BYTE_LIMIT - 1) / BODY_BYTE_LIMIT
  }

  /** Every body: the chunks re-concatenate to it, none is over the limit, there are as
      few as the limit allows, and only the last can carry EndOfStream. */
  lemma {:induction false} ChunkingIsFaithful(body: bytes, setEos: bool)
    ensures var cs := ChunkBody(body, setEos);
            && ConcatChunks(cs) == body
            && |cs| == ChunkCount(|body|) == (if |body| == 0 then 1 else (|body| + 61999) / 62000)
            && (forall i :: 0 <= i < |cs| ==> |cs[i].body| <= 62000)
            && (forall i :: 0 <= i < |cs| ==> (cs[i].eos <==> setEos && i == |cs| - 1))
    decreases |body|
  {
    if |body| <= BODY_BYTE_LIMIT {
      assert ConcatChunks([Chunk(body, setEos)]) == body + ConcatChunks([]);
    } else {
      var rest := body[BODY_BYTE_LIMIT..];
      ChunkingIsFaithful(rest, setEos);
      assert body == body[..BODY_BYTE_LIMIT] + rest;
      assert ChunkBody(body, setEos)[1..] == ChunkBody(rest, setEos);
    }
  }

  // ------------------------------------------------------------------------------
  // Decimal lengths (Go's strconv.Itoa on a length)

  function Digit(d: nat): char requires d < 10 { '0' + d as char }

  function Itoa(n: nat): string {
    if n < 10 then [Digit(n)] else Itoa(n / 10) + [Digit(n % 10)]
  }

  function Atoi(s: string): int {
    if s == [] then 0 else 10 * Atoi(s[..|s| - 1]) + (s[|s| - 1] as int - '0' as int)
  }

  /** Reading the decimal string back gives the number, so equal Content-Length strings mean
      equal lengths; it has only digits, and no leading zero but for 0 itself. */
  lemma {:induction false} ItoaRoundTrip(n: nat)
    ensures Atoi(Itoa(n)) == n
    ensures Itoa(n) != "" && (forall i :: 0 <= i < |Itoa(n)| ==> '0' <= Itoa(n)[i] <= '9') && (Itoa(n)[0] == '0' <==> n == 0)
  {
    if n >= 10 {
      ItoaRoundTrip(n / 10);
      assert Itoa(n)[..|Itoa(n)| - 1] == Itoa(n / 10);
    } else {
      assert Itoa(n)[..0] == [];
    }
  }
}
