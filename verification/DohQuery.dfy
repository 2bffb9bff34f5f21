/** One DNS query over HTTPS: the ID is taken out before the cache and upstream see the query, and put back later. */
module DohQuery {
  import opened Wrappers

  /** The two bytes that every cached query starts with. */
  const FIXED_ID: Bytes := [0xab, 0xcd]

  /** How long a response may be used, in seconds. */
  const TTL: nat := 3600

  function IdOf(query: Bytes): Bytes
    requires |query| >= 2
  {
    query[..2]
  }

  /** The query as the cache and upstream see it. */
  function Normalised(query: Bytes): Bytes
    requires |query| >= 2
  {
    FIXED_ID + query[2..]
  }

  /** A response with its ID replaced; a response shorter than an ID is an error. */
  function WithId(id: Bytes, body: Bytes): Result<Bytes>
    requires |id| == 2
  {
    if |body| < 2 then Err else Ok(id + body[2..])
  }

  // ---------------------------------------------------------------------------
  // The cache
  // ---------------------------------------------------------------------------

  datatype Entry = Entry(body: Bytes, since: nat)

  type Cache = map<Bytes, Entry>

  /** An entry is never returned past its time. */
  function Cached(cache: Cache, key: Bytes, now: nat): Option<Entry> {
    if key in cache && now <= cache[key].since + TTL then Some(cache[key]) else None
  }

  // ---------------------------------------------------------------------------
  // The response body
  // ---------------------------------------------------------------------------

  /** A contiguous piece of a body is never empty while bytes remain. */
  type Piece = p: Bytes | p != [] witness [0]

  /** What the response stream yields: data in pieces, trailers, or a failure. */
  datatype Frame = Data(pieces: seq<Piece>) | Trailers | Broken

  function Joined(pieces: seq<Piece>): Bytes {
    if pieces == [] then [] else Joined(pieces[..|pieces| - 1]) + pieces[|pieces| - 1]
  }

  /** All the data of all the frames in order, unless the stream breaks. */
  function BodyOf(frames: seq<Frame>): Result<Bytes> {
    if frames == [] then Ok([])
    else
      var before := BodyOf(frames[..|frames| - 1]);
      match frames[|frames| - 1]
      case Data(pieces) => if before.Ok? then Ok(before.value + Joined(pieces)) else Err
      case Trailers => before
      case Broken => Err
  }

  lemma {:induction false} BrokenStaysBroken(frames: seq<Frame>, i: nat)
    requires i <= |frames| && BodyOf(frames[..i]).Err?
    ensures BodyOf(frames).Err?
  {
    if i == |frames| {
      assert frames[..i] == frames;
    } else {
      assert frames[..|frames| - 1][..i] == frames[..i];
      BrokenStaysBroken(frames[..|frames| - 1], i);
    }
  }

  /** Collects the body frame by frame and piece by piece. */
  method Collect(frames: seq<Frame>) returns (body: Result<Bytes>)
    ensures body == BodyOf(frames)
  {
    var collected: Bytes := [];
    for i := 0 to |frames|
      invariant BodyOf(frames[..i]) == Ok(collected)
    {
      assert frames[..i + 1][..i] == frames[..i];
      match frames[i] {
        case Data(pieces) =>
          ghost var before := collected;
          var data := pieces;
          while data != []
            invariant |data| <= |pieces| && data == pieces[|pieces| - |data|..]
            invariant collected == before + Joined(pieces[..|pieces| - |data|])
            decreases |data|
          {
            ghost var k := |pieces| - |data|;
            assert pieces[..k + 1][..k] == pieces[..k];
            collected := collected + data[0];
            data := data[1..];
          }
          assert pieces[..|pieces|] == pieces;
        case Trailers =>
        case Broken =>
          BrokenStaysBroken(frames, i + 1);
          return Err;
      }
    }
    assert frames[..|frames|] == frames;
    return Ok(collected);
  }

  // ---------------------------------------------------------------------------
  // The query
  // ---------------------------------------------------------------------------

  /** What the first part of a query comes to: an answer, a failure, or a question for upstream. */
  datatype Begun = Failed | Answered(reply: Bytes) | Ask(key: Bytes, id: Bytes)

  function Begin(cache: Cache, query: Bytes, now: nat): Begun {
    if |query| < 2 then Failed
    else
      var key, id := Normalised(query), IdOf(query);
      match Cached(cache, key, now)
      case Some(entry) => (match WithId(id, entry.body) case Ok(reply) => Answered(reply) case Err => Failed)
      case None => Ask(key, id)
  }

  class DnsCache {
    var cache: Cache

    constructor ()
      ensures cache == map[]
    {
      cache := map[];
    }

    /** Up to the cache lookup. The query's ID is overwritten in place. */
    method BeginQuery(query: array<Byte>, now: nat) returns (begun: Begun)
      modifies query
      ensures begun == Begin(cache, old(query[..]), now)
      ensures query[..] == if query.Length < 2 then old(query[..]) else Normalised(old(query[..]))
    {
      if query.Length < 2 {
        return Failed;
      }
      var id := [query[0], query[1]];
      query[0], query[1] := 0xab, 0xcd;
      var key := query[..];
      assert id == IdOf(old(query[..])) && key == Normalised(old(query[..]));
      match Cached(cache, key, now) {
        case None =>
          return Ask(key, id);
        case Some(entry) =>
          var result := new Byte[|entry.body|](i requires 0 <= i < |entry.body| => entry.body[i]);
          assert result[..] == entry.body;
          var patched := Patch(result, id);
          return if patched then Answered(result[..]) else Failed;
      }
    }

    /** Overwrites the ID of a response in place. */
    method Patch(result: array<Byte>, id: Bytes) returns (patched: bool)
      requires |id| == 2
      modifies result
      ensures patched == (result.Length >= 2)
      ensures patched ==> Ok(result[..]) == WithId(id, old(result[..]))
    {
      if result.Length < 2 {
        return false;
      }
      result[0], result[1] := id[0], id[1];
      assert result[..2] == id && result[2..] == old(result[2..]);
      assert result[..] == result[..2] + result[2..];
      return true;
    }

    /** From the collected body on: the cache gets the body as upstream sent it, the caller gets it patched. */
    method FinishQuery(key: Bytes, id: Bytes, body: array<Byte>, now: nat) returns (reply: Result<Bytes>)
      requires |id| == 2
      modifies this, body
      ensures cache == old(cache)[key := Entry(old(body[..]), now)]
      ensures reply == WithId(id, old(body[..]))
    {
      cache := cache[key := Entry(body[..], now)];
      var patched := Patch(body, id);
      return if patched then Ok(body[..]) else Err;
    }
  }
}
