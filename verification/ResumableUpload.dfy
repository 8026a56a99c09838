/**
 Resumable upload: the storage node's PATCH and HEAD handlers and the browser loop
 that drives them over a network that loses, delays and repeats messages, with
 crashes that leave torn writes behind.
 */
module ResumableUpload {
  import opened Basics

  /** The partial file on disk, the offset in the database, and whether it still takes chunks. */
  datatype Part = Part(file: seq<bv8>, offset: nat, writable: bool)

  datatype Code = NoContent | Conflict | OtherError

  datatype Response = Response(code: Code, offset: nat)

  /** What happens to a well-formed chunk on the server side. */
  datatype Fate =
    | Refused(busy: bool)            // another chunk in progress, no slot, no space, body cut short
    | WriteFails(kept: Option<nat>)  // crash or I/O error; if anything, the truncation and `kept` bytes got to the disk
    | OffsetLost(truncated: bool)    // the conditional offset update did not apply
    | Stored(isolated: bool)         // committed; a completed file then moves to quarantine, or fails to

  datatype Chunk = Chunk(offset: nat, payload: seq<bv8>)

  datatype Reply = Reply(part: Part, response: Response)

  function Kept(payload: seq<bv8>, n: nat): seq<bv8> {
    if n < |payload| then payload[..n] else payload
  }

  function Answer(p: Part, code: Code): Reply {
    Reply(p, Response(code, p.offset))
  }

  /** The PATCH handler for one delivered chunk. */
  function Patch(p: Part, length: nat, maxChunk: nat, c: Chunk, fate: Fate): Reply {
    if !p.writable || c.offset != p.offset then Answer(p, Conflict)
    else if |c.payload| == 0 || |c.payload| > maxChunk || c.offset + |c.payload| > length then Answer(p, OtherError)
    else match fate
      case Refused(busy) => Answer(p, if busy then Conflict else OtherError)
      case WriteFails(kept) =>
        if kept.None? || |p.file| < p.offset then Answer(p, OtherError)
        else Answer(p.(file := p.file[..p.offset] + Kept(c.payload, kept.value)), OtherError)
      case OffsetLost(truncated) =>
        if |p.file| < p.offset then Answer(p, OtherError)
        else Answer(p.(file := p.file[..p.offset] + if truncated then [] else c.payload), Conflict)
      case Stored(isolated) =>
        if |p.file| < p.offset then Answer(p, OtherError)
        else
          var next := p.offset + |c.payload|;
          var stored := p.(file := p.file[..p.offset] + c.payload, offset := next);
          if next < length then Answer(stored, NoContent)
          else if isolated then Answer(stored.(writable := false), NoContent)
          else Answer(stored, OtherError)
  }

  // ---------- what every delivery keeps ----------

  /** The bytes the database counts are the first bytes of the source. */
  predicate Faithful(p: Part, source: seq<bv8>) {
    p.offset <= |p.file| && p.offset <= |source| && p.file[..p.offset] == source[..p.offset]
  }

  /** A chunk the client may have cut from the source, now or earlier. */
  predicate Authentic(c: Chunk, source: seq<bv8>) {
    c.offset + |c.payload| <= |source| && c.payload == source[c.offset..c.offset + |c.payload|]
  }

  lemma PatchKeeps(p: Part, source: seq<bv8>, maxChunk: nat, c: Chunk, fate: Fate)
    requires Faithful(p, source) && Authentic(c, source)
    ensures var r := Patch(p, |source|, maxChunk, c, fate);
      && Faithful(r.part, source) && r.part.offset >= p.offset && r.response.offset == r.part.offset
      && (r.response.code == NoContent ==> c.offset < r.part.offset)
      && (r.response.code != NoContent && fate.Stored? && r.part.offset > p.offset ==> r.part.offset == |source|)
  {
    var r := Patch(p, |source|, maxChunk, c, fate);
    if r.part.offset > p.offset {
      assert r.part.file[..r.part.offset] == source[..p.offset] + c.payload;
    } else {
      assert r.part.file[..r.part.offset] == p.file[..p.offset];
    }
  }

  /**
   A chunk is taken exactly when the upload is open, the chunk starts at the stored offset, is
   not empty, not too long and fits the file, and nothing fails on the way; then exactly its
   bytes follow the stored prefix and the reply names the new offset.
   */
  lemma PatchSucceedsExactly(p: Part, length: nat, maxChunk: nat, c: Chunk, fate: Fate)
    requires p.offset <= |p.file|
    ensures var r := Patch(p, length, maxChunk, c, fate);
      && (r.response.code == NoContent <==>
            && p.writable && c.offset == p.offset && 0 < |c.payload| <= maxChunk && c.offset + |c.payload| <= length
            && fate.Stored? && (c.offset + |c.payload| == length ==> fate.isolated))
      && (r.response.code == NoContent ==>
            && r.part.file == p.file[..p.offset] + c.payload && r.part.offset == p.offset + |c.payload|
            && r.part.writable == (r.part.offset < length) && r.response.offset == r.part.offset)
  {
  }

  datatype Delivery = Delivery(chunk: Chunk, fate: Fate)

  function DeliverAll(p: Part, length: nat, maxChunk: nat, ds: seq<Delivery>): Part
    decreases ds
  {
    if ds == [] then p else
      DeliverAll(Patch(p, length, maxChunk, ds[0].chunk, ds[0].fate).part, length, maxChunk, ds[1..])
  }

  /**
   Under any sequence of deliveries of genuine chunks, however duplicated, reordered
   or torn, the stored prefix stays genuine and the offset never goes back.
   */
  lemma {:induction false} StoredPrefixIsGenuine(p: Part, source: seq<bv8>, maxChunk: nat, ds: seq<Delivery>)
    requires Faithful(p, source) && forall i :: 0 <= i < |ds| ==> Authentic(ds[i].chunk, source)
    ensures var p' := DeliverAll(p, |source|, maxChunk, ds);
      && Faithful(p', source) && p'.offset >= p.offset
      && (p'.offset == |source| ==> p'.file[..|source|] == source)
    decreases ds
  {
    if ds == [] {
      assert source[..|source|] == source;
    } else {
      PatchKeeps(p, source, maxChunk, ds[0].chunk, ds[0].fate);
      StoredPrefixIsGenuine(Patch(p, |source|, maxChunk, ds[0].chunk, ds[0].fate).part, source, maxChunk, ds[1..]);
    }
  }

  // ---------- the node ----------

  class StorageUpload {
    var file: seq<bv8>
    var offset: nat
    var writable: bool
    const length: nat
    const maxChunk: nat

    constructor (length: nat, maxChunk: nat)
      ensures View() == Part([], 0, true) && this.length == length && this.maxChunk == maxChunk
    {
      file, offset, writable := [], 0, true;
      this.length, this.maxChunk := length, maxChunk;
    }

    function View(): Part
      reads this
    {
      Part(file, offset, writable)
    }

    /** Truncates to the persisted offset, appends, and lets a failure cut the append short. */
    method WriteUploadChunk(payload: seq<bv8>, kept: Option<nat>) returns (ok: bool)
      modifies this`file
      ensures ok == (offset <= |old(file)| && kept.None?)
      ensures ok ==> file == old(file)[..offset] + payload
      ensures !ok ==> file == if offset <= |old(file)| && kept.Some?
        then old(file)[..offset] + Kept(payload, kept.value) else old(file)
    {
      if |file| < offset {
        return false;
      }
      if |file| > offset {
        file := file[..offset];
      }
      if kept.Some? {
        file := file + Kept(payload, kept.value);
        return false;
      }
      file := file + payload;
      return true;
    }

    method PatchUpload(c: Chunk, fate: Fate) returns (response: Response)
      modifies this`file, this`offset, this`writable
      ensures Reply(View(), response) == Patch(old(View()), length, maxChunk, c, fate)
    {
      if !writable || c.offset != offset {
        return Response(Conflict, offset);
      }
      if |c.payload| == 0 || |c.payload| > maxChunk || c.offset + |c.payload| > length {
        return Response(OtherError, offset);
      }
      if fate.Refused? {
        return Response(if fate.busy then Conflict else OtherError, offset);
      }
      if fate.WriteFails? && fate.kept.None? {
        return Response(OtherError, offset);
      }
      var ok := WriteUploadChunk(c.payload, if fate.WriteFails? then fate.kept else None);
      if !ok {
        return Response(OtherError, offset);
      }
      if fate.OffsetLost? {
        if fate.truncated {
          file := file[..offset];
        }
        return Response(Conflict, offset);
      }
      offset := offset + |c.payload|;
      if offset == length {
        if !fate.isolated {
          return Response(OtherError, offset);
        }
        writable := false;
      }
      return Response(NoContent, offset);
    }

    /** Chunks sent earlier arrive late or again, in any number and order. */
    method Interfere(ghost source: seq<bv8>, late: seq<Delivery>)
      requires Faithful(View(), source) && |source| == length
      requires forall i :: 0 <= i < |late| ==> Authentic(late[i].chunk, source)
      modifies this`file, this`offset, this`writable
      ensures Faithful(View(), source) && offset >= old(offset)
      ensures late == [] ==> View() == old(View())
    {
      for i := 0 to |late|
        invariant Faithful(View(), source) && offset >= old(offset) && (i == 0 ==> View() == old(View()))
      {
        PatchKeeps(View(), source, maxChunk, late[i].chunk, late[i].fate);
        var _ := PatchUpload(late[i].chunk, late[i].fate);
      }
    }
  }

  // ---------- the browser ----------

  const MAX_SAFE_INTEGER := 0x1f_ffff_ffff_ffff
  const MAX_RETRIES := 3

  /** An `Upload-Offset` value as it arrives. */
  datatype Header = Missing | Garbage | Digits(value: nat)

  function ParseUploadOffset(value: Header, previous: nat, size: nat): (r: Option<nat>)
    ensures r.Some? ==> previous <= r.value <= size
  {
    if !value.Digits? || value.value > MAX_SAFE_INTEGER || value.value < previous || value.value > size then None
      else Some(value.value)
  }

  // ---------- the loop as the client sees it ----------

  /** Where the loop stands between two iterations. */
  datatype Client = Client(offset: nat, retries: nat)

  /** One iteration's news: the PATCH answer if one came, its header, and the HEAD header if one was asked for. */
  datatype Exchange = Exchange(answer: Option<Code>, header: Header, resumed: Option<Header>)

  /** One iteration; `None` when it throws. */
  function Iterate(c: Client, size: nat, x: Exchange): Option<Client> {
    if x.answer == None || (x.answer == Some(Conflict) && c.retries < MAX_RETRIES) then
      if c.retries >= MAX_RETRIES || x.resumed == None then None else
        var resumed := ParseUploadOffset(x.resumed.value, c.offset, size);
        if resumed == None then None else Some(Client(resumed.value, c.retries + 1))
    else if x.answer != Some(NoContent) then None
    else
      var advanced := ParseUploadOffset(x.header, c.offset, size);
      if advanced == None then None else Some(Client(advanced.value, 0))
  }

  /** The loop through these exchanges; `None` when it throws or ends before the last. */
  function Loop(c: Client, size: nat, xs: seq<Exchange>): Option<Client>
    decreases xs
  {
    if xs == [] then Some(c)
    else if c.offset >= size then None
    else
      var next := Iterate(c, size, xs[0]);
      if next == None then None else Loop(next.value, size, xs[1..])
  }

  /** Every success reports an offset beyond the one the chunk was sent from. */
  predicate Honoured(c: Client, size: nat, xs: seq<Exchange>)
    decreases xs
  {
    xs == [] ||
    (&& (xs[0].answer == Some(NoContent) && xs[0].header.Digits? ==> xs[0].header.value > c.offset)
     && (var next := Iterate(c, size, xs[0]); next.Some? ==> Honoured(next.value, size, xs[1..])))
  }

  /** Bytes left first, retries left second. */
  function Measure(c: Client, size: nat): int {
    (size - c.offset) * (MAX_RETRIES + 1) + MAX_RETRIES - c.retries
  }

  /** A server that honours the contract bounds the loop in advance. */
  lemma {:induction false} ContractBoundsTheLoop(c: Client, size: nat, xs: seq<Exchange>)
    requires c.offset <= size && c.retries <= MAX_RETRIES && Honoured(c, size, xs) && Loop(c, size, xs).Some?
    ensures |xs| <= Measure(c, size)
    decreases xs
  {
    if xs != [] {
      ContractBoundsTheLoop(Iterate(c, size, xs[0]).value, size, xs[1..]);
    }
  }

  /**
   Without the contract nothing does: a success that repeats the offset it was sent brings
   the loop back to the same offset with a full retry budget, so it survives any number of them.
   */
  lemma {:induction false} StandingStillNeverEnds(c: Client, size: nat, n: nat)
    requires c.offset < size <= MAX_SAFE_INTEGER
    ensures var same := Exchange(Some(NoContent), Digits(c.offset), None);
      Loop(c, size, seq(n, _ => same)) == Some(if n == 0 then c else Client(c.offset, 0))
    decreases n
  {
    var same := Exchange(Some(NoContent), Digits(c.offset), None);
    var xs := seq(n, _ => same);
    if n > 0 {
      assert xs[1..] == seq(n - 1, _ => same);
      StandingStillNeverEnds(Client(c.offset, 0), size, n - 1);
    }
  }

  // ---------- the loop against the node ----------

  /** What the network does to one request: late duplicates first, then the request or its answer may be lost. */
  datatype Weather = Weather(late: seq<Delivery>, delivered: bool, fate: Fate, answered: bool, headWorks: bool)

  datatype Ending = Finished | Threw

  /** Asks the node where to resume; a failed request throws. */
  method ReadOffset(
      node: StorageUpload, ghost source: seq<bv8>, previous: nat, size: nat, headWorks: bool) returns (r: Option<nat>)
    requires Faithful(node.View(), source) && size == |source| <= MAX_SAFE_INTEGER && previous <= node.offset
    ensures r.Some? ==> r.value == node.offset && previous <= r.value <= size
    ensures headWorks ==> r.Some?
  {
    if !headWorks {
      return None;
    }
    r := ParseUploadOffset(Digits(node.offset), previous, size);
  }

  /** One PATCH request; no response means the client saw a network error. */
  method SendChunk(
      node: StorageUpload, source: seq<bv8>, offset: nat, end: nat, weather: Weather)
    returns (response: Option<Response>)
    requires Faithful(node.View(), source) && |source| == node.length && offset < end <= |source|
    requires forall i :: 0 <= i < |weather.late| ==> Authentic(weather.late[i].chunk, source)
    modifies node`file, node`offset, node`writable
    ensures Faithful(node.View(), source) && node.offset >= old(node.offset)
    ensures response.Some? ==>
      response.value.offset == node.offset && (response.value.code == NoContent ==> node.offset > offset)
    ensures weather == CALM && old(node.offset) == offset && old(node.writable) && end - offset <= node.maxChunk ==>
      response == Some(Response(NoContent, end)) && (end < |source| ==> node.writable)
  {
    var chunk := Chunk(offset, source[offset..end]);
    node.Interfere(source, weather.late);
    response := None;
    if weather.delivered {
      PatchKeeps(node.View(), source, node.maxChunk, chunk, weather.fate);
      var sent := node.PatchUpload(chunk, weather.fate);
      if weather.answered {
        response := Some(sent);
      }
    }
  }

  const CALM := Weather([], true, Stored(true), true, true)

  /** Late deliveries are chunks this client cut from the file at some time. */
  ghost predicate OwnTraffic(network: nat -> Weather, source: seq<bv8>) {
    forall n: nat, i :: 0 <= i < |network(n).late| ==> Authentic(network(n).late[i].chunk, source)
  }

  /** A node ready to take every chunk from where the session stands. */
  predicate Ready(p: Part, maxChunk: nat, sessionOffset: Header, size: nat, chunkBytes: nat) {
    sessionOffset == Digits(p.offset) && chunkBytes <= maxChunk && (p.offset < size ==> p.writable)
  }

  /**
   The upload loop against a node that honours the PATCH contract. It terminates: on
   every iteration that does not throw, either fewer bytes are left or the same bytes
   and fewer retries, so the number of requests is bounded by the file size. When it
   finishes, the node holds the whole file, and on a calm network with a ready node it
   does finish. `network(n)` is the fate of the `n`-th request.
   */
  method UploadFile(
      node: StorageUpload, source: seq<bv8>, sessionOffset: Header, chunkBytes: nat, network: nat -> Weather)
    returns (ending: Ending, requests: nat)
    requires Faithful(node.View(), source) && |source| == node.length <= MAX_SAFE_INTEGER && chunkBytes > 0
    requires sessionOffset.Digits? ==> sessionOffset.value <= node.offset
    requires OwnTraffic(network, source)
    modifies node`file, node`offset, node`writable
    ensures Faithful(node.View(), source) && node.offset >= old(node.offset)
    ensures ending == Finished ==> node.offset == |source| && node.file[..|source|] == source
    ensures requests <= (|source| + 1) * 4
    ensures (forall n: nat :: network(n) == CALM) ==>
      Ready(old(node.View()), node.maxChunk, sessionOffset, |source|, chunkBytes) ==> ending == Finished
  {
    hide Patch, Authentic;
    ghost var calm := Ready(node.View(), node.maxChunk, sessionOffset, |source|, chunkBytes)
      && forall n: nat :: network(n) == CALM;
    var size := |source|;
    var start := ParseUploadOffset(sessionOffset, 0, size);
    if start.None? {
      return Threw, 0;
    }
    var offset: nat := start.value;
    var retries := 0;
    requests := 0;
    while offset < size
      invariant Faithful(node.View(), source) && node.offset >= old(node.offset)
      invariant offset <= node.offset && offset <= size && 0 <= retries <= MAX_RETRIES
      invariant requests + Measure(Client(offset, retries), size) <= Measure(Client(0, 0), size)
      invariant calm ==> offset == node.offset && (offset < size ==> node.writable)
      decreases size - offset, MAX_RETRIES - retries
    {
      var end := if offset + chunkBytes < size then offset + chunkBytes else size;
      var weather := network(requests);
      requests := requests + 1;
      ghost var was := Client(offset, retries);
      var response := SendChunk(node, source, offset, end, weather);
      if response.None? || (response.value.code == Conflict && retries < MAX_RETRIES) {
        if retries >= MAX_RETRIES {
          return Threw, requests;
        }
        retries := retries + 1;
        var resumed := ReadOffset(node, source, offset, size, weather.headWorks);
        if resumed.None? {
          return Threw, requests;
        }
        offset := resumed.value;
        ghost var answer := if response.Some? then Some(response.value.code) else None;
        assert Iterate(was, size, Exchange(answer, Missing, Some(Digits(offset)))) == Some(Client(offset, retries));
        continue;
      }
      if response.value.code != NoContent {
        return Threw, requests;
      }
      var advanced := ParseUploadOffset(Digits(response.value.offset), offset, size);
      if advanced.None? {
        return Threw, requests;
      }
      offset := advanced.value;
      retries := 0;
      assert Iterate(was, size, Exchange(Some(NoContent), Digits(offset), None)) == Some(Client(offset, retries));
    }
    assert source[..|source|] == source;
    return Finished, requests;
  }
}
