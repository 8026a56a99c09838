/** The streaming part of the malware scan: hash and search a file read in pieces. */
module Scanner {
  const SIGNATURE := "EICAR-STANDARD-ANTIVIRUS-TEST-FILE"

  datatype End = More | Eof | Fault

  /** One `Read` call: the bytes it returned, possibly none, and how it ended. */
  datatype Read = Read(bytes: string, end: End)

  datatype Scan = Scanned(hashed: string, malicious: bool) | ReadFailed

  predicate OccursAt(s: string, sig: string, i: nat) {
    i + |sig| <= |s| && s[i..i + |sig|] == sig
  }

  predicate Contains(s: string, sig: string) {
    exists i: nat :: i <= |s| && OccursAt(s, sig, i)
  }

  /** The last bytes that an occurrence not yet complete could begin in. */
  function Tail(s: string, keep: nat): string {
    if |s| <= keep then s else s[|s| - keep..]
  }

  /** What the reads deliver, up to the first that ends the file or fails. */
  function Content(pieces: seq<Read>): string {
    if pieces == [] then ""
    else if pieces[0].end != More then pieces[0].bytes
    else pieces[0].bytes + Content(pieces[1..])
  }

  function Ending(pieces: seq<Read>): End {
    if pieces == [] then More
    else if pieces[0].end != More then pieces[0].end
    else Ending(pieces[1..])
  }

  lemma OccursInFront(before: string, chunk: string, sig: string, i: nat)
    requires i + |sig| <= |before|
    ensures OccursAt(before + chunk, sig, i) <==> OccursAt(before, sig, i)
  {
    assert (before + chunk)[i..i + |sig|] == before[i..i + |sig|];
  }

  lemma OccursBehind(front: string, rest: string, sig: string, i: nat)
    ensures OccursAt(front + rest, sig, |front| + i) <==> OccursAt(rest, sig, i)
  {
    if i + |sig| <= |rest| {
      assert (front + rest)[|front| + i..|front| + i + |sig|] == rest[i..i + |sig|];
    }
  }

  /** An occurrence in the longer text is old, or lies within the kept tail and the new bytes. */
  lemma CarrySuffices(before: string, chunk: string, sig: string)
    requires sig != ""
    ensures Contains(before + chunk, sig) <==> Contains(before, sig) || Contains(Tail(before, |sig| - 1) + chunk, sig)
  {
    var all, carry := before + chunk, Tail(before, |sig| - 1);
    var near := carry + chunk;
    var front := before[..|before| - |carry|];
    assert all == front + near && |front| == if |before| <= |sig| - 1 then 0 else |before| - |sig| + 1;
    hide OccursAt, Tail;
    forall i: nat | i + |sig| <= |before| ensures OccursAt(all, sig, i) <==> OccursAt(before, sig, i) {
      OccursInFront(before, chunk, sig, i);
    }
    forall i: nat ensures OccursAt(all, sig, |front| + i) <==> OccursAt(near, sig, i) {
      OccursBehind(front, near, sig, i);
    }
    if Contains(all, sig) {
      var i: nat :| i <= |all| && OccursAt(all, sig, i);
      OccursFits(all, sig, i);
      if i + |sig| <= |before| {
        assert OccursAt(before, sig, i);
      } else {
        var k: nat := i - |front|;
        assert i == |front| + k && OccursAt(near, sig, k);
      }
    }
    if Contains(before, sig) {
      var i: nat :| i <= |before| && OccursAt(before, sig, i);
      OccursFits(before, sig, i);
      assert OccursAt(all, sig, i);
    }
    if Contains(near, sig) {
      var i: nat :| i <= |near| && OccursAt(near, sig, i);
      assert OccursAt(all, sig, |front| + i);
    }
  }

  lemma OccursFits(s: string, sig: string, i: nat)
    requires OccursAt(s, sig, i)
    ensures i + |sig| <= |s|
  {
  }

  lemma TailOfTail(before: string, chunk: string, keep: nat)
    ensures Tail(Tail(before, keep) + chunk, keep) == Tail(before + chunk, keep)
  {
  }

  /** Reading one more piece moves its bytes from what is to come to what was read. */
  lemma NextPiece(pieces: seq<Read>, next: nat, hashed: string)
    requires next < |pieces|
    ensures pieces[next].end == More ==>
      && Ending(pieces[next..]) == Ending(pieces[next + 1..])
      && hashed + Content(pieces[next..]) == hashed + pieces[next].bytes + Content(pieces[next + 1..])
    ensures pieces[next].end != More ==>
      && Ending(pieces[next..]) == pieces[next].end
      && hashed + Content(pieces[next..]) == hashed + pieces[next].bytes
  {
    assert pieces[next..][0] == pieces[next] && pieces[next..][1..] == pieces[next + 1..];
  }

  lemma SomePieceIsLeft(pieces: seq<Read>)
    requires Ending(pieces) != More
    ensures pieces != []
  {
  }

  lemma NothingInNothing(sig: string)
    requires sig != ""
    ensures !Contains("", sig)
  {
  }

  /**
   However the file is split into reads, it is flagged exactly when the signature occurs
   somewhere in its whole content, and all of that content is hashed.
   */
  method ScanFor(pieces: seq<Read>, sig: string) returns (r: Scan)
    requires sig != "" && Ending(pieces) != More
    ensures Ending(pieces) == Fault ==> r == ReadFailed
    ensures Ending(pieces) == Eof ==> r == Scanned(Content(pieces), Contains(Content(pieces), sig))
  {
    hide Contains, Content, Ending;
    assert pieces[0..] == pieces;
    SomePieceIsLeft(pieces);
    NothingInNothing(sig);
    var hashed, carry, malicious, next := "", "", false, 0;
    while true
      invariant next < |pieces| && Ending(pieces) == Ending(pieces[next..])
      invariant Content(pieces) == hashed + Content(pieces[next..])
      invariant carry == Tail(hashed, |sig| - 1)
      invariant malicious == Contains(hashed, sig)
      decreases |pieces| - next
    {
      var chunk, end := pieces[next].bytes, pieces[next].end;
      NextPiece(pieces, next, hashed);
      if chunk != "" {
        var combined := carry + chunk;
        CarrySuffices(hashed, chunk, sig);
        TailOfTail(hashed, chunk, |sig| - 1);
        hashed := hashed + chunk;
        if Contains(combined, sig) {
          malicious := true;
        }
        var keep := |sig| - 1;
        if |combined| < keep {
          keep := |combined|;
        }
        carry := combined[|combined| - keep..];
      } else {
        assert hashed + chunk == hashed;
      }
      if end == Eof {
        return Scanned(hashed, malicious);
      }
      if end == Fault {
        return ReadFailed;
      }
      next := next + 1;
      SomePieceIsLeft(pieces[next..]);
    }
  }

  method ScanFile(pieces: seq<Read>) returns (r: Scan)
    requires Ending(pieces) != More
    ensures Ending(pieces) == Fault ==> r == ReadFailed
    ensures Ending(pieces) == Eof ==> r == Scanned(Content(pieces), Contains(Content(pieces), SIGNATURE))
  {
    r := ScanFor(pieces, SIGNATURE);
  }
}
