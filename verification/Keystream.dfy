/** The bulk download keystream (internal/httpecho/bulk.go), the loop that sends
    it (internal/server/bulk.go) and the loop that checks it
    (internal/client/tests_bulk.go). */
module Keystream {
  import opened Base
  import opened Bytes
  import opened Envelope

  const BLOCK: nat := 32
  const PIECE: nat := 4096
  const MAX_DOWNLOAD: nat := 8 * 1024 * 1024

  function Block(sha: Sha, seed: seq<byte>, k: nat): Digest { sha(seed + BigEndian(k, 8)) }

  /** Byte i of the stream: it depends on its position and nothing else. */
  function At(sha: Sha, seed: seq<byte>, i: nat): byte { Block(sha, seed, i / BLOCK)[i % BLOCK] }

  /** n bytes of the stream from offset on. */
  function Window(sha: Sha, seed: seq<byte>, offset: nat, n: nat): (w: seq<byte>)
    ensures |w| == n && forall i :: 0 <= i < n ==> w[i] == At(sha, seed, offset + i)
  {
    seq<byte>(n, i requires 0 <= i => At(sha, seed, offset + i))
  }

  lemma WindowsJoin(sha: Sha, seed: seq<byte>, offset: nat, m: nat, n: nat)
    ensures Window(sha, seed, offset, m) + Window(sha, seed, offset + m, n) == Window(sha, seed, offset, m + n)
  {
    var whole := Window(sha, seed, offset, m + n);
    assert Window(sha, seed, offset, m) == whole[..m];
    assert Window(sha, seed, offset + m, n) == whole[m..] by {
      assert forall i :: 0 <= i < n ==> whole[m..][i] == At(sha, seed, offset + m + i);
    }
  }

  /** Fills the first n bytes of dst, a part of a block at a time. */
  method Fill(sha: Sha, seed: seq<byte>, offset: nat, dst: array<byte>, n: nat)
    requires n <= dst.Length
    modifies dst
    ensures dst[..n] == Window(sha, seed, offset, n)
    ensures dst[n..] == old(dst[n..])
  {
    var i := 0;
    while i < n
      invariant 0 <= i <= n
      invariant forall k :: 0 <= k < i ==> dst[k] == At(sha, seed, offset + k)
      invariant dst[n..] == old(dst[n..])
    {
      var blk, inBlk := (offset + i) / BLOCK, (offset + i) % BLOCK;
      var block := Block(sha, seed, blk);
      var m := Min(n - i, BLOCK - inBlk);
      forall k | 0 <= k < m { dst[i + k] := block[inBlk + k]; }
      forall k | i <= k < i + m ensures dst[k] == At(sha, seed, offset + k) {
        assert dst[i + (k - i)] == block[inBlk + (k - i)];
        assert (offset + k) / BLOCK == blk && (offset + k) % BLOCK == inBlk + (k - i);
      }
      i := i + m;
    }
  }

  // ---- the server's loop ----

  /** What went out, whether the server knows of all of it, and what it recorded. */
  datatype Sending = NotSent | Sending(body: seq<byte>, complete: bool, recorded: nat)

  /** What a download of want bytes puts on the connection when the first
      `writes` writes go through and of the next one, which fails, `part` bytes do. */
  function Sent(sha: Sha, seed: seq<byte>, want: int, charged: bool, writes: nat, part: nat): Sending {
    if want <= 0 || want > MAX_DOWNLOAD || !charged then NotSent
    else if want <= PIECE * writes then Sending(Window(sha, seed, 0, want), true, want)
    else
      var off := PIECE * writes;
      Sending(Window(sha, seed, 0, off + Min(part, Min(PIECE, want - off))), false, off)
  }

  method SendDown(sha: Sha, seed: seq<byte>, want: int, charged: bool, writes: nat, part: nat) returns (r: Sending)
    ensures r == Sent(sha, seed, want, charged, writes, part)
  {
    if want <= 0 || want > MAX_DOWNLOAD || !charged {
      return NotSent;
    }
    var buf := new byte[PIECE](_ => 0);
    var off, done := 0, 0;
    var body: seq<byte> := [];
    while off < want
      invariant 0 <= off <= want && done <= writes
      invariant off == Min(want, PIECE * done) && (off < want ==> off == PIECE * done)
      invariant body == Window(sha, seed, 0, off)
    {
      var n := Min(buf.Length, want - off);
      Fill(sha, seed, off, buf, n);
      if done == writes {
        var m := Min(part, n);
        WindowsJoin(sha, seed, 0, off, m);
        assert buf[..m] == buf[..n][..m] == Window(sha, seed, off, m);
        return Sending(body + buf[..m], false, off);
      }
      WindowsJoin(sha, seed, 0, off, n);
      body := body + buf[..n];
      off, done := off + n, done + 1;
    }
    return Sending(body, true, off);
  }

  // ---- the client's loop ----

  datatype Check = Verified | ModifiedAt(at: nat) | Cut(moved: nat)

  /** What the client says of a body of which `body` arrives before the
      connection ends, when it asked for want bytes. */
  function Judged(sha: Sha, seed: seq<byte>, body: seq<byte>, want: nat, moved: nat): Check
    requires moved <= want && moved <= |body|
    decreases want - moved
  {
    var n := Min(Min(PIECE, want - moved), |body| - moved);
    if moved == want then Verified
    else if body[moved..moved + n] != Window(sha, seed, moved, n) then ModifiedAt(moved)
    else if n < Min(PIECE, want - moved) then Cut(moved + n)
    else Judged(sha, seed, body, want, moved + n)
  }

  method CheckDown(sha: Sha, seed: seq<byte>, body: seq<byte>, want: nat) returns (r: Check)
    ensures r == Judged(sha, seed, body, want, 0)
  {
    var wanted := new byte[PIECE](_ => 0);
    var moved := 0;
    while moved < want
      invariant 0 <= moved <= want && moved <= |body|
      invariant Judged(sha, seed, body, want, moved) == Judged(sha, seed, body, want, 0)
    {
      var room := Min(PIECE, want - moved);
      var n := Min(room, |body| - moved);
      if n > 0 {
        Fill(sha, seed, moved, wanted, n);
        if body[moved..moved + n] != wanted[..n] {
          return ModifiedAt(moved);
        }
      }
      if n < room {
        return Cut(moved + n);
      }
      moved := moved + n;
    }
    return Verified;
  }

  /** The first k bytes of the body are the stream's. */
  predicate Holds(sha: Sha, seed: seq<byte>, body: seq<byte>, k: nat) {
    k <= |body| && body[..k] == Window(sha, seed, 0, k)
  }

  lemma HoldsStep(sha: Sha, seed: seq<byte>, body: seq<byte>, at: nat, n: nat)
    requires Holds(sha, seed, body, at) && at + n <= |body|
    ensures Holds(sha, seed, body, at + n) <==> body[at..at + n] == Window(sha, seed, at, n)
  {
    WindowsJoin(sha, seed, 0, at, n);
    var whole := body[..at + n];
    assert whole == body[..at] + body[at..at + n] && whole[at..] == body[at..at + n];
    assert (Window(sha, seed, 0, at) + Window(sha, seed, at, n))[at..] == Window(sha, seed, at, n);
  }

  lemma HoldsBefore(sha: Sha, seed: seq<byte>, body: seq<byte>, j: nat, k: nat)
    requires j <= k
    ensures Holds(sha, seed, body, k) ==> Holds(sha, seed, body, j)
  {
    if Holds(sha, seed, body, k) {
      WindowsJoin(sha, seed, 0, j, k - j);
      assert body[..j] == body[..k][..j];
    }
  }

  /** The right answer about a body: verified exactly when it is the stream,
      cut exactly when all that arrived is right but short, and otherwise the
      step that holds the first wrong byte. */
  predicate Right(sha: Sha, seed: seq<byte>, body: seq<byte>, want: nat, r: Check) {
    && (r.Verified? <==> Holds(sha, seed, body, want))
    && (r.Cut? <==> |body| < want && Holds(sha, seed, body, |body|))
    && (r.Cut? ==> r.moved == |body|)
    && (r.ModifiedAt? ==> r.at < Min(want, |body|) && Holds(sha, seed, body, r.at)
                          && !Holds(sha, seed, body, Min(r.at + PIECE, Min(want, |body|))))
  }

  lemma WrongPiece(sha: Sha, seed: seq<byte>, body: seq<byte>, want: nat, at: nat)
    requires at < Min(want, |body|) && Holds(sha, seed, body, at)
    requires !Holds(sha, seed, body, Min(at + PIECE, Min(want, |body|)))
    ensures Right(sha, seed, body, want, ModifiedAt(at))
  {
    hide Holds;
    HoldsBefore(sha, seed, body, Min(at + PIECE, Min(want, |body|)), want);
    HoldsBefore(sha, seed, body, Min(at + PIECE, Min(want, |body|)), |body|);
  }

  /** The check in 4096-byte steps is the comparison with the whole stream. */
  lemma {:induction false} CheckIsComparison(sha: Sha, seed: seq<byte>, body: seq<byte>, want: nat, moved: nat)
    requires moved <= want && Holds(sha, seed, body, moved)
    ensures Right(sha, seed, body, want, Judged(sha, seed, body, want, moved))
    decreases want - moved
  {
    var n := Min(Min(PIECE, want - moved), |body| - moved);
    HoldsStep(sha, seed, body, moved, n);
    if moved == want || |body| == moved {
      assert Judged(sha, seed, body, want, moved) == if moved == want then Verified else Cut(moved);
    } else if body[moved..moved + n] != Window(sha, seed, moved, n) {
      hide Window, Holds, Right;
      WrongPiece(sha, seed, body, want, moved);
    } else if n < Min(PIECE, want - moved) {
      hide Window, Holds;
    } else {
      hide Window, Holds, Right;
      CheckIsComparison(sha, seed, body, want, moved + n);
    }
  }

  /** What arrives of a download passes the check exactly when all of it went out;
      otherwise it is reported cut with exactly the bytes that did, and the server
      recorded at most one piece less. */
  lemma DownloadChecks(sha: Sha, seed: seq<byte>, want: nat, charged: bool, writes: nat, part: nat)
    requires Sent(sha, seed, want, charged, writes, part).Sending?
    ensures var sent := Sent(sha, seed, want, charged, writes, part);
            && Judged(sha, seed, sent.body, want, 0) == (if |sent.body| == want then Verified else Cut(|sent.body|))
            && (sent.complete ==> |sent.body| == want)
            && sent.recorded <= |sent.body| <= sent.recorded + PIECE
  {
    var sent := Sent(sha, seed, want, charged, writes, part);
    assert sent.body[..|sent.body|] == sent.body && Holds(sha, seed, sent.body, |sent.body|);
    CheckIsComparison(sha, seed, sent.body, want, 0);
  }
}
