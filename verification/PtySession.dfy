/** The local terminal session of internal/termserver/local.go: a read loop that reuses one buffer
    and queues copies, and a once-only close. */
module PtySession {
  import opened MuxFrame

  const BUFFER_SIZE := 32 * 1024

  /** One answer of the terminal device: it may scribble over the whole buffer, of which the first
      `count` bytes are the data read, and it may report the end or another error. */
  datatype Answer = Answer(fill: Bytes, count: nat, failed: bool) {
    function Data(): Bytes
      requires count <= |fill|
    {
      fill[..count]
    }
  }
  type Read = r: Answer | r.count <= |r.fill| == BUFFER_SIZE
    witness Answer(seq(BUFFER_SIZE, _ => 0 as byte), 0, true)

  // ----- what the loop queues

  /** The chunk queued for one answer, if there is data in it. */
  function Chunk(r: Read): seq<Bytes> {
    if r.count > 0 then [r.Data()] else []
  }

  /** The chunks queued for a series of reads, none after the first error. */
  function Chunks(answers: seq<Read>): seq<Bytes> {
    if answers == [] then []
    else Chunk(answers[0]) + (if answers[0].failed then [] else Chunks(answers[1..]))
  }

  lemma ChunksExtend(queued: seq<Bytes>, answers: seq<Read>, i: nat)
    requires i < |answers|
    ensures queued + Chunks(answers[i..]) ==
      (queued + Chunk(answers[i])) + (if answers[i].failed then [] else Chunks(answers[i + 1..]))
    ensures Ends(answers[i..]) == (answers[i].failed || Ends(answers[i + 1..]))
  {
  }

  predicate Ends(answers: seq<Read>) {
    answers != [] && (answers[0].failed || Ends(answers[1..]))
  }

  /** The output ends exactly if some read fails. */
  lemma {:induction false} EndsAtFailure(answers: seq<Read>)
    ensures Ends(answers) <==> exists i :: 0 <= i < |answers| && answers[i].failed
  {
    if answers != [] {
      EndsAtFailure(answers[1..]);
      if i :| 0 <= i < |answers| && answers[i].failed {
        assert i > 0 ==> answers[1..][i - 1].failed;
      }
      if i :| 0 <= i < |answers| - 1 && answers[1..][i].failed {
        assert answers[i + 1].failed;
      }
    }
  }

  /** The reads that happen: all up to and including the first that reports an error. */
  function Performed(answers: seq<Read>): (k: nat)
    ensures k <= |answers|
    ensures forall i :: 0 <= i < k - 1 ==> !answers[i].failed
    ensures k < |answers| ==> k > 0 && answers[k - 1].failed
  {
    if answers == [] then 0 else if answers[0].failed then 1 else 1 + Performed(answers[1..])
  }

  function Concat(chunks: seq<Bytes>): Bytes {
    if chunks == [] then [] else chunks[0] + Concat(chunks[1..])
  }

  function BytesRead(answers: seq<Read>): Bytes
  {
    if answers == [] then []
    else BytesRead(answers[..|answers| - 1]) + answers[|answers| - 1].Data()
  }

  lemma {:induction false} BytesReadFirst(answers: seq<Read>)
    requires answers != []
    ensures BytesRead(answers) == answers[0].Data() + BytesRead(answers[1..])
  {
    var n := |answers| - 1;
    if n > 0 {
      BytesReadFirst(answers[..n]);
      assert answers[..n][1..] == answers[1..][..n - 1];
    }
  }

  lemma ConcatChunk(r: Read, rest: seq<Bytes>)
    ensures Concat(Chunk(r) + rest) == r.Data() + Concat(rest)
  {
    if r.count > 0 {
      assert (Chunk(r) + rest)[1..] == rest;
    } else {
      assert Chunk(r) + rest == rest;
    }
  }

  lemma ConcatOne(r: Read)
    ensures Concat(Chunk(r)) == r.Data()
  {
  }

  lemma BytesOfFirst(answers: seq<Read>)
    requires answers != []
    ensures BytesRead(answers[..Performed(answers)]) == answers[0].Data() +
      if answers[0].failed then [] else BytesRead(answers[1..][..Performed(answers[1..])])
  {
    var k := Performed(answers);
    BytesReadFirst(answers[..k]);
    if answers[0].failed {
      assert answers[..1][1..] == [];
    } else {
      assert answers[..k][1..] == answers[1..][..k - 1];
    }
  }

  /** Nothing read is lost, repeated or reordered. */
  lemma {:induction false} ChunksConserveBytes(answers: seq<Read>)
    ensures Concat(Chunks(answers)) == BytesRead(answers[..Performed(answers)])
  {
    if answers != [] {
      BytesOfFirst(answers);
      if answers[0].failed {
        ConcatOne(answers[0]);
        assert Chunks(answers) == Chunk(answers[0]);
      } else {
        ChunksConserveBytes(answers[1..]);
        ConcatChunk(answers[0], Chunks(answers[1..]));
      }
    }
  }

  /** No queued chunk is empty or larger than the buffer. */
  lemma {:induction false} ChunksFitBuffer(answers: seq<Read>)
    ensures forall c :: c in Chunks(answers) ==> 0 < |c| <= BUFFER_SIZE
  {
    if answers != [] {
      ChunksFitBuffer(answers[1..]);
    }
  }

  // ----- the session object

  class Session {
    const sessionId: string
    const killOnClose: bool
    const tmux: string
    var output: seq<array<byte>>
    var outputClosed: bool
    var onceDone: bool
    var deviceCloses: nat
    var sessionKills: nat

    constructor (sessionId: string, killOnClose: bool, tmux: string)
      ensures Valid() && !onceDone && Queue() == [] && !outputClosed
      ensures this.sessionId == sessionId && this.killOnClose == killOnClose && this.tmux == tmux
    {
      this.sessionId, this.killOnClose, this.tmux := sessionId, killOnClose, tmux;
      output, outputClosed := [], false;
      onceDone, deviceCloses, sessionKills := false, 0, 0;
    }

    ghost predicate KillsOnClose() {
      killOnClose && sessionId != "" && tmux != ""
    }

    /** However often the session has been closed, the device was closed at most once, and the tmux
        session was killed with it exactly when that was asked for. */
    ghost predicate Valid()
      reads this
    {
      && deviceCloses == (if onceDone then 1 else 0)
      && sessionKills == (if onceDone && KillsOnClose() then 1 else 0)
    }

    /** The contents, now, of the chunks queued so far. */
    ghost function Queue(): (q: seq<Bytes>)
      reads this, output
    {
      Contents(output)
    }

    method Close()
      requires Valid()
      modifies this`onceDone, this`deviceCloses, this`sessionKills
      ensures Valid() && onceDone
      ensures deviceCloses == old(deviceCloses) + if old(onceDone) then 0 else 1
      ensures sessionKills == old(sessionKills) +
        if !old(onceDone) && killOnClose && sessionId != "" && tmux != "" then 1 else 0
    {
      if !onceDone {
        deviceCloses := deviceCloses + 1;
        if killOnClose && sessionId != "" && tmux != "" {
          sessionKills := sessionKills + 1;
        }
        onceDone := true;
      }
    }

    /** The device fills the shared buffer. */
    static method ReadDevice(buf: array<byte>, r: Read)
      requires buf.Length == BUFFER_SIZE
      modifies buf
      ensures buf[..] == r.fill
    {
      Copy(buf, 0, r.fill);
    }

    /** Queue a copy of the bytes just read. */
    method Send(buf: array<byte>, n: nat)
      requires 0 < n <= buf.Length && buf !in output
      modifies this`output
      ensures old(output) <= output && buf !in output
      ensures Queue() == old(Queue()) + [buf[..n]]
    {
      var chunk := new byte[n](k requires 0 <= k < n <= buf.Length reads buf => buf[k]);
      assert chunk[..] == buf[..n];
      output := output + [chunk];
    }

    /** One read into the shared buffer, queued if it has data. */
    method ReadOnce(buf: array<byte>, r: Read)
      requires buf.Length == BUFFER_SIZE && buf !in output
      modifies buf, this`output
      ensures old(output) <= output && buf !in output
      ensures Queue() == old(Queue()) + Chunk(r)
    {
      ReadDevice(buf, r);
      if r.count > 0 {
        Send(buf, r.count);
      }
    }

    /** The loop over any answers of the device. At its end every chunk, the earliest included, still
        holds the bytes it was queued with. */
    method ReadLoop(answers: seq<Read>)
      requires !outputClosed
      modifies this`output, this`outputClosed
      ensures Queue() == old(Queue()) + Chunks(answers)
      ensures old(output) <= output
      ensures outputClosed == Ends(answers)
    {
      var buf := new byte[BUFFER_SIZE](_ => 0);
      ghost var goal := Queue() + Chunks(answers);
      var i := 0;
      while i < |answers|
        invariant 0 <= i <= |answers|
        invariant old(output) <= output && buf !in output
        invariant Queue() + Chunks(answers[i..]) == goal
        invariant !outputClosed && Ends(answers[i..]) == Ends(answers)
      {
        ChunksExtend(Queue(), answers, i);
        var failed := ReadNext(buf, answers[i]);
        if failed {
          break;
        }
        i := i + 1;
      }
      assert !outputClosed ==> answers[i..] == [];
    }

    /** One iteration: an error closes the output. */
    method ReadNext(buf: array<byte>, r: Read) returns (failed: bool)
      requires buf.Length == BUFFER_SIZE && buf !in output && !outputClosed
      modifies buf, this`output, this`outputClosed
      ensures old(output) <= output && buf !in output && failed == outputClosed == r.failed
      ensures Queue() == old(Queue()) + Chunk(r)
    {
      ReadOnce(buf, r);
      if r.failed {
        outputClosed := true;
      }
      failed := r.failed;
    }
  }

  ghost function Contents(chunks: seq<array<byte>>): (q: seq<Bytes>)
    reads chunks
    ensures |q| == |chunks|
    ensures forall i :: 0 <= i < |chunks| ==> q[i] == chunks[i][..]
  {
    seq(|chunks|, i requires 0 <= i < |chunks| reads chunks => chunks[i][..])
  }
}
