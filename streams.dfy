/** The two streams the program pumps between: an io.Reader (the input
    file or standard input) and an io.Writer (the output file or standard
    output). Both are scripted: the reader replays a fixed sequence of read
    results and the writer a fixed sequence of write outcomes, so that every
    behaviour the program can meet from a real stream can be stated. */
module Streams {
  import opened Bytes

  /** The error a Read returns: nil, io.EOF, or any other error. */
  datatype ReadErr = Nil | Eof | Other

  /** One scripted result of the underlying stream: the bytes it delivers
      and the error it reports with them. */
  datatype ReadResult = ReadResult(data: seq<byte>, err: ReadErr)

  /** What one Read call into a buffer of some capacity returns, and the
      script left for the calls after it. */
  datatype ReadStep = ReadStep(data: seq<byte>, err: ReadErr, rest: seq<ReadResult>)

  /** Bytes still to be delivered plus results still to be returned. */
  function Measure(script: seq<ReadResult>): nat
  {
    if script == [] then 0 else |script[0].data| + 1 + Measure(script[1..])
  }

  /** One Read into a buffer of cap bytes, as io.Reader allows it: at most
      cap bytes come back. A scripted result that does not fit is delivered
      in pieces: the first cap bytes with no error, the remainder (with the
      result's own error) on later calls. A stream whose script is used up
      reports io.EOF with no bytes. */
  function NextRead(script: seq<ReadResult>, cap: nat): (r: ReadStep)
    ensures |r.data| <= cap
    ensures script == [] ==> r == ReadStep([], Eof, [])
    ensures script != [] && cap > 0 ==> Measure(r.rest) < Measure(script)
    ensures script != [] && |script[0].data| <= cap ==> r == ReadStep(script[0].data, script[0].err, script[1..])
  {
    if script == [] then ReadStep([], Eof, [])
    else
      var head := script[0];
      if |head.data| <= cap then ReadStep(head.data, head.err, script[1..])
      else ReadStep(head.data[..cap], Nil, [ReadResult(head.data[cap..], head.err)] + script[1..])
  }

  // ---------------------------------------------------------------------
  // What a whole script delivers, independent of how it is split

  /** Every byte the program reads before it stops reading: the data of
      each result up to and including the first that carries an error. */
  function Consumed(script: seq<ReadResult>): seq<byte>
  {
    if script == [] then []
    else if script[0].err == Nil then script[0].data + Consumed(script[1..])
    else script[0].data
  }

  /** The error that ends the reading: the first non-nil error in the
      script, or io.EOF once it is used up. */
  function StopErr(script: seq<ReadResult>): (e: ReadErr)
    ensures e != Nil
  {
    if script == [] then Eof
    else if script[0].err != Nil then script[0].err
    else StopErr(script[1..])
  }

  /** The number of reads into a cap-byte buffer that return bytes, for one
      scripted result of len bytes: len divided by cap, rounded up. */
  function Pieces(len: nat, cap: nat): (p: nat)
    requires cap > 0
    ensures (p - 1) * cap < len <= p * cap
    decreases len
  {
    if len == 0 then 0 else if len <= cap then 1 else 1 + Pieces(len - cap, cap)
  }

  /** What is left of the script once reading stops: everything after the
      first result that carries an error. */
  function After(script: seq<ReadResult>): seq<ReadResult>
  {
    if script == [] then []
    else if script[0].err != Nil then script[1..]
    else After(script[1..])
  }

  /** The number of reads returning bytes, and so the number of writes, the
      program makes before it stops reading. */
  function WriteCalls(script: seq<ReadResult>, cap: nat): nat
    requires cap > 0
  {
    if script == [] then 0
    else if script[0].err == Nil then Pieces(|script[0].data|, cap) + WriteCalls(script[1..], cap)
    else Pieces(|script[0].data|, cap)
  }

  /** A read keeps the script's totals: the bytes consumed, the stopping
      error and the number of writes are those of the step plus, when the
      step carries no error, those of the rest. */
  lemma NextReadKeepsTotals(script: seq<ReadResult>, cap: nat)
    requires cap > 0
    ensures var r := NextRead(script, cap);
      && Consumed(script) == r.data + (if r.err == Nil then Consumed(r.rest) else [])
      && StopErr(script) == (if r.err == Nil then StopErr(r.rest) else r.err)
      && WriteCalls(script, cap) == (if |r.data| > 0 then 1 else 0) + (if r.err == Nil then WriteCalls(r.rest, cap) else 0)
  {
    if script != [] && |script[0].data| > cap {
      var head := script[0];
      var r := NextRead(script, cap);
      assert r.rest[1..] == script[1..];
      assert head.data == head.data[..cap] + head.data[cap..];
    }
  }

  /** What is left unread once the stopping error is met is what the step
      leaves when it carries that error, and otherwise what the rest leaves. */
  lemma NextReadKeepsAfter(script: seq<ReadResult>, cap: nat)
    requires cap > 0
    ensures var r := NextRead(script, cap);
      After(script) == (if r.err == Nil then After(r.rest) else r.rest)
  {
    if script != [] && |script[0].data| > cap {
      assert NextRead(script, cap).rest[1..] == script[1..];
    }
  }

  /** A stream read through a scripted sequence of results. */
  class Reader {
    var script: seq<ReadResult>

    constructor (script: seq<ReadResult>)
      ensures this.script == script
    {
      this.script := script;
    }

    /** in.Read(b): fills the front of b and returns how many bytes it
        filled, and the error. The rest of b is left as it was. */
    method Read(b: array<byte>) returns (n: nat, err: ReadErr)
      modifies this, b
      ensures var r := NextRead(old(script), b.Length);
        && n == |r.data| && err == r.err && script == r.rest
        && b[..n] == r.data && b[n..] == old(b[n..])
    {
      var r := NextRead(script, b.Length);
      forall k | 0 <= k < |r.data| {
        b[k] := r.data[k];
      }
      n, err := |r.data|, r.err;
      script := r.rest;
    }
  }

  // ---------------------------------------------------------------------
  // The writer

  /** One scripted write outcome: success, or an error after the first
      kept bytes of the call reached the stream. */
  datatype WriteOutcome = Accept | Reject(kept: nat)

  /** What one Write call does: whether it succeeded, the bytes that
      reached the stream, and the outcomes left for later calls. */
  datatype WriteStep = WriteStep(ok: bool, landed: seq<byte>, rest: seq<WriteOutcome>)

  /** One Write of p. A stream whose script is used up accepts everything.
      A failing write may still deliver a prefix of p (io.Writer reports an
      error whenever it writes fewer than all bytes). */
  function NextWrite(outcomes: seq<WriteOutcome>, p: seq<byte>): (w: WriteStep)
    ensures w.ok ==> w.landed == p
    ensures w.landed <= p
    ensures w.ok <==> outcomes == [] || outcomes[0].Accept?
    ensures w.rest == if outcomes == [] then [] else outcomes[1..]
  {
    if outcomes == [] then WriteStep(true, p, [])
    else match outcomes[0]
      case Accept => WriteStep(true, p, outcomes[1..])
      case Reject(kept) => WriteStep(false, p[..if kept < |p| then kept else |p|], outcomes[1..])
  }

  /** The first m writes all succeed. */
  predicate Accepts(outcomes: seq<WriteOutcome>, m: nat)
  {
    m == 0 || outcomes == [] || (outcomes[0].Accept? && Accepts(outcomes[1..], m - 1))
  }

  /** The outcomes left after m writes: a suffix, m shorter, or empty once
      the script is used up. */
  function Drop(outcomes: seq<WriteOutcome>, m: nat): (rest: seq<WriteOutcome>)
    ensures |rest| == if m <= |outcomes| then |outcomes| - m else 0
  {
    if m == 0 || outcomes == [] then outcomes else Drop(outcomes[1..], m - 1)
  }

  /** a + b writes all succeed exactly when the first a do and the b after
      them do. */
  lemma {:induction false} AcceptsAdd(outcomes: seq<WriteOutcome>, a: nat, b: nat)
    ensures Accepts(outcomes, a + b) == (Accepts(outcomes, a) && Accepts(Drop(outcomes, a), b))
    decreases a
  {
    if a > 0 && outcomes != [] {
      AcceptsAdd(outcomes[1..], a - 1, b);
    }
  }

  /** When the first of total writes (if k is 1) succeeds, all total succeed
      exactly when the other m do. */
  lemma AcceptsAfterOne(outcomes: seq<WriteOutcome>, total: nat, k: nat, m: nat)
    requires k <= 1 && total == k + m
    requires k == 1 ==> outcomes == [] || outcomes[0].Accept?
    ensures Accepts(outcomes, total) == Accepts(Drop(outcomes, k), m)
  {
    AcceptsAdd(outcomes, k, m);
  }

  /** For any split of total writes into a and b, the outcomes left after
      total writes are those b writes leave after a writes. */
  lemma DropSplit(outcomes: seq<WriteOutcome>, total: nat, a: nat, b: nat)
    requires total == a + b
    ensures Drop(outcomes, total) == Drop(Drop(outcomes, a), b)
  {
    DropAdd(outcomes, a, b);
  }

  /** b writes after a writes use the outcomes a + b writes use. */
  lemma {:induction false} DropAdd(outcomes: seq<WriteOutcome>, a: nat, b: nat)
    ensures Drop(Drop(outcomes, a), b) == Drop(outcomes, a + b)
    decreases a
  {
    if a > 0 && outcomes != [] {
      DropAdd(outcomes[1..], a - 1, b);
    }
  }

  /** A stream written through a scripted sequence of outcomes; written is
      everything that has reached it. */
  class Writer {
    var written: seq<byte>
    var outcomes: seq<WriteOutcome>

    constructor (outcomes: seq<WriteOutcome>)
      ensures written == [] && this.outcomes == outcomes
    {
      written, this.outcomes := [], outcomes;
    }

    /** out.Write(b[:n]): reports whether the write succeeded. */
    method Write(b: array<byte>, n: nat) returns (ok: bool)
      requires n <= b.Length
      modifies this
      ensures var w := NextWrite(old(outcomes), b[..n]);
        && ok == w.ok && written == old(written) + w.landed && outcomes == w.rest
    {
      var w := NextWrite(outcomes, b[..n]);
      ok := w.ok;
      written := written + w.landed;
      outcomes := w.rest;
    }
  }
}
