/** rc4crypt: encrypts or decrypts a stream with RC4. The key comes from a
    file, or from the command line when the key argument starts with "@";
    the input is then read in chunks of at most 1024 bytes, each chunk is
    transformed with one cipher kept for the whole stream and written out,
    until the input reports end of file or an error. */
module Rc4crypt {
  import opened Bytes
  import opened Rc4
  import opened Streams

  /** Size of the read/write buffer. */
  const BUFLEN: nat := 1024
  /** Largest key accepted, in bytes. */
  const MAXKEYLEN: nat := 256
  /** Smallest key accepted, in bytes. */
  const MINKEYLEN: nat := 1
  /** The byte '@' that marks a key given on the command line. */
  const AT: byte := 0x40

  // ---------------------------------------------------------------------
  // getKey

  /** Why no key could be had: the key file could not be read, or the key
      is longer than MAXKEYLEN or shorter than MINKEYLEN. */
  datatype KeyError = Unreadable | TooLong | TooShort

  datatype KeyResult = Key(key: seq<byte>) | NoKey(error: KeyError)

  /** The key argument names the key itself rather than a file: it starts
      with "@". */
  predicate Inline(fn: seq<byte>): (b: bool)
    ensures b <==> [AT] <= fn
  {
    |fn| > 0 && fn[0] == AT
  }

  /** The length check that both kinds of key go through. */
  function CheckLength(k: seq<byte>): (r: KeyResult)
    ensures r.Key? <==> MINKEYLEN <= |k| <= MAXKEYLEN
    ensures r.Key? ==> r.key == k
    ensures r == NoKey(TooLong) <==> |k| > MAXKEYLEN
    ensures r == NoKey(TooShort) <==> |k| < MINKEYLEN
    ensures r != NoKey(Unreadable)
  {
    if MAXKEYLEN < |k| then NoKey(TooLong)
    else if MINKEYLEN > |k| then NoKey(TooShort)
    else Key(k)
  }

  /** getKey: the key named by fn. files maps each readable file name to its
      contents; a name it lacks cannot be read. */
  function GetKey(fn: seq<byte>, files: map<seq<byte>, seq<byte>>): (r: KeyResult)
    ensures r.Key? ==> MINKEYLEN <= |r.key| <= MAXKEYLEN
    ensures Inline(fn) ==> (r.Key? <==> MINKEYLEN + 1 <= |fn| <= MAXKEYLEN + 1)
    ensures Inline(fn) && r.Key? ==> r.key == fn[1..]
    ensures Inline(fn) ==> (r == NoKey(TooLong) <==> |fn| > MAXKEYLEN + 1)
    ensures Inline(fn) ==> (r == NoKey(TooShort) <==> |fn| < MINKEYLEN + 1)
    ensures !Inline(fn) ==> (r == NoKey(Unreadable) <==> fn !in files)
    ensures !Inline(fn) && fn in files ==> (r.Key? <==> MINKEYLEN <= |files[fn]| <= MAXKEYLEN)
    ensures !Inline(fn) && fn in files ==> (r == NoKey(TooLong) <==> |files[fn]| > MAXKEYLEN)
    ensures !Inline(fn) && fn in files ==> (r == NoKey(TooShort) <==> |files[fn]| < MINKEYLEN)
    ensures !Inline(fn) && r.Key? ==> fn in files && r.key == files[fn]
  {
    if Inline(fn) then CheckLength(fn[1..])
    else if fn !in files then NoKey(Unreadable)
    else CheckLength(files[fn])
  }

  /** An inline key never consults the files. */
  lemma InlineReadsNoFile(fn: seq<byte>, files1: map<seq<byte>, seq<byte>>, files2: map<seq<byte>, seq<byte>>)
    requires Inline(fn)
    ensures GetKey(fn, files1) == GetKey(fn, files2)
  {
  }

  /** "@" alone names the empty key, which is too short. */
  lemma AtAloneRejected(files: map<seq<byte>, seq<byte>>)
    ensures GetKey([AT], files) == NoKey(TooShort)
  {
    assert Inline([AT]);
  }

  /** The same bytes are accepted or rejected alike whether they come from
      the command line or from a file. */
  lemma SameRuleForBothSources(inline: seq<byte>, name: seq<byte>, files: map<seq<byte>, seq<byte>>)
    requires Inline(inline) && !Inline(name) && name in files && files[name] == inline[1..]
    ensures GetKey(inline, files) == GetKey(name, files)
  {
  }

  // ---------------------------------------------------------------------
  // The pump

  /** How the program ends: normally, or through one of its exits. */
  datatype Exit = Done | BadKey | ReadFailure | WriteFailure

  /** The process exit status of each ending. */
  function Status(e: Exit): (code: int)
    ensures code == 0 <==> e == Done
    ensures code == 2 <==> e == BadKey
    ensures code == 6 <==> e == ReadFailure
    ensures code == 7 <==> e == WriteFailure
  {
    match e
    case Done => 0
    case BadKey => 2
    case ReadFailure => 6
    case WriteFailure => 7
  }

  /** The bytes that reached the output, and how the program ended. */
  datatype Outcome = Outcome(output: seq<byte>, exit: Exit)

  /** What one pass of the loop body decides: stop with an exit, or go
      round again. */
  datatype Next = Stop(exit: Exit) | Continue

  /** One pass of the loop body: the bytes it writes, what comes next, the
      read script and write outcomes left, and how many bytes it read (and
      so how far it advanced the cipher). */
  datatype Pass = Pass(out: seq<byte>, next: Next, script: seq<ReadResult>, outcomes: seq<WriteOutcome>, n: nat)

  /** One pass of the loop body from cipher state st: read at most BUFLEN
      bytes; if any came, transform them with the next keystream bytes and
      write them, stopping on a failed write; then stop on io.EOF or another
      read error. */
  function Iteration(script: seq<ReadResult>, outcomes: seq<WriteOutcome>, st: State): (it: Pass)
    ensures it.n <= BUFLEN
    ensures it.next != Stop(BadKey)
    ensures it.next == Continue ==> Measure(it.script) < Measure(script)
  {
    var r := NextRead(script, BUFLEN);
    var n := |r.data|;
    var c := XorBytes(r.data, Keystream(st, n));
    var w := NextWrite(outcomes, c);
    if n > 0 && !w.ok then Pass(w.landed, Stop(WriteFailure), r.rest, w.rest, n)
    else
      var out := if n > 0 then c else [];
      var outcomes' := if n > 0 then w.rest else outcomes;
      match r.err
      case Eof => Pass(out, Stop(Done), r.rest, outcomes', n)
      case Other => Pass(out, Stop(ReadFailure), r.rest, outcomes', n)
      case Nil => Pass(out, Continue, r.rest, outcomes', n)
  }

  /** The whole loop as a function of the read script, the write outcomes
      and the cipher state: the passes of the loop body one after the other,
      each from the cipher state the previous one left. */
  function Run(script: seq<ReadResult>, outcomes: seq<WriteOutcome>, st: State): (o: Outcome)
    ensures o.exit != BadKey
    decreases Measure(script)
  {
    var it := Iteration(script, outcomes, st);
    match it.next
    case Stop(e) => Outcome(it.out, e)
    case Continue =>
      var o := Run(it.script, it.outcomes, Advance(st, it.n));
      Outcome(it.out + o.output, o.exit)
  }

  /** Where the loop leaves the input, the write outcomes and the cipher. */
  datatype Leftover = Leftover(script: seq<ReadResult>, outcomes: seq<WriteOutcome>, st: State)

  /** The input still unread, the write outcomes still unused and the
      cipher state when the loop stops: those the stopping pass leaves. */
  function Rest(script: seq<ReadResult>, outcomes: seq<WriteOutcome>, st: State): Leftover
    decreases Measure(script)
  {
    var it := Iteration(script, outcomes, st);
    match it.next
    case Stop(_) => Leftover(it.script, it.outcomes, Advance(st, it.n))
    case Continue => Rest(it.script, it.outcomes, Advance(st, it.n))
  }

  /** Each pass reads at most BUFLEN bytes, transforms exactly the bytes it
      read with the next keystream bytes and, unless the write fails,
      writes exactly those bytes. */
  lemma PassWritesWhatItReads(script: seq<ReadResult>, outcomes: seq<WriteOutcome>, st: State)
    ensures var it := Iteration(script, outcomes, st);
      var d := NextRead(script, BUFLEN).data;
      && it.n == |d| <= BUFLEN
      && it.out <= XorBytes(d, Keystream(st, |d|))
      && (it.next != Stop(WriteFailure) ==> it.out == XorBytes(d, Keystream(st, |d|)))
  {
    var d := NextRead(script, BUFLEN).data;
    if |d| == 0 {
      assert XorBytes(d, Keystream(st, |d|)) == [];
    }
  }

  /** Run is one pass followed, when the pass goes round again, by the rest
      of the loop from where the pass left the streams and the cipher. */
  lemma RunUnfolds(script: seq<ReadResult>, outcomes: seq<WriteOutcome>, st: State)
    ensures var it := Iteration(script, outcomes, st);
      var o := Run(script, outcomes, st);
      if it.next.Stop? then o == Outcome(it.out, it.next.exit)
      else var o' := Run(it.script, it.outcomes, Advance(st, it.n));
        o == Outcome(it.out + o'.output, o'.exit)
  {
  }

  /** Concatenation is associative (kept apart so the solver meets it once). */
  lemma AppendAssoc(a: seq<byte>, b: seq<byte>, c: seq<byte>)
    ensures a + (b + c) == (a + b) + c
  {
  }

  /** Putting the same bytes in front keeps a prefix a prefix. */
  lemma PrefixConcat(p: seq<byte>, a: seq<byte>, b: seq<byte>)
    requires a <= b
    ensures p + a <= p + b
  {
    assert (p + b)[..|p + a|] == p + a;
  }

  /** The whole-stream statement about Run from one starting point: the
      output is a prefix of the input consumed XORed with one continuous
      keystream; the loop ends with a write failure exactly when one of
      the writes it makes fails; otherwise the whole ciphertext is written,
      and the loop ends normally exactly when reading stopped at io.EOF and
      with a read failure exactly when it stopped at another error. */
  ghost predicate MeetsSpec(script: seq<ReadResult>, outcomes: seq<WriteOutcome>, st: State)
  {
    var o := Run(script, outcomes, st);
    var total := Consumed(script);
    var full := XorBytes(total, Keystream(st, |total|));
    var ok := Accepts(outcomes, WriteCalls(script, BUFLEN));
    && o.output <= full
    && (o.exit == WriteFailure <==> !ok)
    && (o.exit != WriteFailure ==> o.output == full)
    && (o.exit == Done <==> ok && StopErr(script) == Eof)
    && (o.exit == ReadFailure <==> ok && StopErr(script) == Other)
  }

  /** A pass stops on a failed write only when it read some bytes and its
      write was rejected. */
  lemma WriteFailurePass(script: seq<ReadResult>, outcomes: seq<WriteOutcome>, st: State)
    requires Iteration(script, outcomes, st).next == Stop(WriteFailure)
    ensures |NextRead(script, BUFLEN).data| > 0 && outcomes != [] && outcomes[0].Reject?
  {
  }

  /** A pass that reads some bytes and whose write is rejected meets the
      specification. */
  lemma WriteFailureMeetsSpec(script: seq<ReadResult>, outcomes: seq<WriteOutcome>, st: State)
    requires |NextRead(script, BUFLEN).data| > 0 && outcomes != [] && outcomes[0].Reject?
    ensures MeetsSpec(script, outcomes, st)
  {
    var r := NextRead(script, BUFLEN);
    NextReadKeepsTotals(script, BUFLEN);
    var n := |r.data|;
    var c := XorBytes(r.data, Keystream(st, n));
    var w := NextWrite(outcomes, c);
    assert n > 0 && !w.ok;
    var total := Consumed(script);
    var full := XorBytes(total, Keystream(st, |total|));
    if r.err == Nil {
      var rest := Consumed(r.rest);
      StreamingIsBatch(st, r.data, rest);
      assert full == c + XorBytes(rest, Keystream(Advance(st, n), |rest|));
    } else {
      assert total == r.data;
    }
    assert c <= full;
  }

  /** A pass that stops at a read error or io.EOF without a failed write
      meets the specification. */
  lemma ReadStopMeetsSpec(script: seq<ReadResult>, outcomes: seq<WriteOutcome>, st: State)
    requires Iteration(script, outcomes, st).next in {Stop(Done), Stop(ReadFailure)}
    ensures MeetsSpec(script, outcomes, st)
  {
    var r := NextRead(script, BUFLEN);
    NextReadKeepsTotals(script, BUFLEN);
    var n := |r.data|;
    assert r.err != Nil;
    assert Consumed(script) == r.data;
    if n == 0 {
      assert XorBytes(r.data, Keystream(st, n)) == [];
    }
  }

  /** After a pass that goes round again, the whole transformed stream is
      what the pass wrote followed by what the rest of the loop has to
      write. */
  lemma ContinueKeepsOutput(script: seq<ReadResult>, outcomes: seq<WriteOutcome>, st: State)
    requires Iteration(script, outcomes, st).next == Continue
    ensures var it := Iteration(script, outcomes, st);
      var total := Consumed(script);
      var total' := Consumed(it.script);
      XorBytes(total, Keystream(st, |total|))
        == it.out + XorBytes(total', Keystream(Advance(st, it.n), |total'|))
  {
    var it := Iteration(script, outcomes, st);
    var r := NextRead(script, BUFLEN);
    ContinuePass(script, outcomes, st);
    NextReadKeepsTotals(script, BUFLEN);
    var n := |r.data|;
    var c := XorBytes(r.data, Keystream(st, n));
    assert it.out == c by {
      if n == 0 { assert c == []; }
    }
    StreamingIsBatch(st, r.data, Consumed(r.rest));
  }

  /** After a pass that goes round again, the writes still to come all
      succeed exactly when all the loop's writes do. */
  lemma ContinueKeepsAccepts(script: seq<ReadResult>, outcomes: seq<WriteOutcome>, st: State)
    requires Iteration(script, outcomes, st).next == Continue
    ensures var it := Iteration(script, outcomes, st);
      Accepts(outcomes, WriteCalls(script, BUFLEN)) == Accepts(it.outcomes, WriteCalls(it.script, BUFLEN))
  {
    var it := Iteration(script, outcomes, st);
    ContinueKeepsCalls(script, outcomes, st);
    AcceptsAfterOne(outcomes, WriteCalls(script, BUFLEN), if it.n > 0 then 1 else 0, WriteCalls(it.script, BUFLEN));
  }

  /** After a pass that goes round again, reading still stops with the same
      error. */
  lemma ContinueKeepsStopErr(script: seq<ReadResult>, outcomes: seq<WriteOutcome>, st: State)
    requires Iteration(script, outcomes, st).next == Continue
    ensures StopErr(script) == StopErr(Iteration(script, outcomes, st).script)
  {
    ContinuePass(script, outcomes, st);
    NextReadKeepsTotals(script, BUFLEN);
  }

  /** A pass that goes round again meets the specification when the rest
      of the loop does. */
  lemma ContinueMeetsSpec(script: seq<ReadResult>, outcomes: seq<WriteOutcome>, st: State)
    requires Iteration(script, outcomes, st).next == Continue
    requires var it := Iteration(script, outcomes, st);
      MeetsSpec(it.script, it.outcomes, Advance(st, it.n))
    ensures MeetsSpec(script, outcomes, st)
  {
    var it := Iteration(script, outcomes, st);
    ContinueKeepsOutput(script, outcomes, st);
    ContinueKeepsAccepts(script, outcomes, st);
    ContinueKeepsStopErr(script, outcomes, st);
    RunUnfolds(script, outcomes, st);
    var st' := Advance(st, it.n);
    var total' := Consumed(it.script);
    PrefixConcat(it.out, Run(it.script, it.outcomes, st').output, XorBytes(total', Keystream(st', |total'|)));
  }

  /** The loop meets its whole-stream specification from every starting
      point. */
  lemma {:induction false} RunMatchesSpec(script: seq<ReadResult>, outcomes: seq<WriteOutcome>, st: State)
    ensures MeetsSpec(script, outcomes, st)
    decreases Measure(script)
  {
    var it := Iteration(script, outcomes, st);
    match it.next
    case Continue =>
      RunMatchesSpec(it.script, it.outcomes, Advance(st, it.n));
      ContinueMeetsSpec(script, outcomes, st);
    case Stop(e) =>
      if e == WriteFailure {
        WriteFailurePass(script, outcomes, st);
        WriteFailureMeetsSpec(script, outcomes, st);
      } else {
        ReadStopMeetsSpec(script, outcomes, st);
      }
  }

  /** A read that returns no bytes and no error just leads to the next
      read. */
  lemma EmptyReadLoops(rest: seq<ReadResult>, outcomes: seq<WriteOutcome>, st: State)
    ensures Run([ReadResult([], Nil)] + rest, outcomes, st) == Run(rest, outcomes, st)
  {
    var script := [ReadResult([], Nil)] + rest;
    assert script[1..] == rest;
    assert Advance(st, 0) == st;
  }

  /** Bytes delivered together with io.EOF are still transformed and
      written before the loop ends normally. */
  lemma BytesWithEofWritten(d: seq<byte>, rest: seq<ReadResult>, outcomes: seq<WriteOutcome>, st: State)
    requires 0 < |d| <= BUFLEN
    requires outcomes == [] || outcomes[0].Accept?
    ensures Run([ReadResult(d, Eof)] + rest, outcomes, st) == Outcome(XorBytes(d, Keystream(st, |d|)), Done)
  {
  }

  /** Bytes delivered together with a read error are still transformed
      and written before the loop ends with the read failure. */
  lemma BytesWithErrorWritten(d: seq<byte>, rest: seq<ReadResult>, outcomes: seq<WriteOutcome>, st: State)
    requires 0 < |d| <= BUFLEN
    requires outcomes == [] || outcomes[0].Accept?
    ensures Run([ReadResult(d, Other)] + rest, outcomes, st) == Outcome(XorBytes(d, Keystream(st, |d|)), ReadFailure)
  {
  }

  /** A failed write ends the loop with the write failure, whatever error
      the read that delivered the bytes reported, and nothing after that
      read is read or written. */
  lemma WriteFailureFirst(d: seq<byte>, e: ReadErr, rest: seq<ReadResult>, kept: nat, outcomes: seq<WriteOutcome>, st: State)
    requires 0 < |d| <= BUFLEN
    ensures Run([ReadResult(d, e)] + rest, [Reject(kept)] + outcomes, st).exit == WriteFailure
    ensures Rest([ReadResult(d, e)] + rest, [Reject(kept)] + outcomes, st) == Leftover(rest, outcomes, Advance(st, |d|))
  {
    assert ([ReadResult(d, e)] + rest)[1..] == rest;
    assert ([Reject(kept)] + outcomes)[1..] == outcomes;
  }

  /** Where a loop that does not fail to write leaves things: the input
      right after the result that ends reading, the outcomes after one per
      write, and the cipher advanced once per byte read. */
  ghost predicate LeavesAfter(script: seq<ReadResult>, outcomes: seq<WriteOutcome>, st: State)
  {
    Rest(script, outcomes, st)
      == Leftover(After(script), Drop(outcomes, WriteCalls(script, BUFLEN)), Advance(st, |Consumed(script)|))
  }

  /** A pass that stops at io.EOF or another read error leaves things as
      LeavesAfter says. */
  lemma ReadStopLeavesAfter(script: seq<ReadResult>, outcomes: seq<WriteOutcome>, st: State)
    requires Iteration(script, outcomes, st).next in {Stop(Done), Stop(ReadFailure)}
    ensures LeavesAfter(script, outcomes, st)
  {
    var r := NextRead(script, BUFLEN);
    NextReadKeepsTotals(script, BUFLEN);
    NextReadKeepsAfter(script, BUFLEN);
    assert r.err != Nil;
    assert Consumed(script) == r.data;
  }

  /** A pass that goes round again has read without error and has used
      one write outcome if it read any bytes. */
  lemma ContinuePass(script: seq<ReadResult>, outcomes: seq<WriteOutcome>, st: State)
    requires Iteration(script, outcomes, st).next == Continue
    ensures var it := Iteration(script, outcomes, st);
      var r := NextRead(script, BUFLEN);
      && r.err == Nil && it.script == r.rest && it.n == |r.data|
      && it.outcomes == Drop(outcomes, if it.n > 0 then 1 else 0)
      && (it.n > 0 ==> outcomes == [] || outcomes[0].Accept?)
  {
  }

  /** After a pass that goes round again, reading still stops at the same
      place. */
  lemma ContinueKeepsAfter(script: seq<ReadResult>, outcomes: seq<WriteOutcome>, st: State)
    requires Iteration(script, outcomes, st).next == Continue
    ensures After(script) == After(Iteration(script, outcomes, st).script)
  {
    ContinuePass(script, outcomes, st);
    NextReadKeepsAfter(script, BUFLEN);
  }

  /** After a pass that goes round again, the outcomes the remaining writes
      leave are those all the writes leave. */
  lemma ContinueKeepsDrop(script: seq<ReadResult>, outcomes: seq<WriteOutcome>, st: State)
    requires Iteration(script, outcomes, st).next == Continue
    ensures var it := Iteration(script, outcomes, st);
      Drop(outcomes, WriteCalls(script, BUFLEN)) == Drop(it.outcomes, WriteCalls(it.script, BUFLEN))
  {
    var it := Iteration(script, outcomes, st);
    ContinueKeepsCalls(script, outcomes, st);
    var k := if it.n > 0 then 1 else 0;
    DropSplit(outcomes, WriteCalls(script, BUFLEN), k, WriteCalls(it.script, BUFLEN));
  }

  /** A pass that goes round again makes one write of the loop's total if
      it read any bytes, and that write succeeds. */
  lemma ContinueKeepsCalls(script: seq<ReadResult>, outcomes: seq<WriteOutcome>, st: State)
    requires Iteration(script, outcomes, st).next == Continue
    ensures var it := Iteration(script, outcomes, st);
      var k := if it.n > 0 then 1 else 0;
      && WriteCalls(script, BUFLEN) == k + WriteCalls(it.script, BUFLEN)
      && it.outcomes == Drop(outcomes, k)
      && (k == 1 ==> outcomes == [] || outcomes[0].Accept?)
  {
    ContinuePass(script, outcomes, st);
    NextReadKeepsTotals(script, BUFLEN);
  }

  /** A pass that goes round again reads as many bytes of the loop's total
      as its result says. */
  lemma ContinueKeepsLength(script: seq<ReadResult>, outcomes: seq<WriteOutcome>, st: State)
    requires Iteration(script, outcomes, st).next == Continue
    ensures var it := Iteration(script, outcomes, st);
      |Consumed(script)| == it.n + |Consumed(it.script)|
  {
    ContinuePass(script, outcomes, st);
    NextReadKeepsTotals(script, BUFLEN);
  }

  /** After a pass that goes round again, the cipher rounds still to come
      are one per byte the rest of the loop reads. */
  lemma ContinueKeepsRounds(script: seq<ReadResult>, outcomes: seq<WriteOutcome>, st: State)
    requires Iteration(script, outcomes, st).next == Continue
    ensures var it := Iteration(script, outcomes, st);
      Advance(st, |Consumed(script)|) == Advance(Advance(st, it.n), |Consumed(it.script)|)
  {
    var it := Iteration(script, outcomes, st);
    ContinueKeepsLength(script, outcomes, st);
    AdvanceSplit(st, |Consumed(script)|, it.n, |Consumed(it.script)|);
  }

  /** A pass that goes round again leaves things as LeavesAfter says when
      the rest of the loop does. */
  lemma ContinueLeavesAfter(script: seq<ReadResult>, outcomes: seq<WriteOutcome>, st: State)
    requires Iteration(script, outcomes, st).next == Continue
    requires var it := Iteration(script, outcomes, st);
      LeavesAfter(it.script, it.outcomes, Advance(st, it.n))
    ensures LeavesAfter(script, outcomes, st)
  {
    ContinueKeepsAfter(script, outcomes, st);
    ContinueKeepsDrop(script, outcomes, st);
    ContinueKeepsRounds(script, outcomes, st);
  }

  /** A loop that does not fail to write stops reading right after the
      result that ends reading, has used exactly one write outcome per
      write, and has advanced the cipher once per byte read. */
  lemma {:induction false} RunStopsReading(script: seq<ReadResult>, outcomes: seq<WriteOutcome>, st: State)
    ensures Run(script, outcomes, st).exit != WriteFailure ==> LeavesAfter(script, outcomes, st)
    decreases Measure(script)
  {
    if Run(script, outcomes, st).exit != WriteFailure {
      var it := Iteration(script, outcomes, st);
      RunUnfolds(script, outcomes, st);
      match it.next
      case Continue =>
        RunStopsReading(it.script, it.outcomes, Advance(st, it.n));
        ContinueLeavesAfter(script, outcomes, st);
      case Stop(e) =>
        ReadStopLeavesAfter(script, outcomes, st);
    }
  }

  /** Streaming equals batch: when every write succeeds and reading stops
      at io.EOF, the output is the cipher's transform of everything read,
      in one piece, however the reads split it. */
  lemma StreamingEqualsBatch(key: seq<byte>, script: seq<ReadResult>, outcomes: seq<WriteOutcome>)
    requires 1 <= |key|
    requires Accepts(outcomes, WriteCalls(script, BUFLEN)) && StopErr(script) == Eof
    ensures Run(script, outcomes, Schedule(key)) == Outcome(Encrypt(key, Consumed(script)), Done)
  {
    RunMatchesSpec(script, outcomes, Schedule(key));
  }

  /** An empty input ends the loop normally with nothing written. */
  lemma EmptyInputDone(outcomes: seq<WriteOutcome>, st: State)
    ensures Run([], outcomes, st) == Outcome([], Done)
    ensures Run([ReadResult([], Eof)], outcomes, st) == Outcome([], Done)
  {
    assert XorBytes([], Keystream(st, 0)) == [];
  }

  /** An input of any size delivered by the stream at once with io.EOF, in
      particular one of exactly BUFLEN bytes or of BUFLEN + 1, is read in
      BUFLEN-byte pieces and written whole when those writes succeed. */
  lemma WholeInputAtOnce(d: seq<byte>, outcomes: seq<WriteOutcome>, st: State)
    requires Accepts(outcomes, Pieces(|d|, BUFLEN))
    ensures Run([ReadResult(d, Eof)], outcomes, st) == Outcome(XorBytes(d, Keystream(st, |d|)), Done)
  {
    var script := [ReadResult(d, Eof)];
    assert script[1..] == [];
    assert Consumed(script) == d;
    assert WriteCalls(script, BUFLEN) == Pieces(|d|, BUFLEN);
    RunMatchesSpec(script, outcomes, st);
  }

  /** Decryption is the same program: feeding the output of a run that
      ended normally back in with the same key, split into reads in any
      way, gives back the input of the first run. */
  lemma DecryptRoundTrip(key: seq<byte>, script: seq<ReadResult>, outcomes: seq<WriteOutcome>,
                         script': seq<ReadResult>, outcomes': seq<WriteOutcome>)
    requires 1 <= |key|
    requires Run(script, outcomes, Schedule(key)).exit == Done
    requires Consumed(script') == Run(script, outcomes, Schedule(key)).output
    requires Accepts(outcomes', WriteCalls(script', BUFLEN)) && StopErr(script') == Eof
    ensures Run(script', outcomes', Schedule(key)) == Outcome(Consumed(script), Done)
  {
    RunMatchesSpec(script, outcomes, Schedule(key));
    StreamingEqualsBatch(key, script', outcomes');
    SelfInverse(key, Consumed(script));
  }

  /** One pass of the loop body of main on the buffer b, with the cipher c
      and the two streams. */
  method RunPass(c: Cipher, r: Reader, w: Writer, b: array<byte>) returns (next: Next)
    requires c.Valid() && b.Length == BUFLEN && b as object != c.s
    modifies c, c.s, r, w, b
    ensures c.Valid() && c.s == old(c.s)
    ensures var it := Iteration(old(r.script), old(w.outcomes), old(c.Current()));
      && next == it.next && r.script == it.script && w.outcomes == it.outcomes
      && w.written == old(w.written) + it.out
      && c.Current() == Advance(old(c.Current()), it.n)
  {
    var n, err := r.Read(b);
    if 0 < n {
      c.XorKeyStream(b, n);
      var ok := w.Write(b, n);
      if !ok {
        return Stop(WriteFailure);
      }
    }
    if err != Nil {
      if err == Eof {
        return Stop(Done);
      }
      return Stop(ReadFailure);
    }
    return Continue;
  }

  /** The loop invariant of Pump: the streams and the cipher are at a point
      from which the rest of the loop, added to what has been written so
      far, gives the outcome of the whole loop. */
  ghost predicate Pending(script: seq<ReadResult>, outcomes: seq<WriteOutcome>, st: State,
                          written: seq<byte>, goal: Outcome, written0: seq<byte>, left: Leftover)
  {
    var o := Run(script, outcomes, st);
    && o.exit == goal.exit && written + o.output == written0 + goal.output
    && Rest(script, outcomes, st) == left
  }

  /** A pass that stops completes the goal. */
  lemma StopMeetsGoal(script: seq<ReadResult>, outcomes: seq<WriteOutcome>, st: State,
                      written: seq<byte>, goal: Outcome, written0: seq<byte>, left: Leftover)
    requires Pending(script, outcomes, st, written, goal, written0, left)
    requires Iteration(script, outcomes, st).next.Stop?
    ensures var it := Iteration(script, outcomes, st);
      && it.next.exit == goal.exit && written + it.out == written0 + goal.output
      && Leftover(it.script, it.outcomes, Advance(st, it.n)) == left
  {
    RunUnfolds(script, outcomes, st);
  }

  /** A pass that goes round again keeps Pending. */
  lemma ContinueKeepsPending(script: seq<ReadResult>, outcomes: seq<WriteOutcome>, st: State,
                             written: seq<byte>, goal: Outcome, written0: seq<byte>, left: Leftover)
    requires Pending(script, outcomes, st, written, goal, written0, left)
    requires Iteration(script, outcomes, st).next == Continue
    ensures var it := Iteration(script, outcomes, st);
      Pending(it.script, it.outcomes, Advance(st, it.n), written + it.out, goal, written0, left)
  {
    var it := Iteration(script, outcomes, st);
    var o' := Run(it.script, it.outcomes, Advance(st, it.n));
    RunUnfolds(script, outcomes, st);
    AppendAssoc(written, it.out, o'.output);
  }

  /** The loop of main: reads into one BUFLEN-byte buffer, transforms the
      bytes read in place with the one cipher c, and writes them, until a
      read reports io.EOF (normal end) or another error (ReadFailure), or a
      write fails (WriteFailure). */
  method Pump(c: Cipher, r: Reader, w: Writer) returns (exit: Exit)
    requires c.Valid()
    modifies c, c.s, r, w
    ensures c.Valid()
    ensures var o := Run(old(r.script), old(w.outcomes), old(c.Current()));
      exit == o.exit && w.written == old(w.written) + o.output
    ensures var l := Rest(old(r.script), old(w.outcomes), old(c.Current()));
      r.script == l.script && w.outcomes == l.outcomes && c.Current() == l.st
  {
    ghost var goal := Run(r.script, w.outcomes, c.Current());
    ghost var left := Rest(r.script, w.outcomes, c.Current());
    ghost var written0 := w.written;
    var b := new byte[BUFLEN];
    while true
      invariant c.Valid() && c.s == old(c.s) && b.Length == BUFLEN && fresh(b)
      invariant Pending(r.script, w.outcomes, c.Current(), w.written, goal, written0, left)
      decreases Measure(r.script)
    {
      ghost var script, outcomes, st, written := r.script, w.outcomes, c.Current(), w.written;
      var next := RunPass(c, r, w, b);
      if next.Stop? {
        StopMeetsGoal(script, outcomes, st, written, goal, written0, left);
        return next.exit;
      }
      ContinueKeepsPending(script, outcomes, st, written, goal, written0, left);
    }
  }

  /** main from the key onwards, with the input and output streams given:
      get the key (exit status 2 if that fails), build one cipher from it,
      and pump. */
  method Crypt(keyName: seq<byte>, files: map<seq<byte>, seq<byte>>, r: Reader, w: Writer) returns (status: int)
    modifies r, w
    ensures var k := GetKey(keyName, files);
      if k.NoKey? then
        && status == Status(BadKey) && w.written == old(w.written)
        && r.script == old(r.script) && w.outcomes == old(w.outcomes)
      else
        var o := Run(old(r.script), old(w.outcomes), Schedule(k.key));
        var l := Rest(old(r.script), old(w.outcomes), Schedule(k.key));
        && status == Status(o.exit) && w.written == old(w.written) + o.output
        && r.script == l.script && w.outcomes == l.outcomes
  {
    var k := GetKey(keyName, files);
    if k.NoKey? {
      return Status(BadKey);
    }
    var c := new Cipher(k.key);
    var e := Pump(c, r, w);
    status := Status(e);
  }
}
