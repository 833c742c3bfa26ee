# rc4crypt in Dafny

rc4crypt is a small command-line tool that encrypts or decrypts a byte
stream with RC4. It first resolves the key. A key argument starting with `@`
is the key itself; any other argument names a file whose contents are the
key. Either way the key must be 1 to 256 bytes long. The tool then builds one
RC4 cipher from the key. It reads the input in chunks of at most 1024 bytes
into one reused buffer, transforms each chunk in place with the cipher, and
writes it out. The loop ends normally at end of file. A read error exits with
status 6, a write error with status 7, and a bad key with status 2.

The model has four modules:

- `Bytes` (bytes.dfy): the byte type, Go's `byte` as `bv8`.
- `Rc4` (rc4.dfy): a stand-in for Go's `crypto/rc4`, which is not part of
  the repository. rc4crypt calls it at rc4crypt.go:130 (`NewCipher`) and
  rc4crypt.go:147 (`XORKeyStream`), and this is the standard RC4 key
  schedule and generation loop. The specification is written as functions
  on values: `Schedule`, `Step`, `Output`, `Advance`, `Keystream`,
  `XorBytes`. The `Cipher` class is the object rc4crypt keeps across all
  chunks. It holds a 256-entry `array` and two cursors, all updated in
  place, and its methods are proved against those functions.
- `Streams` (streams.dfy): the input and output streams as scripted
  objects. A `Reader` replays a sequence of read results, each being
  bytes plus nil, `io.EOF` or another error. A result longer than the
  buffer is delivered in buffer-sized pieces, as `io.Reader` allows. A
  `Writer` replays a sequence of write outcomes; a failed write may still
  deliver a prefix of its bytes, as `io.Writer` allows.
- `Rc4crypt` (rc4crypt.dfy): `GetKey` (getKey), and the read, crypt,
  write loop in three forms:
  - `Pump`, a method with a `while` loop over one array buffer, the
    cipher object and the two stream objects;
  - `Run`, a function of the read script, the write outcomes and the
    cipher state, which `Pump` is proved to compute;
  - `MeetsSpec`, a whole-stream statement that `RunMatchesSpec` proves of
    `Run`.

  `Crypt` chains key resolution, cipher construction and the loop, and
  returns the process exit status.

Some inputs become parameters:

- The key file system is a `map` from file names to contents; a name that
  is not in the map is unreadable.
- The key argument is a byte string, as Go's string is.
- The streams are the scripted objects described above.

## Model

| member | source | states |
|---|---|---|
| Rc4crypt.CheckLength | rc4crypt.go:186-193 | a key is accepted exactly when it is 1 to 256 bytes long, and is then returned unchanged; "too long" exactly when it is longer than 256 bytes, "too short" exactly when shorter than 1 byte; never "unreadable" |
| Rc4crypt.Inline | rc4crypt.go:175 | a key argument is taken as the key itself exactly when it starts with `@` |
| Rc4crypt.GetKey | rc4crypt.go:169-194 | every key returned is 1 to 256 bytes; an `@` argument succeeds exactly when 2 to 257 bytes long, yielding the bytes after the `@`, is "too long" exactly when longer than 257 bytes and "too short" exactly when shorter than 2; any other argument is "unreadable" exactly when the file cannot be read, and otherwise succeeds exactly when the file holds 1 to 256 bytes, yielding those contents, is "too long" exactly when the file holds more than 256 bytes and "too short" exactly when it holds fewer than 1 |
| Rc4crypt.InlineReadsNoFile | rc4crypt.go:175-177 | the result for an `@` argument does not depend on the files at all |
| Rc4crypt.AtAloneRejected | rc4crypt.go:175-191 | `@` alone gives the empty key, rejected as too short |
| Rc4crypt.SameRuleForBothSources | rc4crypt.go:186-193 | the same bytes get the same verdict whether they come after `@` or from a file |
| Rc4crypt.Status | rc4crypt.go:96-160 | the exit statuses: 0 for a normal end, 2 for a key failure, 6 for a read failure, 7 for a write failure, each status for exactly one ending |
| Streams.NextRead | rc4crypt.go:143 | a read returns at most the buffer's capacity; an exhausted stream returns no bytes and `io.EOF`; a result that fits is returned whole with its own error; every read into a non-empty buffer uses up input |
| Streams.Reader.Read | rc4crypt.go:143 | `in.Read(b)` fills exactly `b[:n]` with the bytes the read returns, leaves the rest of `b` as it was, and advances the stream |
| Streams.StopErr | rc4crypt.go:154-158 | the error that ends reading is never nil |
| Streams.Pieces | rc4crypt.go:138-143 | a result of `len` bytes is returned in the least number of reads of at most `cap` bytes: len divided by cap, rounded up |
| Streams.NextReadKeepsTotals | rc4crypt.go:141-158 | splitting a result across reads changes neither the bytes the loop consumes, nor the error it stops at, nor the number of writes it makes |
| Streams.NextReadKeepsAfter | rc4crypt.go:141-158 | splitting a result across reads does not change what is left unread once reading meets its stopping error |
| Streams.Drop | rc4crypt.go:148 | m writes use up m outcomes, or all of them when fewer are scripted |
| Streams.AcceptsAdd | rc4crypt.go:145-151 | a + b writes all succeed exactly when the first a do and the b after them do |
| Streams.DropAdd | rc4crypt.go:145-151 | b writes after a writes leave the outcomes a + b writes leave |
| Streams.NextWrite | rc4crypt.go:148 | a successful write delivers all its bytes; a failed one delivers a prefix of them; a write succeeds exactly when its outcome accepts, and each write uses up one outcome |
| Streams.Writer.Write | rc4crypt.go:148 | `out.Write(b[:n])` appends what the write delivers of `b[:n]` to the stream and reports whether it succeeded |
| Rc4crypt.Iteration | rc4crypt.go:143-161 | one pass of the loop body reads at most BUFLEN bytes, never signals a key failure, and uses up input whenever the loop goes round again |
| Rc4crypt.Run | rc4crypt.go:141-162 | the loop ends normally, with a read failure or with a write failure, never with a key failure |
| Rc4crypt.PassWritesWhatItReads | rc4crypt.go:143-151 | each pass transforms exactly the `n` bytes it read with the next `n` keystream bytes and writes exactly those bytes, a prefix of them if the write fails |
| Rc4crypt.WriteFailureMeetsSpec | rc4crypt.go:147-151 | a pass whose write fails meets the whole-stream statement below |
| Rc4crypt.ReadStopMeetsSpec | rc4crypt.go:154-160 | a pass that stops at `io.EOF` or another read error meets the whole-stream statement below |
| Rc4crypt.ContinueKeepsOutput | rc4crypt.go:141-151 | after a pass that goes round again, the transform of the whole input is what the pass wrote followed by the transform of the rest from where the cipher now is |
| Rc4crypt.ContinueKeepsAccepts | rc4crypt.go:145-151 | after a pass that goes round again, the remaining writes all succeed exactly when all the loop's writes do |
| Rc4crypt.ContinueKeepsStopErr | rc4crypt.go:154-158 | after a pass that goes round again, reading still stops with the same error |
| Rc4crypt.ContinueMeetsSpec | rc4crypt.go:141-162 | a pass that goes round again meets the whole-stream statement when the rest of the loop does |
| Rc4crypt.RunMatchesSpec | rc4crypt.go:129-162 | what the loop writes is a prefix of everything it reads, XORed with one continuous keystream from the cipher; it ends with a write failure exactly when one of the writes it makes fails; otherwise it has written that whole ciphertext, however the reads split the input, and ends normally exactly when reading stopped at `io.EOF`, or with a read failure exactly when it stopped at another error |
| Rc4crypt.EmptyReadLoops | rc4crypt.go:143-158 | a read of zero bytes with no error writes nothing and just leads to the next read |
| Rc4crypt.BytesWithEofWritten | rc4crypt.go:143-158 | bytes delivered together with `io.EOF` are still transformed and written before the loop ends normally |
| Rc4crypt.BytesWithErrorWritten | rc4crypt.go:143-160 | bytes delivered together with a read error are still transformed and written before the loop ends with status 6 |
| Rc4crypt.WriteFailureFirst | rc4crypt.go:145-156 | a failed write ends the loop with the write failure (status 7), whatever error the same read reported, and nothing after that read is read, nothing after that write's outcome is used, and the cipher has advanced by exactly the bytes of that read |
| Rc4crypt.ReadStopLeavesAfter | rc4crypt.go:143-160 | a pass that stops at `io.EOF` or another read error leaves the input right after that read, the outcomes after its write, and the cipher advanced by the bytes it read |
| Rc4crypt.ContinueKeepsAfter | rc4crypt.go:141-158 | after a pass that goes round again, reading still stops at the same place in the input |
| Rc4crypt.ContinueKeepsDrop | rc4crypt.go:141-151 | after a pass that goes round again, the remaining writes leave the same outcomes that all the loop's writes leave |
| Rc4crypt.ContinueKeepsRounds | rc4crypt.go:141-147 | after a pass that goes round again, the cipher still ends one round per byte the whole loop reads past its start |
| Rc4crypt.ContinueLeavesAfter | rc4crypt.go:141-162 | a pass that goes round again leaves the streams and the cipher where the loop says when the rest of the loop does |
| Rc4crypt.RunStopsReading | rc4crypt.go:141-162 | a loop that does not fail to write stops reading right after the result carrying `io.EOF` or another error, has used one outcome per write it made, and has advanced the cipher one round per byte read; a failed write stops it at once (`WriteFailureFirst`) |
| Rc4crypt.StreamingEqualsBatch | rc4crypt.go:130-162 | when every write succeeds and reading stops at `io.EOF`, the output is the RC4 transform, under the key, of the whole input in one piece |
| Rc4crypt.EmptyInputDone | rc4crypt.go:141-158 | an empty input ends the loop normally with nothing written |
| Rc4crypt.WholeInputAtOnce | rc4crypt.go:138-158 | an input of any size, for instance exactly 1024 or 1025 bytes, is read in 1024-byte pieces and written whole when those writes succeed |
| Rc4crypt.DecryptRoundTrip | rc4crypt.go:129-162 | feeding the output of a normal run back in with the same key, split into reads in any way, writes back the original input |
| Rc4crypt.StopMeetsGoal | rc4crypt.go:145-160 | when a pass stops, what has been written, the exit, and where the streams and the cipher are left are those of the whole loop |
| Rc4crypt.ContinueKeepsPending | rc4crypt.go:141-162 | a pass that goes round again keeps the loop invariant: what is written so far plus what the rest of the loop writes is what the whole loop writes |
| Rc4crypt.RunPass | rc4crypt.go:143-161 | the loop body on the buffer, the cipher and the streams: the exit it signals, the bytes it writes, the input and outcomes it uses up, and the cipher state are those of `Iteration` |
| Rc4crypt.Pump | rc4crypt.go:136-162 | the loop with one 1024-byte buffer and one cipher returns `Run`'s exit and writes `Run`'s output, and leaves the reader, the writer's outcomes and the cipher where `Rest` says; with `RunStopsReading` that is right after the stopping read, and after a failed write nothing more has been read |
| Rc4crypt.Crypt | rc4crypt.go:88-162 | a key failure gives status 2, writes nothing, reads nothing and uses no write outcome; otherwise the status and the output are those of the loop, run from the cipher built from the key, and the reader and the writer's outcomes are left where `Rest` says |
| Rc4.Identity | rc4crypt.go:130 | the table the key schedule starts from holds k at every position k |
| Rc4.Schedule | rc4crypt.go:130 | a new cipher's cursors are both 0 |
| Rc4.XorBytes | rc4crypt.go:147 | each output byte is the input byte XOR the keystream byte at the same position |
| Rc4.Keystream | rc4crypt.go:147 | n rounds give exactly n keystream bytes |
| Rc4.Encrypt | rc4crypt.go:130-147 | transforming a message keeps its length |
| Rc4.TableIsPermutation | rc4crypt.go:130-147 | the cipher table is a permutation of 0..255 after the key schedule and after any number of rounds |
| Rc4.KsaPermutes | rc4crypt.go:130 | every prefix of the key schedule (`KsaRounds`, a round of which adds s[k] and a key byte to j and exchanges s[k] and s[j]) leaves a permutation of 0..255 |
| Rc4.Step | rc4crypt.go:147 | one round of the generation loop: i moves on by one, j adds the entry under the new i, the entries under i and j change places, and the table keeps its entries |
| Rc4.StepKeepsOthers | rc4crypt.go:147 | a round moves no entry other than the two it exchanges |
| Rc4.AdvancePermutes | rc4crypt.go:147 | any number of rounds keeps the table a permutation |
| Rc4.AdvanceAdd | rc4crypt.go:141-147 | a + b rounds are a rounds followed by b rounds |
| Rc4.KeystreamSplit | rc4crypt.go:141-147 | the first a + b keystream bytes are the first a followed by the b generated from where those stopped |
| Rc4.StreamingIsBatch | rc4crypt.go:141-147 | transforming a + b is transforming a and then b from the state a left behind |
| Rc4.SwapPermutes | rc4crypt.go:130-147 | exchanging two table entries, the one move of both the key schedule and the generation loop, keeps the multiset of entries |
| Rc4.XorConcat | rc4crypt.go:147 | the transform of two concatenated pieces with two concatenated keystreams is the two transforms concatenated |
| Rc4.XorInvolution | rc4crypt.go:147 | XORing twice with the same keystream gives back the input |
| Rc4.SelfInverse | rc4crypt.go:130-147 | two ciphers built from the same key undo each other |
| Rc4.FillIdentity | rc4crypt.go:130 | fills the table with the identity |
| Rc4.ShuffleByKey | rc4crypt.go:130 | the 256 key-schedule rounds in place leave the table `Schedule` describes |
| Rc4.ScheduledTable | rc4crypt.go:130 | a fresh 256-entry table holding the scheduled permutation |
| Rc4.GenerateRound | rc4crypt.go:147 | one round in place: the new table and cursors are one `Step` of the old ones, and the byte returned is that round's keystream byte, `Output` of the new state: the entry at s[i] + s[j] |
| Rc4.NextByte | rc4crypt.go:147 | after k rounds, one more round gives the state of round k + 1 and keystream byte k |
| Rc4.XorRounds | rc4crypt.go:147 | `n` rounds in place transform exactly `buf[:n]` with the next `n` keystream bytes, leave the rest of `buf` alone, and advance the state by `n` rounds |
| Rc4.Cipher.constructor | rc4crypt.go:130 | `NewCipher(k)` builds a fresh table holding the key schedule of `k`, with cursors 0 |
| Rc4.Cipher.XorKeyStream | rc4crypt.go:147 | `c.XORKeyStream(b[:n], b[:n])` transforms exactly `b[:n]` in place with the next `n` keystream bytes and advances the cipher by `n` rounds |

## Left out

- Flag parsing, usage text and the verbose logger (rc4crypt.go:34-85,
  164, 177, 184): command-line plumbing with no logic.
- Opening the input and output files, with their exit statuses 4 and 3
  (rc4crypt.go:99-127): the streams are given to `Crypt` instead.
- `os.Exit` itself: every exit is a returned value (`Exit`, `Status`).
- `ioutil.ReadFile` (rc4crypt.go:180): a foreign I/O call. A file's
  contents come from the `files` map, and its error values are not
  kept; the model records only that the file was unreadable.
- The wording of every error message, including the write-error message at
  rc4crypt.go:149, which prints the read error `err` rather than the write
  error `oerr`. It is a message detail only: the exit status is still 7.
- Rc4.Cipher.constructor: the `NewCipher` error branch (rc4crypt.go:131-134,
  exit 5) is not modelled. The constructor requires a key of 1 to 256
  bytes, which `GetKey` guarantees, so that branch cannot be reached from
  `Crypt`.
- The internals of Go's `crypto/rc4` are not part of this model. The `Rc4`
  module is the standard RC4 algorithm standing in for them. Go keeps the
  table entries as `uint32` holding values below 256; the model keeps them
  as integers 0..255, with explicit modulo-256 addition.
- Rc4.KsaRounds and Rc4.Output carry no contract of their own. They are the
  definitions of one key-schedule round and of one keystream byte. What is
  proved about them is stated by `KsaPermutes`, `ShuffleByKey` and
  `TableIsPermutation` for the first, and by `GenerateRound`, `NextByte` and
  `XorRounds` for the second.
- RC4 test vectors (RFC 6229): checking them would make the verifier
  evaluate 256 rounds of the key schedule. The model proves the algorithm's
  properties for all keys instead.
- A stream that returns zero bytes with no error forever: scripts are
  finite, so every modelled loop ends. A single such read is modelled
  (`EmptyReadLoops`).
- Concurrency: the program is single-threaded, and so is the model.
