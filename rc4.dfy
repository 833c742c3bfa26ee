/** A stand-in for the RC4 cipher of Go's crypto/rc4 library, which rc4crypt
    calls at rc4crypt.go:130 (NewCipher) and rc4crypt.go:147 (XORKeyStream).
    The library is not part of the repository; this is the standard RC4 key
    schedule and generation loop, written first as functions on values (the
    specification) and then as a class over a 256-entry array (the object the
    program keeps across all chunks). */
module Rc4 {
  import opened Bytes

  /** A value 0..255: an entry of the cipher table or one of its cursors.
      Go keeps the cursors as uint8 and the entries as uint32 holding values
      below 256; sums here are reduced modulo 256 explicitly. */
  type U8 = x: int | 0 <= x < 256

  /** Addition of two U8 values as Go's uint8 arithmetic does it: modulo 256. */
  function Add8(a: U8, b: U8): U8 {
    if a + b < 256 then a + b else a + b - 256
  }

  /** The permutation table: 256 entries. */
  type Table = t: seq<U8> | |t| == 256 witness seq(256, _ => 0)

  /** The cipher's state: the permutation table and the two cursors. */
  datatype State = State(s: Table, i: U8, j: U8)

  /** The identity permutation the key schedule starts from. */
  function Identity(): (r: Table)
    ensures forall k :: 0 <= k < 256 ==> r[k] == k
  {
    seq(256, k requires 0 <= k < 256 => k)
  }

  /** s with the entries at a and b exchanged. */
  function Swap(s: seq<U8>, a: int, b: int): seq<U8>
    requires 0 <= a < |s| && 0 <= b < |s|
  {
    s[a := s[b]][b := s[a]]
  }

  /** Exchanging two entries keeps the multiset of entries. */
  lemma SwapPermutes(s: seq<U8>, a: int, b: int)
    requires 0 <= a < |s| && 0 <= b < |s|
    ensures |Swap(s, a, b)| == |s|
    ensures multiset(Swap(s, a, b)) == multiset(s)
  {
    var t := s[a := s[b]];
    assert multiset(t) == multiset(s) - multiset{s[a]} + multiset{s[b]};
    assert multiset(t[b := s[a]]) == multiset(t) - multiset{t[b]} + multiset{s[a]};
  }

  /** The table and the accumulator j after the first n rounds of the key
      schedule: round k adds s[k] and key[k mod |key|] to j, then swaps
      s[k] and s[j]. */
  function KsaRounds(key: seq<byte>, n: nat): (Table, U8)
    requires 1 <= |key| && n <= 256
    decreases n
  {
    if n == 0 then (Identity(), 0)
    else
      var prev := KsaRounds(key, n - 1);
      var k := n - 1;
      var j := Add8(Add8(prev.1, prev.0[k]), key[k % |key|] as U8);
      (Swap(prev.0, k, j), j)
  }

  /** The state a freshly built cipher starts from. */
  function Schedule(key: seq<byte>): (st: State)
    requires 1 <= |key|
    ensures st.i == 0 && st.j == 0
  {
    State(KsaRounds(key, 256).0, 0, 0)
  }

  /** One round of the generation loop: i moves on by one, j adds the
      entry now under i, and the entries under i and j change places, so
      the table keeps its entries. */
  function Step(st: State): (r: State)
    ensures r.i == Add8(st.i, 1) && r.j == Add8(st.j, st.s[r.i])
    ensures r.s[r.i] == st.s[r.j] && r.s[r.j] == st.s[r.i]
    ensures multiset(r.s) == multiset(st.s)
  {
    var i := Add8(st.i, 1);
    var j := Add8(st.j, st.s[i]);
    SwapPermutes(st.s, i, j);
    State(Swap(st.s, i, j), i, j)
  }

  /** A round moves no entry other than the two it exchanges. */
  lemma StepKeepsOthers(st: State, k: int)
    requires 0 <= k < 256 && k != Step(st).i && k != Step(st).j
    ensures Step(st).s[k] == st.s[k]
  {
  }

  /** The keystream byte emitted by the round that produced st. */
  function Output(st: State): byte {
    st.s[Add8(st.s[st.i], st.s[st.j])] as byte
  }

  /** f applied n times to x. */
  function Iterate<T>(f: T -> T, x: T, n: nat): T
    decreases n
  {
    if n == 0 then x else f(Iterate(f, x, n - 1))
  }

  /** What g observes after each of the first n applications of f to x. */
  function Trace<T, U>(f: T -> T, g: T -> U, x: T, n: nat): (r: seq<U>)
    ensures |r| == n
    decreases n
  {
    if n == 0 then [] else Trace(f, g, x, n - 1) + [g(Iterate(f, x, n))]
  }

  /** The state after n rounds of the generation loop. */
  function Advance(st: State, n: nat): State {
    Iterate(Step, st, n)
  }

  /** The next n keystream bytes from state st. */
  function Keystream(st: State, n: nat): (ks: seq<byte>)
    ensures |ks| == n
  {
    Trace(Step, Output, st, n)
  }

  /** Byte-wise exclusive or of two equally long byte strings. */
  function XorBytes(m: seq<byte>, k: seq<byte>): (r: seq<byte>)
    requires |m| == |k|
    ensures |r| == |m|
    ensures forall p :: 0 <= p < |r| ==> r[p] == m[p] ^ k[p]
  {
    seq(|m|, p requires 0 <= p < |m| => m[p] ^ k[p])
  }

  /** Transforming a whole message with a cipher built from key. */
  function Encrypt(key: seq<byte>, m: seq<byte>): (c: seq<byte>)
    requires 1 <= |key|
    ensures |c| == |m|
  {
    XorBytes(m, Keystream(Schedule(key), |m|))
  }

  // ---------------------------------------------------------------------
  // Properties of the keystream

  /** The cipher table is a permutation of 0..255 at every position of
      every keystream. */
  lemma TableIsPermutation(key: seq<byte>, pos: nat)
    requires 1 <= |key|
    ensures multiset(Advance(Schedule(key), pos).s) == multiset(Identity())
  {
    KsaPermutes(key, 256);
    AdvancePermutes(Schedule(key), pos);
  }

  /** Every prefix of the key schedule leaves a permutation of 0..255. */
  lemma {:induction false} KsaPermutes(key: seq<byte>, n: nat)
    requires 1 <= |key| && n <= 256
    ensures multiset(KsaRounds(key, n).0) == multiset(Identity())
    decreases n
  {
    if n > 0 {
      KsaPermutes(key, n - 1);
      var prev := KsaRounds(key, n - 1);
      var j := Add8(Add8(prev.1, prev.0[n - 1]), key[(n - 1) % |key|] as U8);
      SwapPermutes(prev.0, n - 1, j);
    }
  }

  /** Any number of generation rounds keeps the entries of the table. */
  lemma AdvancePermutes(st: State, n: nat)
    ensures multiset(Advance(st, n).s) == multiset(st.s)
  {
    IterateInvariant(Step, (x: State) => multiset(x.s) == multiset(st.s), st, n);
  }

  /** A property f preserves holds after any number of applications. */
  lemma {:induction false} IterateInvariant<T>(f: T -> T, inv: T -> bool, x: T, n: nat)
    requires forall y :: inv(y) ==> inv(f(y))
    requires inv(x)
    ensures inv(Iterate(f, x, n))
    decreases n
  {
    if n > 0 {
      IterateInvariant(f, inv, x, n - 1);
    }
  }

  /** b applications after a applications are a + b applications. */
  lemma {:induction false} IterateAdd<T>(f: T -> T, x: T, a: nat, b: nat)
    ensures Iterate(f, Iterate(f, x, a), b) == Iterate(f, x, a + b)
    decreases b
  {
    if b > 0 {
      IterateAdd(f, x, a, b - 1);
    }
  }

  /** The trace of a + b applications is that of a followed by that of b
      more, taken from where the first a left off. */
  lemma {:induction false} TraceSplit<T, U>(f: T -> T, g: T -> U, x: T, a: nat, b: nat)
    ensures Trace(f, g, x, a + b) == Trace(f, g, x, a) + Trace(f, g, Iterate(f, x, a), b)
    decreases b
  {
    if b > 0 {
      TraceSplit(f, g, x, a, b - 1);
      IterateAdd(f, x, a, b);
    }
  }

  /** One more round: the state steps once and one keystream byte is added. */
  lemma NextRound(st: State, n: nat)
    ensures Advance(st, n + 1) == Step(Advance(st, n))
    ensures Keystream(st, n + 1) == Keystream(st, n) + [Output(Advance(st, n + 1))]
  {
  }

  /** Running a + b rounds is running a rounds and then b more. */
  lemma AdvanceAdd(st: State, a: nat, b: nat)
    ensures Advance(Advance(st, a), b) == Advance(st, a + b)
  {
    IterateAdd(Step, st, a, b);
  }

  /** Running total rounds, for any split of total into a and b, is running
      a rounds and then b more. */
  lemma AdvanceSplit(st: State, total: nat, a: nat, b: nat)
    requires total == a + b
    ensures Advance(st, total) == Advance(Advance(st, a), b)
  {
    AdvanceAdd(st, a, b);
  }

  /** The first a + b keystream bytes are the first a bytes followed by the
      b bytes generated from where those left off. */
  lemma KeystreamSplit(st: State, a: nat, b: nat)
    ensures Keystream(st, a + b) == Keystream(st, a) + Keystream(Advance(st, a), b)
  {
    TraceSplit(Step, Output, st, a, b);
  }

  /** XORing twice with the same bytes gives the message back. */
  lemma XorInvolution(m: seq<byte>, k: seq<byte>)
    requires |m| == |k|
    ensures XorBytes(XorBytes(m, k), k) == m
  {
    var once := XorBytes(m, k);
    var twice := XorBytes(once, k);
    forall p | 0 <= p < |m| ensures twice[p] == m[p] {
      assert twice[p] == (m[p] ^ k[p]) ^ k[p];
    }
  }

  /** XOR works position by position, so it distributes over concatenation. */
  lemma XorConcat(m1: seq<byte>, m2: seq<byte>, k1: seq<byte>, k2: seq<byte>)
    requires |m1| == |k1| && |m2| == |k2|
    ensures XorBytes(m1 + m2, k1 + k2) == XorBytes(m1, k1) + XorBytes(m2, k2)
  {
    var lhs := XorBytes(m1 + m2, k1 + k2);
    var rhs := XorBytes(m1, k1) + XorBytes(m2, k2);
    forall p | 0 <= p < |lhs| ensures lhs[p] == rhs[p] {
      if p < |m1| {
        assert lhs[p] == m1[p] ^ k1[p];
      } else {
        assert lhs[p] == m2[p - |m1|] ^ k2[p - |m1|];
      }
    }
  }

  /** Streaming equals batch: transforming a + b from state st is
      transforming a from st and then b from the state a left behind. */
  lemma StreamingIsBatch(st: State, a: seq<byte>, b: seq<byte>)
    ensures XorBytes(a + b, Keystream(st, |a + b|))
         == XorBytes(a, Keystream(st, |a|)) + XorBytes(b, Keystream(Advance(st, |a|), |b|))
  {
    var ka := Keystream(st, |a|);
    var kb := Keystream(Advance(st, |a|), |b|);
    KeystreamSplit(st, |a|, |b|);
    XorConcat(a, b, ka, kb);
  }

  /** The same operation decrypts: two ciphers built from one key undo each
      other. */
  lemma SelfInverse(key: seq<byte>, m: seq<byte>)
    requires 1 <= |key|
    ensures Encrypt(key, Encrypt(key, m)) == m
  {
    XorInvolution(m, Keystream(Schedule(key), |m|));
  }

  // ---------------------------------------------------------------------
  // The cipher object

  /** Fills t with the identity permutation. */
  method FillIdentity(t: array<U8>)
    requires t.Length == 256
    modifies t
    ensures t[..] == Identity()
  {
    var k := 0;
    while k < 256
      invariant 0 <= k <= 256
      invariant forall m :: 0 <= m < k ==> t[m] == m
    {
      t[k] := k;
      k := k + 1;
    }
  }

  /** The 256 rounds of the key schedule, in place on t. */
  method ShuffleByKey(t: array<U8>, key: seq<byte>)
    requires t.Length == 256 && t[..] == Identity() && 1 <= |key|
    modifies t
    ensures t[..] == KsaRounds(key, 256).0
  {
    var jj: U8 := 0;
    var k := 0;
    while k < 256
      invariant 0 <= k <= 256
      invariant (t[..], jj) == KsaRounds(key, k)
    {
      ghost var before := t[..];
      jj := Add8(Add8(jj, t[k]), key[k % |key|] as U8);
      var tmp := t[k];
      t[k] := t[jj];
      t[jj] := tmp;
      assert t[..] == Swap(before, k, jj);
      k := k + 1;
    }
  }

  /** The key schedule of NewCipher on a fresh table. */
  method ScheduledTable(key: seq<byte>) returns (t: array<U8>)
    requires 1 <= |key|
    ensures fresh(t) && t.Length == 256 && State(t[..], 0, 0) == Schedule(key)
  {
    t := new U8[256];
    FillIdentity(t);
    ShuffleByKey(t, key);
  }

  /** One round of the generation loop, in place on t: returns the new
      cursors and the keystream byte of the round. */
  method GenerateRound(t: array<U8>, i0: U8, j0: U8) returns (i1: U8, j1: U8, kb: byte)
    requires t.Length == 256
    modifies t
    ensures State(t[..], i1, j1) == Step(State(old(t[..]), i0, j0))
    ensures kb == Output(State(t[..], i1, j1))
  {
    i1 := Add8(i0, 1);
    var x := t[i1];
    j1 := Add8(j0, x);
    var y := t[j1];
    t[i1] := y;
    t[j1] := x;
    kb := t[Add8(x, y)] as byte;
  }

  /** GenerateRound seen from the start of the keystream: after k rounds
      from st0 it produces the state of round k + 1 and keystream byte k. */
  method NextByte(t: array<U8>, i0: U8, j0: U8, ghost st0: State, ghost k: nat) returns (i1: U8, j1: U8, kb: byte)
    requires t.Length == 256 && State(t[..], i0, j0) == Advance(st0, k)
    modifies t
    ensures State(t[..], i1, j1) == Advance(st0, k + 1)
    ensures Keystream(st0, k + 1) == Keystream(st0, k) + [kb]
  {
    i1, j1, kb := GenerateRound(t, i0, j0);
    NextRound(st0, k);
  }

  /** b holds orig with its first |ks| bytes XORed with ks. */
  ghost predicate XorPrefix(b: seq<byte>, orig: seq<byte>, ks: seq<byte>)
  {
    && |b| == |orig| && |ks| <= |b|
    && (forall p :: 0 <= p < |ks| ==> b[p] == orig[p] ^ ks[p])
    && (forall p :: |ks| <= p < |b| ==> b[p] == orig[p])
  }

  /** XORing the next byte of b with kb extends the prefix by kb. */
  lemma XorPrefixExtend(b: seq<byte>, b': seq<byte>, orig: seq<byte>, ks: seq<byte>, kb: byte)
    requires XorPrefix(b, orig, ks) && |ks| < |b| && |b'| == |b|
    requires b'[|ks|] == b[|ks|] ^ kb
    requires forall p :: 0 <= p < |b| && p != |ks| ==> b'[p] == b[p]
    ensures XorPrefix(b', orig, ks + [kb])
  {
  }

  /** XorPrefix in terms of slices and XorBytes. */
  lemma XorPrefixSlices(b: seq<byte>, orig: seq<byte>, ks: seq<byte>)
    requires XorPrefix(b, orig, ks)
    ensures b[..|ks|] == XorBytes(orig[..|ks|], ks)
    ensures b[|ks|..] == orig[|ks|..]
  {
  }

  /** The generation loop of XORKeyStream over the first n bytes of buf,
      in place on the table t, starting from cursors i0 and j0. */
  method XorRounds(t: array<U8>, buf: array<byte>, n: nat, i0: U8, j0: U8) returns (i1: U8, j1: U8)
    requires t.Length == 256 && n <= buf.Length && buf as object != t
    modifies t, buf
    ensures State(t[..], i1, j1) == Advance(State(old(t[..]), i0, j0), n)
    ensures buf[..n] == XorBytes(old(buf[..n]), Keystream(State(old(t[..]), i0, j0), n))
    ensures buf[n..] == old(buf[n..])
  {
    ghost var st0 := State(t[..], i0, j0);
    ghost var orig := buf[..];
    i1, j1 := i0, j0;
    var k := 0;
    while k < n
      invariant k <= n
      invariant State(t[..], i1, j1) == Advance(st0, k)
      invariant XorPrefix(buf[..], orig, Keystream(st0, k))
    {
      ghost var b0 := buf[..];
      var kb;
      i1, j1, kb := NextByte(t, i1, j1, st0, k);
      buf[k] := buf[k] ^ kb;
      XorPrefixExtend(b0, buf[..], orig, Keystream(st0, k), kb);
      k := k + 1;
    }
    XorPrefixSlices(buf[..], orig, Keystream(st0, n));
    assert orig[..n] == old(buf[..n]);
  }

  /** rc4.Cipher: the table and the two cursors, updated in place as the
      keystream is generated. */
  class Cipher {
    var s: array<U8>
    var i: U8
    var j: U8

    ghost predicate Valid()
      reads this
    {
      s.Length == 256
    }

    /** The cipher state the fields hold. */
    ghost function Current(): State
      requires Valid()
      reads this, s
    {
      State(s[..], i, j)
    }

    /** rc4.NewCipher: runs the key schedule on a fresh table. */
    constructor (key: seq<byte>)
      requires 1 <= |key| <= 256
      ensures Valid() && fresh(s)
      ensures Current() == Schedule(key)
    {
      var t := ScheduledTable(key);
      s := t;
      i, j := 0, 0;
    }

    /** XORKeyStream(buf[:n], buf[:n]): transforms the first n bytes of buf
        in place with the next n keystream bytes and advances the state by
        n rounds. */
    method XorKeyStream(buf: array<byte>, n: nat)
      requires Valid() && n <= buf.Length && buf as object != s
      modifies this, s, buf
      ensures Valid() && s == old(s)
      ensures Current() == Advance(old(Current()), n)
      ensures buf[..n] == XorBytes(old(buf[..n]), Keystream(old(Current()), n))
      ensures buf[n..] == old(buf[n..])
    {
      i, j := XorRounds(s, buf, n, i, j);
    }
  }
}
