/**
  Hash time locks (raiden/transfer/state.py, raiden/messages.py): their 96-byte encoding, the lock
  hash, and sums over the dictionaries that index locks by secret hash.
 */
module Locks {
  import opened BigEndian
  import opened Hashes

  type SecretHash = s: seq<Byte> | |s| == 32 witness seq(32, _ => 0)

  type Secret = seq<Byte>

  /** keccak of thirty-two zero bytes, the secret hash that is never usable on-chain. */
  const EMPTY_HASH_KECCAK: SecretHash :=
    (WidthOfUint256();
     ToBytes(0x290d_ecd9_548b_62a8_d603_45a9_8838_6fc8_4ba6_bc95_4840_08f6_362f_9316_0ef3_e563, 32))

  datatype LockFields = Lock(amount: nat, expiration: nat, secrethash: SecretHash)

  /** A lock whose numbers fit their 32-byte fields; no other lock can be constructed. */
  type HashTimeLock = l: LockFields | l.amount <= UINT256_MAX && l.expiration <= UINT256_MAX
    witness Lock(0, 0, seq(32, _ => 0))

  const LOCK_SIZE: nat := 96

  function EncodeLock(l: HashTimeLock): (bytes: seq<Byte>)
    ensures |bytes| == LOCK_SIZE
  {
    WidthOfUint256();
    ToBytes(l.expiration, 32) + ToBytes(l.amount, 32) + l.secrethash
  }

  function DecodeLock(bytes: seq<Byte>): HashTimeLock
    requires |bytes| == LOCK_SIZE
  {
    WidthOfUint256();
    Lock(FromBytes(bytes[32..64]), FromBytes(bytes[..32]), bytes[64..])
  }

  lemma DecodeEncodeLock(l: HashTimeLock)
    ensures DecodeLock(EncodeLock(l)) == l
  {
    WidthOfUint256();
    var bytes := EncodeLock(l);
    assert bytes[..32] == ToBytes(l.expiration, 32);
    assert bytes[32..64] == ToBytes(l.amount, 32);
    assert bytes[64..] == l.secrethash;
    DecodeEncode(l.expiration, 32);
    DecodeEncode(l.amount, 32);
  }

  function LockHash(l: HashTimeLock): Hash {
    Sha3(EncodeLock(l))
  }

  /** Different locks have different lock hashes. */
  lemma LockHashIsInjective(a: HashTimeLock, b: HashTimeLock)
    ensures LockHash(a) == LockHash(b) <==> a == b
  {
    DecodeEncodeLock(a);
    DecodeEncodeLock(b);
  }

  // ---------------------------------------------------------------- dictionaries of locks

  type LockMap = map<SecretHash, HashTimeLock>

  /** Each lock is filed under its own secret hash. */
  ghost predicate WellKeyed(m: LockMap) {
    forall s :: s in m ==> m[s].secrethash == s
  }

  ghost function SumAmounts(m: LockMap): nat
    decreases |m|
  {
    if m == map[] then 0
    else
      var s :| s in m;
      m[s].amount + SumAmounts(m - {s})
  }

  lemma {:induction false} SumRemove(m: LockMap, s: SecretHash)
    requires s in m
    ensures SumAmounts(m) == m[s].amount + SumAmounts(m - {s})
    decreases |m|
  {
    var t :| t in m && SumAmounts(m) == m[t].amount + SumAmounts(m - {t});
    if t != s {
      SumRemove(m - {t}, s);
      SumRemove(m - {s}, t);
      assert m - {t} - {s} == m - {s} - {t};
    }
  }

  lemma SumAdd(m: LockMap, s: SecretHash, l: HashTimeLock)
    requires s !in m
    ensures SumAmounts(m[s := l]) == SumAmounts(m) + l.amount
  {
    SumRemove(m[s := l], s);
    assert m[s := l] - {s} == m;
  }

  /** Filing a lock replaces what is filed under the key. */
  lemma SumSet(m: LockMap, s: SecretHash, l: HashTimeLock)
    ensures SumAmounts(m[s := l]) == SumAmounts(m - {s}) + l.amount
    ensures SumAmounts(m) == SumAmounts(m - {s}) + if s in m then m[s].amount else 0
  {
    SumRemove(m[s := l], s);
    assert m[s := l] - {s} == m - {s};
    if s in m {
      SumRemove(m, s);
    } else {
      assert m - {s} == m;
    }
  }

  lemma {:induction false} SumUnion(m: LockMap, n: LockMap)
    requires m.Keys !! n.Keys
    ensures SumAmounts(m + n) == SumAmounts(m) + SumAmounts(n)
    decreases |n|
  {
    if n == map[] {
      assert m + n == m;
    } else {
      var s :| s in n;
      var rest := n - {s};
      SumUnion(m, rest);
      assert SumAmounts(m + n) == n[s].amount + SumAmounts(m + rest) by {
        UnionRemove(m, n, s);
        SumRemove(m + n, s);
      }
      SumRemove(n, s);
    }
  }

  lemma UnionRemove(m: LockMap, n: LockMap, s: SecretHash)
    requires s !in m && s in n
    ensures (m + n) - {s} == m + (n - {s})
    ensures (m + n)[s] == n[s]
  {
  }

  // ---------------------------------------------------------------- lock hashes of a dictionary

  ghost function LockHashes(m: LockMap): set<Hash> {
    set s | s in m :: LockHash(m[s])
  }

  lemma LockHashOf(m: LockMap, l: HashTimeLock)
    requires WellKeyed(m)
    ensures LockHash(l) in LockHashes(m) <==> l.secrethash in m && m[l.secrethash] == l
  {
    if LockHash(l) in LockHashes(m) {
      var s :| s in m && LockHash(m[s]) == LockHash(l);
      LockHashIsInjective(m[s], l);
    }
  }

  lemma LockHashesAdd(m: LockMap, l: HashTimeLock)
    requires l.secrethash !in m
    ensures LockHashes(m[l.secrethash := l]) == LockHashes(m) + {LockHash(l)}
  {
    var n := m[l.secrethash := l];
    assert n[l.secrethash] == l;
    forall h | h in LockHashes(m) ensures h in LockHashes(n) {
      var s :| s in m && LockHash(m[s]) == h;
      assert n[s] == m[s];
    }
  }

  lemma LockHashesRemove(m: LockMap, s: SecretHash)
    requires WellKeyed(m) && s in m
    ensures LockHashes(m - {s}) == LockHashes(m) - {LockHash(m[s])}
  {
    var n := m - {s};
    forall h | h in LockHashes(m) - {LockHash(m[s])} ensures h in LockHashes(n) {
      var t :| t in m && LockHash(m[t]) == h;
      assert t != s && n[t] == m[t];
    }
    forall t | t in n ensures LockHash(n[t]) != LockHash(m[s]) {
      LockHashIsInjective(m[t], m[s]);
      assert m[t].secrethash != m[s].secrethash;
    }
  }
}
