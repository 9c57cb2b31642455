/**
  Digests as free terms. keccak is modelled as collision free: the digest of a byte string (a lock's
  96-byte encoding) and the digest of two concatenated 32-byte digests are different constructors, so
  neither two preimages nor a leaf and an inner node can collide. `Zero` is the all-zero digest that
  stands for the root of the empty tree.
 */
module Hashes {
  import opened BigEndian

  datatype Hash = Zero | Leaf(preimage: seq<Byte>) | Pair(first: Hash, second: Hash)

  const EMPTY_MERKLE_ROOT: Hash := Zero

  function Sha3(preimage: seq<Byte>): Hash {
    Leaf(preimage)
  }

  /** How digests compare as byte strings: nothing but a strict total order is ever used of it. */
  type Order = (Hash, Hash) -> bool

  ghost predicate IsStrictTotalOrder(less: Order) {
    && (forall a :: !less(a, a))
    && (forall a, b, c :: less(a, b) && less(b, c) ==> less(a, c))
    && (forall a, b :: a == b || less(a, b) || less(b, a))
  }

  // One such order, for the models that need a definite one.

  predicate BytesBelow(a: seq<Byte>, b: seq<Byte>) {
    b != [] && (a == [] || a[0] < b[0] || (a[0] == b[0] && BytesBelow(a[1..], b[1..])))
  }

  predicate Below(a: Hash, b: Hash) {
    match (a, b)
    case (Zero, Zero) => false
    case (Zero, _) => true
    case (_, Zero) => false
    case (Leaf(x), Leaf(y)) => BytesBelow(x, y)
    case (Leaf(_), Pair(_, _)) => true
    case (Pair(_, _), Leaf(_)) => false
    case (Pair(p, q), Pair(r, s)) => Below(p, r) || (p == r && Below(q, s))
  }

  lemma {:induction false} BytesBelowIsOrder(a: seq<Byte>, b: seq<Byte>, c: seq<Byte>)
    ensures !BytesBelow(a, a)
    ensures BytesBelow(a, b) && BytesBelow(b, c) ==> BytesBelow(a, c)
    ensures a == b || BytesBelow(a, b) || BytesBelow(b, a)
  {
    if a != [] && b != [] && c != [] {
      BytesBelowIsOrder(a[1..], b[1..], c[1..]);
      assert a == [a[0]] + a[1..] && b == [b[0]] + b[1..];
    } else if a != [] {
      BytesBelowIsOrder(a[1..], if b == [] then [] else b[1..], []);
      assert b != [] ==> a == [a[0]] + a[1..] && b == [b[0]] + b[1..];
    }
  }

  lemma {:induction false} BelowIsOrder(a: Hash, b: Hash, c: Hash)
    ensures !Below(a, a)
    ensures Below(a, b) && Below(b, c) ==> Below(a, c)
    ensures a == b || Below(a, b) || Below(b, a)
    decreases a, b, c
  {
    match a {
      case Zero =>
      case Leaf(x) =>
        BytesBelowIsOrder(x, if b.Leaf? then b.preimage else [], if c.Leaf? then c.preimage else []);
      case Pair(p, q) =>
        var b1, b2 := if b.Pair? then b.first else Zero, if b.Pair? then b.second else Zero;
        var c1, c2 := if c.Pair? then c.first else Zero, if c.Pair? then c.second else Zero;
        BelowIsOrder(p, b1, c1);
        BelowIsOrder(q, b2, c2);
    }
  }

  lemma BelowIsStrictTotalOrder()
    ensures IsStrictTotalOrder(Below)
  {
    forall a, b, c
      ensures !Below(a, a)
      ensures Below(a, b) && Below(b, c) ==> Below(a, c)
      ensures a == b || Below(a, b) || Below(b, a)
    {
      BelowIsOrder(a, b, c);
    }
  }
}
