/** Bloom filters of 2000 bits with 5 positions per tag, as `bloom.New(2000, 5)` makes them. */
module Bloom {
  const SIZE := 2000
  const HASHES := 5

  /** The positions of the bits that are set. */
  type Filter = set<nat>

  /** The library's hash, left open: the `k`-th hash value of a tag. */
  type TagHash = (string, nat) -> nat

  const EMPTY: Filter := {}

  function Positions(hash: TagHash, tag: string): Filter {
    set k | 0 <= k < HASHES :: hash(tag, k) % SIZE
  }

  function Add(hash: TagHash, f: Filter, tag: string): Filter {
    f + Positions(hash, tag)
  }

  predicate Test(hash: TagHash, f: Filter, tag: string) {
    Positions(hash, tag) <= f
  }

  /** The filter that holds exactly the bits of `tags`. */
  ghost function Bits(hash: TagHash, tags: set<string>): Filter {
    set t, p | t in tags && p in Positions(hash, t) :: p
  }

  /** A tag tests positive exactly if its five bits, of two thousand, are set. */
  lemma TestIff(hash: TagHash, f: Filter, tag: string)
    ensures Test(hash, f, tag) <==> forall k: nat :: k < 5 ==> hash(tag, k) % 2000 in f
    ensures forall p :: p in Add(hash, f, tag) <==> p in f || exists k: nat :: k < 5 && p == hash(tag, k) % 2000
  {
    if Test(hash, f, tag) {
      forall k: nat | k < 5 ensures hash(tag, k) % 2000 in f {
        assert hash(tag, k) % 2000 in Positions(hash, tag);
      }
    }
  }

  lemma BitsOfUnion(hash: TagHash, a: set<string>, b: set<string>)
    ensures Bits(hash, a + b) == Bits(hash, a) + Bits(hash, b)
  {
  }

  lemma BitsOfOne(hash: TagHash, tag: string)
    ensures Bits(hash, {tag}) == Positions(hash, tag)
  {
  }

  lemma BitsOfNone(hash: TagHash)
    ensures Bits(hash, {}) == EMPTY
  {
  }

  lemma SomePosition(hash: TagHash, tag: string)
    ensures hash(tag, 0) % SIZE in Positions(hash, tag)
  {
  }

  lemma BitsTestPositive(hash: TagHash, tags: set<string>, tag: string)
    requires tag in tags
    ensures Test(hash, Bits(hash, tags), tag)
  {
  }

  ghost predicate AllTestPositive(hash: TagHash, f: Filter, texts: set<string>) {
    forall t :: t in texts ==> Test(hash, f, t)
  }

  lemma BitsInsideIff(hash: TagHash, f: Filter, texts: set<string>)
    ensures AllTestPositive(hash, f, texts) <==> Bits(hash, texts) <= f
  {
    if AllTestPositive(hash, f, texts) {
      forall p | p in Bits(hash, texts) ensures p in f {
        var t :| t in texts && p in Positions(hash, t);
        assert Test(hash, f, t);
      }
    }
    if Bits(hash, texts) <= f {
      forall t | t in texts ensures Test(hash, f, t) {
        BitsTestPositive(hash, texts, t);
      }
    }
  }
}
