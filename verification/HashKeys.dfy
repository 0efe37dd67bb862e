/** Keys of the hash table, their hash values and the slots that these select. */
module HashKeys {
  import opened Bits

  /** The bytes of a key. */
  type Key = seq<char>

  /** An `unsigned int`. */
  type Word = n: nat | n < 0x1_0000_0000

  /** The hash function of a table: the default one with a seed, or one that the caller brings. */
  datatype Hasher = Default(seed: Word) | Custom(f: Key -> Word)

  /** `SCL_HASH_KEY_STRING`: the key ends before its NUL. */
  const KEY_STRING := -1

  predicate Readable(key: seq<char>, klen: int) {
    if klen == KEY_STRING then '\0' in key else 0 <= klen <= |key|
  }

  /** The key that a buffer and a length stand for. */
  function Named(key: seq<char>, klen: int): (k: Key)
    requires Readable(key, klen)
  {
    if klen == KEY_STRING then BeforeNul(key) else key[..klen]
  }

  function BeforeNul(key: seq<char>): (k: Key)
    requires '\0' in key
    ensures k <= key && '\0' !in k && |k| < |key| && key[|k|] == '\0'
  {
    if key[0] == '\0' then [] else [key[0]] + BeforeNul(key[1..])
  }

  /** A string is the key that its length gives as well. */
  lemma StringIsCounted(key: seq<char>)
    requires '\0' in key
    ensures Named(key, KEY_STRING) == Named(key, |BeforeNul(key)|)
  {
  }

  function Times33(k: Key, hash: Word): Word {
    if |k| == 0 then hash else Times33(k[1..], (hash * 33 + k[0] as int) % 0x1_0000_0000)
  }

  /** `hashfunc_default`: the hash value, and the length that the key has. */
  method HashDefault(key: seq<char>, klen: int, seed: Word) returns (hash: Word, len: nat)
    requires Readable(key, klen)
    ensures len == |Named(key, klen)| && hash == Times33(Named(key, klen), seed)
  {
    hash := seed;
    ghost var k := Named(key, klen);
    if klen == KEY_STRING {
      var p := 0;
      while key[p] != '\0'
        invariant p <= |k| && Times33(k[p..], hash) == Times33(k, seed)
        decreases |k| - p
      {
        hash := (hash * 33 + key[p] as int) % 0x1_0000_0000;
        p := p + 1;
      }
      len := p;
    } else {
      var p, i := 0, klen;
      while i != 0
        invariant 0 <= i && p + i == klen && Times33(k[p..], hash) == Times33(k, seed)
        decreases i
      {
        hash := (hash * 33 + key[p] as int) % 0x1_0000_0000;
        i, p := i - 1, p + 1;
      }
      len := klen;
    }
  }

  function HashOf(h: Hasher, k: Key): Word {
    match h
    case Default(seed) => Times33(k, seed)
    case Custom(f) => f(k)
  }

  /** The hash value of a key by either function, and the length of the key. */
  method HashKey(h: Hasher, key: seq<char>, klen: int) returns (hash: Word, len: nat)
    requires Readable(key, klen)
    ensures hash == HashOf(h, Named(key, klen)) && len == |Named(key, klen)|
  {
    match h {
      case Default(seed) =>
        hash, len := HashDefault(key, klen, seed);
      case Custom(f) =>
        hash, len := f(Named(key, klen)), |Named(key, klen)|;
    }
  }
}
