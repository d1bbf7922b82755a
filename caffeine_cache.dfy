/**
 * The local cache tier: an unbounded key/value map (time-to-live expiry and
 * the size bound are not modelled) with lookup by expected type, insertion,
 * removal of one key, removal by pattern, and clearing.
 *
 * `evictPattern` has two modes. A pattern without '*' removes the keys it is
 * a prefix of. A pattern with '*' is turned into a regular expression ('.'
 * escaped, '*' becoming ".*") and removes the keys the expression matches in
 * full; `GlobMatch` is that full match.
 */
module CaffeineCache {
  import opened Wrappers
  import opened Text

  /** The characters a regular-expression '.' does not match (Java's line terminators). */
  predicate IsLineTerminator(c: char) {
    c == '\n' || c == '\r' || c == '\U{0085}' || c == '\U{2028}' || c == '\U{2029}'
  }

  predicate NoLineTerminator(s: string) {
    forall i :: 0 <= i < |s| ==> !IsLineTerminator(s[i])
  }

  /**
   * Full match of `key` against the expression derived from `pattern`: '*'
   * stands for any run of characters other than line terminators, every
   * other character for itself.
   */
  function GlobMatch(pattern: string, key: string): bool
    decreases |pattern| + |key|
  {
    if |pattern| == 0 then |key| == 0
    else if pattern[0] == '*' then
      GlobMatch(pattern[1..], key) || (|key| > 0 && !IsLineTerminator(key[0]) && GlobMatch(pattern, key[1..]))
    else
      |key| > 0 && key[0] == pattern[0] && GlobMatch(pattern[1..], key[1..])
  }

  /** Whether `evictPattern(pattern)` removes `key`. */
  predicate Matches(pattern: string, key: string) {
    if '*' in pattern then GlobMatch(pattern, key) else StartsWith(key, pattern)
  }

  /** The entries `evictPattern(pattern)` leaves behind. */
  function Evicted<V>(m: map<string, V>, pattern: string): map<string, V> {
    map k | k in m && !Matches(pattern, k) :: m[k]
  }

  /** What `get(key, type)` returns: the stored value when there is one and it has the expected type. */
  function Lookup<V>(m: map<string, V>, key: string, isInstance: V -> bool): Option<V> {
    if key in m && isInstance(m[key]) then Some(m[key]) else None
  }

  class CaffeineCacheService<V(==)> {
    var entries: map<string, V>

    constructor()
      ensures entries == map[]
    {
      entries := map[];
    }

    /** `isInstance` is the type test `type.isInstance(value)`. */
    method Get(key: string, isInstance: V -> bool) returns (r: Option<V>)
      ensures r.Some? <==> key in entries && isInstance(entries[key])
      ensures r.Some? ==> r.value == entries[key]
    {
      if key in entries && isInstance(entries[key]) {
        r := Some(entries[key]);
      } else {
        r := None;
      }
    }

    method Put(key: string, value: V)
      modifies this
      ensures entries == old(entries)[key := value]
    {
      entries := entries[key := value];
    }

    method Evict(key: string)
      modifies this
      ensures entries == old(entries) - {key}
    {
      entries := entries - {key};
    }

    /** Visits every resident key once and removes those the pattern selects. */
    method EvictPattern(pattern: string)
      modifies this
      ensures entries == Evicted(old(entries), pattern)
    {
      var wildcard := '*' in pattern;
      ghost var before := entries;
      var pending := entries.Keys;
      while pending != {}
        invariant pending <= before.Keys
        invariant entries == map k | k in before && (k in pending || !Matches(pattern, k)) :: before[k]
        decreases |pending|
      {
        var key :| key in pending;
        var hit := if wildcard then GlobMatch(pattern, key) else StartsWith(key, pattern);
        if hit {
          entries := entries - {key};
        }
        pending := pending - {key};
      }
    }

    method Clear()
      modifies this
      ensures entries == map[]
    {
      entries := map[];
    }

    method GetCacheType() returns (r: string)
      ensures r == "CAFFEINE"
    {
      r := "CAFFEINE";
    }
  }

  /** After `put(k, v)`, `get(k)` with the type of `v` returns `v`, and every other key reads as before. */
  lemma LookupAfterPut<V>(m: map<string, V>, k: string, v: V, isInstance: V -> bool, other: string)
    requires isInstance(v)
    ensures Lookup(m[k := v], k, isInstance) == Some(v)
    ensures other != k ==> Lookup(m[k := v], other, isInstance) == Lookup(m, other, isInstance)
  {
  }

  /** A '*'-free pattern removes exactly the keys it is a prefix of. */
  lemma EvictedByPrefix<V>(m: map<string, V>, pattern: string, key: string)
    requires '*' !in pattern
    ensures key in Evicted(m, pattern) <==> key in m && !StartsWith(key, pattern)
    ensures key in Evicted(m, pattern) ==> Evicted(m, pattern)[key] == m[key]
  {
  }

  /** A pattern with '*' removes exactly the keys that match it in full. */
  lemma EvictedByGlob<V>(m: map<string, V>, pattern: string, key: string)
    requires '*' in pattern
    ensures key in Evicted(m, pattern) <==> key in m && !GlobMatch(pattern, key)
    ensures key in Evicted(m, pattern) ==> Evicted(m, pattern)[key] == m[key]
  {
  }

  /** Evicting by the same pattern twice leaves what evicting once leaves. */
  lemma EvictedIdempotent<V>(m: map<string, V>, pattern: string)
    ensures Evicted(Evicted(m, pattern), pattern) == Evicted(m, pattern)
  {
  }

  // Facts about the full match, used to decide which keys a pattern selects.

  /** A '*'-free head must be matched literally, and the rest of the pattern matches the rest of the key. */
  lemma {:induction false} GlobLiteralPrefix(lit: string, p: string, k: string)
    requires '*' !in lit
    ensures GlobMatch(lit + p, k) <==> StartsWith(k, lit) && GlobMatch(p, k[|lit|..])
    decreases |lit|
  {
    if |lit| == 0 {
      assert lit + p == p;
      assert k[0..] == k;
    } else {
      var pt := lit + p;
      assert pt[0] == lit[0] && pt[1..] == lit[1..] + p;
      if |k| > 0 && k[0] == lit[0] {
        GlobLiteralPrefix(lit[1..], p, k[1..]);
        if |lit| <= |k| {
          assert k[1..][|lit| - 1..] == k[|lit|..];
          assert k[..|lit|] == [k[0]] + k[1..][..|lit| - 1];
          assert lit == [lit[0]] + lit[1..];
        }
      }
    }
  }

  /** A '*' can take any run `w` free of line terminators. */
  lemma {:induction false} StarTakes(w: string, p: string, k: string)
    requires NoLineTerminator(w) && GlobMatch(p, k)
    ensures GlobMatch("*" + p, w + k)
    decreases |w|
  {
    var pt := "*" + p;
    assert pt[0] == '*' && pt[1..] == p;
    if |w| == 0 {
      assert w + k == k;
    } else {
      StarTakes(w[1..], p, k);
      var wk := w + k;
      assert wk[0] == w[0] && wk[1..] == w[1..] + k;
    }
  }

  /** A '*' that matches took some run of the key free of line terminators. */
  lemma {:induction false} StarSplit(p: string, k: string) returns (i: nat)
    requires GlobMatch("*" + p, k)
    ensures i <= |k| && NoLineTerminator(k[..i]) && GlobMatch(p, k[i..])
    decreases |k|
  {
    var pt := "*" + p;
    assert pt[0] == '*' && pt[1..] == p;
    if GlobMatch(p, k) {
      i := 0;
      assert k[0..] == k;
    } else {
      var j := StarSplit(p, k[1..]);
      i := j + 1;
      assert k[1..][j..] == k[i..];
      assert k[..i] == [k[0]] + k[1..][..j];
    }
  }

  /** A trailing '*' matches exactly the texts free of line terminators. */
  lemma StarAlone(w: string)
    ensures GlobMatch("*", w) <==> NoLineTerminator(w)
  {
    if NoLineTerminator(w) {
      assert GlobMatch("", []);
      StarTakes(w, "", []);
      assert "*" + "" == "*" && w + [] == w;
    }
    if GlobMatch("*", w) {
      assert "*" == "*" + "";
      var i := StarSplit("", w);
      assert w[..i] == w;
    }
  }

  /** No occurrence of `x` immediately followed by `y`. */
  predicate NoPair(s: string, x: char, y: char) {
    forall j :: 0 <= j < |s| - 1 ==> !(s[j] == x && s[j + 1] == y)
  }

  /**
   * A '*' followed by a literal `lit` is anchored at the place where `lit`
   * occurs in the key: if the first character of `lit` does not occur
   * before that place and its first two characters do not occur together
   * after it, the rest of the pattern matches what follows `lit`.
   */
  lemma StarAnchored(lit: string, p: string, k1: string, k2: string)
    requires |lit| >= 2 && '*' !in lit && lit[0] !in k1
    requires NoPair(lit[1..] + k2, lit[0], lit[1])
    requires GlobMatch("*" + (lit + p), k1 + (lit + k2))
    ensures GlobMatch(p, k2)
  {
    var k := k1 + (lit + k2);
    var i := StarSplit(lit + p, k);
    GlobLiteralPrefix(lit, p, k[i..]);
    assert k[i] == lit[0] && k[i + 1] == lit[1];
    var t := lit[1..] + k2;
    forall j | |k1| < j < |k| - 1 ensures !(k[j] == lit[0] && k[j + 1] == lit[1]) {
      assert k[j] == t[j - |k1| - 1] && k[j + 1] == t[j - |k1|];
    }
    assert i == |k1|;
    assert k[i..][|lit|..] == k2;
  }
}
