/** Promises as the caches see them: opaque values compared by identity, and
    the facts about logs of keys the caches keep. */
module Promises {

  /** A promise, known only by its identity. Whether it resolves or rejects
      does not affect any cache. */
  datatype Token = Token(id: nat)

  /** `PropertyKey`: a string, a number or a symbol (symbols by identity). */
  datatype PropertyKey = StringKey(s: string) | NumberKey(n: int) | SymbolKey(symbol: nat)

  /** No key occurs twice. */
  ghost predicate Distinct<K>(s: seq<K>) {
    forall i, j :: 0 <= i < j < |s| ==> s[i] != s[j]
  }

  ghost function Elements<K>(s: seq<K>): set<K> {
    set x | x in s
  }

  /** A log without repetitions has as many entries as distinct keys. */
  lemma {:induction false} DistinctCardinality<K>(s: seq<K>)
    requires Distinct(s)
    ensures |Elements(s)| == |s|
  {
    if s != [] {
      var t := s[..|s| - 1];
      assert Distinct(t) by {
        forall i, j | 0 <= i < j < |t| ensures t[i] != t[j] {
          assert t[i] == s[i] && t[j] == s[j];
        }
      }
      DistinctCardinality(t);
      assert s == t + [s[|s| - 1]];
      assert Elements(s) == Elements(t) + {s[|s| - 1]};
      forall i | 0 <= i < |t| ensures t[i] != s[|s| - 1] {
        assert t[i] == s[i];
      }
      assert s[|s| - 1] !in Elements(t);
    }
  }

  /** Appending a key not yet logged keeps the log free of repetitions. */
  lemma AppendFresh<K>(s: seq<K>, k: K)
    requires Distinct(s) && k !in s
    ensures Distinct(s + [k])
  {
    var t := s + [k];
    forall i, j | 0 <= i < j < |t| ensures t[i] != t[j] {
      if j == |s| {
        assert t[i] == s[i];
      } else {
        assert t[i] == s[i] && t[j] == s[j];
      }
    }
  }
}
