/** String helpers the endpoint engine needs: prefix tests, first-occurrence
    search and single replacement, with the meaning of Go's `strings.Index`
    and `strings.Replace(s, old, new, 1)`. */
module TextUtil {

  /** `s` begins with `prefix`. */
  predicate HasPrefix(s: string, prefix: string) {
    |prefix| <= |s| && s[..|prefix|] == prefix
  }

  /** `key` occurs in `s` starting at position `i`. */
  predicate OccursAt(s: string, key: string, i: int) {
    0 <= i && i + |key| <= |s| && s[i..i + |key|] == key
  }

  lemma OccursAtShift(s: string, key: string, i: int)
    requires |s| > 0 && 1 <= i
    ensures OccursAt(s, key, i) <==> OccursAt(s[1..], key, i - 1)
  {
    if i + |key| <= |s| {
      assert s[i..i + |key|] == s[1..][i - 1..i - 1 + |key|];
    }
  }

  /** The first position at which `key` occurs in `s`, or -1 when it does not
      occur at all. */
  function Index(s: string, key: string): (r: int)
    ensures -1 <= r
    ensures r >= 0 ==> OccursAt(s, key, r)
    ensures forall i :: 0 <= i && (r < 0 || i < r) ==> !OccursAt(s, key, i)
    decreases |s|
  {
    if |s| < |key| then -1
    else if s[..|key|] == key then 0
    else
      var k := Index(s[1..], key);
      assert forall i :: 1 <= i ==> (OccursAt(s, key, i) <==> OccursAt(s[1..], key, i - 1)) by {
        forall i | 1 <= i {
          OccursAtShift(s, key, i);
        }
      }
      if k < 0 then -1 else k + 1
  }

  /** Replaces the first occurrence of `key` in `s` by `repl`; `s` itself when
      `key` does not occur. */
  function ReplaceFirst(s: string, key: string, repl: string): (r: string)
    ensures Index(s, key) < 0 ==> r == s
    ensures Index(s, key) >= 0 ==> |r| == |s| - |key| + |repl|
  {
    var i := Index(s, key);
    if i < 0 then s else s[..i] + repl + s[i + |key|..]
  }

  /** When the first character of `key` does not occur in `a`, the first
      occurrence of `key` in `a + key + b` is the one right after `a`, so the
      replacement leaves `a` and `b` in place. */
  lemma {:induction false} ReplaceAfterPlainPrefix(a: string, key: string, b: string, repl: string)
    requires |key| > 0 && key[0] !in a
    ensures ReplaceFirst(a + key + b, key, repl) == a + repl + b
  {
    var s := a + key + b;
    assert s[|a|..|a| + |key|] == key;
    assert OccursAt(s, key, |a|);
    var i := Index(s, key);
    assert i == |a|;
    assert s[..i] == a;
    assert s[i + |key|..] == b;
  }

  /** A string that does not contain the first character of `key` is left
      unchanged by replacing `key`. */
  lemma ReplaceAbsent(s: string, key: string, repl: string)
    requires |key| > 0 && key[0] !in s
    ensures ReplaceFirst(s, key, repl) == s
  {
  }
}
