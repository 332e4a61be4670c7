/** The Redis key table both adapters drive. Values are the integers the
    adapters write; there is no expiry, because neither adapter passes a
    TTL. A client whose `available` flag is false refuses every write, which
    stands for phpredis returning `false` from a command. */
module RedisStore {
  import opened Base

  type Table = map<string, int>

  /** What GET returns for a key: nothing when the key is missing. */
  function Lookup(t: Table, k: string): Option<int>
  {
    if k in t then Some(t[k]) else None
  }

  /** PHP's `empty()` on a GET result: a missing key or a stored zero. */
  predicate Empty(v: Option<int>)
  {
    v.None? || v.value == 0
  }

  /** A key that marks a state: present and not empty. */
  predicate Marked(t: Table, k: string)
  {
    !Empty(Lookup(t, k))
  }

  /** `(int)` of a GET result: the stored value, or 0 for a missing key. */
  function IntValue(t: Table, k: string): int
  {
    if k in t then t[k] else 0
  }

  /** Redis KEYS glob matching, restricted to `*` (any run of characters)
      and `?` (any one character); every other character matches itself. */
  function GlobMatch(pattern: string, s: string): bool
    decreases |pattern| + |s|
  {
    if pattern == [] then s == []
    else if pattern[0] == '*' then
      GlobMatch(pattern[1..], s) || (s != [] && GlobMatch(pattern, s[1..]))
    else
      s != [] && (pattern[0] == '?' || pattern[0] == s[0]) && GlobMatch(pattern[1..], s[1..])
  }

  predicate NoWildcards(s: string)
  {
    forall i :: 0 <= i < |s| ==> s[i] != '*' && s[i] != '?'
  }

  /** The keys of the table that KEYS `pattern` returns. */
  function Matching(t: Table, pattern: string): set<string>
  {
    set k | k in t && GlobMatch(pattern, k)
  }

  lemma {:induction false} StarMatchesAll(s: string)
    ensures GlobMatch("*", s)
    decreases |s|
  {
    if s != [] {
      StarMatchesAll(s[1..]);
    }
  }

  /** A star matches any run `x` in front of what the rest of the pattern
      matches. */
  lemma {:induction false} StarSkips(x: string, q: string, r: string)
    requires GlobMatch(q, r)
    ensures GlobMatch("*" + q, x + r)
    decreases |x|
  {
    var p := "*" + q;
    assert p[0] == '*' && p[1..] == q;
    if x == [] {
      assert x + r == r;
    } else {
      StarSkips(x[1..], q, r);
      assert (x + r)[1..] == x[1..] + r;
    }
  }

  /** Every string, read as a pattern, matches itself: a `*` matches the
      character `*` and a `?` matches `?`. */
  lemma {:induction false} SelfMatch(x: string, p: string, s: string)
    requires GlobMatch(p, s)
    ensures GlobMatch(x + p, x + s)
    decreases |x|
  {
    if x == [] {
      assert x + p == p && x + s == s;
    } else {
      SelfMatch(x[1..], p, s);
      var xp, xs := x + p, x + s;
      assert xp[0] == x[0] && xp[1..] == x[1..] + p;
      assert xs[0] == x[0] && xs[1..] == x[1..] + s;
      assert GlobMatch(xp[1..], xs[1..]);
      if x[0] == '*' {
        assert GlobMatch(xp, xs[1..]);
      }
    }
  }

  /** A wildcard-free literal followed by `*` matches exactly the strings
      that start with the literal. */
  lemma {:induction false} LiteralStarIsPrefix(lit: string, s: string)
    requires NoWildcards(lit)
    ensures GlobMatch(lit + "*", s) <==> lit <= s
    decreases |lit|
  {
    if lit == [] {
      StarMatchesAll(s);
      assert lit + "*" == "*";
    } else {
      var p := lit + "*";
      assert p[0] == lit[0] && p[1..] == lit[1..] + "*";
      assert NoWildcards(lit[1..]) by {
        forall i | 0 <= i < |lit[1..]|
          ensures lit[1..][i] != '*' && lit[1..][i] != '?'
        {
          assert lit[1..][i] == lit[i + 1];
        }
      }
      if s != [] {
        LiteralStarIsPrefix(lit[1..], s[1..]);
        assert lit <= s <==> lit[0] == s[0] && lit[1..] <= s[1..];
      }
    }
  }

  /** Writing a key adds it to what KEYS returns exactly when it matches. */
  lemma MatchingAfterSet(t: Table, p: string, k: string, v: int)
    ensures Matching(t[k := v], p) == if GlobMatch(p, k) then Matching(t, p) + {k} else Matching(t, p)
  {
  }

  /** Deleting keys removes just those keys from what KEYS returns. */
  lemma MatchingAfterDelete(t: Table, p: string, ks: set<string>)
    ensures Matching(t - ks, p) == Matching(t, p) - ks
  {
  }

  /** Deleting three keys none of which is a stored match leaves what KEYS
      returns unchanged. */
  lemma DeleteUnmatchedKeepsMatching(t: Table, p: string, a: string, b: string, c: string)
    requires !GlobMatch(p, a) && !GlobMatch(p, b) && c !in t
    ensures Matching(t - {a, b, c}, p) == Matching(t, p)
  {
    MatchingAfterDelete(t, p, {a, b, c});
    assert Matching(t, p) - {a, b, c} == Matching(t, p);
  }

  /** Writing a matching key grows the KEYS count by one, unless the key
      was there already. */
  lemma CountAfterSet(t: Table, p: string, k: string, v: int)
    requires GlobMatch(p, k)
    ensures |Matching(t[k := v], p)| == |Matching(t, p)| + (if k in t then 0 else 1)
  {
    MatchingAfterSet(t, p, k, v);
    if k in t {
      assert Matching(t, p) + {k} == Matching(t, p);
    } else {
      assert k !in Matching(t, p);
    }
  }

  class RedisClient {
    var table: Table
    var available: bool
    var lastError: string

    constructor (initial: Table, available: bool, lastError: string)
      ensures table == initial && this.available == available && this.lastError == lastError
    {
      table := initial;
      this.available := available;
      this.lastError := lastError;
    }

    /** GET key. */
    method Get(k: string) returns (v: Option<int>)
      ensures v == Lookup(table, k)
    {
      v := if k in table then Some(table[k]) else None;
    }

    /** SET key value, without expiry; `false` when the store refuses. */
    method Set(k: string, v: int) returns (ok: bool)
      modifies this`table
      ensures ok == available
      ensures table == if available then old(table)[k := v] else old(table)
    {
      ok := available;
      if ok {
        table := table[k := v];
      }
    }

    /** DEL key [key ...]: every named key literally, no pattern matching. */
    method Delete(keys: seq<string>) returns (ok: bool)
      modifies this`table
      ensures ok == available
      ensures table == if available then old(table) - set i | 0 <= i < |keys| :: keys[i] else old(table)
    {
      ok := available;
      if ok {
        table := table - set i | 0 <= i < |keys| :: keys[i];
      }
    }

    /** INCR key: a missing key counts from 0. */
    method Incr(k: string) returns (ok: bool)
      modifies this`table
      ensures ok == available
      ensures table == if available then old(table)[k := IntValue(old(table), k) + 1] else old(table)
    {
      ok := available;
      if ok {
        table := table[k := IntValue(table, k) + 1];
      }
    }

    /** KEYS pattern. */
    method Keys(pattern: string) returns (ks: set<string>)
      ensures ks == Matching(table, pattern)
    {
      ks := set k | k in table && GlobMatch(pattern, k);
    }
  }
}
