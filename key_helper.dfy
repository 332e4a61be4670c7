/** Redis key names of the newer adapter (src/Adapter/Redis/KeyHelper.php):
    templates holding a `{SERVICE}` placeholder that PHP's `str_replace`
    fills in. The clock reading `time()` is a parameter. */
module KeyHelper {
  import opened RedisStore

  const PLACEHOLDER: string := "{SERVICE}"
  const PREFIX: string := "circuit_breaker:"

  const KEY_TOTAL_FAILURES: string := "circuit_breaker:{SERVICE}:total_failures"
  const KEY_OPEN: string := "circuit_breaker:{SERVICE}:open"
  const KEY_CLOSED: string := "circuit_breaker:{SERVICE}:closed"
  const KEY_HALF_OPEN: string := "circuit_breaker:{SERVICE}:half_open"

  /** PHP `str_replace(search, replace, subject)`: every occurrence of
      `search`, scanning left to right without overlap, is replaced; the
      replacement text is not scanned again. An empty `search` changes
      nothing. */
  function StrReplace(search: string, replace: string, subject: string): string
    decreases |subject|
  {
    if search == [] || |subject| < |search| then subject
    else if subject[..|search|] == search then replace + StrReplace(search, replace, subject[|search|..])
    else [subject[0]] + StrReplace(search, replace, subject[1..])
  }

  /** Text that cannot begin an occurrence of `search` passes through. */
  lemma {:induction false} ReplaceSkipsPlain(search: string, replace: string, p: string, t: string)
    requires search != [] && search[0] !in p
    ensures StrReplace(search, replace, p + t) == p + StrReplace(search, replace, t)
    decreases |p|
  {
    if p == [] {
      assert p + t == t;
    } else {
      var subject := p + t;
      assert subject[0] == p[0] && subject[1..] == p[1..] + t;
      assert p[0] in p;
      assert search[0] !in p[1..];
      ReplaceSkipsPlain(search, replace, p[1..], t);
      if |subject| >= |search| {
        assert subject[..|search|][0] != search[0];
      }
    }
  }

  lemma ReplaceAtMatch(search: string, replace: string, t: string)
    requires search != []
    ensures StrReplace(search, replace, search + t) == replace + StrReplace(search, replace, t)
  {
    var subject := search + t;
    assert subject[..|search|] == search;
    assert subject[|search|..] == t;
  }

  /** Method `generateKey`: the service name replaces the placeholder; a
      template without `{` comes back unchanged. */
  function GenerateKey(serviceName: string, key: string): (k: string)
    ensures '{' !in key ==> k == key
  {
    if '{' !in key then
      assert PLACEHOLDER[0] == '{';
      ReplaceSkipsPlain(PLACEHOLDER, serviceName, key, []);
      assert key + [] == key;
      StrReplace(PLACEHOLDER, serviceName, key)
    else
      StrReplace(PLACEHOLDER, serviceName, key)
  }

  /** A template with one placeholder, between texts free of `{`, becomes
      those texts around the service name, whatever the name holds. */
  lemma {:induction false} GenerateKeySubstitutes(serviceName: string, pre: string, post: string)
    requires '{' !in pre && '{' !in post
    ensures GenerateKey(serviceName, pre + PLACEHOLDER + post) == pre + serviceName + post
  {
    assert PLACEHOLDER[0] == '{';
    assert pre + PLACEHOLDER + post == pre + (PLACEHOLDER + post);
    ReplaceSkipsPlain(PLACEHOLDER, serviceName, pre, PLACEHOLDER + post);
    ReplaceAtMatch(PLACEHOLDER, serviceName, post);
    ReplaceSkipsPlain(PLACEHOLDER, serviceName, post, []);
    assert post + [] == post;
    assert StrReplace(PLACEHOLDER, serviceName, []) == [];
  }

  lemma BracesOnlyInPlaceholder()
    ensures '{' !in PREFIX && '{' !in ":total_failures" && '{' !in ":open"
    ensures '{' !in ":closed" && '{' !in ":half_open"
  {
  }

  lemma TotalFailuresTemplateSplits()
    ensures KEY_TOTAL_FAILURES == PREFIX + PLACEHOLDER + ":total_failures"
  {
  }

  lemma OpenTemplateSplits()
    ensures KEY_OPEN == PREFIX + PLACEHOLDER + ":open"
  {
  }

  lemma ClosedTemplateSplits()
    ensures KEY_CLOSED == PREFIX + PLACEHOLDER + ":closed"
  {
  }

  lemma HalfOpenTemplateSplits()
    ensures KEY_HALF_OPEN == PREFIX + PLACEHOLDER + ":half_open"
  {
  }

  predicate IsDigits(d: string)
  {
    forall i :: 0 <= i < |d| ==> '0' <= d[i] <= '9'
  }

  function Digit(k: nat): (c: char)
    requires k < 10
    ensures c as int == '0' as int + k
  {
    ('0' as int + k) as char
  }

  /** PHP's decimal rendering of a non-negative integer, as `. time()` makes. */
  function Decimal(n: nat): (d: string)
    ensures |d| >= 1 && IsDigits(d)
    ensures n < 10 <==> |d| == 1
    decreases n
  {
    if n < 10 then [Digit(n)] else Decimal(n / 10) + [Digit(n % 10)]
  }

  lemma {:induction false} DecimalInjective(m: nat, n: nat)
    requires Decimal(m) == Decimal(n)
    ensures m == n
    decreases m
  {
    var dm, dn := Decimal(m), Decimal(n);
    if m < 10 && n < 10 {
      assert dm[0] == Digit(m) && dn[0] == Digit(n);
    } else if m >= 10 && n >= 10 {
      assert dm[..|dm| - 1] == Decimal(m / 10);
      assert dn[..|dn| - 1] == Decimal(n / 10);
      DecimalInjective(m / 10, n / 10);
      assert dm[|dm| - 1] == Digit(m % 10) && dn[|dn| - 1] == Digit(n % 10);
    }
  }

  /** Method `generateKeyTotalFailuresToStore`: one key per second. */
  function KeyTotalFailuresToStore(serviceName: string, now: nat): (k: string)
    ensures k == PREFIX + serviceName + ":total_failures:" + Decimal(now)
  {
    BracesOnlyInPlaceholder();
    TotalFailuresTemplateSplits();
    GenerateKeySubstitutes(serviceName, PREFIX, ":total_failures");
    GenerateKey(serviceName, KEY_TOTAL_FAILURES) + ":" + Decimal(now)
  }

  /** Method `generateKeyTotalFailuresToSearch`: the KEYS pattern. */
  function KeyTotalFailuresToSearch(serviceName: string): (k: string)
    ensures k == PREFIX + serviceName + ":total_failures:*"
  {
    BracesOnlyInPlaceholder();
    TotalFailuresTemplateSplits();
    GenerateKeySubstitutes(serviceName, PREFIX, ":total_failures");
    GenerateKey(serviceName, KEY_TOTAL_FAILURES) + ":*"
  }

  function KeyOpen(serviceName: string): (k: string)
    ensures k == PREFIX + serviceName + ":open"
  {
    BracesOnlyInPlaceholder();
    OpenTemplateSplits();
    GenerateKeySubstitutes(serviceName, PREFIX, ":open");
    GenerateKey(serviceName, KEY_OPEN)
  }

  function KeyClosed(serviceName: string): (k: string)
    ensures k == PREFIX + serviceName + ":closed"
  {
    BracesOnlyInPlaceholder();
    ClosedTemplateSplits();
    GenerateKeySubstitutes(serviceName, PREFIX, ":closed");
    GenerateKey(serviceName, KEY_CLOSED)
  }

  function KeyHalfOpen(serviceName: string): (k: string)
    ensures k == PREFIX + serviceName + ":half_open"
  {
    BracesOnlyInPlaceholder();
    HalfOpenTemplateSplits();
    GenerateKeySubstitutes(serviceName, PREFIX, ":half_open");
    GenerateKey(serviceName, KEY_HALF_OPEN)
  }

  /** The literal part of the search pattern, in front of its `*`. */
  function FailurePrefix(serviceName: string): string
  {
    PREFIX + serviceName + ":total_failures:"
  }

  /** A service name with no `:` and none of the glob characters. */
  predicate PlainName(s: string)
  {
    forall i :: 0 <= i < |s| ==> s[i] !in ":*?[\\"
  }

  /** Keys whose last characters differ are different keys. */
  lemma EndsDiffer(a: string, b: string)
    requires |a| > 0 && |b| > 0 && a[|a| - 1] != b[|b| - 1]
    ensures a != b
  {
  }

  /** Past its first part, a concatenation reads its second part. */
  lemma CharAfter(p: string, suf: string, i: nat)
    requires i < |suf|
    ensures (p + suf)[|p| + i] == suf[i]
  {
  }

  /** Counting from the end, a concatenation ends with its suffix. */
  lemma CharFromEnd(p: string, suf: string, i: nat)
    requires 0 < i <= |suf|
    ensures (p + suf)[|p + suf| - i] == suf[|suf| - i]
  {
  }

  /** Two concatenations whose suffixes differ at the same distance from
      the end are different. */
  lemma SuffixesDifferFromEnd(p1: string, suf1: string, p2: string, suf2: string, i: nat)
    requires 0 < i <= |suf1| && i <= |suf2| && suf1[|suf1| - i] != suf2[|suf2| - i]
    ensures p1 + suf1 != p2 + suf2
  {
    CharFromEnd(p1, suf1, i);
    CharFromEnd(p2, suf2, i);
  }

  lemma OpenIsNotHalfOpen(s1: string, s2: string)
    ensures KeyOpen(s1) != KeyHalfOpen(s2)
  {
    var o, h := ":open", ":half_open";
    assert o[|o| - 5] == ':' && h[|h| - 5] == '_';
    SuffixesDifferFromEnd(PREFIX + s1, o, PREFIX + s2, h, 5);
  }

  lemma OpenIsNotClosed(s1: string, s2: string)
    ensures KeyOpen(s1) != KeyClosed(s2) && KeyHalfOpen(s1) != KeyClosed(s2)
  {
    CharFromEnd(PREFIX + s1, ":open", 1);
    CharFromEnd(PREFIX + s1, ":half_open", 1);
    CharFromEnd(PREFIX + s2, ":closed", 1);
  }

  /** The last character of a stored failure key is a digit. */
  lemma StoreKeyEndsInDigit(s: string, now: nat)
    ensures var k := KeyTotalFailuresToStore(s, now); '0' <= k[|k| - 1] <= '9'
  {
    var k, d := KeyTotalFailuresToStore(s, now), Decimal(now);
    assert k[|k| - 1] == d[|d| - 1];
  }

  lemma SearchKeyEndsInStar(s: string)
    ensures var k := KeyTotalFailuresToSearch(s); k[|k| - 1] == '*'
  {
  }

  /** The open, half-open and closed keys are neither a stored failure key
      nor the search pattern, for any two service names (the same name
      included) and any clock reading. */
  lemma MarkerKeysAreNoOtherKind(s1: string, s2: string, now: nat)
    ensures KeyOpen(s1) != KeyHalfOpen(s2) && KeyOpen(s1) != KeyClosed(s2)
    ensures KeyHalfOpen(s1) != KeyClosed(s2)
    ensures KeyOpen(s1) != KeyTotalFailuresToStore(s2, now)
    ensures KeyHalfOpen(s1) != KeyTotalFailuresToStore(s2, now)
    ensures KeyClosed(s1) != KeyTotalFailuresToStore(s2, now)
    ensures KeyOpen(s1) != KeyTotalFailuresToSearch(s2)
    ensures KeyHalfOpen(s1) != KeyTotalFailuresToSearch(s2)
    ensures KeyClosed(s1) != KeyTotalFailuresToSearch(s2)
    ensures KeyTotalFailuresToStore(s1, now) != KeyTotalFailuresToSearch(s2)
  {
    OpenIsNotHalfOpen(s1, s2);
    OpenIsNotClosed(s1, s2);
    var o, h, c := KeyOpen(s1), KeyHalfOpen(s1), KeyClosed(s1);
    var st1, st2 := KeyTotalFailuresToStore(s1, now), KeyTotalFailuresToStore(s2, now);
    var se := KeyTotalFailuresToSearch(s2);
    CharFromEnd(PREFIX + s1, ":open", 1);
    CharFromEnd(PREFIX + s1, ":half_open", 1);
    CharFromEnd(PREFIX + s1, ":closed", 1);
    StoreKeyEndsInDigit(s1, now);
    StoreKeyEndsInDigit(s2, now);
    SearchKeyEndsInStar(s2);
    EndsDiffer(o, st2);
    EndsDiffer(h, st2);
    EndsDiffer(c, st2);
    EndsDiffer(o, se);
    EndsDiffer(h, se);
    EndsDiffer(c, se);
    EndsDiffer(st1, se);
  }

  lemma StripAffixes(pre: string, a: string, b: string, suf: string)
    requires pre + a + suf == pre + b + suf
    ensures a == b
  {
    var k := pre + a + suf;
    assert |a| == |b|;
    assert a == k[|pre|..|pre| + |a|];
    assert b == (pre + b + suf)[|pre|..|pre| + |b|];
  }

  /** Two texts that end in `:`, each followed by digits, split the same
      way: the last `:` is where the digits begin. */
  lemma SplitBeforeDigits(p1: string, d1: string, p2: string, d2: string)
    requires |p1| > 0 && p1[|p1| - 1] == ':' && IsDigits(d1)
    requires |p2| > 0 && p2[|p2| - 1] == ':' && IsDigits(d2)
    requires p1 + d1 == p2 + d2
    ensures p1 == p2 && d1 == d2
  {
    var k := p1 + d1;
    assert p1 == k[..|p1|] && p2 == k[..|p2|];
    assert d1 == k[|p1|..] && d2 == k[|p2|..];
  }

  /** Distinct service names give distinct keys of each fixed kind. */
  lemma KeysInjective(s1: string, s2: string)
    ensures KeyOpen(s1) == KeyOpen(s2) ==> s1 == s2
    ensures KeyHalfOpen(s1) == KeyHalfOpen(s2) ==> s1 == s2
    ensures KeyClosed(s1) == KeyClosed(s2) ==> s1 == s2
    ensures KeyTotalFailuresToSearch(s1) == KeyTotalFailuresToSearch(s2) ==> s1 == s2
  {
    if KeyOpen(s1) == KeyOpen(s2) {
      StripAffixes(PREFIX, s1, s2, ":open");
    }
    if KeyHalfOpen(s1) == KeyHalfOpen(s2) {
      StripAffixes(PREFIX, s1, s2, ":half_open");
    }
    if KeyClosed(s1) == KeyClosed(s2) {
      StripAffixes(PREFIX, s1, s2, ":closed");
    }
    if KeyTotalFailuresToSearch(s1) == KeyTotalFailuresToSearch(s2) {
      StripAffixes(PREFIX, s1, s2, ":total_failures:*");
    }
  }

  /** Stored failure keys are distinct for distinct (name, second) pairs:
      the decimal second follows the last `:` of the key. */
  lemma StoreKeysInjective(s1: string, s2: string, now1: nat, now2: nat)
    requires KeyTotalFailuresToStore(s1, now1) == KeyTotalFailuresToStore(s2, now2)
    ensures s1 == s2 && now1 == now2
  {
    var p1, p2 := FailurePrefix(s1), FailurePrefix(s2);
    assert p1[|p1| - 1] == ':' && p2[|p2| - 1] == ':';
    SplitBeforeDigits(p1, Decimal(now1), p2, Decimal(now2));
    StripAffixes(PREFIX, s1, s2, ":total_failures:");
    DecimalInjective(now1, now2);
  }

  /** Every stored failure key of a service, at any second, is returned by
      KEYS with that service's search pattern. */
  lemma StoreKeyMatchesSearch(serviceName: string, now: nat)
    ensures GlobMatch(KeyTotalFailuresToSearch(serviceName), KeyTotalFailuresToStore(serviceName, now))
  {
    StarMatchesAll(Decimal(now));
    SelfMatch(FailurePrefix(serviceName), "*", Decimal(now));
    assert KeyTotalFailuresToSearch(serviceName) == FailurePrefix(serviceName) + "*";
    assert KeyTotalFailuresToStore(serviceName, now) == FailurePrefix(serviceName) + Decimal(now);
  }

  /** For a name without glob characters, the search pattern matches
      exactly the keys that start with its literal part. */
  lemma SearchMatchesPrefix(serviceName: string, k: string)
    requires NoWildcards(serviceName)
    ensures GlobMatch(KeyTotalFailuresToSearch(serviceName), k) <==> FailurePrefix(serviceName) <= k
  {
    var lit := FailurePrefix(serviceName);
    assert NoWildcards(lit) by {
      forall i | 0 <= i < |lit| ensures lit[i] != '*' && lit[i] != '?' {
        if i < |PREFIX| {
          assert lit[i] == PREFIX[i];
        } else if i < |PREFIX| + |serviceName| {
          assert lit[i] == serviceName[i - |PREFIX|];
        } else {
          assert lit[i] == ":total_failures:"[i - |PREFIX| - |serviceName|];
        }
      }
    }
    assert KeyTotalFailuresToSearch(serviceName) == lit + "*";
    LiteralStarIsPrefix(lit, k);
  }

  lemma PlainHasNoWildcards(s: string)
    requires PlainName(s)
    ensures NoWildcards(s)
  {
    forall i | 0 <= i < |s| ensures s[i] != '*' && s[i] != '?' {
      assert s[i] !in ":*?[\\";
    }
  }

  /** After the prefix, the first `:` of `circuit_breaker:<name><rest>`
      closes a plain name, when `rest` starts with `:`. */
  lemma FirstColonEndsName(name: string, rest: string)
    requires PlainName(name) && |rest| > 0 && rest[0] == ':'
    ensures var x := PREFIX + name + rest;
      x[|PREFIX| + |name|] == ':' &&
      forall j :: |PREFIX| <= j < |PREFIX| + |name| ==> x[j] != ':'
  {
    var x := PREFIX + name + rest;
    forall j | |PREFIX| <= j < |PREFIX| + |name| ensures x[j] != ':' {
      assert x[j] == name[j - |PREFIX|];
    }
  }

  /** A key of the form `circuit_breaker:<s1>:...` starts with the literal
      search prefix of a plain name `s2` only when the names are equal. */
  lemma FailurePrefixFixesName(s1: string, s2: string, rest: string)
    requires PlainName(s1) && PlainName(s2)
    requires |rest| > 0 && rest[0] == ':'
    ensures FailurePrefix(s2) <= PREFIX + s1 + rest ==> s1 == s2
  {
    var lit, k := FailurePrefix(s2), PREFIX + s1 + rest;
    var n := |PREFIX|;
    if lit <= k {
      FirstColonEndsName(s1, rest);
      FirstColonEndsName(s2, ":total_failures:");
      assert |s1| == |s2|;
      assert s1 == k[n..n + |s1|];
      assert s2 == lit[n..n + |s2|];
    }
  }

  /** KEYS with the pattern of one plain name returns no key that the
      adapter writes or deletes for another plain name. */
  lemma SearchSeparatesPlainNames(s1: string, s2: string, now: nat)
    requires PlainName(s1) && PlainName(s2) && s1 != s2
    ensures !GlobMatch(KeyTotalFailuresToSearch(s2), KeyTotalFailuresToStore(s1, now))
    ensures !GlobMatch(KeyTotalFailuresToSearch(s2), KeyOpen(s1))
    ensures !GlobMatch(KeyTotalFailuresToSearch(s2), KeyHalfOpen(s1))
    ensures !GlobMatch(KeyTotalFailuresToSearch(s2), KeyTotalFailuresToSearch(s1))
  {
    PlainHasNoWildcards(s2);
    var tail := ":total_failures:" + Decimal(now);
    assert KeyTotalFailuresToStore(s1, now) == PREFIX + s1 + tail;
    SearchMatchesPrefix(s2, KeyTotalFailuresToStore(s1, now));
    FailurePrefixFixesName(s1, s2, tail);
    SearchMatchesPrefix(s2, KeyOpen(s1));
    FailurePrefixFixesName(s1, s2, ":open");
    SearchMatchesPrefix(s2, KeyHalfOpen(s1));
    FailurePrefixFixesName(s1, s2, ":half_open");
    SearchMatchesPrefix(s2, KeyTotalFailuresToSearch(s1));
    FailurePrefixFixesName(s1, s2, ":total_failures:*");
  }

  lemma RegroupNested(p: string, s: string, t: string, r: string, d: string)
    ensures p + (s + t + r) + t + d == p + s + t + (r + t + d)
  {
  }

  lemma RegroupRight(p: string, x: string, t: string)
    ensures p + x + t == p + (x + t)
  {
  }

  /** Without the plain-name condition the separation fails: the failures
      of a service named `<s>:total_failures:<r>` are counted for `s`. */
  lemma ColonNameMatchesAnotherSearch(s: string, r: string, now: nat)
    requires NoWildcards(s)
    ensures GlobMatch(KeyTotalFailuresToSearch(s), KeyTotalFailuresToStore(s + ":total_failures:" + r, now))
  {
    var k := KeyTotalFailuresToStore(s + ":total_failures:" + r, now);
    RegroupNested(PREFIX, s, ":total_failures:", r, Decimal(now));
    assert k == FailurePrefix(s) + (r + ":total_failures:" + Decimal(now));
    SearchMatchesPrefix(s, k);
  }

  /** A pattern `<p>*<t>*` matches `<p><x><t><d>` for every `x` and `d`. */
  lemma {:induction false} StarsAroundLiteral(p: string, t: string, x: string, d: string)
    ensures GlobMatch(p + "*" + (t + "*"), p + x + (t + d))
  {
    StarMatchesAll(d);
    SelfMatch(t, "*", d);
    StarSkips(x, t + "*", t + d);
    SelfMatch(p, "*" + (t + "*"), x + (t + d));
    RegroupRight(p, "*", t + "*");
    RegroupRight(p, x, t + d);
  }

  /** A service named `*` counts the failures of every service. */
  lemma StarNameMatchesEverySearch(serviceName: string, now: nat)
    ensures GlobMatch(KeyTotalFailuresToSearch("*"), KeyTotalFailuresToStore(serviceName, now))
  {
    var tail := ":total_failures:";
    assert ":total_failures:*" == tail + "*";
    StarsAroundLiteral(PREFIX, tail, serviceName, Decimal(now));
    RegroupRight(PREFIX + serviceName, tail, Decimal(now));
  }
}
