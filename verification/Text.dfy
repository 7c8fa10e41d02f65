/** The string functions the configuration code leans on. */
module Text {
  import opened Sorting

  function Lower(c: char): char {
    if 'A' <= c <= 'Z' then (c as int + 32) as char else c
  }

  /** Keys compare without case and without underscores: the device accepts
      snake_case on write and exports camelCase. */
  function NormKey(k: string): string {
    if k == "" then "" else NormChar(k[0]) + NormKey(k[1..])
  }

  function NormChar(c: char): string { if c == '_' then "" else [Lower(c)] }

  lemma {:induction false} NormKeyConcat(a: string, b: string)
    ensures NormKey(a + b) == NormKey(a) + NormKey(b)
  {
    if a == "" {
      assert a + b == b;
    } else {
      assert (a + b)[1..] == a[1..] + b && (a + b)[0] == a[0];
      hide NormChar;
      NormKeyConcat(a[1..], b);
    }
  }

  lemma NormKeyCons(c: char, rest: string)
    ensures NormKey([c] + rest) == NormChar(c) + NormKey(rest)
  {
    assert ([c] + rest)[1..] == rest;
  }

  /** An underscore or a capital makes no difference. */
  lemma NormKeySpelling(pre: string, x: char, y: char, rest: string)
    requires x != '_' && y != '_' && Lower(x) == Lower(y)
    ensures NormKey(pre + (['_', x] + rest)) == NormKey(pre + ([y] + rest))
  {
    NormKeyConcat(pre, ['_', x] + rest);
    NormKeyConcat(pre, [y] + rest);
    NormKeyCons('_', [x] + rest);
    NormKeyCons(x, rest);
    NormKeyCons(y, rest);
    hide NormKey;
    assert ['_', x] + rest == ['_'] + ([x] + rest);
  }

  lemma NormKeyHead(k: string)
    requires k != "" && k[0] != '_'
    ensures NormKey(k) != "" && NormKey(k)[0] == Lower(k[0])
  {
  }

  /** Keys that part at a letter differ. */
  lemma NormKeyParts(pre: string, a: string, b: string)
    requires a != "" && b != "" && a[0] != '_' && b[0] != '_' && Lower(a[0]) != Lower(b[0])
    ensures NormKey(pre + a) != NormKey(pre + b)
  {
    NormKeyConcat(pre, a);
    NormKeyConcat(pre, b);
    assert NormKey(a)[0] == Lower(a[0]) && NormKey(b)[0] == Lower(b[0]);
    assert (NormKey(pre) + NormKey(a))[|NormKey(pre)|] == NormKey(a)[0];
    assert (NormKey(pre) + NormKey(b))[|NormKey(pre)|] == NormKey(b)[0];
  }

  /** Two keys read letter by letter: underscores are passed over, and a letter matches
      itself in either case. */
  predicate SameSpelling(a: string, b: string)
    decreases |a| + |b|
  {
    if a != "" && a[0] == '_' then SameSpelling(a[1..], b)
    else if b != "" && b[0] == '_' then SameSpelling(a, b[1..])
    else if a == "" || b == "" then a == b
    else SameLetter(a[0], b[0]) && SameSpelling(a[1..], b[1..])
  }

  predicate SameLetter(x: char, y: char) {
    || x == y
    || ('A' <= x <= 'Z' && y as int == x as int + 32)
    || ('A' <= y <= 'Z' && x as int == y as int + 32)
  }

  /** Keys have one normal form exactly when they are spellings of one another. */
  lemma {:induction false} NormKeyExact(a: string, b: string)
    ensures NormKey(a) == NormKey(b) <==> SameSpelling(a, b)
    decreases |a| + |b|
  {
    if a != "" && a[0] == '_' {
      NormKeyExact(a[1..], b);
    } else if b != "" && b[0] == '_' {
      NormKeyExact(a, b[1..]);
    } else if a != "" && b != "" {
      NormKeyExact(a[1..], b[1..]);
      SameFirst(Lower(a[0]), NormKey(a[1..]), Lower(b[0]), NormKey(b[1..]));
      LowerExact(a[0], b[0]);
    }
  }

  lemma LowerExact(x: char, y: char)
    ensures Lower(x) == Lower(y) <==> SameLetter(x, y)
  {
  }

  lemma SameFirst(x: char, s: string, y: char, t: string)
    ensures [x] + s == [y] + t <==> x == y && s == t
  {
    if [x] + s == [y] + t {
      assert ([x] + s)[0] == x && ([y] + t)[0] == y;
      assert ([x] + s)[1..] == s && ([y] + t)[1..] == t;
    }
  }

  /** Go's unicode.IsSpace. */
  predicate IsSpace(c: char) {
    || '\t' <= c <= '\r' || c == ' ' || c == '\U{85}' || c == '\U{A0}' || c == '\U{1680}'
    || '\U{2000}' <= c <= '\U{200A}' || c == '\U{2028}' || c == '\U{2029}' || c == '\U{202F}'
    || c == '\U{205F}' || c == '\U{3000}'
  }

  function TrimLeft(s: string): string {
    if s != "" && IsSpace(s[0]) then TrimLeft(s[1..]) else s
  }

  function TrimRight(s: string): string {
    if s != "" && IsSpace(s[|s| - 1]) then TrimRight(s[..|s| - 1]) else s
  }

  function TrimSpace(s: string): string { TrimRight(TrimLeft(s)) }

  /** The characters Go's unicode.IsSpace knows, all of them. */
  lemma SpaceIs(c: char)
    ensures IsSpace(c) <==>
      c in {'\t', '\n', '\U{0B}', '\U{0C}', '\r', ' ', '\U{85}', '\U{A0}', '\U{1680}',
            '\U{2000}', '\U{2001}', '\U{2002}', '\U{2003}', '\U{2004}', '\U{2005}', '\U{2006}',
            '\U{2007}', '\U{2008}', '\U{2009}', '\U{200A}',
            '\U{2028}', '\U{2029}', '\U{202F}', '\U{205F}', '\U{3000}'}
  {
  }

  predicate AllSpace(s: string) { forall c :: c in s ==> IsSpace(c) }

  /** Neither end of a text is white space. */
  predicate Tight(s: string) { s != "" ==> !IsSpace(s[0]) && !IsSpace(s[|s| - 1]) }

  lemma {:induction false} TrimLeftCut(s: string) returns (before: string)
    ensures AllSpace(before) && s == before + TrimLeft(s)
    ensures TrimLeft(s) != "" ==> !IsSpace(TrimLeft(s)[0])
  {
    before := "";
    if s != "" && IsSpace(s[0]) {
      var rest := TrimLeftCut(s[1..]);
      before := [s[0]] + rest;
    }
  }

  lemma {:induction false} TrimRightCut(s: string) returns (after: string)
    ensures AllSpace(after) && s == TrimRight(s) + after
    ensures TrimRight(s) != "" ==> !IsSpace(TrimRight(s)[|TrimRight(s)| - 1])
  {
    after := "";
    if s != "" && IsSpace(s[|s| - 1]) {
      var rest := TrimRightCut(s[..|s| - 1]);
      after := rest + [s[|s| - 1]];
    }
  }

  /** Trimming takes white space from both ends and nothing else. */
  lemma TrimCuts(s: string) returns (before: string, after: string)
    ensures AllSpace(before) && AllSpace(after) && s == before + TrimSpace(s) + after && Tight(TrimSpace(s))
  {
    before := TrimLeftCut(s);
    after := TrimRightCut(TrimLeft(s));
    hide IsSpace, TrimLeft, TrimRight;
    assert TrimSpace(s) != "" ==> TrimSpace(s)[0] == TrimLeft(s)[0];
  }

  /** And all there is: what remains of a text with white space around it is the text. */
  lemma TrimsTo(s: string, before: string, t: string, after: string)
    requires s == before + t + after && AllSpace(before) && AllSpace(after) && Tight(t)
    ensures TrimSpace(s) == t
  {
    hide IsSpace, AllSpace;
    assert s == before + (t + after);
    TrimsLeft(before, t + after);
    if t == "" {
      assert t + after == after && after + "" == after;
      TrimsLeft(after, "");
    } else {
      assert (t + after)[0] == t[0];
      TrimsRight(t, after);
      hide *;
    }
  }

  lemma {:induction false} TrimsLeft(before: string, t: string)
    requires AllSpace(before)
    ensures TrimLeft(before + t) == TrimLeft(t)
  {
    if before == "" {
      assert before + t == t;
    } else {
      assert (before + t)[1..] == before[1..] + t;
      TrimsLeft(before[1..], t);
    }
  }

  lemma {:induction false} TrimsRight(t: string, after: string)
    requires AllSpace(after)
    ensures TrimRight(t + after) == TrimRight(t)
  {
    if after == "" {
      assert t + after == t;
    } else {
      assert (t + after)[..|t + after| - 1] == t + after[..|after| - 1];
      TrimsRight(t, after[..|after| - 1]);
    }
  }

  /** `s` is `t` with white space around it. */
  predicate Around(s: string, before: string, t: string, after: string) {
    AllSpace(before) && AllSpace(after) && s == before + t + after
  }

  /** Trimmed texts are equal exactly when both are one text with white space around it. */
  lemma TrimEqualExact(a: string, b: string)
    ensures TrimSpace(a) == TrimSpace(b) <==>
      exists t, w, x, y, z :: Around(a, w, t, x) && Around(b, y, t, z)
  {
    var w, x := TrimCuts(a);
    var y, z := TrimCuts(b);
    hide IsSpace, AllSpace, TrimSpace;
    assert Around(a, w, TrimSpace(a), x) && Around(b, y, TrimSpace(b), z);
    if t, w, x, y, z :| Around(a, w, t, x) && Around(b, y, t, z) {
      TrimAround(a, w, t, x);
      TrimAround(b, y, t, z);
    }
  }

  lemma TrimAround(s: string, before: string, t: string, after: string)
    requires Around(s, before, t, after)
    ensures TrimSpace(s) == TrimSpace(t)
  {
    var w, x := TrimCuts(t);
    var core := TrimSpace(t);
    SpaceJoins(before, w);
    SpaceJoins(x, after);
    hide IsSpace, AllSpace, TrimSpace, Tight;
    assert s == (before + w) + core + (x + after);
    TrimsTo(s, before + w, core, x + after);
  }

  lemma SpaceJoins(a: string, b: string)
    requires AllSpace(a) && AllSpace(b)
    ensures AllSpace(a + b)
  {
    hide IsSpace;
  }

  /** A text over the characters the API allows in a region, a preset or a role. */
  predicate IsName(s: string) {
    forall c :: c in s ==> 'A' <= c <= 'Z' || '0' <= c <= '9' || c == '_'
  }

  lemma NamesAreTight(s: string)
    requires IsName(s)
    ensures TrimSpace(s) == s
  {
    if s != "" { assert s[0] in s && s[|s| - 1] in s; }
    TrimsTo(s, "", s, "");
  }

  predicate StringLe(a: string, b: string) {
    a == "" || (b != "" && (a[0] < b[0] || (a[0] == b[0] && StringLe(a[1..], b[1..]))))
  }

  /** The texts agree before position `k`, and there `a` has the smaller character. */
  predicate SmallerAt(a: string, b: string, k: int) {
    0 <= k < |a| && k < |b| && a[..k] == b[..k] && a[k] < b[k]
  }

  /** Texts are ordered by the first character in which they differ, a prefix first. */
  lemma {:induction false} StringLeExact(a: string, b: string)
    ensures StringLe(a, b) <==> a <= b || exists k :: SmallerAt(a, b, k)
  {
    if a != "" && b != "" {
      StringLeExact(a[1..], b[1..]);
      assert a == [a[0]] + a[1..] && b == [b[0]] + b[1..];
      hide SmallerAt;
      SmallerLater(a, b, 0);
      if k :| SmallerAt(a[1..], b[1..], k) { SmallerLater(a, b, k + 1); }
      if k :| SmallerAt(a, b, k) { SmallerLater(a, b, k); }
    }
  }

  lemma SmallerLater(a: string, b: string, k: int)
    requires a != "" && b != ""
    ensures SmallerAt(a, b, k) <==>
      if k == 0 then a[0] < b[0] else a[0] == b[0] && SmallerAt(a[1..], b[1..], k - 1)
  {
    if 0 < k < |a| && k < |b| {
      assert a[..k] == [a[0]] + a[1..][..k - 1] && b[..k] == [b[0]] + b[1..][..k - 1];
      SameFirst(a[0], a[1..][..k - 1], b[0], b[1..][..k - 1]);
    }
  }

  lemma {:induction false} StringLeTotal(a: string, b: string)
    ensures StringLe(a, b) || StringLe(b, a)
  {
    if a != "" && b != "" { StringLeTotal(a[1..], b[1..]); }
  }

  lemma {:induction false} StringLeTransitive(a: string, b: string, c: string)
    requires StringLe(a, b) && StringLe(b, c)
    ensures StringLe(a, c)
  {
    if a != "" && a[0] == b[0] == c[0] { StringLeTransitive(a[1..], b[1..], c[1..]); }
  }

  lemma {:induction false} StringLeAntisymmetric(a: string, b: string)
    requires StringLe(a, b) && StringLe(b, a)
    ensures a == b
  {
    if a != "" {
      StringLeAntisymmetric(a[1..], b[1..]);
      assert a == [a[0]] + a[1..] && b == [b[0]] + b[1..];
    }
  }

  lemma StringLeOrders()
    ensures TotalPreorder(StringLe)
    ensures forall s: seq<string> :: Separates(StringLe, s)
  {
    forall a, b ensures StringLe(a, b) || StringLe(b, a) { StringLeTotal(a, b); }
    forall a, b, c | StringLe(a, b) && StringLe(b, c) ensures StringLe(a, c) { StringLeTransitive(a, b, c); }
    forall a, b | StringLe(a, b) && StringLe(b, a) ensures a == b { StringLeAntisymmetric(a, b); }
  }

  /** Go's sort.Strings. */
  function SortStrings(s: seq<string>): (r: seq<string>)
    ensures multiset(r) == multiset(s) && |r| == |s|
  {
    StringLeOrders();
    Sort(StringLe, s)
  }

  ghost function SortedStrings(bag: multiset<string>): (r: seq<string>)
    ensures multiset(r) == bag && |r| == |bag|
  {
    StringLeOrders();
    SortedOf(StringLe, bag)
  }

  /** Sorting strings forgets the order they came in. */
  lemma SortStringsCanonical(s: seq<string>)
    ensures SortStrings(s) == SortedStrings(multiset(s))
  {
    StringLeOrders();
    assert Separates(StringLe, s);
    SortIsSortedOf(StringLe, s);
  }

  /** Decimal digits of n, as fmt prints an integer with %d. */
  function Digits(n: nat): (r: string)
    ensures r != "" && forall c :: c in r ==> '0' <= c <= '9'
  {
    var d := [(n % 10 + 48) as char];
    if n < 10 then d else Digits(n / 10) + d
  }

  function Decimal(n: int): string {
    if n < 0 then "-" + Digits(-n) else Digits(n)
  }

  function Bool(b: bool): string { if b then "true" else "false" }

  /** The number that decimal digits stand for. */
  function Value(s: string): int {
    if s == "" then 0 else 10 * Value(s[..|s| - 1]) + (s[|s| - 1] as int - '0' as int)
  }

  /** The digits of a number stand for it, and only those of zero begin with a zero. */
  lemma {:induction false} DigitsExact(n: nat)
    ensures Value(Digits(n)) == n && (Digits(n)[0] == '0' ==> n == 0)
  {
    var d := [(n % 10 + 48) as char];
    if n >= 10 {
      DigitsExact(n / 10);
      assert Digits(n)[..|Digits(n)| - 1] == Digits(n / 10);
    } else {
      assert Digits(n)[..0] == "";
    }
  }

  lemma {:induction false} DigitsInjective(m: nat, n: nat)
    requires Digits(m) == Digits(n)
    ensures m == n
  {
    var a, b := Digits(m), Digits(n);
    assert a[|a| - 1] == (m % 10 + 48) as char && b[|b| - 1] == (n % 10 + 48) as char;
    assert m % 10 == n % 10;
    assert (m < 10 <==> |a| == 1) && (n < 10 <==> |b| == 1);
    if m >= 10 {
      assert Digits(m / 10) == a[..|a| - 1] && Digits(n / 10) == b[..|b| - 1];
      DigitsInjective(m / 10, n / 10);
    }
  }

  lemma DigitsUnsigned(n: nat)
    ensures Digits(n)[0] != '-'
  {
    assert Digits(n)[0] in Digits(n);
  }

  lemma DecimalInjective(m: int, n: int)
    requires Decimal(m) == Decimal(n)
    ensures m == n
  {
    if m < 0 && n < 0 {
      assert Digits(-m) == Decimal(m)[1..] == Decimal(n)[1..] == Digits(-n);
      DigitsInjective(-m, -n);
    } else if m >= 0 && n >= 0 {
      DigitsInjective(m, n);
    } else {
      DigitsUnsigned(if m < 0 then n else m);
    }
  }

  lemma DecimalHasNoNewline(n: int)
    ensures '\n' !in Decimal(n)
  {
  }
}
