/** Finding the JSON object in a model's reply, and what may be proposed from it
  (internal/advisor/advisor.go). The grammar is that of RFC 8259, sections 2 to 7,
  written as derivation trees; json.Valid is taken to be that grammar. */
module Advisor {

  // ----- The grammar

  /** One character of a string: itself, or an escape. */
  datatype Piece = Plain(c: char) | Escape(c: char) | UnicodeEscape(digits: string)

  /** A value, with the white space the grammar allows around structural characters. */
  datatype Value =
    | Literal(word: string)
    | Number(text: string)
    | Text(body: seq<Piece>)
    | Array(gap: string, items: Items)
    | Object(gap: string, members: Members)

  datatype Items = NoItems | LastItem(v: Value, after: string)
    | MoreItems(v: Value, after: string, before: string, rest: Items)

  datatype Members =
    | NoMembers
    | LastMember(m: Member, after: string)
    | MoreMembers(m: Member, after: string, before: string, rest: Members)

  datatype Member = Member(key: seq<Piece>, gap0: string, gap1: string, v: Value)

  predicate IsWhite(s: string) { forall c :: c in s ==> c == ' ' || c == '\t' || c == '\n' || c == '\r' }

  predicate IsDigit(c: char) { '0' <= c <= '9' }

  predicate IsHexDigit(c: char) { IsDigit(c) || 'a' <= c <= 'f' || 'A' <= c <= 'F' }

  predicate Digits(s: string) { s != "" && forall c :: c in s ==> IsDigit(c) }

  ghost predicate IsNumber(s: string) {
    exists sign, whole, frac, expo :: s == sign + whole + frac + expo
      && (sign == "" || sign == "-")
      && (whole == "0" || (Digits(whole) && whole[0] != '0'))
      && IsFraction(frac) && IsExponent(expo)
  }

  predicate IsFraction(s: string) { s == "" || (s[0] == '.' && Digits(s[1..])) }

  predicate IsExponent(s: string) {
    s == "" || ((s[0] == 'e' || s[0] == 'E')
                && (Digits(s[1..]) || (|s| > 1 && (s[1] == '+' || s[1] == '-') && Digits(s[2..]))))
  }

  predicate IsPiece(p: Piece) {
    match p
    case Plain(c) => c >= ' ' && c != '"' && c != '\\'
    case Escape(c) => c == '"' || c == '\\' || c == '/' || c == 'b' || c == 'f' || c == 'n' || c == 'r' || c == 't'
    case UnicodeEscape(d) => |d| == 4 && forall c :: c in d ==> IsHexDigit(c)
  }

  predicate ArePieces(body: seq<Piece>) { forall p :: p in body ==> IsPiece(p) }

  ghost predicate WellFormed(v: Value) {
    match v
    case Literal(word) => word == "true" || word == "false" || word == "null"
    case Number(text) => IsNumber(text)
    case Text(body) => ArePieces(body)
    case Array(gap, items) => IsWhite(gap) && WellFormedItems(items)
    case Object(gap, members) => IsWhite(gap) && WellFormedMembers(members)
  }

  ghost predicate WellFormedItems(s: Items) {
    match s
    case NoItems => true
    case LastItem(v, after) => WellFormed(v) && IsWhite(after)
    case MoreItems(v, after, before, rest) =>
      WellFormed(v) && IsWhite(after) && IsWhite(before) && rest != NoItems && WellFormedItems(rest)
  }

  ghost predicate WellFormedMembers(s: Members) {
    match s
    case NoMembers => true
    case LastMember(m, after) => WellFormedMember(m) && IsWhite(after)
    case MoreMembers(m, after, before, rest) =>
      WellFormedMember(m) && IsWhite(after) && IsWhite(before) && rest != NoMembers && WellFormedMembers(rest)
  }

  ghost predicate WellFormedMember(m: Member) {
    ArePieces(m.key) && IsWhite(m.gap0) && IsWhite(m.gap1) && WellFormed(m.v)
  }

  function PieceText(p: Piece): string {
    match p
    case Plain(c) => [c]
    case Escape(c) => ['\\', c]
    case UnicodeEscape(d) => ['\\', 'u'] + d
  }

  function BodyText(body: seq<Piece>): string {
    if body == [] then "" else PieceText(body[0]) + BodyText(body[1..])
  }

  function StringText(body: seq<Piece>): string { ['"'] + BodyText(body) + ['"'] }

  function ValueText(v: Value): string {
    match v
    case Literal(word) => word
    case Number(text) => text
    case Text(body) => StringText(body)
    case Array(gap, items) => ['['] + gap + ItemsText(items) + [']']
    case Object(gap, members) => ['{'] + gap + MembersText(members) + ['}']
  }

  function ItemsText(s: Items): string {
    match s
    case NoItems => ""
    case LastItem(v, after) => ValueText(v) + after
    case MoreItems(v, after, before, rest) => ValueText(v) + after + [','] + before + ItemsText(rest)
  }

  function MembersText(s: Members): string {
    match s
    case NoMembers => ""
    case LastMember(m, after) => MemberText(m) + after
    case MoreMembers(m, after, before, rest) => MemberText(m) + after + [','] + before + MembersText(rest)
  }

  function MemberText(m: Member): string { StringText(m.key) + m.gap0 + [':'] + m.gap1 + ValueText(m.v) }

  /** A JSON object, from its opening to its closing brace. */
  ghost predicate IsObjectText(s: string) { exists v: Value :: v.Object? && WellFormed(v) && ValueText(v) == s }

  /** json.Valid: any value, with white space around it. */
  ghost predicate IsJsonText(s: string) {
    exists v: Value, before, after :: WellFormed(v) && IsWhite(before) && IsWhite(after)
        && s == before + ValueText(v) + after
  }

  // ----- The scanner, one character at a time

  datatype Scan = Scan(depth: int, inStr: bool, esc: bool)

  function Feed(st: Scan, c: char): Scan {
    if st.esc then st.(esc := false)
    else if c == '\\' then st.(esc := true)
    else if c == '"' then st.(inStr := !st.inStr)
    else if st.inStr then st
    else if c == '{' then st.(depth := st.depth + 1)
    else if c == '}' then st.(depth := st.depth - 1)
    else st
  }

  /** The scanner stops with a result on the character `c`. */
  predicate Closes(st: Scan, c: char) { !st.esc && !st.inStr && c == '}' && st.depth == 1 }

  function FeedAll(st: Scan, s: string): Scan
    decreases |s|
  {
    if s == "" then st else FeedAll(Feed(st, s[0]), s[1..])
  }

  /** No character of `s` stops the scanner. */
  predicate Quiet(st: Scan, s: string)
    decreases |s|
  {
    s == "" || (!Closes(st, s[0]) && Quiet(Feed(st, s[0]), s[1..]))
  }

  /** Scanning `s` is silent and comes back to where it was. */
  predicate Neutral(st: Scan, s: string) { Quiet(st, s) && FeedAll(st, s) == st }

  lemma {:induction false} FeedAllConcat(st: Scan, s: string, t: string)
    ensures FeedAll(st, s + t) == FeedAll(FeedAll(st, s), t)
    ensures Quiet(st, s + t) <==> Quiet(st, s) && Quiet(FeedAll(st, s), t)
    decreases |s|
  {
    if s == "" {
      assert s + t == t;
    } else {
      assert (s + t)[1..] == s[1..] + t;
      FeedAllConcat(Feed(st, s[0]), s[1..], t);
    }
  }

  lemma NeutralConcat(st: Scan, s: string, t: string)
    requires Neutral(st, s) && Neutral(st, t)
    ensures Neutral(st, s + t)
  {
    FeedAllConcat(st, s, t);
  }

  predicate Inert(c: char) { c != '"' && c != '\\' && c != '{' && c != '}' }

  predicate InertText(s: string) { forall i :: 0 <= i < |s| ==> Inert(s[i]) }

  lemma {:induction false} InertNeutral(st: Scan, s: string)
    requires !st.esc && !st.inStr && InertText(s)
    ensures Neutral(st, s)
    decreases |s|
  {
    if s != "" {
      assert Inert(s[0]);
      InertNeutral(st, s[1..]);
    }
  }

  lemma WhiteInert(s: string)
    requires IsWhite(s)
    ensures InertText(s)
  {
    forall i | 0 <= i < |s| ensures Inert(s[i]) {
      assert s[i] in s;
    }
  }

  lemma WhiteNeutral(st: Scan, s: string)
    requires !st.esc && !st.inStr && IsWhite(s)
    ensures Neutral(st, s)
  {
    WhiteInert(s);
    InertNeutral(st, s);
  }

  lemma DigitsInert(s: string)
    requires Digits(s)
    ensures InertText(s)
  {
    forall i | 0 <= i < |s| ensures Inert(s[i]) {
      assert s[i] in s;
    }
  }

  lemma InertHead(s: string)
    requires s != "" && Inert(s[0]) && InertText(s[1..])
    ensures InertText(s)
  {
    assert s == [s[0]] + s[1..];
  }

  lemma NumberInert(s: string)
    requires IsNumber(s)
    ensures InertText(s) && s != ""
  {
    var sign, whole, frac, expo :| s == sign + whole + frac + expo && (sign == "" || sign == "-")
      && (whole == "0" || (Digits(whole) && whole[0] != '0')) && IsFraction(frac) && IsExponent(expo);
    assert InertText(sign);
    if whole != "0" { DigitsInert(whole); }
    FractionInert(frac);
    ExponentInert(expo);
    hide Digits, IsFraction, IsExponent;
    assert InertText(whole) && whole != "";
  }

  lemma FractionInert(s: string)
    requires IsFraction(s)
    ensures InertText(s)
  {
    if s != "" {
      DigitsInert(s[1..]);
      InertHead(s);
    }
  }

  lemma ExponentInert(s: string)
    requires IsExponent(s)
    ensures InertText(s)
  {
    if s != "" {
      if Digits(s[1..]) {
        DigitsInert(s[1..]);
      } else {
        DigitsInert(s[2..]);
        assert s[1..][1..] == s[2..];
        InertHead(s[1..]);
      }
      InertHead(s);
    }
  }

  lemma PieceNeutral(st: Scan, p: Piece)
    requires !st.esc && st.inStr && IsPiece(p)
    ensures Neutral(st, PieceText(p))
  {
    match p
    case Plain(c) =>
      assert [c][1..] == "";
    case Escape(c) =>
      FeedTwo(st, c, "");
      assert ['\\', c] + "" == ['\\', c];
    case UnicodeEscape(d) =>
      FeedTwo(st, 'u', d);
      HexNeutral(st, d);
  }

  /** A backslash and the character after it are passed over together. */
  lemma FeedTwo(st: Scan, c: char, rest: string)
    requires !st.esc
    ensures FeedAll(st, ['\\', c] + rest) == FeedAll(st, rest)
    ensures Quiet(st, ['\\', c] + rest) == Quiet(st, rest)
  {
    var t := ['\\', c] + rest;
    assert t[1..] == [c] + rest && t[1..][1..] == rest;
    assert Feed(Feed(st, '\\'), c) == st;
  }

  lemma {:induction false} HexNeutral(st: Scan, s: string)
    requires !st.esc && st.inStr && forall c :: c in s ==> IsHexDigit(c)
    ensures Neutral(st, s)
    decreases |s|
  {
    if s != "" {
      assert s[0] in s;
      HexNeutral(st, s[1..]);
    }
  }

  lemma {:induction false} BodyNeutral(st: Scan, body: seq<Piece>)
    requires !st.esc && st.inStr && ArePieces(body)
    ensures Neutral(st, BodyText(body))
  {
    if body != [] {
      PieceNeutral(st, body[0]);
      BodyNeutral(st, body[1..]);
      NeutralConcat(st, PieceText(body[0]), BodyText(body[1..]));
    }
  }

  lemma StringNeutral(st: Scan, body: seq<Piece>)
    requires !st.esc && !st.inStr && ArePieces(body)
    ensures Neutral(st, StringText(body))
  {
    var inside := st.(inStr := true);
    BodyNeutral(inside, body);
    FeedAllConcat(inside, BodyText(body), ['"']);
    assert StringText(body) == ['"'] + (BodyText(body) + ['"']);
    assert StringText(body)[1..] == BodyText(body) + ['"'];
  }

  lemma MarkNeutral(st: Scan, c: char)
    requires !st.esc && !st.inStr && Inert(c)
    ensures Neutral(st, [c])
  {
  }

  /** Inside an object, every value is scanned over without stopping. */
  lemma {:induction false} ValueNeutral(st: Scan, v: Value)
    requires !st.esc && !st.inStr && st.depth >= 1 && WellFormed(v)
    ensures Neutral(st, ValueText(v))
    decreases v
  {
    match v
    case Literal(word) =>
      InertNeutral(st, word);
    case Number(text) =>
      NumberInert(text);
      InertNeutral(st, text);
    case Text(body) =>
      StringNeutral(st, body);
    case Array(gap, items) =>
      MarkNeutral(st, '[');
      MarkNeutral(st, ']');
      WhiteNeutral(st, gap);
      ItemsNeutral(st, items);
      NeutralConcat(st, ['['], gap);
      NeutralConcat(st, ['['] + gap, ItemsText(items));
      NeutralConcat(st, ['['] + gap + ItemsText(items), [']']);
    case Object(gap, members) =>
      ObjectScan(st, v);
      assert ValueText(v) == ObjectHead(v) + ['}'];
      FeedAllConcat(st, ObjectHead(v), ['}']);
  }

  lemma {:induction false} ItemsNeutral(st: Scan, s: Items)
    requires !st.esc && !st.inStr && st.depth >= 1 && WellFormedItems(s)
    ensures Neutral(st, ItemsText(s))
    decreases s
  {
    match s
    case NoItems =>
    case LastItem(v, after) =>
      ValueNeutral(st, v);
      WhiteNeutral(st, after);
      NeutralConcat(st, ValueText(v), after);
    case MoreItems(v, after, before, rest) =>
      ValueNeutral(st, v);
      ItemsNeutral(st, rest);
      SeparatedNeutral(st, ValueText(v), after, before, ItemsText(rest));
  }

  lemma {:induction false} MembersNeutral(st: Scan, s: Members)
    requires !st.esc && !st.inStr && st.depth >= 1 && WellFormedMembers(s)
    ensures Neutral(st, MembersText(s))
    decreases s
  {
    match s
    case NoMembers =>
    case LastMember(m, after) =>
      MemberNeutral(st, m);
      WhiteNeutral(st, after);
      NeutralConcat(st, MemberText(m), after);
    case MoreMembers(m, after, before, rest) =>
      MemberNeutral(st, m);
      MembersNeutral(st, rest);
      SeparatedNeutral(st, MemberText(m), after, before, MembersText(rest));
  }

  lemma SeparatedNeutral(st: Scan, first: string, after: string, before: string, rest: string)
    requires !st.esc && !st.inStr && IsWhite(after) && IsWhite(before)
    requires Neutral(st, first) && Neutral(st, rest)
    ensures Neutral(st, first + after + [','] + before + rest)
  {
    hide Neutral;
    WhiteNeutral(st, after);
    WhiteNeutral(st, before);
    MarkNeutral(st, ',');
    NeutralConcat(st, first, after);
    NeutralConcat(st, first + after, [',']);
    NeutralConcat(st, first + after + [','], before);
    NeutralConcat(st, first + after + [','] + before, rest);
  }

  lemma {:induction false} MemberNeutral(st: Scan, m: Member)
    requires !st.esc && !st.inStr && st.depth >= 1 && WellFormedMember(m)
    ensures Neutral(st, MemberText(m))
    decreases m
  {
    hide Neutral;
    StringNeutral(st, m.key);
    WhiteNeutral(st, m.gap0);
    WhiteNeutral(st, m.gap1);
    MarkNeutral(st, ':');
    ValueNeutral(st, m.v);
    NeutralConcat(st, StringText(m.key), m.gap0);
    NeutralConcat(st, StringText(m.key) + m.gap0, [':']);
    NeutralConcat(st, StringText(m.key) + m.gap0 + [':'], m.gap1);
    NeutralConcat(st, StringText(m.key) + m.gap0 + [':'] + m.gap1, ValueText(m.v));
  }

  function ObjectHead(v: Value): string
    requires v.Object?
  {
    ['{'] + v.gap + MembersText(v.members)
  }

  /** An object up to its closing brace: silent, and one level deeper. */
  lemma {:induction false} ObjectScan(st: Scan, v: Value)
    requires !st.esc && !st.inStr && st.depth >= 0 && v.Object? && WellFormed(v)
    ensures Quiet(st, ObjectHead(v)) && FeedAll(st, ObjectHead(v)) == st.(depth := st.depth + 1)
    decreases v, 0
  {
    var deeper := st.(depth := st.depth + 1);
    WhiteNeutral(deeper, v.gap);
    MembersNeutral(deeper, v.members);
    NeutralConcat(deeper, v.gap, MembersText(v.members));
    assert ObjectHead(v) == ['{'] + (v.gap + MembersText(v.members));
    assert ObjectHead(v)[1..] == v.gap + MembersText(v.members);
    assert Feed(st, '{') == deeper;
  }

  // ----- What the scanner returns

  const IDLE := Scan(0, false, false)

  /** `r` is what a scan from `start` returns: the text up to the first character that
      stops it, or nothing. */
  ghost predicate IsBalancedRun(s: string, start: nat, r: string)
    requires start <= |s|
  {
    if r == "" then Quiet(IDLE, s[start..])
    else
      && start + |r| <= |s| && r == s[start..start + |r|]
      && Quiet(IDLE, r[..|r| - 1])
      && Closes(FeedAll(IDLE, r[..|r| - 1]), r[|r| - 1])
  }

  method BalancedFrom(s: string, start: nat) returns (r: string)
    requires start <= |s|
    ensures IsBalancedRun(s, start, r)
  {
    var depth, inStr, esc := 0, false, false;
    for i := start to |s|
      invariant Quiet(IDLE, s[start..i]) && FeedAll(IDLE, s[start..i]) == Scan(depth, inStr, esc)
    {
      var c := s[i];
      ghost var st := Scan(depth, inStr, esc);
      FeedOneMore(s, start, i);
      if esc {
        esc := false;
      } else if c == '\\' {
        esc := true;
      } else if c == '"' {
        inStr := !inStr;
      } else if inStr {
      } else if c == '{' {
        depth := depth + 1;
      } else if c == '}' {
        depth := depth - 1;
        if depth == 0 {
          assert s[start..i + 1][..i - start] == s[start..i];
          return s[start..i + 1];
        }
      }
      assert Scan(depth, inStr, esc) == Feed(st, c) && !Closes(st, c);
    }
    assert s[start..|s|] == s[start..];
    return "";
  }

  lemma FeedOneMore(s: string, start: nat, i: nat)
    requires start <= i < |s|
    ensures FeedAll(IDLE, s[start..i + 1]) == Feed(FeedAll(IDLE, s[start..i]), s[i])
    ensures Quiet(IDLE, s[start..i + 1]) <==> Quiet(IDLE, s[start..i]) && !Closes(FeedAll(IDLE, s[start..i]), s[i])
  {
    assert s[start..i + 1] == s[start..i] + [s[i]];
    FeedAllConcat(IDLE, s[start..i], [s[i]]);
  }

  /** A scan that starts at a JSON object returns exactly that object, whatever comes
      before or after it. */
  lemma ScannerExact(s: string, start: nat, v: string, r: string)
    requires start + |v| <= |s| && s[start..start + |v|] == v && IsObjectText(v)
    requires IsBalancedRun(s, start, r)
    ensures r == v
  {
    var t: Value :| t.Object? && WellFormed(t) && ValueText(t) == v;
    ObjectScan(IDLE, t);
    var h := ObjectHead(t);
    assert v == h + ['}'];
    assert v[..|v| - 1] == h;
    if r == "" {
      assert s[start..] == v + s[start + |v|..];
      FeedAllConcat(IDLE, v, s[start + |v|..]);
      FeedAllConcat(IDLE, h, ['}']);
    } else if |r| < |v| {
      StopsOnce(v, r);
    } else if |v| < |r| {
      StopsOnce(r, v);
    }
  }

  /** A scan stops at most once. */
  lemma StopsOnce(long: string, short: string)
    requires 0 < |short| < |long| && short == long[..|short|]
    requires Quiet(IDLE, long[..|long| - 1])
    ensures !Closes(FeedAll(IDLE, short[..|short| - 1]), short[|short| - 1])
  {
    var init, last := short[..|short| - 1], short[|short| - 1];
    assert short == init + [last];
    assert long[..|long| - 1] == short + long[|short|..|long| - 1];
    FeedAllConcat(IDLE, short, long[|short|..|long| - 1]);
    FeedAllConcat(IDLE, init, [last]);
  }

  /** A balanced run that is valid JSON is an object with nothing around it. */
  lemma RunIsObject(s: string, start: nat, r: string)
    requires start < |s| && s[start] == '{' && r != "" && IsBalancedRun(s, start, r)
    requires IsJsonText(r)
    ensures IsObjectText(r)
  {
    var v: Value, before, after :| WellFormed(v) && IsWhite(before) && IsWhite(after)
        && r == before + ValueText(v) + after;
    assert r[0] == '{';
    WhiteInert(before);
    WhiteInert(after);
    assert before == "";
    assert r[|r| - 1] == '}';
    assert after == "";
    assert r == ValueText(v);
    FirstCharacter(v);
  }

  lemma FirstCharacter(v: Value)
    requires WellFormed(v)
    ensures ValueText(v) != "" && (ValueText(v)[0] == '{' ==> v.Object?)
  {
    if v.Number? {
      NumberInert(v.text);
      assert Inert(v.text[0]);
    }
  }

  /** A JSON object stands at `i..j`. */
  ghost predicate ObjectSpan(s: string, i: int, j: int) { 0 <= i <= j <= |s| && IsObjectText(s[i..j]) }

  /** Some JSON object starts at `i`. */
  ghost predicate ObjectAt(s: string, i: int) { exists j :: ObjectSpan(s, i, j) }

  /** What extractJSONObject returns: nothing exactly when the reply holds no JSON object
      anywhere, and otherwise the object with the earliest start. */
  ghost predicate IsFirstObject(s: string, r: string) {
    if r == "" then forall i :: !ObjectAt(s, i)
    else exists i, j :: ObjectSpan(s, i, j) && r == s[i..j] && forall k :: k < i ==> !ObjectAt(s, k)
  }

  /** `valid` stands for the library's json.Valid. */
  method ExtractJsonObject(s: string, valid: string -> bool) returns (r: string)
    requires forall t :: valid(t) <==> IsJsonText(t)
    ensures IsFirstObject(s, r)
  {
    for start := 0 to |s|
      invariant forall i :: i < start ==> !ObjectAt(s, i)
    {
      if s[start] != '{' {
        BraceStarts(s, start);
      } else {
        var run := BalancedFrom(s, start);
        if run != "" && valid(run) {
          RunIsObject(s, start, run);
          assert ObjectSpan(s, start, start + |run|);
          return run;
        }
        NoObjectHere(s, start, run);
      }
    }
    forall i ensures !ObjectAt(s, i) {
      if i >= |s| { BraceStarts(s, i); }
    }
    return "";
  }

  lemma BraceStarts(s: string, i: int)
    requires 0 <= i < |s| ==> s[i] != '{'
    ensures !ObjectAt(s, i)
  {
    forall j ensures !ObjectSpan(s, i, j) {
      if 0 <= i <= j <= |s| {
        NotObject(s[i..j]);
      }
    }
  }

  lemma NotObject(t: string)
    requires t == "" || t[0] != '{'
    ensures !IsObjectText(t)
  {
    forall v: Value | v.Object? && WellFormed(v) ensures ValueText(v) != t {
      assert ValueText(v)[0] == '{';
    }
  }

  lemma NoObjectHere(s: string, start: nat, run: string)
    requires start <= |s| && IsBalancedRun(s, start, run)
    requires run == "" || !IsJsonText(run)
    ensures !ObjectAt(s, start)
  {
    forall j ensures !ObjectSpan(s, start, j) {
      if ObjectSpan(s, start, j) {
        ScannerExact(s, start, s[start..j], run);
        ObjectIsJson(run);
        NotObject("");
      }
    }
  }

  lemma ObjectIsJson(t: string)
    requires IsObjectText(t)
    ensures IsJsonText(t)
  {
    var v: Value :| v.Object? && WellFormed(v) && ValueText(v) == t;
    assert IsWhite("") && t == "" + ValueText(v) + "";
  }

  // ----- The recommendation

  datatype Recommendation = Recommendation(action: string, targetPreset: string, rationale: string, confidence: string)

  /** What decoding an object into a recommendation gives. */
  datatype Decoded = Undecodable | DecodedAs(rec: Recommendation)

  datatype Advice = Advised(rec: Recommendation) | NoObject | BadObject

  predicate IsConfidence(c: string) { c == "low" || c == "medium" || c == "high" }

  /** Only an action the advisor knows, only an approved preset, and a preset only where
      one is being changed. */
  predicate Safe(rec: Recommendation, approved: seq<string>) {
    && (rec.action == "hold" || rec.action == "change_preset" || rec.action == "investigate")
    && (if rec.action == "change_preset" then rec.targetPreset in approved else rec.targetPreset == "")
    && IsConfidence(rec.confidence)
  }

  /** What becomes of a decoded recommendation. A known action that needs no preset is kept
      and loses any it named; a change to an approved preset is kept; a change to any other
      becomes a wish to investigate; an unknown action becomes a hold. What is kept keeps its
      rationale as it was, what is not says so before it, and a confidence that is none
      becomes low. */
  predicate IsCorrected(rec: Recommendation, approved: seq<string>, r: Recommendation) {
    && r.confidence == (if IsConfidence(rec.confidence) then rec.confidence else "low")
    && (if rec.action == "hold" || rec.action == "investigate" then
          r.action == rec.action && r.targetPreset == "" && r.rationale == rec.rationale
        else if rec.action == "change_preset" && rec.targetPreset in approved then
          r.action == rec.action && r.targetPreset == rec.targetPreset && r.rationale == rec.rationale
        else if rec.action == "change_preset" then
          r.action == "investigate" && r.targetPreset == ""
          && r.rationale == "model proposed a preset outside the approved set; downgraded to investigate. "
                            + rec.rationale
        else
          r.action == "hold" && r.targetPreset == ""
          && r.rationale == "model returned an unrecognized action; defaulting to hold. " + rec.rationale)
  }

  /** What the advice must be, for the object found in the reply and its decoding. */
  predicate IsAdvice(obj: string, decoded: Decoded, approved: seq<string>, r: Advice) {
    if obj == "" then r.NoObject?
    else if decoded.Undecodable? then r.BadObject?
    else r.Advised? && IsCorrected(decoded.rec, approved, r.rec)
  }

  /** A corrected recommendation is safe, and one that was safe is kept as it was; only the
      three confidences are kept. */
  lemma CorrectedIsSafe(rec: Recommendation, approved: seq<string>, r: Recommendation)
    requires IsCorrected(rec, approved, r)
    ensures Safe(r, approved) && (Safe(rec, approved) ==> r == rec)
    ensures r.confidence == if rec.confidence in {"low", "medium", "high"} then rec.confidence else "low"
  {
    assert |"hold"| == 4 && |"change_preset"| == 13 && |"investigate"| == 11;
    ConfidencesExact(rec.confidence);
    ConfidencesExact("low");
    hide IsConfidence;
  }

  lemma ConfidencesExact(c: string)
    ensures IsConfidence(c) <==> c in {"low", "medium", "high"}
  {
  }

  /** parseRecommendation: `decode` stands for the library's decoding of the object. The
      advice is the first JSON object of the reply, corrected. */
  method ParseRecommendation(raw: string, approved: seq<string>, valid: string -> bool, decode: string -> Decoded)
    returns (r: Advice)
    requires forall t :: valid(t) <==> IsJsonText(t)
    ensures exists obj :: IsFirstObject(raw, obj) && IsAdvice(obj, decode(obj), approved, r)
  {
    hide IsFirstObject;
    var obj := ExtractJsonObject(raw, valid);
    if obj == "" {
      return NoObject;
    }
    var decoded := decode(obj);
    if decoded.Undecodable? {
      return BadObject;
    }
    var rec := Correct(decoded.rec, approved);
    r := Advised(rec);
  }

  method Correct(decoded: Recommendation, approved: seq<string>) returns (rec: Recommendation)
    ensures IsCorrected(decoded, approved, rec)
  {
    hide IsConfidence;
    rec := decoded;
    if rec.action == "hold" || rec.action == "investigate" {
      rec := rec.(targetPreset := "");
    } else if rec.action == "change_preset" {
      if rec.targetPreset !in approved {
        var rationale := "model proposed a preset outside the approved set; downgraded to investigate. "
                         + rec.rationale;
        rec := rec.(action := "investigate", targetPreset := "", rationale := rationale);
      }
    } else {
      var rationale := "model returned an unrecognized action; defaulting to hold. " + rec.rationale;
      rec := rec.(action := "hold", targetPreset := "", rationale := rationale);
    }
    if !IsConfidence(rec.confidence) {
      rec := rec.(confidence := "low");
    }
  }
}
