/** Deciding whether a query can be cached: leading white space and comments are skipped, and
    what remains must start with a cachable statement.  Characters stand for bytes. */
module Comments {

  const OPENING: string := ['/', '*']
  const ENDING: string := ['*', '/']
  const DASHES: string := ['-', '-']
  const SPACES: string := ['\t', '\n', 11 as char, 12 as char, '\r', ' ']

  predicate IsSpace(c: char) {
    c in SPACES
  }

  lemma SpaceCodes(c: char)
    ensures IsSpace(c) <==> 9 <= c as int <= 13 || c as int == 32
  {
    assert IsSpace(c) <==> c == '\t' || c == '\n' || c == 11 as char || c == 12 as char || c == '\r' || c == ' ';
  }

  // ---------- Searching ----------

  /** `bytes.IndexByte`. */
  function IndexOf(q: string, c: char): (n: int)
    ensures -1 <= n && (n >= 0 ==> n < |q| && q[n] == c)
    ensures forall i :: 0 <= i < |q| && q[i] == c ==> 0 <= n <= i
  {
    if q == [] then -1
    else if q[0] == c then 0
    else
      var n := IndexOf(q[1..], c);
      assert forall i :: 1 <= i < |q| ==> q[i] == q[1..][i - 1];
      if n < 0 then -1 else n + 1
  }

  predicate ClosesAt(q: string, k: int) {
    0 <= k < |q| - 1 && q[k] == '*' && q[k + 1] == '/'
  }

  /** Where a comment that is open in `q` closes first. */
  function Closing(q: string): (n: int)
    ensures -1 <= n && (n >= 0 ==> ClosesAt(q, n))
    ensures forall k :: ClosesAt(q, k) ==> 0 <= n <= k
  {
    if |q| < 2 then -1
    else if ClosesAt(q, 0) then 0
    else
      var n := Closing(q[1..]);
      assert forall k :: ClosesAt(q, k) ==> ClosesAt(q[1..], k - 1);
      if n < 0 then -1 else n + 1
  }

  // ---------- What is skipped ----------

  predicate StartsWith(q: string, p: string) {
    p <= q
  }

  function Skip(q: string): (r: string)
    ensures |r| <= |q|
    decreases |q|
  {
    if q == [] then []
    else if IsSpace(q[0]) then Skip(q[1..])
    else if StartsWith(q, DASHES) then
      var n := IndexOf(q, '\n');
      if n < 0 then [] else Skip(q[n + 1..])
    else if StartsWith(q, OPENING) then
      var n := Closing(q);
      if n < 0 then [] else Skip(q[n + 2..])
    else q
  }

  /** Skips a block comment; `closed` is false if it has no end. */
  method SkipBlock(q0: string) returns (q: string, closed: bool)
    ensures closed <==> Closing(q0) >= 0
    ensures closed ==> q == q0[Closing(q0) + 2..]
  {
    q, closed := q0, false;
    while true
      invariant |q| <= |q0| && q == q0[|q0| - |q|..]
      invariant forall k :: ClosesAt(q0, k) ==> k >= |q0| - |q| && q[k - (|q0| - |q|)] == '*'
      decreases |q|
    {
      ghost var from := |q0| - |q|;
      var n := IndexOf(q, '*');
      if n < 0 {
        return;
      }
      q := q[n + 1..];
      if |q| == 0 {
        return;
      }
      if q[0] == '/' {
        assert ClosesAt(q0, from + n);
        q, closed := q[1..], true;
        return;
      }
    }
  }

  method SkipLeadingComments(q0: string) returns (q: string)
    ensures q == Skip(q0)
  {
    q := q0;
    while |q| > 0
      invariant Skip(q) == Skip(q0)
      decreases |q|
    {
      if IsSpace(q[0]) {
        q := q[1..];
      } else if q[0] == '-' {
        if |q| < 2 || q[1] != '-' {
          return;
        }
        var n := IndexOf(q, '\n');
        if n < 0 {
          return [];
        }
        q := q[n + 1..];
      } else if q[0] == '/' {
        if |q| < 2 || q[1] != '*' {
          return;
        }
        var closed;
        q, closed := SkipBlock(q);
        if !closed {
          return [];
        }
      } else {
        return;
      }
    }
    q := [];
  }

  // ---------- The grammar of what is skipped ----------

  /** White space, a line comment, a block comment; and a stub, in which the asterisk that opens a
      block comment also closes it. */
  datatype Token = Space(c: char) | Line(body: string) | Block(body: string) | Stub

  /** The body of a block comment as SQL sees it: up to the first end behind the opening. */
  predicate BlockBody(body: string) {
    Closing(body + ENDING) == |body|
  }

  predicate Good(t: Token) {
    match t
    case Space(c) => IsSpace(c)
    case Line(body) => '\n' !in body
    case Block(body) => BlockBody(body) && !StartsWith(body, "/")
    case Stub => true
  }

  function Text(t: Token): string {
    match t
    case Space(c) => [c]
    case Line(body) => DASHES + body + "\n"
    case Block(body) => OPENING + body + ENDING
    case Stub => OPENING + "/"
  }

  predicate AllGood(ts: seq<Token>) {
    forall i :: 0 <= i < |ts| ==> Good(ts[i])
  }

  function Texts(ts: seq<Token>): string {
    if ts == [] then [] else Text(ts[0]) + Texts(ts[1..])
  }

  /** Nothing more is skipped. */
  predicate Settled(q: string) {
    q != [] && !IsSpace(q[0]) && !StartsWith(q, DASHES) && !StartsWith(q, OPENING)
  }

  /** Nothing at all remains: the end, or a comment that has no end. */
  predicate Unfinished(q: string) {
    q == [] || (StartsWith(q, DASHES) && '\n' !in q) || (StartsWith(q, OPENING) && Closing(q) < 0)
  }

  lemma FirstNewline(body: string, q: string)
    requires '\n' !in body
    ensures IndexOf(DASHES + body + "\n" + q, '\n') == |body| + 2
  {
    var s := DASHES + body + "\n" + q;
    assert s[|body| + 2] == '\n';
    assert forall i :: 0 <= i < |body| ==> s[i + 2] == body[i];
  }

  /** A block comment closes where SQL closes it, unless its body starts with a slash. */
  lemma FirstClosing(body: string, q: string)
    requires BlockBody(body)
    ensures Closing(OPENING + body + ENDING + q) == if StartsWith(body, "/") then 1 else |body| + 2
  {
    var s := OPENING + body + ENDING + q;
    var b := body + ENDING;
    assert forall i :: 0 <= i < |b| ==> s[i + 2] == b[i];
    assert ClosesAt(s, |body| + 2);
    assert forall k :: 2 <= k < |body| + 2 && ClosesAt(s, k) ==> ClosesAt(b, k - 2);
    assert ClosesAt(s, 1) <==> b[0] == '/';
  }

  lemma LineSkipped(body: string, q: string)
    requires '\n' !in body
    ensures Skip(DASHES + body + "\n" + q) == Skip(q)
  {
    FirstNewline(body, q);
    var s := DASHES + body + "\n" + q;
    assert s[|body| + 3..] == q;
  }

  lemma BlockSkipped(body: string, q: string)
    requires BlockBody(body) && !StartsWith(body, "/")
    ensures Skip(OPENING + body + ENDING + q) == Skip(q)
  {
    FirstClosing(body, q);
    var s := OPENING + body + ENDING + q;
    assert s[|body| + 4..] == q;
  }

  lemma StubSkipped(q: string)
    ensures Skip(OPENING + "/" + q) == Skip(q)
  {
    var s := OPENING + "/" + q;
    assert ClosesAt(s, 1);
    assert s[3..] == q;
  }

  /** Every token is skipped, whatever follows. */
  lemma TokenSkipped(t: Token, q: string)
    requires Good(t)
    ensures Skip(Text(t) + q) == Skip(q)
  {
    match t
    case Space(c) => assert ([c] + q)[1..] == q;
    case Line(body) => LineSkipped(body, q);
    case Block(body) => BlockSkipped(body, q);
    case Stub => StubSkipped(q);
  }

  /** Prepending white space and comments changes nothing. */
  lemma {:induction false} TokensSkipped(ts: seq<Token>, q: string)
    requires AllGood(ts)
    ensures Skip(Texts(ts) + q) == Skip(q)
  {
    if ts == [] {
      assert Texts(ts) + q == q;
    } else {
      TokensSkipped(ts[1..], q);
      TokenSkipped(ts[0], Texts(ts[1..]) + q);
      assert Texts(ts) + q == Text(ts[0]) + (Texts(ts[1..]) + q);
    }
  }

  lemma SettledStays(q: string)
    requires Settled(q)
    ensures Skip(q) == q
  {
  }

  lemma UnfinishedVanishes(q: string)
    requires Unfinished(q)
    ensures Skip(q) == []
  {
  }

  /** The first token of a text that is neither settled nor unfinished. */
  lemma FirstToken(q: string) returns (t: Token, rest: string)
    requires !Settled(q) && !Unfinished(q)
    ensures Good(t) && q == Text(t) + rest
  {
    if IsSpace(q[0]) {
      t, rest := Space(q[0]), q[1..];
    } else if StartsWith(q, DASHES) {
      t, rest := FirstLine(q);
    } else {
      t, rest := FirstBlock(q);
    }
  }

  lemma FirstLine(q: string) returns (t: Token, rest: string)
    requires StartsWith(q, DASHES) && '\n' in q
    ensures Good(t) && q == Text(t) + rest
  {
    var n := IndexOf(q, '\n');
    t, rest := Line(q[2..n]), q[n + 1..];
    assert forall i :: 0 <= i < n - 2 ==> q[2..n][i] == q[i + 2];
    assert q[..2] == DASHES;
    assert q == q[..2] + q[2..n] + [q[n]] + rest;
  }

  lemma FirstBlock(q: string) returns (t: Token, rest: string)
    requires StartsWith(q, OPENING) && Closing(q) >= 0
    ensures Good(t) && q == Text(t) + rest
  {
    var n := Closing(q);
    rest := q[n + 2..];
    if n == 1 {
      t := Stub;
      assert q[..3] == Text(t);
    } else {
      t := Block(q[2..n]);
      BodyFound(q, n);
      assert q == q[..2] + q[2..n] + q[n..n + 2] + rest;
      assert q[..2] == OPENING && q[n..n + 2] == ENDING;
    }
  }

  lemma BodyFound(q: string, n: int)
    requires StartsWith(q, OPENING) && n == Closing(q) && n >= 2
    ensures BlockBody(q[2..n]) && !StartsWith(q[2..n], "/")
  {
    var b := q[2..n] + ENDING;
    assert forall i :: 0 <= i < |b| ==> b[i] == q[i + 2];
    assert forall k :: ClosesAt(b, k) ==> ClosesAt(q, k + 2);
    assert ClosesAt(b, n - 2);
    assert q[2] == '/' ==> ClosesAt(q, 1);
  }

  /** Every text is white space and comments followed by a rest.  The rest is what skipping
      leaves if it is settled; otherwise it is unfinished, and nothing is left. */
  lemma {:induction false} SkipExplained(q: string) returns (ts: seq<Token>, rest: string)
    ensures AllGood(ts) && q == Texts(ts) + rest
    ensures if Settled(rest) then Skip(q) == rest else Unfinished(rest) && Skip(q) == []
    decreases |q|
  {
    if Settled(q) {
      ts, rest := [], q;
      SettledStays(q);
    } else if Unfinished(q) {
      ts, rest := [], q;
      UnfinishedVanishes(q);
    } else {
      var t, tail := FirstToken(q);
      var more;
      more, rest := SkipExplained(tail);
      ts := [t] + more;
      TokenSkipped(t, tail);
      TokenInFront(t, more, rest);
    }
  }

  lemma TokenInFront(t: Token, ts: seq<Token>, rest: string)
    requires Good(t) && AllGood(ts)
    ensures AllGood([t] + ts) && Texts([t] + ts) + rest == Text(t) + (Texts(ts) + rest)
  {
    assert ([t] + ts)[1..] == ts;
  }

  /** And that decides the rest: however a text is split, skipping leaves a settled rest. */
  lemma RestIsUnique(ts: seq<Token>, rest: string)
    requires AllGood(ts)
    ensures Settled(rest) ==> Skip(Texts(ts) + rest) == rest
    ensures Unfinished(rest) ==> Skip(Texts(ts) + rest) == []
  {
    TokensSkipped(ts, rest);
  }

  lemma SkipIdempotent(q: string)
    ensures Skip(Skip(q)) == Skip(q)
    ensures Skip(q) == [] || Settled(Skip(q))
  {
    var ts, rest := SkipExplained(q);
  }

  /** A comment whose body starts with a slash ends at that slash, and its body is not skipped. */
  lemma SlashEndsComment(body: string, q: string)
    requires BlockBody(body) && StartsWith(body, "/")
    ensures Skip(OPENING + body + ENDING + q) == Skip(body[1..] + ENDING + q)
  {
    FirstClosing(body, q);
    var s := OPENING + body + ENDING + q;
    assert s[3..] == body[1..] + ENDING + q;
  }

  // ---------- Cachable queries ----------

  const STATEMENTS: seq<string> := ["SELECT", "WITH"]

  /** `bytes.ToUpper`, as far as it can matter: a prefix of as many bytes as an ASCII word only
      turns into that word if all its bytes are ASCII. */
  function UpperChar(c: char): char {
    if 'a' <= c <= 'z' then (c as int - 32) as char else c
  }

  function Upper(s: string): (r: string)
    ensures |r| == |s|
  {
    seq(|s|, i requires 0 <= i < |s| => UpperChar(s[i]))
  }

  predicate Cachable(r: string) {
    exists i :: 0 <= i < |STATEMENTS| && STATEMENTS[i] <= Upper(r)
  }

  /** `r` starts with a word, each letter of which may be a capital one or a small one. */
  predicate StartsWithWord(r: string, capitals: string, smalls: string) {
    |r| >= |capitals| == |smalls| && forall i :: 0 <= i < |capitals| ==> r[i] == capitals[i] || r[i] == smalls[i]
  }

  lemma UpperWord(r: string, capitals: string, smalls: string)
    requires |capitals| == |smalls|
    requires forall i :: 0 <= i < |capitals| ==> 'A' <= capitals[i] <= 'Z' && smalls[i] as int == capitals[i] as int + 32
    ensures capitals <= Upper(r) <==> StartsWithWord(r, capitals, smalls)
  {
    if capitals <= Upper(r) {
      assert forall i :: 0 <= i < |capitals| ==> Upper(r)[i] == capitals[i];
    }
  }

  lemma CachableWords(r: string)
    ensures Cachable(r) <==> StartsWithWord(r, "SELECT", "select") || StartsWithWord(r, "WITH", "with")
  {
    assert |STATEMENTS| == 2 && STATEMENTS[0] == "SELECT" && STATEMENTS[1] == "WITH";
    UpperWord(r, "SELECT", "select");
    UpperWord(r, "WITH", "with");
  }

  method CanCacheQuery(q: string) returns (b: bool)
    ensures b <==> Cachable(Skip(q))
    ensures b <==> StartsWithWord(Skip(q), "SELECT", "select") || StartsWithWord(Skip(q), "WITH", "with")
  {
    var r := SkipLeadingComments(q);
    CachableWords(r);
    for i := 0 to |STATEMENTS|
      invariant forall j :: 0 <= j < i ==> !(STATEMENTS[j] <= Upper(r))
    {
      var statement := STATEMENTS[i];
      if |r| < |statement| {
        continue;
      }
      var l := Upper(r[..|statement|]);
      assert l == Upper(r)[..|statement|];
      if statement <= l {
        return true;
      }
    }
    b := false;
  }

  /** A query is cachable exactly if it is white space and comments followed by a statement that
      starts with one of the words, in any case of letters. */
  lemma CachableExactly(q: string)
    ensures Cachable(Skip(q)) <==> exists ts, r :: AllGood(ts) && q == Texts(ts) + r && Settled(r) && Cachable(r)
  {
    var ts, rest := SkipExplained(q);
    forall ts', r | AllGood(ts') && q == Texts(ts') + r && Settled(r) ensures Skip(q) == r {
      RestIsUnique(ts', r);
    }
  }

  // ---------- Comments that start with a slash ----------

  function Comment(body: string): string {
    OPENING + body + ENDING
  }

  /** The comment ends where SQL ends it, or what is left of it is white space and comments. */
  ghost predicate Harmless(body: string) {
    !StartsWith(body, "/") || exists ts :: AllGood(ts) && Texts(ts) == body[1..] + ENDING
  }

  /** What is left of a comment that is not harmless: a rest that is not skipped, or swallows what
      follows it. */
  lemma HarmfulRest(body: string) returns (rest: string)
    requires BlockBody(body) && !Harmless(body)
    ensures rest != [] && rest[|rest| - 1] == '/' && (Settled(rest) || Unfinished(rest))
    ensures forall q :: Skip(Comment(body) + q) == Skip(rest + q)
  {
    var s := body[1..] + ENDING;
    var ts;
    ts, rest := SkipExplained(s);
    assert rest == [] ==> Texts(ts) == s;
    assert rest[|rest| - 1] == s[|s| - 1];
    forall q ensures Skip(Comment(body) + q) == Skip(rest + q) {
      RestDecides(body, ts, rest, q);
    }
  }

  lemma RestDecides(body: string, ts: seq<Token>, rest: string, q: string)
    requires BlockBody(body) && StartsWith(body, "/") && AllGood(ts) && body[1..] + ENDING == Texts(ts) + rest
    ensures Skip(Comment(body) + q) == Skip(rest + q)
  {
    SlashEndsComment(body, q);
    TokensSkipped(ts, rest + q);
    Regroup(body[1..], ENDING, Texts(ts), rest, q);
  }

  lemma Regroup(a: string, b: string, c: string, d: string, q: string)
    requires a + b == c + d
    ensures a + b + q == c + (d + q)
  {
    assert c + (d + q) == c + d + q;
  }

  predicate IsWord(q: string) {
    q != [] && forall i :: 0 <= i < |q| ==> 'A' <= q[i] <= 'Z' || 'a' <= q[i] <= 'z'
  }

  lemma WordStays(q: string)
    requires IsWord(q)
    ensures Skip(q) == q
  {
    SettledStays(q);
  }

  /** A settled rest stays settled, and an unfinished one unfinished, in front of a word. */
  lemma BeforeWord(rest: string, q: string)
    requires rest != [] && rest[|rest| - 1] == '/' && IsWord(q)
    ensures Settled(rest) ==> Skip(rest + q) == rest + q
    ensures Unfinished(rest) ==> Skip(rest + q) == []
  {
    var s := rest + q;
    assert s[0] == rest[0];
    if Settled(rest) {
      assert |rest| >= 2 ==> s[1] == rest[1];
      assert s[|rest|] == q[0];
      SettledStays(s);
    } else if Unfinished(rest) {
      StillUnfinished(rest, q);
      UnfinishedVanishes(s);
    }
  }

  lemma StillUnfinished(rest: string, q: string)
    requires rest != [] && rest[|rest| - 1] == '/' && Unfinished(rest) && IsWord(q)
    ensures Unfinished(rest + q)
  {
    var s := rest + q;
    assert |rest| >= 2 && s[..2] == rest[..2];
    assert forall k :: |rest| <= k < |s| ==> s[k] == q[k - |rest|];
    assert forall k :: ClosesAt(s, k) ==> ClosesAt(rest, k);
  }

  /** Putting a comment in front changes no text if and only if the comment is harmless. */
  lemma CommentExactly(body: string)
    requires BlockBody(body)
    ensures (forall q :: Skip(Comment(body) + q) == Skip(q)) <==> Harmless(body)
  {
    if Harmless(body) {
      forall q ensures Skip(Comment(body) + q) == Skip(q) {
        HarmlessSkipped(body, q);
      }
    } else {
      var rest := HarmfulRest(body);
      BeforeWord(rest, "x");
      WordStays("x");
      assert Skip(Comment(body) + "x") != Skip("x");
    }
  }

  lemma HarmlessSkipped(body: string, q: string)
    requires BlockBody(body)
    ensures Harmless(body) ==> Skip(Comment(body) + q) == Skip(q)
  {
    if StartsWith(body, "/") {
      SlashEndsComment(body, q);
      if ts :| AllGood(ts) && Texts(ts) == body[1..] + ENDING {
        TokensSkipped(ts, q);
      }
    } else {
      BlockSkipped(body, q);
    }
  }

  /** And it leaves every query as cachable as it is under the same condition. */
  lemma CommentCachability(body: string)
    requires BlockBody(body)
    ensures (forall q :: Cachable(Skip(Comment(body) + q)) <==> Cachable(Skip(q))) <==> Harmless(body)
  {
    if Harmless(body) {
      forall q ensures Skip(Comment(body) + q) == Skip(q) {
        HarmlessSkipped(body, q);
      }
    } else {
      var rest := HarmfulRest(body);
      TwoWords();
      HarmfulCachability(rest, "x", "SELECT");
      assert Skip(Comment(body) + "x") == Skip(rest + "x");
      assert Skip(Comment(body) + "SELECT") == Skip(rest + "SELECT");
    }
  }

  lemma TwoWords()
    ensures IsWord("x") && Skip("x") == "x" && !Cachable("x")
    ensures IsWord("SELECT") && Skip("SELECT") == "SELECT" && Cachable("SELECT")
  {
    WordStays("x");
    WordStays("SELECT");
    assert STATEMENTS[0] == Upper("SELECT");
  }

  /** Such a rest hides the statement behind it, or is taken for one itself. */
  lemma HarmfulCachability(rest: string, x: string, select: string)
    requires rest != [] && rest[|rest| - 1] == '/' && (Settled(rest) || Unfinished(rest))
    requires IsWord(x) && IsWord(select)
    ensures Cachable(Skip(rest + x)) || !Cachable(Skip(rest + select))
  {
    BeforeWord(rest, x);
    BeforeWord(rest, select);
    if Settled(rest) && Cachable(rest + select) {
      WordInside(rest, select, x);
    }
  }

  lemma WordInside(rest: string, q: string, q': string)
    requires rest != [] && rest[|rest| - 1] == '/' && Cachable(rest + q)
    ensures Cachable(rest + q')
  {
    var i :| 0 <= i < |STATEMENTS| && STATEMENTS[i] <= Upper(rest + q);
    var word, s := STATEMENTS[i], Upper(rest + q);
    assert s[|rest| - 1] == '/';
    assert forall j :: 0 <= j < |word| ==> word[j] == s[j] && word[j] != '/';
    assert |word| < |rest|;
    assert word <= Upper(rest + q');
  }

  /** For example, the statement behind this comment is hidden. */
  lemma SlashHidesStatement()
    ensures BlockBody("/x") && !Harmless("/x") && Cachable(Skip("SELECT"))
    ensures !Cachable(Skip(Comment("/x") + "SELECT"))
  {
    var b := "/x" + ENDING;
    assert ClosesAt(b, 2) && !ClosesAt(b, 0) && !ClosesAt(b, 1);
    assert STATEMENTS[0] == "SELECT" == Upper("SELECT");
    SlashEndsComment("/x", "SELECT");
    var r := "/x"[1..] + ENDING + "SELECT";
    assert r[0] == 'x';
    SettledStays(r);
    assert Upper(r)[0] == 'X';
    HarmlessSkipped("/x", "SELECT");
  }

  /** But a comment that starts with a slash may also be harmless. */
  lemma SlashMayBeHarmless()
    ensures BlockBody("/ " + OPENING) && Harmless("/ " + OPENING)
  {
    var body := "/ " + OPENING;
    var b := body + ENDING;
    assert b == ['/', ' ', '/', '*', '*', '/'];
    assert ClosesAt(b, 4) && !ClosesAt(b, 0) && !ClosesAt(b, 1) && !ClosesAt(b, 2) && !ClosesAt(b, 3);
    var ts := [Space(' '), Block([])];
    assert ClosesAt([] + ENDING, 0);
    assert ts[1..] == [Block([])] && ts[1..][1..] == [];
    assert Texts(ts[1..]) == Text(Block([])) + [];
    assert Texts(ts) == [' '] + (OPENING + [] + ENDING + []);
    assert Texts(ts) == body[1..] + ENDING;
  }

  lemma UpperSearch(q: string)
    ensures IndexOf(Upper(q), '\n') == IndexOf(q, '\n')
    ensures Closing(Upper(q)) == Closing(q)
  {
    assert forall i :: 0 <= i < |q| ==> (Upper(q)[i] == '\n' <==> q[i] == '\n');
    assert forall k :: ClosesAt(Upper(q), k) <==> ClosesAt(q, k);
  }

  lemma UpperTail(q: string, n: nat)
    requires n <= |q|
    ensures Upper(q)[n..] == Upper(q[n..])
  {
  }

  /** How many characters the first step of skipping takes, if it is followed by others. */
  function FirstStep(q: string): int
    requires q != []
  {
    if IsSpace(q[0]) then 1
    else if StartsWith(q, DASHES) then IndexOf(q, '\n') + 1
    else if StartsWith(q, OPENING) then Closing(q) + 2
    else 0
  }

  lemma UpperStep(q: string)
    requires q != []
    ensures FirstStep(Upper(q)) == FirstStep(q)
    ensures Settled(Upper(q)) <==> Settled(q)
    ensures Unfinished(Upper(q)) <==> Unfinished(q)
  {
    UpperSearch(q);
    assert '\n' in q <==> IndexOf(q, '\n') >= 0;
    assert '\n' in Upper(q) <==> IndexOf(Upper(q), '\n') >= 0;
  }

  lemma SkipStep(q: string)
    requires !Settled(q) && !Unfinished(q)
    ensures 0 < FirstStep(q) <= |q| && Skip(q) == Skip(q[FirstStep(q)..])
  {
  }

  lemma {:induction false} UpperCommutes(q: string)
    ensures Skip(Upper(q)) == Upper(Skip(q))
    decreases |q|
  {
    if q != [] {
      UpperStep(q);
      if !Settled(q) && !Unfinished(q) {
        SkipStep(q);
        SkipStep(Upper(q));
        UpperTail(q, FirstStep(q));
        UpperCommutes(q[FirstStep(q)..]);
      }
    }
  }

  /** The case of letters does not matter anywhere in the query. */
  lemma CaseDoesNotMatter(q: string)
    ensures Cachable(Skip(Upper(q))) <==> Cachable(Skip(q))
  {
    UpperCommutes(q);
    assert Upper(Upper(Skip(q))) == Upper(Skip(q));
  }
}
