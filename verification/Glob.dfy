/** Redis-style glob patterns, as used by pattern subscriptions and key scans.

    The meaning of a pattern is given by cutting it into tokens and matching the
    tokens against the whole string.  The matcher itself is a single loop that
    remembers only the last star it passed.  A `char` stands for one byte. */
module Glob {

  /** One member of a character class. */
  datatype Item = One(c: char) | Range(lo: char, hi: char)

  /** `Never` is what a backslash at the end of a pattern means: it accepts nothing. */
  datatype Token = Star | Any | Class(negated: bool, items: seq<Item>) | Literal(c: char) | Never

  datatype ClassBody = Unterminated | Body(items: seq<Item>, end: nat)

  predicate InItem(it: Item, c: char) {
    match it
    case One(d) => d == c
    case Range(lo, hi) => lo <= c <= hi
  }

  predicate InSome(items: seq<Item>, c: char) {
    exists i :: 0 <= i < |items| && InItem(items[i], c)
  }

  /** Whether a token that consumes exactly one character accepts `c`. */
  predicate Accepts(t: Token, c: char) {
    match t
    case Star => false
    case Any => true
    case Class(negated, items) => InSome(items, c) != negated
    case Literal(d) => d == c
    case Never => false
  }

  /** The class member that starts at `i`, and where the next one starts. */
  function ItemAt(pat: string, i: nat): (r: (Item, nat))
    requires i < |pat|
    ensures i < r.1 <= |pat|
  {
    if pat[i] == '\\' && i + 1 < |pat| then (One(pat[i + 1]), i + 2)
    else if i + 2 < |pat| && pat[i + 1] == '-' && pat[i + 2] != ']' then (Range(pat[i], pat[i + 2]), i + 3)
    else (One(pat[i]), i + 1)
  }

  /** The members of a class from `i` up to its closing bracket. */
  function BodyAt(pat: string, i: nat): (r: ClassBody)
    ensures r.Body? ==> i < r.end <= |pat|
    decreases |pat| - i
  {
    if i >= |pat| then Unterminated
    else if pat[i] == ']' then Body([], i + 1)
    else
      var (item, next) := ItemAt(pat, i);
      match BodyAt(pat, next)
      case Unterminated => Unterminated
      case Body(items, end) => Body([item] + items, end)
  }

  predicate NegatedAt(pat: string, px: nat) {
    px + 1 < |pat| && pat[px + 1] == '^'
  }

  function BodyStart(px: nat, negated: bool): nat {
    if negated then px + 2 else px + 1
  }

  /** The token that starts at `px`, and where the next one starts. */
  function TokenAt(pat: string, px: nat): (r: (Token, nat))
    requires px < |pat|
    ensures px < r.1 <= |pat|
    ensures r.0.Star? <==> pat[px] == '*'
  {
    match pat[px]
    case '*' => (Star, px + 1)
    case '?' => (Any, px + 1)
    case '[' =>
      (var negated := NegatedAt(pat, px);
       match BodyAt(pat, BodyStart(px, negated))
       case Unterminated => (Literal('['), px + 1)
       case Body(items, end) => (Class(negated, items), end))
    case '\\' => if px + 1 < |pat| then (Literal(pat[px + 1]), px + 2) else (Never, px + 1)
    case c => (Literal(c), px + 1)
  }

  function Tokens(pat: string, px: nat := 0): (ts: seq<Token>)
    requires px <= |pat|
    ensures px < |pat| ==> ts != []
    decreases |pat| - px
  {
    if px == |pat| then []
    else
      var (t, next) := TokenAt(pat, px);
      [t] + Tokens(pat, next)
  }

  /** The meaning of a token list: which strings it matches from end to end. */
  ghost predicate Matches(ts: seq<Token>, s: string)
    decreases |ts|
  {
    if ts == [] then s == []
    else if ts[0].Star? then exists k :: 0 <= k <= |s| && Matches(ts[1..], s[k..])
    else s != [] && Accepts(ts[0], s[0]) && Matches(ts[1..], s[1..])
  }

  /** The pattern from `px` on matches the string from `sx` on. */
  ghost predicate At(pat: string, px: nat, s: string, sx: nat)
    requires px <= |pat| && sx <= |s|
  {
    Matches(Tokens(pat, px), s[sx..])
  }

  lemma {:induction false} AtToken(pat: string, px: nat, s: string, sx: nat)
    requires px < |pat| && sx < |s| && pat[px] != '*'
    ensures At(pat, px, s, sx) <==>
            Accepts(TokenAt(pat, px).0, s[sx]) && At(pat, TokenAt(pat, px).1, s, sx + 1)
  {
    var (t, next) := TokenAt(pat, px);
    assert Tokens(pat, px) == [t] + Tokens(pat, next);
    assert s[sx..][1..] == s[sx + 1..];
    assert Tokens(pat, px)[1..] == Tokens(pat, next);
  }

  /** The pattern after the star at `star` matches the string from `k` on. */
  ghost predicate After(pat: string, star: nat, s: string, k: nat)
    requires star < |pat| && k <= |s|
  {
    At(pat, star + 1, s, k)
  }

  lemma {:induction false} AtStar(pat: string, px: nat, s: string, sx: nat)
    requires px < |pat| && sx <= |s| && pat[px] == '*'
    ensures At(pat, px, s, sx) <==> exists k: nat :: sx <= k <= |s| && After(pat, px, s, k)
  {
    var ts := Tokens(pat, px);
    assert ts[1..] == Tokens(pat, px + 1);
    if At(pat, px, s, sx) {
      var k :| 0 <= k <= |s[sx..]| && Matches(ts[1..], s[sx..][k..]);
      assert s[sx..][k..] == s[sx + k..];
      assert After(pat, px, s, sx + k);
    }
    if k: nat :| sx <= k <= |s| && After(pat, px, s, k) {
      assert s[sx..][k - sx..] == s[k..];
    }
  }

  /** At the end of the string only stars may be left. */
  lemma {:induction false} AtEndOfString(pat: string, px: nat, s: string)
    requires px <= |pat|
    ensures px == |pat| ==> At(pat, px, s, |s|)
    ensures px < |pat| && pat[px] == '*' ==> (At(pat, px, s, |s|) <==> At(pat, px + 1, s, |s|))
    ensures px < |pat| && pat[px] != '*' ==> !At(pat, px, s, |s|)
  {
    if px < |pat| {
      if pat[px] == '*' {
        AtStar(pat, px, s, |s|);
        assert After(pat, px, s, |s|) == At(pat, px + 1, s, |s|);
      } else {
        assert Tokens(pat, px)[0] == TokenAt(pat, px).0;
      }
    }
  }

  lemma {:induction false} InSomeCons(item: Item, items: seq<Item>, c: char)
    ensures InSome([item] + items, c) <==> InItem(item, c) || InSome(items, c)
  {
    var all := [item] + items;
    if i :| 0 <= i < |items| && InItem(items[i], c) {
      assert all[i + 1] == items[i];
    }
    if InItem(item, c) {
      assert InItem(all[0], c);
    }
  }

  /** Matches the class that starts at `pat[px]` against `c`: an unterminated
      class is a literal bracket. */
  method MatchClass(pat: string, px: nat, c: char) returns (end: nat, ok: bool)
    requires px < |pat| && pat[px] == '['
    ensures end == TokenAt(pat, px).1
    ensures ok <==> Accepts(TokenAt(pat, px).0, c)
  {
    var i := px + 1;
    var negate := false;
    if i < |pat| && pat[i] == '^' {
      negate := true;
      i := i + 1;
    }
    ghost var body := BodyAt(pat, i);
    var matched := false;
    while i < |pat| && pat[i] != ']'
      invariant px < i <= |pat|
      invariant BodyAt(pat, i).Unterminated? <==> body.Unterminated?
      invariant body.Body? ==> BodyAt(pat, i).end == body.end
      invariant body.Body? ==> (InSome(body.items, c) <==> matched || InSome(BodyAt(pat, i).items, c))
    {
      ghost var (item, next) := ItemAt(pat, i);
      ghost var was := matched;
      ghost var rest := BodyAt(pat, next);
      if rest.Body? {
        InSomeCons(item, rest.items, c);
      }
      if pat[i] == '\\' && i + 1 < |pat| {
        if pat[i + 1] == c {
          matched := true;
        }
        i := i + 2;
      } else if i + 2 < |pat| && pat[i + 1] == '-' && pat[i + 2] != ']' {
        var lo, hi := pat[i], pat[i + 2];
        if lo <= c && c <= hi {
          matched := true;
        }
        i := i + 3;
      } else {
        if pat[i] == c {
          matched := true;
        }
        i := i + 1;
      }
      assert i == next && matched == (was || InItem(item, c));
    }
    if i >= |pat| {
      return px + 1, pat[px] == c;
    }
    end := i + 1;
    ok := matched != negate;
  }

  /** The cases of the switch that consume one character. */
  method MatchOne(pat: string, px: nat, c: char) returns (end: nat, ok: bool)
    requires px < |pat| && pat[px] != '*'
    ensures ok <==> Accepts(TokenAt(pat, px).0, c)
    ensures ok ==> end == TokenAt(pat, px).1
  {
    match pat[px] {
      case '?' =>
        end, ok := px + 1, true;
      case '[' =>
        end, ok := MatchClass(pat, px, c);
      case '\\' =>
        end, ok := px + 2, px + 1 < |pat| && pat[px + 1] == c;
      case _ =>
        end, ok := px + 1, pat[px] == c;
    }
  }

  /** What the loop keeps.  Before any star, the answer is the current position's.
      After one, the answer is decided by the pattern after the last star alone,
      started anywhere from `starSx` on; and the tokens passed since that star
      consume one character each, wherever they start. */
  ghost predicate Progress(pat: string, s: string, answer: bool, starPx: int, starSx: int, px: nat, sx: nat)
    requires px <= |pat| && sx <= |s|
  {
    if starPx < 0 then
      starPx == -1 && starSx == -1 && answer == At(pat, px, s, sx)
    else
      && starPx < px && 0 <= starSx <= sx
      && (answer <==> exists k: nat :: starSx <= k <= |s| && After(pat, starPx, s, k))
      && (forall k: nat :: starSx <= k <= |s| && After(pat, starPx, s, k) ==>
            k + (sx - starSx) <= |s| && At(pat, px, s, k + (sx - starSx)))
      && (At(pat, px, s, sx) ==> After(pat, starPx, s, starSx))
  }

  /** Passing a star makes any earlier one redundant. */
  lemma {:induction false} PassStar(pat: string, s: string, answer: bool, starPx: int, starSx: int, px: nat, sx: nat)
    requires px < |pat| && sx <= |s| && pat[px] == '*'
    requires Progress(pat, s, answer, starPx, starSx, px, sx)
    ensures Progress(pat, s, answer, px, sx, px + 1, sx)
  {
    AtStar(pat, px, s, sx);
    if starPx >= 0 {
      if k: nat :| starSx <= k <= |s| && After(pat, starPx, s, k) {
        AtStar(pat, px, s, k + (sx - starSx));
      }
    }
    assert answer <==> exists k: nat :: sx <= k <= |s| && After(pat, px, s, k);
  }

  lemma {:induction false} PassToken(pat: string, s: string, answer: bool, starPx: int, starSx: int, px: nat, sx: nat)
    requires px < |pat| && sx < |s| && pat[px] != '*' && Accepts(TokenAt(pat, px).0, s[sx])
    requires Progress(pat, s, answer, starPx, starSx, px, sx)
    ensures Progress(pat, s, answer, starPx, starSx, TokenAt(pat, px).1, sx + 1)
  {
    AtToken(pat, px, s, sx);
    if starPx >= 0 {
      forall k: nat | starSx <= k <= |s| && After(pat, starPx, s, k)
        ensures k + (sx - starSx) < |s| && At(pat, TokenAt(pat, px).1, s, k + (sx - starSx) + 1)
      {
        var j := k + (sx - starSx);
        if j == |s| {
          AtEndOfString(pat, px, s);
        } else {
          AtToken(pat, px, s, j);
        }
      }
    }
  }

  /** A position that cannot match lets the last star take one more character. */
  lemma {:induction false} Backtrack(pat: string, s: string, answer: bool, starPx: int, starSx: int, px: nat, sx: nat)
    requires px <= |pat| && sx < |s|
    requires px < |pat| ==> pat[px] != '*' && !Accepts(TokenAt(pat, px).0, s[sx])
    requires Progress(pat, s, answer, starPx, starSx, px, sx)
    ensures starPx < 0 ==> !answer
    ensures starPx >= 0 ==> Progress(pat, s, answer, starPx, starSx + 1, starPx + 1, starSx + 1)
  {
    if px < |pat| {
      AtToken(pat, px, s, sx);
    }
    assert !At(pat, px, s, sx);
    if starPx >= 0 {
      assert !After(pat, starPx, s, starSx);
    }
  }

  lemma {:induction false} Finish(pat: string, s: string, answer: bool, starPx: int, starSx: int, px: nat)
    requires px <= |pat|
    requires Progress(pat, s, answer, starPx, starSx, px, |s|)
    ensures answer <==> At(pat, px, s, |s|)
  {
  }

  /** The matcher: one pass with a single remembered star decides the meaning
      of the pattern, for every pattern and every string. */
  method GlobMatch(pat: string, s: string) returns (matched: bool)
    ensures matched <==> Matches(Tokens(pat), s)
  {
    assert s[0..] == s;
    ghost var answer := At(pat, 0, s, 0);
    var px: nat, sx: nat := 0, 0;
    var starPx: int, starSx: int := -1, -1;
    while sx < |s|
      invariant -1 <= starPx < px <= |pat| && -1 <= starSx <= sx <= |s| && (starPx < 0 <==> starSx < 0)
      invariant Progress(pat, s, answer, starPx, starSx, px, sx)
      decreases |s| - starSx, |pat| - starPx, |pat| - px
    {
      if px < |pat| {
        if pat[px] == '*' {
          PassStar(pat, s, answer, starPx, starSx, px, sx);
          starPx := px;
          starSx := sx;
          px := px + 1;
          continue;
        }
        var end, ok := MatchOne(pat, px, s[sx]);
        if ok {
          PassToken(pat, s, answer, starPx, starSx, px, sx);
          px := end;
          sx := sx + 1;
          continue;
        }
      }
      Backtrack(pat, s, answer, starPx, starSx, px, sx);
      if starPx >= 0 {
        px := starPx + 1;
        starSx := starSx + 1;
        sx := starSx;
        continue;
      }
      return false;
    }
    Finish(pat, s, answer, starPx, starSx, px);
    matched := OnlyStarsLeft(pat, px, s);
  }

  /** The loop over trailing stars. */
  method OnlyStarsLeft(pat: string, from: nat, ghost s: string) returns (matched: bool)
    requires from <= |pat|
    ensures matched == At(pat, from, s, |s|)
  {
    var px := from;
    while px < |pat| && pat[px] == '*'
      invariant px <= |pat|
      invariant At(pat, from, s, |s|) == At(pat, px, s, |s|)
    {
      AtEndOfString(pat, px, s);
      px := px + 1;
    }
    AtEndOfString(pat, px, s);
    matched := px == |pat|;
  }

  // ---- Prefix scans: the pattern prefix + "*" ----

  /** Every character of the prefix is a token that means itself. */
  predicate Plain(prefix: string) {
    forall i :: 0 <= i < |prefix| ==> TokenAt(prefix + "*", i) == (Literal(prefix[i]), i + 1)
  }

  lemma {:induction false} MetaFreeIsPlain(prefix: string)
    requires '*' !in prefix && '?' !in prefix && '[' !in prefix && '\\' !in prefix
    ensures Plain(prefix)
  {
    forall i | 0 <= i < |prefix|
      ensures TokenAt(prefix + "*", i) == (Literal(prefix[i]), i + 1)
    {
      assert (prefix + "*")[i] == prefix[i] && prefix[i] in prefix;
    }
  }

  /** A scan for prefix + "*" is the prefix test for every key, exactly when the
      prefix is plain. */
  lemma {:induction false} PrefixScan(prefix: string)
    ensures Plain(prefix) <==> forall s :: Matches(Tokens(prefix + "*"), s) <==> prefix <= s
  {
    var pat := prefix + "*";
    if Plain(prefix) {
      forall s
        ensures Matches(Tokens(pat), s) <==> prefix <= s
      {
        assert s[0..] == s;
        PlainMatches(prefix, s, 0);
      }
    } else {
      var s := Witness(prefix);
      assert Matches(Tokens(pat), s) != (prefix <= s);
    }
  }

  lemma {:induction false} PlainMatches(prefix: string, s: string, i: nat)
    requires Plain(prefix) && i <= |prefix| && i <= |s| && prefix[..i] == s[..i]
    ensures At(prefix + "*", i, s, i) <==> prefix <= s
    decreases |prefix| - i
  {
    var pat := prefix + "*";
    if i == |prefix| {
      AtStar(pat, i, s, i);
      assert Tokens(pat, |pat|) == [];
      assert After(pat, i, s, |s|);
    } else if i == |s| {
      AtEndOfString(pat, i, s);
    } else {
      assert pat[i] == prefix[i];
      AtToken(pat, i, s, i);
      if prefix[i] == s[i] {
        PlainMatches(prefix, s, i + 1);
      }
    }
  }

  /** A string on which the scan and the prefix test disagree. */
  lemma {:induction false} Witness(prefix: string) returns (s: string)
    requires !Plain(prefix)
    ensures Matches(Tokens(prefix + "*"), s) != (prefix <= s)
  {
    var pat := prefix + "*";
    assert prefix[0..] == prefix;
    if !At(pat, 0, prefix, 0) {
      return prefix;
    }
    var i := FirstOdd(prefix, 0);
    LiteralsPassed(prefix, prefix, 0, i);
    if pat[i] == '?' {
      s := prefix[i := if prefix[i] == 'a' then 'b' else 'a'];
      AtToken(pat, i, prefix, i);
      assert s[i + 1..] == prefix[i + 1..];
      AtToken(pat, i, s, i);
      LiteralsPassed(prefix, s, 0, i);
      assert s[0..] == s && s[i] != prefix[i];
    } else {
      s := Shortest(Tokens(pat), prefix);
      CountLiterals(prefix, 0, i);
      CountBound(prefix, TokenAt(pat, i).1);
      if pat[i] == '\\' && TokenAt(pat, i).1 == |pat| {
        AtToken(pat, i, prefix, i);
        assert false;
      }
    }
  }

  lemma {:induction false} FirstOdd(prefix: string, from: nat) returns (i: nat)
    requires exists j :: from <= j < |prefix| && TokenAt(prefix + "*", j) != (Literal(prefix[j]), j + 1)
    ensures from <= i < |prefix| && TokenAt(prefix + "*", i) != (Literal(prefix[i]), i + 1)
    ensures forall j :: from <= j < i ==> TokenAt(prefix + "*", j) == (Literal(prefix[j]), j + 1)
    decreases |prefix| - from
  {
    if TokenAt(prefix + "*", from) != (Literal(prefix[from]), from + 1) {
      i := from;
    } else {
      i := FirstOdd(prefix, from + 1);
    }
  }

  lemma {:induction false} LiteralsPassed(prefix: string, s: string, j: nat, i: nat)
    requires j <= i <= |prefix| && i <= |s| && prefix[..i] == s[..i]
    requires forall k :: j <= k < i ==> TokenAt(prefix + "*", k) == (Literal(prefix[k]), k + 1)
    ensures At(prefix + "*", j, s, j) <==> At(prefix + "*", i, s, i)
    decreases i - j
  {
    if j < i {
      assert s[j] == s[..i][j] == prefix[j];
      AtToken(prefix + "*", j, s, j);
      LiteralsPassed(prefix, s, j + 1, i);
    }
  }

  function NonStars(ts: seq<Token>): (n: nat)
    ensures n <= |ts|
  {
    if ts == [] then 0 else (if ts[0].Star? then 0 else 1) + NonStars(ts[1..])
  }

  /** Letting every star take nothing leaves a match with one character per other token. */
  lemma {:induction false} Shortest(ts: seq<Token>, s: string) returns (r: string)
    requires Matches(ts, s)
    ensures Matches(ts, r) && |r| == NonStars(ts)
    decreases |ts|
  {
    if ts == [] {
      r := [];
    } else if ts[0].Star? {
      var k :| 0 <= k <= |s| && Matches(ts[1..], s[k..]);
      r := Shortest(ts[1..], s[k..]);
      assert r[0..] == r;
    } else {
      var rest := Shortest(ts[1..], s[1..]);
      r := [s[0]] + rest;
      assert r[1..] == rest;
    }
  }

  lemma {:induction false} CountLiterals(prefix: string, j: nat, i: nat)
    requires j <= i <= |prefix|
    requires forall k :: j <= k < i ==> TokenAt(prefix + "*", k) == (Literal(prefix[k]), k + 1)
    ensures NonStars(Tokens(prefix + "*", j)) == i - j + NonStars(Tokens(prefix + "*", i))
    decreases i - j
  {
    if j < i {
      CountLiterals(prefix, j + 1, i);
      assert Tokens(prefix + "*", j)[1..] == Tokens(prefix + "*", j + 1);
    }
  }

  lemma {:induction false} CountBound(prefix: string, j: nat)
    requires j <= |prefix| + 1
    ensures j <= |prefix| ==> NonStars(Tokens(prefix + "*", j)) <= |prefix| - j
    ensures j == |prefix| + 1 ==> NonStars(Tokens(prefix + "*", j)) == 0
    decreases |prefix| + 1 - j
  {
    var pat := prefix + "*";
    if j <= |prefix| {
      var (t, next) := TokenAt(pat, j);
      CountBound(prefix, next);
      assert Tokens(pat, j)[1..] == Tokens(pat, next);
    }
  }
}
