/** The part of Go's strings, strconv and regexp packages that the league-data parsers rely on,
    stated over text as sequences of characters.  Letters are ASCII: ToUpper and ToLower change
    only 'a'..'z' and 'A'..'Z'. */
module GoStrings {

  datatype Option<+T> = None | Some(value: T)

  // ---------------------------------------------------------------- characters

  /** The Latin-1 white space of unicode.IsSpace, which strings.TrimSpace removes. */
  predicate IsSpace(c: char) {
    c == ' ' || c == '\t' || c == '\n' || c == '\r' || c == '\U{B}' || c == '\U{C}' ||
    c == '\U{85}' || c == '\U{A0}'
  }

  /** The `\s` class of Go's regular expressions: space, tab, newline, form feed, carriage return. */
  predicate IsReSpace(c: char) {
    c == ' ' || c == '\t' || c == '\n' || c == '\r' || c == '\U{C}'
  }

  predicate IsDigit(c: char) { '0' <= c <= '9' }

  predicate IsUpperLetter(c: char) { 'A' <= c <= 'Z' }

  predicate IsLowerLetter(c: char) { 'a' <= c <= 'z' }

  /** The `\w` class of Go's regular expressions. */
  predicate IsWordChar(c: char) { IsDigit(c) || IsUpperLetter(c) || IsLowerLetter(c) || c == '_' }

  function UpperChar(c: char): char {
    if IsLowerLetter(c) then (c as int - 32) as char else c
  }

  function LowerChar(c: char): char {
    if IsUpperLetter(c) then (c as int + 32) as char else c
  }

  // ---------------------------------------------------------------- case mapping

  /** strings.ToUpper */
  function Upper(s: string): (r: string)
    ensures |r| == |s|
    ensures forall i :: 0 <= i < |s| ==> r[i] == UpperChar(s[i])
  {
    seq(|s|, i requires 0 <= i < |s| => UpperChar(s[i]))
  }

  /** strings.ToLower */
  function Lower(s: string): (r: string)
    ensures |r| == |s|
    ensures forall i :: 0 <= i < |s| ==> r[i] == LowerChar(s[i])
  {
    seq(|s|, i requires 0 <= i < |s| => LowerChar(s[i]))
  }

  /** Upper-casing twice changes nothing more. */
  lemma UpperIdempotent(s: string)
    ensures Upper(Upper(s)) == Upper(s)
  {
  }

  // ---------------------------------------------------------------- substrings

  predicate HasPrefix(s: string, p: string) { |p| <= |s| && s[..|p|] == p }

  predicate HasSuffix(s: string, p: string) { |p| <= |s| && s[|s| - |p|..] == p }

  /** strings.TrimPrefix */
  function TrimPrefix(s: string, p: string): (r: string)
    ensures HasPrefix(s, p) ==> s == p + r
    ensures !HasPrefix(s, p) ==> r == s
  {
    if HasPrefix(s, p) then s[|p|..] else s
  }

  /** `sub` occurs in `s` starting at index `i`. */
  predicate OccursAt(s: string, sub: string, i: int) {
    0 <= i && i + |sub| <= |s| && s[i..i + |sub|] == sub
  }

  /** strings.Contains */
  predicate Contains(s: string, sub: string) {
    exists i :: 0 <= i <= |s| - |sub| && OccursAt(s, sub, i)
  }

  /** The first occurrence of `sub` in `s` at or after `i`, or -1. */
  function IndexFrom(s: string, sub: string, i: nat): (r: int)
    ensures r == -1 || (i <= r && OccursAt(s, sub, r))
    ensures forall j :: i <= j && (r == -1 || j < r) ==> !OccursAt(s, sub, j)
    decreases |s| - i
  {
    if i + |sub| > |s| then -1
    else if OccursAt(s, sub, i) then i
    else IndexFrom(s, sub, i + 1)
  }

  /** strings.Index: the first occurrence of `sub` in `s`, or -1 when there is none. */
  function IndexOf(s: string, sub: string): (r: int)
    ensures -1 <= r <= |s| - |sub| || r == -1
    ensures r == -1 <==> !Contains(s, sub)
    ensures r >= 0 ==> OccursAt(s, sub, r)
    ensures r >= 0 ==> forall j :: 0 <= j < r ==> !OccursAt(s, sub, j)
  {
    IndexFrom(s, sub, 0)
  }

  /** An occurrence at any index makes `s` contain `sub`. */
  lemma ContainsIffOccurs(s: string, sub: string, i: int)
    requires OccursAt(s, sub, i)
    ensures Contains(s, sub)
  {
  }

  /** Every character of a contained string occurs in the containing one; used to show that a
      literal does not contain another. */
  lemma ContainsHasChar(s: string, sub: string, k: nat)
    requires Contains(s, sub) && k < |sub|
    ensures sub[k] in s
  {
    var i :| 0 <= i <= |s| - |sub| && OccursAt(s, sub, i);
    assert s[i + k] == sub[k];
  }

  /** A one-character pattern is contained exactly when the character occurs. */
  lemma ContainsChar(s: string, c: char)
    ensures Contains(s, [c]) <==> c in s
  {
    if c in s {
      var i :| 0 <= i < |s| && s[i] == c;
      ContainsIffOccurs(s, [c], i);
    }
    if Contains(s, [c]) {
      ContainsHasChar(s, [c], 0);
    }
  }

  /** Containment is transitive. */
  lemma ContainsTransitive(s: string, mid: string, sub: string)
    requires Contains(s, mid) && Contains(mid, sub)
    ensures Contains(s, sub)
  {
    var i :| 0 <= i <= |s| - |mid| && OccursAt(s, mid, i);
    var j :| 0 <= j <= |mid| - |sub| && OccursAt(mid, sub, j);
    assert forall k :: 0 <= k < |sub| ==> s[i + j + k] == mid[j + k] == sub[k];
    assert OccursAt(s, sub, i + j);
  }

  /** A prefix of `t` that contains `sub` makes `t` contain it; so does a suffix. */
  lemma ContainsInConcat(a: string, b: string, sub: string)
    ensures Contains(a, sub) ==> Contains(a + b, sub)
    ensures Contains(b, sub) ==> Contains(a + b, sub)
  {
    if Contains(a, sub) {
      var i :| 0 <= i <= |a| - |sub| && OccursAt(a, sub, i);
      assert forall k :: 0 <= k < |sub| ==> (a + b)[i + k] == a[i + k] == sub[k];
      assert OccursAt(a + b, sub, i);
    }
    if Contains(b, sub) {
      var i :| 0 <= i <= |b| - |sub| && OccursAt(b, sub, i);
      assert forall k :: 0 <= k < |sub| ==> (a + b)[|a| + i + k] == b[i + k] == sub[k];
      assert OccursAt(a + b, sub, |a| + i);
    }
  }

  /** `sub` is not contained in `s` because its `k`-th character does not occur in `s`. */
  lemma Missing(s: string, sub: string, k: nat)
    requires k < |sub| && sub[k] !in s
    ensures !Contains(s, sub)
  {
    if Contains(s, sub) {
      ContainsHasChar(s, sub, k);
    }
  }

  /** A name without lower-case letters is its own upper-case form. */
  lemma UpperKeeps(s: string)
    requires forall c :: c in s ==> !IsLowerLetter(c)
    ensures Upper(s) == s
  {
    assert forall i :: 0 <= i < |s| ==> Upper(s)[i] == s[i];
  }

  /** strings.LastIndex for a one-character pattern. */
  function LastIndexOfChar(s: string, c: char): (r: int)
    ensures -1 <= r < |s|
    ensures r >= 0 ==> s[r] == c
    ensures forall j :: r < j < |s| ==> s[j] != c
  {
    if |s| == 0 then -1
    else if s[|s| - 1] == c then |s| - 1
    else LastIndexOfChar(s[..|s| - 1], c)
  }

  // ---------------------------------------------------------------- trimming and rewriting

  function TrimLeft(s: string): (r: string)
    ensures |r| <= |s| && r == s[|s| - |r|..]
    ensures r == [] || !IsSpace(r[0])
  {
    if |s| > 0 && IsSpace(s[0]) then TrimLeft(s[1..]) else s
  }

  function TrimRight(s: string): (r: string)
    ensures |r| <= |s| && r == s[..|r|]
    ensures r == [] || !IsSpace(r[|r| - 1])
  {
    if |s| > 0 && IsSpace(s[|s| - 1]) then TrimRight(s[..|s| - 1]) else s
  }

  /** strings.TrimSpace: the longest middle part of `s` that neither starts nor ends with a space. */
  function TrimSpace(s: string): (r: string)
    ensures r == [] || (!IsSpace(r[0]) && !IsSpace(r[|r| - 1]))
    ensures |r| <= |TrimLeft(s)| <= |s|
    ensures r == s[|s| - |TrimLeft(s)|..][..|r|]
  {
    TrimRight(TrimLeft(s))
  }

  /** Every character TrimSpace keeps comes from its argument. */
  lemma TrimSpaceChars(s: string)
    ensures forall c :: c in TrimSpace(s) ==> c in s
  {
    var t := s[|s| - |TrimLeft(s)|..];
    forall c | c in TrimSpace(s) ensures c in s {
      var k :| 0 <= k < |TrimSpace(s)| && TrimSpace(s)[k] == c;
      assert t[k] == c;
      assert s[|s| - |TrimLeft(s)| + k] == c;
    }
  }

  /** The text is what TrimSpace drops in front, what it keeps, and what it drops behind; only
      white space is dropped, so what is kept is the longest part that neither starts nor ends
      with white space. */
  lemma TrimSpaceSplit(s: string) returns (p: nat, q: nat)
    ensures p <= q <= |s| && TrimSpace(s) == s[p..q]
    ensures s == s[..p] + (TrimSpace(s) + s[q..])
    ensures forall i :: 0 <= i < p ==> IsSpace(s[i])
    ensures forall i :: q <= i < |s| ==> IsSpace(s[i])
  {
    var l := TrimLeft(s);
    p := |s| - |l|;
    var t := TrimSpace(s);
    q := p + |t|;
    assert t == s[p..q] by {
      assert l == s[p..];
      assert t == l[..|t|];
    }
    SliceSplit(s, p, q);
    TrimLeftDropsSpaces(s);
    TrimRightDropsSpaces(l);
    forall i | q <= i < |s|
      ensures IsSpace(s[i])
    {
      assert s[i] == l[i - p];
    }
  }

  /** TrimLeft drops only white space. */
  lemma {:induction false} TrimLeftDropsSpaces(s: string)
    ensures forall i :: 0 <= i < |s| - |TrimLeft(s)| ==> IsSpace(s[i])
    decreases |s|
  {
    if |s| > 0 && IsSpace(s[0]) {
      TrimLeftDropsSpaces(s[1..]);
      forall i | 1 <= i < |s| - |TrimLeft(s)|
        ensures IsSpace(s[i])
      {
        assert s[i] == s[1..][i - 1];
      }
    }
  }

  /** TrimRight drops only white space. */
  lemma {:induction false} TrimRightDropsSpaces(s: string)
    ensures forall i :: |TrimRight(s)| <= i < |s| ==> IsSpace(s[i])
    decreases |s|
  {
    if |s| > 0 && IsSpace(s[|s| - 1]) {
      var s' := s[..|s| - 1];
      TrimRightDropsSpaces(s');
      forall i | |TrimRight(s)| <= i < |s| - 1
        ensures IsSpace(s[i])
      {
        assert s[i] == s'[i];
      }
    }
  }

  lemma SliceSplit(s: string, p: nat, q: nat)
    requires p <= q <= |s|
    ensures s == s[..p] + (s[p..q] + s[q..])
  {
  }

  /** Text that neither starts nor ends with a space is left as it is by TrimSpace. */
  lemma TrimSpaceKeepsTrimmed(s: string)
    requires s == [] || (!IsSpace(s[0]) && !IsSpace(s[|s| - 1]))
    ensures TrimSpace(s) == s
  {
  }

  /** TrimSpace is idempotent. */
  lemma TrimSpaceIdempotent(s: string)
    ensures TrimSpace(TrimSpace(s)) == TrimSpace(s)
  {
    TrimSpaceKeepsTrimmed(TrimSpace(s));
  }

  /** strings.Replace(s, old, new, 1): the first occurrence of `old` is replaced. */
  function ReplaceFirst(s: string, pat: string, rep: string): string {
    var i := IndexOf(s, pat);
    if i < 0 then s else s[..i] + rep + s[i + |pat|..]
  }

  /** strings.ReplaceAll for a one-character pattern. */
  function ReplaceAllChar(s: string, c: char, rep: string): (r: string)
    ensures c !in rep ==> c !in r
    ensures c !in s ==> r == s
    ensures forall d :: d in r ==> d in s || d in rep
  {
    if s == [] then []
    else (if s[0] == c then rep else [s[0]]) + ReplaceAllChar(s[1..], c, rep)
  }

  lemma {:induction false} ReplaceAllCharAppend(a: string, b: string, c: char, rep: string)
    ensures ReplaceAllChar(a + b, c, rep) == ReplaceAllChar(a, c, rep) + ReplaceAllChar(b, c, rep)
  {
    if a == [] {
      assert a + b == b;
    } else {
      assert (a + b)[1..] == a[1..] + b;
      ReplaceAllCharAppend(a[1..], b, c, rep);
    }
  }

  /** Replacing a character keeps a prefix that does not hold it. */
  lemma ReplaceAllCharKeepsPrefix(s: string, p: string, c: char, rep: string)
    requires HasPrefix(s, p) && c !in p
    ensures HasPrefix(ReplaceAllChar(s, c, rep), p)
  {
    assert s == p + s[|p|..];
    ReplaceAllCharAppend(p, s[|p|..], c, rep);
  }

  /** A prefix of the result that holds no character of the replacement's start was already a
      prefix of the input. */
  lemma {:induction false} ReplaceAllCharPrefixBack(s: string, p: string, c: char, rep: string)
    requires rep != [] && rep[0] !in p && HasPrefix(ReplaceAllChar(s, c, rep), p)
    ensures HasPrefix(s, p)
  {
    if p != [] {
      var r := ReplaceAllChar(s, c, rep);
      assert s != [];
      var head := if s[0] == c then rep else [s[0]];
      assert r == head + ReplaceAllChar(s[1..], c, rep);
      assert p[0] == r[0] == head[0];
      assert p[0] in p;
      assert s[0] != c;
      assert r == [s[0]] + ReplaceAllChar(s[1..], c, rep);
      assert HasPrefix(ReplaceAllChar(s[1..], c, rep), p[1..]) by {
        assert r[1..] == ReplaceAllChar(s[1..], c, rep);
        assert r[1..][..|p| - 1] == r[..|p|][1..];
      }
      assert rep[0] !in p[1..] by {
        assert forall x :: x in p[1..] ==> x in p;
      }
      ReplaceAllCharPrefixBack(s[1..], p[1..], c, rep);
      assert s[..|p|] == [s[0]] + s[1..][..|p| - 1];
    }
  }

  /** Removing characters: what a regular-expression ReplaceAllString with "" does for a negated
      character class, and what a character-by-character accumulating loop builds. */
  function Filter(s: string, keep: char -> bool): (r: string)
    ensures |r| <= |s|
    ensures forall c :: c in r ==> c in s && keep(c)
  {
    if s == [] then []
    else
      var rest := Filter(s[1..], keep);
      assert forall c :: c in rest ==> c in s by {
        forall c | c in rest ensures c in s {
          var i :| 0 <= i < |s[1..]| && s[1..][i] == c;
          assert s[i + 1] == c;
        }
      }
      (if keep(s[0]) then [s[0]] else []) + rest
  }

  lemma {:induction false} FilterAppend(a: string, b: string, keep: char -> bool)
    ensures Filter(a + b, keep) == Filter(a, keep) + Filter(b, keep)
  {
    if a != [] {
      assert (a + b)[0] == a[0];
      assert (a + b)[1..] == a[1..] + b;
      FilterAppend(a[1..], b, keep);
    } else {
      assert a + b == b;
    }
  }

  /** Filtering one more character of a prefix. */
  lemma FilterSnoc(s: string, i: nat, keep: char -> bool)
    requires i < |s|
    ensures Filter(s[..i + 1], keep) == Filter(s[..i], keep) + (if keep(s[i]) then [s[i]] else [])
  {
    var x := s[i];
    assert s[..i + 1] == s[..i] + [x];
    FilterAppend(s[..i], [x], keep);
    FilterSingle(x, keep);
  }

  lemma FilterSingle(x: char, keep: char -> bool)
    ensures Filter([x], keep) == (if keep(x) then [x] else [])
  {
    assert [x][1..] == [];
  }

  /** Filtering keeps every character the filter accepts. */
  lemma {:induction false} FilterKeepsAll(s: string, keep: char -> bool)
    requires forall c :: c in s ==> keep(c)
    ensures Filter(s, keep) == s
  {
    if s != [] {
      assert forall c :: c in s[1..] ==> c in s;
      FilterKeepsAll(s[1..], keep);
      assert s == [s[0]] + s[1..];
    }
  }

  /** `a` can be obtained from `b` by deleting characters. */
  predicate IsSubsequence(a: string, b: string)
    decreases |b|
  {
    if b == [] then a == []
    else (a != [] && a[0] == b[0] && IsSubsequence(a[1..], b[1..])) || IsSubsequence(a, b[1..])
  }

  /** Filtering only deletes characters. */
  lemma {:induction false} FilterIsSubsequence(s: string, keep: char -> bool)
    ensures IsSubsequence(Filter(s, keep), s)
  {
    if s != [] {
      FilterIsSubsequence(s[1..], keep);
      if keep(s[0]) {
        assert Filter(s, keep) == [s[0]] + Filter(s[1..], keep);
        assert Filter(s, keep)[1..] == Filter(s[1..], keep);
      } else {
        assert Filter(s, keep) == Filter(s[1..], keep);
      }
    }
  }

  // ---------------------------------------------------------------- splitting

  /** strings.Split(s, sep) for a one-character separator. */
  function SplitOn(s: string, sep: char): (parts: seq<string>)
    ensures |parts| >= 1
    ensures forall k :: 0 <= k < |parts| ==> sep !in parts[k]
  {
    if s == [] then [""]
    else
      var rest := SplitOn(s[1..], sep);
      if s[0] == sep then [""] + rest else [[s[0]] + rest[0]] + rest[1..]
  }

  /** strings.Join(parts, sep) for a one-character separator. */
  function JoinWith(parts: seq<string>, sep: char): string
    requires |parts| >= 1
  {
    if |parts| == 1 then parts[0] else parts[0] + [sep] + JoinWith(parts[1..], sep)
  }

  /** Splitting and joining again give back the text. */
  lemma {:induction false} SplitOnJoin(s: string, sep: char)
    ensures JoinWith(SplitOn(s, sep), sep) == s
  {
    if s != [] {
      SplitOnJoin(s[1..], sep);
      var rest := SplitOn(s[1..], sep);
      if s[0] != sep {
        var parts := [[s[0]] + rest[0]] + rest[1..];
        assert parts[1..] == rest[1..];
        if |rest| > 1 {
          assert JoinWith(rest, sep) == rest[0] + [sep] + JoinWith(rest[1..], sep);
        }
      } else {
        assert ([""] + rest)[1..] == rest;
      }
    }
  }

  /** Skips the run of `\s` characters at the start of `s`. */
  function SkipReSpace(s: string): (r: string)
    ensures |r| < |s| || r == s
    ensures r == [] || !IsReSpace(r[0])
    ensures |s| > 0 && IsReSpace(s[0]) ==> |r| < |s|
  {
    if |s| > 0 && IsReSpace(s[0]) then SkipReSpace(s[1..]) else s
  }

  /** regexp.MustCompile(`\s+`).Split(s, -1): the pieces between maximal runs of `\s`; a run at
      either end yields an empty first or last piece, and the empty text yields one empty piece. */
  function SplitWs(s: string): (fields: seq<string>)
    ensures |fields| >= 1
    ensures forall k, c :: 0 <= k < |fields| && c in fields[k] ==> !IsReSpace(c)
    decreases |s|
  {
    if s == [] then [""]
    else if IsReSpace(s[0]) then [""] + SplitWs(SkipReSpace(s))
    else
      var rest := SplitWs(s[1..]);
      [[s[0]] + rest[0]] + rest[1..]
  }

  /** Tokens joined by single spaces split back into the same tokens. */
  lemma {:induction false} SplitWsJoin(tokens: seq<string>)
    requires |tokens| >= 1
    requires forall k :: 0 <= k < |tokens| ==> tokens[k] != []
    requires forall k, c :: 0 <= k < |tokens| && c in tokens[k] ==> !IsReSpace(c)
    ensures SplitWs(JoinWith(tokens, ' ')) == tokens
    decreases |tokens|, |tokens[0]|
  {
    if |tokens| == 1 {
      SplitWsToken(tokens[0], []);
      assert tokens[0] + [] == tokens[0];
      assert SplitWs([]) == [""];
    } else {
      var rest := JoinWith(tokens[1..], ' ');
      SplitWsJoin(tokens[1..]);
      JoinStartsWithFirst(tokens[1..], ' ');
      SplitWsSpaceThen(rest);
      SplitWsToken(tokens[0], [' '] + rest);
      JoinSplitsAtFirst(tokens, ' ');
      assert tokens[0] + "" == tokens[0];
      assert ([""] + tokens[1..])[1..] == tokens[1..];
      assert tokens == [tokens[0]] + tokens[1..];
    }
  }

  /** Joining two lists is joining each and putting one separator between them. */
  lemma {:induction false} JoinWithAppend(a: seq<string>, b: seq<string>, sep: char)
    requires |a| >= 1 && |b| >= 1
    ensures JoinWith(a + b, sep) == JoinWith(a, sep) + [sep] + JoinWith(b, sep)
  {
    if |a| == 1 {
      assert (a + b)[1..] == b;
    } else {
      assert (a + b)[1..] == a[1..] + b;
      JoinWithAppend(a[1..], b, sep);
    }
  }

  lemma JoinSplitsAtFirst(tokens: seq<string>, sep: char)
    requires |tokens| >= 2
    ensures JoinWith(tokens, sep) == tokens[0] + ([sep] + JoinWith(tokens[1..], sep))
  {
  }

  /** One space before a word splits off one empty piece. */
  lemma SplitWsSpaceThen(rest: string)
    requires rest != [] && !IsReSpace(rest[0])
    ensures SplitWs([' '] + rest) == [""] + SplitWs(rest)
  {
    assert ([' '] + rest)[1..] == rest;
    assert SkipReSpace([' '] + rest) == rest;
  }

  lemma JoinStartsWithFirst(tokens: seq<string>, sep: char)
    requires |tokens| >= 1 && tokens[0] != []
    ensures JoinWith(tokens, sep) != [] && JoinWith(tokens, sep)[0] == tokens[0][0]
  {
  }

  /** A token without `\s` glues onto the first piece of what follows it. */
  lemma {:induction false} SplitWsToken(t: string, rest: string)
    requires forall c :: c in t ==> !IsReSpace(c)
    ensures SplitWs(t + rest) == [t + SplitWs(rest)[0]] + SplitWs(rest)[1..]
    decreases |t|
  {
    var r := SplitWs(rest);
    if t == [] {
      assert t + rest == rest && t + r[0] == r[0];
      assert r == [r[0]] + r[1..];
    } else {
      assert t[0] in t;
      SplitWsToken(t[1..], rest);
      var m := SplitWs(t[1..] + rest);
      assert t + rest == [t[0]] + (t[1..] + rest);
      SplitWsCons(t[0], t[1..] + rest);
      assert [t[0]] + m[0] == [t[0]] + (t[1..] + r[0]) == t + r[0];
    }
  }

  /** A character that is not `\s` joins the first piece of what follows it. */
  lemma SplitWsCons(c: char, s: string)
    requires !IsReSpace(c)
    ensures SplitWs([c] + s) == [[c] + SplitWs(s)[0]] + SplitWs(s)[1..]
  {
    assert ([c] + s)[1..] == s;
  }

  // ---------------------------------------------------------------- numbers

  predicate AllDigits(s: string) { forall i :: 0 <= i < |s| ==> IsDigit(s[i]) }

  function DigitValue(c: char): nat
    requires IsDigit(c)
  {
    c as int - '0' as int
  }

  /** The value of a decimal digit string, most significant digit first. */
  function DigitsValue(s: string): nat
    requires AllDigits(s)
  {
    if s == [] then 0 else DigitsValue(s[..|s| - 1]) * 10 + DigitValue(s[|s| - 1])
  }

  /** The texts strconv.Atoi reads: an optional sign, then one or more decimal digits. */
  predicate SignedNumeral(s: string) {
    s != [] && if s[0] == '+' || s[0] == '-' then |s| >= 2 && AllDigits(s[1..]) else AllDigits(s)
  }

  /** strconv.Atoi: an optional sign followed by at least one decimal digit; anything else is an
      error.  Integers are unbounded, so the out-of-range error is not modelled. */
  function Atoi(s: string): (r: Option<int>)
    ensures r.Some? <==> SignedNumeral(s)
    ensures r.Some? && s[0] == '-' ==> r.value == -(DigitsValue(s[1..]) as int)
    ensures r.Some? && s[0] == '+' ==> r.value == DigitsValue(s[1..])
    ensures r.Some? && IsDigit(s[0]) ==> r.value == DigitsValue(s)
  {
    if |s| > 0 && (s[0] == '+' || s[0] == '-') then
      if |s| > 1 && AllDigits(s[1..]) then
        var v: int := DigitsValue(s[1..]);
        Some(if s[0] == '-' then -v else v)
      else None
    else if s != [] && AllDigits(s) then Some(DigitsValue(s))
    else None
  }

  /** `n, _ := strconv.Atoi(s)`: a failed conversion leaves 0. */
  function AtoiOrZero(s: string): int {
    match Atoi(s)
    case Some(n) => n
    case None => 0
  }

  function DigitChar(d: nat): (c: char)
    requires d < 10
    ensures IsDigit(c) && DigitValue(c) == d
  {
    ('0' as int + d) as char
  }

  /** fmt's %d for a non-negative integer. */
  function DecimalString(n: nat): (s: string)
    ensures s != [] && AllDigits(s)
    ensures s[0] != '0' || n == 0
  {
    if n < 10 then [DigitChar(n)] else DecimalString(n / 10) + [DigitChar(n % 10)]
  }

  /** Printing a number and reading it back gives the number. */
  lemma {:induction false} DecimalStringValue(n: nat)
    ensures DigitsValue(DecimalString(n)) == n
  {
    if n >= 10 {
      DecimalStringValue(n / 10);
      var s := DecimalString(n);
      assert s[..|s| - 1] == DecimalString(n / 10);
    }
  }

  lemma AtoiDecimalString(n: nat)
    ensures Atoi(DecimalString(n)) == Some(n)
  {
    DecimalStringValue(n);
  }

  /** A sign in front of the decimal form is read as such. */
  lemma AtoiSignedDecimal(n: nat)
    ensures Atoi("-" + DecimalString(n)) == Some(-(n as int))
    ensures Atoi("+" + DecimalString(n)) == Some(n)
  {
    DecimalStringValue(n);
    assert ("-" + DecimalString(n))[1..] == DecimalString(n);
    assert ("+" + DecimalString(n))[1..] == DecimalString(n);
  }

  function Zeros(k: nat): (z: string)
    ensures |z| == k && AllDigits(z)
  {
    seq(k, _ => '0')
  }

  /** Leading zeros add nothing to the value of a digit string. */
  lemma {:induction false} LeadingZerosValue(k: nat, d: string)
    requires AllDigits(d)
    ensures AllDigits(Zeros(k) + d) && DigitsValue(Zeros(k) + d) == DigitsValue(d)
    decreases |d|
  {
    var z := Zeros(k);
    if d == [] {
      assert z + d == z;
      ZerosValue(k);
    } else {
      LeadingZerosValue(k, d[..|d| - 1]);
      assert (z + d)[..|z + d| - 1] == z + d[..|d| - 1];
    }
  }

  lemma {:induction false} ZerosValue(k: nat)
    ensures DigitsValue(Zeros(k)) == 0
  {
    if k > 0 {
      ZerosValue(k - 1);
      assert Zeros(k)[..k - 1] == Zeros(k - 1);
    }
  }

  /** Atoi reads a zero-padded decimal form as the number itself. */
  lemma AtoiZeroPadded(k: nat, n: nat)
    ensures Atoi(Zeros(k) + DecimalString(n)) == Some(n)
  {
    LeadingZerosValue(k, DecimalString(n));
    DecimalStringValue(n);
  }
}
