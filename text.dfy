/**
 * The JavaScript string primitives the backend relies on: `trim`, `toUpperCase`,
 * `replace(/\s+/g, ' ')`, `includes`, `split` and `join`, with JavaScript's
 * notion of whitespace and of a "truthy" string.
 */
module Text {
  import opened Wrappers

  /** The characters of the `\s` class, which are also the ones `trim` removes. */
  predicate IsSpace(c: char)
  {
    c == ' ' || '\t' <= c <= '\r' || c == '\U{00A0}' || c == '\U{1680}'
    || '\U{2000}' <= c <= '\U{200A}' || c == '\U{2028}' || c == '\U{2029}'
    || c == '\U{202F}' || c == '\U{205F}' || c == '\U{3000}' || c == '\U{FEFF}'
  }

  /** A string is truthy in JavaScript when it is present and not empty. */
  predicate Truthy(s: Option<string>)
  {
    s.Some? && s.value != ""
  }

  /** JavaScript `a || b` on optional strings. */
  function Or(a: Option<string>, b: Option<string>): (r: Option<string>)
    ensures Truthy(a) ==> r == a
    ensures !Truthy(a) ==> r == b
  {
    if Truthy(a) then a else b
  }

  /** JavaScript `a || fallback` where the fallback is a literal. */
  function OrDefault(a: Option<string>, fallback: string): (r: string)
    ensures Truthy(a) ==> r == a.value
    ensures !Truthy(a) ==> r == fallback
  {
    if Truthy(a) then a.value else fallback
  }

  // ---------------------------------------------------------------- trim

  /** `trimStart`: removes the longest prefix made only of whitespace. */
  function TrimStart(s: string): (r: string)
    ensures |r| <= |s|
  {
    if s != [] && IsSpace(s[0]) then TrimStart(s[1..]) else s
  }

  /** `trimEnd`: removes the longest suffix made only of whitespace. */
  function TrimEnd(s: string): (r: string)
    ensures |r| <= |s|
  {
    if s != [] && IsSpace(s[|s| - 1]) then TrimEnd(s[..|s| - 1]) else s
  }

  /** What `trimStart` removes is whitespace, and what it keeps does not start with whitespace. */
  lemma {:induction false} TrimStartSpec(s: string)
    ensures |TrimStart(s)| <= |s| && TrimStart(s) == s[|s| - |TrimStart(s)|..]
    ensures TrimStart(s) != [] ==> !IsSpace(TrimStart(s)[0])
    ensures forall i | 0 <= i < |s| - |TrimStart(s)| :: IsSpace(s[i])
    decreases |s|
  {
    if s != [] && IsSpace(s[0]) {
      TrimStartSpec(s[1..]);
      forall i | 1 <= i < |s| - |TrimStart(s)| ensures IsSpace(s[i]) {
        assert s[i] == s[1..][i - 1];
      }
    }
  }

  /** What `trimEnd` removes is whitespace, and what it keeps does not end with whitespace. */
  lemma {:induction false} TrimEndSpec(s: string)
    ensures |TrimEnd(s)| <= |s| && TrimEnd(s) == s[..|TrimEnd(s)|]
    ensures TrimEnd(s) != [] ==> !IsSpace(TrimEnd(s)[|TrimEnd(s)| - 1])
    ensures forall i | |TrimEnd(s)| <= i < |s| :: IsSpace(s[i])
    decreases |s|
  {
    if s != [] && IsSpace(s[|s| - 1]) {
      TrimEndSpec(s[..|s| - 1]);
    }
  }

  /** `trim`: the part of `s` left once whitespace is removed at both ends. */
  function Trim(s: string): string
  {
    TrimEnd(TrimStart(s))
  }

  /** `trim` keeps a contiguous slice `s[k..]` of its input, strips only whitespace and leaves none at either end. */
  lemma TrimSpec(s: string) returns (k: nat)
    ensures k + |Trim(s)| <= |s| && Trim(s) == s[k..k + |Trim(s)|]
    ensures forall i | 0 <= i < k :: IsSpace(s[i])
    ensures forall i | k + |Trim(s)| <= i < |s| :: IsSpace(s[i])
    ensures Trim(s) != [] ==> !IsSpace(Trim(s)[0]) && !IsSpace(Trim(s)[|Trim(s)| - 1])
  {
    k := |s| - |TrimStart(s)|;
    TrimStartSpec(s);
    TrimSlice(s);
    TrimTail(s);
    TrimEnds(s);
  }

  lemma TrimSlice(s: string)
    ensures var k := |s| - |TrimStart(s)|;
      k + |Trim(s)| <= |s| && Trim(s) == s[k..k + |Trim(s)|]
  {
    var k := |s| - |TrimStart(s)|;
    TrimStartSpec(s);
    assert TrimStart(s) == s[k..];
    TrimEndOfSuffix(s, k);
  }

  lemma TrimTail(s: string)
    ensures var k := |s| - |TrimStart(s)|;
      k + |Trim(s)| <= |s| && forall i | k + |Trim(s)| <= i < |s| :: IsSpace(s[i])
  {
    var k := |s| - |TrimStart(s)|;
    TrimStartSpec(s);
    assert TrimStart(s) == s[k..];
    TrimEndOfSuffix(s, k);
  }

  lemma TrimEnds(s: string)
    ensures Trim(s) != [] ==> !IsSpace(Trim(s)[0]) && !IsSpace(Trim(s)[|Trim(s)| - 1])
  {
    var t := TrimStart(s);
    TrimStartSpec(s);
    TrimEndSpec(t);
    TrimEndOfSuffix(s, |s| - |t|);
  }

  /** Trimming the end of a suffix `s[k..]` keeps a slice of `s` whose tail was whitespace. */
  lemma TrimEndOfSuffix(s: string, k: nat)
    requires k <= |s|
    ensures var r := TrimEnd(s[k..]);
      && k + |r| <= |s|
      && r == s[k..k + |r|]
      && (forall i | k + |r| <= i < |s| :: IsSpace(s[i]))
      && (r != [] ==> r[0] == s[k])
  {
    var t := s[k..];
    var r := TrimEnd(t);
    TrimEndSpec(t);
    assert t[..|r|] == s[k..k + |r|];
    forall i | k + |r| <= i < |s| ensures IsSpace(s[i]) {
      assert s[i] == t[i - k];
    }
  }

  lemma {:induction false} TrimStartPadding(pre: string, s: string)
    requires forall i | 0 <= i < |pre| :: IsSpace(pre[i])
    ensures TrimStart(pre + s) == TrimStart(s)
    decreases |pre|
  {
    if pre != [] {
      assert (pre + s)[0] == pre[0];
      assert (pre + s)[1..] == pre[1..] + s;
      TrimStartPadding(pre[1..], s);
    } else {
      assert pre + s == s;
    }
  }

  lemma {:induction false} TrimEndPadding(s: string, post: string)
    requires forall i | 0 <= i < |post| :: IsSpace(post[i])
    ensures TrimEnd(s + post) == TrimEnd(s)
    decreases |post|
  {
    if post != [] {
      var n := |post| - 1;
      assert (s + post)[|s + post| - 1] == post[n];
      assert (s + post)[..|s + post| - 1] == s + post[..n];
      TrimEndPadding(s, post[..n]);
    } else {
      assert s + post == s;
    }
  }

  /** Whitespace added around a string is removed by `trim`. */
  lemma TrimPadding(pre: string, s: string, post: string)
    requires forall i | 0 <= i < |pre| :: IsSpace(pre[i])
    requires forall i | 0 <= i < |post| :: IsSpace(post[i])
    ensures Trim(pre + s + post) == Trim(s)
  {
    assert pre + s + post == pre + (s + post);
    TrimStartPadding(pre, s + post);
    if TrimStart(s) != [] {
      TrimStartAppend(s, post);
      TrimEndPadding(TrimStart(s), post);
    } else {
      TrimStartSpec(s);
      var all := s + post;
      assert forall i | 0 <= i < |all| :: IsSpace(all[i]) by {
        forall i | 0 <= i < |all| ensures IsSpace(all[i]) {
          if i < |s| { assert all[i] == s[i]; } else { assert all[i] == post[i - |s|]; }
        }
      }
      TrimStartPadding(all, []);
      assert all + [] == all;
    }
  }

  lemma {:induction false} TrimStartAppend(s: string, post: string)
    requires TrimStart(s) != []
    ensures TrimStart(s + post) == TrimStart(s) + post
    decreases |s|
  {
    assert (s + post)[0] == s[0];
    if IsSpace(s[0]) {
      assert (s + post)[1..] == s[1..] + post;
      TrimStartAppend(s[1..], post);
    }
  }

  /** A string without whitespace at either end is left alone by `trim`. */
  lemma TrimOfTrimmed(s: string)
    requires s == [] || (!IsSpace(s[0]) && !IsSpace(s[|s| - 1]))
    ensures Trim(s) == s
  {
  }

  /** `trim` is idempotent. */
  lemma TrimIdempotent(s: string)
    ensures Trim(Trim(s)) == Trim(s)
  {
    var _ := TrimSpec(s);
    TrimOfTrimmed(Trim(s));
  }

  // ---------------------------------------------------------------- toUpperCase

  /**
   * `toUpperCase` on one character, restricted to ASCII and the Latin-1
   * lower-case letters à-þ (except ÷), which map to their capitals, and ÿ,
   * which maps to U+0178. Every other character is left as it is, so the
   * Unicode mappings JavaScript also applies (ß to "SS", µ to U+039C, the
   * letters beyond U+00FF) are not part of this model.
   */
  function UpperChar(c: char): char
  {
    if 'a' <= c <= 'z' then (c as int - 32) as char
    else if '\U{00E0}' <= c <= '\U{00FE}' && c != '\U{00F7}' then (c as int - 32) as char
    else if c == '\U{00FF}' then '\U{0178}'
    else c
  }

  predicate IsLowerLetter(c: char)
  {
    'a' <= c <= 'z' || ('\U{00E0}' <= c <= '\U{00FE}' && c != '\U{00F7}') || c == '\U{00FF}'
  }

  /** Upper-casing a character is idempotent and only touches lower-case letters. */
  lemma UpperCharSpec(c: char)
    ensures UpperChar(UpperChar(c)) == UpperChar(c)
    ensures !IsLowerLetter(UpperChar(c))
    ensures UpperChar(c) != c <==> IsLowerLetter(c)
    ensures IsSpace(UpperChar(c)) <==> IsSpace(c)
  {
  }

  function ToUpper(s: string): (r: string)
    ensures |r| == |s|
    ensures forall i | 0 <= i < |s| :: r[i] == UpperChar(s[i])
  {
    if s == [] then [] else [UpperChar(s[0])] + ToUpper(s[1..])
  }

  /** `toUpperCase` works character by character, so it distributes over concatenation. */
  lemma ToUpperAppend(a: string, b: string)
    ensures ToUpper(a + b) == ToUpper(a) + ToUpper(b)
  {
    var l, r := ToUpper(a + b), ToUpper(a) + ToUpper(b);
    assert forall i | 0 <= i < |l| :: l[i] == r[i];
  }

  /** `toUpperCase` is idempotent and leaves no lower-case letter behind. */
  lemma ToUpperIdempotent(s: string)
    ensures ToUpper(ToUpper(s)) == ToUpper(s)
    ensures forall i | 0 <= i < |s| :: !IsLowerLetter(ToUpper(s)[i])
  {
    forall i | 0 <= i < |s| ensures ToUpper(ToUpper(s))[i] == ToUpper(s)[i] && !IsLowerLetter(ToUpper(s)[i]) {
      UpperCharSpec(s[i]);
    }
  }

  /** Upper-casing and trimming commute, because upper-casing never changes whether a character is whitespace. */
  lemma TrimToUpperCommute(s: string)
    ensures Trim(ToUpper(s)) == ToUpper(Trim(s))
  {
    TrimStartUpper(s);
    TrimEndUpper(TrimStart(s));
  }

  lemma {:induction false} TrimStartUpper(s: string)
    ensures TrimStart(ToUpper(s)) == ToUpper(TrimStart(s))
    decreases |s|
  {
    if s != [] {
      UpperCharSpec(s[0]);
      assert ToUpper(s)[0] == UpperChar(s[0]);
      if IsSpace(s[0]) {
        ToUpperDrop(s);
        TrimStartUpper(s[1..]);
      }
    }
  }

  lemma {:induction false} TrimEndUpper(s: string)
    ensures TrimEnd(ToUpper(s)) == ToUpper(TrimEnd(s))
    decreases |s|
  {
    if s != [] {
      UpperCharSpec(s[|s| - 1]);
      assert ToUpper(s)[|s| - 1] == UpperChar(s[|s| - 1]);
      if IsSpace(s[|s| - 1]) {
        ToUpperTake(s);
        TrimEndUpper(s[..|s| - 1]);
      }
    }
  }

  lemma ToUpperDrop(s: string)
    requires s != []
    ensures ToUpper(s)[1..] == ToUpper(s[1..])
  {
    var l, r := ToUpper(s)[1..], ToUpper(s[1..]);
    assert forall i | 0 <= i < |l| :: l[i] == r[i];
  }

  lemma ToUpperTake(s: string)
    requires s != []
    ensures ToUpper(s)[..|s| - 1] == ToUpper(s[..|s| - 1])
  {
    var t, last := s[..|s| - 1], [s[|s| - 1]];
    assert s == t + last;
    ToUpperAppend(t, last);
    assert (ToUpper(t) + ToUpper(last))[..|t|] == ToUpper(t);
  }

  // ---------------------------------------------------------------- replace(/\s+/g, ' ')

  /** The characters of `s` that are not whitespace, in order. */
  function NonSpaces(s: string): string
  {
    if s == [] then [] else (if IsSpace(s[0]) then [] else [s[0]]) + NonSpaces(s[1..])
  }

  /** No whitespace character other than a plain space, and never two in a row. */
  predicate Collapsed(s: string)
  {
    (forall i | 0 <= i < |s| :: IsSpace(s[i]) ==> s[i] == ' ')
    && (forall i | 0 <= i < |s| - 1 :: !(s[i] == ' ' && s[i + 1] == ' '))
  }

  /** `s.replace(/\s+/g, ' ')`: every maximal run of whitespace becomes one space. */
  function CollapseSpaces(s: string): (r: string)
    ensures |r| <= |s|
    decreases |s|
  {
    if s == [] then []
    else if IsSpace(s[0]) then [' '] + CollapseSpaces(TrimStart(s[1..]))
    else [s[0]] + CollapseSpaces(s[1..])
  }

  /**
   * Collapsing leaves no whitespace but single plain spaces, keeps every other
   * character in order, and keeps the first character unless it is whitespace.
   */
  lemma CollapseSpacesSpec(s: string)
    ensures Collapsed(CollapseSpaces(s))
    ensures NonSpaces(CollapseSpaces(s)) == NonSpaces(s)
    ensures s != [] ==> CollapseSpaces(s) != []
    ensures s != [] ==> CollapseSpaces(s)[0] == (if IsSpace(s[0]) then ' ' else s[0])
  {
    CollapseIsCollapsed(s);
    CollapseNonSpaces(s);
    CollapseHead(s);
  }

  lemma CollapseHead(s: string)
    ensures s != [] ==> CollapseSpaces(s) != []
    ensures s != [] ==> CollapseSpaces(s)[0] == (if IsSpace(s[0]) then ' ' else s[0])
  {
  }

  /** Collapsing keeps a last character that is not whitespace. */
  lemma {:induction false} CollapseLast(s: string)
    requires s != [] && !IsSpace(s[|s| - 1])
    ensures CollapseSpaces(s) != [] && CollapseSpaces(s)[|CollapseSpaces(s)| - 1] == s[|s| - 1]
    decreases |s|
  {
    if IsSpace(s[0]) {
      var tail := s[1..];
      var rest := TrimStart(tail);
      TrimStartSpec(tail);
      var k := |tail| - |rest|;
      assert rest == tail[k..];
      assert tail != [] && tail[|tail| - 1] == s[|s| - 1];
      assert !IsSpace(tail[|tail| - 1]);
      assert k < |tail|;
      assert rest[|rest| - 1] == tail[|tail| - 1];
      CollapseLast(rest);
      assert CollapseSpaces(s) == [' '] + CollapseSpaces(rest);
    } else if |s| > 1 {
      CollapseLast(s[1..]);
      assert CollapseSpaces(s) == [s[0]] + CollapseSpaces(s[1..]);
    }
  }

  /** A character followed by a collapsed string is collapsed unless it is whitespace other than ' ' or doubles a space. */
  lemma ConsCollapsed(c: char, x: string)
    requires Collapsed(x) && (IsSpace(c) ==> c == ' ')
    requires c == ' ' && x != [] ==> x[0] != ' '
    ensures Collapsed([c] + x)
  {
    var y := [c] + x;
    forall i | 1 <= i < |y| ensures y[i] == x[i - 1] {
    }
  }

  lemma {:induction false} CollapseIsCollapsed(s: string)
    ensures Collapsed(CollapseSpaces(s))
    decreases |s|
  {
    if s != [] {
      if IsSpace(s[0]) {
        var rest := TrimStart(s[1..]);
        CollapseIsCollapsed(rest);
        TrimStartSpec(s[1..]);
        CollapseHead(rest);
        ConsCollapsed(' ', CollapseSpaces(rest));
      } else {
        CollapseIsCollapsed(s[1..]);
        ConsCollapsed(s[0], CollapseSpaces(s[1..]));
      }
    }
  }

  lemma {:induction false} CollapseNonSpaces(s: string)
    ensures NonSpaces(CollapseSpaces(s)) == NonSpaces(s)
    decreases |s|
  {
    if s != [] {
      var tail := if IsSpace(s[0]) then TrimStart(s[1..]) else s[1..];
      CollapseNonSpaces(tail);
      if IsSpace(s[0]) {
        NonSpacesTrimStart(s[1..]);
      }
      NonSpacesCons(if IsSpace(s[0]) then ' ' else s[0], CollapseSpaces(tail));
    }
  }

  /** Whitespace contributes nothing to `NonSpaces`, so neither does the prefix `trimStart` removes. */
  lemma {:induction false} NonSpacesTrimStart(s: string)
    ensures NonSpaces(TrimStart(s)) == NonSpaces(s)
    decreases |s|
  {
    if s != [] && IsSpace(s[0]) {
      NonSpacesTrimStart(s[1..]);
    }
  }

  lemma NonSpacesCons(c: char, s: string)
    ensures NonSpaces([c] + s) == (if IsSpace(c) then [] else [c]) + NonSpaces(s)
  {
    assert ([c] + s)[1..] == s;
  }

  /** A string already collapsed is left alone, so collapsing is idempotent. */
  lemma {:induction false} CollapseOfCollapsed(s: string)
    requires Collapsed(s)
    ensures CollapseSpaces(s) == s
    decreases |s|
  {
    if s != [] {
      assert Collapsed(s[1..]);
      CollapseOfCollapsed(s[1..]);
      if IsSpace(s[0]) {
        assert |s| > 1 ==> s[1] != ' ';
        assert TrimStart(s[1..]) == s[1..];
      }
    }
  }

  lemma CollapseIdempotent(s: string)
    ensures CollapseSpaces(CollapseSpaces(s)) == CollapseSpaces(s)
  {
    CollapseSpacesSpec(s);
    CollapseOfCollapsed(CollapseSpaces(s));
  }

  // ---------------------------------------------------------------- includes

  predicate OccursAt(s: string, t: string, i: int)
  {
    0 <= i && i + |t| <= |s| && s[i..i + |t|] == t
  }

  /** `s.includes(t)`. */
  predicate Contains(s: string, t: string)
  {
    exists i | 0 <= i <= |s| - |t| :: OccursAt(s, t, i)
  }

  /** A string that lacks one of the characters of `t` cannot contain `t`. */
  lemma AbsentChar(s: string, t: string, c: char)
    requires c in t && c !in s
    ensures !Contains(s, t)
  {
    var k :| 0 <= k < |t| && t[k] == c;
    forall i | 0 <= i <= |s| - |t| ensures !OccursAt(s, t, i) {
      assert s[i..i + |t|][k] == s[i + k];
    }
  }

  /** An occurrence in `p + q` lies in `p` or in `q` when the last character of `p` cannot be part of it. */
  lemma NoStraddle(p: string, q: string, t: string)
    requires p != [] && p[|p| - 1] !in t
    ensures Contains(p + q, t) ==> Contains(p, t) || Contains(q, t)
  {
    var s := p + q;
    forall i | 0 <= i < |p| < i + |t| <= |s| ensures !OccursAt(s, t, i) {
      assert s[i..i + |t|][|p| - 1 - i] == p[|p| - 1];
    }
    if Contains(s, t) {
      var i :| 0 <= i <= |s| - |t| && OccursAt(s, t, i);
      if i + |t| <= |p| {
        assert s[i..i + |t|] == p[i..i + |t|];
        assert OccursAt(p, t, i);
      } else {
        assert i >= |p|;
        assert s[i..i + |t|] == q[i - |p|..i - |p| + |t|];
        assert OccursAt(q, t, i - |p|);
      }
    }
  }

  /** Whatever occurs inside `t` occurs in every string that contains `t`. */
  lemma ContainsInner(s: string, t: string, u: string, j: int)
    requires Contains(s, t) && OccursAt(t, u, j)
    ensures Contains(s, u)
  {
    var i :| 0 <= i <= |s| - |t| && OccursAt(s, t, i);
    var window, inner := s[i..i + |t|], s[i + j..i + j + |u|];
    assert window == t;
    assert forall k | 0 <= k < |u| :: inner[k] == window[j + k];
    assert inner == u;
    assert OccursAt(s, u, i + j);
  }

  /** Upper-casing keeps an occurrence where it was. */
  lemma ToUpperOccurs(s: string, w: string, j: int)
    requires OccursAt(s, w, j)
    ensures OccursAt(ToUpper(s), ToUpper(w), j)
  {
    assert ToUpper(s)[j..j + |w|] == ToUpper(w);
  }

  /** `s.indexOf(t)`: the first position where `t` occurs. */
  function IndexOf(s: string, t: string): (r: Option<nat>)
    ensures r.Some? ==> OccursAt(s, t, r.value) && forall j | 0 <= j < r.value :: !OccursAt(s, t, j)
    ensures r.None? <==> !Contains(s, t)
    decreases |s|
  {
    if |s| < |t| then None
    else if s[..|t|] == t then
      assert OccursAt(s, t, 0);
      Some(0)
    else
      var rest := IndexOf(s[1..], t);
      OccursShift(s, t);
      if rest.None? then None else Some(rest.value + 1)
  }

  /** Dropping the first character of `s` moves every later occurrence one place left. */
  lemma OccursShift(s: string, t: string)
    requires s != []
    ensures forall i | 1 <= i :: OccursAt(s, t, i) <==> OccursAt(s[1..], t, i - 1)
  {
    forall i | 1 <= i && i + |t| <= |s| ensures OccursAt(s, t, i) == OccursAt(s[1..], t, i - 1) {
      var a, b := s[i..i + |t|], s[1..][i - 1..i - 1 + |t|];
      assert forall j | 0 <= j < |t| :: a[j] == b[j];
      assert a == b;
    }
  }

  // ---------------------------------------------------------------- split / join

  /** `s.split(sep)` for a non-empty separator. */
  function Split(s: string, sep: string): (parts: seq<string>)
    requires sep != []
    ensures |parts| >= 1
    ensures forall p | p in parts :: !Contains(p, sep)
    ensures |parts| == 1 <==> !Contains(s, sep)
    decreases |s|
  {
    match IndexOf(s, sep)
    case None => [s]
    case Some(i) =>
      var head := s[..i];
      forall j | 0 <= j <= |head| - |sep| ensures !OccursAt(head, sep, j) {
        assert !OccursAt(s, sep, j);
        assert head[j..j + |sep|] == s[j..j + |sep|];
      }
      [head] + Split(s[i + |sep|..], sep)
  }

  /** Splitting "a - b" on " - " gives back the two parts when `a` has no '-' and `b` no " - ". */
  lemma SplitPair(a: string, b: string)
    requires '-' !in a && !Contains(b, " - ")
    ensures Split(a + " - " + b, " - ") == [a, b]
  {
    var key := a + " - " + b;
    var n := |a|;
    assert key[n..n + 3] == " - ";
    assert OccursAt(key, " - ", n);
    forall j | 0 <= j < n ensures !OccursAt(key, " - ", j) {
      if j + 1 < n {
        assert key[j + 1] == a[j + 1];
      }
      assert key[j..j + 3][1] == key[j + 1] != '-';
    }
    assert IndexOf(key, " - ") == Some(n) by {
      var r := IndexOf(key, " - ");
      assert r.Some?;
      assert !(r.value < n) && !(r.value > n);
    }
    assert key[..n] == a;
    assert key[n + 3..] == b;
  }

  /** `parts.join(sep)`. */
  function Join(parts: seq<string>, sep: string): string
  {
    if parts == [] then []
    else if |parts| == 1 then parts[0]
    else parts[0] + sep + Join(parts[1..], sep)
  }

  lemma JoinCons(head: string, tail: seq<string>, sep: string)
    requires tail != []
    ensures Join([head] + tail, sep) == head + sep + Join(tail, sep)
  {
    assert ([head] + tail)[1..] == tail;
  }

  /** Splitting and joining again with the same separator gives back the input. */
  lemma {:induction false} JoinSplit(s: string, sep: string)
    requires sep != []
    ensures Join(Split(s, sep), sep) == s
    decreases |s|
  {
    var found := IndexOf(s, sep);
    if found.Some? {
      var i := found.value;
      var head, rest := s[..i], s[i + |sep|..];
      assert s == head + s[i..i + |sep|] + rest;
      var tail := Split(rest, sep);
      JoinSplit(rest, sep);
      assert Split(s, sep) == [head] + tail;
      JoinCons(head, tail, sep);
    }
  }
}
