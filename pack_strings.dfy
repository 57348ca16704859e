/**
 * The two string normalisations of the compendium tooling (utils/packs.mjs): cleanString,
 * which strips invisible joiners and straightens typographic quotes in document text, and
 * slugify, which turns a document name into a file-name segment.
 */
module PackStrings {
  import opened Seqs

  // ---------------------------------------------------------------------------------------
  // cleanString
  // ---------------------------------------------------------------------------------------

  const WordJoiner: char := '\U{2060}'
  const LeftSingleQuote: char := '\U{2018}'
  const RightSingleQuote: char := '\U{2019}'
  const LeftDoubleQuote: char := '\U{201C}'
  const RightDoubleQuote: char := '\U{201D}'

  /** The five characters cleanString removes or replaces. */
  predicate IsTypographic(c: char)
  {
    c == WordJoiner || c == LeftSingleQuote || c == RightSingleQuote || c == LeftDoubleQuote || c == RightDoubleQuote
  }

  /** A global character-class replacement: every character of `from` replaced by the string `to`. */
  function ReplaceAll(s: string, from: set<char>, to: string): (r: string)
    ensures forall c :: c in r ==> (c in s && c !in from) || c in to
    decreases |s|
  {
    if s == [] then []
    else (if s[0] in from then to else [s[0]]) + ReplaceAll(s[1..], from, to)
  }

  /** The three replacements of cleanString, applied in the order the source chains them. */
  function CleanString(s: string): (r: string)
    ensures forall c :: c in r ==> !IsTypographic(c)
    ensures forall c :: c in r ==> c in s || c == '\'' || c == '"'
  {
    var noJoiners := ReplaceAll(s, {WordJoiner}, "");
    var singles := ReplaceAll(noJoiners, {LeftSingleQuote, RightSingleQuote}, "'");
    ReplaceAll(singles, {LeftDoubleQuote, RightDoubleQuote}, "\"")
  }

  /** What cleanString makes of one character. */
  function CleanChar(c: char): string
  {
    if c == WordJoiner then ""
    else if c == LeftSingleQuote || c == RightSingleQuote then "'"
    else if c == LeftDoubleQuote || c == RightDoubleQuote then "\""
    else [c]
  }

  lemma {:induction false} ReplaceAllConcat(a: string, b: string, from: set<char>, to: string)
    ensures ReplaceAll(a + b, from, to) == ReplaceAll(a, from, to) + ReplaceAll(b, from, to)
    decreases |a|
  {
    if a == [] {
      assert a + b == b;
    } else {
      assert (a + b)[1..] == a[1..] + b;
      ReplaceAllConcat(a[1..], b, from, to);
    }
  }

  /** One character through one replacement. */
  lemma ReplaceAllSingle(c: char, from: set<char>, to: string)
    ensures ReplaceAll([c], from, to) == if c in from then to else [c]
  {
    assert [c][1..] == [];
  }

  /** cleanString distributes over concatenation. */
  lemma CleanStringConcat(a: string, b: string)
    ensures CleanString(a + b) == CleanString(a) + CleanString(b)
  {
    var s1, s2, s3 := {WordJoiner}, {LeftSingleQuote, RightSingleQuote}, {LeftDoubleQuote, RightDoubleQuote};
    ReplaceAllConcat(a, b, s1, "");
    ReplaceAllConcat(ReplaceAll(a, s1, ""), ReplaceAll(b, s1, ""), s2, "'");
    ReplaceAllConcat(ReplaceAll(ReplaceAll(a, s1, ""), s2, "'"), ReplaceAll(ReplaceAll(b, s1, ""), s2, "'"), s3, "\"");
  }

  /** cleanString on a single character. */
  lemma CleanStringChar(c: char)
    ensures CleanString([c]) == CleanChar(c)
  {
    var s1, s2, s3 := {WordJoiner}, {LeftSingleQuote, RightSingleQuote}, {LeftDoubleQuote, RightDoubleQuote};
    ReplaceAllSingle(c, s1, "");
    if c == WordJoiner {
      assert ReplaceAll([], s2, "'") == [];
      assert ReplaceAll([], s3, "\"") == [];
    } else {
      ReplaceAllSingle(c, s2, "'");
      if c in s2 {
        ReplaceAllSingle('\'', s3, "\"");
      } else {
        ReplaceAllSingle(c, s3, "\"");
      }
    }
  }

  /**
   * cleanString works character by character: the first character's replacement followed by
   * the cleaning of the rest. So every character other than the five is kept, in order.
   */
  lemma CleanStringByChar(s: string)
    requires s != []
    ensures CleanString(s) == CleanChar(s[0]) + CleanString(s[1..])
  {
    assert s == [s[0]] + s[1..];
    CleanStringConcat([s[0]], s[1..]);
    CleanStringChar(s[0]);
  }

  /** Text that holds none of the five characters comes back unchanged. */
  lemma {:induction false} CleanStringFixpoint(s: string)
    requires forall c :: c in s ==> !IsTypographic(c)
    ensures CleanString(s) == s
    decreases |s|
  {
    if s != [] {
      CleanStringByChar(s);
      assert s[0] in s && forall c :: c in s[1..] ==> c in s;
      CleanStringFixpoint(s[1..]);
      assert CleanChar(s[0]) == [s[0]];
      assert s == [s[0]] + s[1..];
    }
  }

  /** cleanString is idempotent. */
  lemma CleanStringIdempotent(s: string)
    ensures CleanString(CleanString(s)) == CleanString(s)
  {
    CleanStringFixpoint(CleanString(s));
  }

  // ---------------------------------------------------------------------------------------
  // slugify
  // ---------------------------------------------------------------------------------------

  /** `toLowerCase` on ASCII and on the upper-case letters of Latin-1 (U+00C0 to U+00DE except U+00D7). */
  function LowerChar(c: char): char
  {
    if 'A' <= c <= 'Z' then (c as int + 32) as char
    else if '\U{00C0}' <= c <= '\U{00DE}' && c != '\U{00D7}' then (c as int + 32) as char
    else c
  }

  function LowerCase(s: string): (r: string)
    ensures |r| == |s| && forall i :: 0 <= i < |s| ==> r[i] == LowerChar(s[i])
  {
    seq(|s|, i requires 0 <= i < |s| => LowerChar(s[i]))
  }

  /**
   * The accented letters of the pattern, lower case: a with acute, circumflex, tilde, grave or
   * diaeresis (U+00E0..U+00E4), c with cedilla and the e and i letters (U+00E7..U+00ED, U+00EF),
   * n with tilde and the o letters (U+00F1..U+00F6), and the u letters (U+00F9, U+00FA, U+00FC).
   */
  predicate IsAccentedLower(c: char)
  {
    '\U{00E0}' <= c <= '\U{00E4}' || '\U{00E7}' <= c <= '\U{00ED}' || c == '\U{00EF}'
    || '\U{00F1}' <= c <= '\U{00F6}' || '\U{00F9}' <= c <= '\U{00FA}' || c == '\U{00FC}'
  }

  /** The same letters upper case (32 code points lower); the `i` flag of the pattern admits them too. */
  predicate IsAccentedUpper(c: char)
  {
    '\U{00C0}' <= c <= '\U{00C4}' || '\U{00C7}' <= c <= '\U{00CD}' || c == '\U{00CF}'
    || '\U{00D1}' <= c <= '\U{00D6}' || '\U{00D9}' <= c <= '\U{00DA}' || c == '\U{00DC}'
  }

  /** A character a slug is made of: lower-case ASCII letters, digits and the accented letters. */
  predicate IsLowerSlugChar(c: char)
  {
    'a' <= c <= 'z' || '0' <= c <= '9' || IsAccentedLower(c)
  }

  /** The class of the source's pattern (a-z, 0-9 and the accented letters) under the `i` flag. */
  predicate IsSlugChar(c: char)
  {
    IsLowerSlugChar(c) || 'A' <= c <= 'Z' || IsAccentedUpper(c)
  }

  /** `\s` and the characters `trim` removes: white space and line terminators. */
  predicate IsSpace(c: char)
  {
    c == '\t' || c == '\n' || c == '\U{000B}' || c == '\U{000C}' || c == '\r' || c == ' '
    || c == '\U{00A0}' || c == '\U{1680}' || '\U{2000}' <= c <= '\U{200A}' || c == '\U{2028}' || c == '\U{2029}'
    || c == '\U{202F}' || c == '\U{205F}' || c == '\U{3000}' || c == '\U{FEFF}'
  }

  /** A replacement with a one-character string pattern: only the first occurrence of `c` goes. */
  function RemoveFirst(s: string, c: char): (r: string)
    ensures c !in s ==> r == s
    ensures c in s ==> var i := FirstIndex(s, c); r == s[..i] + s[i + 1..]
    decreases |s|
  {
    if s == [] then []
    else if s[0] == c then s[1..]
    else
      var r := [s[0]] + RemoveFirst(s[1..], c);
      if c in s then FirstIndexStep(s, c); r else r
  }

  /** The position of the first occurrence of `c` in `s`. */
  function FirstIndex(s: string, c: char): (i: nat)
    requires c in s
    ensures i < |s| && s[i] == c && c !in s[..i]
    decreases |s|
  {
    if s[0] == c then 0
    else
      assert c in s[1..];
      var j := FirstIndex(s[1..], c);
      assert s[..j + 1] == [s[0]] + s[1..][..j];
      j + 1
  }

  /** Past a first character other than `c`, the first occurrence is one further on in `s` than in its tail. */
  lemma FirstIndexStep(s: string, c: char)
    requires c in s && s[0] != c
    ensures c in s[1..]
    ensures var i := FirstIndex(s[1..], c);
            && FirstIndex(s, c) == i + 1
            && s[..i + 1] + s[i + 2..] == [s[0]] + (s[1..][..i] + s[1..][i + 1..])
  {
    assert c in s[1..];
    var i := FirstIndex(s[1..], c);
    assert s[..i + 1] == [s[0]] + s[1..][..i];
    assert s[i + 2..] == s[1..][i + 1..];
  }

  /** The longest suffix of `s` that does not start with a character satisfying `p`. */
  function DropWhile(s: string, p: char -> bool): (r: string)
    ensures |r| <= |s| && r == s[|s| - |r|..]
    ensures r != [] ==> !p(r[0])
    ensures forall i :: 0 <= i < |s| - |r| ==> p(s[i])
    decreases |s|
  {
    if s != [] && p(s[0]) then DropWhile(s[1..], p) else s
  }

  /** The longest prefix of `s` that does not end with a character satisfying `p`. */
  function DropLastWhile(s: string, p: char -> bool): (r: string)
    ensures |r| <= |s| && r == s[..|r|]
    ensures r != [] ==> !p(r[|r| - 1])
    ensures forall i :: |r| <= i < |s| ==> p(s[i])
    decreases |s|
  {
    if s != [] && p(s[|s| - 1]) then DropLastWhile(s[..|s| - 1], p) else s
  }

  /** Slug characters and spaces only, and every space followed by a slug character or the end. */
  ghost predicate SingleSpaced(t: string)
  {
    && (forall i :: 0 <= i < |t| ==> t[i] == ' ' || IsSlugChar(t[i]))
    && (forall i, j :: 0 <= i && j == i + 1 && j < |t| && t[i] == ' ' ==> IsSlugChar(t[j]))
  }

  /**
   * The negated-class replacement (flags `gi`, replacement `" "`): every maximal run of
   * separators becomes one space, so the result is SingleSpaced. `inRun` says that the
   * character before `s` was a separator, whose run already produced its space.
   */
  function CollapseFrom(s: string, inRun: bool): (r: string)
    ensures s == [] ==> r == []
    ensures s != [] && IsSlugChar(s[0]) ==> r != [] && r[0] == s[0]
    ensures s != [] && !IsSlugChar(s[0]) && !inRun ==> r != [] && r[0] == ' '
    ensures inRun && r != [] ==> IsSlugChar(r[0])
    decreases |s|
  {
    if s == [] then []
    else if IsSlugChar(s[0]) then [s[0]] + CollapseFrom(s[1..], false)
    else if inRun then CollapseFrom(s[1..], true)
    else " " + CollapseFrom(s[1..], true)
  }

  /** Collapsing leaves only slug characters and single spaces, each space before a slug character. */
  lemma {:induction false} CollapseSpaced(s: string, inRun: bool)
    ensures SingleSpaced(CollapseFrom(s, inRun))
    decreases |s|
  {
    if s == [] {
    } else if IsSlugChar(s[0]) {
      CollapseSpaced(s[1..], false);
      ConsSpaced(s[0], CollapseFrom(s[1..], false));
    } else if inRun {
      CollapseSpaced(s[1..], true);
    } else {
      CollapseSpaced(s[1..], true);
      ConsSpaced(' ', CollapseFrom(s[1..], true));
    }
  }

  /** Prepending a slug character, or a space before a slug character, keeps a string SingleSpaced. */
  lemma ConsSpaced(c: char, t: string)
    requires SingleSpaced(t)
    requires c == ' ' || IsSlugChar(c)
    requires c == ' ' && t != [] ==> IsSlugChar(t[0])
    ensures SingleSpaced([c] + t)
  {
    var a := [c] + t;
    forall i | 0 <= i < |a| ensures a[i] == ' ' || IsSlugChar(a[i]) {
      if i > 0 {
        assert a[i] == t[i - 1];
      }
    }
    forall i, j | 0 <= i && j == i + 1 && j < |a| && a[i] == ' ' ensures IsSlugChar(a[j]) {
      assert a[j] == t[j - 1];
      if i > 0 {
        assert a[i] == t[i - 1];
      }
    }
  }

  /** The collapsing step on the whole prepared name. */
  function Collapse(s: string): (r: string)
    ensures SingleSpaced(r)
  {
    CollapseSpaced(s, false);
    CollapseFrom(s, false)
  }

  /** White space and line terminators removed from both ends. */
  function Trim(s: string): string
  {
    DropLastWhile(DropWhile(s, IsSpace), IsSpace)
  }

  /** The last step: runs of white space, and runs of two or more hyphens, become one hyphen. */
  function Separate(s: string): string
    decreases |s|
  {
    if s == [] then []
    else if IsSpace(s[0]) then "-" + Separate(DropWhile(s[1..], IsSpace))
    else if |s| >= 2 && s[0] == '-' && s[1] == '-' then "-" + Separate(DropWhile(s[2..], c => c == '-'))
    else [s[0]] + Separate(s[1..])
  }

  /** `slugify(name)`: the five steps of the source, in order. */
  function Slugify(name: string): (r: string)
    ensures r == Join(Words(Prepared(name)), '-')
  {
    SlugPipelineWords(Prepared(name));
    Separate(Trim(Collapse(Prepared(name))))
  }

  /** The input to the collapsing step: lower-cased, first apostrophe removed. */
  function Prepared(name: string): string
  {
    RemoveFirst(LowerCase(name), '\'')
  }

  /** The slug characters of a string, in order. */
  function SlugChars(s: string): string
  {
    Filter(s, IsSlugChar)
  }

  /** Each space replaced by a hyphen. */
  function Hyphenate(t: string): (r: string)
    ensures |r| == |t| && forall i :: 0 <= i < |t| ==> r[i] == if t[i] == ' ' then '-' else t[i]
  {
    seq(|t|, i requires 0 <= i < |t| => if t[i] == ' ' then '-' else t[i])
  }

  lemma HyphenateCons(t: string)
    requires t != []
    ensures Hyphenate(t) == [if t[0] == ' ' then '-' else t[0]] + Hyphenate(t[1..])
  {
  }

  /** Slug characters are neither white space nor hyphens. */
  lemma SlugCharIsPlain(c: char)
    requires IsSlugChar(c)
    ensures !IsSpace(c) && c != '-' && c != ' '
  {
  }

  /** Separate's first step on a string that starts with a single space or with a slug character. */
  lemma SeparateStep(t: string)
    requires t != []
    requires t[0] == ' ' || IsSlugChar(t[0])
    requires t[0] == ' ' && |t| > 1 ==> IsSlugChar(t[1])
    ensures Separate(t) == [if t[0] == ' ' then '-' else t[0]] + Separate(t[1..])
  {
    if t[0] == ' ' {
      assert IsSpace(t[0]);
      if |t| > 1 {
        SlugCharIsPlain(t[1]);
      }
      assert DropWhile(t[1..], IsSpace) == t[1..];
    } else {
      SlugCharIsPlain(t[0]);
    }
  }

  /** A suffix of a SingleSpaced string is SingleSpaced. */
  lemma {:induction false} SuffixSpaced(t: string, k: nat)
    requires SingleSpaced(t) && k <= |t|
    ensures SingleSpaced(t[k..])
  {
    var a := t[k..];
    forall i | 0 <= i < |a| ensures a[i] == ' ' || IsSlugChar(a[i]) {
      assert a[i] == t[k + i];
    }
    forall i, j | 0 <= i && j == i + 1 && j < |a| && a[i] == ' ' ensures IsSlugChar(a[j]) {
      assert a[i] == t[k + i] && a[j] == t[k + j];
    }
  }

  /** A prefix of a SingleSpaced string is SingleSpaced. */
  lemma {:induction false} PrefixSpaced(t: string, k: nat)
    requires SingleSpaced(t) && k <= |t|
    ensures SingleSpaced(t[..k])
  {
    var a := t[..k];
    forall i | 0 <= i < |a| ensures a[i] == ' ' || IsSlugChar(a[i]) {
      assert a[i] == t[i];
    }
    forall i, j | 0 <= i && j == i + 1 && j < |a| && a[i] == ' ' ensures IsSlugChar(a[j]) {
      assert a[i] == t[i] && a[j] == t[j];
    }
  }

  /** On a SingleSpaced string the last step just turns spaces into hyphens. */
  lemma {:induction false} SeparateSpaced(t: string)
    requires SingleSpaced(t)
    ensures Separate(t) == Hyphenate(t)
    decreases |t|
  {
    if t != [] {
      SuffixSpaced(t, 1);
      SeparateSpaced(t[1..]);
      if |t| > 1 && t[0] == ' ' {
        assert IsSlugChar(t[1]);
      }
      SeparateStep(t);
      HyphenateCons(t);
    }
  }

  /** Dropping a leading run of characters that `p` never selects keeps what `p` selects. */
  lemma DropWhileKeepsFilter(t: string, q: char -> bool, p: char -> bool)
    requires forall c :: q(c) ==> !p(c)
    ensures Filter(DropWhile(t, q), p) == Filter(t, p)
  {
    var r := DropWhile(t, q);
    var w := t[..|t| - |r|];
    assert t == w + r;
    forall i | 0 <= i < |w| ensures !p(w[i]) {
      assert w[i] == t[i];
    }
    FilterNone(w, p);
    FilterConcat(w, r, p);
  }

  /** Dropping a trailing run of characters that `p` never selects keeps what `p` selects. */
  lemma DropLastWhileKeepsFilter(a: string, q: char -> bool, p: char -> bool)
    requires forall c :: q(c) ==> !p(c)
    ensures Filter(DropLastWhile(a, q), p) == Filter(a, p)
  {
    var r := DropLastWhile(a, q);
    var w := a[|r|..];
    assert a == r + w;
    forall i | 0 <= i < |w| ensures !p(w[i]) {
      assert w[i] == a[|r| + i];
    }
    FilterNone(w, p);
    FilterConcat(r, w, p);
  }

  /** Trimming a SingleSpaced string keeps it SingleSpaced and leaves no space at either end. */
  lemma TrimCollapsed(t: string)
    requires SingleSpaced(t)
    ensures SingleSpaced(Trim(t))
    ensures Trim(t) != [] ==> Trim(t)[0] != ' ' && Trim(t)[|Trim(t)| - 1] != ' '
  {
    var a := DropWhile(t, IsSpace);
    SuffixSpaced(t, |t| - |a|);
    var u := DropLastWhile(a, IsSpace);
    PrefixSpaced(a, |u|);
    assert IsSpace(' ');
  }

  /** Trimming keeps the slug characters, in order. */
  lemma TrimKeepsSlugChars(t: string)
    ensures SlugChars(Trim(t)) == SlugChars(t)
  {
    forall c | IsSpace(c) ensures !IsSlugChar(c) {
      SpaceIsNoSlugChar(c);
    }
    DropWhileKeepsFilter(t, IsSpace, IsSlugChar);
    DropLastWhileKeepsFilter(DropWhile(t, IsSpace), IsSpace, IsSlugChar);
  }

  /** The slug characters of a string with one more character in front. */
  lemma SlugCharsCons(c: char, t: string)
    ensures SlugChars([c] + t) == (if IsSlugChar(c) then [c] else []) + SlugChars(t)
  {
    FilterConcat([c], t, IsSlugChar);
    assert [c][..0] == [];
  }

  /** Collapsing keeps the slug characters, in order. */
  lemma {:induction false} CollapseKeepsSlugChars(s: string, inRun: bool)
    ensures SlugChars(CollapseFrom(s, inRun)) == SlugChars(s)
    decreases |s|
  {
    if s != [] {
      assert s == [s[0]] + s[1..];
      SlugCharsCons(s[0], s[1..]);
      if IsSlugChar(s[0]) {
        CollapseKeepsSlugChars(s[1..], false);
        SlugCharsCons(s[0], CollapseFrom(s[1..], false));
      } else if inRun {
        CollapseKeepsSlugChars(s[1..], true);
      } else {
        CollapseKeepsSlugChars(s[1..], true);
        SlugCharsCons(' ', CollapseFrom(s[1..], true));
      }
    }
  }

  /** Hyphenating keeps the slug characters. */
  lemma {:induction false} HyphenateKeepsSlugChars(t: string)
    ensures SlugChars(Hyphenate(t)) == SlugChars(t)
    decreases |t|
  {
    if t != [] {
      var init := t[..|t| - 1];
      HyphenateKeepsSlugChars(init);
      assert Hyphenate(t)[..|t| - 1] == Hyphenate(init);
    }
  }

  /** Lower-casing never yields an upper-case letter of the slug class. */
  lemma LowerCharIsLower(c: char)
    ensures IsSlugChar(LowerChar(c)) ==> IsLowerSlugChar(LowerChar(c))
  {
  }

  /** Every slug character of the prepared name is lower case. */
  lemma {:induction false} PreparedIsLower(name: string)
    ensures forall c :: c in SlugChars(Prepared(name)) ==> IsLowerSlugChar(c)
  {
    var l := LowerCase(name);
    FilterMembers(Prepared(name), IsSlugChar);
    forall c | c in SlugChars(Prepared(name)) ensures IsLowerSlugChar(c) {
      assert c in l;
      var i :| 0 <= i < |l| && l[i] == c;
      LowerCharIsLower(name[i]);
    }
  }

  /** Hyphenating a trimmed SingleSpaced string gives hyphens between slug characters only. */
  lemma {:induction false} HyphenateSpaced(u: string)
    requires SingleSpaced(u)
    requires u != [] ==> u[0] != ' ' && u[|u| - 1] != ' '
    ensures forall i :: 0 <= i < |u| ==> Hyphenate(u)[i] == '-' || (IsSlugChar(Hyphenate(u)[i]) && Hyphenate(u)[i] in SlugChars(u))
    ensures u != [] ==> Hyphenate(u)[0] != '-' && Hyphenate(u)[|u| - 1] != '-'
    ensures forall i :: 0 <= i < |u| - 1 ==> !(Hyphenate(u)[i] == '-' && Hyphenate(u)[i + 1] == '-')
  {
    var r := Hyphenate(u);
    FilterMembers(u, IsSlugChar);
    forall i | 0 <= i < |u| ensures r[i] == '-' || (IsSlugChar(r[i]) && r[i] in SlugChars(u)) {
      if u[i] != ' ' {
        assert r[i] == u[i] && u[i] in u;
      }
    }
    if u != [] {
      SlugCharIsPlain(u[0]);
      SlugCharIsPlain(u[|u| - 1]);
    }
    forall i | 0 <= i < |u| - 1 ensures !(r[i] == '-' && r[i + 1] == '-') {
      if u[i] == ' ' {
        assert IsSlugChar(u[i + 1]);
        SlugCharIsPlain(u[i + 1]);
      } else {
        SlugCharIsPlain(u[i]);
      }
    }
  }

  /**
   * The shape of a slug `r` made from `p`: only lower-case letters, digits, the listed accented
   * letters and hyphens; no hyphen at either end and never two in a row; and its letters and
   * digits are exactly those of `p`, in order, so every hyphen stands for a collapsed run of
   * separators.
   */
  ghost predicate SlugShaped(r: string, p: string)
  {
    && (forall i :: 0 <= i < |r| ==> IsLowerSlugChar(r[i]) || r[i] == '-')
    && (r != [] ==> r[0] != '-' && r[|r| - 1] != '-')
    && (forall i :: 0 <= i < |r| - 1 ==> !(r[i] == '-' && r[i + 1] == '-'))
    && SlugChars(r) == SlugChars(p)
  }

  /** A slug has the shape of a slug made from the lower-cased name with its first apostrophe removed. */
  lemma SlugifyShape(name: string)
    ensures SlugShaped(Slugify(name), Prepared(name))
  {
    PreparedIsLower(name);
    PipelineShape(Prepared(name));
  }

  /** The shape of the last three steps on a string whose slug characters are lower case. */
  lemma PipelineShape(p: string)
    requires forall c :: c in SlugChars(p) ==> IsLowerSlugChar(c)
    ensures SlugShaped(Separate(Trim(Collapse(p))), p)
  {
    var t := Collapse(p);
    var u := Trim(t);
    TrimCollapsed(t);
    TrimKeepsSlugChars(t);
    SeparateSpaced(u);
    CollapseKeepsSlugChars(p, false);
    HyphenateKeepsSlugChars(u);
    HyphenateSpaced(u);
  }

  // ---------------------------------------------------------------------------------------
  // What a slug means: the words of the prepared name, joined by hyphens
  // ---------------------------------------------------------------------------------------

  /** A word: a non-empty run of slug characters. */
  predicate IsWord(w: string)
  {
    w != [] && forall j :: 0 <= j < |w| ==> IsSlugChar(w[j])
  }

  /** The leading run of slug characters of `s` (empty when `s` starts with another character). */
  function LeadingWord(s: string): (w: string)
    ensures |w| <= |s| && w == s[..|w|]
    ensures forall i :: 0 <= i < |w| ==> IsSlugChar(w[i])
    ensures |w| < |s| ==> !IsSlugChar(s[|w|])
    ensures s != [] && IsSlugChar(s[0]) ==> |w| > 0
    decreases |s|
  {
    if s != [] && IsSlugChar(s[0]) then [s[0]] + LeadingWord(s[1..]) else []
  }

  /** The words of `s`: its maximal runs of slug characters, in order. */
  function Words(s: string): (ws: seq<string>)
    ensures forall i :: 0 <= i < |ws| ==> IsWord(ws[i])
    decreases |s|
  {
    if s == [] then []
    else if !IsSlugChar(s[0]) then Words(s[1..])
    else
      var w := LeadingWord(s);
      [w] + Words(s[|w|..])
  }

  /** The words with one `sep` between neighbours. */
  function Join(ws: seq<string>, sep: char): string
    decreases |ws|
  {
    if ws == [] then [] else if |ws| == 1 then ws[0] else ws[0] + [sep] + Join(ws[1..], sep)
  }

  /** White space is never a slug character. */
  lemma SpaceIsNoSlugChar(c: char)
    requires IsSpace(c)
    ensures !IsSlugChar(c)
  {
    if IsSlugChar(c) {
      SlugCharIsPlain(c);
    }
  }

  /** A character outside the class in front does not change the words. */
  lemma WordsSkip(c: char, t: string)
    requires !IsSlugChar(c)
    ensures Words([c] + t) == Words(t)
  {
    assert ([c] + t)[1..] == t;
  }

  lemma LeadingWordCons(c: char, t: string)
    requires IsSlugChar(c)
    ensures LeadingWord([c] + t) == [c] + LeadingWord(t)
  {
    assert ([c] + t)[1..] == t;
  }

  /** A slug character in front starts a new word, or joins the first word when one follows at once. */
  lemma WordsCons(c: char, t: string)
    requires IsSlugChar(c)
    ensures t == [] || !IsSlugChar(t[0]) ==> Words([c] + t) == [[c]] + Words(t)
    ensures t != [] && IsSlugChar(t[0]) ==> Words(t) != [] && Words([c] + t) == [[c] + Words(t)[0]] + Words(t)[1..]
  {
    var s := [c] + t;
    LeadingWordCons(c, t);
    var w := LeadingWord(t);
    assert Words(s) == [[c] + w] + Words(s[|w| + 1..]);
    assert s[|w| + 1..] == t[|w|..];
    if !(t != [] && IsSlugChar(t[0])) {
      assert t[|w|..] == t;
    }
  }

  /** Collapsing keeps the words: only the runs between them change. */
  lemma {:induction false} WordsCollapse(s: string, inRun: bool)
    ensures Words(CollapseFrom(s, inRun)) == Words(s)
    decreases |s|
  {
    if s != [] {
      var t := s[1..];
      assert s == [s[0]] + t;
      if IsSlugChar(s[0]) {
        WordsCollapse(t, false);
        var r := CollapseFrom(t, false);
        assert !IsSlugChar(' ') by {
          SpaceIsNoSlugChar(' ');
        }
        WordsCons(s[0], t);
        WordsCons(s[0], r);
      } else if inRun {
        WordsCollapse(t, true);
        WordsSkip(s[0], t);
      } else {
        WordsCollapse(t, true);
        WordsSkip(s[0], t);
        SpaceIsNoSlugChar(' ');
        WordsSkip(' ', CollapseFrom(t, true));
      }
    }
  }

  /** Characters outside the class in front do not change the words. */
  lemma {:induction false} WordsDropFront(a: string, b: string)
    requires forall i :: 0 <= i < |a| ==> !IsSlugChar(a[i])
    ensures Words(a + b) == Words(b)
    decreases |a|
  {
    if a != [] {
      assert a + b == [a[0]] + (a[1..] + b);
      WordsSkip(a[0], a[1..] + b);
      forall i | 0 <= i < |a[1..]| ensures !IsSlugChar(a[1..][i]) {
        assert a[1..][i] == a[i + 1];
      }
      WordsDropFront(a[1..], b);
    } else {
      assert a + b == b;
    }
  }

  /** The leading word stops where `b` begins when `b` starts outside the class. */
  lemma {:induction false} LeadingWordAppend(a: string, b: string)
    requires b == [] || !IsSlugChar(b[0])
    ensures LeadingWord(a + b) == LeadingWord(a)
    decreases |a|
  {
    if a == [] {
      assert a + b == b;
    } else {
      assert (a + b)[0] == a[0];
      assert (a + b)[1..] == a[1..] + b;
      LeadingWordAppend(a[1..], b);
    }
  }

  /** Characters outside the class at the end do not change the words. */
  lemma {:induction false} WordsDropBack(a: string, b: string)
    requires forall i :: 0 <= i < |b| ==> !IsSlugChar(b[i])
    ensures Words(a + b) == Words(a)
    decreases |a|
  {
    if a == [] {
      assert a + b == b + [];
      WordsDropFront(b, []);
    } else if !IsSlugChar(a[0]) {
      assert a + b == [a[0]] + (a[1..] + b);
      WordsSkip(a[0], a[1..] + b);
      WordsDropBack(a[1..], b);
    } else {
      var w := LeadingWord(a);
      LeadingWordAppend(a, b);
      assert (a + b)[0] == a[0];
      assert (a + b)[|w|..] == a[|w|..] + b;
      WordsDropBack(a[|w|..], b);
    }
  }

  /** Dropping a leading run of characters outside the class keeps the words. */
  lemma {:induction false} WordsDropWhile(x: string, q: char -> bool)
    requires forall c :: q(c) ==> !IsSlugChar(c)
    ensures Words(DropWhile(x, q)) == Words(x)
    decreases |x|
  {
    if x != [] && q(x[0]) {
      WordsDropWhile(x[1..], q);
      assert x == [x[0]] + x[1..];
      WordsSkip(x[0], x[1..]);
    }
  }

  /** Dropping a trailing run of characters outside the class keeps the words. */
  lemma {:induction false} WordsDropLastWhile(x: string, q: char -> bool)
    requires forall c :: q(c) ==> !IsSlugChar(c)
    ensures Words(DropLastWhile(x, q)) == Words(x)
    decreases |x|
  {
    if x != [] && q(x[|x| - 1]) {
      var init := x[..|x| - 1];
      WordsDropLastWhile(init, q);
      assert x == init + [x[|x| - 1]];
      WordsDropBack(init, [x[|x| - 1]]);
    }
  }

  /** Trimming keeps the words. */
  lemma WordsTrim(x: string)
    ensures Words(Trim(x)) == Words(x)
  {
    forall c | IsSpace(c) ensures !IsSlugChar(c) {
      SpaceIsNoSlugChar(c);
    }
    WordsDropWhile(x, IsSpace);
    WordsDropLastWhile(DropWhile(x, IsSpace), IsSpace);
  }

  /** Joining a word in front of at least one more word puts one separator after it. */
  lemma JoinCons(w: string, ws: seq<string>, sep: char)
    requires ws != []
    ensures Join([w] + ws, sep) == w + [sep] + Join(ws, sep)
  {
    assert ([w] + ws)[1..] == ws;
  }

  /** A character in front of the first word comes first in the join. */
  lemma JoinExtend(c: char, ws: seq<string>, sep: char)
    requires ws != []
    ensures Join([[c] + ws[0]] + ws[1..], sep) == [c] + Join(ws, sep)
  {
    if |ws| > 1 {
      assert ([[c] + ws[0]] + ws[1..])[1..] == ws[1..];
    }
  }

  /** A slug character in front of a joined string that starts with a word joins that word. */
  lemma JoinSlugCons(c: char, t: string)
    requires IsSlugChar(c) && t != [] && IsSlugChar(t[0])
    requires Join(Words(t), ' ') == t
    ensures Join(Words([c] + t), ' ') == [c] + t
  {
    WordsCons(c, t);
    JoinExtend(c, Words(t), ' ');
  }

  /** A slug character and a space in front of a joined string that starts with a word add a word. */
  lemma JoinSpaceCons(c: char, v: string)
    requires IsSlugChar(c) && v != [] && IsSlugChar(v[0])
    requires Join(Words(v), ' ') == v
    ensures Join(Words([c] + ([' '] + v)), ' ') == [c] + ([' '] + v)
  {
    SpaceIsNoSlugChar(' ');
    WordsCons(c, [' '] + v);
    WordsSkip(' ', v);
    WordsCons(v[0], v[1..]);
    assert v == [v[0]] + v[1..];
    JoinCons([c], Words(v), ' ');
  }

  /** A SingleSpaced string with no space at either end is its words joined by single spaces. */
  lemma {:induction false} SpacedIsJoin(u: string)
    requires SingleSpaced(u)
    requires u != [] ==> u[0] != ' ' && u[|u| - 1] != ' '
    ensures Join(Words(u), ' ') == u
    decreases |u|
  {
    if u != [] {
      var c, t := u[0], u[1..];
      assert u == [c] + t;
      SuffixSpaced(u, 1);
      if t == [] {
        WordsCons(c, t);
      } else if t[0] != ' ' {
        assert t[|t| - 1] == u[|u| - 1];
        SpacedIsJoin(t);
        JoinSlugCons(c, t);
      } else {
        var v := t[1..];
        assert t == [' '] + v;
        SuffixSpaced(t, 1);
        assert v[|v| - 1] == u[|u| - 1];
        SpacedIsJoin(v);
        JoinSpaceCons(c, v);
      }
    }
  }

  /** Hyphenate distributes over concatenation. */
  lemma HyphenateAppend(a: string, b: string)
    ensures Hyphenate(a + b) == Hyphenate(a) + Hyphenate(b)
  {
  }

  /** A word has no space, so hyphenating leaves it alone. */
  lemma HyphenateWord(w: string)
    requires IsWord(w)
    ensures Hyphenate(w) == w
  {
    forall j | 0 <= j < |w| ensures w[j] != ' ' {
      SlugCharIsPlain(w[j]);
    }
  }

  /** Hyphenating words joined by spaces joins them by hyphens. */
  lemma {:induction false} HyphenateJoin(ws: seq<string>)
    requires forall i :: 0 <= i < |ws| ==> IsWord(ws[i])
    ensures Hyphenate(Join(ws, ' ')) == Join(ws, '-')
    decreases |ws|
  {
    if |ws| == 1 {
      HyphenateWord(ws[0]);
    } else if |ws| > 1 {
      HyphenateJoin(ws[1..]);
      HyphenateWord(ws[0]);
      HyphenateAppend(ws[0] + [' '], Join(ws[1..], ' '));
      HyphenateAppend(ws[0], [' ']);
    }
  }

  /** Trimming a SingleSpaced string leaves its words joined by single spaces. */
  lemma TrimSpacedIsJoin(t: string)
    requires SingleSpaced(t)
    ensures SingleSpaced(Trim(t)) && Trim(t) == Join(Words(t), ' ')
  {
    TrimCollapsed(t);
    SpacedIsJoin(Trim(t));
    WordsTrim(t);
  }

  /** The last three steps of slugify turn a prepared name into its words joined by hyphens. */
  lemma SlugPipelineWords(p: string)
    ensures Separate(Trim(Collapse(p))) == Join(Words(p), '-')
  {
    var t := Collapse(p);
    var u := Trim(t);
    var ws := Words(p);
    TrimSpacedIsJoin(t);
    WordsCollapse(p, false);
    assert u == Join(ws, ' ');
    SeparateSpaced(u);
    HyphenateJoin(ws);
  }

  /** A space between two letters becomes a hyphen: the slug of "a b" is "a-b". */
  lemma SlugOfTwoWords()
    ensures Join(Words(Prepared("a b")), '-') == "a-b"
  {
    PreparedTwoWords();
    WordsTwoWords();
    assert Join(["a", "b"], '-') == "a-b";
  }

  /** Letters with no separator between them stay one word: "ab" gives "ab". */
  lemma SlugifyOneWord()
    ensures Slugify("ab") == "ab"
  {
    assert Prepared("ab") == "ab";
    assert LeadingWord("ab") == "ab";
    assert Words("ab") == ["ab"];
  }

  lemma PreparedTwoWords()
    ensures Prepared("a b") == "a b"
  {
    var l := LowerCase("a b");
    assert l[0] == 'a' && l[1] == ' ' && l[2] == 'b';
    assert l == "a b";
    assert '\'' !in l;
  }

  lemma WordsTwoWords()
    ensures Words("a b") == ["a", "b"]
  {
    assert Words(" b") == Words("b") by {
      SpaceIsNoSlugChar(' ');
      WordsSkip(' ', "b");
    }
    assert LeadingWord("a b") == "a";
    assert "a b"[1..] == " b";
    assert Words("a b") == ["a"] + Words(" b");
    assert LeadingWord("b") == "b";
    assert Words("b") == ["b"];
  }
}
