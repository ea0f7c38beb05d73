/** The string helpers: turning a title into a URL slug, capitalising the
    first letter and cutting a string down to a length with an ellipsis.
    A string is a sequence of characters, each standing for one UTF-16 code
    unit of the JavaScript string: the two agree on text inside the Basic
    Multilingual Plane, while a character outside it is one element here and
    a surrogate pair (two units) in JavaScript. */
module StringUtil {
  import opened Entities

  // ---------------------------------------------------------------------
  // Character classes

  /** JavaScript's `\s`, which is also the set `trim()` removes: tab, line
      feed, vertical tab, form feed, carriage return, space, no-break space,
      the Unicode space separators, the line and paragraph separators and the
      byte order mark. */
  predicate IsWhite(c: char) {
    var n := c as int;
    || (9 <= n <= 13) || n == 0x20 || n == 0xA0 || n == 0x1680
    || (0x2000 <= n <= 0x200A) || n == 0x2028 || n == 0x2029 || n == 0x202F
    || n == 0x205F || n == 0x3000 || n == 0xFEFF
  }

  /** JavaScript's `\w` (no `u` flag): ASCII letters, digits and `_`. */
  predicate IsWordChar(c: char) {
    ('a' <= c <= 'z') || ('A' <= c <= 'Z') || ('0' <= c <= '9') || c == '_'
  }

  /** `[\s_-]`: the characters a run of which becomes one `-`. */
  predicate IsSeparator(c: char) {
    IsWhite(c) || c == '_' || c == '-'
  }

  /** What a slug is made of. */
  predicate IsSlugChar(c: char) {
    ('a' <= c <= 'z') || ('0' <= c <= '9') || c == '-'
  }

  predicate IsLowerAlnum(c: char) {
    ('a' <= c <= 'z') || ('0' <= c <= '9')
  }

  /** `toLowerCase` on one character, as far as the later steps of `slugify`
      can tell: ASCII capitals map to small letters, the Kelvin sign U+212A
      to `k` and the capital dotted I U+0130 to `i` (its combining dot is
      removed by the filter step). Other characters keep their case: the
      non-ASCII letters among them are removed by the filter whatever their
      case. */
  function LowerChar(c: char): (d: char)
    ensures 'A' <= c <= 'Z' ==> d as int == c as int + 32
    ensures !('A' <= d <= 'Z')
    ensures IsLowerAlnum(c) || IsWhite(c) || c == '_' || c == '-' ==> d == c
    ensures c as int == 0x212A ==> d == 'k'
    ensures c as int == 0x130 ==> d == 'i'
    ensures !('A' <= c <= 'Z') && c as int != 0x212A && c as int != 0x130 ==> d == c
  {
    if 'A' <= c <= 'Z' then (c as int + 32) as char
    else if c as int == 0x212A then 'k'
    else if c as int == 0x130 then 'i'
    else c
  }

  /** `toUpperCase` on an ASCII small letter; every other character is kept. */
  function UpperChar(c: char): (d: char)
    ensures 'a' <= c <= 'z' ==> 'A' <= d <= 'Z' && LowerChar(d) == c
    ensures !('a' <= c <= 'z') ==> d == c
  {
    if 'a' <= c <= 'z' then (c as int - 32) as char else c
  }

  // ---------------------------------------------------------------------
  // slugify, one step per chained call

  /** `str.toLowerCase()`. */
  function Lower(s: string): (r: string)
    ensures |r| == |s| && forall i :: 0 <= i < |s| ==> r[i] == LowerChar(s[i])
    ensures NoCapitals(r)
  {
    seq(|s|, i requires 0 <= i < |s| => LowerChar(s[i]))
  }

  /** The ASCII small letters and digits of `s`, in order. */
  function Alnums(s: string): string {
    if s == [] then [] else (if IsLowerAlnum(s[0]) then [s[0]] else []) + Alnums(s[1..])
  }

  lemma AlnumsCons(c: char, t: string)
    ensures Alnums([c] + t) == (if IsLowerAlnum(c) then [c] else []) + Alnums(t)
  {
    assert ([c] + t)[1..] == t;
  }

  lemma {:induction false} AlnumsAppend(a: string, b: string)
    ensures Alnums(a + b) == Alnums(a) + Alnums(b)
  {
    if a != [] {
      assert (a + b)[1..] == a[1..] + b;
      AlnumsAppend(a[1..], b);
    } else {
      assert a + b == b;
    }
  }

  /** No ASCII capital letter. */
  ghost predicate NoCapitals(s: string) {
    forall i :: 0 <= i < |s| ==> !('A' <= s[i] <= 'Z')
  }

  /** Only small letters, digits and separators. */
  ghost predicate AlnumsAndSeparators(s: string) {
    forall i :: 0 <= i < |s| ==> IsLowerAlnum(s[i]) || IsSeparator(s[i])
  }

  /** Only small letters, digits and `-`. */
  ghost predicate SlugChars(s: string) {
    forall i :: 0 <= i < |s| ==> IsSlugChar(s[i])
  }

  /** The `n` characters of `s` from index `k` on. */
  function Slice(s: string, k: int, n: int): string
    requires 0 <= k && 0 <= n && k + n <= |s|
  {
    s[k..k + n]
  }

  lemma SliceOfSuffix(s: string, k: int, n: int)
    requires 0 <= k && 0 <= n && k + n <= |s|
    ensures s[k..][..n] == Slice(s, k, n)
  {
  }

  /** Text without small letters and digits contributes nothing to `Alnums`. */
  lemma {:induction false} AlnumsNone(t: string)
    requires forall i :: 0 <= i < |t| ==> !IsLowerAlnum(t[i])
    ensures Alnums(t) == []
  {
    if t != [] {
      AlnumsNone(t[1..]);
    }
  }

  /** Dropping a prefix without letters and digits keeps the letters and
      digits. */
  lemma DropPrefix(s: string, k: int)
    requires 0 <= k <= |s|
    requires forall i :: 0 <= i < k ==> !IsLowerAlnum(s[i])
    ensures Alnums(s[k..]) == Alnums(s)
  {
    assert s == s[..k] + s[k..];
    AlnumsAppend(s[..k], s[k..]);
    AlnumsNone(s[..k]);
  }

  /** Dropping a suffix without letters and digits, likewise. */
  lemma DropSuffix(s: string, n: int)
    requires 0 <= n <= |s|
    requires forall i :: n <= i < |s| ==> !IsLowerAlnum(s[i])
    ensures Alnums(s[..n]) == Alnums(s)
  {
    assert s == s[..n] + s[n..];
    AlnumsAppend(s[..n], s[n..]);
    AlnumsNone(s[n..]);
  }

  /** What holds of every character, or of every pair of neighbours, holds
      of a piece of the text. */
  lemma SliceKeeps(s: string, k: int, n: int)
    requires 0 <= k && 0 <= n && k + n <= |s|
    ensures NoCapitals(s) ==> NoCapitals(Slice(s, k, n))
    ensures SlugChars(s) ==> SlugChars(Slice(s, k, n))
    ensures NoDoubleDash(s) ==> NoDoubleDash(Slice(s, k, n))
  {
    var r := Slice(s, k, n);
    assert forall i :: 0 <= i < n ==> r[i] == s[k + i];
  }

  /** Number of white-space characters at the start of `s`. */
  function LeadingWhite(s: string): (k: nat)
    ensures k <= |s|
    ensures forall i :: 0 <= i < k ==> IsWhite(s[i])
    ensures k < |s| ==> !IsWhite(s[k])
  {
    if s != [] && IsWhite(s[0]) then 1 + LeadingWhite(s[1..]) else 0
  }

  /** Number of white-space characters at the end of `s`. */
  function TrailingWhite(s: string): (k: nat)
    ensures k <= |s|
    ensures forall i :: |s| - k <= i < |s| ==> IsWhite(s[i])
    ensures k < |s| ==> !IsWhite(s[|s| - k - 1])
  {
    if s != [] && IsWhite(s[|s| - 1]) then 1 + TrailingWhite(s[..|s| - 1]) else 0
  }

  /** `str.trim()`: the input without the white space at either end; what
      lies between is kept as it is. */
  function Trim(s: string): (r: string)
    ensures var k := LeadingWhite(s);
            && k + |r| <= |s| && r == Slice(s, k, |r|)
            && forall i :: k + |r| <= i < |s| ==> IsWhite(s[i])
    ensures r == [] || (!IsWhite(r[0]) && !IsWhite(r[|r| - 1]))
    ensures s == [] || (!IsWhite(s[0]) && !IsWhite(s[|s| - 1])) ==> r == s
  {
    var k := LeadingWhite(s);
    var t := s[k..];
    var n := |t| - TrailingWhite(t);
    SliceOfSuffix(s, k, n);
    t[..n]
  }

  /** Trimming removes no letter or digit and adds no capital. */
  lemma TrimKeeps(s: string)
    ensures Alnums(Trim(s)) == Alnums(s)
    ensures NoCapitals(s) ==> NoCapitals(Trim(s))
  {
    var k := LeadingWhite(s);
    var t := s[k..];
    var n := |t| - TrailingWhite(t);
    DropPrefix(s, k);
    DropSuffix(t, n);
    SliceKeeps(s, k, n);
  }

  /** The characters `.replace(/[^\w\s-]/g, '')` keeps. */
  predicate IsKept(c: char) {
    IsWordChar(c) || IsWhite(c) || c == '-'
  }

  /** `.replace(/[^\w\s-]/g, '')`: keeps word characters, white space and
      `-`, and drops every other character. */
  function KeepWordChars(s: string): (r: string)
    ensures forall i :: 0 <= i < |r| ==> IsKept(r[i])
    ensures |s| == 1 ==> r == if IsKept(s[0]) then s else []
    ensures NoCapitals(s) ==> AlnumsAndSeparators(r)
  {
    if s == [] then []
    else
      var rest := KeepWordChars(s[1..]);
      if IsKept(s[0]) then [s[0]] + rest else rest
  }

  /** Text the filter keeps entirely is left as it is. */
  lemma {:induction false} KeepWordCharsFixedPoint(s: string)
    requires forall i :: 0 <= i < |s| ==> IsKept(s[i])
    ensures KeepWordChars(s) == s
  {
    if s != [] {
      assert IsKept(s[0]);
      KeepWordCharsFixedPoint(s[1..]);
      assert [s[0]] + s[1..] == s;
    }
  }

  /** The filter keeps every letter and digit. */
  lemma {:induction false} KeepWordCharsAlnums(s: string)
    ensures Alnums(KeepWordChars(s)) == Alnums(s)
  {
    if s != [] {
      KeepWordCharsAlnums(s[1..]);
      AlnumsCons(s[0], KeepWordChars(s[1..]));
    }
  }

  /** The filter works character by character: filtering a concatenation is
      concatenating the filtered parts. With the one-character case above
      this fixes the result on every input. */
  lemma {:induction false} KeepWordCharsAppend(a: string, b: string)
    ensures KeepWordChars(a + b) == KeepWordChars(a) + KeepWordChars(b)
  {
    if a == [] {
      assert a + b == b;
    } else {
      assert (a + b)[1..] == a[1..] + b;
      KeepWordCharsAppend(a[1..], b);
    }
  }

  /** No two `-` side by side. */
  ghost predicate NoDoubleDash(s: string) {
    forall i :: 0 <= i < |s| - 1 ==> !(s[i] == '-' && s[i + 1] == '-')
  }

  /** `.replace(/[\s_-]+/g, '-')`: every run of separators becomes one `-`
      (a separator followed by another is dropped; the last of a run is
      written as `-`). */
  function CollapseSeparators(s: string): (r: string)
    ensures forall i :: 0 <= i < |r| ==> r[i] == '-' || !IsSeparator(r[i])
    ensures AlnumsAndSeparators(s) ==> SlugChars(r)
    ensures NoDoubleDash(r)
    ensures s != [] ==> r != [] && (r[0] == '-' <==> IsSeparator(s[0]))
  {
    if s == [] then []
    else
      var rest := CollapseSeparators(s[1..]);
      if !IsSeparator(s[0]) then [s[0]] + rest
      else if |s| > 1 && IsSeparator(s[1]) then rest
      else ['-'] + rest
  }

  /** Collapsing keeps every letter and digit. */
  lemma {:induction false} CollapseAlnums(s: string)
    ensures Alnums(CollapseSeparators(s)) == Alnums(s)
  {
    if s != [] {
      CollapseAlnums(s[1..]);
      AlnumsCons(s[0], CollapseSeparators(s[1..]));
      AlnumsCons('-', CollapseSeparators(s[1..]));
    }
  }

  /** Text whose only separators are single `-` is left as it is. */
  lemma {:induction false} CollapseFixedPoint(s: string)
    requires forall i :: 0 <= i < |s| ==> !IsSeparator(s[i]) || s[i] == '-'
    requires NoDoubleDash(s)
    ensures CollapseSeparators(s) == s
  {
    if s != [] {
      CollapseFixedPoint(s[1..]);
    }
  }

  /** Only separators. */
  ghost predicate AllSeparators(s: string) {
    forall i :: 0 <= i < |s| ==> IsSeparator(s[i])
  }

  /** Text that ends in a non-separator is collapsed independently of what
      follows it: no run crosses the boundary. */
  lemma {:induction false} CollapseAppend(a: string, t: string)
    requires a == [] || !IsSeparator(a[|a| - 1])
    ensures CollapseSeparators(a + t) == CollapseSeparators(a) + CollapseSeparators(t)
  {
    if a == [] {
      assert a + t == t;
    } else {
      var rest := CollapseSeparators(a[1..]);
      assert (a + t)[1..] == a[1..] + t;
      CollapseAppend(a[1..], t);
      if !IsSeparator(a[0]) {
        Associative([a[0]], rest, CollapseSeparators(t));
      } else {
        assert |a| > 1 && (a + t)[1] == a[1];
        if !IsSeparator(a[1]) {
          Associative(['-'], rest, CollapseSeparators(t));
        }
      }
    }
  }

  /** A whole run of separators, up to the next non-separator or the end,
      becomes exactly one `-`. */
  lemma {:induction false} CollapseRun(sep: string, b: string)
    requires sep != [] && AllSeparators(sep)
    requires b == [] || !IsSeparator(b[0])
    ensures CollapseSeparators(sep + b) == "-" + CollapseSeparators(b)
  {
    assert (sep + b)[1..] == sep[1..] + b;
    if |sep| > 1 {
      assert (sep + b)[1] == sep[1];
      CollapseRun(sep[1..], b);
    }
  }

  /** A separator run between two pieces of text becomes one `-` between
      them, the pieces being collapsed on their own. */
  lemma CollapseSplit(a: string, sep: string, b: string)
    requires a == [] || !IsSeparator(a[|a| - 1])
    requires sep != [] && AllSeparators(sep)
    requires b == [] || !IsSeparator(b[0])
    ensures CollapseSeparators(a + sep + b) == CollapseSeparators(a) + "-" + CollapseSeparators(b)
  {
    Associative(a, sep, b);
    CollapseAppend(a, sep + b);
    CollapseRun(sep, b);
    Associative(CollapseSeparators(a), "-", CollapseSeparators(b));
  }

  lemma Associative(a: string, b: string, c: string)
    ensures a + b + c == a + (b + c)
  {
  }

  /** Number of `-` at the start of `s`. */
  function LeadingDashes(s: string): (k: nat)
    ensures k <= |s|
    ensures forall i :: 0 <= i < k ==> s[i] == '-'
    ensures k < |s| ==> s[k] != '-'
  {
    if s != [] && s[0] == '-' then 1 + LeadingDashes(s[1..]) else 0
  }

  /** Number of `-` at the end of `s`. */
  function TrailingDashes(s: string): (k: nat)
    ensures k <= |s|
    ensures forall i :: |s| - k <= i < |s| ==> s[i] == '-'
    ensures k < |s| ==> s[|s| - k - 1] != '-'
  {
    if s != [] && s[|s| - 1] == '-' then 1 + TrailingDashes(s[..|s| - 1]) else 0
  }

  /** `.replace(/^-+|-+$/g, '')`: the input without the dashes at either
      end; what lies between is kept as it is. */
  function StripDashes(s: string): (r: string)
    ensures var k := LeadingDashes(s);
            && k + |r| <= |s| && r == Slice(s, k, |r|)
            && forall i :: k + |r| <= i < |s| ==> s[i] == '-'
    ensures r == [] || (r[0] != '-' && r[|r| - 1] != '-')
    ensures s == [] || (s[0] != '-' && s[|s| - 1] != '-') ==> r == s
  {
    var k := LeadingDashes(s);
    var t := s[k..];
    var n := |t| - TrailingDashes(t);
    SliceOfSuffix(s, k, n);
    t[..n]
  }

  /** Stripping the edge dashes removes no letter or digit and keeps a text
      of slug characters without double dashes so. */
  lemma StripDashesKeeps(s: string)
    ensures Alnums(StripDashes(s)) == Alnums(s)
    ensures SlugChars(s) ==> SlugChars(StripDashes(s))
    ensures NoDoubleDash(s) ==> NoDoubleDash(StripDashes(s))
  {
    var k := LeadingDashes(s);
    var t := s[k..];
    var n := |t| - TrailingDashes(t);
    DropPrefix(s, k);
    DropSuffix(t, n);
    SliceKeeps(s, k, n);
  }

  /** A well-formed slug: small letters, digits and single `-` between them. */
  ghost predicate IsSlug(s: string) {
    && SlugChars(s)
    && (s == [] || (s[0] != '-' && s[|s| - 1] != '-'))
    && NoDoubleDash(s)
  }

  /** `slugify(str)`: the result is a slug that keeps every ASCII letter (in
      small case) and digit of the input, in order. */
  function Slugify(s: string): (r: string)
    ensures IsSlug(r)
    ensures Alnums(r) == Alnums(Lower(s))
  {
    var lower := Lower(s);
    TrimKeeps(lower);
    var kept := KeepWordChars(Trim(lower));
    KeepWordCharsAlnums(Trim(lower));
    var collapsed := CollapseSeparators(kept);
    CollapseAlnums(kept);
    StripDashesKeeps(collapsed);
    StripDashes(collapsed)
  }

  /** A slug is left as it is. */
  lemma SlugIsFixedPoint(t: string)
    requires IsSlug(t)
    ensures Slugify(t) == t
  {
    SlugIsSlugText(t);
    calc {
      Slugify(t);
      StripDashes(CollapseSeparators(KeepWordChars(Trim(Lower(t)))));
      { LowerKeepsSlugText(t); }
      StripDashes(CollapseSeparators(KeepWordChars(Trim(t))));
      StripDashes(CollapseSeparators(KeepWordChars(t)));
      { FilterKeepsSlugText(t); }
      StripDashes(CollapseSeparators(t));
      { CollapseFixedPoint(t); }
      StripDashes(t);
      t;
    }
  }

  /** A slug is slug text with no white space or `-` at either end. */
  lemma SlugIsSlugText(t: string)
    requires IsSlug(t)
    ensures SlugText(t)
    ensures t == [] || (!IsWhite(t[0]) && !IsWhite(t[|t| - 1]))
  {
    if t != [] {
      assert IsSlugChar(t[0]) && IsSlugChar(t[|t| - 1]);
    }
  }

  /** Only slug characters and separators. */
  ghost predicate SlugText(t: string) {
    forall i :: 0 <= i < |t| ==> IsSlugChar(t[i]) || IsSeparator(t[i])
  }

  lemma LowerKeepsSlugText(t: string)
    requires SlugText(t)
    ensures Lower(t) == t
  {
    var lower := Lower(t);
    forall i | 0 <= i < |t| ensures lower[i] == t[i] {
      assert IsLowerAlnum(t[i]) || IsSeparator(t[i]);
    }
  }

  lemma FilterKeepsSlugText(t: string)
    requires SlugText(t)
    ensures KeepWordChars(t) == t
  {
    forall i | 0 <= i < |t| ensures IsKept(t[i]) {
      assert IsSlugChar(t[i]) || IsSeparator(t[i]);
    }
    KeepWordCharsFixedPoint(t);
  }

  /** Two slugs with a run of white space, `_` or `-` between them become
      one slug, the run replaced by a single `-`. */
  lemma SlugifyJoin(a: string, sep: string, b: string)
    requires IsSlug(a) && a != [] && IsSlug(b) && b != []
    requires sep != [] && AllSeparators(sep)
    ensures Slugify(a + sep + b) == a + "-" + b
  {
    var s := a + sep + b;
    JoinedSlugText(a, sep, b);
    NonEmptySlug(a);
    NonEmptySlug(b);
    calc {
      Slugify(s);
      StripDashes(CollapseSeparators(KeepWordChars(Trim(Lower(s)))));
      { LowerKeepsSlugText(s); }
      StripDashes(CollapseSeparators(KeepWordChars(Trim(s))));
      StripDashes(CollapseSeparators(KeepWordChars(s)));
      { FilterKeepsSlugText(s); }
      StripDashes(CollapseSeparators(s));
      { CollapseSplit(a, sep, b); }
      StripDashes(CollapseSeparators(a) + "-" + CollapseSeparators(b));
      StripDashes(a + "-" + b);
      { JoinedSlugText(a, "-", b); }
      a + "-" + b;
    }
  }

  /** A non-empty slug starts and ends with a letter or digit and is left
      as it is by the collapsing step. */
  lemma NonEmptySlug(a: string)
    requires IsSlug(a) && a != []
    ensures !IsSeparator(a[0]) && !IsSeparator(a[|a| - 1])
    ensures CollapseSeparators(a) == a
  {
    assert IsSlugChar(a[0]) && IsSlugChar(a[|a| - 1]);
    CollapseFixedPoint(a);
  }

  /** Slugs joined by separators: only slug characters and separators, and
      a letter or digit at either end. */
  lemma JoinedSlugText(a: string, sep: string, b: string)
    requires IsSlug(a) && a != [] && IsSlug(b) && b != []
    requires AllSeparators(sep)
    ensures var s := a + sep + b;
            SlugText(s) && IsLowerAlnum(s[0]) && IsLowerAlnum(s[|s| - 1])
  {
    var s := a + sep + b;
    assert IsSlugChar(a[0]) && IsSlugChar(b[|b| - 1]);
    assert s[0] == a[0] && s[|s| - 1] == b[|b| - 1];
    forall i | 0 <= i < |s| ensures IsSlugChar(s[i]) || IsSeparator(s[i]) {
      if i < |a| {
        assert s[i] == a[i];
      } else if i < |a| + |sep| {
        assert s[i] == sep[i - |a|];
      } else {
        assert s[i] == b[i - |a| - |sep|];
      }
    }
  }

  /** A run of small letters and digits. */
  ghost predicate Word(w: string) {
    w != [] && forall i :: 0 <= i < |w| ==> IsLowerAlnum(w[i])
  }

  /** Punctuation between two words is removed, not turned into a `-`:
      `slugify("a!b")` is `ab`. */
  lemma SlugifyDropsPunctuation(a: string, c: char, b: string)
    requires Word(a) && Word(b)
    requires !IsKept(c) && !('A' <= c <= 'Z') && c as int != 0x212A && c as int != 0x130
    ensures Slugify(a + [c] + b) == a + b
  {
    var s := a + [c] + b;
    PunctuatedFacts(a, c, b);
    calc {
      Slugify(s);
      StripDashes(CollapseSeparators(KeepWordChars(Trim(Lower(s)))));
      StripDashes(CollapseSeparators(KeepWordChars(Trim(s))));
      StripDashes(CollapseSeparators(KeepWordChars(s)));
      { KeepWordCharsAppend(a + [c], b); KeepWordCharsAppend(a, [c]); }
      StripDashes(CollapseSeparators(KeepWordChars(a) + KeepWordChars([c]) + KeepWordChars(b)));
      { KeepWordCharsFixedPoint(a); KeepWordCharsFixedPoint(b); }
      StripDashes(CollapseSeparators(a + [] + b));
      { assert a + [] + b == a + b; CollapseFixedPoint(a + b); }
      StripDashes(a + b);
      a + b;
    }
  }

  /** The facts about a punctuated pair of words that `slugify`'s steps use:
      lower-casing and trimming leave it as it is, the words' characters are
      kept by the filter, and the joined words hold no separator and have a
      letter or digit at either end. */
  lemma PunctuatedFacts(a: string, c: char, b: string)
    requires Word(a) && Word(b)
    requires !IsKept(c) && !('A' <= c <= 'Z') && c as int != 0x212A && c as int != 0x130
    ensures Lower(a + [c] + b) == a + [c] + b
    ensures Trim(a + [c] + b) == a + [c] + b
    ensures forall i :: 0 <= i < |a| ==> IsKept(a[i])
    ensures forall i :: 0 <= i < |b| ==> IsKept(b[i])
    ensures forall i :: 0 <= i < |a + b| ==> !IsSeparator((a + b)[i])
    ensures NoDoubleDash(a + b)
    ensures (a + b)[0] != '-' && (a + b)[|a + b| - 1] != '-'
  {
    LowerPunctuated(a, c, b);
    TrimPunctuated(a, c, b);
    JoinedWords(a, b);
  }

  lemma LowerPunctuated(a: string, c: char, b: string)
    requires Word(a) && Word(b)
    requires !('A' <= c <= 'Z') && c as int != 0x212A && c as int != 0x130
    ensures Lower(a + [c] + b) == a + [c] + b
  {
    var s := a + [c] + b;
    var lower := Lower(s);
    forall i | 0 <= i < |s| ensures lower[i] == s[i] {
      if i < |a| {
        assert s[i] == a[i];
      } else if i > |a| {
        assert s[i] == b[i - |a| - 1];
      }
    }
  }

  lemma TrimPunctuated(a: string, c: char, b: string)
    requires Word(a) && Word(b)
    ensures Trim(a + [c] + b) == a + [c] + b
  {
    var s := a + [c] + b;
    assert s[0] == a[0] && s[|s| - 1] == b[|b| - 1];
    assert IsLowerAlnum(a[0]) && IsLowerAlnum(b[|b| - 1]);
  }

  /** Two words side by side are a word. */
  lemma JoinedWords(a: string, b: string)
    requires Word(a) && Word(b)
    ensures Word(a + b)
  {
    var t := a + b;
    forall i | 0 <= i < |t| ensures IsLowerAlnum(t[i]) {
      if i < |a| {
        assert t[i] == a[i];
      } else {
        assert t[i] == b[i - |a|];
      }
    }
  }

  /** Slugifying twice is slugifying once. */
  lemma SlugifyIdempotent(s: string)
    ensures Slugify(Slugify(s)) == Slugify(s)
  {
    SlugIsFixedPoint(Slugify(s));
  }

  // ---------------------------------------------------------------------
  // capitalize and truncate

  /** `str.charAt(0).toUpperCase() + str.slice(1)`. */
  function Capitalize(s: string): (r: string)
    ensures |r| == |s|
    ensures s != [] ==> r[1..] == s[1..]
    ensures s != [] && 'a' <= s[0] <= 'z' ==> 'A' <= r[0] <= 'Z' && LowerChar(r[0]) == s[0]
    ensures s == [] || !('a' <= s[0] <= 'z') ==> r == s
  {
    if s == [] then [] else [UpperChar(s[0])] + s[1..]
  }

  /** Capitalising twice is capitalising once. */
  lemma CapitalizeIdempotent(s: string)
    ensures Capitalize(Capitalize(s)) == Capitalize(s)
  {
  }

  const DefaultTruncateLength := 50
  const Ellipsis := "..."

  /** `truncate(str, length = 50)`: a string longer than `length` is cut to
      its first `length` characters (none when `length` is negative) and
      marked with `...`; a shorter one is returned as it is. */
  function Truncate(s: string, length: Option<int>): (r: string)
    ensures var n := length.GetOr(DefaultTruncateLength);
            && (|s| <= n ==> r == s)
            && (|s| > n ==> |r| == (if n > 0 then n else 0) + 3
                            && r[..|r| - 3] <= s && r[|r| - 3..] == Ellipsis)
  {
    var n := length.GetOr(DefaultTruncateLength);
    if |s| > n then s[..if n > 0 then n else 0] + Ellipsis else s
  }

  /** Truncating twice to the same length is truncating once. */
  lemma TruncateIdempotent(s: string, length: Option<int>)
    ensures Truncate(Truncate(s, length), length) == Truncate(s, length)
  {
    var n := length.GetOr(DefaultTruncateLength);
    if |s| > n {
      var k := if n > 0 then n else 0;
      var t := s[..k] + Ellipsis;
      assert t[..k] == s[..k];
    }
  }
}
