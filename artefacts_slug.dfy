/** The slug suggested on the artefact form: the artefact's name lower-cased,
    stripped of everything but word characters and spaces, with each run of
    spaces turned into one dash, then with one run of dashes trimmed, the
    leading one if the text starts with a dash, else the trailing one.
    Characters are ASCII: `\w` is [A-Za-z0-9_]. */
module Slugs {
  import opened Support

  predicate IsUpper(c: char) { 'A' <= c <= 'Z' }

  /** `\w` in a JavaScript regular expression without the `u` flag. */
  predicate IsWordChar(c: char) {
    'a' <= c <= 'z' || 'A' <= c <= 'Z' || '0' <= c <= '9' || c == '_'
  }

  predicate IsWordOrSpace(c: char) { IsWordChar(c) || c == ' ' }
  predicate NotSpace(c: char) { c != ' ' }
  predicate NotDash(c: char) { c != '-' }

  /** What a slug may be made of: lower-case word characters and dashes. */
  predicate IsSlugChar(c: char) {
    'a' <= c <= 'z' || '0' <= c <= '9' || c == '_' || c == '-'
  }

  /** No two dashes side by side. */
  predicate NoDoubleDash(s: string) {
    forall i :: 0 <= i < |s| - 1 ==> !(s[i] == '-' && s[i + 1] == '-')
  }

  function LowerChar(c: char): (d: char)
    ensures !IsUpper(d)
    ensures IsUpper(c) ==> d as int == c as int + 32
    ensures !IsUpper(c) ==> d == c
  {
    if IsUpper(c) then (c as int + 32) as char else c
  }

  /** `toLowerCase`, on ASCII letters. */
  function Lower(s: string): (r: string)
    ensures |r| == |s|
    ensures forall i :: 0 <= i < |s| ==> r[i] == LowerChar(s[i])
  {
    if s == [] then [] else [LowerChar(s[0])] + Lower(s[1..])
  }

  /** The characters of `s` that satisfy `p`, in order. */
  function Keep(s: string, p: char -> bool): (r: string)
    ensures |r| <= |s|
    ensures forall i :: 0 <= i < |r| ==> p(r[i])
    ensures forall c :: c in r <==> c in s && p(c)
  {
    if s == [] then [] else (if p(s[0]) then [s[0]] else []) + Keep(s[1..], p)
  }

  lemma {:induction false} KeepAppend(a: string, b: string, p: char -> bool)
    ensures Keep(a + b, p) == Keep(a, p) + Keep(b, p)
  {
    if a == [] {
      assert a + b == b;
    } else {
      assert (a + b)[1..] == a[1..] + b;
      KeepAppend(a[1..], b, p);
    }
  }

  /** Keeping by `p` and then by `q` keeps by both. */
  lemma {:induction false} KeepKeep(s: string, p: char -> bool, q: char -> bool, both: char -> bool)
    requires forall c :: both(c) == (p(c) && q(c))
    ensures Keep(Keep(s, p), q) == Keep(s, both)
  {
    if s != [] {
      KeepKeep(s[1..], p, q, both);
      var rest := Keep(s[1..], p);
      assert Keep(s, both) == (if both(s[0]) then [s[0]] else []) + Keep(s[1..], both);
      if p(s[0]) {
        assert Keep(s, p) == [s[0]] + rest;
        KeepCons(s[0], rest, q);
      } else {
        assert Keep(s, p) == rest;
      }
    }
  }

  /** One step of `Keep`, on a text written as its first character and the rest. */
  lemma KeepCons(c: char, s: string, p: char -> bool)
    ensures Keep([c] + s, p) == (if p(c) then [c] else []) + Keep(s, p)
  {
    assert ([c] + s)[0] == c && ([c] + s)[1..] == s;
  }

  /** `.replace(/[^\w ]+/g, '')`. */
  function StripNonWord(s: string): (r: string)
    ensures forall c :: c in r <==> c in s && IsWordOrSpace(c)
  {
    Keep(s, IsWordOrSpace)
  }

  /** `s` without its leading spaces. */
  function DropSpaces(s: string): (r: string)
    ensures |r| <= |s|
    ensures r == [] || r[0] != ' '
    ensures forall c :: c in r ==> c in s
  {
    if s != [] && s[0] == ' ' then DropSpaces(s[1..]) else s
  }

  /** What `DropSpaces` removes is exactly a leading run of spaces. */
  lemma {:induction false} DropSpacesSuffix(s: string)
    ensures var r := DropSpaces(s);
      && r == s[|s| - |r|..]
      && forall i :: 0 <= i < |s| - |r| ==> s[i] == ' '
    decreases |s|
  {
    if s != [] && s[0] == ' ' {
      DropSpacesSuffix(s[1..]);
      var r := DropSpaces(s);
      assert s[1..][|s| - 1 - |r|..] == s[|s| - |r|..];
      assert forall i :: 1 <= i < |s| - |r| ==> s[i] == s[1..][i - 1];
    }
  }

  /** `.replace(/ +/g, '-')`: each maximal run of spaces becomes one dash
      (`DashSpacesRun`), and the text between runs is kept (`DashSpacesAppend`). */
  function DashSpaces(s: string): (r: string)
    ensures ' ' !in r
    ensures forall c :: c in r ==> c == '-' || c in s
    decreases |s|
  {
    if s == [] then []
    else if s[0] == ' ' then "-" + DashSpaces(DropSpaces(s[1..]))
    else [s[0]] + DashSpaces(s[1..])
  }

  /** `s` without its leading run of `c`. */
  function DropLeading(s: string, c: char): (r: string)
    ensures |r| <= |s| && r == s[|s| - |r|..]
    ensures forall i :: 0 <= i < |s| - |r| ==> s[i] == c
    ensures r == [] || r[0] != c
  {
    if s != [] && s[0] == c then DropLeading(s[1..], c) else s
  }

  /** `s` without its trailing run of `c`. */
  function DropTrailing(s: string, c: char): (r: string)
    ensures |r| <= |s| && r == s[..|r|]
    ensures forall i :: |r| <= i < |s| ==> s[i] == c
    ensures r == [] || r[|r| - 1] != c
  {
    if s != [] && s[|s| - 1] == c then DropTrailing(s[..|s| - 1], c) else s
  }

  /** `.replace(/^-+|-+$/, '')` with no `g` flag: the first match only, which
      is the leading dash run when there is one, else the trailing run. */
  function TrimDashes(s: string): (r: string)
    ensures |r| <= |s| && (r == s[|s| - |r|..] || r == s[..|r|])
    ensures r == [] || r[0] != '-'
    ensures s != [] && s[0] == '-' ==>
      && r == s[|s| - |r|..]
      && forall i :: 0 <= i < |s| - |r| ==> s[i] == '-'
    ensures (s == [] || s[0] != '-') ==>
      && r == s[..|r|]
      && (r == [] || r[|r| - 1] != '-')
      && forall i :: |r| <= i < |s| ==> s[i] == '-'
  {
    if s != [] && s[0] == '-' then DropLeading(s, '-') else DropTrailing(s, '-')
  }

  /** The slug `generateSlug` computes from a title. */
  function Slug(title: string): string {
    TrimDashes(DashSpaces(StripNonWord(Lower(title))))
  }

  // ----- What a slug is made of -----

  /** Turning space runs into dashes keeps the other characters and adds
      only dashes; without dashes in its input it never puts two side by
      side, and it starts with a dash exactly when the input starts with a space. */
  lemma {:induction false} DashSpacesShape(s: string)
    requires '-' !in s
    ensures var r := DashSpaces(s);
      && (forall c :: c in r ==> c == '-' || (c in s && c != ' '))
      && NoDoubleDash(r)
      && (r != [] && r[0] == '-' <==> s != [] && s[0] == ' ')
      && (r == [] <==> s == [])
    decreases |s|
  {
    if s != [] {
      if s[0] == ' ' {
        var rest := DropSpaces(s[1..]);
        assert forall c :: c in s[1..] ==> c in s;
        DashSpacesShape(rest);
      } else {
        assert forall c :: c in s[1..] ==> c in s;
        DashSpacesShape(s[1..]);
      }
    }
  }

  /** A slice of a text without double dashes has none either. */
  lemma SliceNoDoubleDash(s: string, a: nat, b: nat)
    requires a <= b <= |s| && NoDoubleDash(s)
    ensures NoDoubleDash(s[a..b])
  {
    var t := s[a..b];
    forall i | 0 <= i < |t| - 1 ensures !(t[i] == '-' && t[i + 1] == '-') {
      assert t[i] == s[a + i] && t[i + 1] == s[a + i + 1];
    }
  }

  /** Every character of a slice comes from the text it is cut from. */
  lemma SliceMembers(s: string, a: nat, b: nat)
    requires a <= b <= |s|
    ensures forall c :: c in s[a..b] ==> c in s
  {
    forall c | c in s[a..b] ensures c in s {
      var i :| 0 <= i < b - a && s[a..b][i] == c;
      assert s[a + i] == c;
    }
  }

  /** Trimming removes one dash run and keeps the rest as it was. */
  lemma TrimDashesShape(s: string)
    requires NoDoubleDash(s)
    ensures var r := TrimDashes(s);
      && NoDoubleDash(r)
      && (forall c :: c in r ==> c in s)
      && (r == [] || r[0] != '-')
  {
    var r := TrimDashes(s);
    if s != [] && s[0] == '-' {
      assert r == DropLeading(s, '-');
      var a := |s| - |r|;
      assert r == s[a..|s|];
      SliceNoDoubleDash(s, a, |s|);
      SliceMembers(s, a, |s|);
    } else {
      assert r == DropTrailing(s, '-');
      assert r == s[0..|r|];
      SliceNoDoubleDash(s, 0, |r|);
      SliceMembers(s, 0, |r|);
    }
  }

  /** A generated slug holds only lower-case word characters and dashes (so
      no space), never two dashes side by side, and never starts with a dash. */
  lemma SlugShape(title: string)
    ensures forall c :: c in Slug(title) ==> IsSlugChar(c)
    ensures ' ' !in Slug(title)
    ensures NoDoubleDash(Slug(title))
    ensures Slug(title) == [] || Slug(title)[0] != '-'
  {
    var lower := Lower(title);
    assert forall c :: c in lower ==> !IsUpper(c) by {
      forall c | c in lower ensures !IsUpper(c) {
        var i :| 0 <= i < |lower| && lower[i] == c;
      }
    }
    var words := StripNonWord(lower);
    DashSpacesShape(words);
    TrimDashesShape(DashSpaces(words));
  }

  /** Only the leading run is trimmed when both ends hold one: " a " gives "a-". */
  lemma SlugOfSpacedLetter()
    ensures Slug(" a ") == "a-"
  {
    assert Lower(" a ") == " a ";
    assert StripNonWord(" a ") == " a ";
    assert DropSpaces(" ") == [];
    assert DashSpaces(" ") == "-";
    assert DashSpaces("a ") == "a-";
    assert DropSpaces("a ") == "a ";
    assert DashSpaces(" a ") == "-a-";
    assert DropLeading("a-", '-') == "a-";
    assert DropLeading("-a-", '-') == "a-";
  }

  // ----- Where the dashes go -----

  /** `n` spaces. */
  function Spaces(n: nat): (r: string)
    ensures |r| == n && forall i :: 0 <= i < n ==> r[i] == ' '
  {
    seq(n, _ => ' ')
  }

  /** Two texts that meet outside a run of spaces: cutting between them
      splits no run. */
  predicate Joinable(a: string, b: string) {
    a == [] || b == [] || a[|a| - 1] != ' ' || b[0] != ' '
  }

  /** Dropping the leading spaces of `a + b` drops those of `a`, and those of
      `b` too when `a` is all spaces. */
  lemma {:induction false} DropSpacesAppend(a: string, b: string)
    ensures DropSpaces(a) != [] ==> DropSpaces(a + b) == DropSpaces(a) + b
    ensures DropSpaces(a) == [] ==> DropSpaces(a + b) == DropSpaces(b)
    decreases |a|
  {
    if a == [] {
      assert a + b == b;
    } else if a[0] == ' ' {
      assert (a + b)[0] == ' ' && (a + b)[1..] == a[1..] + b;
      assert DropSpaces(a + b) == DropSpaces(a[1..] + b);
      assert DropSpaces(a) == DropSpaces(a[1..]);
      DropSpacesAppend(a[1..], b);
    } else {
      assert (a + b)[0] == a[0];
      assert DropSpaces(a + b) == a + b;
    }
  }

  /** Dropping leading spaces from a text that is not all spaces keeps its last character. */
  lemma DropSpacesLast(s: string)
    requires DropSpaces(s) != []
    ensures DropSpaces(s)[|DropSpaces(s)| - 1] == s[|s| - 1]
  {
    DropSpacesSuffix(s);
  }

  /** Dashing spaces works piece by piece wherever the cut splits no run of spaces. */
  lemma {:induction false} DashSpacesAppend(a: string, b: string)
    requires Joinable(a, b)
    ensures DashSpaces(a + b) == DashSpaces(a) + DashSpaces(b)
    decreases |a|, 1
  {
    if a == [] {
      assert a + b == b;
    } else if b == [] {
      assert a + b == a;
    } else if a[0] == ' ' {
      AppendAfterSpace(a, b);
    } else {
      AppendAfterWord(a, b);
    }
  }

  /** `DashSpacesAppend` when `a` starts with a space. */
  lemma {:induction false} AppendAfterSpace(a: string, b: string)
    requires a != [] && b != [] && a[0] == ' ' && Joinable(a, b)
    ensures DashSpaces(a + b) == DashSpaces(a) + DashSpaces(b)
    decreases |a|, 0
  {
    var tail := a[1..];
    var rest := DropSpaces(tail);
    if rest == [] {
      AppendAfterSpaces(a, b);
    } else {
      assert DashSpaces(a + b) == "-" + DashSpaces(rest + b) by {
        assert (a + b)[0] == ' ' && (a + b)[1..] == tail + b;
        DropSpacesAppend(tail, b);
      }
      assert DashSpaces(rest + b) == DashSpaces(rest) + DashSpaces(b) by {
        DropSpacesLast(tail);
        assert tail[|tail| - 1] == a[|a| - 1];
        DashSpacesAppend(rest, b);
      }
      SnocRegroup(DashSpaces(a), "-", DashSpaces(rest), DashSpaces(b));
    }
  }

  /** `DashSpacesAppend` when `a` is all spaces, so `b` starts with none. */
  lemma AppendAfterSpaces(a: string, b: string)
    requires a != [] && b != [] && a[0] == ' ' && DropSpaces(a[1..]) == [] && Joinable(a, b)
    ensures DashSpaces(a + b) == DashSpaces(a) + DashSpaces(b)
  {
    var tail := a[1..];
    assert a[|a| - 1] == ' ' by {
      DropSpacesSuffix(tail);
      if |a| > 1 { assert a[|a| - 1] == tail[|a| - 2]; }
    }
    assert (a + b)[0] == ' ' && (a + b)[1..] == tail + b;
    DropSpacesAppend(tail, b);
    assert DropSpaces(tail + b) == b;
    assert DashSpaces(a) == "-";
  }

  /** One step of `DashSpaces` over a character that is not a space. */
  lemma DashSpacesWordStep(c: char, s: string)
    requires c != ' '
    ensures DashSpaces([c] + s) == [c] + DashSpaces(s)
  {
    assert ([c] + s)[0] == c && ([c] + s)[1..] == s;
  }

  /** One word character in front of a joinable pair keeps it joinable. */
  lemma WordStepJoin(c: char, t: string, b: string)
    requires c != ' '
    requires DashSpaces(t + b) == DashSpaces(t) + DashSpaces(b)
    ensures DashSpaces([c] + (t + b)) == DashSpaces([c] + t) + DashSpaces(b)
  {
    DashSpacesWordStep(c, t + b);
    DashSpacesWordStep(c, t);
  }

  /** `DashSpacesAppend` when `a` starts with anything but a space. */
  lemma {:induction false} AppendAfterWord(a: string, b: string)
    requires a != [] && b != [] && a[0] != ' ' && Joinable(a, b)
    ensures DashSpaces(a + b) == DashSpaces(a) + DashSpaces(b)
    decreases |a|, 0
  {
    var c, tail := a[0], a[1..];
    assert a == [c] + tail && a + b == [c] + (tail + b);
    assert DashSpaces(tail + b) == DashSpaces(tail) + DashSpaces(b) by {
      assert Joinable(tail, b) by {
        if tail != [] { assert tail[|tail| - 1] == a[|a| - 1]; }
      }
      DashSpacesAppend(tail, b);
    }
    WordStepJoin(c, tail, b);
  }

  /** A text without spaces passes through unchanged. */
  lemma {:induction false} DashSpacesNoSpace(s: string)
    requires ' ' !in s
    ensures DashSpaces(s) == s
    decreases |s|
  {
    if s != [] {
      assert ' ' !in s[1..];
      DashSpacesNoSpace(s[1..]);
    }
  }

  /** A run of one or more spaces becomes one dash. */
  lemma SpaceRunDash(n: nat)
    requires n > 0
    ensures DashSpaces(Spaces(n)) == "-"
  {
    DropSpacesSuffix(Spaces(n)[1..]);
    assert DropSpaces(Spaces(n)[1..]) == [];
  }

  /** Each maximal run of spaces becomes one dash: a run between two texts
      that do not end or start with a space is replaced by exactly "-". */
  lemma DashSpacesRun(a: string, n: nat, b: string)
    requires n > 0
    requires a == [] || a[|a| - 1] != ' '
    requires b == [] || b[0] != ' '
    ensures DashSpaces(a + Spaces(n) + b) == DashSpaces(a) + "-" + DashSpaces(b)
  {
    var sp := Spaces(n);
    DashSpacesAppend(a, sp);
    DashSpacesAppend(a + sp, b);
    SpaceRunDash(n);
  }

  /** Keeping every character of a text whose characters all pass keeps the text. */
  lemma {:induction false} KeepAll(s: string, p: char -> bool)
    requires forall i :: 0 <= i < |s| ==> p(s[i])
    ensures Keep(s, p) == s
  {
    if s != [] {
      KeepAll(s[1..], p);
    }
  }

  /** Lower-casing works character by character, so piece by piece. */
  lemma LowerAppend(a: string, b: string)
    ensures Lower(a + b) == Lower(a) + Lower(b)
  {
    assert forall i :: 0 <= i < |a + b| ==> Lower(a + b)[i] == (Lower(a) + Lower(b))[i];
  }

  /** Trimming leaves a text that neither starts nor ends with a dash as it is. */
  lemma TrimDashesNoEndDash(s: string)
    requires s != [] && s[0] != '-' && s[|s| - 1] != '-'
    ensures TrimDashes(s) == s
  {
  }

  /** Lower-casing keeps word characters word characters. */
  lemma LowerWord(a: string)
    requires forall i :: 0 <= i < |a| ==> IsWordChar(a[i])
    ensures forall i :: 0 <= i < |a| ==> IsWordChar(Lower(a)[i])
  {
  }

  /** Words separated by spaces lose nothing to lower-casing and stripping. */
  lemma StripSpacedWords(a: string, n: nat, b: string)
    requires forall i :: 0 <= i < |a| ==> IsWordChar(a[i])
    requires forall i :: 0 <= i < |b| ==> IsWordChar(b[i])
    ensures StripNonWord(Lower(a + Spaces(n) + b)) == Lower(a) + Spaces(n) + Lower(b)
  {
    var sp := Spaces(n);
    assert Lower(sp) == sp;
    LowerAppend(a, sp);
    LowerAppend(a + sp, b);
    LowerWord(a);
    LowerWord(b);
    var lowered := Lower(a) + sp + Lower(b);
    assert forall i :: 0 <= i < |lowered| ==> IsWordOrSpace(lowered[i]);
    KeepAll(lowered, IsWordOrSpace);
  }

  /** Two words separated by a run of spaces give the two words lower-cased,
      joined by a single dash: "Tax  Return" gives "tax-return". */
  lemma SlugOfTwoWords(a: string, n: nat, b: string)
    requires a != [] && b != [] && n > 0
    requires forall i :: 0 <= i < |a| ==> IsWordChar(a[i])
    requires forall i :: 0 <= i < |b| ==> IsWordChar(b[i])
    ensures Slug(a + Spaces(n) + b) == Lower(a) + "-" + Lower(b)
  {
    var la, lb := Lower(a), Lower(b);
    StripSpacedWords(a, n, b);
    LowerWord(a);
    LowerWord(b);
    DashSpacesRun(la, n, lb);
    assert ' ' !in la && ' ' !in lb;
    DashSpacesNoSpace(la);
    DashSpacesNoSpace(lb);
    var r := la + "-" + lb;
    assert r[0] == la[0] && r[|r| - 1] == lb[|lb| - 1];
    TrimDashesNoEndDash(r);
  }

  /** A lower-cased word has no space and no dash at either end. */
  lemma LowerWordEnds(a: string)
    requires a != [] && forall i :: 0 <= i < |a| ==> IsWordChar(a[i])
    ensures var la := Lower(a);
      && la != [] && la[0] != '-' && la[|la| - 1] != '-' && ' ' !in la
  {
    LowerWord(a);
  }

  /** A word followed by spaces loses nothing to lower-casing and stripping. */
  lemma StripWordThenSpaces(a: string, n: nat)
    requires forall i :: 0 <= i < |a| ==> IsWordChar(a[i])
    ensures StripNonWord(Lower(a + Spaces(n))) == Lower(a) + Spaces(n)
  {
    var sp := Spaces(n);
    assert a + sp + [] == a + sp;
    assert Lower(a) + sp + Lower([]) == Lower(a) + sp;
    StripSpacedWords(a, n, []);
  }

  /** Lower-casing leaves a run of spaces as it is. */
  lemma LowerSpacesThenWord(n: nat, a: string)
    ensures Lower(Spaces(n) + a) == Spaces(n) + Lower(a)
  {
    assert Lower(Spaces(n)) == Spaces(n);
    LowerAppend(Spaces(n), a);
  }

  /** Stripping keeps a run of spaces followed by word characters whole. */
  lemma KeepSpacesThenWord(n: nat, w: string)
    requires forall i :: 0 <= i < |w| ==> IsWordChar(w[i])
    ensures Keep(Spaces(n) + w, IsWordOrSpace) == Spaces(n) + w
  {
    var t := Spaces(n) + w;
    assert forall i :: 0 <= i < |t| ==> IsWordOrSpace(t[i]);
    KeepAll(t, IsWordOrSpace);
  }

  /** Spaces followed by a word lose nothing to lower-casing and stripping. */
  lemma StripSpacesThenWord(n: nat, a: string)
    requires forall i :: 0 <= i < |a| ==> IsWordChar(a[i])
    ensures StripNonWord(Lower(Spaces(n) + a)) == Spaces(n) + Lower(a)
  {
    LowerSpacesThenWord(n, a);
    LowerWord(a);
    KeepSpacesThenWord(n, Lower(a));
  }

  /** A text without spaces followed by a run of spaces gets one trailing dash. */
  lemma DashWordThenSpaces(w: string, n: nat)
    requires n > 0 && ' ' !in w
    ensures DashSpaces(w + Spaces(n)) == w + "-"
  {
    var sp := Spaces(n);
    assert w + sp + [] == w + sp;
    assert w == [] || w[|w| - 1] != ' ';
    DashSpacesRun(w, n, []);
    DashSpacesNoSpace(w);
  }

  /** A run of spaces followed by a text without spaces gets one leading dash. */
  lemma DashSpacesThenWord(n: nat, w: string)
    requires n > 0 && ' ' !in w
    ensures DashSpaces(Spaces(n) + w) == "-" + w
  {
    var sp := Spaces(n);
    assert w == [] || w[0] != ' ';
    DashSpacesAppend(sp, w);
    SpaceRunDash(n);
    DashSpacesNoSpace(w);
  }

  /** Spaces after a word give a trailing dash, and trimming removes it:
      "Tax " gives "tax". */
  lemma SlugOfTrailingSpaces(a: string, n: nat)
    requires a != [] && n > 0
    requires forall i :: 0 <= i < |a| ==> IsWordChar(a[i])
    ensures Slug(a + Spaces(n)) == Lower(a)
  {
    LowerWordEnds(a);
    StripWordThenSpaces(a, n);
    DashWordThenSpaces(Lower(a), n);
    TrimDashesDropsEndDash(Lower(a));
  }

  /** Spaces before a word give a leading dash, and trimming removes it:
      " tax" gives "tax". */
  lemma SlugOfLeadingSpaces(n: nat, a: string)
    requires a != [] && n > 0
    requires forall i :: 0 <= i < |a| ==> IsWordChar(a[i])
    ensures Slug(Spaces(n) + a) == Lower(a)
  {
    LowerWordEnds(a);
    StripSpacesThenWord(n, a);
    DashSpacesThenWord(n, Lower(a));
    TrimDashesDropsStartDash(Lower(a));
  }

  /** A dash after a text that neither starts nor ends with one is trimmed. */
  lemma TrimDashesDropsEndDash(w: string)
    requires w != [] && w[0] != '-' && w[|w| - 1] != '-'
    ensures TrimDashes(w + "-") == w
  {
    var s, r := w + "-", TrimDashes(w + "-");
    assert s[0] == w[0];
    assert r == s[..|w|] == w;
  }

  /** A dash before a text that neither starts nor ends with one is trimmed. */
  lemma TrimDashesDropsStartDash(w: string)
    requires w != [] && w[0] != '-' && w[|w| - 1] != '-'
    ensures TrimDashes("-" + w) == w
  {
    var s, r := "-" + w, TrimDashes("-" + w);
    assert r == s[1..] == w;
  }

  // ----- What a slug keeps of the title -----

  lemma {:induction false} KeepDropSpaces(s: string, p: char -> bool)
    requires !p(' ')
    ensures Keep(DropSpaces(s), p) == Keep(s, p)
    decreases |s|
  {
    if s != [] && s[0] == ' ' {
      KeepDropSpaces(s[1..], p);
    }
  }

  /** With the dashes taken out, dashing spaces is dropping spaces. */
  lemma {:induction false} DashSpacesContent(s: string)
    requires '-' !in s
    ensures Keep(DashSpaces(s), NotDash) == Keep(s, NotSpace)
    decreases |s|
  {
    if s != [] {
      if s[0] == ' ' {
        var rest := DropSpaces(s[1..]);
        assert '-' !in s[1..];
        DashSpacesContent(rest);
        KeepAppend("-", DashSpaces(rest), NotDash);
        KeepDropSpaces(s[1..], NotSpace);
      } else {
        assert '-' !in s[1..];
        DashSpacesContent(s[1..]);
        KeepAppend([s[0]], DashSpaces(s[1..]), NotDash);
      }
    }
  }

  /** A text made of dashes only keeps nothing once dashes are taken out. */
  lemma {:induction false} KeepAllDashes(s: string)
    requires forall i :: 0 <= i < |s| ==> s[i] == '-'
    ensures Keep(s, NotDash) == []
  {
    if s != [] {
      KeepAllDashes(s[1..]);
    }
  }

  /** Trimming removes dashes only. */
  lemma TrimDashesContent(s: string)
    ensures Keep(TrimDashes(s), NotDash) == Keep(s, NotDash)
  {
    var r := TrimDashes(s);
    if s != [] && s[0] == '-' {
      var k := |s| - |r|;
      assert s == s[..k] + r;
      KeepAppend(s[..k], r, NotDash);
      KeepAllDashes(s[..k]);
    } else {
      var k := |r|;
      assert s == r + s[k..];
      KeepAppend(r, s[k..], NotDash);
      KeepAllDashes(s[k..]);
    }
  }

  /** A slug with its dashes taken out is exactly the word characters of the
      lower-cased title, in order: nothing else is dropped, added or moved. */
  lemma SlugContent(title: string)
    ensures Keep(Slug(title), NotDash) == Keep(Lower(title), IsWordChar)
  {
    var lower := Lower(title);
    var words := StripNonWord(lower);
    var dashed := DashSpaces(words);
    assert Slug(title) == TrimDashes(dashed);
    TrimDashesContent(dashed);
    assert '-' !in words;
    DashSpacesContent(words);
    assert words == Keep(lower, IsWordOrSpace);
    KeepKeep(lower, IsWordOrSpace, NotSpace, IsWordChar);
  }

  /** The slug field of the artefact form. `blankByDefault` is captured once,
      at page load: true when the field's `value` attribute is anything but
      the empty string (an absent attribute included). */
  class ArtefactForm {
    const blankByDefault: bool
    var slug: string

    /** `valueAttribute` is the field's `value` attribute at page load, None
        when absent; `slug` is what the field holds. */
    constructor (valueAttribute: Option<string>, slug: string)
      ensures blankByDefault <==> valueAttribute != Some("")
      ensures this.slug == slug
    {
      blankByDefault := valueAttribute != Some("");
      this.slug := slug;
    }

    /** `generateSlug`, run on each change or keyup of the name field with
        the name's current `title`. */
    method GenerateSlug(title: string)
      modifies this
      ensures blankByDefault ==> slug == old(slug)
      ensures !blankByDefault ==> slug == Slug(title)
    {
      if blankByDefault {
        return;
      }
      slug := Slug(title);
    }
  }
}
