/** The category slug rule of routes/categories.js:
      name.toLowerCase().replace(/\s+/g, '-').replace(/[^a-z0-9-]/g, '')
    Case mapping is modelled for ASCII letters only; the whitespace class is
    JavaScript's `\s` in full. */
module Slug {

  /** The characters JavaScript's `\s` matches: the ECMAScript WhiteSpace and
      LineTerminator characters. */
  predicate IsSpace(c: char) {
    || c in {'\t', '\n', '\U{0B}', '\U{0C}', '\r', ' ', '\U{A0}', '\U{1680}'}
    || ('\U{2000}' <= c <= '\U{200A}')
    || c in {'\U{2028}', '\U{2029}', '\U{202F}', '\U{205F}', '\U{3000}', '\U{FEFF}'}
  }

  predicate AllSpace(w: string) {
    forall i :: 0 <= i < |w| ==> IsSpace(w[i])
  }

  predicate IsUpper(c: char) {
    'A' <= c <= 'Z'
  }

  /** The characters that survive `/[^a-z0-9-]/g`. */
  predicate Allowed(c: char) {
    'a' <= c <= 'z' || '0' <= c <= '9' || c == '-'
  }

  function LowerChar(c: char): (d: char)
    ensures IsSpace(d) <==> IsSpace(c)
    ensures Allowed(d) <==> IsUpper(c) || Allowed(c)
    ensures Allowed(c) ==> d == c
  {
    if IsUpper(c) then (c as int + 32) as char else c
  }

  /** `String.prototype.toLowerCase`, on ASCII letters. */
  function ToLowerCase(s: string): (r: string)
    ensures |r| == |s|
    ensures forall i :: 0 <= i < |s| ==> r[i] == LowerChar(s[i])
  {
    if s == [] then [] else [LowerChar(s[0])] + ToLowerCase(s[1..])
  }

  /** `s` with its leading run of whitespace removed. */
  function DropSpaces(s: string): (r: string)
    ensures |r| <= |s|
    ensures r == [] || !IsSpace(r[0])
  {
    if s != [] && IsSpace(s[0]) then DropSpaces(s[1..]) else s
  }

  /** `.replace(/\s+/g, '-')`. */
  function DashSpaces(s: string): string
    decreases |s|
  {
    if s == [] then []
    else if IsSpace(s[0]) then "-" + DashSpaces(DropSpaces(s[1..]))
    else [s[0]] + DashSpaces(s[1..])
  }

  /** `.replace(/[^a-z0-9-]/g, '')`. */
  function KeepAllowed(s: string): (r: string)
    ensures forall c :: c in r ==> Allowed(c)
  {
    if s == [] then []
    else (if Allowed(s[0]) then [s[0]] else []) + KeepAllowed(s[1..])
  }

  /** The slug routes/categories.js stores for a category name. Every
      character of it is a lower-case ASCII letter, a digit or `-`, so it
      holds no whitespace. */
  function Slugify(name: string): (slug: string)
    ensures forall c :: c in slug ==> Allowed(c) && !IsSpace(c)
  {
    KeepAllowed(DashSpaces(ToLowerCase(name)))
  }

  /** A one-pass reading of the rule: lower-cased letters, digits and hyphens
      are kept in order, each whitespace run gives one `-`, everything else
      is dropped. */
  function SlugSpec(s: string): string
    decreases |s|
  {
    if s == [] then []
    else if IsSpace(s[0]) then "-" + SlugSpec(DropSpaces(s[1..]))
    else if IsUpper(s[0]) || Allowed(s[0]) then [LowerChar(s[0])] + SlugSpec(s[1..])
    else SlugSpec(s[1..])
  }

  // ---------------------------------------------------------------- helpers

  lemma {:induction false} KeepAllowedAppend(a: string, b: string)
    ensures KeepAllowed(a + b) == KeepAllowed(a) + KeepAllowed(b)
  {
    if a == [] {
      assert a + b == b;
    } else {
      assert (a + b)[1..] == a[1..] + b;
      KeepAllowedAppend(a[1..], b);
    }
  }

  lemma {:induction false} KeepAllowedIdentity(s: string)
    requires forall c :: c in s ==> Allowed(c)
    ensures KeepAllowed(s) == s
  {
    if s != [] {
      assert s[0] in s;
      assert forall c :: c in s[1..] ==> c in s;
      KeepAllowedIdentity(s[1..]);
    }
  }

  lemma ToLowerCaseAppend(a: string, b: string)
    ensures ToLowerCase(a + b) == ToLowerCase(a) + ToLowerCase(b)
  {
    var l, r := ToLowerCase(a + b), ToLowerCase(a) + ToLowerCase(b);
    assert |l| == |r|;
    forall i | 0 <= i < |l| ensures l[i] == r[i] {
      if i < |a| { assert (a + b)[i] == a[i]; } else { assert (a + b)[i] == b[i - |a|]; }
    }
  }

  lemma {:induction false} DashSpacesNoSpace(s: string)
    requires forall c :: c in s ==> !IsSpace(c)
    ensures DashSpaces(s) == s
  {
    if s != [] {
      assert s[0] in s;
      assert forall c :: c in s[1..] ==> c in s;
      DashSpacesNoSpace(s[1..]);
    }
  }

  lemma {:induction false} DropKeepsLast(s: string)
    requires DropSpaces(s) != []
    ensures DropSpaces(s)[|DropSpaces(s)| - 1] == s[|s| - 1]
  {
    if s != [] && IsSpace(s[0]) {
      DropKeepsLast(s[1..]);
    }
  }

  lemma LastSurvivesDrop(s: string)
    requires |s| > 0 && !IsSpace(s[|s| - 1])
    ensures |DropSpaces(s)| > 0
    ensures DropSpaces(s)[|DropSpaces(s)| - 1] == s[|s| - 1]
  {
    if IsSpace(s[0]) {
      LastSurvivesDrop(s[1..]);
    }
  }

  /** Dropping a whitespace run that ends inside `a` leaves `b` alone. */
  lemma {:induction false} DropSpacesAppend(a: string, b: string)
    requires |a| > 0 && !IsSpace(a[|a| - 1])
    ensures DropSpaces(a + b) == DropSpaces(a) + b
  {
    if IsSpace(a[0]) {
      assert (a + b)[1..] == a[1..] + b;
      DropSpacesAppend(a[1..], b);
    }
  }

  lemma {:induction false} DropSpacesAllSpace(w: string, y: string)
    requires AllSpace(w)
    requires y == [] || !IsSpace(y[0])
    ensures DropSpaces(w + y) == y
  {
    if w != [] {
      assert (w + y)[1..] == w[1..] + y;
      DropSpacesAllSpace(w[1..], y);
    }
  }

  lemma {:induction false} DropSpacesLower(t: string)
    ensures DropSpaces(ToLowerCase(t)) == ToLowerCase(DropSpaces(t))
  {
    if t != [] && IsSpace(t[0]) {
      assert ToLowerCase(t)[1..] == ToLowerCase(t[1..]);
      DropSpacesLower(t[1..]);
    }
  }

  /** A whitespace run at the front becomes one hyphen. */
  lemma DashSpacesLeadingRun(w: string, y: string)
    requires |w| > 0 && AllSpace(w)
    requires y == [] || !IsSpace(y[0])
    ensures DashSpaces(w + y) == "-" + DashSpaces(y)
  {
    var t := w + y;
    assert t[0] == w[0];
    assert t[1..] == w[1..] + y;
    DropSpacesAllSpace(w[1..], y);
  }

  // ------------------------------------------------------------ properties

  /** A maximal whitespace run `w` between `x` and `y` becomes exactly one
      hyphen, and the text on each side is rewritten independently. */
  lemma {:induction false} DashSpacesRun(x: string, w: string, y: string)
    requires x == [] || !IsSpace(x[|x| - 1])
    requires |w| > 0 && AllSpace(w)
    requires y == [] || !IsSpace(y[0])
    ensures DashSpaces(x + w + y) == DashSpaces(x) + "-" + DashSpaces(y)
    decreases |x|, 1
  {
    if x == [] {
      assert x + w + y == w + y;
      DashSpacesLeadingRun(w, y);
    } else if !IsSpace(x[0]) {
      var t := x + w + y;
      assert t[0] == x[0] && !IsSpace(t[0]);
      assert t[1..] == x[1..] + w + y;
      DashSpacesRun(x[1..], w, y);
      calc {
        DashSpaces(t);
        [x[0]] + DashSpaces(x[1..] + w + y);
        [x[0]] + (DashSpaces(x[1..]) + "-" + DashSpaces(y));
        ([x[0]] + DashSpaces(x[1..])) + "-" + DashSpaces(y);
      }
    } else {
      DashSpacesRunAfterSpace(x, w, y);
    }
  }

  /** The case of DashSpacesRun where `x` itself starts with whitespace. */
  lemma {:induction false} DashSpacesRunAfterSpace(x: string, w: string, y: string)
    requires |x| > 0 && IsSpace(x[0]) && !IsSpace(x[|x| - 1])
    requires |w| > 0 && AllSpace(w)
    requires y == [] || !IsSpace(y[0])
    ensures DashSpaces(x + w + y) == DashSpaces(x) + "-" + DashSpaces(y)
    decreases |x|, 0
  {
    var t := x + w + y;
    var rest := x[1..];
    assert t[0] == x[0];
    assert t[1..] == rest + (w + y);
    var x' := DropSpaces(rest);
    LastSurvivesDrop(rest);
    assert x'[|x'| - 1] == x[|x| - 1];
    DropSpacesAppend(rest, w + y);
    assert DropSpaces(t[1..]) == x' + w + y;
    DashSpacesRun(x', w, y);
    calc {
      DashSpaces(t);
      "-" + DashSpaces(x' + w + y);
      "-" + (DashSpaces(x') + "-" + DashSpaces(y));
      ("-" + DashSpaces(x')) + "-" + DashSpaces(y);
      { assert x[1..] == rest; }
      DashSpaces(x) + "-" + DashSpaces(y);
    }
  }

  /** Each maximal whitespace run in a name gives exactly one `-` in its slug. */
  lemma SlugifyRun(x: string, w: string, y: string)
    requires x == [] || !IsSpace(x[|x| - 1])
    requires |w| > 0 && AllSpace(w)
    requires y == [] || !IsSpace(y[0])
    ensures Slugify(x + w + y) == Slugify(x) + "-" + Slugify(y)
  {
    var lx, lw, ly := ToLowerCase(x), ToLowerCase(w), ToLowerCase(y);
    ToLowerCaseAppend(x, w);
    ToLowerCaseAppend(x + w, y);
    assert ToLowerCase(x + w + y) == lx + lw + ly;
    assert lx == [] || !IsSpace(lx[|lx| - 1]);
    assert AllSpace(lw) by {
      forall i | 0 <= i < |lw| ensures IsSpace(lw[i]) {
        assert IsSpace(w[i]);
      }
    }
    assert ly == [] || !IsSpace(ly[0]);
    DashSpacesRun(lx, lw, ly);
    var dx, dy := DashSpaces(lx), DashSpaces(ly);
    KeepAllowedAppend(dx + "-", dy);
    KeepAllowedAppend(dx, "-");
    assert KeepAllowed("-") == "-";
  }

  /** The slug rule is idempotent: a slug is its own slug. */
  lemma SlugifyIdempotent(name: string)
    ensures Slugify(Slugify(name)) == Slugify(name)
  {
    var s := Slugify(name);
    assert ToLowerCase(s) == s;
    DashSpacesNoSpace(s);
    KeepAllowedIdentity(s);
  }

  /** Leading whitespace is not trimmed: it becomes a leading `-`. */
  lemma SlugifyLeadingSpace(name: string)
    requires |name| > 0 && IsSpace(name[0])
    ensures |Slugify(name)| > 0 && Slugify(name)[0] == '-'
  {
    var l := ToLowerCase(name);
    assert l == [l[0]] + l[1..];
    KeepAllowedAppend("-", DashSpaces(DropSpaces(l[1..])));
  }

  lemma {:induction false} DashSpacesTrailing(s: string)
    requires |s| > 0 && IsSpace(s[|s| - 1])
    ensures |DashSpaces(s)| > 0 && DashSpaces(s)[|DashSpaces(s)| - 1] == '-'
    decreases |s|
  {
    if !IsSpace(s[0]) {
      DashSpacesTrailing(s[1..]);
    } else {
      var d := DropSpaces(s[1..]);
      if d != [] {
        DropKeepsLast(s[1..]);
        DashSpacesTrailing(d);
      }
    }
  }

  /** Trailing whitespace is not trimmed: it becomes a trailing `-`. */
  lemma SlugifyTrailingSpace(name: string)
    requires |name| > 0 && IsSpace(name[|name| - 1])
    ensures |Slugify(name)| > 0 && Slugify(name)[|Slugify(name)| - 1] == '-'
  {
    var d := DashSpaces(ToLowerCase(name));
    DashSpacesTrailing(ToLowerCase(name));
    assert d == d[..|d| - 1] + "-";
    KeepAllowedAppend(d[..|d| - 1], "-");
  }

  /** The three-step rule agrees with the one-pass reading SlugSpec. */
  lemma {:induction false} SlugifyMatchesSpec(name: string)
    ensures Slugify(name) == SlugSpec(name)
    decreases |name|
  {
    if name != [] {
      var l := ToLowerCase(name);
      assert l[1..] == ToLowerCase(name[1..]);
      if IsSpace(name[0]) {
        DropSpacesLower(name[1..]);
        KeepAllowedAppend("-", DashSpaces(DropSpaces(l[1..])));
        SlugifyMatchesSpec(DropSpaces(name[1..]));
      } else {
        SlugifyMatchesSpec(name[1..]);
      }
    }
  }
}
