/** The string helpers of Go's standard library that the line counter relies on:
    strings.TrimSpace, strings.HasPrefix, strings.Contains, strings.ToLower,
    filepath.Ext and the byte order that sort.Strings uses. Strings are sequences
    of Unicode code points. */
module Text {

  /** Go's unicode.IsSpace: the Latin-1 spaces plus the rest of Unicode's
      White_Space property. strings.TrimSpace strips exactly these. */
  predicate IsSpace(c: char) {
    || ('\U{9}' <= c <= '\U{D}')
    || c == ' ' || c == '\U{85}' || c == '\U{A0}' || c == '\U{1680}'
    || ('\U{2000}' <= c <= '\U{200A}')
    || c == '\U{2028}' || c == '\U{2029}' || c == '\U{202F}' || c == '\U{205F}'
    || c == '\U{3000}'
  }

  /** Drops leading white space. */
  function TrimLeft(s: string): string
    decreases |s|
  {
    if s != [] && IsSpace(s[0]) then TrimLeft(s[1..]) else s
  }

  /** Drops trailing white space. */
  function TrimRight(s: string): string
    decreases |s|
  {
    if s != [] && IsSpace(s[|s| - 1]) then TrimRight(s[..|s| - 1]) else s
  }

  /** TrimLeft removes a prefix of white space and stops at the first other
      character. */
  lemma {:induction false} TrimLeftSpec(s: string)
    ensures var r := TrimLeft(s);
      && |r| <= |s| && r == s[|s| - |r|..]
      && (r == [] || !IsSpace(r[0]))
      && (forall k :: 0 <= k < |s| - |r| ==> IsSpace(s[k]))
    decreases |s|
  {
    if s != [] && IsSpace(s[0]) {
      TrimLeftSpec(s[1..]);
    }
  }

  /** TrimRight removes a suffix of white space and stops at the last other
      character. */
  lemma {:induction false} TrimRightSpec(s: string)
    ensures var r := TrimRight(s);
      && |r| <= |s| && r == s[..|r|]
      && (r == [] || !IsSpace(r[|r| - 1]))
      && (forall k :: |r| <= k < |s| ==> IsSpace(s[k]))
    decreases |s|
  {
    if s != [] && IsSpace(s[|s| - 1]) {
      TrimRightSpec(s[..|s| - 1]);
    }
  }

  /** strings.TrimSpace: the line with its surrounding white space removed. */
  function TrimSpace(s: string): string {
    TrimRight(TrimLeft(s))
  }

  /** TrimSpace yields a slice of its input that is empty exactly when the input
      is white space only, and otherwise starts and ends with a character that is
      not white space; everything dropped before and after it is white space. */
  lemma TrimSpaceSpec(s: string)
    ensures var r := TrimSpace(s);
      && (r == [] <==> forall k :: 0 <= k < |s| ==> IsSpace(s[k]))
      && (r != [] ==> !IsSpace(r[0]) && !IsSpace(r[|r| - 1]))
      && (var i := |s| - |TrimLeft(s)|;
            && 0 <= i && i + |r| <= |s| && r == s[i..i + |r|]
            && (forall k :: 0 <= k < i ==> IsSpace(s[k]))
            && (forall k :: i + |r| <= k < |s| ==> IsSpace(s[k])))
  {
    var l := TrimLeft(s);
    TrimLeftSpec(s);
    TrimRightSpec(l);
    var r := TrimRight(l);
    var i := |s| - |l|;
    assert r == s[i..i + |r|];
    forall k | i + |r| <= k < |s|
      ensures IsSpace(s[k])
    {
      assert s[k] == l[k - i];
    }
    if r == [] {
      assert l == [];
    } else {
      assert r[0] == l[0] == s[i];
    }
  }

  /** A line with no white space at either end is its own trimming. */
  lemma TrimSpaceKeeps(s: string)
    requires s != [] && !IsSpace(s[0]) && !IsSpace(s[|s| - 1])
    ensures TrimSpace(s) == s
  {
  }

  /** strings.HasPrefix. */
  predicate HasPrefix(s: string, prefix: string) {
    |prefix| <= |s| && s[..|prefix|] == prefix
  }

  /** strings.Contains: `t` occurs somewhere in `s`. */
  predicate Contains(s: string, t: string)
    decreases |s|
  {
    HasPrefix(s, t) || (s != [] && Contains(s[1..], t))
  }

  /** An occurrence at any position is found by Contains. */
  lemma {:induction false} ContainsAt(s: string, t: string, i: nat)
    requires i <= |s| && HasPrefix(s[i..], t)
    ensures Contains(s, t)
    decreases i
  {
    if i > 0 {
      assert s[1..][i - 1..] == s[i..];
      ContainsAt(s[1..], t, i - 1);
    }
  }

  /** Contains reports only real occurrences; with ContainsAt, Contains(s, t) holds
      exactly when `t` occurs at some position of `s`. */
  lemma {:induction false} ContainsOnlyAt(s: string, t: string)
    requires Contains(s, t)
    ensures exists i :: 0 <= i <= |s| && HasPrefix(s[i..], t)
    decreases |s|
  {
    if HasPrefix(s, t) {
      assert s[0..] == s;
    } else {
      ContainsOnlyAt(s[1..], t);
      var i :| 0 <= i <= |s| - 1 && HasPrefix(s[1..][i..], t);
      assert s[1..][i..] == s[i + 1..];
    }
  }

  /** A two-character string is absent when no two neighbours spell it. */
  lemma {:induction false} NoPairNoContains(s: string, a: char, b: char)
    requires forall k :: 0 <= k < |s| - 1 ==> !(s[k] == a && s[k + 1] == b)
    ensures !Contains(s, [a, b])
    decreases |s|
  {
    if s != [] {
      assert |s| >= 2 ==> s[..2][0] == s[0] && s[..2][1] == s[1];
      var t := s[1..];
      forall k | 0 <= k < |t| - 1
        ensures !(t[k] == a && t[k + 1] == b)
      {
        assert t[k] == s[k + 1] && t[k + 1] == s[k + 2];
      }
      NoPairNoContains(t, a, b);
    }
  }

  /** The ASCII case mapping of one character. */
  function LowerChar(c: char): char {
    if 'A' <= c <= 'Z' then (c as int + 32) as char else c
  }

  /** strings.ToLower restricted to ASCII: capitals become small letters and every
      other character is kept. */
  function ToLower(s: string): string {
    seq(|s|, k requires 0 <= k < |s| => LowerChar(s[k]))
  }

  /** ToLower keeps the length, leaves no capital and changes nothing but the
      capitals, each of which moves to its small letter. */
  lemma ToLowerSpec(s: string)
    ensures |ToLower(s)| == |s|
    ensures forall k :: 0 <= k < |s| ==> !('A' <= ToLower(s)[k] <= 'Z')
    ensures forall k :: 0 <= k < |s| && !('A' <= s[k] <= 'Z') ==> ToLower(s)[k] == s[k]
    ensures forall k :: 0 <= k < |s| && 'A' <= s[k] <= 'Z' ==> ToLower(s)[k] as int == s[k] as int + 32
  {
  }

  /** Lower-casing twice is lower-casing once. */
  lemma ToLowerIdempotent(s: string)
    ensures ToLower(ToLower(s)) == ToLower(s)
  {
    var once := ToLower(s);
    assert forall k :: 0 <= k < |s| ==> ToLower(once)[k] == once[k];
  }

  /** filepath.Ext: the suffix of the last path element that starts at its last
      '.', or "" when that element has no '.'. */
  function Ext(path: string): string
    decreases |path|
  {
    if path == [] || path[|path| - 1] == '/' then
      []
    else if path[|path| - 1] == '.' then
      "."
    else
      var e := Ext(path[..|path| - 1]);
      if e == [] then [] else e + [path[|path| - 1]]
  }

  /** Ext yields a suffix of the path that starts with its only '.' and holds no
      '/'; it is empty exactly when no '.' follows the last '/'. */
  lemma ExtSpec(path: string)
    ensures var r := Ext(path);
      && (r != [] ==> r[0] == '.' && |r| <= |path| && path[|path| - |r|..] == r)
      && (forall k :: 0 < k < |r| ==> r[k] != '.' && r[k] != '/')
      && (r == [] ==> forall k :: 0 <= k < |path| && path[k] == '.' ==> '/' in path[k + 1..])
  {
    ExtSuffix(path);
    ExtEmpty(path);
  }

  /** A non-empty extension is a suffix of the path that starts with its only
      '.' and holds no '/'. */
  lemma {:induction false} ExtSuffix(path: string)
    ensures var r := Ext(path);
      && (r != [] ==> r[0] == '.' && |r| <= |path| && path[|path| - |r|..] == r)
      && (forall k :: 0 < k < |r| ==> r[k] != '.' && r[k] != '/')
    decreases |path|
  {
    if path != [] && path[|path| - 1] != '/' && path[|path| - 1] != '.' {
      ExtSuffix(path[..|path| - 1]);
    }
  }

  /** An empty extension means that every '.' of the path has a '/' after it. */
  lemma {:induction false} ExtEmpty(path: string)
    ensures Ext(path) == [] ==> forall k :: 0 <= k < |path| && path[k] == '.' ==> '/' in path[k + 1..]
    decreases |path|
  {
    if path != [] && path[|path| - 1] != '/' && path[|path| - 1] != '.' {
      var rest := path[..|path| - 1];
      ExtEmpty(rest);
      if Ext(rest) == [] {
        forall k | 0 <= k < |path| && path[k] == '.'
          ensures '/' in path[k + 1..]
        {
          assert k < |rest| && rest[k] == '.';
          assert '/' in rest[k + 1..];
          assert rest[k + 1..] <= path[k + 1..];
        }
      }
    }
  }

  /** The extension of a path ending in "/name" is that of `name`. */
  lemma {:induction false} ExtOfChild(dir: string, name: string)
    requires '/' !in name
    ensures Ext(dir + "/" + name) == Ext(name)
    decreases |name|
  {
    var path := dir + "/" + name;
    if name == [] {
      assert path[|path| - 1] == '/';
    } else {
      var init := name[..|name| - 1];
      assert path[..|path| - 1] == dir + "/" + init;
      assert path[|path| - 1] == name[|name| - 1];
      ExtOfChild(dir, init);
    }
  }

  /** The order of Go's `<` on strings (and so of sort.Strings): lexicographic on
      characters, a proper prefix first. */
  predicate Below(a: string, b: string)
    decreases |a|
  {
    b != [] && (a == [] || a[0] < b[0] || (a[0] == b[0] && Below(a[1..], b[1..])))
  }

  lemma {:induction false} BelowIrreflexive(a: string)
    ensures !Below(a, a)
    decreases |a|
  {
    if a != [] {
      BelowIrreflexive(a[1..]);
    }
  }

  lemma {:induction false} BelowTransitive(a: string, b: string, c: string)
    requires Below(a, b) && Below(b, c)
    ensures Below(a, c)
    decreases |a|
  {
    if a != [] && a[0] == b[0] && b[0] == c[0] {
      BelowTransitive(a[1..], b[1..], c[1..]);
    }
  }

  lemma {:induction false} BelowTotal(a: string, b: string)
    requires a != b
    ensures Below(a, b) || Below(b, a)
    decreases |a|
  {
    if a != [] && b != [] && a[0] == b[0] {
      BelowTotal(a[1..], b[1..]);
    }
  }

  lemma BelowAsymmetric(a: string, b: string)
    requires Below(a, b)
    ensures !Below(b, a)
  {
    if Below(b, a) {
      BelowTransitive(a, b, a);
      BelowIrreflexive(a);
    }
  }

  /** The elements of a sequence of strings, as a set. */
  function Elems(s: seq<string>): set<string> {
    set x | x in s
  }
}
