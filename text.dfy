/** The .NET string and character primitives the extension relies on, over `seq<char>`. */
module Text {

  /** `char.IsWhiteSpace`: the space separators, the line and paragraph separators,
      U+0009 to U+000D and U+0085. */
  predicate IsWhiteSpace(c: char) {
    || c == ' ' || ('\t' <= c <= '\r') || c == '\U{0085}' || c == '\U{00A0}'
    || c == '\U{1680}' || ('\U{2000}' <= c <= '\U{200A}') || c == '\U{2028}'
    || c == '\U{2029}' || c == '\U{202F}' || c == '\U{205F}' || c == '\U{3000}'
  }

  /** `char.IsLetterOrDigit`, restricted to the ASCII letters and digits. */
  predicate IsLetterOrDigit(c: char) {
    ('a' <= c <= 'z') || ('A' <= c <= 'Z') || ('0' <= c <= '9')
  }

  /** A character that may appear in an attribute name or token: a letter, a digit or `-`. */
  predicate IsTokenChar(c: char) {
    IsLetterOrDigit(c) || c == '-'
  }

  predicate StartsWith(s: string, prefix: string) {
    |prefix| <= |s| && s[..|prefix|] == prefix
  }

  predicate EndsWith(s: string, suffix: string) {
    |suffix| <= |s| && s[|s| - |suffix|..] == suffix
  }

  /** Ordinal upper-casing, exact for the ASCII letters the callers compare against. */
  function ToUpper(c: char): char {
    if 'a' <= c <= 'z' then (c as int - 32) as char else c
  }

  /** `string.Equals(b, StringComparison.OrdinalIgnoreCase)`. */
  predicate EqualsIgnoreCase(a: string, b: string) {
    |a| == |b| && forall i :: 0 <= i < |a| ==> ToUpper(a[i]) == ToUpper(b[i])
  }

  /** `s.StartsWith(prefix, StringComparison.OrdinalIgnoreCase)`. */
  predicate StartsWithIgnoreCase(s: string, prefix: string) {
    |prefix| <= |s| && EqualsIgnoreCase(s[..|prefix|], prefix)
  }

  /** `s.EndsWith(suffix, StringComparison.OrdinalIgnoreCase)`. */
  predicate EndsWithIgnoreCase(s: string, suffix: string) {
    |suffix| <= |s| && EqualsIgnoreCase(s[|s| - |suffix|..], suffix)
  }

  predicate AllWhiteSpace(s: string) {
    forall i :: 0 <= i < |s| ==> IsWhiteSpace(s[i])
  }

  /** `s.TrimStart()`: a suffix of `s` that does not begin with white space; that it is the
      longest one is `TrimStartDropsWhiteSpace`. */
  function TrimStart(s: string): (r: string)
    ensures |r| <= |s| && r == s[|s| - |r|..]
    ensures r == [] || !IsWhiteSpace(r[0])
  {
    if s == [] || !IsWhiteSpace(s[0]) then s else TrimStart(s[1..])
  }

  /** `s.TrimEnd()`: a prefix of `s` that does not end with white space; that it is the
      longest one is `TrimEndDropsWhiteSpace`. */
  function TrimEnd(s: string): (r: string)
    ensures |r| <= |s| && r == s[..|r|]
    ensures r == [] || !IsWhiteSpace(r[|r| - 1])
  {
    if s == [] || !IsWhiteSpace(s[|s| - 1]) then s else TrimEnd(s[..|s| - 1])
  }

  /** `TrimStart` removes white space only. */
  lemma {:induction false} TrimStartDropsWhiteSpace(s: string)
    ensures AllWhiteSpace(s[..|s| - |TrimStart(s)|])
  {
    if s != [] && IsWhiteSpace(s[0]) {
      TrimStartDropsWhiteSpace(s[1..]);
      var n := |s| - |TrimStart(s)|;
      assert s[1..][..n - 1] == s[1..n];
      assert forall i :: 1 <= i < n ==> s[i] == s[1..][..n - 1][i - 1];
    }
  }

  /** `TrimEnd` removes white space only. */
  lemma {:induction false} TrimEndDropsWhiteSpace(s: string)
    ensures AllWhiteSpace(s[|TrimEnd(s)|..])
  {
    if s != [] && IsWhiteSpace(s[|s| - 1]) {
      var r := TrimEnd(s[..|s| - 1]);
      TrimEndDropsWhiteSpace(s[..|s| - 1]);
      assert forall i :: |r| <= i < |s| - 1 ==> s[i] == s[..|s| - 1][|r|..][i - |r|];
    }
  }

  /** `s.Trim()`. */
  function Trim(s: string): string {
    TrimEnd(TrimStart(s))
  }

  /** A string trims to nothing exactly when every character of it is white space. */
  lemma TrimEmptyIff(s: string)
    ensures Trim(s) == [] <==> AllWhiteSpace(s)
  {
    var t := TrimStart(s);
    TrimStartDropsWhiteSpace(s);
    TrimEndDropsWhiteSpace(t);
    assert |t| > 0 ==> t[0] == s[|s| - |t|];
    if Trim(s) == [] {
      assert AllWhiteSpace(t[0..]) && t[0..] == t;
      assert s == s[..|s| - |t|] + t;
    }
  }

  /** A slice grows by the character at its end. */
  lemma SliceExtend(s: string, i: nat, j: nat)
    requires i <= j < |s|
    ensures s[i..j + 1] == s[i..j] + [s[j]]
  {
  }

  /** `s.Split(sep)`: the pieces between occurrences of `sep`; there is always one more
      piece than there are separators. */
  function Split(s: string, sep: char): (r: seq<string>)
    ensures |r| >= 1
  {
    if s == [] then [""]
    else
      var rest := Split(s[1..], sep);
      if s[0] == sep then [""] + rest else [[s[0]] + rest[0]] + rest[1..]
  }

  /** `string.Join(sep, pieces)`. */
  function Join(pieces: seq<string>, sep: char): string
    requires |pieces| >= 1
  {
    if |pieces| == 1 then pieces[0] else pieces[0] + [sep] + Join(pieces[1..], sep)
  }

  /** Splitting loses nothing: joining the pieces with the separator gives the input back. */
  lemma {:induction false} SplitJoin(s: string, sep: char)
    ensures Join(Split(s, sep), sep) == s
  {
    if s != [] {
      SplitJoin(s[1..], sep);
      var rest := Split(s[1..], sep);
      var r := Split(s, sep);
      if s[0] != sep {
        if |rest| == 1 {
          assert Join(r, sep) == r[0] == [s[0]] + rest[0];
        } else {
          assert r[1..] == rest[1..];
          assert Join(r, sep) == r[0] + [sep] + Join(rest[1..], sep);
        }
      } else {
        assert r[0] == "" && r[1..] == rest;
      }
    }
  }

  /** No piece contains the separator. */
  lemma {:induction false} SplitPieceHasNoSeparator(s: string, sep: char, k: nat, i: nat)
    requires k < |Split(s, sep)| && i < |Split(s, sep)[k]|
    ensures Split(s, sep)[k][i] != sep
  {
    var rest := Split(s[1..], sep);
    if s[0] == sep {
      SplitPieceHasNoSeparator(s[1..], sep, k - 1, i);
    } else if k == 0 {
      if i > 0 { SplitPieceHasNoSeparator(s[1..], sep, 0, i - 1); }
    } else {
      SplitPieceHasNoSeparator(s[1..], sep, k, i);
    }
  }

  /** Every character of every piece comes from the input. */
  lemma {:induction false} SplitChars(s: string, sep: char, k: nat, i: nat)
    requires k < |Split(s, sep)| && i < |Split(s, sep)[k]|
    ensures Split(s, sep)[k][i] in s
  {
    var rest := Split(s[1..], sep);
    if s[0] == sep {
      SplitChars(s[1..], sep, k - 1, i);
    } else if k == 0 {
      if i > 0 { SplitChars(s[1..], sep, 0, i - 1); }
    } else {
      SplitChars(s[1..], sep, k, i);
    }
  }

  /** `Path.GetFileNameWithoutExtension` of a bare file or directory name: everything
      before the last `.`, or the whole name when it has none. */
  function FileStem(name: string): (r: string)
    ensures StartsWith(name, r)
    ensures r == name || (|r| < |name| && name[|r|] == '.' && '.' !in name[|r| + 1..])
  {
    if '.' !in name then name
    else if name[|name| - 1] == '.' then name[..|name| - 1]
    else
      var r := FileStem(name[..|name| - 1]);
      assert name[..|name| - 1][|r| + 1..] + [name[|name| - 1]] == name[|r| + 1..];
      r
  }

  /** The stem of `base.ext`, for an extension without a dot, is `base`. */
  lemma {:induction false} FileStemDropsExtension(base: string, ext: string)
    requires '.' !in ext
    ensures FileStem(base + "." + ext) == base
    decreases |ext|
  {
    var name := base + "." + ext;
    assert name[|base|] == '.';
    if ext == [] {
      assert name[..|name| - 1] == base;
    } else {
      assert name[|name| - 1] == ext[|ext| - 1];
      assert name[..|name| - 1] == base + "." + ext[..|ext| - 1];
      FileStemDropsExtension(base, ext[..|ext| - 1]);
    }
  }
}
