/** `_safe_filename`: the per-sheet output file name. The name is stripped of
    surrounding white space, every run of characters outside
    `[A-Za-z0-9._-]` becomes one underscore, and an empty result becomes
    "sheet". */
module Filenames {

  /** The characters a file name keeps as they are. */
  predicate IsFilenameChar(c: char)
  {
    ('A' <= c <= 'Z') || ('a' <= c <= 'z') || ('0' <= c <= '9') || c == '.' || c == '_' || c == '-'
  }

  predicate IsFilename(s: string)
  {
    forall i :: 0 <= i < |s| ==> IsFilenameChar(s[i])
  }

  /** The white space `str.strip()` removes: the code points for which
      `str.isspace()` holds. */
  predicate IsSpace(c: char)
  {
    var n := c as int;
    (9 <= n <= 13) || (28 <= n <= 32) || n == 0x85 || n == 0xA0 || n == 0x1680
    || (0x2000 <= n <= 0x200A) || n == 0x2028 || n == 0x2029 || n == 0x202F
    || n == 0x205F || n == 0x3000
  }

  /** No file-name character is white space. */
  lemma FilenameCharIsNotSpace(c: char)
    requires IsFilenameChar(c)
    ensures !IsSpace(c)
  {
  }

  /** `s` without its leading white space. */
  function TrimStart(s: string): (r: string)
    ensures |r| <= |s| && r == s[|s| - |r|..]
    ensures r == [] || !IsSpace(r[0])
    ensures forall i :: 0 <= i < |s| - |r| ==> IsSpace(s[i])
  {
    if s != [] && IsSpace(s[0]) then TrimStart(s[1..]) else s
  }

  /** `s` without its trailing white space. */
  function TrimEnd(s: string): (r: string)
    ensures |r| <= |s| && r == s[..|r|]
    ensures r == [] || !IsSpace(r[|r| - 1])
    ensures forall i :: |r| <= i < |s| ==> IsSpace(s[i])
  {
    if s != [] && IsSpace(s[|s| - 1]) then TrimEnd(s[..|s| - 1]) else s
  }

  /** `str.strip()`. */
  function Strip(s: string): string
  {
    TrimEnd(TrimStart(s))
  }

  /** The length of the leading run of characters outside the file-name set. */
  function RunLength(s: string): (n: nat)
    ensures n <= |s|
    ensures n < |s| ==> IsFilenameChar(s[n])
    ensures forall i :: 0 <= i < n ==> !IsFilenameChar(s[i])
  {
    if s != [] && !IsFilenameChar(s[0]) then 1 + RunLength(s[1..]) else 0
  }

  /** The substitution of every maximal run of characters outside the
      file-name set by a single underscore. */
  function Sanitize(s: string): (r: string)
    ensures IsFilename(r)
    ensures |r| <= |s|
    ensures r == [] <==> s == []
    decreases |s|
  {
    if s == [] then []
    else if IsFilenameChar(s[0]) then [s[0]] + Sanitize(s[1..])
    else "_" + Sanitize(s[RunLength(s)..])
  }

  /** A run of characters outside the set, all on its own, becomes one
      underscore. */
  lemma SanitizeRun(s: string)
    requires s != []
    requires forall i :: 0 <= i < |s| ==> !IsFilenameChar(s[i])
    ensures Sanitize(s) == "_"
  {
    RunLengthOfRun(s);
  }

  /** A string made only of characters outside the set is one run. */
  lemma {:induction false} RunLengthOfRun(s: string)
    requires forall i :: 0 <= i < |s| ==> !IsFilenameChar(s[i])
    ensures RunLength(s) == |s|
    decreases |s|
  {
    if s != [] {
      RunLengthOfRun(s[1..]);
    }
  }

  /** The leading run of `x + y` stays inside `x` when `x` has a file-name
      character, and otherwise continues into `y`. */
  lemma {:induction false} RunLengthConcat(x: string, y: string)
    ensures RunLength(x + y) == if RunLength(x) < |x| then RunLength(x) else |x| + RunLength(y)
    decreases |x|
  {
    if x == [] {
      assert x + y == y;
    } else {
      assert (x + y)[0] == x[0];
      if !IsFilenameChar(x[0]) {
        assert (x + y)[1..] == x[1..] + y;
        RunLengthConcat(x[1..], y);
      }
    }
  }

  /** The substitution works piece by piece: cutting the input next to a
      file-name character cuts no run in two, so each piece is sanitised on
      its own. */
  lemma {:induction false} SanitizeConcat(x: string, y: string)
    requires (x != [] && IsFilenameChar(x[|x| - 1])) || (y != [] && IsFilenameChar(y[0]))
    ensures Sanitize(x + y) == Sanitize(x) + Sanitize(y)
    decreases |x|, 3
  {
    if x == [] {
      assert x + y == y;
    } else if IsFilenameChar(x[0]) {
      SanitizeConcatKeep(x, y);
    } else {
      SanitizeConcatSkip(x, y);
    }
  }

  /** `SanitizeConcat` when `x` starts with a file-name character. */
  lemma {:induction false} SanitizeConcatKeep(x: string, y: string)
    requires x != [] && IsFilenameChar(x[0])
    requires IsFilenameChar(x[|x| - 1]) || (y != [] && IsFilenameChar(y[0]))
    ensures Sanitize(x + y) == Sanitize(x) + Sanitize(y)
    decreases |x|, 2
  {
    var c, rest := x[0], x[1..];
    assert x == [c] + rest;
    assert x + y == [c] + (rest + y);
    SanitizeCons(c, rest + y);
    SanitizeCons(c, rest);
    if rest == [] {
      assert rest + y == y;
    } else {
      assert rest[|rest| - 1] == x[|x| - 1];
      SanitizeConcat(rest, y);
    }
  }

  /** A leading file-name character is copied. */
  lemma SanitizeCons(c: char, s: string)
    requires IsFilenameChar(c)
    ensures Sanitize([c] + s) == [c] + Sanitize(s)
  {
    assert ([c] + s)[1..] == s;
  }

  /** `SanitizeConcat` when `x` starts with a run outside the set. */
  lemma {:induction false} SanitizeConcatSkip(x: string, y: string)
    requires x != [] && !IsFilenameChar(x[0])
    requires IsFilenameChar(x[|x| - 1]) || (y != [] && IsFilenameChar(y[0]))
    ensures Sanitize(x + y) == Sanitize(x) + Sanitize(y)
    decreases |x|, 2
  {
    RunLengthConcat(x, y);
    if RunLength(x) < |x| {
      SanitizeConcatRunInside(x, y, RunLength(x));
    } else {
      SanitizeConcatRunWhole(x, y);
    }
  }

  /** `SanitizeConcatSkip` when the leading run ends inside `x`. */
  lemma {:induction false} SanitizeConcatRunInside(x: string, y: string, n: nat)
    requires x != [] && !IsFilenameChar(x[0])
    requires n == RunLength(x) && RunLength(x + y) == n && n < |x|
    requires IsFilenameChar(x[|x| - 1]) || (y != [] && IsFilenameChar(y[0]))
    ensures Sanitize(x + y) == Sanitize(x) + Sanitize(y)
    decreases |x|, 1
  {
    var rest := x[n..];
    SkipThenConcat(x, y, n);
    assert rest[|rest| - 1] == x[|x| - 1];
    SanitizeConcat(rest, y);
  }

  /** Skipping the leading run of `x + y` when it ends inside `x`. */
  lemma SkipThenConcat(x: string, y: string, n: nat)
    requires x != [] && !IsFilenameChar(x[0])
    requires n == RunLength(x) && RunLength(x + y) == n && n < |x|
    ensures Sanitize(x + y) == "_" + Sanitize(x[n..] + y)
    ensures Sanitize(x) == "_" + Sanitize(x[n..])
  {
    assert (x + y)[0] == x[0];
    assert (x + y)[n..] == x[n..] + y;
    SanitizeSkip(x + y, n);
    SanitizeSkip(x, n);
  }

  /** `SanitizeConcatSkip` when all of `x` is one run: it and the run of
      `x + y` both end where `y` begins. */
  lemma SanitizeConcatRunWhole(x: string, y: string)
    requires x != [] && !IsFilenameChar(x[0])
    requires RunLength(x) == |x| && y != [] && IsFilenameChar(y[0])
    ensures Sanitize(x + y) == Sanitize(x) + Sanitize(y)
  {
    var xy, n := x + y, |x|;
    RunLengthConcat(x, y);
    assert xy[0] == x[0];
    SanitizeSkip(xy, n);
    SanitizeSkip(x, n);
    assert xy[n..] == y;
    assert x[n..] == [];
  }

  /** A leading run outside the set becomes one underscore. */
  lemma SanitizeSkip(s: string, n: nat)
    requires s != [] && !IsFilenameChar(s[0]) && n == RunLength(s)
    ensures Sanitize(s) == "_" + Sanitize(s[n..])
  {
  }

  /** A name that is already made of file-name characters is left alone. */
  lemma {:induction false} SanitizeKeepsFilenames(s: string)
    requires IsFilename(s)
    ensures Sanitize(s) == s
    decreases |s|
  {
    if s != [] {
      SanitizeKeepsFilenames(s[1..]);
    }
  }

  /** The file-name characters of `s` other than the underscore, in order. */
  function NonUnderscoreChars(s: string): string
  {
    if s == [] then []
    else (if IsFilenameChar(s[0]) && s[0] != '_' then [s[0]] else []) + NonUnderscoreChars(s[1..])
  }

  /** A run of characters outside the set keeps nothing. */
  lemma {:induction false} NonUnderscoreCharsSkipRun(s: string, n: nat)
    requires n <= |s|
    requires forall i :: 0 <= i < n ==> !IsFilenameChar(s[i])
    ensures NonUnderscoreChars(s) == NonUnderscoreChars(s[n..])
    decreases n
  {
    if n > 0 {
      assert s[1..][n - 1..] == s[n..];
      NonUnderscoreCharsSkipRun(s[1..], n - 1);
    }
  }

  /** The substitution only ever writes underscores: every other file-name
      character of the input survives, in order, and no other appears. */
  lemma {:induction false} SanitizeKeepsOtherChars(s: string)
    ensures NonUnderscoreChars(Sanitize(s)) == NonUnderscoreChars(s)
    decreases |s|
  {
    if s != [] {
      if IsFilenameChar(s[0]) {
        assert ([s[0]] + Sanitize(s[1..]))[1..] == Sanitize(s[1..]);
        SanitizeKeepsOtherChars(s[1..]);
      } else {
        var n := RunLength(s);
        assert ("_" + Sanitize(s[n..]))[1..] == Sanitize(s[n..]);
        SanitizeKeepsOtherChars(s[n..]);
        NonUnderscoreCharsSkipRun(s, n);
      }
    }
  }

  /** `_safe_filename`. */
  function SafeFilename(name: string): (r: string)
    ensures r != [] && IsFilename(r)
    ensures Strip(name) == [] ==> r == "sheet"
    ensures Strip(name) != [] ==> |r| <= |Strip(name)| && r == Sanitize(Strip(name))
  {
    var t := Strip(name);
    var s := Sanitize(t);
    if s == [] then "sheet" else s
  }

  /** A safe name is its own safe name. */
  lemma SafeFilenameIdempotent(name: string)
    ensures SafeFilename(SafeFilename(name)) == SafeFilename(name)
  {
    var r := SafeFilename(name);
    if r != [] {
      FilenameCharIsNotSpace(r[0]);
      FilenameCharIsNotSpace(r[|r| - 1]);
    }
    assert TrimStart(r) == r;
    assert Strip(r) == r;
    SanitizeKeepsFilenames(r);
  }
}
