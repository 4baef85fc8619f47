/** The string operations of the Java and Apache Commons IO libraries that the
    conversion engine relies on, written out over `seq<char>`: `String.trim`,
    `String.split(",")`, `String.toLowerCase`, `startsWith`/`endsWith`,
    `FilenameUtils.getExtension`/`getBaseName`, and the joining done by
    the engine's `StringBuilder` loops. */
module Text {

  // ---------------------------------------------------------------------
  // String.trim: strips every leading and trailing char whose code is at
  // most U+0020 (spaces and all control characters).

  function TrimStart(s: string): (r: string)
    ensures |r| <= |s| && r == s[|s| - |r|..]
    ensures forall i :: 0 <= i < |s| - |r| ==> s[i] <= ' '
    ensures r == [] || r[0] > ' '
    decreases |s|
  {
    if s != [] && s[0] <= ' ' then TrimStart(s[1..]) else s
  }

  function TrimEnd(s: string): (r: string)
    ensures |r| <= |s| && r == s[..|r|]
    ensures forall i :: |r| <= i < |s| ==> s[i] <= ' '
    ensures r == [] || r[|r| - 1] > ' '
    decreases |s|
  {
    if s != [] && s[|s| - 1] <= ' ' then TrimEnd(s[..|s| - 1]) else s
  }

  /** `r` is the slice of `s` at offset `a`, and every char of `s` before
      or after that slice is at most U+0020. */
  predicate TrimmedAt(s: string, r: string, a: nat)
  {
    && a + |r| <= |s|
    && r == s[a..a + |r|]
    && (forall i :: 0 <= i < a ==> s[i] <= ' ')
    && (forall i :: a + |r| <= i < |s| ==> s[i] <= ' ')
  }

  /** Java's `String.trim`: the result is a slice of the input with only
      chars of at most U+0020 removed before and after it, and it is empty
      or starts and ends with a char above U+0020. */
  function Trim(s: string): (r: string)
    ensures exists a :: TrimmedAt(s, r, a)
    ensures r == [] || (r[0] > ' ' && r[|r| - 1] > ' ')
    ensures (forall i :: 0 <= i < |s| ==> s[i] <= ' ') <==> r == []
  {
    var t := TrimStart(s);
    var r := TrimEnd(t);
    TrimBothEnds(s);
    assert r != [] ==> r[0] == t[0];
    r
  }

  /** Trimming the start and then the end leaves a slice with only low chars
      around it. */
  lemma TrimBothEnds(s: string)
    ensures TrimmedAt(s, TrimEnd(TrimStart(s)), |s| - |TrimStart(s)|)
  {
    var t := TrimStart(s);
    TrimmedAtParts(s, t, TrimEnd(t), |s| - |t|);
  }

  /** A prefix `r` of the suffix `t` of `s` at offset `a` is the slice of `s`
      at `a`, and what `s` has after it is what `t` has after it. */
  lemma TrimmedAtParts(s: string, t: string, r: string, a: nat)
    requires a <= |s| && t == s[a..] && |r| <= |t| && r == t[..|r|]
    requires forall i :: 0 <= i < a ==> s[i] <= ' '
    requires forall j :: |r| <= j < |t| ==> t[j] <= ' '
    ensures TrimmedAt(s, r, a)
  {
    forall i | a + |r| <= i < |s|
      ensures s[i] <= ' '
    {
      assert s[i] == t[i - a];
    }
  }

  /** A string that is empty or already starts and ends with a char above
      U+0020 is left unchanged by `trim`. */
  lemma TrimUnchanged(s: string)
    requires s == [] || (s[0] > ' ' && s[|s| - 1] > ' ')
    ensures Trim(s) == s
  {
  }

  // ---------------------------------------------------------------------
  // Joining and splitting.

  /** The parts with `sep` between consecutive ones. */
  function Join(parts: seq<string>, sep: string): string
  {
    if |parts| == 0 then []
    else if |parts| == 1 then parts[0]
    else parts[0] + sep + Join(parts[1..], sep)
  }

  /** Appending one more part to a non-empty join adds the separator and the part. */
  lemma {:induction false} JoinSnoc(parts: seq<string>, p: string, sep: string)
    requires |parts| >= 1
    ensures Join(parts + [p], sep) == Join(parts, sep) + sep + p
    decreases |parts|
  {
    if |parts| == 1 {
      assert parts + [p] == [parts[0], p];
    } else {
      assert (parts + [p])[1..] == parts[1..] + [p];
      JoinSnoc(parts[1..], p, sep);
    }
  }

  /** Joining one more element of a sequence's prefix: what a loop that
      writes a separator before every part but the first relies on. */
  lemma JoinPrefixStep(parts: seq<string>, i: nat, sep: string)
    requires i < |parts|
    ensures Join(parts[..i + 1], sep) == if i == 0 then parts[0] else Join(parts[..i], sep) + sep + parts[i]
  {
    if i == 0 {
      assert parts[..1] == [parts[0]];
    } else {
      assert parts[..i + 1] == parts[..i] + [parts[i]];
      JoinSnoc(parts[..i], parts[i], sep);
    }
  }

  /** The parts one after another, with nothing between them. */
  function Concat(parts: seq<string>): string
  {
    if parts == [] then [] else Concat(parts[..|parts| - 1]) + parts[|parts| - 1]
  }

  /** Concatenating one more element of a sequence's prefix. */
  lemma ConcatPrefixStep(parts: seq<string>, i: nat)
    requires i < |parts|
    ensures Concat(parts[..i + 1]) == Concat(parts[..i]) + parts[i]
  {
    assert parts[..i + 1][..i] == parts[..i];
  }

  /** The number of occurrences of `c` in `s`. */
  function Count(s: string, c: char): nat
  {
    if s == [] then 0 else Count(s[..|s| - 1], c) + (if s[|s| - 1] == c then 1 else 0)
  }

  /** Counting distributes over concatenation. */
  lemma {:induction false} CountAppend(a: string, b: string, c: char)
    ensures Count(a + b, c) == Count(a, c) + Count(b, c)
    decreases |b|
  {
    if b == [] {
      assert a + b == a;
    } else {
      assert (a + b)[..|a + b| - 1] == a + b[..|b| - 1];
      CountAppend(a, b[..|b| - 1], c);
    }
  }

  /** A string without `c` has no occurrence of it to count. */
  lemma {:induction false} CountAbsent(s: string, c: char)
    requires c !in s
    ensures Count(s, c) == 0
    decreases |s|
  {
    if s != [] {
      assert c !in s[..|s| - 1];
      CountAbsent(s[..|s| - 1], c);
    }
  }

  /** Joining parts that hold no `c` with a separator that holds none gives a string without `c`. */
  lemma {:induction false} JoinAbsent(parts: seq<string>, sep: string, c: char)
    requires forall i :: 0 <= i < |parts| ==> c !in parts[i]
    requires c !in sep
    ensures c !in Join(parts, sep)
    decreases |parts|
  {
    if |parts| > 1 {
      JoinAbsent(parts[1..], sep, c);
    }
  }

  /** Every field between two occurrences of `d`, empty ones included, so there
      is one field more than there are delimiters and no field holds `d`. */
  function SplitAll(s: string, d: char): (r: seq<string>)
    ensures |r| >= 1
    ensures forall i :: 0 <= i < |r| ==> d !in r[i]
    decreases |s|
  {
    if s == [] then [[]]
    else
      var rest := SplitAll(s[1..], d);
      if s[0] == d then [[]] + rest else [[s[0]] + rest[0]] + rest[1..]
  }

  /** Joining the fields with the delimiter gives back the string. */
  lemma {:induction false} JoinSplitAll(s: string, d: char)
    ensures Join(SplitAll(s, d), [d]) == s
    decreases |s|
  {
    if s != [] {
      var rest := SplitAll(s[1..], d);
      JoinSplitAll(s[1..], d);
      if s[0] == d {
        assert SplitAll(s, d) == [[]] + rest;
        assert ([[]] + rest)[1..] == rest;
        assert s == [d] + s[1..];
      } else {
        var fs := SplitAll(s, d);
        assert fs == [[s[0]] + rest[0]] + rest[1..];
        if |rest| == 1 {
          assert s == [s[0]] + rest[0];
        } else {
          assert fs[1..] == rest[1..];
          assert Join(rest, [d]) == rest[0] + [d] + Join(rest[1..], [d]);
          assert s == [s[0]] + s[1..];
        }
      }
    }
  }

  /** Splitting `p + t` where `p` holds no delimiter glues `p` onto the first field of `t`. */
  lemma {:induction false} SplitAllPrefix(p: string, t: string, d: char)
    requires d !in p
    ensures SplitAll(p + t, d) == [p + SplitAll(t, d)[0]] + SplitAll(t, d)[1..]
    decreases |p|
  {
    if p != [] {
      assert (p + t)[1..] == p[1..] + t;
      assert (p + t)[0] == p[0];
      SplitAllPrefix(p[1..], t, d);
      var st := SplitAll(t, d);
      var rest := SplitAll(p[1..] + t, d);
      assert rest[0] == p[1..] + st[0] && rest[1..] == st[1..];
      assert p[0] != d;
      assert SplitAll(p + t, d) == [[p[0]] + rest[0]] + rest[1..];
      assert [p[0]] + (p[1..] + st[0]) == p + st[0];
    } else {
      assert p + t == t;
      assert p + SplitAll(t, d)[0] == SplitAll(t, d)[0];
      assert SplitAll(t, d) == [SplitAll(t, d)[0]] + SplitAll(t, d)[1..];
    }
  }

  /** Splitting a join of delimiter-free parts gives back the parts. */
  lemma {:induction false} SplitAllJoin(parts: seq<string>, d: char)
    requires |parts| >= 1
    requires forall i :: 0 <= i < |parts| ==> d !in parts[i]
    ensures SplitAll(Join(parts, [d]), d) == parts
    decreases |parts|
  {
    if |parts| == 1 {
      SplitAllPrefix(parts[0], [], d);
      assert parts[0] + [] == parts[0];
    } else {
      var rest := Join(parts[1..], [d]);
      SplitAllJoin(parts[1..], d);
      assert Join(parts, [d]) == parts[0] + ([d] + rest);
      SplitAllPrefix(parts[0], [d] + rest, d);
      assert ([d] + rest)[1..] == rest;
      assert SplitAll([d] + rest, d) == [[]] + parts[1..];
      assert parts[0] + [] == parts[0];
    }
  }

  /** The fields left when the trailing empty ones are removed. */
  function DropTrailingEmpty(fs: seq<string>): (r: seq<string>)
    ensures |r| <= |fs| && r == fs[..|r|]
    ensures r == [] || r[|r| - 1] != []
    ensures forall i :: |r| <= i < |fs| ==> fs[i] == []
  {
    if |fs| > 0 && fs[|fs| - 1] == [] then DropTrailingEmpty(fs[..|fs| - 1]) else fs
  }

  /** Java's `String.split` with a one-character delimiter and no limit: the
      string itself when the delimiter does not occur in it, otherwise every
      field between delimiters with the trailing empty fields removed. */
  function JavaSplit(s: string, d: char): (r: seq<string>)
    ensures forall i :: 0 <= i < |r| ==> d !in r[i]
    ensures d !in s ==> r == [s]
    ensures d in s ==> r == [] || r[|r| - 1] != []
  {
    if d !in s then [s] else DropTrailingEmpty(SplitAll(s, d))
  }

  /** Splitting a join of at least two delimiter-free fields gives the fields
      back, except that Java drops the trailing empty ones. */
  lemma JavaSplitJoin(parts: seq<string>, d: char)
    requires |parts| >= 2
    requires forall i :: 0 <= i < |parts| ==> d !in parts[i]
    ensures JavaSplit(Join(parts, [d]), d) == DropTrailingEmpty(parts)
  {
    assert Join(parts, [d]) == parts[0] + [d] + Join(parts[1..], [d]);
    assert Join(parts, [d])[|parts[0]|] == d;
    SplitAllJoin(parts, d);
  }

  // ---------------------------------------------------------------------
  // Prefixes, suffixes, case.

  predicate StartsWith(s: string, prefix: string)
  {
    |prefix| <= |s| && s[..|prefix|] == prefix
  }

  predicate EndsWith(s: string, suffix: string)
  {
    |suffix| <= |s| && s[|s| - |suffix|..] == suffix
  }

  /** A one-char prefix test looks at the first char only. */
  lemma StartsWithChar(s: string, c: char)
    ensures StartsWith(s, [c]) <==> |s| >= 1 && s[0] == c
  {
    if |s| >= 1 && s[0] == c {
      assert s[..1] == [c];
    }
  }

  /** A string ends with the last char of each of its suffixes. */
  lemma EndsWithLast(s: string, suffix: string)
    requires suffix != []
    ensures EndsWith(s, suffix) ==> s[|s| - 1] == suffix[|suffix| - 1]
  {
  }

  /** A one-char suffix test looks at the last char only. */
  lemma EndsWithChar(s: string, c: char)
    ensures EndsWith(s, [c]) <==> |s| >= 1 && s[|s| - 1] == c
  {
    if |s| >= 1 && s[|s| - 1] == c {
      assert s[|s| - 1..] == [c];
    }
  }

  function LowerChar(c: char): char
  {
    if 'A' <= c <= 'Z' then (c as int + 32) as char else c
  }

  /** `String.toLowerCase` on ASCII letters: each upper-case letter becomes
      its lower-case letter, every other char is kept, and no upper-case
      letter is left. */
  function Lower(s: string): (r: string)
    ensures |r| == |s|
    ensures forall i :: 0 <= i < |s| ==> !('A' <= r[i] <= 'Z')
    ensures forall i :: 0 <= i < |s| ==> r[i] == s[i] || ('A' <= s[i] <= 'Z' && r[i] as int == s[i] as int + 32)
    ensures forall i :: 0 <= i < |s| && !('A' <= s[i] <= 'Z') ==> r[i] == s[i]
  {
    seq(|s|, i requires 0 <= i < |s| => LowerChar(s[i]))
  }

  // ---------------------------------------------------------------------
  // File names, as Apache Commons IO's FilenameUtils takes them apart.

  /** The position of the last `c` in `s`, or -1. */
  function LastIndexOf(s: string, c: char): (r: int)
    ensures -1 <= r < |s|
    ensures r >= 0 ==> s[r] == c
    ensures forall i :: r < i < |s| ==> s[i] != c
  {
    if s == [] then -1
    else if s[|s| - 1] == c then |s| - 1
    else LastIndexOf(s[..|s| - 1], c)
  }

  /** The two path separators `FilenameUtils` recognises. */
  predicate IsSeparator(c: char)
  {
    c == '/' || c == '\\'
  }

  /** `FilenameUtils.getName`: what follows the last `/` or `\`. The name
      holds no separator, ends the path, and is the whole path or is
      preceded by a separator. */
  function FileName(path: string): (r: string)
    ensures '/' !in r && '\\' !in r
    ensures EndsWith(path, r)
    ensures |r| < |path| ==> IsSeparator(path[|path| - |r| - 1])
  {
    var a := LastIndexOf(path, '/');
    var b := LastIndexOf(path, '\\');
    var k := if a < b then b else a;
    path[k + 1..]
  }

  /** `FilenameUtils.getExtension`: what follows the last `.` of the name,
      or the empty string when the name has no `.`. */
  function Extension(path: string): (r: string)
    ensures '.' !in r && '/' !in r && '\\' !in r
  {
    var n := FileName(path);
    var k := LastIndexOf(n, '.');
    if k < 0 then [] else n[k + 1..]
  }

  /** `FilenameUtils.getBaseName`: the name without its last `.` and extension. */
  function BaseName(path: string): (r: string)
    ensures '/' !in r && '\\' !in r
  {
    var n := FileName(path);
    var k := LastIndexOf(n, '.');
    if k < 0 then n else n[..k]
  }

  /** A name with a `.` is what precedes its last `.`, the `.`, and what follows it. */
  lemma LastDotSplit(n: string)
    ensures '.' in n ==> n == n[..LastIndexOf(n, '.')] + "." + n[LastIndexOf(n, '.') + 1..]
    ensures '.' !in n ==> LastIndexOf(n, '.') == -1
  {
    var k := LastIndexOf(n, '.');
    if '.' in n {
      var j :| 0 <= j < |n| && n[j] == '.';
      assert k >= 0;
      assert n == n[..k] + "." + n[k + 1..];
    }
  }

  /** Base name and extension put back together with their `.` give the name. */
  lemma BaseNameExtension(path: string)
    ensures '.' in FileName(path) ==> BaseName(path) + "." + Extension(path) == FileName(path)
    ensures '.' !in FileName(path) ==> BaseName(path) == FileName(path) && Extension(path) == []
  {
    LastDotSplit(FileName(path));
  }

  /** A name built as `id + "." + ext`, with no separator in either part
      and no `.` in `ext`, has base name `id` and extension `ext`. */
  lemma {:induction false} BuiltNameParts(id: string, ext: string)
    requires '/' !in id && '\\' !in id
    requires '.' !in ext && '/' !in ext && '\\' !in ext
    ensures BaseName(id + "." + ext) == id
    ensures Extension(id + "." + ext) == ext
  {
    var p := id + "." + ext;
    forall i | 0 <= i < |p|
      ensures p[i] != '/' && p[i] != '\\'
      ensures |id| < i ==> p[i] != '.'
    {
      if i < |id| { assert p[i] == id[i]; }
      else if i > |id| { assert p[i] == ext[i - |id| - 1]; }
    }
    NamePartsAt(p, |id|);
    assert p[..|id|] == id;
    assert p[|id| + 1..] == ext;
  }

  /** A path with no separator whose last `.` is at `k` has base name
      `p[..k]` and extension `p[k + 1..]`. */
  lemma NamePartsAt(p: string, k: nat)
    requires forall i :: 0 <= i < |p| ==> p[i] != '/' && p[i] != '\\'
    requires k < |p| && p[k] == '.'
    requires forall i :: k < i < |p| ==> p[i] != '.'
    ensures BaseName(p) == p[..k] && Extension(p) == p[k + 1..]
  {
    FileNameWhole(p);
    var n := FileName(p);
    LastIndexAt(n, '.', k);
    assert BaseName(p) == n[..k];
    assert Extension(p) == n[k + 1..];
  }

  /** A path with no separator is its own name. */
  lemma FileNameWhole(p: string)
    requires '/' !in p && '\\' !in p
    ensures FileName(p) == p
  {
    assert LastIndexOf(p, '/') == -1;
    assert LastIndexOf(p, '\\') == -1;
  }

  /** The last `c` is at `k` when `c` is there and nowhere after it. */
  lemma LastIndexAt(s: string, c: char, k: nat)
    requires k < |s| && s[k] == c
    requires forall i :: k < i < |s| ==> s[i] != c
    ensures LastIndexOf(s, c) == k
  {
  }

  // ---------------------------------------------------------------------
  // Decimal rendering of record numbers (`StringBuilder.append(int)`).

  function DigitChar(d: nat): char
    requires d < 10
  {
    ('0' as int + d) as char
  }

  /** The number a string of decimal digits denotes, most significant first. */
  function DigitsValue(s: string): nat
    requires forall i :: 0 <= i < |s| ==> '0' <= s[i] <= '9'
  {
    if s == [] then 0 else DigitsValue(s[..|s| - 1]) * 10 + (s[|s| - 1] as int - '0' as int)
  }

  /** The decimal rendering of `n`: a non-empty string of digits that
      denotes `n`, with no leading zero unless `n` is zero. */
  function DecimalString(n: nat): (r: string)
    ensures |r| >= 1
    ensures forall i :: 0 <= i < |r| ==> '0' <= r[i] <= '9'
    ensures DigitsValue(r) == n
    ensures n == 0 || r[0] != '0'
    decreases n
  {
    if n < 10 then [DigitChar(n)]
    else
      var p := DecimalString(n / 10);
      var r := p + [DigitChar(n % 10)];
      assert r[..|r| - 1] == p;
      r
  }
}
