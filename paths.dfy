/** Path and extension rules: `os.path.splitext` on POSIX paths, ASCII
    `str.lower`, the default output name `basename + '.wav'` and the test
    that classifies a path as WAV. */
module Paths {
  import opened World

  function LowerChar(c: char): char {
    if 'A' <= c <= 'Z' then (c as int + 32) as char else c
  }

  /** `str.lower` on a byte string in the C locale: only A-Z change. */
  function Lower(s: string): (r: string)
    ensures |r| == |s|
    ensures forall i :: 0 <= i < |s| ==> r[i] == LowerChar(s[i])
  {
    if s == [] then [] else [LowerChar(s[0])] + Lower(s[1..])
  }

  /** Index of the last `c` in `s`, or -1 (`str.rfind`). */
  function RFind(s: string, c: char): (k: int)
    ensures -1 <= k < |s|
    ensures k >= 0 ==> s[k] == c
    ensures forall j :: k < j < |s| ==> s[j] != c
  {
    LastBefore(s, c, |s|)
  }

  /** Index of the last `c` in `s[..n]`, or -1. */
  function LastBefore(s: string, c: char, n: nat): (k: int)
    requires n <= |s|
    ensures -1 <= k < n
    ensures k >= 0 ==> s[k] == c
    ensures forall j :: k < j < n ==> s[j] != c
  {
    if n == 0 then -1
    else if s[n - 1] == c then n - 1
    else LastBefore(s, c, n - 1)
  }

  /** Every character of `s[lo..hi]` is a dot. */
  predicate DotsOnly(s: string, lo: int, hi: int) {
    forall i :: lo <= i < hi && 0 <= i < |s| ==> s[i] == '.'
  }

  /** Where `os.path.splitext` starts the extension, or -1 for none: at the
      last dot of the last path segment, unless everything before that dot
      in the segment is dots too (`.bashrc` has no extension). */
  function ExtStart(p: Path): (k: int)
    ensures k == -1 || (0 <= k < |p| && p[k] == '.')
    ensures forall j :: 0 <= k < j < |p| ==> p[j] != '.' && p[j] != '/'
  {
    var sep := RFind(p, '/');
    var dot := RFind(p, '.');
    if dot > sep && !DotsOnly(p, sep + 1, dot) then dot else -1
  }

  /** `os.path.splitext`: (base name, extension), the extension empty or a
      dot followed by neither dots nor slashes. */
  function SplitExt(p: Path): (r: (Path, string))
    ensures r.0 + r.1 == p
    ensures r.1 == [] || r.1[0] == '.'
    ensures forall i :: 0 < i < |r.1| ==> r.1[i] != '.' && r.1[i] != '/'
  {
    var k := ExtStart(p);
    if k >= 0 then (p[..k], p[k..]) else (p, "")
  }

  /** The lower-cased extension that `decode`, `audiofile_read` and
      `convert_to_wav` dispatch on. */
  function LowerExt(p: Path): (e: string)
    ensures e == [] || e[0] == '.'
    ensures forall i :: 0 < i < |e| ==> e[i] != '.' && e[i] != '/'
  {
    Lower(SplitExt(p).1)
  }

  /** The input is treated as WAV iff its lower-cased extension is `.wav`. */
  predicate IsWavPath(p: Path) {
    LowerExt(p) == ".wav"
  }

  /** The output name `decode` uses when none is given, and the name
      `convert_to_wav` always uses: the extension replaced by `.wav`. */
  function DefaultOutName(p: Path): Path {
    SplitExt(p).0 + ".wav"
  }

  /** The last path segment of `p` holds a character other than a dot. */
  predicate NamedSegment(p: Path) {
    !DotsOnly(p, RFind(p, '/') + 1, |p|)
  }

  /** Exactly the sixteen spellings of `.wav` in upper and lower case are
      classified as WAV. */
  lemma WavExtensionSpellings(e: string)
    ensures Lower(e) == ".wav" <==>
      |e| == 4 && e[0] == '.' && (e[1] == 'w' || e[1] == 'W')
      && (e[2] == 'a' || e[2] == 'A') && (e[3] == 'v' || e[3] == 'V')
  {
    LowerCasedIsWav(Lower(e), e);
  }

  lemma LowerCasedIsWav(l: string, e: string)
    requires |l| == |e| && forall i :: 0 <= i < |e| ==> l[i] == LowerChar(e[i])
    ensures l == ".wav" <==>
      |e| == 4 && e[0] == '.' && (e[1] == 'w' || e[1] == 'W')
      && (e[2] == 'a' || e[2] == 'A') && (e[3] == 'v' || e[3] == 'V')
  {
    if |e| == 4 {
      LowerCharTo(e[0], '.', '.');
      LowerCharTo(e[1], 'w', 'W');
      LowerCharTo(e[2], 'a', 'A');
      LowerCharTo(e[3], 'v', 'V');
      assert l == ".wav" <==> l[0] == '.' && l[1] == 'w' && l[2] == 'a' && l[3] == 'v';
    }
  }

  /** The characters that lower-case to `l` are `l` and `u`. */
  lemma LowerCharTo(c: char, l: char, u: char)
    requires ('a' <= l <= 'z' && u as int + 32 == l as int) || (l == u && !('a' <= l <= 'z') && !('A' <= l <= 'Z'))
    ensures LowerChar(c) == l <==> c == l || c == u
  {
  }

  lemma {:induction false} RFindAt(s: string, c: char, k: int)
    requires -1 <= k < |s|
    requires k >= 0 ==> s[k] == c
    requires forall j :: k < j < |s| ==> s[j] != c
    ensures RFind(s, c) == k
  {
  }

  /** The name `convert_to_wav` produces is split back into the same base
      name and the extension `.wav`, so it is itself classified as WAV and
      converting it again is a no-op. This needs the base name's last
      segment to hold a character other than a dot (it fails for `dir/`,
      whose output `dir/.wav` has no extension). */
  lemma DefaultOutNameIsWav(p: Path)
    requires NamedSegment(SplitExt(p).0)
    ensures SplitExt(DefaultOutName(p)) == (SplitExt(p).0, ".wav")
    ensures IsWavPath(DefaultOutName(p))
  {
    var b := SplitExt(p).0;
    var q := b + ".wav";
    WavSuffixStartsExtension(b);
    assert q[..|b|] == b && q[|b|..] == ".wav";
    assert Lower(".wav") == ".wav";
  }

  lemma WavSuffixStartsExtension(b: Path)
    requires NamedSegment(b)
    ensures ExtStart(b + ".wav") == |b|
  {
    var q := b + ".wav";
    var sb := RFind(b, '/');
    assert RFind(q, '/') == sb by {
      forall j | |b| <= j < |q| ensures q[j] != '/' {
        assert q[j] == ".wav"[j - |b|];
      }
      RFindAt(q, '/', sb);
    }
    assert RFind(q, '.') == |b| by {
      forall j | |b| < j < |q| ensures q[j] != '.' {
        assert q[j] == ".wav"[j - |b|];
      }
      RFindAt(q, '.', |b|);
    }
    assert !DotsOnly(q, sb + 1, |b|) by {
      var i :| sb + 1 <= i < |b| && b[i] != '.';
      assert q[i] == b[i];
    }
  }

  /** A non-WAV input never has the default output name: `convert_to_wav`
      never decodes a file onto itself. */
  lemma OutNameDiffersFromInput(p: Path)
    requires !IsWavPath(p)
    ensures DefaultOutName(p) != p
  {
  }
}
