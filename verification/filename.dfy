/** `sanitize_filename` (main.py): the nine characters `< > : " / \ | ? *`
    become '_' (other characters Windows rejects in a file name, such as
    control characters, are kept), and a name longer than 250 characters is
    cut down by shortening its stem while keeping its extension. */
module Filename {

  /** The characters of the pattern `[<>:"/\\|?*]`. */
  const Illegal: set<char> := {'<', '>', ':', '"', '/', '\\', '|', '?', '*'}

  /** What each illegal character is replaced with. */
  const Replacement: char := '_'

  /** The longest name the sanitiser lets through unshortened. */
  const MaxLength: nat := 250

  /** The separators `os.path.splitext` looks past on Windows. */
  const Separators: set<char> := {'\\', '/'}

  predicate Clean(s: string) {
    forall i :: 0 <= i < |s| ==> s[i] !in Illegal
  }

  /** `re.sub(invalid_chars, '_', s)`: a character-for-character rewrite. */
  function ReplaceIllegal(s: string): (r: string)
    ensures |r| == |s|
    ensures forall i :: 0 <= i < |s| ==> r[i] == (if s[i] in Illegal then Replacement else s[i])
    decreases |s|
  {
    if s == [] then []
    else [if s[0] in Illegal then Replacement else s[0]] + ReplaceIllegal(s[1..])
  }

  /** The index of the last character of `s` that lies in `cs`, or -1 when
      there is none (Python's `rfind`, taken over a set of characters). */
  function RFind(s: string, cs: set<char>): (r: int)
    ensures -1 <= r < |s|
    ensures r >= 0 ==> s[r] in cs
    ensures forall i :: r < i < |s| ==> s[i] !in cs
    decreases |s|
  {
    if s == [] then -1
    else if s[|s| - 1] in cs then |s| - 1
    else RFind(s[..|s| - 1], cs)
  }

  datatype NameParts = NameParts(stem: string, ext: string)

  /** `os.path.splitext`: the extension runs from the last '.' that follows
      the last separator, provided something other than dots precedes that
      '.' within the final path component; otherwise it is empty. */
  function SplitExt(p: string): (r: NameParts)
    ensures r.stem + r.ext == p
    ensures r.ext != [] ==> r.ext[0] == '.'
    ensures forall i :: 0 < i < |r.ext| ==> r.ext[i] != '.' && r.ext[i] !in Separators
    ensures r.ext != [] ==> exists i | RFind(r.stem, Separators) < i < |r.stem| :: r.stem[i] != '.'
    ensures r.ext == [] ==>
      forall k | RFind(p, Separators) < k < |p| && p[k] == '.' ::
        forall i | RFind(p, Separators) < i < k :: p[i] == '.'
  {
    var sepIndex := RFind(p, Separators);
    var dotIndex := RFind(p, {'.'});
    if dotIndex > sepIndex && exists i | sepIndex < i < dotIndex :: p[i] != '.' then
      RFindPrefix(p, Separators, dotIndex);
      NameParts(p[..dotIndex], p[dotIndex..])
    else
      NameParts(p, [])
  }

  /** Cutting `s` after its last character from `cs` does not move that
      character. */
  lemma RFindPrefix(s: string, cs: set<char>, n: nat)
    requires RFind(s, cs) < n <= |s|
    ensures RFind(s[..n], cs) == RFind(s, cs)
  {
    if RFind(s[..n], cs) != RFind(s, cs) {
      assert false;
    }
  }

  /** Python's `s[:n]`, where a negative `n` counts from the end. */
  function SliceTo(s: string, n: int): (r: string)
    ensures r <= s
    ensures 0 <= n <= |s| ==> |r| == n
    ensures n > |s| ==> r == s
    ensures n < 0 ==> |r| == (if |s| + n >= 0 then |s| + n else 0)
  {
    if n >= 0 then (if n <= |s| then s[..n] else s)
    else if |s| + n >= 0 then s[..|s| + n]
    else []
  }

  /** The stem cut to leave room for the extension, followed by the extension
      (`name_part[:250-len(ext_part)] + ext_part`). */
  function Shorten(parts: NameParts): (r: string)
    ensures |parts.ext| <= |r|
    ensures r[|r| - |parts.ext|..] == parts.ext
    ensures r[..|r| - |parts.ext|] <= parts.stem
    ensures |parts.ext| <= MaxLength ==> |r| <= MaxLength
    ensures |parts.ext| <= MaxLength && |parts.stem| + |parts.ext| > MaxLength ==> |r| == MaxLength
    ensures Clean(parts.stem) && Clean(parts.ext) ==> Clean(r)
  {
    var cut := SliceTo(parts.stem, MaxLength - |parts.ext|);
    assert (cut + parts.ext)[..|cut|] == cut;
    assert forall i :: 0 <= i < |cut| ==> cut[i] == parts.stem[i];
    cut + parts.ext
  }

  /** `sanitize_filename`. */
  function Sanitize(filename: string): (r: string)
    ensures Clean(r)
    ensures |ReplaceIllegal(filename)| <= MaxLength ==> r == ReplaceIllegal(filename)
    ensures var parts := SplitExt(ReplaceIllegal(filename));
      |ReplaceIllegal(filename)| > MaxLength ==>
        && |parts.ext| <= |r|
        && r[|r| - |parts.ext|..] == parts.ext
        && r[..|r| - |parts.ext|] <= parts.stem
    ensures var parts := SplitExt(ReplaceIllegal(filename));
      |parts.ext| <= MaxLength ==> |r| <= MaxLength
    ensures var parts := SplitExt(ReplaceIllegal(filename));
      |ReplaceIllegal(filename)| > MaxLength && |parts.ext| <= MaxLength ==> |r| == MaxLength
  {
    var sanitized := ReplaceIllegal(filename);
    ReplaceIllegalIsClean(filename);
    if |sanitized| > MaxLength then
      var parts := SplitExt(sanitized);
      SplitExtKeepsClean(sanitized);
      Shorten(parts)
    else
      sanitized
  }

  lemma ReplaceIllegalIsClean(s: string)
    ensures Clean(ReplaceIllegal(s))
  {
  }

  lemma SplitExtKeepsClean(p: string)
    requires Clean(p)
    ensures Clean(SplitExt(p).stem) && Clean(SplitExt(p).ext)
  {
  }

  /** A name with no illegal character is left alone by the replacement. */
  lemma ReplaceIllegalKeepsClean(s: string)
    requires Clean(s)
    ensures ReplaceIllegal(s) == s
  {
  }

  /** Sanitising twice is sanitising once, as long as the first pass did not
      meet an extension too long to keep within the limit. */
  lemma SanitizeIdempotent(filename: string)
    requires |SplitExt(ReplaceIllegal(filename)).ext| <= MaxLength
    ensures Sanitize(Sanitize(filename)) == Sanitize(filename)
  {
    var once := Sanitize(filename);
    ReplaceIllegalKeepsClean(once);
  }

  /** "a." followed by `n` letters 'b'. */
  function LongExtensionName(n: nat): (name: string)
    ensures |name| == n + 2 && name[0] == 'a' && name[1] == '.'
    ensures forall i :: 1 < i < |name| ==> name[i] == 'b'
  {
    "a." + seq(n, _ => 'b')
  }

  lemma LongExtensionSplit(n: nat)
    ensures SplitExt(LongExtensionName(n)) == NameParts("a", LongExtensionName(n)[1..])
  {
    var name := LongExtensionName(n);
    if RFind(name, Separators) >= 0 {
      assert false;
    }
    var dot := RFind(name, {'.'});
    if dot != 1 {
      assert false;
    }
    assert name[0] != '.';
  }

  /** As written, the bound fails when the extension alone is longer than
      the limit. The slice bound is then negative, so it only removes the
      last |ext| - 250 characters of the stem, and the extension is kept
      whole: the result is max(|ext|, |stem| + 250) characters long. The
      stem vanishes entirely only when |stem| <= |ext| - 250, as it does for
      "a." followed by 250 or more letters, which comes out longer than 250
      characters. */
  lemma LongExtensionOverflows(n: nat)
    requires n >= MaxLength
    ensures |Sanitize(LongExtensionName(n))| == n + 1
    ensures |Sanitize(LongExtensionName(n))| > MaxLength
  {
    var name := LongExtensionName(n);
    LongExtensionNameClean(n);
    ReplaceIllegalKeepsClean(name);
    LongExtensionSplit(n);
    ShortenDropsStem(NameParts("a", name[1..]));
  }

  lemma LongExtensionNameClean(n: nat)
    ensures Clean(LongExtensionName(n))
  {
    var name := LongExtensionName(n);
    forall i | 0 <= i < |name| ensures name[i] !in Illegal {
      assert name[i] in "ab.";
    }
  }

  /** An extension at least as long as the limit leaves no room for the
      stem, and is kept whole. */
  lemma ShortenDropsStem(parts: NameParts)
    requires |parts.stem| + MaxLength <= |parts.ext|
    ensures Shorten(parts) == parts.ext
  {
  }

  /** The sanitiser with the limit kept for every input: a name whose
      extension does not fit is cut to its first 250 characters. Everywhere
      else it agrees with `Sanitize`. */
  function SanitizeBounded(filename: string): (r: string)
    ensures Clean(r)
    ensures |r| <= MaxLength
    ensures |ReplaceIllegal(filename)| <= MaxLength ==> r == ReplaceIllegal(filename)
    ensures |SplitExt(ReplaceIllegal(filename)).ext| <= MaxLength ==> r == Sanitize(filename)
    ensures |SplitExt(ReplaceIllegal(filename)).ext| > MaxLength ==> r == ReplaceIllegal(filename)[..MaxLength]
  {
    var sanitized := ReplaceIllegal(filename);
    ReplaceIllegalIsClean(filename);
    if |SplitExt(sanitized).ext| > MaxLength then sanitized[..MaxLength]
    else Sanitize(filename)
  }

  /** The bounded sanitiser is idempotent on every input. */
  lemma SanitizeBoundedIdempotent(filename: string)
    ensures SanitizeBounded(SanitizeBounded(filename)) == SanitizeBounded(filename)
  {
    var once := SanitizeBounded(filename);
    ReplaceIllegalKeepsClean(once);
  }
}
