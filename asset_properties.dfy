/**
 * The path helpers of the level editor's asset service
 * (Foreign/SonyLE/LevelEditorXLE/AssetMan/AssetProperties.cs):
 * stripping a file extension and turning a texture file name into its
 * "base texture name" wildcard.
 */
module AssetProperties {
  import opened Text
  import opened Sequences

  /** No extension dot and no directory separator in t. */
  predicate NoDotOrSeparator(t: string)
  {
    forall j :: 0 <= j < |t| ==> t[j] != '.' && t[j] != '/' && t[j] != '\\'
  }

  /** The dot at index k starts an extension: it is not the first character,
    * and nothing after it is a dot or a separator. */
  predicate ExtensionDotAt(s: string, k: int)
  {
    0 < k < |s| && s[k] == '.' && NoDotOrSeparator(s[k + 1..])
  }

  lemma ExtensionDotUnique(s: string, k: int, k': int)
    requires ExtensionDotAt(s, k) && ExtensionDotAt(s, k')
    ensures k == k'
  {
  }

  /** XLEAssetService.StripExtension: the prefix before the extension dot when
    * there is one, the input itself otherwise. */
  function StripExtension(input: string): (r: string)
    ensures |r| <= |input| && r == input[..|r|]
    ensures (exists k :: ExtensionDotAt(input, k)) ==> ExtensionDotAt(input, |r|)
    ensures (forall k :: !ExtensionDotAt(input, k)) ==> r == input
  {
    var dot := LastIndexOf(input, '.');
    var sep0 := LastIndexOf(input, '/');
    var sep1 := LastIndexOf(input, '\\');
    if dot > 0 && dot > sep0 && dot > sep1 then
      assert ExtensionDotAt(input, dot);
      input[..dot]
    else
      input
  }

  /** Appending "." + ext to a non-empty name and stripping gives the name back,
    * when ext holds no dot and no separator. */
  lemma StripExtensionRoundTrip(s: string, ext: string)
    requires |s| > 0 && NoDotOrSeparator(ext)
    ensures StripExtension(s + "." + ext) == s
  {
    var input := s + "." + ext;
    assert input[|s| + 1..] == ext;
    assert ExtensionDotAt(input, |s|);
    var r := StripExtension(input);
    ExtensionDotUnique(input, |r|, |s|);
    assert input[..|s|] == s;
  }

  /** A name whose only dot is its first character keeps it. */
  lemma StripExtensionKeepsLeadingDot(s: string)
    requires |s| > 0 && s[0] == '.' && NoDotOrSeparator(s[1..])
    ensures StripExtension(s) == s
  {
  }

  /** A dot followed later by a separator belongs to a directory name and is not an extension. */
  lemma StripExtensionKeepsDirectoryDot(dir: string, rest: string)
    requires |dir| > 0 && NoDotOrSeparator(rest)
    ensures StripExtension(dir + "." + "/" + rest) == dir + "." + "/" + rest
  {
    var s := dir + "." + "/" + rest;
    assert s[|dir| + 1] == '/';
  }

  // The texture-suffix pattern (_[dD][fF])|(_[dD][dD][nN])|(_[sS][pP]).

  predicate IsD(c: char) { c == 'd' || c == 'D' }
  predicate IsF(c: char) { c == 'f' || c == 'F' }
  predicate IsN(c: char) { c == 'n' || c == 'N' }
  predicate IsS(c: char) { c == 's' || c == 'S' }
  predicate IsP(c: char) { c == 'p' || c == 'P' }

  /** Length of the pattern match at the start of s, trying the alternatives in
    * the order the regular expression lists them; 0 when none matches. */
  function SuffixMatchLength(s: string): (n: nat)
    ensures n == 0 || n == 3 || n == 4
    ensures n <= |s|
    ensures n > 0 ==> s[0] == '_'
  {
    if |s| >= 3 && s[0] == '_' && IsD(s[1]) && IsF(s[2]) then 3
    else if |s| >= 4 && s[0] == '_' && IsD(s[1]) && IsD(s[2]) && IsN(s[3]) then 4
    else if |s| >= 3 && s[0] == '_' && IsS(s[1]) && IsP(s[2]) then 3
    else 0
  }

  /** XLEAssetService.GetBaseTextureName: Regex.Replace with "_*", scanning left to
    * right and resuming after each match. */
  function BaseTextureName(s: string): (r: string)
    ensures |r| <= |s|
    decreases |s|
  {
    if |s| == 0 then ""
    else
      var n := SuffixMatchLength(s);
      if n > 0 then "_*" + BaseTextureName(s[n..])
      else [s[0]] + BaseTextureName(s[1..])
  }

  /** No match starts anywhere in s. */
  predicate NoSuffixMatch(s: string)
  {
    forall i :: 0 <= i < |s| ==> SuffixMatchLength(s[i..]) == 0
  }

  lemma {:induction false} BaseTextureNameWithoutMatch(s: string)
    requires NoSuffixMatch(s)
    ensures BaseTextureName(s) == s
    decreases |s|
  {
    if |s| > 0 {
      assert s[0..] == s;
      assert NoSuffixMatch(s[1..]) by {
        forall i | 0 <= i < |s[1..]| ensures SuffixMatchLength(s[1..][i..]) == 0 {
          assert s[1..][i..] == s[i + 1..];
        }
      }
      BaseTextureNameWithoutMatch(s[1..]);
    }
  }

  /** Text with no '_' in it holds no match, so it is copied through and the scan goes on
    * with what follows it. */
  lemma {:induction false} BaseTextureNameCopiesPlainText(a: string, b: string)
    requires '_' !in a
    ensures BaseTextureName(a + b) == a + BaseTextureName(b)
    decreases |a|
  {
    if |a| > 0 {
      assert (a + b)[0] == a[0];
      assert (a + b)[1..] == a[1..] + b;
      assert '_' !in a[1..] by {
        forall k | 0 <= k < |a[1..]| ensures a[1..][k] != '_' {
          assert a[1..][k] == a[k + 1];
        }
      }
      BaseTextureNameCopiesPlainText(a[1..], b);
      AppendAssociative([a[0]], a[1..], BaseTextureName(b));
      assert [a[0]] + a[1..] == a;
    } else {
      assert a + b == b;
    }
  }

  /** A texture name with one of the three suffixes, between text without '_', has that
    * suffix replaced by "_*" and everything else kept. */
  lemma BaseTextureNameReplacesSuffix(name: string, suffix: string, ext: string)
    requires suffix == "_df" || suffix == "_ddn" || suffix == "_sp"
    requires '_' !in name && '_' !in ext
    ensures BaseTextureName(name + suffix + ext) == name + "_*" + ext
  {
    AppendAssociative(name, suffix, ext);
    BaseTextureNameCopiesPlainText(name, suffix + ext);
    LeadingSuffixReplaced(suffix, ext);
    AppendAssociative(name, "_*", ext);
  }

  /** A suffix at the head, followed by text without '_', becomes "_*". */
  lemma LeadingSuffixReplaced(suffix: string, ext: string)
    requires suffix == "_df" || suffix == "_ddn" || suffix == "_sp"
    requires '_' !in ext
    ensures BaseTextureName(suffix + ext) == "_*" + ext
  {
    var t := suffix + ext;
    assert t[..|suffix|] == suffix;
    assert SuffixMatchLength(t) == |suffix|;
    assert t[|suffix|..] == ext;
    assert BaseTextureName(t) == "_*" + BaseTextureName(ext);
    BaseTextureNameCopiesPlainText(ext, "");
    assert ext + "" == ext;
  }

  /** The first step of the replacement: a match becomes "_*", anything else is copied. */
  lemma BaseTextureNameUnfold(t: string)
    requires |t| > 0
    ensures SuffixMatchLength(t) > 0 ==> BaseTextureName(t)[0] == '_'
    ensures SuffixMatchLength(t) == 0 ==> BaseTextureName(t) == [t[0]] + BaseTextureName(t[1..])
  {
  }

  /** While the result holds no '_', it is the input copied: the first j + 1 characters of
    * the result are those of the input. */
  lemma {:induction false} BaseTextureNameHead(t: string, j: nat)
    requires j < |BaseTextureName(t)|
    requires forall m :: 0 <= m <= j ==> BaseTextureName(t)[m] != '_'
    ensures j < |t| && BaseTextureName(t)[..j + 1] == t[..j + 1]
  {
    var r := BaseTextureName(t);
    var rest := BaseTextureName(t[1..]);
    BaseTextureNameUnfold(t);
    assert r[0] != '_';
    assert r == [t[0]] + rest;
    if j > 0 {
      TailKeepsNoUnderscore(t[0], rest, j);
      BaseTextureNameHead(t[1..], j - 1);
      ConsSamePrefix(t[0], rest, t[1..], j);
      assert [t[0]] + t[1..] == t;
    }
  }

  /** The characters after the first of `[c] + x` up to index `j` are those of `x`. */
  lemma TailKeepsNoUnderscore(c: char, x: string, j: nat)
    requires 0 < j <= |x|
    requires forall m :: 0 <= m <= j ==> ([c] + x)[m] != '_'
    ensures forall m :: 0 <= m <= j - 1 ==> x[m] != '_'
  {
    forall m | 0 <= m <= j - 1 ensures x[m] != '_' {
      assert x[m] == ([c] + x)[m + 1];
    }
  }

  /** The same character in front of two strings that agree on their first `j` characters. */
  lemma ConsSamePrefix(c: char, x: string, y: string, j: nat)
    requires j <= |x| && j <= |y| && x[..j] == y[..j]
    ensures ([c] + x)[..j + 1] == ([c] + y)[..j + 1]
  {
    assert ([c] + x)[..j + 1] == [c] + x[..j];
    assert ([c] + y)[..j + 1] == [c] + y[..j];
  }

  /** Two strings that agree on the characters a match at the start of the first reads
    * also match at their start. */
  lemma SuffixMatchFromPrefix(x: string, y: string)
    requires SuffixMatchLength(x) > 0
    requires SuffixMatchLength(x) <= |y| && x[..SuffixMatchLength(x)] == y[..SuffixMatchLength(x)]
    ensures SuffixMatchLength(y) > 0
  {
    var n := SuffixMatchLength(x);
    assert forall m :: 0 <= m < n ==> x[m] == x[..n][m] == y[..n][m] == y[m];
  }

  /** The replacement leaves no match behind: every match of the input became "_*", and no
    * new match forms across a replacement. */
  lemma {:induction false} BaseTextureNameLeavesNoMatch(s: string)
    ensures NoSuffixMatch(BaseTextureName(s))
    decreases |s|
  {
    if |s| > 0 {
      var n := SuffixMatchLength(s);
      if n > 0 {
        BaseTextureNameLeavesNoMatch(s[n..]);
        ReplacementLeavesNoMatch(BaseTextureName(s[n..]));
      } else {
        BaseTextureNameLeavesNoMatch(s[1..]);
        CopiedHeadStartsNoMatch(s);
        CopyLeavesNoMatch(s[0], BaseTextureName(s[1..]));
      }
    }
  }

  /** "_*" in front of text holding no match starts no match either. */
  lemma ReplacementLeavesNoMatch(rest: string)
    requires NoSuffixMatch(rest)
    ensures NoSuffixMatch("_*" + rest)
  {
    var r := "_*" + rest;
    forall i | 0 <= i < |r| ensures SuffixMatchLength(r[i..]) == 0 {
      if i >= 2 {
        assert r[i..] == rest[i - 2..];
      } else {
        assert r[i..][0] == r[i];
        assert i == 0 ==> r[i..][1] == '*';
      }
    }
  }

  /** A character that starts no match, in front of text holding no match, leaves none. */
  lemma CopyLeavesNoMatch(c: char, rest: string)
    requires NoSuffixMatch(rest) && SuffixMatchLength([c] + rest) == 0
    ensures NoSuffixMatch([c] + rest)
  {
    var r := [c] + rest;
    forall i | 0 <= i < |r| ensures SuffixMatchLength(r[i..]) == 0 {
      if i >= 1 {
        assert r[i..] == rest[i - 1..];
      } else {
        assert r[0..] == r;
      }
    }
  }

  /** Where no match starts at the head of s, none starts at the head of its replacement:
    * a match there would read the same characters in s. */
  lemma CopiedHeadStartsNoMatch(s: string)
    requires |s| > 0 && SuffixMatchLength(s) == 0
    ensures SuffixMatchLength([s[0]] + BaseTextureName(s[1..])) == 0
  {
    CopiedHeadMatchIsInputMatch(s);
  }

  /** A match at the head of the copied text reads the same characters in s. */
  lemma CopiedHeadMatchIsInputMatch(s: string)
    requires |s| > 0
    ensures SuffixMatchLength([s[0]] + BaseTextureName(s[1..])) > 0 ==> SuffixMatchLength(s) > 0
  {
    var rest := BaseTextureName(s[1..]);
    var r := [s[0]] + rest;
    var k := SuffixMatchLength(r);
    if k > 0 {
      assert forall m :: 0 <= m <= k - 2 ==> rest[m] != '_' by {
        forall m | 0 <= m <= k - 2 ensures rest[m] != '_' {
          assert rest[m] == r[m + 1];
        }
      }
      BaseTextureNameHead(s[1..], k - 2);
      assert r[..k] == [s[0]] + rest[..k - 1];
      assert s[..k] == [s[0]] + s[1..][..k - 1];
      SuffixMatchFromPrefix(r, s);
    }
  }

  /** A match can only reach into b through letters, so a suffix that starts
    * with '.' does not change the match length at the start of a non-empty a. */
  lemma SuffixMatchLengthBeforeDot(a: string, b: string)
    requires |a| > 0 && (|b| == 0 || b[0] == '.')
    ensures SuffixMatchLength(a + b) == SuffixMatchLength(a)
  {
  }

  /** A trailing extension (a '.' followed by no '_') comes through unchanged. */
  lemma {:induction false} BaseTextureNameKeepsExtension(a: string, b: string)
    requires (|b| == 0 || b[0] == '.') && '_' !in b
    ensures BaseTextureName(a + b) == BaseTextureName(a) + b
    decreases |a|
  {
    if |a| == 0 {
      assert a + b == b;
      ExtensionAlone(b);
    } else {
      SuffixMatchLengthBeforeDot(a, b);
      var n := SuffixMatchLength(a);
      var k := if n > 0 then n else 1;
      var head: string := if n > 0 then "_*" else [a[0]];
      assert (a + b)[0] == a[0];
      assert (a + b)[k..] == a[k..] + b;
      assert BaseTextureName(a + b) == head + BaseTextureName(a[k..] + b);
      assert BaseTextureName(a) == head + BaseTextureName(a[k..]);
      BaseTextureNameKeepsExtension(a[k..], b);
      AppendAssociative(head, BaseTextureName(a[k..]), b);
    }
  }

  /** An extension on its own holds no match and comes through unchanged. */
  lemma ExtensionAlone(b: string)
    requires (|b| == 0 || b[0] == '.') && '_' !in b
    ensures BaseTextureName(b) == b
  {
    assert NoSuffixMatch(b) by {
      forall i | 0 <= i < |b| ensures SuffixMatchLength(b[i..]) == 0 {
        assert b[i..][0] == b[i];
      }
    }
    BaseTextureNameWithoutMatch(b);
  }

}
