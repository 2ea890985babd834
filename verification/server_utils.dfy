/** The filename helpers of `src/lib/serverUtils.ts`: extension extraction
    (Node's `path.extname` followed by `toLowerCase`), filename sanitising and
    extension allow-listing. */
module ServerUtils {
  import opened Strings
  import Seqs

  // ---------------------------------------------------------------------------
  // path.extname (POSIX)

  /** Index of the last occurrence of `c` in `s`, or -1. */
  function LastIndex(s: string, c: char): (r: int)
    ensures -1 <= r < |s|
    ensures r >= 0 ==> s[r] == c && c !in s[r + 1..]
    ensures r == -1 <==> c !in s
  {
    if s == [] then -1
    else if s[|s| - 1] == c then |s| - 1
    else
      assert s == s[..|s| - 1] + [s[|s| - 1]];
      LastIndex(s[..|s| - 1], c)
  }

  /** `extname` ignores trailing path separators. */
  function TrimTrailingSlashes(p: string): (r: string)
    ensures |r| <= |p| && r == p[..|r|]
    ensures r == [] || r[|r| - 1] != '/'
    ensures (p == [] || p[|p| - 1] != '/') ==> r == p
  {
    if p != [] && p[|p| - 1] == '/' then TrimTrailingSlashes(p[..|p| - 1]) else p
  }

  /** The last path segment, after the last "/" (trailing ones removed). */
  function BaseName(p: string): (b: string)
    ensures '/' !in b
  {
    var e := TrimTrailingSlashes(p);
    e[LastIndex(e, '/') + 1..]
  }

  /** Node's `path.extname`: from the last "." of the last segment to its end,
      or "" when that segment has no ".", starts with its only ".", or is "..". */
  function ExtName(p: string): (ext: string)
    ensures ext == [] || ext[0] == '.'
    ensures forall i :: 1 <= i < |ext| ==> ext[i] != '.'
    ensures '/' !in ext
    // a proper suffix of the last segment, starting at its last "."
    ensures |ext| <= |BaseName(p)| && ext == BaseName(p)[|BaseName(p)| - |ext|..]
    ensures ext != [] ==> |ext| < |BaseName(p)|
    // empty exactly when no "." follows the segment's first character, or the segment is ".."
    ensures ext == [] <==> BaseName(p) == [] || BaseName(p) == ".." || '.' !in BaseName(p)[1..]
  {
    var base := BaseName(p);
    var d := LastIndex(base, '.');
    LastIndexPositive(base, '.');
    if d <= 0 || base == ".." then "" else base[d..]
  }

  /** The last occurrence is past the first character exactly when one
      occurs there. */
  lemma LastIndexPositive(s: string, c: char)
    ensures LastIndex(s, c) > 0 <==> s != [] && c in s[1..]
  {
    var d := LastIndex(s, c);
    if d > 0 {
      assert s[1..][d - 1] == s[d];
    }
  }

  /** `getFileExtension` (serverUtils.ts:13-15). */
  function GetFileExtension(filename: string): (ext: string)
    ensures ext == [] || ext[0] == '.'
    ensures IsLowercase(ext)
    ensures forall i :: 1 <= i < |ext| ==> ext[i] != '.'
    ensures '/' !in ext
  {
    var e := ExtName(filename);
    LowerKeepsExtensionShape(e);
    ToLower(e)
  }

  /** Lowercasing changes neither the dots nor the slashes of an extension. */
  lemma LowerKeepsExtensionShape(e: string)
    requires e == [] || e[0] == '.'
    requires forall i :: 1 <= i < |e| ==> e[i] != '.'
    requires '/' !in e
    ensures var l := ToLower(e);
      (l == [] || l[0] == '.') && (forall i :: 1 <= i < |l| ==> l[i] != '.') && '/' !in l
  {
    assert forall i :: 0 <= i < |e| ==> (e[i] == '.' || e[i] == '/' ==> LowerChar(e[i]) == e[i]);
  }

  lemma {:induction false} LastIndexAfter(s: string, c: char, t: string)
    requires c !in t
    ensures LastIndex(s + [c] + t, c) == |s|
    decreases |t|
  {
    var u := s + [c] + t;
    if t != [] {
      assert u[..|u| - 1] == s + [c] + t[..|t| - 1];
      LastIndexAfter(s, c, t[..|t| - 1]);
    }
  }

  /** A name without "/" is its own last segment. */
  lemma BaseNameOfPlainName(name: string)
    requires '/' !in name
    ensures BaseName(name) == name
  {
    assert name == [] || name[|name| - 1] != '/';
  }

  lemma ExtNameOfLastDot(stem: string, tail: string)
    requires '/' !in stem && '/' !in tail && '.' !in tail
    requires stem != [] && stem + "." + tail != ".."
    ensures ExtName(stem + "." + tail) == "." + tail
  {
    var name := stem + "." + tail;
    assert '/' !in name;
    BaseNameOfPlainName(name);
    LastIndexAfter(stem, '.', tail);
    var d := LastIndex(name, '.');
    assert d == |stem| > 0;
    assert name[d..] == "." + tail;
  }

  /** For a plain name (no "/"), the extension is the lowercased text from the
      last "." to the end, provided something precedes that "." and the name is
      not "..": "a.TAR.GZ" has extension ".gz". */
  lemma ExtensionIsLastDotSuffix(stem: string, tail: string)
    requires '/' !in stem && '/' !in tail && '.' !in tail
    requires stem != [] && stem + "." + tail != ".."
    ensures GetFileExtension(stem + "." + tail) == "." + ToLower(tail)
  {
    var name := stem + "." + tail;
    ExtNameOfLastDot(stem, tail);
    LowerOfDotSuffix(tail);
    assert GetFileExtension(name) == ToLower(ExtName(name));
  }

  lemma LowerOfDotSuffix(tail: string)
    ensures ToLower("." + tail) == "." + ToLower(tail)
  {
    ToLowerAppend(".", tail);
    assert ToLower(".") == ".";
  }

  /** A name without any "." has no extension. */
  lemma NoDotNoExtension(name: string)
    requires '.' !in name
    ensures GetFileExtension(name) == ""
  {
    var e := TrimTrailingSlashes(name);
    assert '.' !in e by { assert forall i :: 0 <= i < |e| ==> e[i] == name[i]; }
    var base := BaseName(name);
    assert '.' !in base by { assert forall i :: 0 <= i < |base| ==> base[i] in e; }
    assert LastIndex(base, '.') == -1;
    assert ExtName(name) == [];
  }

  /** A dot-file such as ".bashrc" has no extension. */
  lemma DotFileHasNoExtension(tail: string)
    requires '/' !in tail && '.' !in tail
    ensures GetFileExtension("." + tail) == ""
  {
    var name := [] + ['.'] + tail;
    assert '/' !in name;
    BaseNameOfPlainName(name);
    LastIndexAfter([], '.', tail);
    assert ExtName(name) == [];
  }

  /** Only the last suffix of a compound extension counts: "a.tar.GZ" gives ".gz". */
  lemma CompoundExtensionKeepsLastPart(stem: string, inner: string, tail: string)
    requires '/' !in stem && '/' !in inner && '/' !in tail && '.' !in tail
    requires stem != []
    ensures GetFileExtension(stem + "." + inner + "." + tail) == "." + ToLower(tail)
  {
    var front := stem + "." + inner;
    assert '/' !in front;
    assert |front + "." + tail| > 2;
    ExtensionIsLastDotSuffix(front, tail);
  }

  // ---------------------------------------------------------------------------
  // sanitizeFilename

  /** The class `[/\\?%*:|"<>]` of the first `replace`. */
  predicate IsReserved(c: char) {
    c in "/\\?%*:|\"<>"
  }

  /** The class `\s` of JavaScript regular expressions. */
  predicate IsJsWhitespace(c: char) {
    var n := c as int;
    (0x09 <= n <= 0x0D) || n == 0x20 || n == 0xA0 || n == 0x1680
    || (0x2000 <= n <= 0x200A) || n == 0x2028 || n == 0x2029 || n == 0x202F
    || n == 0x205F || n == 0x3000 || n == 0xFEFF
  }

  predicate NoReserved(s: string) { forall i :: 0 <= i < |s| ==> !IsReserved(s[i]) }
  predicate NoWhitespace(s: string) { forall i :: 0 <= i < |s| ==> !IsJsWhitespace(s[i]) }

  /** `.replace(/[/\\?%*:|"<>]/g, "-")` */
  function ReplaceReserved(s: string): (r: string)
    ensures |r| == |s| && NoReserved(r)
    ensures forall i :: 0 <= i < |s| ==> r[i] == if IsReserved(s[i]) then '-' else s[i]
  {
    seq(|s|, i requires 0 <= i < |s| => if IsReserved(s[i]) then '-' else s[i])
  }

  /** What is left of `s` after its leading whitespace run. */
  function DropWhitespace(s: string): (r: string)
    ensures |r| <= |s| && r == s[|s| - |r|..]
    ensures r == [] || !IsJsWhitespace(r[0])
    ensures s != [] && IsJsWhitespace(s[0]) ==> |r| < |s|
  {
    if s != [] && IsJsWhitespace(s[0]) then DropWhitespace(s[1..]) else s
  }

  /** `.replace(/\s+/g, "-")`: each maximal whitespace run becomes one "-". */
  function CollapseWhitespace(s: string): (r: string)
    ensures |r| <= |s| && NoWhitespace(r)
    ensures forall i :: 0 <= i < |r| ==> r[i] == '-' || r[i] in s
    decreases |s|
  {
    if s == [] then []
    else if IsJsWhitespace(s[0]) then
      var rest := DropWhitespace(s);
      assert forall c :: c in rest ==> c in s;
      "-" + CollapseWhitespace(rest)
    else
      [s[0]] + CollapseWhitespace(s[1..])
  }

  /** `sanitizeFilename` (serverUtils.ts:17-22). */
  function SanitizeFilename(filename: string): (r: string)
    ensures NoReserved(r) && NoWhitespace(r) && IsLowercase(r)
    ensures |r| <= |filename|
  {
    var c := CollapseWhitespace(ReplaceReserved(filename));
    assert NoReserved(c) by {
      forall i | 0 <= i < |c| ensures !IsReserved(c[i]) {
        if c[i] != '-' {
          var t := ReplaceReserved(filename);
          var j :| 0 <= j < |t| && t[j] == c[i];
        }
      }
    }
    ToLower(c)
  }

  /** A string without whitespace passes the run-collapsing step unchanged. */
  lemma {:induction false} CollapseWithoutWhitespace(s: string)
    requires NoWhitespace(s)
    ensures CollapseWhitespace(s) == s
    decreases |s|
  {
    if s != [] {
      CollapseWithoutWhitespace(s[1..]);
    }
  }

  lemma {:induction false} DropWhitespaceRun(w: string, b: string)
    requires forall i :: 0 <= i < |w| ==> IsJsWhitespace(w[i])
    requires b == [] || !IsJsWhitespace(b[0])
    ensures DropWhitespace(w + b) == b
    decreases |w|
  {
    if w != [] {
      assert (w + b)[1..] == w[1..] + b;
      DropWhitespaceRun(w[1..], b);
    }
  }

  /** A maximal whitespace run `w`, preceded by text without whitespace and
      followed by a non-whitespace character (or nothing), becomes exactly one
      "-". */
  lemma {:induction false} WhitespaceRunBecomesOneDash(a: string, w: string, b: string)
    requires NoWhitespace(a)
    requires w != [] && forall i :: 0 <= i < |w| ==> IsJsWhitespace(w[i])
    requires b == [] || !IsJsWhitespace(b[0])
    ensures CollapseWhitespace(a + w + b) == a + "-" + CollapseWhitespace(b)
    decreases |a|
  {
    if a == [] {
      assert a + w + b == w + b;
      DropWhitespaceRun(w, b);
    } else {
      assert (a + w + b)[1..] == a[1..] + w + b;
      WhitespaceRunBecomesOneDash(a[1..], w, b);
    }
  }

  /** `sanitizeFilename` is idempotent. */
  lemma SanitizeIdempotent(filename: string)
    ensures SanitizeFilename(SanitizeFilename(filename)) == SanitizeFilename(filename)
  {
    var s := SanitizeFilename(filename);
    assert ReplaceReserved(s) == s;
    CollapseWithoutWhitespace(s);
    ToLowerOfLowercase(s);
  }

  // ---------------------------------------------------------------------------
  // isValidFileType

  /** `isValidFileType` (serverUtils.ts:24-30): only an entry that is "" or a
      lowercase "."-prefixed suffix without further "." can ever match. */
  function IsValidFileType(filename: string, allowedTypes: seq<string>): (valid: bool)
    ensures valid ==> exists e :: e in allowedTypes && WellFormedEntry(e)
  {
    var ext := GetFileExtension(filename);
    ext in allowedTypes
  }

  /** An allow-list entry shaped like something `GetFileExtension` returns. */
  predicate WellFormedEntry(e: string) {
    (e == [] || e[0] == '.') && IsLowercase(e) && '/' !in e
    && forall i :: 1 <= i < |e| ==> e[i] != '.'
  }

  /** Dropping every entry that is not shaped like an extension ("png",
      ".PNG", ".tar.gz") never changes the verdict: such entries never match. */
  lemma OnlyWellFormedEntriesMatter(filename: string, allowedTypes: seq<string>)
    ensures IsValidFileType(filename, allowedTypes)
        == IsValidFileType(filename, Seqs.Filter(WellFormedEntry, allowedTypes))
  {
    var ext := GetFileExtension(filename);
    if ext in allowedTypes {
      var i :| 0 <= i < |allowedTypes| && allowedTypes[i] == ext;
      assert WellFormedEntry(allowedTypes[i]);
    }
  }

  /** A name accepts exactly when the lowercased part after its last dot,
      with the dot, is listed: "Report.PDF" passes `[".pdf"]`, not `["pdf"]`. */
  lemma AcceptedByLastSuffix(stem: string, tail: string, allowedTypes: seq<string>)
    requires '/' !in stem && '/' !in tail && '.' !in tail
    requires stem != [] && stem + "." + tail != ".."
    ensures IsValidFileType(stem + "." + tail, allowedTypes) <==> "." + ToLower(tail) in allowedTypes
  {
    ExtensionIsLastDotSuffix(stem, tail);
  }
}
