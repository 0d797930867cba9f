/**
  Path matching of brain-landing/lib/bff-proxy.ts: which backend paths a proxy route lets through.
 */
module ProxyPath {
  import opened Collections

  // ---- text ---------------------------------------------------------------------------------

  /** `replace(/^\/+/, '')`. */
  function StripSlashes(s: string): string {
    if s != "" && s[0] == '/' then StripSlashes(s[1..]) else s
  }

  /** What `.` does not match in a regular expression. */
  predicate IsLineTerminator(c: char) {
    c == '\n' || c == '\r' || c == '\U{2028}' || c == '\U{2029}'
  }

  predicate OneLine(s: string) {
    forall i :: 0 <= i < |s| ==> !IsLineTerminator(s[i])
  }

  /** `replace(/\?.*$/, '')`: from the first question mark that has no line terminator after it. */
  function StripQuery(s: string): string {
    if s == "" then ""
    else if s[0] == '?' && OneLine(s[1..]) then ""
    else [s[0]] + StripQuery(s[1..])
  }

  function LowerChar(c: char): char {
    if 'A' <= c <= 'Z' then c - 'A' + 'a' else c
  }

  function Lower(s: string): (r: string)
    ensures |r| == |s| && forall i :: 0 <= i < |r| ==> r[i] == LowerChar(s[i])
  {
    if s == "" then "" else [LowerChar(s[0])] + Lower(s[1..])
  }

  // ---- segments -----------------------------------------------------------------------------

  /** `split('/')`. */
  function Split(s: string): (r: seq<string>)
    ensures r != []
  {
    if s == "" then [""]
    else
      var rest := Split(s[1..]);
      if s[0] == '/' then [""] + rest else [[s[0]] + rest[0]] + rest[1..]
  }

  function Join(segments: seq<string>): string
    requires segments != []
  {
    if |segments| == 1 then segments[0] else segments[0] + "/" + Join(segments[1..])
  }

  lemma {:induction false} JoinSplit(s: string)
    ensures Join(Split(s)) == s
  {
    if s != "" {
      var rest := Split(s[1..]);
      JoinSplit(s[1..]);
      if s[0] == '/' {
        assert ([""] + rest)[1..] == rest;
      } else {
        var r := [[s[0]] + rest[0]] + rest[1..];
        assert r[1..] == rest[1..];
        assert s == [s[0]] + s[1..];
        if |rest| > 1 {
          assert [s[0]] + (rest[0] + "/" + Join(rest[1..])) == ([s[0]] + rest[0]) + "/" + Join(rest[1..]);
        }
      }
    }
  }

  /** `c` in front of the first of `segments`, or in front of them all if it is a slash. */
  function Glue(c: char, segments: seq<string>): seq<string>
    requires segments != []
  {
    if c == '/' then [""] + segments else [[c] + segments[0]] + segments[1..]
  }

  lemma SplitCons(c: char, s: string)
    ensures Split([c] + s) == Glue(c, Split(s))
  {
    assert ([c] + s)[1..] == s;
  }

  lemma GlueAppend(c: char, a: seq<string>, b: seq<string>)
    requires a != []
    ensures Glue(c, a + b) == Glue(c, a) + b
  {
    if c == '/' {
      assert [""] + (a + b) == [""] + a + b;
    } else {
      assert (a + b)[1..] == a[1..] + b;
    }
  }

  lemma {:induction false} SplitAtSlash(a: string, b: string)
    ensures Split(a + "/" + b) == Split(a) + Split(b)
  {
    if a == "" {
      assert a + "/" + b == ['/'] + b;
      SplitCons('/', b);
    } else {
      var rest := a[1..] + "/" + b;
      assert a + "/" + b == [a[0]] + rest && a == [a[0]] + a[1..];
      SplitAtSlash(a[1..], b);
      SplitCons(a[0], rest);
      SplitCons(a[0], a[1..]);
      GlueAppend(a[0], Split(a[1..]), Split(b));
    }
  }

  lemma {:induction false} JoinAppend(a: seq<string>, b: seq<string>)
    requires a != [] && b != []
    ensures Join(a + b) == Join(a) + "/" + Join(b)
  {
    if |a| == 1 {
      assert (a + b)[1..] == b;
    } else {
      JoinAppend(a[1..], b);
      assert (a + b)[1..] == a[1..] + b;
      assert a[0] + "/" + (Join(a[1..]) + "/" + Join(b)) == (a[0] + "/" + Join(a[1..])) + "/" + Join(b);
    }
  }

  /** To continue a path after a slash is to add segments. */
  lemma PrefixInSegments(path: string, p: string)
    ensures StartsWith(path, p + "/") <==> Split(p) < Split(path)
    ensures path == p || StartsWith(path, p + "/") <==> Split(p) <= Split(path)
  {
    if StartsWith(path, p + "/") {
      var rest := path[|p| + 1..];
      assert path == p + "/" + rest;
      SplitAtSlash(p, rest);
    }
    if Split(p) < Split(path) {
      var more := Split(path)[|Split(p)|..];
      assert Split(path) == Split(p) + more;
      JoinAppend(Split(p), more);
      JoinSplit(p);
      JoinSplit(path);
      assert path == p + "/" + Join(more);
    }
    if Split(p) == Split(path) {
      JoinSplit(p);
      JoinSplit(path);
    }
  }

  // ---- the verdict --------------------------------------------------------------------------

  function Normalized(rawPath: string): string {
    StripQuery(StripSlashes(rawPath))
  }

  predicate Denied(path: string, entry: string) {
    var lower, d := Lower(path), Lower(entry);
    EndsWith(lower, d) || EndsWith(lower, d + "/")
  }

  predicate Allows(path: string, entry: string) {
    var p := StripSlashes(entry);
    path == p || StartsWith(path, if EndsWith(p, "/") then p else p + "/")
  }

  predicate IsPathAllowed(rawPath: string, allow: seq<string>, deny: seq<string>) {
    var path := Normalized(rawPath);
    (forall i :: 0 <= i < |deny| ==> !Denied(path, deny[i])) && exists i :: 0 <= i < |allow| && Allows(path, allow[i])
  }

  lemma {:induction false} NoLeadingSlash(s: string)
    ensures StripSlashes(s) == "" || StripSlashes(s)[0] != '/'
  {
    if s != "" && s[0] == '/' {
      NoLeadingSlash(s[1..]);
    }
  }

  /** All leading slashes go, and nothing else. */
  lemma {:induction false} StripsLeadingSlashes(s: string, k: nat)
    requires k <= |s| && (forall i :: 0 <= i < k ==> s[i] == '/') && (k < |s| ==> s[k] != '/')
    ensures StripSlashes(s) == s[k..]
  {
    if k > 0 {
      StripsLeadingSlashes(s[1..], k - 1);
      assert s[1..][k - 1..] == s[k..];
    } else {
      assert s[0..] == s;
    }
  }

  lemma NormalizedHasNoLeadingSlash(rawPath: string)
    ensures Normalized(rawPath) == "" || Normalized(rawPath)[0] != '/'
  {
    NoLeadingSlash(rawPath);
  }

  /** What an allow entry means, for every entry: with its leading slashes gone, an empty one stands
      for the empty path alone; one that ends in a slash for everything strictly below it; any
      other for itself and everything below, segment by segment. */
  lemma AllowsExactlyWhen(rawPath: string, entry: string)
    ensures var path, p := Normalized(rawPath), StripSlashes(entry);
      Allows(path, entry) <==>
        if p == "" then path == ""
        else if EndsWith(p, "/") then Split(p[..|p| - 1]) < Split(path)
        else Split(p) <= Split(path)
  {
    var path, p := Normalized(rawPath), StripSlashes(entry);
    NormalizedHasNoLeadingSlash(rawPath);
    if p == "" {
      assert !EndsWith(p, "/") && p + "/" == "/";
    } else if EndsWith(p, "/") {
      var q := p[..|p| - 1];
      assert p == q + "/";
      PrefixInSegments(path, q);
    } else {
      PrefixInSegments(path, p);
    }
  }

  // ---- what does not matter -----------------------------------------------------------------

  /** Leading slashes, any number of them, never change the verdict. */
  lemma {:induction false} LeadingSlashesIgnored(slashes: string, rawPath: string,
                                                allow: seq<string>, deny: seq<string>)
    requires forall i :: 0 <= i < |slashes| ==> slashes[i] == '/'
    ensures IsPathAllowed(slashes + rawPath, allow, deny) == IsPathAllowed(rawPath, allow, deny)
  {
    if slashes == "" {
      assert slashes + rawPath == rawPath;
    } else {
      assert (slashes + rawPath)[1..] == slashes[1..] + rawPath;
      LeadingSlashesIgnored(slashes[1..], rawPath, allow, deny);
    }
  }

  lemma {:induction false} StripSlashesKeepsEnd(s: string, query: string)
    ensures StripSlashes(s + "?" + query) == StripSlashes(s) + "?" + query
  {
    if s != "" {
      assert (s + "?" + query)[1..] == s[1..] + "?" + query;
      if s[0] == '/' {
        StripSlashesKeepsEnd(s[1..], query);
      }
    }
  }

  lemma {:induction false} StripQueryDrops(s: string, query: string)
    requires OneLine(query)
    ensures StripQuery(s + "?" + query) == StripQuery(s)
  {
    if s == "" {
      assert ("?" + query)[1..] == query;
      assert s + "?" + query == "?" + query;
    } else {
      var t := s + "?" + query;
      assert t[1..] == s[1..] + "?" + query;
      StripQueryDrops(s[1..], query);
      OneLineParts(s[1..], query);
    }
  }

  lemma OneLineParts(s: string, query: string)
    requires OneLine(query)
    ensures OneLine(s + "?" + query) <==> OneLine(s)
  {
    var t := s + "?" + query;
    assert forall i :: 0 <= i < |s| ==> t[i] == s[i];
    assert t[|s|] == '?';
    assert forall i :: |s| < i < |t| ==> t[i] == query[i - |s| - 1];
  }

  /** Nor does a query string, as long as it is on one line. */
  lemma QueryIgnored(rawPath: string, query: string, allow: seq<string>, deny: seq<string>)
    requires OneLine(query)
    ensures IsPathAllowed(rawPath + "?" + query, allow, deny) == IsPathAllowed(rawPath, allow, deny)
  {
    StripSlashesKeepsEnd(rawPath, query);
    StripQueryDrops(StripSlashes(rawPath), query);
  }

  lemma {:induction false} NoQueryNoStrip(s: string)
    requires '?' !in s
    ensures StripQuery(s) == s
  {
    if s != "" {
      assert s == [s[0]] + s[1..];
      NoQueryNoStrip(s[1..]);
    }
  }

  lemma {:induction false} FirstMarkStays(path: string, query: string)
    requires '?' !in path && !OneLine(query)
    ensures StartsWith(StripQuery(path + "?" + query), path + "?")
  {
    var t := path + "?" + query;
    if path == "" {
      assert t == "?" + query;
      assert t[1..] == query;
    } else {
      assert t[1..] == path[1..] + "?" + query;
      FirstMarkStays(path[1..], query);
      assert path + "?" == [path[0]] + (path[1..] + "?");
    }
  }

  /** The path that is matched is what stands before the first question mark exactly when no line
      terminator follows it. */
  lemma QueryCutExactlyWhen(path: string, query: string)
    requires '?' !in path
    ensures Normalized(path + "?" + query) == StripSlashes(path)
       <==> '\n' !in query && '\r' !in query && '\U{2028}' !in query && '\U{2029}' !in query
  {
    StripSlashesKeepsEnd(path, query);
    NoMarkAfter(path);
    if OneLine(query) {
      StripQueryDrops(StripSlashes(path), query);
      NoQueryNoStrip(StripSlashes(path));
    } else {
      FirstMarkStays(StripSlashes(path), query);
    }
  }

  /** With several question marks, the cut is at the first that has no line terminator behind it. */
  lemma {:induction false} CutAtFirstFreeMark(s: string, i: nat)
    requires i <= |s| && (i < |s| ==> s[i] == '?' && OneLine(s[i + 1..]))
    requires forall k :: 0 <= k < i && s[k] == '?' ==> !OneLine(s[k + 1..])
    ensures StripQuery(s) == s[..i]
  {
    if i > 0 {
      assert s[1..][i - 1..] == s[i..];
      forall k | 0 <= k < i - 1 && s[1..][k] == '?' ensures !OneLine(s[1..][k + 1..]) {
        assert s[1..][k + 1..] == s[k + 2..];
      }
      assert i < |s| ==> s[1..][i..] == s[i + 1..];
      CutAtFirstFreeMark(s[1..], i - 1);
      assert s[..i] == [s[0]] + s[1..][..i - 1];
    }
  }

  lemma {:induction false} NoMarkAfter(path: string)
    requires '?' !in path
    ensures '?' !in StripSlashes(path)
  {
    if path != "" && path[0] == '/' {
      assert forall c :: c in path[1..] ==> c in path;
      NoMarkAfter(path[1..]);
    }
  }

  /** So a path allowed by name keeps its verdict under a query exactly when the query is on one
      line; otherwise the query counts as part of its last segment. */
  lemma AllowedByNameExactlyWhen(path: string, query: string)
    requires '?' !in path && !StartsWith(path, "/") && !EndsWith(path, "/")
    ensures IsPathAllowed(path, [path], [])
    ensures IsPathAllowed(path + "?" + query, [path], []) <==> OneLine(query)
  {
    assert StripSlashes(path) == path;
    NoQueryNoStrip(path);
    assert Allows(Normalized(path), [path][0]);
    if OneLine(query) {
      QueryIgnored(path, query, [path], []);
    } else {
      StripSlashesKeepsEnd(path, query);
      FirstMarkStays(path, query);
      var p := Normalized(path + "?" + query);
      assert p[|path|] == '?';
      assert !Allows(p, [path][0]);
    }
  }

  // ---- denies -------------------------------------------------------------------------------

  /** The same letter of the alphabet, large or small, or the very same character. */
  predicate SameLetter(a: char, b: char) {
    || a == b
    || ('A' <= a <= 'Z' && b as int == a as int + 32)
    || ('A' <= b <= 'Z' && a as int == b as int + 32)
  }

  /** Spelt alike but for the case of letters. */
  predicate SameSpelling(s: string, t: string) {
    |s| == |t| && forall i :: 0 <= i < |s| ==> SameLetter(s[i], t[i])
  }

  lemma LowerMeans(s: string, t: string)
    ensures Lower(s) == Lower(t) <==> SameSpelling(s, t)
  {
    var a, b := Lower(s), Lower(t);
    if a == b {
      forall i | 0 <= i < |s| ensures SameLetter(s[i], t[i]) {
        assert a[i] == LowerChar(s[i]) && b[i] == LowerChar(t[i]);
        LowerCharMeans(s[i], t[i]);
      }
    }
    if SameSpelling(s, t) {
      forall i | 0 <= i < |s| ensures a[i] == b[i] {
        assert SameLetter(s[i], t[i]);
        LowerCharMeans(s[i], t[i]);
      }
    }
  }

  lemma LowerCharMeans(a: char, b: char)
    ensures LowerChar(a) == LowerChar(b) <==> SameLetter(a, b)
  {
  }

  lemma LowerOfSuffix(s: string, from: nat)
    requires from <= |s|
    ensures Lower(s)[from..] == Lower(s[from..])
  {
  }

  /** The path ends in the entry, up to letter case, with or without a slash behind. */
  predicate EndsInAnyCase(path: string, entry: string) {
    || (|entry| <= |path| && SameSpelling(path[|path| - |entry|..], entry))
    || (|entry| < |path| && path[|path| - 1] == '/'
        && SameSpelling(path[|path| - |entry| - 1..|path| - 1], entry))
  }

  lemma LowerEndsWith(path: string, entry: string)
    ensures EndsWith(Lower(path), Lower(entry))
       <==> |entry| <= |path| && SameSpelling(path[|path| - |entry|..], entry)
  {
    if |entry| <= |path| {
      var tail := path[|path| - |entry|..];
      LowerTail(path, entry);
      LowerMeans(tail, entry);
    }
  }

  lemma LowerTail(path: string, entry: string)
    requires |entry| <= |path|
    ensures EndsWith(Lower(path), Lower(entry)) <==> Lower(path[|path| - |entry|..]) == Lower(entry)
  {
    LowerOfSuffix(path, |path| - |entry|);
    assert |Lower(path)| == |path| && |Lower(entry)| == |entry|;
  }

  lemma EndsWithSlash(lower: string, d: string)
    ensures EndsWith(lower, d + "/")
       <==> |d| < |lower| && lower[|lower| - 1] == '/' && EndsWith(lower[..|lower| - 1], d)
  {
    if EndsWith(lower, d + "/") {
      var n := |lower| - |d| - 1;
      assert lower[n..][|d|] == '/';
      assert lower[n..][..|d|] == d;
      assert lower[..|lower| - 1][n..] == lower[n..][..|d|];
    }
    if |d| < |lower| && lower[|lower| - 1] == '/' && EndsWith(lower[..|lower| - 1], d) {
      var n := |lower| - |d| - 1;
      assert lower[n..] == lower[..|lower| - 1][n..] + "/";
    }
  }

  /** What a deny entry of any shape rules out. */
  lemma DeniedInAnyCase(path: string, entry: string)
    ensures Denied(path, entry) <==> EndsInAnyCase(path, entry)
  {
    LowerEndsWith(path, entry);
    EndsWithSlash(Lower(path), Lower(entry));
    if |path| > 0 {
      var shorter := path[..|path| - 1];
      assert Lower(path)[..|path| - 1] == Lower(shorter);
      assert Lower(path)[|path| - 1] == '/' <==> path[|path| - 1] == '/';
      LowerEndsWith(shorter, entry);
      if |entry| < |path| {
        assert shorter[|shorter| - |entry|..] == path[|path| - |entry| - 1..|path| - 1];
      }
    }
  }

  /** A deny that matches overrides every allow, and no other spelling gets around it, whether the
      letters of the path are changed or those of the entry. */
  lemma DenyOverrides(rawPath: string, other: string, allow: seq<string>, deny: seq<string>, i: nat)
    requires i < |deny| && EndsInAnyCase(Normalized(rawPath), deny[i])
    requires SameSpelling(Normalized(other), Normalized(rawPath))
    ensures !IsPathAllowed(other, allow, deny) && !IsPathAllowed(rawPath, allow, deny)
  {
    DeniedInAnyCase(Normalized(rawPath), deny[i]);
    LowerMeans(Normalized(other), Normalized(rawPath));
    assert Denied(Normalized(other), deny[i]);
  }

  lemma LowerGlue(c: char, segments: seq<string>, lower: seq<string>, k: nat)
    requires segments != [] && |lower| == |segments|
    requires forall i :: 0 <= i < |segments| ==> lower[i] == Lower(segments[i])
    requires k < |Glue(c, segments)|
    ensures |Glue(LowerChar(c), lower)| == |Glue(c, segments)|
    ensures Glue(LowerChar(c), lower)[k] == Lower(Glue(c, segments)[k])
  {
    assert [c] + segments[0] == [([c] + segments[0])[0]] + ([c] + segments[0])[1..];
  }

  lemma {:induction false} LowerSplit(s: string)
    ensures |Split(Lower(s))| == |Split(s)|
    ensures forall k :: 0 <= k < |Split(s)| ==> Split(Lower(s))[k] == Lower(Split(s)[k])
  {
    if s != "" {
      LowerSplit(s[1..]);
      assert s == [s[0]] + s[1..] && Lower(s) == [LowerChar(s[0])] + Lower(s[1..]);
      SplitCons(s[0], s[1..]);
      SplitCons(LowerChar(s[0]), Lower(s[1..]));
      forall k | 0 <= k < |Split(s)|
        ensures |Split(Lower(s))| == |Split(s)| && Split(Lower(s))[k] == Lower(Split(s)[k])
      {
        LowerGlue(s[0], Split(s[1..]), Split(Lower(s[1..])), k);
      }
    }
  }

  lemma {:induction false} SplitOne(s: string)
    requires '/' !in s
    ensures Split(s) == [s]
  {
    if s != "" {
      assert forall c :: c in s[1..] ==> c in s;
      SplitOne(s[1..]);
      assert s == [s[0]] + s[1..];
      SplitCons(s[0], s[1..]);
    }
  }

  lemma EndsWithMeans(s: string, end: string)
    ensures EndsWith(s, end) ==> s == s[..|s| - |end|] + end
  {
  }

  lemma EndsWithAppend(a: string, end: string)
    ensures EndsWith(a + end, end) && (a + end)[..|a|] == a
  {
  }

  ghost predicate EndsInSegments(segments: seq<string>, tail: seq<string>) {
    |tail| < |segments| && segments[|segments| - |tail|..] == tail
  }

  lemma SplitWithTail(a: string, tail: seq<string>)
    requires tail != [] && Split(Join(tail)) == tail
    ensures Split(a + ("/" + Join(tail))) == Split(a) + tail
  {
    SplitAtSlash(a, Join(tail));
    assert a + ("/" + Join(tail)) == a + "/" + Join(tail);
  }

  lemma SlashBetween(a: string, b: string)
    ensures a + "/" + b == a + ("/" + b)
  {
  }

  lemma JoinWithTail(s: string, front: seq<string>, tail: seq<string>)
    requires front != [] && tail != [] && Split(s) == front + tail
    ensures s == Join(front) + ("/" + Join(tail))
  {
    JoinAppend(front, tail);
    JoinSplit(s);
    SlashBetween(Join(front), Join(tail));
  }

  /** To end in a slash and some segments is to have them as the last ones, and not the only ones. */
  lemma SuffixInSegments(s: string, tail: seq<string>)
    requires tail != [] && Split(Join(tail)) == tail
    ensures EndsWith(s, "/" + Join(tail)) <==> EndsInSegments(Split(s), tail)
  {
    var end := "/" + Join(tail);
    if EndsWith(s, end) {
      EndsWithMeans(s, end);
      SplitWithTail(s[..|s| - |end|], tail);
    }
    if EndsInSegments(Split(s), tail) {
      var front := Split(s)[..|Split(s)| - |tail|];
      JoinWithTail(s, front, tail);
      EndsWithAppend(Join(front), end);
    }
  }

  lemma {:induction false} LowerKeepsSlashes(s: string)
    ensures '/' in Lower(s) <==> '/' in s
  {
    if s != "" {
      LowerKeepsSlashes(s[1..]);
      assert s == [s[0]] + s[1..];
    }
  }

  lemma LowerOfSlash(name: string)
    ensures Lower("/" + name) == "/" + Lower(name)
  {
    assert ("/" + name)[1..] == name;
  }

  lemma LowerName(name: string)
    requires name != "" && '/' !in name
    ensures Lower("/" + name) == "/" + Lower(name) && Lower(name) != "" && Split(Lower(name)) == [Lower(name)]
  {
    LowerOfSlash(name);
    LowerKeepsSlashes(name);
    SplitOne(Lower(name));
  }

  /** The last segment, a trailing slash aside, is `name`, and it is not the first. */
  predicate LastIs(segments: seq<string>, name: string) {
    var n := |segments|;
    || (n >= 2 && segments[n - 1] == name)
    || (n >= 3 && segments[n - 1] == "" && segments[n - 2] == name)
  }

  /** The same, in any letter case. */
  predicate LastIsInAnyCase(segments: seq<string>, name: string) {
    var n := |segments|;
    || (n >= 2 && SameSpelling(segments[n - 1], name))
    || (n >= 3 && segments[n - 1] == "" && SameSpelling(segments[n - 2], name))
  }

  /** What a deny entry such as `/forget` rules out: paths whose last segment, a trailing slash
      aside, has that name in any letter case, and is not their first segment. */
  lemma DeniedExactlyWhen(path: string, name: string)
    requires name != "" && '/' !in name
    ensures Denied(path, "/" + name) <==> LastIsInAnyCase(Split(path), name)
  {
    DeniedByName(path, name);
    LastInAnyCase(path, name);
  }

  lemma LastInAnyCase(path: string, name: string)
    ensures LastIs(Split(Lower(path)), Lower(name)) <==> LastIsInAnyCase(Split(path), name)
  {
    LowerLast(path);
    var segments := Split(path);
    LowerMeans(segments[|segments| - 1], name);
    if |segments| >= 2 {
      LowerMeans(segments[|segments| - 2], name);
    }
  }

  lemma DeniedByName(path: string, name: string)
    requires name != "" && '/' !in name
    ensures Denied(path, "/" + name) <==> LastIs(Split(Lower(path)), Lower(name))
  {
    LowerName(name);
    DeniedInLower(Lower(path), Lower(name));
  }

  /** What an allow entry covers, by segments. */
  predicate Covers(entry: string, path: string) {
    var p := StripSlashes(entry);
    if p == "" then path == ""
    else if EndsWith(p, "/") then Split(p[..|p| - 1]) < Split(path)
    else Split(p) <= Split(path)
  }

  /** The whole verdict, for deny entries of any shape. */
  lemma VerdictExactlyWhen(rawPath: string, allow: seq<string>, deny: seq<string>)
    ensures var path := Normalized(rawPath);
      IsPathAllowed(rawPath, allow, deny) <==>
        && (exists i :: 0 <= i < |allow| && Covers(allow[i], path))
        && (forall i :: 0 <= i < |deny| ==> !EndsInAnyCase(path, deny[i]))
  {
    var path := Normalized(rawPath);
    forall i | 0 <= i < |allow| ensures Allows(path, allow[i]) <==> Covers(allow[i], path) {
      AllowsExactlyWhen(rawPath, allow[i]);
    }
    forall i | 0 <= i < |deny| ensures Denied(path, deny[i]) <==> EndsInAnyCase(path, deny[i]) {
      DeniedInAnyCase(path, deny[i]);
    }
  }

  /** The whole verdict by segments, for denies that name one segment each: some allow entry covers
      the path, and no deny names its last segment, the first one excepted. */
  lemma AllowedExactlyWhen(rawPath: string, allow: seq<string>, names: seq<string>, deny: seq<string>)
    requires |deny| == |names|
    requires forall i :: 0 <= i < |names| ==> names[i] != "" && '/' !in names[i] && deny[i] == "/" + names[i]
    ensures var path := Normalized(rawPath);
      IsPathAllowed(rawPath, allow, deny) <==>
        && (exists i :: 0 <= i < |allow| && Covers(allow[i], path))
        && (forall i :: 0 <= i < |names| ==> !LastIsInAnyCase(Split(path), names[i]))
  {
    var path := Normalized(rawPath);
    forall i | 0 <= i < |allow| ensures Allows(path, allow[i]) <==> Covers(allow[i], path) {
      AllowsExactlyWhen(rawPath, allow[i]);
    }
    forall i | 0 <= i < |names| ensures Denied(path, deny[i]) <==> LastIsInAnyCase(Split(path), names[i]) {
      DeniedExactlyWhen(path, names[i]);
    }
  }

  /** A deny entry `/name` does not rule out the path `name` itself, however it is slashed. */
  lemma FirstSegmentNotDenied(name: string)
    requires name != "" && '/' !in name && '?' !in name
    ensures !Denied(name, "/" + name)
    ensures IsPathAllowed("/" + name, [name], ["/" + name])
  {
    SplitOne(name);
    DeniedExactlyWhen(name, name);
    NoQueryNoStrip(name);
    assert ("/" + name)[1..] == name;
    assert StripSlashes(name) == name;
    assert Normalized("/" + name) == name;
    assert Allows(name, [name][0]);
  }

  lemma LowerLast(path: string)
    ensures var s, r, n := Split(path), Split(Lower(path)), |Split(path)|;
      && |r| == n && r[n - 1] == Lower(s[n - 1]) && (r[n - 1] == "" <==> s[n - 1] == "")
      && (n >= 2 ==> r[n - 2] == Lower(s[n - 2]))
  {
    LowerSplit(path);
    LowerEmpty(Split(path)[|Split(path)| - 1]);
  }

  lemma LowerEmpty(s: string)
    ensures Lower(s) == "" <==> s == ""
  {
  }

  lemma DeniedInLower(s: string, name: string)
    requires name != "" && Split(name) == [name]
    ensures EndsWith(s, "/" + name) || EndsWith(s, "/" + name + "/") <==> LastIs(Split(s), name)
  {
    var one, two := [name], [name, ""];
    JoinTwo(name);
    SplitAtSlash(name, "");
    SuffixInSegments(s, one);
    SuffixInSegments(s, two);
    LastOnes(Split(s), name);
    assert "/" + name + "/" == "/" + (name + "/");
  }

  lemma JoinTwo(name: string)
    ensures Join([name]) == name && Join([name, ""]) == name + "/"
    ensures name + "/" + "" == name + "/"
  {
    assert [name, ""][1..] == [""];
  }

  lemma LastOnes(r: seq<string>, name: string)
    ensures EndsInSegments(r, [name]) <==> |r| >= 2 && r[|r| - 1] == name
    ensures EndsInSegments(r, [name, ""]) <==> |r| >= 3 && r[|r| - 1] == "" && r[|r| - 2] == name
  {
    if |r| >= 3 {
      assert r[|r| - 2..] == [r[|r| - 2], r[|r| - 1]];
    }
    if |r| >= 2 {
      assert r[|r| - 1..] == [r[|r| - 1]];
    }
  }

  // ---- cutting a request path up ------------------------------------------------------------

  function NonEmpty(segments: seq<string>): seq<string> {
    if segments == [] then []
    else (if segments[0] == "" then [] else [segments[0]]) + NonEmpty(segments[1..])
  }

  function WithSlash(routePrefix: string): string {
    if EndsWith(routePrefix, "/") then routePrefix else routePrefix + "/"
  }

  /** `extractProxyPath`: the non-empty segments below the route prefix; none for a foreign path. */
  function ExtractProxyPath(pathname: string, routePrefix: string): seq<string> {
    var prefix := WithSlash(routePrefix);
    NonEmpty(Split(if StartsWith(pathname, prefix) then pathname[|prefix|..] else ""))
  }

  lemma {:induction false} SplitJoin(segments: seq<string>)
    requires segments != [] && forall i :: 0 <= i < |segments| ==> segments[i] != "" && '/' !in segments[i]
    ensures Split(Join(segments)) == segments && NonEmpty(segments) == segments
  {
    SplitOne(segments[0]);
    if |segments| > 1 {
      SplitJoin(segments[1..]);
      SplitAtSlash(segments[0], Join(segments[1..]));
      assert segments == [segments[0]] + segments[1..];
    }
  }

  /** Round trip: the segments a client joins below the route are the segments extracted. */
  lemma ExtractRoundTrip(routePrefix: string, segments: seq<string>)
    requires segments != [] && forall i :: 0 <= i < |segments| ==> segments[i] != "" && '/' !in segments[i]
    ensures ExtractProxyPath(WithSlash(routePrefix) + Join(segments), routePrefix) == segments
  {
    SplitJoin(segments);
    CutPrefix(WithSlash(routePrefix), Join(segments));
  }

  lemma {:induction false} NonEmptyAppend(a: seq<string>, b: seq<string>)
    ensures NonEmpty(a + b) == NonEmpty(a) + NonEmpty(b)
  {
    if a == [] {
      assert a + b == b;
    } else {
      assert (a + b)[1..] == a[1..] + b;
      NonEmptyAppend(a[1..], b);
    }
  }

  lemma ExtractBelow(routePrefix: string, rest: string)
    ensures ExtractProxyPath(WithSlash(routePrefix) + rest, routePrefix) == NonEmpty(Split(rest))
  {
    CutPrefix(WithSlash(routePrefix), rest);
  }

  lemma SlashJoins(a: string, b: string)
    ensures NonEmpty(Split(a + "/" + b)) == NonEmpty(Split(a)) + NonEmpty(Split(b))
  {
    SplitAtSlash(a, b);
    NonEmptyAppend(Split(a), Split(b));
  }

  /** A doubled slash adds no segment ... */
  lemma DoubledSlashIgnored(routePrefix: string, a: string, b: string)
    ensures ExtractProxyPath(WithSlash(routePrefix) + (a + "//" + b), routePrefix)
         == ExtractProxyPath(WithSlash(routePrefix) + (a + "/" + b), routePrefix)
  {
    ExtractBelow(routePrefix, a + "//" + b);
    ExtractBelow(routePrefix, a + "/" + b);
    assert a + "//" + b == (a + "/" + "") + "/" + b;
    SlashJoins(a + "/" + "", b);
    SlashJoins(a, "");
    SlashJoins(a, b);
  }

  /** ... nor does one at the end. */
  lemma LastSlashIgnored(routePrefix: string, a: string)
    ensures ExtractProxyPath(WithSlash(routePrefix) + (a + "/"), routePrefix)
         == ExtractProxyPath(WithSlash(routePrefix) + a, routePrefix)
  {
    ExtractBelow(routePrefix, a + "/");
    ExtractBelow(routePrefix, a);
    assert a + "/" == a + "/" + "";
    SlashJoins(a, "");
  }

  /** A path that is not below the route has no segments. */
  lemma ForeignPathHasNone(pathname: string, routePrefix: string)
    requires !StartsWith(pathname, if EndsWith(routePrefix, "/") then routePrefix else routePrefix + "/")
    ensures ExtractProxyPath(pathname, routePrefix) == []
  {
    assert Split("") == [""] && NonEmpty([""]) == NonEmpty([""][1..]);
  }

  lemma CutPrefix(prefix: string, rest: string)
    ensures StartsWith(prefix + rest, prefix) && (prefix + rest)[|prefix|..] == rest
  {
  }
}
