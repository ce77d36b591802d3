/** What resolution makes of paths, told by their segments and letters: worktrees are
    their project, contained directories follow what contains them, and the rest
    are named after themselves. */
module Placement {
  import opened Keys
  import opened Projects
  import opened Resolution

  // ---- Segments and letters ----

  lemma {:induction false} SplitAtSeparator(p: string, c: char, q: string, word: string)
    requires IsSeparator(c)
    ensures Split(p + [c] + q, word) == Split(p, word) + Split(q, "")
    decreases |p|
  {
    var whole := p + [c] + q;
    if p == "" {
      assert whole[0] == c && whole[1..] == q;
    } else {
      assert whole[0] == p[0] && whole[1..] == p[1..] + [c] + q;
      SplitAtSeparator(p[1..], c, q, "");
      if !IsSeparator(p[0]) {
        SplitAtSeparator(p[1..], c, q, word + [p[0]]);
      }
    }
  }

  lemma {:induction false} SplitWord(p: string, word: string)
    requires forall c :: c in p ==> c != '/' && c != '\\'
    ensures Split(p, word) == if word + p == "" || word + p == "." then [] else [word + p]
    decreases |p|
  {
    if p == "" {
      assert word + p == word;
    } else {
      assert (word + [p[0]]) + p[1..] == word + p && p[0] in p;
      assert forall c :: c in p[1..] ==> c in p;
      SplitWord(p[1..], word + [p[0]]);
    }
  }

  /** A path's segments are those of its parts around any slash or backslash, and a
      part without either is one segment, unless it is empty or a dot. */
  lemma SegmentsOfParts(p: string, c: char, q: string)
    requires c == '/' || c == '\\'
    ensures PathSegments(p + [c] + q) == PathSegments(p) + PathSegments(q)
    ensures (forall x :: x in p ==> x != '/' && x != '\\') ==> PathSegments(p) == if p == "" || p == "." then [] else [p]
  {
    SplitAtSeparator(p, c, q, "");
    if forall x :: x in p ==> x != '/' && x != '\\' {
      SplitWord(p, "");
      assert "" + p == p;
    }
  }

  predicate CaseOf(upper: char, lower: char) {
    'A' <= upper <= 'Z' && lower as int - upper as int == 32
  }

  lemma LetterCase(a: char, b: char)
    ensures LowerChar(a) == LowerChar(b) <==> a == b || CaseOf(a, b) || CaseOf(b, a)
  {}

  /** Names are equal when they differ at most in the case of letters. */
  lemma FoldIgnoresCase(a: string, b: string)
    ensures EqualFold(a, b) <==>
              |a| == |b| && forall i :: 0 <= i < |a| ==> a[i] == b[i] || CaseOf(a[i], b[i]) || CaseOf(b[i], a[i])
  {
    if |a| == |b| {
      forall i | 0 <= i < |a| ensures Lower(a)[i] == Lower(b)[i] <==> a[i] == b[i] || CaseOf(a[i], b[i]) || CaseOf(b[i], a[i]) {
        LetterCase(a[i], b[i]);
      }
    } else {
      assert |Lower(a)| == |a| && |Lower(b)| == |b|;
    }
  }

  // ---- Names ----

  /** A separator with a suffix behind it and a name before it that is not a keyword. */
  ghost predicate SuffixAt(r: Rules, name: string, i: nat) {
    && 1 <= i < |name| - 1 && (name[i] == '-' || name[i] == '_') && r.matches(name[i + 1..])
    && Lower(name[..i]) !in {"issue", "issues", "wt", "worktree", "pr", "branch", "agent"}
  }

  /** The name up to the leftmost such separator, or all of it. */
  ghost predicate NamedFor(r: Rules, name: string, base: string) {
    && base <= name
    && (base == name || SuffixAt(r, name, |base|))
    && forall i :: 1 <= i < |base| ==> !SuffixAt(r, name, i)
  }

  lemma FoldIsLeftmost(r: Rules, name: string)
    ensures NamedFor(r, name, FoldSibling(r, name))
  {
    FoldCutsAtFirst(r, name, 1);
    forall i: nat ensures SuffixAt(r, name, i) <==> Cuts(r, name, i) {}
  }

  /** A drive letter and a colon. */
  predicate Drive(s: string) {
    |s| == 2 && s[1] == ':' && ('a' <= s[0] <= 'z' || 'A' <= s[0] <= 'Z')
  }

  /** A path is named after its last segment, unless that is a bare drive. */
  lemma NamedAfterLast(r: Rules, segs: seq<string>)
    ensures segs == [] || Drive(segs[|segs| - 1]) ==> NameProject(r, segs) == ""
    ensures segs != [] && !Drive(segs[|segs| - 1]) ==> NamedFor(r, segs[|segs| - 1], NameProject(r, segs))
  {
    if segs != [] {
      FoldIsLeftmost(r, segs[|segs| - 1]);
    }
  }

  /** A repository is known by what comes after its last slash. */
  lemma RepositoryName(owner: string, name: string)
    requires '/' !in name
    ensures RepoName(owner + "/" + name) == name && RepoName(name) == name
  {
    var repo := owner + "/" + name;
    LastBefore(owner, '/', name);
    assert repo == owner + ['/'] + name && repo[|owner| + 1..] == name;
  }

  /** How the path itself spells a name: its first segment that is the name, or else
      what its last segment says of it before a dash; nothing otherwise. */
  ghost predicate Spells(segs: seq<string>, name: string, p: string)
    requires segs != []
  {
    if exists k :: 0 <= k < |segs| && EqualFold(segs[k], name) then
      exists k :: 0 <= k < |segs| && EqualFold(segs[k], name) && p == segs[k] && forall j :: 0 <= j < k ==> !EqualFold(segs[j], name)
    else
      var last := segs[|segs| - 1];
      if |name| < |last| && EqualFold(last[..|name|], name) && (last[|name|] == '-' || last[|name|] == '_') then p == last[..|name|]
      else p == ""
  }

  lemma {:induction false} FirstNamedIsFirst(segs: seq<string>, name: string)
    ensures forall j :: 0 <= j < FirstNamed(segs, name) ==> !EqualFold(segs[j], name)
    decreases |segs|
  {
    if segs != [] && !EqualFold(segs[0], name) {
      FirstNamedIsFirst(segs[1..], name);
      assert forall j :: 1 <= j < |segs| ==> segs[j] == segs[1..][j - 1];
    }
  }

  lemma MatchSpells(segs: seq<string>, name: string)
    requires segs != [] && name != ""
    ensures Spells(segs, name, MatchInPath(segs, name))
  {
    hide EqualFold;
    FirstNamedIsFirst(segs, name);
  }

  /** So a pull request in a repository shows for a path exactly by that spelling. */
  lemma HitSpells(segs: seq<string>, owner: string, name: string)
    requires segs != [] && name != "" && '/' !in name
    ensures Spells(segs, name, Hit(segs, owner + "/" + name)) && Spells(segs, name, Hit(segs, name))
  {
    hide Spells, MatchInPath;
    RepositoryName(owner, name);
    MatchSpells(segs, name);
  }

  /** Resolution of a path without a segment fails exactly when some repository that
      shipped from it has a name at all. */
  lemma PanicsIff(segs: seq<string>, repos: seq<string>)
    ensures Panics(segs, repos) <==> segs == [] && exists r :: r in repos && r != "" && r[|r| - 1] != '/'
  {
    forall r | r in repos ensures RepoName(r) != "" <==> r != "" && r[|r| - 1] != '/' {
      NamedUnlessSlash(r);
    }
  }

  lemma NamedUnlessSlash(r: string)
    ensures RepoName(r) != "" <==> r != "" && r[|r| - 1] != '/'
  {
    var i := LastIndexOf(r, '/');
    if r != "" && r[|r| - 1] == '/' {
      LastIndexIs(r, '/', |r| - 1);
    }
  }

  /** Digits, or one of the keywords, and then nothing or a hyphen or underscore with
      no newline behind it. */
  ghost predicate Patterned(s: string, n: nat) {
    && n <= |s| && (n == |s| || ((s[n] == '-' || s[n] == '_') && '\n' !in s[n + 1..]))
    && ((n > 0 && forall i :: 0 <= i < n ==> '0' <= s[i] <= '9')
        || s[..n] in {"issue", "issues", "wt", "worktree", "pr", "branch", "agent"})
  }

  /** That is what the default patterns take. */
  lemma DefaultPatterns(s: string)
    ensures DefaultMatches(s) <==> exists n: nat :: Patterned(s, n)
  {
    forall n: nat ensures MatchesAt(s, n) <==> Patterned(s, n) {
      if n < |s| {
        assert s[n..][0] == s[n] && s[n..][1..] == s[n + 1..];
      }
      if n <= |s| {
        DigitsInFront(s, n);
      }
    }
  }

  lemma DigitsInFront(s: string, n: nat)
    requires n <= |s|
    ensures AllDigits(s[..n]) <==> forall i :: 0 <= i < n ==> '0' <= s[i] <= '9'
  {
    if AllDigits(s[..n]) {
      forall i | 0 <= i < n ensures '0' <= s[i] <= '9' {
        assert s[..n][i] in s[..n];
      }
    }
  }

  // ---- Worktrees ----

  /** A worktree layout starts at this segment. */
  ghost predicate LayoutAt(r: Rules, segs: seq<string>, i: nat) {
    i + 1 < |segs| && exists l :: l in r.layouts && l.marker == segs[i] && l.child == segs[i + 1]
  }

  /** The first `n` segments are the path of the project itself: they end where the
      first layout starts that does not start the path, or with the path. */
  ghost predicate OwnPath(r: Rules, segs: seq<string>, n: nat) {
    && n <= |segs| && (forall i :: 1 <= i < n ==> !LayoutAt(r, segs, i))
    && (n == |segs| || (1 <= n && LayoutAt(r, segs, n)))
  }

  lemma OwnPathIsStripped(w: World, dir: string, n: nat)
    requires OwnPath(w.r, PathSegments(dir), n)
    ensures SegsOf(w, dir) == PathSegments(dir)[..n] && KeyOf(w, dir) == SegmentKey(PathSegments(dir)[..n])
  {
    StripsTo(w.r, PathSegments(dir), n);
  }

  lemma StripsTo(r: Rules, segs: seq<string>, n: nat)
    requires OwnPath(r, segs, n)
    ensures StripWorktree(r, segs) == segs[..n]
  {
    forall i: nat ensures MarksWorktree(r, segs, i) <==> LayoutAt(r, segs, i) {}
    StripCutsAtFirst(r, segs, 1);
  }

  lemma FrontIsOwn(r: Rules, segs: seq<string>, n: nat)
    requires OwnPath(r, segs, n)
    ensures OwnPath(r, segs[..n], n)
  {
    forall i | 1 <= i < n ensures !LayoutAt(r, segs[..n], i) {
      assert !LayoutAt(r, segs, i);
    }
  }

  /** A worktree's directory, however deep inside it, gets the project of the path the
      worktree belongs to, when pull requests name the same repositories for both. */
  lemma WorktreeIsItsProject(w: World, out: map<string, string>, d: string, e: string, n: nat)
    requires Resolves(w, out) && d in out && e in out
    requires OwnPath(w.r, PathSegments(d), n) && PathSegments(e) == PathSegments(d)[..n]
    requires Resolution.Range(ReposOf(w, d)) == Resolution.Range(ReposOf(w, e))
    ensures out[d] == out[e]
  {
    hide EntryOf, Nearest, NameProject, ShippedProject, PathSegments, OwnPath;
    OwnPathFits(w.r, PathSegments(d), n);
    FrontIsOwn(w.r, PathSegments(d), n);
    OwnPathIsStripped(w, d, n);
    OwnPathIsStripped(w, e, n);
    assert PathSegments(e)[..n] == PathSegments(e);
    ShippedIgnoresOrder(SegsOf(w, d), ReposOf(w, d), ReposOf(w, e));
    assert Explained(w, out, d, out[d]) && Explained(w, out, e, out[e]);
    assert Explained(w, out, d, out[e]);
    ExplainedIsUnique(w, out, d, out[d], out[e]);
  }

  lemma OwnPathFits(r: Rules, segs: seq<string>, n: nat)
    requires OwnPath(r, segs, n)
    ensures n <= |segs|
  {}

  /** The same for paths put together: a project, a layout, and anything below. */
  lemma NestedWorktree(w: World, out: map<string, string>, d: string, e: string, l: Layout, rest: seq<string>)
    requires Resolves(w, out) && d in out && e in out && l in w.r.layouts
    requires PathSegments(e) != [] && PathSegments(d) == PathSegments(e) + [l.marker, l.child] + rest
    requires forall i :: 1 <= i < |PathSegments(e)| ==> !LayoutAt(w.r, PathSegments(d), i)
    requires Resolution.Range(ReposOf(w, d)) == Resolution.Range(ReposOf(w, e))
    ensures out[d] == out[e]
  {
    hide Resolves, PathSegments;
    var s, all := PathSegments(e), PathSegments(d);
    assert all[|s|] == l.marker && all[|s| + 1] == l.child && all[..|s|] == s;
    assert LayoutAt(w.r, all, |s|);
    WorktreeIsItsProject(w, out, d, e, |s|);
  }

  // ---- Containment ----

  /** `f` is a directory above `d`, letter case aside. */
  ghost predicate Above(w: World, f: string, d: string) {
    var n := |SegsOf(w, f)|;
    0 < n < |SegsOf(w, d)| && SamePath(SegsOf(w, f), SegsOf(w, d)[..n])
  }

  lemma AboveIffKey(w: World, f: string, d: string, cut: nat)
    requires NUL !in f && NUL !in d && 0 < cut < |SegsOf(w, d)|
    ensures KeyOf(w, f) == SegmentKey(SegsOf(w, d)[..cut]) <==> Above(w, f, d) && |SegsOf(w, f)| == cut
  {
    var segs := SegsOf(w, d);
    SegsArePlain(w, f);
    SegsArePlain(w, d);
    assert forall s :: s in segs[..cut] ==> s in segs;
    hide SegmentKey, SegsOf;
    KeyIsOfSegs(w, f);
    KeyIdentifiesPath(SegsOf(w, f), segs[..cut]);
  }

  lemma KeyIsOfSegs(w: World, f: string)
    ensures KeyOf(w, f) == SegmentKey(SegsOf(w, f))
  {}

  /** Nothing from `low` up to `high` segments above `d` has a project. */
  lemma {:induction false} NothingBetween(w: World, out: map<string, string>, d: string, low: nat, high: nat, p: string)
    requires Clean(out.Keys) && NUL !in d && low <= high < |SegsOf(w, d)|
    requires forall f :: f in out && Above(w, f, d) && low < |SegsOf(w, f)| <= high ==> out[f] == ""
    requires Nearest(w, out, SegsOf(w, d), low, p)
    ensures Nearest(w, out, SegsOf(w, d), high, p)
    decreases high - low
  {
    hide Above, SegsOf, SegmentKey;
    if low < high {
      NothingBetween(w, out, d, low, high - 1, p);
      var key := SegmentKey(SegsOf(w, d)[..high]);
      forall f | f in out && KeyOf(w, f) == key ensures out[f] == "" {
        assert f in out.Keys;
        AboveIffKey(w, f, d, high);
      }
      assert Claims(w, out, key, "");
    }
  }

  /** Without evidence of its own a directory gets the project of the nearest directory
      above it that has one; of several spellings of that one the first in byte order. */
  lemma ContainedFollows(w: World, out: map<string, string>, d: string, e: string)
    requires Clean(out.Keys) && Resolves(w, out) && d in out && e in out && Own(w, d) == ""
    requires Above(w, e, d) && out[e] != ""
    requires forall f :: f in out && Above(w, f, d) && out[f] != "" && |SegsOf(w, e)| <= |SegsOf(w, f)| ==>
               |SegsOf(w, f)| == |SegsOf(w, e)| && !Less(f, e)
    ensures out[d] == out[e]
  {
    hide SegsOf, SegmentKey, NameProject, Less, Own;
    var segs, n := SegsOf(w, d), |SegsOf(w, e)|;
    assert d in out.Keys && e in out.Keys;
    var key := SegmentKey(segs[..n]);
    AboveIffKey(w, e, d, n);
    forall f | f in out && KeyOf(w, f) == key && out[f] != "" ensures !Less(f, e) {
      assert f in out.Keys;
      AboveIffKey(w, f, d, n);
    }
    assert Claims(w, out, key, out[e]) by { assert IsFirst(w, out, key, e); }
    assert Nearest(w, out, segs, n, out[e]);
    hide Above;
    NothingBetween(w, out, d, n, |segs| - 1, out[e]);
    assert Encloses(w, out, segs, out[e]);
    assert Explained(w, out, d, out[e]) && Explained(w, out, d, out[d]);
    ExplainedIsUnique(w, out, d, out[d], out[e]);
  }

  /** Without evidence, and with nothing above it that is a project, a directory is
      named after itself. */
  lemma UncontainedIsNamed(w: World, out: map<string, string>, d: string)
    requires Clean(out.Keys) && Resolves(w, out) && d in out && Own(w, d) == ""
    requires forall f :: f in out && Above(w, f, d) ==> out[f] == ""
    ensures out[d] == NameProject(w.r, SegsOf(w, d))
  {
    hide SegsOf, SegmentKey, NameProject, Above, Own;
    var segs := SegsOf(w, d);
    assert d in out.Keys;
    assert Nearest(w, out, segs, 0, "");
    if segs == [] {
      assert Encloses(w, out, segs, "");
    } else {
      NothingBetween(w, out, d, 0, |segs| - 1, "");
      assert Encloses(w, out, segs, "");
    }
    assert Explained(w, out, d, NameProject(w.r, segs)) && Explained(w, out, d, out[d]);
    ExplainedIsUnique(w, out, d, out[d], NameProject(w.r, segs));
  }

  /** Evidence of its own decides a directory, whatever contains it: where all the
      repositories that its path spells are spelled alike, that spelling is its project. */
  lemma EvidenceDecides(w: World, out: map<string, string>, d: string, repo: string)
    requires Resolves(w, out) && d in out && repo in ReposOf(w, d) && Hit(SegsOf(w, d), repo) != ""
    requires forall x :: x in ReposOf(w, d) ==> Hit(SegsOf(w, d), x) in {"", Hit(SegsOf(w, d), repo)}
    ensures out[d] == Hit(SegsOf(w, d), repo)
  {
    hide SegsOf, Hit, Nearest;
    var repos := ReposOf(w, d);
    ShippedIsEvidence(SegsOf(w, d), repos);
    assert repo in Resolution.Range(repos);
    assert Own(w, d) == Hit(SegsOf(w, d), repo);
    assert Explained(w, out, d, out[d]);
  }

  /** A segment as it stands. */
  predicate Plainly(s: string) {
    s != "" && s != "." && forall c :: c in s ==> c != '/' && c != '\\'
  }

  lemma FourSegments(a: string, b: string, c: string, e: string)
    requires Plainly(a) && Plainly(b) && Plainly(c) && Plainly(e)
    ensures PathSegments("" + "/" + (a + "/" + (b + "/" + (c + "/" + e)))) == [a, b, c, e]
  {
    hide PathSegments;
    SegmentsOfParts("", '/', a + "/" + (b + "/" + (c + "/" + e)));
    SegmentsOfParts(a, '/', b + "/" + (c + "/" + e));
    SegmentsOfParts(b, '/', c + "/" + e);
    SegmentsOfParts(c, '/', e);
    SegmentsOfParts(e, '/', "");
  }

  /** The default layout: a lone directory inside a worktree of `p` is named for `p`. */
  lemma LoneWorktree(r: Rules, out: map<string, string>, p: string, x: string, d: string)
    requires r.layouts == [Layout(".claude", "worktrees")] && Plainly(p) && Plainly(x) && !Drive(p)
    requires d == "" + "/" + (p + "/" + (".claude" + "/" + ("worktrees" + "/" + x)))
    requires out.Keys == {d} && Clean(out.Keys) && Resolves(World(r, map[]), out)
    ensures NamedFor(r, p, out[d])
  {
    hide Resolves, PathSegments, NamedFor, Above;
    var w := World(r, map[]);
    assert Plainly(".claude") && Plainly("worktrees");
    FourSegments(p, ".claude", "worktrees", x);
    StripsAfterFirst(r, PathSegments(d));
    OwnPathIsStripped(w, d, 1);
    assert SegsOf(w, d) == [p];
    NothingAbove(w, d);
    assert d in out.Keys;
    UncontainedIsNamed(w, out, d);
    NamedAfterLast(r, [p]);
  }

  lemma StripsAfterFirst(r: Rules, segs: seq<string>)
    requires r.layouts == [Layout(".claude", "worktrees")] && |segs| > 2 && segs[1] == ".claude" && segs[2] == "worktrees"
    ensures OwnPath(r, segs, 1)
  {
    assert r.layouts[0] in r.layouts;
    assert LayoutAt(r, segs, 1);
  }

  lemma NothingAbove(w: World, d: string)
    requires |SegsOf(w, d)| <= 1
    ensures forall f :: !Above(w, f, d)
  {}
}
