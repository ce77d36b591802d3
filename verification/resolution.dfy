/** Every working directory's project, decided over the whole set of directories. */
module Resolution {
  import opened Keys
  import opened Projects

  // ---- Pull-request evidence ----

  /** `repoName`. */
  function RepoName(repo: string): string {
    var i := LastIndexOf(repo, '/');
    if i >= 0 then repo[i + 1..] else repo
  }

  function FirstNamed(segs: seq<string>, name: string): (i: int)
    ensures -1 <= i < |segs|
    ensures 0 <= i ==> EqualFold(segs[i], name)
    ensures i < 0 ==> forall k :: 0 <= k < |segs| ==> !EqualFold(segs[k], name)
  {
    if segs == [] then -1
    else if EqualFold(segs[0], name) then 0
    else
      var i := FirstNamed(segs[1..], name);
      if i < 0 then -1 else i + 1
  }

  /** The last segment is the name and a suffix. */
  predicate NamedWithSuffix(last: string, name: string) {
    |name| < |last| && EqualFold(last[..|name|], name) && IsDash(last[|name|])
  }

  /** `matchInPath`, of a path that has a segment. */
  function MatchInPath(segs: seq<string>, name: string): string
    requires name == "" || segs != []
  {
    if name == "" then ""
    else
      var i := FirstNamed(segs, name);
      var last := segs[|segs| - 1];
      if i >= 0 then segs[i]
      else if NamedWithSuffix(last, name) then last[..|name|]
      else ""
  }

  /** `matchInPath` indexes the last segment of a path that may have none. */
  predicate Panics(segs: seq<string>, repos: seq<string>) {
    segs == [] && exists r :: r in repos && RepoName(r) != ""
  }

  function Hit(segs: seq<string>, repo: string): string {
    if segs == [] then "" else MatchInPath(segs, RepoName(repo))
  }

  /** Repositories the path names agree on one spelling, or there is no answer. */
  ghost predicate Evidence(segs: seq<string>, repos: set<string>, p: string) {
    if exists a, b :: a in repos && b in repos && Hit(segs, a) != "" && Hit(segs, b) != "" && Hit(segs, a) != Hit(segs, b) then p == ""
    else
      && (p != "" ==> exists r :: r in repos && Hit(segs, r) == p)
      && (p == "" ==> forall r :: r in repos ==> Hit(segs, r) == "")
  }

  function Range(s: seq<string>): set<string> {
    set x | x in s
  }

  /** `shippedProject`, of a path that has a segment. */
  function ShippedProject(segs: seq<string>, repos: seq<string>, found: string): string
    decreases |repos|
  {
    if repos == [] then found
    else
      var hit := Hit(segs, repos[0]);
      if hit == "" then ShippedProject(segs, repos[1..], found)
      else if found == "" then ShippedProject(segs, repos[1..], hit)
      else if found != hit then ""
      else ShippedProject(segs, repos[1..], found)
  }

  /** A found answer stands unless a later repository disagrees. */
  lemma {:induction false} FoundStands(segs: seq<string>, repos: seq<string>, found: string)
    requires found != ""
    ensures ShippedProject(segs, repos, found) ==
              if forall r :: r in repos ==> Hit(segs, r) in {"", found} then found else ""
    decreases |repos|
  {
    if repos != [] {
      FoundStands(segs, repos[1..], found);
      assert forall r :: r in repos <==> r == repos[0] || r in repos[1..];
    }
  }

  lemma {:induction false} ShippedIsEvidence(segs: seq<string>, repos: seq<string>)
    ensures Evidence(segs, Range(repos), ShippedProject(segs, repos, ""))
    decreases |repos|
  {
    if repos != [] {
      var hit := Hit(segs, repos[0]);
      assert forall r :: r in Range(repos) <==> r == repos[0] || r in Range(repos[1..]);
      if hit == "" {
        ShippedIsEvidence(segs, repos[1..]);
      } else {
        FoundStands(segs, repos[1..], hit);
        assert repos[0] in Range(repos);
      }
    }
  }

  lemma EvidenceIsUnique(segs: seq<string>, repos: set<string>, p: string, q: string)
    requires Evidence(segs, repos, p) && Evidence(segs, repos, q)
    ensures p == q
  {}

  /** The order the repositories come in does not matter, nor does naming one twice. */
  lemma ShippedIgnoresOrder(segs: seq<string>, a: seq<string>, b: seq<string>)
    requires Range(a) == Range(b)
    ensures ShippedProject(segs, a, "") == ShippedProject(segs, b, "")
  {
    ShippedIsEvidence(segs, a);
    ShippedIsEvidence(segs, b);
    EvidenceIsUnique(segs, Range(a), ShippedProject(segs, a, ""), ShippedProject(segs, b, ""));
  }

  /** Evidence only ever shortens a path: the answer is nothing, a segment, or what
      the last segment says before a dash. */
  lemma ShippedShortensThePath(segs: seq<string>, repos: seq<string>)
    ensures var p := ShippedProject(segs, repos, "");
            || p == "" || p in segs
            || (segs != [] && var last := segs[|segs| - 1]; |p| < |last| && p == last[..|p|] && IsDash(last[|p|]))
  {
    ShippedIsEvidence(segs, repos);
    var p := ShippedProject(segs, repos, "");
    if p != "" {
      var r :| r in Range(repos) && Hit(segs, r) == p;
      assert |Lower(p)| == |p|;
    }
  }

  // ---- Paths as keys ----

  /** Without empty segments or the byte keys are joined on. */
  predicate Plain(segs: seq<string>) {
    forall s :: s in segs ==> s != "" && NUL !in s
  }

  /** `segmentKey`. */
  function SegmentKey(segs: seq<string>): string {
    if segs == [] then ""
    else if |segs| == 1 then Lower(segs[0])
    else SegmentKey(segs[..|segs| - 1]) + [NUL] + Lower(segs[|segs| - 1])
  }

  lemma LowerKeepsNul(s: string)
    ensures NUL in Lower(s) <==> NUL in s
  {
    forall i | 0 <= i < |s| ensures Lower(s)[i] == NUL <==> s[i] == NUL {}
    if NUL in s {
      var i :| 0 <= i < |s| && s[i] == NUL;
      assert Lower(s)[i] == NUL;
    }
  }

  lemma LastPart(a: string, x: string, b: string, y: string)
    requires NUL !in x && NUL !in y && a + [NUL] + x == b + [NUL] + y
    ensures a == b && x == y
  {
    var s := a + [NUL] + x;
    AtLast(a, x);
    AtLast(b, y);
    assert s[..|a|] == a && s[|a| + 1..] == x;
    assert s == b + [NUL] + y && s[..|b|] == b && s[|b| + 1..] == y;
  }

  lemma AtLast(a: string, x: string)
    requires NUL !in x
    ensures LastIndexOf(a + [NUL] + x, NUL) == |a|
  {
    LastBefore(a, NUL, x);
  }

  lemma {:induction false} LastBefore(a: string, c: char, x: string)
    requires c !in x
    ensures LastIndexOf(a + [c] + x, c) == |a|
    decreases |x|
  {
    var s := a + [c] + x;
    if x == "" {
      assert s[|s| - 1] == c;
    } else {
      var before, last := x[..|x| - 1], x[|x| - 1];
      assert last in x && forall y :: y in before ==> y in x;
      assert s[|s| - 1] == last && s[..|s| - 1] == a + [c] + before;
      LastBefore(a, c, before);
    }
  }

  /** One path, letter case aside. */
  predicate SamePath(a: seq<string>, b: seq<string>) {
    |a| == |b| && forall i :: 0 <= i < |a| ==> EqualFold(a[i], b[i])
  }

  lemma {:induction false} KeyOfSamePath(a: seq<string>, b: seq<string>)
    requires SamePath(a, b)
    ensures SegmentKey(a) == SegmentKey(b)
    decreases |a|
  {
    if |a| > 1 {
      KeyOfSamePath(a[..|a| - 1], b[..|b| - 1]);
    }
  }

  lemma {:induction false} KeyTellsPath(a: seq<string>, b: seq<string>)
    requires Plain(a) && Plain(b) && SegmentKey(a) == SegmentKey(b)
    ensures SamePath(a, b)
    decreases |a|
  {
    if |a| > 1 && |b| > 1 {
      var s, t := a[..|a| - 1], b[..|b| - 1];
      assert SegmentKey(a) == SegmentKey(s) + [NUL] + Lower(a[|a| - 1]);
      assert SegmentKey(b) == SegmentKey(t) + [NUL] + Lower(b[|b| - 1]);
      assert a[|a| - 1] in a && b[|b| - 1] in b;
      assert (forall x :: x in s ==> x in a) && forall x :: x in t ==> x in b;
      hide SegmentKey, Lower;
      LowerKeepsNul(a[|a| - 1]);
      LowerKeepsNul(b[|b| - 1]);
      LastPart(SegmentKey(s), Lower(a[|a| - 1]), SegmentKey(t), Lower(b[|b| - 1]));
      KeyTellsPath(s, t);
    } else {
      KeyOfFew(a);
      KeyOfFew(b);
    }
  }

  /** Two paths have one key exactly when they are one path. */
  lemma KeyIdentifiesPath(a: seq<string>, b: seq<string>)
    requires Plain(a) && Plain(b)
    ensures SegmentKey(a) == SegmentKey(b) <==> SamePath(a, b)
  {
    if SegmentKey(a) == SegmentKey(b) {
      KeyTellsPath(a, b);
    }
    if SamePath(a, b) {
      KeyOfSamePath(a, b);
    }
  }

  lemma KeyOfFew(a: seq<string>)
    requires Plain(a)
    ensures a == [] <==> SegmentKey(a) == ""
    ensures |a| <= 1 <==> NUL !in SegmentKey(a)
  {
    if |a| == 1 {
      LowerKeepsNul(a[0]);
      assert a[0] in a && |Lower(a[0])| == |a[0]|;
    } else if |a| > 1 {
      assert SegmentKey(a)[|SegmentKey(a[..|a| - 1])|] == NUL;
    }
  }

  // ---- Directories in order ----

  datatype Entry = Entry(dir: string, segs: seq<string>, key: string)

  function EntryOf(r: Rules, dir: string): Entry {
    var segs := StripWorktree(r, PathSegments(dir));
    Entry(dir, segs, SegmentKey(segs))
  }

  /** Shortest first, then by name. */
  predicate Earlier(a: Entry, b: Entry) {
    |a.segs| < |b.segs| || (|a.segs| == |b.segs| && Less(a.dir, b.dir))
  }

  ghost predicate Sorted(es: seq<Entry>) {
    forall i, j {:trigger es[i], es[j]} :: 0 <= i < j < |es| ==> !Earlier(es[j], es[i])
  }

  lemma EarlierOn(a: Entry, b: Entry, c: Entry)
    requires !Earlier(b, a) && !Earlier(c, b)
    ensures !Earlier(c, a)
  {
    LessIsTotal(a.dir, b.dir);
    LessIsTotal(b.dir, c.dir);
    LessIsStrict(a.dir, b.dir, c.dir);
    LessIsTotal(a.dir, c.dir);
  }

  /** `sort.Slice`, one entry at a time. */
  method Insert(es: seq<Entry>, e: Entry) returns (out: seq<Entry>)
    requires Sorted(es)
    ensures Sorted(out) && forall x :: x in out <==> x in es || x == e
  {
    var i := |es|;
    while 0 < i && Earlier(e, es[i - 1])
      invariant 0 <= i <= |es| && forall j :: i <= j < |es| ==> !Earlier(es[j], e)
    {
      i := i - 1;
      LessIsTotal(e.dir, es[i].dir);
    }
    out := es[..i] + [e] + es[i..];
    forall a, b | 0 <= a < b < |out| ensures !Earlier(out[b], out[a]) {
      if a < i && 0 < i {
        assert !Earlier(e, es[a]) by {
          if a < i - 1 { EarlierOn(es[a], es[i - 1], e); }
        }
      }
    }
  }

  // ---- What the answer is ----

  datatype World = World(r: Rules, shipped: map<string, seq<string>>)

  function SegsOf(w: World, dir: string): seq<string> {
    EntryOf(w.r, dir).segs
  }

  function KeyOf(w: World, dir: string): string {
    EntryOf(w.r, dir).key
  }

  function ReposOf(w: World, dir: string): seq<string> {
    if dir in w.shipped then w.shipped[dir] else []
  }

  /** What the pull requests of the sessions in the directory say. */
  function Own(w: World, dir: string): string {
    ShippedProject(SegsOf(w, dir), ReposOf(w, dir), "")
  }

  /** `isRoot`: a bare drive. */
  predicate IsRoot(seg: string) {
    |seg| == 2 && seg[1] == ':' && 'a' <= LowerChar(seg[0]) <= 'z'
  }

  /** `nameProject`. */
  function NameProject(r: Rules, segs: seq<string>): string {
    if segs == [] || IsRoot(segs[|segs| - 1]) then "" else FoldSibling(r, segs[|segs| - 1])
  }

  /** The project of the path with this key: that of its first directory that has
      one, in byte order; nothing if none has. */
  ghost predicate Claims(w: World, out: map<string, string>, key: string, p: string) {
    if p == "" then forall d :: d in out && KeyOf(w, d) == key ==> out[d] == ""
    else exists d :: d in out && KeyOf(w, d) == key && out[d] == p && IsFirst(w, out, key, d)
  }

  ghost predicate IsFirst(w: World, out: map<string, string>, key: string, d: string) {
    forall e :: e in out && KeyOf(w, e) == key && out[e] != "" ==> !Less(e, d)
  }

  /** The project of the nearest enclosing path of at most `cut` segments. */
  ghost predicate Nearest(w: World, out: map<string, string>, segs: seq<string>, cut: int, p: string)
    requires cut <= |segs|
    decreases cut
  {
    if cut <= 0 then p == ""
    else
      exists q :: Claims(w, out, SegmentKey(segs[..cut]), q) && if q != "" then p == q else Nearest(w, out, segs, cut - 1, p)
  }

  /** Evidence of its own, else the nearest enclosing project, else its folded name. */
  ghost predicate Explained(w: World, out: map<string, string>, dir: string, p: string) {
    var segs := SegsOf(w, dir);
    if Own(w, dir) != "" then p == Own(w, dir)
    else exists q :: Encloses(w, out, segs, q) && p == if q != "" then q else NameProject(w.r, segs)
  }

  /** The project of the nearest enclosing path. */
  ghost predicate Encloses(w: World, out: map<string, string>, segs: seq<string>, p: string) {
    Nearest(w, out, segs, |segs| - 1, p)
  }

  ghost predicate Resolves(w: World, out: map<string, string>) {
    forall d :: d in out ==> Explained(w, out, d, out[d])
  }

  ghost predicate Clean(dirs: set<string>) {
    forall d :: d in dirs ==> NUL !in d
  }

  // ---- The answer is one ----

  lemma SegsArePlain(w: World, dir: string)
    requires NUL !in dir
    ensures Plain(SegsOf(w, dir))
  {
    SegmentsAreNames(dir, "");
    var all, segs := PathSegments(dir), SegsOf(w, dir);
    StripCutsAtFirst(w.r, all, 1);
    forall s | s in segs ensures s != "" && NUL !in s {
      assert s in all;
    }
  }

  /** Only directories with as many segments have the key of a path. */
  lemma KeyHasLength(w: World, segs: seq<string>, cut: nat, dir: string)
    requires Plain(segs) && cut <= |segs| && NUL !in dir && KeyOf(w, dir) == SegmentKey(segs[..cut])
    ensures |SegsOf(w, dir)| == cut
  {
    SegsArePlain(w, dir);
    assert forall s :: s in segs[..cut] ==> s in segs;
    KeyIdentifiesPath(SegsOf(w, dir), segs[..cut]);
  }

  /** The two agree about every directory with fewer than `n` segments. */
  ghost predicate AgreeBelow(w: World, a: map<string, string>, b: map<string, string>, n: int) {
    forall d :: |SegsOf(w, d)| < n ==> (d in a <==> d in b) && (d in a ==> a[d] == b[d])
  }

  lemma ClaimsAgree(w: World, a: map<string, string>, b: map<string, string>, segs: seq<string>, cut: nat, p: string)
    requires Plain(segs) && cut < |segs| && AgreeBelow(w, a, b, |segs|) && Clean(a.Keys) && Clean(b.Keys)
    requires Claims(w, a, SegmentKey(segs[..cut]), p)
    ensures Claims(w, b, SegmentKey(segs[..cut]), p)
  {
    hide EntryOf, SegmentKey, Less;
    var key := SegmentKey(segs[..cut]);
    forall d | (d in a || d in b) && KeyOf(w, d) == key ensures d in a && d in b && a[d] == b[d] {
      KeyHasLength(w, segs, cut, d);
      assert |SegsOf(w, d)| < |segs|;
    }
    if p != "" {
      var d :| d in a && KeyOf(w, d) == key && a[d] == p && IsFirst(w, a, key, d);
      assert IsFirst(w, b, key, d);
    }
  }

  lemma ClaimsAreUnique(w: World, out: map<string, string>, key: string, p: string, q: string)
    requires Claims(w, out, key, p) && Claims(w, out, key, q)
    ensures p == q
  {
    hide EntryOf, SegmentKey;
    if p != "" && q != "" {
      var d :| d in out && KeyOf(w, d) == key && out[d] == p && IsFirst(w, out, key, d);
      var e :| e in out && KeyOf(w, e) == key && out[e] == q && IsFirst(w, out, key, e);
      LessIsTotal(d, e);
    }
  }

  lemma {:induction false} NearestAgrees(w: World, a: map<string, string>, b: map<string, string>, segs: seq<string>, cut: int, p: string)
    requires Plain(segs) && cut < |segs| && AgreeBelow(w, a, b, |segs|) && Clean(a.Keys) && Clean(b.Keys)
    requires Nearest(w, a, segs, cut, p)
    ensures Nearest(w, b, segs, cut, p)
    decreases cut
  {
    hide AgreeBelow, Claims, SegmentKey;
    if 0 < cut {
      var q :| Claims(w, a, SegmentKey(segs[..cut]), q) && if q != "" then p == q else Nearest(w, a, segs, cut - 1, p);
      ClaimsAgree(w, a, b, segs, cut, q);
      if q == "" {
        NearestAgrees(w, a, b, segs, cut - 1, p);
      }
    }
  }

  lemma {:induction false} NearestIsUnique(w: World, out: map<string, string>, segs: seq<string>, cut: int, p: string, q: string)
    requires cut <= |segs| && Nearest(w, out, segs, cut, p) && Nearest(w, out, segs, cut, q)
    ensures p == q
    decreases cut
  {
    hide Claims, SegmentKey;
    if 0 < cut {
      var key := SegmentKey(segs[..cut]);
      var x :| Claims(w, out, key, x) && if x != "" then p == x else Nearest(w, out, segs, cut - 1, p);
      var y :| Claims(w, out, key, y) && if y != "" then q == y else Nearest(w, out, segs, cut - 1, q);
      ClaimsAreUnique(w, out, key, x, y);
      if x == "" {
        NearestIsUnique(w, out, segs, cut - 1, p, q);
      }
    }
  }

  lemma ExplainedAgrees(w: World, a: map<string, string>, b: map<string, string>, dir: string, p: string)
    requires NUL !in dir && AgreeBelow(w, a, b, |SegsOf(w, dir)|) && Clean(a.Keys) && Clean(b.Keys)
    requires Explained(w, a, dir, p)
    ensures Explained(w, b, dir, p)
  {
    hide AgreeBelow, EntryOf, Nearest, NameProject, ShippedProject;
    if Own(w, dir) == "" {
      var segs := SegsOf(w, dir);
      SegsArePlain(w, dir);
      var q :| Encloses(w, a, segs, q) && p == if q != "" then q else NameProject(w.r, segs);
      NearestAgrees(w, a, b, segs, |segs| - 1, q);
      assert Encloses(w, b, segs, q);
    }
  }

  lemma ExplainedIsUnique(w: World, out: map<string, string>, dir: string, p: string, q: string)
    requires Explained(w, out, dir, p) && Explained(w, out, dir, q)
    ensures p == q
  {
    hide EntryOf, Nearest, NameProject, ShippedProject;
    if Own(w, dir) == "" {
      var segs := SegsOf(w, dir);
      var x :| Encloses(w, out, segs, x) && p == if x != "" then x else NameProject(w.r, segs);
      var y :| Encloses(w, out, segs, y) && q == if y != "" then y else NameProject(w.r, segs);
      NearestIsUnique(w, out, segs, |segs| - 1, x, y);
    }
  }

  lemma {:induction false} ResolutionsAgreeBelow(w: World, a: map<string, string>, b: map<string, string>, n: nat)
    requires a.Keys == b.Keys && Clean(a.Keys) && Resolves(w, a) && Resolves(w, b)
    ensures AgreeBelow(w, a, b, n)
    decreases n
  {
    hide EntryOf, Explained;
    if 0 < n {
      ResolutionsAgreeBelow(w, a, b, n - 1);
    }
    forall d | |SegsOf(w, d)| < n ensures (d in a <==> d in b) && (d in a ==> a[d] == b[d]) {
      assert d in a <==> d in a.Keys;
      assert d in b <==> d in b.Keys;
      if d in a {
        assert AgreeBelow(w, a, b, |SegsOf(w, d)|);
        ExplainedAgrees(w, a, b, d, a[d]);
        ExplainedIsUnique(w, b, d, a[d], b[d]);
      }
    }
  }

  /** A set of directories has one resolution at most, so neither the order the
      directories came in nor the way it was computed can show. */
  lemma ResolutionIsUnique(w: World, a: map<string, string>, b: map<string, string>)
    requires a.Keys == b.Keys && Clean(a.Keys) && Resolves(w, a) && Resolves(w, b)
    ensures a == b
  {
    forall d | d in a ensures d in b && a[d] == b[d] {
      ResolutionsAgreeBelow(w, a, b, |SegsOf(w, d)| + 1);
      assert |SegsOf(w, d)| < |SegsOf(w, d)| + 1;
    }
    assert forall d :: d in b ==> d in b.Keys;
  }

  /** A directory that is not a project has no say: without it, every other
      directory is resolved as it was. */
  lemma NonProjectsNeverClaim(w: World, out: map<string, string>, d: string)
    requires Clean(out.Keys) && Resolves(w, out) && d in out && out[d] == ""
    ensures Resolves(w, out - {d})
  {
    hide EntryOf, Explained;
    var rest := out - {d};
    forall e | e in rest ensures Explained(w, rest, e, rest[e]) {
      assert Explained(w, out, e, out[e]);
      ExplainedWithout(w, out, d, e, out[e]);
    }
  }

  lemma ExplainedWithout(w: World, out: map<string, string>, d: string, e: string, p: string)
    requires d in out && out[d] == "" && Explained(w, out, e, p)
    ensures Explained(w, out - {d}, e, p)
  {
    hide EntryOf, Nearest, NameProject, ShippedProject;
    if Own(w, e) == "" {
      var segs := SegsOf(w, e);
      var q :| Encloses(w, out, segs, q) && p == if q != "" then q else NameProject(w.r, segs);
      NearestWithout(w, out, d, segs, |segs| - 1, q);
      assert Encloses(w, out - {d}, segs, q);
    }
  }

  lemma {:induction false} NearestWithout(w: World, out: map<string, string>, d: string, segs: seq<string>, cut: int, p: string)
    requires d in out && out[d] == "" && cut <= |segs| && Nearest(w, out, segs, cut, p)
    ensures Nearest(w, out - {d}, segs, cut, p)
    decreases cut
  {
    hide Claims, SegmentKey;
    if 0 < cut {
      var key := SegmentKey(segs[..cut]);
      var q :| Claims(w, out, key, q) && if q != "" then p == q else Nearest(w, out, segs, cut - 1, p);
      ClaimsWithout(w, out, d, key, q);
      if q == "" {
        NearestWithout(w, out, d, segs, cut - 1, p);
      }
    }
  }

  lemma ClaimsWithout(w: World, out: map<string, string>, d: string, key: string, p: string)
    requires d in out && out[d] == "" && Claims(w, out, key, p)
    ensures Claims(w, out - {d}, key, p)
  {
    hide EntryOf;
    if p != "" {
      var e :| e in out && KeyOf(w, e) == key && out[e] == p && IsFirst(w, out, key, e);
      assert IsFirst(w, out - {d}, key, e);
    }
  }

  // ---- One pass, shortest first ----

  /** `ancestorProject`. */
  function AncestorProject(segs: seq<string>, projects: map<string, string>, cut: int): string
    requires cut <= |segs|
    decreases cut
  {
    if cut <= 0 then ""
    else
      var key := SegmentKey(segs[..cut]);
      if key in projects && projects[key] != "" then projects[key] else AncestorProject(segs, projects, cut - 1)
  }

  /** The table of projects is that of the directories walked so far. */
  ghost predicate Tracks(w: World, out: map<string, string>, projects: map<string, string>) {
    forall key :: if key in projects then projects[key] != "" && Claims(w, out, key, projects[key]) else Claims(w, out, key, "")
  }

  lemma {:induction false} AncestorIsNearest(w: World, out: map<string, string>, projects: map<string, string>, segs: seq<string>, cut: int)
    requires Tracks(w, out, projects) && cut <= |segs|
    ensures Nearest(w, out, segs, cut, AncestorProject(segs, projects, cut))
    decreases cut
  {
    hide Claims, SegmentKey;
    if 0 < cut {
      AncestorIsNearest(w, out, projects, segs, cut - 1);
      var key := SegmentKey(segs[..cut]);
      var q := if key in projects then projects[key] else "";
      assert Claims(w, out, key, q);
    }
  }

  function ProjectOf(w: World, projects: map<string, string>, e: Entry): string {
    var own := ShippedProject(e.segs, ReposOf(w, e.dir), "");
    if own != "" then own
    else
      var above := AncestorProject(e.segs, projects, |e.segs| - 1);
      if above != "" then above else NameProject(w.r, e.segs)
  }

  lemma ProjectIsExplained(w: World, out: map<string, string>, projects: map<string, string>, e: Entry)
    requires Tracks(w, out, projects) && e == EntryOf(w.r, e.dir)
    ensures Explained(w, out, e.dir, ProjectOf(w, projects, e))
  {
    hide EntryOf, ShippedProject, Nearest, AncestorProject, Tracks, NameProject;
    AncestorIsNearest(w, out, projects, e.segs, |e.segs| - 1);
    assert Encloses(w, out, e.segs, AncestorProject(e.segs, projects, |e.segs| - 1));
  }

  /** Everything walked so far comes no later than `e`. */
  ghost predicate Before(w: World, out: map<string, string>, e: Entry) {
    forall d :: d in out ==> !Earlier(e, EntryOf(w.r, d))
  }

  lemma WalkedAgrees(w: World, out: map<string, string>, e: Entry, p: string, n: int)
    requires e == EntryOf(w.r, e.dir) && Before(w, out, e) && n <= |e.segs| && (e.dir in out ==> out[e.dir] == p)
    ensures AgreeBelow(w, out, out[e.dir := p], n)
  {
    hide EntryOf;
  }

  lemma WalkKeepsResolution(w: World, out: map<string, string>, e: Entry, p: string)
    requires Resolves(w, out) && e == EntryOf(w.r, e.dir) && Before(w, out, e) && Explained(w, out, e.dir, p)
    requires Clean(out.Keys) && NUL !in e.dir
    ensures Resolves(w, out[e.dir := p]) && (e.dir in out ==> out[e.dir] == p)
  {
    hide EntryOf, Explained, Earlier;
    var out' := out[e.dir := p];
    if e.dir in out {
      ExplainedIsUnique(w, out, e.dir, p, out[e.dir]);
    }
    forall d | d in out' ensures Explained(w, out', d, out'[d]) {
      assert |SegsOf(w, d)| <= |e.segs| by { LengthInOrder(w, out, e, d); }
      WalkedAgrees(w, out, e, p, |SegsOf(w, d)|);
      ExplainedAgrees(w, out, out', d, out'[d]);
    }
  }

  lemma LengthInOrder(w: World, out: map<string, string>, e: Entry, d: string)
    requires Before(w, out, e) && e == EntryOf(w.r, e.dir) && (d in out || d == e.dir)
    ensures |SegsOf(w, d)| <= |e.segs|
  {
    hide EntryOf;
    if d in out {
      assert !Earlier(e, EntryOf(w.r, d));
    }
  }

  lemma WalkKeepsTable(w: World, out: map<string, string>, projects: map<string, string>, e: Entry, p: string)
    requires Tracks(w, out, projects) && e == EntryOf(w.r, e.dir) && Before(w, out, e)
    requires Clean(out.Keys) && NUL !in e.dir && (e.dir in out ==> out[e.dir] == p)
    ensures Tracks(w, out[e.dir := p], if e.key !in projects && p != "" then projects[e.key := p] else projects)
  {
    hide EntryOf, Earlier, Tracks, Claims;
    var out' := out[e.dir := p];
    var projects' := if e.key !in projects && p != "" then projects[e.key := p] else projects;
    forall key
      ensures if key in projects' then projects'[key] != "" && Claims(w, out', key, projects'[key]) else Claims(w, out', key, "")
    {
      TableAt(w, out, projects, key);
      if key != e.key {
        OtherClaims(w, out, e, p, key, if key in projects then projects[key] else "");
      } else {
        OwnClaims(w, out, e, p, if key in projects then projects[key] else "");
      }
    }
    TableFrom(w, out', projects');
  }

  lemma TableAt(w: World, out: map<string, string>, projects: map<string, string>, key: string)
    requires Tracks(w, out, projects)
    ensures if key in projects then projects[key] != "" && Claims(w, out, key, projects[key]) else Claims(w, out, key, "")
  {}

  lemma TableFrom(w: World, out: map<string, string>, projects: map<string, string>)
    requires forall key :: if key in projects then projects[key] != "" && Claims(w, out, key, projects[key]) else Claims(w, out, key, "")
    ensures Tracks(w, out, projects)
  {}

  lemma OtherClaims(w: World, out: map<string, string>, e: Entry, p: string, key: string, q: string)
    requires Claims(w, out, key, q) && e == EntryOf(w.r, e.dir) && key != e.key
    ensures Claims(w, out[e.dir := p], key, q)
  {
    hide EntryOf, Less;
    if q != "" {
      var d :| d in out && KeyOf(w, d) == key && out[d] == q && IsFirst(w, out, key, d);
      assert IsFirst(w, out[e.dir := p], key, d);
    }
  }

  lemma OwnClaims(w: World, out: map<string, string>, e: Entry, p: string, q: string)
    requires Claims(w, out, e.key, q) && e == EntryOf(w.r, e.dir) && Before(w, out, e)
    requires Clean(out.Keys) && NUL !in e.dir && (e.dir in out ==> out[e.dir] == p)
    ensures Claims(w, out[e.dir := p], e.key, if q == "" then p else q)
  {
    hide EntryOf, Less;
    var out' := out[e.dir := p];
    LessIsTotal(e.dir, e.dir);
    if q != "" {
      var d :| d in out && KeyOf(w, d) == e.key && out[d] == q && IsFirst(w, out, e.key, d);
      SameKeyInOrder(w, out, e, d);
      assert IsFirst(w, out', e.key, d);
    } else if p != "" {
      assert IsFirst(w, out', e.key, e.dir);
    }
  }

  lemma SameKeyInOrder(w: World, out: map<string, string>, e: Entry, d: string)
    requires Before(w, out, e) && e == EntryOf(w.r, e.dir) && d in out && KeyOf(w, d) == e.key
    requires Clean(out.Keys) && NUL !in e.dir
    ensures !Less(e.dir, d)
  {
    SegsArePlain(w, e.dir);
    assert d in out.Keys;
    assert e.segs[..|e.segs|] == e.segs;
    KeyHasLength(w, e.segs, |e.segs|, d);
    assert !Earlier(e, EntryOf(w.r, d));
  }

  /** `resolve`. It fails exactly when pull requests name a repository for a
      directory that has no segment; otherwise it gives the one resolution of the
      set of directories. */
  method Resolve(w: World, dirs: seq<string>) returns (panicked: bool, out: map<string, string>)
    requires forall d :: d in dirs ==> NUL !in d
    ensures panicked <==> exists d :: d in dirs && Panics(SegsOf(w, d), ReposOf(w, d))
    ensures !panicked ==> (forall d :: d in out <==> d in dirs) && Resolves(w, out)
  {
    hide EntryOf, ShippedProject, AncestorProject, NameProject, Tracks, Resolves, Panics, Earlier;
    var entries: seq<Entry> := [];
    for i := 0 to |dirs|
      invariant Sorted(entries)
      invariant forall x :: x in entries <==> exists j :: 0 <= j < i && x == EntryOf(w.r, dirs[j])
    {
      entries := Insert(entries, EntryOf(w.r, dirs[i]));
    }
    out := map[];
    var projects: map<string, string> := map[];
    assert Tracks(w, out, projects) && Resolves(w, out) by { NothingWalked(w); }
    EntriesAreTheirs(w, dirs, entries);
    for i := 0 to |entries|
      invariant forall d :: d in out <==> exists j :: 0 <= j < i && d == entries[j].dir
      invariant forall j :: 0 <= j < i ==> !Panics(entries[j].segs, ReposOf(w, entries[j].dir))
      invariant Tracks(w, out, projects) && Resolves(w, out)
    {
      var e := entries[i];
      if Panics(e.segs, ReposOf(w, e.dir)) {
        assert e in entries;
        return true, out;
      }
      var project := ProjectOf(w, projects, e);
      WalkOne(w, out, projects, entries, i);
      out := out[e.dir := project];
      if e.key !in projects && project != "" {
        projects := projects[e.key := project];
      }
    }
    panicked := false;
    AllWalked(w, dirs, entries, out);
  }

  /** One such directory: the root, from which a pull request was opened. */
  lemma RootPanics(r: Rules)
    ensures var w := World(r, map["/" := ["o/r"]]); Panics(SegsOf(w, "/"), ReposOf(w, "/"))
  {
    var w := World(r, map["/" := ["o/r"]]);
    assert PathSegments("/") == [] by {
      assert "/"[1..] == "" && Split("", "") == [];
    }
    assert SegsOf(w, "/") == [];
    assert RepoName("o/r") == "r";
    assert "o/r" in ReposOf(w, "/");
  }

  lemma NothingWalked(w: World)
    ensures Tracks(w, map[], map[]) && Resolves(w, map[])
  {
    var out: map<string, string> := map[];
    assert forall key :: Claims(w, out, key, "");
  }

  /** The entries are those of the directories. */
  ghost predicate Theirs(w: World, dirs: seq<string>, entries: seq<Entry>) {
    && (forall e :: e in entries ==> e == EntryOf(w.r, e.dir) && e.dir in dirs)
    && (forall d :: d in dirs ==> EntryOf(w.r, d) in entries)
  }

  lemma EntriesAreTheirs(w: World, dirs: seq<string>, entries: seq<Entry>)
    requires forall x :: x in entries <==> exists j :: 0 <= j < |dirs| && x == EntryOf(w.r, dirs[j])
    ensures Theirs(w, dirs, entries)
  {
    assert forall d :: EntryOf(w.r, d).dir == d;
  }

  lemma WalkOne(w: World, out: map<string, string>, projects: map<string, string>, entries: seq<Entry>, i: nat)
    requires i < |entries| && Sorted(entries) && (forall e :: e in entries ==> e == EntryOf(w.r, e.dir) && NUL !in e.dir)
    requires forall d :: d in out <==> exists j :: 0 <= j < i && d == entries[j].dir
    requires Tracks(w, out, projects) && Resolves(w, out)
    ensures var e := entries[i];
            var p := ProjectOf(w, projects, e);
            && Resolves(w, out[e.dir := p])
            && Tracks(w, out[e.dir := p], if e.key !in projects && p != "" then projects[e.key := p] else projects)
  {
    hide EntryOf, ProjectOf, Tracks, Resolves, Explained, Earlier;
    var e := entries[i];
    var p := ProjectOf(w, projects, e);
    assert e in entries && e == EntryOf(w.r, e.dir);
    forall d | d in out ensures !Earlier(e, EntryOf(w.r, d)) && NUL !in d {
      var j :| 0 <= j < i && d == entries[j].dir;
      assert entries[j] in entries;
    }
    ProjectIsExplained(w, out, projects, e);
    WalkKeepsResolution(w, out, e, p);
    WalkKeepsTable(w, out, projects, e, p);
  }

  lemma AllWalked(w: World, dirs: seq<string>, entries: seq<Entry>, out: map<string, string>)
    requires Theirs(w, dirs, entries) && (forall d :: d in out <==> exists j :: 0 <= j < |entries| && d == entries[j].dir)
    requires forall j :: 0 <= j < |entries| ==> !Panics(entries[j].segs, ReposOf(w, entries[j].dir))
    ensures forall d :: d in out <==> d in dirs
    ensures forall d :: d in dirs ==> !Panics(SegsOf(w, d), ReposOf(w, d))
  {
    hide EntryOf, Panics;
    forall d ensures d in out <==> d in dirs {
      if d in out {
        var j :| 0 <= j < |entries| && d == entries[j].dir;
        assert entries[j] in entries;
      }
      if d in dirs {
        var e := EntryOf(w.r, d);
        assert e in entries && e.dir == d by { DirOf(w, d); }
        var j :| 0 <= j < |entries| && entries[j] == e;
      }
    }
    forall d | d in dirs ensures !Panics(SegsOf(w, d), ReposOf(w, d)) {
      var e := EntryOf(w.r, d);
      assert e in entries && e.dir == d by { DirOf(w, d); }
      var j :| 0 <= j < |entries| && entries[j] == e;
    }
  }

  lemma DirOf(w: World, d: string)
    ensures EntryOf(w.r, d).dir == d
  {}
}
