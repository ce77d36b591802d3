/** Which project a working directory belongs to: what the path itself says, what
    pull requests say, and what the set of directories says together. */
module Projects {
  import opened Keys

  const NUL: char := 0 as char

  // ---- Paths ----

  predicate IsSeparator(c: char) {
    c == '/' || c == '\\'
  }

  /** The segments of a path; `word` is the one being read. */
  function Split(p: string, word: string): seq<string>
    decreases |p|
  {
    if p == "" then Kept(word)
    else if IsSeparator(p[0]) then Kept(word) + Split(p[1..], "")
    else Split(p[1..], word + [p[0]])
  }

  function Kept(word: string): seq<string> {
    if word == "" || word == "." then [] else [word]
  }

  /** `pathSegments`. */
  function PathSegments(p: string): seq<string> {
    Split(p, "")
  }

  predicate Alike(p: string, q: string) {
    |p| == |q| && forall i :: 0 <= i < |p| ==> p[i] == q[i] || (IsSeparator(p[i]) && IsSeparator(q[i]))
  }

  /** Either separator does: two machines split one path the same way. */
  lemma {:induction false} SeparatorsAreInterchangeable(p: string, q: string, word: string)
    requires Alike(p, q)
    ensures Split(p, word) == Split(q, word)
    decreases |p|
  {
    if p != "" {
      assert Alike(p[1..], q[1..]);
      SeparatorsAreInterchangeable(p[1..], q[1..], "");
      if !IsSeparator(p[0]) {
        SeparatorsAreInterchangeable(p[1..], q[1..], word + [p[0]]);
      }
    }
  }

  /** A segment is a name: not empty, not a dot, and of one piece. */
  predicate IsName(s: string) {
    s != "" && s != "." && forall c :: c in s ==> !IsSeparator(c)
  }

  lemma {:induction false} SegmentsAreNames(p: string, word: string)
    requires forall c :: c in word ==> !IsSeparator(c)
    ensures forall s :: s in Split(p, word) ==> IsName(s) && forall c :: c in s ==> c in word || c in p
    decreases |p|
  {
    if p != "" {
      if IsSeparator(p[0]) {
        SegmentsAreNames(p[1..], "");
      } else {
        SegmentsAreNames(p[1..], word + [p[0]]);
      }
    }
  }

  function LowerChar(c: char): char {
    if 'A' <= c <= 'Z' then (c as int + 32) as char else c
  }

  function Lower(s: string): string {
    seq(|s|, i requires 0 <= i < |s| => LowerChar(s[i]))
  }

  predicate EqualFold(a: string, b: string) {
    Lower(a) == Lower(b)
  }

  // ---- Worktrees ----

  datatype Layout = Layout(marker: string, child: string)

  /** The naming rules: worktree layouts, and whether some pattern takes a suffix. */
  datatype Rules = Rules(layouts: seq<Layout>, matches: string -> bool)

  predicate MarksWorktree(r: Rules, segs: seq<string>, i: nat) {
    i + 1 < |segs| && exists l :: l in r.layouts && segs[i] == l.marker && segs[i + 1] == l.child
  }

  function StripFrom(r: Rules, segs: seq<string>, i: nat): seq<string>
    decreases |segs| - i
  {
    if i + 1 >= |segs| then segs
    else if MarksWorktree(r, segs, i) then segs[..i]
    else StripFrom(r, segs, i + 1)
  }

  /** `stripWorktree`. */
  function StripWorktree(r: Rules, segs: seq<string>): seq<string> {
    StripFrom(r, segs, 1)
  }

  lemma {:induction false} StripCutsAtFirst(r: Rules, segs: seq<string>, i: nat)
    requires 1 <= i
    ensures var cut := StripFrom(r, segs, i);
            && cut <= segs
            && (segs != [] ==> cut != [])
            && (cut == segs || (i <= |cut| && MarksWorktree(r, segs, |cut|)))
            && forall j :: i <= j < |cut| ==> !MarksWorktree(r, segs, j)
    decreases |segs| - i
  {
    if i + 1 < |segs| && !MarksWorktree(r, segs, i) {
      StripCutsAtFirst(r, segs, i + 1);
    }
  }

  lemma {:induction false} NothingToStrip(r: Rules, segs: seq<string>, i: nat)
    requires forall j :: i <= j < |segs| ==> !MarksWorktree(r, segs, j)
    ensures StripFrom(r, segs, i) == segs
    decreases |segs| - i
  {
    if i + 1 < |segs| {
      NothingToStrip(r, segs, i + 1);
    }
  }

  /** A worktree inside a worktree resolves in one step. */
  lemma StripIsIdempotent(r: Rules, segs: seq<string>)
    ensures StripWorktree(r, StripWorktree(r, segs)) == StripWorktree(r, segs)
  {
    var cut := StripWorktree(r, segs);
    StripCutsAtFirst(r, segs, 1);
    forall j | 1 <= j < |cut| ensures !MarksWorktree(r, cut, j) {
      assert MarksWorktree(r, cut, j) ==> MarksWorktree(r, segs, j);
    }
    NothingToStrip(r, cut, 1);
  }

  // ---- Sibling names ----

  const WORDS: set<string> := {"issue", "issues", "wt", "worktree", "pr", "branch", "agent"}

  predicate IsDash(c: char) {
    c == '-' || c == '_'
  }

  /** The name may be cut at `i`. */
  predicate Cuts(r: Rules, name: string, i: nat) {
    1 <= i < |name| - 1 && IsDash(name[i]) && Lower(name[..i]) !in WORDS && r.matches(name[i + 1..])
  }

  function FoldFrom(r: Rules, name: string, i: nat): string
    decreases |name| - i
  {
    if i >= |name| - 1 then name
    else if Cuts(r, name, i) then name[..i]
    else FoldFrom(r, name, i + 1)
  }

  /** `foldSibling`. */
  function FoldSibling(r: Rules, name: string): string {
    FoldFrom(r, name, 1)
  }

  lemma {:induction false} FoldCutsAtFirst(r: Rules, name: string, i: nat)
    requires 1 <= i
    ensures var base := FoldFrom(r, name, i);
            && base <= name && (name != "" ==> base != "")
            && (base == name || Cuts(r, name, |base|))
            && forall j :: i <= j < |base| ==> !Cuts(r, name, j)
    decreases |name| - i
  {
    if i < |name| - 1 && !Cuts(r, name, i) {
      FoldCutsAtFirst(r, name, i + 1);
    }
  }

  lemma {:induction false} NothingToFold(r: Rules, name: string, i: nat)
    requires forall j :: i <= j ==> !Cuts(r, name, j)
    ensures FoldFrom(r, name, i) == name
    decreases |name| - i
  {
    if i < |name| - 1 {
      NothingToFold(r, name, i + 1);
    }
  }

  /** What a suffix test takes, it takes with a separator and more behind it. */
  ghost predicate TakesMore(r: Rules, name: string) {
    forall j, k :: 0 <= j <= k < |name| && IsDash(name[k]) && r.matches(name[j..k]) ==> r.matches(name[j..])
  }

  /** Folding a folded name changes nothing, for suffix tests that take more. */
  lemma FoldIsIdempotent(r: Rules, name: string)
    requires TakesMore(r, name)
    ensures FoldSibling(r, FoldSibling(r, name)) == FoldSibling(r, name)
  {
    var base := FoldSibling(r, name);
    FoldCutsAtFirst(r, name, 1);
    forall j | 1 <= j ensures !Cuts(r, base, j) {
      if |base| < |name| && Cuts(r, base, j) {
        CutsEarlier(r, name, base, j);
      }
    }
    NothingToFold(r, base, 1);
  }

  lemma CutsEarlier(r: Rules, name: string, base: string, j: nat)
    requires TakesMore(r, name) && base < name && Cuts(r, name, |base|) && Cuts(r, base, j)
    ensures Cuts(r, name, j)
  {
    assert base[j + 1..] == name[j + 1..|base|] && base[..j] == name[..j];
  }

  /** The leftmost place where the name may be cut. */
  ghost predicate FirstCut(r: Rules, name: string, k: nat) {
    Cuts(r, name, k) && forall i :: 1 <= i < k ==> !Cuts(r, name, i)
  }

  /** Folding a name once settles it if and only if, from no earlier separator behind
      an unreserved name, the stretch up to the leftmost cut is a suffix by itself. */
  lemma FoldSettlesIff(r: Rules, name: string)
    ensures FoldSibling(r, FoldSibling(r, name)) == FoldSibling(r, name) <==>
              forall j: nat, k: nat :: FirstCut(r, name, k) && 1 <= j < k - 1 && IsDash(name[j]) && Lower(name[..j]) !in WORDS ==>
                !r.matches(name[j + 1..k])
  {
    hide Lower;
    var base := FoldSibling(r, name);
    FoldCutsAtFirst(r, name, 1);
    forall j | 1 <= j < |base| - 1
      ensures Cuts(r, base, j) <==> IsDash(name[j]) && Lower(name[..j]) !in WORDS && r.matches(name[j + 1..|base|])
    {
      assert base[..j] == name[..j] && base[j + 1..] == name[j + 1..|base|];
    }
    FoldStaysIff(r, base);
    if base == name {
      FoldStaysIff(r, name);
    } else {
      assert FirstCut(r, name, |base|);
      forall k | FirstCut(r, name, k) ensures k == |base| {}
    }
  }

  lemma FoldStaysIff(r: Rules, name: string)
    ensures FoldSibling(r, name) == name <==> forall j :: 1 <= j < |name| - 1 ==> !Cuts(r, name, j)
  {
    FoldCutsAtFirst(r, name, 1);
    if forall j :: 1 <= j < |name| - 1 ==> !Cuts(r, name, j) {
      NothingToFold(r, name, 1);
    }
  }

  /** For other tests folding need not settle: here one suffix is taken at a time. */
  lemma FoldNeedNotSettle(r: Rules)
    requires forall s :: r.matches(s) <==> s == "x"
    ensures FoldSibling(r, "a-x-x") == "a-x" && FoldSibling(r, "a-x") == "a"
  {
    var long, short := "a-x-x", "a-x";
    assert long[2..] == "x-x" && long[4..] == "x" && long[..3] == short && short[2..] == "x" && short[..1] == "a";
    assert Lower(short)[1] == '-' && Lower("a")[0] == 'a';
    assert |Lower(short)| == 3 && |Lower("a")| == 1;
    assert !Cuts(r, long, 1) && !Cuts(r, long, 2) && Cuts(r, long, 3);
    assert Cuts(r, short, 1);
  }

  // ---- The default patterns ----

  predicate AllDigits(s: string) {
    forall c :: c in s ==> '0' <= c <= '9'
  }

  /** Nothing, or a separator and anything without a newline: `([-_].*)?$`. */
  predicate Tail(s: string) {
    s == "" || (IsDash(s[0]) && '\n' !in s[1..])
  }

  /** `^[0-9]+([-_].*)?$` or `^(issue|...)([-_].*)?$`, with the head ending at `n`. */
  predicate MatchesAt(s: string, n: nat) {
    n <= |s| && Tail(s[n..]) && ((1 <= n && AllDigits(s[..n])) || s[..n] in WORDS)
  }

  ghost predicate DefaultMatches(s: string) {
    exists n: nat :: MatchesAt(s, n)
  }

  /** The default patterns take more, on names without newlines. */
  lemma DefaultsTakeMore(r: Rules, name: string)
    requires (forall s :: r.matches(s) <==> DefaultMatches(s)) && '\n' !in name
    ensures TakesMore(r, name)
  {
    forall j, k | 0 <= j <= k < |name| && IsDash(name[k]) && r.matches(name[j..k])
      ensures r.matches(name[j..])
    {
      var head, whole := name[j..k], name[j..];
      var n: nat :| MatchesAt(head, n);
      assert whole[..n] == head[..n];
      assert n < |head| ==> whole[n] == head[n];
      assert n == |head| ==> whole[n] == name[k];
      assert MatchesAt(whole, n);
    }
  }
}
