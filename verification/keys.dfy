/** Object keys: a bundle is named for its origin and the sequences it contains,
    in digits padded so that a listing comes back in sequence order. */
module Keys {
  import opened Records

  type Key = string

  datatype Span = Span(origin: Origin, first: int, last: int)

  const SUFFIX: string := ".bundle"
  const WIDTH: nat := 12
  const INT64_MAX: int := 0x7fff_ffff_ffff_ffff

  // ---- Writing a key ----

  function Digit(d: int): char
    requires 0 <= d < 10
  {
    '0' + d as char
  }

  /** Decimal digits, at least `width` of them. */
  function Padded(n: nat, width: nat): string
    decreases n, width
  {
    if n < 10 && width <= 1 then [Digit(n)]
    else Padded(n / 10, if width == 0 then 0 else width - 1) + [Digit(n % 10)]
  }

  /** `%012d`: the sign counts as one of the twelve. */
  function Formatted(n: int): string {
    if n < 0 then "-" + Padded(0 - n, WIDTH - 1) else Padded(n, WIDTH)
  }

  /** `formatKey`. */
  function FormatKey(s: Span): Key {
    s.origin + "/" + (Formatted(s.first) + "-" + Formatted(s.last)) + SUFFIX
  }

  // ---- Reading a key ----

  function IndexOf(s: string, c: char): (i: int)
    ensures -1 <= i < |s|
    ensures 0 <= i ==> s[i] == c && forall j :: 0 <= j < i ==> s[j] != c
    ensures i < 0 ==> c !in s
  {
    if s == "" then -1
    else if s[0] == c then 0
    else
      var i := IndexOf(s[1..], c);
      assert i >= 0 ==> forall j :: 1 <= j < i + 1 ==> s[j] == s[1..][j - 1];
      if i < 0 then -1 else i + 1
  }

  function LastIndexOf(s: string, c: char): (i: int)
    ensures -1 <= i < |s|
    ensures 0 <= i ==> s[i] == c && forall j :: i < j < |s| ==> s[j] != c
    ensures i < 0 ==> c !in s
  {
    if s == "" then -1
    else if s[|s| - 1] == c then |s| - 1
    else LastIndexOf(s[..|s| - 1], c)
  }

  predicate HasSuffix(s: string, suffix: string) {
    |suffix| <= |s| && s[|s| - |suffix|..] == suffix
  }

  predicate IsDigit(c: char) {
    '0' <= c <= '9'
  }

  /** The number the digits spell. */
  function Digits(s: string): Option<nat> {
    if s == "" then Some(0)
    else if !IsDigit(s[|s| - 1]) then None
    else
      match Digits(s[..|s| - 1])
      case None => None
      case Some(n) => Some(10 * n + (s[|s| - 1] as int - '0' as int))
  }

  /** `strconv.ParseInt(s, 10, 64)`: an optional sign, digits, and a value that fits. */
  function ParseInt(s: string): Option<int> {
    var signed := s != "" && (s[0] == '-' || s[0] == '+');
    var digits := if signed then s[1..] else s;
    if digits == "" then None
    else
      match Digits(digits)
      case None => None
      case Some(n) =>
        var v: int := if signed && s[0] == '-' then 0 - n as int else n;
        if -INT64_MAX - 1 <= v <= INT64_MAX then Some(v) else None
  }

  /** What a key's name says between the slash and the suffix. */
  function ParseSpan(origin: Origin, span: string): Option<Span> {
    var dash := IndexOf(span, '-');
    if dash < 0 then None
    else
      match (ParseInt(span[..dash]), ParseInt(span[dash + 1..]))
      case (Some(first), Some(last)) => Some(Span(origin, first, last))
      case _ => None
  }

  /** `parseKey`. */
  function ParseKey(key: Key): Option<Span> {
    var slash := LastIndexOf(key, '/');
    if slash < 0 || !HasSuffix(key, SUFFIX) then None
    else
      var name := key[slash + 1..];
      ParseSpan(key[..slash], if HasSuffix(name, SUFFIX) then name[..|name| - |SUFFIX|] else name)
  }

  // ---- Reading inverts writing ----

  lemma {:induction false} PaddedReads(n: nat, width: nat)
    ensures var s := Padded(n, width);
            s != "" && Digits(s) == Some(n) && forall i :: 0 <= i < |s| ==> IsDigit(s[i])
    decreases n, width
  {
    var s := Padded(n, width);
    if n < 10 && width <= 1 {
      assert s[..0] == "";
    } else {
      var higher := Padded(n / 10, if width == 0 then 0 else width - 1);
      PaddedReads(n / 10, if width == 0 then 0 else width - 1);
      assert s[..|s| - 1] == higher;
    }
  }

  lemma PaddedParses(n: nat, width: nat)
    requires n <= INT64_MAX
    ensures ParseInt(Padded(n, width)) == Some(n)
  {
    PaddedReads(n, width);
  }

  lemma LastIndexIs(s: string, c: char, i: nat)
    requires i < |s| && s[i] == c && forall j :: i < j < |s| ==> s[j] != c
    ensures LastIndexOf(s, c) == i
  {
    assert s[i] in s;
  }

  lemma IndexIs(s: string, c: char, i: nat)
    requires i < |s| && s[i] == c && forall j :: 0 <= j < i ==> s[j] != c
    ensures IndexOf(s, c) == i
  {
    assert s[i] in s;
  }

  lemma NameParts(origin: Origin, name: string)
    requires forall i :: 0 <= i < |name| ==> name[i] != '/'
    ensures var key := origin + "/" + name;
            LastIndexOf(key, '/') == |origin| && key[|origin| + 1..] == name && key[..|origin|] == origin
  {
    var key := origin + "/" + name;
    assert forall i :: |origin| < i < |key| ==> key[i] == name[i - |origin| - 1];
    LastIndexIs(key, '/', |origin|);
  }

  lemma SpanParts(first: string, last: string)
    requires forall i :: 0 <= i < |first| ==> IsDigit(first[i])
    ensures var span := first + "-" + last;
            IndexOf(span, '-') == |first| && span[..|first|] == first && span[|first| + 1..] == last
  {
    var span := first + "-" + last;
    assert forall i :: 0 <= i < |first| ==> span[i] == first[i];
    IndexIs(span, '-', |first|);
  }

  lemma SuffixDrops(s: string, suffix: string)
    ensures var whole := s + suffix; HasSuffix(whole, suffix) && whole[..|whole| - |suffix|] == s
  {}

  lemma NameReads(origin: Origin, first: string, last: string)
    requires forall i :: 0 <= i < |first| ==> IsDigit(first[i])
    requires forall i :: 0 <= i < |last| ==> IsDigit(last[i])
    requires ParseInt(first).Some? && ParseInt(last).Some?
    ensures ParseKey(origin + "/" + (first + "-" + last) + SUFFIX) ==
              Some(Span(origin, ParseInt(first).value, ParseInt(last).value))
  {
    var span := first + "-" + last;
    var name := span + SUFFIX;
    var key := origin + "/" + span + SUFFIX;
    assert forall i :: 0 <= i < |span| ==> span[i] != '/';
    assert key == origin + "/" + name;
    NameParts(origin, name);
    SuffixDrops(span, SUFFIX);
    SuffixDrops(origin + "/" + span, SUFFIX);
    SpanParts(first, last);
  }

  /** `parseKey` inverts `formatKey`, whatever the origin contains. */
  lemma KeyRoundTrip(s: Span)
    requires 0 <= s.first <= INT64_MAX && 0 <= s.last <= INT64_MAX
    ensures ParseKey(FormatKey(s)) == Some(s)
  {
    PaddedReads(s.first, WIDTH);
    PaddedReads(s.last, WIDTH);
    PaddedParses(s.first, WIDTH);
    PaddedParses(s.last, WIDTH);
    NameReads(s.origin, Padded(s.first, WIDTH), Padded(s.last, WIDTH));
  }

  /** A sign is read, and a number beyond 64 bits is not a number. */
  lemma IntegersRead(n: nat, width: nat)
    ensures ParseInt(Padded(n, width)) == if n <= INT64_MAX then Some(n) else None
    ensures ParseInt("+" + Padded(n, width)) == if n <= INT64_MAX then Some(n) else None
    ensures ParseInt("-" + Padded(n, width)) == if n <= INT64_MAX + 1 then Some(0 - n) else None
  {
    PaddedReads(n, width);
    assert ("+" + Padded(n, width))[1..] == Padded(n, width) && ("-" + Padded(n, width))[1..] == Padded(n, width);
  }

  /** Whatever number is formatted, its sign included, reads back. */
  lemma FormattedReads(n: int)
    requires -INT64_MAX - 1 <= n <= INT64_MAX
    ensures ParseInt(Formatted(n)) == Some(n)
  {
    if n < 0 {
      IntegersRead(0 - n, WIDTH - 1);
    } else {
      IntegersRead(n, WIDTH);
    }
  }

  /** The key is an origin, a slash, two numbers around the first dash, and the suffix. */
  ghost predicate Spelled(key: Key, s: Span, first: string, last: string) {
    && key == s.origin + "/" + ((first + "-" + last) + SUFFIX)
    && '/' !in first && '/' !in last && '-' !in first
    && ParseInt(first) == Some(s.first) && ParseInt(last) == Some(s.last)
  }

  lemma SpanSpelled(origin: Origin, first: string, last: string)
    requires '-' !in first && ParseInt(first).Some? && ParseInt(last).Some?
    ensures ParseSpan(origin, first + "-" + last) == Some(Span(origin, ParseInt(first).value, ParseInt(last).value))
  {
    hide ParseInt;
    var span := first + "-" + last;
    assert forall j :: 0 <= j < |first| ==> span[j] == first[j] && first[j] in first;
    IndexIs(span, '-', |first|);
    assert span[..|first|] == first && span[|first| + 1..] == last;
  }

  lemma SpanParsed(origin: Origin, span: string)
    requires ParseSpan(origin, span).Some?
    ensures var dash, s := IndexOf(span, '-'), ParseSpan(origin, span).value;
            && 0 <= dash && span == span[..dash] + "-" + span[dash + 1..] && '-' !in span[..dash]
            && s == Span(origin, s.first, s.last) && ParseInt(span[..dash]) == Some(s.first) && ParseInt(span[dash + 1..]) == Some(s.last)
  {
    hide ParseInt;
  }

  /** A name without a slash in it, after an origin and a slash. */
  lemma NameParses(origin: Origin, span: string)
    requires '/' !in span
    ensures ParseKey(origin + "/" + (span + SUFFIX)) == ParseSpan(origin, span)
  {
    hide ParseSpan, LastIndexOf, HasSuffix;
    var name := span + SUFFIX;
    assert forall i :: 0 <= i < |name| ==> name[i] != '/' by {
      assert forall i :: 0 <= i < |span| ==> name[i] == span[i] && span[i] in span;
    }
    NameParts(origin, name);
    SuffixDrops(span, SUFFIX);
    SuffixDrops(origin + "/" + span, SUFFIX);
    assert origin + "/" + name == (origin + "/" + span) + SUFFIX;
  }

  lemma KeyParsed(key: Key)
    requires ParseKey(key).Some?
    ensures exists span :: '/' !in span && key == ParseKey(key).value.origin + "/" + (span + SUFFIX)
              && ParseKey(key) == ParseSpan(ParseKey(key).value.origin, span)
  {
    hide ParseSpan, HasSuffix;
    var slash := LastIndexOf(key, '/');
    var name := key[slash + 1..];
    SuffixOfName(key, slash);
    var span := name[..|name| - |SUFFIX|];
    assert ParseKey(key) == ParseSpan(key[..slash], span);
    OriginOfSpan(key[..slash], span);
    NameApart(key, slash, name, span);
  }

  lemma OriginOfSpan(origin: Origin, span: string)
    requires ParseSpan(origin, span).Some?
    ensures ParseSpan(origin, span).value.origin == origin
  {
    SpanParsed(origin, span);
  }

  lemma NameApart(key: Key, slash: nat, name: string, span: string)
    requires slash < |key| && key[slash] == '/' && name == key[slash + 1..] && '/' !in name && HasSuffix(name, SUFFIX)
    requires span == name[..|name| - |SUFFIX|]
    ensures key == key[..slash] + "/" + (span + SUFFIX) && '/' !in span
  {
    assert name == span + SUFFIX;
    assert key == key[..slash] + "/" + name;
    assert forall c :: c in span ==> c in name;
  }

  lemma SuffixOfName(key: Key, slash: nat)
    requires slash < |key| && key[slash] == '/' && HasSuffix(key, SUFFIX) && forall j :: slash < j < |key| ==> key[j] != '/'
    ensures HasSuffix(key[slash + 1..], SUFFIX)
    ensures '/' !in key[slash + 1..]
  {
    var at := |key| - |SUFFIX|;
    assert forall i :: at <= i < |key| ==> key[i] == key[at..][i - at] == SUFFIX[i - at] != '/';
    assert key[slash + 1..][|key[slash + 1..]| - |SUFFIX|..] == key[at..];
  }

  lemma SpelledParses(key: Key, s: Span, first: string, last: string)
    requires Spelled(key, s, first, last)
    ensures ParseKey(key) == Some(s)
  {
    hide ParseInt, ParseKey, ParseSpan;
    var span := first + "-" + last;
    assert '/' !in span by { assert forall c :: c in span ==> c in first || c == '-' || c in last; }
    NameParses(s.origin, span);
    SpanSpelled(s.origin, first, last);
  }

  lemma ParsedIsSpelled(key: Key)
    requires ParseKey(key).Some?
    ensures exists first, last :: Spelled(key, ParseKey(key).value, first, last)
  {
    hide ParseInt, IndexOf, ParseKey, ParseSpan;
    var s := ParseKey(key).value;
    KeyParsed(key);
    var span :| '/' !in span && key == s.origin + "/" + (span + SUFFIX) && ParseKey(key) == ParseSpan(s.origin, span);
    SpanParsed(s.origin, span);
    var dash := IndexOf(span, '-');
    var first, last := span[..dash], span[dash + 1..];
    assert forall c :: c in first || c in last ==> c in span;
    assert Spelled(key, s, first, last);
  }

  /** `parseKey` accepts exactly the keys that are so spelled, whoever wrote them. */
  lemma ParsesIffSpelled(key: Key, s: Span)
    ensures ParseKey(key) == Some(s) <==> exists first, last :: Spelled(key, s, first, last)
  {
    hide ParseKey, Spelled;
    if ParseKey(key) == Some(s) {
      ParsedIsSpelled(key);
    }
    if first, last :| Spelled(key, s, first, last) {
      SpelledParses(key, s, first, last);
    }
  }

  // ---- Key order ----

  /** Byte order, in which objects are listed. */
  predicate Less(a: string, b: string) {
    if b == "" then false
    else if a == "" then true
    else a[0] < b[0] || (a[0] == b[0] && Less(a[1..], b[1..]))
  }

  /** The order publishing relies on. */
  predicate Precedes(a: Span, b: Span) {
    a.first < b.first || (a.first == b.first && a.last < b.last)
  }

  function Power(width: nat): (p: nat)
    ensures 1 <= p
  {
    if width == 0 then 1 else 10 * Power(width - 1)
  }

  lemma {:induction false} LessAfterPrefix(p: string, a: string, b: string)
    ensures Less(p + a, p + b) <==> Less(a, b)
    decreases |p|
  {
    if p == "" {
      assert p + a == a && p + b == b;
    } else {
      assert (p + a)[1..] == p[1..] + a && (p + b)[1..] == p[1..] + b;
      LessAfterPrefix(p[1..], a, b);
    }
  }

  /** Strings of one length are ordered by their heads before their tails. */
  lemma {:induction false} LessBeforeSuffix(a: string, b: string, x: string, y: string)
    requires |a| == |b|
    ensures Less(a + x, b + y) <==> Less(a, b) || (a == b && Less(x, y))
    decreases |a|
  {
    if a == "" {
      assert a + x == x && b + y == y;
    } else {
      assert (a + x)[1..] == a[1..] + x && (b + y)[1..] == b[1..] + y;
      LessBeforeSuffix(a[1..], b[1..], x, y);
    }
  }

  /** Within the padding, digits compare as the numbers do. */
  lemma {:induction false} PaddedOrder(a: nat, b: nat, width: nat)
    requires 0 < width && a < Power(width) && b < Power(width)
    ensures |Padded(a, width)| == |Padded(b, width)| == width
    ensures Less(Padded(a, width), Padded(b, width)) <==> a < b
    ensures Padded(a, width) == Padded(b, width) <==> a == b
    decreases width
  {
    PaddedReads(a, width);
    PaddedReads(b, width);
    if width == 1 {
      assert Power(1) == 10 * Power(0);
    } else {
      PaddedOrder(a / 10, b / 10, width - 1);
      LessBeforeSuffix(Padded(a / 10, width - 1), Padded(b / 10, width - 1), [Digit(a % 10)], [Digit(b % 10)]);
    }
  }

  /** Keys of one origin list in sequence order below a million million. */
  lemma KeyOrder(a: Span, b: Span)
    requires a.origin == b.origin
    requires 0 <= a.first < 1_000_000_000_000 && 0 <= a.last < 1_000_000_000_000
    requires 0 <= b.first < 1_000_000_000_000 && 0 <= b.last < 1_000_000_000_000
    ensures Less(FormatKey(a), FormatKey(b)) <==> Precedes(a, b)
  {
    PowerOfTwelve();
    PaddedOrder(a.first, b.first, WIDTH);
    PaddedOrder(a.last, b.last, WIDTH);
    NameOrder(a.origin + "/", Padded(a.first, WIDTH), Padded(b.first, WIDTH), "-", Padded(a.last, WIDTH), Padded(b.last, WIDTH), SUFFIX);
  }

  lemma PowerOfTwelve()
    ensures Power(WIDTH) == 1_000_000_000_000
  {}

  lemma Regroup(head: string, f: string, dash: string, l: string, suffix: string)
    ensures head + (f + dash + l) + suffix == head + (f + (dash + (l + suffix)))
  {}

  lemma NameOrder(head: string, f: string, g: string, dash: string, l: string, m: string, suffix: string)
    requires |f| == |g| && |l| == |m|
    ensures Less(head + (f + dash + l) + suffix, head + (g + dash + m) + suffix) <==>
              Less(f, g) || (f == g && Less(l, m))
  {
    hide Less;
    var x, y := dash + (l + suffix), dash + (m + suffix);
    Regroup(head, f, dash, l, suffix);
    Regroup(head, g, dash, m, suffix);
    LessAfterPrefix(head, f + x, g + y);
    LessBeforeSuffix(f, g, x, y);
    LessAfterPrefix(dash, l + suffix, m + suffix);
    LessBeforeSuffix(l, m, suffix, suffix);
    LessIsStrict(suffix, suffix, suffix);
  }

  /** Byte order is a strict total order. */
  lemma {:induction false} LessIsStrict(a: string, b: string, c: string)
    ensures !Less(a, a)
    ensures Less(a, b) && Less(b, c) ==> Less(a, c)
    ensures Less(a, b) || a == b || Less(b, a)
    decreases |a|
  {
    if a != "" {
      LessIsStrict(a[1..], if b == "" then "" else b[1..], if c == "" then "" else c[1..]);
      if b != "" {
        assert a == [a[0]] + a[1..] && b == [b[0]] + b[1..];
      }
    }
  }

  lemma LessIsTotal(a: string, b: string)
    ensures Less(a, b) || a == b || Less(b, a)
    ensures !(Less(a, b) && Less(b, a)) && (a == b ==> !Less(a, b))
  {
    LessIsStrict(a, b, a);
  }

  /** One digit more and the order is lost: the bundle after a full one would be
      listed before it. */
  lemma KeyOrderEndsAtThePadding(a: Span, b: Span)
    requires a == Span(b.origin, 1_000_000_000_001, 1_000_000_000_001)
    requires b == Span(b.origin, 999_999_995_001, 1_000_000_000_000)
    ensures Precedes(b, a) && Less(FormatKey(a), FormatKey(b))
  {
    PowerOfTwelve();
    assert Lead(1_000_000_000_001) == 1 && Lead(999_999_995_001) == 9;
    PaddedLeads(a.first, WIDTH, 1);
    PaddedLeads(b.first, WIDTH, 9);
    HeadOrder(a.origin, Padded(a.first, WIDTH), Padded(b.first, WIDTH), Padded(a.last, WIDTH), Padded(b.last, WIDTH));
  }

  lemma HeadOrder(o: Origin, f: string, g: string, l: string, m: string)
    requires f != "" && g != "" && f[0] < g[0]
    ensures Less(o + "/" + (f + "-" + l) + SUFFIX, o + "/" + (g + "-" + m) + SUFFIX)
  {
    var x, y := "-" + l + SUFFIX, "-" + m + SUFFIX;
    assert o + "/" + (f + "-" + l) + SUFFIX == (o + "/") + (f + x);
    assert o + "/" + (g + "-" + m) + SUFFIX == (o + "/") + (g + y);
    LessAfterPrefix(o + "/", f + x, g + y);
  }

  function Lead(n: nat): nat {
    if n < 10 then n else Lead(n / 10)
  }

  /** A number too wide to be padded starts with its own first digit. */
  lemma {:induction false} PaddedLeads(n: nat, width: nat, d: nat)
    requires d == Lead(n) < 10 && (if width == 0 then 1 else Power(width - 1)) <= n
    ensures Padded(n, width) != "" && Padded(n, width)[0] == Digit(d)
    decreases n
  {
    assert 2 <= width ==> Power(width - 1) == 10 * Power(width - 2);
    if 10 <= n {
      PaddedLeads(n / 10, if width == 0 then 0 else width - 1, d);
    }
  }

  // ---- Beyond the padding ----

  function DigitCount(n: nat): (k: nat)
    ensures 1 <= k
  {
    if n < 10 then 1 else DigitCount(n / 10) + 1
  }

  /** How wide `%012d` prints a number. */
  function PrintedWidth(n: nat): nat {
    if DigitCount(n) < WIDTH then WIDTH else DigitCount(n)
  }

  lemma {:induction false} WiderIsLarger(a: nat, b: nat)
    requires a <= b
    ensures DigitCount(a) <= DigitCount(b)
    decreases b
  {
    if 10 <= a {
      WiderIsLarger(a / 10, b / 10);
    }
  }

  lemma {:induction false} CountedDigits(n: nat)
    ensures n < Power(DigitCount(n))
    decreases n
  {
    if 10 <= n {
      CountedDigits(n / 10);
    } else {
      assert Power(1) == 10 * Power(0);
    }
  }

  lemma {:induction false} PowersGrow(i: nat, j: nat)
    requires i <= j
    ensures Power(i) <= Power(j)
    decreases j - i
  {
    if i < j {
      PowersGrow(i, j - 1);
    }
  }

  /** Padding to fewer digits than a number has is padding to as many as it has. */
  lemma {:induction false} PaddedToOwnWidth(n: nat, width: nat)
    ensures var w := if width < DigitCount(n) then DigitCount(n) else width;
            Padded(n, width) == Padded(n, w) && n < Power(w)
    decreases n, width
  {
    CountedDigits(n);
    PowersGrow(DigitCount(n), if width < DigitCount(n) then DigitCount(n) else width);
    if 10 <= n {
      PaddedToOwnWidth(n / 10, if width == 0 then 0 else width - 1);
    }
  }

  /** A number without its last `j` digits. */
  function Leading(n: nat, j: nat): nat {
    if j == 0 then n else Leading(n / 10, j - 1)
  }

  /** The front of a padded number is its leading digits. */
  lemma {:induction false} PaddedFront(n: nat, width: nat, j: nat)
    requires j < width == |Padded(n, width)| && n < Power(width)
    ensures Padded(n, width)[..width - j] == Padded(Leading(n, j), width - j)
    decreases j
  {
    if 0 < j {
      PaddedOrder(n / 10, n / 10, width - 1);
      PaddedFront(n / 10, width - 1, j - 1);
      assert Padded(n, width)[..width - j] == Padded(n / 10, width - 1)[..width - j];
    }
  }

  /** Of two numbers the smaller prints as wide as the larger, or does not exceed
      what the larger one shows in that many digits. */
  predicate ShowsInOrder(a: nat, b: nat) {
    var v, w := PrintedWidth(a), PrintedWidth(b);
    v == w || (v < w && a <= Leading(b, w - v))
  }

  lemma PrintsThatWide(n: nat)
    ensures |Formatted(n)| == PrintedWidth(n)
  {
    PaddedToOwnWidth(n, WIDTH);
    PaddedOrder(n, n, PrintedWidth(n));
  }

  /** Followed by something that sorts before any digit, the smaller number sorts
      first if and only if it shows in order. */
  lemma ShownOrder(a: nat, b: nat, x: string, y: string)
    requires a < b && x != "" && x[0] < '0'
    ensures Less(Padded(a, WIDTH) + x, Padded(b, WIDTH) + y) <==> ShowsInOrder(a, b)
  {
    hide Less, Padded, Power;
    var v, w := PrintedWidth(a), PrintedWidth(b);
    var f, g := Padded(a, WIDTH), Padded(b, WIDTH);
    WiderIsLarger(a, b);
    PaddedToOwnWidth(a, WIDTH);
    PaddedToOwnWidth(b, WIDTH);
    PaddedOrder(a, a, v);
    PaddedOrder(b, b, w);
    var j := w - v;
    PaddedFront(b, w, j);
    var c := Leading(b, j);
    assert g == g[..v] + g[v..];
    assert c < Power(v) by { LeadingFits(b, w, j); }
    PaddedOrder(a, c, v);
    LessBeforeSuffix(f, g[..v], x, g[v..] + y);
    assert g + y == g[..v] + (g[v..] + y);
    if 0 < j {
      PaddedReads(b, WIDTH);
      DigitAfter(x, g[v..] + y);
    }
  }

  lemma {:induction false} LeadingFits(n: nat, width: nat, j: nat)
    requires j <= width && n < Power(width)
    ensures Leading(n, j) < Power(width - j)
    decreases j
  {
    if 0 < j {
      LeadingFits(n / 10, width - 1, j - 1);
    }
  }

  lemma DigitAfter(x: string, rest: string)
    requires x != "" && x[0] < '0' && rest != "" && IsDigit(rest[0])
    ensures Less(x, rest)
  {}

  /** Two bundles of one origin list in sequence order if and only if the numbers
      that tell them apart print equally wide, or the smaller one does not exceed
      the leading digits of the larger one; a tie goes to the shorter one, whose
      next character sorts before any digit. */
  lemma KeyOrderIff(a: Span, b: Span)
    requires a.origin == b.origin && Precedes(a, b)
    requires 0 <= a.first && 0 <= a.last && 0 <= b.first && 0 <= b.last
    ensures Less(FormatKey(a), FormatKey(b)) <==>
              if a.first < b.first then ShowsInOrder(a.first, b.first) else ShowsInOrder(a.last, b.last)
  {
    hide Less, Padded, ShowsInOrder;
    var head, f, g := a.origin + "/", Padded(a.first, WIDTH), Padded(b.first, WIDTH);
    var l, m := Padded(a.last, WIDTH), Padded(b.last, WIDTH);
    var x, y := "-" + (l + SUFFIX), "-" + (m + SUFFIX);
    Regroup(head, f, "-", l, SUFFIX);
    Regroup(head, g, "-", m, SUFFIX);
    LessAfterPrefix(head, f + x, g + y);
    if a.first < b.first {
      ShownOrder(a.first, b.first, x, y);
    } else {
      LessAfterPrefix(f, x, y);
      LessAfterPrefix("-", l + SUFFIX, m + SUFFIX);
      ShownOrder(a.last, b.last, SUFFIX, SUFFIX);
    }
  }
}
