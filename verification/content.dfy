/**
 * The article library: each markdown file's frontmatter fields read with
 * the regular expressions of the listing code, the content with its
 * frontmatter block removed, and the listing sorted by `order`.
 * Reading the directory and the files is left to the caller: a file is
 * its name and its text.
 */
module Content {
  import opened Wrappers
  import opened Decimal

  /** `w` occurs in `s` starting at index `p`. */
  predicate StartsAt(s: string, p: nat, w: string) {
    p + |w| <= |s| && s[p..p + |w|] == w
  }

  /** The characters a regular-expression `.` does not match. */
  predicate IsLineTerminator(c: char) {
    c == '\n' || c == '\r' || c == '\U{2028}' || c == '\U{2029}'
  }

  /** What `(.*?)"` can capture: no line terminator and, being lazy, no quote. */
  predicate Plain(v: string) {
    forall i :: 0 <= i < |v| ==> v[i] != '"' && !IsLineTerminator(v[i])
  }

  // Quoted fields

  /** The literal part of `/<key>: "(.*?)"/`. */
  function FieldPattern(key: string): string {
    key + ": \""
  }

  /** `s` holds `<key>: "<v>"` at `p`. */
  predicate QuotedAt(s: string, p: nat, key: string, v: string) {
    StartsAt(s, p, FieldPattern(key)) && Plain(v) && StartsAt(s, p + |FieldPattern(key)|, v + "\"")
  }

  /** The text from `i` up to the first quote, when a quote comes before any line end. */
  function QuotedFrom(s: string, i: nat): Option<string>
    requires i <= |s|
    decreases |s| - i
  {
    if i == |s| then None
    else if s[i] == '"' then Some("")
    else if IsLineTerminator(s[i]) then None
    else
      match QuotedFrom(s, i + 1)
      case None => None
      case Some(v) => Some([s[i]] + v)
  }

  /** `QuotedFrom` finds the one capture that can follow position `i`, and only that. */
  lemma {:induction false} QuotedFromSpec(s: string, i: nat, v: string)
    requires i <= |s|
    ensures QuotedFrom(s, i) == Some(v) <==> Plain(v) && StartsAt(s, i, v + "\"")
    decreases |s| - i
  {
    if i < |s| && s[i] != '"' && !IsLineTerminator(s[i]) {
      if |v| > 0 {
        QuotedFromSpec(s, i + 1, v[1..]);
        assert v == [v[0]] + v[1..];
        assert StartsAt(s, i, v + "\"") <==> s[i] == v[0] && StartsAt(s, i + 1, v[1..] + "\"") by {
          assert v + "\"" == [v[0]] + (v[1..] + "\"");
          if StartsAt(s, i, v + "\"") {
            assert s[i + 1..i + 1 + |v[1..] + "\""|] == s[i..i + |v + "\""|][1..];
          }
          if s[i] == v[0] && StartsAt(s, i + 1, v[1..] + "\"") {
            assert s[i..i + |v + "\""|] == [s[i]] + s[i + 1..i + 1 + |v[1..] + "\""|];
          }
        }
        assert Plain(v) <==> v[0] != '"' && !IsLineTerminator(v[0]) && Plain(v[1..]) by {
          if Plain(v[1..]) && v[0] != '"' && !IsLineTerminator(v[0]) {
            forall k | 0 <= k < |v| ensures v[k] != '"' && !IsLineTerminator(v[k]) {
              if k > 0 {
                assert v[k] == v[1..][k - 1];
              }
            }
          }
        }
        match QuotedFrom(s, i + 1)
        case None =>
        case Some(w) =>
          QuotedFromSpec(s, i + 1, w);
      } else {
        assert !StartsAt(s, i, v + "\"") by {
          assert s[i..i + 1][0] == s[i];
        }
        match QuotedFrom(s, i + 1)
        case None =>
        case Some(w) =>
      }
    } else if i < |s| && |v| > 0 {
      assert StartsAt(s, i, v + "\"") ==> s[i] == v[0];
    }
  }

  /** The leftmost match of `/<key>: "(.*?)"/` at or after `p`, and its capture. */
  function FindField(s: string, key: string, p: nat): Option<string>
    requires p <= |s|
    decreases |s| - p
  {
    var pat := FieldPattern(key);
    if p + |pat| > |s| then None
    else if StartsAt(s, p, pat) && QuotedFrom(s, p + |pat|).Some? then QuotedFrom(s, p + |pat|)
    else FindField(s, key, p + 1)
  }

  /** `s.match(/<key>: "(.*?)"/)`, reduced to its capture group. */
  function Field(s: string, key: string): Option<string> {
    FindField(s, key, 0)
  }

  /**
   * The field found is the one at the leftmost place where `<key>: "…"`
   * occurs on one line; no field is found only when no such place exists.
   */
  lemma {:induction false} FindFieldSpec(s: string, key: string, p: nat)
    requires p <= |s|
    ensures FindField(s, key, p).Some? ==>
      exists q :: p <= q && QuotedAt(s, q, key, FindField(s, key, p).value)
        && forall q', v' :: p <= q' < q ==> !QuotedAt(s, q', key, v')
    ensures FindField(s, key, p).None? ==> forall q, v :: p <= q ==> !QuotedAt(s, q, key, v)
    decreases |s| - p
  {
    var pat := FieldPattern(key);
    if p + |pat| > |s| {
      forall q, v | p <= q ensures !QuotedAt(s, q, key, v) { }
    } else {
      forall v ensures QuotedAt(s, p, key, v) <==> StartsAt(s, p, pat) && QuotedFrom(s, p + |pat|) == Some(v) {
        QuotedFromSpec(s, p + |pat|, v);
      }
      if !(StartsAt(s, p, pat) && QuotedFrom(s, p + |pat|).Some?) {
        FindFieldSpec(s, key, p + 1);
        if FindField(s, key, p + 1).Some? {
          var q :| p + 1 <= q && QuotedAt(s, q, key, FindField(s, key, p + 1).value)
            && forall q', v' :: p + 1 <= q' < q ==> !QuotedAt(s, q', key, v');
          assert forall q', v' :: p <= q' < q ==> !QuotedAt(s, q', key, v');
        }
      }
    }
  }

  /** A frontmatter line `<key>: "<v>"` at the start of the text is read back as `v`. */
  lemma FieldReadBack(key: string, v: string, rest: string)
    requires Plain(v)
    ensures Field(FieldPattern(key) + v + "\"" + rest, key) == Some(v)
  {
    var s := FieldPattern(key) + v + "\"" + rest;
    var pat := FieldPattern(key);
    assert StartsAt(s, 0, pat) by { assert s[..|pat|] == pat; }
    assert StartsAt(s, |pat|, v + "\"") by { assert s[|pat|..|pat| + |v + "\""|] == v + "\""; }
    QuotedFromSpec(s, |pat|, v);
  }

  // The order field

  /** The end of the run of digits starting at `i`. */
  function DigitsEnd(s: string, i: nat): (j: nat)
    requires i <= |s|
    ensures i <= j <= |s| && AllDigits(s[i..j])
    ensures j == |s| || !IsDigit(s[j])
    decreases |s| - i
  {
    if i < |s| && IsDigit(s[i]) then
      var j := DigitsEnd(s, i + 1);
      assert s[i..j] == [s[i]] + s[i + 1..j];
      j
    else i
  }

  const ORDER_PATTERN: string := "order: "

  /** `/order: (\d+)/` at or after `p`, with the digits read by `parseInt`. */
  function FindOrder(s: string, p: nat): Option<nat>
    requires p <= |s|
    decreases |s| - p
  {
    var start := p + |ORDER_PATTERN|;
    if start >= |s| then None
    else if StartsAt(s, p, ORDER_PATTERN) && IsDigit(s[start]) then
      Some(ParseDigits(s[start..DigitsEnd(s, start)]))
    else FindOrder(s, p + 1)
  }

  function Order(s: string): Option<nat> {
    FindOrder(s, 0)
  }

  /** `order: ` followed by at least one digit at `p`. */
  predicate OrderAt(s: string, p: nat) {
    StartsAt(s, p, ORDER_PATTERN) && p + |ORDER_PATTERN| < |s| && IsDigit(s[p + |ORDER_PATTERN|])
  }

  /** No order is found exactly when `order: ` is never followed by a digit. */
  lemma {:induction false} OrderAbsent(s: string, p: nat)
    requires p <= |s|
    ensures FindOrder(s, p).None? <==> forall q :: p <= q ==> !OrderAt(s, q)
    decreases |s| - p
  {
    if p + |ORDER_PATTERN| < |s| && !OrderAt(s, p) {
      OrderAbsent(s, p + 1);
      assert (forall q :: p <= q ==> !OrderAt(s, q)) <==> (forall q :: p + 1 <= q ==> !OrderAt(s, q));
    }
  }

  /** A printed number after `order: ` is read back, whatever non-digit text follows. */
  lemma OrderReadBack(n: nat, rest: string)
    requires |rest| == 0 || !IsDigit(rest[0])
    ensures Order(ORDER_PATTERN + ToDecimal(n) + rest) == Some(n)
  {
    var s := ORDER_PATTERN + ToDecimal(n) + rest;
    var start := |ORDER_PATTERN|;
    var d := ToDecimal(n);
    assert StartsAt(s, 0, ORDER_PATTERN) by { assert s[..start] == ORDER_PATTERN; }
    assert s[start] == d[0];
    assert DigitsEnd(s, start) == start + |d| by {
      DigitsRun(s, start, d);
    }
    assert s[start..start + |d|] == d;
    ParsePrinted(n);
  }

  lemma {:induction false} DigitsRun(s: string, i: nat, d: string)
    requires i + |d| <= |s| && s[i..i + |d|] == d && AllDigits(d)
    requires i + |d| == |s| || !IsDigit(s[i + |d|])
    ensures DigitsEnd(s, i) == i + |d|
    decreases |d|
  {
    if |d| > 0 {
      assert s[i] == d[0];
      assert s[i + 1..i + 1 + |d[1..]|] == d[1..];
      DigitsRun(s, i + 1, d[1..]);
    }
  }

  // Frontmatter and trimming

  /** The leftmost occurrence of `w` at or after `i`. */
  function FindFrom(s: string, w: string, i: nat): (r: Option<nat>)
    requires i <= |s|
    ensures r.Some? ==> (i <= r.value && StartsAt(s, r.value, w)
      && forall k :: i <= k < r.value ==> !StartsAt(s, k, w))
    ensures r.None? ==> forall k :: i <= k ==> !StartsAt(s, k, w)
    decreases |s| - i
  {
    if StartsAt(s, i, w) then Some(i)
    else if i == |s| then None
    else FindFrom(s, w, i + 1)
  }

  const FENCE: string := "---"

  /**
   * `s.replace(/---[\s\S]*?---/, '')`: from the first `---` through the next
   * `---` that does not overlap it. Without a closing fence the text is unchanged.
   */
  function StripFrontmatter(s: string): string {
    match FindFrom(s, FENCE, 0)
    case None => s
    case Some(p) =>
      match FindFrom(s, FENCE, p + 3)
      case None => s
      case Some(q) => s[..p] + s[q + 3..]
  }

  /** `fm` closes at the first fence after it: no `---` begins inside it. */
  predicate SingleBlock(fm: string) {
    forall k :: 0 <= k < |fm| ==> !StartsAt(fm + FENCE, k, FENCE)
  }

  /** A text that opens with a frontmatter block keeps only what follows the block. */
  lemma StripLeadingBlock(fm: string, body: string)
    requires SingleBlock(fm)
    ensures StripFrontmatter(FENCE + fm + FENCE + body) == body
  {
    var s := FENCE + fm + FENCE + body;
    assert StartsAt(s, 0, FENCE) by { assert s[..3] == FENCE; }
    var close := 3 + |fm|;
    assert StartsAt(s, close, FENCE) by { assert s[close..close + 3] == FENCE; }
    forall k | 3 <= k < close ensures !StartsAt(s, k, FENCE) {
      assert !StartsAt(fm + FENCE, k - 3, FENCE);
      if k + 3 <= |s| {
        assert s[k..k + 3] == (fm + FENCE)[k - 3..k];
      }
    }
    assert s[close + 3..] == body;
  }

  /** ECMAScript white space and line terminators, which `trim()` removes. */
  predicate IsSpace(c: char) {
    || c == '\t' || c == '\U{000B}' || c == '\U{000C}' || c == ' ' || c == '\U{00A0}' || c == '\U{FEFF}'
    || c == '\U{1680}' || ('\U{2000}' <= c <= '\U{200A}') || c == '\U{202F}' || c == '\U{205F}' || c == '\U{3000}'
    || c == '\n' || c == '\r' || c == '\U{2028}' || c == '\U{2029}'
  }

  predicate AllSpace(s: string) {
    forall i :: 0 <= i < |s| ==> IsSpace(s[i])
  }

  /** Neither end is white space. */
  predicate Trimmed(s: string) {
    |s| == 0 || (!IsSpace(s[0]) && !IsSpace(s[|s| - 1]))
  }

  function TrimStart(s: string): (r: string)
    ensures |r| <= |s| && r == s[|s| - |r|..] && AllSpace(s[..|s| - |r|])
    ensures |r| == 0 || !IsSpace(r[0])
  {
    if |s| > 0 && IsSpace(s[0]) then
      var r := TrimStart(s[1..]);
      assert s[..|s| - |r|] == [s[0]] + s[1..][..|s[1..]| - |r|];
      r
    else s
  }

  function TrimEnd(s: string): (r: string)
    ensures |r| <= |s| && r == s[..|r|] && AllSpace(s[|r|..])
    ensures |r| == 0 || !IsSpace(r[|r| - 1])
  {
    if |s| > 0 && IsSpace(s[|s| - 1]) then
      var r := TrimEnd(s[..|s| - 1]);
      assert s[|r|..] == s[..|s| - 1][|r|..] + [s[|s| - 1]];
      r
    else s
  }

  /** `trim()`: what lies between the leading and the trailing white space. */
  function Trim(s: string): (r: string)
    ensures Trimmed(r)
  {
    var t := TrimStart(s);
    var r := TrimEnd(t);
    assert |r| > 0 ==> r[0] == t[0];
    r
  }

  /** White space around a trimmed text is exactly what `trim()` removes. */
  lemma TrimPadded(lead: string, t: string, trail: string)
    requires AllSpace(lead) && AllSpace(trail) && Trimmed(t)
    ensures Trim(lead + t + trail) == t
  {
    var s := lead + t + trail;
    if |t| == 0 {
      assert s == (lead + trail) + [];
      TrimStartSkips(lead + trail, []);
    } else {
      assert s == lead + (t + trail);
      TrimStartSkips(lead, t + trail);
      TrimEndSkips(t, trail);
    }
  }

  lemma {:induction false} TrimStartSkips(lead: string, rest: string)
    requires AllSpace(lead) && (|rest| == 0 || !IsSpace(rest[0]))
    ensures TrimStart(lead + rest) == rest
    decreases |lead|
  {
    if |lead| > 0 {
      assert (lead + rest)[1..] == lead[1..] + rest;
      TrimStartSkips(lead[1..], rest);
    } else {
      assert lead + rest == rest;
    }
  }

  lemma {:induction false} TrimEndSkips(rest: string, trail: string)
    requires AllSpace(trail) && (|rest| == 0 || !IsSpace(rest[|rest| - 1]))
    ensures TrimEnd(rest + trail) == rest
    decreases |trail|
  {
    if |trail| > 0 {
      assert (rest + trail)[..|rest + trail| - 1] == rest + trail[..|trail| - 1];
      TrimEndSkips(rest, trail[..|trail| - 1]);
    } else {
      assert rest + trail == rest;
    }
  }

  /** Trimming twice is trimming once. */
  lemma TrimIdempotent(s: string)
    ensures Trim(Trim(s)) == Trim(s)
  {
    TrimPadded([], Trim(s), []);
    assert [] + Trim(s) + [] == Trim(s);
  }

  // Articles

  datatype Article = Article(
    slug: string, title: string, description: string, category: string, order: nat, content: string)

  const DEFAULT_CATEGORY: string := "General"
  const DEFAULT_ORDER: nat := 99

  /** `fileName.replace(/\.md$/, '')`. */
  function Slug(fileName: string): string {
    if |fileName| >= 3 && fileName[|fileName| - 3..] == ".md" then fileName[..|fileName| - 3] else fileName
  }

  /** The slug of `x.md` is `x`; a name without the extension is its own slug. */
  lemma SlugOfName(x: string)
    ensures Slug(x + ".md") == x
    ensures !(|x| >= 3 && x[|x| - 3..] == ".md") ==> Slug(x) == x
  {
    assert (x + ".md")[|x|..] == ".md";
    assert (x + ".md")[..|x|] == x;
  }

  /** The fields of one article, as both the listing and the single-article lookup read them. */
  function ParseArticle(slug: string, contents: string): (a: Article)
    ensures Trimmed(a.content)
  {
    Article(
      slug,
      Field(contents, "title").GetOr(slug),
      Field(contents, "description").GetOr(""),
      Field(contents, "category").GetOr(DEFAULT_CATEGORY),
      Order(contents).GetOr(DEFAULT_ORDER),
      Trim(StripFrontmatter(contents)))
  }

  /** A file without any frontmatter fields gets every default, and keeps its whole trimmed text. */
  lemma ParseDefaults(slug: string, contents: string)
    requires forall q, v :: !QuotedAt(contents, q, "title", v)
    requires forall q, v :: !QuotedAt(contents, q, "description", v)
    requires forall q, v :: !QuotedAt(contents, q, "category", v)
    requires forall q :: !OrderAt(contents, q)
    requires forall k :: !StartsAt(contents, k, FENCE)
    ensures ParseArticle(slug, contents) == Article(slug, slug, "", DEFAULT_CATEGORY, DEFAULT_ORDER, Trim(contents))
  {
    FieldAbsent(contents, "title");
    FieldAbsent(contents, "description");
    FieldAbsent(contents, "category");
    OrderAbsent(contents, 0);
    NoFence(contents);
  }

  lemma FieldAbsent(contents: string, key: string)
    requires forall q, v :: !QuotedAt(contents, q, key, v)
    ensures Field(contents, key) == None
  {
    FindFieldSpec(contents, key, 0);
  }

  lemma NoFence(contents: string)
    requires forall k :: !StartsAt(contents, k, FENCE)
    ensures StripFrontmatter(contents) == contents
  {
  }

  /** An article file: its name in the directory and its text. */
  datatype File = File(name: string, contents: string)

  function ParseFile(f: File): Article {
    ParseArticle(Slug(f.name), f.contents)
  }

  function ParseAll(files: seq<File>): (r: seq<Article>)
    ensures |r| == |files| && forall i :: 0 <= i < |files| ==> r[i] == ParseFile(files[i])
  {
    seq(|files|, i requires 0 <= i < |files| => ParseFile(files[i]))
  }

  // Sorting by order

  predicate Sorted(xs: seq<Article>) {
    forall i, j :: 0 <= i < j < |xs| ==> xs[i].order <= xs[j].order
  }

  /** Insert after every element whose order is not larger: the newcomer goes after its equals. */
  function Insert(x: Article, s: seq<Article>): (r: seq<Article>)
    ensures multiset(r) == multiset(s) + multiset{x}
  {
    if |s| == 0 then [x]
    else if x.order < s[0].order then [x] + s
    else
      assert s == [s[0]] + s[1..];
      [s[0]] + Insert(x, s[1..])
  }

  /** Inserting into a sorted sequence keeps it sorted. */
  lemma {:induction false} InsertSorted(x: Article, s: seq<Article>)
    requires Sorted(s)
    ensures Sorted(Insert(x, s))
    decreases |s|
  {
    if |s| > 0 && x.order >= s[0].order {
      var t := Insert(x, s[1..]);
      InsertSorted(x, s[1..]);
      forall y | y in t ensures s[0].order <= y.order {
        assert y in multiset(t);
        if y != x {
          assert y in multiset(s[1..]);
          SortedHead(s, y);
        }
      }
      SortedCons(s[0], t);
    }
  }

  /** The head of a sorted sequence comes no later than anything after it. */
  lemma SortedHead(s: seq<Article>, y: Article)
    requires Sorted(s) && |s| > 0 && y in s[1..]
    ensures s[0].order <= y.order
  {
    var m :| 0 <= m < |s[1..]| && s[1..][m] == y;
    assert s[m + 1] == y;
  }

  /** A sorted sequence stays sorted behind an element that comes no later than any of it. */
  lemma SortedCons(h: Article, t: seq<Article>)
    requires Sorted(t) && forall y :: y in t ==> h.order <= y.order
    ensures Sorted([h] + t)
  {
    var r := [h] + t;
    forall i, j | 0 <= i < j < |r| ensures r[i].order <= r[j].order {
      assert r[j] == t[j - 1];
      if i > 0 {
        assert r[i] == t[i - 1];
      } else {
        assert t[j - 1] in t;
      }
    }
  }

  /** `sort((a, b) => a.order - b.order)`, which is stable. */
  function SortByOrder(xs: seq<Article>): (r: seq<Article>)
    ensures Sorted(r) && multiset(r) == multiset(xs)
  {
    if |xs| == 0 then []
    else
      assert xs == xs[..|xs| - 1] + [xs[|xs| - 1]];
      var sorted := SortByOrder(xs[..|xs| - 1]);
      InsertSorted(xs[|xs| - 1], sorted);
      Insert(xs[|xs| - 1], sorted)
  }

  /** The articles with order `k`, in their original sequence. */
  function WithOrder(xs: seq<Article>, k: nat): seq<Article> {
    if |xs| == 0 then [] else (if xs[0].order == k then [xs[0]] else []) + WithOrder(xs[1..], k)
  }

  lemma {:induction false} WithOrderAppend(a: seq<Article>, b: seq<Article>, k: nat)
    ensures WithOrder(a + b, k) == WithOrder(a, k) + WithOrder(b, k)
    decreases |a|
  {
    if |a| == 0 {
      assert a + b == b;
    } else {
      var h := if a[0].order == k then [a[0]] else [];
      assert (a + b)[0] == a[0];
      assert (a + b)[1..] == a[1..] + b;
      WithOrderAppend(a[1..], b, k);
      calc {
        WithOrder(a + b, k);
        h + WithOrder(a[1..] + b, k);
        h + (WithOrder(a[1..], k) + WithOrder(b, k));
        (h + WithOrder(a[1..], k)) + WithOrder(b, k);
      }
    }
  }

  lemma {:induction false} WithOrderAbove(s: seq<Article>, k: nat)
    requires forall i :: 0 <= i < |s| ==> s[i].order > k
    ensures WithOrder(s, k) == []
    decreases |s|
  {
    if |s| > 0 {
      WithOrderAbove(s[1..], k);
    }
  }

  lemma {:induction false} InsertStable(x: Article, s: seq<Article>, k: nat)
    requires Sorted(s)
    ensures WithOrder(Insert(x, s), k) == WithOrder(s, k) + (if x.order == k then [x] else [])
    decreases |s|
  {
    if |s| == 0 {
      assert WithOrder([x], k) == (if x.order == k then [x] else []) + WithOrder([], k);
    } else if x.order < s[0].order {
      InsertBeforeHead(x, s, k);
    } else {
      SortedTail(s);
      InsertStable(x, s[1..], k);
      InsertAfterHead(x, s, k);
    }
  }

  /** A newcomer that goes in front precedes only larger orders, so it is last among its equals. */
  lemma InsertBeforeHead(x: Article, s: seq<Article>, k: nat)
    requires Sorted(s) && |s| > 0 && x.order < s[0].order
    ensures WithOrder(Insert(x, s), k) == WithOrder(s, k) + (if x.order == k then [x] else [])
  {
    assert Insert(x, s) == [x] + s;
    assert ([x] + s)[0] == x && ([x] + s)[1..] == s;
    if x.order == k {
      forall i | 0 <= i < |s| ensures s[i].order > k {
        if i > 0 {
          assert s[0].order <= s[i].order;
        }
      }
      WithOrderAbove(s, k);
    }
  }

  /** One step of `InsertStable` when the newcomer goes behind the head. */
  lemma InsertAfterHead(x: Article, s: seq<Article>, k: nat)
    requires |s| > 0 && x.order >= s[0].order
    requires WithOrder(Insert(x, s[1..]), k) == WithOrder(s[1..], k) + (if x.order == k then [x] else [])
    ensures WithOrder(Insert(x, s), k) == WithOrder(s, k) + (if x.order == k then [x] else [])
  {
    var t := Insert(x, s[1..]);
    var h := if s[0].order == k then [s[0]] else [];
    var e := if x.order == k then [x] else [];
    assert Insert(x, s) == [s[0]] + t;
    assert ([s[0]] + t)[0] == s[0] && ([s[0]] + t)[1..] == t;
    calc {
      WithOrder(Insert(x, s), k);
      h + WithOrder(t, k);
      h + (WithOrder(s[1..], k) + e);
      (h + WithOrder(s[1..], k)) + e;
    }
  }

  lemma SortedTail(s: seq<Article>)
    requires Sorted(s) && |s| > 0
    ensures Sorted(s[1..])
  {
    forall i, j | 0 <= i < j < |s| - 1 ensures s[1..][i].order <= s[1..][j].order {
      assert s[1..][i] == s[i + 1] && s[1..][j] == s[j + 1];
    }
  }

  lemma WithOrderSnoc(xs: seq<Article>, k: nat)
    requires |xs| > 0
    ensures WithOrder(xs, k) == WithOrder(xs[..|xs| - 1], k) + (if xs[|xs| - 1].order == k then [xs[|xs| - 1]] else [])
  {
    var last := xs[|xs| - 1];
    assert xs == xs[..|xs| - 1] + [last];
    WithOrderAppend(xs[..|xs| - 1], [last], k);
    assert WithOrder([last], k) == (if last.order == k then [last] else []) + WithOrder([], k);
  }

  /** Sorting keeps the articles of each order in their original sequence. */
  lemma {:induction false} SortStable(xs: seq<Article>, k: nat)
    ensures WithOrder(SortByOrder(xs), k) == WithOrder(xs, k)
    decreases |xs|
  {
    if |xs| > 0 {
      var init := xs[..|xs| - 1];
      SortStable(init, k);
      InsertStable(xs[|xs| - 1], SortByOrder(init), k);
      WithOrderSnoc(xs, k);
    }
  }

  /** `getAllArticles()`: every file parsed, sorted by order. */
  function GetAllArticles(files: seq<File>): (r: seq<Article>)
    ensures Sorted(r) && multiset(r) == multiset(ParseAll(files))
  {
    SortByOrder(ParseAll(files))
  }

  /** `getArticleBySlug(slug)` given the text of `<slug>.md`, or `None` when there is no such file. */
  function GetArticleBySlug(slug: string, contents: Option<string>): Option<Article> {
    match contents
    case None => None
    case Some(text) => Some(ParseArticle(slug, text))
  }

  /** Looking an article up by its slug gives the same article the listing shows for its file. */
  lemma LookupMatchesListing(files: seq<File>, i: nat, slug: string)
    requires i < |files| && files[i].name == slug + ".md"
    ensures GetArticleBySlug(slug, Some(files[i].contents)).value in GetAllArticles(files)
    ensures GetArticleBySlug(slug, Some(files[i].contents)).value.slug == slug
  {
    SlugOfName(slug);
    var parsed := ParseAll(files);
    assert parsed[i] == ParseArticle(slug, files[i].contents);
    assert parsed[i] in multiset(GetAllArticles(files));
  }
}
