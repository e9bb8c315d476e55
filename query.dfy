/**
 * The pure half of `searchProduct` in map/main.js: both raw inputs are
 * trimmed and lower-cased, the free-text input wins when it is non-empty,
 * and the resulting query is looked up in the fixed category table.
 */
module Query {
  import opened Options

  /** The code points ECMAScript's `String.prototype.trim` strips: WhiteSpace and LineTerminator. */
  predicate IsTrimmable(c: char) {
    || c == '\t' || c == '\n' || c == '\U{000B}' || c == '\U{000C}' || c == '\r' || c == ' '
    || c == '\U{00A0}' || c == '\U{1680}' || ('\U{2000}' <= c <= '\U{200A}')
    || c == '\U{2028}' || c == '\U{2029}' || c == '\U{202F}' || c == '\U{205F}'
    || c == '\U{3000}' || c == '\U{FEFF}'
  }

  /**
   * `lo` and `hi` split `s` into a trimmable head `s[..lo]`, a middle
   * `s[lo..hi]` and a trimmable tail `s[hi..]`, and the middle, unless it is
   * empty, neither starts nor ends with a trimmable character.
   */
  ghost predicate IsTrimSplit(s: string, lo: int, hi: int) {
    && 0 <= lo <= hi <= |s|
    && (forall k :: 0 <= k < lo ==> IsTrimmable(s[k]))
    && (forall k :: hi <= k < |s| ==> IsTrimmable(s[k]))
    && (lo < hi ==> !IsTrimmable(s[lo]) && !IsTrimmable(s[hi - 1]))
  }

  /** The index of the first character at or after `i` that is not trimmable, or `|s|`. */
  function SkipForward(s: string, i: nat): (r: nat)
    requires i <= |s|
    ensures i <= r <= |s|
    ensures forall k :: i <= k < r ==> IsTrimmable(s[k])
    ensures r < |s| ==> !IsTrimmable(s[r])
    decreases |s| - i
  {
    if i < |s| && IsTrimmable(s[i]) then SkipForward(s, i + 1) else i
  }

  /** The index just past the last character in `s[lo..j]` that is not trimmable, or `lo`. */
  function SkipBackward(s: string, lo: nat, j: nat): (r: nat)
    requires lo <= j <= |s|
    ensures lo <= r <= j
    ensures forall k :: r <= k < j ==> IsTrimmable(s[k])
    ensures lo < r ==> !IsTrimmable(s[r - 1])
    decreases j
  {
    if lo < j && IsTrimmable(s[j - 1]) then SkipBackward(s, lo, j - 1) else j
  }

  /** Where `trim` cuts `s` at the front. */
  function TrimStartIndex(s: string): (lo: nat)
    ensures lo <= |s|
  {
    SkipForward(s, 0)
  }

  /** Where `trim` cuts `s` at the back. */
  function TrimEndIndex(s: string): (hi: nat)
    ensures IsTrimSplit(s, TrimStartIndex(s), hi)
  {
    SkipBackward(s, TrimStartIndex(s), |s|)
  }

  /** `String.prototype.trim`: the middle of the trim split of `s`. */
  function Trim(s: string): (r: string)
    ensures |r| <= |s|
    ensures r == [] || (!IsTrimmable(r[0]) && !IsTrimmable(r[|r| - 1]))
  {
    s[TrimStartIndex(s)..TrimEndIndex(s)]
  }

  predicate IsUpper(c: char) {
    'A' <= c <= 'Z'
  }

  /** ASCII case folding, as `toLowerCase` does on the Latin letters. */
  function LowerChar(c: char): (d: char)
    ensures !IsUpper(d)
    ensures IsUpper(c) ==> d as int == c as int + 32
    ensures !IsUpper(c) ==> d == c
  {
    if IsUpper(c) then (c as int + 32) as char else c
  }

  function ToLower(s: string): (r: string)
    ensures |r| == |s|
    ensures forall i :: 0 <= i < |s| ==> r[i] == LowerChar(s[i])
  {
    if s == [] then [] else [LowerChar(s[0])] + ToLower(s[1..])
  }

  /** `value.trim().toLowerCase()` (map/main.js, lines 70-71). */
  function Normalize(s: string): string {
    ToLower(Trim(s))
  }

  /**
   * `textInput || dropdownInput` (map/main.js, line 74): the empty string is
   * falsy, so the normalised dropdown value is used exactly when the
   * normalised text input is empty.
   */
  function EffectiveQuery(text: string, dropdown: string): (q: string)
    ensures Normalize(text) != [] ==> q == Normalize(text)
    ensures Normalize(text) == [] ==> q == Normalize(dropdown)
    ensures Normalize(q) == q
  {
    var t := Normalize(text);
    NormalizeIdempotent(text);
    NormalizeIdempotent(dropdown);
    if t != [] then t else Normalize(dropdown)
  }

  /** `queryToCubeMap` (map/main.js, lines 77-87). */
  const Categories: map<string, string> := map[
    "games" := "Cube001",
    "beauty" := "Cube002",
    "medical" := "Cube003",
    "sports" := "Cube004",
    "grocery" := "Cube005",
    "furniture" := "Cube006",
    "electronics" := "Cube007",
    "hardware" := "Cube008",
    "stationery" := "Cube009"
  ]

  /** `queryToCubeMap[query]` (map/main.js, line 98); `undefined` becomes `None`. */
  function TargetName(table: map<string, string>, query: string): Option<string> {
    if query in table then Some(table[query]) else None
  }

  /** JavaScript's `startsWith`. */
  predicate StartsWith(s: string, prefix: string) {
    |prefix| <= |s| && s[..|prefix|] == prefix
  }

  // ---------------------------------------------------------------------
  // Properties of normalisation

  /** Any trim split has the same middle: the one `Trim` returns. */
  lemma {:induction false} TrimSplitUnique(s: string, lo: int, hi: int)
    requires IsTrimSplit(s, lo, hi)
    ensures Trim(s) == s[lo..hi]
  {
    var a, b := TrimStartIndex(s), TrimEndIndex(s);
    if lo < hi {
      assert !IsTrimmable(s[lo]) && !IsTrimmable(s[hi - 1]);
      assert a <= lo;
      assert !IsTrimmable(s[a]);
      assert a == lo;
      assert lo <= b - 1 < |s| && !IsTrimmable(s[b - 1]);
      assert b == hi;
    } else {
      assert forall k :: 0 <= k < |s| ==> IsTrimmable(s[k]) by {
        forall k | 0 <= k < |s| ensures IsTrimmable(s[k]) {
          if k >= lo { assert k >= hi; }
        }
      }
      assert a == |s|;
    }
  }

  /** Padding `s` with trimmable characters shifts its trim split and nothing more. */
  lemma {:induction false} PaddedSplit(pre: string, s: string, post: string, lo: int, hi: int)
    requires forall k :: 0 <= k < |pre| ==> IsTrimmable(pre[k])
    requires forall k :: 0 <= k < |post| ==> IsTrimmable(post[k])
    requires IsTrimSplit(s, lo, hi)
    ensures IsTrimSplit(pre + s + post, |pre| + lo, |pre| + hi)
    ensures Trim(pre + s + post) == s[lo..hi]
  {
    var t := pre + s + post;
    var n := |pre|;
    forall k | 0 <= k < n + lo ensures IsTrimmable(t[k]) {
      if k < n { assert t[k] == pre[k]; } else { assert t[k] == s[k - n]; }
    }
    forall k | n + hi <= k < |t| ensures IsTrimmable(t[k]) {
      if k < n + |s| { assert t[k] == s[k - n]; } else { assert t[k] == post[k - n - |s|]; }
    }
    if lo < hi {
      assert t[n + lo] == s[lo] && t[n + hi - 1] == s[hi - 1];
    }
    TrimSplitUnique(t, n + lo, n + hi);
    SliceOfPadded(pre, s, post, lo, hi);
  }

  lemma {:induction false} SliceOfPadded(pre: string, s: string, post: string, lo: int, hi: int)
    requires 0 <= lo <= hi <= |s|
    ensures (pre + s + post)[|pre| + lo..|pre| + hi] == s[lo..hi]
  {
  }

  /** Surrounding whitespace never changes what `trim` returns: `"  Games  "` trims as `"Games"` does. */
  lemma {:induction false} TrimIgnoresPadding(pre: string, s: string, post: string)
    requires forall k :: 0 <= k < |pre| ==> IsTrimmable(pre[k])
    requires forall k :: 0 <= k < |post| ==> IsTrimmable(post[k])
    ensures Trim(pre + s + post) == Trim(s)
  {
    var a, b := TrimStartIndex(s), TrimEndIndex(s);
    assert Trim(s) == s[a..b];
    PaddedSplit(pre, s, post, a, b);
  }

  /** Lower-casing never creates or removes whitespace, so trimming and lower-casing commute. */
  lemma {:induction false} TrimLowerCommute(s: string)
    ensures ToLower(Trim(s)) == Trim(ToLower(s))
  {
    var a, b := TrimStartIndex(s), TrimEndIndex(s);
    assert Trim(s) == s[a..b];
    var l := ToLower(s);
    forall k | 0 <= k < |s| ensures IsTrimmable(l[k]) <==> IsTrimmable(s[k]) {
      LowerKeepsTrimmable(s[k]);
    }
    TrimSplitUnique(l, a, b);
    ToLowerSlice(s, a, b);
  }

  lemma {:induction false} ToLowerSlice(s: string, lo: int, hi: int)
    requires 0 <= lo <= hi <= |s|
    ensures ToLower(s[lo..hi]) == ToLower(s)[lo..hi]
  {
  }

  lemma {:induction false} LowerKeepsTrimmable(c: char)
    ensures IsTrimmable(LowerChar(c)) <==> IsTrimmable(c)
  {
  }

  lemma {:induction false} ToLowerIdempotent(s: string)
    ensures ToLower(ToLower(s)) == ToLower(s)
  {
  }

  lemma {:induction false} TrimIdempotent(s: string)
    ensures Trim(Trim(s)) == Trim(s)
  {
    var r := Trim(s);
    TrimSplitUnique(r, 0, |r|);
    assert r[0..|r|] == r;
  }

  /** A normalised query normalises to itself. */
  lemma {:induction false} NormalizeIdempotent(s: string)
    ensures Normalize(Normalize(s)) == Normalize(s)
  {
    TrimLowerCommute(Trim(s));
    TrimIdempotent(s);
    ToLowerIdempotent(Trim(s));
  }

  /** Inputs that differ only in the case of their letters normalise alike: `"GAMES"` and `"games"`. */
  lemma {:induction false} NormalizeIgnoresCase(s: string, t: string)
    requires ToLower(s) == ToLower(t)
    ensures Normalize(s) == Normalize(t)
  {
    TrimLowerCommute(s);
    TrimLowerCommute(t);
  }

  /** Case and surrounding whitespace do not change the query the text input selects. */
  lemma {:induction false} EffectiveQueryIgnoresCaseAndPadding(pre: string, s: string, t: string, post: string, dropdown: string)
    requires forall k :: 0 <= k < |pre| ==> IsTrimmable(pre[k])
    requires forall k :: 0 <= k < |post| ==> IsTrimmable(post[k])
    requires ToLower(s) == ToLower(t)
    ensures EffectiveQuery(pre + s + post, dropdown) == EffectiveQuery(t, dropdown)
  {
    TrimIgnoresPadding(pre, s, post);
    NormalizeIgnoresCase(s, t);
  }

  /** Strings without whitespace at their ends and without capitals are already normalised. */
  lemma {:induction false} NormalizeFixed(s: string)
    requires s == [] || (!IsTrimmable(s[0]) && !IsTrimmable(s[|s| - 1]))
    requires forall i :: 0 <= i < |s| ==> !IsUpper(s[i])
    ensures Normalize(s) == s
  {
    TrimSplitUnique(s, 0, |s|);
    assert s[0..|s|] == s;
  }

  /** Every key of the table is already a normalised query, so a user's spelling reaches it whatever its case and padding. */
  lemma {:induction false} CategoryKeysNormalized()
    ensures forall c :: c in Categories ==> c != [] && Normalize(c) == c
  {
    forall c | c in Categories ensures c != [] && Normalize(c) == c {
      assert c == "games" || c == "beauty" || c == "medical" || c == "sports" || c == "grocery"
        || c == "furniture" || c == "electronics" || c == "hardware" || c == "stationery";
      NormalizeFixed(c);
    }
  }

  /**
   * Whatever the case of its letters and whatever white space surrounds it,
   * a typed category finds that category's cube, over any dropdown value.
   */
  lemma {:induction false} CategoryLookup(table: map<string, string>, c: string, pre: string, s: string, post: string, d: string)
    requires c in table && c != [] && Normalize(c) == c
    requires ToLower(s) == c
    requires forall k :: 0 <= k < |pre| ==> IsTrimmable(pre[k])
    requires forall k :: 0 <= k < |post| ==> IsTrimmable(post[k])
    ensures TargetName(table, EffectiveQuery(pre + s + post, d)) == Some(table[c])
  {
    EffectiveQueryIgnoresCaseAndPadding(pre, s, c, post, d);
  }

  /** `CategoryLookup` for the page's own table: every spelling of every category reaches its cube. */
  lemma {:induction false} CategorySpellings(c: string, pre: string, s: string, post: string, d: string)
    requires c in Categories
    requires ToLower(s) == c
    requires forall k :: 0 <= k < |pre| ==> IsTrimmable(pre[k])
    requires forall k :: 0 <= k < |post| ==> IsTrimmable(post[k])
    ensures TargetName(Categories, EffectiveQuery(pre + s + post, d)) == Some(Categories[c])
  {
    CategoryKeysNormalized();
    CategoryLookup(Categories, c, pre, s, post, d);
  }

  /** The table has nine categories. */
  lemma {:induction false} CategoryCount()
    ensures |Categories| == 9
  {
  }

  /** Each category names a cube. */
  lemma {:induction false} CategoriesNameCubes()
    ensures forall c :: c in Categories ==> StartsWith(Categories[c], "Cube")
  {
  }

  /** No two categories share a cube. */
  lemma {:induction false} CategoriesInjective()
    ensures forall c, d :: c in Categories && d in Categories && c != d ==> Categories[c] != Categories[d]
  {
  }
}
