/**
 * Building blocks shared by every component of the site: optional values,
 * JavaScript string semantics the components rely on (truthiness, `trim`,
 * ASCII case mapping, `includes`, `indexOf`, `join`, `split`), order-preserving
 * filtering and the stable descending sort that `Array.prototype.sort` with a
 * `(a, b) => key(b) - key(a)` comparator performs.
 */
module Common {

  datatype Option<T> = None | Some(value: T)

  /** A JavaScript string value that may be `null`/`undefined` is truthy iff present and non-empty. */
  predicate Truthy(o: Option<string>) {
    o.Some? && o.value != ""
  }

  /** The characters matched by `\s` in a JavaScript regular expression and removed by `trim`. */
  predicate IsSpace(c: char) {
    c == ' ' || c == '\t' || c == '\n' || c == '\r' || c == '\U{B}' || c == '\U{C}'
    || c == '\U{A0}' || c == '\U{1680}' || ('\U{2000}' <= c <= '\U{200A}')
    || c == '\U{2028}' || c == '\U{2029}' || c == '\U{202F}' || c == '\U{205F}'
    || c == '\U{3000}' || c == '\U{FEFF}'
  }

  predicate AllSpace(s: string) {
    forall k :: 0 <= k < |s| ==> IsSpace(s[k])
  }

  /** Drops the leading white space; what is left is a suffix of `s`. */
  function TrimStart(s: string): (r: string)
    ensures |r| <= |s| && r == s[|s| - |r|..]
  {
    if s == [] || !IsSpace(s[0]) then s
    else
      var r := TrimStart(s[1..]);
      assert s[1..][|s| - 1 - |r|..] == s[|s| - |r|..];
      r
  }

  /** What `TrimStart` removes is all white space, and what it keeps starts with a non-space. */
  lemma {:induction false} TrimStartSpec(s: string)
    ensures TrimStart(s) == [] || !IsSpace(TrimStart(s)[0])
    ensures AllSpace(s[..|s| - |TrimStart(s)|])
  {
    if s != [] && IsSpace(s[0]) {
      var t := s[1..];
      var r := TrimStart(t);
      assert TrimStart(s) == r;
      TrimStartSpec(t);
      var skipped := t[..|t| - |r|];
      assert AllSpace(skipped);
      var pre := s[..|s| - |r|];
      forall k | 0 <= k < |pre| ensures IsSpace(pre[k]) {
        if k == 0 {
          assert pre[k] == s[0];
        } else {
          assert pre[k] == skipped[k - 1];
        }
      }
    }
  }

  /** Drops the trailing white space; what is left is a prefix of `s`. */
  function TrimEnd(s: string): (r: string)
    ensures |r| <= |s| && r == s[..|r|]
  {
    if s == [] || !IsSpace(s[|s| - 1]) then s
    else
      var r := TrimEnd(s[..|s| - 1]);
      assert s[..|s| - 1][..|r|] == s[..|r|];
      r
  }

  /** What `TrimEnd` removes is all white space, and what it keeps ends with a non-space. */
  lemma {:induction false} TrimEndSpec(s: string)
    ensures TrimEnd(s) == [] || !IsSpace(TrimEnd(s)[|TrimEnd(s)| - 1])
    ensures AllSpace(s[|TrimEnd(s)|..])
  {
    if s != [] && IsSpace(s[|s| - 1]) {
      var t := s[..|s| - 1];
      var r := TrimEnd(t);
      assert TrimEnd(s) == r;
      TrimEndSpec(t);
      var skipped := t[|r|..];
      assert AllSpace(skipped);
      var post := s[|r|..];
      forall k | 0 <= k < |post| ensures IsSpace(post[k]) {
        if k == |post| - 1 {
          assert post[k] == s[|s| - 1];
        } else {
          assert post[k] == skipped[k];
        }
      }
    }
  }

  /**
   * `String.prototype.trim`: the contiguous piece of `s` left after dropping
   * white space at both ends, with no white space at either of its ends.
   */
  function Trim(s: string): (r: string)
    ensures |r| <= |s| && forall k :: 0 <= k < |r| ==> r[k] in s
    ensures r == [] || (!IsSpace(r[0]) && !IsSpace(r[|r| - 1]))
    ensures exists i, j :: 0 <= i <= j <= |s| && r == s[i..j] && AllSpace(s[..i]) && AllSpace(s[j..])
  {
    var r := TrimEnd(TrimStart(s));
    TrimPiece(s);
    r
  }

  /**
   * The trimmed string is one contiguous piece `s[i..j]` of `s`, everything
   * dropped before and after it is white space, and it has no white space
   * at either end.
   */
  lemma TrimPiece(s: string)
    ensures var r := TrimEnd(TrimStart(s));
      && (forall k :: 0 <= k < |r| ==> r[k] in s)
      && (r == [] || (!IsSpace(r[0]) && !IsSpace(r[|r| - 1])))
      && exists i, j :: 0 <= i <= j <= |s| && r == s[i..j] && AllSpace(s[..i]) && AllSpace(s[j..])
  {
    var t := TrimStart(s);
    var r := TrimEnd(t);
    TrimStartSpec(s);
    TrimEndSpec(t);
    TrimSlice(s);
    forall k | 0 <= k < |r| ensures r[k] in s {
      assert r[k] == t[k];
      assert t[k] == s[|s| - |t| + k];
    }
    if r != [] {
      assert r[0] == t[0];
    }
  }

  /** The piece `TrimEnd(TrimStart(s))` is the slice `s[i..j]` between the dropped white space. */
  lemma TrimSlice(s: string)
    ensures var r := TrimEnd(TrimStart(s));
      exists i, j :: 0 <= i <= j <= |s| && r == s[i..j] && AllSpace(s[..i]) && AllSpace(s[j..])
  {
    var t := TrimStart(s);
    TrimStartSpec(s);
    TrimEndSpec(t);
    PrefixOfSuffix(s, t, TrimEnd(t));
  }

  /** A prefix `r` of a suffix `t` of `s`, both cut off at white space, is a slice of `s` between white space. */
  lemma PrefixOfSuffix(s: string, t: string, r: string)
    requires |t| <= |s| && t == s[|s| - |t|..] && AllSpace(s[..|s| - |t|])
    requires |r| <= |t| && r == t[..|r|] && AllSpace(t[|r|..])
    ensures exists i, j :: 0 <= i <= j <= |s| && r == s[i..j] && AllSpace(s[..i]) && AllSpace(s[j..])
  {
    var i := |s| - |t|;
    var j := i + |r|;
    assert r == s[i..j];
    assert s[j..] == t[|r|..];
  }

  /** `s.trim()` is the empty (falsy) string exactly when `s` is made of white space only. */
  lemma TrimEmptyIff(s: string)
    ensures Trim(s) == [] <==> AllSpace(s)
  {
    var t := TrimStart(s);
    TrimStartSpec(s);
    TrimEndSpec(t);
    if Trim(s) == [] {
      assert t[0..] == t;
      assert t == [];
      assert s[..|s|] == s;
    }
  }

  /** ASCII model of `toLowerCase` on one character. */
  function LowerChar(c: char): char {
    if 'A' <= c <= 'Z' then (c as int + 32) as char else c
  }

  /** ASCII model of `toUpperCase` on one character. */
  function UpperChar(c: char): char {
    if 'a' <= c <= 'z' then (c as int - 32) as char else c
  }

  function ToLower(s: string): (r: string)
    ensures |r| == |s| && forall k :: 0 <= k < |s| ==> r[k] == LowerChar(s[k])
  {
    seq(|s|, k requires 0 <= k < |s| => LowerChar(s[k]))
  }

  function ToUpper(s: string): (r: string)
    ensures |r| == |s| && forall k :: 0 <= k < |s| ==> r[k] == UpperChar(s[k])
  {
    seq(|s|, k requires 0 <= k < |s| => UpperChar(s[k]))
  }

  /** A UTF-16 code unit: JavaScript strings are sequences of these. */
  newtype CodeUnit = x: int | 0 <= x < 0x1_0000

  /** The units of one character: itself up to U+FFFF, a surrogate pair beyond. */
  function CharUnits(c: char): (u: seq<CodeUnit>)
    ensures c as int <= 0xFFFF ==> u == [c as int as CodeUnit]
    ensures c as int > 0xFFFF ==> |u| == 2 && 0xD800 <= u[0] < 0xDC00 && 0xDC00 <= u[1] < 0xE000
    ensures c as int > 0xFFFF ==> 0x10000 + (u[0] as int - 0xD800) * 0x400 + (u[1] as int - 0xDC00) == c as int
  {
    if c as int <= 0xFFFF then [c as int as CodeUnit]
    else
      var v := c as int - 0x10000;
      [(0xD800 + v / 0x400) as CodeUnit, (0xDC00 + v % 0x400) as CodeUnit]
  }

  /** The text as JavaScript holds it: the UTF-16 encoding of its characters. */
  function Utf16(s: string): (u: seq<CodeUnit>)
    ensures |s| <= |u| <= 2 * |s|
  {
    if s == [] then [] else CharUnits(s[0]) + Utf16(s[1..])
  }

  /** `s.length`: UTF-16 code units, two for every character beyond U+FFFF. */
  function Utf16Length(s: string): nat {
    |Utf16(s)|
  }

  /** Encoding distributes over concatenation, so `${a}${b}` has the units of a then those of b. */
  lemma {:induction false} Utf16Concat(a: string, b: string)
    ensures Utf16(a + b) == Utf16(a) + Utf16(b)
  {
    if a != [] {
      assert (a + b)[1..] == a[1..] + b;
      Utf16Concat(a[1..], b);
    } else {
      assert a + b == b;
    }
  }

  /** A text of characters up to U+FFFF has one unit per character, the character itself. */
  lemma {:induction false} Utf16LengthBasic(s: string)
    requires forall k :: 0 <= k < |s| ==> s[k] as int <= 0xFFFF
    ensures Utf16Length(s) == |s|
    ensures forall k :: 0 <= k < |s| ==> Utf16(s)[k] as int == s[k] as int
  {
    if s != [] {
      Utf16LengthBasic(s[1..]);
    }
  }

  /** A text of characters beyond U+FFFF (emoji, say) has two units per character. */
  lemma {:induction false} Utf16LengthAstral(s: string)
    requires forall k :: 0 <= k < |s| ==> s[k] as int > 0xFFFF
    ensures Utf16Length(s) == 2 * |s|
  {
    if s != [] {
      Utf16LengthAstral(s[1..]);
    }
  }

  /** `s.includes(sub)`. */
  predicate Contains(s: string, sub: string) {
    exists i | 0 <= i <= |s| - |sub| :: OccursAt(s, sub, i)
  }

  predicate OccursAt(s: string, pat: string, i: int) {
    0 <= i && i + |pat| <= |s| && s[i..i + |pat|] == pat
  }

  /** `s.indexOf(pat, from)` for a non-empty `pat`: the first occurrence at or after `from`. */
  function IndexOfFrom(s: string, pat: string, from: nat): (r: Option<nat>)
    requires pat != []
    ensures r.Some? ==> from <= r.value && OccursAt(s, pat, r.value)
    ensures r.Some? ==> forall j :: from <= j < r.value ==> !OccursAt(s, pat, j)
    ensures r.None? ==> forall j :: from <= j ==> !OccursAt(s, pat, j)
    decreases |s| - from
  {
    if from + |pat| > |s| then None
    else if s[from..from + |pat|] == pat then Some(from)
    else IndexOfFrom(s, pat, from + 1)
  }

  function IndexOf(s: string, pat: string): (r: Option<nat>)
    requires pat != []
  {
    IndexOfFrom(s, pat, 0)
  }

  /** `s.toLowerCase().includes(term.toLowerCase())`: the search boxes of the admin pages. */
  predicate MatchesText(s: string, term: string) {
    Contains(ToLower(s), ToLower(term))
  }

  /** The empty search term matches any text. */
  lemma EmptyTermMatches(s: string)
    ensures MatchesText(s, "")
  {
    assert OccursAt(ToLower(s), ToLower(""), 0);
  }

  /** `s.startsWith(p)`. */
  predicate StartsWith(s: string, p: string) {
    |p| <= |s| && s[..|p|] == p
  }

  /** `parts.join(sep)`. */
  function Join(parts: seq<string>, sep: string): string
  {
    if |parts| == 0 then ""
    else if |parts| == 1 then parts[0]
    else parts[0] + sep + Join(parts[1..], sep)
  }

  /** A character that is in no part and not in the separator is not in the join. */
  lemma {:induction false} JoinAvoids(parts: seq<string>, sep: string, c: char)
    requires c !in sep
    requires forall k :: 0 <= k < |parts| ==> c !in parts[k]
    ensures c !in Join(parts, sep)
  {
    if |parts| > 1 {
      JoinAvoids(parts[1..], sep, c);
    }
  }

  /** `s.split(c)` for a one-character separator. */
  function Split(s: string, c: char): (r: seq<string>)
    ensures |r| >= 1
  {
    if s == [] then [""]
    else if s[0] == c then [""] + Split(s[1..], c)
    else var rest := Split(s[1..], c); [[s[0]] + rest[0]] + rest[1..]
  }

  /** The first piece of a split holds no separator and is a prefix of the string. */
  lemma {:induction false} SplitFirstPart(s: string, c: char)
    ensures c !in Split(s, c)[0]
    ensures StartsWith(s, Split(s, c)[0])
  {
    if s != [] && s[0] != c {
      SplitFirstPart(s[1..], c);
      var rest := Split(s[1..], c);
      assert s[..|rest[0]| + 1] == [s[0]] + s[1..][..|rest[0]|];
    }
  }

  lemma {:induction false} SplitAfterPart(a: string, b: string, c: char)
    requires c !in a
    ensures Split(a + [c] + b, c) == [a] + Split(b, c)
  {
    if a == [] {
      assert a + [c] + b == [c] + b;
      assert ([c] + b)[1..] == b;
    } else {
      assert (a + [c] + b)[1..] == a[1..] + [c] + b;
      SplitAfterPart(a[1..], b, c);
      assert [a[0]] + a[1..] == a;
    }
  }

  lemma {:induction false} SplitNoSeparator(a: string, c: char)
    requires c !in a
    ensures Split(a, c) == [a]
  {
    if a != [] {
      SplitNoSeparator(a[1..], c);
      assert [a[0]] + a[1..] == a;
    }
  }

  /** Splitting a join on a separator that occurs in no part gives the parts back. */
  lemma {:induction false} SplitJoin(parts: seq<string>, c: char)
    requires |parts| >= 1
    requires forall k :: 0 <= k < |parts| ==> c !in parts[k]
    ensures Split(Join(parts, [c]), c) == parts
  {
    if |parts| == 1 {
      SplitNoSeparator(parts[0], c);
    } else {
      SplitJoin(parts[1..], c);
      SplitAfterPart(parts[0], Join(parts[1..], [c]), c);
      assert [parts[0]] + parts[1..] == parts;
    }
  }

  /** `s.filter(p)`: membership is exactly the elements of `s` satisfying `p`. */
  function Filter<T>(s: seq<T>, p: T -> bool): (r: seq<T>)
    ensures |r| <= |s|
    ensures forall i :: 0 <= i < |r| ==> r[i] in s && p(r[i])
    ensures forall i :: 0 <= i < |s| && p(s[i]) ==> s[i] in r
  {
    if s == [] then [] else (if p(s[0]) then [s[0]] else []) + Filter(s[1..], p)
  }

  /** `r` can be obtained from `s` by deleting elements, keeping the order of the rest. */
  ghost predicate IsSubsequence<T>(r: seq<T>, s: seq<T>)
    decreases |s|
  {
    if r == [] then true
    else if s == [] then false
    else (r[0] == s[0] && IsSubsequence(r[1..], s[1..])) || IsSubsequence(r, s[1..])
  }

  lemma {:induction false} FilterIsSubsequence<T>(s: seq<T>, p: T -> bool)
    ensures IsSubsequence(Filter(s, p), s)
  {
    if s != [] {
      FilterIsSubsequence(s[1..], p);
      var r := Filter(s, p);
      if p(s[0]) {
        assert r[0] == s[0] && r[1..] == Filter(s[1..], p);
      } else {
        assert r == Filter(s[1..], p);
      }
    }
  }

  lemma {:induction false} FilterAll<T>(s: seq<T>, p: T -> bool)
    requires forall i :: 0 <= i < |s| ==> p(s[i])
    ensures Filter(s, p) == s
  {
    if s != [] {
      FilterAll(s[1..], p);
      assert [s[0]] + s[1..] == s;
    }
  }

  lemma {:induction false} FilterConcat<T>(a: seq<T>, b: seq<T>, p: T -> bool)
    ensures Filter(a + b, p) == Filter(a, p) + Filter(b, p)
  {
    if a != [] {
      assert (a + b)[1..] == a[1..] + b;
      FilterConcat(a[1..], b, p);
    } else {
      assert a + b == b;
    }
  }

  /** Every element goes to exactly one of `filter(p)` and `filter(q)` when `q` is the negation of `p`. */
  lemma {:induction false} FilterComplementCount<T>(s: seq<T>, p: T -> bool, q: T -> bool)
    requires forall i :: 0 <= i < |s| ==> q(s[i]) == !p(s[i])
    ensures |Filter(s, p)| + |Filter(s, q)| == |s|
  {
    if s != [] {
      FilterComplementCount(s[1..], p, q);
    }
  }

  /** The number of elements satisfying `p` (`s.filter(p).length`). */
  function CountWhere<T>(s: seq<T>, p: T -> bool): nat
  {
    |Filter(s, p)|
  }

  lemma {:induction false} CountWhereAppend<T>(s: seq<T>, x: T, p: T -> bool)
    ensures CountWhere(s + [x], p) == CountWhere(s, p) + (if p(x) then 1 else 0)
  {
    FilterConcat(s, [x], p);
  }

  /** Nothing satisfying `p` means a count of zero. */
  lemma {:induction false} CountWhereNone<T>(s: seq<T>, p: T -> bool)
    requires forall i :: 0 <= i < |s| ==> !p(s[i])
    ensures CountWhere(s, p) == 0
  {
    if s != [] {
      CountWhereNone(s[1..], p);
    }
  }

  /** `s.map(x => p(x) ? f(x) : x)`: the update-by-id idiom of the components. */
  function MapWhere<T>(s: seq<T>, p: T -> bool, f: T -> T): (r: seq<T>)
    ensures |r| == |s|
    ensures forall i :: 0 <= i < |s| && p(s[i]) ==> r[i] == f(s[i])
    ensures forall i :: 0 <= i < |s| && !p(s[i]) ==> r[i] == s[i]
  {
    if s == [] then [] else [if p(s[0]) then f(s[0]) else s[0]] + MapWhere(s[1..], p, f)
  }

  /** Applying an idempotent update twice to the same elements is the same as applying it once. */
  lemma MapWhereIdempotent<T>(s: seq<T>, p: T -> bool, f: T -> T)
    requires forall i :: 0 <= i < |s| && p(s[i]) ==> p(f(s[i])) && f(f(s[i])) == f(s[i])
    ensures MapWhere(MapWhere(s, p, f), p, f) == MapWhere(s, p, f)
  {
    var once := MapWhere(s, p, f);
    var twice := MapWhere(once, p, f);
    forall i | 0 <= i < |s| ensures twice[i] == once[i] {
    }
  }

  // ---------------------------------------------------------------------------
  // Descending sort by an integer key

  ghost predicate SortedDesc<T>(s: seq<T>, key: T -> int) {
    forall i, j :: 0 <= i < j < |s| ==> key(s[i]) >= key(s[j])
  }

  /** Inserts `x` in front of the first element whose key is not larger than `x`'s. */
  function InsertDesc<T>(x: T, s: seq<T>, key: T -> int): (r: seq<T>)
    ensures multiset(r) == multiset(s) + multiset{x}
  {
    if s == [] || key(s[0]) <= key(x) then [x] + s
    else
      assert s == [s[0]] + s[1..];
      [s[0]] + InsertDesc(x, s[1..], key)
  }

  lemma {:induction false} InsertDescSorted<T>(x: T, s: seq<T>, key: T -> int)
    requires SortedDesc(s, key)
    ensures SortedDesc(InsertDesc(x, s, key), key)
  {
    if s != [] && key(s[0]) > key(x) {
      InsertDescSorted(x, s[1..], key);
      var t := InsertDesc(x, s[1..], key);
      forall i | 0 <= i < |t| ensures key(s[0]) >= key(t[i]) {
        InsertDescMember(x, s[1..], key, i);
        if t[i] != x {
          var j :| 0 <= j < |s[1..]| && s[1..][j] == t[i];
          assert s[j + 1] == t[i];
        }
      }
      var r := [s[0]] + t;
      forall i, j | 0 <= i < j < |r| ensures key(r[i]) >= key(r[j]) {
        assert r[j] == t[j - 1];
        if i > 0 {
          assert r[i] == t[i - 1];
        }
      }
    }
  }

  /** Every element of the result is the inserted one or an element of `s`. */
  lemma InsertDescMember<T>(x: T, s: seq<T>, key: T -> int, i: nat)
    requires i < |InsertDesc(x, s, key)|
    ensures InsertDesc(x, s, key)[i] == x || InsertDesc(x, s, key)[i] in s
  {
    var t := InsertDesc(x, s, key);
    assert t[i] in multiset(t);
  }

  /**
   * `[...s].sort((a, b) => key(b) - key(a))`: an insertion sort, so the
   * result is ordered by non-increasing key and is a permutation of `s`.
   */
  function SortDesc<T>(s: seq<T>, key: T -> int): (r: seq<T>)
    ensures multiset(r) == multiset(s)
    ensures SortedDesc(r, key)
  {
    if s == [] then []
    else
      assert s == [s[0]] + s[1..];
      var t := SortDesc(s[1..], key);
      InsertDescSorted(s[0], t, key);
      InsertDesc(s[0], t, key)
  }

  /** A rearrangement keeps every element. */
  lemma PermutationKeeps<T>(s: seq<T>, r: seq<T>, k: nat)
    requires multiset(r) == multiset(s) && k < |s|
    ensures s[k] in r
  {
    assert s[k] in multiset(s);
  }

  function Min(a: int, b: int): int {
    if a <= b then a else b
  }

  function Max(a: int, b: int): int {
    if a >= b then a else b
  }
}
