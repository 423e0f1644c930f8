/** Values and string operations shared by the whole model: the optional type
    that stands for Kotlin's nullable types, the Kotlin standard-library string
    functions the bot relies on (startsWith, removePrefix, trim, isBlank,
    lowercase, replace, joinToString, the `\d+` regex), decimal rendering of
    numbers and an order-preserving filter. */
module Common {

  datatype Option<T> = None | Some(value: T)

  /** Discord identifiers (channels, messages) are 64-bit "snowflakes". */
  type Snowflake = nat

  // ---------------------------------------------------------------------------
  // Prefixes and suffixes

  predicate StartsWith(s: string, p: string) {
    |p| <= |s| && s[..|p|] == p
  }

  predicate EndsWith(s: string, p: string) {
    |p| <= |s| && s[|s| - |p|..] == p
  }

  /** Kotlin's `removePrefix`: strips `p` when `s` starts with it. */
  function RemovePrefix(s: string, p: string): (r: string)
    ensures StartsWith(s, p) ==> p + r == s
    ensures !StartsWith(s, p) ==> r == s
  {
    if StartsWith(s, p) then s[|p|..] else s
  }

  /** Kotlin's `removeSuffix`: strips `p` when `s` ends with it. */
  function RemoveSuffix(s: string, p: string): (r: string)
    ensures EndsWith(s, p) ==> r + p == s
    ensures !EndsWith(s, p) ==> r == s
  {
    if EndsWith(s, p) then s[..|s| - |p|] else s
  }

  lemma RemovePrefixOfConcat(p: string, t: string)
    ensures StartsWith(p + t, p)
    ensures RemovePrefix(p + t, p) == t
  {
    assert (p + t)[..|p|] == p;
  }

  // ---------------------------------------------------------------------------
  // Whitespace, trim and blank

  /** Kotlin's `Char.isWhitespace` on the JVM: Java whitespace (tab, line
      feed, vertical tab, form feed, carriage return, the four information
      separators) or a Unicode space separator. */
  predicate IsWhitespace(c: char) {
    || ('\U{0009}' <= c <= '\U{000D}')
    || ('\U{001C}' <= c <= '\U{0020}')
    || c == '\U{00A0}' || c == '\U{1680}'
    || ('\U{2000}' <= c <= '\U{200A}')
    || c == '\U{2028}' || c == '\U{2029}' || c == '\U{202F}' || c == '\U{205F}'
    || c == '\U{3000}'
  }

  /** Kotlin's `isBlank`: empty or whitespace only. */
  predicate IsBlank(s: string) {
    forall i :: 0 <= i < |s| ==> IsWhitespace(s[i])
  }

  /** Kotlin's `isNullOrBlank`: absent, empty or whitespace only. */
  predicate IsNullOrBlank(v: Option<string>) {
    v.None? || IsBlank(v.value)
  }

  /** `values[key]?.trim()`, for a form's text inputs or a command's
      options: absent when there is no such entry. */
  function TrimmedValue(values: map<string, string>, key: string): (r: Option<string>)
    ensures r.Some? <==> key in values
    ensures r.Some? ==> r.value == Trim(values[key])
  {
    if key in values then Some(Trim(values[key])) else None
  }

  /** The number of whitespace characters `s` starts with, counted on from
      position `i`. */
  function LeadingBlanks(s: string, i: nat): (k: nat)
    requires i <= |s| && forall j :: 0 <= j < i ==> IsWhitespace(s[j])
    ensures i <= k <= |s|
    ensures forall j :: 0 <= j < k ==> IsWhitespace(s[j])
    ensures k < |s| ==> !IsWhitespace(s[k])
    decreases |s| - i
  {
    if i < |s| && IsWhitespace(s[i]) then LeadingBlanks(s, i + 1) else i
  }

  /** The position where the whitespace `s` ends with begins, searched
      down from position `k`. */
  function TrailingBlanks(s: string, k: nat): (r: nat)
    requires k <= |s| && forall j :: k <= j < |s| ==> IsWhitespace(s[j])
    ensures r <= k
    ensures forall j :: r <= j < |s| ==> IsWhitespace(s[j])
    ensures r > 0 ==> !IsWhitespace(s[r - 1])
  {
    if k > 0 && IsWhitespace(s[k - 1]) then TrailingBlanks(s, k - 1) else k
  }

  /** Drops leading whitespace; what is dropped is blank, what remains is a
      suffix that does not start with whitespace. */
  function TrimStart(s: string): (r: string)
    ensures |r| <= |s| && r == s[|s| - |r|..]
    ensures IsBlank(s[..|s| - |r|])
    ensures r == [] || !IsWhitespace(r[0])
  {
    s[LeadingBlanks(s, 0)..]
  }

  /** Drops trailing whitespace; what is dropped is blank, what remains is a
      prefix that does not end with whitespace. */
  function TrimEnd(s: string): (r: string)
    ensures |r| <= |s| && r == s[..|r|]
    ensures IsBlank(s[|r|..])
    ensures r == [] || !IsWhitespace(r[|r| - 1])
  {
    s[..TrailingBlanks(s, |s|)]
  }

  /** Kotlin's `trim()`: `s` with its leading and trailing whitespace
      removed, so a slice of `s` with only whitespace before and after it,
      that neither starts nor ends with whitespace. */
  function Trim(s: string): (r: string)
    ensures |r| <= |s|
    ensures exists i :: 0 <= i <= |s| - |r| && r == s[i..i + |r|] && IsBlank(s[..i]) && IsBlank(s[i + |r|..])
    ensures r == [] || (!IsWhitespace(r[0]) && !IsWhitespace(r[|r| - 1]))
  {
    var a := TrimStart(s);
    var r := TrimEnd(a);
    var i := |s| - |a|;
    assert r == s[i..i + |r|];
    assert s[i + |r|..] == a[|r|..];
    r
  }

  /** A string that neither starts nor ends with whitespace trims to
      itself. */
  lemma TrimUntrimmed(s: string)
    requires s == [] || (!IsWhitespace(s[0]) && !IsWhitespace(s[|s| - 1]))
    ensures Trim(s) == s
  {
    assert LeadingBlanks(s, 0) == 0;
    assert TrimStart(s) == s;
    assert TrailingBlanks(s, |s|) == |s|;
  }

  /** Trimming twice is trimming once. */
  lemma TrimIdempotent(s: string)
    ensures Trim(Trim(s)) == Trim(s)
  {
    TrimUntrimmed(Trim(s));
  }

  /** A trimmed string is blank exactly when it is empty, and that happens
      exactly when the untrimmed string was blank. */
  lemma TrimBlank(s: string)
    ensures IsBlank(Trim(s)) <==> Trim(s) == []
    ensures Trim(s) == [] <==> IsBlank(s)
  {
    var a := TrimStart(s);
    if TrimEnd(a) == [] {
      assert a[0..] == a;
      assert s[..|s| - |a|] == s;
    }
  }

  // ---------------------------------------------------------------------------
  // Character-wise rewriting

  function LowerAscii(c: char): char {
    if 'A' <= c <= 'Z' then (c as int + 32) as char else c
  }

  /** Kotlin's `lowercase()`, restricted to the ASCII letters of enum names. */
  function Lowercase(s: string): (r: string)
    ensures |r| == |s|
    ensures forall i :: 0 <= i < |s| ==> r[i] == LowerAscii(s[i])
  {
    seq(|s|, i requires 0 <= i < |s| => LowerAscii(s[i]))
  }

  /** Kotlin's `replace(from, to)` for one-character patterns. */
  function ReplaceChar(s: string, from: char, to: char): (r: string)
    ensures |r| == |s|
    ensures forall i :: 0 <= i < |s| ==> r[i] == (if s[i] == from then to else s[i])
  {
    seq(|s|, i requires 0 <= i < |s| => if s[i] == from then to else s[i])
  }

  /** Lower-casing `name` and replacing `from` by `to` gives `word` when the
      two agree character by character. */
  lemma LowerReplaced(name: string, from: char, to: char, word: string)
    requires |name| == |word|
    requires forall i :: 0 <= i < |name| ==>
               word[i] == if LowerAscii(name[i]) == from then to else LowerAscii(name[i])
    ensures ReplaceChar(Lowercase(name), from, to) == word
  {
  }

  // ---------------------------------------------------------------------------
  // Joining

  /** Kotlin's `joinToString(sep)`. */
  function Join(parts: seq<string>, sep: string): string {
    if |parts| == 0 then ""
    else if |parts| == 1 then parts[0]
    else parts[0] + sep + Join(parts[1..], sep)
  }

  /** Joining is extended at the end by the separator and the new part. */
  lemma {:induction false} JoinAppend(parts: seq<string>, x: string, sep: string)
    requires parts != []
    ensures Join(parts + [x], sep) == Join(parts, sep) + sep + x
  {
    if |parts| == 1 {
      assert parts + [x] == [parts[0], x];
      assert [x] == (parts + [x])[1..];
    } else {
      assert (parts + [x])[1..] == parts[1..] + [x];
      JoinAppend(parts[1..], x, sep);
    }
  }

  // ---------------------------------------------------------------------------
  // Decimal digits

  predicate IsDigit(c: char) {
    '0' <= c <= '9'
  }

  /** The regular expression `\d+` matched against the whole string (Java's
      `\d` is the ASCII digits only). */
  predicate AllDigits(s: string) {
    |s| > 0 && forall i :: 0 <= i < |s| ==> IsDigit(s[i])
  }

  function DigitChar(d: nat): (c: char)
    requires d < 10
    ensures IsDigit(c)
  {
    ('0' as int + d) as char
  }

  /** The decimal text of a natural number, as Kotlin's string templates print
      a `Long` that is not negative. */
  function NatToString(n: nat): (r: string)
    ensures AllDigits(r)
  {
    if n < 10 then [DigitChar(n)] else NatToString(n / 10) + [DigitChar(n % 10)]
  }

  /** The number a digit string denotes. */
  function DigitsValue(s: string): nat
    requires forall i :: 0 <= i < |s| ==> IsDigit(s[i])
  {
    if s == [] then 0
    else
      assert IsDigit(s[|s| - 1]);
      DigitsValue(s[..|s| - 1]) * 10 + (s[|s| - 1] as int - '0' as int)
  }

  /** Printing a number and reading its digits back gives the number. */
  lemma {:induction false} NatToStringRoundTrip(n: nat)
    ensures DigitsValue(NatToString(n)) == n
  {
    var r := NatToString(n);
    if n >= 10 {
      NatToStringRoundTrip(n / 10);
      assert r[..|r| - 1] == NatToString(n / 10);
    }
  }

  /** Different numbers have different decimal texts. */
  lemma NatToStringInjective(m: nat, n: nat)
    requires NatToString(m) == NatToString(n)
    ensures m == n
  {
    NatToStringRoundTrip(m);
    NatToStringRoundTrip(n);
  }

  // ---------------------------------------------------------------------------
  // Order-preserving filter (Kotlin's `filter` and `removeAll`)

  function Filter<T(!new)>(s: seq<T>, keep: T -> bool): (r: seq<T>)
    ensures |r| <= |s|
    ensures forall x :: x in r <==> x in s && keep(x)
  {
    if s == [] then []
    else (if keep(s[0]) then [s[0]] else []) + Filter(s[1..], keep)
  }

  /** Filtering commutes with concatenation: the kept elements stay in their
      original relative order. */
  lemma {:induction false} FilterConcat<T(!new)>(a: seq<T>, b: seq<T>, keep: T -> bool)
    ensures Filter(a + b, keep) == Filter(a, keep) + Filter(b, keep)
  {
    if a != [] {
      assert (a + b)[1..] == a[1..] + b;
      FilterConcat(a[1..], b, keep);
    } else {
      assert a + b == b;
    }
  }

  /** Removing every element whose key is `k` (Kotlin's `removeAll { key(it) == k }`). */
  function WithoutKey<T(!new), K(==)>(s: seq<T>, key: T -> K, k: K): (r: seq<T>)
    ensures forall x :: x in r <==> x in s && key(x) != k
  {
    Filter(s, x => key(x) != k)
  }

  /** Removal by key keeps the survivors in order: it distributes over
      concatenation. */
  lemma {:induction false} WithoutKeyConcat<T(!new), K>(a: seq<T>, b: seq<T>, key: T -> K, k: K)
    ensures WithoutKey(a + b, key, k) == WithoutKey(a, key, k) + WithoutKey(b, key, k)
  {
    if a != [] {
      assert (a + b)[1..] == a[1..] + b;
      WithoutKeyConcat(a[1..], b, key, k);
    } else {
      assert a + b == b;
    }
  }

  /** Removal by key, one more element at a time: the element survives
      exactly when its key differs. */
  lemma WithoutKeySnoc<T(!new), K>(s: seq<T>, x: T, key: T -> K, k: K)
    ensures WithoutKey(s + [x], key, k) == WithoutKey(s, key, k) + (if key(x) != k then [x] else [])
  {
    WithoutKeyConcat(s, [x], key, k);
    assert [x][1..] == [];
  }

  /** Removal by a key no element has changes nothing. */
  lemma {:induction false} WithoutAbsentKey<T(!new), K>(s: seq<T>, key: T -> K, k: K)
    requires forall x :: x in s ==> key(x) != k
    ensures WithoutKey(s, key, k) == s
  {
    if s != [] {
      WithoutAbsentKey(s[1..], key, k);
    }
  }

  /** Removing, one key after the other, every element whose key is the
      next one of `ks` (a `removeAll` per key). */
  function WithoutEach<T(!new), K(==)>(s: seq<T>, key: T -> K, ks: seq<K>): (r: seq<T>)
    ensures forall x :: x in r <==> x in s && key(x) !in ks
    decreases |ks|
  {
    if ks == [] then s
    else
      assert ks == ks[..|ks| - 1] + [ks[|ks| - 1]];
      WithoutKey(WithoutEach(s, key, ks[..|ks| - 1]), key, ks[|ks| - 1])
  }

  /** One more key removes by that key what the earlier keys left. */
  lemma WithoutEachSnoc<T(!new), K>(s: seq<T>, key: T -> K, ks: seq<K>, k: K)
    ensures WithoutEach(s, key, ks + [k]) == WithoutKey(WithoutEach(s, key, ks), key, k)
  {
    assert (ks + [k])[..|ks|] == ks;
  }

  /** Removing keys no element has changes nothing. */
  lemma {:induction false} WithoutEachAbsent<T(!new), K>(s: seq<T>, key: T -> K, ks: seq<K>)
    requires forall x :: x in s ==> key(x) !in ks
    ensures WithoutEach(s, key, ks) == s
    decreases |ks|
  {
    if ks != [] {
      var init := ks[..|ks| - 1];
      assert forall x :: x in s ==> key(x) !in init;
      WithoutEachAbsent(s, key, init);
      WithoutAbsentKey(s, key, ks[|ks| - 1]);
    }
  }

  /** Removing by key is idempotent. */
  lemma WithoutKeyIdempotent<T(!new), K>(s: seq<T>, key: T -> K, k: K)
    ensures WithoutKey(WithoutKey(s, key, k), key, k) == WithoutKey(s, key, k)
  {
    WithoutAbsentKey(WithoutKey(s, key, k), key, k);
  }

  /** No two positions of `s` hold the same value. */
  predicate NoDuplicates<T(==)>(s: seq<T>) {
    forall i, j :: 0 <= i < j < |s| ==> s[i] != s[j]
  }

  /** Kotlin's `MutableList.remove(element)`: drops the first occurrence. */
  function RemoveFirst<T(==)>(s: seq<T>, x: T): (r: seq<T>)
    ensures x !in s ==> r == s
    ensures x in s ==> |r| == |s| - 1
    ensures forall y :: y in r ==> y in s
    ensures forall y :: y in s && y != x ==> y in r
  {
    if s == [] then []
    else if s[0] == x then s[1..]
    else [s[0]] + RemoveFirst(s[1..], x)
  }

  /** In a list without duplicates, removing the first occurrence removes the
      element altogether and keeps the list duplicate-free. */
  lemma {:induction false} RemoveFirstNoDuplicates<T>(s: seq<T>, x: T)
    requires NoDuplicates(s)
    ensures x !in RemoveFirst(s, x)
    ensures NoDuplicates(RemoveFirst(s, x))
  {
    if s != [] {
      var tail := s[1..];
      assert NoDuplicates(tail) by {
        forall i, j | 0 <= i < j < |tail| ensures tail[i] != tail[j] {
          assert tail[i] == s[i + 1] && tail[j] == s[j + 1];
        }
      }
      assert s[0] !in tail by {
        forall k | 0 <= k < |tail| ensures tail[k] != s[0] {
          assert tail[k] == s[k + 1];
        }
      }
      if s[0] != x {
        RemoveFirstNoDuplicates(tail, x);
      }
    }
  }

  /** Appending an absent element keeps a list duplicate-free. */
  lemma AppendNoDuplicates<T>(s: seq<T>, x: T)
    requires NoDuplicates(s) && x !in s
    ensures NoDuplicates(s + [x])
  {
  }

  /** Removing the element just appended gives back the list. */
  lemma {:induction false} RemoveFirstAfterAppend<T>(s: seq<T>, x: T)
    requires x !in s
    ensures RemoveFirst(s + [x], x) == s
  {
    if s != [] {
      assert (s + [x])[1..] == s[1..] + [x];
      RemoveFirstAfterAppend(s[1..], x);
    }
  }
}
