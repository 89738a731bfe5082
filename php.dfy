/** The slice of PHP's value model that the abandoned-cart core relies on:
    loosely typed values, `empty()`, ordered string-keyed arrays with
    assignment and `unset`, string coercion of integers, `trim()` and
    `explode()`. */
module Php {

  datatype Option<+T> = None | Some(value: T)

  /** A PHP value. Arrays are ordered maps; only string keys occur in the core. */
  datatype Value =
    | Null
    | Bool(b: bool)
    | Int(i: int)
    | Str(s: string)
    | Arr(entries: seq<(string, Value)>)

  type PhpArray = seq<(string, Value)>

  /** PHP's `empty()`: null, false, 0, "", "0" and the empty array. */
  predicate Empty(v: Value) {
    match v
    case Null => true
    case Bool(b) => !b
    case Int(i) => i == 0
    case Str(s) => s == "" || s == "0"
    case Arr(e) => e == []
  }

  /** PHP's `(bool)` cast, which agrees with `!empty()` on these values. */
  predicate Truthy(v: Value) {
    !Empty(v)
  }

  // ---------------------------------------------------------------------
  // Ordered arrays

  function Keys(a: PhpArray): (ks: seq<string>)
    ensures |ks| == |a|
    ensures forall i :: 0 <= i < |a| ==> ks[i] == a[i].0
  {
    if a == [] then [] else [a[0].0] + Keys(a[1..])
  }

  /** PHP arrays never hold a key twice. */
  predicate UniqueKeys(a: PhpArray) {
    forall i, j :: 0 <= i < j < |a| ==> a[i].0 != a[j].0
  }

  /** `$a[$k]`: the value of the entry for `k`, or `None` when the key is absent. */
  function Get(a: PhpArray, k: string): (r: Option<Value>)
    ensures r.None? <==> k !in Keys(a)
  {
    if a == [] then None
    else if a[0].0 == k then Some(a[0].1)
    else
      assert Keys(a) == [a[0].0] + Keys(a[1..]);
      Get(a[1..], k)
  }

  /** `$a[$k] = $v`: overwrite the entry in place, or append it when the key is new. */
  function Set(a: PhpArray, k: string, v: Value): (r: PhpArray)
    ensures Get(r, k) == Some(v)
  {
    if a == [] then [(k, v)]
    else if a[0].0 == k then [(k, v)] + a[1..]
    else [a[0]] + Set(a[1..], k, v)
  }

  /** `unset($a[$k])`: drop the entry for `k`, keeping the order of the others. */
  function Unset(a: PhpArray, k: string): (r: PhpArray)
    ensures Get(r, k) == None
  {
    if a == [] then []
    else if a[0].0 == k then Unset(a[1..], k)
    else [a[0]] + Unset(a[1..], k)
  }

  /** Assigning one key leaves every other key's value as it was. */
  lemma {:induction false} GetSet(a: PhpArray, k: string, v: Value, j: string)
    ensures Get(Set(a, k, v), j) == if j == k then Some(v) else Get(a, j)
  {
    if a != [] && a[0].0 != k {
      assert Set(a, k, v) == [a[0]] + Set(a[1..], k, v);
      GetSet(a[1..], k, v, j);
      assert ([a[0]] + Set(a[1..], k, v))[1..] == Set(a[1..], k, v);
    }
  }

  /** An assignment keeps the key order, appending the key only when it is new. */
  lemma {:induction false} KeysSet(a: PhpArray, k: string, v: Value)
    ensures k in Keys(a) ==> Keys(Set(a, k, v)) == Keys(a)
    ensures k !in Keys(a) ==> Keys(Set(a, k, v)) == Keys(a) + [k]
  {
    if a != [] {
      assert Keys(a) == [a[0].0] + Keys(a[1..]);
      if a[0].0 == k {
        assert Keys([(k, v)] + a[1..]) == [k] + Keys(a[1..]);
      } else {
        KeysSet(a[1..], k, v);
        var rest := Set(a[1..], k, v);
        assert Keys([a[0]] + rest) == [a[0].0] + Keys(rest);
      }
    }
  }

  /** Removing one key leaves every other key's value as it was. */
  lemma {:induction false} GetUnset(a: PhpArray, k: string, j: string)
    ensures Get(Unset(a, k), j) == if j == k then None else Get(a, j)
  {
    if a != [] {
      GetUnset(a[1..], k, j);
      if a[0].0 != k {
        assert ([a[0]] + Unset(a[1..], k))[1..] == Unset(a[1..], k);
      }
    }
  }

  /** Whatever was assigned to a key, unsetting it gives the same array. */
  lemma {:induction false} UnsetSet(a: PhpArray, k: string, v: Value)
    ensures Unset(Set(a, k, v), k) == Unset(a, k)
  {
    if a != [] && a[0].0 != k {
      UnsetSet(a[1..], k, v);
      assert ([a[0]] + Set(a[1..], k, v))[1..] == Set(a[1..], k, v);
    }
  }

  /** Assigning a key twice keeps only the second value. */
  lemma {:induction false} SetSet(a: PhpArray, k: string, v: Value, w: Value)
    ensures Set(Set(a, k, v), k, w) == Set(a, k, w)
  {
    if a != [] && a[0].0 != k {
      SetSet(a[1..], k, v, w);
      assert ([a[0]] + Set(a[1..], k, v))[1..] == Set(a[1..], k, v);
    }
  }

  /** PHP's loose comparison `$v == 1`. A string is equal to 1 here when it
      is the numeral 1, possibly with leading zeros; PHP also accepts other
      numeric spellings of 1 ("1.0", "+1", " 1", "1e0"), which this model
      does not. */
  predicate LooseEqualsOne(v: Value) {
    match v
    case Null => false
    case Bool(b) => b
    case Int(i) => i == 1
    case Str(s) => |s| >= 1 && s[|s| - 1] == '1' && forall i :: 0 <= i < |s| - 1 ==> s[i] == '0'
    case Arr(_) => false
  }

  /** PHP's `array_unique` on a list: the first occurrence of each element survives. */
  function ArrayUnique(s: seq<string>): (r: seq<string>)
    ensures forall x :: x in r <==> x in s
    ensures forall i, j :: 0 <= i < j < |r| ==> r[i] != r[j]
  {
    if s == [] then []
    else
      var rest := ArrayUnique(s[..|s| - 1]);
      if s[|s| - 1] in rest then rest else rest + [s[|s| - 1]]
  }

  // ---------------------------------------------------------------------
  // Strings

  const Digits := "0123456789"

  /** PHP's string coercion of an integer: decimal, with a leading '-' when negative. */
  function IntToString(i: int): (s: string)
    ensures s != []
    decreases if i < 0 then -i + 1 else i
  {
    if i < 0 then "-" + IntToString(-i)
    else if i < 10 then [Digits[i]]
    else IntToString(i / 10) + [Digits[i % 10]]
  }

  /** PHP's string conversion of a scalar; an array converts to "Array". */
  function Stringify(v: Value): string {
    match v
    case Null => ""
    case Bool(b) => if b then "1" else ""
    case Int(i) => IntToString(i)
    case Str(s) => s
    case Arr(_) => "Array"
  }

  /** The characters PHP's `trim()` strips by default: " \t\n\r\0\x0B". */
  predicate IsTrimChar(c: char) {
    c == ' ' || c == '\t' || c == '\n' || c == '\r' || c == '\0' || c == '\U{000B}'
  }

  predicate IsSubstring(t: string, s: string) {
    exists i, j :: 0 <= i <= j <= |s| && t == s[i..j]
  }

  lemma SubstringTrans(t: string, m: string, s: string)
    requires IsSubstring(t, m) && IsSubstring(m, s)
    ensures IsSubstring(t, s)
  {
    var i, j :| 0 <= i <= j <= |m| && t == m[i..j];
    var a, b :| 0 <= a <= b <= |s| && m == s[a..b];
    assert |t| == j - i;
    forall k | 0 <= k < |t| ensures t[k] == s[a + i + k] {
      assert t[k] == m[i + k];
    }
    assert t == s[a + i..a + j];
  }

  lemma NotInSubstring(c: char, t: string, s: string)
    requires IsSubstring(t, s) && c !in s
    ensures c !in t
  {
    var i, j :| 0 <= i <= j <= |s| && t == s[i..j];
    forall k | 0 <= k < |t| ensures t[k] != c {
      assert t[k] == s[i + k];
    }
  }

  function TrimLeft(s: string): (r: string)
    ensures |r| <= |s|
    ensures r == s[|s| - |r|..]
    ensures r != [] ==> !IsTrimChar(r[0])
    ensures forall i :: 0 <= i < |s| - |r| ==> IsTrimChar(s[i])
  {
    if s != [] && IsTrimChar(s[0]) then TrimLeft(s[1..]) else s
  }

  function TrimRight(s: string): (r: string)
    ensures |r| <= |s|
    ensures r == s[..|r|]
    ensures r != [] ==> !IsTrimChar(r[|r| - 1])
    ensures forall i :: |r| <= i < |s| ==> IsTrimChar(s[i])
  {
    if s != [] && IsTrimChar(s[|s| - 1]) then TrimRight(s[..|s| - 1]) else s
  }

  /** `r` is `s[a..b]`, and everything of `s` left out on either side is
      a character `trim()` strips. */
  predicate TrimsTo(s: string, a: int, b: int, r: string) {
    && 0 <= a <= b <= |s|
    && r == s[a..b]
    && (forall i :: 0 <= i < a ==> IsTrimChar(s[i]))
    && (forall i :: b <= i < |s| ==> IsTrimChar(s[i]))
  }

  /** PHP's `trim()`: the slice left between the stripped ends. */
  function Trim(s: string): (r: string)
    ensures r != [] ==> !IsTrimChar(r[0]) && !IsTrimChar(r[|r| - 1])
    ensures IsSubstring(r, s)
    ensures (forall i :: 0 <= i < |s| ==> !IsTrimChar(s[i])) ==> r == s
    ensures exists a, b :: TrimsTo(s, a, b, r)
  {
    var l := TrimLeft(s);
    var r := TrimRight(l);
    var a, b := |s| - |l|, |s| - |l| + |r|;
    assert TrimsTo(s, a, b, r) by {
      assert r == s[a..b];
      forall i | b <= i < |s| ensures IsTrimChar(s[i]) {
        assert s[i] == l[i - a];
      }
    }
    r
  }

  // ---------------------------------------------------------------------
  // explode()

  predicate MatchAt(pat: string, s: string, i: nat) {
    i + |pat| <= |s| && s[i..i + |pat|] == pat
  }

  /** Occurrences in `s` past its first character are occurrences in `s[1..]`, one place earlier. */
  lemma MatchShift(pat: string, s: string)
    requires |s| >= 1
    ensures forall j: nat {:trigger MatchAt(pat, s, j)} :: 1 <= j ==> (MatchAt(pat, s, j) <==> MatchAt(pat, s[1..], j - 1))
  {
    forall j: nat | 1 <= j ensures MatchAt(pat, s, j) <==> MatchAt(pat, s[1..], j - 1) {
      if j + |pat| <= |s| {
        assert s[1..][j - 1..j - 1 + |pat|] == s[j..j + |pat|];
      }
    }
  }

  /** The first position at which `pat` occurs in `s`, as `strpos` finds it. */
  function Find(pat: string, s: string): (r: Option<nat>)
    requires pat != ""
    ensures r.Some? ==> MatchAt(pat, s, r.value)
    ensures r.Some? ==> forall j :: 0 <= j < r.value ==> !MatchAt(pat, s, j)
    ensures r.None? ==> forall j :: 0 <= j <= |s| ==> !MatchAt(pat, s, j)
    decreases |s|
  {
    if |s| < |pat| then None
    else if s[..|pat|] == pat then Some(0)
    else
      MatchShift(pat, s);
      assert !MatchAt(pat, s, 0);
      match Find(pat, s[1..])
      case None => None
      case Some(i) => Some(i + 1)
  }

  /** PHP's `explode($pat, $s)`: the pieces between the non-overlapping
      occurrences of `pat`, scanning left to right. */
  function Explode(pat: string, s: string): (parts: seq<string>)
    requires pat != ""
    ensures |parts| >= 1
    decreases |s|
  {
    match Find(pat, s)
    case None => [s]
    case Some(i) => [s[..i]] + Explode(pat, s[i + |pat|..])
  }

  /** PHP's `implode($pat, $parts)`. */
  function Join(pat: string, parts: seq<string>): string {
    if |parts| == 0 then ""
    else if |parts| == 1 then parts[0]
    else parts[0] + pat + Join(pat, parts[1..])
  }

  /** Joining the pieces of an explode gives the string back. */
  lemma {:induction false} JoinExplode(pat: string, s: string)
    requires pat != ""
    ensures Join(pat, Explode(pat, s)) == s
    decreases |s|
  {
    var f := Find(pat, s);
    if f.Some? {
      var i := f.value;
      var rest := s[i + |pat|..];
      var tail := Explode(pat, rest);
      assert Explode(pat, s) == [s[..i]] + tail;
      JoinExplode(pat, rest);
      assert ([s[..i]] + tail)[1..] == tail;
      assert Join(pat, [s[..i]] + tail) == s[..i] + pat + Join(pat, tail);
      assert s[i..i + |pat|] == pat;
      assert s == s[..i] + s[i..i + |pat|] + rest;
    }
  }

  /** Exploding on a separator whose first character occurs in none of the
      pieces gives back exactly those pieces. */
  lemma {:induction false} ExplodeJoin(pat: string, parts: seq<string>)
    requires pat != "" && |parts| >= 1
    requires forall k :: 0 <= k < |parts| ==> pat[0] !in parts[k]
    ensures Explode(pat, Join(pat, parts)) == parts
  {
    var s := Join(pat, parts);
    var p := parts[0];
    assert pat[0] !in p;
    if |parts| == 1 {
      forall j | 0 <= j <= |s| ensures !MatchAt(pat, s, j) {
        if j + |pat| <= |s| {
          assert s[j..j + |pat|][0] == s[j] == p[j];
        }
      }
      assert Find(pat, s) == None;
    } else {
      var rest := Join(pat, parts[1..]);
      assert s == p + pat + rest;
      assert s[|p|..|p| + |pat|] == pat;
      assert MatchAt(pat, s, |p|);
      forall j | 0 <= j < |p| ensures !MatchAt(pat, s, j) {
        if j + |pat| <= |s| {
          assert s[j..j + |pat|][0] == s[j] == p[j];
        }
      }
      assert Find(pat, s) == Some(|p|);
      assert s[..|p|] == p;
      assert s[|p| + |pat|..] == rest;
      ExplodeJoin(pat, parts[1..]);
    }
  }

  /** The first piece of an explode on a one-character separator never holds that character. */
  lemma {:induction false} ExplodeHead(c: char, s: string)
    ensures c !in Explode([c], s)[0]
    ensures IsSubstring(Explode([c], s)[0], s)
  {
    var head := Explode([c], s)[0];
    var f := Find([c], s);
    var end := if f.Some? then f.value else |s|;
    assert head == s[..end];
    forall j | 0 <= j < end ensures s[j] != c {
      assert !MatchAt([c], s, j);
      assert s[j..j + 1] == [s[j]];
    }
    assert s[..end] == s[0..end];
  }
}
