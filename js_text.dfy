/**
 * The few JavaScript string and array primitives the components rely on:
 * `String.prototype.startsWith`, `trim`, `padStart`, `Number.prototype.toString`
 * for non-negative integers, `Array.prototype.join` and `slice(-n)`.
 */
module JsText {

  /** `s.startsWith(prefix)` */
  predicate StartsWith(s: string, prefix: string) {
    |prefix| <= |s| && s[..|prefix|] == prefix
  }

  /** A prefix of a prefix is a prefix. */
  lemma StartsWithTrans(s: string, p: string, q: string)
    requires StartsWith(s, p) && StartsWith(p, q)
    ensures StartsWith(s, q)
  {
    assert s[..|q|] == s[..|p|][..|q|];
  }

  // ---------------------------------------------------------------------------
  // Decimal rendering of non-negative integers
  // ---------------------------------------------------------------------------

  predicate IsDigit(c: char) {
    '0' <= c <= '9'
  }

  predicate AllDigits(s: string) {
    forall i :: 0 <= i < |s| ==> IsDigit(s[i])
  }

  function DigitChar(d: nat): (c: char)
    requires d < 10
    ensures IsDigit(c)
  {
    (('0' as int) + d) as char
  }

  function DigitValue(c: char): (d: nat)
    requires IsDigit(c)
    ensures d < 10 && DigitChar(d) == c
  {
    (c as int) - ('0' as int)
  }

  /**
   * `n.toString()` for an integer n >= 0: the shortest decimal numeral,
   * so there is a leading zero only for n == 0 itself.
   */
  function NatToString(n: nat): (r: string)
    ensures |r| >= 1 && AllDigits(r)
    ensures r[0] == '0' ==> n == 0
    ensures |r| == 1 <==> n < 10
  {
    if n < 10 then [DigitChar(n)] else NatToString(n / 10) + [DigitChar(n % 10)]
  }

  /** The value of a string of decimal digits (the empty string has value 0). */
  function DecimalValue(s: string): nat
    requires AllDigits(s)
  {
    if s == [] then 0 else 10 * DecimalValue(s[..|s| - 1]) + DigitValue(s[|s| - 1])
  }

  /** Reading back a rendered number gives the number. */
  lemma {:induction false} DecimalRoundTrip(n: nat)
    ensures DecimalValue(NatToString(n)) == n
  {
    var s := NatToString(n);
    if n >= 10 {
      assert s[..|s| - 1] == NatToString(n / 10);
      DecimalRoundTrip(n / 10);
    }
  }

  /** `s.padStart(target, fill)` for a one-character fill string. */
  function PadStart(s: string, target: nat, fill: char): (r: string)
    ensures |s| >= target ==> r == s
    ensures |s| < target ==> |r| == target
    ensures |r| >= |s| && r[|r| - |s|..] == s
    ensures forall i :: 0 <= i < |r| - |s| ==> r[i] == fill
  {
    if |s| >= target then s else seq(target - |s|, _ => fill) + s
  }

  // ---------------------------------------------------------------------------
  // Arrays of strings
  // ---------------------------------------------------------------------------

  /** `parts.join(sep)`: the first part, then each further part behind one separator. */
  function Join(parts: seq<string>, sep: string): (r: string)
    ensures |parts| == 0 ==> r == ""
    ensures |parts| >= 1 ==> StartsWith(r, parts[0])
    ensures |parts| >= 1 ==> |parts[|parts| - 1]| <= |r| && r[|r| - |parts[|parts| - 1]|..] == parts[|parts| - 1]
  {
    if |parts| == 0 then ""
    else if |parts| == 1 then parts[0]
    else Join(parts[..|parts| - 1], sep) + sep + parts[|parts| - 1]
  }

  /** Joining one more part puts exactly one separator in front of it. */
  lemma JoinSnoc(parts: seq<string>, last: string, sep: string)
    requires |parts| >= 1
    ensures Join(parts + [last], sep) == Join(parts, sep) + sep + last
  {
    assert (parts + [last])[..|parts|] == parts;
  }

  /** `xs.slice(-n)` for n > 0: the last n elements, or all of them when there are fewer. */
  function TakeLast<T>(xs: seq<T>, n: nat): (r: seq<T>)
    requires n > 0
    ensures |r| == if |xs| < n then |xs| else n
    ensures xs == xs[..|xs| - |r|] + r
  {
    if |xs| <= n then xs else xs[|xs| - n..]
  }

  /**
   * The positions of s whose element satisfies keep, in increasing order
   * (see WhereMeaning): what an order-keeping `filter` or filtering loop keeps.
   */
  function Where<T>(s: seq<T>, keep: T -> bool): (r: seq<nat>)
    ensures |r| <= |s|
    ensures forall j :: 0 <= j < |r| ==> r[j] < |s|
  {
    if s == [] then []
    else
      var n := |s| - 1;
      Where(s[..n], keep) + if keep(s[n]) then [n] else []
  }

  /** Where lists exactly the positions whose element satisfies keep, each once, in increasing order. */
  lemma {:induction false} WhereMeaning<T>(s: seq<T>, keep: T -> bool)
    ensures forall j :: 0 <= j < |Where(s, keep)| ==> keep(s[Where(s, keep)[j]])
    ensures forall i, j :: 0 <= i < j < |Where(s, keep)| ==> Where(s, keep)[i] < Where(s, keep)[j]
    ensures forall k :: 0 <= k < |s| && keep(s[k]) ==> k in Where(s, keep)
  {
    if s != [] {
      var n := |s| - 1;
      var prior := Where(s[..n], keep);
      WhereMeaning(s[..n], keep);
      assert forall k :: 0 <= k < n ==> s[..n][k] == s[k];
      assert Where(s, keep) == prior + if keep(s[n]) then [n] else [];
    }
  }

  /** The images under g of the elements of s that satisfy keep, in order: a filtering loop that maps what it keeps. */
  function FilterMap<T, U>(s: seq<T>, keep: T -> bool, g: T -> U): (r: seq<U>)
    ensures |r| == |Where(s, keep)|
  {
    if s == [] then []
    else
      var n := |s| - 1;
      FilterMap(s[..n], keep, g) + if keep(s[n]) then [g(s[n])] else []
  }

  /** The j-th result of FilterMap is the image of the j-th kept element. */
  lemma {:induction false} FilterMapAt<T, U>(s: seq<T>, keep: T -> bool, g: T -> U, j: nat)
    requires j < |Where(s, keep)|
    ensures FilterMap(s, keep, g)[j] == g(s[Where(s, keep)[j]])
  {
    var n := |s| - 1;
    var at := Where(s[..n], keep);
    assert Where(s, keep) == at + if keep(s[n]) then [n] else [];
    if j < |at| {
      FilterMapAt(s[..n], keep, g, j);
      assert s[..n][at[j]] == s[at[j]];
    }
  }

  /** Pairs the elements of two sequences of the same length, position by position. */
  function Zip<A, B>(a: seq<A>, b: seq<B>): (r: seq<(A, B)>)
    requires |a| == |b|
    ensures |r| == |a|
    ensures forall i :: 0 <= i < |r| ==> r[i] == (a[i], b[i])
  {
    seq(|a|, i requires 0 <= i < |a| => (a[i], b[i]))
  }

  /** Two filters that decide alike at every position keep the same positions. */
  lemma {:induction false} WhereAgree<T, U>(s: seq<T>, keep: T -> bool, t: seq<U>, keep2: U -> bool)
    requires |s| == |t|
    requires forall i :: 0 <= i < |s| ==> keep(s[i]) == keep2(t[i])
    ensures Where(s, keep) == Where(t, keep2)
  {
    if s != [] {
      var n := |s| - 1;
      WhereAgree(s[..n], keep, t[..n], keep2);
    }
  }

  // ---------------------------------------------------------------------------
  // String.prototype.trim
  // ---------------------------------------------------------------------------

  /**
   * ECMAScript WhiteSpace and LineTerminator code points: TAB, VT, FF, ZWNBSP,
   * every space separator (category Zs), LF, CR, LS and PS.
   */
  predicate IsWhiteSpace(c: char) {
    c == '\t' || c == '\U{000B}' || c == '\U{000C}' || c == ' ' || c == '\U{00A0}'
    || c == '\U{FEFF}' || c == '\U{1680}' || ('\U{2000}' <= c <= '\U{200A}')
    || c == '\U{202F}' || c == '\U{205F}' || c == '\U{3000}'
    || c == '\n' || c == '\r' || c == '\U{2028}' || c == '\U{2029}'
  }

  predicate AllWhiteSpace(s: string) {
    forall i :: 0 <= i < |s| ==> IsWhiteSpace(s[i])
  }

  /** Drops the leading white space: the result is the suffix that starts at the first other character. */
  function TrimStart(s: string): (r: string)
    ensures |r| <= |s| && r == s[|s| - |r|..]
    ensures AllWhiteSpace(s[..|s| - |r|])
    ensures r == [] || !IsWhiteSpace(r[0])
  {
    if s != [] && IsWhiteSpace(s[0]) then TrimStart(s[1..]) else s
  }

  /** Drops the trailing white space: the result is the prefix that ends at the last other character. */
  function TrimEnd(s: string): (r: string)
    ensures |r| <= |s| && r == s[..|r|]
    ensures AllWhiteSpace(s[|r|..])
    ensures r == [] || !IsWhiteSpace(r[|r| - 1])
  {
    if s != [] && IsWhiteSpace(s[|s| - 1]) then TrimEnd(s[..|s| - 1]) else s
  }

  /** `s.trim()`: no longer than s, and neither starts nor ends with white space. */
  function Trim(s: string): (r: string)
    ensures |r| <= |s|
    ensures r == [] || (!IsWhiteSpace(r[0]) && !IsWhiteSpace(r[|r| - 1]))
  {
    TrimEnd(TrimStart(s))
  }

  /**
   * Leading white space, then t; t is r, then trailing white space. So s is
   * white space, r, white space, and r starts and ends with other characters.
   */
  lemma {:induction false} SplitAround(s: string, t: string, r: string)
    requires |t| <= |s| && t == s[|s| - |t|..] && AllWhiteSpace(s[..|s| - |t|])
    requires t == [] || !IsWhiteSpace(t[0])
    requires |r| <= |t| && r == t[..|r|] && AllWhiteSpace(t[|r|..])
    requires r == [] || !IsWhiteSpace(r[|r| - 1])
    ensures s[|s| - |t|..|s| - |t| + |r|] == r
    ensures AllWhiteSpace(s[|s| - |t| + |r|..])
    ensures r == [] || (!IsWhiteSpace(r[0]) && !IsWhiteSpace(r[|r| - 1]))
  {
    var lead := |s| - |t|;
    assert s[lead..lead + |r|] == t[..|r|];
    assert s[lead + |r|..] == t[|r|..];
  }

  /**
   * What `trim` returns: s is white space, then the result, then white space,
   * and the result neither starts nor ends with white space.
   */
  lemma TrimShape(s: string) returns (lead: nat)
    ensures lead + |Trim(s)| <= |s|
    ensures s[lead..lead + |Trim(s)|] == Trim(s)
    ensures AllWhiteSpace(s[..lead]) && AllWhiteSpace(s[lead + |Trim(s)|..])
    ensures Trim(s) == [] || (!IsWhiteSpace(Trim(s)[0]) && !IsWhiteSpace(Trim(s)[|Trim(s)| - 1]))
  {
    var t := TrimStart(s);
    lead := |s| - |t|;
    var r := TrimEnd(t);
    assert Trim(s) == r;
    SplitAround(s, t, r);
  }

  /** `!s.trim()` holds exactly when s is blank. */
  lemma TrimBlank(s: string)
    ensures Trim(s) == [] <==> AllWhiteSpace(s)
  {
    var lead := TrimShape(s);
    if Trim(s) == [] {
      assert s == s[..lead] + s[lead..];
    }
  }
}
