/** Values and string helpers shared by the modules of the course model:
    an Option type for JavaScript's `undefined`/`null`, ASCII case folding,
    substring search as `String.prototype.includes`, and the decimal
    rendering of integers used in template literals. */
module Common {

  datatype Option<+T> = None | Some(value: T)

  /** `String.prototype.toLowerCase` restricted to ASCII letters. */
  function LowerChar(c: char): (r: char)
    ensures 'A' <= c <= 'Z' ==> r as int == c as int + 32
    ensures !('A' <= c <= 'Z') ==> r == c
    ensures !('A' <= r <= 'Z')
  {
    if 'A' <= c <= 'Z' then (c as int + 32) as char else c
  }

  function ToLower(s: string): (r: string)
    ensures |r| == |s|
    ensures forall i :: 0 <= i < |s| ==> r[i] == LowerChar(s[i])
  {
    if s == [] then [] else [LowerChar(s[0])] + ToLower(s[1..])
  }

  /** Lower-casing twice is lower-casing once, so a matcher that lower-cases
      its input is blind to the case of that input. */
  lemma ToLowerIdempotent(s: string)
    ensures ToLower(ToLower(s)) == ToLower(s)
  {
    var t := ToLower(s);
    assert forall i :: 0 <= i < |t| ==> LowerChar(t[i]) == t[i];
  }

  /** `sub` occurs in `s` starting at index `p`. */
  predicate OccursAt(s: string, sub: string, p: int)
  {
    0 <= p && p + |sub| <= |s| && s[p..p + |sub|] == sub
  }

  /** `s.includes(sub)`, as a left-to-right search. */
  function IndexOf(s: string, sub: string, from: nat): (r: Option<nat>)
    decreases |s| - from
    ensures r.Some? ==> from <= r.value && OccursAt(s, sub, r.value)
    ensures r.Some? ==> forall q :: from <= q < r.value ==> !OccursAt(s, sub, q)
    ensures r.None? ==> forall q :: from <= q ==> !OccursAt(s, sub, q)
  {
    if from + |sub| > |s| then None
    else if s[from..from + |sub|] == sub then Some(from)
    else IndexOf(s, sub, from + 1)
  }

  predicate Contains(s: string, sub: string)
  {
    IndexOf(s, sub, 0).Some?
  }

  lemma ContainsIff(s: string, sub: string)
    ensures Contains(s, sub) <==> exists p :: OccursAt(s, sub, p)
  {
  }

  lemma ContainsWitness(s: string, sub: string, p: int)
    requires OccursAt(s, sub, p)
    ensures Contains(s, sub)
  {
    ContainsIff(s, sub);
  }

  /** A sub-slice of an occurrence is an occurrence: whatever contains
      `sub` also contains every piece of it. */
  lemma OccursInside(s: string, sub: string, p: int, i: int, j: int)
    requires OccursAt(s, sub, p) && 0 <= i <= j <= |sub|
    ensures OccursAt(s, sub[i..j], p + i)
  {
    forall k | 0 <= k < j - i ensures s[p + i..p + j][k] == sub[i..j][k] {
      assert s[p..p + |sub|][i + k] == s[p + i + k];
    }
  }

  /** The regular-expression class `\w`: ASCII letters, digits and `_`. */
  predicate WordChar(c: char)
  {
    ('a' <= c <= 'z') || ('A' <= c <= 'Z') || ('0' <= c <= '9') || c == '_'
  }

  /** A character of a YouTube video id, the class `[\w-]`. */
  predicate IdChar(c: char)
  {
    WordChar(c) || c == '-'
  }

  function DigitChar(d: int): (c: char)
    requires 0 <= d < 10
    ensures '0' <= c <= '9'
  {
    ('0' as int + d) as char
  }

  /** Decimal rendering of a natural number, most significant digit first. */
  function NatToString(n: nat): (r: string)
    ensures |r| >= 1
    ensures forall i :: 0 <= i < |r| ==> '0' <= r[i] <= '9'
    ensures (|r| == 1) == (n < 10)
  {
    if n < 10 then [DigitChar(n)] else NatToString(n / 10) + [DigitChar(n % 10)]
  }

  /** `${n}` for an integer `n`. */
  function IntToString(n: int): (r: string)
    ensures |r| >= 1
    ensures n >= 0 ==> '0' <= r[0] <= '9'
    ensures n < 0 ==> r[0] == '-'
  {
    if n >= 0 then NatToString(n) else "-" + NatToString(-n)
  }

  lemma {:induction false} NatToStringInjective(m: nat, n: nat)
    requires NatToString(m) == NatToString(n)
    ensures m == n
  {
    var a, b := NatToString(m), NatToString(n);
    if m >= 10 && n >= 10 {
      assert a[..|a| - 1] == NatToString(m / 10);
      assert b[..|b| - 1] == NatToString(n / 10);
      NatToStringInjective(m / 10, n / 10);
      assert a[|a| - 1] == DigitChar(m % 10);
      assert b[|b| - 1] == DigitChar(n % 10);
    }
  }

  /** Distinct integers render differently, so a string built around
      `${n}` determines `n`. */
  lemma IntToStringInjective(m: int, n: int)
    requires IntToString(m) == IntToString(n)
    ensures m == n
  {
    if m >= 0 && n >= 0 {
      NatToStringInjective(m, n);
    } else if m < 0 && n < 0 {
      assert IntToString(m)[1..] == NatToString(-m);
      assert IntToString(n)[1..] == NatToString(-n);
      NatToStringInjective(-m, -n);
    }
  }

  /** Two sets with the same members are equal. */
  lemma SetExt<T>(a: set<T>, b: set<T>)
    requires forall x :: x in a <==> x in b
    ensures a == b
  {
    assert forall x :: x in a <==> x in b;
  }

  /** A non-empty set of integers has a member. */
  lemma SomeMember(s: set<int>)
    requires s != {}
    ensures exists x :: x in s
  {
    var e: set<int> := {};
    if forall x :: x in s <==> x in e {
      SetExt(s, e);
    }
  }

  /** Sum of a sequence of integers. */
  function Sum(xs: seq<int>): int
  {
    if xs == [] then 0 else xs[0] + Sum(xs[1..])
  }

  lemma {:induction false} SumAppend(xs: seq<int>, ys: seq<int>)
    ensures Sum(xs + ys) == Sum(xs) + Sum(ys)
  {
    if xs != [] {
      assert (xs + ys)[1..] == xs[1..] + ys;
      SumAppend(xs[1..], ys);
    } else {
      assert xs + ys == ys;
    }
  }

  lemma {:induction false} SumNonNegative(xs: seq<int>)
    requires forall i :: 0 <= i < |xs| ==> xs[i] >= 0
    ensures Sum(xs) >= 0
  {
    if xs != [] {
      SumNonNegative(xs[1..]);
    }
  }

  /* ---------------- YouTube links and the learning-paradigm keys ---------------- */

  const WatchPrefix := "https://www.youtube.com/watch?v="

  /** The watch link of a video id. */
  function Watch(id: string): string
  {
    WatchPrefix + id
  }

  /** The two keys both fallback tables test, in that order. */
  const SupervisedKey := "supervised learning"
  const UnsupervisedKey := "un" + SupervisedKey

  /** Every text that mentions "unsupervised learning" also mentions
      "supervised learning". */
  lemma UnsupervisedMentionsSupervised(t: string)
    requires Contains(t, UnsupervisedKey)
    ensures Contains(t, SupervisedKey)
  {
    ContainsIff(t, UnsupervisedKey);
    var p :| OccursAt(t, UnsupervisedKey, p);
    OccursInside(t, UnsupervisedKey, p, 2, |UnsupervisedKey|);
    assert UnsupervisedKey[2..|UnsupervisedKey|] == SupervisedKey;
    ContainsWitness(t, SupervisedKey, p + 2);
  }
}
