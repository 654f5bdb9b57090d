// String operations of the source's standard library, with the facts the parsers need.
module Strings {
  import opened Wrappers

  predicate StartsAt(s: string, i: nat, pat: string) {
    i + |pat| <= |s| && s[i..i + |pat|] == pat
  }

  function IndexFrom(s: string, pat: string, i: nat): (r: Option<nat>)
    ensures r.Some? ==> i <= r.value && StartsAt(s, r.value, pat) && forall k :: i <= k < r.value ==> !StartsAt(s, k, pat)
    ensures r.None? ==> forall k :: i <= k ==> !StartsAt(s, k, pat)
    decreases |s| - i
  {
    if i + |pat| > |s| then None
    else if StartsAt(s, i, pat) then Some(i)
    else IndexFrom(s, pat, i + 1)
  }

  /** `s.indexOf(pat)`: the first occurrence. */
  function IndexOf(s: string, pat: string): (r: Option<nat>)
    ensures r.Some? ==> StartsAt(s, r.value, pat) && forall k :: 0 <= k < r.value ==> !StartsAt(s, k, pat)
    ensures r.None? ==> forall k :: 0 <= k ==> !StartsAt(s, k, pat)
  {
    IndexFrom(s, pat, 0)
  }

  predicate IsDigit(c: char) {
    '0' <= c <= '9'
  }

  predicate AllDigits(s: string) {
    forall i :: 0 <= i < |s| ==> IsDigit(s[i])
  }

  /** `parseInt(s, 10)` of a digit string; `None` stands for NaN. */
  function ParseInt(s: string): Option<nat> {
    if s == "" || !AllDigits(s) then None else Some(DigitsValue(s))
  }

  function DigitsValue(s: string): nat
    requires AllDigits(s)
  {
    if s == "" then 0 else DigitsValue(s[..|s| - 1]) * 10 + (s[|s| - 1] as int - '0' as int)
  }

  /** Where the run of digits that starts at `i` ends. */
  function DigitsEnd(s: string, i: nat): (e: nat)
    requires i <= |s|
    ensures i <= e <= |s| && AllDigits(s[i..e]) && (e < |s| ==> !IsDigit(s[e]))
    decreases |s| - i
  {
    if i < |s| && IsDigit(s[i]) then
      var e := DigitsEnd(s, i + 1);
      assert s[i..e] == [s[i]] + s[i + 1..e];
      e
    else i
  }

  /** `s.split(sep)`: never empty. */
  function Split(s: string, sep: char): (parts: seq<string>)
    ensures |parts| > 0
    ensures forall i :: 0 <= i < |parts| ==> sep !in parts[i]
  {
    if s == "" then [""]
    else
      var rest := Split(s[1..], sep);
      if s[0] == sep then [""] + rest else [[s[0]] + rest[0]] + rest[1..]
  }

  /** `parts.join(sep)`. */
  function Join(parts: seq<string>, sep: char): string {
    if parts == [] then ""
    else if |parts| == 1 then parts[0]
    else parts[0] + [sep] + Join(parts[1..], sep)
  }

  function Flatten(ss: seq<string>): string {
    if ss == [] then "" else ss[0] + Flatten(ss[1..])
  }

  lemma Regrouped(a: string, b: string, c: string)
    ensures a + (b + c) == (a + b) + c
  {
  }

  lemma {:induction false} FlattenConcat(a: seq<string>, b: seq<string>)
    ensures Flatten(a + b) == Flatten(a) + Flatten(b)
  {
    if a == [] {
      assert a + b == b;
    } else {
      FlattenConcat(a[1..], b);
      assert (a + b)[1..] == a[1..] + b;
      Regrouped(a[0], Flatten(a[1..]), Flatten(b));
    }
  }

  lemma IndexOfIs(s: string, pat: string, i: nat)
    requires StartsAt(s, i, pat) && forall k :: 0 <= k < i ==> !StartsAt(s, k, pat)
    ensures IndexOf(s, pat) == Some(i)
  {
  }

  /** The first occurrence stays the first when more text arrives. */
  lemma IndexOfGrows(s: string, t: string, pat: string)
    requires IndexOf(s, pat).Some?
    ensures IndexOf(s + t, pat) == IndexOf(s, pat)
  {
    var i := IndexOf(s, pat).value;
    forall k | 0 <= k <= i ensures StartsAt(s + t, k, pat) <==> StartsAt(s, k, pat) {
      assert (s + t)[k..k + |pat|] == s[k..k + |pat|];
    }
    IndexOfIs(s + t, pat, i);
  }

  /** Dropping text before the first occurrence only shifts it. */
  lemma IndexOfDrop(s: string, n: nat, pat: string)
    requires n <= |s|
    requires IndexOf(s, pat).Some? ==> n <= IndexOf(s, pat).value
    ensures IndexOf(s[n..], pat) ==
      (if IndexOf(s, pat).Some? then Some(IndexOf(s, pat).value - n) else None)
  {
    forall k: nat ensures StartsAt(s[n..], k, pat) <==> StartsAt(s, n + k, pat) {
      if n + k + |pat| <= |s| { assert s[n..][k..k + |pat|] == s[n + k..n + k + |pat|]; }
    }
    if IndexOf(s, pat).Some? {
      IndexOfIs(s[n..], pat, IndexOf(s, pat).value - n);
    }
  }

  lemma SplitCons(c: char, s: string, sep: char)
    ensures var rest := Split(s, sep);
      Split([c] + s, sep) == if c == sep then [""] + rest else [[c] + rest[0]] + rest[1..]
  {
    assert ([c] + s)[1..] == s;
  }

  lemma {:induction false} SplitConcat(a: string, b: string, sep: char)
    ensures Split(a + [sep] + b, sep) == Split(a, sep) + Split(b, sep)
  {
    hide Split;
    if a == "" {
      assert a + [sep] + b == [sep] + b;
      SplitCons(sep, b, sep);
      SplitEmpty(sep);
      assert a == "";
    } else {
      SplitConcat(a[1..], b, sep);
      SplitCons(a[0], a[1..] + [sep] + b, sep);
      SplitCons(a[0], a[1..], sep);
      assert [a[0]] + a[1..] == a;
      assert [a[0]] + (a[1..] + [sep] + b) == a + [sep] + b;
      var x := Split(a[1..], sep);
      var y := Split(b, sep);
      assert (x + y)[1..] == x[1..] + y;
    }
  }

  lemma SplitEmpty(sep: char)
    ensures Split("", sep) == [""]
  {
  }

  lemma {:induction false} SplitNone(a: string, sep: char)
    requires sep !in a
    ensures Split(a, sep) == [a]
  {
    if a != "" {
      SplitNone(a[1..], sep);
      assert [a[0]] + a[1..] == a;
    }
  }

  lemma {:induction false} JoinSplit(s: string, sep: char)
    ensures Join(Split(s, sep), sep) == s
  {
    if s != "" {
      JoinSplit(s[1..], sep);
      var rest := Split(s[1..], sep);
      if s[0] == sep {
        assert ([""] + rest)[1..] == rest;
        assert "" + [sep] + Join(rest, sep) == s;
      } else {
        var parts := [[s[0]] + rest[0]] + rest[1..];
        assert parts[1..] == rest[1..];
        if |rest| == 1 {
          assert parts == [[s[0]] + rest[0]];
        } else {
          assert [s[0]] + (rest[0] + [sep] + Join(rest[1..], sep)) == ([s[0]] + rest[0]) + [sep] + Join(rest[1..], sep);
        }
      }
    }
  }
}
