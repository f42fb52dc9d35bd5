/**
 * The few C library string routines the bundle code relies on, over Dafny
 * strings: `skip_prefix`, `strchr` and `atoi`.
 */
module CString {
  import opened Wrappers

  /**
   * `skip_prefix(s, p, &rest)` succeeds exactly when `p` is a prefix of `s`;
   * `s` is then `p` followed by the `rest` it hands back.
   */
  predicate HasPrefix(s: string, p: string)
    ensures HasPrefix(s, p) ==> |p| <= |s| && s == p + s[|p|..]
  {
    |p| <= |s| && s[..|p|] == p
  }

  /** The position of the first `c` in `s`, as `strchr` finds it (None for NULL). */
  function IndexOf(s: string, c: char): (r: Option<nat>)
    ensures r.Some? ==> r.value < |s| && s[r.value] == c && c !in s[..r.value]
    ensures r.None? <==> c !in s
  {
    if s == [] then None
    else if s[0] == c then Some(0)
    else match IndexOf(s[1..], c)
      case None => None
      case Some(k) =>
        assert s[1..][..k] == s[1..k + 1];
        Some(k + 1)
  }

  /** The characters C's `isspace` accepts in the "C" locale. */
  predicate IsSpace(c: char) {
    c == ' ' || c == '\t' || c == '\n' || c == '\r' || c == '\U{B}' || c == '\U{C}'
  }

  predicate IsDigit(c: char) {
    '0' <= c <= '9'
  }

  /** `s` with its leading white space removed. */
  function SkipSpace(s: string): (r: string)
    ensures |r| <= |s| && r == s[|s| - |r|..]
    ensures r == [] || !IsSpace(r[0])
  {
    if s != [] && IsSpace(s[0]) then SkipSpace(s[1..])
    else s
  }

  /** What `SkipSpace` drops is white space, and nothing but white space. */
  lemma {:induction false} SkipSpaceDropsOnlySpace(s: string)
    ensures forall i :: 0 <= i < |s| - |SkipSpace(s)| ==> IsSpace(s[i])
  {
    if s != [] && IsSpace(s[0]) {
      SkipSpaceDropsOnlySpace(s[1..]);
      assert forall i :: 1 <= i < |s| - |SkipSpace(s)| ==> s[i] == s[1..][i - 1];
    }
  }

  /** The value of the leading run of decimal digits of `s`, accumulated onto `acc`. */
  function DigitsValue(s: string, acc: nat): nat {
    if s == [] || !IsDigit(s[0]) then acc
    else DigitsValue(s[1..], 10 * acc + (s[0] as int - '0' as int))
  }

  /**
   * `atoi`: optional leading white space, an optional sign, then the longest
   * run of decimal digits; anything after the digits is ignored, and a string
   * without leading digits reads as 0. A nonzero reading needs a digit.
   */
  function Atoi(s: string): (r: int)
    ensures r != 0 ==> exists i :: 0 <= i < |s| && IsDigit(s[i])
  {
    var t := SkipSpace(s);
    var r := SignedDigits(t);
    assert r != 0 ==> exists i :: 0 <= i < |s| && IsDigit(s[i]) by {
      if r != 0 {
        if IsDigit(t[0]) {
          assert s[|s| - |t|] == t[0];
        } else {
          assert s[|s| - |t| + 1] == t[1];
        }
      }
    }
    r
  }

  /** What `atoi` reads once the white space is skipped: an optional sign, then digits. */
  function SignedDigits(t: string): (r: int)
    ensures r != 0 ==> t != [] && (IsDigit(t[0]) || (1 < |t| && IsDigit(t[1])))
  {
    if t != [] && (t[0] == '-' || t[0] == '+') then
      var v := DigitsValue(t[1..], 0);
      assert v != 0 ==> t[1..] != [] && t[1..][0] == t[1] && IsDigit(t[1]);
      if t[0] == '-' then -(v as int) else v
    else DigitsValue(t, 0)
  }

  /** White space in front of `s` is skipped over entirely. */
  lemma {:induction false} SkipLeadingSpace(ws: string, s: string)
    requires forall i :: 0 <= i < |ws| ==> IsSpace(ws[i])
    ensures SkipSpace(ws + s) == SkipSpace(s)
  {
    if ws != [] {
      assert (ws + s)[0] == ws[0] && IsSpace(ws[0]);
      assert (ws + s)[1..] == ws[1..] + s;
      SkipLeadingSpace(ws[1..], s);
    } else {
      assert ws + s == s;
    }
  }

  /** Leading white space does not change what `atoi` reads. */
  lemma AtoiSkipsSpace(ws: string, s: string)
    requires forall i :: 0 <= i < |ws| ==> IsSpace(ws[i])
    ensures Atoi(ws + s) == Atoi(s)
  {
    SkipLeadingSpace(ws, s);
  }

  /** A `1` followed by anything that is not a digit reads as 1, after any white space. */
  lemma AtoiOneThenText(ws: string, rest: string)
    requires forall i :: 0 <= i < |ws| ==> IsSpace(ws[i])
    requires rest == [] || !IsDigit(rest[0])
    ensures Atoi(ws + "1" + rest) == 1
  {
    var t := "1" + rest;
    assert ws + "1" + rest == ws + t;
    assert t[0] == '1';
    AtoiSkipsSpace(ws, t);
    OneThenText(rest);
  }

  /** `atoi` stops at the first non-digit after a leading `1`. */
  lemma OneThenText(rest: string)
    requires rest == [] || !IsDigit(rest[0])
    ensures Atoi("1" + rest) == 1
  {
    LeadingOne(rest);
    DigitsStop(rest, 1);
  }

  /** After a leading `1`, `atoi` goes on reading digits with 1 accumulated. */
  lemma LeadingOne(rest: string)
    ensures Atoi("1" + rest) == DigitsValue(rest, 1)
  {
    var t := "1" + rest;
    assert t[1..] == rest;
    SkipNothing(t);
  }

  /** The digit run ends at a non-digit: nothing more is added. */
  lemma DigitsStop(s: string, acc: nat)
    requires s == [] || !IsDigit(s[0])
    ensures DigitsValue(s, acc) == acc
  {
  }

  /** `"1"` reads as 1. */
  lemma AtoiOne()
    ensures Atoi("1") == 1
  {
    assert SkipSpace("1") == "1";
    assert DigitsValue("1", 0) == DigitsValue([], 1);
  }

  /** `"2"` reads as 2. */
  lemma AtoiTwo()
    ensures Atoi("2") == 2
  {
    assert SkipSpace("2") == "2";
    assert DigitsValue("2", 0) == DigitsValue([], 2);
  }

  /** Text that does not start with a digit, after white space and a sign, reads as 0. */
  lemma AtoiNonNumeric(ws: string, sign: string, rest: string)
    requires forall i :: 0 <= i < |ws| ==> IsSpace(ws[i])
    requires sign == "" || sign == "+" || sign == "-"
    requires rest == [] || (!IsDigit(rest[0]) && !IsSpace(rest[0]) && (sign == "" ==> rest[0] != '+' && rest[0] != '-'))
    ensures Atoi(ws + sign + rest) == 0
  {
    assert ws + sign + rest == ws + (sign + rest);
    AtoiSkipsSpace(ws, sign + rest);
    SignThenText(sign, rest);
  }

  /** An optional sign followed by a non-digit reads as 0. */
  lemma SignThenText(sign: string, rest: string)
    requires sign == "" || sign == "+" || sign == "-"
    requires rest == [] || (!IsDigit(rest[0]) && !IsSpace(rest[0]) && (sign == "" ==> rest[0] != '+' && rest[0] != '-'))
    ensures Atoi(sign + rest) == 0
  {
    if sign == "" {
      assert sign + rest == rest;
      UnsignedText(rest);
    } else {
      assert sign + rest == [sign[0]] + rest;
      SignedText(sign[0], rest);
    }
  }

  /** Text starting with neither a digit, a sign nor white space reads as 0. */
  lemma UnsignedText(t: string)
    requires t == [] || (!IsDigit(t[0]) && !IsSpace(t[0]) && t[0] != '+' && t[0] != '-')
    ensures Atoi(t) == 0
  {
    if t != [] {
      SkipNothing(t);
    }
  }

  /** A sign followed by a non-digit reads as 0. */
  lemma SignedText(c: char, rest: string)
    requires c == '+' || c == '-'
    requires rest == [] || !IsDigit(rest[0])
    ensures Atoi([c] + rest) == 0
  {
    var t := [c] + rest;
    assert t[1..] == rest;
    SkipNothing(t);
  }

  /** Text that does not start with white space is left as it is. */
  lemma SkipNothing(t: string)
    requires t != [] && !IsSpace(t[0])
    ensures SkipSpace(t) == t
  {
  }
}
