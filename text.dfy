/**
 * Character classes and string operations that the JavaScript and Java
 * validators rely on: regular-expression character classes, `replace`,
 * `trim`, `toUpperCase`/`toLowerCase`, `substring`, `indexOf`, `split`
 * and decimal `parseInt`.
 */
module Text {
  import opened Common

  predicate IsDigit(c: char) { '0' <= c <= '9' }
  predicate IsAsciiUpper(c: char) { 'A' <= c <= 'Z' }
  predicate IsAsciiLower(c: char) { 'a' <= c <= 'z' }
  predicate IsAsciiLetter(c: char) { IsAsciiUpper(c) || IsAsciiLower(c) }

  predicate AllDigits(s: string) { forall i :: 0 <= i < |s| ==> IsDigit(s[i]) }

  /** The value of a decimal digit character. */
  function DigitValue(c: char): (d: nat)
    requires IsDigit(c)
    ensures d < 10
  {
    c as int - '0' as int
  }

  /** The decimal digit character of a value below ten. */
  function DigitChar(d: nat): (c: char)
    requires d < 10
    ensures IsDigit(c) && DigitValue(c) == d
  {
    (d + '0' as int) as char
  }

  lemma DigitCharOfValue(c: char)
    requires IsDigit(c)
    ensures DigitChar(DigitValue(c)) == c
  {
  }

  // ---------------------------------------------------------------------
  // Whitespace classes
  // ---------------------------------------------------------------------

  /**
   * ECMAScript `\s` and the characters `String.prototype.trim` removes:
   * WhiteSpace (TAB, VT, FF, SPACE, NBSP, ZWNBSP and the Zs category) and
   * LineTerminator (LF, CR, LS, PS).
   */
  predicate IsJsSpace(c: char)
  {
    c == '\t' || c == '\n' || c == '\U{000B}' || c == '\U{000C}' || c == '\r' || c == ' '
    || c == '\U{00A0}' || c == '\U{1680}' || ('\U{2000}' <= c <= '\U{200A}')
    || c == '\U{2028}' || c == '\U{2029}' || c == '\U{202F}' || c == '\U{205F}'
    || c == '\U{3000}' || c == '\U{FEFF}'
  }

  /** `java.util.regex` `\s` without UNICODE_CHARACTER_CLASS: `[ \t\n\x0B\f\r]`. */
  predicate IsJavaSpace(c: char)
  {
    c == ' ' || c == '\t' || c == '\n' || c == '\U{000B}' || c == '\U{000C}' || c == '\r'
  }

  /** The characters `java.lang.String.trim` removes: code points up to U+0020. */
  predicate IsJavaTrimmable(c: char) { c <= ' ' }

  lemma JavaSpaceIsJsSpace(c: char)
    ensures IsJavaSpace(c) ==> IsJsSpace(c)
  {
  }

  // ---------------------------------------------------------------------
  // replace(/[...]/g, '') and trim
  // ---------------------------------------------------------------------

  /** `s` with every character satisfying `p` deleted. */
  function Remove(s: string, p: char -> bool): (r: string)
    ensures |r| <= |s|
    ensures forall i :: 0 <= i < |r| ==> !p(r[i])
    ensures forall c :: c in r ==> c in s
  {
    if s == [] then []
    else (if p(s[0]) then [] else [s[0]]) + Remove(s[1..], p)
  }

  lemma {:induction false} RemoveConcat(a: string, b: string, p: char -> bool)
    ensures Remove(a + b, p) == Remove(a, p) + Remove(b, p)
  {
    if a == [] {
      assert a + b == b;
    } else {
      assert (a + b)[1..] == a[1..] + b;
      RemoveConcat(a[1..], b, p);
    }
  }

  /** Removing characters none of which occurs changes nothing. */
  lemma {:induction false} RemoveNothing(s: string, p: char -> bool)
    requires forall i :: 0 <= i < |s| ==> !p(s[i])
    ensures Remove(s, p) == s
  {
    if s != [] {
      RemoveNothing(s[1..], p);
    }
  }

  /** Two deletion predicates that agree on the characters of `s` delete the same. */
  lemma {:induction false} RemoveSame(s: string, p: char -> bool, q: char -> bool)
    requires forall i :: 0 <= i < |s| ==> p(s[i]) == q(s[i])
    ensures Remove(s, p) == Remove(s, q)
  {
    if s != [] {
      assert forall i :: 0 <= i < |s| - 1 ==> s[1..][i] == s[i + 1];
      RemoveSame(s[1..], p, q);
    }
  }

  lemma RemoveIdempotent(s: string, p: char -> bool)
    ensures Remove(Remove(s, p), p) == Remove(s, p)
  {
    RemoveNothing(Remove(s, p), p);
  }

  /** No character of `s` satisfies `p`. */
  predicate NoneMatch(s: string, p: char -> bool)
  {
    forall i :: 0 <= i < |s| ==> !p(s[i])
  }

  lemma NoneMatchSlice(s: string, i: int, j: int, p: char -> bool)
    requires NoneMatch(s, p) && 0 <= i <= j <= |s|
    ensures NoneMatch(s[i..j], p)
  {
    forall k | 0 <= k < j - i ensures !p(s[i..j][k]) {
      assert s[i..j][k] == s[i + k];
    }
  }

  /** Joining two pieces that hold no match with a character that is none. */
  lemma NoneMatchJoin(a: string, x: char, b: string, p: char -> bool)
    requires NoneMatch(a, p) && !p(x) && NoneMatch(b, p)
    ensures NoneMatch(a + [x] + b, p)
  {
    var s := a + [x] + b;
    forall i | 0 <= i < |s| ensures !p(s[i]) {
      if i < |a| { assert s[i] == a[i]; }
      else if i > |a| { assert s[i] == b[i - |a| - 1]; }
    }
  }

  /** Deleting a separator between two pieces. */
  lemma RemoveAround(a: string, x: char, b: string, p: char -> bool)
    requires p(x)
    ensures Remove(a + [x] + b, p) == Remove(a, p) + Remove(b, p)
  {
    RemoveConcat(a + [x], b, p);
    RemoveConcat(a, [x], p);
    assert Remove([x], p) == [] by {
      assert [x][1..] == [];
    }
  }

  /** Deleting the separators after a head that is cleaned on its own. */
  lemma RemoveGroups(head: string, a: string, b: string, c: string, x: char, p: char -> bool)
    requires p(x) && NoneMatch(a, p) && NoneMatch(b, p) && NoneMatch(c, p)
    ensures Remove(head + a + [x] + b + [x] + c, p) == Remove(head, p) + (a + b + c)
  {
    assert head + a + [x] + b + [x] + c == head + (a + [x] + b + [x] + c);
    RemoveConcat(head, a + [x] + b + [x] + c, p);
    RemoveJoin3(a, b, c, x, p);
  }

  /** Cutting a string without separators in three, joining with `x`, then deleting `x`. */
  lemma SplitJoin3(s: string, i: nat, j: nat, x: char, p: char -> bool)
    requires p(x) && NoneMatch(s, p) && i <= j <= |s|
    ensures Remove(s[..i] + [x] + s[i..j] + [x] + s[j..], p) == s
  {
    NoneMatchSlice(s, 0, i, p);
    NoneMatchSlice(s, i, j, p);
    NoneMatchSlice(s, j, |s|, p);
    assert s[0..i] == s[..i] && s[j..|s|] == s[j..];
    RemoveJoin3(s[..i], s[i..j], s[j..], x, p);
    assert s[..i] + s[i..j] + s[j..] == s;
  }

  /** Deleting the two separators of `a x b x c` when the pieces hold none. */
  lemma RemoveJoin3(a: string, b: string, c: string, x: char, p: char -> bool)
    requires p(x) && NoneMatch(a, p) && NoneMatch(b, p) && NoneMatch(c, p)
    ensures Remove(a + [x] + b + [x] + c, p) == a + b + c
  {
    assert a + [x] + b + [x] + c == a + [x] + (b + [x] + c);
    RemoveAround(a, x, b + [x] + c, p);
    RemoveAround(b, x, c, p);
    RemoveNothing(a, p);
    RemoveNothing(b, p);
    RemoveNothing(c, p);
    assert a + (b + c) == a + b + c;
  }

  /** `s` without its leading characters that satisfy `p`. */
  function TrimStart(s: string, p: char -> bool): (r: string)
    ensures |r| <= |s| && r == s[|s| - |r|..]
    ensures r == [] || !p(r[0])
    ensures forall i :: 0 <= i < |s| - |r| ==> p(s[i])
  {
    if s != [] && p(s[0]) then TrimStart(s[1..], p) else s
  }

  /** `s` without its trailing characters that satisfy `p`. */
  function TrimEnd(s: string, p: char -> bool): (r: string)
    ensures |r| <= |s| && r == s[..|r|]
    ensures r == [] || !p(r[|r| - 1])
    ensures forall i :: |r| <= i < |s| ==> p(s[i])
  {
    if s != [] && p(s[|s| - 1]) then TrimEnd(s[..|s| - 1], p) else s
  }

  /**
   * `r` is the piece of `s` starting at `i`, and every character of `s`
   * outside that piece satisfies `p`.
   */
  predicate TrimmedPiece(s: string, r: string, i: int, p: char -> bool)
  {
    0 <= i && i + |r| <= |s| && r == s[i..i + |r|]
    && (forall k :: 0 <= k < i ==> p(s[k]))
    && (forall k :: i + |r| <= k < |s| ==> p(s[k]))
  }

  /**
   * Both ends trimmed: a piece of `s` that neither starts nor ends with a
   * character satisfying `p`, everything cut away around it satisfying `p`.
   */
  function Trim(s: string, p: char -> bool): (r: string)
    ensures |r| <= |s|
    ensures r == [] || (!p(r[0]) && !p(r[|r| - 1]))
    ensures exists i :: TrimmedPiece(s, r, i, p)
  {
    var t := TrimStart(s, p);
    var r := TrimEnd(t, p);
    TrimStartEndPiece(s, t, r, p);
    r
  }

  lemma TrimStartEndPiece(s: string, t: string, r: string, p: char -> bool)
    requires |t| <= |s| && t == s[|s| - |t|..] && forall k :: 0 <= k < |s| - |t| ==> p(s[k])
    requires |r| <= |t| && r == t[..|r|] && forall k :: |r| <= k < |t| ==> p(t[k])
    ensures TrimmedPiece(s, r, |s| - |t|, p)
  {
    var i := |s| - |t|;
    assert r == s[i..i + |r|] by {
      assert t == s[i..] && r == t[..|r|];
      assert s[i..][..|r|] == s[i..i + |r|];
    }
    assert forall k :: i + |r| <= k < |s| ==> p(s[k]) by {
      forall k | i + |r| <= k < |s| ensures p(s[k]) {
        assert s[k] == t[k - i];
      }
    }
  }

  /** `String.prototype.trim`. */
  function JsTrim(s: string): (r: string)
    ensures |r| <= |s|
  {
    Trim(s, IsJsSpace)
  }

  /** `java.lang.String.trim`. */
  function JavaTrim(s: string): (r: string)
    ensures |r| <= |s|
  {
    Trim(s, IsJavaTrimmable)
  }

  /** Every character of a trimmed string occurs in the original one. */
  lemma TrimKeepsCharacters(s: string, p: char -> bool)
    ensures forall c :: c in Trim(s, p) ==> c in s
  {
    var t := TrimStart(s, p);
    assert forall c :: c in t ==> c in s by {
      forall c | c in t ensures c in s {
        var i :| 0 <= i < |t| && t[i] == c;
        assert s[|s| - |t| + i] == c;
      }
    }
  }

  /** Characters cut from the front vanish under `TrimStart`. */
  lemma {:induction false} TrimStartPrefix(pre: string, t: string, p: char -> bool)
    requires forall i :: 0 <= i < |pre| ==> p(pre[i])
    ensures TrimStart(pre + t, p) == TrimStart(t, p)
  {
    if pre != [] {
      assert (pre + t)[0] == pre[0];
      assert (pre + t)[1..] == pre[1..] + t;
      TrimStartPrefix(pre[1..], t, p);
    } else {
      assert pre + t == t;
    }
  }

  /** Characters cut from the back vanish under `TrimEnd`. */
  lemma {:induction false} TrimEndSuffix(t: string, post: string, p: char -> bool)
    requires forall i :: 0 <= i < |post| ==> p(post[i])
    ensures TrimEnd(t + post, p) == TrimEnd(t, p)
  {
    if post != [] {
      var n := |post| - 1;
      assert (t + post)[|t + post| - 1] == post[n];
      assert (t + post)[..|t + post| - 1] == t + post[..n];
      TrimEndSuffix(t, post[..n], p);
    } else {
      assert t + post == t;
    }
  }

  /** Once the front of `t` is trimmed away, appending to `t` appends to the result. */
  lemma {:induction false} TrimStartAppend(t: string, x: string, p: char -> bool)
    requires TrimStart(t, p) != []
    ensures TrimStart(t + x, p) == TrimStart(t, p) + x
  {
    assert (t + x)[0] == t[0];
    if p(t[0]) {
      assert (t + x)[1..] == t[1..] + x;
      TrimStartAppend(t[1..], x, p);
    }
  }

  /** Trimming ignores any trimmable characters put around a string. */
  lemma TrimSurrounding(pre: string, t: string, post: string, p: char -> bool)
    requires forall i :: 0 <= i < |pre| ==> p(pre[i])
    requires forall i :: 0 <= i < |post| ==> p(post[i])
    ensures Trim(pre + t + post, p) == Trim(t, p)
  {
    assert pre + t + post == pre + (t + post);
    TrimStartPrefix(pre, t + post, p);
    if TrimStart(t, p) != [] {
      TrimStartAppend(t, post, p);
      TrimEndSuffix(TrimStart(t, p), post, p);
    } else {
      forall i | 0 <= i < |t + post| ensures p((t + post)[i]) {
        if i < |t| { assert (t + post)[i] == t[i]; } else { assert (t + post)[i] == post[i - |t|]; }
      }
      TrimStartPrefix(t + post, [], p);
      assert t + post + [] == t + post;
    }
  }

  /** Trimming a string whose ends are not trimmable changes nothing. */
  lemma TrimUntouched(s: string, p: char -> bool)
    requires s == [] || (!p(s[0]) && !p(s[|s| - 1]))
    ensures Trim(s, p) == s
  {
  }

  // ---------------------------------------------------------------------
  // Case mapping (ASCII)
  // ---------------------------------------------------------------------

  function ToUpper(c: char): (u: char)
    ensures IsAsciiLower(c) ==> IsAsciiUpper(u)
    ensures !IsAsciiLower(c) ==> u == c
  {
    if IsAsciiLower(c) then (c as int - 32) as char else c
  }

  function ToLower(c: char): (l: char)
    ensures IsAsciiUpper(c) ==> IsAsciiLower(l)
    ensures !IsAsciiUpper(c) ==> l == c
  {
    if IsAsciiUpper(c) then (c as int + 32) as char else c
  }

  /** `toUpperCase`, character by character. */
  function Upper(s: string): (u: string)
    ensures |u| == |s|
    ensures forall i :: 0 <= i < |s| ==> u[i] == ToUpper(s[i])
  {
    seq(|s|, i requires 0 <= i < |s| => ToUpper(s[i]))
  }

  /** `toLowerCase`, character by character. */
  function Lower(s: string): (l: string)
    ensures |l| == |s|
    ensures forall i :: 0 <= i < |s| ==> l[i] == ToLower(s[i])
  {
    seq(|s|, i requires 0 <= i < |s| => ToLower(s[i]))
  }

  /** Upper-casing twice is upper-casing once. */
  lemma UpperIdempotent(s: string)
    ensures Upper(Upper(s)) == Upper(s)
  {
    forall i | 0 <= i < |s| ensures Upper(Upper(s))[i] == Upper(s)[i] {
      var c := s[i];
      if IsAsciiLower(c) {
        assert !IsAsciiLower(ToUpper(c));
      }
    }
  }

  lemma UpperDigits(s: string)
    ensures AllDigits(Upper(s)) <==> AllDigits(s)
    ensures AllDigits(s) ==> Upper(s) == s
  {
  }

  // ---------------------------------------------------------------------
  // indexOf, substring, split
  // ---------------------------------------------------------------------

  /** Index of the first occurrence of `c`, if any. */
  function IndexOf(s: string, c: char): (r: Option<nat>)
    ensures r.None? <==> c !in s
    ensures r.Some? ==> r.value < |s| && s[r.value] == c && c !in s[..r.value]
  {
    if s == [] then None
    else if s[0] == c then Some(0)
    else match IndexOf(s[1..], c)
      case None => None
      case Some(k) =>
        assert s[..k + 1] == [s[0]] + s[1..][..k];
        Some(k + 1)
  }

  /** The first occurrence is the one with no occurrence before it. */
  lemma IndexOfWitness(s: string, c: char, k: nat)
    requires k < |s| && s[k] == c && c !in s[..k]
    ensures IndexOf(s, c) == Some(k)
  {
  }

  /** With a single `c`, the text after it is the second field. */
  lemma SplitSecondSingle(s: string, c: char, k: nat)
    requires k < |s| && s[k] == c && c !in s[..k] && c !in s[k + 1..]
    ensures IndexOf(s, c) == Some(k) && SplitSecond(s, c) == Some(s[k + 1..])
  {
    IndexOfWitness(s, c, k);
  }

  function Min(a: int, b: int): int { if a <= b then a else b }
  function Max(a: int, b: int): int { if a <= b then b else a }

  /**
   * `String.prototype.substring(start, end)`: both arguments are clamped
   * to `[0, |s|]` and swapped when `start > end`.
   */
  function JsSubstring(s: string, start: int, end: int): (r: string)
    ensures var a := Min(Max(start, 0), |s|);
            var b := Min(Max(end, 0), |s|);
            r == s[Min(a, b)..Max(a, b)]
  {
    var a := Min(Max(start, 0), |s|);
    var b := Min(Max(end, 0), |s|);
    s[Min(a, b)..Max(a, b)]
  }

  /** `s.split(c)[1]`: the text between the first and second `c`, if `c` occurs. */
  function SplitSecond(s: string, c: char): (r: Option<string>)
    ensures r.None? <==> c !in s
    ensures r.Some? ==> c !in r.value
  {
    match IndexOf(s, c)
    case None => None
    case Some(k) =>
      var rest := s[k + 1..];
      match IndexOf(rest, c)
      case None => Some(rest)
      case Some(m) => Some(rest[..m])
  }

  /** `s.split(c)[0]` when the JavaScript/Java split keeps a first element. */
  function SplitFirst(s: string, c: char): (r: string)
    ensures c !in r
    ensures |r| <= |s| && r == s[..|r|]
    ensures |r| == |s| || s[|r|] == c
  {
    match IndexOf(s, c)
    case None => s
    case Some(k) => s[..k]
  }

  /** `s.split(c)[0]` is everything before the first `c`. */
  lemma SplitFirstAt(s: string, c: char, k: int)
    requires 0 <= k < |s| && s[k] == c && c !in s[..k]
    ensures SplitFirst(s, c) == s[..k]
  {
  }

  /** `s` contains `sub` as a contiguous piece. */
  predicate Contains(s: string, sub: string)
  {
    exists i | 0 <= i <= |s| - |sub| :: OccursAt(s, sub, i)
  }

  /** `sub` occurs in `s` starting at index `i`. */
  predicate OccursAt(s: string, sub: string, i: int)
  {
    0 <= i && i + |sub| <= |s| && s[i..i + |sub|] == sub
  }

  // ---------------------------------------------------------------------
  // Decimal numerals (parseInt / Integer.parseInt / Long.parseLong)
  // ---------------------------------------------------------------------

  function Pow10(n: nat): (r: nat)
    ensures r >= 1
  {
    if n == 0 then 1 else 10 * Pow10(n - 1)
  }

  /** The value of a string of decimal digits (leading zeros allowed). */
  function DigitsValue(s: string): (n: nat)
    requires AllDigits(s)
    ensures n < Pow10(|s|)
  {
    if s == [] then 0
    else
      var m := DigitsValue(s[..|s| - 1]);
      assert m * 10 + DigitValue(s[|s| - 1]) < Pow10(|s|) by {
        assert m <= Pow10(|s| - 1) - 1;
        assert m * 10 <= (Pow10(|s| - 1) - 1) * 10;
      }
      m * 10 + DigitValue(s[|s| - 1])
  }

  /** The `w` least significant decimal digits of `n`, zero-padded. */
  function Digits(n: nat, w: nat): (s: string)
    ensures |s| == w && AllDigits(s)
  {
    if w == 0 then [] else Digits(n / 10, w - 1) + [DigitChar(n % 10)]
  }

  /** Writing a number that fits and reading it back gives the number. */
  lemma {:induction false} ValueOfDigits(n: nat, w: nat)
    requires n < Pow10(w)
    ensures DigitsValue(Digits(n, w)) == n
  {
    if w > 0 {
      var s := Digits(n, w);
      assert s[..w - 1] == Digits(n / 10, w - 1);
      ValueOfDigits(n / 10, w - 1);
    }
  }

  /** Reading a numeral and writing it back at its own width gives the numeral. */
  lemma {:induction false} DigitsOfValue(s: string)
    requires AllDigits(s)
    ensures Digits(DigitsValue(s), |s|) == s
  {
    if s != [] {
      var init := s[..|s| - 1];
      var n := DigitsValue(s);
      assert n / 10 == DigitsValue(init);
      assert n % 10 == DigitValue(s[|s| - 1]);
      DigitsOfValue(init);
      DigitCharOfValue(s[|s| - 1]);
      assert s == init + [s[|s| - 1]];
    }
  }

  /** `n.toString()`: the decimal numeral of `n` without leading zeros. */
  function ToDecimal(n: nat): (s: string)
    ensures 1 <= |s| && AllDigits(s)
    ensures DigitsValue(s) == n
  {
    if n < 10 then
      assert DigitsValue([DigitChar(n)]) == DigitsValue([]) * 10 + n;
      [DigitChar(n)]
    else
      var init := ToDecimal(n / 10);
      var s := init + [DigitChar(n % 10)];
      assert s[..|s| - 1] == init;
      s
  }

  /** The value of a concatenation of numerals. */
  lemma {:induction false} DigitsValueConcat(a: string, b: string)
    requires AllDigits(a) && AllDigits(b)
    ensures AllDigits(a + b)
    ensures DigitsValue(a + b) == DigitsValue(a) * Pow10(|b|) + DigitsValue(b)
  {
    if b == [] {
      assert a + b == a;
    } else {
      var b' := b[..|b| - 1];
      var ab := a + b;
      assert ab[..|ab| - 1] == a + b';
      assert ab[|ab| - 1] == b[|b| - 1];
      DigitsValueConcat(a, b');
      var d := DigitValue(b[|b| - 1]);
      var x, y, p := DigitsValue(a), DigitsValue(b'), Pow10(|b'|);
      ShiftDecimal(DigitsValue(ab), x, y, p, Pow10(|b|), d);
    }
  }

  /** One more digit after `x * p + y`, written as `x` shifted one place further. */
  lemma ShiftDecimal(v: int, x: int, y: int, p: int, q: int, d: int)
    requires v == (x * p + y) * 10 + d && q == 10 * p
    ensures v == x * q + (y * 10 + d)
  {
  }
}
