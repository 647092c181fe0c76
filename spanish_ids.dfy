/**
 * Definitions of the Spanish identifiers shared by the frontend and the
 * backend validators: the shapes their regular expressions accept, the
 * DNI/NIE modulus-23 letter, the CIF checksum, the Social Security number
 * (NASS) modulus-97 control and the public e-mail domain deny-list.
 */
module SpanishIds {
  import opened Text

  // ---------------------------------------------------------------------
  // DNI and NIE
  // ---------------------------------------------------------------------

  const DniLetters: string := "TRWAGMYFPDXBNJZSQVHLCKE"

  /** The control letter of a DNI number: its remainder modulo 23 indexes the table. */
  function DniControlLetter(n: nat): (c: char)
    ensures IsAsciiUpper(c)
  {
    DniLetters[n % 23]
  }

  /** `^[0-9]{8}[A-Z]$` */
  predicate DniShape(s: string)
  {
    |s| == 9 && AllDigits(s[..8]) && IsAsciiUpper(s[8])
  }

  /** `^[XYZ][0-9]{7}[A-Z]$` */
  predicate NieShape(s: string)
  {
    |s| == 9 && s[0] in "XYZ" && AllDigits(s[1..8]) && IsAsciiUpper(s[8])
  }

  /** X, Y and Z stand for the leading digits 0, 1 and 2. */
  function NiePrefixValue(c: char): (k: nat)
    requires c in "XYZ"
    ensures k < 3 && "XYZ"[k] == c
  {
    if c == 'X' then 0 else if c == 'Y' then 1 else 2
  }

  /** The eight-digit number a NIE stands for. */
  function NieNumber(k: nat, m: nat): nat
  {
    k * Pow10(7) + m
  }

  /** The DNI of number `n` (below 10^8): eight digits and the control letter. */
  function DniString(n: nat): (s: string)
    ensures DniShape(s)
  {
    Digits(n, 8) + [DniControlLetter(n)]
  }

  /** The NIE with prefix `"XYZ"[k]` and seven digits `m`. */
  function NieString(k: nat, m: nat): (s: string)
    requires k < 3
    ensures NieShape(s)
  {
    ["XYZ"[k]] + Digits(m, 7) + [DniControlLetter(NieNumber(k, m))]
  }

  /** The string writes out a DNI: eight digits of some number and its control letter. */
  ghost predicate IsDniString(c: string)
  {
    exists n :: 0 <= n < Pow10(8) && c == DniString(n)
  }

  /** The string writes out a NIE: a prefix, seven digits and the control letter. */
  ghost predicate IsNieString(c: string)
  {
    exists k, m :: 0 <= k < 3 && 0 <= m < Pow10(7) && c == NieString(k, m)
  }

  /** On a DNI-shaped string the modulus-23 check holds exactly for written-out DNIs. */
  lemma DniCheckIff(c: string)
    requires DniShape(c)
    ensures DniControlLetter(DigitsValue(c[..8])) == c[8] <==> IsDniString(c)
  {
    var n := DigitsValue(c[..8]);
    DigitsOfValue(c[..8]);
    assert c == c[..8] + [c[8]];
    if DniControlLetter(n) == c[8] {
      assert c == DniString(n);
    }
    if IsDniString(c) {
      var n' :| 0 <= n' < Pow10(8) && c == DniString(n');
      assert c[..8] == Digits(n', 8);
      ValueOfDigits(n', 8);
    }
  }

  /** On a NIE-shaped string the modulus-23 check holds exactly for written-out NIEs. */
  lemma NieCheckIff(c: string)
    requires NieShape(c)
    ensures DniControlLetter(NieNumber(NiePrefixValue(c[0]), DigitsValue(c[1..8]))) == c[8]
            <==> IsNieString(c)
  {
    var k, m := NiePrefixValue(c[0]), DigitsValue(c[1..8]);
    DigitsOfValue(c[1..8]);
    assert c == [c[0]] + c[1..8] + [c[8]];
    if DniControlLetter(NieNumber(k, m)) == c[8] {
      assert c == NieString(k, m);
    }
    if IsNieString(c) {
      var k', m' :| 0 <= k' < 3 && 0 <= m' < Pow10(7) && c == NieString(k', m');
      assert c[1..8] == Digits(m', 7);
      ValueOfDigits(m', 7);
      assert c[0] == "XYZ"[k'];
    }
  }

  /** A DNI never looks like a NIE: the first character is a digit, not X, Y or Z. */
  lemma DniNotNie(c: string)
    requires DniShape(c)
    ensures !NieShape(c)
  {
    assert IsDigit(c[..8][0]);
  }

  // ---------------------------------------------------------------------
  // CIF
  // ---------------------------------------------------------------------

  const CifLetters: string := "JABCDEFGHI"

  /** First letters the CIF regular expression accepts. */
  const CifTypeLetters: string := "ABCDEFGHJNPQRSUVW"

  /** `^[ABCDEFGHJNPQRSUVW][0-9]{7}[0-9A-J]$` */
  predicate CifShape(s: string)
  {
    |s| == 9 && s[0] in CifTypeLetters && AllDigits(s[1..8])
    && (IsDigit(s[8]) || 'A' <= s[8] <= 'J')
  }

  /**
   * The contribution of the digit `d` at 0-based position `i` of the seven
   * central digits: even positions add the digit sum of `2 * d`, odd
   * positions add `d`.
   */
  function CifTerm(i: nat, d: nat): nat
  {
    if i % 2 == 0 then (2 * d) / 10 + (2 * d) % 10 else d
  }

  /** The weighted sum of a run of central digits. */
  function CifSum(s: string): nat
    requires AllDigits(s)
  {
    if s == [] then 0 else CifSum(s[..|s| - 1]) + CifTerm(|s| - 1, DigitValue(s[|s| - 1]))
  }

  /** The control digit is the one that brings the sum to a multiple of ten. */
  function CifControlDigit(sum: nat): (d: nat)
    ensures d < 10
    ensures (sum + d) % 10 == 0
  {
    var unit := sum % 10;
    if unit == 0 then 0 else 10 - unit
  }

  /** Exactly one digit completes a sum to a multiple of ten. */
  lemma CifControlDigitUnique(sum: nat, d: nat)
    requires d < 10 && (sum + d) % 10 == 0
    ensures d == CifControlDigit(sum)
  {
  }

  /** The control digit of the central digits of a shaped CIF. */
  function CifExpectedDigit(c: string): (d: nat)
    requires CifShape(c)
    ensures d < 10
  {
    CifControlDigit(CifSum(c[1..8]))
  }

  // ---------------------------------------------------------------------
  // Social Security number (NASS)
  // ---------------------------------------------------------------------

  /** Province codes 01-52 and 66 (foreign nationals). */
  predicate NassProvince(pp: int)
  {
    (1 <= pp <= 52) || pp == 66
  }

  /** The two control digits of province `pp` and base number `base`. */
  function NassControl(pp: nat, base: nat): (dd: nat)
    ensures dd < 97
  {
    (pp * Pow10(8) + base) % 97
  }

  /** The twelve-digit NASS of a province and an eight-digit base number. */
  function NassString(pp: nat, base: nat): (s: string)
    ensures |s| == 12 && AllDigits(s)
  {
    Digits(pp, 2) + Digits(base, 8) + Digits(NassControl(pp, base), 2)
  }

  /**
   * The NASS rule on a cleaned twelve-digit string: a known province and
   * control digits equal to the modulus-97 remainder of the first ten.
   */
  predicate NassDigitsValid(c: string)
    requires |c| == 12 && AllDigits(c)
  {
    NassProvince(DigitsValue(c[..2]))
    && DigitsValue(c[10..12]) == NassControl(DigitsValue(c[..2]), DigitsValue(c[2..10]))
  }

  /** A cleaned string that passes the NASS rule writes out its own province and base. */
  lemma NassDigitsValidIsString(c: string)
    requires |c| == 12 && AllDigits(c) && NassDigitsValid(c)
    ensures NassProvince(DigitsValue(c[..2])) && DigitsValue(c[2..10]) < Pow10(8)
    ensures c == NassString(DigitsValue(c[..2]), DigitsValue(c[2..10]))
  {
    var p, b, k := c[..2], c[2..10], c[10..12];
    var pp, base := DigitsValue(p), DigitsValue(b);
    DigitsOfValue(p);
    DigitsOfValue(b);
    DigitsOfValue(k);
    assert Digits(NassControl(pp, base), 2) == k by {
      assert NassControl(pp, base) == DigitsValue(k);
    }
    assert c == p + b + k;
    assert NassString(pp, base) == Digits(pp, 2) + Digits(base, 8) + Digits(NassControl(pp, base), 2);
  }

  /** Every province and eight-digit base number give a string that passes the NASS rule. */
  lemma NassStringIsValid(pp: nat, base: nat)
    requires NassProvince(pp) && base < Pow10(8)
    ensures NassDigitsValid(NassString(pp, base))
    ensures DigitsValue(NassString(pp, base)[..2]) == pp
    ensures DigitsValue(NassString(pp, base)[2..10]) == base
  {
    assert Pow10(2) == 100;
    NassFields(pp, base, NassControl(pp, base));
  }

  /** Reading back the three fields of a twelve-digit string. */
  lemma NassFields(x: nat, y: nat, z: nat)
    requires x < Pow10(2) && y < Pow10(8) && z < Pow10(2)
    ensures var c := Digits(x, 2) + Digits(y, 8) + Digits(z, 2);
      DigitsValue(c[..2]) == x && DigitsValue(c[2..10]) == y && DigitsValue(c[10..12]) == z
  {
    var a, b, d := Digits(x, 2), Digits(y, 8), Digits(z, 2);
    var c := a + b + d;
    ThreeParts(a, b, d);
    assert c[..2] == a && c[2..10] == b && c[10..12] == d;
    ValueOfDigits(x, 2);
    ValueOfDigits(y, 8);
    ValueOfDigits(z, 2);
  }

  /** The three parts of a concatenation, sliced back out. */
  lemma ThreeParts(a: string, b: string, d: string)
    ensures (a + b + d)[..|a|] == a && (a + b + d)[|a|..|a| + |b|] == b
    ensures (a + b + d)[|a| + |b|..] == d
  {
  }

  /**
   * The NASS check as both implementations compute it: the province is
   * parsed, printed back without its leading zero, concatenated with the
   * base digits and parsed again before taking the remainder modulo 97.
   */
  predicate NassCheckParsed(c: string)
    requires |c| == 12 && AllDigits(c)
  {
    var pp := DigitsValue(c[..2]);
    NassProvince(pp)
    && DigitsValue(ToDecimal(pp) + c[2..10]) % 97 == DigitsValue(c[10..12])
  }

  /** Dropping the province's leading zero does not change the number checked. */
  lemma NassCheckParsedIff(c: string)
    requires |c| == 12 && AllDigits(c)
    ensures NassCheckParsed(c) <==> NassDigitsValid(c)
  {
    var pp := DigitsValue(c[..2]);
    DigitsValueConcat(ToDecimal(pp), c[2..10]);
  }

  // ---------------------------------------------------------------------
  // Phone
  // ---------------------------------------------------------------------

  /** `[6789][0-9]{8}`: a nine-digit Spanish mobile or landline number. */
  predicate SpanishNumber(s: string)
  {
    |s| == 9 && s[0] in "6789" && AllDigits(s)
  }

  // ---------------------------------------------------------------------
  // REGCESS code
  // ---------------------------------------------------------------------

  predicate IsRegcessChar(c: char) { IsAsciiUpper(c) || IsDigit(c) || c == '-' }

  /** `^[A-Z0-9-]{8,max}$` */
  predicate RegcessShape(c: string, max: nat)
  {
    8 <= |c| <= max && forall i :: 0 <= i < |c| ==> IsRegcessChar(c[i])
  }

  // ---------------------------------------------------------------------
  // Corporate e-mail
  // ---------------------------------------------------------------------

  /** The seventeen public or disposable e-mail domains both validators reject. */
  const PublicDomains: seq<string> := [
    "gmail.com", "hotmail.com", "outlook.com", "yahoo.com", "live.com",
    "icloud.com", "protonmail.com", "mail.com", "gmx.com", "aol.com",
    "yandex.com", "zoho.com", "tutanota.com", "temp-mail.org",
    "guerrillamail.com", "10minutemail.com", "mailinator.com"
  ]

  /** Characters of the listed domains: lower-case letters, digits, dots and hyphens. */
  predicate IsDomainChar(c: char)
  {
    ('a' <= c <= 'z') || ('0' <= c <= '9') || c == '.' || c == '-'
  }

  /** A lower-case domain ending in a dot and a three-letter suffix. */
  predicate PlainDomain(d: string)
  {
    |d| >= 5 && d[|d| - 4] == '.' && forall i :: 0 <= i < |d| ==> IsDomainChar(d[i])
  }

  lemma PublicDomainsPlain(d: string)
    requires d in PublicDomains
    ensures PlainDomain(d)
  {
    if d in PublicDomains[..6] {
      FirstDomainsPlain(d);
    } else if d in PublicDomains[6..12] {
      MiddleDomainsPlain(d);
    } else {
      assert d in PublicDomains[12..];
      LastDomainsPlain(d);
    }
  }

  lemma FirstDomainsPlain(d: string)
    requires d in PublicDomains[..6]
    ensures PlainDomain(d)
  {
  }

  lemma MiddleDomainsPlain(d: string)
    requires d in PublicDomains[6..12]
    ensures PlainDomain(d)
  {
  }

  lemma LastDomainsPlain(d: string)
    requires d in PublicDomains[12..]
    ensures PlainDomain(d)
  {
  }
}
