/**
 * The frontend validators and formatters of `alma_frontend/src/utils/validation.ts`
 * (identifiers, e-mail, phone, REGCESS code). Inputs are JavaScript strings;
 * a falsy string is the empty one. The date functions of the same file are
 * in module FrontendDates.
 */
module FrontendValidation {
  import opened Common
  import opened Text
  import opened SpanishIds

  /** `s.replace(/\s/g, '').toUpperCase()` */
  function CleanUpper(s: string): string
  {
    Upper(Remove(s, IsJsSpace))
  }

  // ---------------------------------------------------------------------
  // DNI / NIE
  // ---------------------------------------------------------------------

  /**
   * isValidDNI: the cleaned input must have the DNI or the NIE shape; a NIE
   * has its prefix replaced by 0, 1 or 2; the letter must be the table entry
   * of the eight-digit number modulo 23.
   */
  function IsValidDNI(dni: string): (ok: bool)
    ensures ok ==> DniShape(CleanUpper(dni)) || NieShape(CleanUpper(dni))
  {
    if dni == "" then false
    else
      var c := CleanUpper(dni);
      if !DniShape(c) && !NieShape(c) then false
      else
        var d := if NieShape(c) then [DigitChar(NiePrefixValue(c[0]))] + c[1..] else c;
        assert AllDigits(d[..8]) by {
          if NieShape(c) {
            assert d[..8] == [DigitChar(NiePrefixValue(c[0]))] + c[1..8];
          }
        }
        DniLetters[DigitsValue(d[..8]) % 23] == d[8]
  }

  /**
   * A string passes isValidDNI exactly when, cleaned, it writes out a DNI
   * (eight digits and their control letter) or a NIE.
   */
  lemma IsValidDNIIff(dni: string)
    ensures IsValidDNI(dni) <==> IsDniString(CleanUpper(dni)) || IsNieString(CleanUpper(dni))
  {
    var c := CleanUpper(dni);
    if dni == "" {
      assert c == [];
      NotDniString(c);
      NotNieString(c);
    } else if DniShape(c) {
      DniValidIff(dni);
      DniNotNie(c);
      NotNieString(c);
    } else if NieShape(c) {
      NieValidIff(dni);
      NotDniString(c);
    } else {
      NotDniString(c);
      NotNieString(c);
    }
  }

  lemma DniValidIff(dni: string)
    requires dni != "" && DniShape(CleanUpper(dni))
    ensures IsValidDNI(dni) <==> IsDniString(CleanUpper(dni))
  {
    var c := CleanUpper(dni);
    DniNotNie(c);
    DniCheckIff(c);
  }

  lemma NieValidIff(dni: string)
    requires dni != "" && NieShape(CleanUpper(dni))
    ensures IsValidDNI(dni) <==> IsNieString(CleanUpper(dni))
  {
    var c := CleanUpper(dni);
    var k := NiePrefixValue(c[0]);
    var d := [DigitChar(k)] + c[1..];
    assert d[..8] == [DigitChar(k)] + c[1..8];
    DigitsValueConcat([DigitChar(k)], c[1..8]);
    assert DigitsValue([DigitChar(k)]) == DigitsValue([]) * 10 + k;
    NieCheckIff(c);
  }

  lemma NotNieString(c: string)
    requires !NieShape(c)
    ensures !IsNieString(c)
  {
    forall k, m | 0 <= k < 3 && 0 <= m < Pow10(7) ensures c != NieString(k, m) {
    }
  }

  lemma NotDniString(c: string)
    requires !DniShape(c)
    ensures !IsDniString(c)
  {
    forall n | 0 <= n < Pow10(8) ensures c != DniString(n) {
    }
  }

  /** Every number below 10^8 written with its control letter passes, and no other letter does. */
  lemma DniStringAccepted(n: nat, letter: char)
    requires n < Pow10(8) && IsAsciiUpper(letter)
    ensures IsValidDNI(Digits(n, 8) + [letter]) <==> letter == DniControlLetter(n)
  {
    var s := Digits(n, 8) + [letter];
    var c := CleanUpper(s);
    RemoveNothing(s, IsJsSpace);
    assert c == s;
    assert s[..8] == Digits(n, 8);
    ValueOfDigits(n, 8);
    DniNotNie(s);
  }

  /** formatDNI: a nine-character cleaned input gets a hyphen before its letter. */
  function FormatDNI(dni: string): (r: string)
    ensures var c := CleanUpper(dni);
      dni != "" && |c| == 9 ==> |r| == 10 && r[8] == '-' && r[..8] + r[9..] == c
    ensures var c := CleanUpper(dni); dni != "" && |c| != 9 ==> r == c
  {
    if dni == "" then ""
    else
      var clean := CleanUpper(dni);
      if |clean| == 9 then clean[..8] + "-" + [clean[8]] else clean
  }

  /** A formatted DNI is for display: isValidDNI refuses it, hyphen and all. */
  lemma FormattedDNIRejected(dni: string)
    requires IsValidDNI(dni)
    ensures !IsValidDNI(FormatDNI(dni))
  {
    var c := CleanUpper(dni);
    CleanHasNoSpace(dni);
    NoneMatchSlice(c, 0, 8, IsJsSpace);
    NoneMatchSlice(c, 8, 9, IsJsSpace);
    assert c[8..9] == [c[8]];
    NoneMatchJoin(c[..8], '-', [c[8]], IsJsSpace);
    RemoveNothing(FormatDNI(dni), IsJsSpace);
  }

  /** Cleaning leaves no whitespace, upper-casing included. */
  lemma CleanHasNoSpace(s: string)
    ensures NoneMatch(CleanUpper(s), IsJsSpace)
  {
  }

  /** Organisation types whose control character must be the digit. */
  const MustBeNumber: string := "ABEH"

  /** Organisation types whose control character must be the letter. */
  const MustBeLetter: string := "KPQS"

  /** Which control characters the type letter `first` accepts for control digit `d`. */
  predicate CifControlAccepted(first: char, control: char, d: nat)
    requires d < 10
  {
    if first in MustBeNumber then control == DigitChar(d)
    else if first in MustBeLetter then control == CifLetters[d]
    else control == DigitChar(d) || control == CifLetters[d]
  }

  /** What isValidCIF decides about its input. */
  function CifValid(cif: string): (r: bool)
    ensures r ==> |cif| >= |CleanUpper(cif)| == 9 && CleanUpper(cif)[0] in CifTypeLetters
  {
    cif != ""
    && var c := CleanUpper(cif);
       CifShape(c) && CifControlAccepted(c[0], c[8], CifExpectedDigit(c))
  }

  /**
   * isValidCIF: the cleaned input must match the CIF pattern; the seven
   * central digits are folded into the weighted sum, whose complement to
   * the next multiple of ten is the control digit.
   */
  method IsValidCIF(cif: string) returns (ok: bool)
    ensures ok == CifValid(cif)
    ensures ok ==> CifShape(CleanUpper(cif))
  {
    if cif == "" {
      return false;
    }
    var c := CleanUpper(cif);
    if !CifShape(c) {
      return false;
    }
    var firstChar := c[0];
    var controlChar := c[8];
    var sum := CentralSum(c[1..8]);
    var unit := sum % 10;
    var controlDigit := if unit == 0 then 0 else 10 - unit;
    var controlLetter := CifLetters[controlDigit];
    if firstChar in MustBeNumber {
      ok := controlChar == DigitChar(controlDigit);
    } else if firstChar in MustBeLetter {
      ok := controlChar == controlLetter;
    } else {
      ok := controlChar == DigitChar(controlDigit) || controlChar == controlLetter;
    }
  }

  /** The weighted sum loop of isValidCIF over the seven central digits. */
  method CentralSum(digits: string) returns (sum: nat)
    requires |digits| == 7 && AllDigits(digits)
    ensures sum == CifSum(digits)
  {
    sum := 0;
    for i := 0 to 7
      invariant sum == CifSum(digits[..i])
    {
      assert digits[..i + 1][..i] == digits[..i];
      var digit := DigitValue(digits[i]);
      if i % 2 == 0 {
        var double := digit * 2;
        sum := sum + double / 10 + double % 10;
      } else {
        sum := sum + digit;
      }
    }
    assert digits[..7] == digits;
  }

  /**
   * For every organisation type and seven central digits, the CIF ending in
   * the control digit passes unless the type demands a letter, and the CIF
   * ending in the control letter passes unless the type demands a digit.
   */
  lemma CifCompletion(t: char, m: nat)
    requires t in CifTypeLetters && m < Pow10(7)
    ensures var central := Digits(m, 7);
      var d := CifControlDigit(CifSum(central));
      (CifValid([t] + central + [DigitChar(d)]) <==> t !in MustBeLetter)
      && (CifValid([t] + central + [CifLetters[d]]) <==> t !in MustBeNumber)
  {
    var central := Digits(m, 7);
    var d := CifControlDigit(CifSum(central));
    CifCleanLiteral(t, central, DigitChar(d));
    CifCleanLiteral(t, central, CifLetters[d]);
  }

  lemma CifCleanLiteral(t: char, central: string, x: char)
    requires t in CifTypeLetters && |central| == 7 && AllDigits(central)
    requires IsDigit(x) || 'A' <= x <= 'J'
    ensures var s := [t] + central + [x];
      CleanUpper(s) == s && CifShape(s) && s[1..8] == central
  {
    var s := [t] + central + [x];
    RemoveNothing(s, IsJsSpace);
  }

  /**
   * A valid CIF ends in the control digit or the control letter of its
   * central digits, never in anything else; type K, listed among the
   * letter-only types, never passes because the pattern excludes it.
   */
  lemma CifValidControl(cif: string)
    requires CifValid(cif)
    ensures var c := CleanUpper(cif);
      c[8] == DigitChar(CifExpectedDigit(c)) || c[8] == CifLetters[CifExpectedDigit(c)]
    ensures CleanUpper(cif)[0] != 'K'
  {
  }

  /** formatCIF: a nine-character cleaned input becomes `T-NNNNNNN-C`. */
  function FormatCIF(cif: string): (r: string)
    ensures var c := CleanUpper(cif);
      cif != "" && |c| == 9 ==>
        |r| == 11 && r[1] == '-' && r[9] == '-' && [r[0]] + r[2..9] + [r[10]] == c
    ensures var c := CleanUpper(cif); cif != "" && |c| != 9 ==> r == c
  {
    if cif == "" then ""
    else
      var clean := CleanUpper(cif);
      if |clean| == 9 then
        var r := [clean[0]] + "-" + clean[1..8] + "-" + [clean[8]];
        assert r[2..9] == clean[1..8];
        assert clean == [clean[0]] + clean[1..8] + [clean[8]];
        r
      else clean
  }

  /** A formatted CIF is for display: isValidCIF refuses it. */
  lemma FormattedCIFRejected(cif: string)
    requires CifValid(cif)
    ensures !CifValid(FormatCIF(cif))
  {
    var c := CleanUpper(cif);
    CleanHasNoSpace(cif);
    NoneMatchSlice(c, 1, 8, IsJsSpace);
    NoneMatchJoin([c[0]], '-', c[1..8], IsJsSpace);
    NoneMatchJoin([c[0]] + "-" + c[1..8], '-', [c[8]], IsJsSpace);
    assert FormatCIF(cif) == [c[0]] + "-" + c[1..8] + "-" + [c[8]];
    RemoveNothing(FormatCIF(cif), IsJsSpace);
  }

  // ---------------------------------------------------------------------
  // E-mail
  // ---------------------------------------------------------------------

  /** No whitespace and no `@`: the class `[^\s@]`. */
  predicate NoSpaceOrAt(s: string)
  {
    forall i :: 0 <= i < |s| ==> !IsJsSpace(s[i]) && s[i] != '@'
  }

  /**
   * `^[^\s@]+@[^\s@]+\.[^\s@]+$`: a non-empty local part, an `@`, then a
   * domain with a dot that is neither its first nor its last character.
   */
  predicate EmailPattern(s: string)
  {
    exists k, j | 0 < k < |s| && k + 1 < j < |s| - 1 ::
      s[k] == '@' && s[j] == '.' && NoSpaceOrAt(s[..k]) && NoSpaceOrAt(s[k + 1..j])
      && NoSpaceOrAt(s[j + 1..])
  }

  /** isValidEmail: the trimmed input must match the pattern. */
  function IsValidEmail(email: string): (ok: bool)
    ensures ok ==> '@' in JsTrim(email)
  {
    email != "" && EmailPattern(JsTrim(email))
  }

  /**
   * A string matching the e-mail pattern holds exactly one `@`, preceded
   * by a non-empty local part and followed by a non-empty domain.
   */
  lemma EmailPatternParts(s: string)
    requires EmailPattern(s)
    ensures IndexOf(s, '@').Some?
    ensures var k := IndexOf(s, '@').value;
      0 < k < |s| - 1 && '@' !in s[k + 1..] && SplitSecond(s, '@') == Some(s[k + 1..])
  {
    var k, j :| 0 < k < |s| && k + 1 < j < |s| - 1 &&
      s[k] == '@' && s[j] == '.' && NoSpaceOrAt(s[..k]) && NoSpaceOrAt(s[k + 1..j])
      && NoSpaceOrAt(s[j + 1..]);
    SingleAt(s, k, j);
    SplitSecondSingle(s, '@', k);
  }

  /** The `@` at `k` is the only one: the three parts around it exclude `@`. */
  lemma SingleAt(s: string, k: nat, j: nat)
    requires k < j < |s| && s[k] == '@' && s[j] == '.'
    requires NoSpaceOrAt(s[..k]) && NoSpaceOrAt(s[k + 1..j]) && NoSpaceOrAt(s[j + 1..])
    ensures '@' !in s[..k] && '@' !in s[k + 1..]
  {
    NoSpaceOrAtHasNoAt(s[..k]);
    NoSpaceOrAtHasNoAt(s[k + 1..j]);
    NoSpaceOrAtHasNoAt(s[j + 1..]);
    assert s[k + 1..] == s[k + 1..j] + [s[j]] + s[j + 1..];
  }

  lemma NoSpaceOrAtHasNoAt(s: string)
    requires NoSpaceOrAt(s)
    ensures '@' !in s
  {
    forall i | 0 <= i < |s| ensures s[i] != '@' {
    }
  }

  /**
   * isValidEmailCorporativo: a valid e-mail whose domain, taken from the
   * untrimmed input with `split('@')[1]` and lower-cased, is not public.
   */
  function IsValidEmailCorporativo(email: string): (ok: bool)
    ensures ok ==> IsValidEmail(email)
  {
    if !IsValidEmail(email) then false
    else
      match SplitSecond(email, '@')
      case None => false
      case Some(d) =>
        var dominio := Lower(d);
        dominio != "" && dominio !in PublicDomains
  }

  /**
   * The same check with the domain taken from the trimmed e-mail that
   * isValidEmail approved.
   */
  function IsValidEmailCorporativoTrimmed(email: string): (ok: bool)
    ensures ok ==> IsValidEmail(email)
  {
    if !IsValidEmail(email) then false
    else
      match SplitSecond(JsTrim(email), '@')
      case None => false
      case Some(d) =>
        var dominio := Lower(d);
        dominio != "" && dominio !in PublicDomains
  }

  /**
   * With the trimmed domain, every valid e-mail is accepted exactly when
   * the lower-cased text after its `@` is not one of the public domains.
   */
  lemma CorporativoTrimmedIff(email: string)
    requires IsValidEmail(email)
    ensures var t := JsTrim(email);
      var k := IndexOf(t, '@').value;
      IsValidEmailCorporativoTrimmed(email) <==> Lower(t[k + 1..]) !in PublicDomains
  {
    EmailPatternParts(JsTrim(email));
  }

  /** On an input without surrounding whitespace the two readings agree. */
  lemma CorporativoAgreeWhenTrimmed(email: string)
    requires JsTrim(email) == email
    ensures IsValidEmailCorporativo(email) == IsValidEmailCorporativoTrimmed(email)
  {
  }

  /**
   * As written, whitespace after a public domain slips through: for every
   * listed domain, `local@domain` followed by a space, tab or newline is
   * accepted, because the domain compared still carries the whitespace
   * that isValidEmail trimmed away; reading the trimmed domain rejects it.
   */
  lemma CorporativoTrailingSpaceAccepted(local: string, dom: string, ws: char)
    requires |local| > 0 && NoSpaceOrAt(local)
    requires dom in PublicDomains && IsJsSpace(ws)
    ensures IsValidEmailCorporativo(local + "@" + dom + [ws])
    ensures !IsValidEmailCorporativoTrimmed(local + "@" + dom + [ws])
  {
    var e := local + "@" + dom + [ws];
    var t := local + "@" + dom;
    PublicDomainsPlain(dom);
    TrailingSpaceTrimmed(local, dom, ws);
    PlainEmailPattern(local, dom);
    assert IsValidEmail(e);
    UntrimmedDomain(local, dom, ws);
    CorporativoByDomain(e, dom + [ws]);
    TrimmedDomainPublic(local, dom, ws);
  }

  /** The domain after the `@` of `local@dom` plus a space: itself, lower-case, not listed. */
  lemma UntrimmedDomain(local: string, dom: string, ws: char)
    requires NoSpaceOrAt(local) && PlainDomain(dom) && IsJsSpace(ws)
    ensures SplitSecond(local + "@" + dom + [ws], '@') == Some(dom + [ws])
    ensures Lower(dom + [ws]) == dom + [ws] && dom + [ws] != "" && dom + [ws] !in PublicDomains
  {
    var rest := dom + [ws];
    assert '@' !in rest by {
      assert '@' !in dom;
    }
    SplitAtLocal(local, rest);
    assert local + "@" + dom + [ws] == local + "@" + rest;
    LowerPlain(dom, ws);
  }

  lemma CorporativoByDomain(email: string, d: string)
    requires IsValidEmail(email) && SplitSecond(email, '@') == Some(d)
    requires Lower(d) == d && d != "" && d !in PublicDomains
    ensures IsValidEmailCorporativo(email)
  {
  }

  lemma TrimmedDomainPublic(local: string, dom: string, ws: char)
    requires NoSpaceOrAt(local) && PlainDomain(dom) && dom in PublicDomains && IsJsSpace(ws)
    requires JsTrim(local + "@" + dom + [ws]) == local + "@" + dom
    ensures !IsValidEmailCorporativoTrimmed(local + "@" + dom + [ws])
  {
    var e := local + "@" + dom + [ws];
    PublicDomainsPlain(dom);
    SplitAtLocal(local, dom);
    LowerPlain(dom, ws);
    assert SplitSecond(JsTrim(e), '@') == Some(dom);
    assert Lower(dom) in PublicDomains;
  }

  lemma TrailingSpaceTrimmed(local: string, dom: string, ws: char)
    requires |local| > 0 && NoSpaceOrAt(local) && PlainDomain(dom) && IsJsSpace(ws)
    ensures JsTrim(local + "@" + dom + [ws]) == local + "@" + dom
  {
    var e := local + "@" + dom + [ws];
    var t := local + "@" + dom;
    assert !IsJsSpace(e[0]) by { assert e[0] == local[0]; }
    assert TrimStart(e, IsJsSpace) == e;
    var last := dom[|dom| - 1];
    assert IsDomainChar(last);
    assert !IsJsSpace(last);
    assert t[|t| - 1] == last;
    assert TrimEnd(t, IsJsSpace) == t;
    assert e[..|e| - 1] == t;
    assert TrimEnd(e, IsJsSpace) == TrimEnd(t, IsJsSpace);
  }

  lemma PlainEmailPattern(local: string, dom: string)
    requires |local| > 0 && NoSpaceOrAt(local) && PlainDomain(dom)
    ensures EmailPattern(local + "@" + dom)
  {
    var t := local + "@" + dom;
    var k := |local|;
    var j := k + 1 + |dom| - 4;
    assert t[k] == '@' && t[j] == '.';
    assert t[..k] == local;
    assert t[k + 1..j] == dom[..|dom| - 4];
    assert t[j + 1..] == dom[|dom| - 3..];
  }

  lemma SplitAtLocal(local: string, rest: string)
    requires NoSpaceOrAt(local) && '@' !in rest
    ensures SplitSecond(local + "@" + rest, '@') == Some(rest)
  {
    var s := local + "@" + rest;
    var k := |local|;
    assert s[..k] == local && s[k + 1..] == rest;
    assert '@' !in local;
    SplitAfterAt(s, k);
  }

  lemma LowerPlain(dom: string, ws: char)
    requires PlainDomain(dom) && IsJsSpace(ws)
    ensures Lower(dom) == dom && Lower(dom + [ws]) == dom + [ws]
    ensures dom + [ws] !in PublicDomains
  {
    var t := dom + [ws];
    forall i | 0 <= i < |t| ensures Lower(t)[i] == t[i] {
      if i < |dom| {
        assert t[i] == dom[i] && IsDomainChar(dom[i]);
      }
    }
    assert Lower(t) == t;
    assert Lower(dom) == dom;
    assert !PlainDomain(t) by {
      assert t[|t| - 1] == ws;
    }
    if dom + [ws] in PublicDomains {
      PublicDomainsPlain(dom + [ws]);
    }
  }

  lemma SplitAfterAt(s: string, k: nat)
    requires k < |s| && s[k] == '@' && '@' !in s[..k] && '@' !in s[k + 1..]
    ensures SplitSecond(s, '@') == Some(s[k + 1..])
  {
    IndexOfWitness(s, '@', k);
  }

  // ---------------------------------------------------------------------
  // Phone
  // ---------------------------------------------------------------------

  /** The characters `[\s\-()]` removed from phone numbers. */
  predicate IsPhoneSeparator(c: char)
  {
    IsJsSpace(c) || c == '-' || c == '(' || c == ')'
  }

  /** isValidTelefono: optional; otherwise `^(\+34)?[6789][0-9]{8}$` after cleaning. */
  function IsValidTelefono(telefono: string): (r: bool)
    ensures telefono == "" ==> r
    ensures r && telefono != "" ==> |Remove(telefono, IsPhoneSeparator)| in {9, 12}
  {
    telefono == ""
    || var c := Remove(telefono, IsPhoneSeparator);
       SpanishNumber(c) || (|c| >= 3 && c[..3] == "+34" && SpanishNumber(c[3..]))
  }

  /** A Spanish number is accepted alone and after `+34`. */
  lemma TelefonoFormasAceptadas(n: string)
    requires SpanishNumber(n)
    ensures IsValidTelefono(n) && IsValidTelefono("+34" + n)
  {
    RemoveNothing(n, IsPhoneSeparator);
    RemoveNothing("+34" + n, IsPhoneSeparator);
    assert ("+34" + n)[..3] == "+34" && ("+34" + n)[3..] == n;
  }

  /**
   * formatTelefono: groups the digits in threes, keeping a `+34` prefix apart.
   * After the prefix the groups are cut with `substring`, so a short number
   * gives short (possibly empty) groups; a nine-character number without the
   * prefix reads `XXX XXX XXX`; any other cleaned text comes back as it is.
   */
  function FormatTelefono(telefono: string): (r: string)
    ensures telefono == "" ==> r == ""
    ensures var c := Remove(telefono, IsPhoneSeparator);
      telefono != "" && |c| >= 3 && c[..3] == "+34" ==>
        var n := c[3..];
        r == "+34 " + JsSubstring(n, 0, 3) + " " + JsSubstring(n, 3, 6) + " " + JsSubstring(n, 6, |n|)
    ensures var c := Remove(telefono, IsPhoneSeparator);
      telefono != "" && |c| >= 9 && c[..3] == "+34" ==>
        |r| == |c| + 3 && r[3] == ' ' && r[7] == ' ' && r[11] == ' ' &&
        r[..3] + r[4..7] + r[8..11] + r[12..] == c
    ensures var c := Remove(telefono, IsPhoneSeparator);
      telefono != "" && |c| == 9 && c[..3] != "+34" ==>
        |r| == 11 && r[3] == ' ' && r[7] == ' ' && r[..3] + r[4..7] + r[8..] == c
    ensures var c := Remove(telefono, IsPhoneSeparator);
      telefono != "" && !(|c| >= 3 && c[..3] == "+34") && |c| != 9 ==> r == c
    ensures telefono != "" ==> Remove(r, IsPhoneSeparator) == Remove(telefono, IsPhoneSeparator)
  {
    if telefono == "" then ""
    else
      var clean := Remove(telefono, IsPhoneSeparator);
      RemoveIdempotent(telefono, IsPhoneSeparator);
      if |clean| >= 3 && clean[..3] == "+34" then
        var number := clean[3..];
        var a, b, c := JsSubstring(number, 0, 3), JsSubstring(number, 3, 6), JsSubstring(number, 6, |number|);
        GroupedPrefixed(clean, number, a, b, c);
        if |clean| >= 9 then
          PrefixedLayout(clean, a, b, c);
          "+34 " + a + " " + b + " " + c
        else
          "+34 " + a + " " + b + " " + c
      else if |clean| == 9 then
        SplitJoin3(clean, 3, 6, ' ', IsPhoneSeparator);
        PlainLayout(clean);
        clean[..3] + " " + clean[3..6] + " " + clean[6..]
      else clean
  }

  lemma PrefixedLayout(clean: string, a: string, b: string, c: string)
    requires |clean| >= 9 && clean[..3] == "+34"
    requires a == JsSubstring(clean[3..], 0, 3) && b == JsSubstring(clean[3..], 3, 6)
    requires c == JsSubstring(clean[3..], 6, |clean| - 3)
    ensures var r := "+34 " + a + " " + b + " " + c;
      |r| == |clean| + 3 && r[3] == ' ' && r[7] == ' ' && r[11] == ' ' &&
      r[..3] + r[4..7] + r[8..11] + r[12..] == clean
  {
    var r := "+34 " + a + " " + b + " " + c;
    assert a == clean[3..6] && b == clean[6..9] && c == clean[9..];
    assert r[..3] == "+34" && r[4..7] == a && r[8..11] == b && r[12..] == c;
    assert clean == clean[..3] + clean[3..6] + clean[6..9] + clean[9..];
  }

  lemma PlainLayout(clean: string)
    requires |clean| == 9
    ensures var r := clean[..3] + " " + clean[3..6] + " " + clean[6..];
      |r| == 11 && r[3] == ' ' && r[7] == ' ' && r[..3] + r[4..7] + r[8..] == clean
  {
    var r := clean[..3] + " " + clean[3..6] + " " + clean[6..];
    assert r[..3] == clean[..3] && r[4..7] == clean[3..6] && r[8..] == clean[6..];
    assert clean == clean[..3] + clean[3..6] + clean[6..];
  }

  lemma GroupedPrefixed(clean: string, number: string, a: string, b: string, c: string)
    requires NoneMatch(clean, IsPhoneSeparator) && |clean| >= 3 && clean[..3] == "+34"
    requires number == clean[3..]
    requires a == JsSubstring(number, 0, 3) && b == JsSubstring(number, 3, 6)
    requires c == JsSubstring(number, 6, |number|)
    ensures Remove("+34 " + a + " " + b + " " + c, IsPhoneSeparator) == clean
  {
    NoneMatchSlice(clean, 3, |clean|, IsPhoneSeparator);
    var i3, i6 := Min(3, |number|), Min(6, |number|);
    assert a == number[..i3] && b == number[i3..i6] && c == number[i6..];
    NoneMatchSlice(number, 0, i3, IsPhoneSeparator);
    NoneMatchSlice(number, i3, i6, IsPhoneSeparator);
    NoneMatchSlice(number, i6, |number|, IsPhoneSeparator);
    assert number[0..i3] == a && number[i6..|number|] == c;
    assert number[..i3] + number[i3..i6] + number[i6..] == number;
    RemoveGroups("+34 ", a, b, c, ' ', IsPhoneSeparator);
    SpaceRemoved();
    assert "+34 " + a + " " + b + " " + c == "+34 " + a + [' '] + b + [' '] + c;
    assert clean == "+34" + number;
  }

  /** Deleting separators from the prefix and the single space between groups. */
  lemma SpaceRemoved()
    ensures Remove(" ", IsPhoneSeparator) == [] && Remove("+34 ", IsPhoneSeparator) == "+34"
  {
    assert " "[1..] == [];
    assert "+34 "[1..] == "34 " && "34 "[1..] == "4 " && "4 "[1..] == " ";
  }

  /**
   * Formatting keeps a phone number's validity, except for a non-empty
   * input made only of separators: it is invalid, but formats to the empty
   * string, which the optional field accepts.
   */
  lemma FormatTelefonoValidity(telefono: string)
    ensures Remove(telefono, IsPhoneSeparator) != [] || telefono == ""
            ==> IsValidTelefono(FormatTelefono(telefono)) == IsValidTelefono(telefono)
    ensures telefono != "" && Remove(telefono, IsPhoneSeparator) == []
            ==> !IsValidTelefono(telefono) && IsValidTelefono(FormatTelefono(telefono))
  {
    if telefono != "" {
      var f := FormatTelefono(telefono);
      if Remove(telefono, IsPhoneSeparator) != [] {
        assert f != "";
      }
    }
  }

  // ---------------------------------------------------------------------
  // Social Security number
  // ---------------------------------------------------------------------

  /** The characters `[\s/]` removed from a NASS. */
  predicate IsNassSeparator(c: char)
  {
    IsJsSpace(c) || c == '/'
  }

  /** isValidNumeroSeguridadSocial */
  function IsValidNumeroSeguridadSocial(nass: string): (r: bool)
    ensures r ==> |nass| >= 12
  {
    nass != ""
    && var c := Remove(nass, IsNassSeparator);
       |c| == 12 && AllDigits(c) && NassCheckParsed(c)
  }

  /**
   * A string passes exactly when, without spaces and slashes, it writes out
   * a known province, an eight-digit base and their modulus-97 control.
   */
  lemma IsValidNumeroSeguridadSocialIff(nass: string)
    ensures IsValidNumeroSeguridadSocial(nass) <==>
      var c := Remove(nass, IsNassSeparator);
      exists pp, base :: NassProvince(pp) && 0 <= base < Pow10(8) && c == NassString(pp, base)
  {
    var c := Remove(nass, IsNassSeparator);
    if IsValidNumeroSeguridadSocial(nass) {
      NassCheckParsedIff(c);
      NassDigitsValidIsString(c);
    }
    if exists pp, base :: NassProvince(pp) && 0 <= base < Pow10(8) && c == NassString(pp, base) {
      var pp, base :| NassProvince(pp) && 0 <= base < Pow10(8) && c == NassString(pp, base);
      NassStringIsValid(pp, base);
      NassCheckParsedIff(c);
      assert nass != "";
    }
  }

  /** formatNumeroSeguridadSocial: twelve cleaned characters become `PP/NNNNNNNN/DD`. */
  function FormatNumeroSeguridadSocial(nass: string): (r: string)
    ensures var c := Remove(nass, IsNassSeparator);
      nass != "" && |c| == 12 ==> r == c[..2] + "/" + c[2..10] + "/" + c[10..]
    ensures nass != "" ==> Remove(r, IsNassSeparator) == Remove(nass, IsNassSeparator)
  {
    if nass == "" then ""
    else
      var clean := Remove(nass, IsNassSeparator);
      RemoveIdempotent(nass, IsNassSeparator);
      if |clean| == 12 then
        SplitJoin3(clean, 2, 10, '/', IsNassSeparator);
        clean[..2] + "/" + clean[2..10] + "/" + clean[10..]
      else clean
  }

  /** Formatting never changes whether a NASS is valid. */
  lemma FormatNumeroSeguridadSocialValidity(nass: string)
    ensures IsValidNumeroSeguridadSocial(FormatNumeroSeguridadSocial(nass))
            == IsValidNumeroSeguridadSocial(nass)
  {
    var f := FormatNumeroSeguridadSocial(nass);
    if nass != "" && f == "" {
      assert Remove(nass, IsNassSeparator) == [];
    }
  }

  // ---------------------------------------------------------------------
  // REGCESS code
  // ---------------------------------------------------------------------

  /** isValidCodigoREGCESS: 8 to 20 characters of `[A-Z0-9-]` after cleaning. */
  function IsValidCodigoREGCESS(codigo: string): (r: bool)
    ensures r ==> |codigo| >= 8
  {
    codigo != "" && RegcessShape(CleanUpper(codigo), 20)
  }

  /** A code of 8 to 20 characters of `[A-Z0-9-]` is accepted exactly as written. */
  lemma RegcessPlainAccepted(c: string)
    requires RegcessShape(c, 20)
    ensures IsValidCodigoREGCESS(c)
  {
    RemoveNothing(c, IsJsSpace);
    assert Upper(c) == c;
  }
}
