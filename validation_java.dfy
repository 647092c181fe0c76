/**
 * The backend validators of `ValidationUtils.java`. Every `String`
 * parameter may be `null`, modelled as `None`; `java.util.regex` `\s` is
 * the six ASCII whitespace characters.
 */
module BackendValidation {
  import opened Common
  import opened Text
  import opened SpanishIds

  /** Upper-casing keeps a slice of digits as it is. */
  lemma UpperSliceDigits(s: string, i: int, j: int)
    requires 0 <= i <= j <= |s| && AllDigits(Upper(s)[i..j])
    ensures AllDigits(s[i..j]) && s[i..j] == Upper(s)[i..j]
  {
    assert Upper(s)[i..j] == Upper(s[i..j]);
    UpperDigits(s[i..j]);
  }

  // ---------------------------------------------------------------------
  // DNI / NIE
  // ---------------------------------------------------------------------

  /**
   * isValidDNI: the upper-cased input must match `^[0-9]{8}[A-Z]$`; the
   * number is parsed from the first eight characters and the upper-cased
   * ninth must be its modulus-23 letter.
   */
  function IsValidDNI(dni: Option<string>): (r: bool)
    ensures r ==> dni.Some? && |dni.value| == 9 && AllDigits(dni.value[..8])
    ensures r ==> ToUpper(dni.value[8]) == DniLetters[DigitsValue(dni.value[..8]) % 23]
  {
    dni.Some?
    && var u := Upper(dni.value);
       DniShape(u)
       && (UpperSliceDigits(dni.value, 0, 8);
           DniLetters[DigitsValue(dni.value[..8]) % 23] == u[8])
  }

  /**
   * isValidNIE: the upper-cased input must match `^[XYZ][0-9]{7}[A-Z]$`; the
   * prefix becomes 0, 1 or 2 before the same modulus-23 check.
   */
  function IsValidNIE(nie: Option<string>): (r: bool)
    ensures r ==> nie.Some? && |nie.value| == 9 && ToUpper(nie.value[0]) in "XYZ"
  {
    nie.Some?
    && var u := Upper(nie.value);
       NieShape(u)
       && var numeric := [DigitChar(NiePrefixValue(u[0]))] + u[1..8];
          assert AllDigits(numeric);
          DniLetters[DigitsValue(numeric) % 23] == u[8]
  }

  /** isValidDNIorNIE */
  function IsValidDNIorNIE(documento: Option<string>): (r: bool)
    ensures r ==> documento.Some? && |documento.value| == 9
  {
    documento.Some? && (IsValidDNI(documento) || IsValidNIE(documento))
  }

  lemma IsValidDNIIff(s: string)
    ensures IsValidDNI(Some(s)) <==> IsDniString(Upper(s))
  {
    var u := Upper(s);
    if DniShape(u) {
      UpperSliceDigits(s, 0, 8);
      DniCheckIff(u);
    } else {
      forall n | 0 <= n < Pow10(8) ensures u != DniString(n) {
      }
    }
  }

  lemma IsValidNIEIff(s: string)
    ensures IsValidNIE(Some(s)) <==> IsNieString(Upper(s))
  {
    var u := Upper(s);
    if NieShape(u) {
      var k := NiePrefixValue(u[0]);
      DigitsValueConcat([DigitChar(k)], u[1..8]);
      assert DigitsValue([DigitChar(k)]) == DigitsValue([]) * 10 + k;
      NieCheckIff(u);
    } else {
      forall k, m | 0 <= k < 3 && 0 <= m < Pow10(7) ensures u != NieString(k, m) {
      }
    }
  }

  /**
   * isValidDNIorNIE accepts exactly the inputs that, upper-cased, write out
   * a DNI or a NIE with its control letter; `null` is refused.
   */
  lemma IsValidDNIorNIEIff(documento: Option<string>)
    ensures IsValidDNIorNIE(documento) <==>
      documento.Some? && (IsDniString(Upper(documento.value)) || IsNieString(Upper(documento.value)))
  {
    if documento.Some? {
      IsValidDNIIff(documento.value);
      IsValidNIEIff(documento.value);
    }
  }

  // ---------------------------------------------------------------------
  // CIF
  // ---------------------------------------------------------------------

  /** Organisation types whose control character must be the letter. */
  const LetterOnlyTypes: string := "NPQRSW"

  /** Organisation types whose control character must be the digit. */
  const DigitOnlyTypes: string := "ABEH"

  /**
   * `Character.getNumericValue` on ASCII: digits give their value, letters
   * of either case give 10 to 35, anything else -1.
   */
  function NumericValue(c: char): (v: int)
    ensures IsDigit(c) ==> v == DigitValue(c)
    ensures 'A' <= c <= 'J' ==> 10 <= v
  {
    if IsDigit(c) then DigitValue(c)
    else if IsAsciiUpper(c) then c as int - 'A' as int + 10
    else if IsAsciiLower(c) then c as int - 'a' as int + 10
    else -1
  }

  /** Which control characters the type letter `first` accepts for control digit `d`. */
  predicate JavaCifControlAccepted(first: char, control: char, d: nat)
    requires d < 10
  {
    if first in LetterOnlyTypes then control == CifLetters[d]
    else if first in DigitOnlyTypes then NumericValue(control) == d
    else NumericValue(control) == d || control == CifLetters[d]
  }

  /** What isValidCIF decides about its input. */
  function CifValid(cif: Option<string>): (r: bool)
    ensures r ==> cif.Some? && |cif.value| == 9 && ToUpper(cif.value[0]) in CifTypeLetters
  {
    cif.Some?
    && var u := Upper(cif.value);
       CifShape(u) && JavaCifControlAccepted(u[0], u[8], CifExpectedDigit(u))
  }

  /** Sum of the digits at odd 0-based positions below `k`. */
  function OddPositionSum(s: string, k: nat): nat
    requires AllDigits(s) && k <= |s|
  {
    if k == 0 then 0
    else OddPositionSum(s, k - 1) + (if (k - 1) % 2 == 1 then DigitValue(s[k - 1]) else 0)
  }

  /** Sum of the digit sums of the doubled digits at even 0-based positions below `k`. */
  function EvenPositionSum(s: string, k: nat): nat
    requires AllDigits(s) && k <= |s|
  {
    if k == 0 then 0
    else EvenPositionSum(s, k - 1) + (if (k - 1) % 2 == 0 then CifTerm(k - 1, DigitValue(s[k - 1])) else 0)
  }

  /** Summing odd and even positions separately gives the weighted sum. */
  lemma {:induction false} PositionSumsSplit(s: string, k: nat)
    requires AllDigits(s) && k <= |s|
    ensures CifSum(s[..k]) == OddPositionSum(s, k) + EvenPositionSum(s, k)
  {
    if k > 0 {
      assert s[..k][..k - 1] == s[..k - 1];
      PositionSumsSplit(s, k - 1);
    }
  }

  /**
   * isValidCIF: the upper-cased input must match the CIF pattern; one loop
   * adds the digits at odd positions, another the digit sums of the doubled
   * digits at even positions, and the control character is compared by
   * organisation type.
   */
  method IsValidCIF(cif: Option<string>) returns (ok: bool)
    ensures ok == CifValid(cif)
  {
    if cif.None? || !CifShape(Upper(cif.value)) {
      return false;
    }
    var u := Upper(cif.value);
    var tipoOrganizacion := u[0];
    var digitosCentrales := u[1..8];
    var digitoControl := u[8];

    var sumaPares := SumaPares(digitosCentrales);
    var sumaImpares := SumaImpares(digitosCentrales);
    var sumaTotal := sumaPares + sumaImpares;
    PositionSumsSplit(digitosCentrales, 7);
    assert digitosCentrales[..7] == digitosCentrales;
    var unidad := sumaTotal % 10;
    var digitoControlCalculado := if unidad == 0 then 0 else 10 - unidad;

    if tipoOrganizacion in LetterOnlyTypes {
      ok := digitoControl == CifLetters[digitoControlCalculado];
    } else if tipoOrganizacion in DigitOnlyTypes {
      ok := NumericValue(digitoControl) == digitoControlCalculado;
    } else {
      ok := NumericValue(digitoControl) == digitoControlCalculado
        || digitoControl == CifLetters[digitoControlCalculado];
    }
  }

  /** The first loop of isValidCIF: the digits at odd 0-based positions. */
  method SumaPares(digitosCentrales: string) returns (sumaPares: nat)
    requires |digitosCentrales| == 7 && AllDigits(digitosCentrales)
    ensures sumaPares == OddPositionSum(digitosCentrales, 7)
  {
    sumaPares := 0;
    var i := 1;
    while i < 7
      invariant 1 <= i <= 7 && i % 2 == 1
      invariant sumaPares == OddPositionSum(digitosCentrales, i)
    {
      sumaPares := sumaPares + DigitValue(digitosCentrales[i]);
      i := i + 2;
    }
  }

  /** The second loop of isValidCIF: the digit sums of the doubled even-position digits. */
  method SumaImpares(digitosCentrales: string) returns (sumaImpares: nat)
    requires |digitosCentrales| == 7 && AllDigits(digitosCentrales)
    ensures sumaImpares == EvenPositionSum(digitosCentrales, 7)
  {
    sumaImpares := 0;
    var i := 0;
    while i < 7
      invariant 0 <= i <= 8 && i % 2 == 0
      invariant sumaImpares == EvenPositionSum(digitosCentrales, Min(i, 7))
    {
      var digito := DigitValue(digitosCentrales[i]);
      var multiplicado := digito * 2;
      sumaImpares := sumaImpares + multiplicado / 10 + multiplicado % 10;
      i := i + 2;
    }
  }

  /**
   * On a CIF-shaped string, comparing numeric values is comparing with the
   * control digit character: the letters A to J have values 10 to 19.
   */
  lemma NumericControlIsDigit(control: char, d: nat)
    requires (IsDigit(control) || 'A' <= control <= 'J') && d < 10
    ensures NumericValue(control) == d <==> control == DigitChar(d)
  {
    if IsDigit(control) && NumericValue(control) == d {
      DigitCharOfValue(control);
    }
  }

  /**
   * For every organisation type and seven central digits, the CIF ending in
   * the control digit passes unless the type is letter-only, and the CIF
   * ending in the control letter passes unless the type is digit-only.
   */
  lemma CifCompletion(t: char, m: nat)
    requires t in CifTypeLetters && m < Pow10(7)
    ensures var central := Digits(m, 7);
      var d := CifControlDigit(CifSum(central));
      (CifValid(Some([t] + central + [DigitChar(d)])) <==> t !in LetterOnlyTypes)
      && (CifValid(Some([t] + central + [CifLetters[d]])) <==> t !in DigitOnlyTypes)
  {
    var central := Digits(m, 7);
    var d := CifControlDigit(CifSum(central));
    CifWithControl(t, central, DigitChar(d));
    CifWithControl(t, central, CifLetters[d]);
    NumericControlIsDigit(DigitChar(d), d);
    NumericControlIsDigit(CifLetters[d], d);
  }

  /** A type letter, seven digits and a digit or A to J form an upper-case CIF-shaped string. */
  lemma CifWithControl(t: char, central: string, control: char)
    requires t in CifTypeLetters && |central| == 7 && AllDigits(central)
    requires IsDigit(control) || 'A' <= control <= 'J'
    ensures var s := [t] + central + [control];
      Upper(s) == s && CifShape(s) && s[0] == t && s[1..8] == central && s[8] == control
  {
    var s := [t] + central + [control];
    assert s[1..8] == central;
    forall i | 0 <= i < |s| ensures ToUpper(s[i]) == s[i] {
      if 1 <= i < 8 { assert IsDigit(central[i - 1]); }
    }
  }

  // ---------------------------------------------------------------------
  // REGCESS code
  // ---------------------------------------------------------------------

  /** isValidCodigoREGCESS: 8 to 50 characters of `[A-Z0-9-]` after cleaning. */
  function IsValidCodigoREGCESS(codigo: Option<string>): (r: bool)
    ensures r ==> codigo.Some? && |codigo.value| >= 8
  {
    codigo.Some? && RegcessShape(Upper(Remove(codigo.value, IsJavaSpace)), 50)
  }

  /** A code of 8 to 50 characters of `[A-Z0-9-]` is accepted exactly as written. */
  lemma RegcessPlainAccepted(c: string)
    requires RegcessShape(c, 50)
    ensures IsValidCodigoREGCESS(Some(c))
  {
    RemoveNothing(c, IsJavaSpace);
    assert Upper(c) == c;
  }

  // ---------------------------------------------------------------------
  // E-mail
  // ---------------------------------------------------------------------

  /** `[A-Za-z0-9+_.-]` */
  predicate IsLocalChar(c: char)
  {
    IsAsciiLetter(c) || IsDigit(c) || c == '+' || c == '_' || c == '.' || c == '-'
  }

  /** `[A-Za-z0-9.-]` */
  predicate IsHostChar(c: char)
  {
    IsAsciiLetter(c) || IsDigit(c) || c == '.' || c == '-'
  }

  /**
   * `^[A-Za-z0-9+_.-]+@[A-Za-z0-9.-]+\.[A-Za-z]{2,}$`: a local part, an `@`,
   * a host, a dot and a top-level domain of at least two letters.
   */
  predicate EmailPattern(s: string)
  {
    exists k, j | 0 < k < |s| && k + 1 < j <= |s| - 3 ::
      s[k] == '@' && s[j] == '.'
      && (forall i | 0 <= i < k :: IsLocalChar(s[i]))
      && (forall i | k < i < j :: IsHostChar(s[i]))
      && (forall i | j < i < |s| :: IsAsciiLetter(s[i]))
  }

  /** isValidEmail */
  function IsValidEmail(email: Option<string>): (r: bool)
    ensures r ==> email.Some? && '@' in email.value && |email.value| >= 6
  {
    email.Some? && EmailPattern(email.value)
  }

  /** `email.substring(email.indexOf("@") + 1).toLowerCase()` */
  function Domain(email: string): (d: string)
    ensures |d| <= |email|
  {
    match IndexOf(email, '@')
    case None => Lower(email)
    case Some(k) => Lower(email[k + 1..])
  }

  /**
   * isValidEmailCorporativo: a valid e-mail whose lower-cased domain is
   * compared, one by one, against the public domains.
   */
  method IsValidEmailCorporativo(email: Option<string>) returns (ok: bool)
    ensures ok <==> IsValidEmail(email) && Domain(email.value) !in PublicDomains
  {
    if !IsValidEmail(email) {
      return false;
    }
    ok := NoListado(Domain(email.value), PublicDomains);
  }

  /** The loop of isValidEmailCorporativo: compare the domain with each entry. */
  method NoListado(dominio: string, dominios: seq<string>) returns (ok: bool)
    ensures ok <==> dominio !in dominios
  {
    for n := 0 to |dominios|
      invariant forall m :: 0 <= m < n ==> dominio != dominios[m]
    {
      if dominio == dominios[n] {
        return false;
      }
    }
    return true;
  }

  /** A valid e-mail holds neither whitespace nor a second `@`. */
  lemma EmailPatternPlain(s: string)
    requires EmailPattern(s)
    ensures forall i :: 0 <= i < |s| ==> !IsJsSpace(s[i])
    ensures IndexOf(s, '@').Some?
    ensures var k := IndexOf(s, '@').value; 0 < k < |s| - 1 && '@' !in s[k + 1..]
  {
    var k := PatternAt(s);
    IndexOfWitness(s, '@', k);
  }

  /** The position of the pattern's `@`, the only one, in a text without whitespace. */
  lemma PatternAt(s: string) returns (k: nat)
    requires EmailPattern(s)
    ensures 0 < k < |s| - 1 && s[k] == '@' && '@' !in s[..k] && '@' !in s[k + 1..]
    ensures forall i :: 0 <= i < |s| ==> !IsJsSpace(s[i])
  {
    var j;
    k, j :| 0 < k < |s| && k + 1 < j <= |s| - 3 &&
      s[k] == '@' && s[j] == '.'
      && (forall i | 0 <= i < k :: IsLocalChar(s[i]))
      && (forall i | k < i < j :: IsHostChar(s[i]))
      && (forall i | j < i < |s| :: IsAsciiLetter(s[i]));
    forall i | 0 <= i < |s| ensures !IsJsSpace(s[i]) && (i != k ==> s[i] != '@') {
      if i != k && i != j {
        PatternCharPlain(s[i]);
      }
    }
    assert '@' !in s[..k];
  }

  lemma PatternCharPlain(c: char)
    requires IsLocalChar(c) || IsHostChar(c) || IsAsciiLetter(c)
    ensures !IsJsSpace(c) && c != '@'
  {
  }

  /**
   * Every valid e-mail whose text after the `@` lower-cases to a listed
   * domain is refused; the pattern admits no whitespace that could hide it.
   */
  lemma CorporativoRejectsPublic(e: string, local: string, dom: string)
    requires e == local + "@" + dom && '@' !in local
    requires EmailPattern(e) && Lower(dom) in PublicDomains
    ensures Domain(e) in PublicDomains
  {
    var k := |local|;
    assert e[k] == '@' && e[..k] == local && e[k + 1..] == dom;
    EmailPatternPlain(e);
    IndexOfWitness(e, '@', k);
  }

  // ---------------------------------------------------------------------
  // Phone
  // ---------------------------------------------------------------------

  /** The characters `[\s()-]` removed from phone numbers. */
  predicate IsPhoneSeparator(c: char)
  {
    IsJavaSpace(c) || c == '(' || c == ')' || c == '-'
  }

  /**
   * isValidTelefono: after cleaning, nine digits starting with 6 to 9,
   * alone or after `+34` or `0034`.
   */
  function IsValidTelefono(telefono: Option<string>): (r: bool)
    ensures r ==> telefono.Some? && |telefono.value| >= 9
  {
    telefono.Some?
    && var c := Remove(telefono.value, IsPhoneSeparator);
       SpanishNumber(c)
       || (|c| >= 3 && c[..3] == "+34" && SpanishNumber(c[3..]))
       || (|c| >= 4 && c[..4] == "0034" && SpanishNumber(c[4..]))
  }

  /** A Spanish number is accepted alone, after `+34` and after `0034`. */
  lemma TelefonoFormasAceptadas(n: string)
    requires SpanishNumber(n)
    ensures IsValidTelefono(Some(n))
    ensures IsValidTelefono(Some("+34" + n))
    ensures IsValidTelefono(Some("0034" + n))
  {
    RemoveNothing(n, IsPhoneSeparator);
    RemoveNothing("+34" + n, IsPhoneSeparator);
    RemoveNothing("0034" + n, IsPhoneSeparator);
    assert ("+34" + n)[..3] == "+34" && ("+34" + n)[3..] == n;
    assert ("0034" + n)[..4] == "0034" && ("0034" + n)[4..] == n;
  }

  /** The three accepted forms are exactly nine, twelve and thirteen characters long. */
  lemma TelefonoLengths(telefono: Option<string>)
    requires IsValidTelefono(telefono)
    ensures |Remove(telefono.value, IsPhoneSeparator)| in {9, 12, 13}
  {
  }

  // ---------------------------------------------------------------------
  // Social Security number
  // ---------------------------------------------------------------------

  /** The characters `[\s/]` removed from a NASS. */
  predicate IsNassSeparator(c: char)
  {
    IsJavaSpace(c) || c == '/'
  }

  /** isValidNumeroSeguridadSocial */
  function IsValidNumeroSeguridadSocial(nass: Option<string>): (r: bool)
    ensures r ==> nass.Some? && |nass.value| >= 12
  {
    nass.Some?
    && var c := Remove(nass.value, IsNassSeparator);
       |c| == 12 && AllDigits(c) && NassCheckParsed(c)
  }

  /**
   * A non-null string passes exactly when, without ASCII whitespace and
   * slashes, it writes out a known province, a base number and their
   * modulus-97 control digits.
   */
  lemma IsValidNumeroSeguridadSocialIff(nass: Option<string>)
    ensures IsValidNumeroSeguridadSocial(nass) <==>
      nass.Some? &&
      var c := Remove(nass.value, IsNassSeparator);
      exists pp, base :: NassProvince(pp) && 0 <= base < Pow10(8) && c == NassString(pp, base)
  {
    if nass.Some? {
      var c := Remove(nass.value, IsNassSeparator);
      if IsValidNumeroSeguridadSocial(nass) {
        NassCheckParsedIff(c);
        NassDigitsValidIsString(c);
      }
      if exists pp, base :: NassProvince(pp) && 0 <= base < Pow10(8) && c == NassString(pp, base) {
        var pp, base :| NassProvince(pp) && 0 <= base < Pow10(8) && c == NassString(pp, base);
        NassStringIsValid(pp, base);
        NassCheckParsedIff(c);
      }
    }
  }
}
