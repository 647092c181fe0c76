/**
 * Where the frontend validators (validation.ts) and the backend validators
 * (ValidationUtils.java) agree and where they part ways. Each difference is
 * stated for a whole family of inputs.
 */
module ValidationComparison {
  import opened Common
  import opened Text
  import opened SpanishIds
  import TS = FrontendValidation
  import Java = BackendValidation

  /** Whitespace that JavaScript's `\s` matches and Java's `\s` does not (NBSP, ideographic space...). */
  predicate IsNonAsciiSpace(c: char)
  {
    IsJsSpace(c) && !IsJavaSpace(c)
  }

  // ---------------------------------------------------------------------
  // DNI / NIE
  // ---------------------------------------------------------------------

  /** Without whitespace, the frontend DNI check and the backend DNI-or-NIE check agree. */
  lemma DniAgreeWithoutWhitespace(s: string)
    requires NoneMatch(s, IsJsSpace)
    ensures TS.IsValidDNI(s) == Java.IsValidDNIorNIE(Some(s))
  {
    RemoveNothing(s, IsJsSpace);
    TS.IsValidDNIIff(s);
    Java.IsValidDNIorNIEIff(Some(s));
    if s == "" {
      TS.NotDniString(Upper(s));
      TS.NotNieString(Upper(s));
    }
  }

  /**
   * Only the frontend strips whitespace: a correct DNI preceded by any
   * whitespace character passes in the frontend and fails in the backend.
   */
  lemma DniLeadingWhitespace(n: nat, ws: char)
    requires n < Pow10(8) && IsJsSpace(ws)
    ensures TS.IsValidDNI([ws] + DniString(n))
    ensures !Java.IsValidDNIorNIE(Some([ws] + DniString(n)))
  {
    var d := DniString(n);
    var s := [ws] + d;
    LeadingSpaceCleaned(d, ws);
    DniStringPlain(n);
    TS.IsValidDNIIff(s);
    assert IsDniString(d);
    Java.IsValidDNIorNIEIff(Some(s));
    TS.NotDniString(Upper(s));
    TS.NotNieString(Upper(s));
  }

  lemma LeadingSpaceCleaned(d: string, ws: char)
    requires NoneMatch(d, IsJsSpace) && IsJsSpace(ws)
    ensures Remove([ws] + d, IsJsSpace) == d
  {
    assert [ws] + d == [] + [ws] + d;
    RemoveAround([], ws, d, IsJsSpace);
    RemoveNothing(d, IsJsSpace);
  }

  /** A written-out DNI holds no whitespace and no lower-case letter. */
  lemma DniStringPlain(n: nat)
    requires n < Pow10(8)
    ensures NoneMatch(DniString(n), IsJsSpace) && Upper(DniString(n)) == DniString(n)
  {
    var d := DniString(n);
    forall i | 0 <= i < |d| ensures !IsJsSpace(d[i]) && ToUpper(d[i]) == d[i] {
      if i < 8 { assert d[..8][i] == d[i]; }
    }
  }

  // ---------------------------------------------------------------------
  // CIF
  // ---------------------------------------------------------------------

  /**
   * Types N, R and W: the frontend accepts the control digit, the backend
   * demands the control letter.
   */
  lemma CifTypesNRW(t: char, m: nat)
    requires t in "NRW" && m < Pow10(7)
    ensures var central := Digits(m, 7);
      var s := [t] + central + [DigitChar(CifControlDigit(CifSum(central)))];
      TS.CifValid(s) && !Java.CifValid(Some(s))
  {
    TS.CifCompletion(t, m);
    Java.CifCompletion(t, m);
  }

  /**
   * Without whitespace, the two CIF checks agree on every input whose
   * type letter is not N, R or W.
   */
  lemma CifAgreement(s: string)
    requires NoneMatch(s, IsJsSpace)
    ensures TS.CifValid(s) == Java.CifValid(Some(s)) || TS.CleanUpper(s)[0] in "NRW"
  {
    RemoveNothing(s, IsJsSpace);
    var u := Upper(s);
    if CifShape(u) {
      var d := CifExpectedDigit(u);
      Java.NumericControlIsDigit(u[8], d);
    }
  }

  // ---------------------------------------------------------------------
  // REGCESS code
  // ---------------------------------------------------------------------

  /** Two cleanings agree when the input holds only ASCII whitespace. */
  lemma AsciiSpacesOnly(s: string)
    requires NoneMatch(s, IsNonAsciiSpace)
    ensures Remove(s, IsJsSpace) == Remove(s, IsJavaSpace)
  {
    forall i | 0 <= i < |s| ensures IsJsSpace(s[i]) == IsJavaSpace(s[i]) {
      JavaSpaceIsJsSpace(s[i]);
    }
    RemoveSame(s, IsJsSpace, IsJavaSpace);
  }

  /** On inputs with only ASCII whitespace, every code the frontend accepts the backend accepts. */
  lemma RegcessFrontendImpliesBackend(s: string)
    requires NoneMatch(s, IsNonAsciiSpace)
    ensures TS.IsValidCodigoREGCESS(s) ==> Java.IsValidCodigoREGCESS(Some(s))
  {
    AsciiSpacesOnly(s);
  }

  lemma RegcessPlain(c: string)
    requires RegcessShape(c, 50)
    ensures NoneMatch(c, IsJsSpace) && Upper(c) == c
  {
  }

  /** Codes of 21 to 50 characters pass only in the backend. */
  lemma RegcessLongCode(c: string)
    requires RegcessShape(c, 50) && |c| > 20
    ensures Java.IsValidCodigoREGCESS(Some(c)) && !TS.IsValidCodigoREGCESS(c)
  {
    RegcessPlain(c);
    RemoveNothing(c, IsJsSpace);
    assert NoneMatch(c, IsJavaSpace);
    RemoveNothing(c, IsJavaSpace);
  }

  /** A no-break space after a code is stripped by the frontend and kept by the backend. */
  lemma RegcessNoBreakSpace(c: string)
    requires RegcessShape(c, 20)
    ensures TS.IsValidCodigoREGCESS(c + ['\U{00A0}'])
    ensures !Java.IsValidCodigoREGCESS(Some(c + ['\U{00A0}']))
  {
    RegcessNoBreakSpaceFront(c);
    RegcessNoBreakSpaceBack(c);
  }

  lemma RegcessNoBreakSpaceFront(c: string)
    requires RegcessShape(c, 20)
    ensures TS.IsValidCodigoREGCESS(c + ['\U{00A0}'])
  {
    RegcessPlain(c);
    assert c + ['\U{00A0}'] == c + ['\U{00A0}'] + [];
    RemoveAround(c, '\U{00A0}', [], IsJsSpace);
    RemoveNothing(c, IsJsSpace);
    assert TS.CleanUpper(c + ['\U{00A0}']) == c;
  }

  lemma RegcessNoBreakSpaceBack(c: string)
    requires RegcessShape(c, 20)
    ensures !Java.IsValidCodigoREGCESS(Some(c + ['\U{00A0}']))
  {
    var s := c + ['\U{00A0}'];
    assert NoneMatch(s, IsJavaSpace) by {
      forall i | 0 <= i < |s| ensures !IsJavaSpace(s[i]) {
        if i < |c| { assert s[i] == c[i]; }
      }
    }
    RemoveNothing(s, IsJavaSpace);
    var u := Upper(Remove(s, IsJavaSpace));
    assert u[|c|] == '\U{00A0}';
    assert !IsRegcessChar(u[|c|]);
  }

  // ---------------------------------------------------------------------
  // Phone
  // ---------------------------------------------------------------------

  /** The `0034` prefix is accepted only by the backend. */
  lemma Phone0034(n: string)
    requires SpanishNumber(n)
    ensures Java.IsValidTelefono(Some("0034" + n))
    ensures !TS.IsValidTelefono("0034" + n)
  {
    var s := "0034" + n;
    assert NoneMatch(s, TS.IsPhoneSeparator) by {
      forall i | 0 <= i < |s| ensures !TS.IsPhoneSeparator(s[i]) {
        if i >= 4 { assert s[i] == n[i - 4]; }
      }
    }
    RemoveNothing(s, TS.IsPhoneSeparator);
    RemoveSame(s, TS.IsPhoneSeparator, Java.IsPhoneSeparator);
    assert s[..4] == "0034" && s[4..] == n;
    assert s[..3] != "+34" by { assert s[0] == '0'; }
  }

  /** An empty phone is optional in the frontend and rejected by the backend. */
  lemma PhoneEmpty()
    ensures TS.IsValidTelefono("") && !Java.IsValidTelefono(Some("")) && !Java.IsValidTelefono(None)
  {
  }

  /** With only ASCII whitespace, a non-empty phone the frontend accepts is accepted by the backend. */
  lemma PhoneFrontendImpliesBackend(s: string)
    requires s != "" && NoneMatch(s, IsNonAsciiSpace)
    ensures TS.IsValidTelefono(s) ==> Java.IsValidTelefono(Some(s))
  {
    forall i | 0 <= i < |s| ensures TS.IsPhoneSeparator(s[i]) == Java.IsPhoneSeparator(s[i]) {
      JavaSpaceIsJsSpace(s[i]);
    }
    RemoveSame(s, TS.IsPhoneSeparator, Java.IsPhoneSeparator);
  }

  // ---------------------------------------------------------------------
  // Social Security number
  // ---------------------------------------------------------------------

  /** With only ASCII whitespace, both NASS checks agree on every non-empty input. */
  lemma NassAgreement(s: string)
    requires s != "" && NoneMatch(s, IsNonAsciiSpace)
    ensures TS.IsValidNumeroSeguridadSocial(s) == Java.IsValidNumeroSeguridadSocial(Some(s))
  {
    forall i | 0 <= i < |s| ensures TS.IsNassSeparator(s[i]) == Java.IsNassSeparator(s[i]) {
      JavaSpaceIsJsSpace(s[i]);
    }
    RemoveSame(s, TS.IsNassSeparator, Java.IsNassSeparator);
  }

  // ---------------------------------------------------------------------
  // E-mail
  // ---------------------------------------------------------------------

  /** Every e-mail the backend pattern accepts, the frontend pattern accepts too. */
  lemma EmailBackendImpliesFrontend(e: string)
    requires Java.IsValidEmail(Some(e))
    ensures TS.IsValidEmail(e)
  {
    var k, j :| 0 < k < |e| && k + 1 < j <= |e| - 3 &&
      e[k] == '@' && e[j] == '.'
      && (forall i | 0 <= i < k :: Java.IsLocalChar(e[i]))
      && (forall i | k < i < j :: Java.IsHostChar(e[i]))
      && (forall i | j < i < |e| :: IsAsciiLetter(e[i]));
    BackendPartsPlain(e, k, j);
    TrimUntouched(e, IsJsSpace);
    assert TS.EmailPattern(e) by {
      assert 0 < k < |e| && k + 1 < j < |e| - 1;
      assert TS.NoSpaceOrAt(e[..k]) && TS.NoSpaceOrAt(e[k + 1..j]) && TS.NoSpaceOrAt(e[j + 1..]);
    }
    assert JsTrim(e) == e;
  }

  lemma BackendPartsPlain(e: string, k: nat, j: nat)
    requires 0 < k < j < |e| && e[k] == '@' && e[j] == '.'
    requires forall i | 0 <= i < k :: Java.IsLocalChar(e[i])
    requires forall i | k < i < j :: Java.IsHostChar(e[i])
    requires forall i | j < i < |e| :: IsAsciiLetter(e[i])
    ensures !IsJsSpace(e[0]) && !IsJsSpace(e[|e| - 1])
    ensures TS.NoSpaceOrAt(e[..k]) && TS.NoSpaceOrAt(e[k + 1..j]) && TS.NoSpaceOrAt(e[j + 1..])
  {
    forall i | 0 <= i < |e| && i != k ensures !IsJsSpace(e[i]) && e[i] != '@' {
      if i != j { Java.PatternCharPlain(e[i]); }
    }
    PlainSlice(e, 0, k);
    PlainSlice(e, k + 1, j);
    PlainSlice(e, j + 1, |e|);
  }

  lemma PlainSlice(e: string, a: nat, b: nat)
    requires a <= b <= |e|
    requires forall i :: a <= i < b ==> !IsJsSpace(e[i]) && e[i] != '@'
    ensures TS.NoSpaceOrAt(e[a..b])
  {
    forall i | 0 <= i < b - a ensures !IsJsSpace(e[a..b][i]) && e[a..b][i] != '@' {
      assert e[a..b][i] == e[a + i];
    }
  }

  /** The string holds ASCII letters only. */
  predicate AllLetters(s: string)
  {
    forall i :: 0 <= i < |s| ==> IsAsciiLetter(s[i])
  }

  /** A one-letter top-level domain passes only in the frontend. */
  lemma EmailOneLetterTld(local: string, host: string, x: char)
    requires |local| > 0 && |host| > 0 && IsAsciiLetter(x)
    requires AllLetters(local) && AllLetters(host)
    ensures TS.IsValidEmail(local + "@" + host + "." + [x])
    ensures !Java.IsValidEmail(Some(local + "@" + host + "." + [x]))
  {
    var e := local + "@" + host + "." + [x];
    var k := |local|;
    var j := k + 1 + |host|;
    assert e[k] == '@' && e[j] == '.';
    forall i | 0 <= i < |e| && i != k && i != j ensures IsAsciiLetter(e[i]) {
      if i < k { assert e[i] == local[i]; }
      else if k < i < j { assert e[i] == host[i - k - 1]; }
    }
    OneLetterTldFrontend(e, k, j);
    OneLetterTldBackend(e, k, j);
  }

  /** Letters around one `@` and a dot before the last letter. */
  predicate LettersAtDot(e: string, k: nat, j: nat)
  {
    0 < k && k + 1 < j && j + 2 == |e| && e[k] == '@' && e[j] == '.'
    && forall i :: 0 <= i < |e| && i != k && i != j ==> IsAsciiLetter(e[i])
  }

  lemma OneLetterTldFrontend(e: string, k: nat, j: nat)
    requires LettersAtDot(e, k, j)
    ensures TS.IsValidEmail(e)
  {
    assert NoneMatch(e, IsJsSpace);
    TrimUntouched(e, IsJsSpace);
    PlainSlice(e, 0, k);
    PlainSlice(e, k + 1, j);
    PlainSlice(e, j + 1, |e|);
    assert TS.EmailPattern(e);
  }

  lemma OneLetterTldBackend(e: string, k: nat, j: nat)
    requires LettersAtDot(e, k, j)
    ensures !Java.IsValidEmail(Some(e))
  {
    forall j' | 0 <= j' <= |e| - 3 ensures e[j'] != '.' {
      if j' != k { assert IsAsciiLetter(e[j']); }
    }
  }

  /**
   * The backend pattern admits no whitespace, so the trailing-whitespace
   * inputs that slip past the frontend's corporate check are refused.
   */
  lemma EmailTrailingWhitespaceBackend(local: string, dom: string, ws: char)
    requires IsJsSpace(ws)
    ensures !Java.IsValidEmail(Some(local + "@" + dom + [ws]))
  {
    var e := local + "@" + dom + [ws];
    assert e[|e| - 1] == ws;
    if Java.EmailPattern(e) {
      Java.EmailPatternPlain(e);
    }
  }
}
