# A.L.M.A. — verified model of the validators, the organisation life cycle and the service state machines

A.L.M.A. is a platform for grief support. It has a React Native front end and a
Spring back end. This project models the parts of the platform whose rules can
be stated and proved.

**Identifier validators.** The validators for Spanish identifiers exist twice,
once in the front end (`validation.ts`) and once in the back end
(`ValidationUtils.java`). They cover:

- DNI and NIE, with the modulo-23 control letter;
- CIF, with its checksum and a control character that depends on the organisation type;
- the Social Security affiliation number (NASS), with the province range and the modulo-97 control;
- e-mail, corporate e-mail against a list of public domains, REGCESS codes, phone numbers and birth dates;
- the front end's formatters and its age computation.

The two implementations are kept in separate modules: `FrontendValidation` and
`FrontendDates` for the front end, `BackendValidation` for the back end.
`SpanishIds` holds the definitions of a well-formed identifier that both share.
`ValidationComparison` proves where the two implementations agree and exhibits
inputs where they do not.

**Organisation life cycle.** `OrganizacionServiceImpl` changes an
organisation's state (ACTIVA, SUSPENDIDA, BAJA) and appends one audit record
with before and after snapshots. `OrganizacionController` adds two things on
top: the reason guard on dar-baja and cambiar-estado, and the client address,
taken through a chain of proxy headers.

**Service state machines.** These are:

- the AI support session (ACTIVA to FINALIZADA, with a 100-message cap and a message counter);
- the daily goal (`MetaDiaria`: PENDIENTE, COMPLETADA, CANCELADA), with the completion-date rule its update hook keeps;
- chat sessions, with get-or-create of the active session and read marks;
- professional–patient assignments.

**Mappers and statistics.** The partial-update mappers `UsuarioMapper` and
`PacienteMapper` are modelled, and so is the per-organisation statistics DTO,
whose total is a `long` sum of the role counts.

**How it is modelled.**

- Repositories are maps keyed by id, or sequences in insertion order.
- Instants, today's date and the request headers are parameters.
- A Java `null` is `None`.
- A call that throws inside a `@Transactional` method is a `Failure` that leaves every store unchanged.
- The services are classes whose fields are their repositories. Their methods are proved against functions on values (`Completada`, `Finalizada`, `MarcarLeidos`, `Actualizado`, …), and the lemmas are proved about those functions.

## Model

| member | source | states |
|---|---|---|
| `SpanishIds.DniControlLetter` | alma_frontend/src/utils/validation.ts:34-39 | the DNI control letter of a number is an upper-case ASCII letter, the entry n mod 23 of "TRWAGMYFPDXBNJZSQVHLCKE"; `DniCheckIff` ties it to the DNI rule |
| `SpanishIds.DniString` | alma_frontend/src/utils/validation.ts:34-39 | the DNI written for a number (8 digits and the control letter) has the DNI shape |
| `SpanishIds.NieString` | alma_backend/alma_backend/src/main/java/com/alma/alma_backend/util/ValidationUtils.java:56-68 | the NIE written for a prefix X/Y/Z and 7 digits (with the control letter of the substituted number) has the NIE shape |
| `SpanishIds.DniCheckIff` | alma_frontend/src/utils/validation.ts:18-39 | on 8 digits plus a character, "the letter equals the control letter of the 8-digit number" holds exactly when the text is the DNI of some number |
| `SpanishIds.NieCheckIff` | alma_backend/alma_backend/src/main/java/com/alma/alma_backend/util/ValidationUtils.java:48-72 | on X/Y/Z, 7 digits and a character, the control check with X, Y, Z read as 0, 1, 2 holds exactly when the text is a NIE |
| `SpanishIds.DniNotNie` | alma_frontend/src/utils/validation.ts:18-21 | no text has both the DNI shape and the NIE shape, so the two branches never compete |
| `SpanishIds.CifControlDigit` | alma_backend/alma_backend/src/main/java/com/alma/alma_backend/util/ValidationUtils.java:116-118 | the CIF control digit is below 10 and brings the checksum up to a multiple of 10 |
| `SpanishIds.CifControlDigitUnique` | alma_frontend/src/utils/validation.ts:84-86 | it is the only digit that does so: the control digit is determined by the checksum |
| `SpanishIds.CifExpectedDigit` | alma_frontend/src/utils/validation.ts:64-86 | the control digit computed from a well-shaped CIF's seven central digits is a decimal digit; `CifControlDigit` and `CifControlDigitUnique` make it the only digit completing the checksum to a multiple of 10 |
| `SpanishIds.NassControl` | alma_backend/alma_backend/src/main/java/com/alma/alma_backend/util/ValidationUtils.java:290-291 | the NASS control number is a remainder modulo 97; `NassStringIsValid` and `NassDigitsValidIsString` tie it to the 12-digit check in both directions |
| `SpanishIds.NassString` | alma_frontend/src/utils/validation.ts:301-318 | the NASS built from a province and a base is twelve decimal digits |
| `SpanishIds.NassDigitsValidIsString` | alma_frontend/src/utils/validation.ts:301-318 | every 12-digit string that passes the province and modulo-97 checks is the NASS of its own province and base |
| `SpanishIds.NassStringIsValid` | alma_frontend/src/utils/validation.ts:301-318 | conversely, the NASS of any admitted province and 8-digit base passes the checks and gives back that province and base |
| `SpanishIds.NassCheckParsedIff` | alma_backend/alma_backend/src/main/java/com/alma/alma_backend/util/ValidationUtils.java:279-294 | the check on parsed integers is the same as the check on the digit string: `Integer.parseInt` and the concatenation `codigoProvincia + numeroBase` lose nothing |
| `SpanishIds.PublicDomainsPlain` | alma_frontend/src/utils/validation.ts:346-364 | every one of the 17 public domains is lower-case and free of spaces and '@' |
| `FrontendValidation.IsValidDNI` | alma_frontend/src/utils/validation.ts:11-40 | an accepted input, with whitespace removed and upper-cased, has the DNI shape or the NIE shape |
| `FrontendValidation.IsValidDNIIff` | alma_frontend/src/utils/validation.ts:11-40 | accepted exactly when the cleaned text is a DNI (8 digits and their control letter) or a NIE (X/Y/Z as 0/1/2, 7 digits, control letter) |
| `FrontendValidation.DniValidIff` | alma_frontend/src/utils/validation.ts:18-39 | on DNI-shaped input, accepted exactly when the control letter matches |
| `FrontendValidation.NieValidIff` | alma_frontend/src/utils/validation.ts:19-39 | on NIE-shaped input, accepted exactly when the control letter of the substituted number matches |
| `FrontendValidation.DniStringAccepted` | alma_frontend/src/utils/validation.ts:34-39 | eight digits of n followed by an upper-case letter are accepted exactly when the letter is n's control letter |
| `FrontendValidation.FormatDNI` | alma_frontend/src/utils/validation.ts:213-221 | nine cleaned characters come back with a hyphen before the last one and are otherwise unchanged; any other length comes back cleaned |
| `FrontendValidation.FormattedDNIRejected` | alma_frontend/src/utils/validation.ts:213-221 | the formatted form of an accepted DNI is rejected by the same validator, because the hyphen is not removed |
| `FrontendValidation.IsValidCIF` | alma_frontend/src/utils/validation.ts:47-99 | the loop-based check returns exactly the CIF rule: cleaned shape [ABCDEFGHJNPQRSUVW], 7 digits, [0-9A-J], and a control character allowed for the type |
| `FrontendValidation.CifValid` | alma_frontend/src/utils/validation.ts:47-99 | an accepted CIF cleans to nine characters starting with a type letter; `CifCompletion` and `CifValidControl` state the control character |
| `FrontendValidation.CentralSum` | alma_frontend/src/utils/validation.ts:67-81 | the loop's sum is the CIF checksum: the digit-sum of each doubled even-position digit plus each odd-position digit |
| `FrontendValidation.CifCompletion` | alma_frontend/src/utils/validation.ts:61-98 | for every type and central digits, the control digit is accepted exactly when the type is not K, P, Q or S, and the control letter exactly when the type is not A, B, E or H |
| `FrontendValidation.CifValidControl` | alma_frontend/src/utils/validation.ts:84-98 | an accepted CIF ends in its control digit or the matching letter of "JABCDEFGHI", and never starts with K |
| `FrontendValidation.FormatCIF` | alma_frontend/src/utils/validation.ts:228-236 | nine cleaned characters come back as type-central-control, with two hyphens and nothing else changed; any other length comes back cleaned |
| `FrontendValidation.FormattedCIFRejected` | alma_frontend/src/utils/validation.ts:228-236 | the formatted form of an accepted CIF is rejected by the same validator |
| `FrontendValidation.IsValidEmail` | alma_frontend/src/utils/validation.ts:106-112 | an accepted address contains '@' once trimmed; `EmailPatternParts` states the shape of the pattern and `EmailBackendImpliesFrontend` relates it to the back end |
| `FrontendValidation.EmailPatternParts` | alma_frontend/src/utils/validation.ts:110 | a text matching the pattern has one '@', neither first nor last, and `split('@')[1]` is all that follows it |
| `FrontendValidation.IsValidEmailCorporativo` | alma_frontend/src/utils/validation.ts:342-372 | as written: only valid addresses are accepted (the domain is taken from the untrimmed address; see Findings) |
| `FrontendValidation.IsValidEmailCorporativoTrimmed` | alma_frontend/src/utils/validation.ts:342-372 | corrected: only valid addresses are accepted, with the domain taken from the trimmed address that was validated |
| `FrontendValidation.CorporativoTrimmedIff` | alma_frontend/src/utils/validation.ts:346-371 | a valid address passes the corrected check exactly when the lower-cased domain of the trimmed address is not one of the 17 public domains |
| `FrontendValidation.CorporativoAgreeWhenTrimmed` | alma_frontend/src/utils/validation.ts:342-372 | on an address without surrounding whitespace, the code as written and the corrected check agree |
| `FrontendValidation.CorporativoTrailingSpaceAccepted` | alma_frontend/src/utils/validation.ts:366 | as written, a public-domain address followed by a whitespace character is accepted; the corrected check rejects it |
| `FrontendValidation.FormatTelefono` | alma_frontend/src/utils/validation.ts:243-258 | with `+34` in front, the cleaned number reads `+34 ` then the groups cut at 3 and 6 (`+34 XXX XXX rest` when at least six characters follow the prefix); a nine-character number reads `XXX XXX XXX`; any other cleaned text is returned as it is; removing separators from the result gives the cleaned input back |
| `FrontendValidation.IsValidTelefono` | alma_frontend/src/utils/validation.ts:129-138 | the empty phone is accepted; a non-empty accepted phone has 9 or 12 characters once separators are removed; `TelefonoFormasAceptadas` states its forms |
| `FrontendValidation.TelefonoFormasAceptadas` | alma_frontend/src/utils/validation.ts:129-138 | a nine-digit number starting with 6 to 9 is accepted alone and after +34 |
| `FrontendValidation.FormatTelefonoValidity` | alma_frontend/src/utils/validation.ts:243-258 | formatting keeps the phone validator's answer, except on a non-empty input made of separators only, which is rejected while its formatted form (empty) is accepted |
| `FrontendValidation.IsValidNumeroSeguridadSocialIff` | alma_frontend/src/utils/validation.ts:291-319 | accepted exactly when the input, stripped of whitespace and '/', is the NASS of a province 01–52 or 66 and an 8-digit base |
| `FrontendValidation.IsValidNumeroSeguridadSocial` | alma_frontend/src/utils/validation.ts:291-319 | an accepted number has at least twelve characters; `IsValidNumeroSeguridadSocialIff` gives the exact rule |
| `FrontendValidation.FormatNumeroSeguridadSocial` | alma_frontend/src/utils/validation.ts:326-334 | twelve cleaned characters come back as PP/NNNNNNNN/DD; any non-empty input keeps its characters apart from separators |
| `FrontendValidation.FormatNumeroSeguridadSocialValidity` | alma_frontend/src/utils/validation.ts:326-334 | formatting never changes the NASS validator's answer |
| `FrontendValidation.IsValidCodigoREGCESS` | alma_frontend/src/utils/validation.ts:380-391 | an accepted code has at least eight characters; `RegcessPlainAccepted` and `RegcessFrontendImpliesBackend` state what it takes |
| `FrontendValidation.RegcessPlainAccepted` | alma_frontend/src/utils/validation.ts:380-391 | every code of 8 to 20 characters from [A-Z0-9-] is accepted as written |
| `FrontendDates.ParseIsoDate` | alma_frontend/src/utils/validation.ts:187-191 | a YYYY-MM-DD text parses exactly when month and day are in range; the time is the UTC midnight of the normalised calendar day |
| `FrontendDates.Normalize` | alma_frontend/src/utils/validation.ts:187-191 | a day past the end of its month rolls into the next month: the result is a real date of the same year on the same day count, and a real date is unchanged |
| `FrontendDates.DayMonotone` | alma_frontend/src/utils/validation.ts:193-203 | the day count of a real calendar date grows strictly with the date |
| `FrontendDates.DayInjective` | alma_frontend/src/utils/validation.ts:193-203 | two real dates with the same day count are the same date |
| `FrontendDates.BirthDate` | alma_frontend/src/utils/validation.ts:187-191 | the date a well-formed ISO text denotes is a real calendar date, and equals the written fields whenever those already form one |
| `FrontendDates.IsValidFechaNacimiento` | alma_frontend/src/utils/validation.ts:177-206 | an accepted non-empty birth date has the YYYY-MM-DD shape with month and day in range |
| `FrontendDates.ValidBirthAge` | alma_frontend/src/utils/validation.ts:177-206 | every accepted non-empty birth date gives an age between 0 and 120 |
| `FrontendDates.FutureBirthRefused` | alma_frontend/src/utils/validation.ts:193-197 | a real date after today is refused |
| `FrontendDates.AncientBirthRefused` | alma_frontend/src/utils/validation.ts:199-203 | a real date in a year more than 120 years back is refused |
| `FrontendDates.RecentBirthAccepted` | alma_frontend/src/utils/validation.ts:177-206 | a real date before today (or today, after midnight) and less than 120 years back is accepted |
| `FrontendDates.BirthWindow` | alma_frontend/src/utils/validation.ts:193-203 | a date that passes both time comparisons is not after today and lies at most 120 years back |
| `FrontendDates.CalcularEdad` | alma_frontend/src/utils/validation.ts:265-279 | the empty text gives 0; a text the `Date` parser reads as a number has the ISO shape with fields in range |
| `FrontendDates.AgeIsWholeYears` | alma_frontend/src/utils/validation.ts:265-279 | the age a is the number of whole years: today is on or after the a-th birthday and before the (a+1)-th |
| `BackendValidation.IsValidDNIIff` | alma_backend/alma_backend/src/main/java/com/alma/alma_backend/util/ValidationUtils.java:27-41 | accepted exactly when the upper-cased text is a DNI: 8 digits and their control letter |
| `BackendValidation.IsValidDNI` | alma_backend/alma_backend/src/main/java/com/alma/alma_backend/util/ValidationUtils.java:27-41 | an accepted input has nine characters, the first eight digits, and a ninth that upper-cases to the control letter of their number; `IsValidDNIIff` gives the exact rule |
| `BackendValidation.IsValidNIEIff` | alma_backend/alma_backend/src/main/java/com/alma/alma_backend/util/ValidationUtils.java:48-72 | accepted exactly when the upper-cased text is a NIE |
| `BackendValidation.IsValidNIE` | alma_backend/alma_backend/src/main/java/com/alma/alma_backend/util/ValidationUtils.java:48-72 | an accepted input has nine characters and starts with X, Y or Z in either case; `IsValidNIEIff` gives the exact rule |
| `BackendValidation.IsValidDNIorNIEIff` | alma_backend/alma_backend/src/main/java/com/alma/alma_backend/util/ValidationUtils.java:79-84 | null is refused; otherwise accepted exactly when the upper-cased text is a DNI or a NIE |
| `BackendValidation.IsValidDNIorNIE` | alma_backend/alma_backend/src/main/java/com/alma/alma_backend/util/ValidationUtils.java:79-84 | an accepted document is non-null and nine characters long; `IsValidDNIorNIEIff` gives the exact rule |
| `BackendValidation.NumericValue` | alma_backend/alma_backend/src/main/java/com/alma/alma_backend/util/ValidationUtils.java:126-129 | `Character.getNumericValue` gives a digit its value and gives the letters A–J values of 10 or more |
| `BackendValidation.NumericControlIsDigit` | alma_backend/alma_backend/src/main/java/com/alma/alma_backend/util/ValidationUtils.java:126-131 | on the control characters the pattern admits, "numeric value equals d" holds exactly when the character is the digit d |
| `BackendValidation.PositionSumsSplit` | alma_backend/alma_backend/src/main/java/com/alma/alma_backend/util/ValidationUtils.java:103-116 | the two loop sums add up to the CIF checksum used by the front end |
| `BackendValidation.SumaPares` | alma_backend/alma_backend/src/main/java/com/alma/alma_backend/util/ValidationUtils.java:102-106 | the first loop adds the central digits at indices 1, 3 and 5 |
| `BackendValidation.SumaImpares` | alma_backend/alma_backend/src/main/java/com/alma/alma_backend/util/ValidationUtils.java:108-114 | the second loop adds the digit-sums of the doubled digits at indices 0, 2, 4 and 6 |
| `BackendValidation.IsValidCIF` | alma_backend/alma_backend/src/main/java/com/alma/alma_backend/util/ValidationUtils.java:91-135 | the loop-based check returns exactly the back end's CIF rule (null refused, upper-cased shape, control allowed for the type) |
| `BackendValidation.CifValid` | alma_backend/alma_backend/src/main/java/com/alma/alma_backend/util/ValidationUtils.java:91-135 | an accepted CIF is non-null, nine characters long and starts with a type letter in either case; `CifCompletion` states which control characters each type takes |
| `BackendValidation.CifCompletion` | alma_backend/alma_backend/src/main/java/com/alma/alma_backend/util/ValidationUtils.java:120-131 | for every type and central digits, the control digit is accepted exactly when the type is not N, P, Q, R, S or W, and the control letter exactly when the type is not A, B, E or H |
| `BackendValidation.EmailPatternPlain` | alma_backend/alma_backend/src/main/java/com/alma/alma_backend/util/ValidationUtils.java:199-206 | an address the back-end pattern accepts has no whitespace and exactly one '@', neither first nor last |
| `BackendValidation.Domain` | alma_backend/alma_backend/src/main/java/com/alma/alma_backend/util/ValidationUtils.java:322 | the domain taken after the first '@' is never longer than the address; `IsValidEmailCorporativo` and `CorporativoRejectsPublic` state how it decides the corporate check |
| `BackendValidation.NoListado` | alma_backend/alma_backend/src/main/java/com/alma/alma_backend/util/ValidationUtils.java:325-329 | the loop over the public domains answers "not listed" exactly when the domain is not in the list |
| `BackendValidation.IsValidEmailCorporativo` | alma_backend/alma_backend/src/main/java/com/alma/alma_backend/util/ValidationUtils.java:307-332 | accepted exactly when the address is valid and its lower-cased domain is not a public one |
| `BackendValidation.CorporativoRejectsPublic` | alma_backend/alma_backend/src/main/java/com/alma/alma_backend/util/ValidationUtils.java:318-329 | an address whose domain is a public domain in any letter case yields a listed domain |
| `BackendValidation.TelefonoLengths` | alma_backend/alma_backend/src/main/java/com/alma/alma_backend/util/ValidationUtils.java:214-227 | an accepted phone number has 9, 12 or 13 characters once separators are removed |
| `BackendValidation.IsValidTelefono` | alma_backend/alma_backend/src/main/java/com/alma/alma_backend/util/ValidationUtils.java:214-227 | an accepted phone is non-null and at least nine characters long; `TelefonoLengths` and `TelefonoFormasAceptadas` state its forms |
| `BackendValidation.TelefonoFormasAceptadas` | alma_backend/alma_backend/src/main/java/com/alma/alma_backend/util/ValidationUtils.java:214-227 | a nine-digit number starting with 6 to 9 is accepted alone, after +34 and after 0034 |
| `BackendValidation.IsValidCodigoREGCESS` | alma_backend/alma_backend/src/main/java/com/alma/alma_backend/util/ValidationUtils.java:181-191 | an accepted code is non-null and at least eight characters long; `RegcessPlainAccepted` and `RegcessLongCode` state what it takes |
| `BackendValidation.RegcessPlainAccepted` | alma_backend/alma_backend/src/main/java/com/alma/alma_backend/util/ValidationUtils.java:181-191 | every code of 8 to 50 characters from [A-Z0-9-] is accepted as written |
| `BackendValidation.IsValidEmail` | alma_backend/alma_backend/src/main/java/com/alma/alma_backend/util/ValidationUtils.java:199-206 | an accepted address is non-null, has an '@' and at least six characters; `EmailPatternPlain` states its shape |
| `BackendValidation.IsValidNumeroSeguridadSocialIff` | alma_backend/alma_backend/src/main/java/com/alma/alma_backend/util/ValidationUtils.java:264-298 | null is refused; otherwise accepted exactly when the stripped input is the NASS of an admitted province and an 8-digit base |
| `BackendValidation.IsValidNumeroSeguridadSocial` | alma_backend/alma_backend/src/main/java/com/alma/alma_backend/util/ValidationUtils.java:264-298 | an accepted number is non-null and has at least twelve characters; `IsValidNumeroSeguridadSocialIff` gives the exact rule |
| `ValidationComparison.DniAgreeWithoutWhitespace` | alma_frontend/src/utils/validation.ts:15 | on input without whitespace, the front-end DNI check and the back end's `isValidDNIorNIE` agree |
| `ValidationComparison.DniLeadingWhitespace` | alma_backend/alma_backend/src/main/java/com/alma/alma_backend/util/ValidationUtils.java:28 | a valid DNI with a leading whitespace character is accepted by the front end and refused by the back end |
| `ValidationComparison.CifTypesNRW` | alma_frontend/src/utils/validation.ts:62 | a CIF of type N, R or W ending in its control digit is accepted by the front end and refused by the back end |
| `ValidationComparison.CifAgreement` | alma_backend/alma_backend/src/main/java/com/alma/alma_backend/util/ValidationUtils.java:121 | on input without whitespace, the two CIF checks agree unless the type is N, R or W |
| `ValidationComparison.RegcessFrontendImpliesBackend` | alma_frontend/src/utils/validation.ts:380-391 | barring non-ASCII whitespace, every REGCESS code the front end accepts is accepted by the back end |
| `ValidationComparison.RegcessLongCode` | alma_backend/alma_backend/src/main/java/com/alma/alma_backend/util/ValidationUtils.java:190 | a code of 21 to 50 characters is accepted by the back end and refused by the front end |
| `ValidationComparison.RegcessNoBreakSpace` | alma_frontend/src/utils/validation.ts:384 | a code followed by a no-break space is accepted by the front end (JavaScript `\s` removes it) and refused by the back end (Java `\s` does not) |
| `ValidationComparison.Phone0034` | alma_backend/alma_backend/src/main/java/com/alma/alma_backend/util/ValidationUtils.java:226 | a Spanish number with the 0034 prefix is accepted only by the back end |
| `ValidationComparison.PhoneEmpty` | alma_frontend/src/utils/validation.ts:130 | the empty phone is accepted by the front end; the back end refuses both empty and null |
| `ValidationComparison.PhoneFrontendImpliesBackend` | alma_frontend/src/utils/validation.ts:129-138 | barring non-ASCII whitespace, every non-empty phone the front end accepts is accepted by the back end |
| `ValidationComparison.NassAgreement` | alma_frontend/src/utils/validation.ts:291-319 | barring non-ASCII whitespace, the two NASS checks agree on every non-empty input |
| `ValidationComparison.EmailBackendImpliesFrontend` | alma_backend/alma_backend/src/main/java/com/alma/alma_backend/util/ValidationUtils.java:199-206 | every address the back end accepts is accepted by the front end |
| `ValidationComparison.EmailOneLetterTld` | alma_frontend/src/utils/validation.ts:110 | an address with a one-letter top-level domain is accepted by the front end only |
| `ValidationComparison.EmailTrailingWhitespaceBackend` | alma_backend/alma_backend/src/main/java/com/alma/alma_backend/util/ValidationUtils.java:204 | the back end refuses any address that ends in whitespace, which the front end trims away |
| `OrganizacionService.EstadoName` | alma_backend/alma_backend/src/main/java/com/alma/alma_backend/service/OrganizacionServiceImpl.java:139 | the state's name reads back as the same state through `valueOf` |
| `OrganizacionService.DeterminarTipoAccion` | alma_backend/alma_backend/src/main/java/com/alma/alma_backend/service/OrganizacionServiceImpl.java:226-232 | the audit action of a target state identifies that state (ACTIVA to ACTIVAR, SUSPENDIDA to SUSPENDER, BAJA to DAR_BAJA) |
| `OrganizacionService.TipoAccionInjective` | alma_backend/alma_backend/src/main/java/com/alma/alma_backend/service/OrganizacionServiceImpl.java:226-232 | different target states give different audit actions |
| `OrganizacionService.Instantanea` | alma_backend/alma_backend/src/main/java/com/alma/alma_backend/service/OrganizacionServiceImpl.java:138-141 | an audit snapshot has exactly the keys ESTADO, NOMBRE_OFICIAL and CIF, and its ESTADO reads back as the organisation's state |
| `OrganizacionService.AuditoriaRefleja` | alma_backend/alma_backend/src/main/java/com/alma/alma_backend/service/OrganizacionServiceImpl.java:138-153 | the before snapshot holds the old state and the after snapshot the new one; name and CIF appear unchanged in both; the snapshots differ exactly when the state changes |
| `OrganizacionService.ServicioAdmiteFueraDePantalla` | alma_backend/alma_backend/src/main/java/com/alma/alma_backend/service/OrganizacionServiceImpl.java:144 | every transition the administration screen does not offer (BAJA to ACTIVA, a state to itself, …) is still admitted by the service |
| `OrganizacionService.ConDetalles` | alma_backend/alma_backend/src/main/java/com/alma/alma_backend/service/OrganizacionServiceImpl.java:62-68 | an update takes the seven data fields from the details and keeps id and state |
| `OrganizacionService.OrganizacionServiceImpl.UpdateOrganizacion` | alma_backend/alma_backend/src/main/java/com/alma/alma_backend/service/OrganizacionServiceImpl.java:58-71 | an unknown id fails with nothing changed; otherwise only that organisation changes, to `ConDetalles`, and no audit record is written |
| `OrganizacionService.OrganizacionServiceImpl.CambiarEstadoOrganizacion` | alma_backend/alma_backend/src/main/java/com/alma/alma_backend/service/OrganizacionServiceImpl.java:125-174 | succeeds exactly when the id exists and a target is given, whatever the prior state; then the state is the target and exactly one audit record is appended, carrying the admin, the action, "ORGANIZACION", the id, both snapshots, the reason, the address and the instant; a failure changes nothing |
| `OrganizacionService.OrganizacionServiceImpl.SuspenderOrganizacion` | alma_backend/alma_backend/src/main/java/com/alma/alma_backend/service/OrganizacionServiceImpl.java:178-187 | a state change to SUSPENDIDA with action SUSPENDER_ORGANIZACION |
| `OrganizacionService.OrganizacionServiceImpl.ActivarOrganizacion` | alma_backend/alma_backend/src/main/java/com/alma/alma_backend/service/OrganizacionServiceImpl.java:191-200 | a state change to ACTIVA with action ACTIVAR_ORGANIZACION |
| `OrganizacionService.OrganizacionServiceImpl.DarDeBajaOrganizacion` | alma_backend/alma_backend/src/main/java/com/alma/alma_backend/service/OrganizacionServiceImpl.java:204-214 | a state change to BAJA with action DAR_BAJA_ORGANIZACION; the organisation stays in the repository |
| `OrganizacionController.IpElegidaEsPrimera` | alma_backend/alma_backend/src/main/java/com/alma/alma_backend/controller/OrganizacionController.java:385-412 | when the k-th header is the first usable one (present, non-empty, not "unknown" in any case), the chosen address is its value |
| `OrganizacionController.IpElegidaRemota` | alma_backend/alma_backend/src/main/java/com/alma/alma_backend/controller/OrganizacionController.java:412-414 | when no header is usable, the chosen address is the remote address |
| `OrganizacionController.PrimeraIpUtil` | alma_backend/alma_backend/src/main/java/com/alma/alma_backend/controller/OrganizacionController.java:385-415 | the loop over the header names returns the first usable header value, or else the remote address |
| `OrganizacionController.PrimerTramoTal` | alma_backend/alma_backend/src/main/java/com/alma/alma_backend/controller/OrganizacionController.java:417-419 | as written: `split(",")[0]` fails exactly when the address is made of commas only |
| `OrganizacionController.IpClienteTal` | alma_backend/alma_backend/src/main/java/com/alma/alma_backend/controller/OrganizacionController.java:384-421 | as written: the address lookup fails exactly when the chosen value is made of commas only; `IpClienteEsPrimerSegmento` states the value of a success |
| `OrganizacionController.ForwardedSoloComas` | alma_backend/alma_backend/src/main/java/com/alma/alma_backend/controller/OrganizacionController.java:417-419 | an X-Forwarded-For of commas only makes the lookup as written fail; the corrected lookup gives the empty address |
| `OrganizacionController.PrimerTramo` | alma_backend/alma_backend/src/main/java/com/alma/alma_backend/controller/OrganizacionController.java:417-419 | corrected: the first piece of a comma-separated address holds no comma; `PrimerTramoEsPrimerSegmento` shows it is the trimmed text before the first comma |
| `OrganizacionController.PrimerTramoEsPrimerSegmento` | alma_backend/alma_backend/src/main/java/com/alma/alma_backend/controller/OrganizacionController.java:417-419 | with the first comma at k, the corrected cut is the trimmed text before k, and the cut as written gives the same value unless the address is commas only |
| `OrganizacionController.IpClienteEsPrimerSegmento` | alma_backend/alma_backend/src/main/java/com/alma/alma_backend/controller/OrganizacionController.java:384-421 | a chosen address without a comma is recorded unchanged by both lookups; one whose first comma is at k is recorded as its trimmed text before k (as written, unless it is commas only) |
| `OrganizacionController.IpCliente` | alma_backend/alma_backend/src/main/java/com/alma/alma_backend/controller/OrganizacionController.java:384-421 | corrected: the recorded address holds no comma, and equals the lookup as written whenever that one does not fail; `IpClienteEsPrimerSegmento` states its value |
| `OrganizacionController.ObtenerIpCliente` | alma_backend/alma_backend/src/main/java/com/alma/alma_backend/controller/OrganizacionController.java:384-421 | the method returns the corrected client address |
| `OrganizacionController.SuspenderOrganizacion` | alma_backend/alma_backend/src/main/java/com/alma/alma_backend/controller/OrganizacionController.java:153-184 | never 400, whatever the reason; 200 exactly when the admin is found and the id exists, with the suspension and its audit record; otherwise 500 with nothing changed |
| `OrganizacionController.ActivarOrganizacion` | alma_backend/alma_backend/src/main/java/com/alma/alma_backend/controller/OrganizacionController.java:191-222 | never 400; 200 exactly when the admin is found and the id exists, with the activation and its audit record; otherwise 500 with nothing changed |
| `OrganizacionController.DarDeBajaOrganizacion` | alma_backend/alma_backend/src/main/java/com/alma/alma_backend/controller/OrganizacionController.java:230-268 | 400 exactly when the reason is null or blank, before anything else; 200 exactly when the reason is given, the admin is found and the id exists; no other outcome changes anything |
| `OrganizacionController.CambiarEstadoOrganizacion` | alma_backend/alma_backend/src/main/java/com/alma/alma_backend/controller/OrganizacionController.java:275-313 | 400 exactly when the reason is null or blank; 200 exactly when the reason is given, the admin is found and the service admits the change; the audit record carries the client address |
| `IAService.IAServiceImpl.IniciarSesion` | alma_backend/alma_backend/src/main/java/com/alma/alma_backend/service/IAServiceImpl.java:41-59 | succeeds exactly when the patient exists and a given professional exists; the one new session is ACTIVA with no messages, of type CONVERSACION when none is given |
| `IAService.MensajesDe` | alma_backend/alma_backend/src/main/java/com/alma/alma_backend/service/IAServiceImpl.java:73 | a session's stored messages are never more than all stored messages |
| `IAService.MensajesDeAppend` | alma_backend/alma_backend/src/main/java/com/alma/alma_backend/service/IAServiceImpl.java:79-99 | storing one message adds one to its own session's count and nothing to the others |
| `IAService.Respuesta` | alma_backend/alma_backend/src/main/java/com/alma/alma_backend/service/IAServiceImpl.java:90-98 | the reply belongs to the session, has role ASISTENTE and carries the sentiment of the user's message |
| `IAService.EnvioConserva` | alma_backend/alma_backend/src/main/java/com/alma/alma_backend/service/IAServiceImpl.java:73-103 | storing two messages and adding 2 to the counter keeps the invariant: every counter equals its stored messages, an even number of at most 100 |
| `IAService.AltaConserva` | alma_backend/alma_backend/src/main/java/com/alma/alma_backend/service/IAServiceImpl.java:57 | adding a new session with no messages keeps the invariant |
| `IAService.IAServiceImpl.EnviarMensaje` | alma_backend/alma_backend/src/main/java/com/alma/alma_backend/service/IAServiceImpl.java:63-106 | succeeds exactly when the session exists, is ACTIVA, has fewer than 100 messages and the message is not null; then the user message and the reply are appended in that order and the counter grows by 2; otherwise nothing changes |
| `IAService.ToInt` | alma_backend/alma_backend/src/main/java/com/alma/alma_backend/service/IAServiceImpl.java:124 | the `(int)` cast keeps an int-range value and otherwise wraps modulo 2^32 into the int range |
| `IAService.Finalizada` | alma_backend/alma_backend/src/main/java/com/alma/alma_backend/service/IAServiceImpl.java:118-137 | a closed session is FINALIZADA, ends now, records its duration, and takes satisfaction, emotional state and notes only where the request has them; nothing else changes |
| `IAService.FinalizadaCerrada` | alma_backend/alma_backend/src/main/java/com/alma/alma_backend/service/IAServiceImpl.java:68-70 | after closing, the session accepts no more messages |
| `IAService.FinalizarConserva` | alma_backend/alma_backend/src/main/java/com/alma/alma_backend/service/IAServiceImpl.java:110-147 | closing a session keeps the message-count invariant |
| `IAService.IAServiceImpl.FinalizarSesion` | alma_backend/alma_backend/src/main/java/com/alma/alma_backend/service/IAServiceImpl.java:110-147 | succeeds exactly when the session exists and is ACTIVA; then it becomes `Finalizada`; otherwise nothing changes |
| `IAService.SentimientoTal` | alma_backend/alma_backend/src/main/java/com/alma/alma_backend/service/IAServiceImpl.java:244-258 | as written: POSITIVO exactly when the lower-cased text has a positive keyword |
| `IAService.SentimientoTalMuyNegativo` | alma_backend/alma_backend/src/main/java/com/alma/alma_backend/service/IAServiceImpl.java:250-255 | as written: MUY_NEGATIVO only for a text with "horrible" or "terrible" and no positive or negative keyword |
| `IAService.MuyMalTal` | alma_backend/alma_backend/src/main/java/com/alma/alma_backend/service/IAServiceImpl.java:250-255 | as written: a text with "muy mal" and no positive keyword is classified NEGATIVO |
| `IAService.AnalizarSentimiento` | alma_backend/alma_backend/src/main/java/com/alma/alma_backend/service/IAServiceImpl.java:244-258 | corrected: POSITIVO exactly when the lower-cased text has a positive keyword |
| `IAService.MuyMalCorregido` | alma_backend/alma_backend/src/main/java/com/alma/alma_backend/service/IAServiceImpl.java:250-255 | corrected: a text with "muy mal" and no positive keyword is MUY_NEGATIVO |
| `IAService.SentimientoCorregidoRefina` | alma_backend/alma_backend/src/main/java/com/alma/alma_backend/service/IAServiceImpl.java:244-258 | the corrected classifier differs from the code only by turning NEGATIVO into MUY_NEGATIVO on very negative texts; MUY_NEGATIVO and NEGATIVO are characterised exactly |
| `MetaDiariaEntity.FechaCompletadaTras` | alma_backend/alma_backend/src/main/java/com/alma/alma_backend/entity/MetaDiaria.java:60-64 | after the update hook a completion instant exists exactly when the state is COMPLETADA, and an existing one is kept |
| `MetaDiariaEntity.AlActualizar` | alma_backend/alma_backend/src/main/java/com/alma/alma_backend/entity/MetaDiaria.java:55-65 | the update hook always leaves a goal that has a completion instant exactly when it is COMPLETADA, stamps the modification instant, keeps a consistent completion instant, and changes nothing else |
| `MetaDiariaEntity.AlActualizarIdempotente` | alma_backend/alma_backend/src/main/java/com/alma/alma_backend/entity/MetaDiaria.java:55-65 | running the hook twice differs from running it once only in the modification instant |
| `MetaDiariaEntity.MetaDiaria.constructor` | alma_backend/alma_backend/src/main/java/com/alma/alma_backend/entity/MetaDiaria.java:35 | a new goal is PENDIENTE with no completion, creation or modification instant, and is consistent |
| `MetaDiariaEntity.MetaDiaria.OnCreate` | alma_backend/alma_backend/src/main/java/com/alma/alma_backend/entity/MetaDiaria.java:49-53 | creation stamps the creation and modification instants and nothing else |
| `MetaDiariaEntity.MetaDiaria.OnUpdate` | alma_backend/alma_backend/src/main/java/com/alma/alma_backend/entity/MetaDiaria.java:55-65 | the hook leaves the goal as `AlActualizar` describes |
| `MetaDiariaService.NotasTras` | alma_backend/alma_backend/src/main/java/com/alma/alma_backend/service/MetaDiariaServiceImpl.java:121-123 | the notes are replaced only when the request has some |
| `MetaDiariaService.CompletadaEnMemoria` | alma_backend/alma_backend/src/main/java/com/alma/alma_backend/service/MetaDiariaServiceImpl.java:118-125 | the goal as completarMeta's setters leave it: COMPLETADA, completed now, notes replaced when given, nothing else changed |
| `MetaDiariaService.CanceladaEnMemoria` | alma_backend/alma_backend/src/main/java/com/alma/alma_backend/service/MetaDiariaServiceImpl.java:135-141 | the goal as cancelarMeta's setters leave it: CANCELADA, notes replaced when given, completion instant untouched |
| `MetaDiariaService.ConEstadoEnMemoria` | alma_backend/alma_backend/src/main/java/com/alma/alma_backend/service/MetaDiariaServiceImpl.java:98-104 | the goal as actualizarEstadoMeta's setters leave it: the requested state, notes replaced when given, nothing else changed |
| `MetaDiariaService.EditadaEnMemoria` | alma_backend/alma_backend/src/main/java/com/alma/alma_backend/service/MetaDiariaServiceImpl.java:151-163 | the goal as actualizarMeta's setters leave it: text, day and notes where given, nothing else changed |
| `MetaDiariaService.Completada` | alma_backend/alma_backend/src/main/java/com/alma/alma_backend/service/MetaDiariaServiceImpl.java:114-126 | a completed goal is COMPLETADA with completion instant now, consistent, and otherwise changed only in notes and modification instant |
| `MetaDiariaService.Cancelada` | alma_backend/alma_backend/src/main/java/com/alma/alma_backend/service/MetaDiariaServiceImpl.java:131-143 | a cancelled goal is CANCELADA with no completion instant, whatever its prior state |
| `MetaDiariaService.ConEstado` | alma_backend/alma_backend/src/main/java/com/alma/alma_backend/service/MetaDiariaServiceImpl.java:94-106 | the goal takes the requested state, stays consistent, keeps its completion instant when it stays COMPLETADA, and changes nothing else |
| `MetaDiariaService.Editada` | alma_backend/alma_backend/src/main/java/com/alma/alma_backend/service/MetaDiariaServiceImpl.java:147-165 | text, date and notes change only where the request has them; the state and a consistent completion instant are kept |
| `MetaDiariaService.RespuestaAntesDelGancho` | alma_backend/alma_backend/src/main/java/com/alma/alma_backend/entity/MetaDiaria.java:55-65 | the stored goal is the hook applied to the answered one; setting a PENDIENTE goal COMPLETADA answers with no completion instant though one is stored, and cancelling a completed goal answers with the old instant though none is stored |
| `MetaDiariaService.ClaveTexto` | alma_backend/alma_backend/src/main/java/com/alma/alma_backend/repository/MetaDiariaRepository.java:50 | the duplicate key `UPPER(TRIM(text))` is never longer than the text; `ClaveTextoIgnoraEspacios` and `ClaveTextoIgnoraMayusculas` state what it ignores |
| `MetaDiariaService.ClaveTextoIgnoraEspacios` | alma_backend/alma_backend/src/main/java/com/alma/alma_backend/repository/MetaDiariaRepository.java:50 | spaces put before or after a text do not change its key |
| `MetaDiariaService.ClaveTextoIgnoraMayusculas` | alma_backend/alma_backend/src/main/java/com/alma/alma_backend/repository/MetaDiariaRepository.java:50 | upper-casing a text does not change its key |
| `MetaDiariaService.SimilarIgnoraEspacios` | alma_backend/alma_backend/src/main/java/com/alma/alma_backend/repository/MetaDiariaRepository.java:48-51 | a text that matches a goal as a duplicate still matches when spaces are put around it, and when it is upper-cased |
| `MetaDiariaService.CanceladaNoBloquea` | alma_backend/alma_backend/src/main/java/com/alma/alma_backend/repository/MetaDiariaRepository.java:51 | a cancelled goal never counts as a duplicate |
| `MetaDiariaService.MetaDiariaServiceImpl.CrearMeta` | alma_backend/alma_backend/src/main/java/com/alma/alma_backend/service/MetaDiariaServiceImpl.java:33-59 | succeeds exactly when the patient exists, a text is given and no duplicate exists for the day (today when none is given); the one new goal is PENDIENTE and is itself a duplicate from then on; a failure saves nothing |
| `MetaDiariaService.MetaDiariaServiceImpl.CompletarMeta` | alma_backend/alma_backend/src/main/java/com/alma/alma_backend/service/MetaDiariaServiceImpl.java:110-127 | succeeds exactly when the goal exists and is not yet COMPLETADA; then the stored goal becomes `Completada`, and the answer is the goal before the update hook (`CompletadaEnMemoria`); otherwise it is unchanged |
| `MetaDiariaService.MetaDiariaServiceImpl.CancelarMeta` | alma_backend/alma_backend/src/main/java/com/alma/alma_backend/service/MetaDiariaServiceImpl.java:131-143 | succeeds exactly when the goal exists; then the stored goal becomes `Cancelada`, and the answer is the goal before the update hook (`CanceladaEnMemoria`), still carrying any old completion instant |
| `MetaDiariaService.MetaDiariaServiceImpl.ActualizarEstadoMeta` | alma_backend/alma_backend/src/main/java/com/alma/alma_backend/service/MetaDiariaServiceImpl.java:94-106 | succeeds exactly when an id is given and the goal exists; then the stored goal becomes `ConEstado`, and the answer is the goal before the update hook (`ConEstadoEnMemoria`) |
| `MetaDiariaService.MetaDiariaServiceImpl.ActualizarMeta` | alma_backend/alma_backend/src/main/java/com/alma/alma_backend/service/MetaDiariaServiceImpl.java:147-165 | succeeds exactly when the goal exists; then the stored goal becomes `Editada`, and the answer is the goal before the update hook (`EditadaEnMemoria`) |
| `OrganizacionEstadisticas.Long` | alma_backend/alma_backend/src/main/java/com/alma/alma_backend/dto/OrganizacionEstadisticasDTO.java:119 | Java `long` addition: the result is in the 64-bit range, equals the exact sum when that fits, and differs from it by a multiple of 2^64 |
| `OrganizacionEstadisticas.CeroSiNulo` | alma_backend/alma_backend/src/main/java/com/alma/alma_backend/dto/OrganizacionEstadisticasDTO.java:88-90 | a missing count reads as 0 and a present one as itself |
| `OrganizacionEstadisticas.Total` | alma_backend/alma_backend/src/main/java/com/alma/alma_backend/dto/OrganizacionEstadisticasDTO.java:127-130 | the total is always a `long` value; `TotalExacto` gives its value for database-sized counts and `TotalDesborda` its wrap-around |
| `OrganizacionEstadisticas.TotalExacto` | alma_backend/alma_backend/src/main/java/com/alma/alma_backend/dto/OrganizacionEstadisticasDTO.java:126-131 | for database-sized counts the total is the exact non-negative sum, with missing counts as 0 |
| `OrganizacionEstadisticas.TotalDesborda` | alma_backend/alma_backend/src/main/java/com/alma/alma_backend/dto/OrganizacionEstadisticasDTO.java:119 | a count at the top of the `long` range makes the total wrap to the most negative `long` |
| `OrganizacionEstadisticas.OrganizacionEstadisticasDTO.Resumen` | alma_backend/alma_backend/src/main/java/com/alma/alma_backend/dto/OrganizacionEstadisticasDTO.java:80-93 | active exactly when VERIFICADA; missing counts become 0; admins and super-admins are 0; the stored total matches the role counts only when it equals professionals plus patients |
| `OrganizacionEstadisticas.OrganizacionEstadisticasDTO.Completo` | alma_backend/alma_backend/src/main/java/com/alma/alma_backend/dto/OrganizacionEstadisticasDTO.java:108-120 | each count defaults to 0 and the total is their `long` sum, so the DTO is consistent |
| `OrganizacionEstadisticas.OrganizacionEstadisticasDTO.CalcularTotal` | alma_backend/alma_backend/src/main/java/com/alma/alma_backend/dto/OrganizacionEstadisticasDTO.java:126-131 | afterwards the total is the sum of the role counts and nothing else changed; on a consistent DTO it changes nothing, so a second call is a no-op |
| `ChatService.AltaUnica` | alma_backend/alma_backend/src/main/java/com/alma/alma_backend/service/ChatServiceImpl.java:58-64 | creating a session for a pair with no ACTIVA session keeps "at most one ACTIVA session per pair" |
| `ChatService.ArchivoUnico` | alma_backend/alma_backend/src/main/java/com/alma/alma_backend/service/ChatServiceImpl.java:114-121 | archiving a session keeps that invariant |
| `ChatService.ChatServiceImpl.IniciarSesionChat` | alma_backend/alma_backend/src/main/java/com/alma/alma_backend/service/ChatServiceImpl.java:39-65 | succeeds exactly when patient and professional exist; returns the pair's ACTIVA session unchanged when there is one, and otherwise creates exactly one new ACTIVA session |
| `ChatService.ChatServiceImpl.ObtenerOCrearSesionActiva` | alma_backend/alma_backend/src/main/java/com/alma/alma_backend/service/ChatServiceImpl.java:76-92 | an existing ACTIVA session of the pair is returned with nothing changed, without checking the ids; otherwise, when both ids exist, exactly one new ACTIVA session of the pair, stamped now, is added under a fresh id; a failure leaves the sessions unchanged; messages, patients, professionals and users are never touched |
| `ChatService.ChatServiceImpl.ArchivarSesion` | alma_backend/alma_backend/src/main/java/com/alma/alma_backend/service/ChatServiceImpl.java:114-121 | an unknown id fails; otherwise the session becomes ARCHIVADA from whatever state and nothing else changes |
| `ChatService.ChatServiceImpl.EnviarMensaje` | alma_backend/alma_backend/src/main/java/com/alma/alma_backend/service/ChatServiceImpl.java:125-145 | succeeds exactly when the session and the sender exist and the text is not null; the message is appended unread with a fresh larger id and the session's last activity becomes now |
| `ChatService.ChatServiceImpl.MarcarMensajeComoLeido` | alma_backend/alma_backend/src/main/java/com/alma/alma_backend/service/ChatServiceImpl.java:155-164 | an unknown id fails; otherwise that one message becomes read now and nothing else changes |
| `ChatService.Marcado` | alma_backend/alma_backend/src/main/java/com/alma/alma_backend/repository/MensajeChatRepository.java:20-26 | marks one message read if it is pending for the reader; its meaning is stated by `MarcarLeidosEfecto` (nothing pending remains, nothing else changes) and `MarcarLeidosIdempotente` |
| `ChatService.MarcarLeidos` | alma_backend/alma_backend/src/main/java/com/alma/alma_backend/service/ChatServiceImpl.java:168-176 | the reference the marking loop is proved equal to: same length, each message marked on its own; `MarcarLeidosEfecto`, `MarcarLeidosIdempotente` and `NoLeidosTrasMarcar` state what it achieves |
| `ChatService.MarcarLeidosEfecto` | alma_backend/alma_backend/src/main/java/com/alma/alma_backend/service/ChatServiceImpl.java:168-176 | after marking, no message of the session sent by someone else is unread; other sessions' messages are untouched; only the read flag and instant change |
| `ChatService.MarcarLeidosIdempotente` | alma_backend/alma_backend/src/main/java/com/alma/alma_backend/service/ChatServiceImpl.java:168-176 | marking twice is the same as marking once, whatever the second instant |
| `ChatService.ChatServiceImpl.MarcarMensajesComoLeidos` | alma_backend/alma_backend/src/main/java/com/alma/alma_backend/service/ChatServiceImpl.java:168-176 | the loop leaves the messages as `MarcarLeidos` of the old ones and leaves the sessions alone |
| `ChatService.NoLeidos` | alma_backend/alma_backend/src/main/java/com/alma/alma_backend/repository/MensajeChatRepository.java:28-30 | a session's unread count is at most the number of messages |
| `ChatService.NoLeidosDe` | alma_backend/alma_backend/src/main/java/com/alma/alma_backend/repository/MensajeChatRepository.java:28-30 | the unread messages of one sender are part of the session's unread count |
| `ChatService.NoLeidosTrasMarcar` | alma_backend/alma_backend/src/main/java/com/alma/alma_backend/service/ChatServiceImpl.java:179-181 | once a user has marked the session read, the unread count is exactly the user's own unread messages |
| `AsignacionService.AsignacionProfesionalPacienteServiceImpl.Save` | alma_backend/alma_backend/src/main/java/com/alma/alma_backend/service/AsignacionProfesionalPacienteServiceImpl.java:31-51 | succeeds exactly when both ids are given and exist; the one new assignment is active, principal unless the request says otherwise, stamped now, and makes the pair active |
| `AsignacionService.Desactivada` | alma_backend/alma_backend/src/main/java/com/alma/alma_backend/service/AsignacionProfesionalPacienteServiceImpl.java:94-99 | deactivation makes that assignment inactive and touches no other; an already inactive one is left as it was |
| `AsignacionService.DesactivarPareja` | alma_backend/alma_backend/src/main/java/com/alma/alma_backend/service/AsignacionProfesionalPacienteServiceImpl.java:102-111 | after deactivating one assignment the pair is still active exactly when another active assignment links it |
| `AsignacionService.AsignacionProfesionalPacienteServiceImpl.DeactivateAsignacion` | alma_backend/alma_backend/src/main/java/com/alma/alma_backend/service/AsignacionProfesionalPacienteServiceImpl.java:94-99 | an unknown id fails with nothing changed; otherwise the store becomes `Desactivada` |
| `AsignacionService.AsignacionProfesionalPacienteServiceImpl.IsAsignacionActiva` | alma_backend/alma_backend/src/main/java/com/alma/alma_backend/service/AsignacionProfesionalPacienteServiceImpl.java:102-111 | false when either id is null; failure exactly when an id lies outside the int range (`Math.toIntExact`); otherwise true exactly when an active assignment links the pair |
| `UsuarioMapper.Respuesta` | alma_backend/alma_backend/src/main/java/com/alma/alma_backend/mapper/UsuarioMapper.java:20-35 | every column is copied, and the two flags are true only when present and true |
| `UsuarioMapper.ToResponse` | alma_backend/alma_backend/src/main/java/com/alma/alma_backend/mapper/UsuarioMapper.java:16-36 | null maps to null; otherwise a null `activo` or `passwordTemporal` becomes false |
| `UsuarioMapper.Actualizado` | alma_backend/alma_backend/src/main/java/com/alma/alma_backend/mapper/UsuarioMapper.java:42-65 | each of the eight updatable columns takes the request's value exactly when it is present, and every other column is unchanged |
| `UsuarioMapper.ActualizadoNeutroEIdempotente` | alma_backend/alma_backend/src/main/java/com/alma/alma_backend/mapper/UsuarioMapper.java:42-65 | an empty request changes nothing, and applying a request twice equals applying it once |
| `UsuarioMapper.ActualizadoCompone` | alma_backend/alma_backend/src/main/java/com/alma/alma_backend/mapper/UsuarioMapper.java:42-65 | two updates in a row equal one update by the merged request, the later value winning |
| `UsuarioMapper.RespuestaTrasActualizar` | alma_backend/alma_backend/src/main/java/com/alma/alma_backend/mapper/UsuarioMapper.java:28-65 | after an update the response shows the user active exactly when the request said true, or said nothing and the user was active |
| `UsuarioMapper.UpdateEntity` | alma_backend/alma_backend/src/main/java/com/alma/alma_backend/mapper/UsuarioMapper.java:38-66 | a null argument changes nothing; otherwise the entity becomes `Actualizado` |
| `UsuarioMapper.ActualizarPersonales` | alma_backend/alma_backend/src/main/java/com/alma/alma_backend/mapper/UsuarioMapper.java:42-53 | the first four setters change name, surnames, e-mail and phone only where present |
| `UsuarioMapper.ActualizarCuenta` | alma_backend/alma_backend/src/main/java/com/alma/alma_backend/mapper/UsuarioMapper.java:54-65 | the last four setters change DNI, position, document URL and active flag only where present |
| `PacienteMapper.ToResponse` | alma_backend/alma_backend/src/main/java/com/alma/alma_backend/mapper/PacienteMapper.java:19-31 | null maps to null; otherwise the patient's columns and the user's response, which is null exactly when the user is |
| `PacienteMapper.ToPacienteDTO` | alma_backend/alma_backend/src/main/java/com/alma/alma_backend/mapper/PacienteMapper.java:33-47 | null maps to null; the name and e-mail come from the user, and are null when there is no user |
| `PacienteMapper.VistasCoinciden` | alma_backend/alma_backend/src/main/java/com/alma/alma_backend/mapper/PacienteMapper.java:19-47 | the flat DTO agrees with the response on the name, the e-mail and the birth date |
| `PacienteMapper.Aplicado` | alma_backend/alma_backend/src/main/java/com/alma/alma_backend/mapper/PacienteMapper.java:54-62 | birth date and gender change only when present, the health card only when present and non-empty, and the id never |
| `PacienteMapper.AplicadoTarjeta` | alma_backend/alma_backend/src/main/java/com/alma/alma_backend/mapper/PacienteMapper.java:60-62 | an update never blanks or removes the health card, and repeating it changes nothing more |
| `PacienteMapper.AplicadoNeutro` | alma_backend/alma_backend/src/main/java/com/alma/alma_backend/mapper/PacienteMapper.java:49-63 | a request with nothing usable leaves the patient as it was |
| `PacienteMapper.ApplyUpdates` | alma_backend/alma_backend/src/main/java/com/alma/alma_backend/mapper/PacienteMapper.java:49-63 | a null argument changes nothing; otherwise the patient's columns become `Aplicado` and the user is untouched |

## Left out

- **Other validators.** `isValidPassword`, `isValidNumeroColegiado`, `isValidTarjetaSanitaria` (both sides) and `isEmailCorporativo(email, nombreOrganizacion)` are not in the modelled core.
- **Case mapping.** Only ASCII letters are mapped. The Unicode special cases of `toUpperCase` and `toLowerCase` (sharp s, dotless i, and so on) are not modelled.
- **JavaScript `Date`.** Only texts of the form `YYYY-MM-DD` are read, as UTC midnight. A day past the end of its month (days 29 to 31, as in `2023-02-30`) is rolled into the next month (`FrontendDates.Normalize`), so such a text counts as a valid birth date; JavaScript engines have not all treated these dates alike. The engine's fallback parsing of other texts, and local time zones, are not modelled. The current instant is a parameter (today's civil date plus milliseconds into the day).
- **`FrontendDates.CalcularEdad`.** Its contract does not restate the anniversary rule. That rule is proved separately by `AgeIsWholeYears`.
- **Header lookup.** Headers are looked up by exact name. A servlet container would match header names case-insensitively.
- **Security and HTTP.** Authentication and role checks (`@PreAuthorize`) are not modelled. The authenticated-user lookup is a parameter that may be absent. Response bodies are the modelled organisation, not the DTO produced by `OrganizacionMapper.toResponse`.
- **`Organizacion.java`.** The entity file in this repository declares neither `estado` nor `nombreOficial`, although the service reads and writes both. The model gives the organisation the fields the service uses, and assumes `estado` is never null.
- **Organisation reference.** `OrganizacionMapper.toSummary`, called from `UsuarioMapper.toResponse`, is not modelled. The user's organisation is kept as an id.
- **DTO conversions and validation.** `convertirADTO` and the other DTO conversions are not modelled, and neither are bean-validation annotations such as the 255-character limit on goal texts.
- **Read-only and other service members.** These are not modelled:
  - the read-only queries of every service (`find*`, `obtener*`);
  - `deleteById` and `eliminarMeta`;
  - `agregarNotasProfesional`;
  - AI topic and alert extraction, which the source leaves as a comment;
  - `obtenerEstadisticasMetas`, which works in floating point.
- **`IAService.Finalizada`.** The duration is always recorded. The source records it only when `fechaInicio` is set, and every session the model creates has it set.
- **`IAService.IAServiceImpl.EnviarMensaje`.** The reply carries the sentiment of the corrected classifier `AnalizarSentimiento`, not the classifier as written (see Findings). With a null message the source throws inside its transaction; the model fails with nothing stored.
- **`OrganizacionController` endpoints.** They use the corrected client address `IpCliente` (see Findings). The code as written answers 500 when the chosen address is made of commas alone.
- **Hibernate.** Flush order and dirty checking are reduced to their visible effect. The `@PreUpdate` hooks run when a changed row is saved. The goal services answer with the goal as it was before the hook ran, because `save` on a managed entity does not flush.

Behaviour of the code worth knowing, which the model follows:

- Only dar-baja and cambiar-estado check that a reason is given (`OrganizacionController.DarDeBajaOrganizacion`, `OrganizacionController.CambiarEstadoOrganizacion`); suspender and activar pass the reason on unchecked, blank or not.
- The service accepts any target state, BAJA included, whatever the current state (`OrganizacionService.ServicioAdmiteFueraDePantalla`).
- The CIF check rejects the hyphenated form that the formatter produces, because it strips only whitespace (`FrontendValidation.FormattedCIFRejected`).
- REGCESS allows 20 characters in the front end and 50 in the back end (`ValidationComparison.RegcessLongCode`).

## Findings

| source | as written | input that shows it | evidently intended | confidence | as-written member | corrected member |
|---|---|---|---|---|---|---|
| alma_frontend/src/utils/validation.ts:366 | the domain is taken from the untrimmed address, while validity is checked on the trimmed one | `"a@gmail.com "` is valid, and its domain `"gmail.com "` is not on the list, so it is accepted as corporate | take the domain from the trimmed address, so that public domains are refused however the text is padded | not executed | `FrontendValidation.CorporativoTrailingSpaceAccepted` | `FrontendValidation.CorporativoTrimmedIff` |
| alma_backend/alma_backend/src/main/java/com/alma/alma_backend/controller/OrganizacionController.java:417-419 | `ip.split(",")[0]` on an address containing a comma | `X-Forwarded-For: ","`: Java's `split` drops trailing empty strings, so the array is empty, indexing it throws, and the endpoint answers 500 | keep the (empty) first piece, so that a malformed proxy header cannot break the state change | not executed | `OrganizacionController.ForwardedSoloComas` | `OrganizacionController.IpCliente` |
| alma_backend/alma_backend/src/main/java/com/alma/alma_backend/service/IAServiceImpl.java:250-255 | "mal" is tested before "muy mal" | `"me siento muy mal"` contains "mal", so it is classified NEGATIVO and the MUY_NEGATIVO branch can never fire for "muy mal" | test the stronger phrases first, so that "muy mal" gives MUY_NEGATIVO | not executed | `IAService.MuyMalTal` | `IAService.MuyMalCorregido` |
