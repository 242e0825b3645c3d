# who_is_on, modelled in Dafny

who_is_on queries the Security event log of a Windows machine through WMI.
It reports logoff events (4647) and interactive logons (4624 with logon
type 2). For each one it prints the computer, the category, the event code
and the `DOMAIN\user` taken from the event's free-text message. This project
models the logic that sits between the COM calls:

- **Helpers** (`helpers.dfy`): the helpers of `daw::wmi::helpers`.
  - Decoding a VARIANT: `validate_variant_type`, `get_number` for the
    integer and boolean tags, and `get_string`.
  - The message field extractor `find_value` and its fixed-label wrappers.
  - `equal_eh` and `assign`.
  - `get_property`, which reads a result object's property through an
    out-parameter.
  - `parse_stringtime`, which reformats a WMI datetime.
- **Wbem** (`wbem.dfy`): the values those helpers work on.
  - A VARIANT is a tag, the raw bits of its value union and the text of its
    BSTR. Every numeric field (`bVal`, `uiVal`, `lVal`, `uintVal`, …) is a
    view of the union's low bits, so a functor that reads the "wrong" member
    gets what the C++ union gives it.
  - The C++ integer conversion `(T)x` wraps modulo 2^bits.
  - A result object is a map from property name to VARIANT.
  - One call of the enumerator's `Next` is a fetch outcome.
- **SecureWipe** (`secure_wipe.dfy`): `secure_wipe_array` and its twin
  `sec_cstr`. This is a class over an `array` of 16-bit wide characters,
  with the constructor's `memset` and the destructor's wipe.
- **WhoIsOn** (`who_is_on.dfy`): the `GetValue<…>` functors, with `"`
  escaped as `\"`, and the row loop of `wmain`.
  - The loop body is a method, proved equal to a specification of one step.
  - The loop is a method with `break`/`continue`, proved equal to a
    specification of the whole report.
  - Lemmas state the logon filter, the user column, where the loop stops,
    and that the loop composes.
- **Auth** (`authentication.dfy`): the `Authentication` class.
  - Its constructor runs the credential prompt, sets the Kerberos authority
    and builds the `COAUTHIDENTITY` by splitting `DOMAIN\user` at the first
    backslash. It may throw, so it is a static factory returning a `Result`.
  - Its accessors return null or the stored text, depending on the flags.
- **WmiQuery** (`wmi_query.dfy`): `wmi_query<T>`.
  - The setup steps run in the code's order, and any of them may throw.
  - Then comes the result loop. The row callback may return a value, throw
    `SkipRowException`, or throw anything else.
- **Types** (`types.dfy`): `Option`, `Result` and `Outcome`, and one `Error`
  constructor for each exception the code throws.

Exceptions are values. A function or method that can throw returns `Failure`
(or `Fail`) carrying the error. The calls into COM are parameters of the
model, along with the credential dialog's answer and the enumerator's
sequence of outcomes.

Points about the code that the model keeps:
- The loop in `wmain` (who_is_on.cpp:442-514) has no filter on the SYSTEM
  account (`Security ID: S-1-5-18`). It does no sorting, and it reads no
  `TimeGenerated`. A property it cannot fetch ends the loop (`break`); it
  does not skip the row.
- The loop in `wmi_query<T>` (wmi_query.h:155-177) knows only
  `SkipRowException`. There is no "stop" signal. Any other exception leaves
  the function, and no result list is returned.
- `find_value` cuts the token at " \t\r\n" only, but then reads it back
  through a wide string stream. For a `std::wstring` result the stream also
  skips and stops at a vertical tab or form feed, so the value can be shorter
  than the token, or empty.
- `find_value<int>` returns whatever the stream extraction makes of the
  token. A failed parse is not an error. The model passes the extraction in
  as a parameter.

## Model

| member | source | states |
|---|---|---|
| Wbem.Cast | helpers.h:153-172 | the conversion `(T)x`: the result lies in T's range and is congruent to x modulo 2^bits |
| Wbem.CastInRange | helpers.h:153-172 | a conversion leaves a value already in T's range unchanged |
| Helpers.ValidateVariantType | helpers.h:69-75 | throws exactly when the tag differs from the requested one, with the requested and the actual tag; otherwise has no effect |
| Helpers.GetNumber | helpers.h:151-177 | succeeds exactly for the tags UI1, UI2, UI4, INT, I2, I4, UINT and BOOL, with the field the tag selects converted by `(T)`: the value is in the target type's range and congruent to the field modulo 2^bits; any other non-float tag throws "Unknown VARIANT type" |
| Helpers.GetNumberExact | helpers.h:152-166 | for an integer tag whose field fits the target type, the result is that field unchanged |
| Helpers.GetString | helpers.cpp:49-57 | succeeds exactly for a BSTR and returns its text unchanged, with no NULL-to-empty case; any other tag throws a type mismatch |
| Helpers.Find | helpers.h:79-83 | `find(what, from)`: an occurrence at or after `from` with none before it, or none at all |
| Helpers.FindFirst | helpers.h:86-91 | `find_first_not_of` / `find_first_of` with " \t\r\n": the first index of the wanted kind at or after `from`, or none |
| Helpers.FindFirstIs | helpers.h:86-91 | an index of the wanted kind with none before it is the one reported |
| Helpers.IsNull | helpers.cpp:28-30 | true exactly for VT_NULL, a tag that is neither a BSTR nor any integer or floating-point tag |
| Helpers.FindToken | helpers.h:78-97 | the text `find_value` hands to the stream: when present, non-empty and free of space, tab, CR and LF |
| Helpers.SkipSpaces | helpers.h:96-99 | the stream skips a prefix made only of whitespace (space, tab, CR, LF, vertical tab, form feed) and stops at a non-whitespace character |
| Helpers.TakeWord | helpers.h:96-99 | the stream reads a prefix free of whitespace that ends at whitespace or at the end of the text |
| Helpers.ExtractWord | helpers.h:96-99 | `wss >> result` for a `std::wstring`: the result holds no whitespace |
| Helpers.ExtractWordPlain | helpers.h:96-99 | a token with no whitespace is read back unchanged |
| Helpers.TakeWordStops | helpers.h:96-99 | the word read is exactly the text before the first whitespace |
| Helpers.ExtractWordVerticalTab | helpers.h:96-99 | "\vbob" reads as "bob" and "\v" alone reads as "" |
| Helpers.ExtractWordFormFeed | helpers.h:96-99 | "bo\fb" reads as "bo" |
| Helpers.FindValue | helpers.h:78-101 | present exactly when a token is found; the value, read back through the stream, holds no whitespace |
| Helpers.FindFirstOccurrence | helpers.h:79-83 | the search reports the first occurrence of the label |
| Helpers.FindValueNoLabel | helpers.h:79-83 | no occurrence of the label gives none |
| Helpers.FindValueNeedsLabel | helpers.h:79-83 | a found token implies a first occurrence of the label |
| Helpers.FindValueOnlyBlanks | helpers.h:84-90 | only whitespace after the first label occurrence gives none |
| Helpers.FindValueTokenAtEnd | helpers.h:91-95 | a token not followed by whitespace, one that runs to the end of the message, gives none |
| Helpers.FindValueToken | helpers.h:84-100 | the token is exactly the run of non-blanks that starts at the first non-blank after the first label occurrence and is followed by a blank; the value is the stream's reading of it, the run itself when it holds no vertical tab or form feed |
| Helpers.FirstOccurrenceAppend | helpers.h:79-83 | the first occurrence of the label stays the first when text is appended |
| Helpers.FindValueAppend | helpers.h:78-100 | only the first occurrence matters: a found token and its value are unchanged by anything appended to the message |
| Helpers.FindValueExample | helpers.h:78-100 | "x Logon Type:   2  extra" yields the token "2" |
| Helpers.FindLogonType | helpers.cpp:32-35 | present exactly when `find_value` finds a token after "Logon Type:", and then the stream's int extraction of that token |
| Helpers.FindSecurityId | helpers.cpp:37-39 | equals `find_value` with the label "Security ID:" |
| Helpers.FindAccountName | helpers.cpp:41-43 | equals `find_value` with the label "Account Name:" |
| Helpers.FindAccountDomain | helpers.cpp:45-47 | equals `find_value` with the label "Account Domain:" |
| Helpers.EqualEh | helpers.h:185-191 | true exactly when the optional holds the compared value |
| Helpers.Assign | helpers.h:193-200 | the contained value when there is one, otherwise the default |
| Helpers.EqualEhAssign | helpers.h:185-200 | `equal_eh` holds exactly when the optional is present and equal to the value; `assign` yields the contained value, else the default |
| Helpers.GetNumberProperty | helpers.h:202-212 | a property that cannot be fetched returns false with the out-value untouched; otherwise the decoded number is written and true returned, or `get_number` throws first |
| Helpers.GetStringProperty | helpers.cpp:60-69 | false with the out-value untouched when the fetch fails; otherwise the BSTR text is written and true returned, or `get_string` throws for another tag |
| Helpers.Substr | helpers.cpp:81-86 | `string_ref::substr`: throws out_of_range exactly when pos is past the end; otherwise the n characters from pos, or all the characters from pos when fewer than n remain |
| Helpers.ParseStringTime | helpers.cpp:78-93 | throws exactly for inputs shorter than 12 characters; from 14 characters on, the result has 19 characters |
| Helpers.ParseStringTimeLayout | helpers.cpp:81-92 | from 14 characters on, the result is `s[0..4]/s[4..6]/s[6..8]/s[8..10]:s[10..12]:s[12..14]`, with '/' at 4, 7 and 10 and ':' at 13 and 16 |
| Helpers.ParseStringTimeDigits | helpers.cpp:81-92 | removing the separators from the result gives back the first 14 characters of the input |
| Helpers.ParseStringTimePrefix | helpers.cpp:81-86 | the result depends only on the first 14 characters |
| Helpers.ParseStringTimeExample | helpers.cpp:78-93 | "20160101120000.000000-480" becomes "2016/01/01/12:00:00" |
| SecureWipe.ZeroBytes | helpers.h:110-112 | `memset` on wide characters by byte count: same length; elements wholly inside the count become zero; an element straddling it keeps only its high byte; elements past it are unchanged |
| SecureWipe.ZeroBytesClearsHalf | helpers.h:110-112 | `memset(value, 0, Size)` on wide characters clears the first Size / 2 elements and leaves the upper half, the terminator included, as it was |
| SecureWipe.ZeroBytesLeavesTerminator | helpers.h:110-112 | for a three-element buffer of 0xFFFF, clearing 2 bytes leaves elements 1 and 2 at 0xFFFF |
| SecureWipe.ZeroBytesWhole | helpers.h:114-116 | clearing sizeof(T) * (Size + 1) bytes zeroes every element |
| SecureWipe.SecureWipeArray.constructor | helpers.h:110-112 | the buffer has Size + 1 elements and holds the starting contents with their first Size bytes cleared |
| SecureWipe.SecureWipeArray.Cleared | helpers.h:110-116 | with the byte count the destructor uses, every element, the terminator included, is zero |
| SecureWipe.SecureWipeArray.Size | helpers.h:134-136 | `size()` is Size, one less than the number of elements |
| SecureWipe.SecureWipeArray.End | helpers.h:118-132 | `end() - begin()` is Size, and `end()` is still inside the buffer |
| SecureWipe.SecureWipeArray.Wipe | helpers.h:114-116 | the destructor leaves all Size + 1 elements zero |
| WhoIsOn.Escape | who_is_on.cpp:74 | every double quote in the result has a backslash before it, and the result is no shorter than the input |
| WhoIsOn.UnescapeEscape | who_is_on.cpp:74 | unescaping the escaped text gives back the original |
| WhoIsOn.GetValueString | who_is_on.cpp:67-76 | NULL gives ""; otherwise succeeds exactly for a BSTR and yields its text with every `"` escaped, which unescapes to the stored string; any other tag throws a type mismatch |
| WhoIsOn.GetValueUInt | who_is_on.cpp:78-84 | succeeds exactly for VT_UINT and yields `uintVal`; any other tag throws a type mismatch |
| WhoIsOn.GetValueUInt16 | who_is_on.cpp:86-92 | succeeds exactly for VT_UI2; reading `uintVal` and narrowing it yields the `uiVal` field |
| WhoIsOn.GetValueInt32 | who_is_on.cpp:94-100 | succeeds exactly for VT_I4; reading `uintVal` and converting it to int32_t yields the `lVal` field |
| WhoIsOn.GetValueUnsupported | who_is_on.cpp:45-52 | the unspecialised functor always throws, naming the tag |
| WhoIsOn.NarrowUInt16 | who_is_on.cpp:86-92 | narrowing the 32-bit view of the union to 16 bits equals the 16-bit view |
| WhoIsOn.ReinterpretInt32 | who_is_on.cpp:94-100 | converting the unsigned 32-bit view to int32_t equals the signed 32-bit view |
| WhoIsOn.UserColumn | who_is_on.cpp:479-510 | the account domain (or "" when absent), then a backslash, then the account name (or "" when absent) |
| WhoIsOn.ProcessEvent | who_is_on.cpp:456-512 | an event is skipped only when it is a 4624 whose message decodes and whose logon type is absent or not 2; a printed event passed the filter |
| WhoIsOn.HandleEvent | who_is_on.cpp:456-512 | the loop body's property reads, filter and defaults, in the code's order, give the step of the specification |
| WhoIsOn.LogonReport | who_is_on.cpp:442-514 | the loop prints exactly the rows of the specification, and ends with the exception it specifies, if any |
| WhoIsOn.Report | who_is_on.cpp:442-514 | at most one row is printed per call of Next that returned an object; failed and zero-object calls print none |
| WhoIsOn.EventKept | who_is_on.cpp:456-512 | an event whose four properties are present with the types the query returns, and that passes the filter, is printed with its decoded ComputerName, CategoryString and EventCode and its domain\name column |
| WhoIsOn.LogonTypeFilter | who_is_on.cpp:472-478 | a 4624 event whose logon type is absent or not 2 is skipped |
| WhoIsOn.OtherEventsIgnoreLogonType | who_is_on.cpp:472-478 | an event with another code is never skipped, and its fate does not depend on the logon-type parse |
| WhoIsOn.EmittedRow | who_is_on.cpp:456-510 | a printed row carries the decoded ComputerName, CategoryString and EventCode and the domain\name column; a printed 4624 had logon type 2 |
| WhoIsOn.MissingPropertyStops | who_is_on.cpp:456-505 | a missing EventCode, Message, ComputerName or CategoryString prints nothing for the event; each ends the loop once the properties read before it have decoded and, for ComputerName and CategoryString, the event has passed the filter |
| WhoIsOn.ReportStopsAt | who_is_on.cpp:442-448 | nothing after the first outcome that ends the loop has any effect |
| WhoIsOn.ReportAppend | who_is_on.cpp:442-514 | rows printed before a later stop or exception are kept, and later outcomes only append |
| Auth.IndexOfBackslash | wmi_query.cpp:129 | `wcschr(name, '\\')`: the index of the first backslash, or none when there is none |
| Auth.SplitAccount | wmi_query.cpp:129-140 | the split exists exactly when the name contains a backslash |
| Auth.SplitAccountJoin | wmi_query.cpp:134-140 | domain + "\\" + user is the name, the domain has no backslash, and its length is the index of the first backslash |
| Auth.SplitAccountOfJoin | wmi_query.cpp:134-140 | a domain with no backslash, joined to a user with a backslash, splits back into the same domain and user |
| Auth.PromptUseToken | wmi_query.cpp:95-117 | the token is given up only after a successful prompt; a cancelled prompt keeps it; any other prompt error throws, carrying the code |
| Auth.Construct | wmi_query.cpp:95-146 | throws exactly when the prompt was shown and either failed with a code other than cancellation or succeeded with a name lacking a backslash; the token is used unless the prompt succeeded, and then the typed name and password are kept |
| Auth.Complete | wmi_query.cpp:120-144 | throws "No domain specified" exactly when the token is not used and the name has no backslash; otherwise keeps the token and NTLM flags, the name and the password, sets the Kerberos authority exactly when NTLM is off, and has an identity exactly when the token is not used |
| Auth.ConstructOutcome | wmi_query.cpp:95-146 | no prompt or a cancelled one uses the token; a prompt error throws; a typed name without a backslash throws "No domain specified"; otherwise the name splits at its first backslash and the identity's password length is the password's |
| Auth.ConstructWellFormed | wmi_query.cpp:95-146 | a constructed object has an identity exactly when the token is not used, the Kerberos authority exactly when NTLM is not used, and an identity whose fields are the split name and the password with their lengths |
| Auth.Authentication.Init | wmi_query.cpp:95 | the member initialisers: empty buffers, the token in use, no identity |
| Auth.Authentication.Create | wmi_query.cpp:95-146 | the constructor, step by step, throws what the specification throws, or yields a fresh, well-formed object whose state is the specification's |
| Auth.Authentication.BuildIdentity | wmi_query.cpp:120-144 | the authority and then the identity are set as the specification of the rest of the constructor says, or "No domain specified" is thrown |
| Auth.Authentication.NameBstr | wmi_query.cpp:152-157 | null exactly when the token is used, otherwise the stored name |
| Auth.Authentication.PasswordBstr | wmi_query.cpp:163-168 | null exactly when the token is used, otherwise the stored password |
| Auth.Authentication.AuthorityBstr | wmi_query.cpp:179-184 | null exactly when NTLM is used, otherwise "kERBEROS:COMPUTERNAME" |
| Auth.Authentication.UserAccount | wmi_query.cpp:194-196 | null exactly when the token is used; otherwise an identity whose domain, backslash and user give the name and whose password length is the password's |
| WmiQuery.WbemWrapper.GetNumber | wmi_query.h:54-57 | forwards to `get_property`: false and untouched when absent; otherwise exactly the number `get_number` decodes, in range and equal to the field when it fits |
| WmiQuery.WbemWrapper.GetText | wmi_query.cpp:50-52 | forwards to `get_property` for strings: false and untouched when absent; the BSTR text when present |
| WmiQuery.Collect | wmi_query.h:155-177 | a thrown result comes from the last row the callback was called on, which was fetched, and carries that callback's error |
| WmiQuery.Visited | wmi_query.h:157-176 | the callback runs at most once per cursor entry |
| WmiQuery.CollectAppend | wmi_query.h:155-177 | the loop over fetched rows and then the rest is the first stretch's results, then the rest's; the first exception wins |
| WmiQuery.CollectKeepsRow | wmi_query.h:170-172 | a row whose callback returns adds its value after the earlier rows' results, in cursor order |
| WmiQuery.CollectSkipsRow | wmi_query.h:170-175 | a row whose callback throws SkipRowException contributes nothing and iteration continues |
| WmiQuery.CollectRaises | wmi_query.h:170-175 | any other exception from the callback propagates, and no result list is returned |
| WmiQuery.CollectStopsAt | wmi_query.h:162-168 | a failed Next or a zero-object return ends iteration normally with the rows so far, and nothing after it is looked at |
| WmiQuery.CollectBound | wmi_query.h:155-176 | there are never more results than callback invocations |
| WmiQuery.CollectRows | wmi_query.h:155-177 | the while loop returns the specified results, or the specified exception, after the specified number of callback calls |
| WmiQuery.NamespacePath | wmi_query.h:123 | the path is `\\`, then the host, then `\root\cimv2` |
| WmiQuery.RequestFor | wmi_query.h:124 | ConnectServer gets the namespace path, a null name and password exactly when the token is used, and a null authority exactly when NTLM is used |
| WmiQuery.AccountOf | wmi_query.h:131 | the proxy blanket gets no identity exactly when the object has none |
| WmiQuery.Setup | wmi_query.h:103-153 | succeeds exactly when COM starts, the locator is created, the Authentication is built and ConnectServer, both proxy blankets and ExecQuery accept their arguments; its credentials are then the constructed ones, and a failed construction (after COM and the locator) throws the constructor's error |
| WmiQuery.SetupCredentials | wmi_query.h:115-131 | after a successful setup, ConnectServer got the typed name and password exactly when the prompt succeeded, the blanket the identity split from that name, and the Kerberos authority exactly when NTLM is off |
| WmiQuery.Query | wmi_query.h:103-178 | a failing setup step throws its error before the callback is ever called; otherwise the result is the loop's over the enumerator's outcomes |

## Left out

- Helpers.GetNumber: the floating-point tags VT_R4, VT_R8 and VT_DATE are excluded by its precondition. Their conversion to an integer is floating point. The same goes for Helpers.GetNumberProperty and WmiQuery.WbemWrapper.GetNumber.
- Helpers.FindLogonType: the locale-dependent stream extraction `wss >> result` into an int is an uninterpreted parameter `parse`, applied to the whole token.
- Helpers.ExtractWord: the stream's whitespace is that of the classic "C" locale (space, tab, CR, LF, vertical tab, form feed); other locales are not modelled.
- COM initialisation, `CoInitializeSecurity` and the process-wide `COMConnection` singleton (wmi_query.cpp:54-92) are reduced to one success flag. Only the first call in a process initialises COM; that is not modelled.
- `CoCreateInstance`, `ConnectServer`, `CoSetProxyBlanket`, `ExecQuery` and `Next` are foreign calls. They become parameters: a success flag, or a predicate on the arguments passed. The HRESULT codes and the error-message text are not modelled.
- `CredUIPromptForCredentials` shows a dialog. Its return code and the two buffers it fills are an input value.
- `is_elevated` (helpers.cpp:95-109) queries the OS process token. It is not modelled.
- Console and CSV output: the header line, the `wcerr` diagnostics, and the partial line printed before a later CategoryString read stops the loop or throws. A row is modelled only when the loop body completes.
- The `QueryParam` classes and `get_qp_value` (who_is_on.cpp:176-194, helpers.h:139-142) are unused.
- The setup and credential steps of `wmain` (who_is_on.cpp:196-426) are not modelled. They differ from `Authentication` and `wmi_query` in four ways. `wmain` calls ConnectServer before it checks the typed name for a backslash (who_is_on.cpp:312-328 against 337-349). It reports failures by `return EXIT_FAILURE`, not by throwing. It hard-codes `useNTLM = true` (who_is_on.cpp:255). It prints a message but carries on when no computer name is given (who_is_on.cpp:198-199).
- `sec_cstr` (who_is_on.cpp:140-174) is `secure_wipe_array` again. `find_value`, `validate_variant_type`, `is_null` and `find_logon_type` in who_is_on.cpp:54-130 are the helpers' versions again, with the same behaviour.
- Auth.Authentication: the credential buffers are strings, not the fixed `secure_wipe_array` storage. Truncation to `CREDUI_MAX_USERNAME_LENGTH` by `StringCchCopy` is not modelled. The accessors returning mutable references to the buffers and flags are the class's public fields.
- Helpers.EqualEhAssign: both the template `equal_eh` (helpers.h:188) and the wstring overload (helpers.cpp:71-76) dereference the optional before testing it. That is undefined behaviour for an empty optional. The wstring overload also compares against `value2.data()` as a NUL-terminated C string (helpers.cpp:75), which reads past the end of a `wstring_ref` without a terminator and stops at an embedded NUL. The model states only presence-and-equality of whole strings.
- WmiQuery.Collect: the row callback is a stateless function of the row, where the code takes a `std::function` that may carry state. WmiQuery.CollectSkipsRow and WmiQuery.CollectAppend hold only for such a callback: with a callback that counts its calls, dropping a skipped row changes the later results.
- Strings are sequences of Unicode code points with no NUL in them, where the code works on UTF-16 `wchar_t` buffers ended by NUL. The identity lengths of Auth.Complete, Auth.Authentication.BuildIdentity and Auth.Authentication.UserAccount (`wcslen` and `slash - name`, wmi_query.cpp:126, 136 and 140), the offsets of Helpers.ParseStringTime and every index in Helpers.FindValue match the code only for text inside the Basic Multilingual Plane. Lone surrogates cannot be represented, and an embedded NUL, which ends `wcslen`, is not modelled.
- `SecureZeroMemory` is modelled only as "every element becomes zero". Its guarantee against the compiler eliding the writes has no counterpart here.
- SecureWipe.SecureWipeArray.constructor: the indeterminate starting contents of the buffer are a parameter.

## Findings

| source | as written | input that shows it | evidently intended | confidence | as-written member | corrected member |
|---|---|---|---|---|---|---|
| helpers.h:110-112 (and who_is_on.cpp:147-149) | `memset(value, 0, Size)` counts bytes, so with `wchar_t` it clears only the first Size / 2 of the Size + 1 elements | Size = 2 over storage holding 0xFFFF in every element: elements 1 and 2, the terminator slot, stay 0xFFFF | clear all `sizeof(T) * (Size + 1)` bytes, as the destructor does. Element 0 is already cleared, so the buffer already reads as an empty string; what differs is the upper half of the elements and the terminator slot, which keep their old contents | medium, not executed | SecureWipe.SecureWipeArray.constructor, SecureWipe.ZeroBytesLeavesTerminator | SecureWipe.SecureWipeArray.Cleared |
