/**
 * The helpers of namespace daw::wmi::helpers: decoding a VARIANT, pulling a
 * labelled field out of an event message, reading a property of a result
 * object through an out-parameter, and reformatting a WMI datetime.
 */
module Helpers {
  import opened Types
  import opened Wbem

  // ---------------------------------------------------------------------
  // VARIANT decoding
  // ---------------------------------------------------------------------

  /** validate_variant_type: throws exactly when the tag is not the requested one. */
  function ValidateVariantType(v: Variant, vt: VarType): (r: Outcome)
    ensures r.Fail? <==> v.vt != vt
    ensures r.Fail? ==> r.error == TypeMismatch(vt, v.vt)
  {
    if v.vt != vt then Fail(TypeMismatch(vt, v.vt)) else Pass
  }

  /** is_null */
  predicate IsNull(v: Variant)
    ensures IsNull(v) <==> v.vt == VtNull
    ensures IsNull(v) ==> v.vt != VtBstr && !IsIntegerTag(v.vt) && !IsFloatTag(v.vt)
  {
    v.vt == VtNull
  }

  /** The tags get_number reads as floating point; their conversion is not modelled. */
  predicate IsFloatTag(vt: VarType) {
    vt == VtR4 || vt == VtR8 || vt == VtDate
  }

  /** The tags get_number reads as an integer field. */
  predicate IsIntegerTag(vt: VarType) {
    vt in {VtUI1, VtUI2, VtUI4, VtInt, VtI2, VtI4, VtUInt, VtBool}
  }

  /** The union field that get_number's switch reads for an integer tag. */
  function IntegerField(v: Variant): int
    requires IsIntegerTag(v.vt)
  {
    if v.vt == VtUI1 then v.BVal()
    else if v.vt == VtUI2 then v.UiVal()
    else if v.vt == VtUI4 then v.UlVal()
    else if v.vt == VtInt then v.IntVal()
    else if v.vt == VtI2 then v.IVal()
    else if v.vt == VtI4 then v.LVal()
    else if v.vt == VtUInt then v.UintVal()
    else v.BoolVal()
  }

  /**
   * get_number<T>: the field selected by the tag, converted with `(T)` to
   * the target type `t`; any other tag throws "Unknown VARIANT type".
   */
  function GetNumber(v: Variant, t: IntType): (r: Result<int>)
    requires !IsFloatTag(v.vt)
    ensures r.Success? <==> IsIntegerTag(v.vt)
    ensures r.Success? ==> t.Contains(r.value)
    ensures r.Success? ==> (IntegerField(v) - r.value) % t.Modulus() == 0
    ensures r.Failure? ==> r.error == UnknownVariantType(v.vt)
  {
    if IsIntegerTag(v.vt) then Success(Cast(t, IntegerField(v))) else Failure(UnknownVariantType(v.vt))
  }

  /** When the field's value fits the target type, get_number returns it unchanged. */
  lemma GetNumberExact(v: Variant, t: IntType)
    requires IsIntegerTag(v.vt) && t.Contains(IntegerField(v))
    ensures GetNumber(v, t) == Success(IntegerField(v))
  {
    CastInRange(t, IntegerField(v));
  }

  /** get_string: a BSTR's text unchanged; any other tag, NULL included, throws. */
  function GetString(v: Variant): (r: Result<string>)
    ensures r.Success? <==> v.vt == VtBstr
    ensures r.Success? ==> r.value == v.bstr
    ensures r.Failure? ==> r.error == TypeMismatch(VtBstr, v.vt)
  {
    match ValidateVariantType(v, VtBstr)
    case Fail(e) => Failure(e)
    case Pass => Success(v.bstr)
  }

  // ---------------------------------------------------------------------
  // find_value and the fixed-label wrappers
  // ---------------------------------------------------------------------

  /** The whitespace set " \t\r\n" of find_value. */
  predicate IsBlank(c: char) {
    c == ' ' || c == '\t' || c == '\r' || c == '\n'
  }

  predicate OccursAt(s: string, w: string, i: nat) {
    i + |w| <= |s| && s[i..i + |w|] == w
  }

  /** std::wstring::find(w, from): the first occurrence of `w` at or after `from`. */
  function Find(s: string, w: string, from: nat): (r: Option<nat>)
    ensures r.Some? ==> from <= r.value && OccursAt(s, w, r.value)
    ensures r.Some? ==> forall j :: from <= j < r.value ==> !OccursAt(s, w, j)
    ensures r.None? ==> forall j :: from <= j ==> !OccursAt(s, w, j)
    decreases |s| - from
  {
    if from + |w| > |s| then None
    else if s[from..from + |w|] == w then Some(from)
    else Find(s, w, from + 1)
  }

  /**
   * find_first_of (blank = true) and find_first_not_of (blank = false) with
   * the whitespace set: the first index at or after `from` whose character is
   * (or is not) whitespace.
   */
  function FindFirst(s: string, from: nat, blank: bool): (r: Option<nat>)
    ensures r.Some? ==> from <= r.value < |s| && IsBlank(s[r.value]) == blank
    ensures r.Some? ==> forall j :: from <= j < r.value ==> IsBlank(s[j]) != blank
    ensures r.None? ==> forall j :: from <= j < |s| ==> IsBlank(s[j]) != blank
    decreases |s| - from
  {
    if from >= |s| then None
    else if IsBlank(s[from]) == blank then Some(from)
    else FindFirst(s, from + 1, blank)
  }

  /** The index FindFirst reports is the first one of the wanted kind. */
  lemma FindFirstIs(s: string, from: nat, blank: bool, p: nat)
    requires from <= p < |s| && IsBlank(s[p]) == blank
    requires forall j :: from <= j < p ==> IsBlank(s[j]) != blank
    ensures FindFirst(s, from, blank) == Some(p)
  {
  }

  /**
   * The text find_value hands to the stream: the run of characters outside
   * " \t\r\n" that starts at the first such character after the first
   * occurrence of `what`. A run that is not followed by one of those four
   * (one that reaches the end of the message) is reported absent.
   */
  function FindToken(value: string, what: string): (r: Option<string>)
    ensures r.Some? ==> |r.value| > 0 && forall k :: 0 <= k < |r.value| ==> !IsBlank(r.value[k])
  {
    match Find(value, what, 0)
    case None => None
    case Some(pos) =>
      match FindFirst(value, pos + |what|, false)
      case None => None
      case Some(start) =>
        match FindFirst(value, start, true)
        case None => None
        case Some(stop) => Some(value[start..stop])
  }

  /** The whitespace of the classic locale, which stream extraction skips and stops at. */
  predicate IsStreamSpace(c: char) {
    IsBlank(c) || c == '\U{000B}' || c == '\U{000C}'
  }

  /** The stream's skipping of leading whitespace. */
  function SkipSpaces(t: string): (r: string)
    ensures |r| <= |t| && r == t[|t| - |r|..]
    ensures forall k :: 0 <= k < |t| - |r| ==> IsStreamSpace(t[k])
    ensures r != [] ==> !IsStreamSpace(r[0])
  {
    if t != [] && IsStreamSpace(t[0]) then SkipSpaces(t[1..]) else t
  }

  /** The characters up to the next whitespace. */
  function TakeWord(t: string): (r: string)
    ensures r <= t
    ensures forall k :: 0 <= k < |r| ==> !IsStreamSpace(r[k])
    ensures |r| < |t| ==> IsStreamSpace(t[|r|])
  {
    if t == [] || IsStreamSpace(t[0]) then [] else [t[0]] + TakeWord(t[1..])
  }

  /**
   * `wss << token; wss >> result` for a std::wstring result: leading
   * whitespace is skipped and the word up to the next whitespace is read;
   * with nothing left the result keeps its initial value "".
   */
  function ExtractWord(t: string): (r: string)
    ensures forall k :: 0 <= k < |r| ==> !IsStreamSpace(r[k])
  {
    TakeWord(SkipSpaces(t))
  }

  /** A token free of whitespace passes through the stream unchanged. */
  lemma {:induction false} ExtractWordPlain(t: string)
    requires forall k :: 0 <= k < |t| ==> !IsStreamSpace(t[k])
    ensures ExtractWord(t) == t
  {
    if t != [] {
      assert SkipSpaces(t) == t;
      ExtractWordPlainTake(t);
    }
  }

  lemma {:induction false} ExtractWordPlainTake(t: string)
    requires forall k :: 0 <= k < |t| ==> !IsStreamSpace(t[k])
    ensures TakeWord(t) == t
  {
    if t != [] {
      ExtractWordPlainTake(t[1..]);
    }
  }

  /** The stream reads up to the first whitespace of a word and no further. */
  lemma TakeWordStops(a: string, c: char, b: string)
    requires forall k :: 0 <= k < |a| ==> !IsStreamSpace(a[k])
    requires IsStreamSpace(c)
    ensures TakeWord(a + [c] + b) == a
  {
    var t := a + [c] + b;
    var r := TakeWord(t);
    assert t[|a|] == c;
    assert r == t[..|r|];
    assert t[..|a|] == a;
  }

  /**
   * A vertical tab, which find_value's set does not treat as blank, is
   * skipped by the stream: "\vbob" reads as "bob", and "\v" alone as "".
   */
  lemma ExtractWordVerticalTab()
    ensures ExtractWord("\U{000B}bob") == "bob"
    ensures ExtractWord("\U{000B}") == ""
  {
    var t := "\U{000B}bob";
    assert t[1..] == "bob";
    ExtractWordPlain("bob");
    var v := "\U{000B}";
    assert v[1..] == "";
  }

  /** A form feed inside a token ends the word the stream reads: "bo\fb" reads as "bo". */
  lemma ExtractWordFormFeed()
    ensures ExtractWord("bo\U{000C}b") == "bo"
  {
    assert "bo\U{000C}b" == "bo" + ['\U{000C}'] + "b";
    TakeWordStops("bo", '\U{000C}', "b");
  }

  /**
   * find_value<std::wstring>: the token after the first occurrence of `what`,
   * read back out of a wide string stream.
   */
  function FindValue(value: string, what: string): (r: Option<string>)
    ensures r.Some? <==> FindToken(value, what).Some?
    ensures r.Some? ==> forall k :: 0 <= k < |r.value| ==> !IsStreamSpace(r.value[k])
  {
    match FindToken(value, what)
    case None => None
    case Some(token) => Some(ExtractWord(token))
  }

  ghost predicate FirstOccurrence(s: string, w: string, i: nat) {
    OccursAt(s, w, i) && forall j :: 0 <= j < i ==> !OccursAt(s, w, j)
  }

  lemma FindFirstOccurrence(s: string, w: string, i: nat)
    requires FirstOccurrence(s, w, i)
    ensures Find(s, w, 0) == Some(i)
  {
  }

  /** No occurrence of the label: nothing is found. */
  lemma FindValueNoLabel(s: string, w: string)
    requires forall j :: !OccursAt(s, w, j)
    ensures FindValue(s, w) == None
  {
  }

  /** Only whitespace after the first occurrence of the label: nothing is found. */
  lemma FindValueOnlyBlanks(s: string, w: string, i: nat)
    requires FirstOccurrence(s, w, i)
    requires forall k :: i + |w| <= k < |s| ==> IsBlank(s[k])
    ensures FindValue(s, w) == None
  {
    FindFirstOccurrence(s, w, i);
  }

  /** A token that runs to the end of the message is not found. */
  lemma FindValueTokenAtEnd(s: string, w: string, i: nat, p: nat)
    requires FirstOccurrence(s, w, i)
    requires i + |w| <= p < |s|
    requires forall k :: i + |w| <= k < p ==> IsBlank(s[k])
    requires forall k :: p <= k < |s| ==> !IsBlank(s[k])
    ensures FindValue(s, w) == None
  {
    FindFirstOccurrence(s, w, i);
    FindFirstIs(s, i + |w|, false, p);
  }

  /**
   * The token handed to the stream is exactly the run of non-blanks that
   * starts at the first non-blank after the first occurrence of the label,
   * when a blank follows it; the value is what the stream reads from it,
   * which is the run itself when it holds no vertical tab or form feed.
   */
  lemma FindValueToken(s: string, w: string, i: nat, p: nat, q: nat)
    requires FirstOccurrence(s, w, i)
    requires i + |w| <= p < q < |s|
    requires forall k :: i + |w| <= k < p ==> IsBlank(s[k])
    requires forall k :: p <= k < q ==> !IsBlank(s[k])
    requires IsBlank(s[q])
    ensures FindToken(s, w) == Some(s[p..q])
    ensures FindValue(s, w) == Some(ExtractWord(s[p..q]))
    ensures (forall k :: p <= k < q ==> !IsStreamSpace(s[k])) ==> FindValue(s, w) == Some(s[p..q])
  {
    FindTokenAt(s, w, i, p, q);
    if forall k :: p <= k < q ==> !IsStreamSpace(s[k]) {
      ExtractWordPlain(s[p..q]);
    }
  }

  lemma FindTokenAt(s: string, w: string, i: nat, p: nat, q: nat)
    requires FirstOccurrence(s, w, i)
    requires i + |w| <= p < q < |s|
    requires forall k :: i + |w| <= k < p ==> IsBlank(s[k])
    requires forall k :: p <= k < q ==> !IsBlank(s[k])
    requires IsBlank(s[q])
    ensures FindToken(s, w) == Some(s[p..q])
  {
    FindFirstOccurrence(s, w, i);
    FindFirstIs(s, i + |w|, false, p);
    FindFirstIs(s, p, true, q);
  }

  /** A found token needs the label to occur in the message. */
  lemma FindValueNeedsLabel(s: string, w: string)
    requires FindValue(s, w).Some?
    ensures exists i :: FirstOccurrence(s, w, i)
  {
    var i := Find(s, w, 0).value;
    assert FirstOccurrence(s, w, i);
  }

  /** The first occurrence of the label stays the first when text is appended. */
  lemma FirstOccurrenceAppend(s: string, w: string, u: string, i: nat)
    requires FirstOccurrence(s, w, i)
    ensures FirstOccurrence(s + u, w, i)
  {
    var su := s + u;
    forall j | 0 <= j <= i
      ensures OccursAt(su, w, j) == OccursAt(s, w, j)
    {
      assert su[j..j + |w|] == s[j..j + |w|];
    }
  }

  /**
   * Only the first occurrence of the label is used, and a token once found is
   * unaffected by anything appended to the message.
   */
  lemma {:induction false} FindValueAppend(s: string, w: string, u: string)
    requires FindValue(s, w).Some?
    ensures FindToken(s + u, w) == FindToken(s, w)
    ensures FindValue(s + u, w) == FindValue(s, w)
  {
    FindTokenAppend(s, w, u);
  }

  lemma {:induction false} FindTokenAppend(s: string, w: string, u: string)
    requires FindToken(s, w).Some?
    ensures FindToken(s + u, w) == FindToken(s, w)
  {
    var i := Find(s, w, 0).value;
    var p := FindFirst(s, i + |w|, false).value;
    var q := FindFirst(s, p, true).value;
    var su := s + u;
    FirstOccurrenceAppend(s, w, u, i);
    forall k | i + |w| <= k <= q
      ensures su[k] == s[k]
    {
    }
    FindTokenAt(su, w, i, p, q);
    FindTokenAt(s, w, i, p, q);
    assert su[p..q] == s[p..q];
  }

  /** The label of find_logon_type. */
  const LogonTypeLabel: string := "Logon Type:"
  /** The label of find_security_id. */
  const SecurityIdLabel: string := "Security ID:"
  /** The label of find_account_name. */
  const AccountNameLabel: string := "Account Name:"
  /** The label of find_account_domain. */
  const AccountDomainLabel: string := "Account Domain:"

  /**
   * find_logon_type, i.e. find_value<int>: the token after "Logon Type:",
   * converted by the stream extraction `wss >> result` into an int, which is
   * passed in as `parse`.
   */
  function FindLogonType(msg: string, parse: string -> int): (r: Option<int>)
    ensures r.Some? <==> FindValue(msg, LogonTypeLabel).Some?
    ensures r.Some? ==> r.value == parse(FindToken(msg, LogonTypeLabel).value)
  {
    match FindToken(msg, LogonTypeLabel)
    case None => None
    case Some(token) => Some(parse(token))
  }

  /** find_security_id */
  function FindSecurityId(msg: string): (r: Option<string>)
    ensures r == FindValue(msg, SecurityIdLabel)
  {
    FindValue(msg, SecurityIdLabel)
  }

  /** find_account_name */
  function FindAccountName(msg: string): (r: Option<string>)
    ensures r == FindValue(msg, AccountNameLabel)
  {
    FindValue(msg, AccountNameLabel)
  }

  /** find_account_domain */
  function FindAccountDomain(msg: string): (r: Option<string>)
    ensures r == FindValue(msg, AccountDomainLabel)
  {
    FindValue(msg, AccountDomainLabel)
  }

  /** A logon message of the shape the event log produces: "x Logon Type:   2  extra". */
  const ExampleLogonMessage: string := "x " + LogonTypeLabel + "   2  extra"

  lemma ExampleLabelFirstAt2()
    ensures FirstOccurrence(ExampleLogonMessage, LogonTypeLabel, 2)
  {
    var s := ExampleLogonMessage;
    assert s[2..13] == LogonTypeLabel by { assert s == "x " + LogonTypeLabel + "   2  extra"; }
    assert s[0] == 'x' && s[1] == ' ' && LogonTypeLabel[0] == 'L';
    assert !OccursAt(s, LogonTypeLabel, 0) by { assert s[0..11][0] == s[0]; }
    assert !OccursAt(s, LogonTypeLabel, 1) by { assert s[1..12][0] == s[1]; }
  }

  lemma ExampleTokenAt16()
    ensures |ExampleLogonMessage| == 24
    ensures forall k :: 13 <= k < 16 ==> IsBlank(ExampleLogonMessage[k])
    ensures !IsBlank(ExampleLogonMessage[16]) && IsBlank(ExampleLogonMessage[17])
    ensures ExampleLogonMessage[16..17] == "2"
  {
  }

  /** The example of a logon message: the token after the label and its run of blanks. */
  lemma FindValueExample()
    ensures FindValue(ExampleLogonMessage, LogonTypeLabel) == Some("2")
  {
    ExampleLabelFirstAt2();
    ExampleTokenAt16();
    FindValueToken(ExampleLogonMessage, LogonTypeLabel, 2, 16, 17);
  }

  // ---------------------------------------------------------------------
  // equal_eh and assign
  // ---------------------------------------------------------------------

  /** equal_eh: the optional holds a value and it equals `value2`. */
  function EqualEh<T(==)>(value1: Option<T>, value2: T): (r: bool)
    ensures r <==> value1 == Some(value2)
  {
    value1.Some? && value1.value == value2
  }

  /** assign: the contained value if there is one, else the default. */
  function Assign<T>(v: Option<T>, default: T): (r: T)
    ensures v == Some(r) || (v.None? && r == default)
  {
    if v.Some? then v.value else default
  }

  /**
   * equal_eh is true exactly when the optional is present and assign would
   * yield the compared value from it, whatever the default.
   */
  lemma EqualEhAssign<T>(o: Option<T>, x: T, d: T)
    ensures EqualEh(o, x) <==> (o.Some? && Assign(o, d) == x)
    ensures o.None? ==> Assign(o, d) == d && !EqualEh(o, x)
    ensures EqualEh(o, x) ==> o == Some(x)
  {
  }

  // ---------------------------------------------------------------------
  // get_property
  // ---------------------------------------------------------------------

  /**
   * get_property<T>: when the property cannot be fetched, returns false and
   * leaves the out-value as it was; otherwise assigns the decoded number
   * (get_number may throw, before the assignment).
   */
  method GetNumberProperty(obj: WbemObject, propertyName: string, t: IntType, outValue: int)
    returns (r: Result<bool>, newValue: int)
    requires propertyName in obj ==> !IsFloatTag(obj[propertyName].vt)
    ensures r == Success(false) <==> propertyName !in obj
    ensures r.Failure? <==> propertyName in obj && !IsIntegerTag(obj[propertyName].vt)
    ensures r.Failure? ==> r.error == UnknownVariantType(obj[propertyName].vt)
    ensures r != Success(true) ==> newValue == outValue
    ensures r == Success(true) ==> GetNumber(obj[propertyName], t) == Success(newValue)
  {
    newValue := outValue;
    if propertyName !in obj {
      return Success(false), newValue;
    }
    var decoded := GetNumber(obj[propertyName], t);
    if decoded.Failure? {
      return Failure(decoded.error), newValue;
    }
    newValue := decoded.value;
    r := Success(true);
  }

  /**
   * get_property for std::wstring: false with the out-value untouched when
   * the property cannot be fetched; otherwise the BSTR text (get_string
   * throws for any other tag).
   */
  method GetStringProperty(obj: WbemObject, propertyName: string, outValue: string)
    returns (r: Result<bool>, newValue: string)
    ensures r == Success(false) <==> propertyName !in obj
    ensures r.Failure? <==> propertyName in obj && obj[propertyName].vt != VtBstr
    ensures r.Failure? ==> r.error == TypeMismatch(VtBstr, obj[propertyName].vt)
    ensures r != Success(true) ==> newValue == outValue
    ensures r == Success(true) ==> newValue == obj[propertyName].bstr
  {
    newValue := outValue;
    if propertyName !in obj {
      return Success(false), newValue;
    }
    var decoded := GetString(obj[propertyName]);
    if decoded.Failure? {
      return Failure(decoded.error), newValue;
    }
    newValue := decoded.value;
    r := Success(true);
  }

  // ---------------------------------------------------------------------
  // parse_stringtime
  // ---------------------------------------------------------------------

  /**
   * boost::wstring_ref::substr(pos, n): throws std::out_of_range when `pos`
   * is past the end, otherwise the at most `n` characters from `pos`.
   */
  function Substr(s: string, pos: nat, n: nat): (r: Result<string>)
    ensures r.Failure? <==> pos > |s|
    ensures r.Failure? ==> r.error == OutOfRange
    ensures r.Success? ==> |r.value| <= n && r.value <= s[pos..]
    ensures r.Success? && pos + n <= |s| ==> |r.value| == n
    ensures r.Success? && pos + n <= |s| ==> r.value == s[pos..pos + n]
    ensures r.Success? && pos + n > |s| ==> r.value == s[pos..]
  {
    if pos > |s| then Failure(OutOfRange)
    else if pos + n <= |s| then Success(s[pos..pos + n])
    else Success(s[pos..])
  }

  /** parse_stringtime: "YYYYMMDDHHMMSS..." becomes "YYYY/MM/DD/HH:MM:SS". */
  function ParseStringTime(t: string): (r: Result<string>)
    ensures r.Failure? <==> |t| < 12
    ensures |t| >= 14 ==> r.Success? && |r.value| == 19
  {
    var year := Substr(t, 0, 4).value;
    var month :- Substr(t, 4, 2);
    var day :- Substr(t, 6, 2);
    var hour :- Substr(t, 8, 2);
    var minute :- Substr(t, 10, 2);
    var second :- Substr(t, 12, 2);
    Success(year + "/" + month + "/" + day + "/" + hour + ":" + minute + ":" + second)
  }

  /** The layout of a reformatted timestamp. */
  lemma ParseStringTimeLayout(t: string)
    requires |t| >= 14
    ensures ParseStringTime(t) == Success(t[0..4] + "/" + t[4..6] + "/" + t[6..8] + "/" + t[8..10] + ":" + t[10..12] + ":" + t[12..14])
    ensures var r := ParseStringTime(t).value;
      r[4] == '/' && r[7] == '/' && r[10] == '/' && r[13] == ':' && r[16] == ':'
  {
  }

  /** The digits of a reformatted timestamp, its separators removed. */
  function TimestampDigits(r: string): (d: string)
    requires |r| == 19
    ensures |d| == 14
  {
    r[0..4] + r[5..7] + r[8..10] + r[11..13] + r[14..16] + r[17..19]
  }

  /**
   * Removing the separators gives back the first fourteen characters: the
   * result depends on those alone, and the reformatting loses none of them.
   */
  lemma ParseStringTimeDigits(t: string)
    requires |t| >= 14
    ensures TimestampDigits(ParseStringTime(t).value) == t[..14]
  {
    ParseStringTimeLayout(t);
    var r := ParseStringTime(t).value;
    assert r[0..4] == t[0..4] && r[5..7] == t[4..6] && r[8..10] == t[6..8];
    assert r[11..13] == t[8..10] && r[14..16] == t[10..12] && r[17..19] == t[12..14];
  }

  /** Two timestamps that agree on their first fourteen characters reformat alike. */
  lemma ParseStringTimePrefix(t: string, u: string)
    requires |t| >= 14 && |u| >= 14 && t[..14] == u[..14]
    ensures ParseStringTime(t) == ParseStringTime(u)
  {
    ParseStringTimeLayout(t);
    ParseStringTimeLayout(u);
    assert t[0..4] == u[0..4] && t[4..6] == u[4..6] && t[6..8] == u[6..8];
    assert t[8..10] == u[8..10] && t[10..12] == u[10..12] && t[12..14] == u[12..14];
  }

  /** A WMI datetime: 2016-01-01 12:00:00, UTC-8. */
  const ExampleDatetime: string := "20160101120000.000000-480"

  lemma ExampleDatetimeFields()
    ensures |ExampleDatetime| == 25
    ensures ExampleDatetime[0..4] == "2016" && ExampleDatetime[4..6] == "01" && ExampleDatetime[6..8] == "01"
    ensures ExampleDatetime[8..10] == "12" && ExampleDatetime[10..12] == "00" && ExampleDatetime[12..14] == "00"
  {
  }

  /** The example datetime reformats to "2016/01/01/12:00:00". */
  lemma ParseStringTimeExample()
    ensures ParseStringTime(ExampleDatetime) == Success("2016/01/01/12:00:00")
  {
    ExampleDatetimeFields();
    ParseStringTimeLayout(ExampleDatetime);
    assert "2016" + "/" + "01" + "/" + "01" + "/" + "12" + ":" + "00" + ":" + "00" == "2016/01/01/12:00:00";
  }
}
