/**
 * who_is_on.cpp: the GetValue functors that decode a VARIANT for display,
 * and the row loop of wmain that walks the Security log events and keeps
 * logoffs and interactive logons.
 */
module WhoIsOn {
  import opened Types
  import opened Wbem
  import opened Helpers

  // ---------------------------------------------------------------------
  // GetValue functors
  // ---------------------------------------------------------------------

  /** boost::replace_all_copy(s, "\"", "\\\""): every double quote gets a backslash before it. */
  function Escape(s: string): (r: string)
    ensures |r| >= |s|
    ensures forall k :: 0 <= k < |r| && r[k] == '"' ==> 0 < k && r[k - 1] == '\\'
  {
    if s == [] then []
    else (if s[0] == '"' then ['\\', '"'] else [s[0]]) + Escape(s[1..])
  }

  /** The reading a consumer of the output applies: a backslash-quote pair stands for a quote. */
  function Unescape(s: string): string
  {
    if |s| >= 2 && s[0] == '\\' && s[1] == '"' then ['"'] + Unescape(s[2..])
    else if s == [] then []
    else [s[0]] + Unescape(s[1..])
  }

  /** Escaping loses nothing: unescaping gives the original text back. */
  lemma {:induction false} UnescapeEscape(s: string)
    ensures Unescape(Escape(s)) == s
  {
    if s != [] {
      var e := Escape(s[1..]);
      UnescapeEscape(s[1..]);
      if s[0] == '"' {
        assert Escape(s) == ['\\', '"'] + e;
        assert (['\\', '"'] + e)[2..] == e;
      } else {
        assert Escape(s) == [s[0]] + e;
        assert ([s[0]] + e)[1..] == e;
        if s[0] == '\\' && |e| > 0 {
          assert e[0] != '"';
        }
      }
    }
  }

  /**
   * GetValue<std::wstring>: "" for a NULL value, the escaped BSTR text for a
   * BSTR, and a type-mismatch exception for any other tag.
   */
  function GetValueString(v: Variant): (r: Result<string>)
    ensures IsNull(v) ==> r == Success("")
    ensures !IsNull(v) ==> (r.Success? <==> v.vt == VtBstr)
    ensures r.Failure? ==> r.error == TypeMismatch(VtBstr, v.vt)
    ensures v.vt == VtBstr ==> r == Success(Escape(v.bstr)) && Unescape(r.value) == v.bstr
  {
    if IsNull(v) then Success("")
    else match ValidateVariantType(v, VtBstr)
      case Fail(e) => Failure(e)
      case Pass => UnescapeEscape(v.bstr); Success(Escape(v.bstr))
  }

  /** GetValue<unsigned int>: the uintVal of a VT_UINT value. */
  function GetValueUInt(v: Variant): (r: Result<int>)
    ensures r.Success? <==> v.vt == VtUInt
    ensures r.Success? ==> UInt32.Contains(r.value) && r.value == v.UintVal()
    ensures r.Failure? ==> r.error == TypeMismatch(VtUInt, v.vt)
  {
    match ValidateVariantType(v, VtUInt)
    case Fail(e) => Failure(e)
    case Pass => Success(v.UintVal())
  }

  /**
   * GetValue<uint16_t>: checks for VT_UI2, then reads the 32-bit uintVal
   * member and narrows it to uint16_t, which yields the uiVal field.
   */
  function GetValueUInt16(v: Variant): (r: Result<int>)
    ensures r.Success? <==> v.vt == VtUI2
    ensures r.Success? ==> r.value == v.UiVal()
    ensures r.Failure? ==> r.error == TypeMismatch(VtUI2, v.vt)
  {
    match ValidateVariantType(v, VtUI2)
    case Fail(e) => Failure(e)
    case Pass => NarrowUInt16(v.data); Success(Cast(UInt16, v.UintVal()))
  }

  /**
   * GetValue<int32_t>: checks for VT_I4, then reads the unsigned uintVal
   * member and converts it to int32_t, which yields the lVal field.
   */
  function GetValueInt32(v: Variant): (r: Result<int>)
    ensures r.Success? <==> v.vt == VtI4
    ensures r.Success? ==> r.value == v.LVal()
    ensures r.Failure? ==> r.error == TypeMismatch(VtI4, v.vt)
  {
    match ValidateVariantType(v, VtI4)
    case Fail(e) => Failure(e)
    case Pass => ReinterpretInt32(v.data); Success(Cast(Int32, v.UintVal()))
  }

  /** The unspecialised GetValue<T>: always throws, naming the tag. */
  function GetValueUnsupported(v: Variant): (r: Result<()>)
    ensures r == Failure(UnknownGetValueType(v.vt))
  {
    Failure(UnknownGetValueType(v.vt))
  }

  lemma NarrowUInt16(d: int)
    ensures Cast(UInt16, Cast(UInt32, d)) == Cast(UInt16, d)
  {
  }

  lemma ReinterpretInt32(d: int)
    ensures Cast(Int32, Cast(UInt32, d)) == Cast(Int32, d)
  {
  }

  // ---------------------------------------------------------------------
  // The row loop of wmain
  // ---------------------------------------------------------------------

  /** The event id of a logon. */
  const LogonEventCode: int := 4624
  /** The logon type of an interactive logon. */
  const InteractiveLogonType: int := 2

  /** One line of the report: ComputerName, CategoryString, EventCode and domain\name. */
  datatype ReportRow = ReportRow(computerName: string, category: string, eventCode: int, user: string)

  /** What the loop body does with one fetched event. */
  datatype EventStep =
    | Emit(row: ReportRow)   // the line is printed
    | NextEvent              // `continue`: the event is filtered out
    | StopLoop               // `break`: a property could not be fetched
    | Abort(error: Error)    // an exception escapes wmain

  /** The user column: the account domain, a backslash, the account name; a missing one is "". */
  function UserColumn(msg: string): (u: string)
    ensures var domain, name := Assign(FindAccountDomain(msg), ""), Assign(FindAccountName(msg), "");
      && |u| == |domain| + 1 + |name|
      && u[|domain|] == '\\'
      && u[..|domain|] == domain
      && u[|domain| + 1..] == name
  {
    JoinAccount(Assign(FindAccountDomain(msg), ""), Assign(FindAccountName(msg), ""))
  }

  /** domain, a backslash, name. */
  function JoinAccount(domain: string, name: string): (u: string)
    ensures |u| == |domain| + 1 + |name|
    ensures u[|domain|] == '\\'
    ensures u[..|domain|] == domain
    ensures u[|domain| + 1..] == name
  {
    domain + "\\" + name
  }

  /** The body of the loop in wmain, applied to one fetched event. */
  function ProcessEvent(obj: WbemObject, parse: string -> int): (r: EventStep)
    ensures r == NextEvent ==>
      && "EventCode" in obj && GetValueInt32(obj["EventCode"]) == Success(LogonEventCode)
      && MessageOf(obj).Some? && FindLogonType(MessageOf(obj).value, parse) != Some(InteractiveLogonType)
    ensures r.Emit? ==> PassesFilter(obj, parse)
  {
    if "EventCode" !in obj then StopLoop
    else match GetValueInt32(obj["EventCode"])
    case Failure(e) => Abort(e)
    case Success(eventCode) =>
      if "Message" !in obj then StopLoop
      else match GetValueString(obj["Message"])
      case Failure(e) => Abort(e)
      case Success(msg) =>
        var logonType := FindLogonType(msg, parse);
        if eventCode == LogonEventCode && (logonType.None? || logonType.value != InteractiveLogonType) then NextEvent
        else if "ComputerName" !in obj then StopLoop
        else match GetValueString(obj["ComputerName"])
        case Failure(e) => Abort(e)
        case Success(computerName) =>
          if "CategoryString" !in obj then StopLoop
          else match GetValueString(obj["CategoryString"])
          case Failure(e) => Abort(e)
          case Success(category) => Emit(ReportRow(computerName, category, eventCode, UserColumn(msg)))
  }

  /** The printed rows, and the exception that ended the program, if one did. */
  datatype ReportOutcome = ReportOutcome(rows: seq<ReportRow>, aborted: Option<Error>)

  /**
   * What the loop does with one outcome of Next: the body's verdict on a
   * fetched object; a failed call or zero objects break out of the loop.
   */
  function StepOf(f: FetchOutcome, parse: string -> int): EventStep
  {
    match f
    case Fetched(obj) => ProcessEvent(obj, parse)
    case NoMoreRows => StopLoop
    case FetchFailed => StopLoop
  }

  /** The outcome of the loop from one step on, given the outcome `later` of the steps after it. */
  function Follow(step: EventStep, later: ReportOutcome): ReportOutcome
  {
    match step
    case Emit(row) => After([row], later)
    case NextEvent => later
    case StopLoop => ReportOutcome([], None)
    case Abort(e) => ReportOutcome([], Some(e))
  }

  /** The number of calls of Next that returned an object. */
  function FetchedCount(cursor: seq<FetchOutcome>): (n: nat)
    ensures n <= |cursor|
  {
    if cursor == [] then 0
    else (if cursor[0].Fetched? then 1 else 0) + FetchedCount(cursor[1..])
  }

  /** The whole loop over the enumerator's successive outcomes. */
  function Report(cursor: seq<FetchOutcome>, parse: string -> int): (r: ReportOutcome)
    ensures |r.rows| <= FetchedCount(cursor)
    decreases |cursor|
  {
    if cursor == [] then ReportOutcome([], None)
    else Follow(StepOf(cursor[0], parse), Report(cursor[1..], parse))
  }

  /** One step of the loop, as Report takes it. */
  lemma ReportUnfold(cursor: seq<FetchOutcome>, parse: string -> int)
    requires cursor != []
    ensures Report(cursor, parse) == Follow(StepOf(cursor[0], parse), Report(cursor[1..], parse))
  {
  }

  /** `rows` printed before the outcome `o` of the rest of the loop. */
  function After(rows: seq<ReportRow>, o: ReportOutcome): ReportOutcome {
    ReportOutcome(rows + o.rows, o.aborted)
  }

  /**
   * The body of the loop in wmain for one fetched object: the property reads
   * in the order the code makes them, ending in a printed row, a `continue`,
   * a `break`, or an exception.
   */
  method HandleEvent(obj: WbemObject, parse: string -> int) returns (step: EventStep)
    ensures step == ProcessEvent(obj, parse)
  {
    if "EventCode" !in obj {
      return StopLoop;
    }
    var eventCode := GetValueInt32(obj["EventCode"]);
    if eventCode.Failure? {
      return Abort(eventCode.error);
    }
    var accountName: Option<string>;
    var accountDomain: Option<string>;
    if "Message" !in obj {
      return StopLoop;
    }
    var msg := GetValueString(obj["Message"]);
    if msg.Failure? {
      return Abort(msg.error);
    }
    if eventCode.value == LogonEventCode {
      var logonType := FindLogonType(msg.value, parse);
      if logonType.None? || logonType.value != InteractiveLogonType {
        return NextEvent;
      }
    }
    accountName := FindAccountName(msg.value);
    if accountName.None? {
      accountName := Some("");
    }
    accountDomain := FindAccountDomain(msg.value);
    if accountDomain.None? {
      accountDomain := Some("");
    }
    if "ComputerName" !in obj {
      return StopLoop;
    }
    var computerName := GetValueString(obj["ComputerName"]);
    if computerName.Failure? {
      return Abort(computerName.error);
    }
    if "CategoryString" !in obj {
      return StopLoop;
    }
    var category := GetValueString(obj["CategoryString"]);
    if category.Failure? {
      return Abort(category.error);
    }
    step := Emit(ReportRow(computerName.value, category.value, eventCode.value,
                           accountDomain.value + "\\" + accountName.value));
  }

  /**
   * The loop of wmain. `cursor` lists what successive Next calls return
   * (running off its end reads as a return of zero objects), and `parse` is
   * the stream extraction of an int from the logon-type token.
   */
  method LogonReport(cursor: seq<FetchOutcome>, parse: string -> int)
    returns (rows: seq<ReportRow>, aborted: Option<Error>)
    ensures ReportOutcome(rows, aborted) == Report(cursor, parse)
  {
    rows, aborted := [], None;
    var i := 0;
    assert cursor[0..] == cursor;
    while i < |cursor|
      invariant 0 <= i <= |cursor|
      invariant Report(cursor, parse) == After(rows, Report(cursor[i..], parse))
      invariant aborted == None
    {
      assert cursor[i..][0] == cursor[i] && cursor[i..][1..] == cursor[i + 1..];
      ReportUnfold(cursor[i..], parse);
      if !cursor[i].Fetched? {
        break;
      }
      var step := HandleEvent(cursor[i].obj, parse);
      match step
      case StopLoop =>
        break;
      case Abort(e) =>
        aborted := Some(e);
        break;
      case NextEvent =>
        i := i + 1;
        continue;
      case Emit(row) =>
        ghost var later := Report(cursor[i + 1..], parse);
        assert (rows + [row]) + later.rows == rows + ([row] + later.rows);
        rows := rows + [row];
        i := i + 1;
    }
  }

  // ---------------------------------------------------------------------
  // Properties of the loop
  // ---------------------------------------------------------------------

  /** The message text the filters read: the escaped Message property. */
  function MessageOf(obj: WbemObject): Option<string>
  {
    if "Message" in obj && GetValueString(obj["Message"]).Success? then Some(GetValueString(obj["Message"]).value)
    else None
  }

  /** An EventCode property of type VT_I4. */
  predicate EventCodeProperty(obj: WbemObject) {
    "EventCode" in obj && obj["EventCode"].vt == VtI4
  }

  /** A string property that is present and either NULL or a BSTR. */
  predicate StringProperty(obj: WbemObject, name: string) {
    name in obj && (obj[name].vt == VtNull || obj[name].vt == VtBstr)
  }

  /**
   * The filter of the loop: EventCode and Message decode, and the event is
   * either not a logon or a logon of type 2.
   */
  predicate PassesFilter(obj: WbemObject, parse: string -> int) {
    && "EventCode" in obj && GetValueInt32(obj["EventCode"]).Success?
    && MessageOf(obj).Some?
    && (GetValueInt32(obj["EventCode"]).value != LogonEventCode
        || FindLogonType(MessageOf(obj).value, parse) == Some(InteractiveLogonType))
  }

  /**
   * An event whose four properties are present with the types the query
   * returns, and that passes the filter, is printed with its decoded values.
   */
  lemma EventKept(obj: WbemObject, parse: string -> int)
    requires EventCodeProperty(obj) && StringProperty(obj, "Message")
    requires StringProperty(obj, "ComputerName") && StringProperty(obj, "CategoryString")
    requires PassesFilter(obj, parse)
    ensures ProcessEvent(obj, parse) == Emit(ReportRow(
      GetValueString(obj["ComputerName"]).value, GetValueString(obj["CategoryString"]).value,
      GetValueInt32(obj["EventCode"]).value, UserColumn(MessageOf(obj).value)))
  {
  }

  /** A logon event whose logon type is absent or other than 2 is skipped. */
  lemma LogonTypeFilter(obj: WbemObject, parse: string -> int)
    requires "EventCode" in obj && GetValueInt32(obj["EventCode"]) == Success(LogonEventCode)
    requires MessageOf(obj).Some?
    requires FindLogonType(MessageOf(obj).value, parse) != Some(InteractiveLogonType)
    ensures ProcessEvent(obj, parse) == NextEvent
  {
  }

  /** An event other than a logon is never filtered on its logon type. */
  lemma OtherEventsIgnoreLogonType(obj: WbemObject, parse1: string -> int, parse2: string -> int)
    requires "EventCode" in obj && GetValueInt32(obj["EventCode"]) != Success(LogonEventCode)
    ensures ProcessEvent(obj, parse1) == ProcessEvent(obj, parse2)
    ensures ProcessEvent(obj, parse1) != NextEvent
  {
  }

  /**
   * A printed row carries the event's decoded properties; a printed logon
   * had logon type 2; the user column is domain\name from the escaped message.
   */
  lemma EmittedRow(obj: WbemObject, parse: string -> int)
    requires ProcessEvent(obj, parse).Emit?
    ensures var row := ProcessEvent(obj, parse).row;
      && MessageOf(obj).Some?
      && GetValueInt32(obj["EventCode"]) == Success(row.eventCode)
      && GetValueString(obj["ComputerName"]) == Success(row.computerName)
      && GetValueString(obj["CategoryString"]) == Success(row.category)
      && row.user == UserColumn(MessageOf(obj).value)
      && (row.eventCode == LogonEventCode ==> FindLogonType(MessageOf(obj).value, parse) == Some(InteractiveLogonType))
  {
  }

  /** A missing property ends the loop rather than skipping the event. */
  lemma MissingPropertyStops(obj: WbemObject, parse: string -> int, name: string)
    requires name in {"EventCode", "Message", "ComputerName", "CategoryString"} && name !in obj
    ensures !ProcessEvent(obj, parse).Emit?
    ensures name == "EventCode" ==> ProcessEvent(obj, parse) == StopLoop
    ensures name == "Message" && EventCodeProperty(obj) ==> ProcessEvent(obj, parse) == StopLoop
    ensures name == "ComputerName" && PassesFilter(obj, parse) ==> ProcessEvent(obj, parse) == StopLoop
    ensures name == "CategoryString" && PassesFilter(obj, parse) && StringProperty(obj, "ComputerName") ==>
      ProcessEvent(obj, parse) == StopLoop
  {
  }

  /** Whether the loop goes on to the next Next call after this outcome. */
  predicate Continues(f: FetchOutcome, parse: string -> int) {
    StepOf(f, parse).Emit? || StepOf(f, parse).NextEvent?
  }

  /** A step that does not end the loop puts its row, if any, in front of whatever follows. */
  lemma FollowAfter(step: EventStep, tail: ReportOutcome, later: ReportOutcome)
    requires step.Emit? || step.NextEvent?
    ensures Follow(step, After(tail.rows, later)) == After(Follow(step, tail).rows, later)
    ensures Follow(step, tail).aborted == tail.aborted
  {
    if step.Emit? {
      assert [step.row] + (tail.rows + later.rows) == ([step.row] + tail.rows) + later.rows;
    }
  }

  /** Nothing after the first outcome that ends the loop has any effect. */
  lemma {:induction false} ReportStopsAt(cursor: seq<FetchOutcome>, parse: string -> int, k: nat)
    requires k < |cursor| && !Continues(cursor[k], parse)
    ensures Report(cursor, parse) == Report(cursor[..k + 1], parse)
  {
    if k > 0 {
      assert cursor[1..][..k] == cursor[..k + 1][1..];
      ReportStopsAt(cursor[1..], parse, k - 1);
    }
  }

  /**
   * The loop is compositional: rows printed for events that did not end the
   * loop are kept, whatever happens later (a missing ComputerName, an
   * exception); later outcomes only append.
   */
  lemma {:induction false} ReportAppend(prefix: seq<FetchOutcome>, rest: seq<FetchOutcome>, parse: string -> int)
    requires forall k :: 0 <= k < |prefix| ==> Continues(prefix[k], parse)
    ensures Report(prefix + rest, parse) == After(Report(prefix, parse).rows, Report(rest, parse))
    ensures Report(prefix, parse).aborted == None
  {
    if prefix == [] {
      assert prefix + rest == rest;
    } else {
      var whole := prefix + rest;
      assert whole[1..] == prefix[1..] + rest;
      assert whole[0] == prefix[0];
      assert Continues(prefix[0], parse);
      assert forall k :: 0 <= k < |prefix[1..]| ==> Continues(prefix[1..][k], parse) by {
        forall k | 0 <= k < |prefix[1..]| ensures Continues(prefix[1..][k], parse) {
          assert prefix[1..][k] == prefix[k + 1];
        }
      }
      ReportAppend(prefix[1..], rest, parse);
      ReportUnfold(whole, parse);
      ReportUnfold(prefix, parse);
      FollowAfter(StepOf(prefix[0], parse), Report(prefix[1..], parse), Report(rest, parse));
    }
  }
}
