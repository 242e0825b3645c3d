/**
 * The generic WMI query of wmi_query.h: set up the COM connection,
 * authenticate, connect to root\cimv2 on a host, run a WQL query and call a
 * row callback on each returned object, keeping the callback's results.
 */
module WmiQuery {
  import opened Types
  import opened Wbem
  import opened Helpers
  import opened Auth

  /** IWbemWrapper: one returned object, handed to the row callback. */
  datatype WbemWrapper = WbemWrapper(obj: WbemObject) {
    /** The numeric call operator, forwarding to get_property. */
    method GetNumber(propertyName: string, t: IntType, outValue: int) returns (r: Result<bool>, newValue: int)
      requires propertyName in obj ==> !IsFloatTag(obj[propertyName].vt)
      ensures r == Success(false) <==> propertyName !in obj
      ensures r.Failure? <==> propertyName in obj && !IsIntegerTag(obj[propertyName].vt)
      ensures r != Success(true) ==> newValue == outValue
      ensures r == Success(true) ==> t.Contains(newValue)
      ensures r == Success(true) ==> Helpers.GetNumber(obj[propertyName], t) == Success(newValue)
      ensures r == Success(true) && t.Contains(IntegerField(obj[propertyName])) ==>
        newValue == IntegerField(obj[propertyName])
    {
      r, newValue := GetNumberProperty(obj, propertyName, t, outValue);
      if r == Success(true) && t.Contains(IntegerField(obj[propertyName])) {
        GetNumberExact(obj[propertyName], t);
      }
    }

    /** The std::wstring call operator, forwarding to get_property. */
    method GetText(propertyName: string, outValue: string) returns (r: Result<bool>, newValue: string)
      ensures r == Success(false) <==> propertyName !in obj
      ensures r.Failure? <==> propertyName in obj && obj[propertyName].vt != VtBstr
      ensures r != Success(true) ==> newValue == outValue
      ensures r == Success(true) ==> newValue == obj[propertyName].bstr
    {
      r, newValue := GetStringProperty(obj, propertyName, outValue);
    }
  }

  /** What one callback invocation does: return a value, throw SkipRowException, or throw anything else. */
  datatype RowResult<T> = Keep(value: T) | SkipRow | Raise(error: Error)

  /** The results of the enumeration loop over a cursor of fetch outcomes. */
  function Collect<T>(cursor: seq<FetchOutcome>, callback: WbemWrapper -> RowResult<T>): (r: Result<seq<T>>)
    ensures r.Failure? ==>
      var n := Visited(cursor, callback);
      && 0 < n && cursor[n - 1].Fetched?
      && callback(WbemWrapper(cursor[n - 1].obj)) == Raise(r.error)
  {
    if cursor == [] || !cursor[0].Fetched? then Success([])
    else match callback(WbemWrapper(cursor[0].obj))
      case Keep(x) => (var rest :- Collect(cursor[1..], callback); Success([x] + rest))
      case SkipRow => Collect(cursor[1..], callback)
      case Raise(e) => Failure(e)
  }

  /** How many times the enumeration loop invokes the callback. */
  function Visited<T>(cursor: seq<FetchOutcome>, callback: WbemWrapper -> RowResult<T>): (n: nat)
    ensures n <= |cursor|
  {
    if cursor == [] || !cursor[0].Fetched? then 0
    else match callback(WbemWrapper(cursor[0].obj))
      case Raise(_) => 1
      case _ => 1 + Visited(cursor[1..], callback)
  }

  /** Sequencing of two stretches of the loop: the first failure wins, otherwise the results concatenate. */
  function Then<T>(first: Result<seq<T>>, second: Result<seq<T>>): (r: Result<seq<T>>)
    ensures first.Failure? ==> r == first
    ensures first.Success? ==> (r.Success? <==> second.Success?)
    ensures first.Success? && second.Success? ==> r.value == first.value + second.value
  {
    match first
    case Failure(e) => Failure(e)
    case Success(xs) =>
      match second
      case Failure(e) => Failure(e)
      case Success(ys) => Success(xs + ys)
  }

  ghost predicate AllFetched(cursor: seq<FetchOutcome>) {
    forall k :: 0 <= k < |cursor| ==> cursor[k].Fetched?
  }

  /** One step of Collect on a fetched row. */
  lemma CollectUnfold<T>(cursor: seq<FetchOutcome>, callback: WbemWrapper -> RowResult<T>)
    requires cursor != [] && cursor[0].Fetched?
    ensures var row := callback(WbemWrapper(cursor[0].obj));
      Collect(cursor, callback) ==
        match row
        case Keep(x) => Then(Success([x]), Collect(cursor[1..], callback))
        case SkipRow => Collect(cursor[1..], callback)
        case Raise(e) => Failure(e)
  {
    match callback(WbemWrapper(cursor[0].obj))
    case Keep(x) =>
    case SkipRow =>
    case Raise(e) =>
  }

  /** A stretch of fetched rows followed by the rest: the loop runs through the stretch, then on. */
  lemma {:induction false} CollectAppend<T>(pre: seq<FetchOutcome>, post: seq<FetchOutcome>, callback: WbemWrapper -> RowResult<T>)
    requires AllFetched(pre)
    ensures Collect(pre + post, callback) == Then(Collect(pre, callback), Collect(post, callback))
  {
    if pre == [] {
      assert pre + post == post;
      match Collect(post, callback)
      case Success(ys) => assert [] + ys == ys;
      case Failure(_) =>
    } else {
      var whole := pre + post;
      assert whole[0] == pre[0];
      assert whole[1..] == pre[1..] + post;
      CollectAppend(pre[1..], post, callback);
      CollectUnfold(whole, callback);
      CollectUnfold(pre, callback);
      match callback(WbemWrapper(pre[0].obj))
      case Keep(x) =>
        match Collect(pre[1..], callback) {
          case Failure(_) =>
          case Success(xs) =>
            match Collect(post, callback)
            case Failure(_) =>
            case Success(ys) => assert [x] + (xs + ys) == ([x] + xs) + ys;
        }
      case SkipRow =>
      case Raise(_) =>
    }
  }

  /** A row whose callback throws SkipRowException contributes nothing and the loop goes on. */
  lemma CollectSkipsRow<T>(pre: seq<FetchOutcome>, obj: WbemObject, post: seq<FetchOutcome>, callback: WbemWrapper -> RowResult<T>)
    requires AllFetched(pre) && callback(WbemWrapper(obj)) == SkipRow
    ensures Collect(pre + [Fetched(obj)] + post, callback) == Collect(pre + post, callback)
  {
    assert pre + [Fetched(obj)] + post == pre + ([Fetched(obj)] + post);
    CollectAppend(pre, [Fetched(obj)] + post, callback);
    CollectAppend(pre, post, callback);
    CollectUnfold([Fetched(obj)] + post, callback);
    assert ([Fetched(obj)] + post)[1..] == post;
  }

  /** A row whose callback returns a value adds it, in cursor order, after the earlier rows' results. */
  lemma CollectKeepsRow<T>(pre: seq<FetchOutcome>, obj: WbemObject, post: seq<FetchOutcome>, callback: WbemWrapper -> RowResult<T>)
    requires AllFetched(pre) && callback(WbemWrapper(obj)).Keep?
    ensures Collect(pre + [Fetched(obj)] + post, callback) ==
      Then(Then(Collect(pre, callback), Success([callback(WbemWrapper(obj)).value])), Collect(post, callback))
  {
    assert pre + [Fetched(obj)] + post == pre + ([Fetched(obj)] + post);
    CollectAppend(pre, [Fetched(obj)] + post, callback);
    CollectUnfold([Fetched(obj)] + post, callback);
    assert ([Fetched(obj)] + post)[1..] == post;
    var x := callback(WbemWrapper(obj)).value;
    match Collect(pre, callback)
    case Failure(_) =>
    case Success(xs) =>
      match Collect(post, callback)
      case Failure(_) =>
      case Success(ys) => assert xs + ([x] + ys) == (xs + [x]) + ys;
  }

  /** Any other exception from the callback ends the query with that error: no result list is returned. */
  lemma CollectRaises<T>(pre: seq<FetchOutcome>, obj: WbemObject, post: seq<FetchOutcome>, callback: WbemWrapper -> RowResult<T>)
    requires AllFetched(pre) && Collect(pre, callback).Success? && callback(WbemWrapper(obj)).Raise?
    ensures Collect(pre + [Fetched(obj)] + post, callback) == Failure(callback(WbemWrapper(obj)).error)
  {
    assert pre + [Fetched(obj)] + post == pre + ([Fetched(obj)] + post);
    CollectAppend(pre, [Fetched(obj)] + post, callback);
    CollectUnfold([Fetched(obj)] + post, callback);
  }

  /** A failed or empty Next ends the loop: nothing after it is looked at. */
  lemma CollectStopsAt<T>(pre: seq<FetchOutcome>, stop: FetchOutcome, post: seq<FetchOutcome>, callback: WbemWrapper -> RowResult<T>)
    requires AllFetched(pre) && !stop.Fetched?
    ensures Collect(pre + [stop] + post, callback) == Collect(pre, callback)
    ensures Visited(pre + [stop] + post, callback) == Visited(pre, callback)
  {
    assert pre + [stop] + post == pre + ([stop] + post);
    CollectAppend(pre, [stop] + post, callback);
    match Collect(pre, callback) {
      case Failure(_) =>
      case Success(xs) => assert xs + [] == xs;
    }
    VisitedStopsAt(pre, stop, post, callback);
  }

  lemma {:induction false} VisitedStopsAt<T>(pre: seq<FetchOutcome>, stop: FetchOutcome, post: seq<FetchOutcome>, callback: WbemWrapper -> RowResult<T>)
    requires AllFetched(pre) && !stop.Fetched?
    ensures Visited(pre + ([stop] + post), callback) == Visited(pre, callback)
  {
    if pre == [] {
      assert pre + ([stop] + post) == [stop] + post;
    } else {
      var whole := pre + ([stop] + post);
      assert whole[0] == pre[0];
      assert whole[1..] == pre[1..] + ([stop] + post);
      VisitedStopsAt(pre[1..], stop, post, callback);
    }
  }

  /** There are never more results than callback invocations. */
  lemma {:induction false} CollectBound<T>(cursor: seq<FetchOutcome>, callback: WbemWrapper -> RowResult<T>)
    requires Collect(cursor, callback).Success?
    ensures |Collect(cursor, callback).value| <= Visited(cursor, callback)
  {
    if cursor != [] && cursor[0].Fetched? {
      CollectUnfold(cursor, callback);
      match callback(WbemWrapper(cursor[0].obj))
      case Keep(x) => CollectBound(cursor[1..], callback);
      case SkipRow => CollectBound(cursor[1..], callback);
      case Raise(_) =>
    }
  }

  /** The enumeration loop: fetch one object at a time and call the callback on it. */
  method CollectRows<T>(cursor: seq<FetchOutcome>, callback: WbemWrapper -> RowResult<T>)
    returns (r: Result<seq<T>>, calls: nat)
    ensures r == Collect(cursor, callback)
    ensures calls == Visited(cursor, callback)
  {
    var results: seq<T> := [];
    var i := 0;
    calls := 0;
    assert cursor[0..] == cursor;
    match Collect(cursor, callback) {
      case Failure(_) =>
      case Success(ys) => assert [] + ys == ys;
    }
    while i < |cursor|
      invariant 0 <= i <= |cursor|
      invariant Collect(cursor, callback) == Then(Success(results), Collect(cursor[i..], callback))
      invariant Visited(cursor, callback) == calls + Visited(cursor[i..], callback)
      decreases |cursor| - i
    {
      if !cursor[i].Fetched? {
        break;
      }
      assert cursor[i..][0] == cursor[i];
      assert cursor[i..][1..] == cursor[i + 1..];
      CollectUnfold(cursor[i..], callback);
      var row := callback(WbemWrapper(cursor[i].obj));
      calls := calls + 1;
      match row {
        case Raise(e) =>
          return Failure(e), calls;
        case SkipRow =>
        case Keep(x) =>
          match Collect(cursor[i + 1..], callback) {
            case Failure(_) =>
            case Success(ys) => assert results + ([x] + ys) == (results + [x]) + ys;
          }
          results := results + [x];
      }
      i := i + 1;
    }
    assert results + [] == results;
    r := Success(results);
  }

  /** The "\root\cimv2" tail of the namespace path. */
  const RootCimV2: string := "\\root\\cimv2"

  /** The namespace a query connects to: \\host\root\cimv2. */
  function NamespacePath(host: string): (p: string)
    ensures |p| == |host| + 2 + |RootCimV2|
    ensures p[..2] == "\\\\" && p[2..2 + |host|] == host && p[2 + |host|..] == RootCimV2
  {
    "\\\\" + host + RootCimV2
  }

  /** The arguments handed to IWbemLocator::ConnectServer; None is a null BSTR. */
  datatype ConnectRequest = ConnectRequest(
    path: string, user: Option<string>, password: Option<string>, authority: Option<string>)

  /**
   * The outcomes of the calls into COM, as the environment decides them:
   * COM initialisation, the locator, the credential dialog, ConnectServer,
   * the two proxy blankets (given the identity passed), ExecQuery, and the
   * objects the enumerator hands out.
   */
  datatype Services = Services(
    comInitialized: bool,
    locatorCreated: bool,
    prompt: PromptResult,
    connect: ConnectRequest -> bool,
    serviceBlanket: Option<AuthIdentity> -> bool,
    execQuery: string -> bool,
    enumeratorBlanket: Option<AuthIdentity> -> bool,
    cursor: seq<FetchOutcome>)

  /** The ConnectServer arguments for a host and constructed credentials. */
  function RequestFor(host: string, c: Credentials): (q: ConnectRequest)
    ensures q.path == NamespacePath(host)
    ensures q.user.None? <==> c.useToken
    ensures q.password.None? <==> c.useToken
    ensures q.authority.None? <==> c.useNtlm
  {
    ConnectRequest(NamespacePath(host),
      if c.useToken then None else Some(c.name),
      if c.useToken then None else Some(c.password),
      if c.useNtlm then None else Some(c.authority))
  }

  /** The identity passed to CoSetProxyBlanket. */
  function AccountOf(c: Credentials): (a: Option<AuthIdentity>)
    ensures a.None? <==> !c.hasAccount
  {
    if c.hasAccount then Some(c.identity) else None
  }

  /** Everything wmi_query does before the enumeration loop, in its order; each step may throw. */
  function Setup(host: string, query: string, promptCredentials: bool, useNtlm: bool, env: Services): (r: Result<Credentials>)
    ensures r.Success? <==>
      && env.comInitialized && env.locatorCreated
      && Construct(promptCredentials, useNtlm, env.prompt).Success?
      && var c := Construct(promptCredentials, useNtlm, env.prompt).value;
      && env.connect(RequestFor(host, c)) && env.serviceBlanket(AccountOf(c))
      && env.execQuery(query) && env.enumeratorBlanket(AccountOf(c))
    ensures r.Success? ==> Construct(promptCredentials, useNtlm, env.prompt) == r
    ensures env.comInitialized && env.locatorCreated && Construct(promptCredentials, useNtlm, env.prompt).Failure? ==>
      r == Construct(promptCredentials, useNtlm, env.prompt)
  {
    if !env.comInitialized then Failure(ComInitialization)
    else if !env.locatorCreated then Failure(LocatorCreation)
    else
      var c :- Construct(promptCredentials, useNtlm, env.prompt);
      if !env.connect(RequestFor(host, c)) then Failure(Connection)
      else if !env.serviceBlanket(AccountOf(c)) then Failure(ServiceBlanket)
      else if !env.execQuery(query) then Failure(QueryExecution)
      else if !env.enumeratorBlanket(AccountOf(c)) then Failure(EnumeratorBlanket)
      else Success(c)
  }

  /**
   * What reaches ConnectServer and the proxy blankets: null credentials and
   * no identity when the token is used (no prompt, or a cancelled one);
   * the typed name, the password and the identity split from the name when
   * the prompt succeeded; the Kerberos authority exactly when NTLM is off.
   */
  lemma SetupCredentials(host: string, query: string, promptCredentials: bool, useNtlm: bool, env: Services)
    requires Setup(host, query, promptCredentials, useNtlm, env).Success?
    ensures var c := Setup(host, query, promptCredentials, useNtlm, env).value;
      var q := RequestFor(host, c);
      && env.connect(q)
      && q.path == NamespacePath(host)
      && (q.user.None? <==> !promptCredentials || env.prompt.code == ErrorCancelled)
      && (q.user.Some? ==> q.user == Some(env.prompt.name) && q.password == Some(env.prompt.password))
      && (AccountOf(c).None? <==> q.user.None?)
      && (AccountOf(c).Some? ==> AccountOf(c).value.domain + "\\" + AccountOf(c).value.user == env.prompt.name)
      && (q.authority.None? <==> useNtlm)
      && (q.authority.Some? ==> q.authority.value == KerberosAuthority)
  {
    ConstructOutcome(promptCredentials, useNtlm, env.prompt);
    ConstructWellFormed(promptCredentials, useNtlm, env.prompt);
  }

  /**
   * wmi_query: set up, then enumerate. A failing setup step throws before
   * the callback is ever called; otherwise the result is the enumeration's.
   */
  method Query<T>(host: string, query: string, promptCredentials: bool,
                  callback: WbemWrapper -> RowResult<T>, useNtlm: bool, env: Services)
    returns (r: Result<seq<T>>, calls: nat)
    ensures var setup := Setup(host, query, promptCredentials, useNtlm, env);
      setup.Failure? ==> r == Failure(setup.error) && calls == 0
    ensures var setup := Setup(host, query, promptCredentials, useNtlm, env);
      setup.Success? ==> r == Collect(env.cursor, callback) && calls == Visited(env.cursor, callback)
  {
    if !env.comInitialized {
      return Failure(ComInitialization), 0;
    }
    if !env.locatorCreated {
      return Failure(LocatorCreation), 0;
    }
    var created := Authentication.Create(promptCredentials, useNtlm, env.prompt);
    if created.Failure? {
      return Failure(created.error), 0;
    }
    var auth := created.value;
    var request := ConnectRequest(NamespacePath(host), auth.NameBstr(), auth.PasswordBstr(), auth.AuthorityBstr());
    if !env.connect(request) {
      return Failure(Connection), 0;
    }
    if !env.serviceBlanket(auth.UserAccount()) {
      return Failure(ServiceBlanket), 0;
    }
    if !env.execQuery(query) {
      return Failure(QueryExecution), 0;
    }
    if !env.enumeratorBlanket(auth.UserAccount()) {
      return Failure(EnumeratorBlanket), 0;
    }
    r, calls := CollectRows(env.cursor, callback);
  }
}
