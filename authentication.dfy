/**
 * The Authentication object of wmi_query.cpp: the credential buffers, the
 * use-token and use-NTLM flags, and the COAUTHIDENTITY built from an
 * explicit "DOMAIN\user" name.
 */
module Auth {
  import opened Types

  /** ERROR_CANCELLED, the code CredUIPromptForCredentials returns when the dialog is cancelled. */
  const ErrorCancelled: nat := 1223
  /** The authority string used when NTLM is not. */
  const KerberosAuthority: string := "kERBEROS:COMPUTERNAME"
  /** SEC_WINNT_AUTH_IDENTITY_UNICODE */
  const IdentityUnicode: nat := 2

  /** What the credential dialog returned: its error code and what it left in the two buffers. */
  datatype PromptResult = PromptResult(code: nat, name: string, password: string)

  /** COAUTHIDENTITY: user, domain and password with their lengths, and the flags. */
  datatype AuthIdentity = AuthIdentity(
    user: string, userLength: nat,
    domain: string, domainLength: nat,
    password: string, passwordLength: nat,
    flags: nat)

  /** The value-initialised COAUTHIDENTITY `{ }`. */
  const EmptyIdentity: AuthIdentity := AuthIdentity("", 0, "", 0, "", 0, 0)

  /** wcschr(s, '\\'), as an index: the first backslash. */
  function IndexOfBackslash(s: string): (r: Option<nat>)
    ensures r.Some? ==> r.value < |s| && s[r.value] == '\\' && '\\' !in s[..r.value]
    ensures r.None? ==> '\\' !in s
  {
    if s == [] then None
    else if s[0] == '\\' then Some(0)
    else match IndexOfBackslash(s[1..])
      case None => None
      case Some(i) => assert s[..i + 1] == [s[0]] + s[1..][..i]; Some(i + 1)
  }

  /** The domain (before the first backslash) and the user name (after it). */
  function SplitAccount(name: string): (r: Option<(string, string)>)
    ensures r.None? <==> '\\' !in name
  {
    match IndexOfBackslash(name)
    case None => None
    case Some(slash) => Some((name[..slash], name[slash + 1..]))
  }

  /**
   * Splitting is undone by joining: domain, backslash, user gives the name
   * back, the domain holds no backslash and its length is the index of the
   * first backslash.
   */
  lemma SplitAccountJoin(name: string)
    requires '\\' in name
    ensures var (domain, user) := SplitAccount(name).value;
      && domain + "\\" + user == name
      && '\\' !in domain
      && IndexOfBackslash(name) == Some(|domain|)
  {
    var slash := IndexOfBackslash(name).value;
    assert name[..slash] + "\\" + name[slash + 1..] == name[..slash] + name[slash..];
    assert name[..slash] + name[slash..] == name;
  }

  /** Joining is undone by splitting, whenever the domain holds no backslash. */
  lemma SplitAccountOfJoin(domain: string, user: string)
    requires '\\' !in domain
    ensures SplitAccount(domain + "\\" + user) == Some((domain, user))
  {
    var name := domain + "\\" + user;
    assert name[|domain|] == '\\';
    assert name[..|domain|] == domain;
    assert '\\' in name;
    SplitAccountJoin(name);
    var (d, u) := SplitAccount(name).value;
    assert |d| == |domain|;
    assert name[|domain| + 1..] == user;
  }

  /** The state an Authentication object holds once its constructor returns. */
  datatype Credentials = Credentials(
    useToken: bool, useNtlm: bool,
    name: string, password: string, domain: string, userName: string, authority: string,
    identity: AuthIdentity, hasAccount: bool)

  /**
   * What the prompt outcome decides: the calling process's token (no prompt,
   * or a cancelled one), the typed credentials (success), or an exception.
   */
  function PromptUseToken(promptCredentials: bool, prompt: PromptResult): (r: Result<bool>)
    ensures r == Success(false) <==> promptCredentials && prompt.code == 0
    ensures r.Failure? <==> promptCredentials && prompt.code != 0 && prompt.code != ErrorCancelled
    ensures r.Failure? ==> r.error == CredentialPrompt(prompt.code)
  {
    if !promptCredentials || prompt.code == ErrorCancelled then Success(true)
    else if prompt.code != 0 then Failure(CredentialPrompt(prompt.code))
    else Success(false)
  }

  /** The Authentication constructor, as a function of its arguments and the prompt outcome. */
  function Construct(promptCredentials: bool, useNtlm: bool, prompt: PromptResult): (r: Result<Credentials>)
    ensures r.Failure? <==>
      promptCredentials && (if prompt.code == 0 then '\\' !in prompt.name else prompt.code != ErrorCancelled)
    ensures r.Success? ==> r.value.useToken == !(promptCredentials && prompt.code == 0)
    ensures r.Success? && !r.value.useToken ==> r.value.name == prompt.name && r.value.password == prompt.password
  {
    var useToken :- PromptUseToken(promptCredentials, prompt);
    var name := if promptCredentials then prompt.name else "";
    var password := if promptCredentials then prompt.password else "";
    Complete(useToken, useNtlm, name, password)
  }

  /**
   * The rest of the constructor once the prompt has settled the token flag
   * and the buffers: the authority, then the identity split from the name.
   */
  function Complete(useToken: bool, useNtlm: bool, name: string, password: string): (r: Result<Credentials>)
    ensures r.Failure? <==> !useToken && '\\' !in name
    ensures r.Failure? ==> r.error == NoDomainSpecified
    ensures r.Success? ==> r.value.useNtlm == useNtlm && r.value.authority == (if useNtlm then "" else KerberosAuthority)
    ensures r.Success? ==>
      r.value.useToken == useToken && r.value.hasAccount == !useToken && r.value.name == name && r.value.password == password
  {
    var authority := if useNtlm then "" else KerberosAuthority;
    if useToken then
      Success(Credentials(true, useNtlm, name, password, "", "", authority, EmptyIdentity, false))
    else match SplitAccount(name)
      case None => Failure(NoDomainSpecified)
      case Some((domain, user)) =>
        var identity := AuthIdentity(user, |user|, domain, |domain|, password, |password|, IdentityUnicode);
        Success(Credentials(false, useNtlm, name, password, domain, user, authority, identity, true))
  }

  /** The consistency a constructed Authentication has. */
  ghost predicate WellFormed(c: Credentials) {
    && c.hasAccount == !c.useToken
    && c.authority == (if c.useNtlm then "" else KerberosAuthority)
    && (!c.useToken ==>
          && c.domain + "\\" + c.userName == c.name
          && '\\' !in c.domain
          && c.identity == AuthIdentity(c.userName, |c.userName|, c.domain, |c.domain|,
                                        c.password, |c.password|, IdentityUnicode))
  }

  /** Construction either throws or yields a well-formed state. */
  lemma ConstructWellFormed(promptCredentials: bool, useNtlm: bool, prompt: PromptResult)
    requires Construct(promptCredentials, useNtlm, prompt).Success?
    ensures WellFormed(Construct(promptCredentials, useNtlm, prompt).value)
  {
    var c := Construct(promptCredentials, useNtlm, prompt).value;
    if !c.useToken {
      SplitAccountJoin(c.name);
    }
  }

  /**
   * The outcome of construction: the token is used unless the prompt
   * succeeded; a failed prompt throws; typed credentials without a backslash
   * throw; otherwise the name is split at its first backslash.
   */
  lemma ConstructOutcome(promptCredentials: bool, useNtlm: bool, prompt: PromptResult)
    ensures var r := Construct(promptCredentials, useNtlm, prompt);
      && (!promptCredentials || prompt.code == ErrorCancelled ==> r.Success? && r.value.useToken)
      && (promptCredentials && prompt.code != 0 && prompt.code != ErrorCancelled ==>
            r == Failure(CredentialPrompt(prompt.code)))
      && (promptCredentials && prompt.code == 0 && '\\' !in prompt.name ==> r == Failure(NoDomainSpecified))
      && (promptCredentials && prompt.code == 0 && '\\' in prompt.name ==>
            r.Success? && !r.value.useToken && r.value.name == prompt.name
            && r.value.domain + "\\" + r.value.userName == prompt.name
            && |r.value.domain| == IndexOfBackslash(prompt.name).value
            && r.value.identity.passwordLength == |prompt.password|)
  {
    if promptCredentials && prompt.code == 0 && '\\' in prompt.name {
      SplitAccountJoin(prompt.name);
    }
  }

  class Authentication {
    var name: string        // m_name
    var password: string    // m_password
    var domain: string      // m_domain
    var userName: string    // m_user_name
    var authority: string   // m_authority
    var useToken: bool      // m_use_token
    var useNtlm: bool       // m_use_ntlm
    var authIdent: AuthIdentity  // m_auth_ident
    var hasUserAccount: bool     // m_user_account == &m_auth_ident (otherwise nullptr)

    /** The object's state as a value. */
    function State(): Credentials
      reads this
    {
      Credentials(useToken, useNtlm, name, password, domain, userName, authority, authIdent, hasUserAccount)
    }

    ghost predicate Valid()
      reads this
    {
      WellFormed(State())
    }

    /** The member initialisers: empty buffers, the token, no identity. */
    constructor Init(useNtlm: bool)
      ensures State() == Credentials(true, useNtlm, "", "", "", "", "", EmptyIdentity, false)
    {
      name, password, domain, userName, authority := "", "", "", "", "";
      useToken := true;
      this.useNtlm := useNtlm;
      authIdent := EmptyIdentity;
      hasUserAccount := false;
    }

    /**
     * Authentication(PromptCredentials, UseNtlm), which may throw: the
     * initialisers, then the prompt, the authority, and the identity, in
     * the order the constructor sets them.
     */
    static method Create(promptCredentials: bool, useNtlm: bool, prompt: PromptResult)
      returns (r: Result<Authentication>)
      ensures r.Failure? ==> Construct(promptCredentials, useNtlm, prompt) == Failure(r.error)
      ensures r.Success? ==> fresh(r.value) && r.value.Valid()
      ensures r.Success? ==> Construct(promptCredentials, useNtlm, prompt) == Success(r.value.State())
    {
      var a := new Authentication.Init(useNtlm);
      if promptCredentials {
        a.name, a.password := prompt.name, prompt.password;
        if prompt.code == ErrorCancelled {
          a.useToken := true;
        } else if prompt.code != 0 {
          return Failure(CredentialPrompt(prompt.code));
        } else {
          a.useToken := false;
        }
      }
      assert PromptUseToken(promptCredentials, prompt) == Success(a.useToken);
      var built := a.BuildIdentity();
      if built.Fail? {
        return Failure(built.error);
      }
      ConstructWellFormed(promptCredentials, useNtlm, prompt);
      r := Success(a);
    }

    /** The constructor after the prompt: the authority, then the identity when the token is not used. */
    method BuildIdentity() returns (built: Outcome)
      requires authority == "" && domain == "" && userName == ""
      requires authIdent == EmptyIdentity && !hasUserAccount
      modifies this
      ensures built.Fail? ==> Complete(old(useToken), old(useNtlm), old(name), old(password)) == Failure(built.error)
      ensures built.Pass? ==> Complete(old(useToken), old(useNtlm), old(name), old(password)) == Success(State())
    {
      if !useNtlm {
        authority := KerberosAuthority;
      }
      if !useToken {
        authIdent := authIdent.(passwordLength := |password|, password := password);
        var slash := IndexOfBackslash(name);
        if slash.None? {
          return Fail(NoDomainSpecified);
        }
        userName := name[slash.value + 1..];
        authIdent := authIdent.(user := userName, userLength := |userName|);
        domain := name[..slash.value];
        authIdent := authIdent.(domain := domain, domainLength := slash.value, flags := IdentityUnicode);
        hasUserAccount := true;
      }
      built := Pass;
    }

    /** name_bstr(): null when the token is used, the typed name otherwise. */
    function NameBstr(): (r: Option<string>)
      reads this
      ensures r.None? <==> useToken
      ensures r.Some? ==> r.value == name
    {
      if useToken then None else Some(name)
    }

    /** password_bstr(): null when the token is used, the typed password otherwise. */
    function PasswordBstr(): (r: Option<string>)
      reads this
      ensures r.None? <==> useToken
      ensures r.Some? ==> r.value == password
    {
      if useToken then None else Some(password)
    }

    /** authoriy_bstr(): null when NTLM is used, the Kerberos authority otherwise. */
    function AuthorityBstr(): (r: Option<string>)
      reads this
      requires Valid()
      ensures r.None? <==> useNtlm
      ensures r.Some? ==> r.value == KerberosAuthority
    {
      if useNtlm then None else Some(authority)
    }

    /**
     * user_account(): null when the token is used; otherwise the identity
     * built from the typed name, split at its first backslash, and password.
     */
    function UserAccount(): (r: Option<AuthIdentity>)
      reads this
      requires Valid()
      ensures r.None? <==> useToken
      ensures r.Some? ==> r.value.domain + "\\" + r.value.user == name
      ensures r.Some? ==> r.value.password == password && r.value.passwordLength == |password|
      ensures r.Some? ==> r.value.domainLength == |r.value.domain| && r.value.userLength == |r.value.user|
    {
      if hasUserAccount then Some(authIdent) else None
    }
  }
}
