/** The sign-in gate (src/context/AuthContext.tsx): the allow-list read
    from `VITE_ALLOWED_EMAILS`, the session handler that signs out every
    user whose email is not on it, and the `useAuth` guard. The identity
    provider's calls are recorded as effects; `JSON.parse` is the
    `jsonParse` argument, with `None` for a parse that throws. */
module Auth {
  import opened Wrappers
  import opened Text

  /** `import.meta.env.VITE_ALLOWED_EMAILS || ''`: an unset and an empty
      variable both read as the empty string. */
  function AllowListSource(env: Option<string>): (r: string)
    ensures r == env.GetOr("")
  {
    if env.Some? && env.value != "" then env.value else ""
  }

  function TrimAll(xs: seq<string>): (r: seq<string>)
    ensures |r| == |xs|
  {
    seq(|xs|, k requires 0 <= k < |xs| => Trim(xs[k]))
  }

  /** The allow-list: a string starting with `[` is parsed as JSON, and a
      parse that throws leaves the list empty; any other string is split on
      commas and each piece trimmed. */
  function ParseAllowList(s: string, jsonParse: string -> Option<seq<string>>): (r: seq<string>)
    ensures |s| > 0 && s[0] == '[' ==> r == jsonParse(s).GetOr([])
    ensures !(|s| > 0 && s[0] == '[') ==> |r| == Count(s, ',') + 1
  {
    if |s| > 0 && s[0] == '[' then
      match jsonParse(s)
      case Some(xs) => xs
      case None => []
    else
      TrimAll(Split(s, ','))
  }

  /** On the comma path every entry is a trimmed comma-free piece of the
      string, so the list is never empty. */
  lemma CommaListEntries(s: string, jsonParse: string -> Option<seq<string>>)
    requires !(|s| > 0 && s[0] == '[')
    ensures var r := ParseAllowList(s, jsonParse);
      && |r| == |Split(s, ',')| >= 1
      && forall k :: 0 <= k < |r| ==> r[k] == Trim(Split(s, ',')[k]) && ',' !in r[k] && Trim(r[k]) == r[k]
  {
    var r := ParseAllowList(s, jsonParse);
    var pieces := Split(s, ',');
    forall k | 0 <= k < |r| ensures ',' !in r[k] && Trim(r[k]) == r[k] {
      TrimSpec(pieces[k]);
      TrimIdempotent(pieces[k]);
      var i := |pieces[k]| - |TrimStart(pieces[k])|;
      var j := i + |Trim(pieces[k])|;
      assert r[k] == pieces[k][i..j];
    }
  }

  /** A comma-separated list of trimmed, comma-free emails reads back as
      exactly those emails, in order. */
  lemma AllowListRoundTrip(emails: seq<string>, jsonParse: string -> Option<seq<string>>)
    requires |emails| >= 1
    requires forall k :: 0 <= k < |emails| ==> ',' !in emails[k] && Trim(emails[k]) == emails[k]
    requires var s := Join(emails, ','); !(|s| > 0 && s[0] == '[')
    ensures ParseAllowList(Join(emails, ','), jsonParse) == emails
  {
    var s := Join(emails, ',');
    SplitJoin(emails, ',');
    var r := ParseAllowList(s, jsonParse);
    assert r == TrimAll(emails);
    forall k | 0 <= k < |r| ensures r[k] == emails[k] {
    }
  }

  /** Whether a user with this email may stay signed in: an empty list
      admits everyone, otherwise the email (empty when missing) must be on
      the list. */
  predicate Admits(allowList: seq<string>, email: Option<string>) {
    !(|allowList| > 0 && email.GetOr("") !in allowList)
  }

  lemma {:induction false} SplitTrailing(s: string, sep: char)
    ensures |Split(s + [sep], sep)| >= 2
    ensures Split(s + [sep], sep)[|Split(s + [sep], sep)| - 1] == ""
  {
    if s == [] {
      assert [sep][1..] == [];
    } else {
      assert (s + [sep])[1..] == s[1..] + [sep];
      SplitTrailing(s[1..], sep);
    }
  }

  /** An unset variable splits into the single entry `""`: every user with
      an email is signed out, and only users without one get in. */
  lemma UnsetAllowList(jsonParse: string -> Option<seq<string>>, email: string)
    ensures ParseAllowList(AllowListSource(None), jsonParse) == [""]
    ensures Admits(ParseAllowList(AllowListSource(None), jsonParse), Some(email)) <==> email == ""
    ensures Admits(ParseAllowList(AllowListSource(None), jsonParse), None)
  {
    assert Trim("") == "";
  }

  /** A trailing comma adds the entry `""`, which admits users without an
      email. */
  lemma TrailingCommaAdmitsNoEmail(s: string, jsonParse: string -> Option<seq<string>>)
    requires !(|s| > 0 && s[0] == '[')
    ensures Admits(ParseAllowList(s + [','], jsonParse), None)
  {
    var t := s + [','];
    assert !(|t| > 0 && t[0] == '[') by {
      if s == [] { assert t == [',']; } else { assert t[0] == s[0]; }
    }
    SplitTrailing(s, ',');
    var pieces := Split(t, ',');
    var r := ParseAllowList(t, jsonParse);
    assert r[|r| - 1] == Trim(pieces[|pieces| - 1]) == Trim("") == "";
  }

  /** A JSON list that fails to parse leaves the list empty, which admits
      everyone. */
  lemma ParseFailureAdmitsEveryone(s: string, jsonParse: string -> Option<seq<string>>, email: Option<string>)
    requires |s| > 0 && s[0] == '[' && jsonParse(s).None?
    ensures ParseAllowList(s, jsonParse) == []
    ensures Admits(ParseAllowList(s, jsonParse), email)
  {
  }

  datatype User = User(email: Option<string>)
  datatype Session = Session(user: Option<User>)

  /** Calls the provider makes on the outside world. */
  datatype AuthEffect = RemoteSignOut | AccessDeniedAlert

  /** What `useAuth` hands to a component. */
  datatype AuthContextValue = AuthContextValue(user: Option<User>, session: Option<Session>, loading: bool)

  class AuthProvider {
    var user: Option<User>
    var session: Option<Session>
    var loading: bool
    const allowedEmails: seq<string>
    /** The provider's outside calls, oldest first. */
    var effects: seq<AuthEffect>

    /** The provider's invariant: a user is held exactly with the session
        that carries it, and only when the allow-list admits the email. */
    ghost predicate Valid()
      reads this
    {
      && (user.Some? <==> session.Some?)
      && (session.Some? ==> session.value.user == user)
      && (user.Some? ==> Admits(allowedEmails, user.value.email))
    }

    constructor (env: Option<string>, jsonParse: string -> Option<seq<string>>)
      ensures user == None && session == None && loading
      ensures allowedEmails == ParseAllowList(AllowListSource(env), jsonParse)
      ensures effects == []
      ensures Valid()
    {
      user, session, loading := None, None, true;
      allowedEmails := ParseAllowList(AllowListSource(env), jsonParse);
      effects := [];
    }

    function Context(): AuthContextValue
      reads this
    {
      AuthContextValue(user, session, loading)
    }

    /** `handleSession`: a session with a user is kept when the allow-list
        admits the email; otherwise the user is signed out remotely,
        cleared and told; no session clears the state. */
    method HandleSession(s: Option<Session>)
      modifies this
      ensures s.Some? && s.value.user.Some? && Admits(allowedEmails, s.value.user.value.email) ==>
        session == s && user == s.value.user && effects == old(effects)
      ensures s.Some? && s.value.user.Some? && !Admits(allowedEmails, s.value.user.value.email) ==>
        session == None && user == None && effects == old(effects) + [RemoteSignOut, AccessDeniedAlert]
      ensures !(s.Some? && s.value.user.Some?) ==>
        session == None && user == None && effects == old(effects)
      ensures loading == old(loading)
      ensures Valid()
    {
      if s.Some? && s.value.user.Some? {
        if |allowedEmails| > 0 && s.value.user.value.email.GetOr("") !in allowedEmails {
          effects := effects + [RemoteSignOut];
          user, session := None, None;
          effects := effects + [AccessDeniedAlert];
        } else {
          session := s;
          user := s.value.user;
        }
      } else {
        session, user := None, None;
      }
    }

    /** The initial session check and every auth state change: handle the
        session, then stop loading. */
    method OnSessionEvent(s: Option<Session>)
      modifies this
      ensures !loading
      ensures user.Some? <==> s.Some? && s.value.user.Some? && Admits(allowedEmails, s.value.user.value.email)
      ensures effects == old(effects) +
        (if s.Some? && s.value.user.Some? && !Admits(allowedEmails, s.value.user.value.email)
         then [RemoteSignOut, AccessDeniedAlert] else [])
      ensures user.Some? ==> session == s && user == s.value.user
      ensures Valid()
    {
      HandleSession(s);
      loading := false;
    }

    /** `signOut`: signs out remotely and clears the state. */
    method SignOut()
      modifies this
      ensures user == None && session == None
      ensures effects == old(effects) + [RemoteSignOut]
      ensures loading == old(loading)
      ensures Valid()
    {
      effects := effects + [RemoteSignOut];
      user, session := None, None;
    }
  }

  const OutsideProvider := "useAuth must be used within an AuthProvider"

  /** `useAuth`: the provider's value, or the error thrown outside one. */
  function UseAuth(context: Option<AuthContextValue>): (r: Result<AuthContextValue, string>)
    ensures r.Ok? <==> context.Some?
    ensures r.Ok? ==> r.value == context.value
    ensures r.Err? ==> r.error == OutsideProvider
  {
    match context
    case None => Err(OutsideProvider)
    case Some(c) => Ok(c)
  }

  /** Under the provider's invariant, a component never sees a user the
      allow-list would reject. */
  lemma ContextUserAdmitted(p: AuthProvider)
    requires p.Valid()
    ensures var c := UseAuth(Some(p.Context()));
      c.Ok? && (c.value.user.Some? ==> Admits(p.allowedEmails, c.value.user.value.email))
  {
  }
}
