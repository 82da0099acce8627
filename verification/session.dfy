/** The session gate (src/contexts/AuthContext.tsx): one shared password, a
    boolean flag mirrored in browser storage under one key, login, logout, the
    re-read of storage when the provider mounts, and the `useAuth` guard.
    Browser storage is modelled as a map from keys to string values. */
module Session {

  import opened Strings

  /** The shared site password, compared exactly (no trimming, case-sensitive). */
  const SitePassword: string := "MoonRiver2025!"

  /** The storage key under which the flag is persisted. */
  const AuthKey: string := "moonriver_auth"

  /** `localStorage`: what `getItem` returns for each present key. */
  type Storage = map<string, string>

  /** The provider's state: the flag, whether the startup read is still
      pending, and the storage it reads and writes. */
  datatype Provider = Provider(isAuthenticated: bool, isLoading: bool, storage: Storage)

  /** What `useAuth` hands to consumers inside a provider. */
  datatype Context = Context(isAuthenticated: bool)

  datatype Result<T> = Ok(value: T) | Err(message: string)

  /** The stored value is exactly the string "true". */
  predicate StoredFlag(storage: Storage) {
    AuthKey in storage && storage[AuthKey] == "true"
  }

  /** A freshly mounted provider: not authenticated and still loading. */
  function Mount(storage: Storage): (p: Provider)
    ensures p.isLoading && !p.isAuthenticated && p.storage == storage
  {
    Provider(false, true, storage)
  }

  /** The mount effect: the flag is raised only when storage holds exactly
      "true" under the key; loading ends either way; storage is only read. */
  function Startup(p: Provider): (q: Provider)
    ensures !q.isLoading
    ensures q.storage == p.storage
    ensures q.isAuthenticated <==> p.isAuthenticated || StoredFlag(p.storage)
  {
    Provider(p.isAuthenticated || StoredFlag(p.storage), false, p.storage)
  }

  /** The provider as a page sees it after a (re)load of the site. */
  function Restart(storage: Storage): (p: Provider)
    ensures !p.isLoading && p.storage == storage
    ensures p.isAuthenticated <==> StoredFlag(storage)
  {
    Startup(Mount(storage))
  }

  /** What the provider renders: nothing while loading, otherwise the context
      its children can read. */
  function Rendered(p: Provider): (c: Option<Context>)
    ensures c.None? <==> p.isLoading
    ensures c.Some? ==> c.value.isAuthenticated == p.isAuthenticated
  {
    if p.isLoading then None else Some(Context(p.isAuthenticated))
  }

  /** `login(password)`: on the exact password the flag and the stored value
      are set and the call answers true; otherwise nothing changes and it
      answers false. */
  function Login(p: Provider, password: string): (r: (Provider, bool))
    ensures r.1 <==> password == SitePassword
    ensures r.1 ==> r.0.isAuthenticated && StoredFlag(r.0.storage)
    ensures r.1 ==> forall k :: k != AuthKey ==> (k in r.0.storage <==> k in p.storage)
    ensures r.1 ==> forall k :: k != AuthKey && k in p.storage ==> r.0.storage[k] == p.storage[k]
    ensures r.1 ==> r.0.isLoading == p.isLoading
    ensures !r.1 ==> r.0 == p
  {
    if password == SitePassword then
      (Provider(true, p.isLoading, p.storage[AuthKey := "true"]), true)
    else
      (p, false)
  }

  /** `logout()`: the key is removed and the flag lowered; nothing else in
      storage changes. */
  function Logout(p: Provider): (q: Provider)
    ensures !q.isAuthenticated && !StoredFlag(q.storage) && AuthKey !in q.storage
    ensures forall k :: k != AuthKey ==> (k in q.storage <==> k in p.storage)
    ensures forall k :: k != AuthKey && k in p.storage ==> q.storage[k] == p.storage[k]
    ensures q.isLoading == p.isLoading
  {
    Provider(false, p.isLoading, p.storage - {AuthKey})
  }

  /** `useAuth()`: outside a provider it fails with an error, never a default. */
  function UseAuth(provided: Option<Context>): (r: Result<Context>)
    ensures r.Err? <==> provided.None?
    ensures r.Ok? ==> r.value == provided.value
    ensures r.Err? ==> r.message == "useAuth must be used within an AuthProvider"
  {
    match provided
    case Some(c) => Ok(c)
    case None => Err("useAuth must be used within an AuthProvider")
  }

  // ---- Properties ------------------------------------------------------------

  /** Logging out twice is logging out once. */
  lemma LogoutIdempotent(p: Provider)
    ensures Logout(Logout(p)) == Logout(p)
  {
    assert Logout(p).storage - {AuthKey} == Logout(p).storage;
  }

  /** Persistence: a reload after a successful login comes back authenticated. */
  lemma LoginSurvivesReload(p: Provider)
    ensures Restart(Login(p, SitePassword).0.storage).isAuthenticated
  {
  }

  /** Persistence: a reload after a logout comes back unauthenticated,
      whatever the storage held before. */
  lemma LogoutSurvivesReload(p: Provider)
    ensures !Restart(Logout(p).storage).isAuthenticated
  {
  }

  /** Any stored value other than exactly "true" reads back as logged out. */
  lemma OnlyExactTrueAuthenticates(storage: Storage, v: string)
    requires v != "true"
    ensures !Restart(storage[AuthKey := v]).isAuthenticated
  {
  }

  /** The comparison is case-sensitive and does not trim. */
  lemma PasswordIsExact(p: Provider)
    ensures !Login(p, "moonriver2025!").1
    ensures !Login(p, "MoonRiver2025! ").1
    ensures !Login(p, " MoonRiver2025!").1
    ensures Login(p, "MoonRiver2025!").1
  {
    assert "moonriver2025!"[0] != SitePassword[0];
    assert |"MoonRiver2025! "| != |SitePassword|;
    assert |" MoonRiver2025!"| != |SitePassword|;
  }

  /** The provider after a run of login attempts, in order. */
  function Attempts(p: Provider, passwords: seq<string>): (q: Provider)
    ensures q.isLoading == p.isLoading
    decreases |passwords|
  {
    if |passwords| == 0 then p
    else Attempts(Login(p, passwords[0]).0, passwords[1..])
  }

  /** Failed attempts change nothing at all. */
  lemma {:induction false} FailedAttemptsChangeNothing(p: Provider, passwords: seq<string>)
    requires forall i :: 0 <= i < |passwords| ==> passwords[i] != SitePassword
    ensures Attempts(p, passwords) == p
    decreases |passwords|
  {
    if |passwords| > 0 {
      FailedAttemptsChangeNothing(p, passwords[1..]);
    }
  }

  /** No lockout: after any number of failed attempts the correct password
      still logs in. */
  lemma NoLockout(p: Provider, passwords: seq<string>)
    requires forall i :: 0 <= i < |passwords| ==> passwords[i] != SitePassword
    ensures Login(Attempts(p, passwords), SitePassword).1
    ensures Login(Attempts(p, passwords), SitePassword).0.isAuthenticated
  {
    FailedAttemptsChangeNothing(p, passwords);
  }

  /** Inside a provider that has finished loading, `useAuth` succeeds and
      reports the provider's flag. */
  lemma UseAuthInsideProvider(storage: Storage)
    ensures UseAuth(Rendered(Restart(storage))) == Ok(Context(StoredFlag(storage)))
  {
  }

  /** While loading the provider renders nothing, so no consumer runs. */
  lemma NothingRenderedWhileLoading(storage: Storage)
    ensures Rendered(Mount(storage)).None?
  {
  }
}
