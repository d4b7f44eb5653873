/**
 * authorize_user: the auth_checker hook that walks the scope's list of bindings for one
 * request, calling each provider under a provider-name note, and turns the final verdict
 * into a status code.
 */
module AuthzRequest {
  import opened AuthzTypes
  import opened AuthzEval
  import opened AuthzConfig

  /**
   * The request_rec as authorize_user sees it: what providers are shown, the notes
   * table, and whether ap_note_basic_auth_failure has asked for credentials.
   */
  class RequestRec {
    const info: RequestInfo
    var notes: map<string, string>
    var basicAuthChallenge: bool

    constructor (info: RequestInfo, notes: map<string, string>)
      ensures this.info == info && this.notes == notes && !basicAuthChallenge
    {
      this.info := info;
      this.notes := notes;
      basicAuthChallenge := false;
    }
  }

  /** Removing the provider-name note a second time changes nothing. */
  lemma RemoveNoteTwice(notes: map<string, string>)
    ensures (notes - {AuthzProviderNameNote}) - {AuthzProviderNameNote} == notes - {AuthzProviderNameNote}
  {
  }

  /**
   * One provider call of authorize_user: the provider-name note is set to `name`, the
   * provider's check runs with the given mask and requirement, and the note is removed.
   */
  method CallProvider(r: RequestRec, name: string, provider: Provider, mask: bv64, requirement: string)
    returns (v: Verdict, call: Call)
    requires provider.CanCheck()
    modifies r
    ensures v == provider.checkAuthorization.value(r.info, mask, requirement)
    ensures call == Call(name, mask, requirement, v)
    ensures r.notes == old(r.notes) - {AuthzProviderNameNote}
    ensures r.basicAuthChallenge == old(r.basicAuthChallenge)
  {
    r.notes := r.notes[AuthzProviderNameNote := name];
    v := provider.checkAuthorization.value(r.info, mask, requirement);
    call := Call(r.notes[AuthzProviderNameNote], mask, requirement, v);
    r.notes := r.notes - {AuthzProviderNameNote};
  }

  /**
   * The do-while of authorize_user for request r in the scope configured by conf.
   * Providers are called in list order until one answers other than Denied; with no
   * bindings the default provider is called once with defaultMask and
   * defaultRequirement, or not at all when it is missing or cannot check. `calls`
   * records each call as it was made, with the provider-name note in force during it;
   * after any call the note is gone again.
   */
  method EvaluateProviders(r: RequestRec, conf: DirConfig, registry: Registry,
                           defaultMask: bv64, defaultRequirement: string)
    returns (authResult: Verdict, calls: seq<Call>)
    requires conf.Valid()
    modifies r
    ensures Evaluation(calls, authResult) == Authorize(conf.Bindings(), registry, r.info, defaultMask, defaultRequirement)
    ensures r.notes == if calls == [] then old(r.notes) else old(r.notes) - {AuthzProviderNameNote}
    ensures r.basicAuthChallenge == old(r.basicAuthChallenge)
  {
    conf.BindingsResolved();
    ghost var bs := conf.Bindings();
    authResult := Denied;
    var current := conf.providers;
    ghost var k := 0;
    calls := [];
    while true
      invariant 0 <= k <= |bs|
      invariant current == (if k < |conf.nodes| then conf.nodes[k] else null)
      invariant k > 0 ==> current != null
      invariant calls == Prefix(bs, r.info, k) && DeniedBefore(bs, r.info, k)
      invariant r.notes == if k == 0 then old(r.notes) else old(r.notes) - {AuthzProviderNameNote}
      invariant r.basicAuthChallenge == old(r.basicAuthChallenge)
      decreases |bs| - k
    {
      var call: Call;
      if current == null {
        var found := LookupProvider(registry, AuthzDefaultProvider);
        if found.None? || !found.value.CanCheck() {
          authResult := GeneralError;
          NoDefaultIsServerError(registry, r.info, defaultMask, defaultRequirement);
          break;
        }
        authResult, call := CallProvider(r, AuthzDefaultProvider, found.value, defaultMask, defaultRequirement);
        DefaultCalledOnce(registry, r.info, defaultMask, defaultRequirement);
      } else {
        authResult, call := CallProvider(r, current.providerName, current.provider,
                                         current.methodMask, current.requirement);
        assert call == Invoke(bs[k], r.info);
        RemoveNoteTwice(old(r.notes));
      }
      calls := calls + [call];

      if authResult != Denied {
        if current != null {
          AuthorizeFromPrefix(bs, registry, r.info, defaultMask, defaultRequirement, k);
        }
        break;
      }
      if conf.providers == null {
        break;
      }
      conf.LinkAt(k);
      ghost var last := k;
      current := current.next;
      k := k + 1;
      if current == null {
        AuthorizeFromPrefix(bs, registry, r.info, defaultMask, defaultRequirement, last);
        break;
      }
    }
  }

  /**
   * authorize_user: the evaluation's final verdict becomes the status, 0 when granted,
   * 401 when denied and 500 on a general error, and a basic-auth challenge is noted
   * exactly when the answer is 401.
   */
  method AuthorizeUser(r: RequestRec, conf: DirConfig, registry: Registry,
                       defaultMask: bv64, defaultRequirement: string)
    returns (status: int, calls: seq<Call>)
    requires conf.Valid()
    modifies r
    ensures var e := Authorize(conf.Bindings(), registry, r.info, defaultMask, defaultRequirement);
            calls == e.calls && status == Decide(e.verdict).status &&
            r.basicAuthChallenge == (old(r.basicAuthChallenge) || Decide(e.verdict).challenge)
    ensures r.notes == if calls == [] then old(r.notes) else old(r.notes) - {AuthzProviderNameNote}
  {
    var authResult;
    authResult, calls := EvaluateProviders(r, conf, registry, defaultMask, defaultRequirement);
    var d := Decide(authResult);
    if d.challenge {
      r.basicAuthChallenge := true;
    }
    status := d.status;
  }
}
