/**
 * Values shared by the authorization engine of mod_authz: the tri-state verdict of a
 * provider, the providers and their registry, the method mask of a binding, and the
 * record the evaluator keeps of each provider call.
 */
module AuthzTypes {

  datatype Option<+T> = None | Some(value: T)

  /** authz_status: what one provider's check answers. */
  datatype Verdict = Denied | Granted | GeneralError

  /** The parts of a request_rec a provider's check looks at. */
  datatype RequestInfo = RequestInfo(user: Option<string>, uri: string, methodNumber: nat)

  /**
   * check_authorization(r, method_mask, requirement). The implementations live in other
   * modules; here a check is any total function of the request, the mask and the
   * requirement string.
   */
  type CheckFn = (RequestInfo, bv64, string) -> Verdict

  /** authz_provider: its check_authorization pointer may be NULL (None). */
  datatype Provider = Provider(checkAuthorization: Option<CheckFn>)
  {
    predicate CanCheck() { checkAuthorization.Some? }
  }

  /**
   * The providers registered under AUTHZ_PROVIDER_GROUP with version "0", by name: what
   * ap_lookup_provider consults.
   */
  type Registry = map<string, Provider>

  function LookupProvider(registry: Registry, name: string): (p: Option<Provider>)
    ensures p.Some? <==> name in registry
    ensures p.Some? ==> p.value == registry[name]
  {
    if name in registry then Some(registry[name]) else None
  }

  /**
   * AUTHZ_DEFAULT_PROVIDER and AUTHZ_PROVIDER_NAME_NOTE come from mod_auth.h, which is
   * not part of this model; their text here stands for the macros' values and no
   * property depends on how they are spelled.
   */
  const AuthzDefaultProvider: string := "AUTHZ_DEFAULT_PROVIDER"
  const AuthzProviderNameNote: string := "AUTHZ_PROVIDER_NAME_NOTE"

  /** AP_METHOD_BIT: a 64-bit one, shifted left by a method number to select that method. */
  const MethodBit: bv64 := 1

  /** Whether a method mask selects the method numbered methodNumber (the shift is defined below 64). */
  predicate MaskHas(mask: bv64, methodNumber: nat)
    requires methodNumber < 64
  {
    mask & (MethodBit << methodNumber) != 0
  }

  /** One Require binding: authz_provider_list without its next pointer. */
  datatype Binding = Binding(providerName: string, requirement: string, methodMask: bv64, provider: Provider)

  /** require_line: an entry of the ap_requires array. */
  datatype RequireLine = RequireLine(methodMask: bv64, requirement: string)

  /**
   * One provider call as the evaluator makes it: the provider-name note in force during
   * the call, the mask and requirement passed, and the verdict returned.
   */
  datatype Call = Call(note: string, methodMask: bv64, requirement: string, verdict: Verdict)

  /** The calls made for one request, in order, and the final verdict. */
  datatype Evaluation = Evaluation(calls: seq<Call>, verdict: Verdict)

  // Status codes from httpd.h.
  const StatusOk: int := 0
  const HttpUnauthorized: int := 401
  const HttpInternalServerError: int := 500
}
