# mod_authz authorization core, modelled in Dafny

This project models the authorization engine of httpd's `mod_authz`
(`modules/aaa/mod_authz.c`):

- **Building the binding list.** Each `Require` directive runs
  `add_authz_provider`. It resolves a provider by name in the authz provider
  registry and rejects an unknown name or a provider without a check. Otherwise
  it appends one binding at the tail of the scope's singly linked list, by
  walking to the last node and setting its `next`.
- **Evaluating a request.** `authorize_user` calls each binding's provider in
  list order and stops at the first verdict other than `AUTHZ_DENIED`. With no
  bindings it calls the default provider once, or fails with
  `AUTHZ_GENERAL_ERROR` when there is none. A provider-name note is set in
  `r->notes` around each call. The final verdict becomes `OK`, or 401 with a
  basic-auth challenge, or 500.
- **The applicability query** `authz_some_auth_required` and the getter
  `authz_ap_requires`.
- **The per-directory merge** `merge_authz_dir_config`. The module table
  never registers it.

The model is split into four modules:

- `AuthzTypes` (`authz_types.dfy`) holds the values: verdicts, providers, the
  registry, bindings, method masks as `bv64`, and the record of each provider
  call.
- `AuthzEval` (`authz_eval.dfy`) is the pure specification of the evaluator:
  - `Chain` is the short-circuit chain over a list of bindings;
  - `Authorize` adds the default-provider path;
  - `Decide` maps the verdict to a status;
  - `RequiresAuth` is the applicability question;
  - the lemmas relate these.
- `AuthzConfig` (`authz_config.dfy`) holds the imperative configuration:
  - `ProviderNode` objects linked by a mutable `next` field;
  - the `DirConfig` class, whose ghost `nodes` sequence is the list in order and
    whose `Valid()` ties the `next` pointers to it;
  - `AddAuthzProvider` with its tail walk, the applicability scan, the getter
    and the merge.
- `AuthzRequest` (`authz_request.dfy`) holds the request record, whose `notes`
  and challenge flag are mutable, and the `do … while` loop of
  `authorize_user`. The loop is proved to make exactly the calls `Authorize`
  describes, in order.

A provider's `check_authorization` is a total Dafny function of the request,
the method mask and the requirement. It is `None` when the C pointer is NULL.
Every result about the evaluator therefore holds for all providers.

`merge_authz_dir_config` keeps `base->providers` in every case. It takes only
`ap_requires` from the child, and only when the child has one (lines 62-79). A
child's bindings therefore never replace the parent's, and `MergeView` states
this.

## Model

| member | source | states |
|---|---|---|
| `AuthzTypes.LookupProvider` | modules/aaa/mod_authz.c:94-95 | ap_lookup_provider finds a provider exactly when the name is registered, and finds the registered one |
| `AuthzConfig.BindError` | modules/aaa/mod_authz.c:93-112 | a Require argument is accepted exactly when the registry knows the name and its provider has check_authorization; an unknown name gives "Unknown Authz provider: name" |
| `AuthzConfig.DirConfig.constructor` | modules/aaa/mod_authz.c:54-60 | a fresh configuration has no ap_requires and an empty, well-formed list |
| `AuthzConfig.DirConfig.Duplicate` | modules/aaa/mod_authz.c:71-72 | the copy made by memcpy has the base's ap_requires, the same list head and the same nodes |
| `AuthzConfig.DirConfig.AddAuthzProvider` | modules/aaa/mod_authz.c:81-128 | on error the list and ap_requires are unchanged; on success the bindings are the old ones followed by exactly one new binding whose name and requirement are both the argument, whose mask is the enclosing limit and whose provider is the registry's; the list stays well-formed |
| `AuthzConfig.DirConfig.Append` | modules/aaa/mod_authz.c:114-125 | the new node becomes the head of an empty list or the successor of the last node; the node sequence grows by exactly that node and earlier bindings keep their order and contents |
| `AuthzConfig.DirConfig.Link` | modules/aaa/mod_authz.c:124 | setting the last node's next to the new node extends the well-formed list by that node, and the head does not change |
| `AuthzConfig.DirConfig.LastNode` | modules/aaa/mod_authz.c:119-123 | walking next pointers from a non-empty list's head ends at its last node, the only one whose next is null |
| `AuthzConfig.DirConfig.AuthzApRequires` | modules/aaa/mod_authz.c:225-233 | the getter returns the scope's own ap_requires |
| `AuthzConfig.DirConfig.AuthzSomeAuthRequired` | modules/aaa/mod_authz.c:235-256 | the scan returns 1 exactly when some binding's mask has the method's bit, else 0 (also for an empty list); it changes nothing |
| `AuthzConfig.MergeView` | modules/aaa/mod_authz.c:62-79 | the merged bindings are always the base's; the child's ap_requires wins when present; a child without one leaves the base unchanged |
| `AuthzConfig.MergeAuthzDirConfig` | modules/aaa/mod_authz.c:62-79 | the merge returns a new configuration that shares the base's list and whose view is MergeView of the two; a well-formed base gives a well-formed result |
| `AuthzConfig.MergeAssociative` | modules/aaa/mod_authz.c:62-79 | merging three nested scopes gives the same result in either grouping |
| `AuthzConfig.MergeIdempotent` | modules/aaa/mod_authz.c:62-79 | merging a configuration with itself gives it back |
| `AuthzEval.Invoke` | modules/aaa/mod_authz.c:166-174 | a binding's call is made under its provider_name note, passes the binding's own method_mask and requirement, and its verdict is what the provider's check answers for them |
| `AuthzEval.DefaultUsable` | modules/aaa/mod_authz.c:153-156 | the default provider is usable exactly when the lookup finds it and it has check_authorization |
| `AuthzEval.Chain` | modules/aaa/mod_authz.c:145-193 | for a non-empty list, the calls are the bindings' calls in list order, all but the last denied; the final verdict is the last call's; the list is cut short only by a verdict other than Denied |
| `AuthzEval.Authorize` | modules/aaa/mod_authz.c:145-193 | no call is made exactly when there are no bindings and no usable default provider, and then the verdict is GeneralError; otherwise the final verdict is the last call's; at most one call without bindings, at most one per binding with them |
| `AuthzEval.Decide` | modules/aaa/mod_authz.c:195-222 | Granted maps to OK, Denied to 401 and GeneralError to 500, each in both directions; a basic-auth challenge is issued exactly for 401 |
| `AuthzEval.ChainStopsAt` | modules/aaa/mod_authz.c:183-193 | when the first k providers deny and the next does not, or is the last, exactly k+1 providers are called and the next one's verdict is final |
| `AuthzEval.ChainDetermined` | modules/aaa/mod_authz.c:145-193 | any call sequence that follows the bindings in order, has only denials before its last call, and stops at a non-denial or at the end of the list is the chain's |
| `AuthzEval.ChainFromPrefix` | modules/aaa/mod_authz.c:145-193 | the chain's calls are the first k+1 bindings' calls when the first k deny and binding k does not, or is the last |
| `AuthzEval.AuthorizeFromPrefix` | modules/aaa/mod_authz.c:145-193 | the same, stated for the whole decision of a scope with bindings |
| `AuthzEval.PrefixAt` | modules/aaa/mod_authz.c:145-193 | the calls made for the first k bindings are their calls in list order, and the step-by-step "first k deny" is the same as every one of them denying |
| `AuthzEval.DeniedIffAllDeny` | modules/aaa/mod_authz.c:172-193 | the final verdict is Denied exactly when every binding's provider denies |
| `AuthzEval.GrantedIffFirstNonDeniedGrants` | modules/aaa/mod_authz.c:172-193 | the final verdict is Granted exactly when the first provider that does not deny grants |
| `AuthzEval.ErrorStopsChain` | modules/aaa/mod_authz.c:172-222 | a GeneralError after k denials ends evaluation after k+1 calls with 500, whatever the later providers would say |
| `AuthzEval.ChainAppend` | modules/aaa/mod_authz.c:114-193 | appending a binding keeps a decision the earlier bindings already reached; otherwise the new binding is called last and its verdict is final |
| `AuthzEval.NoDefaultIsServerError` | modules/aaa/mod_authz.c:152-160 | with no bindings and no usable default provider, no provider is called and the answer is 500 without a challenge |
| `AuthzEval.DefaultCalledOnce` | modules/aaa/mod_authz.c:152-190 | with no bindings and a usable default provider, exactly one call is made, under the default provider's name, and its verdict is final |
| `AuthzEval.RequiresAuthAppend` | modules/aaa/mod_authz.c:243-253 | after an append, some binding applies to a method exactly when one did before or the new binding does |
| `AuthzEval.GrantFirstCallsOne` | modules/aaa/mod_authz.c:145-222 | bindings granting, denying, denying: one call, made under the first binding's name, and OK |
| `AuthzEval.AllDenyCallsAll` | modules/aaa/mod_authz.c:145-222 | three denials: exactly three calls, in declared order, then 401 with a challenge |
| `AuthzEval.ErrorBeforeGrantCallsTwo` | modules/aaa/mod_authz.c:145-222 | deny, error, grant: two calls, to the first two bindings in order, and 500; the granting provider is never reached |
| `AuthzRequest.CallProvider` | modules/aaa/mod_authz.c:162-176 | the note names the provider during its call, and the call gets the given mask and requirement; afterwards the note is removed and nothing else in the request changes |
| `AuthzRequest.EvaluateProviders` | modules/aaa/mod_authz.c:145-193 | the do-while makes exactly the calls Authorize describes, in order, and ends with its verdict; no provider-name note remains after any call, and the notes are untouched when no call is made |
| `AuthzRequest.AuthorizeUser` | modules/aaa/mod_authz.c:138-223 | the status is Decide of the final verdict of Authorize over the scope's bindings; a basic-auth challenge is noted exactly when the status is 401; the calls and notes are as in EvaluateProviders |

## Left out

- Module and hook registration, optional-function export and the `Require`
  directive table (lines 130-136 and 258-275) are host-server plumbing. The
  module table's directory merger is NULL (line 270), so the server never calls
  `merge_authz_dir_config`. It is modelled as the function the code defines,
  not as something the server uses.
- APR pool allocation and string duplication are not modelled. The objects are
  Dafny heap objects, and strings are values.
- Logging (`ap_log_rerror`) is not modelled. It has no effect on the decision.
- `ap_lookup_provider` is a map from provider name to provider. The provider
  group and the version "0" are fixed and not represented.
- A provider's `check_authorization` sees only the request's user, URI and
  method number, plus the mask and requirement. Providers do not see
  `r->notes`, and their own side effects are not modelled.
- `ap_note_basic_auth_failure` is a boolean flag on the request.
- On the default-provider path, lines 173-174 read the mask and requirement
  through a NULL `current_provider`. That is undefined behaviour and is not
  modelled. `Authorize`, `EvaluateProviders` and `AuthorizeUser` take the
  values passed on that path as the parameters `defaultMask` and
  `defaultRequirement`.
- `AUTHZ_DEFAULT_PROVIDER` and `AUTHZ_PROVIDER_NAME_NOTE` are defined in
  mod_auth.h, which is not part of this model. Their Dafny strings are
  placeholders, and no result depends on their spelling.
- `r->notes` is a `map<string, string>`. The apr table's case-insensitive keys
  and repeated keys are not modelled, and `apr_table_unset` is removal of the
  key.
- AuthzConfig.DirConfig.AuthzSomeAuthRequired: requires a method number below
  64, because the C shift `AP_METHOD_BIT << method_number` is undefined for
  larger counts.
- The frozen configuration is read concurrently by the server, but this file
  has no concurrency logic, and none is modelled.
