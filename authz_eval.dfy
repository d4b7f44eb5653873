/**
 * The decision logic of authorize_user as functions over the list of bindings: the
 * chain of provider calls that stops at the first verdict other than Denied, the
 * default-provider path taken when a scope has no bindings, and the mapping of the final
 * verdict to an HTTP status. Also the applicability question answered by
 * authz_some_auth_required.
 */
module AuthzEval {
  import opened AuthzTypes

  /** A binding whose provider has a check: the only kind add_authz_provider stores. */
  predicate Resolved(b: Binding)
  {
    b.provider.CanCheck()
  }

  predicate AllResolved(bs: seq<Binding>)
  {
    forall i :: 0 <= i < |bs| ==> Resolved(bs[i])
  }

  /** The call made for binding b: the note names b's provider; the check gets b's mask and requirement. */
  function Invoke(b: Binding, req: RequestInfo): (c: Call)
    requires Resolved(b)
    ensures c.note == b.providerName
    ensures c.methodMask == b.methodMask && c.requirement == b.requirement
    ensures c.verdict == b.provider.checkAuthorization.value(req, b.methodMask, b.requirement)
  {
    Call(b.providerName, b.methodMask, b.requirement,
         b.provider.checkAuthorization.value(req, b.methodMask, b.requirement))
  }

  /**
   * Evaluation of a non-empty list of bindings. The calls are the bindings' calls in list
   * order; every call but the last was denied; the final verdict is the last call's; and
   * the list is cut short only by a verdict other than Denied.
   */
  function Chain(bs: seq<Binding>, req: RequestInfo): (e: Evaluation)
    requires |bs| > 0 && AllResolved(bs)
    ensures 0 < |e.calls| <= |bs|
    ensures forall i :: 0 <= i < |e.calls| ==> e.calls[i] == Invoke(bs[i], req)
    ensures forall i :: 0 <= i < |e.calls| - 1 ==> e.calls[i].verdict == Denied
    ensures e.verdict == e.calls[|e.calls| - 1].verdict
    ensures |e.calls| < |bs| ==> e.verdict != Denied
    decreases |bs|
  {
    var c := Invoke(bs[0], req);
    if c.verdict != Denied || |bs| == 1 then
      Evaluation([c], c.verdict)
    else
      var rest := Chain(bs[1..], req);
      Evaluation([c] + rest.calls, rest.verdict)
  }

  /** The default provider can be used: it is registered and has a check. */
  function DefaultUsable(registry: Registry): (usable: bool)
    ensures usable <==> match LookupProvider(registry, AuthzDefaultProvider)
                        case None => false
                        case Some(p) => p.CanCheck()
  {
    AuthzDefaultProvider in registry && registry[AuthzDefaultProvider].CanCheck()
  }

  /**
   * What authorize_user decides for a scope with bindings bs. With no bindings the
   * default provider is looked up: missing or unable to check, the verdict is
   * GeneralError and nothing is called; otherwise it is called once, with the mask and
   * requirement given as parameters (the source reads them through a null pointer).
   */
  function Authorize(bs: seq<Binding>, registry: Registry, req: RequestInfo,
                     defaultMask: bv64, defaultRequirement: string): (e: Evaluation)
    requires AllResolved(bs)
    ensures e.calls == [] <==> bs == [] && !DefaultUsable(registry)
    ensures e.calls == [] ==> e.verdict == GeneralError
    ensures e.calls != [] ==> e.verdict == e.calls[|e.calls| - 1].verdict
    ensures bs == [] ==> |e.calls| <= 1
    ensures bs != [] ==> |e.calls| <= |bs|
  {
    if bs == [] then
      match LookupProvider(registry, AuthzDefaultProvider)
      case None => Evaluation([], GeneralError)
      case Some(p) =>
        if !p.CanCheck() then
          Evaluation([], GeneralError)
        else
          var v := p.checkAuthorization.value(req, defaultMask, defaultRequirement);
          Evaluation([Call(AuthzDefaultProvider, defaultMask, defaultRequirement, v)], v)
    else
      Chain(bs, req)
  }

  /** The response authorize_user gives for a verdict, and whether it asks for basic-auth credentials. */
  datatype Decision = Decision(status: int, challenge: bool)

  /**
   * Granted lets the request continue; Denied answers 401 and issues a basic-auth
   * challenge; any other verdict answers 500 without one.
   */
  function Decide(v: Verdict): (d: Decision)
    ensures d.status == StatusOk <==> v == Granted
    ensures d.status == HttpUnauthorized <==> v == Denied
    ensures d.status == HttpInternalServerError <==> v == GeneralError
    ensures d.challenge <==> d.status == HttpUnauthorized
  {
    if v != Granted then
      var returnCode := match v
        case Denied => HttpUnauthorized
        case _ => HttpInternalServerError;
      Decision(returnCode, returnCode == HttpUnauthorized)
    else
      Decision(StatusOk, false)
  }

  /** Whether some binding applies to the method numbered methodNumber. */
  predicate RequiresAuth(bs: seq<Binding>, methodNumber: nat)
    requires methodNumber < 64
  {
    exists i :: 0 <= i < |bs| && MaskHas(bs[i].methodMask, methodNumber)
  }

  /** The chain stops exactly at the first binding whose call is not denied, or at the last binding. */
  lemma {:induction false} ChainStopsAt(bs: seq<Binding>, req: RequestInfo, k: nat)
    requires AllResolved(bs) && k < |bs|
    requires forall i :: 0 <= i < k ==> Invoke(bs[i], req).verdict == Denied
    requires Invoke(bs[k], req).verdict != Denied || k == |bs| - 1
    ensures |Chain(bs, req).calls| == k + 1
    ensures Chain(bs, req).verdict == Invoke(bs[k], req).verdict
  {
    var e := Chain(bs, req);
    var n := |e.calls|;
    assert e.calls[n - 1] == Invoke(bs[n - 1], req);
  }

  /**
   * The description in Chain's contract determines it: any list of calls that follows
   * the bindings in order, has only denials before its last call, and stops either at a
   * verdict other than Denied or at the end of the list, is Chain's.
   */
  lemma {:induction false} ChainDetermined(bs: seq<Binding>, req: RequestInfo, calls: seq<Call>)
    requires AllResolved(bs) && 0 < |calls| <= |bs|
    requires forall i :: 0 <= i < |calls| ==> calls[i] == Invoke(bs[i], req)
    requires forall i :: 0 <= i < |calls| - 1 ==> calls[i].verdict == Denied
    requires calls[|calls| - 1].verdict != Denied || |calls| == |bs|
    ensures Chain(bs, req) == Evaluation(calls, calls[|calls| - 1].verdict)
  {
    var k := |calls| - 1;
    ChainStopsAt(bs, req, k);
    var e := Chain(bs, req);
    assert e.calls == calls by {
      assert forall i :: 0 <= i < |calls| ==> e.calls[i] == calls[i];
    }
  }

  /** The calls for the first k bindings, in list order. */
  function Prefix(bs: seq<Binding>, req: RequestInfo, k: nat): (cs: seq<Call>)
    requires k <= |bs| && AllResolved(bs)
    ensures |cs| == k
  {
    if k == 0 then [] else Prefix(bs, req, k - 1) + [Invoke(bs[k - 1], req)]
  }

  /**
   * The first k bindings' providers all deny, built up one binding at a time as the
   * evaluator's loop goes; PrefixAt shows it is the same as the quantified statement.
   */
  predicate DeniedBefore(bs: seq<Binding>, req: RequestInfo, k: nat)
    requires k <= |bs| && AllResolved(bs)
  {
    k == 0 || (DeniedBefore(bs, req, k - 1) && Invoke(bs[k - 1], req).verdict == Denied)
  }

  lemma {:induction false} PrefixAt(bs: seq<Binding>, req: RequestInfo, k: nat)
    requires k <= |bs| && AllResolved(bs)
    ensures forall i :: 0 <= i < k ==> Prefix(bs, req, k)[i] == Invoke(bs[i], req)
    ensures DeniedBefore(bs, req, k) <==> forall i :: 0 <= i < k ==> Invoke(bs[i], req).verdict == Denied
  {
    if k > 0 {
      PrefixAt(bs, req, k - 1);
    }
  }

  /**
   * The chain's calls are the first k + 1 bindings' calls when the first k deny and the
   * next one does not, or is the last.
   */
  lemma {:induction false} ChainFromPrefix(bs: seq<Binding>, req: RequestInfo, k: nat)
    requires AllResolved(bs) && k < |bs| && DeniedBefore(bs, req, k)
    requires Invoke(bs[k], req).verdict != Denied || k == |bs| - 1
    ensures Chain(bs, req) == Evaluation(Prefix(bs, req, k + 1), Invoke(bs[k], req).verdict)
  {
    PrefixAt(bs, req, k + 1);
    PrefixAt(bs, req, k);
    ChainDetermined(bs, req, Prefix(bs, req, k + 1));
  }

  /** ChainFromPrefix, stated of what authorize_user decides for a non-empty list. */
  lemma AuthorizeFromPrefix(bs: seq<Binding>, registry: Registry, req: RequestInfo,
                            defaultMask: bv64, defaultRequirement: string, k: nat)
    requires AllResolved(bs) && k < |bs| && DeniedBefore(bs, req, k)
    requires Invoke(bs[k], req).verdict != Denied || k == |bs| - 1
    ensures Authorize(bs, registry, req, defaultMask, defaultRequirement) ==
            Evaluation(Prefix(bs, req, k + 1), Invoke(bs[k], req).verdict)
  {
    ChainFromPrefix(bs, req, k);
  }

  /** Denied is the final verdict exactly when every binding's provider denies. */
  lemma {:induction false} DeniedIffAllDeny(bs: seq<Binding>, req: RequestInfo)
    requires |bs| > 0 && AllResolved(bs)
    ensures Chain(bs, req).verdict == Denied <==>
            forall i :: 0 <= i < |bs| ==> Invoke(bs[i], req).verdict == Denied
  {
    var e := Chain(bs, req);
    if e.verdict == Denied {
      forall i | 0 <= i < |bs| ensures Invoke(bs[i], req).verdict == Denied {
        assert e.calls[i] == Invoke(bs[i], req);
      }
    }
    if forall i :: 0 <= i < |bs| ==> Invoke(bs[i], req).verdict == Denied {
      ChainStopsAt(bs, req, |bs| - 1);
    }
  }

  /** Granted is the final verdict exactly when the first binding that does not deny grants. */
  lemma {:induction false} GrantedIffFirstNonDeniedGrants(bs: seq<Binding>, req: RequestInfo)
    requires |bs| > 0 && AllResolved(bs)
    ensures Chain(bs, req).verdict == Granted <==>
            exists k :: 0 <= k < |bs| && Invoke(bs[k], req).verdict == Granted &&
                        forall i :: 0 <= i < k ==> Invoke(bs[i], req).verdict == Denied
  {
    var e := Chain(bs, req);
    if e.verdict == Granted {
      var k := |e.calls| - 1;
      assert e.calls[k] == Invoke(bs[k], req);
      forall i | 0 <= i < k ensures Invoke(bs[i], req).verdict == Denied {
        assert e.calls[i] == Invoke(bs[i], req);
      }
    }
    if exists k :: 0 <= k < |bs| && Invoke(bs[k], req).verdict == Granted &&
                   forall i :: 0 <= i < k ==> Invoke(bs[i], req).verdict == Denied {
      var k :| 0 <= k < |bs| && Invoke(bs[k], req).verdict == Granted &&
               forall i :: 0 <= i < k ==> Invoke(bs[i], req).verdict == Denied;
      ChainStopsAt(bs, req, k);
    }
  }

  /**
   * A GeneralError from a provider ends the evaluation with that error: the bindings
   * after it are never called, even one that would grant.
   */
  lemma {:induction false} ErrorStopsChain(bs: seq<Binding>, req: RequestInfo, k: nat)
    requires AllResolved(bs) && k < |bs|
    requires forall i :: 0 <= i < k ==> Invoke(bs[i], req).verdict == Denied
    requires Invoke(bs[k], req).verdict == GeneralError
    ensures Chain(bs, req).verdict == GeneralError
    ensures |Chain(bs, req).calls| == k + 1
    ensures Decide(Chain(bs, req).verdict).status == HttpInternalServerError
  {
    ChainStopsAt(bs, req, k);
  }

  /**
   * Appending a binding (what add_authz_provider does) leaves a decision already reached
   * by the earlier bindings alone; the new binding is called only when all of them deny,
   * and then its verdict is final.
   */
  lemma {:induction false} ChainAppend(bs: seq<Binding>, b: Binding, req: RequestInfo)
    requires |bs| > 0 && AllResolved(bs) && Resolved(b)
    ensures AllResolved(bs + [b])
    ensures var before := Chain(bs, req);
            Chain(bs + [b], req) ==
              if before.verdict != Denied then before
              else Evaluation(before.calls + [Invoke(b, req)], Invoke(b, req).verdict)
  {
    var ext := bs + [b];
    assert forall i :: 0 <= i < |bs| ==> ext[i] == bs[i];
    var before := Chain(bs, req);
    var n := |before.calls|;
    forall i | 0 <= i < n - 1 ensures Invoke(ext[i], req).verdict == Denied {
      assert before.calls[i] == Invoke(bs[i], req);
    }
    assert before.calls[n - 1] == Invoke(bs[n - 1], req);
    var after := Chain(ext, req);
    if before.verdict != Denied {
      ChainStopsAt(ext, req, n - 1);
      assert after.calls == before.calls by {
        forall i | 0 <= i < n ensures after.calls[i] == before.calls[i] {
          assert before.calls[i] == Invoke(bs[i], req);
        }
      }
    } else {
      assert n == |bs|;
      ChainStopsAt(ext, req, n);
      var expected := before.calls + [Invoke(b, req)];
      assert after.calls == expected by {
        forall i | 0 <= i < n + 1 ensures after.calls[i] == expected[i] {
          if i < n {
            assert before.calls[i] == Invoke(bs[i], req);
          }
        }
      }
    }
  }

  /** With no bindings and no usable default provider, nothing is called and the answer is 500. */
  lemma NoDefaultIsServerError(registry: Registry, req: RequestInfo, mask: bv64, requirement: string)
    requires !DefaultUsable(registry)
    ensures var e := Authorize([], registry, req, mask, requirement);
            e.calls == [] && Decide(e.verdict) == Decision(HttpInternalServerError, false)
  {
  }

  /**
   * With no bindings and a usable default provider, exactly one call is made, under the
   * default provider's name, and its verdict decides.
   */
  lemma DefaultCalledOnce(registry: Registry, req: RequestInfo, mask: bv64, requirement: string)
    requires DefaultUsable(registry)
    ensures var e := Authorize([], registry, req, mask, requirement);
            var v := registry[AuthzDefaultProvider].checkAuthorization.value(req, mask, requirement);
            e == Evaluation([Call(AuthzDefaultProvider, mask, requirement, v)], v)
  {
  }

  /** Some binding applies to a method after an append exactly when one did before or the new one does. */
  lemma {:induction false} RequiresAuthAppend(bs: seq<Binding>, b: Binding, methodNumber: nat)
    requires methodNumber < 64
    ensures RequiresAuth(bs + [b], methodNumber) <==>
            RequiresAuth(bs, methodNumber) || MaskHas(b.methodMask, methodNumber)
  {
    var ext := bs + [b];
    if RequiresAuth(bs, methodNumber) {
      var i :| 0 <= i < |bs| && MaskHas(bs[i].methodMask, methodNumber);
      assert ext[i] == bs[i];
    }
    if MaskHas(b.methodMask, methodNumber) {
      assert ext[|bs|] == b;
    }
    if RequiresAuth(ext, methodNumber) {
      var i :| 0 <= i < |ext| && MaskHas(ext[i].methodMask, methodNumber);
      if i < |bs| {
        assert ext[i] == bs[i];
      }
    }
  }

  /** A provider whose check always answers v, for the worked examples below. */
  function Fixed(name: string, v: Verdict): Binding
  {
    Binding(name, name, 0xFFFF_FFFF_FFFF_FFFF,
            Provider(Some((r: RequestInfo, m: bv64, s: string) => v)))
  }

  /** A first binding that grants: one call, the request continues. */
  lemma GrantFirstCallsOne(registry: Registry, req: RequestInfo)
    ensures var e := Authorize([Fixed("a", Granted), Fixed("b", Denied), Fixed("c", Denied)],
                               registry, req, 0, "");
            |e.calls| == 1 && e.calls[0].note == "a" && Decide(e.verdict).status == StatusOk
  {
    ChainStopsAt([Fixed("a", Granted), Fixed("b", Denied), Fixed("c", Denied)], req, 0);
  }

  /** Three denials: all three called in order, 401 with a challenge. */
  lemma AllDenyCallsAll(registry: Registry, req: RequestInfo)
    ensures var e := Authorize([Fixed("a", Denied), Fixed("b", Denied), Fixed("c", Denied)],
                               registry, req, 0, "");
            |e.calls| == 3 && [e.calls[0].note, e.calls[1].note, e.calls[2].note] == ["a", "b", "c"] &&
            Decide(e.verdict) == Decision(HttpUnauthorized, true)
  {
    ChainStopsAt([Fixed("a", Denied), Fixed("b", Denied), Fixed("c", Denied)], req, 2);
  }

  /** An error before a grant: two calls, 500, and the granting third provider is never reached. */
  lemma ErrorBeforeGrantCallsTwo(registry: Registry, req: RequestInfo)
    ensures var e := Authorize([Fixed("a", Denied), Fixed("b", GeneralError), Fixed("c", Granted)],
                               registry, req, 0, "");
            |e.calls| == 2 && [e.calls[0].note, e.calls[1].note] == ["a", "b"] &&
            Decide(e.verdict).status == HttpInternalServerError
  {
    ChainStopsAt([Fixed("a", Denied), Fixed("b", GeneralError), Fixed("c", Granted)], req, 1);
  }
}
