/**
 * The per-directory configuration of mod_authz: the singly linked list of Require
 * bindings that add_authz_provider extends at its tail, the ap_requires array, the
 * applicability scan of authz_some_auth_required, and the (unregistered) merge of a
 * parent scope's configuration with a child's.
 */
module AuthzConfig {
  import opened AuthzTypes
  import opened AuthzEval

  /** authz_provider_list: one Require binding and the link to the next. */
  class ProviderNode {
    const providerName: string
    const requirement: string
    const methodMask: bv64
    const provider: Provider
    var next: ProviderNode?

    constructor (providerName: string, requirement: string, methodMask: bv64, provider: Provider)
      ensures this.providerName == providerName && this.requirement == requirement
      ensures this.methodMask == methodMask && this.provider == provider
      ensures next == null
    {
      this.providerName := providerName;
      this.requirement := requirement;
      this.methodMask := methodMask;
      this.provider := provider;
      next := null;
    }

    function AsBinding(): Binding
    {
      Binding(providerName, requirement, methodMask, provider)
    }
  }

  /** The message add_authz_provider returns for a name the registry does not know. */
  function UnknownProviderMessage(name: string): string
  {
    "Unknown Authz provider: " + name
  }

  /** The message add_authz_provider returns for a provider without a check. */
  function UnsupportedProviderMessage(name: string): string
  {
    "The '" + name + "' Authz provider is not supported by any of the loaded authorization modules "
  }

  /**
   * The outcome of a Require directive naming `name`: no error exactly when the registry
   * knows the name and its provider has a check.
   */
  function BindError(registry: Registry, name: string): (err: Option<string>)
    ensures err.None? <==> name in registry && registry[name].CanCheck()
    ensures name !in registry ==> err == Some(UnknownProviderMessage(name))
  {
    match LookupProvider(registry, name)
    case None => Some(UnknownProviderMessage(name))
    case Some(p) => if !p.CanCheck() then Some(UnsupportedProviderMessage(name)) else None
  }

  /** The parts of a configuration the merge looks at, as values. */
  datatype ConfigView = ConfigView(apRequires: Option<seq<RequireLine>>, providers: seq<Binding>)

  /** A configuration as create_authz_dir_config leaves it: zero-filled. */
  const FreshView: ConfigView := ConfigView(None, [])

  /** authz_dir_conf. */
  class DirConfig {
    var apRequires: Option<seq<RequireLine>>
    var providers: ProviderNode?
    /** The nodes reachable from providers, in list order. */
    ghost var nodes: seq<ProviderNode>

    /**
     * providers heads the list of nodes, each node links to the next and the last to
     * null, and every node's provider has a check.
     */
    ghost predicate Valid()
      reads this, nodes
    {
      && providers == (if nodes == [] then null else nodes[0])
      && (forall i :: 0 <= i < |nodes| - 1 ==> nodes[i].next == nodes[i + 1])
      && (nodes != [] ==> nodes[|nodes| - 1].next == null)
      && (forall i :: 0 <= i < |nodes| ==> nodes[i].provider.CanCheck())
    }

    /** The bindings in list order. */
    ghost function Bindings(): (bs: seq<Binding>)
      reads this
      ensures |bs| == |nodes|
      ensures forall i :: 0 <= i < |nodes| ==> bs[i] == nodes[i].AsBinding()
    {
      var ns := nodes;
      seq(|ns|, i requires 0 <= i < |ns| => ns[i].AsBinding())
    }

    ghost function View(): ConfigView
      reads this
    {
      ConfigView(apRequires, Bindings())
    }

    /** create_authz_dir_config: no ap_requires and an empty list. */
    constructor ()
      ensures Valid() && View() == FreshView
      ensures providers == null && nodes == []
    {
      apRequires := None;
      providers := null;
      nodes := [];
    }

    /** The memcpy of merge_authz_dir_config: the same fields, so the same list. */
    constructor Duplicate(base: DirConfig)
      ensures apRequires == base.apRequires && providers == base.providers
      ensures nodes == base.nodes
    {
      apRequires := base.apRequires;
      providers := base.providers;
      nodes := base.nodes;
    }

    /** Following next from the k-th node leads to the (k+1)-th, or to null after the last. */
    lemma LinkAt(k: nat)
      requires Valid() && k < |nodes|
      ensures k + 1 < |nodes| ==> nodes[k].next == nodes[k + 1]
      ensures k + 1 == |nodes| ==> nodes[k].next == null
    {
    }

    lemma BindingsResolved()
      requires Valid()
      ensures AllResolved(Bindings())
    {
    }

    /**
     * add_authz_provider for the directive argument arg inside a block limited to the
     * methods in `limited`. Provider name and requirement are both the whole argument.
     * An unknown name, or a provider without a check, is an error and changes nothing;
     * otherwise exactly one binding is appended at the tail.
     */
    method AddAuthzProvider(registry: Registry, limited: bv64, arg: string) returns (err: Option<string>)
      requires Valid()
      modifies this, nodes
      ensures Valid()
      ensures err == BindError(registry, arg)
      ensures apRequires == old(apRequires)
      ensures err.Some? ==> providers == old(providers) && nodes == old(nodes)
      ensures err.Some? ==> Bindings() == old(Bindings())
      ensures err.None? ==> Bindings() == old(Bindings()) + [Binding(arg, arg, limited, registry[arg])]
      ensures err.None? ==> nodes[..|nodes| - 1] == old(nodes) && fresh(nodes[|nodes| - 1])
    {
      var provider := LookupProvider(registry, arg);
      if provider.None? {
        return Some(UnknownProviderMessage(arg));
      }
      if !provider.value.CanCheck() {
        return Some(UnsupportedProviderMessage(arg));
      }
      var newp := new ProviderNode(arg, arg, limited, provider.value);
      Append(newp);
      err := None;
    }

    /**
     * The list update of add_authz_provider: a node that is not yet in the list becomes
     * its head when the list is empty, else the next of its last node.
     */
    method Append(newp: ProviderNode)
      requires Valid() && newp !in nodes && newp.next == null && newp.provider.CanCheck()
      modifies this, nodes
      ensures Valid()
      ensures nodes == old(nodes) + [newp] && apRequires == old(apRequires)
      ensures Bindings() == old(Bindings()) + [newp.AsBinding()]
    {
      if providers == null {
        providers := newp;
        nodes := [newp];
      } else {
        var last := LastNode();
        Link(last, newp);
      }
    }

    /** Setting the next of the last node, last, to newp puts newp at the tail. */
    method Link(last: ProviderNode, newp: ProviderNode)
      requires Valid() && nodes != [] && last == nodes[|nodes| - 1]
      requires newp !in nodes && newp.next == null && newp.provider.CanCheck()
      modifies this, last
      ensures Valid()
      ensures nodes == old(nodes) + [newp] && apRequires == old(apRequires) && providers == old(providers)
    {
      ghost var ns := nodes;
      forall i | 0 <= i < |ns| - 1
        ensures ns[i] != last
      {
        LinkAt(i);
      }
      last.next := newp;
      nodes := ns + [newp];
      assert forall i :: 0 <= i < |ns| - 1 ==> nodes[i].next == nodes[i + 1];
    }

    /** The walk of add_authz_provider along next pointers to the last node of a non-empty list. */
    method LastNode() returns (last: ProviderNode)
      requires Valid() && providers != null
      ensures nodes != [] && last == nodes[|nodes| - 1]
      ensures last.next == null
    {
      last := providers;
      ghost var k := 0;
      LinkAt(0);
      while last.next != null
        invariant 0 <= k < |nodes| && last == nodes[k]
        invariant last.next == (if k + 1 < |nodes| then nodes[k + 1] else null)
        decreases |nodes| - k
      {
        last := last.next;
        k := k + 1;
        LinkAt(k);
      }
    }

    /** authz_ap_requires: the scope's ap_requires array itself (not a copy), or None. */
    function AuthzApRequires(): (r: Option<seq<RequireLine>>)
      reads this
      ensures r == View().apRequires
    {
      apRequires
    }

    /**
     * authz_some_auth_required for the method numbered methodNumber: 1 when some
     * binding's mask selects that method, else 0; an empty list gives 0.
     */
    method AuthzSomeAuthRequired(methodNumber: nat) returns (reqAuthz: int)
      requires Valid() && methodNumber < 64
      ensures reqAuthz == (if RequiresAuth(Bindings(), methodNumber) then 1 else 0)
    {
      reqAuthz := 0;
      var current := providers;
      ghost var k := 0;
      while current != null
        invariant 0 <= k <= |nodes|
        invariant current == (if k < |nodes| then nodes[k] else null)
        invariant forall i :: 0 <= i < k ==> !MaskHas(nodes[i].methodMask, methodNumber)
        invariant reqAuthz == 0
        decreases |nodes| - k
      {
        if MaskHas(current.methodMask, methodNumber) {
          reqAuthz := 1;
          assert Bindings()[k] == current.AsBinding();
          break;
        }
        current := current.next;
        k := k + 1;
      }
    }
  }

  /**
   * merge_authz_dir_config on values: the base configuration, with ap_requires taken from
   * the child when the child has one. The child's own bindings are never consulted.
   */
  function MergeView(base: ConfigView, child: ConfigView): (conf: ConfigView)
    ensures conf.providers == base.providers
    ensures child.apRequires.Some? ==> conf.apRequires == child.apRequires
    ensures child.apRequires.None? ==> conf == base
  {
    ConfigView(if child.apRequires.Some? then child.apRequires else base.apRequires, base.providers)
  }

  /**
   * merge_authz_dir_config: a new configuration that copies the base, sharing its list,
   * and takes the child's ap_requires when there is one.
   */
  method MergeAuthzDirConfig(base: DirConfig, child: DirConfig) returns (conf: DirConfig)
    ensures fresh(conf)
    ensures conf.providers == base.providers && conf.nodes == base.nodes
    ensures conf.View() == MergeView(base.View(), child.View())
    ensures base.Valid() ==> conf.Valid()
  {
    conf := new DirConfig.Duplicate(base);
    if child.apRequires.Some? {
      conf.apRequires := child.apRequires;
    }
  }

  /** Merging down three nested scopes gives the same result in either grouping. */
  lemma MergeAssociative(a: ConfigView, b: ConfigView, c: ConfigView)
    ensures MergeView(MergeView(a, b), c) == MergeView(a, MergeView(b, c))
  {
  }

  /** Merging a configuration with itself changes nothing. */
  lemma MergeIdempotent(c: ConfigView)
    ensures MergeView(c, c) == c
  {
  }
}
