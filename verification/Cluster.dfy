/** Target clusters: objects, their identities, discovery, and the API calls
    the instance controller makes against them. */
module Cluster {

  datatype Option<+T> = None | Some(value: T)

  datatype Gvk = Gvk(group: string, version: string, kind: string)

  datatype Scope = ClusterScoped | Namespaced

  datatype Body = Plain(data: string) | Crd(serves: set<Gvk>)

  /** A rendered object. An empty `namespace` is the unset field. */
  datatype Object = Object(gvk: Gvk, namespace: string, name: string, body: Body)

  /** Where an object lives on an API server. Versions of one kind share storage. */
  datatype Id = Id(cluster: string, group: string, kind: string, namespace: string, name: string)

  /** The objects present, over all target clusters. */
  type Target = map<Id, Object>

  /** What is fixed about one target: its cluster, the scope of every kind it could
      ever serve, and the kinds that need no custom resource definition. */
  datatype Env = Env(cluster: string, scopes: map<Gvk, Scope>, builtin: set<Gvk>)

  /** How the network treats one call: the reply can be lost before or after the
      server acted on it. */
  datatype Fault = NoFault | Lost | Late

  datatype Answer = Done | AlreadyExists | NotFound | Refused

  const DEFAULT_NAMESPACE := "default"

  function Serves(o: Object): set<Gvk> {
    if o.gvk.group == "apiextensions.k8s.io" && o.gvk.kind == "CustomResourceDefinition" && o.body.Crd?
    then o.body.serves else {}
  }

  /** The kinds discovery reports for the target as it stands. */
  function Discover(env: Env, t: Target): set<Gvk> {
    env.builtin + set id, g | id in t && id.cluster == env.cluster && g in Serves(t[id]) :: g
  }

  predicate Mapped(env: Env, known: set<Gvk>, o: Object) {
    o.gvk in known && o.gvk in env.scopes
  }

  /** The resource a mapped object is addressed at: cluster scope drops the
      namespace, and namespaced kinds fall back to the default one. */
  function IdOf(env: Env, o: Object): Id
    requires o.gvk in env.scopes
  {
    Id(env.cluster, o.gvk.group, o.gvk.kind,
       if env.scopes[o.gvk].ClusterScoped? then ""
       else if o.namespace == "" then DEFAULT_NAMESPACE else o.namespace,
       o.name)
  }

  function NamespaceId(env: Env, namespace: string): Id {
    Id(env.cluster, "", "Namespace", "", namespace)
  }

  predicate HasNamespace(env: Env, t: Target, o: Object)
    requires o.gvk in env.scopes
  {
    env.scopes[o.gvk].Namespaced? ==> NamespaceId(env, IdOf(env, o).namespace) in t
  }

  /** The identities a delete call for `o` addresses. Without a name the request
      goes to the collection, and so to every object in it. */
  predicate Covers(env: Env, o: Object, id: Id) {
    o.gvk in env.scopes && (id == IdOf(env, o) || (o.name == "" && id.(name := "") == IdOf(env, o)))
  }

  function CreateOn(t: Target, env: Env, o: Object): (Target, Answer)
    requires o.gvk in env.scopes
  {
    var id := IdOf(env, o);
    if o.name == "" then (t, Refused)
    else if !HasNamespace(env, t, o) then (t, NotFound)
    else if id in t then (t, AlreadyExists)
    else (t[id := o.(namespace := id.namespace)], Done)
  }

  function DeleteOn(t: Target, env: Env, o: Object): (Target, Answer)
    requires o.gvk in env.scopes
  {
    if o.name != "" && IdOf(env, o) !in t then (t, NotFound)
    else (map id | id in t && !Covers(env, o, id) :: t[id], Done)
  }

  datatype Verb = Ensure | Delete

  /** What became of one object in a pass. */
  datatype Outcome = Unmapped | Answered(answer: Answer)

  /** The outcomes a pass does not report as an error. */
  predicate Fine(verb: Verb, outcome: Outcome) {
    outcome.Answered? &&
    (outcome.answer.Done? || outcome.answer == if verb.Ensure? then AlreadyExists else NotFound)
  }

  /** One loop iteration of a pass: map the object, then issue the call. */
  function Act(verb: Verb, env: Env, known: set<Gvk>, t: Target, o: Object, fault: Fault): (Target, Outcome) {
    if !Mapped(env, known, o) then (t, Unmapped)
    else
      var (t', answer) := if verb.Ensure? then CreateOn(t, env, o) else DeleteOn(t, env, o);
      match fault
      case NoFault => (t', Answered(answer))
      case Lost => (t, Answered(Refused))
      case Late => (t', Answered(Refused))
  }

  /** A whole pass over `os` in order, one fault per call. */
  datatype Report = Report(target: Target, outcomes: seq<Outcome>)

  function Pass(verb: Verb, env: Env, known: set<Gvk>, t: Target, os: seq<Object>, faults: seq<Fault>): (r: Report)
    requires |os| == |faults|
    ensures |r.outcomes| == |os|
  {
    if os == [] then Report(t, [])
    else
      var n := |os| - 1;
      var before := Pass(verb, env, known, t, os[..n], faults[..n]);
      var (t', outcome) := Act(verb, env, known, before.target, os[n], faults[n]);
      Report(t', before.outcomes + [outcome])
  }

  predicate ErrorFree(verb: Verb, r: Report) {
    forall i :: 0 <= i < |r.outcomes| ==> Fine(verb, r.outcomes[i])
  }

  ghost predicate FaultFree(faults: seq<Fault>) {
    forall i :: 0 <= i < |faults| ==> faults[i] == NoFault
  }
}
