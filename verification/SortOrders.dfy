/** The install and uninstall orders and how they mirror each other. */
module SortOrders {
  import opened Cluster
  import opened Strings
  import opened KindSorter
  import opened SortObjects
  import opened SortDeterminism

  const INSTALL_ORDER: seq<string> := [
    "Namespace", "ResourceQuota", "LimitRange", "Secret", "ConfigMap", "StorageClass", "PersistentVolume",
    "PersistentVolumeClaim", "ServiceAccount", "CustomResourceDefinition", "ClusterRole", "ClusterRoleBinding",
    "Role", "RoleBinding", "Service", "DaemonSet", "Pod", "ReplicationController", "ReplicaSet", "Deployment",
    "StatefulSet", "Job", "CronJob", "Ingress", "APIService"]

  const UNINSTALL_ORDER: seq<string> := [
    "APIService", "Ingress", "Service", "CronJob", "Job", "StatefulSet", "Deployment", "ReplicaSet",
    "ReplicationController", "Pod", "DaemonSet", "RoleBinding", "Role", "ClusterRoleBinding", "ClusterRole",
    "CustomResourceDefinition", "ServiceAccount", "PersistentVolumeClaim", "PersistentVolume", "StorageClass",
    "ConfigMap", "Secret", "LimitRange", "ResourceQuota", "Namespace"]

  /** Where the kind at install position `i` stands in the uninstall order: mirrored, but
      Service is moved up in front of the workloads. */
  function Mirror(i: nat): int {
    if i == 14 then 2 else if 15 <= i <= 22 then 25 - i else 24 - i
  }

  lemma OrdersMirror()
    ensures |INSTALL_ORDER| == 25 && |UNINSTALL_ORDER| == 25
    ensures forall i :: 0 <= i < 25 ==> 0 <= Mirror(i) < 25 && UNINSTALL_ORDER[Mirror(i)] == INSTALL_ORDER[i]
  {
    forall i | 0 <= i < 25
      ensures UNINSTALL_ORDER[Mirror(i)] == INSTALL_ORDER[i]
    {
      if i < 9 {
        MirrorBase(i);
      } else if i < 14 {
        MirrorRoles(i);
      } else {
        MirrorRest(i);
      }
    }
  }

  lemma MirrorBase(i: nat)
    requires i < 9
    ensures UNINSTALL_ORDER[24 - i] == INSTALL_ORDER[i]
  {
  }

  lemma MirrorRoles(i: nat)
    requires 9 <= i < 14
    ensures UNINSTALL_ORDER[24 - i] == INSTALL_ORDER[i]
  {
  }

  lemma MirrorRest(i: nat)
    requires 14 <= i < 25
    ensures UNINSTALL_ORDER[Mirror(i)] == INSTALL_ORDER[i]
  {
  }

  lemma KindsAreDistinct()
    ensures forall i, j :: 0 <= i < j < 25 ==> INSTALL_ORDER[i] != INSTALL_ORDER[j]
    ensures forall i, j :: 0 <= i < j < 25 ==> UNINSTALL_ORDER[i] != UNINSTALL_ORDER[j]
  {
    InstallKindsAreDistinct();
    UninstallKindsAreDistinct();
  }

  lemma InstallKindsAreDistinct()
    ensures forall i, j :: 0 <= i < j < 25 ==> INSTALL_ORDER[i] != INSTALL_ORDER[j]
  {
  }

  lemma UninstallKindsAreDistinct()
    ensures forall i, j :: 0 <= i < j < 25 ==> UNINSTALL_ORDER[i] != UNINSTALL_ORDER[j]
  {
  }

  lemma Ranks(i: nat)
    requires i < 25
    ensures var k := INSTALL_ORDER[i];
            && k in OrderingOf(INSTALL_ORDER) && OrderingOf(INSTALL_ORDER)[k] == i
            && k in OrderingOf(UNINSTALL_ORDER) && OrderingOf(UNINSTALL_ORDER)[k] == Mirror(i)
    ensures forall l :: l in OrderingOf(INSTALL_ORDER) <==> l in INSTALL_ORDER
  {
    OrdersMirror();
    KindsAreDistinct();
    OrderingOfDistinct(INSTALL_ORDER);
    OrderingOfDistinct(UNINSTALL_ORDER);
  }

  /** Objects of listed kinds only are always sortable. */
  lemma ListedIsSortable(ordering: Ordering, xs: set<Object>)
    requires forall o :: o in xs ==> Listed(ordering, o)
    ensures StrictWeakOrder(ordering, xs)
  {
    ComparatorDomain(ordering, xs);
  }

  /** Every object of kind `k` stands before every object of kind `l`. */
  ghost predicate KindBefore(s: seq<Object>, k: string, l: string) {
    forall i, j :: 0 <= i < |s| && 0 <= j < |s| && s[i].gvk.kind == k && s[j].gvk.kind == l ==> i < j
  }

  lemma RankOrders(ordering: Ordering, s: seq<Object>, k: string, l: string)
    requires Sorted(ordering, s) && k in ordering && l in ordering && ordering[k] < ordering[l]
    ensures KindBefore(s, k, l)
  {
    forall i, j | 0 <= i < |s| && 0 <= j < |s| && s[i].gvk.kind == k && s[j].gvk.kind == l
      ensures i < j
    {
      assert Less(ordering, s[i], s[j]);
    }
  }

  /** The workloads Service keeps standing in front of: DaemonSet to CronJob. */
  predicate Workload(i: nat) {
    15 <= i <= 22
  }

  lemma ServiceRank(i: nat)
    requires i < 25
    ensures INSTALL_ORDER[i] == "Service" <==> i == 14
  {
    assert INSTALL_ORDER[14] == "Service";
    KindsAreDistinct();
  }

  lemma MirroredRanks(install: Ordering, uninstall: Ordering, s: seq<Object>, t: seq<Object>, k: string, i: nat, l: string, j: nat)
    requires Sorted(install, s) && Sorted(uninstall, t) && i < j < 25
    requires k in install && install[k] == i && k in uninstall && uninstall[k] == Mirror(i)
    requires l in install && install[l] == j && l in uninstall && uninstall[l] == Mirror(j)
    ensures KindBefore(s, k, l) && if i == 14 && Workload(j) then KindBefore(t, k, l) else KindBefore(t, l, k)
  {
    RankOrders(install, s, k, l);
    if i == 14 && Workload(j) {
      RankOrders(uninstall, t, k, l);
    } else {
      RankOrders(uninstall, t, l, k);
    }
  }

  /** Two sorted lists order every two different listed kinds oppositely, except Service
      against the workloads, which it precedes in both. */
  lemma UninstallMirrorsInstall(s: seq<Object>, t: seq<Object>, i: nat, j: nat)
    requires Sorted(OrderingOf(INSTALL_ORDER), s) && Sorted(OrderingOf(UNINSTALL_ORDER), t) && i < j < 25
    ensures var k, l := INSTALL_ORDER[i], INSTALL_ORDER[j];
            KindBefore(s, k, l) && if k == "Service" && Workload(j) then KindBefore(t, k, l) else KindBefore(t, l, k)
  {
    var k, l := INSTALL_ORDER[i], INSTALL_ORDER[j];
    ServiceRank(i);
    Ranks(i);
    Ranks(j);
    MirroredRanks(OrderingOf(INSTALL_ORDER), OrderingOf(UNINSTALL_ORDER), s, t, k, i, l, j);
  }

  lemma NamespaceRanksFirst(kind: string)
    requires kind in INSTALL_ORDER && kind != "Namespace"
    ensures var install := OrderingOf(INSTALL_ORDER);
            "Namespace" in install && kind in install && install["Namespace"] < install[kind]
  {
    var j :| 0 <= j < |INSTALL_ORDER| && INSTALL_ORDER[j] == kind;
    OrdersMirror();
    assert INSTALL_ORDER[0] == "Namespace";
    Ranks(0);
    Ranks(j);
  }

  /** In particular namespaces come first on install and go last on uninstall. */
  lemma NamespacesFrameTheRest(s: seq<Object>, t: seq<Object>, kind: string)
    requires Sorted(OrderingOf(INSTALL_ORDER), s) && Sorted(OrderingOf(UNINSTALL_ORDER), t)
    requires kind in INSTALL_ORDER && kind != "Namespace"
    ensures KindBefore(s, "Namespace", kind) && KindBefore(t, kind, "Namespace")
  {
    var j :| 0 <= j < |INSTALL_ORDER| && INSTALL_ORDER[j] == kind;
    OrdersMirror();
    assert INSTALL_ORDER[0] == "Namespace";
    UninstallMirrorsInstall(s, t, 0, j);
  }

  // ----- where the install order fails

  function Named(kind: string, name: string): Object {
    Object(Gvk("", "v1", kind), "", name, Plain(""))
  }

  lemma KindNames()
    ensures INSTALL_ORDER[0] == "Namespace" && INSTALL_ORDER[3] == "Secret" && "Widget" !in INSTALL_ORDER
  {
  }

  lemma RankOf(ordering: Ordering, i: nat, kind: string)
    requires ordering == OrderingOf(INSTALL_ORDER) && i < 25 && kind == INSTALL_ORDER[i]
    ensures kind in ordering && ordering[kind] == i
  {
    Ranks(i);
  }

  lemma NoRank(ordering: Ordering, kind: string)
    requires ordering == OrderingOf(INSTALL_ORDER) && kind !in INSTALL_ORDER
    ensures kind !in ordering
  {
    Ranks(0);
  }

  /** A namespace below a secret, the secret below an unlisted widget, but the widget below
      the namespace: with these three the comparator is no order. */
  lemma NamesSpoilTheOrder(ordering: Ordering)
    requires ordering == OrderingOf(INSTALL_ORDER)
    ensures var namespace, widget, secret := Named("Namespace", "b"), Named("Widget", "a"), Named("Secret", "s");
            && Less(ordering, namespace, secret) && Less(ordering, secret, widget) && Less(ordering, widget, namespace)
            && !StrictWeakOrder(ordering, {namespace, widget, secret})
  {
    KindNames();
    RankOf(ordering, 0, "Namespace");
    RankOf(ordering, 3, "Secret");
    NoRank(ordering, "Widget");
    Cycle(ordering, Named("Namespace", "b"), Named("Widget", "a"), Named("Secret", "s"));
  }

  lemma Cycle(ordering: Ordering, first: Object, widget: Object, ranked: Object)
    requires First(ordering, first) && !Listed(ordering, widget) && Ranked(ordering, ranked) && Before(widget.name, first.name)
    ensures Less(ordering, first, ranked) && Less(ordering, ranked, widget) && Less(ordering, widget, first)
    ensures !StrictWeakOrder(ordering, {first, widget, ranked})
  {
    LessIsAsymmetric(ordering, widget, first);
    assert !Transitive(ordering, {first, widget, ranked});
  }

  /** A namespace and a widget of one name: the comparator is an order, but does not say
      which of the two comes first. */
  lemma SharedNameLeavesOpen(ordering: Ordering)
    requires ordering == OrderingOf(INSTALL_ORDER)
    ensures var s := [Named("Namespace", "a"), Named("Widget", "a")];
            StrictWeakOrder(ordering, Elements(s)) && !Determined(ordering, s)
  {
    KindNames();
    RankOf(ordering, 0, "Namespace");
    NoRank(ordering, "Widget");
    ClashOfTwo(ordering, Named("Namespace", "a"), Named("Widget", "a"));
  }

  /** In a sorted list the objects of one kind stand in the order of their names. */
  lemma OneKindByName(ordering: Ordering, s: seq<Object>, i: nat, j: nat)
    requires Sorted(ordering, s) && i < j < |s| && s[i].gvk.kind == s[j].gvk.kind
    ensures s[i].name == s[j].name || Before(s[i].name, s[j].name)
  {
    assert !Less(ordering, s[j], s[i]);
    BeforeIsTotal(s[i].name, s[j].name);
  }

  lemma PairBefore(ordering: Ordering, s: seq<Object>, i: nat, j: nat, k: string, l: string)
    requires ordering == OrderingOf(INSTALL_ORDER) && Sorted(ordering, s) && i < j < 25
    requires INSTALL_ORDER[i] == k && INSTALL_ORDER[j] == l
    ensures KindBefore(s, k, l)
  {
    RankOf(ordering, i, k);
    RankOf(ordering, j, l);
    RankOrders(ordering, s, k, l);
  }

  /** What others refer to comes before them: roles before their bindings, storage classes
      before volumes and those before claims, secrets, configuration and accounts before the
      pods that use them. */
  lemma DependenciesComeFirst(ordering: Ordering, s: seq<Object>)
    requires ordering == OrderingOf(INSTALL_ORDER) && Sorted(ordering, s)
    ensures KindBefore(s, "Role", "RoleBinding") && KindBefore(s, "ClusterRole", "ClusterRoleBinding")
    ensures KindBefore(s, "StorageClass", "PersistentVolume") && KindBefore(s, "PersistentVolume", "PersistentVolumeClaim")
    ensures KindBefore(s, "Secret", "Pod") && KindBefore(s, "ConfigMap", "Pod") && KindBefore(s, "ServiceAccount", "Pod")
  {
    PairBefore(ordering, s, 12, 13, "Role", "RoleBinding");
    PairBefore(ordering, s, 10, 11, "ClusterRole", "ClusterRoleBinding");
    PairBefore(ordering, s, 5, 6, "StorageClass", "PersistentVolume");
    PairBefore(ordering, s, 6, 7, "PersistentVolume", "PersistentVolumeClaim");
    PairBefore(ordering, s, 3, 16, "Secret", "Pod");
    PairBefore(ordering, s, 4, 16, "ConfigMap", "Pod");
    PairBefore(ordering, s, 8, 16, "ServiceAccount", "Pod");
  }
}
