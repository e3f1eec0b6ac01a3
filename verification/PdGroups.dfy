/**
 Prefill/decode groups of a model server's pods (pkg/kthena-router/datastore/model_server.go, pdgroup_pods.go and
 AddOrUpdateModelServer in store.go).

 The reference is one map from pods to their class, a role and a group value.  The code keeps the same facts as one
 object per group and two reverse indexes.
 */
module PdGroups {
  import opened Common

  type Pod = string

  type Labels = map<string, string>

  datatype Role = Decode | Prefill

  datatype Class = Class(role: Role, group: string)

  datatype PDGroup = PDGroup(groupKey: string, decodeLabels: Labels, prefillLabels: Labels)

  /** A server's workload selector; only its group part classifies, but any change of it does so anew. */
  datatype Selector = Selector(matchLabels: Labels, pdGroup: Option<PDGroup>)

  function GroupOf(selector: Option<Selector>): Option<PDGroup> { if selector.None? then None else selector.value.pdGroup }

  /** A label that is not there reads as the empty string. */
  function Read(labels: Labels, key: string): string { if key in labels then labels[key] else "" }

  predicate MatchesLabels(labels: Labels, required: Labels) {
    required != map[] && forall key :: key in required ==> Read(labels, key) == required[key]
  }

  /** The class the selector gives to a pod with these labels. */
  function ClassOf(selector: Option<Selector>, labels: Labels): Option<Class> {
    var pd := GroupOf(selector);
    if pd.None? then None else
      var group := Read(labels, pd.value.groupKey);
      if group == "" then None
      else if MatchesLabels(labels, pd.value.decodeLabels) then Some(Class(Decode, group))
      else if MatchesLabels(labels, pd.value.prefillLabels) then Some(Class(Prefill, group))
      else None
  }

  /** Labels `required` are some, and the pod has all of them; an empty value is also met by an absent label. */
  ghost predicate HasAll(labels: Labels, required: Labels) {
    && (exists key :: key in required)
    && forall key :: key in required ==> if key in labels then labels[key] == required[key] else required[key] == ""
  }

  lemma {:induction false} HasSome(required: Labels)
    ensures (exists key :: key in required) <==> required != map[]
  {
    assert required.Keys == {} <==> required == map[];
  }

  /** A pod belongs to the group its group label names, as decode if its labels say so, else as prefill if they say that. */
  lemma {:induction false} ClassOfIff(selector: Option<Selector>, labels: Labels, g: string)
    ensures selector.None? || selector.value.pdGroup.None? ==> ClassOf(selector, labels).None?
    ensures selector.Some? && selector.value.pdGroup.Some? ==>
      var pd := selector.value.pdGroup.value;
      var grouped := g != "" && pd.groupKey in labels && labels[pd.groupKey] == g;
      && (ClassOf(selector, labels) == Some(Class(Decode, g)) <==> grouped && HasAll(labels, pd.decodeLabels))
      && (ClassOf(selector, labels) == Some(Class(Prefill, g)) <==>
          grouped && !HasAll(labels, pd.decodeLabels) && HasAll(labels, pd.prefillLabels))
  {
    if selector.Some? && selector.value.pdGroup.Some? {
      HasSome(selector.value.pdGroup.value.decodeLabels);
      HasSome(selector.value.pdGroup.value.prefillLabels);
    }
  }

  /** The loop of matchesLabels. */
  method CheckLabels(labels: Labels, required: Labels) returns (r: bool)
    ensures r == MatchesLabels(labels, required)
  {
    if required == map[] { return false; }
    var left := required.Keys;
    while left != {}
      invariant left <= required.Keys
      invariant forall key :: key in required && key !in left ==> Read(labels, key) == required[key]
    {
      var key :| key in left;
      if Read(labels, key) != required[key] { return false; }
      left := left - {key};
    }
    r := true;
  }

  class PDGroupPods {
    var decodePods: set<Pod>
    var prefillPods: set<Pod>

    constructor ()
      ensures decodePods == {} && prefillPods == {}
    {
      decodePods, prefillPods := {}, {};
    }

    method AddDecodePod(pod: Pod)
      modifies this
      ensures decodePods == old(decodePods) + {pod} && prefillPods == old(prefillPods)
    {
      decodePods := decodePods + {pod};
    }

    method AddPrefillPod(pod: Pod)
      modifies this
      ensures prefillPods == old(prefillPods) + {pod} && decodePods == old(decodePods)
    {
      prefillPods := prefillPods + {pod};
    }

    method RemovePod(pod: Pod)
      modifies this
      ensures decodePods == old(decodePods) - {pod} && prefillPods == old(prefillPods) - {pod}
    {
      decodePods, prefillPods := decodePods - {pod}, prefillPods - {pod};
    }

    predicate IsEmpty()
      reads this
    {
      decodePods == {} && prefillPods == {}
    }
  }

  // ----- The indexes as functions of the classification -----

  /** The members of one group. */
  datatype Members = Members(decode: set<Pod>, prefill: set<Pod>)

  type Groups = map<string, Members>

  type Classes = map<Pod, Class>

  ghost function PodsOf(classes: Classes, role: Role, g: string): set<Pod> {
    set pod | pod in classes && classes[pod] == Class(role, g)
  }

  ghost function GroupNames(classes: Classes): set<string> { set pod | pod in classes :: classes[pod].group }

  /** The groups that occur, with their members. */
  ghost function Grouped(classes: Classes): Groups {
    map g | g in GroupNames(classes) :: Members(PodsOf(classes, Decode, g), PodsOf(classes, Prefill, g))
  }

  /** The reverse index of one role. */
  ghost function Reverse(classes: Classes, role: Role): map<Pod, string> {
    map pod | pod in classes && classes[pod].role == role :: classes[pod].group
  }

  /** The groups without `pod`, which is in group `g`; a group left empty goes. */
  function WithoutPod(groups: Groups, g: string, pod: Pod): Groups
    requires g in groups
  {
    var rest := Members(groups[g].decode - {pod}, groups[g].prefill - {pod});
    if rest == Members({}, {}) then groups - {g} else groups[g := rest]
  }

  function WithPod(groups: Groups, c: Class, pod: Pod): Groups {
    var m := if c.group in groups then groups[c.group] else Members({}, {});
    groups[c.group := if c.role.Decode? then Members(m.decode + {pod}, m.prefill) else Members(m.decode, m.prefill + {pod})]
  }

  lemma {:induction false} GroupNamesAre(classes: Classes, g: string)
    ensures g in GroupNames(classes) <==> PodsOf(classes, Decode, g) != {} || PodsOf(classes, Prefill, g) != {}
  {
    if g in GroupNames(classes) {
      var pod :| pod in classes && classes[pod].group == g;
      assert pod in PodsOf(classes, classes[pod].role, g);
      match classes[pod].role { case Decode => case Prefill => }
    } else {
      assert forall role, pod :: pod !in PodsOf(classes, role, g);
    }
  }

  lemma {:induction false} PodsWithout(classes: Classes, pod: Pod, role: Role, g: string)
    ensures PodsOf(classes - {pod}, role, g) == PodsOf(classes, role, g) - {pod}
  {
  }

  lemma {:induction false} PodsWith(classes: Classes, pod: Pod, c: Class, role: Role, g: string)
    requires pod !in classes
    ensures PodsOf(classes[pod := c], role, g) == PodsOf(classes, role, g) + if c == Class(role, g) then {pod} else {}
  {
  }

  lemma {:induction false} GroupedWithoutPod(classes: Classes, pod: Pod)
    requires pod in classes
    ensures classes[pod].group in Grouped(classes)
    ensures Grouped(classes - {pod}) == WithoutPod(Grouped(classes), classes[pod].group, pod)
  {
    var rest, group := classes - {pod}, classes[pod].group;
    assert group in GroupNames(classes);
    var w := WithoutPod(Grouped(classes), group, pod);
    forall g ensures g in Grouped(rest) <==> g in w
      ensures g in w ==> Grouped(rest)[g] == w[g]
    {
      GroupNamesAre(classes, g);
      GroupNamesAre(rest, g);
      PodsWithout(classes, pod, Decode, g);
      PodsWithout(classes, pod, Prefill, g);
    }
  }

  lemma {:induction false} GroupedWithPod(classes: Classes, pod: Pod, c: Class)
    requires pod !in classes
    ensures Grouped(classes[pod := c]) == WithPod(Grouped(classes), c, pod)
  {
    var all := classes[pod := c];
    var w := WithPod(Grouped(classes), c, pod);
    forall g ensures g in Grouped(all) <==> g in w
      ensures g in w ==> Grouped(all)[g] == w[g]
    {
      GroupNamesAre(classes, g);
      GroupNamesAre(all, g);
      PodsWith(classes, pod, c, Decode, g);
      PodsWith(classes, pod, c, Prefill, g);
    }
  }

  lemma {:induction false} ReverseWithoutPod(classes: Classes, pod: Pod, role: Role)
    ensures Reverse(classes - {pod}, role) == Reverse(classes, role) - {pod}
  {
  }

  lemma {:induction false} ReverseWithPod(classes: Classes, pod: Pod, c: Class, role: Role)
    requires pod !in classes
    ensures Reverse(classes[pod := c], role) == if c.role == role then Reverse(classes, role)[pod := c.group] else Reverse(classes, role)
  {
  }

  ghost function Reclassified(classes: Classes, pod: Pod, c: Option<Class>): Classes {
    if c.Some? then classes[pod := c.value] else classes
  }

  /** The classes of all `pods` whose labels are known and select them. */
  ghost function Classified(pods: set<Pod>, selector: Option<Selector>, known: map<Pod, Labels>): Classes {
    map pod | pod in pods && pod in known && ClassOf(selector, known[pod]).Some? :: ClassOf(selector, known[pod]).value
  }

  class ModelServer {
    var selector: Option<Selector>
    var pods: set<Pod>
    var pdGroups: map<string, PDGroupPods>
    var decodePodGroups: map<Pod, string>
    var prefillPodGroups: map<Pod, string>
    ghost var classes: Classes

    /** Each group has an object of its own. */
    ghost predicate Owned()
      reads `pdGroups
    {
      forall g, h :: g in pdGroups && h in pdGroups && g != h ==> pdGroups[g] != pdGroups[h]
    }

    ghost function View(): Groups
      reads `pdGroups, pdGroups.Values
    {
      map g | g in pdGroups :: Members(pdGroups[g].decodePods, pdGroups[g].prefillPods)
    }

    /** The groups and both reverse indexes say exactly what `classes` says. */
    ghost predicate Valid()
      reads this, pdGroups.Values
    {
      && Owned() && View() == Grouped(classes)
      && decodePodGroups == Reverse(classes, Decode) && prefillPodGroups == Reverse(classes, Prefill)
    }

    constructor (selector: Option<Selector>)
      ensures Valid() && classes == map[] && pods == {} && this.selector == selector
    {
      this.selector, pods, pdGroups := selector, {}, map[];
      decodePodGroups, prefillPodGroups, classes := map[], map[], map[];
    }

    /** Takes a pod out of its group's object. */
    method DropFromGroup(group: string, pod: Pod)
      requires Owned() && group in pdGroups
      modifies `pdGroups, pdGroups[group]
      ensures Owned() && pdGroups.Values <= old(pdGroups.Values) && View() == WithoutPod(old(View()), group, pod)
    {
      pdGroups[group].RemovePod(pod);
      if pdGroups[group].IsEmpty() {
        pdGroups := pdGroups - {group};
      }
    }

    /** Puts a pod into its group's object, which is made if there is none. */
    method JoinGroup(c: Class, pod: Pod)
      requires Owned()
      modifies `pdGroups, pdGroups.Values
      ensures Owned() && fresh(pdGroups.Values - old(pdGroups.Values)) && View() == WithPod(old(View()), c, pod)
    {
      if c.group !in pdGroups {
        var group := new PDGroupPods();
        pdGroups := pdGroups[c.group := group];
      }
      if c.role.Decode? {
        pdGroups[c.group].AddDecodePod(pod);
      } else {
        pdGroups[c.group].AddPrefillPod(pod);
      }
    }

    /** Takes a classified pod out of its group and its reverse index. */
    method Leave(pod: Pod, group: string)
      requires Valid() && pod in classes && classes[pod].group == group
      modifies `pdGroups, `decodePodGroups, `prefillPodGroups, `classes, pdGroups.Values
      ensures Valid() && classes == old(classes) - {pod} && pdGroups.Values <= old(pdGroups.Values)
    {
      GroupedWithoutPod(classes, pod);
      ReverseWithoutPod(classes, pod, Decode);
      ReverseWithoutPod(classes, pod, Prefill);
      DropFromGroup(group, pod);
      decodePodGroups, prefillPodGroups, classes := decodePodGroups - {pod}, prefillPodGroups - {pod}, classes - {pod};
    }

    /** removePodFromPDGroupsLocked. */
    method RemovePodFromPDGroups(pod: Pod)
      requires Valid()
      modifies this, pdGroups.Values
      ensures Valid() && classes == old(classes) - {pod}
      ensures selector == old(selector) && pods == old(pods) && pdGroups.Values <= old(pdGroups.Values)
    {
      if pod in decodePodGroups {
        Leave(pod, decodePodGroups[pod]);
      } else if pod in prefillPodGroups {
        Leave(pod, prefillPodGroups[pod]);
      } else {
        assert pod !in classes && classes - {pod} == classes;
      }
    }

    /** The class of a pod with these labels. */
    method Classify(labels: Labels) returns (c: Option<Class>)
      ensures c == ClassOf(selector, labels)
    {
      if GroupOf(selector).None? { return None; }
      var s := GroupOf(selector).value;
      var group := Read(labels, s.groupKey);
      if group == "" { return None; }
      var isDecode := CheckLabels(labels, s.decodeLabels);
      if isDecode { return Some(Class(Decode, group)); }
      var isPrefill := CheckLabels(labels, s.prefillLabels);
      c := if isPrefill then Some(Class(Prefill, group)) else None;
    }

    /** Enters a pod into its group and its reverse index. */
    method Enter(pod: Pod, c: Class)
      requires Valid() && pod !in classes
      modifies `pdGroups, `decodePodGroups, `prefillPodGroups, `classes, pdGroups.Values
      ensures Valid() && classes == old(classes)[pod := c] && fresh(pdGroups.Values - old(pdGroups.Values))
    {
      GroupedWithPod(classes, pod, c);
      ReverseWithPod(classes, pod, c, Decode);
      ReverseWithPod(classes, pod, c, Prefill);
      JoinGroup(c, pod);
      classes := classes[pod := c];
      if c.role.Decode? {
        decodePodGroups := decodePodGroups[pod := c.group];
      } else {
        prefillPodGroups := prefillPodGroups[pod := c.group];
      }
    }

    /** categorizePodForPDGroupLocked, for a pod that is not classified. */
    method CategorizeUnclassified(pod: Pod, labels: Labels)
      requires Valid() && pod !in classes
      modifies this, pdGroups.Values
      ensures Valid() && classes == Reclassified(old(classes), pod, ClassOf(selector, labels))
      ensures selector == old(selector) && pods == old(pods) && fresh(pdGroups.Values - old(pdGroups.Values))
    {
      var c := Classify(labels);
      if c.Some? {
        Enter(pod, c.value);
      }
    }

    /** A pod's class is replaced by the one its labels give now, or taken away. */
    method CategorizePodForPDGroup(pod: Pod, labels: Labels)
      requires Valid()
      modifies this, pdGroups.Values
      ensures Valid() && classes == Reclassified(old(classes) - {pod}, pod, ClassOf(selector, labels))
      ensures selector == old(selector) && pods == old(pods) && fresh(pdGroups.Values - old(pdGroups.Values))
    {
      RemovePodFromPDGroups(pod);
      CategorizeUnclassified(pod, labels);
    }

    method Clear()
      modifies `pdGroups, `decodePodGroups, `prefillPodGroups, `classes
      ensures Valid() && classes == map[] && pdGroups == map[]
    {
      pdGroups, decodePodGroups, prefillPodGroups, classes := map[], map[], map[], map[];
    }

    method ClassifyAll(known: map<Pod, Labels>)
      requires Valid() && classes == map[] && pdGroups == map[]
      modifies this
      ensures Valid() && classes == Classified(pods, selector, known)
      ensures selector == old(selector) && pods == old(pods)
    {
      var left, done := pods, {};
      while left != {}
        invariant Valid() && selector == old(selector) && pods == old(pods) && left + done == pods && left !! done
        invariant classes == Classified(done, selector, known) && fresh(pdGroups.Values)
      {
        var pod :| pod in left;
        if pod in known {
          CategorizeUnclassified(pod, known[pod]);
        }
        left, done := left - {pod}, done + {pod};
      }
    }

    /** A server seen for the first time classifies the pods that came before it. */
    method Populate(newPods: Option<set<Pod>>, known: map<Pod, Labels>)
      requires Valid() && classes == map[] && pdGroups == map[]
      modifies this
      ensures Valid() && selector == old(selector) && pods == (if newPods.Some? then newPods.value else old(pods))
      ensures classes == Classified(pods, selector, known)
    {
      if newPods.Some? {
        pods := newPods.value;
      }
      ClassifyAll(known);
    }

    /**
     The update of a known server in AddOrUpdateModelServer.  A changed selector, match labels included, classifies
     anew exactly the pods of the server whose labels the store knows; None leaves the pod set as it is.
     */
    method Update(ms: Option<Selector>, newPods: Option<set<Pod>>, known: map<Pod, Labels>)
      requires Valid()
      modifies this, pdGroups.Values
      ensures Valid() && selector == ms && pods == (if newPods.Some? then newPods.value else old(pods))
      ensures ms == old(selector) ==> classes == old(classes)
      ensures ms != old(selector) ==> classes == Classified(pods, ms, known)
    {
      var changed := selector != ms;
      selector := ms;
      if newPods.Some? {
        pods := newPods.value;
      }
      if changed {
        Clear();
        ClassifyAll(known);
      }
    }

    /** The prefill pods of a decode pod's group: none for a pod that is not classified as decode. */
    method GetPrefillPodsForDecodeGroup(pod: Pod) returns (r: set<Pod>)
      requires Valid()
      ensures r == if GroupOf(selector).Some? && pod in classes && classes[pod].role == Decode then PodsOf(classes, Prefill, classes[pod].group) else {}
    {
      if GroupOf(selector).None? || pod !in decodePodGroups { return {}; }
      var group := decodePodGroups[pod];
      GroupNamesAre(classes, group);
      assert group in View() <==> group in pdGroups;
      if group !in pdGroups { return {}; }
      assert View()[group].prefill == pdGroups[group].prefillPods;
      r := pdGroups[group].prefillPods;
    }
  }

  /**
   What it means that groups and reverse indexes are functions of one classification: a pod is in a group's set of a
   role exactly when that role's reverse index maps it to the group, so in one group and one role only, and no group
   is empty.
   */
  lemma {:induction false} IndexesAgree(classes: Classes, pod: Pod, g: string)
    ensures pod in PodsOf(classes, Decode, g) <==> pod in Reverse(classes, Decode) && Reverse(classes, Decode)[pod] == g
    ensures pod in PodsOf(classes, Prefill, g) <==> pod in Reverse(classes, Prefill) && Reverse(classes, Prefill)[pod] == g
    ensures pod !in Reverse(classes, Decode) || pod !in Reverse(classes, Prefill)
    ensures g in Grouped(classes) <==> PodsOf(classes, Decode, g) + PodsOf(classes, Prefill, g) != {}
  {
    GroupNamesAre(classes, g);
  }
}
