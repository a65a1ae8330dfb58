/**
  The backup item action for PersistentVolumeClaims: it reads the name of the
  PersistentVolume a claim is bound to and asks for that volume to be backed
  up as well.
 */
module BackupPVAction {
  import opened Wrappers
  import opened Unstructured

  /** A kind of resource within an API group; the core group is "". */
  datatype GroupResource = GroupResource(group: string, resource: string)

  /** One resource instance; cluster-scoped resources have namespace "". */
  datatype ResourceIdentifier = ResourceIdentifier(groupResource: GroupResource, namespace: string, name: string)

  /** Which items an action wants to see. An empty list or label selector
      restricts nothing. */
  datatype ResourceSelector = ResourceSelector(
    includedNamespaces: seq<string>,
    excludedNamespaces: seq<string>,
    includedResources: seq<string>,
    excludedResources: seq<string>,
    labelSelector: string)

  /** An item handed to an action: the resource's unstructured content. */
  datatype Item = Item(content: map<string, Value>)

  /** The error an action may report. */
  datatype ActionError = ActionError(message: string)

  /** What Execute hands back to the engine: the (possibly absent) item, the
      further resources to back up, and an optional error. */
  datatype ExecuteResult = ExecuteResult(
    item: Option<Item>,
    additionalItems: seq<ResourceIdentifier>,
    err: Option<ActionError>)

  /** PersistentVolumes live in the core API group. */
  const PVGroupResource: GroupResource := GroupResource("", "persistentvolumes")

  const PVCResource: string := "persistentvolumeclaims"

  /** Where a claim records the volume it is bound to: "spec.volumeName".
      Built by concatenation so the verifier does not unfold Split on a literal. */
  const VolumeNamePath: string := "spec" + [PathSeparator] + "volumeName"

  /** The identifier of the cluster-scoped PersistentVolume called `name`. */
  function PVIdentifier(name: string): ResourceIdentifier
  {
    ResourceIdentifier(PVGroupResource, "", name)
  }

  /** The result that reports nothing at all: no item, no additional items, no error. */
  const NothingToAdd: ExecuteResult := ExecuteResult(None, [], None)

  /** The action applies to PersistentVolumeClaims only, in every namespace,
      whatever their labels, and never fails to say so. */
  function AppliesTo(): (r: (ResourceSelector, Option<ActionError>))
    ensures r.0.includedResources == [PVCResource]
    ensures r.0.excludedResources == [] && r.0.includedNamespaces == [] && r.0.excludedNamespaces == []
    ensures r.0.labelSelector == ""
    ensures r.1 == None
  {
    (ResourceSelector([], [], [PVCResource], [], ""), None)
  }

  /** Reports the PersistentVolume the claim `item` is bound to. The backup
      being taken is passed in but never read: Execute is generic in its type. */
  function Execute<B>(item: Item, backup: B): (r: ExecuteResult)
    ensures r.err == None
    ensures r.item == None || r.item == Some(item)
    ensures r.item.Some? <==> |r.additionalItems| == 1
    ensures r.item.None? ==> r == NothingToAdd
    ensures forall id :: id in r.additionalItems ==>
      id.groupResource == PVGroupResource && id.namespace == "" && id.name != ""
  {
    match GetString(item.content, VolumeNamePath)
    case Ok(volumeName) =>
      if volumeName == "" then NothingToAdd
      else ExecuteResult(Some(item), [PVIdentifier(volumeName)], None)
    case Err(_) =>
      NothingToAdd
  }

  // ---------------------------------------------------------------------------
  // A reference reading of spec.volumeName, written directly on the maps
  // ---------------------------------------------------------------------------

  /** The name of the volume a claim is bound to, read straight off its
      content: present only when `spec` is a map whose `volumeName` is a
      non-empty string. */
  function BoundVolume(content: map<string, Value>): Option<string>
  {
    if "spec" in content && content["spec"].Map?
       && "volumeName" in content["spec"].fields
       && content["spec"].fields["volumeName"].Str?
       && content["spec"].fields["volumeName"].s != ""
    then Some(content["spec"].fields["volumeName"].s)
    else None
  }

  /** The dotted path names the two keys `spec` then `volumeName`. */
  lemma VolumeNamePathKeys()
    ensures Split(VolumeNamePath, PathSeparator) == ["spec", "volumeName"]
  {
    var keys := ["spec", "volumeName"];
    assert Join(keys, PathSeparator) == VolumeNamePath;
    assert forall i :: 0 <= i < |keys| ==> PathSeparator !in keys[i];
    SplitJoin(keys, PathSeparator);
  }

  /** Looking up spec.volumeName fails in exactly three ways, told apart:
      `spec` is absent or `volumeName` is absent (KeyNotFound), `spec` is not
      a map (NotAMap), or `volumeName` is not a string (NotAString). */
  lemma VolumeNameLookup(content: map<string, Value>)
    ensures GetString(content, VolumeNamePath) ==
      if "spec" !in content then Err(KeyNotFound("spec"))
      else if !content["spec"].Map? then Err(NotAMap("spec"))
      else if "volumeName" !in content["spec"].fields then Err(KeyNotFound("volumeName"))
      else if !content["spec"].fields["volumeName"].Str? then Err(NotAString(VolumeNamePath))
      else Ok(content["spec"].fields["volumeName"].s)
  {
    VolumeNamePathKeys();
    WalkAppend(content, ["spec"], ["volumeName"]);
    assert ["spec"] + ["volumeName"] == ["spec", "volumeName"];
  }

  /** Execute backs up the volume exactly when the claim is bound: its whole
      result is determined by the reference reading BoundVolume. */
  lemma ExecuteFollowsBoundVolume<B>(item: Item, backup: B)
    ensures Execute(item, backup) ==
      match BoundVolume(item.content)
      case None => NothingToAdd
      case Some(v) => ExecuteResult(Some(item), [PVIdentifier(v)], None)
  {
    VolumeNameLookup(item.content);
  }

  /** A claim with no `spec` or no `volumeName` is unbound: nothing is
      returned, and no error. */
  lemma ExecuteMissingVolumeName<B>(item: Item, backup: B)
    requires "spec" !in item.content
      || (item.content["spec"].Map? && "volumeName" !in item.content["spec"].fields)
    ensures GetString(item.content, VolumeNamePath).Err?
    ensures GetString(item.content, VolumeNamePath).error.KeyNotFound?
    ensures Execute(item, backup) == NothingToAdd
  {
    VolumeNameLookup(item.content);
  }

  /** A `spec` that is not a map, or a `volumeName` that is not a string, makes
      the lookup fail with a type error; Execute swallows it like a missing
      field: nothing is returned, and no error. */
  lemma ExecuteWrongShapeIsNotAnError<B>(item: Item, backup: B)
    requires "spec" in item.content
    requires !item.content["spec"].Map?
      || ("volumeName" in item.content["spec"].fields
          && !item.content["spec"].fields["volumeName"].Str?)
    ensures GetString(item.content, VolumeNamePath).Err?
    ensures GetString(item.content, VolumeNamePath).error.NotAMap?
      || GetString(item.content, VolumeNamePath).error.NotAString?
    ensures Execute(item, backup) == NothingToAdd
  {
    VolumeNameLookup(item.content);
  }

  /** A claim whose volumeName is the empty string is treated as unbound. */
  lemma ExecuteEmptyVolumeName<B>(item: Item, backup: B)
    requires "spec" in item.content && item.content["spec"].Map?
    requires "volumeName" in item.content["spec"].fields
    requires item.content["spec"].fields["volumeName"] == Str("")
    ensures GetString(item.content, VolumeNamePath) == Ok("")
    ensures Execute(item, backup) == NothingToAdd
  {
    VolumeNameLookup(item.content);
  }

  /** A claim bound to volume `v` yields the item itself, unmodified, and the
      one cluster-scoped PersistentVolume named `v`. */
  lemma ExecuteBoundClaim<B>(item: Item, backup: B, v: string)
    requires "spec" in item.content && item.content["spec"].Map?
    requires "volumeName" in item.content["spec"].fields
    requires item.content["spec"].fields["volumeName"] == Str(v)
    requires v != ""
    ensures Execute(item, backup) == ExecuteResult(Some(item), [PVIdentifier(v)], None)
    ensures Execute(item, backup).additionalItems[0] ==
      ResourceIdentifier(GroupResource("", "persistentvolumes"), "", v)
  {
    VolumeNameLookup(item.content);
  }

  /** Two claims with the same spec.volumeName lookup produce the same
      additional items, and both or neither return their item. */
  lemma ExecuteDependsOnlyOnVolumeName<B>(a: Item, b: Item, backup: B)
    requires GetString(a.content, VolumeNamePath) == GetString(b.content, VolumeNamePath)
    ensures Execute(a, backup).additionalItems == Execute(b, backup).additionalItems
    ensures Execute(a, backup).item.Some? <==> Execute(b, backup).item.Some?
  {
  }

  /** Changing any top-level field other than `spec` does not change what
      Execute asks to back up. */
  lemma ExecuteIgnoresOtherFields<B>(item: Item, backup: B, k: string, v: Value)
    requires k != "spec"
    ensures Execute(Item(item.content[k := v]), backup).additionalItems
         == Execute(item, backup).additionalItems
  {
    VolumeNamePathKeys();
    WalkIgnoresOtherKeys(item.content, ["spec", "volumeName"], k, v);
  }

  /** The volumes Execute reports are never of a resource kind listed among
      the selector's included resources. */
  lemma ExecuteOutputOutsideSelector<B>(item: Item, backup: B)
    ensures forall id :: id in Execute(item, backup).additionalItems ==>
      id.groupResource.resource !in AppliesTo().0.includedResources
  {
  }
}
