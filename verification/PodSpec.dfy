/** The pod manifest, and Spec.Validate: where the supervisor's unique ids come from. */
module PodSpec {
  import opened Common

  datatype Share = Share(tag: string, mountPoint: string, readonly: bool)

  datatype ShareMount = ShareMount(id: string, masters: seq<string>, volume: string, mountPoint: string, readonly: bool)

  datatype Mount = Mount(source: string, destination: string, kind: string, options: seq<string>)

  datatype Container = Container(id: string, restart: string, rootfsTag: string, mounts: seq<Mount>)

  datatype Spec = Spec(podId: string, containers: seq<Container>, shares: seq<Share>, shareMounts: seq<ShareMount>)

  predicate UniqueIds(containers: seq<Container>) {
    forall i, j | 0 <= i < j < |containers| :: containers[i].id != containers[j].id
  }

  predicate Declared(containers: seq<Container>, id: string) {
    exists i | 0 <= i < |containers| :: containers[i].id == id
  }

  datatype SpecError = NoPodId | NoContainers | NoId(i: nat) | DuplicateId(i: nat) | NoRootfsTag(i: nat)

  /** What is wrong with container i, the ones before it being right. */
  predicate Wrong(cs: seq<Container>, i: nat, e: SpecError) {
    && i < |cs|
    && (forall k | 0 <= k < i :: cs[k].id != "" && cs[k].rootfsTag != "")
    && UniqueIds(cs[..i])
    && if cs[i].id == "" then e == NoId(i)
       else if exists k | 0 <= k < i :: cs[k].id == cs[i].id then e == DuplicateId(i)
       else cs[i].rootfsTag == "" && e == NoRootfsTag(i)
  }

  method Validate(s: Spec) returns (e: Option<SpecError>)
    ensures e.None? <==>
            && s.podId != "" && s.containers != []
            && (forall j, k | 0 <= j < k < |s.containers| :: s.containers[j].id != s.containers[k].id)
            && forall k | 0 <= k < |s.containers| :: s.containers[k].id != "" && s.containers[k].rootfsTag != ""
    ensures s.podId == "" ==> e == Some(NoPodId)
    ensures s.podId != "" && s.containers == [] ==> e == Some(NoContainers)
    ensures e.Some? && s.podId != "" && s.containers != [] ==> exists i :: Wrong(s.containers, i, e.value)
    ensures e.Some? && e.value.NoId? ==> e.value.i < |s.containers| && s.containers[e.value.i].id == ""
    ensures e.Some? && e.value.DuplicateId? ==>
              && e.value.i < |s.containers|
              && exists k | 0 <= k < e.value.i :: s.containers[k].id == s.containers[e.value.i].id
    ensures e.Some? && e.value.NoRootfsTag? ==>
              e.value.i < |s.containers| && s.containers[e.value.i].rootfsTag == ""
  {
    if s.podId == "" {
      return Some(NoPodId);
    }
    if |s.containers| == 0 {
      return Some(NoContainers);
    }
    var cs := s.containers;
    var seen: set<string> := {};
    for i := 0 to |cs|
      invariant forall k | 0 <= k < i :: cs[k].id != "" && cs[k].rootfsTag != ""
      invariant UniqueIds(cs[..i])
      invariant forall id :: id in seen <==> exists k | 0 <= k < i :: cs[k].id == id
    {
      if cs[i].id == "" {
        assert Wrong(cs, i, NoId(i));
        return Some(NoId(i));
      }
      if cs[i].id in seen {
        assert Wrong(cs, i, DuplicateId(i));
        return Some(DuplicateId(i));
      }
      seen := seen + {cs[i].id};
      if cs[i].rootfsTag == "" {
        assert Wrong(cs, i, NoRootfsTag(i));
        return Some(NoRootfsTag(i));
      }
    }
    assert cs[..|cs|] == cs;
    return None;
  }
}
