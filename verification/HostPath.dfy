// The driver object: RPC methods that work on the store, the quota table and the node's
// mount points step by step. Each is proved to do exactly what module Driver says.
module HostPathDriver {
  import opened Base
  import opened Lists
  import opened Sorting
  import opened State
  import opened ProjectIDs
  import opened Quota
  import opened Sizes
  import opened Driver
  import opened Paging

  /** Positional sum of the first i + 1 records. */
  lemma SumNext<T>(s: seq<T>, f: T -> int, i: nat)
    requires i < |s|
    ensures SumBy(s[..i + 1], f) == SumBy(s[..i], f) + f(s[i])
  {
    assert s[..i + 1][..i] == s[..i];
  }

  class HostPath {
    const cfg: Config
    const store: Store
    const quotaer: Quotaer
    // The node's mount points, and the paths of volumes and snapshot archives that exist.
    var mounts: set<string>
    var files: set<string>

    constructor (cfg: Config, store: Store, quotaer: Quotaer, mounts: set<string>, files: set<string>)
      ensures this.cfg == cfg && this.store == store && this.quotaer == quotaer
      ensures this.mounts == mounts && this.files == files
    {
      this.cfg, this.store, this.quotaer, this.mounts, this.files := cfg, store, quotaer, mounts, files;
    }

    ghost predicate Valid()
      reads store, store.Arrays()
    {
      store.Valid()
    }

    ghost function View(): World
      reads this, store, quotaer
    {
      World(store.contents, store.file, store.clean, mounts, files, quotaer.View())
    }

    // ----- helpers under the mutex -----

    method SumVolumeSizes(kind: string) returns (sum: int64)
      requires Valid()
      ensures sum == Used(store.contents.volumes, kind)
    {
      var volumes := store.volumes;
      sum := 0;
      var i := 0;
      while i < |volumes|
        invariant i <= |volumes|
        invariant sum == Wrap64(SumBy(volumes[..i], KindSize(kind)))
      {
        SumNext(volumes, KindSize(kind), i);
        WrapAdd(SumBy(volumes[..i], KindSize(kind)), volumes[i].size);
        if volumes[i].kind == kind {
          sum := Wrap64(sum + volumes[i].size);
        }
        i := i + 1;
      }
      assert volumes[..i] == volumes;
    }

    /** The count stays far below the int64 limit, so it is kept exact. */
    method GetAttachCount() returns (count: int)
      requires Valid()
      ensures count == SumBy(store.contents.volumes, AttachedBit)
    {
      var volumes := store.volumes;
      count := 0;
      var i := 0;
      while i < |volumes|
        invariant i <= |volumes|
        invariant count == SumBy(volumes[..i], AttachedBit)
      {
        SumNext(volumes, AttachedBit, i);
        if volumes[i].attached {
          count := count + 1;
        }
        i := i + 1;
      }
      assert volumes[..i] == volumes;
    }

    /** The visiting order of the capacity map is the environment's choice. */
    method ChooseStorageKind(size: int64, requested: string, order: seq<string>) returns (c: Choice)
      requires Valid()
      ensures c == ChooseKind(cfg, store.contents.volumes, size, requested, order)
    {
      if size > cfg.maxVolumeSize {
        return Refused(OutOfRange);
      }
      var kind := requested;
      if cfg.capacity != map[] {
        if kind == "" {
          var i := 0;
          while i < |order|
            invariant i <= |order|
            invariant kind == ""
            invariant PickKind(cfg, store.contents.volumes, size, order)
              == PickKind(cfg, store.contents.volumes, size, order[i..])
          {
            var used := SumVolumeSizes(order[i]);
            if Wrap64(used + size) <= CapacityOf(cfg, order[i]) {
              kind := order[i];
              break;
            }
            assert order[i..][1..] == order[i + 1..];
            i := i + 1;
          }
        }
        if kind == "" {
          return Refused(ResourceExhausted);
        }
        var used := SumVolumeSizes(kind);
        if Wrap64(used + size) > CapacityOf(cfg, kind) {
          return Refused(ResourceExhausted);
        }
      } else if kind != "" {
        return Refused(InvalidArgument);
      }
      return Chosen(kind);
    }

    method AllocateVolume(id: string, name: string, size: int64, access: AccessType, ephemeral: bool,
                          requested: string, env: Env)
      returns (failure: Option<Code>)
      requires Valid() && HasFree(TableOf(quotaer.View()))
      modifies this`files, store`volumes, store`contents, store`file, store`clean, quotaer
      ensures Valid()
      ensures (View(), failure) == Allocate(cfg, old(View()), id, name, size, access, ephemeral, requested, env)
    {
      hide SizeText, Adding, ChooseKind, Put, IndexBy, HasFree, Separate, ValuesOf, ArraysOf;
      var choice := ChooseStorageKind(size, requested, env.order);
      if choice.Refused? {
        return Some(choice.code);
      }
      var path := PathOf(cfg, id);
      if !env.filesOK {
        if access == BlockAccess && env.remains {
          files := files + {path};
        }
        return Some(Unknown);
      }
      files := files + {path};
      var volume := Volume(name, id, size, path, access, "", "", ephemeral, "", choice.kind, false, false, [], []);
      var saved := store.UpdateVolume(volume, env.written);
      if !saved {
        return Some(Internal);
      }
      // Runs when the function returns: a failure to set the quota is not reported.
      var cap := ConvertBytesToString(size as real);
      var project, added := quotaer.AddProject(path, cap, env.quota);
      return None;
    }

    method ReleaseVolume(id: string, written: bool, env: Env) returns (failure: Option<Code>)
      requires Valid()
      modifies this`files, store`volumes, store`contents, store`file, store`clean, quotaer
      ensures Valid()
      ensures (View(), failure) == Release(cfg, old(View()), id, written, env)
    {
      hide Drop, Removing, Separate, ValuesOf, ArraysOf;
      var v := store.GetVolumeByID(id);
      if v.None? {
        return None;
      }
      if v.value.access == BlockAccess && !env.detachOK {
        return Some(Unknown);
      }
      if !env.removeOK {
        return Some(Unknown);
      }
      files := files - {PathOf(cfg, id)};
      var deleted := store.DeleteVolume(id, written);
      if !deleted {
        return Some(Internal);
      }
      var removed := quotaer.RemoveProject(PathOf(cfg, id), env.quota);
      return None;
    }

    method Load(size: int64, source: Source, access: AccessType, loadOK: bool) returns (failure: Option<Code>)
      requires Valid()
      ensures failure == LoadContent(store.contents, size, source, access, loadOK)
    {
      match source {
        case NoSource => return None;
        case UnknownSource => return Some(InvalidArgument);
        case FromSnapshot(id) =>
          var s := store.GetSnapshotByID(id);
          if s.None? { return Some(NotFound); }
          if !s.value.ready { return Some(Unknown); }
          if s.value.size > size { return Some(InvalidArgument); }
        case FromVolume(id) =>
          var v := store.GetVolumeByID(id);
          if v.None? { return Some(NotFound); }
          if v.value.size > size { return Some(InvalidArgument); }
          if access != v.value.access { return Some(InvalidArgument); }
      }
      return if loadOK then None else Some(Unknown);
    }

    // ----- controller -----

    method AccessTypes(caps: seq<Capability>) returns (block: bool, mount: bool)
      ensures block <==> Block in caps
      ensures mount <==> Mount in caps
    {
      block, mount := false, false;
      var i := 0;
      while i < |caps|
        invariant i <= |caps|
        invariant block <==> Block in caps[..i]
        invariant mount <==> Mount in caps[..i]
      {
        if caps[i] == Block {
          block := true;
        }
        if caps[i] == Mount {
          mount := true;
        }
        i := i + 1;
      }
      assert caps[..i] == caps;
    }

    method CreateVolume(name: string, caps: seq<Capability>, size: int64, kind: string, source: Source, env: Env)
      returns (r: Reply)
      requires Valid() && HasFree(TableOf(quotaer.View()))
      modifies this`files, store`volumes, store`contents, store`file, store`clean, quotaer
      ensures Valid()
      ensures (View(), r) == Driver.CreateVolume(cfg, old(View()), name, caps, size, kind, source, env)
    {
      if cfg.ephemeral || name == "" || caps == [] {
        return Failed(InvalidArgument);
      }
      var block, mount := AccessTypes(caps);
      if block && mount {
        return Failed(InvalidArgument);
      }
      var access := if block then BlockAccess else MountAccess;
      var found := store.GetVolumeByName(name);
      if found.Some? {
        return AnswerExisting(found.value, size, source);
      }
      r := CreateFresh(name, access, size, kind, source, env);
    }

    /** Creates a volume and fills it; if filling fails it is deleted again. */
    method CreateFresh(name: string, access: AccessType, size: int64, kind: string, source: Source, env: Env)
      returns (r: Reply)
      requires Valid() && HasFree(TableOf(quotaer.View()))
      modifies this`files, store`volumes, store`contents, store`file, store`clean, quotaer
      ensures Valid()
      ensures (View(), r) == FreshVolume(cfg, old(View()), name, access, size, kind, source, env)
    {
      var failure := AllocateVolume(env.uuid, name, size, access, false, kind, env);
      if failure.Some? {
        return Failed(failure.value);
      }
      var load := Load(size, source, access, env.loadOK);
      if load.Some? {
        var cleanup := ReleaseVolume(env.uuid, env.writtenAgain, env);
        return Failed(load.value);
      }
      return VolumeIs(env.uuid, size);
    }

    method DeleteVolume(id: string, env: Env) returns (r: Reply)
      requires Valid()
      modifies this`files, store`volumes, store`contents, store`file, store`clean, quotaer
      ensures Valid()
      ensures (View(), r) == Driver.DeleteVolume(cfg, old(View()), id, env)
    {
      if id == "" || cfg.ephemeral {
        return Failed(InvalidArgument);
      }
      var v := store.GetVolumeByID(id);
      if v.None? {
        return Done;
      }
      if (v.value.attached || v.value.published != [] || v.value.staged != []) && cfg.checkVolumeLifecycle {
        return Failed(Internal);
      }
      var failure := ReleaseVolume(id, env.written, env);
      return if failure.Some? then Failed(failure.value) else Done;
    }

    method ControllerPublishVolume(id: string, nodeID: string, hasCap: bool, readonly: bool, env: Env)
      returns (r: Reply)
      requires Valid()
      modifies store`volumes, store`contents, store`file, store`clean
      ensures Valid()
      ensures (View(), r) == ControllerPublish(cfg, old(View()), id, nodeID, hasCap, readonly, env)
    {
      if !cfg.enableAttach {
        return Failed(Unimplemented);
      }
      if id == "" || nodeID == "" || !hasCap {
        return Failed(InvalidArgument);
      }
      if nodeID != cfg.nodeID {
        return Failed(NotFound);
      }
      var v := store.GetVolumeByID(id);
      if v.None? {
        return Failed(NotFound);
      }
      if v.value.attached {
        return if readonly != v.value.readOnlyAttach then Failed(AlreadyExists) else Done;
      }
      if cfg.attachLimit > 0 {
        var count := GetAttachCount();
        if count >= cfg.attachLimit {
          return Failed(ResourceExhausted);
        }
      }
      var vol := v.value.(attached := true, readOnlyAttach := readonly);
      var saved := store.UpdateVolume(vol, env.written);
      return if saved then Done else Failed(Internal);
    }

    method ControllerUnpublishVolume(id: string, nodeID: string, env: Env) returns (r: Reply)
      requires Valid()
      modifies store`volumes, store`contents, store`file, store`clean
      ensures Valid()
      ensures (View(), r) == ControllerUnpublish(cfg, old(View()), id, nodeID, env)
    {
      if !cfg.enableAttach {
        return Failed(Unimplemented);
      }
      if id == "" {
        return Failed(InvalidArgument);
      }
      if nodeID != "" && nodeID != cfg.nodeID {
        return Failed(NotFound);
      }
      var v := store.GetVolumeByID(id);
      if v.None? {
        return Done;
      }
      if InUse(v.value) && cfg.checkVolumeLifecycle {
        return Failed(Internal);
      }
      var vol := v.value.(attached := false);
      var saved := store.UpdateVolume(vol, env.written);
      return if saved then Done else Failed(Internal);
    }

    method GetCapacity(kind: string) returns (available: int64, maximum: int64)
      requires Valid()
      ensures (available, maximum) == ReportedCapacity(cfg, View().res.volumes, kind)
    {
      available := cfg.maxVolumeSize;
      if cfg.capacity != map[] {
        var used := SumVolumeSizes(kind);
        available := Wrap64(CapacityOf(cfg, kind) - used);
      }
      maximum := cfg.maxVolumeSize;
      if maximum > available {
        maximum := available;
      }
    }

    method ControllerExpandVolume(id: string, capRange: Option<int64>, env: Env) returns (r: Reply)
      requires Valid()
      modifies store`volumes, store`contents, store`file, store`clean
      ensures Valid()
      ensures (View(), r) == ControllerExpand(cfg, old(View()), id, capRange, env)
    {
      if !cfg.enableVolumeExpansion {
        return Failed(Unimplemented);
      }
      if id == "" || capRange.None? {
        return Failed(InvalidArgument);
      }
      if capRange.value > cfg.maxVolumeSize {
        return Failed(OutOfRange);
      }
      var v := store.GetVolumeByID(id);
      if v.None? {
        return Failed(NotFound);
      }
      var vol := v.value;
      if vol.size < capRange.value {
        vol := vol.(size := capRange.value);
        var saved := store.UpdateVolume(vol, env.written);
        if !saved {
          return Failed(Internal);
        }
      }
      return ExpandedTo(vol.size);
    }

    // ----- snapshots -----

    method CreateSnapshot(name: string, volID: string, env: Env) returns (r: Reply)
      requires Valid()
      modifies this`files, store`snapshots, store`contents, store`file, store`clean
      ensures Valid()
      ensures (View(), r) == Driver.CreateSnapshot(cfg, old(View()), name, volID, env)
    {
      hide Put, Separate, ValuesOf, ArraysOf;
      if cfg.ephemeral || name == "" || volID == "" {
        return Failed(InvalidArgument);
      }
      var s := store.GetSnapshotByName(name);
      if s.Some? {
        if s.value.volID == volID {
          return SnapshotIs(Listing(s.value.id, s.value.volID, s.value.creationTime, s.value.size, s.value.ready, ""));
        }
        return Failed(AlreadyExists);
      }
      var v := store.GetVolumeByID(volID);
      if v.None? {
        return Failed(NotFound);
      }
      var path := SnapshotPathOf(cfg, env.uuid);
      if !env.filesOK {
        if env.remains {
          files := files + {path};
        }
        return Failed(Unknown);
      }
      files := files + {path};
      var snapshot := Snapshot(name, env.uuid, volID, path, env.now, v.value.size, true, "");
      var saved := store.UpdateSnapshot(snapshot, env.written);
      return if saved then SnapshotIs(ListingOf(snapshot)) else Failed(Internal);
    }

    method DeleteSnapshot(id: string, env: Env) returns (r: Reply)
      requires Valid()
      modifies this`files, store`snapshots, store`contents, store`file, store`clean
      ensures Valid()
      ensures (View(), r) == Driver.DeleteSnapshot(cfg, old(View()), id, env)
    {
      if id == "" || cfg.ephemeral {
        return Failed(InvalidArgument);
      }
      var found := store.GetSnapshotByID(id);
      var groupID := if found.Some? then found.value.groupID else "";
      if found.None? && groupID != "" {
        return Failed(InvalidArgument);
      }
      var deleted := RemoveWithArchive(id, Outcome(env.removals, 0), env.written);
      return if deleted then Done else Failed(Internal);
    }

    /** Removes the archive, where a failure is ignored, and then the record. */
    method RemoveWithArchive(id: string, removed: bool, written: bool) returns (ok: bool)
      requires Valid()
      modifies this`files, store`snapshots, store`contents, store`file, store`clean
      ensures Valid() && View().res.groups == old(View()).res.groups
      ensures View() == RemoveSnapshot(cfg, old(View()), id, removed, written)
      ensures ok <==> Find(old(View()).res.snapshots, SnapshotID, id).None? || written
    {
      hide IndexBy, Separate, ValuesOf, ArraysOf;
      if removed {
        files := files - {SnapshotPathOf(cfg, id)};
      }
      ok := store.DeleteSnapshot(id, written);
    }

    method FirstOfVolume(volID: string) returns (s: Option<Snapshot>)
      requires Valid()
      ensures s == Find(store.contents.snapshots, SnapshotVolume, volID)
    {
      var all := store.snapshots;
      var i := 0;
      while i < |all|
        invariant i <= |all|
        invariant forall j :: 0 <= j < i ==> SnapshotVolume(all[j]) != volID
      {
        if all[i].volID == volID {
          IndexIs(all, SnapshotVolume, volID, i);
          return Some(all[i]);
        }
        i := i + 1;
      }
      return None;
    }

    /** Lists snapshots; positions are int32, so there must be fewer than 2^31 of them. */
    method ListSnapshots(id: string, volID: string, maxEntries: nat, token: string) returns (page: Page)
      requires Valid() && |View().res.snapshots| < TWO31 && TokenFits(token)
      ensures page == List(cfg, View().res.snapshots, id, volID, maxEntries, token)
    {
      if cfg.ephemeral {
        return PageFailed(InvalidArgument);
      }
      if id != "" || volID != "" {
        var found;
        if id != "" {
          found := store.GetSnapshotByID(id);
        } else {
          found := FirstOfVolume(volID);
        }
        return PageOf(if found.Some? then [ListingOf(found.value)] else [], "");
      }
      page := ReadPage(SortedListings(store.snapshots), maxEntries, token);
    }

    // ----- node -----

    method NodeStageVolume(id: string, staging: string, hasCap: bool, env: Env) returns (r: Reply)
      requires Valid()
      modifies store`volumes, store`contents, store`file, store`clean
      ensures Valid()
      ensures (View(), r) == NodeStage(cfg, old(View()), id, staging, hasCap, env)
    {
      if id == "" || staging == "" || !hasCap {
        return Failed(InvalidArgument);
      }
      var v := store.GetVolumeByID(id);
      if v.None? {
        return Failed(NotFound);
      }
      var vol := v.value;
      if cfg.enableAttach && !vol.attached {
        return Failed(Internal);
      }
      if staging in vol.staged {
        return Done;
      }
      if vol.staged != [] {
        return Failed(FailedPrecondition);
      }
      vol := vol.(staged := vol.staged + [staging]);
      var saved := store.UpdateVolume(vol, env.written);
      return if saved then Done else Failed(Internal);
    }

    method NodeUnstageVolume(id: string, staging: string, env: Env) returns (r: Reply)
      requires Valid()
      modifies store`volumes, store`contents, store`file, store`clean
      ensures Valid()
      ensures (View(), r) == NodeUnstage(cfg, old(View()), id, staging, env)
    {
      if id == "" || staging == "" {
        return Failed(InvalidArgument);
      }
      var v := store.GetVolumeByID(id);
      if v.None? {
        return Failed(NotFound);
      }
      var vol := v.value;
      if staging !in vol.staged {
        return Done;
      }
      if vol.published != [] {
        return Failed(Internal);
      }
      vol := vol.(staged := Drop(vol.staged, Self, staging));
      var saved := store.UpdateVolume(vol, env.written);
      return if saved then Done else Failed(Internal);
    }

    method IsMountedElsewhere(v: Volume, target: string) returns (elsewhere: bool)
      ensures elsewhere <==> MountedElsewhere(v, target)
    {
      var i := 0;
      while i < |v.published|
        invariant i <= |v.published|
        invariant forall j :: 0 <= j < i ==> v.published[j] == target
      {
        if v.published[i] != target {
          return true;
        }
        i := i + 1;
      }
      return false;
    }

    method NodePublishVolume(id: string, target: string, staging: string, cap: Option<Capability>, singleWriter: bool,
                             context: string, kind: string, env: Env) returns (r: Reply)
      requires Valid() && HasFree(TableOf(quotaer.View()))
      modifies this, store`volumes, store`contents, store`file, store`clean, quotaer
      ensures Valid()
      ensures (View(), r) == NodePublish(cfg, old(View()), id, target, staging, cap, singleWriter, context, kind, env)
    {
      if cap.None? || id == "" || target == "" {
        return Failed(InvalidArgument);
      }
      var ephemeral := context == "true" || (context == "" && cfg.ephemeral);
      if ephemeral {
        var named := store.GetVolumeByName(EphemeralName(id));
        if named.None? {
          var failure := AllocateVolume(id, EphemeralName(id), EPHEMERAL_SIZE, MountAccess, ephemeral, kind, env);
          if failure.Some? {
            return Failed(failure.value);
          }
        }
      }
      r := PublishAt(id, target, staging, cap.value, singleWriter, ephemeral, env);
    }

    /** Mounts the volume unless that fails or the target is mounted already; without an
        access type nothing is mounted. An early answer ends the call. If it is that the directory of
        an ephemeral volume could not be mounted, the directory is removed. */
    method MountTarget(id: string, v: Volume, cap: Capability, target: string, env: Env)
      returns (early: Option<Reply>)
      modifies this`mounts, this`files
      ensures early == MountReply(old(mounts), PathOf(cfg, id) in old(files), v.access, cap, target, env)
      ensures mounts == if early.None? && cap != NoAccessType then old(mounts) + {target} else old(mounts)
      ensures files == if RemovesDirectory(old(mounts), PathOf(cfg, id) in old(files), v, cap, target, env)
                       then old(files) - {PathOf(cfg, id)} else old(files)
    {
      var path := PathOf(cfg, id);
      if cap == Block {
        if v.access != BlockAccess {
          return Some(Failed(InvalidArgument));
        }
        if path !in files || !env.loopOK || !env.targetOK || !env.checkOK {
          return Some(Failed(Unknown));
        }
        if target in mounts {
          return Some(Done);
        }
        if !env.mountOK {
          return Some(Failed(Unknown));
        }
        mounts := mounts + {target};
      } else if cap == Mount {
        if v.access != MountAccess {
          return Some(Failed(InvalidArgument));
        }
        if !env.checkOK {
          return Some(Failed(Unknown));
        }
        if target in mounts {
          return Some(Done);
        }
        if path !in files || !env.mountOK {
          if v.ephemeral && env.removeOK {
            files := files - {path};
          }
          return Some(Failed(Unknown));
        }
        mounts := mounts + {target};
      }
      return None;
    }

    method CheckPublish(v: Volume, target: string, staging: string, singleWriter: bool, ephemeral: bool)
      returns (refusal: Option<Code>)
      ensures refusal == PublishRefusal(v, target, staging, singleWriter, ephemeral)
    {
      if singleWriter {
        var elsewhere := IsMountedElsewhere(v, target);
        if elsewhere {
          return Some(FailedPrecondition);
        }
      }
      if !ephemeral {
        if v.staged == [] {
          return Some(FailedPrecondition);
        }
        if staging !in v.staged {
          return Some(InvalidArgument);
        }
      }
      return None;
    }

    method PublishAt(id: string, target: string, staging: string, cap: Capability, singleWriter: bool,
                     ephemeral: bool, env: Env)
      returns (r: Reply)
      requires Valid()
      modifies this, store`volumes, store`contents, store`file, store`clean
      ensures Valid()
      ensures (View(), r) == Publish(cfg, old(View()), id, target, staging, cap, singleWriter, ephemeral, env)
    {
      hide Put, PublishRefusal, Separate, ValuesOf, ArraysOf;
      var v := store.GetVolumeByID(id);
      if v.None? {
        return Failed(NotFound);
      }
      var vol := v.value;
      var refusal := CheckPublish(vol, target, staging, singleWriter, ephemeral);
      if refusal.Some? {
        return Failed(refusal.value);
      }
      var early := MountTarget(id, vol, cap, target, env);
      if early.Some? {
        return early.value;
      }
      vol := vol.(nodeID := cfg.nodeID, published := vol.published + [target]);
      var saved := store.UpdateVolume(vol, env.writtenAgain);
      return if saved then Done else Failed(Internal);
    }

    method NodeUnpublishVolume(id: string, target: string, env: Env) returns (r: Reply)
      requires Valid()
      modifies this, store`volumes, store`contents, store`file, store`clean, quotaer
      ensures Valid()
      ensures (View(), r) == NodeUnpublish(cfg, old(View()), id, target, env)
    {
      if id == "" || target == "" {
        return Failed(InvalidArgument);
      }
      var v := store.GetVolumeByID(id);
      if v.None? {
        return Failed(NotFound);
      }
      var vol := v.value;
      if target !in vol.published {
        return Done;
      }
      if !env.checkOK {
        return Failed(Unknown);
      }
      if target in mounts {
        if !env.unmountOK {
          return Failed(Unknown);
        }
        mounts := mounts - {target};
      }
      assert mounts == old(mounts) - {target};
      if !env.targetRemoved {
        return Failed(Unknown);
      }
      if vol.ephemeral {
        var failure := ReleaseVolume(id, env.written, env);
        return if failure.Some? then Failed(failure.value) else Done;
      }
      vol := vol.(published := Drop(vol.published, Self, target));
      var saved := store.UpdateVolume(vol, env.written);
      return if saved then Done else Failed(Internal);
    }

    method NodeExpandVolume(id: string, path: string, capRange: Option<int64>, env: Env) returns (r: Reply)
      requires Valid()
      modifies quotaer
      ensures Valid()
      ensures (View(), r) == NodeExpand(cfg, old(View()), id, path, capRange, env)
    {
      hide Resizing, SizeText, IndexBy, Separate, ValuesOf, ArraysOf;
      if !cfg.enableVolumeExpansion {
        return Failed(Unimplemented);
      }
      if id == "" {
        return Failed(InvalidArgument);
      }
      var v := store.GetVolumeByID(id);
      if v.None? {
        return Failed(NotFound);
      }
      if path == "" || capRange.None? {
        return Failed(InvalidArgument);
      }
      if capRange.value > cfg.maxExpansionSizeNode {
        return Failed(OutOfRange);
      }
      match env.pathKind {
        case Directory => if v.value.access != MountAccess { return Failed(InvalidArgument); }
        case Device => if v.value.access != BlockAccess { return Failed(InvalidArgument); }
        case _ => return Failed(InvalidArgument);
      }
      var cap := ConvertBytesToString(capRange.value as real);
      var updated := quotaer.UpdateQuota(PathOf(cfg, id), cap, env.quota);
      return if updated then Done else Failed(Unknown);
    }

    // ----- group snapshots -----

    method CollectMembers(ids: seq<string>) returns (ms: Option<seq<Snapshot>>)
      requires Valid()
      ensures ms == Members(store.contents.snapshots, ids)
    {
      var found: seq<Snapshot> := [];
      var i := 0;
      while i < |ids|
        invariant i <= |ids|
        invariant Members(store.contents.snapshots, ids[..i]) == Some(found)
      {
        assert ids[..i + 1][..i] == ids[..i];
        var s := store.GetSnapshotByID(ids[i]);
        if s.None? {
          MissingMember(store.contents.snapshots, ids, i + 1);
          return None;
        }
        found := found + [s.value];
        i := i + 1;
      }
      assert ids[..i] == ids;
      return Some(found);
    }

    /** The request's list is an array of its own; comparing sorts it. */
    method CreateVolumeGroupSnapshot(name: string, sources: array<string>, env: Env) returns (r: Reply)
      requires Valid() && sources !in store.Arrays() && sources.Length <= |env.memberIDs|
      modifies this`files, store`snapshots, store`groups, store`contents, store`file, store`clean
      modifies store.Arrays(), sources
      ensures Valid()
      ensures (View(), r) == CreateGroup(cfg, old(View()), name, old(sources[..]), env)
    {
      if name == "" || sources.Length == 0 {
        return Failed(InvalidArgument);
      }
      var g := store.GetGroupSnapshotByName(name);
      if g.None? {
        r := CreateNewGroup(name, sources, env);
        return;
      }
      r := RepeatGroup(name, sources, g.value);
    }

    /** A group of that name exists already. */
    method RepeatGroup(name: string, sources: array<string>, g: GroupRecord) returns (r: Reply)
      requires Valid() && sources !in store.Arrays()
      requires IndexBy(store.contents.groups, GroupName, name) < |store.groups|
      requires g == store.groups[IndexBy(store.contents.groups, GroupName, name)]
      modifies store`contents, store.Arrays(), sources
      ensures Valid()
      ensures var i := IndexBy(old(store.contents.groups), GroupName, name);
        (View(), r) == KnownGroup(cfg, old(View()), i, old(sources[..]))
    {
      hide Members, Listings, SortedUnlessLengthDiffers, ValuesOf, AllReady;
      var i := IndexBy(store.groups, RecordName, name);
      IndexOfNamedValue(store.groups, name);
      assert g.sourceVolumeIDs as object in store.Arrays() && g.snapshotIDs as object in store.Arrays();
      var same := store.MatchesSourceVolumeIDs(i, sources);
      if !same {
        return Failed(AlreadyExists);
      }
      assert g.snapshotIDs[..] == ValueOf(store.groups[i]).snapshotIDs;
      var ms := CollectMembers(g.snapshotIDs[..]);
      r := MembersReply(g.id, ms, false, g.creationTime, ms.Some? && AllReady(ms.value));
    }

    method AddMember(name: string, source: string, i: nat, env: Env) returns (failure: Option<Code>, listing: Listing)
      requires Valid() && i < |env.memberIDs|
      modifies this`files, store`snapshots, store`contents, store`file, store`clean
      ensures Valid()
      ensures (View(), failure) == Driver.AddMember(cfg, old(View()), name, source, i, env)
      ensures failure.None? ==> listing == NewListing(View().res.volumes, source, env.memberIDs[i], env)
    {
      listing := Listing("", "", 0, 0, false, "");
      var v := store.GetVolumeByID(source);
      if v.None? {
        return Some(NotFound), listing;
      }
      var path := SnapshotPathOf(cfg, env.memberIDs[i]);
      if !Outcome(env.archives, i) {
        if env.remains {
          files := files + {path};
        }
        return Some(Unknown), listing;
      }
      files := files + {path};
      var s := MemberOf(cfg, name, env.uuid, v.value, source, env.memberIDs[i], env.now);
      var ignored := store.UpdateSnapshot(s, Outcome(env.writes, i));
      return None, Listing(env.memberIDs[i], source, env.now, v.value.size, true, env.uuid);
    }

    /** Makes one snapshot per source volume and notes its ID; write errors go unnoticed. */
    method AddGroupMembers(name: string, sources: seq<string>, ids: array<string>, env: Env)
      returns (failure: Option<Code>, listings: seq<Listing>)
      requires Valid() && ids.Length == |sources| <= |env.memberIDs|
      requires ids !in store.Arrays()
      modifies this`files, store`snapshots, store`contents, store`file, store`clean, ids
      ensures Valid()
      ensures (View(), failure) == AddMembers(cfg, old(View()), name, sources, 0, env)
      ensures failure.None? ==> ids[..] == env.memberIDs[..|sources|]
      ensures failure.None? ==> listings == NewListings(View().res.volumes, sources, env.memberIDs[..|sources|], env)
    {
      listings := [];
      var i := 0;
      while i < |sources|
        invariant i <= |sources|
        invariant Valid() && store.volumes == old(store.volumes)
        invariant AddMembers(cfg, View(), name, sources, i, env) == AddMembers(cfg, old(View()), name, sources, 0, env)
        invariant ids[..i] == env.memberIDs[..i]
        invariant listings == NewListings(store.volumes, sources[..i], env.memberIDs[..i], env)
      {
        var listing;
        failure, listing := AddMember(name, sources[i], i, env);
        if failure.Some? {
          return;
        }
        ids[i] := env.memberIDs[i];
        NewListingsNext(store.volumes, sources, i, env);
        listings := listings + [listing];
        i := i + 1;
      }
      assert sources[..i] == sources;
      failure := None;
    }

    method CreateNewGroup(name: string, sources: array<string>, env: Env) returns (r: Reply)
      requires Valid() && 0 < sources.Length <= |env.memberIDs|
      modifies this`files, store`snapshots, store`groups, store`contents, store`file, store`clean
      ensures Valid()
      ensures (View(), r) == NewGroup(cfg, old(View()), name, sources[..], env)
    {
      hide AddMembers, NewListings, Put;
      var wanted := sources[..];
      var ids := new string[|wanted|](_ => "");
      var copied := ArrayOf(wanted);
      var failure, listings := AddGroupMembers(name, wanted, ids, env);
      if failure.Some? {
        return Failed(failure.value);
      }
      var g := GroupRecord(name, env.uuid, ids, copied, env.now, true);
      SeparatePut(store.groups, g);
      var saved := store.UpdateGroupSnapshot(g, env.written);
      return if saved then GroupIs(env.uuid, listings, env.now, true) else Failed(Internal);
    }

    method DeleteMembers(members: array<string>, env: Env) returns (ok: bool)
      requires Valid()
      modifies this`files, store`snapshots, store`contents, store`file, store`clean
      ensures Valid() && View().res.groups == old(View()).res.groups
      ensures (View(), ok) == DropMembers(cfg, old(View()), members[..], 0, env)
    {
      hide RemoveSnapshot, Separate, ValuesOf, ArraysOf;
      ghost var ids := members[..];
      var i := 0;
      while i < members.Length
        invariant i <= members.Length && members[..] == ids
        invariant Valid() && View().res.groups == old(View()).res.groups
        invariant DropMembers(cfg, View(), ids, i, env) == DropMembers(cfg, old(View()), ids, 0, env)
      {
        assert members[i] == ids[i];
        var deleted := RemoveWithArchive(members[i], Outcome(env.removals, i), Outcome(env.writes, i));
        if !deleted {
          return false;
        }
        i := i + 1;
      }
      ok := true;
    }

    method DeleteVolumeGroupSnapshot(id: string, env: Env) returns (r: Reply)
      requires Valid()
      modifies this`files, store`snapshots, store`groups, store`contents, store`file, store`clean
      ensures Valid()
      ensures (View(), r) == DeleteGroup(cfg, old(View()), id, env)
    {
      hide DropMembers, Drop, Separate;
      if id == "" {
        return Failed(InvalidArgument);
      }
      var g := store.GetGroupSnapshotByID(id);
      if g.None? {
        return Done;
      }
      IndexOfValue(store.groups, id);
      var gone := DeleteMembers(g.value.snapshotIDs, env);
      if !gone {
        return Failed(Internal);
      }
      var deleted := store.DeleteGroupSnapshot(id, env.written);
      return if deleted then Done else Failed(Internal);
    }

    method GetVolumeGroupSnapshot(id: string, ids: array<string>) returns (r: Reply)
      requires Valid() && ids !in store.Arrays()
      modifies store`contents, store.Arrays(), ids
      ensures Valid()
      ensures (View(), r) == GetGroup(cfg, old(View()), id, old(ids[..]))
    {
      hide ReadGroup, Separate;
      if id == "" {
        return Failed(InvalidArgument);
      }
      var g := store.GetGroupSnapshotByID(id);
      if g.None? {
        return Failed(NotFound);
      }
      r := DescribeGroup(id, ids, g.value);
    }

    /** The group exists. */
    method DescribeGroup(id: string, ids: array<string>, g: GroupRecord) returns (r: Reply)
      requires Valid() && ids !in store.Arrays()
      requires IndexBy(store.contents.groups, GroupID, id) < |store.groups|
      requires g == store.groups[IndexBy(store.contents.groups, GroupID, id)]
      modifies store`contents, store.Arrays(), ids
      ensures Valid()
      ensures var i := IndexBy(old(store.contents.groups), GroupID, id);
        (View(), r) == ReadGroup(old(View()), i, old(ids[..]))
    {
      hide Members, Listings, SortedUnlessLengthDiffers, ValuesOf;
      var i := IndexBy(store.groups, RecordID, id);
      IndexOfValue(store.groups, id);
      assert g.snapshotIDs as object in store.Arrays();
      var same := store.MatchesSnapshotIDs(i, ids);
      if !same {
        return Failed(InvalidArgument);
      }
      assert g.snapshotIDs[..] == ValueOf(store.groups[i]).snapshotIDs;
      var ms := CollectMembers(g.snapshotIDs[..]);
      r := MembersReply(g.id, ms, true, g.creationTime, g.ready);
    }
  }

  lemma NewListingsNext(vs: seq<Volume>, sources: seq<string>, i: nat, env: Env)
    requires i < |sources| <= |env.memberIDs|
    ensures NewListings(vs, sources[..i + 1], env.memberIDs[..i + 1], env)
         == NewListings(vs, sources[..i], env.memberIDs[..i], env) + [NewListing(vs, sources[i], env.memberIDs[i], env)]
  {
  }

  lemma {:induction false} MissingMember(snapshots: seq<Snapshot>, ids: seq<string>, i: nat)
    requires i <= |ids| && Members(snapshots, ids[..i]).None?
    ensures Members(snapshots, ids).None?
    decreases |ids| - i
  {
    if i == |ids| {
      assert ids[..i] == ids;
    } else {
      assert ids[..i + 1][..i] == ids[..i];
      MissingMember(snapshots, ids, i + 1);
    }
  }

  /** Start-up: the store reads the state file, the quota table the projects file. A state file that
      cannot be read or decoded ends it before anything has been touched. */
  method NewHostPathDriver(cfg: Config, file: Option<Resources>, readable: bool, text: string,
                           mounts: set<string>, files: set<string>, o: Outcomes)
    returns (hp: Option<HostPath>)
    ensures hp.Some? <==> readable
    ensures readable ==> hp.value.Valid() && hp.value.cfg == cfg
    ensures readable ==> hp.value.View() == Start(file, mounts, files, text, o)
  {
    if !readable {
      return None;
    }
    var store := new Store(file);
    var quotaer := NewQuotaer(text, files, o);
    var driver := new HostPath(cfg, store, quotaer, mounts, files);
    return Some(driver);
  }
}
