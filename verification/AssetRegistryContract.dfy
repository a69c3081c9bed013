/** The registry as it runs: lists scanned, filtered and rebuilt, proved equal to its specification in AssetRegistry. */
module AssetRegistryContract {
  import opened RingBuffers
  import opened AssetRegistry

  datatype Result = Ok | Failed(error: Error)
  datatype Found = Nothing | Just(v: Version)

  /** Append to a list unless a scan finds the code already there. */
  method AddToList(list: seq<Code>, c: Code) returns (r: seq<Code>)
    ensures r == Added(list, c)
  {
    for i := 0 to |list|
      invariant c !in list[..i]
    {
      if list[i] == c { return list; }
    }
    r := list + [c];
  }

  /** Rebuild a list without a code. */
  method FilterOut(list: seq<Code>, c: Code) returns (r: seq<Code>, found: bool)
    ensures r == Removed(list, c) && (found <==> c in list)
  {
    r, found := [], false;
    for i := 0 to |list|
      invariant r == Removed(list[..i], c) && (found <==> c in list[..i])
    {
      assert list[..i + 1][..i] == list[..i];
      if list[i] == c { found := true; } else { r := r + [list[i]]; }
    }
    assert list[..|list|] == list;
  }

  class Contract {
    var meta: map<Code, Metadata>
    var versions: map<Code, seq<Version>>
    var list: seq<Code>
    var byCategory: map<Category, seq<Code>>
    var byStatus: map<Status, seq<Code>>
    var whitelist: seq<Code>
    var frozen: map<Code, bool>
    ghost var history: map<Code, seq<Version>>

    ghost function St(): State
      reads this
    {
      State(meta, versions, list, byCategory, byStatus, whitelist, frozen, history)
    }

    ghost predicate Ended(before: State, o: Outcome, r: Result)
      reads this
    {
      match o
      case Done(st) => St() == st && r == Ok
      case Err(error) => St() == before && r == Failed(error)
    }

    constructor ()
      ensures St() == Init
    {
      meta, versions, list, byCategory, byStatus := map[], map[], [], map[], map[];
      whitelist, frozen, history := [], map[], map[];
    }

    /** Store the record and its snapshot; a full list is first rebuilt without its oldest entry. */
    method SaveWithVersion(m: Metadata, admin: Address, reason: string, now: nat)
      modifies this`meta, this`versions, this`history
      ensures St() == Saved(old(St()), m, admin, reason, now)
    {
      meta := meta[m.code := m];
      var vs: seq<Version> := [];
      if m.code in versions { vs := versions[m.code]; }
      ghost var before := vs;
      if |vs| >= MAX_VERSIONS {
        var trimmed: seq<Version> := [];
        for i := 1 to |vs|
          invariant trimmed == vs[1..i]
        {
          trimmed := trimmed + [vs[i]];
        }
        vs := trimmed;
        assert vs == before[1..];
      }
      var entry := Version(m.version, m, admin, reason, now);
      vs := vs + [entry];
      versions := versions[m.code := vs];
      history := history[m.code := Listed(history, m.code) + [entry]];
    }

    method RegisterAsset(admin: Address, c: Code, texts: Texts, decimals: nat, category: Category, now: nat)
      returns (r: Result)
      modifies this
      ensures Ended(old(St()), Call(old(St()), Register(admin, c, texts, decimals, category, now)), r)
    {
      hide AddTo, Added, Removed, Listed, Saved;
      if whitelist != [] && c !in whitelist { return Failed(AssetNotWhitelisted); }
      if c in meta { return Failed(AssetAlreadyRegistered); }
      var m := Metadata(c, texts, decimals, category, PendingReview, Awaiting, Medium, 5_000, 1, now, now, admin);
      meta := meta[c := m];
      var entry := Version(1, m, admin, "Initial registration", now);
      versions := versions[c := [entry]];
      history := history[c := [entry]];
      list := list + [c];
      AddToCategory(category, c);
      AddToStatus(PendingReview, c);
      r := Ok;
    }

    method AddToCategory(k: Category, c: Code)
      modifies this`byCategory
      ensures byCategory == AddTo(old(byCategory), k, c)
    {
      var codes: seq<Code> := [];
      if k in byCategory { codes := byCategory[k]; }
      codes := AddToList(codes, c);
      byCategory := byCategory[k := codes];
    }

    method AddToStatus(k: Status, c: Code)
      modifies this`byStatus
      ensures byStatus == AddTo(old(byStatus), k, c)
    {
      var codes: seq<Code> := [];
      if k in byStatus { codes := byStatus[k]; }
      codes := AddToList(codes, c);
      byStatus := byStatus[k := codes];
    }

    method UpdateMetadata(admin: Address, c: Code, texts: Texts, reason: string, now: nat) returns (r: Result)
      modifies this
      ensures Ended(old(St()), Call(old(St()), Op.UpdateMetadata(admin, c, texts, reason, now)), r)
    {
      if c !in meta { return Failed(AssetNotFound); }
      var m := meta[c];
      if c in frozen && frozen[c] { return Failed(AssetFrozen); }
      if m.status == Deprecated { return Failed(AssetDeprecated); }
      m := m.(texts := texts);
      m := m.(version := m.version + 1);
      m := m.(updatedAt := now);
      SaveWithVersion(m, admin, reason, now);
      r := Ok;
    }

    method UpdateCategory(admin: Address, c: Code, category: Category, now: nat) returns (r: Result)
      modifies this
      ensures Ended(old(St()), Call(old(St()), Op.UpdateCategory(admin, c, category, now)), r)
    {
      hide AddTo, Removed, Saved;
      if c !in meta { return Failed(AssetNotFound); }
      var m := meta[c];
      var codes: seq<Code> := [];
      if m.category in byCategory { codes := byCategory[m.category]; }
      var found: bool;
      codes, found := FilterOut(codes, c);
      byCategory := byCategory[m.category := codes];
      m := m.(category := category);
      m := m.(version := m.version + 1, updatedAt := now);
      AddToCategory(category, c);
      SaveWithVersion(m, admin, "Category updated", now);
      r := Ok;
    }

    method UpdateRisk(admin: Address, c: Code, rating: Rating, bps: nat, now: nat) returns (r: Result)
      modifies this
      ensures Ended(old(St()), Call(old(St()), Op.UpdateRisk(admin, c, rating, bps, now)), r)
    {
      if bps > 10_000 { return Failed(InvalidRiskRating); }
      if c !in meta { return Failed(AssetNotFound); }
      var m := meta[c];
      m := m.(rating := rating, riskBps := bps);
      m := m.(version := m.version + 1, updatedAt := now);
      SaveWithVersion(m, admin, "Risk updated", now);
      r := Ok;
    }

    /** Index and record move together to a new status. */
    method ChangeStatus(admin: Address, c: Code, status: Status, reason: string, now: nat)
      requires c in meta
      modifies this`byStatus, this`meta, this`versions, this`history
      ensures St() == WithStatus(old(St()), admin, c, status, reason, now)
    {
      hide AddTo, Removed, Saved;
      var m := meta[c];
      var codes: seq<Code> := [];
      if m.status in byStatus { codes := byStatus[m.status]; }
      var found: bool;
      codes, found := FilterOut(codes, c);
      byStatus := byStatus[m.status := codes];
      AddToStatus(status, c);
      m := m.(status := status);
      m := m.(version := m.version + 1, updatedAt := now);
      SaveWithVersion(m, admin, reason, now);
    }

    method UpdateStatus(admin: Address, c: Code, status: Status, now: nat) returns (r: Result)
      modifies this
      ensures Ended(old(St()), Call(old(St()), Op.UpdateStatus(admin, c, status, now)), r)
    {
      if c !in meta { return Failed(AssetNotFound); }
      if !ValidTransition(meta[c].status, status) { return Failed(InvalidLifecycleTransition); }
      ChangeStatus(admin, c, status, "Status updated", now);
      r := Ok;
    }

    method DeactivateAsset(admin: Address, c: Code, reason: string, now: nat) returns (r: Result)
      modifies this
      ensures Ended(old(St()), Call(old(St()), Deactivate(admin, c, reason, now)), r)
    {
      if c !in meta { return Failed(AssetNotFound); }
      if meta[c].status != Active { return Failed(AssetAlreadyActive); }
      ChangeStatus(admin, c, Deactivated, reason, now);
      r := Ok;
    }

    method RestoreAsset(admin: Address, c: Code, now: nat) returns (r: Result)
      modifies this
      ensures Ended(old(St()), Call(old(St()), Restore(admin, c, now)), r)
    {
      if c !in meta { return Failed(AssetNotFound); }
      if meta[c].status != Deactivated { return Failed(AssetNotDeactivated); }
      ChangeStatus(admin, c, Active, "Asset restored", now);
      r := Ok;
    }

    method UpdateCompliance(admin: Address, c: Code, compliance: Compliance, now: nat) returns (r: Result)
      modifies this
      ensures Ended(old(St()), Call(old(St()), Op.UpdateCompliance(admin, c, compliance, now)), r)
    {
      if c !in meta { return Failed(AssetNotFound); }
      var m := meta[c];
      m := m.(compliance := compliance);
      m := m.(version := m.version + 1, updatedAt := now);
      SaveWithVersion(m, admin, "Compliance updated", now);
      r := Ok;
    }

    method WhitelistRemove(c: Code) returns (r: Result)
      modifies this
      ensures Ended(old(St()), Call(old(St()), Whitelist(c, false)), r)
    {
      var updated, found := FilterOut(whitelist, c);
      if !found { return Failed(AssetNotWhitelisted); }
      whitelist := updated;
      r := Ok;
    }

    method WhitelistAdd(c: Code) returns (r: Result)
      modifies this
      ensures Ended(old(St()), Call(old(St()), Whitelist(c, true)), r)
    {
      for i := 0 to |whitelist|
        invariant c !in whitelist[..i] && St() == old(St())
      {
        if whitelist[i] == c { return Failed(AssetAlreadyWhitelisted); }
      }
      whitelist := whitelist + [c];
      r := Ok;
    }

    method SetFrozen(c: Code, on: bool) returns (r: Result)
      modifies this
      ensures Ended(old(St()), Call(old(St()), Freeze(c, on)), r)
    {
      if c !in meta { return Failed(AssetNotFound); }
      frozen := frozen[c := on];
      r := Ok;
    }

    /** A linear search for a version: found exactly when the asset is registered and it is one of the last fifty, and
        then as it was saved. */
    method GetMetadataAtVersion(c: Code, version: nat) returns (r: Found)
      requires Inv(St())
      ensures r.Just? <==>
                c in meta && 1 <= version <= meta[c].version && meta[c].version - version < 50
      ensures r.Just? ==> r.v.version == version <= |Listed(history, c)| && r.v == Listed(history, c)[version - 1]
      ensures c in meta && version == meta[c].version ==> r.Just? && r.v.metadata == meta[c]
    {
      hide Inv;
      if c in meta { VersionsNumbered(St(), c); } else { UnregisteredHasNone(St(), c); }
      ghost var h := Listed(history, c);
      var vs: seq<Version> := [];
      if c in versions { vs := versions[c]; }
      ghost var skip := |h| - |vs|;
      assert c in meta && skip < version <= |h| ==> vs[version - 1 - skip].version == version;
      for i := 0 to |vs|
        invariant forall k :: 0 <= k < i ==> vs[k].version != version
      {
        if vs[i].version == version { return Just(vs[i]); }
      }
      r := Nothing;
    }
  }
}
