/** The asset registry: metadata, its version history, and the indexes that must agree with it. */
module AssetRegistry {
  import opened RingBuffers

  type Address = nat
  type Code = string

  const MAX_VERSIONS := 50

  datatype Category = Stablecoin | RealWorldAsset | Native | Bridged | Wrapped | Other
  datatype Status = Active | Paused | Deprecated | PendingReview | Deactivated
  datatype Compliance = Compliant | UnderReview | NonCompliant | Awaiting | Exempt
  datatype Rating = Low | Medium | High | Critical

  datatype Texts = Texts(name: string, symbol: string, issuer: string, description: string, url: string)

  datatype Metadata = Metadata(
    code: Code, texts: Texts, decimals: nat, category: Category, status: Status, compliance: Compliance,
    rating: Rating, riskBps: nat, version: nat, registeredAt: nat, updatedAt: nat, registeredBy: Address)

  datatype Version = Version(version: nat, metadata: Metadata, changedBy: Address, reason: string, time: nat)

  datatype State = State(
    meta: map<Code, Metadata>, versions: map<Code, seq<Version>>, list: seq<Code>,
    byCategory: map<Category, seq<Code>>, byStatus: map<Status, seq<Code>>,
    whitelist: seq<Code>, frozen: map<Code, bool>,
    history: map<Code, seq<Version>>)   // every version ever saved; written by every save and read by nothing

  datatype Error =
    | AssetAlreadyRegistered | AssetNotFound | InvalidRiskRating | InvalidLifecycleTransition | AssetDeprecated
    | AssetNotWhitelisted | AssetAlreadyWhitelisted | AssetFrozen | AssetAlreadyActive | AssetNotDeactivated

  datatype Outcome = Done(st: State) | Err(error: Error)

  const Init := State(map[], map[], [], map[], map[], [], map[], map[])

  // ---- Indexes ----------------------------------------------------------------------------------------------------

  function Listed<K(==), V>(m: map<K, seq<V>>, k: K): seq<V> { if k in m then m[k] else [] }

  function Added(l: seq<Code>, c: Code): seq<Code> { if c in l then l else l + [c] }

  function Removed(l: seq<Code>, c: Code): seq<Code> {
    if l == [] then []
    else Removed(l[..|l| - 1], c) + if l[|l| - 1] == c then [] else [l[|l| - 1]]
  }

  function AddTo<K(==)>(m: map<K, seq<Code>>, k: K, c: Code): map<K, seq<Code>> { m[k := Added(Listed(m, k), c)] }
  function RemoveFrom<K(==)>(m: map<K, seq<Code>>, k: K, c: Code): map<K, seq<Code>> {
    m[k := Removed(Listed(m, k), c)]
  }

  /** Move a code from one list of an index to another, in the contract's order: out first, then in. */
  function Moved<K(==)>(m: map<K, seq<Code>>, from: K, to: K, c: Code): map<K, seq<Code>> {
    AddTo(RemoveFrom(m, from, c), to, c)
  }

  // ---- Saving -----------------------------------------------------------------------------------------------------

  /** A full version list loses its oldest entry before the new one is appended. */
  function Appended(vs: seq<Version>, v: Version): seq<Version> {
    (if |vs| >= MAX_VERSIONS then vs[1..] else vs) + [v]
  }

  function Saved(st: State, m: Metadata, admin: Address, reason: string, now: nat): State {
    var v := Version(m.version, m, admin, reason, now);
    st.(meta := st.meta[m.code := m],
        versions := st.versions[m.code := Appended(Listed(st.versions, m.code), v)],
        history := st.history[m.code := Listed(st.history, m.code) + [v]])
  }

  /** The next version of a record. */
  function Next(m: Metadata, now: nat): Metadata { m.(version := m.version + 1, updatedAt := now) }

  // ---- Entrypoints ------------------------------------------------------------------------------------------------

  function DoRegister(st: State, admin: Address, c: Code, texts: Texts, decimals: nat, category: Category,
                      now: nat): Outcome
  {
    if st.whitelist != [] && c !in st.whitelist then Err(AssetNotWhitelisted)
    else if c in st.meta then Err(AssetAlreadyRegistered)
    else
      var m := Metadata(c, texts, decimals, category, PendingReview, Awaiting, Medium, 5_000, 1, now, now, admin);
      var v := Version(1, m, admin, "Initial registration", now);
      Done(st.(meta := st.meta[c := m], versions := st.versions[c := [v]], history := st.history[c := [v]],
               list := st.list + [c],
               byCategory := AddTo(st.byCategory, category, c), byStatus := AddTo(st.byStatus, PendingReview, c)))
  }

  function IsFrozen(st: State, c: Code): bool { c in st.frozen && st.frozen[c] }

  function DoUpdateMetadata(st: State, admin: Address, c: Code, texts: Texts, reason: string, now: nat): Outcome {
    if c !in st.meta then Err(AssetNotFound)
    else if IsFrozen(st, c) then Err(AssetFrozen)
    else if st.meta[c].status == Deprecated then Err(AssetDeprecated)
    else Done(Saved(st, Next(st.meta[c], now).(texts := texts), admin, reason, now))
  }

  function DoUpdateCategory(st: State, admin: Address, c: Code, category: Category, now: nat): Outcome {
    if c !in st.meta then Err(AssetNotFound)
    else
      var moved := st.(byCategory := Moved(st.byCategory, st.meta[c].category, category, c));
      Done(Saved(moved, Next(st.meta[c], now).(category := category), admin, "Category updated", now))
  }

  function DoUpdateRisk(st: State, admin: Address, c: Code, rating: Rating, bps: nat, now: nat): Outcome {
    if bps > 10_000 then Err(InvalidRiskRating)
    else if c !in st.meta then Err(AssetNotFound)
    else Done(Saved(st, Next(st.meta[c], now).(rating := rating, riskBps := bps), admin, "Risk updated", now))
  }

  predicate ValidTransition(a: Status, b: Status) {
    (a, b) in {(PendingReview, Active), (Active, Paused), (Paused, Active), (Active, Deprecated),
               (Paused, Deprecated), (Active, Deactivated), (Paused, Deactivated)}
  }

  /** Set the status of a registered asset, with its index and a new version. */
  function WithStatus(st: State, admin: Address, c: Code, status: Status, reason: string, now: nat): State
    requires c in st.meta
  {
    var moved := st.(byStatus := Moved(st.byStatus, st.meta[c].status, status, c));
    Saved(moved, Next(st.meta[c], now).(status := status), admin, reason, now)
  }

  function DoUpdateStatus(st: State, admin: Address, c: Code, status: Status, now: nat): Outcome {
    if c !in st.meta then Err(AssetNotFound)
    else if !ValidTransition(st.meta[c].status, status) then Err(InvalidLifecycleTransition)
    else Done(WithStatus(st, admin, c, status, "Status updated", now))
  }

  function DoDeactivate(st: State, admin: Address, c: Code, reason: string, now: nat): Outcome {
    if c !in st.meta then Err(AssetNotFound)
    else if st.meta[c].status != Active then Err(AssetAlreadyActive)
    else Done(WithStatus(st, admin, c, Deactivated, reason, now))
  }

  function DoRestore(st: State, admin: Address, c: Code, now: nat): Outcome {
    if c !in st.meta then Err(AssetNotFound)
    else if st.meta[c].status != Deactivated then Err(AssetNotDeactivated)
    else Done(WithStatus(st, admin, c, Active, "Asset restored", now))
  }

  function DoCompliance(st: State, admin: Address, c: Code, compliance: Compliance, now: nat): Outcome {
    if c !in st.meta then Err(AssetNotFound)
    else Done(Saved(st, Next(st.meta[c], now).(compliance := compliance), admin, "Compliance updated", now))
  }

  function DoWhitelist(st: State, c: Code, listed: bool): Outcome {
    if listed then
      if c in st.whitelist then Err(AssetAlreadyWhitelisted) else Done(st.(whitelist := st.whitelist + [c]))
    else
      if c !in st.whitelist then Err(AssetNotWhitelisted) else Done(st.(whitelist := Removed(st.whitelist, c)))
  }

  function DoFreeze(st: State, c: Code, frozen: bool): Outcome {
    if c !in st.meta then Err(AssetNotFound) else Done(st.(frozen := st.frozen[c := frozen]))
  }

  datatype Op =
    | Register(admin: Address, code: Code, texts: Texts, decimals: nat, category: Category, now: nat)
    | UpdateMetadata(admin: Address, code: Code, texts: Texts, reason: string, now: nat)
    | UpdateCategory(admin: Address, code: Code, category: Category, now: nat)
    | UpdateRisk(admin: Address, code: Code, rating: Rating, bps: nat, now: nat)
    | UpdateStatus(admin: Address, code: Code, status: Status, now: nat)
    | Deactivate(admin: Address, code: Code, reason: string, now: nat)
    | Restore(admin: Address, code: Code, now: nat)
    | UpdateCompliance(admin: Address, code: Code, compliance: Compliance, now: nat)
    | Whitelist(code: Code, listed: bool)
    | Freeze(code: Code, frozen: bool)

  function Call(st: State, op: Op): Outcome {
    match op
    case Register(admin, c, texts, decimals, category, now) => DoRegister(st, admin, c, texts, decimals, category, now)
    case UpdateMetadata(admin, c, texts, reason, now) => DoUpdateMetadata(st, admin, c, texts, reason, now)
    case UpdateCategory(admin, c, category, now) => DoUpdateCategory(st, admin, c, category, now)
    case UpdateRisk(admin, c, rating, bps, now) => DoUpdateRisk(st, admin, c, rating, bps, now)
    case UpdateStatus(admin, c, status, now) => DoUpdateStatus(st, admin, c, status, now)
    case Deactivate(admin, c, reason, now) => DoDeactivate(st, admin, c, reason, now)
    case Restore(admin, c, now) => DoRestore(st, admin, c, now)
    case UpdateCompliance(admin, c, compliance, now) => DoCompliance(st, admin, c, compliance, now)
    case Whitelist(c, listed) => DoWhitelist(st, c, listed)
    case Freeze(c, frozen) => DoFreeze(st, c, frozen)
  }

  function Settle(st: State, o: Outcome): State {
    match o case Done(st') => st' case Err(_) => st
  }

  function Run(st: State, ops: seq<Op>): State {
    if ops == [] then st
    else var mid := Run(st, ops[..|ops| - 1]);
         Settle(mid, Call(mid, ops[|ops| - 1]))
  }

  // ---- Agreement of the indexes -----------------------------------------------------------------------------------

  ghost predicate Distinct(l: seq<Code>) {
    forall i, j :: 0 <= i < j < |l| ==> l[i] != l[j]
  }

  lemma {:induction false} RemovedEffect(l: seq<Code>, c: Code)
    ensures forall x :: x in Removed(l, c) <==> x in l && x != c
    ensures Distinct(l) ==> Distinct(Removed(l, c))
  {
    if l == [] {
    } else {
      var init, last := l[..|l| - 1], l[|l| - 1];
      RemovedEffect(init, c);
      assert l == init + [last];
      var kept := Removed(init, c);
      if Distinct(l) && last != c {
        forall i | 0 <= i < |kept| ensures kept[i] != last {
          assert kept[i] in init;
        }
      }
    }
  }

  /** A list is duplicate-free and holds exactly the given codes. */
  ghost predicate Holds(l: seq<Code>, codes: set<Code>) {
    Distinct(l) && forall c :: c in l <==> c in codes
  }

  lemma AddedHolds(l: seq<Code>, codes: set<Code>, c: Code)
    requires Holds(l, codes)
    ensures Holds(Added(l, c), codes + {c})
  {}

  lemma RemovedHolds(l: seq<Code>, codes: set<Code>, c: Code)
    requires Holds(l, codes)
    ensures Holds(Removed(l, c), codes - {c})
  {
    RemovedEffect(l, c);
  }

  ghost function WithCategory(st: State, k: Category): set<Code> { set c | c in st.meta && st.meta[c].category == k }
  ghost function InStatus(st: State, k: Status): set<Code> { set c | c in st.meta && st.meta[c].status == k }

  ghost predicate CategoryAgrees(st: State, k: Category) { Holds(Listed(st.byCategory, k), WithCategory(st, k)) }
  ghost predicate StatusAgrees(st: State, k: Status) { Holds(Listed(st.byStatus, k), InStatus(st, k)) }

  /** The version list is the tail of the whole history, which counts 1, 2, 3, ... up to the current record; a code that
      is not registered has none. */
  ghost predicate VersionsAgree(st: State, c: Code) {
    var h := Listed(st.history, c);
    if c !in st.meta then h == [] == Listed(st.versions, c)
    else
      && st.meta[c].code == c
      && |h| == st.meta[c].version >= 1
      && (forall i :: 0 <= i < |h| ==> h[i].version == i + 1 == h[i].metadata.version && h[i].metadata.code == c)
      && h[|h| - 1].metadata == st.meta[c]
      && Listed(st.versions, c) == Retained(h, MAX_VERSIONS)
  }

  ghost predicate Inv(st: State) {
    && (forall k: Category :: CategoryAgrees(st, k))
    && (forall k: Status :: StatusAgrees(st, k))
    && Holds(st.list, st.meta.Keys)
    && Distinct(st.whitelist)
    && (forall c: Code :: VersionsAgree(st, c))
  }

  lemma AppendedRetains(h: seq<Version>, v: Version)
    ensures Appended(Retained(h, MAX_VERSIONS), v) == Retained(h + [v], MAX_VERSIONS)
  {}

  lemma SavedVersions(st: State, m: Metadata, admin: Address, reason: string, now: nat, c: Code)
    requires VersionsAgree(st, c) && m.code in st.meta && m.version == st.meta[m.code].version + 1
    ensures VersionsAgree(Saved(st, m, admin, reason, now), c)
  {
    hide Appended;
    if c == m.code {
      AppendedRetains(Listed(st.history, c), Version(m.version, m, admin, reason, now));
    }
  }

  /** A save that changes neither status nor category keeps every index. */
  lemma PlainSaveInv(st: State, m: Metadata, admin: Address, reason: string, now: nat)
    requires Inv(st) && m.code in st.meta && m.version == st.meta[m.code].version + 1
    requires m.status == st.meta[m.code].status && m.category == st.meta[m.code].category
    ensures Inv(Saved(st, m, admin, reason, now))
  {
    hide Holds, Appended, VersionsAgree;
    var st' := Saved(st, m, admin, reason, now);
    forall k: Category ensures CategoryAgrees(st', k) {
      assert CategoryAgrees(st, k) && WithCategory(st', k) == WithCategory(st, k);
    }
    forall k: Status ensures StatusAgrees(st', k) {
      assert StatusAgrees(st, k) && InStatus(st', k) == InStatus(st, k);
    }
    forall c: Code ensures VersionsAgree(st', c) { SavedVersions(st, m, admin, reason, now, c); }
    assert st'.meta.Keys == st.meta.Keys;
  }

  lemma StatusInv(st: State, admin: Address, c: Code, status: Status, reason: string, now: nat)
    requires Inv(st) && c in st.meta
    ensures Inv(WithStatus(st, admin, c, status, reason, now))
  {
    hide Holds, Appended, VersionsAgree, Added, Removed;
    assert VersionsAgree(st, c);
    CodeOf(st, c);
    var moved := st.(byStatus := Moved(st.byStatus, st.meta[c].status, status, c));
    var m := Next(st.meta[c], now).(status := status);
    var st' := Saved(moved, m, admin, reason, now);
    forall k: Category ensures CategoryAgrees(st', k) {
      assert CategoryAgrees(st, k) && WithCategory(st', k) == WithCategory(st, k);
    }
    forall k: Status ensures StatusAgrees(st', k) {
      assert StatusAgrees(st, k);
      StatusMoved(st, c, status, k, st');
    }
    forall x: Code ensures VersionsAgree(st', x) {
      SameVersions(st, moved, x);
      SavedVersions(moved, m, admin, reason, now, x);
    }
    assert st'.meta.Keys == st.meta.Keys;
  }

  lemma CodeOf(st: State, c: Code)
    requires VersionsAgree(st, c) && c in st.meta
    ensures st.meta[c].code == c
  {}

  lemma SameVersions(a: State, b: State, c: Code)
    requires VersionsAgree(a, c) && b.meta == a.meta && b.versions == a.versions && b.history == a.history
    ensures VersionsAgree(b, c)
  {}

  /** Moving a code between two lists: the target gains it, the source loses it, the others stay. */
  ghost function AfterMove<K>(codes: set<Code>, from: K, to: K, c: Code, k: K): set<Code> {
    if k == to then codes + {c} else if k == from then codes - {c} else codes
  }

  lemma MovedHolds<K>(m: map<K, seq<Code>>, from: K, to: K, c: Code, k: K, codes: set<Code>)
    requires Holds(Listed(m, k), codes)
    ensures Holds(Listed(Moved(m, from, to, c), k), AfterMove(codes, from, to, c, k))
  {
    hide Holds, Added, Removed;
    if k == from {
      RemovedHolds(Listed(m, k), codes, c);
      if k == to {
        AddedHolds(Removed(Listed(m, k), c), codes - {c}, c);
        assert codes - {c} + {c} == codes + {c};
      }
    } else if k == to {
      AddedHolds(Listed(m, k), codes, c);
    }
  }

  lemma StatusMoved(st: State, c: Code, status: Status, k: Status, st': State)
    requires StatusAgrees(st, k) && c in st.meta
    requires st'.meta.Keys == st.meta.Keys && st'.meta[c].status == status
    requires forall x :: x in st.meta && x != c ==> st'.meta[x] == st.meta[x]
    requires st'.byStatus == Moved(st.byStatus, st.meta[c].status, status, c)
    ensures StatusAgrees(st', k)
  {
    hide Holds, Moved, Listed;
    var from := st.meta[c].status;
    assert InStatus(st', k) == AfterMove(InStatus(st, k), from, status, c, k);
    MovedHolds(st.byStatus, from, status, c, k, InStatus(st, k));
  }

  lemma CategoryMoved(st: State, c: Code, category: Category, k: Category, st': State)
    requires CategoryAgrees(st, k) && c in st.meta
    requires st'.meta.Keys == st.meta.Keys && st'.meta[c].category == category
    requires forall x :: x in st.meta && x != c ==> st'.meta[x] == st.meta[x]
    requires st'.byCategory == Moved(st.byCategory, st.meta[c].category, category, c)
    ensures CategoryAgrees(st', k)
  {
    hide Holds, Moved, Listed;
    var from := st.meta[c].category;
    assert WithCategory(st', k) == AfterMove(WithCategory(st, k), from, category, c, k);
    MovedHolds(st.byCategory, from, category, c, k, WithCategory(st, k));
  }

  lemma CategoryInv(st: State, admin: Address, c: Code, category: Category, now: nat)
    requires Inv(st) && c in st.meta
    ensures Inv(DoUpdateCategory(st, admin, c, category, now).st)
  {
    hide Holds, Appended, VersionsAgree, Added, Removed;
    assert VersionsAgree(st, c);
    CodeOf(st, c);
    var moved := st.(byCategory := Moved(st.byCategory, st.meta[c].category, category, c));
    var m := Next(st.meta[c], now).(category := category);
    var st' := Saved(moved, m, admin, "Category updated", now);
    forall k: Status ensures StatusAgrees(st', k) {
      assert StatusAgrees(st, k) && InStatus(st', k) == InStatus(st, k);
    }
    forall k: Category ensures CategoryAgrees(st', k) {
      assert CategoryAgrees(st, k);
      CategoryMoved(st, c, category, k, st');
    }
    forall x: Code ensures VersionsAgree(st', x) {
      SameVersions(st, moved, x);
      SavedVersions(moved, m, admin, "Category updated", now, x);
    }
    assert st'.meta.Keys == st.meta.Keys;
  }

  lemma RegisterInv(st: State, admin: Address, c: Code, texts: Texts, decimals: nat, category: Category, now: nat)
    requires Inv(st) && DoRegister(st, admin, c, texts, decimals, category, now).Done?
    ensures Inv(DoRegister(st, admin, c, texts, decimals, category, now).st)
  {
    var st' := DoRegister(st, admin, c, texts, decimals, category, now).st;
    var m := Metadata(c, texts, decimals, category, PendingReview, Awaiting, Medium, 5_000, 1, now, now, admin);
    assert st'.meta == st.meta[c := m];
    assert st'.history[c] == [Version(1, m, admin, "Initial registration", now)] == st'.versions[c];
    hide DoRegister, Holds, Added, CategoryAgrees, StatusAgrees, VersionsAgree;
    forall k: Category ensures CategoryAgrees(st', k) { CategoryRegistered(st, c, m, k, st'); }
    forall k: Status ensures StatusAgrees(st', k) { StatusRegistered(st, c, m, k, st'); }
    forall x: Code ensures VersionsAgree(st', x) {
      if x == c {
        FirstVersion(st', m, Version(1, m, admin, "Initial registration", now));
      } else {
        OthersKept(st, st', x);
      }
    }
    NewListed(st.list, st.meta.Keys, c);
    assert st'.meta.Keys == st.meta.Keys + {c};
  }

  lemma CategoryRegistered(st: State, c: Code, m: Metadata, k: Category, st': State)
    requires CategoryAgrees(st, k) && c !in st.meta && st'.meta == st.meta[c := m]
    requires st'.byCategory == st.byCategory[m.category := Added(Listed(st.byCategory, m.category), c)]
    ensures CategoryAgrees(st', k)
  {
    hide Holds, Added;
    AddedHolds(Listed(st.byCategory, k), WithCategory(st, k), c);
    assert WithCategory(st', k) == if k == m.category then WithCategory(st, k) + {c} else WithCategory(st, k);
  }

  lemma StatusRegistered(st: State, c: Code, m: Metadata, k: Status, st': State)
    requires StatusAgrees(st, k) && c !in st.meta && st'.meta == st.meta[c := m]
    requires st'.byStatus == st.byStatus[m.status := Added(Listed(st.byStatus, m.status), c)]
    ensures StatusAgrees(st', k)
  {
    hide Holds, Added;
    AddedHolds(Listed(st.byStatus, k), InStatus(st, k), c);
    assert InStatus(st', k) == if k == m.status then InStatus(st, k) + {c} else InStatus(st, k);
  }

  lemma FirstVersion(st: State, m: Metadata, v: Version)
    requires m.code in st.meta && st.meta[m.code] == m && v.version == m.version == 1 && v.metadata == m
    requires Listed(st.history, m.code) == [v] == Listed(st.versions, m.code)
    ensures VersionsAgree(st, m.code)
  {}

  lemma OthersKept(a: State, b: State, c: Code)
    requires VersionsAgree(a, c) && (c in b.meta <==> c in a.meta) && (c in a.meta ==> b.meta[c] == a.meta[c])
    requires Listed(b.versions, c) == Listed(a.versions, c) && Listed(b.history, c) == Listed(a.history, c)
    ensures VersionsAgree(b, c)
  {}

  lemma NewListed(l: seq<Code>, codes: set<Code>, c: Code)
    requires Holds(l, codes) && c !in codes
    ensures Holds(l + [c], codes + {c})
  {
    AddedHolds(l, codes, c);
  }

  lemma OtherInv(st: State, op: Op)
    requires Inv(st) && Call(st, op).Done? && (op.Whitelist? || op.Freeze?)
    ensures Inv(Call(st, op).st)
  {
    var st' := Call(st, op).st;
    if op.Whitelist? && !op.listed { RemovedEffect(st.whitelist, op.code); }
    hide Holds, Removed, VersionsAgree;
    forall k: Category ensures CategoryAgrees(st', k) {
      assert CategoryAgrees(st, k) && WithCategory(st', k) == WithCategory(st, k);
    }
    forall k: Status ensures StatusAgrees(st', k) { assert StatusAgrees(st, k) && InStatus(st', k) == InStatus(st, k); }
    forall c: Code ensures VersionsAgree(st', c) { SameVersions(st, st', c); }
  }

  lemma CallInv(st: State, op: Op)
    requires Inv(st)
    ensures Inv(Settle(st, Call(st, op)))
  {
    if Call(st, op).Done? {
      match op
      case Register(admin, c, texts, decimals, category, now) =>
        RegisterInv(st, admin, c, texts, decimals, category, now);
      case UpdateCategory(admin, c, category, now) => CategoryInv(st, admin, c, category, now);
      case UpdateStatus(admin, c, status, now) => StatusInv(st, admin, c, status, "Status updated", now);
      case Deactivate(admin, c, reason, now) => StatusInv(st, admin, c, Deactivated, reason, now);
      case Restore(admin, c, now) => StatusInv(st, admin, c, Active, "Asset restored", now);
      case Whitelist(_, _) => OtherInv(st, op);
      case Freeze(_, _) => OtherInv(st, op);
      case UpdateMetadata(admin, c, texts, reason, now) =>
        assert VersionsAgree(st, c);
        PlainSaveInv(st, Next(st.meta[c], now).(texts := texts), admin, reason, now);
      case UpdateRisk(admin, c, rating, bps, now) =>
        assert VersionsAgree(st, c);
        PlainSaveInv(st, Next(st.meta[c], now).(rating := rating, riskBps := bps), admin, "Risk updated", now);
      case UpdateCompliance(admin, c, compliance, now) =>
        assert VersionsAgree(st, c);
        PlainSaveInv(st, Next(st.meta[c], now).(compliance := compliance), admin, "Compliance updated", now);
    }
    hide Inv;
  }

  /** On every history each status and category index is duplicate-free and holds exactly the registered codes with
      that value, and each version list is the contiguous last min(50, version) snapshots ending in the current
      metadata. */
  lemma {:induction false} RegistryAgrees(ops: seq<Op>)
    ensures Inv(Run(Init, ops))
  {
    if ops == [] {
      forall k: Category ensures CategoryAgrees(Init, k) {}
      forall k: Status ensures StatusAgrees(Init, k) {}
    } else {
      hide Inv, Call;
      RegistryAgrees(ops[..|ops| - 1]);
      CallInv(Run(Init, ops[..|ops| - 1]), ops[|ops| - 1]);
    }
  }

  lemma UnregisteredHasNone(st: State, c: Code)
    requires Inv(st) && c !in st.meta
    ensures Listed(st.versions, c) == []
  {
    assert VersionsAgree(st, c);
    hide CategoryAgrees, StatusAgrees;
  }

  /** Entry i of the version list is the history's entry with the same number, up to the current record. */
  lemma VersionsNumbered(st: State, c: Code)
    requires Inv(st) && c in st.meta
    ensures var h, vs := Listed(st.history, c), Listed(st.versions, c); var skip := |h| - |vs|;
      && |h| == st.meta[c].version >= 1 && |vs| == (if |h| <= 50 then |h| else 50)
      && (forall i :: 0 <= i < |vs| ==> vs[i] == h[skip + i] && vs[i].version == skip + i + 1)
      && h[|h| - 1].metadata == st.meta[c]
  {
    assert VersionsAgree(st, c);
    hide CategoryAgrees, StatusAgrees;
  }

  // ---- Lifecycle --------------------------------------------------------------------------------------------------

  ghost predicate Follows(a: Metadata, b: Metadata) {
    && b.code == a.code && b.decimals == a.decimals
    && b.registeredAt == a.registeredAt && b.registeredBy == a.registeredBy
    && a.version <= b.version && (b.version == a.version ==> b == a)
    && (a.status == Deprecated ==> b.status == Deprecated && b.texts == a.texts)
    && (a.status != PendingReview ==> b.status != PendingReview)
  }

  /** Codes label their own records. */
  ghost predicate Labelled(st: State) {
    forall x :: x in st.meta ==> st.meta[x].code == x
  }

  lemma SavedFollows(st: State, m: Metadata, admin: Address, reason: string, now: nat, c: Code)
    requires c in st.meta && Labelled(st) && m.code in st.meta && Follows(st.meta[m.code], m)
    ensures var st' := Saved(st, m, admin, reason, now);
      c in st'.meta && Follows(st.meta[c], st'.meta[c]) && Labelled(st')
  {
    hide Appended;
  }

  lemma CallFollows(st: State, op: Op, c: Code)
    requires c in st.meta && Labelled(st)
    ensures var st' := Settle(st, Call(st, op));
      c in st'.meta && Follows(st.meta[c], st'.meta[c]) && Labelled(st')
  {
    hide Moved, Appended, AddTo, Removed, Saved;
    if Call(st, op).Done? {
      match op
      case UpdateMetadata(admin, x, texts, reason, now) =>
        SavedFollows(st, Next(st.meta[x], now).(texts := texts), admin, reason, now, c);
      case UpdateCategory(admin, x, category, now) =>
        var moved := st.(byCategory := Moved(st.byCategory, st.meta[x].category, category, x));
        SavedFollows(moved, Next(st.meta[x], now).(category := category), admin, "Category updated", now, c);
      case UpdateRisk(admin, x, rating, bps, now) =>
        SavedFollows(st, Next(st.meta[x], now).(rating := rating, riskBps := bps), admin, "Risk updated", now, c);
      case UpdateStatus(admin, x, status, now) => StatusFollows(st, admin, x, status, "Status updated", now, c);
      case Deactivate(admin, x, reason, now) => StatusFollows(st, admin, x, Deactivated, reason, now, c);
      case Restore(admin, x, now) => StatusFollows(st, admin, x, Active, "Asset restored", now, c);
      case UpdateCompliance(admin, x, compliance, now) =>
        SavedFollows(st, Next(st.meta[x], now).(compliance := compliance), admin, "Compliance updated", now, c);
      case _ =>
    }
  }

  lemma StatusFollows(st: State, admin: Address, x: Code, status: Status, reason: string, now: nat, c: Code)
    requires c in st.meta && Labelled(st) && x in st.meta
    requires ValidTransition(st.meta[x].status, status) || (st.meta[x].status == Deactivated && status == Active)
    ensures var st' := WithStatus(st, admin, x, status, reason, now);
      c in st'.meta && Follows(st.meta[c], st'.meta[c]) && Labelled(st')
  {
    hide Moved, Appended, Saved;
    var moved := st.(byStatus := Moved(st.byStatus, st.meta[x].status, status, x));
    SavedFollows(moved, Next(st.meta[x], now).(status := status), admin, reason, now, c);
  }

  /** Over any history a registered asset stays registered, its version only grows, and once deprecated it is
      deprecated for good with its texts frozen. */
  lemma {:induction false} DeprecatedForever(st: State, ops: seq<Op>, c: Code)
    requires c in st.meta && Labelled(st)
    ensures var st' := Run(st, ops);
      c in st'.meta && Follows(st.meta[c], st'.meta[c]) && Labelled(st')
  {
    hide Call, Labelled;
    if ops == [] {
    } else {
      DeprecatedForever(st, ops[..|ops| - 1], c);
      CallFollows(Run(st, ops[..|ops| - 1]), ops[|ops| - 1], c);
    }
  }
}
