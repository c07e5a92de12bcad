/** The persisted impact builds of a repository: `ensure_build`, `refresh_from_previous` and
  `status` over a store keyed by snapshot id.

  Rows may become unreadable; a stored build is used when its schema version and config digest are
  current, and is otherwise replaced by a refresh from an earlier snapshot or by a full rebuild. */
module BuildCache {
  import opened Ordering
  import opened IncrementalBuilder

  datatype Result<+T> = Ok(value: T) | Err

  datatype Mode = FullRebuild | IncrementalRefresh

  datatype Fallback = NoPriorSnapshot | SchemaVersionChanged | IncompatibleConfigChange | CacheOrIndexCorruption

  datatype StoredBuild = StoredBuild(
    repoId: string,
    snapshotId: string,
    configDigest: string,
    schemaVersion: nat,
    createdAt: string,
    mode: Mode,
    fallback: Option<Fallback>,
    state: MaterializedState)

  datatype Row = Readable(build: StoredBuild) | Unreadable

  type Rows = map<string, Row>

  /* ---- the store ---- */

  function Load(rows: Rows, snapshotId: string): Result<Option<StoredBuild>> {
    if snapshotId !in rows then Ok(None)
    else match rows[snapshotId] case Readable(build) => Ok(Some(build)) case Unreadable => Err
  }

  function Persist(rows: Rows, build: StoredBuild): Rows {
    rows[build.snapshotId := Readable(build)]
  }

  class ImpactStore {
    const schemaVersion: nat
    var rows: Rows

    constructor (schemaVersion: nat, rows: Rows)
      ensures this.schemaVersion == schemaVersion && this.rows == rows
    {
      this.schemaVersion := schemaVersion;
      this.rows := rows;
    }

    method PersistBuild(build: StoredBuild)
      modifies this
      ensures rows == Persist(old(rows), build)
    {
      rows := rows[build.snapshotId := Readable(build)];
    }

    method LoadBuild(snapshotId: string) returns (r: Result<Option<StoredBuild>>)
      ensures r == Load(rows, snapshotId)
    {
      if snapshotId !in rows {
        return Ok(None);
      }
      match rows[snapshotId]
      case Readable(build) => return Ok(Some(build));
      case Unreadable => return Err;
    }
  }

  /* ---- the repository's snapshot manifests ---- */

  /** `listed` is what `list_manifests(repo_id, 32)` returns; `manifests` what `load_manifest` finds,
    an entry being false when it cannot be decoded; `changed` the paths a snapshot differs in. */
  datatype RepoView = RepoView(
    listed: Result<seq<string>>,
    manifests: map<string, bool>,
    changed: map<string, set<string>>)

  function LoadManifest(repo: RepoView, id: string): Result<bool> {
    if id !in repo.manifests then Ok(false) else if repo.manifests[id] then Ok(true) else Err
  }

  function DiffSince(repo: RepoView, previousId: string, src: Source): Diff {
    Diff(previousId, src.snapshotId, if previousId in repo.changed then repo.changed[previousId] else {})
  }

  /** The first other listed snapshot with a readable build and a manifest. */
  function PreviousCandidate(rows: Rows, repo: RepoView, ids: seq<string>, current: string)
    : Result<Option<(string, StoredBuild)>>
  {
    if ids == [] then Ok(None)
    else
      var rest := PreviousCandidate(rows, repo, ids[1..], current);
      if ids[0] == current then rest
      else match Load(rows, ids[0])
        case Err => rest
        case Ok(None) => rest
        case Ok(Some(build)) =>
          match LoadManifest(repo, ids[0])
          case Err => Err
          case Ok(false) => rest
          case Ok(true) => Ok(Some((ids[0], build)))
  }

  method FindPreviousBuild(repo: RepoView, store: ImpactStore, current: string)
    returns (r: Result<Option<(string, StoredBuild)>>)
    ensures repo.listed.Err? ==> r == Err
    ensures repo.listed.Ok? ==> r == PreviousCandidate(store.rows, repo, repo.listed.value, current)
  {
    if repo.listed.Err? {
      return Err;
    }
    var ids := repo.listed.value;
    for i := 0 to |ids|
      invariant PreviousCandidate(store.rows, repo, ids, current)
                == PreviousCandidate(store.rows, repo, ids[i..], current)
    {
      assert ids[i..][0] == ids[i] && ids[i..][1..] == ids[i + 1..];
      if ids[i] == current {
        continue;
      }
      var loaded := store.LoadBuild(ids[i]);
      if loaded.Err? || loaded.value.None? {
        continue;
      }
      var manifest := LoadManifest(repo, ids[i]);
      if manifest.Err? {
        return Err;
      }
      if !manifest.value {
        continue;
      }
      return Ok(Some((ids[i], loaded.value.value)));
    }
    assert ids[|ids|..] == [];
    r := Ok(None);
  }

  /* ---- ensure_build ---- */

  datatype Request = Request(repoId: string, digest: string, now: string, src: Source, repo: RepoView)

  datatype Outcome = Outcome(build: StoredBuild, loadedFromExisting: bool)

  predicate Current(schema: nat, digest: string, build: StoredBuild) {
    build.schemaVersion == schema && build.configDigest == digest
  }

  function Stored(q: Request, schema: nat, mode: Mode, fallback: Option<Fallback>, state: MaterializedState)
    : StoredBuild
  {
    StoredBuild(q.repoId, q.src.snapshotId, q.digest, schema, q.now, mode, fallback, state)
  }

  function FullBuild(q: Request, schema: nat, reason: Fallback): StoredBuild {
    Stored(q, schema, FullRebuild, Some(reason), BuildFull(q.src))
  }

  function RefreshFromPrevious(rows: Rows, schema: nat, q: Request): Result<StoredBuild> {
    if q.repo.listed.Err? then Err
    else match PreviousCandidate(rows, q.repo, q.repo.listed.value, q.src.snapshotId)
      case Err => Err
      case Ok(None) => Ok(FullBuild(q, schema, NoPriorSnapshot))
      case Ok(Some((id, previous))) =>
        if previous.schemaVersion != schema then Ok(FullBuild(q, schema, SchemaVersionChanged))
        else if previous.configDigest != q.digest then Ok(FullBuild(q, schema, IncompatibleConfigChange))
        else
          var state := Incremental(q.src, id, DiffSince(q.repo, id, q.src), previous.state);
          Ok(Stored(q, schema, IncrementalRefresh, None, state))
  }

  /** The build to store when the existing one cannot be used. */
  function Rebuild(rows: Rows, schema: nat, q: Request): Result<StoredBuild> {
    if Load(rows, q.src.snapshotId).Err? then Ok(FullBuild(q, schema, CacheOrIndexCorruption))
    else RefreshFromPrevious(rows, schema, q)
  }

  predicate Hits(rows: Rows, schema: nat, q: Request) {
    var loaded := Load(rows, q.src.snapshotId);
    loaded.Ok? && loaded.value.Some? && Current(schema, q.digest, loaded.value.value)
  }

  function Ensure(rows: Rows, schema: nat, q: Request): (Result<Outcome>, Rows) {
    if Hits(rows, schema, q) then (Ok(Outcome(Load(rows, q.src.snapshotId).value.value, true)), rows)
    else match Rebuild(rows, schema, q)
      case Err => (Err, rows)
      case Ok(build) => (Ok(Outcome(build, false)), Persist(rows, build))
  }

  method EnsureBuild(store: ImpactStore, q: Request) returns (r: Result<Outcome>)
    modifies store
    ensures (r, store.rows) == Ensure(old(store.rows), store.schemaVersion, q)
  {
    var current := store.LoadBuild(q.src.snapshotId);
    if current.Ok? && current.value.Some? {
      var build := current.value.value;
      if build.schemaVersion == store.schemaVersion && build.configDigest == q.digest {
        return Ok(Outcome(build, true));
      }
    }
    var build: StoredBuild;
    if current.Err? {
      build := FullBuild(q, store.schemaVersion, CacheOrIndexCorruption);
    } else {
      var refreshed := RefreshBuild(store, q);
      if refreshed.Err? {
        return Err;
      }
      build := refreshed.value;
    }
    store.PersistBuild(build);
    r := Ok(Outcome(build, false));
  }

  method RefreshBuild(store: ImpactStore, q: Request) returns (r: Result<StoredBuild>)
    ensures r == RefreshFromPrevious(store.rows, store.schemaVersion, q)
  {
    var found := FindPreviousBuild(q.repo, store, q.src.snapshotId);
    if found.Err? {
      return Err;
    }
    if found.value.None? {
      return Ok(FullBuild(q, store.schemaVersion, NoPriorSnapshot));
    }
    var (id, previous) := found.value.value;
    if previous.schemaVersion != store.schemaVersion {
      return Ok(FullBuild(q, store.schemaVersion, SchemaVersionChanged));
    }
    if previous.configDigest != q.digest {
      return Ok(FullBuild(q, store.schemaVersion, IncompatibleConfigChange));
    }
    var state := BuildIncremental(q.src, id, DiffSince(q.repo, id, q.src), previous.state);
    r := Ok(Stored(q, store.schemaVersion, IncrementalRefresh, None, state));
  }

  /* ---- the cache never disagrees with a full rebuild ---- */

  /** A snapshot id always names the same source, and the per-file pass keeps its promises. */
  ghost predicate Consistent(world: map<string, Source>) {
    && (forall id :: id in world ==> world[id].snapshotId == id && KeysIndexed(world[id]))
    && (forall a, b :: a in world && b in world ==> SignaturesDecide(world[a], world[b]))
  }

  /** Every readable build of the current schema agrees with a full rebuild of its snapshot. */
  ghost predicate Agrees(world: map<string, Source>, schema: nat, rows: Rows) {
    forall id :: id in rows && rows[id].Readable? && rows[id].build.schemaVersion == schema ==>
      id in world && rows[id].build.snapshotId == id && Faithful(world[id], rows[id].build.state)
  }

  lemma {:induction false} CandidateIsStored(rows: Rows, repo: RepoView, ids: seq<string>, current: string)
    ensures var r := PreviousCandidate(rows, repo, ids, current);
            r.Ok? && r.value.Some? ==>
              && r.value.value.0 in ids && r.value.value.0 != current
              && r.value.value.0 in rows && rows[r.value.value.0] == Readable(r.value.value.1)
  {
    if ids != [] {
      CandidateIsStored(rows, repo, ids[1..], current);
    }
  }

  lemma FullRebuildIsFaithful(src: Source)
    ensures Faithful(src, BuildFull(src))
  {
  }

  /** What is about to be stored agrees with a full rebuild. */
  lemma RebuildIsFaithful(world: map<string, Source>, schema: nat, rows: Rows, q: Request)
    requires Consistent(world) && Agrees(world, schema, rows)
    requires q.src.snapshotId in world && world[q.src.snapshotId] == q.src
    requires Rebuild(rows, schema, q).Ok?
    ensures var build := Rebuild(rows, schema, q).value;
            build.snapshotId == q.src.snapshotId && Current(schema, q.digest, build) && Faithful(q.src, build.state)
  {
    FullRebuildIsFaithful(q.src);
    if !Load(rows, q.src.snapshotId).Err? {
      var found := PreviousCandidate(rows, q.repo, q.repo.listed.value, q.src.snapshotId);
      CandidateIsStored(rows, q.repo, q.repo.listed.value, q.src.snapshotId);
      if found.value.Some? && Current(schema, q.digest, found.value.value.1) {
        var (id, previous) := found.value.value;
        IncrementalIsFaithful(world[id], q.src, DiffSince(q.repo, id, q.src), previous.state);
      }
    }
  }

  /** One call keeps the agreement with full rebuilds, and what it returns agrees too. */
  lemma EnsureKeepsAgreement(world: map<string, Source>, schema: nat, rows: Rows, q: Request)
    requires Consistent(world) && Agrees(world, schema, rows)
    requires q.src.snapshotId in world && world[q.src.snapshotId] == q.src
    ensures Agrees(world, schema, Ensure(rows, schema, q).1)
    ensures Ensure(rows, schema, q).0.Ok? ==> Faithful(q.src, Ensure(rows, schema, q).0.value.build.state)
  {
    hide Rebuild;
    hide Faithful;
    if !Hits(rows, schema, q) && Rebuild(rows, schema, q).Ok? {
      RebuildIsFaithful(world, schema, rows, q);
    }
  }

  /** The build that a call returns has the plan of its snapshot: what the files of the snapshot contribute,
    under its own ids, and nothing else. */
  lemma EnsuredPlan(world: map<string, Source>, schema: nat, rows: Rows, q: Request)
    requires Consistent(world) && Agrees(world, schema, rows)
    requires q.src.snapshotId in world && world[q.src.snapshotId] == q.src
    ensures var r := Ensure(rows, schema, q).0; r.Ok? ==>
              IsPlanOf(q.src, r.value.build.state.plan)
              && r.value.build.state.contributions.Keys == q.src.contributions.Keys
  {
    EnsureKeepsAgreement(world, schema, rows, q);
    hide Ensure;
    if Ensure(rows, schema, q).0.Ok? {
      FaithfulPlanHolds(q.src, Ensure(rows, schema, q).0.value.build.state);
    }
  }

  /** A success returns a build that is current and stored, other rows untouched, and an immediate
    repeat loads that build, whatever the clock and the manifests then say; a failure changes nothing. */
  lemma EnsureThenRepeat(schema: nat, rows: Rows, q: Request, later: Request)
    requires later.src == q.src && later.digest == q.digest
    ensures var (r, rows') := Ensure(rows, schema, q);
            && (r.Err? ==> rows' == rows)
            && (r.Ok? ==>
                  && Current(schema, q.digest, r.value.build)
                  && Load(rows', q.src.snapshotId) == Ok(Some(r.value.build))
                  && (forall id :: id != q.src.snapshotId ==> Load(rows', id) == Load(rows, id))
                  && Ensure(rows', schema, later) == (Ok(Outcome(r.value.build, true)), rows'))
  {
    RebuildIsCurrent(rows, schema, q);
    hide Rebuild;
  }

  datatype Event = Call(q: Request) | Corrupt(snapshotId: string) | Forget(snapshotId: string)

  function React(rows: Rows, schema: nat, e: Event): Rows {
    match e
    case Call(q) => Ensure(rows, schema, q).1
    case Corrupt(id) => if id in rows then rows[id := Unreadable] else rows
    case Forget(id) => map k | k in rows && k != id :: rows[k]
  }

  function Replay(rows: Rows, schema: nat, events: seq<Event>): Rows {
    if events == [] then rows else React(Replay(rows, schema, events[..|events| - 1]), schema, events[|events| - 1])
  }

  ghost predicate FromWorld(world: map<string, Source>, events: seq<Event>) {
    forall i :: 0 <= i < |events| && events[i].Call? ==>
      events[i].q.src.snapshotId in world && world[events[i].q.src.snapshotId] == events[i].q.src
  }

  /** Over any run of calls with changing configs and snapshots, rows becoming unreadable or
    disappearing, the cache agrees with full rebuilds. */
  lemma {:induction false} CacheAlwaysAgrees(world: map<string, Source>, schema: nat, rows: Rows, events: seq<Event>)
    requires Consistent(world) && Agrees(world, schema, rows) && FromWorld(world, events)
    ensures Agrees(world, schema, Replay(rows, schema, events))
  {
    if events != [] {
      var front, e := events[..|events| - 1], events[|events| - 1];
      CacheAlwaysAgrees(world, schema, rows, front);
      if e.Call? {
        EnsureKeepsAgreement(world, schema, Replay(rows, schema, front), e.q);
      }
    }
  }

  /** At any time, each readable row of the current schema holds the plan of its snapshot. */
  lemma CachedPlansHold(world: map<string, Source>, schema: nat, rows: Rows, events: seq<Event>, id: string)
    requires Consistent(world) && Agrees(world, schema, rows) && FromWorld(world, events)
    requires var now := Replay(rows, schema, events);
             id in now && now[id].Readable? && now[id].build.schemaVersion == schema
    ensures id in world && IsPlanOf(world[id], Replay(rows, schema, events)[id].build.state.plan)
  {
    CacheAlwaysAgrees(world, schema, rows, events);
    hide Replay;
    FaithfulPlanHolds(world[id], Replay(rows, schema, events)[id].build.state);
  }

  /* ---- which build is refreshed from, and why not ---- */

  /** The snapshot itself, one without a readable build, or one without a manifest. */
  predicate PassedOver(rows: Rows, repo: RepoView, id: string, current: string) {
    id == current || id !in rows || rows[id].Unreadable? || id !in repo.manifests
  }

  /** The earliest listed snapshot that is not passed over. */
  ghost predicate FirstAt(rows: Rows, repo: RepoView, ids: seq<string>, current: string, i: nat) {
    && i < |ids| && !PassedOver(rows, repo, ids[i], current)
    && forall j :: 0 <= j < i ==> PassedOver(rows, repo, ids[j], current)
  }

  ghost predicate NoneAt(rows: Rows, repo: RepoView, ids: seq<string>, current: string) {
    forall j :: 0 <= j < |ids| ==> PassedOver(rows, repo, ids[j], current)
  }

  /** The candidate is the build of the earliest listed snapshot that is not passed over, an error if the
    manifest of that one cannot be decoded; there is none exactly when all are passed over. */
  lemma {:induction false} CandidateIsEarliest(rows: Rows, repo: RepoView, ids: seq<string>, current: string)
    returns (i: nat)
    ensures NoneAt(rows, repo, ids, current) || FirstAt(rows, repo, ids, current, i)
    ensures NoneAt(rows, repo, ids, current) <==> PreviousCandidate(rows, repo, ids, current) == Ok(None)
    ensures forall k: nat :: FirstAt(rows, repo, ids, current, k) ==>
              k == i && PreviousCandidate(rows, repo, ids, current)
                        == if repo.manifests[ids[k]] then Ok(Some((ids[k], rows[ids[k]].build))) else Err
  {
    if ids == [] {
      i := 0;
    } else if !PassedOver(rows, repo, ids[0], current) {
      i := 0;
    } else {
      var n := CandidateIsEarliest(rows, repo, ids[1..], current);
      i := n + 1;
      forall k: nat | FirstAt(rows, repo, ids, current, k)
        ensures k > 0 && FirstAt(rows, repo, ids[1..], current, k - 1)
      {
        forall j | 0 <= j < k - 1 ensures PassedOver(rows, repo, ids[1..][j], current) {
          assert ids[1..][j] == ids[j + 1];
        }
      }
      if NoneAt(rows, repo, ids[1..], current) {
        forall j | 0 <= j < |ids| ensures PassedOver(rows, repo, ids[j], current) {
          assert j > 0 ==> ids[j] == ids[1..][j - 1];
        }
      } else {
        assert ids[1..][n] == ids[i];
        forall j | 0 <= j < i ensures PassedOver(rows, repo, ids[j], current) {
          assert j > 0 ==> ids[j] == ids[1..][j - 1];
        }
      }
    }
  }

  /** The build that the candidate leads to, with the reason for a full rebuild. */
  ghost predicate RefreshedFrom(q: Request, schema: nat, id: string, previous: StoredBuild, build: StoredBuild) {
    if previous.schemaVersion != schema then build.mode == FullRebuild && build.fallback == Some(SchemaVersionChanged)
    else if previous.configDigest != q.digest then
      build.mode == FullRebuild && build.fallback == Some(IncompatibleConfigChange)
    else
      && build.mode == IncrementalRefresh && build.fallback == None
      && var changed := if id in q.repo.changed then q.repo.changed[id] else {};
         build.state == Incremental(q.src, id, Diff(id, q.src.snapshotId, changed), previous.state)
  }

  /** Case by case: the stored build is loaded exactly when it is readable and has the current schema and
    config; an unreadable row is rebuilt as corrupt; without a candidate there is no prior snapshot; with
    one, its schema and config decide; and a call fails exactly when the manifests cannot be listed, or
    that of the candidate cannot be decoded. */
  lemma EnsureCases(rows: Rows, schema: nat, q: Request)
    ensures var (r, rows') := Ensure(rows, schema, q); var own, ids := q.src.snapshotId, q.repo.listed;
            var usable := own in rows && rows[own].Readable? && rows[own].build.schemaVersion == schema
                          && rows[own].build.configDigest == q.digest;
            var corrupt := own in rows && rows[own].Unreadable?;
            && (r.Ok? && r.value.loadedFromExisting <==> usable)
            && (usable ==> r.value.build == rows[own].build)
            && (corrupt ==> r.Ok? && r.value.build.mode == FullRebuild
                            && r.value.build.fallback == Some(CacheOrIndexCorruption))
            && (!usable && !corrupt && ids.Err? ==> r.Err?)
            && (!usable && !corrupt && ids.Ok? && NoneAt(rows, q.repo, ids.value, own) ==>
                  r.Ok? && r.value.build.mode == FullRebuild && r.value.build.fallback == Some(NoPriorSnapshot))
            && (!usable && !corrupt && ids.Ok? ==>
                  forall i: nat :: FirstAt(rows, q.repo, ids.value, own, i) ==>
                    if q.repo.manifests[ids.value[i]]
                    then r.Ok? && RefreshedFrom(q, schema, ids.value[i], rows[ids.value[i]].build, r.value.build)
                    else r.Err?)
  {
    if q.repo.listed.Ok? {
      var i := CandidateIsEarliest(rows, q.repo, q.repo.listed.value, q.src.snapshotId);
    }
    hide PreviousCandidate;
    hide Incremental;
    hide BuildFull;
    hide PassedOver;
  }

  /** What a call stores is labelled with the repository, the snapshot, the config, the schema and the time
    of the call. */
  lemma StoredUnderItsOwnNames(rows: Rows, schema: nat, q: Request)
    requires Ensure(rows, schema, q).0.Ok? && !Ensure(rows, schema, q).0.value.loadedFromExisting
    ensures var build := Ensure(rows, schema, q).0.value.build;
            && build.repoId == q.repoId && build.snapshotId == q.src.snapshotId && build.configDigest == q.digest
            && build.schemaVersion == schema && build.createdAt == q.now
            && Ensure(rows, schema, q).1 == rows[q.src.snapshotId := Readable(build)]
  {
    hide PreviousCandidate;
    hide Incremental;
    hide BuildFull;
  }

  /** A refresh is incremental exactly when there is no usable build, the row is not unreadable,
    and the first candidate has the current schema and config. */
  lemma WhenIncremental(rows: Rows, schema: nat, q: Request)
    requires Ensure(rows, schema, q).0.Ok? && !Ensure(rows, schema, q).0.value.loadedFromExisting
    ensures var build := Ensure(rows, schema, q).0.value.build;
            (build.mode == IncrementalRefresh <==> build.fallback == None)
            && (build.mode == IncrementalRefresh <==>
                  && !Load(rows, q.src.snapshotId).Err?
                  && exists id, previous :: id != q.src.snapshotId && Load(rows, id) == Ok(Some(previous))
                       && PreviousCandidate(rows, q.repo, q.repo.listed.value, q.src.snapshotId)
                          == Ok(Some((id, previous)))
                       && Current(schema, q.digest, previous))
  {
    if !Load(rows, q.src.snapshotId).Err? {
      CandidateIsStored(rows, q.repo, q.repo.listed.value, q.src.snapshotId);
      var found := PreviousCandidate(rows, q.repo, q.repo.listed.value, q.src.snapshotId);
      if found.value.Some? {
        assert Load(rows, found.value.value.0) == Ok(Some(found.value.value.1));
      }
    }
  }

  /* ---- status ---- */

  datatype AnalysisState = NotReady | Stale | Ready

  datatype Diagnostic = Disabled | IndexNotReady | BuildCorrupt | BuildStale | BuildMissing | TraversalReady

  datatype Status = Status(state: AnalysisState, manifest: Option<StoredBuild>, diagnostic: Diagnostic)

  function StatusOf(enabled: bool, indexed: bool, rows: Rows, schema: nat, digest: string, snapshotId: string): Status {
    if !enabled then Status(NotReady, None, Disabled)
    else
      var loaded := Load(rows, snapshotId);
      var materialized := if loaded.Ok? then loaded.value else None;
      var corrupt := loaded.Err?;
      var stale := corrupt || (materialized.Some? && !Current(schema, digest, materialized.value));
      Status(
        if !indexed then NotReady else if stale then Stale else Ready,
        materialized,
        if !indexed then IndexNotReady else if corrupt then BuildCorrupt else if stale then BuildStale
        else if materialized.None? then BuildMissing else TraversalReady)
  }

  /** NotReady exactly when the analysis is disabled or the snapshot not indexed; and which diagnostic goes
    with which row.  The manifest of a readable build is shown even when the index is not ready. */
  lemma StatusAnswers(enabled: bool, indexed: bool, rows: Rows, schema: nat, digest: string, id: string)
    ensures var s := StatusOf(enabled, indexed, rows, schema, digest, id);
            var readable := id in rows && rows[id].Readable?;
            var current := readable && rows[id].build.schemaVersion == schema && rows[id].build.configDigest == digest;
            && (s.state == NotReady <==> !enabled || !indexed)
            && (s.state == Stale <==> enabled && indexed && id in rows && !current)
            && (s.diagnostic == Disabled <==> !enabled)
            && (s.diagnostic == IndexNotReady <==> enabled && !indexed)
            && (s.diagnostic == BuildCorrupt <==> enabled && indexed && id in rows && !readable)
            && (s.diagnostic == BuildStale <==> enabled && indexed && readable && !current)
            && (s.diagnostic == BuildMissing <==> enabled && indexed && id !in rows)
            && (s.diagnostic == TraversalReady <==> enabled && indexed && current)
            && s.manifest == if enabled && readable then Some(rows[id].build) else None
  {
  }

  /** On an enabled, indexed snapshot: Ready with a manifest exactly when `ensure_build` loads the
    existing build; Stale exactly when there is a row and it would not be loaded; Ready without
    a manifest exactly when there is no row; and Ready with the build after any success. */
  lemma StatusForetells(rows: Rows, schema: nat, q: Request)
    ensures var s := StatusOf(true, true, rows, schema, q.digest, q.src.snapshotId);
            var (r, rows') := Ensure(rows, schema, q);
            && (s.state == Ready && s.manifest.Some? <==> r.Ok? && r.value.loadedFromExisting)
            && (s.state == Ready && s.manifest.Some? ==> s.manifest.value == r.value.build)
            && (s.state == Stale <==> q.src.snapshotId in rows && !(r.Ok? && r.value.loadedFromExisting))
            && (s.state == Ready && s.manifest.None? <==> q.src.snapshotId !in rows)
            && (r.Ok? ==> StatusOf(true, true, rows', schema, q.digest, q.src.snapshotId)
                          == Status(Ready, Some(r.value.build), TraversalReady))
  {
    RebuildIsCurrent(rows, schema, q);
  }

  lemma RebuildIsCurrent(rows: Rows, schema: nat, q: Request)
    ensures var r := Rebuild(rows, schema, q);
            r.Ok? ==> r.value.snapshotId == q.src.snapshotId && Current(schema, q.digest, r.value)
  {
  }
}
