/** Validations, dataset activations and cache entries, interleaved at every await of `geo-validation.service.ts`. */
module GeoValidation {
  import opened Wrappers
  import opened GeoCache

  datatype Verdict = Allow | Reject | Uncertain

  /** What the datasets say of a point inside the coordinate range. */
  datatype Ground = ManualAllow | NavigableWater | CoastalTolerance | DeepLand | NotLand

  datatype Reason = OnGround(ground: Ground) | DatasetUnavailable | InvalidCoordinates | Disabled | GeoValidationError

  datatype RepositoryResult = RepositoryResult(verdict: Verdict, reason: Reason, datasetVersion: Option<string>)

  datatype Result = Result(verdict: Verdict, reason: Reason, datasetVersion: Option<string>, shouldDrop: bool)

  /** Settings, and the ground that each dataset version gives each point. */
  datatype Env = Env(
    enabled: bool, failOpen: bool, cacheEnabled: bool, precision: nat, toFixed: Fixed, ground: (string, Point) -> Ground)

  const DEGREE := 10_000_000

  predicate InRange(p: Point) {
    -180 * DEGREE <= p.lon <= 180 * DEGREE && -90 * DEGREE <= p.lat <= 90 * DEGREE
  }

  function VerdictOn(ground: Ground): Verdict {
    match ground
    case ManualAllow => Allow
    case NavigableWater => Allow
    case CoastalTolerance => Uncertain
    case DeepLand => Reject
    case NotLand => Allow
  }

  /** `geo_validate_position` with the dataset active at the time of the query. */
  function GeoValidatePosition(env: Env, active: Option<string>, p: Point): RepositoryResult {
    if !InRange(p) then RepositoryResult(Reject, InvalidCoordinates, None)
    else if active.None? then RepositoryResult(Allow, DatasetUnavailable, None)
    else
      var ground := env.ground(active.value, p);
      RepositoryResult(VerdictOn(ground), OnGround(ground), active)
  }

  function ShouldDrop(verdict: Verdict, reason: Reason): bool {
    verdict == Reject && (reason == OnGround(DeepLand) || reason == GeoValidationError)
  }

  function ToResult(r: RepositoryResult): Result {
    Result(r.verdict, r.reason, r.datasetVersion, ShouldDrop(r.verdict, r.reason))
  }

  function ErrorResult(env: Env): Result {
    Result(if env.failOpen then Allow else Reject, GeoValidationError, None, !env.failOpen)
  }

  predicate Truthy(s: Option<string>) {
    s.Some? && s.value != ""
  }

  // ----- One validation, await by await -----

  datatype Source = FromBypass | FromCache | FromPostgis | FromError

  /** Where a validation stands: before its first await, or at the await that its name says, or done. */
  datatype Phase =
    | Starting
    | ReadingCache(version: string)
    | Querying
    | WritingCache(result: Result)
    | Answered(result: Result, source: Source)

  datatype Task = Task(point: Point, phase: Phase)

  /** Which awaits throw. */
  datatype Faults = Faults(activeRead: bool, cacheRead: bool, query: bool, cacheWrite: bool)

  /** What the validations share: the active dataset, the cache, and the exported version gauge with its memory. */
  datatype Shared = Shared(active: Option<string>, cache: map<string, Result>, last: Option<string>, gauge: set<string>)

  function Recorded(sh: Shared, version: string): Shared {
    var kept := if Truthy(sh.last) && sh.last != Some(version) then sh.gauge - {sh.last.value} else sh.gauge;
    sh.(last := Some(version), gauge := kept + {version})
  }

  function ClearedVersion(sh: Shared): Shared {
    sh.(last := None, gauge := if Truthy(sh.last) then sh.gauge - {sh.last.value} else sh.gauge)
  }

  function Key(env: Env, version: string, p: Point): string {
    BuildKey(env.toFixed, env.precision, version, p)
  }

  /** From one await to the next. */
  function Advance(env: Env, sh: Shared, task: Task, f: Faults): (Shared, Task) {
    var p := task.point;
    match task.phase
    case Starting =>
      if !env.enabled then (sh, Task(p, Answered(Result(Allow, Disabled, None, false), FromBypass)))
      else if f.activeRead then (sh, Task(p, Answered(ErrorResult(env), FromError)))
      else if Truthy(sh.active) then (Recorded(sh, sh.active.value), Task(p, ReadingCache(sh.active.value)))
      else (ClearedVersion(sh), Task(p, Querying))
    case ReadingCache(version) =>
      if env.cacheEnabled && !f.cacheRead && Key(env, version, p) in sh.cache
      then (sh, Task(p, Answered(sh.cache[Key(env, version, p)], FromCache)))
      else (sh, Task(p, Querying))
    case Querying =>
      if f.query then (sh, Task(p, Answered(ErrorResult(env), FromError)))
      else
        var result := ToResult(GeoValidatePosition(env, sh.active, p));
        var sh' := if Truthy(result.datasetVersion) then Recorded(sh, result.datasetVersion.value) else sh;
        if Truthy(result.datasetVersion) && result.reason != DatasetUnavailable then (sh', Task(p, WritingCache(result)))
        else (sh', Task(p, Answered(result, FromPostgis)))
    case WritingCache(result) =>
      if env.cacheEnabled && !f.cacheWrite && result.datasetVersion.Some?
      then (sh.(cache := sh.cache[Key(env, result.datasetVersion.value, p) := result]), Task(p, Answered(result, FromPostgis)))
      else (sh, Task(p, Answered(result, FromPostgis)))
    case Answered(_, _) => (sh, task)
  }

  function Advances(env: Env, sh: Shared, task: Task, f: Faults, n: nat): (Shared, Task)
    decreases n
  {
    if n == 0 then (sh, task)
    else
      var (sh', task') := Advance(env, sh, task, f);
      Advances(env, sh', task', f, n - 1)
  }

  /** The service over its stores, for a call that nothing interrupts. */
  class GeoValidationService {
    const env: Env
    var active: Option<string>
    var cache: map<string, Result>
    var lastActiveDatasetVersion: Option<string>
    var activeDatasetInfo: set<string>

    ghost function State(): Shared
      reads this
    {
      Shared(active, cache, lastActiveDatasetVersion, activeDatasetInfo)
    }

    constructor (env: Env)
      ensures this.env == env && State() == Shared(None, map[], None, {})
    {
      this.env := env;
      active, cache, lastActiveDatasetVersion, activeDatasetInfo := None, map[], None, {};
    }

    method RecordActiveDatasetVersion(version: string)
      modifies this
      ensures State() == Recorded(old(State()), version)
      ensures version != "" && old(GaugeSound(State())) ==> GaugeSound(State())
    {
      if Truthy(lastActiveDatasetVersion) && lastActiveDatasetVersion != Some(version) {
        activeDatasetInfo := activeDatasetInfo - {lastActiveDatasetVersion.value};
      }
      lastActiveDatasetVersion := Some(version);
      activeDatasetInfo := activeDatasetInfo + {version};
    }

    method ClearActiveDatasetVersion()
      modifies this
      ensures State() == ClearedVersion(old(State()))
      ensures old(GaugeSound(State())) ==> GaugeSound(State())
    {
      if Truthy(lastActiveDatasetVersion) {
        activeDatasetInfo := activeDatasetInfo - {lastActiveDatasetVersion.value};
      }
      lastActiveDatasetVersion := None;
    }

    method ReadCache(version: string, p: Point, fault: bool) returns (cached: Option<Result>)
      ensures cached == if env.cacheEnabled && !fault && Key(env, version, p) in cache then Some(cache[Key(env, version, p)]) else None
    {
      if !env.cacheEnabled || fault { return None; }
      var key := Key(env, version, p);
      cached := if key in cache then Some(cache[key]) else None;
    }

    /** `validatePosition`: a run of the awaits above to its answer. */
    method ValidatePosition(p: Point, f: Faults) returns (result: Result, source: Source)
      modifies this
      ensures Advances(env, old(State()), Task(p, Starting), f, 4) == (State(), Task(p, Answered(result, source)))
    {
      hide Recorded, ClearedVersion, GeoValidatePosition, ToResult, ErrorResult, Key, Advances;
      FourAdvances(env, State(), Task(p, Starting), f);
      if !env.enabled {
        return Result(Allow, Disabled, None, false), FromBypass;
      }
      if f.activeRead { return ErrorResult(env), FromError; }
      var version := active;
      if Truthy(version) {
        RecordActiveDatasetVersion(version.value);
        var cached := ReadCache(version.value, p, f.cacheRead);
        if cached.Some? { return cached.value, FromCache; }
      } else {
        ClearActiveDatasetVersion();
      }
      if f.query { return ErrorResult(env), FromError; }
      result := ToResult(GeoValidatePosition(env, active, p));
      if Truthy(result.datasetVersion) {
        RecordActiveDatasetVersion(result.datasetVersion.value);
      }
      if Truthy(result.datasetVersion) && result.reason != DatasetUnavailable {
        if env.cacheEnabled && !f.cacheWrite {
          cache := cache[Key(env, result.datasetVersion.value, p) := result];
        }
      }
      source := FromPostgis;
    }
  }

  lemma FourAdvances(env: Env, sh: Shared, task: Task, f: Faults)
    ensures var (s1, t1) := Advance(env, sh, task, f);
      var (s2, t2) := Advance(env, s1, t1, f);
      var (s3, t3) := Advance(env, s2, t2, f);
      Advances(env, sh, task, f, 4) == Advance(env, s3, t3, f)
  {
    var (s1, t1) := Advance(env, sh, task, f);
    var (s2, t2) := Advance(env, s1, t1, f);
    var (s3, t3) := Advance(env, s2, t2, f);
    hide Advance;
    assert Advances(env, sh, task, f, 4) == Advances(env, s1, t1, f, 3);
    assert Advances(env, s1, t1, f, 3) == Advances(env, s2, t2, f, 2);
    assert Advances(env, s2, t2, f, 2) == Advances(env, s3, t3, f, 1);
  }

  // ----- Any interleaving -----

  datatype System = System(shared: Shared, tasks: seq<Task>)

  const INITIAL := System(Shared(None, map[], None, {}), [])

  datatype Action =
    | Begin(point: Point)
    | Continue(task: nat, faults: Faults)
    | Activate(version: Option<string>)
    | Expire(key: string)

  function Step(env: Env, s: System, a: Action): System {
    match a
    case Begin(p) => s.(tasks := s.tasks + [Task(p, Starting)])
    case Continue(i, f) =>
      if i < |s.tasks| then
        var (sh, t) := Advance(env, s.shared, s.tasks[i], f);
        System(sh, s.tasks[i := t])
      else s
    case Activate(v) => s.(shared := s.shared.(active := v))
    case Expire(key) => s.(shared := s.shared.(cache := s.shared.cache - {key}))
  }

  function RunFrom(env: Env, s: System, actions: seq<Action>): System
    decreases |actions|
  {
    if actions == [] then s else RunFrom(env, Step(env, s, actions[0]), actions[1..])
  }

  /** The result that version `v` gives a point inside the coordinate range. */
  ghost predicate IsVerdict(env: Env, v: string, q: Point, r: Result) {
    InRange(q) && r == ToResult(GeoValidatePosition(env, Some(v), q))
  }

  ghost predicate SameBucket(env: Env, p: Point, q: Point) {
    BucketOf(env.toFixed, env.precision, p) == BucketOf(env.toFixed, env.precision, q)
  }

  /** Every entry is the verdict of its version for some point of its bucket. */
  ghost predicate CacheSound(env: Env, cache: map<string, Result>) {
    forall key :: key in cache ==> exists v, q :: key == Key(env, v, q) && IsVerdict(env, v, q, cache[key])
  }

  /** The verdict that each reason stands for: only deep land, coordinates out of range and a failure that closes reject. */
  function VerdictFor(env: Env, reason: Reason): Verdict {
    if reason == OnGround(DeepLand) || reason == InvalidCoordinates || (reason == GeoValidationError && !env.failOpen) then Reject
    else if reason == OnGround(CoastalTolerance) then Uncertain
    else Allow
  }

  /** A result that names a version is that version's verdict in the query's bucket; only two kinds of result drop. */
  ghost predicate AnswerSound(env: Env, p: Point, r: Result, source: Source) {
    && (r.datasetVersion.Some? ==>
          exists q :: SameBucket(env, p, q) && IsVerdict(env, r.datasetVersion.value, q, r) && (source != FromCache ==> q == p))
    && (source == FromCache ==> r.datasetVersion.Some?)
    && (r.shouldDrop <==> r.reason == OnGround(DeepLand) || (r.reason == GeoValidationError && !env.failOpen))
    && (r.reason.OnGround? <==> r.datasetVersion.Some?)
    && r.verdict == VerdictFor(env, r.reason)
    && (source == FromPostgis ==> (r.reason == InvalidCoordinates <==> !InRange(p)))
    && (r.reason == InvalidCoordinates || r.reason == DatasetUnavailable ==> source == FromPostgis)
    && (r.reason == GeoValidationError <==> source == FromError)
    && (r.reason == Disabled <==> source == FromBypass)
  }

  ghost predicate TaskSound(env: Env, t: Task) {
    match t.phase
    case WritingCache(r) => exists v :: IsVerdict(env, v, t.point, r)
    case Answered(r, source) => AnswerSound(env, t.point, r, source)
    case _ => true
  }

  /** Exactly the last recorded version is exported, if any. */
  ghost predicate GaugeSound(sh: Shared) {
    && (sh.last.Some? ==> Truthy(sh.last))
    && sh.gauge == if sh.last.Some? then {sh.last.value} else {}
  }

  ghost predicate Inv(env: Env, s: System) {
    && CacheSound(env, s.shared.cache)
    && GaugeSound(s.shared)
    && forall i :: 0 <= i < |s.tasks| ==> TaskSound(env, s.tasks[i])
  }

  lemma HitIsSound(env: Env, cache: map<string, Result>, v: string, p: Point)
    requires PrintsNumbers(env.toFixed) && CacheSound(env, cache) && Key(env, v, p) in cache
    ensures AnswerSound(env, p, cache[Key(env, v, p)], FromCache)
    ensures cache[Key(env, v, p)].datasetVersion == Some(v)
  {
    var r := cache[Key(env, v, p)];
    var w, q :| Key(env, v, p) == Key(env, w, q) && IsVerdict(env, w, q, r);
    KeyInjective(v, BucketOf(env.toFixed, env.precision, p), w, BucketOf(env.toFixed, env.precision, q));
    assert SameBucket(env, p, q);
  }

  lemma WriteIsSound(env: Env, cache: map<string, Result>, p: Point, r: Result)
    requires CacheSound(env, cache) && r.datasetVersion.Some? && IsVerdict(env, r.datasetVersion.value, p, r)
    ensures CacheSound(env, cache[Key(env, r.datasetVersion.value, p) := r])
  {
    hide Key, IsVerdict;
  }

  lemma RecordedIsSound(sh: Shared, version: string)
    requires GaugeSound(sh) && version != ""
    ensures GaugeSound(Recorded(sh, version))
    ensures GaugeSound(ClearedVersion(sh))
  {
  }

  lemma PostgisIsSound(env: Env, active: Option<string>, p: Point)
    ensures var r := ToResult(GeoValidatePosition(env, active, p));
      && AnswerSound(env, p, r, FromPostgis)
      && (r.datasetVersion.Some? ==> r.datasetVersion == active && IsVerdict(env, active.value, p, r))
  {
    assert SameBucket(env, p, p);
  }

  lemma AdvanceKeeps(env: Env, sh: Shared, t: Task, f: Faults)
    requires PrintsNumbers(env.toFixed) && CacheSound(env, sh.cache) && GaugeSound(sh) && TaskSound(env, t)
    ensures var (sh', t') := Advance(env, sh, t, f); CacheSound(env, sh'.cache) && GaugeSound(sh') && TaskSound(env, t')
  {
    match t.phase
    case Starting =>
      hide Key, CacheSound;
      if Truthy(sh.active) { RecordedIsSound(sh, sh.active.value); }
      RecordedIsSound(sh, "v");
    case ReadingCache(v) =>
      if Key(env, v, t.point) in sh.cache { HitIsSound(env, sh.cache, v, t.point); }
      hide Key, CacheSound, AnswerSound;
    case Querying =>
      PostgisIsSound(env, sh.active, t.point);
      var r := ToResult(GeoValidatePosition(env, sh.active, t.point));
      if Truthy(r.datasetVersion) { RecordedIsSound(sh, r.datasetVersion.value); }
      assert AnswerSound(env, t.point, ErrorResult(env), FromError);
      hide Key, CacheSound, AnswerSound, IsVerdict, GeoValidatePosition, ToResult;
    case WritingCache(r) =>
      var v :| IsVerdict(env, v, t.point, r);
      assert r.datasetVersion == Some(v);
      PostgisIsSound(env, Some(v), t.point);
      hide Key, CacheSound, AnswerSound, IsVerdict, GeoValidatePosition;
      WriteIsSound(env, sh.cache, t.point, r);
    case Answered(_, _) =>
  }

  lemma StepKeeps(env: Env, s: System, a: Action)
    requires PrintsNumbers(env.toFixed) && Inv(env, s)
    ensures Inv(env, Step(env, s, a))
  {
    match a
    case Continue(i, f) =>
      if i < |s.tasks| {
        AdvanceKeeps(env, s.shared, s.tasks[i], f);
      }
      hide CacheSound, TaskSound, Advance, GaugeSound;
    case Begin(p) => hide CacheSound, GaugeSound, AnswerSound;
    case Activate(v) => hide CacheSound, TaskSound;
    case Expire(key) => hide Key, IsVerdict, TaskSound;
  }

  lemma {:induction false} RunKeeps(env: Env, s: System, actions: seq<Action>)
    requires PrintsNumbers(env.toFixed) && Inv(env, s)
    ensures Inv(env, RunFrom(env, s, actions))
    decreases |actions|
  {
    if actions != [] {
      StepKeeps(env, s, actions[0]);
      hide Inv, Step, PrintsNumbers;
      RunKeeps(env, Step(env, s, actions[0]), actions[1..]);
    }
  }

  /**
   * Under any interleaving of validations, activations, expiries and faults, every cache entry is its version's verdict
   * for a point of its bucket, every answer is sound, and at most the last recorded version is exported.
   */
  lemma VersionsStayApart(env: Env, actions: seq<Action>)
    requires PrintsNumbers(env.toFixed)
    ensures Inv(env, RunFrom(env, INITIAL, actions))
  {
    RunKeeps(env, INITIAL, actions);
  }

  /**
   * Every answer spelled out. It names a dataset version exactly when it reports the ground, and then it is the ground
   * that this version gives a point of the query's bucket inside the coordinate range, the query's own unless it came
   * from the cache; a query that reached the database is refused for its coordinates exactly when they are out of range;
   * the verdict is the reason's; and it drops the position exactly on deep land or on a failure that closes.
   */
  lemma AnswersSpelledOut(env: Env, actions: seq<Action>, i: nat)
    requires PrintsNumbers(env.toFixed)
    requires var tasks := RunFrom(env, INITIAL, actions).tasks; i < |tasks| && tasks[i].phase.Answered?
    ensures
      var task := RunFrom(env, INITIAL, actions).tasks[i];
      var p, r, source := task.point, task.phase.result, task.phase.source;
      && (r.reason.OnGround? <==> r.datasetVersion.Some?)
      && (r.reason.OnGround? ==> exists q ::
            && SameBucket(env, p, q) && (source != FromCache ==> q == p)
            && -1_800_000_000 <= q.lon <= 1_800_000_000 && -900_000_000 <= q.lat <= 900_000_000
            && r.reason.ground == env.ground(r.datasetVersion.value, q))
      && (source == FromPostgis ==>
            (r.reason == InvalidCoordinates <==>
               !(-1_800_000_000 <= p.lon <= 1_800_000_000 && -900_000_000 <= p.lat <= 900_000_000)))
      && r.verdict == VerdictFor(env, r.reason)
      && (r.shouldDrop <==> r.reason == OnGround(DeepLand) || (r.reason == GeoValidationError && !env.failOpen))
      && (r.reason == GeoValidationError <==> source == FromError)
      && (r.reason == Disabled <==> source == FromBypass)
  {
    VersionsStayApart(env, actions);
    var task := RunFrom(env, INITIAL, actions).tasks[i];
    hide RunFrom, CacheSound, GaugeSound, SameBucket;
    assert TaskSound(env, task);
    VersionedAnswer(env, task.point, task.phase.result, task.phase.source);
  }

  lemma VersionedAnswer(env: Env, p: Point, r: Result, source: Source)
    requires AnswerSound(env, p, r, source)
    ensures r.datasetVersion.Some? ==> r.reason.OnGround? && exists q ::
      && SameBucket(env, p, q) && (source != FromCache ==> q == p)
      && -1_800_000_000 <= q.lon <= 1_800_000_000 && -900_000_000 <= q.lat <= 900_000_000
      && r.reason.ground == env.ground(r.datasetVersion.value, q)
  {
    hide SameBucket;
    if r.datasetVersion.Some? {
      var q :| SameBucket(env, p, q) && IsVerdict(env, r.datasetVersion.value, q, r) && (source != FromCache ==> q == p);
      assert r.reason == OnGround(env.ground(r.datasetVersion.value, q));
    }
  }

  /** No answer came from the cache. */
  ghost predicate NoHits(s: System) {
    forall i :: 0 <= i < |s.tasks| && s.tasks[i].phase.Answered? ==> s.tasks[i].phase.source != FromCache
  }

  lemma StepLeavesCacheAlone(env: Env, s: System, a: Action)
    requires !env.cacheEnabled && NoHits(s)
    ensures
      var t := Step(env, s, a);
      NoHits(t) && forall key :: key in t.shared.cache ==> key in s.shared.cache && t.shared.cache[key] == s.shared.cache[key]
  {
    hide Key, ToResult, GeoValidatePosition, ErrorResult;
  }

  /** A cache that is switched off is neither written nor read, in any run, whatever it still holds. */
  lemma {:induction false} DisabledCacheIsUnused(env: Env, s: System, actions: seq<Action>)
    requires !env.cacheEnabled && NoHits(s)
    ensures
      var t := RunFrom(env, s, actions);
      NoHits(t) && forall key :: key in t.shared.cache ==> key in s.shared.cache && t.shared.cache[key] == s.shared.cache[key]
    decreases |actions|
  {
    if actions != [] {
      StepLeavesCacheAlone(env, s, actions[0]);
      hide NoHits, Step;
      DisabledCacheIsUnused(env, Step(env, s, actions[0]), actions[1..]);
    }
  }

  /** All points of a bucket that holds a point in range are in range and stand on the same ground. */
  ghost predicate BucketsAgree(env: Env, v: string) {
    forall p, q :: InRange(p) && SameBucket(env, p, q) ==> InRange(q) && env.ground(v, p) == env.ground(v, q)
  }

  /** When buckets are finer than the dataset, caching changes no answer: it is the version's verdict for the point asked. */
  lemma CacheIsTransparent(env: Env, actions: seq<Action>, i: nat)
    requires PrintsNumbers(env.toFixed)
    ensures var tasks := RunFrom(env, INITIAL, actions).tasks;
      i < |tasks| && tasks[i].phase.Answered? && tasks[i].phase.result.datasetVersion.Some?
        && BucketsAgree(env, tasks[i].phase.result.datasetVersion.value) ==>
      IsVerdict(env, tasks[i].phase.result.datasetVersion.value, tasks[i].point, tasks[i].phase.result)
  {
    VersionsStayApart(env, actions);
    var tasks := RunFrom(env, INITIAL, actions).tasks;
    hide RunFrom, CacheSound, GaugeSound;
    if i < |tasks| && tasks[i].phase.Answered? && tasks[i].phase.result.datasetVersion.Some?
       && BucketsAgree(env, tasks[i].phase.result.datasetVersion.value)
    {
      assert AnswerSound(env, tasks[i].point, tasks[i].phase.result, tasks[i].phase.source);
    }
  }

  /**
   * The second of two calls in one bucket is given the verdict of the first, even out of range; that is its own verdict
   * exactly when the bucket agrees on the two points.
   */
  lemma SecondCallGetsTheFirstVerdict(env: Env, v: string, p: Point, q: Point)
    requires env.enabled && env.cacheEnabled && v != "" && InRange(p) && SameBucket(env, p, q)
    ensures var none, sh := Faults(false, false, false, false), Shared(Some(v), map[], None, {});
      var (after, first) := Advances(env, sh, Task(p, Starting), none, 4);
      var (_, second) := Advances(env, after, Task(q, Starting), none, 4);
      && first.phase == Answered(ToResult(GeoValidatePosition(env, Some(v), p)), FromPostgis)
      && second.phase == Answered(ToResult(GeoValidatePosition(env, Some(v), p)), FromCache)
      && (second.phase.result == ToResult(GeoValidatePosition(env, Some(v), q)) <==> InRange(q) && env.ground(v, p) == env.ground(v, q))
  {
    var none, sh := Faults(false, false, false, false), Shared(Some(v), map[], None, {});
    FourAdvances(env, sh, Task(p, Starting), none);
    var (after, first) := Advances(env, sh, Task(p, Starting), none, 4);
    FourAdvances(env, after, Task(q, Starting), none);
    assert Key(env, v, p) == Key(env, v, q);
    hide Advances, Key, Recorded;
  }
}
