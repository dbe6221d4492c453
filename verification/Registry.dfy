/** The mount registry: scope realms, the longest-prefix router and the host-realm path canon. */
module Registry {
  import opened Wrappers
  import opened Types
  import opened Ast
  import opened Errors
  import opened Paths
  import Plan

  // ---- Drivers, as far as planning looks at them ----

  datatype ChildAddress = Key(columns: seq<string>) | EntryName(column: string) | NoChild

  datatype NodeDesc = NodeDesc(schema: Schema, childAddress: ChildAddress)

  datatype ProcSig = ProcSig(name: string, params: seq<string>, irreversible: bool, returnsRows: bool)

  datatype AliasFn = AliasFn(name: string, desugarsTo: string)

  datatype Driver = Driver(
    id: string,
    mount: string,
    describe: string -> Option<NodeDesc>,
    procedures: seq<ProcSig>,
    prelude: seq<AliasFn>,
    supports: (string, EffectVerb) -> bool,
    planWrite: (string, EffectVerb, RowBatch, Option<RowBatch>) -> Option<Result<Plan.Plan, string>>,
    planCall: (string, string, RowBatch) -> Option<Result<(), string>>,
    writeIrreversible: (string, EffectVerb) -> bool)

  // ---- Realms ----

  datatype Realm = Members | Projects | Hosts | Directories | Me | Sys
  {
    function AsStr(): string {
      match this
      case Members => "members"
      case Projects => "projects"
      case Hosts => "hosts"
      case Directories => "directories"
      case Me => "me"
      case Sys => "sys"
    }

    predicate TakesPrincipal() {
      Members? || Projects? || Hosts? || Directories?
    }
  }

  function RealmOf(segment: string): (r: Option<Realm>)
    ensures r.Some? ==> r.value.AsStr() == segment
  {
    if segment == "members" then Some(Members)
    else if segment == "projects" then Some(Projects)
    else if segment == "hosts" then Some(Hosts)
    else if segment == "directories" then Some(Directories)
    else if segment == "me" then Some(Me)
    else if segment == "sys" then Some(Sys)
    else None
  }

  datatype PathScopeError = MissingPrincipal(realm: Realm) | ReentersRealm(realm: Realm)

  datatype ScopeResolution = ScopeResolution(realm: Realm, principal: Option<string>, service: string)

  function RejectCrossRealm(service: seq<string>): Option<PathScopeError> {
    if service != [] && RealmOf(service[0]).Some? then Some(ReentersRealm(RealmOf(service[0]).value)) else None
  }

  /** Peels a leading realm (and its principal) off the path; a bare path belongs to the self realm. */
  function PeelScope(path: string): Result<ScopeResolution, PathScopeError> {
    var segments := Segments(path);
    if segments == [] then Ok(ScopeResolution(Me, None, "/"))
    else
      match RealmOf(segments[0])
      case None => Ok(ScopeResolution(Me, None, Render(segments)))
      case Some(realm) =>
        if realm == Sys then Ok(ScopeResolution(Sys, None, Render(segments)))
        else if realm.TakesPrincipal() then
          if |segments| < 2 then Err(MissingPrincipal(realm))
          else
            (match RejectCrossRealm(segments[2..])
             case Some(e) => Err(e)
             case None => Ok(ScopeResolution(realm, Some(segments[1]), Render(segments[2..]))))
        else
          match RejectCrossRealm(segments[1..])
          case Some(e) => Err(e)
          case None => Ok(ScopeResolution(Me, None, Render(segments[1..])))
  }

  // ---- The router ----

  datatype TransformDef =
    TransformDef(input: Schema, output: Schema, provider: string, model: string, effort: Option<string>, mode: string)

  /** A snapshot of the registry. */
  datatype Mounts = Mounts(
    table: map<string, Driver>,
    hostOnly: set<string>,
    transforms: map<string, TransformDef>,
    types: map<string, Schema>)

  /** The path is the mount, or continues below it with a slash. */
  predicate Under(path: string, mount: string) {
    mount <= path && (path == mount || path[|mount|] == '/')
  }

  /** The length of the longest mount of at most `k` characters the path is under. */
  function LongestMount(table: map<string, Driver>, path: string, k: nat): (r: Option<nat>)
    requires k <= |path|
    ensures r.Some? ==> r.value <= k && path[..r.value] in table && Under(path, path[..r.value])
    ensures r.Some? ==> forall m :: m in table && Under(path, m) && |m| <= k ==> |m| <= r.value
    ensures r.None? ==> forall m :: m in table && |m| <= k ==> !Under(path, m)
  {
    assert forall m :: Under(path, m) && |m| == k ==> m == path[..k];
    if path[..k] in table && Under(path, path[..k]) then Some(k)
    else if k == 0 then None
    else LongestMount(table, path, k - 1)
  }

  function BestMount(table: map<string, Driver>, path: string): (r: Option<string>)
    ensures r.Some? ==> r.value in table && Under(path, r.value)
    ensures r.Some? ==> forall m :: m in table && Under(path, m) ==> |m| <= |r.value|
    ensures r.None? ==> forall m :: m in table ==> !Under(path, m)
  {
    match LongestMount(table, path, |path|)
    case None => None
    case Some(k) => Some(path[..k])
  }

  function ResolveServicePath(mounts: Mounts, path: string): Option<(Driver, string)> {
    match BestMount(mounts.table, path)
    case None => None
    case Some(mount) => Some((mounts.table[mount], TrimStart(path[|mount|..], '/')))
  }

  const LOCAL_HOST := "local"

  function ResolvePath(mounts: Mounts, path: string): Option<(Driver, string)> {
    if LeadingSegment(path) == "hosts" then
      match PeelScope(path)
      case Ok(res) => if res.principal == Some(LOCAL_HOST) then ResolveServicePath(mounts, res.service) else None
      case Err(_) => None
    else ResolveServicePath(mounts, path)
  }

  function CanonicalizeHostPath(mounts: Mounts, path: string): Result<string, HostScopeError> {
    if LeadingSegment(path) == "hosts" then
      match PeelScope(path)
      case Ok(res) =>
        (match res.principal
         case Some(host) => if host == LOCAL_HOST then Ok(res.service) else Err(RemoteHostNotExecutable(host, path))
         case None => Err(MissingHost(path)))
      case Err(MissingPrincipal(_)) => Err(MissingHost(path))
      case Err(ReentersRealm(realm)) => Err(CrossRealm(realm.AsStr(), path))
    else
      match ResolveServicePath(mounts, path)
      case Some((driver, _)) =>
        if driver.mount in mounts.hostOnly then Err(RetiredBarePath(path, "/hosts/" + LOCAL_HOST + path)) else Ok(path)
      case None => Ok(path)
  }

  // ---- Registration ----

  datatype RegistryError = ReservedRealmMount(mount: string, realm: Realm) | DuplicateRegistration(mount: string)

  function Registration(table: map<string, Driver>, key: string, driver: Driver): Result<map<string, Driver>, RegistryError> {
    var realm := RealmOf(LeadingSegment(key));
    if realm.Some? && realm.value != Sys then Err(ReservedRealmMount(key, realm.value))
    else if key in table then Err(DuplicateRegistration(key))
    else Ok(table[key := driver])
  }

  /** The registry the program mutates. */
  class MountRegistry {
    var table: map<string, Driver>
    var hostOnly: set<string>
    var transforms: map<string, TransformDef>
    var types: map<string, Schema>

    function Snapshot(): Mounts
      reads this
    {
      Mounts(table, hostOnly, transforms, types)
    }

    constructor ()
      ensures Snapshot() == Mounts(map[], {}, map[], map[])
    {
      table, hostOnly, transforms, types := map[], {}, map[], map[];
    }

    method RegisterAlias(alias: string, driver: Driver) returns (r: Result<(), RegistryError>)
      modifies this`table
      ensures match Registration(old(table), alias, driver)
              case Ok(t) => r == Ok(()) && table == t
              case Err(e) => r == Err(e) && table == old(table)
    {
      var realm := RealmOf(LeadingSegment(alias));
      if realm.Some? && realm.value != Sys {
        return Err(ReservedRealmMount(alias, realm.value));
      }
      if alias in table {
        return Err(DuplicateRegistration(alias));
      }
      table := table[alias := driver];
      return Ok(());
    }

    method Register(driver: Driver) returns (r: Result<(), RegistryError>)
      modifies this`table
      ensures match Registration(old(table), driver.mount, driver)
              case Ok(t) => r == Ok(()) && table == t
              case Err(e) => r == Err(e) && table == old(table)
    {
      r := RegisterAlias(driver.mount, driver);
    }

    method RequireHostRealm(mount: string)
      modifies this`hostOnly
      ensures hostOnly == old(hostOnly) + {mount}
    {
      hostOnly := hostOnly + {mount};
    }

    /** The router's loop: over the mounts in any order, keep the longest that matches. */
    method RouteService(path: string) returns (r: Option<(Driver, string)>)
      ensures r == ResolveServicePath(Snapshot(), path)
    {
      var best: Option<string> := None;
      var rest := table.Keys;
      while rest != {}
        invariant rest <= table.Keys
        invariant best.Some? ==> best.value in table.Keys - rest && Under(path, best.value)
        invariant forall m :: m in table.Keys - rest && Under(path, m) ==> best.Some? && |m| <= |best.value|
      {
        var mount :| mount in rest;
        if Under(path, mount) && (best.None? || |mount| > |best.value|) {
          best := Some(mount);
        }
        rest := rest - {mount};
      }
      match best
      case None => return None;
      case Some(mount) =>
        LongestMountIsUnique(table, path, mount);
        return Some((table[mount], TrimStart(path[|mount|..], '/')));
    }
  }

  lemma RegistrationAdds(table: map<string, Driver>, key: string, driver: Driver)
    requires Registration(table, key, driver).Ok?
    ensures key !in table && Registration(table, key, driver).value == table[key := driver]
  {
  }

  lemma RegistrationIsGoverned(table: map<string, Driver>, key: string, driver: Driver)
    requires Registration(table, key, driver).Ok?
    ensures MayMount(key)
  {
  }

  /** One registration attempt: a driver under its own mount, or under an alias. */
  datatype Attempt = AtMount(driver: Driver) | AtAlias(alias: string, driver: Driver)
  {
    function Key(): string {
      if AtMount? then driver.mount else alias
    }
  }

  /** One attempt; a refused one leaves the table as it was. */
  function Step(table: map<string, Driver>, attempt: Attempt): map<string, Driver> {
    match Registration(table, attempt.Key(), attempt.driver)
    case Ok(t) => t
    case Err(_) => table
  }

  /** The table after a history of attempts, earliest first. */
  function After(table: map<string, Driver>, history: seq<Attempt>): map<string, Driver>
    decreases history
  {
    if history == [] then table else After(Step(table, history[0]), history[1..])
  }

  /** A mount whose leading segment is no realm's name, save the driver-backed `sys`. */
  predicate MayMount(mount: string) {
    RealmOf(LeadingSegment(mount)) in {None, Some(Sys)}
  }

  ghost predicate AllKeys<K(!new), V>(table: map<K, V>, ok: K -> bool) {
    forall k :: k in table ==> ok(k)
  }

  lemma AllKeysInsert<K(!new), V>(table: map<K, V>, key: K, value: V, ok: K -> bool)
    requires AllKeys(table, ok) && ok(key)
    ensures AllKeys(table[key := value], ok)
  {
  }

  /** No mount takes a realm's name, save the driver-backed `sys`. */
  ghost predicate Governed(table: map<string, Driver>) {
    AllKeys(table, MayMount)
  }

  lemma StepIsGoverned(table: map<string, Driver>, attempt: Attempt)
    requires Governed(table)
    ensures Governed(Step(table, attempt))
  {
    if Registration(table, attempt.Key(), attempt.driver).Ok? {
      RegistrationAdds(table, attempt.Key(), attempt.driver);
      RegistrationIsGoverned(table, attempt.Key(), attempt.driver);
      AllKeysInsert(table, attempt.Key(), attempt.driver, MayMount);
    }
  }

  /** Whatever is registered, in whatever order, no mount comes to shadow a realm. */
  lemma {:induction false} NoHistoryShadowsARealm(table: map<string, Driver>, history: seq<Attempt>)
    requires Governed(table)
    ensures Governed(After(table, history))
    decreases history
  {
    if history != [] {
      StepIsGoverned(table, history[0]);
      NoHistoryShadowsARealm(Step(table, history[0]), history[1..]);
    }
  }

  /** A fresh registry has no mount at all, so every history of it is governed. */
  lemma FreshHistoryIsGoverned(history: seq<Attempt>)
    ensures Governed(After(map[], history))
  {
    NoHistoryShadowsARealm(map[], history);
  }

  /** Every mount of the first table is in the second with the same driver. */
  ghost predicate Extends(small: map<string, Driver>, large: map<string, Driver>) {
    forall m :: m in small ==> m in large && large[m] == small[m]
  }

  lemma InsertExtends(table: map<string, Driver>, key: string, driver: Driver)
    requires key !in table
    ensures Extends(table, table[key := driver])
  {
  }

  lemma StepOnlyAdds(table: map<string, Driver>, attempt: Attempt)
    ensures Extends(table, Step(table, attempt))
  {
    if Registration(table, attempt.Key(), attempt.driver).Ok? {
      RegistrationAdds(table, attempt.Key(), attempt.driver);
      InsertExtends(table, attempt.Key(), attempt.driver);
    }
  }

  lemma ExtendsIsTransitive(a: map<string, Driver>, b: map<string, Driver>, c: map<string, Driver>)
    requires Extends(a, b) && Extends(b, c)
    ensures Extends(a, c)
  {
  }

  /** A mount once registered keeps its driver: registration never replaces or removes one. */
  lemma {:induction false} HistoryOnlyAdds(table: map<string, Driver>, history: seq<Attempt>)
    ensures Extends(table, After(table, history))
    decreases history
  {
    if history != [] {
      var next := Step(table, history[0]);
      StepOnlyAdds(table, history[0]);
      HistoryOnlyAdds(next, history[1..]);
      ExtendsIsTransitive(table, next, After(next, history[1..]));
    }
  }

  /** The longest matching mount is unique, so the route does not depend on iteration order. */
  lemma LongestMountIsUnique(table: map<string, Driver>, path: string, m: string)
    requires m in table && Under(path, m)
    requires forall other :: other in table && Under(path, other) ==> |other| <= |m|
    ensures BestMount(table, path) == Some(m)
  {
    var b := BestMount(table, path).value;
    assert |b| == |m| && b == path[..|b|] && m == path[..|m|];
  }

  /** The path is the mount, then slashes (at least one unless it is the mount itself), then the sub-path. */
  ghost predicate SplitsAt(path: string, mount: string, slashes: string, sub: string) {
    && path == mount + slashes + sub
    && (forall i :: 0 <= i < |slashes| ==> slashes[i] == '/')
    && (slashes == "" ==> path == mount)
    && (sub == "" || sub[0] != '/')
  }

  /** A routed path is its mount, slashes, and the sub-path its driver receives, which starts with no slash. */
  lemma RoutedPathSplits(mounts: Mounts, path: string) returns (mount: string, slashes: string)
    requires ResolveServicePath(mounts, path).Some?
    ensures mount in mounts.table && ResolveServicePath(mounts, path).value.0 == mounts.table[mount]
    ensures SplitsAt(path, mount, slashes, ResolveServicePath(mounts, path).value.1)
  {
    mount := BestMount(mounts.table, path).value;
    slashes := SlashesBetween(path, mount);
  }

  lemma Rejoins(path: string, mount: string, tail: string, slashes: string, sub: string)
    requires mount <= path && tail == path[|mount|..]
    requires |sub| <= |tail| && slashes == tail[..|tail| - |sub|] && sub == tail[|tail| - |sub|..]
    ensures path == mount + slashes + sub
  {
  }

  lemma SlashesBetween(path: string, mount: string) returns (slashes: string)
    requires Under(path, mount)
    ensures SplitsAt(path, mount, slashes, TrimStart(path[|mount|..], '/'))
  {
    var tail := path[|mount|..];
    var sub := TrimStart(tail, '/');
    slashes := tail[..|tail| - |sub|];
    Rejoins(path, mount, tail, slashes, sub);
    assert path != mount ==> tail != [] && tail[0] == '/';
  }

  /** Adding a mount changes the route of a path only if the path is under the new mount. */
  lemma NewMountIsLocal(mounts: Mounts, key: string, driver: Driver, path: string)
    requires key !in mounts.table && !Under(path, key)
    ensures ResolveServicePath(mounts.(table := mounts.table[key := driver]), path) == ResolveServicePath(mounts, path)
  {
    var wider := mounts.table[key := driver];
    var old_, new_ := BestMount(mounts.table, path), BestMount(wider, path);
    if old_.Some? {
      assert old_.value in wider;
      forall m | m in wider && Under(path, m)
        ensures |m| <= |old_.value|
      {
        assert m in mounts.table;
      }
      LongestMountIsUnique(wider, path, old_.value);
    }
  }

  // ---- The host-realm canon ----

  /** Canonicalizing first does not change where a path routes. */
  lemma CanonRoutesAlike(mounts: Mounts, path: string)
    requires CanonicalizeHostPath(mounts, path).Ok?
    ensures ResolvePath(mounts, path) == ResolveServicePath(mounts, CanonicalizeHostPath(mounts, path).value)
  {
    if LeadingSegment(path) == "hosts" {
      assert PeelScope(path).Ok?;
    }
  }

  /** For a path without empty segments: the canon drops exactly `/hosts/local`, or nothing. */
  lemma CanonOfSegments(mounts: Mounts, segments: seq<string>)
    requires Clean(segments) && CanonicalizeHostPath(mounts, Render(segments)).Ok?
    ensures var c := CanonicalizeHostPath(mounts, Render(segments)).value;
            if segments != [] && segments[0] == "hosts"
            then |segments| >= 2 && segments[1] == LOCAL_HOST && c == Render(segments[2..]) && c != Render(segments)
            else c == Render(segments)
  {
    SegmentsOfRender(segments);
    if segments != [] && segments[0] == "hosts" {
      SegmentsOfRender(segments[2..]);
    }
  }

  /** … so its canon never leads with `hosts`, and canonicalizing it again changes nothing. */
  lemma CanonLeavesTheRealm(mounts: Mounts, segments: seq<string>)
    requires Clean(segments) && CanonicalizeHostPath(mounts, Render(segments)).Ok?
    ensures var c := CanonicalizeHostPath(mounts, Render(segments)).value;
            && LeadingSegment(c) != "hosts"
            && ResolvePath(mounts, Render(segments)) == ResolveServicePath(mounts, c)
            && ResolvePath(mounts, c) == ResolveServicePath(mounts, c)
  {
    CanonOfSegments(mounts, segments);
    SegmentsOfRender(segments);
    if segments != [] && segments[0] == "hosts" {
      SegmentsOfRender(segments[2..]);
      assert RejectCrossRealm(segments[2..]).None?;
    }
  }

  /** The first segment that is not empty. */
  function FirstNonEmpty(segments: seq<string>): string {
    if segments == [] then "" else if segments[0] != "" then segments[0] else FirstNonEmpty(segments[1..])
  }

  lemma {:induction false} LeadingOfRender(segments: seq<string>)
    requires forall i :: 0 <= i < |segments| ==> '/' !in segments[i]
    ensures LeadingSegment(Render(segments)) == FirstNonEmpty(segments)
  {
    if segments != [] {
      if segments[0] == "" {
        LeadingOfRender(segments[1..]);
        assert Slashed(segments) == "/" + Slashed(segments[1..]);
        assert Slashed(segments)[1..] == Slashed(segments[1..]);
      } else {
        SlashedIsJoin(segments);
        assert TrimStart(Slashed(segments), '/') == JoinWith(segments, '/');
        SplitOfJoin(segments, '/');
      }
    }
  }

  /**
   In general a canon leads with `hosts` exactly when an empty segment separates `/hosts/local` from a
   second `hosts`: the cross-realm check looks only at the very next segment.
   */
  lemma CanonLeadsWithHostsExactly(mounts: Mounts, path: string)
    requires CanonicalizeHostPath(mounts, path).Ok?
    ensures LeadingSegment(CanonicalizeHostPath(mounts, path).value) == "hosts" <==>
            var s := Segments(path);
            |s| > 2 && s[0] == "hosts" && s[2] == "" && FirstNonEmpty(s[2..]) == "hosts"
  {
    var s := Segments(path);
    if LeadingSegment(path) == "hosts" {
      assert s != [] && s[0] == "hosts";
      LeadingOfRender(s[2..]);
    } else {
      assert s == [] || s[0] != "hosts";
    }
  }

  /** `/hosts/local//hosts/x` is one: its canon is `//hosts/x`. */
  lemma EmptySegmentHidesTheRealm(mounts: Mounts)
    ensures CanonicalizeHostPath(mounts, Render(["hosts", "local", "", "hosts", "x"])) == Ok(Render(["", "hosts", "x"]))
    ensures LeadingSegment(Render(["", "hosts", "x"])) == "hosts"
  {
    HiddenRealm(mounts, ["hosts", LOCAL_HOST, "", "hosts", "x"]);
    assert ["hosts", LOCAL_HOST, "", "hosts", "x"][2..] == ["", "hosts", "x"];
  }

  lemma HiddenRealm(mounts: Mounts, parts: seq<string>)
    requires |parts| > 3 && parts[0] == "hosts" && parts[1] == LOCAL_HOST && parts[2] == "" && parts[3] == "hosts"
    requires forall i :: 0 <= i < |parts| ==> '/' !in parts[i]
    ensures CanonicalizeHostPath(mounts, Render(parts)) == Ok(Render(parts[2..]))
    ensures LeadingSegment(Render(parts[2..])) == "hosts"
  {
    SegmentsOfRender(parts);
    LeadingOfRender(parts[2..]);
    assert FirstNonEmpty(parts[2..]) == FirstNonEmpty(parts[2..][1..]);
    assert parts[2..][1..][0] == parts[3];
  }

  /** Peeling a collection realm takes one principal and leaves the rest as the service path. */
  lemma PeelOfCollection(segments: seq<string>)
    requires Clean(segments) && PeelScope(Render(segments)).Ok?
    requires PeelScope(Render(segments)).value.realm.TakesPrincipal()
    ensures |segments| >= 2
    ensures PeelScope(Render(segments)).value.realm.AsStr() == segments[0]
    ensures PeelScope(Render(segments)).value.principal == Some(segments[1])
    ensures PeelScope(Render(segments)).value.service == Render(segments[2..])
  {
    SegmentsOfRender(segments);
  }

  /** Realm, principal and service rebuild a path spelled with a collection realm. */
  lemma PeelRebuilds(segments: seq<string>)
    requires Clean(segments) && PeelScope(Render(segments)).Ok?
    requires PeelScope(Render(segments)).value.realm.TakesPrincipal()
    ensures var res := PeelScope(Render(segments)).value;
            && res.principal.Some?
            && Render(segments) == "/" + res.realm.AsStr() + "/" + res.principal.value + (if res.service == "/" then "" else res.service)
  {
    PeelOfCollection(segments);
    RenderUnfoldsTwice(segments);
  }

  lemma RenderUnfoldsTwice(segments: seq<string>)
    requires Clean(segments) && |segments| >= 2
    ensures Render(segments) == "/" + segments[0] + "/" + segments[1] + (if Render(segments[2..]) == "/" then "" else Render(segments[2..]))
  {
    var tail := Slashed(segments[2..]);
    assert Slashed(segments[1..]) == "/" + segments[1] + tail by {
      assert segments[1..][1..] == segments[2..];
    }
    assert Slashed(segments) == "/" + segments[0] + ("/" + segments[1] + tail);
    if segments[2..] != [] {
      assert |tail| >= 2;
    }
  }
}
