/**
 * Display rules of one row of the server list on the dashboard.
 *
 * A row shows a server's power state, resource gauges with an alarm
 * highlight near the limit, the configured limits ("Unlimited" for 0), an
 * image chosen from the docker image name, and a badge in place of the
 * gauges while statistics are missing or the server is suspended.
 * JavaScript numbers are modelled as exact reals.
 */
module ServerRow {
  import opened Wrappers

  /** Configured limits: memory and disk in MiB, CPU in percent; 0 means unlimited. */
  datatype Limits = Limits(memory: real, disk: real, cpu: real)

  /** The server record the row is rendered from. `status` is null for a server in normal operation. */
  datatype Server = Server(status: Option<string>, isTransferring: bool, limits: Limits, dockerImage: string)

  /** One resource-usage snapshot; `status` is the power state (`offline`, `running`, ...). */
  datatype Stats = Stats(
    status: string,
    isSuspended: bool,
    memoryUsageInBytes: real,
    cpuUsagePercent: real,
    diskUsageInBytes: real)

  /** A JavaScript string that may be null or undefined, used as a condition. */
  predicate Truthy(s: Option<string>)
  {
    s.Some? && s.value != ""
  }

  /**
   * `isAlarmState`: usage in bytes is at least 90% of a limit given in MiB.
   * A limit that is not positive never raises the alarm.
   */
  function IsAlarmState(current: real, limit: real): (alarm: bool)
    ensures limit <= 0.0 ==> !alarm
    ensures limit > 0.0 ==> (alarm <==> current >= 0.9 * limit * 1048576.0)
  {
    limit > 0.0 && current / (limit * 1024.0 * 1024.0) >= 0.9
  }

  /** Raising the usage never clears an alarm. */
  lemma AlarmIsMonotone(current: real, higher: real, limit: real)
    requires current <= higher
    requires IsAlarmState(current, limit)
    ensures IsAlarmState(higher, limit)
  {
  }

  /** The per-resource highlight flags of the row. */
  datatype Alarms = Alarms(cpu: bool, memory: bool, disk: bool)

  /** How a limit is printed: `Unlimited`, a size formatted from MiB, or `<n> %`. */
  datatype LimitLabel = Unlimited | Size(megabytes: real) | Percent(percent: real)

  /** The memory and disk limit labels. */
  function ByteLimitLabel(limitMb: real): (shown: LimitLabel)
    ensures shown.Unlimited? <==> limitMb == 0.0
    ensures !shown.Unlimited? ==> shown == Size(limitMb)
  {
    if limitMb != 0.0 then Size(limitMb) else Unlimited
  }

  /** The CPU limit label. */
  function CpuLimitLabel(limit: real): (shown: LimitLabel)
    ensures shown.Unlimited? <==> limit == 0.0
    ensures !shown.Unlimited? ==> shown == Percent(limit)
  {
    if limit != 0.0 then Percent(limit) else Unlimited
  }

  /**
   * The alarm flags: all false until statistics arrive, then filled in
   * field by field.
   */
  method ComputeAlarms(server: Server, stats: Option<Stats>) returns (alarms: Alarms)
    ensures stats.None? ==> alarms == Alarms(false, false, false)
    ensures stats.Some? ==>
      (alarms.cpu <==> server.limits.cpu != 0.0 && stats.value.cpuUsagePercent >= 0.9 * server.limits.cpu)
    ensures stats.Some? ==>
      (alarms.memory <==>
         server.limits.memory > 0.0 && stats.value.memoryUsageInBytes >= 0.9 * server.limits.memory * 1048576.0)
    ensures stats.Some? ==>
      (alarms.disk <==>
         server.limits.disk > 0.0 && stats.value.diskUsageInBytes >= 0.9 * server.limits.disk * 1048576.0)
    // a limit shown as `Unlimited` is never highlighted
    ensures CpuLimitLabel(server.limits.cpu).Unlimited? ==> !alarms.cpu
    ensures ByteLimitLabel(server.limits.memory).Unlimited? ==> !alarms.memory
    ensures ByteLimitLabel(server.limits.disk).Unlimited? ==> !alarms.disk
  {
    alarms := Alarms(false, false, false);
    if stats.Some? {
      var s := stats.value;
      alarms := alarms.(cpu := if server.limits.cpu == 0.0 then false else s.cpuUsagePercent >= server.limits.cpu * 0.9);
      alarms := alarms.(memory := IsAlarmState(s.memoryUsageInBytes, server.limits.memory));
      alarms := alarms.(disk := if server.limits.disk == 0.0 then false else IsAlarmState(s.diskUsageInBytes, server.limits.disk));
    }
  }

  /** The characters a JavaScript regular expression's `.` does not match. */
  predicate IsLineTerminator(c: char)
  {
    c == '\n' || c == '\r' || c == '\U{2028}' || c == '\U{2029}'
  }

  /** `(.*?)_` started at `k` ends with the `_` at `j`: nothing before it is `_` or a line terminator. */
  predicate LazyGroupEnd(s: string, k: int, j: int)
  {
    0 <= k <= j < |s| && s[j] == '_' &&
    forall m :: k <= m < j ==> s[m] != '_' && !IsLineTerminator(s[m])
  }

  /** `/:(.*?)_/` matches with its `:` at `i` and its `_` at `j`. */
  predicate MatchesAt(s: string, i: int, j: int)
  {
    0 <= i < |s| && s[i] == ':' && LazyGroupEnd(s, i + 1, j)
  }

  /** Where the lazy group started at `k` ends, if anywhere. */
  function GroupEnd(s: string, k: nat): (r: Option<nat>)
    requires k <= |s|
    decreases |s| - k
    ensures r.Some? ==> LazyGroupEnd(s, k, r.value)
    ensures r.None? ==> forall j :: !LazyGroupEnd(s, k, j)
  {
    if k == |s| || IsLineTerminator(s[k]) then None
    else if s[k] == '_' then Some(k)
    else
      var r := GroupEnd(s, k + 1);
      assert forall j :: LazyGroupEnd(s, k, j) ==> LazyGroupEnd(s, k + 1, j);
      r
  }

  /** The leftmost match of `/:(.*?)_/` starting at or after `i`, as the positions of `:` and `_`. */
  function MatchFrom(s: string, i: nat): (r: Option<(nat, nat)>)
    requires i <= |s|
    decreases |s| - i
    ensures r.Some? ==> i <= r.value.0 && MatchesAt(s, r.value.0, r.value.1)
    ensures r.Some? ==> forall p, q :: i <= p < r.value.0 ==> !MatchesAt(s, p, q)
    ensures r.None? ==> forall p, q :: i <= p ==> !MatchesAt(s, p, q)
  {
    if i == |s| then None
    else if s[i] == ':' && GroupEnd(s, i + 1).Some? then Some((i, GroupEnd(s, i + 1).value))
    else MatchFrom(s, i + 1)
  }

  /** The image shown for the server: the regex group, or `discord` without a match. */
  function ServerImage(dockerImage: string): (image: string)
    ensures '_' !in image
  {
    match MatchFrom(dockerImage, 0)
    case Some((i, j)) => dockerImage[i + 1..j]
    case None => "discord"
  }

  /**
   * On a single-line image string, the image is the text between the first
   * `:` and the first `_` after it.
   */
  lemma {:induction false} ServerImageBetweenColonAndUnderscore(s: string, i: nat, j: nat)
    requires forall k :: 0 <= k < |s| ==> !IsLineTerminator(s[k])
    requires i < j < |s| && s[i] == ':' && s[j] == '_'
    requires forall k :: 0 <= k < i ==> s[k] != ':'
    requires forall k :: i < k < j ==> s[k] != '_'
    ensures ServerImage(s) == s[i + 1..j]
  {
    assert MatchesAt(s, i, j);
    var m := MatchFrom(s, 0);
    assert m.Some?;
    var (p, q) := m.value;
    assert p == i;
  }

  /** Without any `_` after a `:`, the image falls back to `discord`. */
  lemma ServerImageDefault(s: string)
    requires forall i, j :: 0 <= i < j < |s| && s[i] == ':' ==> s[j] != '_'
    ensures ServerImage(s) == "discord"
  {
  }

  /** Colour of the status text and of the status bar. */
  datatype Colour = Red | Green | Yellow

  /** The power-state colour, shared by the status text and the status bar. */
  function StatusColour(status: Option<string>): (c: Colour)
    ensures c == Red <==> !Truthy(status) || status == Some("offline")
    ensures c == Green <==> status == Some("running")
    ensures c == Yellow <==> Truthy(status) && status != Some("offline") && status != Some("running")
  {
    if !Truthy(status) || status.value == "offline" then Red
    else if status.value == "running" then Green
    else Yellow
  }

  /** The power state the row is coloured by: `stats?.status`. */
  function PowerState(stats: Option<Stats>): (status: Option<string>)
    ensures stats.None? ==> status.None?
  {
    if stats.Some? then Some(stats.value.status) else None
  }

  /** A row without statistics is red, whatever the server record says. */
  lemma RowWithoutStatsIsRed(stats: Option<Stats>)
    requires stats.None?
    ensures StatusColour(PowerState(stats)) == Red
  {
  }

  /** The settled value of the row's suspended flag: `stats?.isSuspended || server.status === 'suspended'`. */
  function IsSuspended(stats: Option<Stats>, server: Server): (suspended: bool)
    ensures server.status == Some("suspended") ==> suspended
    ensures stats.None? ==> (suspended <==> server.status == Some("suspended"))
    ensures stats.Some? && stats.value.isSuspended ==> suspended
    ensures suspended ==> server.status == Some("suspended") || (stats.Some? && stats.value.isSuspended)
  {
    (stats.Some? && stats.value.isSuspended) || server.status == Some("suspended")
  }

  /** What the right-hand column of the row shows. */
  datatype Badge = Gauges | Spinner | Label(text: string)

  /** The gauges are shown only with statistics for a server that is not suspended. */
  predicate ShowsUsage(stats: Option<Stats>, suspended: bool)
  {
    stats.Some? && !suspended
  }

  /** The badge decision tree; `suspended` is the row's suspended flag. */
  function BadgeFor(server: Server, stats: Option<Stats>, suspended: bool): (b: Badge)
    ensures b.Gauges? <==> ShowsUsage(stats, suspended)
    ensures suspended ==> b.Label? && b.text in {"Suspended", "Connection Error"}
    ensures b.Spinner? <==> !ShowsUsage(stats, suspended) && !suspended && !server.isTransferring && !Truthy(server.status)
  {
    if !ShowsUsage(stats, suspended) then
      if suspended then
        Label(if server.status == Some("suspended") then "Suspended" else "Connection Error")
      else if server.isTransferring || Truthy(server.status) then
        Label(if server.isTransferring then "Transferring"
              else if server.status == Some("installing") then "Installing"
              else if server.status == Some("restoring_backup") then "Restoring Backup"
              else "Unavailable")
      else Spinner
    else Gauges
  }

  /** The badge once the suspended flag has settled. */
  function RowBadge(server: Server, stats: Option<Stats>): (b: Badge)
    ensures b.Label? ==>
      b.text in {"Suspended", "Connection Error", "Transferring", "Installing", "Restoring Backup", "Unavailable"}
    ensures stats.Some? ==> !b.Spinner?
    ensures stats.Some? && !b.Gauges? ==> b.Label? && b.text in {"Suspended", "Connection Error"}
  {
    BadgeFor(server, stats, IsSuspended(stats, server))
  }

  /** A server whose own status is `suspended` always shows `Suspended`. */
  lemma SuspendedServerShowsSuspended(server: Server, stats: Option<Stats>)
    requires server.status == Some("suspended")
    ensures RowBadge(server, stats) == Label("Suspended")
  {
  }

  /** `Connection Error` appears exactly when only the statistics report a suspension. */
  lemma ConnectionErrorIff(server: Server, stats: Option<Stats>)
    ensures RowBadge(server, stats) == Label("Connection Error") <==>
      stats.Some? && stats.value.isSuspended && server.status != Some("suspended")
  {
  }

  /** Transfer takes precedence over the server's status while no statistics are in. */
  lemma TransferringIff(server: Server, stats: Option<Stats>)
    ensures RowBadge(server, stats) == Label("Transferring") <==>
      stats.None? && server.isTransferring && server.status != Some("suspended")
  {
  }

  /** Without statistics and without a transfer, the server's status picks the label. */
  lemma StatusLabels(server: Server, stats: Option<Stats>)
    requires stats.None? && !server.isTransferring
    ensures server.status == Some("installing") ==> RowBadge(server, stats) == Label("Installing")
    ensures server.status == Some("restoring_backup") ==> RowBadge(server, stats) == Label("Restoring Backup")
    ensures Truthy(server.status) && server.status.value !in {"installing", "restoring_backup", "suspended"} ==>
      RowBadge(server, stats) == Label("Unavailable")
    ensures !Truthy(server.status) <==> RowBadge(server, stats) == Spinner
  {
  }

  /** The gauges appear exactly when statistics are in and nobody reports a suspension. */
  lemma GaugesIff(server: Server, stats: Option<Stats>)
    ensures RowBadge(server, stats) == Gauges <==>
      stats.Some? && !stats.value.isSuspended && server.status != Some("suspended")
  {
  }
}
