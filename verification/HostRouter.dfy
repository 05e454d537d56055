/** The virtual-host router: which project host routes, as a function of every grant and
    revocation so far. */
module HostRouter {
  import opened Json
  import opened Text
  import opened VirtualHosts

  const PROJECT_KEY_LENGTH := 26

  predicate IsKeyChar(c: char) {
    'a' <= c <= 'z' || '2' <= c <= '7'
  }

  predicate ValidKey(key: string) {
    |key| == PROJECT_KEY_LENGTH && forall i :: 0 <= i < |key| ==> IsKeyChar(key[i])
  }

  datatype HostRouteDecision =
    | Launcher
    | Project(projectKey: string)
    | RetiredHost
    | UnknownHost
    | Refused(reason: HostRejectionReason)

  datatype HostGrantResult = Granted(hostname: string) | LeaseOccupied | InvalidProjectKey

  datatype Routes = Routes(active: Option<string>, everGranted: set<string>)

  function Resolve(r: Routes, value: Option<string>, count: nat, port: nat): HostRouteDecision {
    match ParseHostHeader(value, count, port)
    case Rejected(reason) => Refused(reason)
    case Host(hostname) =>
      if hostname == LAUNCHER_HOSTNAME then Launcher
      else if r.active.Some? && hostname == ProjectHostname(r.active.value) then Project(r.active.value)
      else if hostname in r.everGranted then RetiredHost
      else UnknownHost
  }

  function AfterGrant(r: Routes, key: string): Routes {
    if !ValidKey(key) || r.active.Some? then r
    else Routes(Some(key), r.everGranted + {ProjectHostname(key)})
  }

  function GrantResult(r: Routes, key: string): HostGrantResult {
    if !ValidKey(key) then InvalidProjectKey
    else if r.active.Some? then LeaseOccupied
    else Granted(ProjectHostname(key))
  }

  function AfterRevoke(r: Routes, key: string): Routes {
    if r.active == Some(key) then r.(active := None) else r
  }

  class Router {
    const expectedPort: nat
    var active: Option<string>
    var everGranted: set<string>

    ghost function State(): Routes
      reads this
    {
      Routes(active, everGranted)
    }

    constructor (expectedPort: nat)
      ensures State() == Routes(None, {}) && this.expectedPort == expectedPort
    {
      this.expectedPort, active, everGranted := expectedPort, None, {};
    }

    method Grant(projectKey: string) returns (r: HostGrantResult)
      modifies this
      ensures r == GrantResult(old(State()), projectKey)
      ensures State() == AfterGrant(old(State()), projectKey)
    {
      if !ValidKey(projectKey) { return InvalidProjectKey; }
      if active.Some? { return LeaseOccupied; }
      active := Some(projectKey);
      var hostname := ProjectHostname(projectKey);
      everGranted := everGranted + {hostname};
      r := Granted(hostname);
    }

    method Revoke(projectKey: string) returns (r: bool)
      modifies this
      ensures r <==> old(State()).active == Some(projectKey)
      ensures State() == AfterRevoke(old(State()), projectKey)
    {
      if active.None? || active.value != projectKey { return false; }
      active := None;
      r := true;
    }

    method Route(value: Option<string>, count: nat) returns (r: HostRouteDecision)
      ensures r == Resolve(State(), value, count, expectedPort)
    {
      var parsed := ParseHostHeader(value, count, expectedPort);
      if parsed.Rejected? { return Refused(parsed.reason); }
      if parsed.hostname == LAUNCHER_HOSTNAME { return Launcher; }
      if active.Some? && parsed.hostname == ProjectHostname(active.value) { return Project(active.value); }
      r := if parsed.hostname in everGranted then RetiredHost else UnknownHost;
    }
  }

  // ----- histories -----

  datatype Event = Grant(key: string) | Revoke(key: string)

  function After(events: seq<Event>): Routes {
    if events == [] then Routes(None, {})
    else
      var r, last := After(events[..|events| - 1]), events[|events| - 1];
      match last
      case Grant(key) => AfterGrant(r, key)
      case Revoke(key) => AfterRevoke(r, key)
  }

  /** The grant at `i` was admitted: the key is valid and no project routed then. */
  ghost predicate Admitted(events: seq<Event>, i: nat, key: string)
    requires i < |events|
  {
    events[i] == Grant(key) && ValidKey(key) && After(events[..i]).active.None?
  }

  /** The key was admitted at `i` and not revoked since. */
  ghost predicate LeasedFrom(events: seq<Event>, i: nat, key: string)
    requires i < |events|
  {
    Admitted(events, i, key) && forall j :: i < j < |events| ==> events[j] != Revoke(key)
  }

  ghost predicate Leased(events: seq<Event>, key: string) {
    exists i :: 0 <= i < |events| && LeasedFrom(events, i, key)
  }

  ghost predicate EverGranted(events: seq<Event>, key: string) {
    exists i :: 0 <= i < |events| && Admitted(events, i, key)
  }

  lemma AdmittedBefore(events: seq<Event>, n: nat, i: nat, key: string)
    requires i < n <= |events|
    ensures Admitted(events[..n], i, key) <==> Admitted(events, i, key)
  {
    assert events[..n][..i] == events[..i];
  }

  lemma LeasedStep(events: seq<Event>, key: string)
    requires events != []
    ensures var front, last := events[..|events| - 1], events[|events| - 1];
      Leased(events, key) <==> (Leased(front, key) && last != Revoke(key)) || Admitted(events, |events| - 1, key)
  {
    var n := |events| - 1;
    var front := events[..n];
    hide Admitted;
    forall i | 0 <= i < n
      ensures LeasedFrom(events, i, key) <==> LeasedFrom(front, i, key) && events[n] != Revoke(key)
    {
      AdmittedBefore(events, n, i, key);
    }
    assert LeasedFrom(events, n, key) <==> Admitted(events, n, key);
  }

  lemma EverGrantedStep(events: seq<Event>, key: string)
    requires events != []
    ensures EverGranted(events, key)
      <==> EverGranted(events[..|events| - 1], key) || Admitted(events, |events| - 1, key)
  {
    var n := |events| - 1;
    forall i | 0 <= i < n ensures Admitted(events[..n], i, key) <==> Admitted(events, i, key) {
      AdmittedBefore(events, n, i, key);
    }
  }

  /** The router's state is a function of its history: the active key is the one leased, and
      the remembered hostnames are those of every key ever admitted. */
  lemma {:induction false} StateIsHistory(events: seq<Event>)
    ensures forall key :: After(events).active == Some(key) <==> Leased(events, key)
    ensures forall h ::
      h in After(events).everGranted <==> exists key :: EverGranted(events, key) && h == ProjectHostname(key)
    ensures forall key :: EverGranted(events, key) ==> ValidKey(key)
    decreases |events|
  {
    if events != [] {
      var n := |events| - 1;
      var front := events[..n];
      StateIsHistory(front);
      var r, s := After(front), After(events);
      forall key ensures s.active == Some(key) <==> Leased(events, key) {
        LeasedStep(events, key);
        if r.active.Some? { assert Leased(front, r.active.value); }
      }
      forall key ensures EverGranted(events, key) <==> EverGranted(front, key) || Admitted(events, n, key) {
        EverGrantedStep(events, key);
      }
      if r.active.Some? { assert Leased(front, r.active.value); }
      hide EverGranted, Leased;
      assert s.everGranted == r.everGranted
        + if events[n].Grant? && Admitted(events, n, events[n].key) then {ProjectHostname(events[n].key)} else {};
    }
  }

  /** A grant is admitted exactly when its key is valid and nothing is leased. */
  lemma AdmittedMeans(events: seq<Event>, i: nat, key: string)
    requires i < |events|
    ensures Admitted(events, i, key)
      <==> events[i] == Grant(key) && ValidKey(key) && forall k :: !Leased(events[..i], k)
  {
    StateIsHistory(events[..i]);
    hide Leased, After;
    var active := After(events[..i]).active;
    if active.Some? { assert Leased(events[..i], active.value); }
  }

  /** What a grant is answered, after any history: a key that is not 26 letters and digits of
      base32 is refused as such, any other while a project is leased as occupied, and else it
      is granted its own hostname. */
  lemma GrantMeans(events: seq<Event>, key: string)
    ensures var r := GrantResult(After(events), key);
      var valid := |key| == 26 && forall i :: 0 <= i < |key| ==> 'a' <= key[i] <= 'z' || '2' <= key[i] <= '7';
      && (r == InvalidProjectKey <==> !valid)
      && (r == LeaseOccupied <==> valid && exists k :: Leased(events, k))
      && (r.Granted? ==> r.hostname == key + ".localhost")
  {
    StateIsHistory(events);
    hide After, Leased;
    var active := After(events).active;
    if active.Some? { assert Leased(events, active.value); }
  }

  // ----- hostnames -----

  lemma HostnamesApart(a: string, b: string)
    requires ProjectHostname(a) == ProjectHostname(b)
    ensures a == b
  {
    assert |a| == |b|;
    assert a == ProjectHostname(a)[..|a|] && b == ProjectHostname(b)[..|b|];
  }

  lemma NoKeyIsTheLauncher(key: string)
    requires ValidKey(key)
    ensures ProjectHostname(key) == key + ".localhost" != "launcher.localhost"
  {
    assert |ProjectHostname(key)| == 36;
  }

  /** A character whose lower case may stand in a host name may stand there itself. */
  lemma CaseOfChar(c: char)
    requires IsKeyChar(LowerChar(c)) || LowerChar(c) == '.'
    ensures c != ':' && !IsForbidden(c) && !IsSpace(c) && (c == '.' <==> LowerChar(c) == '.')
  {
  }

  lemma HostnameChars(key: string)
    requires ValidKey(key)
    ensures var h := ProjectHostname(key);
      && |h| == 36 && (forall i :: 0 <= i < |h| ==> IsKeyChar(h[i]) || (i == 26 && h[i] == '.'))
  {
    var h := ProjectHostname(key);
    assert h[26..] == ".localhost";
    forall i | 0 <= i < |h| ensures IsKeyChar(h[i]) || (i == 26 && h[i] == '.') {
      if i < 26 { assert h[i] == key[i] && IsKeyChar(key[i]); } else { assert h[i] == ".localhost"[i - 26]; }
    }
  }

  /** The hostname of a valid key is well formed in every letter case, alone or with the
      listener's port. */
  lemma AnyCaseIsWritten(key: string, name: string, value: string, port: nat)
    requires ValidKey(key) && ToLowerCase(name) == ProjectHostname(key)
    requires value == name || exists digits :: SpellsPort(digits, port) && value == name + ":" + digits
    ensures Written(value, name, port)
  {
    NameChars(key, name);
    hide ToLowerCase, ProjectHostname, IsForbidden, IsSpace, Value, Trim;
    TrimmedValue(name, value, port);
    OneDot(name);
  }

  lemma NameChars(key: string, name: string)
    requires ValidKey(key) && ToLowerCase(name) == ProjectHostname(key)
    ensures |name| == 36
    ensures forall i :: 0 <= i < |name| ==>
      name[i] != ':' && !IsForbidden(name[i]) && !IsSpace(name[i]) && (name[i] == '.' ==> i == 26)
  {
    HostnameChars(key);
    var h := ToLowerCase(name);
    hide ToLowerCase, ProjectHostname, IsForbidden, IsSpace, IsKeyChar, LowerChar;
    forall i | 0 <= i < |name|
      ensures name[i] != ':' && !IsForbidden(name[i]) && !IsSpace(name[i]) && (name[i] == '.' ==> i == 26)
    {
      assert h[i] == LowerChar(name[i]);
      CaseOfChar(name[i]);
      if i != 26 { KeyCharIsNoDot(h[i]); }
    }
  }

  lemma OneDot(name: string)
    requires |name| == 36
    requires forall i :: 0 <= i < |name| ==> name[i] != ':' && !IsForbidden(name[i]) && (name[i] == '.' ==> i == 26)
    ensures WellFormedName(name)
  {
    hide IsForbidden;
  }

  lemma KeyCharIsNoDot(c: char)
    requires IsKeyChar(c)
    ensures c != '.'
  {
  }

  lemma TrimmedValue(name: string, value: string, port: nat)
    requires name != "" && forall i :: 0 <= i < |name| ==> !IsSpace(name[i])
    requires value == name || exists digits :: SpellsPort(digits, port) && value == name + ":" + digits
    ensures Trim(value) == value
  {
    if value != name {
      var digits :| SpellsPort(digits, port) && value == name + ":" + digits;
      assert IsDigit(digits[|digits| - 1]) && value[|value| - 1] == digits[|digits| - 1];
    }
    TrimCore("", value, "");
    assert "" + value + "" == value;
  }

  // ----- the meaning of routing -----

  /** A valid key's hostname, in any letter case and with or without the port, resolves to
      its project exactly while it is leased, to the retired host once it was, and to an
      unknown host if it never was. */
  lemma RoutingIsHistory(events: seq<Event>, key: string, name: string, value: string, port: nat)
    requires ValidKey(key) && ToLowerCase(name) == ProjectHostname(key)
    requires value == name || exists digits :: SpellsPort(digits, port) && value == name + ":" + digits
    ensures Resolve(After(events), Some(value), 1, port)
      == if Leased(events, key) then Project(key) else if EverGranted(events, key) then RetiredHost else UnknownHost
  {
    hide ParseHostHeader, ToLowerCase, ProjectHostname, After, Leased, EverGranted, Written, ValidKey, SpellsPort;
    AnyCaseIsWritten(key, name, value, port);
    WrittenParses(value, name, port);
    NoKeyIsTheLauncher(key);
    KeyHistory(events, key);
  }

  /** What the state says of one key. */
  lemma KeyHistory(events: seq<Event>, key: string)
    ensures var r := After(events);
      && (r.active == Some(key) <==> Leased(events, key))
      && (r.active.Some? && ProjectHostname(r.active.value) == ProjectHostname(key) ==> r.active.value == key)
      && (ProjectHostname(key) in r.everGranted <==> EverGranted(events, key))
  {
    StateIsHistory(events);
    hide ProjectHostname, After, Leased, EverGranted;
    var r := After(events);
    if r.active.Some? && ProjectHostname(r.active.value) == ProjectHostname(key) {
      HostnamesApart(r.active.value, key);
    }
    if ProjectHostname(key) in r.everGranted {
      var k :| EverGranted(events, k) && ProjectHostname(key) == ProjectHostname(k);
      HostnamesApart(key, k);
    }
  }

  /** Nothing else routes to a project: what resolves to a key spells its hostname, and the
      key is the one leased. */
  lemma OnlyTheLeaseRoutes(events: seq<Event>, value: string, port: nat, key: string)
    ensures Resolve(After(events), Some(value), 1, port) == Project(key)
       <==> Leased(events, key) && exists name ::
         Written(value, name, port) && ToLowerCase(name) == ProjectHostname(key)
  {
    hide ParseHostHeader, ToLowerCase, ProjectHostname, After, Leased, EverGranted, Written, ValidKey;
    StateIsHistory(events);
    ParseMeans(value, port, ProjectHostname(key));
    LeasedIsGranted(events, key);
    if ValidKey(key) { NoKeyIsTheLauncher(key); }
  }

  lemma LeasedIsGranted(events: seq<Event>, key: string)
    ensures Leased(events, key) ==> EverGranted(events, key)
  {
  }

  /** At most one project routes at a time. */
  lemma OneProjectRoutes(events: seq<Event>, a: string, b: string, port: nat, p: string, q: string)
    ensures
      Resolve(After(events), Some(a), 1, port) == Project(p) && Resolve(After(events), Some(b), 1, port) == Project(q)
      ==> p == q
  {
    hide Resolve, After;
    OnlyTheLeaseRoutes(events, a, port, p);
    OnlyTheLeaseRoutes(events, b, port, q);
    StateIsHistory(events);
  }

  /** The launcher routes whatever has been granted, and no history makes another name it. */
  lemma LauncherAlwaysRoutes(r: Routes, value: string, port: nat)
    ensures Resolve(r, Some(value), 1, port) == Launcher
       <==> exists name :: Written(value, name, port) && ToLowerCase(name) == "launcher.localhost"
  {
    ParseMeans(value, port, LAUNCHER_HOSTNAME);
    hide ParseHostHeader, ToLowerCase, Written;
  }

  /** Once retired a hostname answers as retired until its key is admitted again, for the
      rest of the listener's life. */
  lemma {:induction false} RetiredForever(events: seq<Event>, more: seq<Event>, key: string)
    requires EverGranted(events, key)
    ensures EverGranted(events + more, key)
  {
    var i :| 0 <= i < |events| && Admitted(events, i, key);
    AdmittedBefore(events + more, |events|, i, key);
    assert (events + more)[..|events|] == events;
  }
}
