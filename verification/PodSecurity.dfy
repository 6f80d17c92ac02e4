/** The Pod Security level of a pod spec (`classifyPodSecurity`) and the admission rule
    `enforce_pss_restricted`, over the decoded JSON they read. */
module PodSecurity {
  import opened Text
  import opened JsonDiff

  type Fields = map<string, Json>

  // ---------------------------------------------------------------- reading decoded JSON

  /** A value of another type reads as the empty map, a missing entry as null. */
  function AsMap(v: Json): Fields { if v.Map? then v.entries else map[] }

  function AsList(v: Json): seq<Json> { if v.List? then v.elems else [] }

  predicate AsBool(v: Json) { v.Bool? && v.b }

  function AsStr(v: Json): string { if v.Str? then v.s else "" }

  predicate IsDigit(c: char) { '0' <= c <= '9' }

  /** How many digits a text starts with. */
  function Digits(s: string): (n: nat)
    ensures n <= |s| && forall i :: 0 <= i < n ==> IsDigit(s[i])
  {
    if s != "" && IsDigit(s[0]) then 1 + Digits(s[1..]) else 0
  }

  function Decimal(s: string): nat
    requires forall i :: 0 <= i < |s| ==> IsDigit(s[i])
  {
    if s == "" then 0 else
    assert IsDigit(s[|s| - 1]);
    Decimal(s[..|s| - 1]) * 10 + (s[|s| - 1] as int - '0' as int)
  }

  /** An optional sign and the digits after it; 0 without digits or beyond 64 bits. */
  function ScanInt(s: string): int {
    var sign := if s != "" && s[0] == '-' then -1 else 1;
    var rest := if s != "" && (s[0] == '-' || s[0] == '+') then s[1..] else s;
    var n := sign * Decimal(rest[..Digits(rest)]);
    if -0x8000_0000_0000_0000 <= n < 0x8000_0000_0000_0000 then n else 0
  }

  /** `numVal`: numbers lose their fraction, text is scanned, everything else is 0. */
  function NumVal(v: Json): int {
    match v
    case Num(n) => if n >= 0.0 then n.Floor else -(-n).Floor
    case Str(s) => ScanInt(TrimSpace(s))
    case _ => 0
  }

  function StringsIn(s: seq<Json>): (r: seq<string>)
    ensures forall x :: x in r <==> Str(x) in s
  {
    if s == [] then [] else
    var rest := StringsIn(s[..|s| - 1]);
    assert s == s[..|s| - 1] + [s[|s| - 1]];
    if s[|s| - 1].Str? then rest + [s[|s| - 1].s] else rest
  }

  // ---------------------------------------------------------------- parts of a pod spec

  function Containers(ps: Fields): seq<Json> {
    AsList(Get(ps, "containers")) + AsList(Get(ps, "initContainers")) + AsList(Get(ps, "ephemeralContainers"))
  }

  function Context(of: Fields): Fields { AsMap(Get(of, "securityContext")) }

  function Volumes(ps: Fields): seq<Json> { AsList(Get(ps, "volumes")) }

  function NameOf(c: Json): string { AsStr(Get(AsMap(c), "name")) }

  /** The security context of a container. */
  function ContextOf(c: Json): Fields { Context(AsMap(c)) }

  function Capabilities(c: Json, key: string): seq<string> {
    StringsIn(AsList(Get(AsMap(Get(ContextOf(c), "capabilities")), key)))
  }

  function SeccompIn(sc: Fields): string { AsStr(Get(AsMap(Get(sc, "seccompProfile")), "type")) }

  /** The container's own seccomp profile, or else the pod's. */
  function Seccomp(podSC: Fields, c: Json): string {
    if SeccompIn(ContextOf(c)) != "" then SeccompIn(ContextOf(c)) else SeccompIn(podSC)
  }

  datatype Uid = Uid(id: int) | Unset

  /** `EffectiveRunAsUser`. */
  function EffectiveRunAsUser(podSC: Fields, sc: Fields): Uid {
    if Get(sc, "runAsUser") != Null then Uid(NumVal(Get(sc, "runAsUser"))) else
    if Get(podSC, "runAsUser") != Null then Uid(NumVal(Get(podSC, "runAsUser"))) else Unset
  }

  const BASELINE_CAPABILITIES: set<string> := {
    "AUDIT_WRITE", "CHOWN", "DAC_OVERRIDE", "FOWNER", "FSETID", "KILL", "MKNOD", "NET_BIND_SERVICE",
    "SETFCAP", "SETGID", "SETPCAP", "SETUID", "SYS_CHROOT" }

  // ---------------------------------------------------------------- the profiles

  /** The Baseline controls of one container. */
  predicate ContainerMeetsBaseline(podSC: Fields, c: Json) {
    && !AsBool(Get(ContextOf(c), "privileged"))
    && Seccomp(podSC, c) != "Unconfined"
    && (forall a :: a in Capabilities(c, "add") ==> Upper(a) in BASELINE_CAPABILITIES)
    && (forall p :: p in AsList(Get(AsMap(c), "ports")) ==> NumVal(Get(AsMap(p), "hostPort")) <= 0)
  }

  /** Whether the container must run as a non-root user: its own word, or else the pod's. */
  predicate RunsAsNonRoot(podSC: Fields, c: Json) {
    var own := Get(ContextOf(c), "runAsNonRoot");
    if own.Bool? then own.b else AsBool(Get(podSC, "runAsNonRoot"))
  }

  predicate MayNotEscalate(c: Json) {
    "allowPrivilegeEscalation" in ContextOf(c) && !AsBool(ContextOf(c)["allowPrivilegeEscalation"])
  }

  predicate DropsAll(c: Json) { exists d :: d in Capabilities(c, "drop") && Upper(d) == "ALL" }

  /** The Restricted controls that the report and the admission rule share. */
  predicate ContainerMeetsProfile(podSC: Fields, c: Json) {
    RunsAsNonRoot(podSC, c) && MayNotEscalate(c) && DropsAll(c) && Seccomp(podSC, c) in {"RuntimeDefault", "Localhost"}
  }

  /** The Restricted controls that only the report checks. */
  predicate ContainerMeetsReport(podSC: Fields, c: Json) {
    && EffectiveRunAsUser(podSC, ContextOf(c)) != Uid(0)
    && (forall a :: a in Capabilities(c, "add") ==> Upper(a) == "NET_BIND_SERVICE")
  }

  predicate SharesHost(ps: Fields) {
    AsBool(Get(ps, "hostNetwork")) || AsBool(Get(ps, "hostPID")) || AsBool(Get(ps, "hostIPC"))
  }

  predicate MountsHostPath(ps: Fields) { exists v :: v in Volumes(ps) && "hostPath" in AsMap(v) }

  datatype Level = Privileged | Baseline | Restricted

  /** Whether the policy of a level admits the pod; each policy includes the weaker ones. */
  predicate Admits(level: Level, ps: Fields) {
    && (level != Privileged ==>
          !SharesHost(ps) && !MountsHostPath(ps) && forall c :: c in Containers(ps) ==> ContainerMeetsBaseline(Context(ps), c))
    && (level == Restricted ==>
          forall c :: c in Containers(ps) ==> ContainerMeetsProfile(Context(ps), c) && ContainerMeetsReport(Context(ps), c))
  }

  // ---------------------------------------------------------------- violations

  datatype Control =
    | HostNetwork | HostPID | HostIPC | HostPath | PrivilegedContainer
    | NonRootDenied | NonRootUnset | PrivilegeEscalation | DropAllMissing
    | SeccompUnset | SeccompUnconfined | SeccompOther(profile: string)
    | RootUser | RootInherited | Capability(name: string) | HostPort

  /** A broken control, and the name of the container that breaks it. */
  datatype Violation = Violation(container: string, control: Control)

  /** The weakest profile a control belongs to. The first two both mean a Baseline failure. */
  datatype Tier = Host | FailsBaseline | FailsRestricted

  function TierOf(k: Control): Tier {
    match k
    case HostNetwork => Host
    case HostPID => Host
    case HostIPC => Host
    case PrivilegedContainer => Host
    case HostPath => FailsBaseline
    case SeccompUnconfined => FailsBaseline
    case HostPort => FailsBaseline
    case Capability(name) => if name in BASELINE_CAPABILITIES then FailsRestricted else FailsBaseline
    case _ => FailsRestricted
  }

  /** Whether one container breaks one control. */
  predicate ContainerBreaks(podSC: Fields, c: Json, k: Control) {
    var sc := ContextOf(c);
    var own := Get(sc, "runAsNonRoot");
    match k
    case PrivilegedContainer => AsBool(Get(sc, "privileged"))
    case NonRootDenied => own.Bool? && !own.b
    case NonRootUnset => !own.Bool? && !AsBool(Get(podSC, "runAsNonRoot"))
    case PrivilegeEscalation => !MayNotEscalate(c)
    case DropAllMissing => !DropsAll(c)
    case SeccompUnset => Seccomp(podSC, c) == ""
    case SeccompUnconfined => Seccomp(podSC, c) == "Unconfined"
    case SeccompOther(p) => Seccomp(podSC, c) == p && p !in {"", "Unconfined", "RuntimeDefault", "Localhost"}
    case RootUser => EffectiveRunAsUser(podSC, sc) == Uid(0) && Get(sc, "runAsUser") != Null
    case RootInherited => EffectiveRunAsUser(podSC, sc) == Uid(0) && Get(sc, "runAsUser") == Null
    case Capability(n) => n != "NET_BIND_SERVICE" && exists a :: a in Capabilities(c, "add") && Upper(a) == n
    case HostPort => exists p :: p in AsList(Get(AsMap(c), "ports")) && NumVal(Get(AsMap(p), "hostPort")) > 0
    case _ => false
  }

  predicate NamespaceBreaks(ps: Fields, k: Control) {
    || (k == HostNetwork && AsBool(Get(ps, "hostNetwork")))
    || (k == HostPID && AsBool(Get(ps, "hostPID")))
    || (k == HostIPC && AsBool(Get(ps, "hostIPC")))
  }

  predicate PodBreaks(ps: Fields, k: Control) {
    NamespaceBreaks(ps, k) || (k == HostPath && MountsHostPath(ps))
  }

  predicate Breaks(podSC: Fields, c: Json, v: Violation) { v.container == NameOf(c) && ContainerBreaks(podSC, c, v.control) }

  predicate Broken(ps: Fields, v: Violation) {
    || (v.container == "" && PodBreaks(ps, v.control))
    || exists c :: c in Containers(ps) && Breaks(Context(ps), c, v)
  }

  // ---------------------------------------------------------------- containerProfileViolations

  /** The controls `containerProfileViolations` looks at. */
  predicate ProfileControl(k: Control) {
    k.NonRootDenied? || k.NonRootUnset? || k.PrivilegeEscalation? || k.DropAllMissing? ||
    k.SeccompUnset? || k.SeccompUnconfined? || k.SeccompOther?
  }

  method DropsAllOf(c: Json) returns (yes: bool)
    ensures yes == DropsAll(c)
  {
    var drops := Capabilities(c, "drop");
    for i := 0 to |drops|
      invariant forall j :: 0 <= j < i ==> Upper(drops[j]) != "ALL"
    {
      if Upper(drops[i]) == "ALL" { return true; }
    }
    yes := false;
  }

  /** The seccomp control of one container. */
  method SeccompViolation(podSC: Fields, c: Json) returns (out: seq<Control>)
    ensures forall k :: k in out <==> (k.SeccompUnset? || k.SeccompUnconfined? || k.SeccompOther?) && ContainerBreaks(podSC, c, k)
  {
    var seccomp := SeccompIn(podSC);
    var own := SeccompIn(ContextOf(c));
    if own != "" { seccomp := own; }
    assert seccomp == Seccomp(podSC, c);
    if seccomp == "RuntimeDefault" || seccomp == "Localhost" {
      out := [];
    } else if seccomp == "" {
      out := [SeccompUnset];
    } else if seccomp == "Unconfined" {
      out := [SeccompUnconfined];
    } else {
      out := [SeccompOther(seccomp)];
    }
  }

  method ProfileControlsOf(podSC: Fields, c: Json) returns (out: seq<Control>)
    ensures forall k :: k in out <==> ProfileControl(k) && ContainerBreaks(podSC, c, k)
  {
    out := [];
    var sc := ContextOf(c);
    var own := Get(sc, "runAsNonRoot");
    if own.Bool? {
      if !own.b { out := out + [NonRootDenied]; }
    } else if !AsBool(Get(podSC, "runAsNonRoot")) {
      out := out + [NonRootUnset];
    }
    if !("allowPrivilegeEscalation" in sc) || AsBool(sc["allowPrivilegeEscalation"]) {
      out := out + [PrivilegeEscalation];
    }
    var drops := DropsAllOf(c);
    if !drops { out := out + [DropAllMissing]; }
    var seccomp := SeccompViolation(podSC, c);
    out := out + seccomp;
  }

  function NamedBy(name: string, ks: seq<Control>): (r: seq<Violation>)
    ensures forall v :: v in r <==> v.container == name && v.control in ks
  {
    if ks == [] then [] else
    assert ks == ks[..|ks| - 1] + [ks[|ks| - 1]];
    NamedBy(name, ks[..|ks| - 1]) + [Violation(name, ks[|ks| - 1])]
  }

  /** Some container among `cs` breaks the control. */
  predicate SomeBreaks(podSC: Fields, cs: seq<Json>, v: Violation) { exists c :: c in cs && Breaks(podSC, c, v) }

  lemma {:induction false} OneMoreContainer(podSC: Fields, cs: seq<Json>, c: Json)
    ensures forall v :: SomeBreaks(podSC, cs + [c], v) <==> SomeBreaks(podSC, cs, v) || Breaks(podSC, c, v)
  {
    forall v ensures SomeBreaks(podSC, cs + [c], v) <==> SomeBreaks(podSC, cs, v) || Breaks(podSC, c, v) {
      assert forall d :: d in cs + [c] <==> d in cs || d == c;
    }
  }

  method ContainerProfileViolations(ps: Fields) returns (out: seq<Violation>)
    ensures forall v :: v in out <==> ProfileControl(v.control) && SomeBreaks(Context(ps), Containers(ps), v)
  {
    out := [];
    var podSC, cs := Context(ps), Containers(ps);
    for i := 0 to |cs|
      invariant forall v :: v in out <==> ProfileControl(v.control) && SomeBreaks(podSC, cs[..i], v)
    {
      var ks := ProfileControlsOf(podSC, cs[i]);
      out := out + NamedBy(NameOf(cs[i]), ks);
      OneMoreContainer(podSC, cs[..i], cs[i]);
      assert cs[..i + 1] == cs[..i] + [cs[i]];
    }
    assert cs[..|cs|] == cs;
  }

  // ---------------------------------------------------------------- classifyPodSecurity

  /** The contents of the three lists of `classifyPodSecurity`, worst first. */
  datatype Buckets = Buckets(host: seq<Violation>, base: seq<Violation>, restricted: seq<Violation>)

  predicate Holds(b: Buckets, v: Violation) { v in b.host || v in b.base || v in b.restricted }

  /** Every violation is in the list of its tier. */
  predicate Filed(b: Buckets) {
    && (forall v :: v in b.host ==> TierOf(v.control) == Host)
    && (forall v :: v in b.base ==> TierOf(v.control) == FailsBaseline)
    && (forall v :: v in b.restricted ==> TierOf(v.control) == FailsRestricted)
  }

  /** `r` holds what `b` does and every violation with property `p`, each in the list of its tier. */
  ghost predicate Adds(b: Buckets, r: Buckets, p: Violation -> bool) {
    Filed(r) && forall v :: Holds(r, v) <==> Holds(b, v) || p(v)
  }

  predicate BadPrivilege(c: Json, k: Control) { k.PrivilegedContainer? && ContainerBreaks(map[], c, k) }

  predicate BadUser(podSC: Fields, c: Json, k: Control) { (k.RootUser? || k.RootInherited?) && ContainerBreaks(podSC, c, k) }

  predicate BadCapability(c: Json, k: Control) { k.Capability? && ContainerBreaks(map[], c, k) }

  predicate BadHostPort(c: Json, k: Control) { k.HostPort? && ContainerBreaks(map[], c, k) }

  lemma {:induction false} OwnControls(podSC: Fields, c: Json, k: Control)
    ensures !ProfileControl(k) && ContainerBreaks(podSC, c, k) <==>
            BadPrivilege(c, k) || BadUser(podSC, c, k) || BadCapability(c, k) || BadHostPort(c, k)
  {}

  /** A capability other than NET_BIND_SERVICE among the first `i` added. */
  ghost predicate AddedBefore(adds: seq<string>, i: int, k: Control)
    requires 0 <= i <= |adds|
  {
    k.Capability? && k.name != "NET_BIND_SERVICE" && exists j :: 0 <= j < i && Upper(adds[j]) == k.name
  }

  method HasHostPath(ps: Fields) returns (yes: bool)
    ensures yes == MountsHostPath(ps)
  {
    var volumes := Volumes(ps);
    for i := 0 to |volumes|
      invariant forall j :: 0 <= j < i ==> "hostPath" !in AsMap(volumes[j])
    {
      if "hostPath" in AsMap(volumes[i]) { return true; }
    }
    yes := false;
  }

  /** The three lists that `classifyPodSecurity` appends to. */
  class Report {
    var host: seq<Violation>
    var base: seq<Violation>
    var restricted: seq<Violation>

    function View(): Buckets
      reads this
    {
      Buckets(host, base, restricted)
    }

    constructor ()
      ensures View() == Buckets([], [], [])
    {
      host, base, restricted := [], [], [];
    }

    method PutHost(v: Violation)
      requires Filed(View()) && TierOf(v.control) == Host
      modifies this
      ensures Adds(old(View()), View(), (w: Violation) => w == v)
    {
      host := host + [v];
    }

    method PutBase(v: Violation)
      requires Filed(View()) && TierOf(v.control) == FailsBaseline
      modifies this
      ensures Adds(old(View()), View(), (w: Violation) => w == v)
    {
      base := base + [v];
    }

    method PutRestricted(v: Violation)
      requires Filed(View()) && TierOf(v.control) == FailsRestricted
      modifies this
      ensures Adds(old(View()), View(), (w: Violation) => w == v)
    {
      restricted := restricted + [v];
    }

    method FileFlag(ps: Fields, key: string, k: Control)
      requires Filed(View()) && TierOf(k) == Host
      modifies this
      ensures Adds(old(View()), View(), (v: Violation) => v == Violation("", k) && AsBool(Get(ps, key)))
    {
      if AsBool(Get(ps, key)) { PutHost(Violation("", k)); }
    }

    method FileNamespaces(ps: Fields)
      requires Filed(View())
      modifies this
      ensures Adds(old(View()), View(), (v: Violation) => v.container == "" && NamespaceBreaks(ps, v.control))
    {
      FileFlag(ps, "hostNetwork", HostNetwork);
      FileFlag(ps, "hostPID", HostPID);
      FileFlag(ps, "hostIPC", HostIPC);
    }

    /** Host namespaces and hostPath volumes. */
    method FilePod(ps: Fields)
      requires Filed(View())
      modifies this
      ensures Adds(old(View()), View(), (v: Violation) => v.container == "" && PodBreaks(ps, v.control))
    {
      FileNamespaces(ps);
      var mounts := HasHostPath(ps);
      if mounts { PutBase(Violation("", HostPath)); }
    }

    /** Profile violations go by their own level. */
    method FileProfile(vs: seq<Violation>)
      requires Filed(View()) && forall v :: v in vs ==> ProfileControl(v.control)
      modifies this
      ensures Adds(old(View()), View(), (v: Violation) => v in vs)
    {
      for i := 0 to |vs|
        invariant Adds(old(View()), View(), (v: Violation) => v in vs[..i])
      {
        assert vs[i] in vs && vs[..i + 1] == vs[..i] + [vs[i]];
        if vs[i].control.SeccompUnconfined? {
          PutBase(vs[i]);
        } else {
          PutRestricted(vs[i]);
        }
      }
      assert vs[..|vs|] == vs;
    }

    method FilePrivilege(c: Json)
      requires Filed(View())
      modifies this
      ensures Adds(old(View()), View(), (v: Violation) => v.container == NameOf(c) && BadPrivilege(c, v.control))
    {
      if AsBool(Get(ContextOf(c), "privileged")) { PutHost(Violation(NameOf(c), PrivilegedContainer)); }
    }

    method FileUser(podSC: Fields, c: Json)
      requires Filed(View())
      modifies this
      ensures Adds(old(View()), View(), (v: Violation) => v.container == NameOf(c) && BadUser(podSC, c, v.control))
    {
      var sc, name := ContextOf(c), NameOf(c);
      if EffectiveRunAsUser(podSC, sc) == Uid(0) {
        if EffectiveRunAsUser(map[], sc) != Unset {
          PutRestricted(Violation(name, RootUser));
        } else {
          PutRestricted(Violation(name, RootInherited));
        }
      }
    }

    method FileCapabilities(c: Json)
      requires Filed(View())
      modifies this
      ensures Adds(old(View()), View(), (v: Violation) => v.container == NameOf(c) && BadCapability(c, v.control))
    {
      var adds, name := Capabilities(c, "add"), NameOf(c);
      for i := 0 to |adds|
        invariant Filed(View())
        invariant forall v :: Holds(View(), v) <==> (Holds(old(View()), v) || (v.container == name && AddedBefore(adds, i, v.control)))
      {
        var up := Upper(adds[i]);
        if up == "NET_BIND_SERVICE" {
        } else if up in BASELINE_CAPABILITIES {
          PutRestricted(Violation(name, Capability(up)));
        } else {
          PutBase(Violation(name, Capability(up)));
        }
      }
    }

    method FileHostPorts(c: Json)
      requires Filed(View())
      modifies this
      ensures Adds(old(View()), View(), (v: Violation) => v.container == NameOf(c) && BadHostPort(c, v.control))
    {
      var ports, w := AsList(Get(AsMap(c), "ports")), Violation(NameOf(c), HostPort);
      for i := 0 to |ports|
        invariant Filed(View())
        invariant forall v :: Holds(View(), v) <==>
          (Holds(old(View()), v) || (v == w && exists j :: 0 <= j < i && NumVal(Get(AsMap(ports[j]), "hostPort")) > 0))
      {
        if NumVal(Get(AsMap(ports[i]), "hostPort")) > 0 { PutBase(w); }
      }
    }

    /** The controls `classifyPodSecurity` checks itself, for one container. */
    method FileContainer(podSC: Fields, c: Json)
      requires Filed(View())
      modifies this
      ensures Adds(old(View()), View(), (v: Violation) => !ProfileControl(v.control) && Breaks(podSC, c, v))
    {
      FilePrivilege(c);
      FileUser(podSC, c);
      FileCapabilities(c);
      FileHostPorts(c);
      forall v ensures Holds(View(), v) <==> Holds(old(View()), v) || (!ProfileControl(v.control) && Breaks(podSC, c, v)) {
        OwnControls(podSC, c, v.control);
      }
    }

    method FileContainers(podSC: Fields, cs: seq<Json>)
      requires Filed(View())
      modifies this
      ensures Adds(old(View()), View(), (v: Violation) => !ProfileControl(v.control) && SomeBreaks(podSC, cs, v))
    {
      for i := 0 to |cs|
        invariant Adds(old(View()), View(), (v: Violation) => !ProfileControl(v.control) && SomeBreaks(podSC, cs[..i], v))
      {
        FileContainer(podSC, cs[i]);
        OneMoreContainer(podSC, cs[..i], cs[i]);
        assert cs[..i + 1] == cs[..i] + [cs[i]];
      }
      assert cs[..|cs|] == cs;
    }
  }

  function TierRank(v: Violation): nat {
    match TierOf(v.control) case Host => 0 case FailsBaseline => 1 case FailsRestricted => 2
  }

  predicate WorstFirst(vs: seq<Violation>) { forall i, j :: 0 <= i < j < |vs| ==> TierRank(vs[i]) <= TierRank(vs[j]) }

  lemma {:induction false} FiledIsWorstFirst(b: Buckets)
    requires Filed(b)
    ensures var vs := b.host + b.base + b.restricted; WorstFirst(vs) && forall v :: v in vs <==> Holds(b, v)
  {}

  /** The strongest policy that admits the pod. */
  ghost function LevelOf(ps: Fields): Level {
    if Admits(Restricted, ps) then Restricted else if Admits(Baseline, ps) then Baseline else Privileged
  }

  /** `classifyPodSecurity`: exactly the broken controls, worst first, and the level. */
  method ClassifyPodSecurity(ps: Fields) returns (level: Level, violations: seq<Violation>)
    ensures level == LevelOf(ps)
    ensures WorstFirst(violations) && forall v :: v in violations <==> Broken(ps, v)
  {
    var report := new Report();
    report.FilePod(ps);
    var profile := ContainerProfileViolations(ps);
    report.FileProfile(profile);
    report.FileContainers(Context(ps), Containers(ps));
    var b := report.View();
    assert forall v :: Holds(b, v) <==> Broken(ps, v);
    violations := b.host + b.base + b.restricted;
    FiledIsWorstFirst(b);
    LevelFromViolations(ps, b);
    level := if |b.host| > 0 || |b.base| > 0 then Privileged else if |b.restricted| > 0 then Baseline else Restricted;
  }

  // ---------------------------------------------------------------- violations and profiles

  lemma {:induction false} BaselineBreaks(podSC: Fields, c: Json, k: Control)
    requires ContainerMeetsBaseline(podSC, c) && ContainerBreaks(podSC, c, k)
    ensures TierOf(k) == FailsRestricted
  {
    if k.Capability? {
      var a :| a in Capabilities(c, "add") && Upper(a) == k.name;
    }
  }

  lemma {:induction false} BaselineFails(podSC: Fields, c: Json) returns (k: Control)
    requires !ContainerMeetsBaseline(podSC, c)
    ensures ContainerBreaks(podSC, c, k) && TierOf(k) != FailsRestricted
  {
    if AsBool(Get(ContextOf(c), "privileged")) {
      k := PrivilegedContainer;
    } else if Seccomp(podSC, c) == "Unconfined" {
      k := SeccompUnconfined;
    } else if exists p :: p in AsList(Get(AsMap(c), "ports")) && NumVal(Get(AsMap(p), "hostPort")) > 0 {
      k := HostPort;
    } else {
      var a :| a in Capabilities(c, "add") && Upper(a) !in BASELINE_CAPABILITIES;
      assert "NET_BIND_SERVICE" in BASELINE_CAPABILITIES;
      k := Capability(Upper(a));
    }
  }

  lemma {:induction false} BaselineByControls(podSC: Fields, c: Json)
    ensures ContainerMeetsBaseline(podSC, c) <==> forall k :: ContainerBreaks(podSC, c, k) ==> TierOf(k) == FailsRestricted
  {
    if ContainerMeetsBaseline(podSC, c) {
      forall k | ContainerBreaks(podSC, c, k) ensures TierOf(k) == FailsRestricted { BaselineBreaks(podSC, c, k); }
    } else {
      var k := BaselineFails(podSC, c);
    }
  }

  lemma {:induction false} ProfileByControls(podSC: Fields, c: Json)
    ensures ContainerMeetsProfile(podSC, c) <==> forall k :: ProfileControl(k) ==> !ContainerBreaks(podSC, c, k)
  {
    if !ContainerMeetsProfile(podSC, c) {
      var own, profile := Get(ContextOf(c), "runAsNonRoot"), Seccomp(podSC, c);
      var k :=
        if !RunsAsNonRoot(podSC, c) then (if own.Bool? then NonRootDenied else NonRootUnset) else
        if !MayNotEscalate(c) then PrivilegeEscalation else
        if !DropsAll(c) then DropAllMissing else
        if profile == "" then SeccompUnset else if profile == "Unconfined" then SeccompUnconfined else SeccompOther(profile);
      assert ProfileControl(k) && ContainerBreaks(podSC, c, k);
    }
  }

  lemma {:induction false} RestrictedByControls(podSC: Fields, c: Json)
    ensures ContainerMeetsBaseline(podSC, c) && ContainerMeetsProfile(podSC, c) && ContainerMeetsReport(podSC, c)
            <==> forall k :: !ContainerBreaks(podSC, c, k)
  {
    BaselineByControls(podSC, c);
    ProfileByControls(podSC, c);
    if !ContainerMeetsReport(podSC, c) {
      var k :=
        if EffectiveRunAsUser(podSC, ContextOf(c)) == Uid(0)
        then (if Get(ContextOf(c), "runAsUser") != Null then RootUser else RootInherited)
        else var a :| a in Capabilities(c, "add") && Upper(a) != "NET_BIND_SERVICE"; Capability(Upper(a));
      assert ContainerBreaks(podSC, c, k);
    }
  }

  lemma {:induction false} PodControls(ps: Fields)
    ensures SharesHost(ps) || MountsHostPath(ps) <==> exists k :: PodBreaks(ps, k)
    ensures forall k :: PodBreaks(ps, k) ==> TierOf(k) != FailsRestricted
  {
    if SharesHost(ps) || MountsHostPath(ps) {
      var k := if AsBool(Get(ps, "hostNetwork")) then HostNetwork else if AsBool(Get(ps, "hostPID")) then HostPID else
               if AsBool(Get(ps, "hostIPC")) then HostIPC else HostPath;
      assert PodBreaks(ps, k);
    }
  }

  /** A pod is admitted at Baseline exactly when it breaks no control of the Baseline tiers. */
  lemma {:induction false} BaselineByViolations(ps: Fields)
    ensures Admits(Baseline, ps) <==> forall v :: Broken(ps, v) ==> TierOf(v.control) == FailsRestricted
  {
    PodControls(ps);
    var podSC := Context(ps);
    if Admits(Baseline, ps) {
      forall v | Broken(ps, v) ensures TierOf(v.control) == FailsRestricted {
        var c :| c in Containers(ps) && Breaks(podSC, c, v);
        BaselineByControls(podSC, c);
      }
    } else if SharesHost(ps) || MountsHostPath(ps) {
      var k :| PodBreaks(ps, k);
      assert Broken(ps, Violation("", k));
    } else {
      var c :| c in Containers(ps) && !ContainerMeetsBaseline(podSC, c);
      BaselineByControls(podSC, c);
      var k :| ContainerBreaks(podSC, c, k) && TierOf(k) != FailsRestricted;
      var v := Violation(NameOf(c), k);
      assert Breaks(podSC, c, v) && Broken(ps, v);
    }
  }

  /** A pod is admitted at Restricted exactly when it breaks no control at all. */
  lemma {:induction false} RestrictedByViolations(ps: Fields)
    ensures Admits(Restricted, ps) <==> forall v :: !Broken(ps, v)
  {
    PodControls(ps);
    var podSC := Context(ps);
    if Admits(Restricted, ps) {
      forall v ensures !Broken(ps, v) {
        forall c | c in Containers(ps) ensures !Breaks(podSC, c, v) { RestrictedByControls(podSC, c); }
      }
    } else if SharesHost(ps) || MountsHostPath(ps) {
      var k :| PodBreaks(ps, k);
      assert Broken(ps, Violation("", k));
    } else {
      var c :| c in Containers(ps) && !(ContainerMeetsBaseline(podSC, c) && ContainerMeetsProfile(podSC, c) && ContainerMeetsReport(podSC, c));
      RestrictedByControls(podSC, c);
      var k :| ContainerBreaks(podSC, c, k);
      var v := Violation(NameOf(c), k);
      assert Breaks(podSC, c, v) && Broken(ps, v);
    }
  }

  lemma {:induction false} LevelFromViolations(ps: Fields, b: Buckets)
    requires Filed(b) && forall v :: Holds(b, v) <==> Broken(ps, v)
    ensures LevelOf(ps) == if |b.host| > 0 || |b.base| > 0 then Privileged else if |b.restricted| > 0 then Baseline else Restricted
  {
    BaselineByViolations(ps);
    RestrictedByViolations(ps);
    if |b.host| > 0 { assert b.host[0] in b.host && Holds(b, b.host[0]); }
    if |b.base| > 0 { assert b.base[0] in b.base && Holds(b, b.base[0]); }
    if |b.restricted| > 0 { assert b.restricted[0] in b.restricted && Holds(b, b.restricted[0]); }
  }
}
