/** The admission rules `deny_privileged_runtime` and `enforce_pss_restricted` beside the Pod
    Security report: where they agree, and how both move when a pod grows. */
module PodSecurityGate {
  import opened Text
  import opened JsonDiff
  import opened PodSecurity

  // ---------------------------------------------------------------- the rules

  predicate RuntimePrivileged(c: Json) {
    AsBool(Get(ContextOf(c), "privileged")) || AsBool(Get(ContextOf(c), "allowPrivilegeEscalation"))
  }

  /** When a rule fires; only `enforce_pss_restricted` looks at the Restricted controls. */
  predicate RuleFires(ps: Fields, restricted: bool) {
    || SharesHost(ps) || MountsHostPath(ps)
    || (exists c :: c in Containers(ps) && RuntimePrivileged(c))
    || (restricted && exists c :: c in Containers(ps) && !ContainerMeetsProfile(Context(ps), c))
  }

  /** `evalPolicyRule`, the case of the two rules. */
  method EvalPssRule(ps: Fields, restricted: bool) returns (violated: bool)
    ensures violated == RuleFires(ps, restricted)
  {
    if AsBool(Get(ps, "hostNetwork")) || AsBool(Get(ps, "hostPID")) || AsBool(Get(ps, "hostIPC")) { return true; }
    var mounts := HasHostPath(ps);
    if mounts { return true; }
    var privileged := SomePrivileged(Containers(ps));
    if privileged { return true; }
    if !restricted { return false; }
    var vs := ContainerProfileViolations(ps);
    NoProfileViolation(ps, vs);
    violated := |vs| > 0;
  }

  method SomePrivileged(cs: seq<Json>) returns (yes: bool)
    ensures yes <==> exists c :: c in cs && RuntimePrivileged(c)
  {
    for i := 0 to |cs|
      invariant forall j :: 0 <= j < i ==> !RuntimePrivileged(cs[j])
    {
      if RuntimePrivileged(cs[i]) { return true; }
    }
    yes := false;
  }

  lemma {:induction false} NoProfileViolation(ps: Fields, vs: seq<Violation>)
    requires forall v :: v in vs <==> ProfileControl(v.control) && SomeBreaks(Context(ps), Containers(ps), v)
    ensures vs == [] <==> forall c :: c in Containers(ps) ==> ContainerMeetsProfile(Context(ps), c)
  {
    var podSC := Context(ps);
    if vs == [] {
      forall c | c in Containers(ps) ensures ContainerMeetsProfile(podSC, c) {
        ProfileByControls(podSC, c);
        forall k | ProfileControl(k) ensures !ContainerBreaks(podSC, c, k) {
          assert ContainerBreaks(podSC, c, k) ==> Breaks(podSC, c, Violation(NameOf(c), k));
          assert Violation(NameOf(c), k) !in vs;
        }
      }
    } else {
      assert vs[0] in vs;
      var c :| c in Containers(ps) && Breaks(podSC, c, vs[0]);
      ProfileByControls(podSC, c);
    }
  }

  // ---------------------------------------------------------------- report against gate

  predicate UsesHostPort(c: Json) {
    exists p :: p in AsList(Get(AsMap(c), "ports")) && NumVal(Get(AsMap(p), "hostPort")) > 0
  }

  /** The report says "restricted" exactly when the gate is silent and, beyond what the gate looks
      at, no container resolves to UID 0, adds a capability other than NET_BIND_SERVICE or takes a
      host port. In particular a "restricted" pod never trips the gate. */
  lemma {:induction false} RestrictedAgainstGate(ps: Fields)
    ensures LevelOf(ps) == Restricted <==>
            !RuleFires(ps, true) && forall c :: c in Containers(ps) ==> ContainerMeetsReport(Context(ps), c) && !UsesHostPort(c)
  {
    var podSC := Context(ps);
    forall c | c in Containers(ps)
      ensures ContainerMeetsBaseline(podSC, c) && ContainerMeetsProfile(podSC, c) && ContainerMeetsReport(podSC, c) <==>
              !RuntimePrivileged(c) && ContainerMeetsProfile(podSC, c) && ContainerMeetsReport(podSC, c) && !UsesHostPort(c)
    {
      if ContainerMeetsProfile(podSC, c) && ContainerMeetsReport(podSC, c) { OneContainer(podSC, c); }
    }
  }

  lemma {:induction false} OneContainer(podSC: Fields, c: Json)
    requires ContainerMeetsProfile(podSC, c) && ContainerMeetsReport(podSC, c)
    ensures ContainerMeetsBaseline(podSC, c) <==> !RuntimePrivileged(c) && !UsesHostPort(c)
  {
    assert "NET_BIND_SERVICE" in BASELINE_CAPABILITIES;
    assert forall p :: NumVal(Get(AsMap(p), "hostPort")) <= 0 <==> !(NumVal(Get(AsMap(p), "hostPort")) > 0);
  }

  /** A "restricted" pod trips neither rule. */
  lemma {:induction false} RestrictedPassesTheGate(ps: Fields)
    requires LevelOf(ps) == Restricted
    ensures !RuleFires(ps, true) && !RuleFires(ps, false)
  {
    RestrictedAgainstGate(ps);
  }

  /** A container hardened in everything the gate checks, with further fields of its own. */
  function Hardened(extra: Fields): Json {
    Map(map["securityContext" := Map(HARDENED)] + extra)
  }

  const HARDENED: Fields := map[
    "runAsNonRoot" := Bool(true), "allowPrivilegeEscalation" := Bool(false),
    "capabilities" := Map(map["drop" := List([Str("ALL")])]),
    "seccompProfile" := Map(map["type" := Str("RuntimeDefault")])]

  function PodOf(c: Json): Fields { map["containers" := List([c])] }

  const HOST_PORT: Fields := map["ports" := List([Map(map["hostPort" := Num(80.0)])])]

  lemma {:induction false} HardenedPasses(extra: Fields)
    requires "securityContext" !in extra
    ensures ContainerMeetsProfile(map[], Hardened(extra)) && !RuntimePrivileged(Hardened(extra))
  {
    var c := Hardened(extra);
    var sc := ContextOf(c);
    assert sc == HARDENED;
    assert sc["runAsNonRoot"] == Bool(true) && sc["allowPrivilegeEscalation"] == Bool(false);
    assert SeccompIn(sc) == "RuntimeDefault";
    DropsListed(c);
  }

  lemma {:induction false} DropsListed(c: Json)
    requires ContextOf(c) == HARDENED
    ensures DropsAll(c)
  {
    var drops := AsList(Get(AsMap(Get(ContextOf(c), "capabilities")), "drop"));
    assert drops[0] == Str("ALL") && "ALL" in Capabilities(c, "drop");
    assert Upper("ALL") == "ALL";
  }

  lemma {:induction false} TakesHostPort(c: Json)
    requires Get(AsMap(c), "ports") == HOST_PORT["ports"]
    ensures !ContainerMeetsBaseline(map[], c)
  {
    var port := Map(map["hostPort" := Num(80.0)]);
    var ports := AsList(Get(AsMap(c), "ports"));
    assert ports == [port] && port in ports;
    assert NumVal(Get(AsMap(port), "hostPort")) == 80;
  }

  /** The gate is silent on this pod, and yet the report puts it at "privileged". */
  lemma {:induction false} GateOverlooksHostPorts()
    ensures !RuleFires(PodOf(Hardened(HOST_PORT)), true) && LevelOf(PodOf(Hardened(HOST_PORT))) == Privileged
  {
    var c := Hardened(HOST_PORT);
    HardenedPasses(HOST_PORT);
    TakesHostPort(c);
    SinglePod(c);
  }

  lemma {:induction false} SinglePod(c: Json)
    ensures var ps := PodOf(c); Containers(ps) == [c] && c in Containers(ps) && Context(ps) == map[] && Volumes(ps) == [] && !SharesHost(ps)
  {}

  // ---------------------------------------------------------------- growing a pod

  function LevelRank(level: Level): nat { match level case Privileged => 0 case Baseline => 1 case Restricted => 2 }

  /** `qs` has every container and volume of `ps` and the same pod-wide settings. */
  predicate Extends(ps: Fields, qs: Fields) {
    && Context(qs) == Context(ps)
    && (forall k :: k in {"hostNetwork", "hostPID", "hostIPC"} ==> Get(qs, k) == Get(ps, k))
    && (forall c :: c in Containers(ps) ==> c in Containers(qs))
    && (forall v :: v in Volumes(ps) ==> v in Volumes(qs))
  }

  /** A larger pod is never reported closer to "restricted", and a rule that fired still fires. */
  lemma {:induction false} GrowingNeverHelps(ps: Fields, qs: Fields, restricted: bool)
    requires Extends(ps, qs)
    ensures LevelRank(LevelOf(qs)) <= LevelRank(LevelOf(ps))
    ensures RuleFires(ps, restricted) ==> RuleFires(qs, restricted)
  {
    var hostKeys := {"hostNetwork", "hostPID", "hostIPC"};
    assert "hostNetwork" in hostKeys && "hostPID" in hostKeys && "hostIPC" in hostKeys;
    assert SharesHost(qs) == SharesHost(ps);
    assert MountsHostPath(ps) ==> MountsHostPath(qs);
  }

  /** The pod with more elements in one of its lists. */
  function WithMore(ps: Fields, key: string, more: seq<Json>): Fields { ps[key := List(AsList(Get(ps, key)) + more)] }

  /** Adding containers of any kind, or volumes, extends a pod. */
  lemma {:induction false} AddingExtends(ps: Fields, key: string, more: seq<Json>)
    requires key in {"containers", "initContainers", "ephemeralContainers", "volumes"}
    ensures Extends(ps, WithMore(ps, key, more))
  {
    var qs := WithMore(ps, key, more);
    assert forall k :: k != key ==> Get(qs, k) == Get(ps, k);
    assert AsList(Get(qs, key)) == AsList(Get(ps, key)) + more;
    assert key !in {"hostNetwork", "hostPID", "hostIPC", "securityContext"};
    forall c | c in Containers(ps) ensures c in Containers(qs) {
      assert c in AsList(Get(ps, "containers")) || c in AsList(Get(ps, "initContainers")) || c in AsList(Get(ps, "ephemeralContainers"));
    }
  }
}
