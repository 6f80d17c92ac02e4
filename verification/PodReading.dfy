/** How the Pod Security checks read a pod spec: which containers count, and what a container takes
    from its pod. */
module PodReading {
  import opened JsonDiff
  import opened PodSecurity

  /** Regular, init and ephemeral containers all count. */
  lemma {:induction false} AllContainersCount(ps: Fields, c: Json)
    ensures c in Containers(ps) <==>
            || (exists l: seq<Json> :: Get(ps, "containers") == List(l) && c in l)
            || (exists l: seq<Json> :: Get(ps, "initContainers") == List(l) && c in l)
            || (exists l: seq<Json> :: Get(ps, "ephemeralContainers") == List(l) && c in l)
  {
    InList(Get(ps, "containers"), c);
    InList(Get(ps, "initContainers"), c);
    InList(Get(ps, "ephemeralContainers"), c);
  }

  lemma {:induction false} InList(v: Json, c: Json)
    ensures c in AsList(v) <==> exists l: seq<Json> :: v == List(l) && c in l
  {
    if v.List? { assert v == List(v.elems); }
  }

  /** Numbers lose their fraction, toward zero. */
  lemma {:induction false} NumbersAreTruncated(r: real)
    ensures r >= 0.0 ==> 0.0 <= r - NumVal(Num(r)) as real < 1.0
    ensures r < 0.0 ==> -1.0 < r - NumVal(Num(r)) as real <= 0.0
  {}

  /** A user identifier written as a whole number. */
  function User(n: int): Fields { map["runAsUser" := Num(n as real)] }

  /** The container's own user wins; without one, or with an explicit null, the pod's counts; without
      either the spec makes no claim. */
  lemma {:induction false} ContainerUserWins(podSC: Fields, sc: Fields, n: int)
    ensures EffectiveRunAsUser(podSC, sc + User(n)) == Uid(n)
    ensures Get(sc, "runAsUser") == Null ==> EffectiveRunAsUser(podSC + User(n), sc) == Uid(n)
    ensures Get(sc, "runAsUser") == Null && Get(podSC, "runAsUser") == Null ==> EffectiveRunAsUser(podSC, sc) == Unset
  {
    WholeNumber(n);
    assert Get(sc + User(n), "runAsUser") == Num(n as real) && Get(podSC + User(n), "runAsUser") == Num(n as real);
  }

  lemma {:induction false} WholeNumber(n: int)
    ensures NumVal(Num(n as real)) == n
  {
    if n < 0 { assert -(n as real) == (-n) as real; }
  }

  /** A container is reported for running as root under its own name or under the pod's, never both:
      by its own user if it has one, by the pod's otherwise. */
  lemma {:induction false} RootIsReported(podSC: Fields, c: Json)
    ensures ContainerBreaks(podSC, c, RootUser) || ContainerBreaks(podSC, c, RootInherited) <==> EffectiveRunAsUser(podSC, ContextOf(c)) == Uid(0)
    ensures ContainerBreaks(podSC, c, RootUser) ==> ContainerBreaks(map[], c, RootUser)
    ensures ContainerBreaks(podSC, c, RootInherited) ==> EffectiveRunAsUser(map[], ContextOf(c)) == Unset && EffectiveRunAsUser(podSC, map[]) == Uid(0)
  {}

  function Profile(kind: string): Fields { map["seccompProfile" := Map(map["type" := Str(kind)])] }

  /** The container's own seccomp profile wins; only one that declares none falls back to the pod's. */
  lemma {:induction false} ContainerProfileWins(podSC: Fields, c: Json, kind: string)
    ensures Get(ContextOf(c), "seccompProfile") == Profile(kind)["seccompProfile"] && kind != "" ==> Seccomp(podSC, c) == kind
    ensures Get(ContextOf(c), "seccompProfile") == Null ==> Seccomp(podSC + Profile(kind), c) == kind
  {
    assert SeccompIn(Profile(kind)) == kind;
    assert Get(podSC + Profile(kind), "seccompProfile") == Profile(kind)["seccompProfile"];
  }

  /** The same for the promise not to run as root. */
  lemma {:induction false} ContainerPromiseWins(podSC: Fields, c: Json, own: bool)
    ensures Get(ContextOf(c), "runAsNonRoot") == Bool(own) ==> (RunsAsNonRoot(podSC, c) <==> own)
    ensures Get(ContextOf(c), "runAsNonRoot") == Null ==> (RunsAsNonRoot(podSC, c) <==> Get(podSC, "runAsNonRoot") == Bool(true))
  {}
}
