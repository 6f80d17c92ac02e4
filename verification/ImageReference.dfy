/** Image references: the printer `ImageRef`, the inventory parser `ParseImageRef` and the policy
    parser `imageTagAndDigest`. */
module ImageReference {
  import opened Text

  /** `strings.Index` for one character. */
  function Index(s: string, c: char): (r: int)
    ensures -1 <= r < |s|
    ensures if r < 0 then forall i :: 0 <= i < |s| ==> s[i] != c else s[r] == c && forall i :: 0 <= i < r ==> s[i] != c
  {
    FirstFrom(s, c, 0)
  }

  function FirstFrom(s: string, c: char, k: nat): (r: int)
    requires k <= |s|
    ensures r == -1 || k <= r < |s|
    ensures if r < 0 then forall i :: k <= i < |s| ==> s[i] != c else s[r] == c && forall i :: k <= i < r ==> s[i] != c
    decreases |s| - k
  {
    if k == |s| then -1 else if s[k] == c then k else FirstFrom(s, c, k + 1)
  }

  /** `strings.LastIndex` for one character. */
  function LastIndex(s: string, c: char): (r: int)
    ensures -1 <= r < |s|
    ensures if r < 0 then forall i :: 0 <= i < |s| ==> s[i] != c else s[r] == c && forall i :: r < i < |s| ==> s[i] != c
  {
    LastBelow(s, c, |s|)
  }

  function LastBelow(s: string, c: char, k: nat): (r: int)
    requires k <= |s|
    ensures -1 <= r < k
    ensures if r < 0 then forall i :: 0 <= i < k ==> s[i] != c else s[r] == c && forall i :: r < i < k ==> s[i] != c
  {
    if k == 0 then -1 else if s[k - 1] == c then k - 1 else LastBelow(s, c, k - 1)
  }

  function TrimLeftSlash(s: string): string { if s != "" && s[0] == '/' then TrimLeftSlash(s[1..]) else s }

  function TrimRightSlash(s: string): string { if s != "" && s[|s| - 1] == '/' then TrimRightSlash(s[..|s| - 1]) else s }

  /** `strings.Trim(s, "/")`. */
  function TrimSlashes(s: string): string { TrimRightSlash(TrimLeftSlash(s)) }

  // ---------------------------------------------------------------- the printer

  /** The repository path with its project in front, unless it is there already. */
  function Qualified(project: string, repository: string): string {
    var repo := TrimSlashes(TrimSpace(repository));
    var proj := TrimSlashes(TrimSpace(project));
    if proj != "" && repo != "" && !HasPrefix(repo, proj + "/") then proj + "/" + repo else repo
  }

  function CanonicalDigest(d: string): string { if ':' in d then d else "sha256:" + d }

  /** `ImageRef`, given the registry's host. */
  function ImageRef(host: string, project: string, repository: string, tag: string, digest: string): string {
    var ref := TrimSlashes(host + "/" + Qualified(project, repository));
    var d := TrimSpace(digest);
    if d != "" then ref + "@" + CanonicalDigest(d) else
    var t := TrimSpace(tag);
    if t != "" then ref + ":" + t else ref
  }

  // ---------------------------------------------------------------- the parsers

  datatype Ref = Ref(registry: string, repository: string, tag: string, digest: string)

  predicate HostLike(head: string) { '.' in head || ':' in head || head == "localhost" }

  /** The part before the first `@`. */
  function Name(s: string): string { if Index(s, '@') >= 0 then s[..Index(s, '@')] else s }

  function Digest(s: string): string { if Index(s, '@') >= 0 then s[Index(s, '@') + 1..] else "" }

  /** Whether the first path segment of a name is a registry host. */
  predicate Hosted(name: string) { Index(name, '/') >= 0 && HostLike(name[..Index(name, '/')]) }

  function Registry(name: string): string { if Hosted(name) then name[..Index(name, '/')] else "docker.io" }

  function Path(name: string): string { if Hosted(name) then name[Index(name, '/') + 1..] else name }

  /** The tag is what follows the last colon of the path; `latest` when there is neither tag nor
      digest. */
  function FromPath(registry: string, path: string, digest: string): Ref {
    var colon := LastIndex(path, ':');
    if colon >= 0 then Ref(registry, path[..colon], path[colon + 1..], digest) else
    Ref(registry, path, if digest == "" then "latest" else "", digest)
  }

  function ParseTrimmed(s: string): Ref {
    if s == "" then Ref("", "", "", "") else FromPath(Registry(Name(s)), Path(Name(s)), Digest(s))
  }

  function ParseImageRef(raw: string): Ref { ParseTrimmed(TrimSpace(raw)) }

  /** The text after the last slash. */
  function LastSegment(s: string): string { s[LastIndex(s, '/') + 1..] }

  function SegmentTag(segment: string): string {
    var i := LastIndex(segment, ':');
    if i > 0 then segment[i + 1..] else ""
  }

  /** `imageTagAndDigest`, which does not trim. */
  function ImageTagAndDigest(ref: string): (string, string) {
    (SegmentTag(LastSegment(Name(ref))), Digest(ref))
  }

  // ---------------------------------------------------------------- cutting at a separator

  /** `s` is `left`, the character `c`, and `right`. */
  predicate Cut(s: string, left: string, c: char, right: string) {
    |s| == |left| + 1 + |right| && s[..|left|] == left && s[|left|] == c && s[|left| + 1..] == right
  }

  lemma {:induction false} CutAtFirst(s: string, left: string, c: char, right: string)
    requires Cut(s, left, c, right) && c !in left
    ensures Index(s, c) == |left|
  {
    assert forall i :: 0 <= i < |left| ==> s[i] == left[i] && left[i] in left;
  }

  lemma {:induction false} CutAtLast(s: string, left: string, c: char, right: string)
    requires Cut(s, left, c, right) && c !in right
    ensures LastIndex(s, c) == |left|
  {
    assert forall i :: |left| < i < |s| ==> s[i] == right[i - |left| - 1] && right[i - |left| - 1] in right;
  }

  // ---------------------------------------------------------------- trimming

  lemma {:induction false} TrimLeftSlashIsSuffix(s: string) returns (i: nat)
    ensures i <= |s| && TrimLeftSlash(s) == s[i..]
    ensures i < |s| ==> s[i] != '/'
  {
    if s != "" && s[0] == '/' {
      var j := TrimLeftSlashIsSuffix(s[1..]);
      i := j + 1;
    } else {
      i := 0;
    }
  }

  lemma {:induction false} TrimRightSlashIsPrefix(s: string) returns (j: nat)
    ensures j <= |s| && TrimRightSlash(s) == s[..j]
    ensures j > 0 ==> s[j - 1] != '/'
  {
    if s != "" && s[|s| - 1] == '/' {
      j := TrimRightSlashIsPrefix(s[..|s| - 1]);
      assert s[..|s| - 1][..j] == s[..j];
    } else {
      j := |s|;
    }
  }

  /** No slash at either end. */
  predicate Bare(s: string) { s != "" ==> s[0] != '/' && s[|s| - 1] != '/' }

  lemma {:induction false} TrimmedIsBare(s: string)
    ensures Bare(TrimSlashes(s))
    ensures forall c :: c in TrimSlashes(s) ==> c in s
    ensures Bare(s) ==> TrimSlashes(s) == s
  {
    var i := TrimLeftSlashIsSuffix(s);
    var j := TrimRightSlashIsPrefix(s[i..]);
  }

  /** Text that may stand in a repository path. */
  predicate Plain(s: string) { forall c :: c in s ==> c != ':' && c != '@' && !IsSpace(c) }

  lemma {:induction false} QualifiedShape(project: string, repository: string)
    requires Plain(TrimSpace(project)) && Plain(TrimSpace(repository))
    ensures Plain(Qualified(project, repository)) && Bare(Qualified(project, repository))
  {
    TrimmedIsBare(TrimSpace(project));
    TrimmedIsBare(TrimSpace(repository));
  }

  /** A repository already under its project is left alone. */
  lemma {:induction false} QualifyingTwiceIsOnce(project: string, repository: string)
    requires Plain(TrimSpace(project)) && Plain(TrimSpace(repository))
    ensures Qualified(project, Qualified(project, repository)) == Qualified(project, repository)
  {
    var once := Qualified(project, repository);
    QualifiedShape(project, repository);
    TrimmedIsBare(once);
    assert TrimSlashes(TrimSpace(once)) == once;
    var proj := TrimSlashes(TrimSpace(project));
    assert HasPrefix(proj + "/" + TrimSlashes(TrimSpace(repository)), proj + "/");
  }

  // ---------------------------------------------------------------- printing, then parsing

  /** A registry host as a URL gives it. */
  predicate WellFormedHost(host: string) {
    HostLike(host) && forall c :: c in host ==> c != '/' && c != '@' && !IsSpace(c)
  }

  predicate WellFormedTag(t: string) { forall c :: c in t ==> c != ':' && c != '@' && c != '/' }

  lemma {:induction false} RefBody(host: string, full: string)
    requires WellFormedHost(host) && full != "" && Plain(full) && Bare(full)
    ensures TrimSlashes(host + "/" + full) == host + "/" + full && '@' !in host + "/" + full
  {
    assert host != "" && host[0] in host;
    TrimmedIsBare(host + "/" + full);
  }

  lemma {:induction false} ParseHosted(name: string, host: string, rest: string)
    requires WellFormedHost(host) && Cut(name, host, '/', rest)
    ensures Registry(name) == host && Path(name) == rest
  {
    CutAtFirst(name, host, '/', rest);
  }

  lemma {:induction false} NameAlone(name: string)
    requires '@' !in name
    ensures Name(name) == name && Digest(name) == ""
  {}

  lemma {:induction false} NameAndDigest(s: string, name: string, d: string)
    requires Cut(s, name, '@', d) && '@' !in name
    ensures Name(s) == name && Digest(s) == d
  {
    CutAtFirst(s, name, '@', d);
  }

  lemma {:induction false} SolidIsTrimmed(s: string)
    requires s != "" && !IsSpace(s[0]) && !IsSpace(s[|s| - 1])
    ensures TrimSpace(s) == s
  {
    TrimSpaceOf("", s, "");
    assert "" + s + "" == s;
  }

  lemma {:induction false} LastIndexAfter(name: string, k: nat, i: int, j: int)
    requires k < |name| && name[k] == '/' && i == LastIndex(name, '/') && j == LastIndex(name[k + 1..], '/')
    ensures i == k + 1 + j
  {
    var path := name[k + 1..];
    assert forall n :: k < n < |name| ==> name[n] == path[n - k - 1];
    if j >= 0 { assert path[j] == name[k + 1 + j]; }
  }

  lemma {:induction false} DropTwice(s: string, a: nat, b: nat)
    requires a + b <= |s|
    ensures s[a..][b..] == s[a + b..]
  {}

  lemma {:induction false} LastSegmentAfter(name: string, k: nat)
    requires k < |name| && name[k] == '/'
    ensures LastSegment(name) == LastSegment(name[k + 1..])
  {
    var j := LastIndex(name[k + 1..], '/');
    LastIndexAfter(name, k, LastIndex(name, '/'), j);
    DropTwice(name, k + 1, j + 1);
  }

  lemma {:induction false} LastSegmentOfPath(name: string)
    ensures LastSegment(name) == LastSegment(Path(name))
  {
    if Hosted(name) { LastSegmentAfter(name, Index(name, '/')); }
  }

  lemma {:induction false} NoColonIn(s: string)
    requires ':' !in s
    ensures LastIndex(s, ':') == -1 && SegmentTag(s) == ""
  {}

  lemma {:induction false} CutOfSlice(path: string, i: nat, colon: nat)
    requires i <= colon < |path| && path[colon] == ':'
    ensures Cut(path[i..], path[i..colon], ':', path[colon + 1..])
  {}

  /** The policy parser's tag, seen from the whole path. */
  lemma {:induction false} TagOfPath(path: string)
    ensures var colon := LastIndex(path, ':');
            SegmentTag(LastSegment(path)) == if colon > LastIndex(path, '/') + 1 then path[colon + 1..] else ""
  {
    var i, colon := LastIndex(path, '/') + 1, LastIndex(path, ':');
    if colon >= i {
      CutOfSlice(path, i, colon);
    } else {
      NoColonIn(path[i..]);
    }
  }

  lemma {:induction false} ParseTagged(s: string, host: string, tail: string, full: string, t: string)
    requires Cut(s, host, '/', tail) && Cut(tail, full, ':', t)
    requires WellFormedHost(host) && full != "" && Plain(full) && Bare(full) && WellFormedTag(t) && t != "" && !IsSpace(t[|t| - 1])
    requires '@' !in s
    ensures ParseImageRef(s) == Ref(host, full, t, "") && ImageTagAndDigest(s) == (t, "")
  {
    assert TrimSpace(s) == s by {
      assert s[|s| - 1] == tail[|tail| - 1] == t[|t| - 1];
      SolidIsTrimmed(s);
    }
    NameAlone(s);
    ParseHosted(s, host, tail);
    TaggedPath(host, tail, full, t);
    LastSegmentOfPath(s);
  }

  lemma {:induction false} TaggedPath(host: string, tail: string, full: string, t: string)
    requires Cut(tail, full, ':', t) && full != "" && Bare(full) && WellFormedTag(t)
    ensures FromPath(host, tail, "") == Ref(host, full, t, "") && SegmentTag(LastSegment(tail)) == t
  {
    CutAtLast(tail, full, ':', t);
    assert tail[..|full|] == full && tail[|full| + 1..] == t;
    TaggedSegment(tail, full, t);
  }

  lemma {:induction false} TaggedSegment(tail: string, full: string, t: string)
    requires Cut(tail, full, ':', t) && full != "" && Bare(full) && WellFormedTag(t) && LastIndex(tail, ':') == |full|
    ensures SegmentTag(LastSegment(tail)) == t
  {
    LastSlashBefore(tail, full, t);
    TagOfPath(tail);
  }

  lemma {:induction false} LastSlashBefore(tail: string, full: string, t: string)
    requires Cut(tail, full, ':', t) && full != "" && Bare(full) && WellFormedTag(t)
    ensures LastIndex(tail, '/') + 1 < |full|
  {
    var k := LastIndex(tail, '/');
    if k >= 0 {
      assert forall i :: |full| < i < |tail| ==> tail[i] == t[i - |full| - 1] && t[i - |full| - 1] in t;
      assert tail[|full| - 1] == full[|full| - 1];
    }
  }

  lemma {:induction false} ParseUntagged(s: string, host: string, full: string)
    requires Cut(s, host, '/', full) && WellFormedHost(host) && full != "" && Plain(full) && '@' !in s
    ensures ParseImageRef(s) == Ref(host, full, "latest", "") && ImageTagAndDigest(s) == ("", "")
  {
    assert s[|s| - 1] == full[|full| - 1] && full[|full| - 1] in full;
    SolidIsTrimmed(s);
    NameAlone(s);
    ParseHosted(s, host, full);
    NoColonIn(full);
    LastSegmentOfPath(s);
    TagOfPath(full);
  }

  lemma {:induction false} ParseDigested(s: string, name: string, host: string, full: string, d: string)
    requires Cut(s, name, '@', d) && Cut(name, host, '/', full)
    requires WellFormedHost(host) && Plain(full) && '@' !in name && d != "" && !IsSpace(d[|d| - 1])
    ensures ParseImageRef(s) == Ref(host, full, "", d) && ImageTagAndDigest(s) == ("", d)
  {
    assert s[0] == s[..|name|][0] && s[|s| - 1] == d[|d| - 1];
    SolidIsTrimmed(s);
    NameAndDigest(s, name, d);
    ParseHosted(name, host, full);
    NoColonIn(full);
    LastSegmentOfPath(name);
    TagOfPath(full);
  }

  lemma {:induction false} TrimmedEnd(s: string)
    ensures var t := TrimSpace(s); t != "" ==> !IsSpace(t[0]) && !IsSpace(t[|t| - 1])
  {
    var left, right := TrimSpaceSplits(s);
  }

  /** What a printed reference reads back as. The digest wins over the tag; with neither, the
      inventory parser supplies `latest`. */
  function ReadBack(host: string, full: string, t: string, d: string): Ref {
    if d != "" then Ref(host, full, "", CanonicalDigest(d)) else
    Ref(host, full, if t != "" then t else "latest", "")
  }

  /** `ParseImageRef` inverts `ImageRef`, and `imageTagAndDigest` reads the same tag and digest,
      also when the host carries a port; only the implied `latest` is its own. */
  lemma {:induction false} ParseInvertsPrint(host: string, project: string, repository: string, tag: string, digest: string)
    requires WellFormedHost(host) && WellFormedTag(TrimSpace(tag))
    requires Plain(TrimSpace(project)) && Plain(TrimSpace(repository)) && Qualified(project, repository) != ""
    ensures var (full, t, d) := (Qualified(project, repository), TrimSpace(tag), TrimSpace(digest));
            var ref := ImageRef(host, project, repository, tag, digest);
            && ParseImageRef(ref) == ReadBack(host, full, t, d)
            && ImageTagAndDigest(ref).1 == ParseImageRef(ref).digest
            && ImageTagAndDigest(ref).0 == (if t == "" && d == "" then "" else ParseImageRef(ref).tag)
  {
    var full, t, d := Qualified(project, repository), TrimSpace(tag), TrimSpace(digest);
    QualifiedShape(project, repository);
    RefBody(host, full);
    TrimmedEnd(tag);
    TrimmedEnd(digest);
    PrintedParses(host + "/" + full, host, full, t, d);
  }

  lemma {:induction false} PrintedParses(name: string, host: string, full: string, t: string, d: string)
    requires name == host + "/" + full && '@' !in name
    requires WellFormedHost(host) && full != "" && Plain(full) && Bare(full)
    requires WellFormedTag(t) && (t != "" ==> !IsSpace(t[|t| - 1])) && (d != "" ==> !IsSpace(d[|d| - 1]))
    ensures var ref := if d != "" then name + "@" + CanonicalDigest(d) else if t != "" then name + ":" + t else name;
            && ParseImageRef(ref) == ReadBack(host, full, t, d)
            && ImageTagAndDigest(ref) == (if d == "" then t else "", ParseImageRef(ref).digest)
  {
    if d != "" {
      var canonical := CanonicalDigest(d);
      ParseDigested(name + "@" + canonical, name, host, full, canonical);
    } else if t != "" {
      var tail := full + ":" + t;
      ConcatAssociative(host + "/", full, ":" + t);
      ConcatAssociative(full, ":", t);
      ConcatAssociative(name, ":", t);
      assert name + ":" + t == host + "/" + tail;
      ParseTagged(name + ":" + t, host, tail, full, t);
    } else {
      ParseUntagged(name, host, full);
    }
  }

  // ---------------------------------------------------------------- the two parsers, on any text

  /** Where the tag colon of a path may stand for both parsers to read it alike: past the first
      character of the last segment, or at the very end. With no colon a digest must be given. */
  predicate SameTag(path: string, digest: string) {
    var colon := LastIndex(path, ':');
    if colon < 0 then digest != "" else colon == |path| - 1 || LastIndex(path, '/') + 1 < colon
  }

  /** For every trimmed text the parsers find the same digest, and the same tag exactly under
      `SameTag`. */
  lemma {:induction false} ParsersAgreeExactlyWhen(raw: string)
    requires raw != "" && TrimSpace(raw) == raw
    ensures ParseImageRef(raw).digest == ImageTagAndDigest(raw).1
    ensures ParseImageRef(raw).tag == ImageTagAndDigest(raw).0 <==> SameTag(Path(Name(raw)), Digest(raw))
  {
    LastSegmentOfPath(Name(raw));
    TagsAgreeExactlyWhen(Registry(Name(raw)), Path(Name(raw)), Digest(raw));
  }

  lemma {:induction false} TagsAgreeExactlyWhen(registry: string, path: string, digest: string)
    ensures FromPath(registry, path, digest).tag == SegmentTag(LastSegment(path)) <==> SameTag(path, digest)
  {
    TagOfPath(path);
    var colon := LastIndex(path, ':');
    if colon >= 0 { assert |path[colon + 1..]| == |path| - colon - 1; }
  }

  /** A colon before the last slash starts a tag for the inventory parser only. */
  lemma {:induction false} ColonBeforeSlash(s: string, host: string, path: string, left: string, right: string)
    requires Cut(s, host, '/', path) && Cut(path, left, ':', right) && WellFormedHost(host)
    requires TrimSpace(s) == s && '@' !in s && ':' !in right && '/' in right
    ensures ParseImageRef(s).tag == right && ImageTagAndDigest(s).0 == ""
  {
    NameAlone(s);
    ParseHosted(s, host, path);
    LastSegmentOfPath(s);
    CutAtLast(path, left, ':', right);
    var k :| 0 <= k < |right| && right[k] == '/';
    assert path[|left| + 1 + k] == path[|left| + 1..][k] == '/';
    assert LastIndex(path, '/') > |left|;
    TagOfPath(path);
  }

  const UNTAGGED := "h.io/app"
  const NESTED := "h.io/a:b/c"

  lemma {:induction false} HostIsWellFormed()
    ensures WellFormedHost("h.io")
  {
    assert "h.io"[1] == '.';
  }

  lemma {:induction false} UntaggedShape()
    ensures Cut(UNTAGGED, "h.io", '/', "app") && '@' !in UNTAGGED && Plain("app")
  {
    assert UNTAGGED[..4] == "h.io" && UNTAGGED[5..] == "app";
  }

  lemma {:induction false} NestedShape()
    ensures Cut(NESTED, "h.io", '/', "a:b/c") && Cut("a:b/c", "a", ':', "b/c") && '@' !in NESTED
    ensures ':' !in "b/c" && '/' in "b/c" && TrimSpace(NESTED) == NESTED
  {
    assert NESTED[..4] == "h.io" && NESTED[5..] == "a:b/c";
    assert "a:b/c"[..1] == "a" && "a:b/c"[2..] == "b/c" && "b/c"[1] == '/';
    SolidIsTrimmed(NESTED);
  }

  /** Two references the parsers read differently: without a tag only one supplies `latest`, and
      a colon before the last slash is a tag only to one. */
  lemma {:induction false} ParsersDiffer()
    ensures ParseImageRef(UNTAGGED).tag == "latest" && ImageTagAndDigest(UNTAGGED).0 == ""
    ensures ParseImageRef(NESTED).tag == "b/c" && ImageTagAndDigest(NESTED).0 == ""
  {
    HostIsWellFormed();
    UntaggedShape();
    ParseUntagged(UNTAGGED, "h.io", "app");
    NestedShape();
    ColonBeforeSlash(NESTED, "h.io", "a:b/c", "a", "b/c");
  }

  /** What is printed, for parts that are plain and have no slash at their ends: host, project unless
      the repository is under it already, repository, and then the digest or else the tag. */
  lemma {:induction false} PrintedForm(host: string, project: string, repository: string, tag: string, digest: string)
    requires WellFormedHost(host) && Plain(project) && Bare(project) && Plain(repository) && Bare(repository) && repository != ""
    ensures var (t, d) := (TrimSpace(tag), TrimSpace(digest));
            var full := if project == "" || HasPrefix(repository, project + "/") then repository else project + "/" + repository;
            ImageRef(host, project, repository, tag, digest) ==
            host + "/" + full + (if d != "" then (if ':' in d then "@" + d else "@sha256:" + d) else if t != "" then ":" + t else "")
  {
    PlainIsTrimmed(project);
    PlainIsTrimmed(repository);
    TrimmedIsBare(project);
    TrimmedIsBare(repository);
    QualifiedShape(project, repository);
    var full, t, d := Qualified(project, repository), TrimSpace(tag), TrimSpace(digest);
    RefBody(host, full);
    var name := host + "/" + full;
    ConcatAssociative(name, "@", CanonicalDigest(d));
    assert "@" + ("sha256:" + d) == "@sha256:" + d;
    ConcatAssociative(name, ":", t);
    assert name + "" == name;
  }

  lemma {:induction false} PlainIsTrimmed(s: string)
    requires Plain(s)
    ensures TrimSpace(s) == s
  {
    if s != "" {
      assert s[0] in s && s[|s| - 1] in s;
      SolidIsTrimmed(s);
    }
  }
}
