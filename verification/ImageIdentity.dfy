/**
 The identity of a worker type's derived image: canonical JSON over the data
 that changes image bytes, three of its keys present only when needed.
 */
module ImageIdentity {
  import opened Prelude
  import opened Json

  datatype WorkerType = WorkerType(
    name: string,
    base: string,
    setup: seq<string>,
    driver: string,
    adapter: string,
    model: string,
    effort: string,
    knowledge: string,
    knowledgePin: string,
    policy: string,
    policyPin: string,
    cli: string,
    cliVersion: string)

  const CLAUDE_TARGET := "/home/ozolith/.claude/"
  const CODEX_TARGET := "/home/ozolith/.codex/"

  /** The synthesized setup line, a function of adapter, model, effort and scope (true: managed). */
  type Renderer = (string, string, string, bool) -> string

  predicate IsDriver(w: WorkerType) { w.driver != "" }

  function BakedKnowledge(w: WorkerType): string { if IsDriver(w) then w.knowledge else "" }

  function BakedKnowledgePin(w: WorkerType): string { if IsDriver(w) then w.knowledgePin else "" }

  function BakedPolicy(w: WorkerType): string { if IsDriver(w) then w.policy else "" }

  function BakedPolicyPin(w: WorkerType): string { if IsDriver(w) then w.policyPin else "" }

  /** Parsing refuses a type that bakes knowledge for an adapter without a target. */
  predicate Parsed(w: WorkerType) { BakedKnowledge(w) != "" ==> w.adapter in {"claude", "codex"} }

  function KnowledgeTarget(w: WorkerType): string
    requires Parsed(w)
  {
    if BakedKnowledge(w) == "" then "" else if w.adapter == "claude" then CLAUDE_TARGET else CODEX_TARGET
  }

  function MaterializedSetup(w: WorkerType, render: Renderer): seq<string> {
    if w.model == "" && w.effort == "" then w.setup
    else w.setup + [render(w.adapter, w.model, w.effort, IsDriver(w))]
  }

  function Texts(lines: seq<string>): seq<Json> { seq(|lines|, i requires 0 <= i < |lines| => Text(lines[i])) }

  function When(present: bool, name: string, text: string): seq<Field> {
    if present then [Field(name, Text(text))] else []
  }

  /** A target that is not the historical default. */
  function KnowledgePart(w: WorkerType): seq<Field>
    requires Parsed(w)
  {
    When(KnowledgeTarget(w) != "" && KnowledgeTarget(w) != CLAUDE_TARGET, "knowledge_target", KnowledgeTarget(w))
  }

  function PolicyPart(w: WorkerType): seq<Field> {
    When(BakedPolicy(w) != "", "policy", BakedPolicy(w)) + When(BakedPolicy(w) != "", "policy_pin", BakedPolicyPin(w))
  }

  function AlwaysPart(w: WorkerType): seq<Field> {
    [Field("base", Text(w.base)), Field("knowledge", Text(BakedKnowledge(w))), Field("knowledge_pin", Text(BakedKnowledgePin(w)))]
  }

  /** The keys in sorted order, as `sort_keys` writes them. */
  function Identity(w: WorkerType, render: Renderer): Json
    requires Parsed(w)
  {
    Object(AlwaysPart(w) + (KnowledgePart(w) + PolicyPart(w)) + [Field("setup", Array(Texts(MaterializedSetup(w, render))))])
  }

  function IdentityText(w: WorkerType, render: Renderer): string
    requires Parsed(w)
  {
    Encode(Identity(w, render), SPACED)
  }

  /** What changes image bytes. A policy pin means nothing without a baked policy. */
  datatype Affecting = Affecting(
    base: string, setup: seq<string>, knowledge: string, knowledgePin: string, target: string, policy: string, policyPin: string)

  function AffectingOf(w: WorkerType, render: Renderer): Affecting
    requires Parsed(w)
  {
    Affecting(w.base, MaterializedSetup(w, render), BakedKnowledge(w), BakedKnowledgePin(w), KnowledgeTarget(w),
              BakedPolicy(w), if BakedPolicy(w) == "" then "" else BakedPolicyPin(w))
  }

  lemma {:induction false} TextsAreLines(a: seq<string>, b: seq<string>)
    requires Texts(a) == Texts(b)
    ensures a == b
  {
    assert |Texts(a)| == |a| && |Texts(b)| == |b|;
    forall i | 0 <= i < |a| ensures a[i] == b[i] {
      assert Texts(a)[i] == Text(a[i]) && Texts(b)[i] == Text(b[i]);
    }
  }

  lemma {:induction false} FrameSplits(a: seq<Field>, m: seq<Field>, x: Field, b: seq<Field>, n: seq<Field>, y: Field)
    requires |a| == |b| && a + m + [x] == b + n + [y]
    ensures a == b && m == n && x == y
  {
    var s := a + m + [x];
    assert s[|s| - 1] == x && s[|s| - 1] == y;
    assert s[..|a|] == a && (b + n + [y])[..|b|] == b;
    assert s[|a|..|s| - 1] == m && (b + n + [y])[|b|..|s| - 1] == n;
  }

  lemma {:induction false} OptionalPartsSplit(k: seq<Field>, p: seq<Field>, l: seq<Field>, q: seq<Field>)
    requires |k| <= 1 && |l| <= 1 && |p| in {0, 2} && |q| in {0, 2} && k + p == l + q
    ensures k == l && p == q
  {
    assert |k| == |l|;
    assert (k + p)[..|k|] == k && (l + q)[..|l|] == l;
    assert (k + p)[|k|..] == p && (l + q)[|l|..] == q;
  }

  /** The conditional keys are told apart by how many there are. */
  lemma {:induction false} IdentityParts(v: WorkerType, w: WorkerType, render: Renderer)
    requires Parsed(v) && Parsed(w) && Identity(v, render) == Identity(w, render)
    ensures v.base == w.base && BakedKnowledge(v) == BakedKnowledge(w) && BakedKnowledgePin(v) == BakedKnowledgePin(w)
    ensures KnowledgePart(v) == KnowledgePart(w) && PolicyPart(v) == PolicyPart(w)
    ensures MaterializedSetup(v, render) == MaterializedSetup(w, render)
  {
    var x, y := Field("setup", Array(Texts(MaterializedSetup(v, render)))), Field("setup", Array(Texts(MaterializedSetup(w, render))));
    FrameSplits(AlwaysPart(v), KnowledgePart(v) + PolicyPart(v), x, AlwaysPart(w), KnowledgePart(w) + PolicyPart(w), y);
    OptionalPartsSplit(KnowledgePart(v), PolicyPart(v), KnowledgePart(w), PolicyPart(w));
    hide MaterializedSetup, Texts, KnowledgePart, PolicyPart;
    TextsAreLines(MaterializedSetup(v, render), MaterializedSetup(w, render));
    assert AlwaysPart(v)[0] == AlwaysPart(w)[0] && AlwaysPart(v)[1] == AlwaysPart(w)[1] && AlwaysPart(v)[2] == AlwaysPart(w)[2];
  }

  /** Equal identity text if and only if equal image-affecting data. */
  lemma {:induction false} IdentityIsExact(v: WorkerType, w: WorkerType, render: Renderer)
    requires Parsed(v) && Parsed(w)
    ensures IdentityText(v, render) == IdentityText(w, render) <==> AffectingOf(v, render) == AffectingOf(w, render)
  {
    TextIsIdentity(Identity(v, render), Identity(w, render), SPACED);
    if IdentityText(v, render) == IdentityText(w, render) {
      IdentityParts(v, w, render);
      PartsDecide(v, w);
    }
  }

  lemma {:induction false} PartsDecide(v: WorkerType, w: WorkerType)
    requires Parsed(v) && Parsed(w) && BakedKnowledge(v) == BakedKnowledge(w)
    requires KnowledgePart(v) == KnowledgePart(w) && PolicyPart(v) == PolicyPart(w)
    ensures KnowledgeTarget(v) == KnowledgeTarget(w) && BakedPolicy(v) == BakedPolicy(w)
    ensures BakedPolicy(v) != "" ==> BakedPolicyPin(v) == BakedPolicyPin(w)
  {
    if KnowledgePart(v) != [] {
      assert KnowledgePart(v)[0] == KnowledgePart(w)[0];
    }
    if PolicyPart(v) != [] {
      assert PolicyPart(v)[0] == PolicyPart(w)[0] && PolicyPart(v)[1] == PolicyPart(w)[1];
    }
  }

  // ---- the same law over the fields of the type itself ----

  predicate Configured(w: WorkerType) { w.model != "" || w.effort != "" }

  /** The setup a type builds with, its configuration line last; `managed` for a driver type, interactive otherwise. */
  function SetupLines(w: WorkerType, render: Renderer, managed: bool): seq<string> {
    if Configured(w) then w.setup + [render(w.adapter, w.model, w.effort, managed)] else w.setup
  }

  /** Two driver types build the same image if and only if these fields agree; a claude tree and a codex tree land in different places. */
  lemma {:induction false} DriverIdentityIsExact(v: WorkerType, w: WorkerType, render: Renderer)
    requires v.driver != "" && w.driver != ""
    requires (v.knowledge != "" ==> v.adapter in {"claude", "codex"}) && (w.knowledge != "" ==> w.adapter in {"claude", "codex"})
    ensures IdentityText(v, render) == IdentityText(w, render)
       <==> && v.base == w.base
            && v.knowledge == w.knowledge && v.knowledgePin == w.knowledgePin
            && (v.knowledge != "" ==> v.adapter == w.adapter)
            && v.policy == w.policy && (v.policy != "" ==> v.policyPin == w.policyPin)
            && SetupLines(v, render, true) == SetupLines(w, render, true)
  {
    IdentityIsExact(v, w, render);
  }

  /** A driverless type builds from its base and setup alone. */
  lemma {:induction false} DriverlessIdentityIsExact(v: WorkerType, w: WorkerType, render: Renderer)
    requires v.driver == "" && w.driver == ""
    ensures IdentityText(v, render) == IdentityText(w, render)
       <==> v.base == w.base && SetupLines(v, render, false) == SetupLines(w, render, false)
  {
    IdentityIsExact(v, w, render);
  }

  /** A driver type and a driverless one agree only when the driver type bakes nothing. */
  lemma {:induction false} MixedIdentityIsExact(v: WorkerType, w: WorkerType, render: Renderer)
    requires v.driver != "" && w.driver == "" && (v.knowledge != "" ==> v.adapter in {"claude", "codex"})
    ensures IdentityText(v, render) == IdentityText(w, render)
       <==> && v.base == w.base && v.knowledge == "" && v.knowledgePin == "" && v.policy == ""
            && SetupLines(v, render, true) == SetupLines(w, render, false)
  {
    IdentityIsExact(v, w, render);
  }

  /** The document itself: the four keys, a codex target and a baked policy when there are any, in sorted order. */
  lemma {:induction false} IdentityAsWritten(w: WorkerType, render: Renderer)
    requires w.driver != "" && w.adapter in {"claude", "codex"}
    ensures Identity(w, render) == Object(
      [Field("base", Text(w.base)), Field("knowledge", Text(w.knowledge)), Field("knowledge_pin", Text(w.knowledgePin))]
      + (if w.knowledge != "" && w.adapter == "codex" then [Field("knowledge_target", Text("/home/ozolith/.codex/"))] else [])
      + (if w.policy != "" then [Field("policy", Text(w.policy)), Field("policy_pin", Text(w.policyPin))] else [])
      + [Field("setup", Array(Texts(SetupLines(w, render, true))))])
  {
    TargetsDiffer();
    var k, p := KnowledgePart(w), PolicyPart(w);
    assert AlwaysPart(w) + (k + p) == AlwaysPart(w) + k + p;
  }

  lemma {:induction false} TargetsDiffer()
    ensures CLAUDE_TARGET == "/home/ozolith/.claude/" && CODEX_TARGET == "/home/ozolith/.codex/" && CLAUDE_TARGET != CODEX_TARGET
  {
    assert |CLAUDE_TARGET| == 22 && |CODEX_TARGET| == 21;
  }

  // ---- the tag ----

  function LastIndex(s: string, c: char): (n: int)
    ensures -1 <= n < |s| && (n >= 0 ==> s[n] == c)
  {
    if s == "" then -1 else if s[|s| - 1] == c then |s| - 1 else LastIndex(s[..|s| - 1], c)
  }

  function FirstIndex(s: string, c: char): (n: nat)
    ensures n <= |s|
  {
    if s == "" || s[0] == c then 0 else 1 + FirstIndex(s[1..], c)
  }

  /** The reference without its digest. */
  function Undigested(base: string): string {
    var at := LastIndex(base, '@');
    if at >= 0 then base[..at] else base
  }

  function LastComponent(prefix: string): string { prefix[LastIndex(prefix, '/') + 1..] }

  function AfterColon(last: string): string {
    var colon := FirstIndex(last, ':');
    if colon >= |last| - 1 then "latest" else last[colon + 1..]
  }

  /** The tag component of the base ref, "latest" when bare. */
  function BaseTag(base: string): string { AfterColon(LastComponent(Undigested(base))) }

  function Tag(w: WorkerType, render: Renderer, sha: string -> string): string
    requires Parsed(w) && |sha(IdentityText(w, render))| >= 12
  {
    "theozolith/" + w.name + ":" + BaseTag(w.base) + "-" + sha(IdentityText(w, render))[..12]
  }

  lemma {:induction false} LastIndexAt(a: string, c: char, b: string)
    requires c !in b
    ensures LastIndex(a + [c] + b, c) == |a|
    decreases |b|
  {
    var s := a + [c] + b;
    if b != "" {
      assert s[..|s| - 1] == a + [c] + b[..|b| - 1];
      LastIndexAt(a, c, b[..|b| - 1]);
    }
  }

  lemma {:induction false} NoLastIndex(s: string, c: char)
    requires c !in s
    ensures LastIndex(s, c) == -1
  {
    if s != "" {
      NoLastIndex(s[..|s| - 1], c);
    }
  }

  lemma {:induction false} FirstIndexAt(a: string, c: char, b: string)
    requires c !in a
    ensures FirstIndex(a + [c] + b, c) == |a|
  {
    if a != "" {
      assert (a + [c] + b)[1..] == a[1..] + [c] + b;
      FirstIndexAt(a[1..], c, b);
    }
  }

  lemma {:induction false} NoFirstIndex(s: string, c: char)
    requires c !in s
    ensures FirstIndex(s, c) == |s|
  {
    if s != "" {
      NoFirstIndex(s[1..], c);
    }
  }

  lemma {:induction false} DigestOff(ref: string, digest: string)
    requires '@' !in digest
    ensures Undigested(ref + "@" + digest) == ref
  {
    LastIndexAt(ref, '@', digest);
    assert (ref + "@" + digest)[..|ref|] == ref;
  }

  lemma {:induction false} LastPart(path: string, last: string)
    requires '/' !in last && (path == "" || path[|path| - 1] == '/')
    ensures LastComponent(path + last) == last
  {
    if path == "" {
      assert path + last == last;
      NoLastIndex(last, '/');
    } else {
      assert path + last == path[..|path| - 1] + ['/'] + last;
      LastIndexAt(path[..|path| - 1], '/', last);
    }
  }

  lemma {:induction false} ColonSplits(name: string, tag: string)
    requires ':' !in name
    ensures AfterColon(name + ":" + tag) == if tag == "" then "latest" else tag
    ensures AfterColon(name) == "latest"
  {
    FirstIndexAt(name, ':', tag);
    assert (name + ":" + tag)[|name| + 1..] == tag;
    NoFirstIndex(name, ':');
  }

  /** A pinned reference is tagged with what follows the colon of its last component, or "latest". */
  lemma {:induction false} BaseTagIsTheTag(path: string, name: string, tag: string, digest: string)
    requires '@' !in digest && '/' !in name && '/' !in tag && ':' !in name && (path == "" || path[|path| - 1] == '/')
    ensures BaseTag(path + (name + ":" + tag) + "@" + digest) == if tag == "" then "latest" else tag
    ensures BaseTag(path + name + "@" + digest) == "latest"
  {
    hide Undigested, LastComponent, AfterColon;
    DigestOff(path + (name + ":" + tag), digest);
    LastPart(path, name + ":" + tag);
    ColonSplits(name, tag);
    DigestOff(path + name, digest);
    LastPart(path, name);
  }

  lemma {:induction false} PartsOf(head: string, s: string, x: string, t: string, y: string)
    requires |x| == |y|
    ensures head + s + "-" + x == head + t + "-" + y <==> s == t && x == y
  {
    if head + s + "-" + x == head + t + "-" + y {
      Cut(head + s + "-", x, head + t + "-", y);
      Unsuffix(head + s, head + t, "-");
      Unprefix(head, s, t);
    }
  }

  /** Types of one name share a tag if and only if their base tags and the first twelve digits of their hashes agree. */
  lemma {:induction false} TagIsExact(v: WorkerType, w: WorkerType, render: Renderer, sha: string -> string)
    requires Parsed(v) && Parsed(w) && v.name == w.name
    requires |sha(IdentityText(v, render))| >= 12 && |sha(IdentityText(w, render))| >= 12
    ensures Tag(v, render, sha) == Tag(w, render, sha)
       <==> BaseTag(v.base) == BaseTag(w.base) && sha(IdentityText(v, render))[..12] == sha(IdentityText(w, render))[..12]
  {
    PartsOf("theozolith/" + v.name + ":", BaseTag(v.base), sha(IdentityText(v, render))[..12],
            BaseTag(w.base), sha(IdentityText(w, render))[..12]);
    hide BaseTag, IdentityText;
  }

  /** A driverless type's knowledge, policy and CLI pin select mounts and live installs: they never change the tag. */
  lemma {:induction false} DriverlessTagIgnoresMounts(w: WorkerType, knowledge: string, knowledgePin: string, policy: string,
                                                      policyPin: string, cli: string, cliVersion: string,
                                                      render: Renderer, sha: string -> string)
    requires !IsDriver(w) && |sha(IdentityText(w, render))| >= 12
    ensures
      var v := w.(knowledge := knowledge, knowledgePin := knowledgePin, policy := policy, policyPin := policyPin,
                  cli := cli, cliVersion := cliVersion);
      Parsed(v) && IdentityText(v, render) == IdentityText(w, render) && Tag(v, render, sha) == Tag(w, render, sha)
  {
    var v := w.(knowledge := knowledge, knowledgePin := knowledgePin, policy := policy, policyPin := policyPin,
                cli := cli, cliVersion := cliVersion);
    IdentityIsExact(v, w, render);
  }

  /** Rebinding a driver type to another driver changes no image byte, hence no tag. */
  lemma {:induction false} TagIgnoresTheDriverBinding(w: WorkerType, driver: string, render: Renderer, sha: string -> string)
    requires Parsed(w) && IsDriver(w) && driver != "" && |sha(IdentityText(w, render))| >= 12
    ensures Parsed(w.(driver := driver)) && Tag(w.(driver := driver), render, sha) == Tag(w, render, sha)
  {
    IdentityIsExact(w.(driver := driver), w, render);
  }
}
