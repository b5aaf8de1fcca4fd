/**
 What the ids of spans are hashed from: texts that tell apart every span of every trace, so that two spans share an id
 only where the digest collides.
 */
module SpanIdentity {
  import opened Prelude
  import opened Texts

  datatype SpanRole =
    | Step | Gate | Queue | Claim | Ask | Pause | Pickup | HubExec
    | Worker | Invocation | AskPark | PausePark | Overload | Takeover

  predicate OfRunner(role: SpanRole) {
    role.Worker? || role.Invocation? || role.AskPark? || role.PausePark? || role.Overload? || role.Takeover?
  }

  function RoleName(role: SpanRole): string {
    match role
    case Step => "step"
    case Gate => "gate"
    case Queue => "queue"
    case Claim => "claim"
    case Ask => "ask"
    case Pause => "pause"
    case Pickup => "pickup"
    case HubExec => "hub-exec"
    case Worker => "worker"
    case Invocation => "invocation"
    case AskPark => "ask-park"
    case PausePark => "pause-park"
    case Overload => "overload"
    case Takeover => "takeover"
  }

  function RoleText(role: SpanRole): string {
    if OfRunner(role) then "runner/" + RoleName(role) else RoleName(role)
  }

  datatype ChunkRole = Work | Lifetime | ChunkStep | Completed | Backlog | Escalation | PauseWait

  /** What a chunk role's text holds after `chunk/`, for every role but `Work`. */
  function Tail(role: ChunkRole): string {
    match role
    case Work => ""
    case Lifetime => "lifetime"
    case ChunkStep => "step"
    case Completed => "completed"
    case Backlog => "backlog-wait"
    case Escalation => "escalation-wait"
    case PauseWait => "pause-wait"
  }

  function ChunkRoleText(role: ChunkRole): string {
    if role.Work? then "chunk" else "chunk/" + Tail(role)
  }

  /** Names a step of a chunk by its epoch; with a decision, the gate on it. */
  datatype StepKey = StepKey(chunk: string, epoch: int, decision: Option<string>)

  function KeyText(key: StepKey): string {
    var base := key.chunk + "/" + Decimal(key.epoch);
    if key.decision.None? then base else base + "/gate/" + key.decision.value
  }

  /** What each kind of id is hashed from. */
  datatype Preimage =
    | OfTrace(chunk: string)
    | OfSpan(key: StepKey, role: SpanRole, discriminator: string)
    | OfChunkSpan(chunk: string)
    | OfLifetimeTrace(chunk: string)
    | OfLifetimeSpan(chunk: string, chunkRole: ChunkRole, discriminator: string)

  function Kind(p: Preimage): string {
    match p
    case OfTrace(_) => "blizzard-trace/v2/"
    case OfSpan(_, _, _) => "blizzard-span/v1/"
    case OfChunkSpan(_) => "blizzard-chunk-span/v2/"
    case OfLifetimeTrace(_) => "blizzard-lifetime-trace/v1/"
    case OfLifetimeSpan(_, _, _) => "blizzard-lifetime-span/v1/"
  }

  function Rest(p: Preimage): string {
    match p
    case OfTrace(chunk) => chunk
    case OfSpan(key, role, discriminator) => KeyText(key) + "/" + RoleText(role) + "/" + discriminator
    case OfChunkSpan(chunk) => chunk + ("/" + ChunkRoleText(Work) + "/")
    case OfLifetimeTrace(chunk) => chunk
    case OfLifetimeSpan(chunk, role, discriminator) => chunk + "/" + ChunkRoleText(role) + "/" + discriminator
  }

  function Text(p: Preimage): string {
    Kind(p) + Rest(p)
  }

  /** The roles as every daemon must spell them: the hub's, a runner's, and a chunk's. */
  lemma HubRolesSpelledOut()
    ensures RoleText(Step) == "step" && RoleText(Gate) == "gate" && RoleText(Queue) == "queue"
    ensures RoleText(Claim) == "claim" && RoleText(Ask) == "ask" && RoleText(Pause) == "pause"
    ensures RoleText(Pickup) == "pickup" && RoleText(HubExec) == "hub-exec"
  {
  }

  lemma RunnerRolesSpelledOut()
    ensures RoleText(Worker) == "runner/" + "worker" && RoleText(Invocation) == "runner/" + "invocation"
    ensures RoleText(AskPark) == "runner/" + "ask-park" && RoleText(PausePark) == "runner/" + "pause-park"
    ensures RoleText(Overload) == "runner/" + "overload" && RoleText(Takeover) == "runner/" + "takeover"
  {
  }

  lemma ChunkRolesSpelledOut()
    ensures ChunkRoleText(Work) == "chunk" && ChunkRoleText(Lifetime) == "chunk/" + "lifetime"
    ensures ChunkRoleText(ChunkStep) == "chunk/" + "step" && ChunkRoleText(Completed) == "chunk/" + "completed"
    ensures ChunkRoleText(Backlog) == "chunk/" + "backlog-wait"
    ensures ChunkRoleText(Escalation) == "chunk/" + "escalation-wait"
    ensures ChunkRoleText(PauseWait) == "chunk/" + "pause-wait"
  {
  }

  /** The texts hashed, the epoch in decimal digits that stand for it. */
  lemma TextsSpelledOut(chunk: string, epoch: nat, decision: string, role: SpanRole, chunkRole: ChunkRole, d: string)
    ensures Text(OfTrace(chunk)) == "blizzard-trace/v2/" + chunk
    ensures Text(OfChunkSpan(chunk)) == "blizzard-chunk-span/v2/" + chunk + "/chunk/"
    ensures Text(OfLifetimeTrace(chunk)) == "blizzard-lifetime-trace/v1/" + chunk
    ensures Text(OfLifetimeSpan(chunk, chunkRole, d))
         == "blizzard-lifetime-span/v1/" + chunk + "/" + ChunkRoleText(chunkRole) + "/" + d
    ensures Text(OfSpan(StepKey(chunk, epoch, None), role, d))
         == "blizzard-span/v1/" + chunk + "/" + Digits(epoch) + "/" + RoleText(role) + "/" + d
    ensures Text(OfSpan(StepKey(chunk, epoch, Some(decision)), role, d))
         == "blizzard-span/v1/" + chunk + "/" + Digits(epoch) + "/gate/" + decision + "/" + RoleText(role) + "/" + d
    ensures Number(Digits(epoch)) == epoch
  {
    DigitsRead(epoch);
    hide Digits, Number, RoleText;
    var base := chunk + "/" + Digits(epoch);
    SpelledOn("blizzard-span/v1/", base, RoleText(role), d);
    SpelledOn("blizzard-span/v1/", base + "/gate/" + decision, RoleText(role), d);
    SpelledOn("blizzard-lifetime-span/v1/", chunk, ChunkRoleText(chunkRole), d);
    SpelledOn("blizzard-chunk-span/v2/", chunk, "chunk", "");
    ChunkSpelled(chunk);
    var before := "blizzard-span/v1/";
    assert before + base == before + chunk + "/" + Digits(epoch);
    assert before + (base + "/gate/" + decision) == before + base + "/gate/" + decision;
  }

  lemma SpelledOn(before: string, base: string, role: string, d: string)
    ensures before + (base + "/" + role + "/" + d) == before + base + "/" + role + "/" + d
  {
  }

  lemma ChunkSpelled(chunk: string)
    ensures Rest(OfChunkSpan(chunk)) == chunk + "/" + "chunk" + "/" + ""
    ensures "blizzard-chunk-span/v2/" + chunk + "/" + "chunk" + "/" + "" == "blizzard-chunk-span/v2/" + chunk + "/chunk/"
  {
    var tail := "/chunk/";
    assert tail == "/" + "chunk" + "/" + "";
    assert chunk + tail == chunk + "/" + "chunk" + "/" + "";
    var x := "blizzard-chunk-span/v2/" + chunk;
    assert x + tail == x + "/" + "chunk" + "/" + "";
  }

  // ---------------------------------------------------------------- the parts of a text

  function RoleParts(role: SpanRole): seq<string> {
    if OfRunner(role) then ["runner", RoleName(role)] else [RoleName(role)]
  }

  lemma SplitTwo(a: string, b: string, rest: string)
    requires '/' !in a && '/' !in b
    ensures Split(a + "/" + b + "/" + rest, '/') == [a, b] + Split(rest, '/')
  {
    assert a + "/" + b + "/" + rest == a + ['/'] + (b + ['/'] + rest);
    SplitFirst(a, b + ['/'] + rest, '/');
    SplitFirst(b, rest, '/');
    assert [a] + ([b] + Split(rest, '/')) == [a, b] + Split(rest, '/');
  }

  lemma RoleSplits(role: SpanRole, rest: string)
    ensures Split(RoleText(role) + "/" + rest, '/') == RoleParts(role) + Split(rest, '/')
  {
    hide Split, RoleName;
    NamesPlain(role);
    if OfRunner(role) {
      assert "runner/" == "runner" + "/";
      SplitTwo("runner", RoleName(role), rest);
    } else {
      SplitFirst(RoleName(role), rest, '/');
    }
  }

  lemma NamesPlain(role: SpanRole)
    ensures '/' !in RoleName(role)
  {
  }

  lemma NamesDiffer(r: SpanRole, q: SpanRole)
    requires RoleName(r) == RoleName(q)
    ensures r == q
  {
    var a, b := RoleName(r), RoleName(q);
    assert |a| == |b| && a[0] == b[0] && a[2] == b[2];
  }

  function DecisionParts(decision: Option<string>): seq<string> {
    if decision.None? then [] else ["gate", decision.value]
  }

  function KeyParts(key: StepKey): seq<string> {
    [key.chunk, Decimal(key.epoch)] + DecisionParts(key.decision)
  }

  /** The ids the hub mints hold no slash. */
  predicate Plain(key: StepKey) {
    '/' !in key.chunk && (key.decision.Some? ==> '/' !in key.decision.value)
  }

  lemma KeySplits(key: StepKey, rest: string)
    requires Plain(key)
    ensures Split(KeyText(key) + "/" + rest, '/') == KeyParts(key) + Split(rest, '/')
  {
    hide Split;
    DecimalPlain(key.epoch, '/');
    if key.decision.None? {
      SplitTwo(key.chunk, Decimal(key.epoch), rest);
    } else {
      var tail := "gate" + "/" + key.decision.value + "/" + rest;
      assert KeyText(key) + "/" + rest == key.chunk + "/" + Decimal(key.epoch) + "/" + tail;
      SplitTwo(key.chunk, Decimal(key.epoch), tail);
      SplitTwo("gate", key.decision.value, rest);
    }
  }

  /** The parts of a span's text after its chunk and epoch. */
  function SpanParts(key: StepKey, role: SpanRole, discriminator: string): seq<string> {
    DecisionParts(key.decision) + (RoleParts(role) + Split(discriminator, '/'))
  }

  lemma SpanSplits(key: StepKey, role: SpanRole, discriminator: string)
    requires Plain(key)
    ensures Split(Rest(OfSpan(key, role, discriminator)), '/')
         == [key.chunk, Decimal(key.epoch)] + SpanParts(key, role, discriminator)
  {
    hide Split, RoleText, KeyText;
    var tail := RoleText(role) + "/" + discriminator;
    assert KeyText(key) + "/" + RoleText(role) + "/" + discriminator == KeyText(key) + "/" + tail;
    KeySplits(key, tail);
    RoleSplits(role, discriminator);
  }

  /** A gate's span under a key that names no decision, whose discriminator spells out the rest of a span under the key of
      the same step that does. */
  predicate GateSpellsOut(a: StepKey, r: SpanRole, d: string, b: StepKey, q: SpanRole, e: string) {
    && r.Gate? && a.decision.None? && b.decision.Some? && a == b.(decision := None)
    && d == b.decision.value + "/" + (RoleText(q) + "/" + e)
  }

  lemma RolesTellApart(r: SpanRole, d: string, q: SpanRole, e: string)
    requires RoleParts(r) + Split(d, '/') == RoleParts(q) + Split(e, '/')
    ensures r == q && d == e
  {
    hide Split, RoleName;
    var x, y := RoleParts(r) + Split(d, '/'), RoleParts(q) + Split(e, '/');
    assert x[0] == y[0];
    NoRoleRunner(r);
    NoRoleRunner(q);
    if OfRunner(r) {
      assert x[1] == y[1];
    }
    NamesDiffer(r, q);
    SamePrefix(RoleParts(r), Split(d, '/'), Split(e, '/'));
    SplitInjective(d, e, '/');
  }

  lemma NoRoleRunner(role: SpanRole)
    ensures RoleName(role) != "" && RoleName(role)[0] != 'r' && (RoleName(role)[0] == 'g' ==> role.Gate?)
  {
  }

  lemma GateParts(r: SpanRole, d: string, decision: string, q: SpanRole, e: string)
    ensures RoleParts(r) + Split(d, '/') == ["gate", decision] + (RoleParts(q) + Split(e, '/'))
       <==> r.Gate? && Split(d, '/') == [decision] + (RoleParts(q) + Split(e, '/'))
  {
    hide Split;
    var x, y := RoleParts(r) + Split(d, '/'), ["gate", decision] + (RoleParts(q) + Split(e, '/'));
    if x == y {
      assert x[0] == y[0];
      NoRoleRunner(r);
      assert x[1..] == y[1..] == [decision] + (RoleParts(q) + Split(e, '/'));
      assert r.Gate? ==> x[1..] == Split(d, '/');
    }
  }

  /** The parts tell key, role and discriminator apart — though `gate` is a role and a key's part, and a runner's role has
      two parts — but for a gate's span that spells another out. */
  lemma PartsTellApart(a: StepKey, r: SpanRole, d: string, b: StepKey, q: SpanRole, e: string)
    requires Plain(a) && Plain(b) && a.(decision := None) == b.(decision := None)
    ensures SpanParts(a, r, d) == SpanParts(b, q, e)
       <==> (a == b && r == q && d == e) || GateSpellsOut(a, r, d, b, q, e) || GateSpellsOut(b, q, e, a, r, d)
  {
    hide Split, RoleParts, RoleText;
    if a.decision.None? && b.decision.Some? {
      GateAgainstKey(a, r, d, b, q, e);
    } else if a.decision.Some? && b.decision.None? {
      GateAgainstKey(b, q, e, a, r, d);
    } else if SpanParts(a, r, d) == SpanParts(b, q, e) {
      hide GateSpellsOut;
      AlikeKeysTellApart(a.decision, r, d, b.decision, q, e);
    }
  }

  lemma AlikeKeysTellApart(a: Option<string>, r: SpanRole, d: string, b: Option<string>, q: SpanRole, e: string)
    requires a.Some? == b.Some?
    requires DecisionParts(a) + (RoleParts(r) + Split(d, '/')) == DecisionParts(b) + (RoleParts(q) + Split(e, '/'))
    ensures a == b && r == q && d == e
  {
    hide Split, RoleParts;
    var tail, rest := RoleParts(r) + Split(d, '/'), RoleParts(q) + Split(e, '/');
    assert a.Some? ==> (DecisionParts(a) + tail)[1] == (DecisionParts(b) + rest)[1];
    SamePrefix(DecisionParts(a), tail, rest);
    RolesTellApart(r, d, q, e);
  }

  lemma GateAgainstKey(a: StepKey, r: SpanRole, d: string, b: StepKey, q: SpanRole, e: string)
    requires Plain(b) && a == b.(decision := None) && b.decision.Some?
    ensures SpanParts(a, r, d) == SpanParts(b, q, e) <==> GateSpellsOut(a, r, d, b, q, e)
  {
    hide Split, RoleParts, RoleText;
    var decision, tail := b.decision.value, RoleText(q) + "/" + e;
    assert SpanParts(a, r, d) == RoleParts(r) + Split(d, '/');
    GateParts(r, d, decision, q, e);
    RoleSplits(q, e);
    SplitFirst(decision, tail, '/');
    assert decision + "/" + tail == decision + ['/'] + tail;
    if Split(d, '/') == [decision] + (RoleParts(q) + Split(e, '/')) {
      SplitInjective(d, decision + "/" + tail, '/');
    }
  }

  /** Two spans are hashed from one text exactly when they are one, or a gate's span under a key with no decision spells
      the other out — whatever their discriminators hold. */
  lemma SpanTextsDiffer(a: StepKey, r: SpanRole, d: string, b: StepKey, q: SpanRole, e: string)
    requires Plain(a) && Plain(b)
    ensures Text(OfSpan(a, r, d)) == Text(OfSpan(b, q, e))
       <==> (a == b && r == q && d == e) || GateSpellsOut(a, r, d, b, q, e) || GateSpellsOut(b, q, e, a, r, d)
  {
    hide Split, Rest, SpanParts, GateSpellsOut, Decimal;
    var x, y := OfSpan(a, r, d), OfSpan(b, q, e);
    SpanSplits(a, r, d);
    SpanSplits(b, q, e);
    SpelledKeys(a, r, d, b, q, e);
    SpelledKeys(b, q, e, a, r, d);
    var p, o := [a.chunk, Decimal(a.epoch)], [b.chunk, Decimal(b.epoch)];
    if Text(x) == Text(y) {
      SamePrefix(Kind(x), Rest(x), Rest(y));
      assert (p + SpanParts(a, r, d))[0] == (o + SpanParts(b, q, e))[0];
      assert (p + SpanParts(a, r, d))[1] == (o + SpanParts(b, q, e))[1];
      DecimalInjective(a.epoch, b.epoch);
      SamePrefix(p, SpanParts(a, r, d), SpanParts(b, q, e));
    }
    if a.(decision := None) == b.(decision := None) {
      PartsTellApart(a, r, d, b, q, e);
      if SpanParts(a, r, d) == SpanParts(b, q, e) {
        SplitInjective(Rest(x), Rest(y), '/');
      }
    }
  }

  lemma SpelledKeys(a: StepKey, r: SpanRole, d: string, b: StepKey, q: SpanRole, e: string)
    ensures GateSpellsOut(a, r, d, b, q, e) ==> a.(decision := None) == b.(decision := None)
  {
  }

  lemma SameSuffix(a: string, b: string, s: string)
    requires a + s == b + s
    ensures a == b
  {
    assert (a + s)[..|a|] == a && (b + s)[..|b|] == b;
  }

  lemma SamePrefix<T>(p: seq<T>, a: seq<T>, b: seq<T>)
    requires p + a == p + b
    ensures a == b
  {
    assert (p + a)[|p|..] == a && (p + b)[|p|..] == b;
  }

  // ---------------------------------------------------------------- lifetime spans

  function LifetimeParts(role: ChunkRole, discriminator: string): seq<string> {
    if role.Work? then Split(discriminator, '/') else [Tail(role)] + Split(discriminator, '/')
  }

  lemma RoleTail(role: ChunkRole)
    ensures ChunkRoleText(role) == if role.Work? then "chunk" else "chunk" + "/" + Tail(role)
    ensures '/' !in Tail(role)
  {
    assert "chunk/" == "chunk" + "/";
  }

  lemma LifetimeSplits(chunk: string, role: ChunkRole, discriminator: string)
    requires '/' !in chunk
    ensures Split(Rest(OfLifetimeSpan(chunk, role, discriminator)), '/')
         == [chunk, "chunk"] + LifetimeParts(role, discriminator)
  {
    hide Split, ChunkRoleText, Tail;
    RoleTail(role);
    if role.Work? {
      SplitTwo(chunk, "chunk", discriminator);
    } else {
      var tail := Tail(role) + "/" + discriminator;
      assert Rest(OfLifetimeSpan(chunk, role, discriminator)) == chunk + "/" + "chunk" + "/" + tail;
      SplitTwo(chunk, "chunk", tail);
      SplitFirst(Tail(role), discriminator, '/');
    }
  }

  /** A `Work` span whose discriminator spells out the rest of another role and its discriminator. */
  predicate SpellsOut(r: ChunkRole, d: string, q: ChunkRole, e: string) {
    r.Work? && !q.Work? && d == Tail(q) + "/" + e
  }

  /** Lifetime spans are hashed from distinct texts, whatever their discriminators — a step span's holds slashes — except
      exactly where a `Work` span's spells out another's. */
  lemma LifetimeTextsDiffer(a: string, r: ChunkRole, d: string, b: string, q: ChunkRole, e: string)
    requires '/' !in a && '/' !in b
    ensures Text(OfLifetimeSpan(a, r, d)) == Text(OfLifetimeSpan(b, q, e))
       <==> a == b && ((r == q && d == e) || SpellsOut(r, d, q, e) || SpellsOut(q, e, r, d))
  {
    hide Split, Rest;
    var x, y := OfLifetimeSpan(a, r, d), OfLifetimeSpan(b, q, e);
    LifetimeSplits(a, r, d);
    LifetimeSplits(b, q, e);
    if Text(x) == Text(y) {
      SamePrefix(Kind(x), Rest(x), Rest(y));
      assert ([a, "chunk"] + LifetimeParts(r, d))[0] == ([b, "chunk"] + LifetimeParts(q, e))[0];
      SamePrefix([a, "chunk"], LifetimeParts(r, d), LifetimeParts(q, e));
    }
    LifetimePartsDiffer(r, d, q, e);
    if a == b && LifetimeParts(r, d) == LifetimeParts(q, e) {
      SplitInjective(Rest(x), Rest(y), '/');
    }
  }

  lemma LifetimePartsDiffer(r: ChunkRole, d: string, q: ChunkRole, e: string)
    ensures LifetimeParts(r, d) == LifetimeParts(q, e)
       <==> (r == q && d == e) || SpellsOut(r, d, q, e) || SpellsOut(q, e, r, d)
  {
    hide Split;
    SplitFirst(Tail(r), d, '/');
    SplitFirst(Tail(q), e, '/');
    if LifetimeParts(r, d) == LifetimeParts(q, e) {
      if r.Work? && q.Work? {
        SplitInjective(d, e, '/');
      } else if r.Work? {
        SplitInjective(d, Tail(q) + "/" + e, '/');
      } else if q.Work? {
        SplitInjective(e, Tail(r) + "/" + d, '/');
      } else {
        assert LifetimeParts(r, d)[0] == LifetimeParts(q, e)[0];
        SamePrefix([Tail(r)], Split(d, '/'), Split(e, '/'));
        SplitInjective(d, e, '/');
      }
    }
  }

  // ---------------------------------------------------------------- ids

  lemma KindsDiffer(a: Preimage, b: Preimage)
    requires Text(a) == Text(b)
    ensures Kind(a) == Kind(b)
  {
    hide Rest;
    var p, q := Kind(a), Kind(b);
    assert p[9] == Text(a)[9] == q[9];
    if p[9] == 'l' {
      assert p[18] == Text(a)[18] == q[18];
    }
  }

  /** One text is the other's: a gate's span, or a work span, spells the other out. */
  predicate Spells(a: Preimage, b: Preimage) {
    || (a.OfSpan? && b.OfSpan? && GateSpellsOut(a.key, a.role, a.discriminator, b.key, b.role, b.discriminator))
    || (a.OfLifetimeSpan? && b.OfLifetimeSpan? && a.chunk == b.chunk
        && SpellsOut(a.chunkRole, a.discriminator, b.chunkRole, b.discriminator))
  }

  /** The chunk and decision ids named hold no slash; discriminators may. */
  predicate PlainIds(p: Preimage) {
    match p
    case OfSpan(key, _, _) => Plain(key)
    case OfLifetimeSpan(chunk, _, _) => '/' !in chunk
    case _ => true
  }

  /** Any two ids, of any kind, are hashed from one text exactly when they are one id or one spells the other out. */
  lemma TextsDiffer(a: Preimage, b: Preimage)
    requires PlainIds(a) && PlainIds(b)
    ensures Text(a) == Text(b) <==> a == b || Spells(a, b) || Spells(b, a)
  {
    hide GateSpellsOut, SpellsOut, Rest, Text, KeyText;
    if Text(a) == Text(b) {
      KindsDiffer(a, b);
      KindsTell(a, b);
    }
    if a.OfSpan? && b.OfSpan? {
      SpanTextsDiffer(a.key, a.role, a.discriminator, b.key, b.role, b.discriminator);
    } else if a.OfLifetimeSpan? && b.OfLifetimeSpan? {
      LifetimeTextsDiffer(a.chunk, a.chunkRole, a.discriminator, b.chunk, b.chunkRole, b.discriminator);
    } else if Text(a) == Text(b) {
      ChunkTextsDiffer(a, b);
    }
  }

  lemma KindsTell(a: Preimage, b: Preimage)
    requires Kind(a) == Kind(b)
    ensures a.OfTrace? == b.OfTrace? && a.OfSpan? == b.OfSpan? && a.OfChunkSpan? == b.OfChunkSpan?
    ensures a.OfLifetimeTrace? == b.OfLifetimeTrace?
  {
    var p, q := Kind(a), Kind(b);
    assert |p| == |q| && p[9] == q[9] && (p[9] == 'l' ==> p[18] == q[18]);
  }

  lemma ChunkTextsDiffer(a: Preimage, b: Preimage)
    requires Text(a) == Text(b) && Kind(a) == Kind(b)
    requires (a.OfTrace? && b.OfTrace?) || (a.OfChunkSpan? && b.OfChunkSpan?) || (a.OfLifetimeTrace? && b.OfLifetimeTrace?)
    ensures a == b
  {
    SamePrefix(Kind(a), Rest(a), Rest(b));
    if a.OfChunkSpan? {
      SameSuffix(a.chunk, b.chunk, "/" + ChunkRoleText(Work) + "/");
    }
  }

  /** What is minted: a gate's span under the key of its decision, and no lifetime span for `Work`. */
  predicate Minted(p: Preimage) {
    match p
    case OfSpan(key, role, _) => Plain(key) && (role.Gate? ==> key.decision.Some?)
    case OfLifetimeSpan(chunk, role, _) => '/' !in chunk && !role.Work?
    case _ => true
  }

  lemma MintedTextsDiffer(a: Preimage, b: Preimage)
    requires Minted(a) && Minted(b)
    ensures Text(a) == Text(b) <==> a == b
  {
    hide Text;
    TextsDiffer(a, b);
  }

  /** An invocation's span, whose discriminator always holds a slash, is hashed from a text of its own: no other id of any
      kind, minted or not, has it. */
  lemma InvocationsNeverClash(chunk: string, epoch: int, generation: int, kind: string, other: Preimage)
    requires '/' !in chunk && PlainIds(other)
    ensures var a := OfSpan(StepKey(chunk, epoch, None), Invocation, Decimal(generation) + "/" + kind);
      Text(a) == Text(other) <==> a == other
  {
    hide Text, Decimal;
    TextsDiffer(OfSpan(StepKey(chunk, epoch, None), Invocation, Decimal(generation) + "/" + kind), other);
  }

  /** How many bytes of the digest an id takes: 16 for a trace's, 8 for a span's. */
  function Bytes(p: Preimage): nat {
    if p.OfTrace? || p.OfLifetimeTrace? then 16 else 8
  }

  /** `digest(n, text)` is the first `n` bytes of the hash read as a number; where they are all zero the last is set. */
  function IdOf(digest: (nat, string) -> nat, p: Preimage): (id: nat)
    ensures id != 0
  {
    if digest(Bytes(p), Text(p)) == 0 then 1 else digest(Bytes(p), Text(p))
  }

  predicate Collides(digest: (nat, string) -> nat, bytes: nat, s: string, t: string) {
    s != t && (digest(bytes, s) == digest(bytes, t) || {digest(bytes, s), digest(bytes, t)} == {0, 1})
  }

  /** Two trace ids, or two span ids, of what is minted are the same only where the digest collides. */
  lemma SharedIdIsCollision(digest: (nat, string) -> nat, a: Preimage, b: Preimage)
    requires Minted(a) && Minted(b) && a != b && Bytes(a) == Bytes(b) && IdOf(digest, a) == IdOf(digest, b)
    ensures Collides(digest, Bytes(a), Text(a), Text(b))
  {
    hide Text, Minted;
    MintedTextsDiffer(a, b);
  }
}
