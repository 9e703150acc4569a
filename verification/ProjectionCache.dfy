/** The markdown projection cache: a bounded, recency-ordered map in front of a projector
    that can be replaced and restored at any time. */
module ProjectionCache {
  import opened Options
  import opened Whitespace
  import opened Ordering

  const MARKDOWN_PROJECTION_CACHE_LIMIT: nat := 128

  /** What a projector makes of a source; anything but a plan is not cached. */
  datatype Projected = Threw | PlanWithError | Good(body: string)

  type Projector = string -> Projected

  datatype Plan = Plan(source: string, body: string)

  predicate Blank(source: string) {
    forall i :: 0 <= i < |source| ==> IsScriptSpace(source[i])
  }

  /** Projection without a cache. */
  function Uncached(p: Option<Projector>, source: string): Option<Plan> {
    if Blank(source) || p.None? then None
    else match p.value(source)
      case Good(body) => Some(Plan(source, body))
      case _ => None
  }

  // ── The cache ───────────────────────────────────────────────────────

  /** A JavaScript `Map`: its entries and their insertion order. */
  datatype Cache = Cache(order: seq<string>, plans: map<string, Plan>)

  function Touch(c: Cache, source: string): Cache {
    c.(order := Without(c.order, source) + [source])
  }

  function Insert(c: Cache, plan: Plan): Cache {
    var order := if plan.source in c.plans then c.order else c.order + [plan.source];
    var added := Cache(order, c.plans[plan.source := plan]);
    if |order| <= MARKDOWN_PROJECTION_CACHE_LIMIT then added
    else Cache(order[1..], added.plans - {order[0]})
  }

  // ── The module's state and its operations ───────────────────────────

  /** `captured`: the projector each call of `setMarkdownProjectionProjector` replaced,
      which its disposer restores. */
  datatype Projection = Projection(projector: Option<Projector>, cache: Cache, captured: seq<Option<Projector>>)

  const EMPTY_CACHE := Cache([], map[])

  datatype Op = Project(source: string) | SetProjector(projector: Projector) | Dispose(handle: nat)

  function ProjectStep(s: Projection, source: string): (Projection, Option<Plan>) {
    if Blank(source) || s.projector.None? then (s, None)
    else if source in s.cache.plans then (s.(cache := Touch(s.cache, source)), Some(s.cache.plans[source]))
    else match s.projector.value(source)
      case Good(body) => (s.(cache := Insert(s.cache, Plan(source, body))), Some(Plan(source, body)))
      case _ => (s, None)
  }

  function Next(s: Projection, op: Op): (Projection, Option<Plan>) {
    match op
    case Project(source) => ProjectStep(s, source)
    case SetProjector(p) => (Projection(Some(p), EMPTY_CACHE, s.captured + [s.projector]), None)
    case Dispose(h) =>
      (if h < |s.captured| then Projection(s.captured[h], EMPTY_CACHE, s.captured) else s, None)
  }

  const START := Projection(None, EMPTY_CACHE, [])

  function Run(ops: seq<Op>): Projection
    decreases |ops|
  {
    if ops == [] then START else Next(Run(ops[..|ops| - 1]), ops[|ops| - 1]).0
  }

  /** How often a projector has been set. */
  function Sets(ops: seq<Op>): nat
    decreases |ops|
  {
    if ops == [] then 0 else Sets(ops[..|ops| - 1]) + if ops[|ops| - 1].SetProjector? then 1 else 0
  }

  /** Where in the run the projector was set for the `h`th time, counted from 0. */
  function SetAt(ops: seq<Op>, h: nat): (i: nat)
    requires h < Sets(ops)
    ensures i < |ops| && ops[i].SetProjector? && Sets(ops[..i]) == h
    decreases |ops|
  {
    var n := |ops| - 1;
    if h < Sets(ops[..n]) then
      var i := SetAt(ops[..n], h);
      assert ops[..n][..i] == ops[..i];
      i
    else n
  }

  /** The projector in force: the last one set, or, after a disposal, the one that was in
      force before the call that is disposed of. */
  function InForce(ops: seq<Op>): Option<Projector>
    decreases |ops|
  {
    if ops == [] then None
    else
      var before, op := ops[..|ops| - 1], ops[|ops| - 1];
      match op
      case Project(_) => InForce(before)
      case SetProjector(p) => Some(p)
      case Dispose(h) => if h < Sets(before) then InForce(before[..SetAt(before, h)]) else InForce(before)
  }

  /** The sources projected successfully since the projector last changed, in order. */
  function Uses(ops: seq<Op>): seq<string>
    decreases |ops|
  {
    if ops == [] then []
    else
      var before, op := ops[..|ops| - 1], ops[|ops| - 1];
      match op
      case Project(source) => if Uncached(InForce(before), source).Some? then Uses(before) + [source] else Uses(before)
      case SetProjector(_) => []
      case Dispose(h) => if h < Sets(before) then [] else Uses(before)
  }

  /** The state remembers, for every call that set a projector, the one in force before it. */
  lemma {:induction false} ProjectorIsInForce(ops: seq<Op>)
    ensures Run(ops).projector == InForce(ops) && |Run(ops).captured| == Sets(ops)
    ensures forall h :: 0 <= h < Sets(ops) ==> Run(ops).captured[h] == InForce(ops[..SetAt(ops, h)])
    decreases |ops|
  {
    if ops != [] {
      var n := |ops| - 1;
      ProjectorIsInForce(ops[..n]);
      forall h | 0 <= h < Sets(ops) ensures Run(ops).captured[h] == InForce(ops[..SetAt(ops, h)]) {
        if h < Sets(ops[..n]) {
          assert ops[..n][..SetAt(ops[..n], h)] == ops[..SetAt(ops, h)];
        }
      }
    }
  }

  // ── Recency ─────────────────────────────────────────────────────────

  /** The distinct elements, least recently used first. */
  function Recent(uses: seq<string>): seq<string>
    decreases |uses|
  {
    if uses == [] then []
    else Without(Recent(uses[..|uses| - 1]), uses[|uses| - 1]) + [uses[|uses| - 1]]
  }

  /** The position of the last use. */
  function LastUse(uses: seq<string>, x: string): int
    decreases |uses|
  {
    if uses == [] then -1
    else if uses[|uses| - 1] == x then |uses| - 1
    else LastUse(uses[..|uses| - 1], x)
  }

  lemma {:induction false} RecentDistinct(uses: seq<string>)
    ensures Distinct(Recent(uses)) && forall x :: x in Recent(uses) <==> x in uses
    decreases |uses|
  {
    if uses != [] {
      var n := |uses| - 1;
      RecentDistinct(uses[..n]);
      WithoutDistinct(Recent(uses[..n]), uses[n]);
      DistinctSnoc(Without(Recent(uses[..n]), uses[n]), uses[n]);
      assert uses == uses[..n] + [uses[n]];
    }
  }

  predicate ByLastUse(s: seq<string>, uses: seq<string>) {
    forall i, j :: 0 <= i < j < |s| ==> LastUse(uses, s[i]) < LastUse(uses, s[j])
  }

  lemma {:induction false} WithoutKeepsOrder(s: seq<string>, x: string, uses: seq<string>)
    requires ByLastUse(s, uses)
    ensures ByLastUse(Without(s, x), uses)
    decreases |s|
  {
    if s != [] {
      WithoutKeepsOrder(s[1..], x, uses);
      var rest := Without(s[1..], x);
      if s[0] != x {
        forall j | 0 <= j < |rest| ensures LastUse(uses, s[0]) < LastUse(uses, rest[j]) {
          assert rest[j] in rest;
          var k :| 0 <= k < |s[1..]| && s[1..][k] == rest[j];
          assert s[k + 1] == rest[j];
        }
      }
    }
  }

  /** The recency order is the order of last uses. */
  lemma {:induction false} RecentByLastUse(uses: seq<string>)
    ensures ByLastUse(Recent(uses), uses)
    decreases |uses|
  {
    if uses != [] {
      var n := |uses| - 1;
      var front := uses[..n];
      RecentByLastUse(front);
      RecentDistinct(front);
      var kept := Without(Recent(front), uses[n]);
      WithoutKeepsOrder(Recent(front), uses[n], front);
      forall i | 0 <= i < |kept| ensures LastUse(uses, kept[i]) == LastUse(front, kept[i]) < n {
        assert kept[i] in kept;
        LastUseBound(front, kept[i]);
      }
    }
  }

  lemma {:induction false} LastUseBound(uses: seq<string>, x: string)
    ensures LastUse(uses, x) < |uses|
    decreases |uses|
  {
    if uses != [] {
      LastUseBound(uses[..|uses| - 1], x);
    }
  }

  lemma RecentSnoc(uses: seq<string>, x: string)
    ensures Recent(uses + [x]) == Without(Recent(uses), x) + [x]
  {
    assert (uses + [x])[..|uses|] == uses;
  }

  // ── Every run ───────────────────────────────────────────────────────

  /** The cache holds the most recently used sources, with their plans. */
  ghost predicate Inv(s: Projection, uses: seq<string>) {
    HoldsRecent(s.cache, uses) && PlansAgree(s.projector, s.cache.plans)
  }

  ghost predicate HoldsRecent(c: Cache, uses: seq<string>) {
    && c.order == LastN(Recent(uses), MARKDOWN_PROJECTION_CACHE_LIMIT)
    && (forall x :: x in c.plans <==> x in c.order)
  }

  ghost predicate PlansAgree(p: Option<Projector>, plans: map<string, Plan>) {
    forall x :: x in plans ==> Uncached(p, x) == Some(plans[x])
  }

  lemma TouchKeeps(c: Cache, uses: seq<string>, x: string)
    requires HoldsRecent(c, uses) && x in c.plans
    ensures HoldsRecent(Touch(c, x), uses + [x])
  {
    RecentDistinct(uses);
    RecentSnoc(uses, x);
    LastNTouched(Recent(uses), x, MARKDOWN_PROJECTION_CACHE_LIMIT);
  }

  lemma InsertKeeps(c: Cache, uses: seq<string>, plan: Plan)
    requires HoldsRecent(c, uses) && plan.source !in c.plans
    ensures HoldsRecent(Insert(c, plan), uses + [plan.source])
  {
    RecentDistinct(uses);
    RecentSnoc(uses, plan.source);
    LastNInserted(Recent(uses), plan.source, MARKDOWN_PROJECTION_CACHE_LIMIT);
    InsertMembers(c, plan);
  }

  lemma InsertMembers(c: Cache, plan: Plan)
    requires (forall y :: y in c.plans <==> y in c.order) && plan.source !in c.plans
    requires |c.order| >= MARKDOWN_PROJECTION_CACHE_LIMIT ==> c.order[0] !in (c.order + [plan.source])[1..]
    ensures forall y :: y in Insert(c, plan).plans <==> y in Insert(c, plan).order
  {
    var order := c.order + [plan.source];
    assert order == [order[0]] + order[1..];
    forall y
      ensures y in Insert(c, plan).plans <==> y in Insert(c, plan).order
    {
      assert y in order <==> y in c.order || y == plan.source;
      assert y in order <==> y == order[0] || y in order[1..];
    }
  }

  lemma NextKeeps(s: Projection, uses: seq<string>, source: string)
    requires Inv(s, uses)
    ensures var (s', r) := ProjectStep(s, source);
            && r == Uncached(s.projector, source) && s'.projector == s.projector
            && Inv(s', if r.Some? then uses + [source] else uses)
  {
    if !Blank(source) && s.projector.Some? {
      if source in s.cache.plans {
        TouchKeeps(s.cache, uses, source);
      } else if s.projector.value(source).Good? {
        InsertKeeps(s.cache, uses, Plan(source, s.projector.value(source).body));
      }
    }
  }

  lemma {:induction false} RunKeeps(ops: seq<Op>)
    ensures Inv(Run(ops), Uses(ops))
    decreases |ops|
  {
    if ops != [] {
      var n := |ops| - 1;
      RunKeeps(ops[..n]);
      ProjectorIsInForce(ops[..n]);
      if ops[n].Project? {
        NextKeeps(Run(ops[..n]), Uses(ops[..n]), ops[n].source);
      }
    }
  }

  /** After every run of projections, projector changes and disposals, projecting returns
      what the projector in force would without a cache; and the cache holds exactly the at most 128
      sources used last since the projector changed, least recently used first. */
  lemma CacheIsTransparent(ops: seq<Op>, source: string)
    ensures Next(Run(ops), Project(source)).1 == Uncached(InForce(ops), source)
    ensures Run(ops).cache.order == LastN(Recent(Uses(ops)), MARKDOWN_PROJECTION_CACHE_LIMIT)
    ensures forall x :: x in Run(ops).cache.plans <==> x in Run(ops).cache.order
  {
    RunKeeps(ops);
    ProjectorIsInForce(ops);
    NextKeeps(Run(ops), Uses(ops), source);
  }

  // ── The module's functions ──────────────────────────────────────────

  class MarkdownProjection {
    var projector: Option<Projector>
    var order: seq<string>
    var plans: map<string, Plan>
    var captured: seq<Option<Projector>>
    /** The sources projected successfully since the projector last changed. */
    ghost var uses: seq<string>

    /** The cache holds the sources used last, with the plans the projector gives them. */
    ghost predicate Valid()
      reads this
    {
      Inv(State(), uses)
    }

    ghost function State(): Projection
      reads this
    {
      Projection(projector, Cache(order, plans), captured)
    }

    constructor ()
      ensures Valid() && State() == START && uses == []
    {
      projector, order, plans, captured, uses := None, [], map[], [], [];
    }

    method SetMarkdownProjectionProjector(p: Projector) returns (handle: nat)
      requires Valid()
      modifies this
      ensures State() == Next(old(State()), SetProjector(p)).0
      ensures Valid() && uses == [] && projector == Some(p)
      ensures handle < |captured| && captured[handle] == old(projector)
    {
      uses := [];
      var previous := projector;
      projector := Some(p);
      order, plans := [], map[];
      handle := |captured|;
      captured := captured + [previous];
    }

    method DisposeProjector(handle: nat)
      requires Valid()
      modifies this
      ensures State() == Next(old(State()), Dispose(handle)).0
      ensures Valid() && uses == if handle < |captured| then [] else old(uses)
      ensures projector == if handle < |captured| then captured[handle] else old(projector)
    {
      if handle < |captured| {
        uses := [];
        projector := captured[handle];
        order, plans := [], map[];
      }
    }

    method ProjectMarkdownPlan(source: string) returns (r: Option<Plan>)
      requires Valid()
      modifies this
      ensures (State(), r) == Next(old(State()), Project(source))
      ensures Valid() && uses == if r.Some? then old(uses) + [source] else old(uses)
      ensures r == Uncached(projector, source) && projector == old(projector)
    {
      r := Look(source);
      NextKeeps(old(State()), uses, source);
      if r.Some? {
        uses := uses + [source];
      }
    }

    method Look(source: string) returns (r: Option<Plan>)
      modifies this`order, this`plans
      ensures (State(), r) == ProjectStep(old(State()), source)
    {
      if Blank(source) || projector.None? {
        return None;
      }
      if source in plans {
        var cached := plans[source];
        order := Without(order, source);
        order := order + [source];
        return Some(cached);
      }
      var projected := projector.value(source);
      if !projected.Good? {
        return None;
      }
      r := CachePlan(Plan(source, projected.body));
    }

    method CachePlan(plan: Plan) returns (r: Option<Plan>)
      modifies this`order, this`plans
      ensures Cache(order, plans) == Insert(old(Cache(order, plans)), plan) && r == Some(plan)
    {
      if plan.source !in plans {
        order := order + [plan.source];
      }
      plans := plans[plan.source := plan];
      if |order| > MARKDOWN_PROJECTION_CACHE_LIMIT {
        plans := plans - {order[0]};
        order := order[1..];
      }
      r := Some(plan);
    }
  }
}
