/**
 Who owns which topics and storage containers: the collision checks of
 confirm_data_product, the launched adaptor that creates what its product names,
 and the teardown of delete_data_product (ui/app.py, service/precheck.py).

 A blank name stands for a field left empty. A probe that cannot reach its service
 answers "does not exist", so a run says which names each confirm saw.
 */
module Resources {
  import opened Wrappers
  import opened Seqs

  datatype Cloud = Azure | Aws | Gcp

  /** Azure keeps source and target containers in two accounts; AWS and GCP have one. */
  datatype Account = SourceAccount | TargetAccount | SharedAccount

  datatype Resource = Bucket(account: Account, name: string) | Topic(name: string)

  datatype Product =
    | FileProduct(productType: string, source: string, target: string, topic: string)
    | TopicProduct(productType: string, srcTopic: string, targetTopic: string)

  datatype Check = Check(field: string, resource: Resource)

  function SourceSide(cloud: Cloud): Account {
    if cloud == Azure then SourceAccount else SharedAccount
  }

  function TargetSide(cloud: Cloud): Account {
    if cloud == Azure then TargetAccount else SharedAccount
  }

  /** The name fields of a pathway, each with what its value denotes. */
  function NameChecks(cloud: Cloud, p: Product): (checks: seq<Check>)
    ensures forall i, j :: 0 <= i < j < |checks| ==> checks[i].field != checks[j].field
  {
    match p
    case FileProduct(_, source, target, topic) =>
      [Check("source_container_name", Bucket(SourceSide(cloud), source)),
       Check("target_container_name", Bucket(TargetSide(cloud), target)),
       Check("target_topic_name", Topic(topic))]
    case TopicProduct(_, source, target) =>
      [Check("src_topic_name", Topic(source)), Check("target_topic_name", Topic(target))]
  }

  /** A blank field names nothing. */
  function Denotes(r: Resource): set<Resource> {
    if r.name == "" then {} else {r}
  }

  /** What a product names, creates when launched, and takes with it when deleted. */
  function Named(cloud: Cloud, p: Product): set<Resource> {
    match p
    case FileProduct(_, source, target, topic) =>
      Denotes(Bucket(SourceSide(cloud), source)) + Denotes(Bucket(TargetSide(cloud), target)) + Denotes(Topic(topic))
    case TopicProduct(_, source, target) => Denotes(Topic(source)) + Denotes(Topic(target))
  }

  /**
   What a product names, field by field: on Azure its containers lie in two accounts, elsewhere in one;
   a blank field names nothing.
   */
  lemma NamedExactly(cloud: Cloud, p: Product, r: Resource)
    ensures r in Named(cloud, p) <==>
      r.name != "" &&
      match p
      case FileProduct(_, source, target, topic) =>
        || r == Bucket(if cloud == Azure then SourceAccount else SharedAccount, source)
        || r == Bucket(if cloud == Azure then TargetAccount else SharedAccount, target)
        || r == Topic(topic)
      case TopicProduct(_, source, target) => r == Topic(source) || r == Topic(target)
  {
  }

  lemma NamedByChecks(cloud: Cloud, p: Product, r: Resource)
    ensures r in Named(cloud, p) <==>
      r.name != "" && exists j :: 0 <= j < |NameChecks(cloud, p)| && NameChecks(cloud, p)[j].resource == r
  {
    var checks := NameChecks(cloud, p);
    if r in Named(cloud, p) {
      assert checks[0].resource == r || checks[1].resource == r || (p.FileProduct? && checks[2].resource == r);
    }
  }

  /** Field j repeats an earlier field's value. */
  predicate Repeats(checks: seq<Check>, j: nat)
    requires j < |checks|
  {
    checks[j].resource.name != "" && exists i :: 0 <= i < j && checks[i].resource.name == checks[j].resource.name
  }

  /** The field that the duplicate check reports, told by the values themselves. */
  function Duplicate(p: Product): Option<string> {
    match p
    case FileProduct(_, source, target, topic) =>
      if target != "" && target == source then Some("target_container_name")
      else if topic != "" && (topic == source || topic == target) then Some("target_topic_name")
      else None
    case TopicProduct(_, source, target) =>
      if target != "" && target == source then Some("target_topic_name") else None
  }

  lemma RepeatsIs(cloud: Cloud, p: Product)
    ensures var checks := NameChecks(cloud, p);
      Duplicate(p) ==
        if Repeats(checks, 0) then Some(checks[0].field)
        else if Repeats(checks, 1) then Some(checks[1].field)
        else if |checks| > 2 && Repeats(checks, 2) then Some(checks[2].field)
        else None
  {
    var checks := NameChecks(cloud, p);
    assert Repeats(checks, 1) <==> checks[1].resource.name != "" && checks[0].resource.name == checks[1].resource.name;
    if |checks| > 2 {
      assert Repeats(checks, 2) <==>
        (checks[2].resource.name != ""
         && (checks[0].resource.name == checks[2].resource.name || checks[1].resource.name == checks[2].resource.name));
    }
  }

  method FindDuplicate(cloud: Cloud, p: Product) returns (duplicate: Option<string>)
    ensures var checks := NameChecks(cloud, p);
      match duplicate
      case None => forall j :: 0 <= j < |checks| ==> !Repeats(checks, j)
      case Some(field) =>
        exists j ::
          && 0 <= j < |checks| && checks[j].field == field && Repeats(checks, j)
          && (forall k :: 0 <= k < j ==> !Repeats(checks, k))
    ensures duplicate == Duplicate(p)
  {
    var checks := NameChecks(cloud, p);
    RepeatsIs(cloud, p);
    for j := 0 to |checks|
      invariant forall k :: 0 <= k < j ==> !Repeats(checks, k)
    {
      var value := checks[j].resource.name;
      if value == "" {
        continue;
      }
      for i := 0 to |checks|
        invariant i <= j && forall k :: 0 <= k < i ==> checks[k].resource.name != value
      {
        if checks[i].field == checks[j].field {
          break;
        }
        if checks[i].resource.name == value {
          return Some(checks[j].field);
        }
      }
    }
    duplicate := None;
  }

  predicate Collides(checks: seq<Check>, sees: set<Resource>, j: nat)
    requires j < |checks|
  {
    checks[j].resource.name != "" && checks[j].resource in sees
  }

  /** The field that the existence check reports, told by the values and the accounts they lie in. */
  function Collision(cloud: Cloud, p: Product, sees: set<Resource>): Option<string> {
    match p
    case FileProduct(_, source, target, topic) =>
      if source != "" && Bucket(if cloud == Azure then SourceAccount else SharedAccount, source) in sees then
        Some("source_container_name")
      else if target != "" && Bucket(if cloud == Azure then TargetAccount else SharedAccount, target) in sees then
        Some("target_container_name")
      else if topic != "" && Topic(topic) in sees then Some("target_topic_name")
      else None
    case TopicProduct(_, source, target) =>
      if source != "" && Topic(source) in sees then Some("src_topic_name")
      else if target != "" && Topic(target) in sees then Some("target_topic_name")
      else None
  }

  lemma CollidesIs(cloud: Cloud, p: Product, sees: set<Resource>)
    ensures var checks := NameChecks(cloud, p);
      Collision(cloud, p, sees) ==
        if Collides(checks, sees, 0) then Some(checks[0].field)
        else if Collides(checks, sees, 1) then Some(checks[1].field)
        else if |checks| > 2 && Collides(checks, sees, 2) then Some(checks[2].field)
        else None
  {
  }

  method FindNameCollision(cloud: Cloud, p: Product, sees: set<Resource>) returns (collision: Option<string>)
    ensures var checks := NameChecks(cloud, p);
      match collision
      case None => Named(cloud, p) !! sees
      case Some(field) =>
        exists j ::
          && 0 <= j < |checks| && checks[j].field == field && Collides(checks, sees, j)
          && (forall k :: 0 <= k < j ==> !Collides(checks, sees, k))
    ensures collision == Collision(cloud, p, sees)
  {
    var checks := NameChecks(cloud, p);
    CollidesIs(cloud, p, sees);
    for j := 0 to |checks|
      invariant forall k :: 0 <= k < j ==> !Collides(checks, sees, k)
    {
      if checks[j].resource.name != "" && checks[j].resource in sees {
        return Some(checks[j].field);
      }
    }
    forall r | r in Named(cloud, p) ensures r !in sees {
      NamedByChecks(cloud, p, r);
      var j :| 0 <= j < |checks| && checks[j].resource == r;
      assert !Collides(checks, sees, j);
    }
    collision := None;
  }

  predicate Distinct(cloud: Cloud, p: Product) {
    var checks := NameChecks(cloud, p);
    forall j :: 0 <= j < |checks| ==> !Repeats(checks, j)
  }

  /** The name fields of a product, as submitted. */
  function Values(p: Product): seq<string> {
    match p
    case FileProduct(_, source, target, topic) => [source, target, topic]
    case TopicProduct(_, source, target) => [source, target]
  }

  /** The duplicate check passes exactly when no two filled-in fields hold the same value, whatever they name. */
  lemma DistinctExactly(cloud: Cloud, p: Product)
    ensures Distinct(cloud, p) <==>
      forall i, j :: 0 <= i < j < |Values(p)| && Values(p)[i] != "" ==> Values(p)[i] != Values(p)[j]
  {
    var checks := NameChecks(cloud, p);
    assert |checks| == |Values(p)| && forall i :: 0 <= i < |checks| ==> checks[i].resource.name == Values(p)[i];
    if Distinct(cloud, p) {
      forall i, j | 0 <= i < j < |Values(p)| && Values(p)[i] != "" ensures Values(p)[i] != Values(p)[j] {
        assert !Repeats(checks, j);
      }
    }
  }

  predicate Registered(rows: seq<Product>, productType: string) {
    exists i :: 0 <= i < |rows| && rows[i].productType == productType
  }

  predicate Accepts(cloud: Cloud, rows: seq<Product>, p: Product, sees: set<Resource>) {
    Distinct(cloud, p) && Named(cloud, p) !! sees && !Registered(rows, p.productType)
  }

  function Without(rows: seq<Product>, productType: string): seq<Product> {
    Select(rows, (p: Product) => p.productType != productType)
  }

  /** The rows on file and everything that exists on the broker and in the accounts. */
  class Platform {
    const cloud: Cloud
    var rows: seq<Product>
    var world: set<Resource>

    constructor (cloud: Cloud)
      ensures this.cloud == cloud && rows == [] && world == {}
    {
      this.cloud, rows, world := cloud, [], {};
    }

    /** confirm_data_product; sees holds the names for which a probe answered True. */
    method Confirm(p: Product, sees: set<Resource>) returns (accepted: bool)
      modifies this`rows
      ensures accepted == Accepts(cloud, old(rows), p, sees)
      ensures accepted <==>
        && (forall i, j :: 0 <= i < j < |Values(p)| && Values(p)[i] != "" ==> Values(p)[i] != Values(p)[j])
        && Named(cloud, p) !! sees && forall i :: 0 <= i < |old(rows)| ==> old(rows)[i].productType != p.productType
      ensures rows == if accepted then old(rows) + [p] else old(rows)
    {
      accepted := false;
      DistinctExactly(cloud, p);
      var duplicate := FindDuplicate(cloud, p);
      if duplicate.Some? {
        return;
      }
      var collision := FindNameCollision(cloud, p, sees);
      if collision.Some? {
        ghost var checks := NameChecks(cloud, p);
        ghost var j :| 0 <= j < |checks| && Collides(checks, sees, j);
        NamedByChecks(cloud, p, checks[j].resource);
        return;
      }
      for i := 0 to |rows|
        invariant rows == old(rows) && forall j :: 0 <= j < i ==> rows[j].productType != p.productType
      {
        if rows[i].productType == p.productType {
          return;
        }
      }
      rows := rows + [p];
      accepted := true;
    }

    /** The launched adaptor's ensure_exists calls. */
    method Provision(p: Product)
      modifies this`world
      ensures world == old(world) + Named(cloud, p)
    {
      match p
      case FileProduct(_, source, target, topic) =>
        Ensure(Bucket(SourceSide(cloud), source));
        Ensure(Bucket(TargetSide(cloud), target));
        Ensure(Topic(topic));
      case TopicProduct(_, source, target) =>
        Ensure(Topic(source));
        Ensure(Topic(target));
    }

    method Ensure(r: Resource)
      modifies this`world
      ensures world == old(world) + Denotes(r)
    {
      if r.name != "" && r !in world {
        world := world + {r};
      }
    }

    /** A deletion that raises is logged and leaves its resource behind. */
    method Discard(r: Resource, raises: bool)
      modifies this`world
      ensures world == if r.name == "" || raises then old(world) else old(world) - {r}
    {
      if r.name != "" && !raises && r in world {
        world := world - {r};
      }
    }

    method Teardown(p: Product, stuck: set<Resource>)
      modifies this`world
      ensures world == old(world) - (Named(cloud, p) - stuck)
    {
      match p
      case FileProduct(_, source, target, topic) =>
        var from, to := Bucket(SourceSide(cloud), source), Bucket(TargetSide(cloud), target);
        Discard(from, from in stuck);
        Discard(to, to in stuck);
        Discard(Topic(topic), Topic(topic) in stuck);
      case TopicProduct(_, source, target) =>
        Discard(Topic(source), Topic(source) in stuck);
        Discard(Topic(target), Topic(target) in stuck);
    }

    method Delete(productType: string, stuck: set<Resource>) returns (found: Option<Product>)
      modifies this
      ensures match found
        case None => !Registered(old(rows), productType) && rows == old(rows) && world == old(world)
        case Some(p) =>
          && p in old(rows) && p.productType == productType
          && rows == Without(old(rows), productType)
          && world == old(world) - (Named(cloud, p) - stuck)
    {
      found := None;
      for i := 0 to |rows|
        invariant found == None && rows == old(rows)
        invariant forall j :: 0 <= j < i ==> rows[j].productType != productType
      {
        if rows[i].productType == productType {
          found := Some(rows[i]);
          break;
        }
      }
      if found.None? {
        return;
      }
      Teardown(found.value, stuck);
      rows := Without(rows, productType);
    }
  }

  // ---- Runs ----

  /** `foreign` is what others than this platform have created. */
  datatype State = State(rows: seq<Product>, world: set<Resource>, foreign: set<Resource>)

  datatype Event =
    | Confirm(product: Product, sees: set<Resource>)
    | Provision(product: Product)
    | Foreign(resource: Resource)
    | Delete(product: Product, stuck: set<Resource>)

  function Step(cloud: Cloud, s: State, e: Event): State {
    match e
    case Confirm(p, sees) => if Accepts(cloud, s.rows, p, sees) then s.(rows := s.rows + [p]) else s
    case Provision(p) => if p in s.rows then s.(world := s.world + Named(cloud, p)) else s
    case Foreign(r) => if r in s.world then s else s.(world := s.world + {r}, foreign := s.foreign + {r})
    case Delete(p, stuck) =>
      if p in s.rows then State(Without(s.rows, p.productType), s.world - (Named(cloud, p) - stuck), s.foreign) else s
  }

  function Run(cloud: Cloud, events: seq<Event>): State {
    if events == [] then State([], {}, {}) else Step(cloud, Run(cloud, events[..|events| - 1]), events[|events| - 1])
  }

  /** Registered products own pairwise disjoint resources, none of them somebody else's. */
  ghost predicate Separate(cloud: Cloud, s: State) {
    && (forall p, q :: p in s.rows && q in s.rows && p != q ==>
          p.productType != q.productType && Named(cloud, p) !! Named(cloud, q))
    && (forall p :: p in s.rows ==> Named(cloud, p) !! s.foreign)
    && s.foreign <= s.world
  }

  /** Every registered product's adaptor has created what the product names. */
  ghost predicate Settled(cloud: Cloud, s: State) {
    forall p :: p in s.rows ==> Named(cloud, p) <= s.world
  }

  /**
   Confirms come after the adaptors have settled and their probes answer for certain;
   nobody else creates a confirmed name before its adaptor does.
   */
  ghost predicate Orderly(cloud: Cloud, s: State, e: Event) {
    match e
    case Confirm(p, sees) => Settled(cloud, s) && Named(cloud, p) * s.world <= sees
    case Foreign(r) => r in s.world || forall p :: p in s.rows ==> r !in Named(cloud, p)
    case Provision(_) => true
    case Delete(_, _) => true
  }

  ghost predicate OrderlyRun(cloud: Cloud, events: seq<Event>) {
    || events == []
    || (OrderlyRun(cloud, events[..|events| - 1])
        && Orderly(cloud, Run(cloud, events[..|events| - 1]), events[|events| - 1]))
  }

  lemma AcceptedIsApart(cloud: Cloud, s: State, p: Product, sees: set<Resource>)
    requires Separate(cloud, s) && Orderly(cloud, s, Confirm(p, sees)) && Accepts(cloud, s.rows, p, sees)
    ensures Separate(cloud, Step(cloud, s, Confirm(p, sees)))
  {
    forall q | q in s.rows ensures Named(cloud, p) !! Named(cloud, q) && q.productType != p.productType {
      assert Named(cloud, p) * s.world == {};
      assert Named(cloud, q) <= s.world;
    }
    assert Named(cloud, p) * s.world == {};
  }

  /** Over every orderly run, products own disjoint resources of their own. */
  lemma {:induction false} OrderlyRunsStaySeparate(cloud: Cloud, events: seq<Event>)
    requires OrderlyRun(cloud, events)
    ensures Separate(cloud, Run(cloud, events))
  {
    if events != [] {
      var s, e := Run(cloud, events[..|events| - 1]), events[|events| - 1];
      OrderlyRunsStaySeparate(cloud, events[..|events| - 1]);
      match e
      case Confirm(p, sees) =>
        if Accepts(cloud, s.rows, p, sees) {
          AcceptedIsApart(cloud, s, p, sees);
        }
      case Delete(p, _) => SelectMembers(s.rows, (q: Product) => q.productType != p.productType);
      case Provision(_) =>
      case Foreign(_) =>
    }
  }

  /** Deleting a product then removes exactly its own resources: the other rows and whatever exists outside it stay. */
  lemma DeleteRemovesOnlyItsOwn(cloud: Cloud, events: seq<Event>, p: Product, stuck: set<Resource>)
    requires OrderlyRun(cloud, events) && p in Run(cloud, events).rows
    ensures var s := Run(cloud, events);
      var t := Step(cloud, s, Delete(p, stuck));
      && (forall q :: q in t.rows <==> q in s.rows && q != p)
      && s.world - t.world == (s.world * Named(cloud, p)) - stuck
      && t.world <= s.world
      && (forall q :: q in t.rows ==> Named(cloud, q) * t.world == Named(cloud, q) * s.world)
      && s.foreign <= t.world
  {
    OrderlyRunsStaySeparate(cloud, events);
    SelectMembers(Run(cloud, events).rows, (q: Product) => q.productType != p.productType);
  }

  /** What a failed teardown left behind cannot be taken over by a later product. */
  lemma LeftoversAreRefused(
    cloud: Cloud, s: State, p: Product, stuck: set<Resource>, q: Product, sees: set<Resource>, r: Resource)
    requires p in s.rows && r in Named(cloud, p) && r in s.world && r in stuck && r in Named(cloud, q)
    requires var t := Step(cloud, s, Delete(p, stuck)); Orderly(cloud, t, Confirm(q, sees))
    ensures var t := Step(cloud, s, Delete(p, stuck)); Step(cloud, t, Confirm(q, sees)) == t
  {
    var t := Step(cloud, s, Delete(p, stuck));
    assert r in Named(cloud, q) * t.world;
  }

  // ---- What the probes must see ----

  /** A resource that some product on this cloud can name. */
  predicate Nameable(cloud: Cloud, r: Resource) {
    r.name != "" && (r.Topic? || r.account == SourceSide(cloud) || r.account == TargetSide(cloud))
  }

  function NamingOnly(cloud: Cloud, productType: string, r: Resource): Product {
    if r.Topic? then TopicProduct(productType, r.name, "")
    else if r.account == SourceSide(cloud) then FileProduct(productType, r.name, "", "")
    else FileProduct(productType, "", r.name, "")
  }

  lemma NamingOnlyNames(cloud: Cloud, productType: string, r: Resource)
    requires Nameable(cloud, r)
    ensures Named(cloud, NamingOnly(cloud, productType, r)) == {r} && Distinct(cloud, NamingOnly(cloud, productType, r))
  {
  }

  ghost predicate Taken(cloud: Cloud, s: State, r: Resource) {
    r in s.foreign || exists q :: q in s.rows && r in Named(cloud, q)
  }

  /** Whatever is submitted next, an accepted product stays apart. */
  ghost predicate NextStaysApart(cloud: Cloud, s: State, sees: set<Resource>) {
    forall p :: Accepts(cloud, s.rows, p, sees) ==> Separate(cloud, Step(cloud, s, Confirm(p, sees)))
  }

  /**
   From a separate state, the confirm guard protects every submission exactly when the probes
   see each taken resource that a product can name: one missed name is enough to share it.
   */
  lemma GuardIsExact(cloud: Cloud, s: State, sees: set<Resource>, unused: string)
    requires Separate(cloud, s) && !Registered(s.rows, unused)
    ensures NextStaysApart(cloud, s, sees) <==> forall r :: Taken(cloud, s, r) && Nameable(cloud, r) ==> r in sees
  {
    if NextStaysApart(cloud, s, sees) {
      forall r | Taken(cloud, s, r) && Nameable(cloud, r) ensures r in sees {
        if r !in sees {
          MissedNameIsShared(cloud, s, sees, unused, r);
        }
      }
    }
    if forall r :: Taken(cloud, s, r) && Nameable(cloud, r) ==> r in sees {
      forall p | Accepts(cloud, s.rows, p, sees) ensures Separate(cloud, Step(cloud, s, Confirm(p, sees))) {
        SeenIsApart(cloud, s, p, sees);
      }
    }
  }

  lemma MissedNameIsShared(cloud: Cloud, s: State, sees: set<Resource>, unused: string, r: Resource)
    requires !Registered(s.rows, unused) && Taken(cloud, s, r) && Nameable(cloud, r) && r !in sees
    ensures !NextStaysApart(cloud, s, sees)
  {
    var p := NamingOnly(cloud, unused, r);
    NamingOnlyNames(cloud, unused, r);
    var t := Step(cloud, s, Confirm(p, sees));
    assert Accepts(cloud, s.rows, p, sees);
    assert t.rows == s.rows + [p] && p in t.rows && r in Named(cloud, p);
    if r !in s.foreign {
      var q :| q in s.rows && r in Named(cloud, q);
      assert q.productType != unused;
      assert q in t.rows && r in Named(cloud, p) * Named(cloud, q);
    } else {
      assert r in Named(cloud, p) * t.foreign;
    }
  }

  lemma SeenIsApart(cloud: Cloud, s: State, p: Product, sees: set<Resource>)
    requires Separate(cloud, s) && Accepts(cloud, s.rows, p, sees)
    requires forall r :: Taken(cloud, s, r) && Nameable(cloud, r) ==> r in sees
    ensures Separate(cloud, Step(cloud, s, Confirm(p, sees)))
  {
    forall r | r in Named(cloud, p) ensures !Taken(cloud, s, r) {
      assert Nameable(cloud, r);
    }
    forall q | q in s.rows ensures Named(cloud, p) !! Named(cloud, q) && q.productType != p.productType {
    }
  }

  // ---- Why runs must be orderly ----

  lemma RunAppend(cloud: Cloud, events: seq<Event>, e: Event)
    ensures Run(cloud, events + [e]) == Step(cloud, Run(cloud, events), e)
  {
    assert (events + [e])[..|events|] == events;
  }

  /**
   Two products confirmed before either adaptor ran: every probe is right, yet they share
   their names, and deleting one takes them from the other.
   */
  lemma EarlyConfirmShares(cloud: Cloud, a: Product, b: Product)
    requires a.productType != b.productType && Named(cloud, a) == Named(cloud, b) != {}
    requires Distinct(cloud, a) && Distinct(cloud, b)
    ensures var s := Run(cloud, [Confirm(a, {})] + [Confirm(b, {})] + [Provision(a)] + [Provision(b)]);
      && s == State([a] + [b], Named(cloud, b), {})
      && Step(cloud, s, Delete(a, {})) == State([b], {}, {})
  {
    var e := [Confirm(a, {})];
    assert [] + e == e;
    RunAppend(cloud, [], e[0]);
    RunAppend(cloud, e, Confirm(b, {}));
    RunAppend(cloud, e + [Confirm(b, {})], Provision(a));
    RunAppend(cloud, e + [Confirm(b, {})] + [Provision(a)], Provision(b));
    assert Run(cloud, e) == State([a], {}, {});
    assert Accepts(cloud, [a], b, {});
    assert Run(cloud, e + [Confirm(b, {})]) == State([a] + [b], {}, {});
    assert a in [a] + [b] && b in [a] + [b];
    SelectAppend([a], b, (q: Product) => q.productType != a.productType);
    SelectAppend([], a, (q: Product) => q.productType != a.productType);
    assert [] + [a] == [a];
  }
}
