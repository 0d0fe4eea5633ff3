/**
 * How the service answers a query at a moment of the chain's history: field
 * collection, grouping and completion as in section 6.3 and 6.4 of the GraphQL
 * specification (October 2021), over a chain given by its lookups.
 */
module GraphqlExecution {
  import opened Wrappers
  import opened GraphqlQuery
  import opened ReplayRules
  import opened ReplayClassifier

  // ---------------------------------------------------------------------------
  // Answers
  // ---------------------------------------------------------------------------

  datatype Json = JNull | JScalar(text: string) | JList(items: seq<Json>) | JObject(members: seq<Member>)

  datatype Member = Member(key: Name, value: Json)

  /** Nothing on `path` is null; a list on the way is followed into all its items. */
  predicate Present(value: Json, path: Path)
    decreases value, 2
  {
    match value
    case JNull => false
    case JList(items) => forall i :: 0 <= i < |items| ==> Present(items[i], path)
    case JScalar(_) => path == []
    case JObject(members) => path == [] || PresentIn(members, path[0], path[1..])
  }

  predicate PresentIn(members: seq<Member>, key: Name, path: Path)
    decreases members, 0
  {
    members != [] && if members[0].key == key then PresentMember(members[0], path) else PresentIn(members[1..], key, path)
  }

  predicate PresentMember(member: Member, path: Path)
    decreases member, 1
  {
    Present(member.value, path)
  }

  /** A lookup's result: nothing, a scalar, an object of the chain, or a list. */
  datatype Answer = Missing | Leaf(json: Json) | Node(id: nat) | Many(items: seq<Answer>)

  /** No null anywhere in the answer, through lists. */
  predicate Found(v: Answer) {
    match v
    case Missing => false
    case Leaf(json) => Present(json, [])
    case Node(_) => true
    case Many(items) => forall i :: 0 <= i < |items| ==> Found(items[i])
  }

  // ---------------------------------------------------------------------------
  // The chain
  // ---------------------------------------------------------------------------

  /** Single lookups, by the key they take. */
  datatype Kind = TransactionByDigest | EffectsByDigest | CheckpointByKey | CheckpointBy | ObjectBy | PackageBy

  datatype Log = EventLog | TransactionLog

  /**
   * What an object of the chain is: data of a transaction, its effects, an
   * event, a checkpoint or an object; one version of a package, or something in
   * it; a module or function as a transaction or an event names it, whose
   * package may be upgraded in place; an address; an owner; an epoch.
   */
  datatype Thing = Record | Published | Named | Account | Ownership | EpochNumber

  /** An event or a transaction in its log. */
  datatype Row = Row(checkpoint: nat, id: nat)

  /**
   * The service over the whole history of the chain. The first argument of the
   * time-dependent parts is a moment. `latest` is the last checkpoint served,
   * and every pipeline behind the service is within `lag` checkpoints of it.
   */
  datatype Chain = Chain(
    field: (nat, nat, Name, Args) -> Answer,
    point: (nat, Kind, Arg) -> Answer,
    rows: (nat, Log) -> seq<Row>,
    suits: (Log, Arg, Row) -> bool,
    page: (Log, Args, seq<Row>) -> Answer,
    open: (nat, Name, Args) -> Answer,
    typeName: nat -> string,
    applies: (string, string) -> bool,
    thing: nat -> Thing,
    fixed: (nat, nat) -> bool,
    lineage: nat -> nat,
    latest: nat -> nat,
    lag: nat)

  function Matching(setting: Setting, ch: Chain, log: Log, filter: Arg, rows: seq<Row>): seq<Row> {
    if rows == [] then []
    else
      var rest := Matching(setting, ch, log, filter, rows[1..]);
      if Within(setting, filter, rows[0].checkpoint) && ch.suits(log, filter, rows[0]) then [rows[0]] + rest else rest
  }

  function Points(ch: Chain, t: nat, kind: Kind, keys: seq<Arg>): seq<Answer> {
    seq(|keys|, i requires 0 <= i < |keys| => ch.point(t, kind, keys[i]))
  }

  function Listed(ch: Chain, t: nat, kind: Kind, name: Name, args: Args): Answer {
    var keys := Get(args, Keys);
    if keys.Items? then Many(Points(ch, t, kind, keys.items)) else ch.open(t, name, args)
  }

  function Logged(setting: Setting, ch: Chain, t: nat, log: Log, name: Name, args: Args): Answer {
    var filter := Get(args, Filter);
    if ClosedStart(setting, filter)
    then ch.page(log, args, Matching(setting, ch, log, filter, ch.rows(t, log)))
    else ch.open(t, name, args)
  }

  /** What a root field reads. Ranges open at their start, and roots not listed, are answered in any way (`open`). */
  function RootAnswer(setting: Setting, ch: Chain, t: nat, name: Name, args: Args): Answer {
    match name
    case Transaction => ch.point(t, TransactionByDigest, Get(args, Digest))
    case TransactionEffects => ch.point(t, EffectsByDigest, Get(args, Digest))
    case Checkpoint => ch.point(t, CheckpointBy, Fields(args))
    case Object => ch.point(t, ObjectBy, Fields(args))
    case Package => ch.point(t, PackageBy, Fields(args))
    case MultiGetTransactions => Listed(ch, t, TransactionByDigest, name, args)
    case MultiGetTransactionEffects => Listed(ch, t, EffectsByDigest, name, args)
    case MultiGetCheckpoints => Listed(ch, t, CheckpointByKey, name, args)
    case MultiGetObjects => Listed(ch, t, ObjectBy, name, args)
    case MultiGetPackages => Listed(ch, t, PackageBy, name, args)
    case Events => Logged(setting, ch, t, EventLog, name, args)
    case Transactions => Logged(setting, ch, t, TransactionLog, name, args)
    case _ => ch.open(t, name, args)
  }

  // ---------------------------------------------------------------------------
  // Field collection
  // ---------------------------------------------------------------------------

  datatype World = World(setting: Setting, ch: Chain, vars: Vars)

  /** Where a selection set is executed: at the query root or at an object. */
  datatype Site = QueryRoot | At(id: nat)

  function TypeOf(w: World, site: Site): string {
    match site
    case QueryRoot => "Query"
    case At(id) => w.ch.typeName(id)
  }

  predicate AllFields(fields: seq<Tree>) {
    forall i :: 0 <= i < |fields| ==> fields[i].Leafed?
  }

  datatype Collected = Collected(fields: seq<Tree>, visited: set<string>)

  /** The fields that apply to an object of type `on`, in order; a named fragment is visited once. */
  function Collect(w: World, on: string, ts: seq<Tree>, visited: set<string>): (c: Collected)
    ensures AllFields(c.fields)
    decreases ts, 0
  {
    if ts == [] then Collected([], visited)
    else
      var first := CollectTree(w, on, ts[0], visited);
      var rest := Collect(w, on, ts[1..], first.visited);
      Collected(first.fields + rest.fields, rest.visited)
  }

  function CollectTree(w: World, on: string, t: Tree, visited: set<string>): (c: Collected)
    ensures AllFields(c.fields)
    decreases t, 1
  {
    if !Shown(t.cond, w.vars) then Collected([], visited)
    else
      match t
      case Leafed(_, _, _, _, _) => Collected([t], visited)
      case Group(origin, typed, _, sub) =>
        if origin.Some? && origin.value in visited then Collected([], visited)
        else
          var visited' := if origin.Some? then visited + {origin.value} else visited;
          if typed.Some? && !w.ch.applies(typed.value, on) then Collected([], visited')
          else Collect(w, on, sub, visited')
  }

  /** The response keys, in order of first appearance. */
  function KeysOf(fields: seq<Tree>): seq<Name>
    requires AllFields(fields)
    decreases |fields|
  {
    if fields == [] then [] else [fields[0].key] + KeysOf(Without(fields[1..], fields[0].key))
  }

  function Without(fields: seq<Tree>, key: Name): (rest: seq<Tree>)
    requires AllFields(fields)
    ensures AllFields(rest) && |rest| <= |fields|
  {
    if fields == [] then []
    else if fields[0].key == key then Without(fields[1..], key)
    else [fields[0]] + Without(fields[1..], key)
  }

  /** The fields that answer to one response key. */
  function WithKey(fields: seq<Tree>, key: Name): (group: seq<Tree>)
    requires AllFields(fields)
    ensures AllFields(group)
  {
    if fields == [] then []
    else if fields[0].key == key then [fields[0]] + WithKey(fields[1..], key)
    else WithKey(fields[1..], key)
  }

  function Merged(group: seq<Tree>): seq<Tree>
    requires AllFields(group)
  {
    if group == [] then [] else group[0].sub + Merged(group[1..])
  }

  // ---------------------------------------------------------------------------
  // Sizes, for termination
  // ---------------------------------------------------------------------------

  function Size(ts: seq<Tree>): nat
    decreases ts, 0
  {
    if ts == [] then 0 else TreeSize(ts[0]) + Size(ts[1..])
  }

  function TreeSize(t: Tree): nat
    decreases t, 1
  {
    1 + Size(t.sub)
  }

  lemma {:induction false} SizeAppend(a: seq<Tree>, b: seq<Tree>)
    ensures Size(a + b) == Size(a) + Size(b)
  {
    if a == [] {
      assert a + b == b;
    } else {
      assert (a + b)[1..] == a[1..] + b;
      SizeAppend(a[1..], b);
    }
  }

  lemma {:induction false} CollectSize(w: World, on: string, ts: seq<Tree>, visited: set<string>)
    ensures Size(Collect(w, on, ts, visited).fields) <= Size(ts)
    decreases ts, 0
  {
    if ts != [] {
      var first := CollectTree(w, on, ts[0], visited);
      CollectTreeSize(w, on, ts[0], visited);
      CollectSize(w, on, ts[1..], first.visited);
      SizeAppend(first.fields, Collect(w, on, ts[1..], first.visited).fields);
    }
  }

  lemma {:induction false} CollectTreeSize(w: World, on: string, t: Tree, visited: set<string>)
    ensures Size(CollectTree(w, on, t, visited).fields) <= TreeSize(t)
    decreases t, 1
  {
    if t.Group? {
      CollectSize(w, on, t.sub, if t.origin.Some? then visited + {t.origin.value} else visited);
    }
  }

  lemma {:induction false} GroupSize(fields: seq<Tree>, key: Name)
    requires AllFields(fields)
    ensures Size(Merged(WithKey(fields, key))) + |WithKey(fields, key)| <= Size(fields)
  {
    if fields != [] {
      GroupSize(fields[1..], key);
      if fields[0].key == key {
        assert WithKey(fields, key)[1..] == WithKey(fields[1..], key);
        SizeAppend(fields[0].sub, Merged(WithKey(fields[1..], key)));
      }
    }
  }

  // ---------------------------------------------------------------------------
  // Execution
  // ---------------------------------------------------------------------------

  function Resolve(w: World, t: nat, site: Site, f: Tree): Answer
    requires f.Leafed?
  {
    if f.name == Typename then Leaf(JScalar(TypeOf(w, site)))
    else
      match site
      case QueryRoot => RootAnswer(w.setting, w.ch, t, f.name, ArgsOf(f, w.vars))
      case At(id) => w.ch.field(t, id, f.name, ArgsOf(f, w.vars))
  }

  /** Fields that share a response key must be the same lookup; the service rejects the query otherwise (section 5.3.2). */
  predicate CanMerge(group: seq<Tree>, vars: Vars)
    requires AllFields(group)
  {
    forall i :: 0 <= i < |group| ==> group[i].name == group[0].name && ArgsOf(group[i], vars) == ArgsOf(group[0], vars)
  }

  /** The response to a selection set, or none when the service rejects it. */
  function ExecSet(w: World, t: nat, site: Site, ts: seq<Tree>): Option<Json>
    decreases Size(ts), 3
  {
    CollectSize(w, TypeOf(w, site), ts, {});
    var fields := Collect(w, TypeOf(w, site), ts, {}).fields;
    var members := ExecKeys(w, t, site, fields, KeysOf(fields));
    if members.None? then None else Some(JObject(members.value))
  }

  function ExecKeys(w: World, t: nat, site: Site, fields: seq<Tree>, keys: seq<Name>): Option<seq<Member>>
    requires AllFields(fields)
    decreases Size(fields), 2, |keys|
  {
    if keys == [] then Some([])
    else
      var group := WithKey(fields, keys[0]);
      if group == [] || !CanMerge(group, w.vars) then None
      else
        GroupSize(fields, keys[0]);
        var value := Complete(w, t, Resolve(w, t, site, group[0]), Merged(group));
        var rest := ExecKeys(w, t, site, fields, keys[1..]);
        if value.None? || rest.None? then None else Some([Member(keys[0], value.value)] + rest.value)
  }

  /** A scalar takes no selections and an object takes some; null stands for itself. */
  function Complete(w: World, t: nat, v: Answer, sub: seq<Tree>): Option<Json>
    decreases Size(sub), 4, v
  {
    match v
    case Missing => Some(JNull)
    case Leaf(json) => if sub == [] then Some(json) else None
    case Node(id) => if sub == [] then None else ExecSet(w, t, At(id), sub)
    case Many(items) =>
      var all := CompleteAll(w, t, items, sub);
      if all.None? then None else Some(JList(all.value))
  }

  function CompleteAll(w: World, t: nat, items: seq<Answer>, sub: seq<Tree>): Option<seq<Json>>
    decreases Size(sub), 4, items
  {
    if items == [] then Some([])
    else
      var first := Complete(w, t, items[0], sub);
      var rest := CompleteAll(w, t, items[1..], sub);
      if first.None? || rest.None? then None else Some([first.value] + rest.value)
  }

  /** The values a query runs with: those given, and the declared defaults of the rest. */
  function Sent(doc: Document, vars: Vars): Vars {
    doc.defaults + vars
  }

  /** The data the service answers a document with at moment `t`, or none when it rejects the document. */
  function Run(setting: Setting, ch: Chain, t: nat, doc: Document, vars: Vars): Option<Json> {
    var inlined := InlineDocument(doc);
    if inlined.None? then None else ExecSet(World(setting, ch, Sent(doc, vars)), t, QueryRoot, inlined.value)
  }
}
