/** Why each condition of replay soundness is there. */
module ReplayLimits {
  import opened Wrappers
  import opened GraphqlQuery
  import opened ReplayRules
  import opened ReplayClassifier
  import opened GraphqlExecution
  import opened ReplayStability
  import opened ReplayDefaults
  import opened ReplaySoundness
  import opened ReplayCache
  import opened ReplayExamples

  // ---------------------------------------------------------------------------
  // Settled
  // ---------------------------------------------------------------------------

  /** `{ object(address: "0x2a", atCheckpoint: bound) { digest } }`. */
  function ObjectAt(bound: nat): Document {
    DigestOf(Object, [Entry(Address, TextValue("0x2a")), Entry(AtCheckpoint, NumberValue(bound as real))], map[])
  }

  lemma ObjectAtArgs(setting: Setting, bound: nat, vars: Vars)
    requires bound <= MAX_SAFE
    ensures var args := FieldsOf(ObjectAt(bound).top[0].args, vars);
      && RootRule(setting, Object, args) == Some(Rule(Data, Some(bound)))
      && ObjectCheckpoint(setting, Fields(args)) == Some(bound)
  {
    TwoArgs(Address, TextValue("0x2a"), AtCheckpoint, NumberValue(bound as real), vars);
    assert (bound as real).Floor == bound;
  }

  /** Objects as of checkpoint `bound`: one object at the first moment, another from then on. */
  function LateObject(setting: Setting, bound: nat, before: nat, after: nat, lag: nat): Chain {
    Late((kind: Kind, key: Arg) => kind.ObjectBy? && ObjectCheckpoint(setting, key) == Some(bound), true, before, after, lag)
  }

  lemma LateObjectFaithful(setting: Setting, bound: nat, before: nat, after: nat, lag: nat)
    requires before <= after && before < bound + lag
    ensures Faithful(setting, LateObject(setting, bound, before, after, lag))
  {
    var late := (kind: Kind, key: Arg) => kind.ObjectBy? && ObjectCheckpoint(setting, key) == Some(bound);
    forall kind, key | late(kind, key) ensures Unpromised(setting, kind, key, true, before, lag) {
    }
    LateFaithful(setting, late, true, before, after, lag);
    assert LateObject(setting, bound, before, after, lag) == Late(late, true, before, after, lag);
  }

  /** The read a query for an object at a checkpoint is classified as. */
  function ReadAt(bound: nat): ReplayClassifier.Read {
    ReplayClassifier.Read([[Object]], Some(bound))
  }

  /** The query is classified, answered at both moments, recordable at both, and answered differently. */
  lemma LateObjectAnswers(setting: Setting, bound: nat, before: nat, after: nat, lag: nat, t: nat)
    requires bound <= MAX_SAFE && Digest in setting.dataFields
    ensures Classify(setting, ObjectAt(bound), map[]) == Some(ReadAt(bound))
    ensures Run(setting, LateObject(setting, bound, before, after, lag), t, ObjectAt(bound), map[])
            == Some(DigestAnswer(Object, Node(if t == 0 then 0 else 1)))
    ensures Recordable(ReadAt(bound), DigestAnswer(Object, Node(if t == 0 then 0 else 1)))
  {
    ObjectAtArgs(setting, bound, map[]);
    DigestClassified(setting, Object, ObjectAt(bound).top[0].args, map[], map[]);
    LateObjectRuns(setting, bound, before, after, lag, t);
    DigestPresent(Object, Node(if t == 0 then 0 else 1));
  }

  lemma LateObjectRuns(setting: Setting, bound: nat, before: nat, after: nat, lag: nat, t: nat)
    requires bound <= MAX_SAFE
    ensures Run(setting, LateObject(setting, bound, before, after, lag), t, ObjectAt(bound), map[])
            == Some(DigestAnswer(Object, Node(if t == 0 then 0 else 1)))
  {
    var ch, none: Vars := LateObject(setting, bound, before, after, lag), map[];
    assert none + none == none && Sent(ObjectAt(bound), none) == none;
    LateObjectFound(setting, bound, before, after, lag, t, none);
    DigestAnswered(setting, ch, t, Object, ObjectAt(bound).top[0].args, none, none);
  }

  lemma LateObjectFound(setting: Setting, bound: nat, before: nat, after: nat, lag: nat, t: nat, vars: Vars)
    requires bound <= MAX_SAFE
    ensures var ch := LateObject(setting, bound, before, after, lag);
      IsLate(ch) && RootAnswer(setting, ch, t, Object, FieldsOf(ObjectAt(bound).top[0].args, vars)) == Node(if t == 0 then 0 else 1)
  {
    var late := (kind: Kind, key: Arg) => kind.ObjectBy? && ObjectCheckpoint(setting, key) == Some(bound);
    assert LateObject(setting, bound, before, after, lag) == Late(late, true, before, after, lag);
    ObjectAtArgs(setting, bound, vars);
    LatePoint(late, true, before, after, lag, t, ObjectBy, Fields(FieldsOf(ObjectAt(bound).top[0].args, vars)));
  }

  lemma TextsDiffer(kind: Kind)
    ensures DigestJson(Node(OldOf(kind))) != DigestJson(Node(NewOf(kind)))
  {
    assert TextOf(OldOf(kind))[0] != TextOf(NewOf(kind))[0];
  }

  lemma ObjectsDiffer()
    ensures DigestAnswer(Object, Node(0)) != DigestAnswer(Object, Node(1))
  {
    TextsDiffer(ObjectBy);
    assert DigestAnswer(Object, Node(0)).members[0] != DigestAnswer(Object, Node(1)).members[0];
  }

  /**
   * The settling condition is exact: for every bound that is not final, however
   * long the chain and whatever the lag, some faithful service gives a
   * classified, recordable answer that it later takes back.
   */
  lemma UnsettledEscapes(setting: Setting, bound: nat, height: nat, lag: nat) returns (ch: Chain, doc: Document)
    requires bound <= MAX_SAFE && height < bound + lag && Digest in setting.dataFields
    ensures Faithful(setting, ch) && ch.lag == lag && ch.latest(0) == height && !Final(ch, 0, bound)
    ensures Classify(setting, doc, map[]) == Some(ReadAt(bound)) && ClassifiedAsSent(setting, doc, map[])
    ensures Run(setting, ch, 0, doc, map[]).Some? && Recordable(ReadAt(bound), Run(setting, ch, 0, doc, map[]).value)
    ensures Run(setting, ch, 1, doc, map[]) != Run(setting, ch, 0, doc, map[])
  {
    ch, doc := LateObject(setting, bound, height, height, lag), ObjectAt(bound);
    LateObjectFaithful(setting, bound, height, height, lag);
    LateObjectAnswers(setting, bound, height, height, lag, 0);
    LateObjectAnswers(setting, bound, height, height, lag, 1);
    SuppliedIsSent(setting, doc, map[]);
    ObjectsDiffer();
  }

  // ---------------------------------------------------------------------------
  // Checked in time
  // ---------------------------------------------------------------------------

  /** From the empty store, a run whose checks are in time, of a faithful service with this lag, has kept this request, which is seen as it runs. */
  ghost predicate Served(setting: Setting, lag: nat, growth: nat, ch: Chain, events: seq<Event>, s: System, request: Request) {
    && Faithful(setting, ch) && ch.lag == lag && Reaches(setting, ch, growth, EMPTY, events, s)
    && request in s.store && ClassifiedAsSent(setting, request.doc, request.vars)
  }

  /** Whatever the service and the run, all the store serves is live. */
  ghost predicate AlwaysLive(setting: Setting, lag: nat, growth: nat) {
    forall ch, events, s, request :: Served(setting, lag, growth, ch, events, s, request) ==>
      Run(setting, ch, s.now, request.doc, request.vars) == Some(s.store[request])
  }

  /**
   * The settling check runs after the answer, so a chain that grows in between
   * can let an answer through that was not settled when it was given. For every
   * two heights of the chain, at the answer and at the check, that the lag puts
   * further apart than the settling distance, some faithful service has a run
   * from the empty store that keeps such an answer and serves it when the
   * endpoint answers otherwise.
   */
  lemma LateCheckEscapes(setting: Setting, before: nat, after: nat, lag: nat) returns (ch: Chain, request: Request, events: seq<Event>, s: System)
    requires before <= after && before + SETTLED_CHECKPOINTS < after + lag && SETTLED_CHECKPOINTS <= after <= SETTLED_CHECKPOINTS + MAX_SAFE
    requires Digest in setting.dataFields
    ensures ch.latest(0) == before && ch.latest(1) == after && s.now == 1
    ensures Served(setting, lag, after - before, ch, events, s, request)
    ensures Run(setting, ch, s.now, request.doc, request.vars) != Some(s.store[request])
  {
    var bound := after - SETTLED_CHECKPOINTS;
    ch, request := LateObject(setting, bound, before, after, lag), Request(ObjectAt(bound), map[]);
    LateObjectFaithful(setting, bound, before, after, lag);
    LateObjectAnswers(setting, bound, before, after, lag, 0);
    LateObjectAnswers(setting, bound, before, after, lag, 1);
    SuppliedIsSent(setting, request.doc, map[]);
    ObjectsDiffer();
    events, s := KeptLate(setting, ch, request, ReadAt(bound), DigestAnswer(Object, Node(0)), after - before, after);
  }

  /** Any request answered at moment 0 whose bound is settled at moment 1 is kept. */
  lemma KeptLate(setting: Setting, ch: Chain, request: Request, read: ReplayClassifier.Read, data: Json, growth: nat, height: nat)
    returns (events: seq<Event>, s: System)
    requires Classify(setting, request.doc, request.vars) == Some(read)
    requires Run(setting, ch, 0, request.doc, request.vars) == Some(data) && Recordable(read, data)
    requires read.bound.Some? && read.bound.value + SETTLED_CHECKPOINTS <= height <= ch.latest(1) <= ch.latest(0) + growth
    ensures s.now == 1 && request in s.store && s.store[request] == data
    ensures Reaches(setting, ch, growth, EMPTY, events, s)
  {
    var s1 := System(map[], None, 0, map[0 := Asked(request, read)]);
    var s2 := System(map[], None, 0, map[0 := Held(request, read, 0, data, false)]);
    var s3 := s2.(now := 1);
    var s4 := s3.(pending := map[0 := Querying(request, read, 0, data, false)]);
    s := System(map[request := data], Some(Latest(height, 0)), 1, map[]);
    var e1, e2, e3 := Start(0, request), Arrive(0, Body(Some(data), false)), Advance(1);
    var e4, e5 := Check(0, 0), ReadLatest(0, Some(height), 0);
    assert Step(setting, ch, growth, EMPTY, e1, s1);
    assert Step(setting, ch, growth, s1, e2, s2);
    assert Step(setting, ch, growth, s2, e3, s3);
    assert Step(setting, ch, growth, s3, e4, s4);
    assert Step(setting, ch, growth, s4, e5, s) by {
      assert s4.pending - {0} == map[];
    }
    events := FiveSteps(setting, ch, growth, EMPTY, s1, s2, s3, s4, s, e1, e2, e3, e4, e5);
  }

  lemma FiveSteps(setting: Setting, ch: Chain, growth: nat, s0: System, s1: System, s2: System, s3: System, s4: System, s5: System,
                  e1: Event, e2: Event, e3: Event, e4: Event, e5: Event) returns (events: seq<Event>)
    requires Step(setting, ch, growth, s0, e1, s1) && Step(setting, ch, growth, s1, e2, s2) && Step(setting, ch, growth, s2, e3, s3)
    requires Step(setting, ch, growth, s3, e4, s4) && Step(setting, ch, growth, s4, e5, s5)
    ensures Reaches(setting, ch, growth, s0, events, s5)
  {
    assert Reaches(setting, ch, growth, s5, [], s5);
    OneStep(setting, ch, growth, s4, e5, s5, [], s5);
    OneStep(setting, ch, growth, s3, e4, s4, [e5] + [], s5);
    OneStep(setting, ch, growth, s2, e3, s3, [e4] + ([e5] + []), s5);
    OneStep(setting, ch, growth, s1, e2, s2, [e3] + ([e4] + ([e5] + [])), s5);
    OneStep(setting, ch, growth, s0, e1, s1, [e2] + ([e3] + ([e4] + ([e5] + []))), s5);
    events := [e1] + ([e2] + ([e3] + ([e4] + ([e5] + []))));
  }

  /**
   * Cache transparency, exactly: for services whose pipelines lag by up to
   * `lag`, and checks within `growth` checkpoints of their answers, everything
   * the store ever serves is live if and only if the two together fit the
   * settling distance. For checks that need no time at all, because the latest
   * checkpoint known before the answer covers its bound, take `growth` as 0.
   */
  lemma LiveIffMargin(setting: Setting, lag: nat, growth: nat)
    requires Digest in setting.dataFields
    ensures AlwaysLive(setting, lag, growth) <==> lag + growth <= SETTLED_CHECKPOINTS
  {
    if lag + growth <= SETTLED_CHECKPOINTS {
      LiveInMargin(setting, lag, growth);
    } else {
      NotLiveBeyond(setting, lag, growth);
    }
  }

  lemma LiveInMargin(setting: Setting, lag: nat, growth: nat)
    requires lag + growth <= SETTLED_CHECKPOINTS
    ensures AlwaysLive(setting, lag, growth)
  {
    forall ch, events, s, request | Served(setting, lag, growth, ch, events, s, request)
      ensures Run(setting, ch, s.now, request.doc, request.vars) == Some(s.store[request])
    {
      ServedIsLive(setting, ch, growth, events, s, request);
    }
  }

  lemma NotLiveBeyond(setting: Setting, lag: nat, growth: nat)
    requires Digest in setting.dataFields && lag + growth > SETTLED_CHECKPOINTS
    ensures !AlwaysLive(setting, lag, growth)
  {
    var grown := if lag > SETTLED_CHECKPOINTS then 0 else SETTLED_CHECKPOINTS + 1 - lag;
    var ch, request, events, s := LateCheckEscapes(setting, SETTLED_CHECKPOINTS, SETTLED_CHECKPOINTS + grown, lag);
    SlowerIsServed(setting, lag, grown, growth, ch, events, s, request);
    OneIsNotLive(setting, lag, growth, ch, events, s, request);
  }

  lemma SlowerIsServed(setting: Setting, lag: nat, growth: nat, more: nat, ch: Chain, events: seq<Event>, s: System, request: Request)
    requires growth <= more && Served(setting, lag, growth, ch, events, s, request)
    ensures Served(setting, lag, more, ch, events, s, request)
  {
    SlowerIsAllowed(setting, ch, growth, more, EMPTY, events, s);
  }

  lemma OneIsNotLive(setting: Setting, lag: nat, growth: nat, ch: Chain, events: seq<Event>, s: System, request: Request)
    requires Served(setting, lag, growth, ch, events, s, request) && Run(setting, ch, s.now, request.doc, request.vars) != Some(s.store[request])
    ensures !AlwaysLive(setting, lag, growth)
  {
  }

  /** Checks in time for one growth are in time for any greater. */
  lemma {:induction false} SlowerIsAllowed(setting: Setting, ch: Chain, growth: nat, more: nat, s: System, events: seq<Event>, s': System)
    requires growth <= more && Reaches(setting, ch, growth, s, events, s')
    ensures Reaches(setting, ch, more, s, events, s')
    decreases |events|
  {
    if events != [] {
      SlowerIsAllowed(setting, ch, growth, more, Next(setting, ch, s, events[0]), events[1..], s');
    }
  }

  // ---------------------------------------------------------------------------
  // Present
  // ---------------------------------------------------------------------------

  /** A transaction that is not there at the first moment, and is from then on. */
  function LateTransaction(): Chain {
    Late((kind: Kind, key: Arg) => kind.TransactionByDigest?, false, 0, 0, 0)
  }

  /** Without the check for nulls, a transaction looked up before it is in a checkpoint would be kept as missing for good. */
  lemma NullEscapes(setting: Setting, digest: string) returns (ch: Chain, doc: Document)
    requires Digest in setting.dataFields
    ensures Faithful(setting, ch) && ClassifiedAsSent(setting, doc, map[])
    ensures Classify(setting, doc, map[]) == Some(ReplayClassifier.Read([[Transaction]], None))
    ensures Run(setting, ch, 0, doc, map[]).Some? && !Recordable(ReplayClassifier.Read([[Transaction]], None), Run(setting, ch, 0, doc, map[]).value)
    ensures Run(setting, ch, 1, doc, map[]) != Run(setting, ch, 0, doc, map[])
  {
    var args, none := [Entry(Digest, TextValue(digest))], map[];
    var late := (kind: Kind, key: Arg) => kind.TransactionByDigest?;
    ch, doc := LateTransaction(), DigestOf(Transaction, args, none);
    assert ch == Late(late, false, 0, 0, 0);
    LateFaithful(setting, late, false, 0, 0, 0);
    SuppliedIsSent(setting, doc, none);
    assert Sent(doc, none) == none;
    OneArg(Digest, TextValue(digest), none);
    DigestClassified(setting, Transaction, args, none, none);
    DigestAnswered(setting, ch, 0, Transaction, args, none, none);
    DigestAnswered(setting, ch, 1, Transaction, args, none, none);
    DigestPresent(Transaction, Missing);
    assert [Transaction] in [[Transaction]];
    assert DigestAnswer(Transaction, Missing).members[0] != DigestAnswer(Transaction, Node(1)).members[0];
  }

  // ---------------------------------------------------------------------------
  // Seen as sent
  // ---------------------------------------------------------------------------

  /** All that is checked of an answer before it is kept holds of the answer at `t`, and `t'` is no earlier. */
  ghost predicate Kept(setting: Setting, ch: Chain, doc: Document, vars: Vars, t: nat, t': nat) {
    && Faithful(setting, ch) && t <= t'
    && Classify(setting, doc, vars).Some? && Run(setting, ch, t, doc, vars).Some?
    && var read := Classify(setting, doc, vars).value;
       Recordable(read, Run(setting, ch, t, doc, vars).value) && (read.bound.Some? ==> Final(ch, t, read.bound.value))
  }

  /** Whatever faithful service answers it, an answer that may be kept is the answer for good. */
  ghost predicate SoundFor(setting: Setting, doc: Document, vars: Vars) {
    forall ch, t: nat, t': nat :: Kept(setting, ch, doc, vars, t, t') ==> Run(setting, ch, t', doc, vars) == Run(setting, ch, t, doc, vars)
  }

  /** A lookup that a later moment may answer otherwise: an object as of another's version, a package as of a checkpoint. */
  predicate Loose(kind: Kind, key: Arg) {
    match kind
    case ObjectBy => Given(Property(key, RootVersion))
    case PackageBy => Given(Property(key, AtCheckpoint))
    case _ => false
  }

  predicate NoneLoose(kind: Kind, keys: Arg) {
    keys.Items? ==> forall i :: 0 <= i < |keys.items| ==> !Loose(kind, keys.items[i])
  }

  /** With these arguments a root field looks nothing up that is loose. No field but these four ever does. */
  predicate Pinned(name: Name, args: Args) {
    match name
    case Object => !Loose(ObjectBy, Fields(args))
    case Package => !Loose(PackageBy, Fields(args))
    case MultiGetObjects => NoneLoose(ObjectBy, Get(args, Keys))
    case MultiGetPackages => NoneLoose(PackageBy, Get(args, Keys))
    case _ => true
  }

  /**
   * The classifier does not read the defaults a query declares for its
   * variables. A classified `{ name(args) { digest } }`, whatever its root
   * field, is sound for every faithful service if and only if the values it
   * runs with give no `rootVersion` to an object, and no `atCheckpoint` to a
   * package, that it looks up, alone or in a list.
   */
  lemma SoundIffPinned(setting: Setting, name: Name, args: seq<Entry>, defaults: Vars, vars: Vars)
    requires Classify(setting, DigestOf(name, args, defaults), vars).Some?
    ensures SoundFor(setting, DigestOf(name, args, defaults), vars) <==> Pinned(name, FieldsOf(args, defaults + vars))
  {
    var doc := DigestOf(name, args, defaults);
    DigestRule(setting, name, args, defaults, vars);
    if Pinned(name, FieldsOf(args, defaults + vars)) {
      forall ch, t: nat, t': nat | Kept(setting, ch, doc, vars, t, t') ensures Run(setting, ch, t', doc, vars) == Run(setting, ch, t, doc, vars) {
        PinnedSound(setting, ch, t, t', name, args, defaults, vars);
      }
    } else {
      LooseEscapes(setting, name, args, defaults, vars);
    }
  }

  /** A query of this shape that is classified has a root rule, and its scope allows the digest. */
  lemma DigestRule(setting: Setting, name: Name, args: seq<Entry>, defaults: Vars, vars: Vars)
    requires Classify(setting, DigestOf(name, args, defaults), vars).Some?
    ensures name != Typename
    ensures var rule := RootRule(setting, name, FieldsOf(args, vars)); rule.Some? && Allowed(setting, rule.value.scope, Digest)
  {
    var f := RootTree(name, args);
    if name == Typename {
      TypenameUnclassified(setting, args, defaults, vars);
    } else {
      DigestInlines(name, args, defaults);
      OneSelection(setting, vars, Root, f);
      var rule := RootRule(setting, name, FieldsOf(args, vars));
      OneSelection(setting, vars, In(rule.value.scope), DigestTree());
    }
  }

  // ----- Pinned -----

  lemma PinnedObjectsStable(setting: Setting, ch: Chain, t: nat, t': nat, seen: Args, sent: Args)
    requires Faithful(setting, ch) && t <= t' && FilledIn(Fields(seen), Fields(sent)) && Pinned(MultiGetObjects, sent)
    requires var rule := RootRule(setting, MultiGetObjects, seen); rule.Some? && (rule.value.bound.Some? ==> Final(ch, t, rule.value.bound.value))
    requires Found(RootAnswer(setting, ch, t, MultiGetObjects, sent))
    ensures Agree(ch, t, Data, RootAnswer(setting, ch, t, MultiGetObjects, sent), RootAnswer(setting, ch, t', MultiGetObjects, sent))
  {
    PropertyFilledIn(Fields(seen), Fields(sent), Keys);
    var a, b := Get(seen, Keys).items, Get(sent, Keys).items;
    forall i | 0 <= i < |b| ensures Lasting(setting, ch, t, ObjectBy, Data, b[i]) {
      PropertyStays(setting, a[i], b[i], Version);
      PropertyStays(setting, a[i], b[i], AtCheckpoint);
      assert !Loose(ObjectBy, b[i]);
      if !(forall k :: 0 <= k < |a| ==> VersionedObject(a[k])) {
        LatestCovers(setting, a, i);
      } else {
        assert VersionedObject(a[i]);
      }
    }
    PointsStable(setting, ch, t, t', ObjectBy, Data, b);
  }

  /** A range that was seen closed is closed as sent, and ends no later. */
  lemma PinnedRangeStable(setting: Setting, ch: Chain, t: nat, t': nat, log: Log, name: Name, seen: Args, sent: Args)
    requires Faithful(setting, ch) && t <= t' && FilledIn(Fields(seen), Fields(sent))
    requires var end := RangeEnd(setting, Get(seen, Filter)); end.Some? && Final(ch, t, end.value)
    ensures Agree(ch, t, Data, Logged(setting, ch, t, log, name, sent), Logged(setting, ch, t', log, name, sent))
  {
    PropertyFilledIn(Fields(seen), Fields(sent), Filter);
    var a, b := Get(seen, Filter), Get(sent, Filter);
    var end := RangeEnd(setting, a).value;
    RangeEndBounds(setting, a, 0);
    PropertyStays(setting, a, b, AtCheckpoint);
    PropertyStays(setting, a, b, AfterCheckpoint);
    forall checkpoint: nat | Within(setting, b, checkpoint) ensures checkpoint <= end {
      WithinFilledIn(setting, a, b, checkpoint);
      RangeEndBounds(setting, a, checkpoint);
    }
    LoggedStable(setting, ch, t, t', log, name, sent, end);
  }

  /** The single lookups and the lists of transactions, checkpoints and packages have a rule as sent. */
  lemma PinnedRule(setting: Setting, name: Name, seen: Args, sent: Args)
    requires FilledIn(Fields(seen), Fields(sent)) && Pinned(name, sent) && RootRule(setting, name, seen).Some?
    requires !RootRule(setting, name, seen).value.scope.Lineage? && name !in {MultiGetObjects, Events, Transactions}
    ensures RootRule(setting, name, sent) == RootRule(setting, name, seen)
         || RootRule(setting, name, sent) == Some(Rule(RootRule(setting, name, seen).value.scope, None))
  {
    PropertyStays(setting, Fields(seen), Fields(sent), Version);
    PropertyStays(setting, Fields(seen), Fields(sent), AtCheckpoint);
    PropertyStays(setting, Fields(seen), Fields(sent), SequenceNumber);
    PropertyStays(setting, Fields(seen), Fields(sent), Digest);
    PropertyFilledIn(Fields(seen), Fields(sent), Digest);
    PropertyFilledIn(Fields(seen), Fields(sent), Keys);
    if name.MultiGetPackages? {
      var a, b := Get(seen, Keys).items, Get(sent, Keys).items;
      forall i | 0 <= i < |b| ensures VersionedPackage(b[i]) {
        PropertyStays(setting, a[i], b[i], Version);
        assert VersionedPackage(a[i]) && !Loose(PackageBy, b[i]);
      }
    }
  }

  /** What was seen fixed, and is pinned as sent, is fixed as sent. */
  lemma PinnedStable(setting: Setting, ch: Chain, t: nat, t': nat, name: Name, seen: Args, sent: Args)
    requires Faithful(setting, ch) && t <= t' && FilledIn(Fields(seen), Fields(sent)) && Pinned(name, sent)
    requires var rule := RootRule(setting, name, seen);
      rule.Some? && !rule.value.scope.Lineage? && (rule.value.bound.Some? ==> Final(ch, t, rule.value.bound.value))
    requires Found(RootAnswer(setting, ch, t, name, sent))
    ensures Agree(ch, t, RootRule(setting, name, seen).value.scope, RootAnswer(setting, ch, t, name, sent), RootAnswer(setting, ch, t', name, sent))
  {
    if name == MultiGetObjects || name == Events || name == Transactions {
      PinnedListStable(setting, ch, t, t', name, seen, sent);
    } else {
      PinnedRuleStable(setting, ch, t, t', name, seen, sent);
    }
  }

  lemma PinnedListStable(setting: Setting, ch: Chain, t: nat, t': nat, name: Name, seen: Args, sent: Args)
    requires Faithful(setting, ch) && t <= t' && FilledIn(Fields(seen), Fields(sent)) && Pinned(name, sent)
    requires name in {MultiGetObjects, Events, Transactions}
    requires var rule := RootRule(setting, name, seen); rule.Some? && (rule.value.bound.Some? ==> Final(ch, t, rule.value.bound.value))
    requires Found(RootAnswer(setting, ch, t, name, sent))
    ensures RootRule(setting, name, seen).value.scope == Data
    ensures Agree(ch, t, Data, RootAnswer(setting, ch, t, name, sent), RootAnswer(setting, ch, t', name, sent))
  {
    match name {
      case MultiGetObjects => PinnedObjectsStable(setting, ch, t, t', seen, sent);
      case Events => PinnedRangeStable(setting, ch, t, t', EventLog, name, seen, sent);
      case Transactions => PinnedRangeStable(setting, ch, t, t', TransactionLog, name, seen, sent);
      case _ =>
    }
  }

  lemma PinnedRuleStable(setting: Setting, ch: Chain, t: nat, t': nat, name: Name, seen: Args, sent: Args)
    requires Faithful(setting, ch) && t <= t' && FilledIn(Fields(seen), Fields(sent)) && Pinned(name, sent)
    requires name !in {MultiGetObjects, Events, Transactions}
    requires var rule := RootRule(setting, name, seen);
      rule.Some? && !rule.value.scope.Lineage? && (rule.value.bound.Some? ==> Final(ch, t, rule.value.bound.value))
    requires Found(RootAnswer(setting, ch, t, name, sent))
    ensures Agree(ch, t, RootRule(setting, name, seen).value.scope, RootAnswer(setting, ch, t, name, sent), RootAnswer(setting, ch, t', name, sent))
  {
    PinnedRule(setting, name, seen, sent);
    RootStable(setting, ch, t, t', name, sent);
  }

  lemma PinnedSound(setting: Setting, ch: Chain, t: nat, t': nat, name: Name, args: seq<Entry>, defaults: Vars, vars: Vars)
    requires Kept(setting, ch, DigestOf(name, args, defaults), vars, t, t') && Pinned(name, FieldsOf(args, defaults + vars))
    ensures Run(setting, ch, t', DigestOf(name, args, defaults), vars) == Run(setting, ch, t, DigestOf(name, args, defaults), vars)
  {
    var doc := DigestOf(name, args, defaults);
    var w := World(setting, ch, Sent(doc, vars));
    var seen, sent := FieldsOf(args, vars), FieldsOf(args, defaults + vars);
    DigestRule(setting, name, args, defaults, vars);
    DigestClassified(setting, name, args, defaults, vars);
    DigestRuns(setting, ch, t, name, args, defaults, vars);
    DigestRuns(setting, ch, t', name, args, defaults, vars);
    var scope, v, v' := RootRule(setting, name, seen).value.scope, RootAnswer(setting, ch, t, name, sent), RootAnswer(setting, ch, t', name, sent);
    var json := Complete(w, t, v, [DigestTree()]).value;
    assert [name] in [[name]];
    OnlyMember(Member(name, json));
    PresentIsFound(w, t, v, [DigestTree()]);
    FieldsFilledIn(args, vars, defaults);
    PinnedStable(setting, ch, t, t', name, seen, sent);
    DigestPaths(setting, w.vars, scope);
    CompleteStable(w, t, t', scope, v, v', [DigestTree()]);
  }

  // ----- Loose -----

  /** Loose lookups find one object at the first moment, another from then on. */
  function LateLoose(height: nat): Chain {
    Late((kind: Kind, key: Arg) => Loose(kind, key), true, height, height, 0)
  }

  lemma LateLooseFaithful(setting: Setting, height: nat)
    ensures Faithful(setting, LateLoose(height)) && IsLate(LateLoose(height))
  {
    var late := (kind: Kind, key: Arg) => Loose(kind, key);
    assert LateLoose(height) == Late(late, true, height, height, 0);
    forall kind, key | late(kind, key) ensures Unpromised(setting, kind, key, true, height, 0) {
    }
    LateFaithful(setting, late, true, height, height, 0);
  }

  lemma LoosePoint(height: nat, kind: Kind, key: Arg)
    ensures LateLoose(height).point(0, kind, key) == Node(if Loose(kind, key) then OldOf(kind) else NewOf(kind))
    ensures LateLoose(height).point(1, kind, key) == Node(NewOf(kind))
  {
    var late := (kind: Kind, key: Arg) => Loose(kind, key);
    assert LateLoose(height) == Late(late, true, height, height, 0);
    LatePoint(late, true, height, height, 0, 0, kind, key);
    LatePoint(late, true, height, height, 0, 1, kind, key);
  }

  /** Such a service finds all it is asked for, and what is loose changes. */
  lemma LooseAnswers(setting: Setting, height: nat, name: Name, sent: Args)
    requires name in {Object, Package, MultiGetObjects, MultiGetPackages} && !Pinned(name, sent)
    ensures var v, v' := RootAnswer(setting, LateLoose(height), 0, name, sent), RootAnswer(setting, LateLoose(height), 1, name, sent);
      LookedUp(v) && Found(v) && LookedUp(v') && DigestJson(v) != DigestJson(v')
  {
    if name == Object || name == Package {
      var kind := if name == Object then ObjectBy else PackageBy;
      LoosePoint(height, kind, Fields(sent));
      TextsDiffer(kind);
    } else {
      LooseList(height, if name == MultiGetObjects then ObjectBy else PackageBy, Get(sent, Keys).items);
    }
  }

  lemma LooseList(height: nat, kind: Kind, keys: seq<Arg>)
    requires exists i :: 0 <= i < |keys| && Loose(kind, keys[i])
    ensures var v, v' := Many(Points(LateLoose(height), 0, kind, keys)), Many(Points(LateLoose(height), 1, kind, keys));
      LookedUp(v) && Found(v) && LookedUp(v') && DigestJson(v) != DigestJson(v')
  {
    var v, v' := Many(Points(LateLoose(height), 0, kind, keys)), Many(Points(LateLoose(height), 1, kind, keys));
    forall i | 0 <= i < |keys|
      ensures v.items[i] == Node(if Loose(kind, keys[i]) then OldOf(kind) else NewOf(kind)) && v'.items[i] == Node(NewOf(kind))
    {
      LoosePoint(height, kind, keys[i]);
    }
    var i :| 0 <= i < |keys| && Loose(kind, keys[i]);
    TextsDiffer(kind);
    assert DigestJson(v).items[i] != DigestJson(v').items[i];
  }

  lemma LooseRuns(setting: Setting, height: nat, name: Name, args: seq<Entry>, defaults: Vars, vars: Vars)
    requires name in {Object, Package, MultiGetObjects, MultiGetPackages} && !Pinned(name, FieldsOf(args, defaults + vars))
    ensures var ch, doc := LateLoose(height), DigestOf(name, args, defaults);
      Run(setting, ch, 0, doc, vars).Some? && Present(Run(setting, ch, 0, doc, vars).value, [name]) && Run(setting, ch, 1, doc, vars) != Run(setting, ch, 0, doc, vars)
  {
    var ch, sent := LateLoose(height), FieldsOf(args, defaults + vars);
    var v, v' := RootAnswer(setting, ch, 0, name, sent), RootAnswer(setting, ch, 1, name, sent);
    LateLooseFaithful(setting, height);
    LooseAnswers(setting, height, name, sent);
    DigestAnswered(setting, ch, 0, name, args, defaults, vars);
    DigestAnswered(setting, ch, 1, name, args, defaults, vars);
    DigestPresent(name, v);
    assert DigestAnswer(name, v).members[0] != DigestAnswer(name, v').members[0];
  }

  lemma LooseEscapes(setting: Setting, name: Name, args: seq<Entry>, defaults: Vars, vars: Vars)
    requires Classify(setting, DigestOf(name, args, defaults), vars).Some? && !Pinned(name, FieldsOf(args, defaults + vars))
    ensures !SoundFor(setting, DigestOf(name, args, defaults), vars)
  {
    var doc := DigestOf(name, args, defaults);
    DigestRule(setting, name, args, defaults, vars);
    DigestClassified(setting, name, args, defaults, vars);
    var bound := Classify(setting, doc, vars).value.bound;
    var height := if bound.Some? then bound.value else 0;
    LateLooseFaithful(setting, height);
    LooseRuns(setting, height, name, args, defaults, vars);
    ChangedIsNotSound(setting, LateLoose(height), doc, vars, name, bound);
  }

  /** A faithful service whose recordable answer, its bound final, changes after the first moment. */
  lemma ChangedIsNotSound(setting: Setting, ch: Chain, doc: Document, vars: Vars, name: Name, bound: Option<nat>)
    requires Faithful(setting, ch) && Classify(setting, doc, vars) == Some(ReplayClassifier.Read([[name]], bound))
    requires bound.Some? ==> Final(ch, 0, bound.value)
    requires Run(setting, ch, 0, doc, vars).Some? && Present(Run(setting, ch, 0, doc, vars).value, [name])
    requires Run(setting, ch, 1, doc, vars) != Run(setting, ch, 0, doc, vars)
    ensures !SoundFor(setting, doc, vars)
  {
    assert Kept(setting, ch, doc, vars, 0, 1);
  }

  /** `address: "0x2a", atCheckpoint: 0, rootVersion: $v`. */
  const OBJECT_ARGS := [Entry(Address, TextValue("0x2a")), Entry(AtCheckpoint, NumberValue(0.0)), Entry(RootVersion, Variable("v"))]

  /** `address: "0x2", version: 1, atCheckpoint: $v`. */
  const PACKAGE_ARGS := [Entry(Address, TextValue("0x2")), Entry(Version, NumberValue(1.0)), Entry(AtCheckpoint, Variable("v"))]

  lemma CheckpointRule(setting: Setting, args: Args)
    requires Get(args, RootVersion) == Undefined && Get(args, Version) == Undefined && Get(args, AtCheckpoint) == Number(0.0)
    ensures RootRule(setting, Object, args) == Some(Rule(Data, Some(0)))
  {
    assert (0.0).Floor == 0;
  }

  lemma VersionRule(setting: Setting, args: Args)
    requires Get(args, AtCheckpoint) == Undefined && Get(args, Version) == Number(1.0)
    ensures RootRule(setting, Package, args) == Some(Rule(Code, None))
  {
  }

  lemma ObjectSeen(setting: Setting, vars: Vars)
    requires "v" !in vars
    ensures RootRule(setting, Object, FieldsOf(OBJECT_ARGS, vars)) == Some(Rule(Data, Some(0)))
  {
    ThreeArgs(Address, TextValue("0x2a"), AtCheckpoint, NumberValue(0.0), RootVersion, Variable("v"), vars);
    CheckpointRule(setting, FieldsOf(OBJECT_ARGS, vars));
  }

  lemma ObjectSent(vars: Vars)
    requires "v" in vars && Given(vars["v"])
    ensures !Pinned(Object, FieldsOf(OBJECT_ARGS, vars))
  {
    ThreeArgs(Address, TextValue("0x2a"), AtCheckpoint, NumberValue(0.0), RootVersion, Variable("v"), vars);
  }

  lemma PackageSeen(setting: Setting, vars: Vars)
    requires "v" !in vars
    ensures RootRule(setting, Package, FieldsOf(PACKAGE_ARGS, vars)) == Some(Rule(Code, None))
  {
    ThreeArgs(Address, TextValue("0x2"), Version, NumberValue(1.0), AtCheckpoint, Variable("v"), vars);
    VersionRule(setting, FieldsOf(PACKAGE_ARGS, vars));
  }

  lemma PackageSent(vars: Vars)
    requires "v" in vars && Given(vars["v"])
    ensures !Pinned(Package, FieldsOf(PACKAGE_ARGS, vars))
  {
    ThreeArgs(Address, TextValue("0x2"), Version, NumberValue(1.0), AtCheckpoint, Variable("v"), vars);
  }

  /**
   * With a default for `v` that is not given, `object(address: "0x2a", atCheckpoint: 0, rootVersion: $v)` and
   * `package(address: "0x2", version: 1, atCheckpoint: $v)`, asked for a digest, are classified and are not sound.
   */
  lemma DefaultsEscape(setting: Setting, defaults: Vars, vars: Vars)
    requires Digest in setting.dataFields && "v" in defaults && Given(defaults["v"]) && "v" !in vars
    ensures var doc := DigestOf(Object, OBJECT_ARGS, defaults);
      Classify(setting, doc, vars) == Some(ReplayClassifier.Read([[Object]], Some(0))) && !SoundFor(setting, doc, vars)
    ensures var doc := DigestOf(Package, PACKAGE_ARGS, defaults);
      Classify(setting, doc, vars) == Some(ReplayClassifier.Read([[Package]], None)) && !SoundFor(setting, doc, vars)
  {
    ObjectSeen(setting, vars);
    ObjectSent(defaults + vars);
    DigestClassified(setting, Object, OBJECT_ARGS, defaults, vars);
    SoundIffPinned(setting, Object, OBJECT_ARGS, defaults, vars);
    PackageSeen(setting, vars);
    PackageSent(defaults + vars);
    DigestClassified(setting, Package, PACKAGE_ARGS, defaults, vars);
    SoundIffPinned(setting, Package, PACKAGE_ARGS, defaults, vars);
  }
}
