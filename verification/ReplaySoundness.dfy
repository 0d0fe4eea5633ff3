/** Noninterference of classified queries. */
module ReplaySoundness {
  import opened GraphqlQuery
  import opened ReplayClassifier
  import opened ReplayDefaults
  import opened ReplayRules
  import opened GraphqlExecution
  import opened ReplayStability

  /** The classifier, which sees only the values given, would also accept the query with the values it runs with, defaults included. */
  predicate ClassifiedAsSent(setting: Setting, doc: Document, vars: Vars) {
    Classify(setting, doc, Sent(doc, vars)).Some?
  }

  /** The data of an answer without errors is complete enough to keep. */
  ghost predicate Recordable(read: Read, data: Json) {
    AllPresent(data, read.required)
  }

  /**
   * Classified on the values it runs with, defaults included, a query whose
   * answer at moment `t` is recordable, and whose bound is final at `t`, is
   * answered with exactly that data at every later moment.
   */
  lemma SoundAsSent(setting: Setting, ch: Chain, doc: Document, vars: Vars, t: nat, t': nat)
    requires Faithful(setting, ch) && t <= t'
    requires Classify(setting, doc, Sent(doc, vars)).Some? && Run(setting, ch, t, doc, vars).Some?
    requires Recordable(Classify(setting, doc, Sent(doc, vars)).value, Run(setting, ch, t, doc, vars).value)
    requires var bound := Classify(setting, doc, Sent(doc, vars)).value.bound; bound.Some? ==> Final(ch, t, bound.value)
    ensures Run(setting, ch, t', doc, vars) == Run(setting, ch, t, doc, vars)
  {
    var ts := InlineDocument(doc).value;
    var bounds := Bounds(setting, Sent(doc, vars), ts);
    forall b | b in bounds ensures Final(ch, t, b) {
      GreatestCovers(bounds, b);
    }
    SetStable(World(setting, ch, Sent(doc, vars)), t, t', Root, QueryRoot, QueryRoot, ts);
  }

  /** Accepted both ways, the verdict asks for the same paths, and as sent the query depends on nothing later than was seen. */
  lemma VerdictAsSent(setting: Setting, doc: Document, vars: Vars)
    requires Classify(setting, doc, vars).Some? && ClassifiedAsSent(setting, doc, vars)
    ensures var seen, sent := Classify(setting, doc, vars).value, Classify(setting, doc, Sent(doc, vars)).value;
      && sent.required == seen.required
      && (sent.bound.Some? ==> seen.bound.Some? && sent.bound.value <= seen.bound.value)
  {
    var ts := InlineDocument(doc).value;
    PathsAsSent(setting, vars, doc.defaults, Root, Root, ts);
    var bounds := Bounds(setting, Sent(doc, vars), ts);
    if bounds != [] {
      GreatestIsOne(bounds);
      var a := BoundsAsSent(setting, vars, doc.defaults, ts, Greatest(bounds).value);
      GreatestCovers(Bounds(setting, vars, ts), a);
    }
  }

  lemma {:induction false} GreatestIsOne(bounds: seq<nat>)
    requires bounds != []
    ensures Greatest(bounds).Some? && Greatest(bounds).value in bounds
  {
    if bounds[1..] != [] {
      GreatestIsOne(bounds[1..]);
    }
  }

  /**
   * Classified on the values given, and acceptable with those it runs with, a
   * query is sound by the verdict on the values given: its paths say what must
   * be there to be recorded, and its bound what must be final.
   */
  lemma ReplaySound(setting: Setting, ch: Chain, doc: Document, vars: Vars, t: nat, t': nat)
    requires Faithful(setting, ch) && t <= t' && ClassifiedAsSent(setting, doc, vars)
    requires Classify(setting, doc, vars).Some? && Run(setting, ch, t, doc, vars).Some?
    requires Recordable(Classify(setting, doc, vars).value, Run(setting, ch, t, doc, vars).value)
    requires var bound := Classify(setting, doc, vars).value.bound; bound.Some? ==> Final(ch, t, bound.value)
    ensures Run(setting, ch, t', doc, vars) == Run(setting, ch, t, doc, vars)
  {
    VerdictAsSent(setting, doc, vars);
    SoundAsSent(setting, ch, doc, vars, t, t');
  }

  /** With a value for every variable that has a default, the verdict is on the values the query runs with. */
  lemma SuppliedIsSent(setting: Setting, doc: Document, vars: Vars)
    requires doc.defaults.Keys <= vars.Keys
    ensures ClassifiedAsSent(setting, doc, vars) <==> Classify(setting, doc, vars).Some?
  {
    assert Sent(doc, vars) == vars;
  }
}
