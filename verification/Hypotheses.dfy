/** Restricted metric hypotheses, and how untrusted model output becomes one. */
module Hypotheses {
  import opened Prelude
  import opened Text
  import opened Domain

  datatype Semantics = Descriptive | Causal
  datatype Composition = All | Any
  datatype Direction = Increase | Decrease

  datatype MetricPredicate = MetricPredicate(id: string, key: string, expected: Direction)

  const MAX_PREDICATES := 32

  datatype Hypothesis = Hypothesis(
    id: string,
    context: Context,
    semantics: Semantics,
    composition: Composition,
    predicates: seq<MetricPredicate>)
  {
    predicate Valid() {
      && NonBlank(id) && context.Valid()
      && 1 <= |predicates| <= MAX_PREDICATES
      && (forall i :: 0 <= i < |predicates| ==> NonBlank(predicates[i].id) && NonBlank(predicates[i].key))
      && (forall i, j :: 0 <= i < j < |predicates|
            ==> predicates[i].id != predicates[j].id && predicates[i].key != predicates[j].key)
    }
  }

  function ValidateDocument(h: Hypothesis): Result<Hypothesis, DomainError> {
    if h.Valid() then Success(Hypothesis(h.id, h.context, h.semantics, h.composition, h.predicates))
    else Failure(InvalidHypothesis)
  }

  function PredicateIds(ps: seq<MetricPredicate>): seq<string> {
    seq(|ps|, i requires 0 <= i < |ps| => ps[i].id)
  }

  function PredicateKeys(ps: seq<MetricPredicate>): seq<string> {
    seq(|ps|, i requires 0 <= i < |ps| => ps[i].key)
  }

  /**
   * A document is accepted as it is, if and only if its texts are not blank, it has between 1 and 32 predicates, and
   * as many different identifiers and as many different signals as predicates.
   */
  lemma DocumentAcceptedIff(h: Hypothesis)
    ensures var ids, keys := PredicateIds(h.predicates), PredicateKeys(h.predicates);
            ValidateDocument(h) == Success(h) <==>
              && NonBlank(h.id) && NonBlank(h.context.tenant) && NonBlank(h.context.incident) && NonBlank(h.context.run)
              && (forall text :: text in ids || text in keys ==> NonBlank(text))
              && 1 <= |h.predicates| <= 32
              && |set id | id in ids| == |h.predicates| && |set key | key in keys| == |h.predicates|
  {
    hide NonBlank;
    var ids, keys := PredicateIds(h.predicates), PredicateKeys(h.predicates);
    DistinctIffCounted(ids);
    DistinctIffCounted(keys);
    assert forall i :: 0 <= i < |h.predicates| ==> ids[i] == h.predicates[i].id && keys[i] == h.predicates[i].key;
    assert h.Valid() <==> (&& NonBlank(h.id) && h.context.Valid() && 1 <= |h.predicates| <= 32
                           && (forall i :: 0 <= i < |ids| ==> NonBlank(ids[i]) && NonBlank(keys[i]))
                           && Distinct(ids) && Distinct(keys));
  }

  // ----- parsing untrusted proposals -----

  datatype Json =
    | JNull
    | JBool(b: bool)
    | JNumber(n: real)
    | JString(s: string)
    | JArray(items: seq<Json>)
    | JObject(fields: map<string, Json>)

  /**
   * A proposal after the size, blankness and JSON-syntax gates. The decoder may also raise an error that is
   * no syntax error and that no gate catches, as it does on an integer literal with too many digits.
   */
  datatype Proposal = TooLarge | Empty | Malformed | Undecodable | Decoded(json: Json)

  datatype ProposalError =
    | ProposalTooLarge
    | EmptyProposal
    | MalformedProposal
    | ProposalSchema
    | TooManyPredicates
    | UnauthorizedEntity
    | DecoderRaised

  function StringField(fields: map<string, Json>, name: string): Option<string> {
    if name in fields && fields[name].JString? then Some(fields[name].s) else None
  }

  function DirectionOf(text: string): Option<Direction> {
    if text == "increase" then Some(Increase) else if text == "decrease" then Some(Decrease) else None
  }

  function SemanticsOf(text: string): Option<Semantics> {
    if text == "descriptive" then Some(Descriptive) else if text == "causal" then Some(Causal) else None
  }

  function CompositionOf(text: string): Option<Composition> {
    if text == "all" then Some(All) else if text == "any" then Some(Any) else None
  }

  function BuildPredicate(item: Json): Option<MetricPredicate> {
    if !item.JObject? then None
    else
      var id :- StringField(item.fields, "predicate_id");
      var key :- StringField(item.fields, "signal_key");
      var text :- StringField(item.fields, "expected_direction");
      var direction :- DirectionOf(text);
      Some(MetricPredicate(id, key, direction))
  }

  function BuildPredicates(items: seq<Json>): (r: Option<seq<MetricPredicate>>)
    ensures r.Some? ==> |r.value| == |items|
  {
    if items == [] then Some([])
    else
      var first :- BuildPredicate(items[0]);
      var rest :- BuildPredicates(items[1..]);
      Some([first] + rest)
  }

  function BuildDocument(fields: map<string, Json>, predicates: seq<MetricPredicate>): Option<Hypothesis> {
    var id :- StringField(fields, "hypothesis_id");
    var tenant :- StringField(fields, "tenant_id");
    var incident :- StringField(fields, "incident_id");
    var run :- StringField(fields, "run_id");
    var semanticsText :- StringField(fields, "semantics");
    var semantics :- SemanticsOf(semanticsText);
    var compositionText :- StringField(fields, "composition");
    var composition :- CompositionOf(compositionText);
    var h := Hypothesis(id, Context(tenant, incident, run), semantics, composition, predicates);
    if ValidateDocument(h).Success? then Some(h) else None
  }

  function ParseProposal(raw: Proposal, allowed: set<string>): Result<Hypothesis, ProposalError> {
    match raw
    case TooLarge => Failure(ProposalTooLarge)
    case Empty => Failure(EmptyProposal)
    case Malformed => Failure(MalformedProposal)
    case Undecodable => Failure(DecoderRaised)
    case Decoded(json) =>
      if !json.JObject? || "predicates" !in json.fields || !json.fields["predicates"].JArray? then
        Failure(ProposalSchema)
      else
        var items := json.fields["predicates"].items;
        if |items| > MAX_PREDICATES then Failure(TooManyPredicates)
        else
          match BuildPredicates(items)
          case None => Failure(ProposalSchema)
          case Some(predicates) =>
            match BuildDocument(json.fields, predicates)
            case None => Failure(ProposalSchema)
            case Some(h) =>
              if forall i :: 0 <= i < |h.predicates| ==> h.predicates[i].key in allowed then Success(h)
              else Failure(UnauthorizedEntity)
  }

  lemma OnlyDecoderRaises(raw: Proposal, allowed: set<string>)
    ensures ParseProposal(raw, allowed) == Failure(DecoderRaised) <==> raw.Undecodable?
  {
    hide BuildPredicates, BuildDocument;
  }

  /** Whatever the model wrote, an accepted proposal is a valid document over allowed signals only. */
  lemma ParsedProposalIsSafe(raw: Proposal, allowed: set<string>)
    ensures ParseProposal(raw, allowed).Success? ==>
      var h := ParseProposal(raw, allowed).value;
      h.Valid() && forall i :: 0 <= i < |h.predicates| ==> h.predicates[i].key in allowed
  {
  }

  // ----- every valid document over allowed signals can be proposed -----

  function DirectionText(d: Direction): string {
    if d.Increase? then "increase" else "decrease"
  }

  function PredicateJson(p: MetricPredicate): Json {
    JObject(map["predicate_id" := JString(p.id), "signal_key" := JString(p.key),
                "expected_direction" := JString(DirectionText(p.expected))])
  }

  function PredicatesJson(ps: seq<MetricPredicate>): (r: seq<Json>)
    ensures |r| == |ps|
  {
    if ps == [] then [] else [PredicateJson(ps[0])] + PredicatesJson(ps[1..])
  }

  function DocumentJson(h: Hypothesis): Json {
    JObject(map["hypothesis_id" := JString(h.id),
                "tenant_id" := JString(h.context.tenant),
                "incident_id" := JString(h.context.incident),
                "run_id" := JString(h.context.run),
                "semantics" := JString(if h.semantics.Causal? then "causal" else "descriptive"),
                "composition" := JString(if h.composition.All? then "all" else "any"),
                "predicates" := JArray(PredicatesJson(h.predicates))])
  }

  lemma {:induction false} PredicatesRoundTrip(ps: seq<MetricPredicate>)
    ensures BuildPredicates(PredicatesJson(ps)) == Some(ps)
  {
    hide BuildPredicate, PredicateJson;
    if ps != [] {
      PredicateRoundTrip(ps[0]);
      PredicatesRoundTrip(ps[1..]);
      assert PredicatesJson(ps)[1..] == PredicatesJson(ps[1..]);
      assert ps == [ps[0]] + ps[1..];
    }
  }

  lemma PredicateRoundTrip(p: MetricPredicate)
    ensures BuildPredicate(PredicateJson(p)) == Some(p)
  {
    assert "predicate_id"[0] != "signal_key"[0] && "signal_key"[0] != "expected_direction"[0];
    assert "predicate_id"[0] != "expected_direction"[0];
    assert "increase" != "decrease" by { assert "increase"[0] != "decrease"[0]; }
  }

  /** Parsing inverts writing: the gates lose no legitimate hypothesis and change none. */
  lemma ProposalRoundTrip(h: Hypothesis, allowed: set<string>)
    requires h.Valid() && forall i :: 0 <= i < |h.predicates| ==> h.predicates[i].key in allowed
    ensures ParseProposal(Decoded(DocumentJson(h)), allowed) == Success(h)
  {
    hide BuildPredicates, PredicatesJson, BuildDocument, DocumentJson;
    PredicatesRoundTrip(h.predicates);
    DocumentRoundTrip(h);
  }

  lemma DocumentRoundTrip(h: Hypothesis)
    requires h.Valid()
    ensures var json := DocumentJson(h);
            && json.JObject? && "predicates" in json.fields
            && json.fields["predicates"] == JArray(PredicatesJson(h.predicates))
            && BuildDocument(json.fields, h.predicates) == Some(h)
  {
    hide PredicatesJson, NonBlank;
    FieldNamesDiffer();
  }

  lemma FieldNamesDiffer()
    ensures Distinct(["hypothesis_id", "tenant_id", "incident_id", "run_id", "semantics", "composition", "predicates"])
    ensures "all" != "any" && "causal" != "descriptive"
  {
    assert "hypothesis_id"[0] == 'h' && "tenant_id"[0] == 't' && "incident_id"[0] == 'i' && "run_id"[0] == 'r';
    assert "semantics"[0] == 's' && "composition"[0] == 'c' && "predicates"[0] == 'p';
    assert "all"[1] != "any"[1] && "causal"[0] != "descriptive"[0];
  }

  // ----- exactly what parses -----

  /** The text is under that name. */
  predicate HoldsText(fields: map<string, Json>, name: string, text: string) {
    name in fields && fields[name] == JString(text)
  }

  predicate WrittenPredicate(item: Json, p: MetricPredicate) {
    && item.JObject? && HoldsText(item.fields, "predicate_id", p.id) && HoldsText(item.fields, "signal_key", p.key)
    && HoldsText(item.fields, "expected_direction", if p.expected == Increase then "increase" else "decrease")
  }

  /** The object writes down exactly this document; further fields do not matter. */
  ghost predicate Written(json: Json, h: Hypothesis) {
    && json.JObject? && HoldsText(json.fields, "hypothesis_id", h.id)
    && HoldsText(json.fields, "tenant_id", h.context.tenant)
    && HoldsText(json.fields, "incident_id", h.context.incident) && HoldsText(json.fields, "run_id", h.context.run)
    && HoldsText(json.fields, "semantics", if h.semantics == Descriptive then "descriptive" else "causal")
    && HoldsText(json.fields, "composition", if h.composition == All then "all" else "any")
    && "predicates" in json.fields && json.fields["predicates"].JArray?
    && |json.fields["predicates"].items| == |h.predicates|
    && forall i :: 0 <= i < |h.predicates| ==> WrittenPredicate(json.fields["predicates"].items[i], h.predicates[i])
  }

  lemma BuiltPredicateIsWritten(item: Json, p: MetricPredicate)
    ensures BuildPredicate(item) == Some(p) <==> WrittenPredicate(item, p)
  {
    assert "increase" != "decrease" by { assert "increase"[0] != "decrease"[0]; }
  }

  lemma {:induction false} BuiltPredicatesAreWritten(items: seq<Json>, ps: seq<MetricPredicate>)
    ensures BuildPredicates(items) == Some(ps)
      <==> |items| == |ps| && forall i :: 0 <= i < |ps| ==> WrittenPredicate(items[i], ps[i])
  {
    hide BuildPredicate, WrittenPredicate;
    if items != [] && ps != [] {
      BuiltPredicateIsWritten(items[0], ps[0]);
      BuiltPredicatesAreWritten(items[1..], ps[1..]);
      assert ps == [ps[0]] + ps[1..];
      if |items| == |ps| && BuildPredicates(items[1..]) == Some(ps[1..]) {
        assert forall i :: 1 <= i < |ps| ==> items[i] == items[1..][i - 1] && ps[i] == ps[1..][i - 1];
      }
      if |items| == |ps| && forall i :: 0 <= i < |ps| ==> WrittenPredicate(items[i], ps[i]) {
        assert forall i :: 0 <= i < |ps| - 1 ==> items[1..][i] == items[i + 1] && ps[1..][i] == ps[i + 1];
      }
    }
  }

  lemma BuiltDocumentIsWritten(fields: map<string, Json>, ps: seq<MetricPredicate>, h: Hypothesis)
    ensures BuildDocument(fields, ps) == Some(h)
      <==> && h.predicates == ps && h.Valid() && HoldsText(fields, "hypothesis_id", h.id)
           && HoldsText(fields, "tenant_id", h.context.tenant) && HoldsText(fields, "incident_id", h.context.incident)
           && HoldsText(fields, "run_id", h.context.run)
           && HoldsText(fields, "semantics", if h.semantics == Descriptive then "descriptive" else "causal")
           && HoldsText(fields, "composition", if h.composition == All then "all" else "any")
  {
    hide Hypothesis.Valid;
    FieldNamesDiffer();
  }

  /**
   * A decoded proposal is accepted as a document exactly when it writes that document down, word for word, and the
   * document is valid and about allowed signals only.
   */
  lemma ProposalParsesIff(json: Json, allowed: set<string>, h: Hypothesis)
    ensures ParseProposal(Decoded(json), allowed) == Success(h)
      <==> Written(json, h) && h.Valid() && forall i :: 0 <= i < |h.predicates| ==> h.predicates[i].key in allowed
  {
    hide BuildPredicates, BuildDocument, Hypothesis.Valid, WrittenPredicate;
    if json.JObject? && "predicates" in json.fields && json.fields["predicates"].JArray? {
      var items := json.fields["predicates"].items;
      BuiltPredicatesAreWritten(items, h.predicates);
      BuiltDocumentIsWritten(json.fields, h.predicates, h);
      if h.Valid() {
        ValidIsBounded(h);
      }
      if BuildPredicates(items).Some? {
        BuiltDocumentIsWritten(json.fields, BuildPredicates(items).value, h);
      }
    }
  }

  lemma ValidIsBounded(h: Hypothesis)
    requires h.Valid()
    ensures 1 <= |h.predicates| <= MAX_PREDICATES
  {
  }

  /**
   * Why a decoded proposal is rejected: too many predicates in an array; a valid document about some signal that is not
   * allowed; and anything else, such as any word but the known ones, is a schema error.
   */
  lemma ProposalErrors(json: Json, allowed: set<string>)
    ensures var r := ParseProposal(Decoded(json), allowed);
            var many := json.JObject? && "predicates" in json.fields && json.fields["predicates"].JArray?
                        && |json.fields["predicates"].items| > MAX_PREDICATES;
            && (r == Failure(TooManyPredicates) <==> many)
            && (r == Failure(UnauthorizedEntity) <==>
                  exists h :: Written(json, h) && h.Valid() && exists i :: 0 <= i < |h.predicates|
                                                                      && h.predicates[i].key !in allowed)
            && (r == Failure(ProposalSchema) <==> !many && forall h :: Written(json, h) ==> !h.Valid())
  {
    hide BuildPredicates, BuildDocument, Hypothesis.Valid, Written;
    forall h | Written(json, h) && h.Valid()
      ensures ParseProposal(Decoded(json), set i | 0 <= i < |h.predicates| :: h.predicates[i].key) == Success(h)
    {
      ProposalParsesIff(json, set i | 0 <= i < |h.predicates| :: h.predicates[i].key, h);
    }
    if json.JObject? && "predicates" in json.fields && json.fields["predicates"].JArray? {
      var ps := BuildPredicates(json.fields["predicates"].items);
      if ps.Some? && BuildDocument(json.fields, ps.value).Some? {
        var h := BuildDocument(json.fields, ps.value).value;
        BuiltDocumentIsWritten(json.fields, ps.value, h);
        var own := set i | 0 <= i < |h.predicates| :: h.predicates[i].key;
        if |json.fields["predicates"].items| <= MAX_PREDICATES {
          ProposalParsesIff(json, own, h);
        }
      }
    }
  }
}
