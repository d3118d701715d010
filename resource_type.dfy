/**
 * The resource-type settings of cdf/collections/url_properties/resource_type.py:
 * validation of a settings dictionary (hosts to rules), the exception that
 * carries the errors found, and compilation of valid settings into rules with
 * host-prefixed queries.
 *
 * A Python dictionary is a sequence of key/value pairs in iteration order; a
 * lookup takes the first pair with the key. The BQL helpers
 * `validate_query_grammar` and `query_to_python` are function parameters.
 */
module ResourceType {
  import opened Wrappers
  import opened Text

  /** A rule field's value: rules hold strings, and `abstract` holds a boolean. */
  datatype Value = Str(s: string) | Bool(b: bool)

  type Rule = seq<(string, Value)>
  type Settings = seq<(string, seq<Rule>)>

  /** `validate_query_grammar`: whether the query is valid BQL, and the message when it is not. */
  type Grammar = Value -> (bool, string)

  const AllowedFields: seq<string> := ["query", "value", "abstract", "rule_id", "inherits_from"]
  const MandatoryFields: seq<string> := ["query", "value"]

  /** The value of `field` in the rule, or None when the rule lacks it. */
  function Lookup(rule: Rule, field: string): Option<Value>
  {
    if rule == [] then None
    else if rule[0].0 == field then Some(rule[0].1)
    else Lookup(rule[1..], field)
  }

  /** A lookup succeeds exactly when some pair has the key, and then gives the first such pair's value. */
  lemma {:induction false} LookupFinds(rule: Rule, field: string)
    ensures Lookup(rule, field).Some? <==> exists k :: 0 <= k < |rule| && rule[k].0 == field
    ensures Lookup(rule, field).Some? ==>
              exists k :: 0 <= k < |rule| && rule[k] == (field, Lookup(rule, field).value)
                          && forall j :: 0 <= j < k ==> rule[j].0 != field
  {
    if rule != [] && rule[0].0 != field {
      LookupFinds(rule[1..], field);
      var r := Lookup(rule[1..], field);
      if r.Some? {
        var k :| 0 <= k < |rule[1..]| && rule[1..][k] == (field, r.value)
                 && forall j :: 0 <= j < k ==> rule[1..][j].0 != field;
        assert rule[k + 1] == (field, r.value);
        forall j | 0 <= j < k + 1 ensures rule[j].0 != field {
          if j > 0 {
            assert rule[j] == rule[1..][j - 1];
          }
        }
      }
      if exists k :: 0 <= k < |rule| && rule[k].0 == field {
        var k :| 0 <= k < |rule| && rule[k].0 == field;
        assert rule[1..][k - 1].0 == field;
      }
    } else if rule != [] {
      assert rule[0] == (field, Lookup(rule, field).value);
    }
  }

  /** Whether the rule has the key `field`. */
  predicate HasField(rule: Rule, field: string)
  {
    Lookup(rule, field).Some?
  }

  // ---------------------------------------------------------------------------
  // Errors and their messages

  datatype HostError =
    | MisplacedWildcard(host: string)   // `*` after the first character
    | WildcardWithoutDot(host: string)  // a leading `*` not followed by `.`

  datatype QueryError = BadQuery(host: string, index: nat, message: string)

  datatype FieldError =
    | UnknownField(field: string, host: string, index: nat)
    | MissingField(field: string, host: string, index: nat)

  function HostMessage(e: HostError): string
  {
    match e
    case MisplacedWildcard(host) => "Host " + host + " should contains wildcard only at the beginning"
    case WildcardWithoutDot(host) => "Wildcard at " + host + " should be directly followed by a dot"
  }

  function QueryMessage(e: QueryError): string
  {
    "Error in query, host " + e.host + " rule " + IntToString(e.index) + " : " + e.message
  }

  function FieldMessage(e: FieldError): string
  {
    match e
    case UnknownField(f, host, i) => "`" + f + "` is not a valid field in host " + host + " rule " + IntToString(i)
    case MissingField(f, host, i) => "`" + f + "` is mandatory in host " + host + " rule " + IntToString(i)
  }

  function HostMessages(es: seq<HostError>): (r: seq<string>)
    ensures |r| == |es| && forall i :: 0 <= i < |es| ==> r[i] == HostMessage(es[i])
  {
    if es == [] then [] else [HostMessage(es[0])] + HostMessages(es[1..])
  }

  function QueryMessages(es: seq<QueryError>): (r: seq<string>)
    ensures |r| == |es| && forall i :: 0 <= i < |es| ==> r[i] == QueryMessage(es[i])
  {
    if es == [] then [] else [QueryMessage(es[0])] + QueryMessages(es[1..])
  }

  function FieldMessages(es: seq<FieldError>): (r: seq<string>)
    ensures |r| == |es| && forall i :: 0 <= i < |es| ==> r[i] == FieldMessage(es[i])
  {
    if es == [] then [] else [FieldMessage(es[0])] + FieldMessages(es[1..])
  }

  /** `ResourceTypeSettingsException`: the three error lists. */
  datatype SettingsException = SettingsException(host: seq<HostError>, query: seq<QueryError>, field: seq<FieldError>)

  /** The `host_errors` property. */
  function HostErrors(x: SettingsException): seq<string>
  {
    HostMessages(x.host)
  }

  /** The `query_errors` property. */
  function QueryErrors(x: SettingsException): seq<string>
  {
    QueryMessages(x.query)
  }

  /** The `field_errors` property. */
  function FieldErrors(x: SettingsException): seq<string>
  {
    FieldMessages(x.field)
  }

  /** The `errors` property: the three lists chained, host errors first, then query, then field errors. */
  function Errors(x: SettingsException): seq<string>
  {
    HostErrors(x) + QueryErrors(x) + FieldErrors(x)
  }

  /**
   * `errors` holds every message of the three category lists, each exactly
   * once and in its list's order, so it is empty exactly when all three are.
   */
  lemma ErrorsChained(x: SettingsException)
    ensures var all := Errors(x);
            && |all| == |x.host| + |x.query| + |x.field|
            && (forall i :: 0 <= i < |x.host| ==> all[i] == HostMessage(x.host[i]))
            && (forall i :: 0 <= i < |x.query| ==> all[|x.host| + i] == QueryMessage(x.query[i]))
            && (forall i :: 0 <= i < |x.field| ==> all[|x.host| + |x.query| + i] == FieldMessage(x.field[i]))
            && (all == [] <==> x.host == [] && x.query == [] && x.field == [])
  {
    var h, q, f := HostMessages(x.host), QueryMessages(x.query), FieldMessages(x.field);
    assert Errors(x) == h + q + f;
    ChainedAt(h, q, f);
    forall i | 0 <= i < |x.host| ensures Errors(x)[i] == HostMessage(x.host[i]) {
      assert Errors(x)[i] == h[i];
    }
    forall i | 0 <= i < |x.query| ensures Errors(x)[|x.host| + i] == QueryMessage(x.query[i]) {
      assert Errors(x)[|h| + i] == q[i];
    }
    forall i | 0 <= i < |x.field| ensures Errors(x)[|x.host| + |x.query| + i] == FieldMessage(x.field[i]) {
      assert Errors(x)[|h| + |q| + i] == f[i];
    }
  }

  /** Where each part of a three-way concatenation lands. */
  lemma ChainedAt(h: seq<string>, q: seq<string>, f: seq<string>)
    ensures var all := h + q + f;
            && |all| == |h| + |q| + |f|
            && (forall i :: 0 <= i < |h| ==> all[i] == h[i])
            && (forall i :: 0 <= i < |q| ==> all[|h| + i] == q[i])
            && (forall i :: 0 <= i < |f| ==> all[|h| + |q| + i] == f[i])
  {
  }

  // ---------------------------------------------------------------------------
  // What `validate_resource_type_settings` checks

  /**
   * `re.search('^(.+)\*', host)`: one or more characters from the start, none
   * of them a newline (`.` does not match one), then a `*`.
   */
  predicate MisplacedStar(host: string)
  {
    exists i :: 1 <= i < |host| && host[i] == '*' && '\n' !in host[..i]
  }

  /** The host check, lines 85-88: at most one error per host. */
  function HostErrorOf(host: string): Option<HostError>
  {
    if MisplacedStar(host) then Some(MisplacedWildcard(host))
    else if StartsWith(host, "*") && !StartsWith(host, "*.") then Some(WildcardWithoutDot(host))
    else None
  }

  /**
   * A host on one line passes the check exactly when its only `*` can be a
   * leading one, and then directly followed by a dot.
   */
  lemma HostAccepted(host: string)
    requires '\n' !in host
    ensures HostErrorOf(host) == None <==>
              && (forall i :: 1 <= i < |host| ==> host[i] != '*')
              && (|host| > 0 && host[0] == '*' ==> |host| > 1 && host[1] == '.')
  {
    if exists i :: 1 <= i < |host| && host[i] == '*' {
      var i :| 1 <= i < |host| && host[i] == '*';
      assert '\n' !in host[..i] by {
        forall c | c in host[..i] ensures c != '\n' {
          assert c in host;
        }
      }
    }
  }

  /** The field-name check, lines 92-94: one error per key outside the allowed fields, in key order. */
  function UnknownFieldErrors(host: string, index: nat, keys: Rule): seq<FieldError>
  {
    if keys == [] then []
    else
      var last := keys[|keys| - 1].0;
      UnknownFieldErrors(host, index, keys[..|keys| - 1])
      + if last in AllowedFields then [] else [UnknownField(last, host, index)]
  }

  /** The mandatory-field check, lines 97-99, over `fields` in order. */
  function MissingFieldErrors(host: string, index: nat, rule: Rule, fields: seq<string>): seq<FieldError>
  {
    if fields == [] then []
    else
      var last := fields[|fields| - 1];
      MissingFieldErrors(host, index, rule, fields[..|fields| - 1])
      + if HasField(rule, last) then [] else [MissingField(last, host, index)]
  }

  /** The field errors of rule `index` of `host`: unknown fields, then missing ones. */
  function RuleFieldErrors(host: string, index: nat, rule: Rule): seq<FieldError>
  {
    UnknownFieldErrors(host, index, rule) + MissingFieldErrors(host, index, rule, MandatoryFields)
  }

  /** The query check, lines 102-105: only a present query is checked. */
  function RuleQueryErrors(host: string, index: nat, rule: Rule, grammar: Grammar): seq<QueryError>
  {
    match Lookup(rule, "query")
    case None => []
    case Some(q) => if grammar(q).0 then [] else [BadQuery(host, index, grammar(q).1)]
  }

  /** The field errors of a host's rules, in rule order. */
  function RulesFieldErrors(host: string, rules: seq<Rule>): seq<FieldError>
  {
    if rules == [] then []
    else RulesFieldErrors(host, rules[..|rules| - 1]) + RuleFieldErrors(host, |rules| - 1, rules[|rules| - 1])
  }

  /** The query errors of a host's rules, in rule order. */
  function RulesQueryErrors(host: string, rules: seq<Rule>, grammar: Grammar): seq<QueryError>
  {
    if rules == [] then []
    else RulesQueryErrors(host, rules[..|rules| - 1], grammar) + RuleQueryErrors(host, |rules| - 1, rules[|rules| - 1], grammar)
  }

  function SettingsHostErrors(s: Settings): seq<HostError>
  {
    if s == [] then []
    else
      SettingsHostErrors(s[..|s| - 1])
      + match HostErrorOf(s[|s| - 1].0) case None => [] case Some(e) => [e]
  }

  function SettingsFieldErrors(s: Settings): seq<FieldError>
  {
    if s == [] then [] else SettingsFieldErrors(s[..|s| - 1]) + RulesFieldErrors(s[|s| - 1].0, s[|s| - 1].1)
  }

  function SettingsQueryErrors(s: Settings, grammar: Grammar): seq<QueryError>
  {
    if s == [] then [] else SettingsQueryErrors(s[..|s| - 1], grammar) + RulesQueryErrors(s[|s| - 1].0, s[|s| - 1].1, grammar)
  }

  /** `validate_resource_type_settings` returns True, or raises. */
  datatype Validation = Accepted | Raised(exception: SettingsException)

  /** What `validate_resource_type_settings` answers for `s`. */
  function ValidationOf(s: Settings, grammar: Grammar): Validation
  {
    var x := SettingsException(SettingsHostErrors(s), SettingsQueryErrors(s, grammar), SettingsFieldErrors(s));
    if Errors(x) == [] then Accepted else Raised(x)
  }

  // ---------------------------------------------------------------------------
  // Which settings are valid

  /** A rule passes: only allowed fields, both mandatory ones, and a query the grammar accepts. */
  predicate RuleOk(rule: Rule, grammar: Grammar)
  {
    && (forall k :: 0 <= k < |rule| ==> rule[k].0 in AllowedFields)
    && HasField(rule, "query") && HasField(rule, "value")
    && grammar(Lookup(rule, "query").value).0
  }

  predicate RulesOk(rules: seq<Rule>, grammar: Grammar)
  {
    forall i :: 0 <= i < |rules| ==> RuleOk(rules[i], grammar)
  }

  /** Every host passes the host check and every rule of it passes. */
  predicate SettingsOk(s: Settings, grammar: Grammar)
  {
    forall h :: 0 <= h < |s| ==> HostErrorOf(s[h].0) == None && RulesOk(s[h].1, grammar)
  }

  lemma {:induction false} UnknownFieldErrorsEmpty(host: string, index: nat, keys: Rule)
    ensures UnknownFieldErrors(host, index, keys) == [] <==> forall k :: 0 <= k < |keys| ==> keys[k].0 in AllowedFields
  {
    if keys != [] {
      var init := keys[..|keys| - 1];
      UnknownFieldErrorsEmpty(host, index, init);
      assert forall k :: 0 <= k < |init| ==> init[k] == keys[k];
    }
  }

  /**
   * The field errors of one rule: one `UnknownField` per key outside the allowed
   * fields, and one `MissingField` per absent mandatory field, nothing else.
   */
  lemma {:induction false} UnknownFieldErrorsExact(host: string, index: nat, keys: Rule, e: FieldError)
    ensures e in UnknownFieldErrors(host, index, keys) <==>
              e.UnknownField? && e.host == host && e.index == index && e.field !in AllowedFields
              && exists k :: 0 <= k < |keys| && keys[k].0 == e.field
  {
    if keys != [] {
      var init := keys[..|keys| - 1];
      UnknownFieldErrorsExact(host, index, init, e);
      if exists k :: 0 <= k < |keys| && keys[k].0 == e.field {
        var k :| 0 <= k < |keys| && keys[k].0 == e.field;
        if k < |init| {
          assert init[k] == keys[k];
        }
      }
      if exists k :: 0 <= k < |init| && init[k].0 == e.field {
        var k :| 0 <= k < |init| && init[k].0 == e.field;
        assert keys[k] == init[k];
      }
    }
  }

  /** The mandatory-field check over `query` and `value`, written out. */
  lemma MissingFieldsSpelled(host: string, index: nat, rule: Rule)
    ensures MissingFieldErrors(host, index, rule, MandatoryFields)
            == (if HasField(rule, "query") then [] else [MissingField("query", host, index)])
               + (if HasField(rule, "value") then [] else [MissingField("value", host, index)])
  {
    assert MandatoryFields[..1] == ["query"];
    assert ["query"][..0] == [];
    assert MissingFieldErrors(host, index, rule, ["query"])
           == (if HasField(rule, "query") then [] else [MissingField("query", host, index)]);
  }

  lemma RuleFieldErrorsExact(host: string, index: nat, rule: Rule, e: FieldError)
    ensures e in RuleFieldErrors(host, index, rule) <==>
              e.host == host && e.index == index &&
              ((e.UnknownField? && e.field !in AllowedFields && exists k :: 0 <= k < |rule| && rule[k].0 == e.field)
               || (e.MissingField? && e.field in MandatoryFields && !HasField(rule, e.field)))
  {
    UnknownFieldErrorsExact(host, index, rule, e);
    MissingFieldsSpelled(host, index, rule);
  }

  lemma RuleFieldErrorsEmpty(host: string, index: nat, rule: Rule)
    ensures RuleFieldErrors(host, index, rule) == [] <==>
              (forall k :: 0 <= k < |rule| ==> rule[k].0 in AllowedFields) && HasField(rule, "query") && HasField(rule, "value")
  {
    UnknownFieldErrorsEmpty(host, index, rule);
    MissingFieldsSpelled(host, index, rule);
  }

  /** One rule raises no field and no query error exactly when it passes. */
  lemma RuleErrorsEmpty(host: string, index: nat, rule: Rule, grammar: Grammar)
    ensures RuleFieldErrors(host, index, rule) == [] && RuleQueryErrors(host, index, rule, grammar) == []
            <==> RuleOk(rule, grammar)
  {
    RuleFieldErrorsEmpty(host, index, rule);
  }

  lemma RulesOkSplit(rules: seq<Rule>, grammar: Grammar)
    requires rules != []
    ensures var n := |rules| - 1;
            RulesOk(rules, grammar) <==> RulesOk(rules[..n], grammar) && RuleOk(rules[n], grammar)
  {
    var n := |rules| - 1;
    assert forall i :: 0 <= i < n ==> rules[..n][i] == rules[i];
  }

  lemma {:induction false} RulesErrorsEmpty(host: string, rules: seq<Rule>, grammar: Grammar)
    ensures RulesFieldErrors(host, rules) == [] && RulesQueryErrors(host, rules, grammar) == []
            <==> RulesOk(rules, grammar)
  {
    if rules != [] {
      var n := |rules| - 1;
      RulesErrorsEmpty(host, rules[..n], grammar);
      RuleErrorsEmpty(host, n, rules[n], grammar);
      RulesOkSplit(rules, grammar);
    }
  }

  lemma SettingsOkSplit(s: Settings, grammar: Grammar)
    requires s != []
    ensures var n := |s| - 1;
            SettingsOk(s, grammar) <==> SettingsOk(s[..n], grammar) && HostErrorOf(s[n].0) == None && RulesOk(s[n].1, grammar)
  {
    var n := |s| - 1;
    assert forall h :: 0 <= h < n ==> s[..n][h] == s[h];
  }

  lemma {:induction false} SettingsErrorsEmpty(s: Settings, grammar: Grammar)
    ensures SettingsHostErrors(s) == [] && SettingsFieldErrors(s) == [] && SettingsQueryErrors(s, grammar) == []
            <==> SettingsOk(s, grammar)
  {
    if s != [] {
      var n := |s| - 1;
      SettingsErrorsEmpty(s[..n], grammar);
      RulesErrorsEmpty(s[n].0, s[n].1, grammar);
      SettingsOkSplit(s, grammar);
      assert SettingsHostErrors(s) == [] <==> SettingsHostErrors(s[..n]) == [] && HostErrorOf(s[n].0) == None;
    }
  }

  /**
   * Validation returns True exactly when every host and every rule passes;
   * otherwise it raises with the errors collected, and at least one of them.
   */
  lemma ValidationAcceptsIff(s: Settings, grammar: Grammar)
    ensures ValidationOf(s, grammar) == Accepted <==> SettingsOk(s, grammar)
    ensures ValidationOf(s, grammar).Raised? ==> Errors(ValidationOf(s, grammar).exception) != []
  {
    SettingsErrorsEmpty(s, grammar);
    var x := SettingsException(SettingsHostErrors(s), SettingsQueryErrors(s, grammar), SettingsFieldErrors(s));
    ErrorsChained(x);
  }

  /** At most one host error per host, each the host's own. */
  lemma {:induction false} HostErrorsPerHost(s: Settings)
    ensures |SettingsHostErrors(s)| <= |s|
    ensures forall e :: e in SettingsHostErrors(s) ==> exists h :: 0 <= h < |s| && HostErrorOf(s[h].0) == Some(e)
  {
    if s != [] {
      var n := |s| - 1;
      HostErrorsPerHost(s[..n]);
      forall e | e in SettingsHostErrors(s) ensures exists h :: 0 <= h < |s| && HostErrorOf(s[h].0) == Some(e) {
        if e in SettingsHostErrors(s[..n]) {
          var h :| 0 <= h < n && HostErrorOf(s[..n][h].0) == Some(e);
          assert s[..n][h] == s[h];
        } else {
          assert HostErrorOf(s[n].0) == Some(e);
        }
      }
    }
  }

  /** A query error names a rule that has a query the grammar rejects, with the grammar's message. */
  lemma QueryErrorOnlyForBadQuery(host: string, index: nat, rule: Rule, grammar: Grammar)
    ensures RuleQueryErrors(host, index, rule, grammar) != [] <==>
              HasField(rule, "query") && !grammar(Lookup(rule, "query").value).0
    ensures RuleQueryErrors(host, index, rule, grammar) != [] ==>
              RuleQueryErrors(host, index, rule, grammar)
              == [BadQuery(host, index, grammar(Lookup(rule, "query").value).1)]
  {
  }

  // ---------------------------------------------------------------------------
  // Compilation

  /** The host part of a compiled query, lines 33-36. */
  function HostQuery(host: string): string
  {
    if StartsWith(host, "*.") then "ENDS(host, \"" + host[1..] + "\")"
    else "host = \"" + host + "\""
  }

  /** The host a host query was built from. */
  function HostOfQuery(q: string): Option<string>
  {
    if |q| >= 9 && StartsWith(q, "host = \"") && q[|q| - 1] == '"' then Some(q[8..|q| - 1])
    else if |q| >= 14 && StartsWith(q, "ENDS(host, \"") && q[|q| - 2..] == "\")" then Some("*" + q[12..|q| - 2])
    else None
  }

  /** A host query determines its host: the two forms never collide. */
  lemma HostQueryRoundTrip(host: string)
    ensures HostOfQuery(HostQuery(host)) == Some(host)
  {
    var q := HostQuery(host);
    if StartsWith(host, "*.") {
      assert q[..8] != "host = \"" by { assert q[0] == 'E'; }
      assert q[12..|q| - 2] == host[1..];
      assert host == [host[0]] + host[1..];
    } else {
      assert q[8..|q| - 1] == host;
    }
  }

  /** A compiled rule: the compiled query, the value, and the optional fields copied when present. */
  datatype CompiledRule<Q> = CompiledRule(
    query: Q,
    value: Value,
    inheritsFrom: Option<Value>,
    ruleId: Option<Value>,
    isAbstract: Option<Value>)

  /** The result of `compile_resource_type_settings`. */
  datatype Compilation<Q> =
    | Invalid(exception: SettingsException)  // validation raised
    | RaisedAt(host: string, index: nat)      // compiling rule `index` of `host` raised
    | Compiled(rules: seq<CompiledRule<Q>>)

  /**
   * The BQL text handed to `query_to_python`: the rule's own query when it
   * inherits, else the host query joined to it with ` AND `. None when the
   * query is missing (`KeyError`) or, to be joined, is not a string (`TypeError`).
   */
  function QueryText(host: string, rule: Rule): Option<Value>
  {
    match Lookup(rule, "query")
    case None => None
    case Some(q) =>
      if HasField(rule, "inherits_from") then Some(q)
      else match q
        case Str(text) => Some(Str(HostQuery(host) + " AND " + text))
        case Bool(_) => None
  }

  /** One compiled rule, lines 33-45; None when building it raises. */
  function CompileRule<Q>(host: string, rule: Rule, toPython: Value -> Q): Option<CompiledRule<Q>>
  {
    match QueryText(host, rule)
    case None => None
    case Some(text) =>
      match Lookup(rule, "value")
      case None => None
      case Some(v) =>
        Some(CompiledRule(toPython(text), v, Lookup(rule, "inherits_from"), Lookup(rule, "rule_id"), Lookup(rule, "abstract")))
  }

  /** Compiled rules so far, or the first rule on which compiling raised. */
  datatype Compiling<Q> = Ok(rules: seq<CompiledRule<Q>>) | Stopped(host: string, index: nat)

  /** The rules of one host, compiled in order. */
  function CompileRules<Q>(host: string, rules: seq<Rule>, toPython: Value -> Q): Compiling<Q>
  {
    if rules == [] then Ok([])
    else
      var n := |rules| - 1;
      match CompileRules(host, rules[..n], toPython)
      case Stopped(h, i) => Stopped(h, i)
      case Ok(done) =>
        match CompileRule(host, rules[n], toPython)
        case None => Stopped(host, n)
        case Some(c) => Ok(done + [c])
  }

  /** Every host's rules compiled, host after host. */
  function CompileHosts<Q>(s: Settings, toPython: Value -> Q): Compiling<Q>
  {
    if s == [] then Ok([])
    else
      var n := |s| - 1;
      match CompileHosts(s[..n], toPython)
      case Stopped(h, i) => Stopped(h, i)
      case Ok(done) =>
        match CompileRules(s[n].0, s[n].1, toPython)
        case Stopped(h, i) => Stopped(h, i)
        case Ok(more) => Ok(done + more)
  }

  /** What `compile_resource_type_settings` answers for `s`: validation first. */
  function CompilationOf<Q>(s: Settings, grammar: Grammar, toPython: Value -> Q): Compilation<Q>
  {
    match ValidationOf(s, grammar)
    case Raised(x) => Invalid(x)
    case Accepted =>
      match CompileHosts(s, toPython)
      case Stopped(h, i) => RaisedAt(h, i)
      case Ok(rules) => Compiled(rules)
  }

  /** The `(host, rule)` pairs of one host, in rule order. */
  function HostRules(host: string, rules: seq<Rule>): seq<(string, Rule)>
  {
    seq(|rules|, i requires 0 <= i < |rules| => (host, rules[i]))
  }

  /** The `(host, rule)` pairs of the settings, in iteration order. */
  function AllRules(s: Settings): seq<(string, Rule)>
  {
    if s == [] then [] else AllRules(s[..|s| - 1]) + HostRules(s[|s| - 1].0, s[|s| - 1].1)
  }

  // ---------------------------------------------------------------------------
  // Properties of compilation

  /** Settings that fail validation compile to nothing but the validation exception. */
  lemma CompileValidatesFirst<Q>(s: Settings, grammar: Grammar, toPython: Value -> Q)
    ensures CompilationOf(s, grammar, toPython).Invalid? <==> !SettingsOk(s, grammar)
    ensures CompilationOf(s, grammar, toPython).Invalid? ==>
              ValidationOf(s, grammar) == Raised(CompilationOf(s, grammar, toPython).exception)
  {
    ValidationAcceptsIff(s, grammar);
  }

  /**
   * A compiled rule: its query is `query_to_python` of the rule's own query when
   * it inherits, else of the host query joined with ` AND `; its value is the
   * rule's; `inherits_from`, `rule_id` and `abstract` are copied exactly when present.
   */
  lemma CompiledRuleFields<Q>(host: string, rule: Rule, toPython: Value -> Q)
    requires CompileRule(host, rule, toPython).Some?
    ensures var c := CompileRule(host, rule, toPython).value;
            var q := Lookup(rule, "query").value;
            && HasField(rule, "query") && HasField(rule, "value")
            && c.value == Lookup(rule, "value").value
            && (HasField(rule, "inherits_from") ==> c.query == toPython(q))
            && (!HasField(rule, "inherits_from") ==> q.Str? && c.query == toPython(Str(HostQuery(host) + " AND " + q.s)))
            && (c.inheritsFrom.Some? <==> HasField(rule, "inherits_from"))
            && (c.ruleId.Some? <==> HasField(rule, "rule_id"))
            && (c.isAbstract.Some? <==> HasField(rule, "abstract"))
            && c.inheritsFrom == Lookup(rule, "inherits_from")
            && c.ruleId == Lookup(rule, "rule_id")
            && c.isAbstract == Lookup(rule, "abstract")
  {
  }

  /** A rule that passed validation compiles, unless it must be joined to its host and its query is not a string. */
  lemma ValidRuleCompiles<Q>(host: string, rule: Rule, grammar: Grammar, toPython: Value -> Q)
    requires RuleOk(rule, grammar)
    ensures CompileRule(host, rule, toPython).None? <==>
              !HasField(rule, "inherits_from") && Lookup(rule, "query").value.Bool?
  {
  }

  /** One host's rules compile without raising exactly when each of them does. */
  lemma {:induction false} CompileRulesOk<Q>(host: string, rules: seq<Rule>, toPython: Value -> Q)
    ensures CompileRules(host, rules, toPython).Ok? <==> forall i :: 0 <= i < |rules| ==> CompileRule(host, rules[i], toPython).Some?
  {
    if rules != [] {
      var n := |rules| - 1;
      CompileRulesOk(host, rules[..n], toPython);
      assert forall i :: 0 <= i < n ==> rules[..n][i] == rules[i];
    }
  }

  /** Compiled, they are one compiled rule per rule, in order. */
  lemma {:induction false} CompileRulesList<Q>(host: string, rules: seq<Rule>, toPython: Value -> Q)
    requires CompileRules(host, rules, toPython).Ok?
    ensures var r := CompileRules(host, rules, toPython).rules;
            && |r| == |rules|
            && forall i :: 0 <= i < |rules| ==> CompileRule(host, rules[i], toPython).Some? && r[i] == CompileRule(host, rules[i], toPython).value
  {
    if rules != [] {
      var n := |rules| - 1;
      CompileRulesList(host, rules[..n], toPython);
      assert forall i :: 0 <= i < n ==> rules[..n][i] == rules[i];
    }
  }

  /** Stopped, they stop at the first rule of the host that raises. */
  lemma {:induction false} CompileRulesStopped<Q>(host: string, rules: seq<Rule>, toPython: Value -> Q)
    requires CompileRules(host, rules, toPython).Stopped?
    ensures var r := CompileRules(host, rules, toPython);
            && r.host == host && r.index < |rules| && CompileRule(host, rules[r.index], toPython).None?
            && forall j :: 0 <= j < r.index ==> CompileRule(host, rules[j], toPython).Some?
  {
    var n := |rules| - 1;
    if CompileRules(host, rules[..n], toPython).Stopped? {
      CompileRulesStopped(host, rules[..n], toPython);
      assert forall i :: 0 <= i < n ==> rules[..n][i] == rules[i];
    } else {
      CompileRulesOk(host, rules[..n], toPython);
      assert forall i :: 0 <= i < n ==> rules[..n][i] == rules[i];
    }
  }

  /** The pairs of the settings start with those of all hosts but the last ... */
  lemma AllRulesSplit(s: Settings)
    requires s != []
    ensures var n := |s| - 1;
            var a := AllRules(s[..n]);
            && |AllRules(s)| == |a| + |s[n].1|
            && (forall k :: 0 <= k < |a| ==> AllRules(s)[k] == a[k])
  {
  }

  /** ... and end with the last host's rules. */
  lemma AllRulesLast(s: Settings)
    requires s != []
    ensures var n := |s| - 1;
            var a := AllRules(s[..n]);
            forall i :: 0 <= i < |s[n].1| ==> AllRules(s)[|a| + i] == (s[n].0, s[n].1[i])
  {
    var n := |s| - 1;
    assert AllRules(s) == AllRules(s[..n]) + HostRules(s[n].0, s[n].1);
  }

  predicate AllCompile<Q>(all: seq<(string, Rule)>, toPython: Value -> Q)
  {
    forall k :: 0 <= k < |all| ==> CompileRule(all[k].0, all[k].1, toPython).Some?
  }

  /** Every pair compiles exactly when every pair of the other hosts and every rule of the last host does. */
  lemma {:induction false} AllCompileSplit<Q>(s: Settings, toPython: Value -> Q)
    requires s != []
    ensures var n := |s| - 1;
            AllCompile(AllRules(s), toPython) <==>
              && AllCompile(AllRules(s[..n]), toPython)
              && forall i :: 0 <= i < |s[n].1| ==> CompileRule(s[n].0, s[n].1[i], toPython).Some?
  {
    var n := |s| - 1;
    AllRulesSplit(s);
    AllRulesLast(s);
    var a := AllRules(s[..n]);
    var all := AllRules(s);
    if AllCompile(all, toPython) {
      forall k | 0 <= k < |a| ensures CompileRule(a[k].0, a[k].1, toPython).Some? {
        assert all[k] == a[k];
      }
      forall i | 0 <= i < |s[n].1| ensures CompileRule(s[n].0, s[n].1[i], toPython).Some? {
        assert all[|a| + i] == (s[n].0, s[n].1[i]);
      }
    }
    if && AllCompile(a, toPython)
       && forall i :: 0 <= i < |s[n].1| ==> CompileRule(s[n].0, s[n].1[i], toPython).Some? {
      forall k | 0 <= k < |all| ensures CompileRule(all[k].0, all[k].1, toPython).Some? {
        if k >= |a| {
          assert all[k] == (s[n].0, s[n].1[k - |a|]);
        } else {
          assert all[k] == a[k];
        }
      }
    }
  }

  /** Compiling all hosts raises nothing exactly when no single rule raises. */
  lemma {:induction false} CompileHostsOk<Q>(s: Settings, toPython: Value -> Q)
    ensures CompileHosts(s, toPython).Ok? <==> AllCompile(AllRules(s), toPython)
  {
    if s != [] {
      var n := |s| - 1;
      CompileHostsOk(s[..n], toPython);
      CompileRulesOk(s[n].0, s[n].1, toPython);
      AllCompileSplit(s, toPython);
    }
  }

  /** All hosts: one compiled rule per `(host, rule)` pair, in iteration order, when none raises. */
  lemma {:induction false} CompileHostsRules<Q>(s: Settings, toPython: Value -> Q)
    requires CompileHosts(s, toPython).Ok?
    ensures var r := CompileHosts(s, toPython).rules;
            var all := AllRules(s);
            && |r| == |all|
            && forall k :: 0 <= k < |all| ==>
                 CompileRule(all[k].0, all[k].1, toPython).Some? && r[k] == CompileRule(all[k].0, all[k].1, toPython).value
  {
    if s != [] {
      var n := |s| - 1;
      CompileHostsRules(s[..n], toPython);
      CompileRulesList(s[n].0, s[n].1, toPython);
      AllRulesSplit(s);
      AllRulesLast(s);
      var a := AllRules(s[..n]);
      var all := AllRules(s);
      var done := CompileHosts(s[..n], toPython).rules;
      var more := CompileRules(s[n].0, s[n].1, toPython).rules;
      var r := CompileHosts(s, toPython).rules;
      assert r == done + more;
      forall k | 0 <= k < |all|
        ensures CompileRule(all[k].0, all[k].1, toPython).Some? && r[k] == CompileRule(all[k].0, all[k].1, toPython).value
      {
        if k < |a| {
          assert r[k] == done[k] && all[k] == a[k];
        } else {
          assert r[k] == more[k - |a|] && all[k] == (s[n].0, s[n].1[k - |a|]);
        }
      }
    }
  }

  // ---------------------------------------------------------------------------
  // The two entry points, as the loops the source runs

  /** `validate_resource_type_settings`: True as `Accepted`, the exception as `Raised`. */
  method ValidateResourceTypeSettings(settings: Settings, grammar: Grammar) returns (r: Validation)
    ensures r == ValidationOf(settings, grammar)
  {
    var hostErrs: seq<HostError> := [];
    var queryErrs: seq<QueryError> := [];
    var fieldErrs: seq<FieldError> := [];
    for h := 0 to |settings|
      invariant hostErrs == SettingsHostErrors(settings[..h])
      invariant queryErrs == SettingsQueryErrors(settings[..h], grammar)
      invariant fieldErrs == SettingsFieldErrors(settings[..h])
    {
      var host := settings[h].0;
      assert settings[..h + 1][..h] == settings[..h];
      if MisplacedStar(host) {
        hostErrs := hostErrs + [MisplacedWildcard(host)];
      } else if StartsWith(host, "*") && !StartsWith(host, "*.") {
        hostErrs := hostErrs + [WildcardWithoutDot(host)];
      }
      var q, f := ValidateRules(host, settings[h].1, grammar);
      queryErrs := queryErrs + q;
      fieldErrs := fieldErrs + f;
    }
    assert settings[..|settings|] == settings;
    var x := SettingsException(hostErrs, queryErrs, fieldErrs);
    if |HostErrors(x) + QueryErrors(x) + FieldErrors(x)| == 0 {
      return Accepted;
    }
    return Raised(x);
  }

  /** The rule loop of one host, lines 90-105. */
  method ValidateRules(host: string, rules: seq<Rule>, grammar: Grammar) returns (queryErrs: seq<QueryError>, fieldErrs: seq<FieldError>)
    ensures queryErrs == RulesQueryErrors(host, rules, grammar)
    ensures fieldErrs == RulesFieldErrors(host, rules)
  {
    queryErrs, fieldErrs := [], [];
    for i := 0 to |rules|
      invariant queryErrs == RulesQueryErrors(host, rules[..i], grammar)
      invariant fieldErrs == RulesFieldErrors(host, rules[..i])
    {
      var rule := rules[i];
      assert rules[..i + 1][..i] == rules[..i];
      var f := ValidateFields(host, i, rule);
      fieldErrs := fieldErrs + f;
      var query := Lookup(rule, "query");
      if query.Some? {
        var checked := grammar(query.value);
        if !checked.0 {
          queryErrs := queryErrs + [BadQuery(host, i, checked.1)];
        }
      }
    }
    assert rules[..|rules|] == rules;
  }

  /** The field checks of rule `index`, lines 92-99: unknown keys in key order, then missing mandatory fields. */
  method ValidateFields(host: string, index: nat, rule: Rule) returns (errs: seq<FieldError>)
    ensures errs == RuleFieldErrors(host, index, rule)
  {
    errs := [];
    for k := 0 to |rule|
      invariant errs == UnknownFieldErrors(host, index, rule[..k])
    {
      assert rule[..k + 1][..k] == rule[..k];
      if rule[k].0 !in AllowedFields {
        errs := errs + [UnknownField(rule[k].0, host, index)];
      }
    }
    assert rule[..|rule|] == rule;
    ghost var unknown := errs;
    for m := 0 to |MandatoryFields|
      invariant errs == unknown + MissingFieldErrors(host, index, rule, MandatoryFields[..m])
    {
      assert MandatoryFields[..m + 1][..m] == MandatoryFields[..m];
      if !HasField(rule, MandatoryFields[m]) {
        errs := errs + [MissingField(MandatoryFields[m], host, index)];
      }
    }
    assert MandatoryFields[..|MandatoryFields|] == MandatoryFields;
  }

  /** `compile_resource_type_settings`: validation, then one compiled rule per rule. */
  method CompileResourceTypeSettings<Q>(settings: Settings, grammar: Grammar, toPython: Value -> Q) returns (r: Compilation<Q>)
    ensures r == CompilationOf(settings, grammar, toPython)
  {
    var validation := ValidateResourceTypeSettings(settings, grammar);
    if validation.Raised? {
      return Invalid(validation.exception);
    }
    var compiled: seq<CompiledRule<Q>> := [];
    for h := 0 to |settings|
      invariant CompileHosts(settings[..h], toPython) == Ok(compiled)
    {
      var host := settings[h].0;
      var rules := settings[h].1;
      assert settings[..h + 1][..h] == settings[..h];
      var more: seq<CompiledRule<Q>> := [];
      for i := 0 to |rules|
        invariant CompileRules(host, rules[..i], toPython) == Ok(more)
      {
        assert rules[..i + 1][..i] == rules[..i];
        var c := CompileRule(host, rules[i], toPython);
        if c.None? {
          RulesStoppedStays(host, rules, i + 1, toPython);
          assert rules[..|rules|] == rules;
          StoppedStays(settings, h + 1, toPython);
          assert settings[..|settings|] == settings;
          return RaisedAt(host, i);
        }
        more := more + [c.value];
      }
      assert rules[..|rules|] == rules;
      compiled := compiled + more;
    }
    assert settings[..|settings|] == settings;
    return Compiled(compiled);
  }

  /** Once compiling a prefix of a host's rules has stopped, compiling more rules stops at the same rule. */
  lemma {:induction false} RulesStoppedStays<Q>(host: string, rules: seq<Rule>, n: nat, toPython: Value -> Q)
    requires n <= |rules| && CompileRules(host, rules[..n], toPython).Stopped?
    ensures CompileRules(host, rules, toPython) == CompileRules(host, rules[..n], toPython)
    decreases |rules| - n
  {
    if n < |rules| {
      assert rules[..n + 1][..n] == rules[..n];
      RulesStoppedStays(host, rules, n + 1, toPython);
    } else {
      assert rules[..n] == rules;
    }
  }

  /** Once compiling a prefix of the hosts has stopped, compiling more hosts stops at the same rule. */
  lemma {:induction false} StoppedStays<Q>(s: Settings, n: nat, toPython: Value -> Q)
    requires n <= |s| && CompileHosts(s[..n], toPython).Stopped?
    ensures CompileHosts(s, toPython) == CompileHosts(s[..n], toPython)
    decreases |s| - n
  {
    if n < |s| {
      assert s[..n + 1][..n] == s[..n];
      StoppedStays(s, n + 1, toPython);
    } else {
      assert s[..n] == s;
    }
  }
}
