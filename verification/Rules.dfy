/** Static mail rules: the live matcher, the envelope captured when an email is decided to be spam, and
    the preview that replays a proposed rule over captured envelopes. */
module Rules {
  import opened Payloads

  datatype Header = Header(name: string, value: Option<string>)

  /** `sender`: address of the first From entry. `body`: text of the first text part. */
  datatype Email = Email(
    sender: string, to: seq<string>, subject: Option<string>,
    body: Option<string>, preview: Option<string>, headers: seq<Header>)

  datatype Condition = Condition(field: string, operator: string, value: string)

  datatype Rule = Rule(name: string, conditions: seq<Condition>, combinator: string, priority: int, enabled: bool)

  /** `re.search(..., IGNORECASE)` and `fnmatch`, which this model does not define. */
  datatype Engines = Engines(regex: (string, string) -> bool, glob: (string, string) -> bool)

  function Text(o: Option<string>): string {
    if o.None? then "" else o.value
  }

  function JoinLower(addresses: seq<string>): string {
    if addresses == [] then ""
    else if |addresses| == 1 then Lower(addresses[0])
    else Lower(addresses[0]) + ", " + JoinLower(addresses[1..])
  }

  /** Value of the first header with this lower-cased name, or "". */
  function HeaderValue(headers: seq<Header>, name: string): string {
    if headers == [] then ""
    else if Lower(headers[0].name) == name then Text(headers[0].value)
    else HeaderValue(headers[1..], name)
  }

  const HEADER := "header:"

  predicate IsHeaderField(field: string) {
    HEADER <= field
  }

  function HeaderName(field: string): string
    requires IsHeaderField(field)
  {
    Lower(field[|HEADER|..])
  }

  function FieldValue(email: Email, field: string): string {
    if field == "from" then Lower(email.sender)
    else if field == "to" then JoinLower(email.to)
    else if field == "subject" then Text(email.subject)
    else if field == "body" then if Text(email.body) != "" then Text(email.body) else Text(email.preview)
    else if IsHeaderField(field) then HeaderValue(email.headers, HeaderName(field))
    else ""
  }

  predicate ConditionMatches(eng: Engines, email: Email, c: Condition) {
    var v := FieldValue(email, c.field);
    if c.operator == "equals" then Lower(v) == Lower(c.value)
    else if c.operator == "contains" then Contains(Lower(v), Lower(c.value))
    else if c.operator == "regex" then eng.regex(c.value, v)
    else if c.operator == "glob" then eng.glob(Lower(v), Lower(c.value))
    else false
  }

  /** None: the rule has no conditions and is left to the language model. */
  function RuleMatches(eng: Engines, email: Email, rule: Rule): Option<bool> {
    if rule.conditions == [] then None
    else if rule.combinator == "AND" then
      Some(forall i :: 0 <= i < |rule.conditions| ==> ConditionMatches(eng, email, rule.conditions[i]))
    else
      Some(exists i :: 0 <= i < |rule.conditions| && ConditionMatches(eng, email, rule.conditions[i]))
  }

  /** Static stage of the live matcher: the first rule that matches. */
  function FirstMatch(eng: Engines, email: Email, rules: seq<Rule>): Option<Rule> {
    if rules == [] then None
    else if RuleMatches(eng, email, rules[0]) == Some(true) then Some(rules[0])
    else FirstMatch(eng, email, rules[1..])
  }

  // ---- What rules mean ----

  /** AND: a rule over two groups of conditions matches exactly when the rules over either group both match. */
  lemma AndSplits(eng: Engines, email: Email, rule: Rule, a: seq<Condition>, b: seq<Condition>)
    requires rule.combinator == "AND" && a != [] && b != []
    ensures RuleMatches(eng, email, rule.(conditions := a + b)) == Some(true) <==>
            RuleMatches(eng, email, rule.(conditions := a)) == Some(true) &&
            RuleMatches(eng, email, rule.(conditions := b)) == Some(true)
  {
    ConditionsOfBoth(a, b);
  }

  /** OR: exactly when one of them does. */
  lemma OrSplits(eng: Engines, email: Email, rule: Rule, a: seq<Condition>, b: seq<Condition>)
    requires rule.combinator == "OR" && a != [] && b != []
    ensures RuleMatches(eng, email, rule.(conditions := a + b)) == Some(true) <==>
            RuleMatches(eng, email, rule.(conditions := a)) == Some(true) ||
            RuleMatches(eng, email, rule.(conditions := b)) == Some(true)
  {
    ConditionsOfBoth(a, b);
  }

  lemma ConditionsOfBoth(a: seq<Condition>, b: seq<Condition>)
    ensures forall i :: 0 <= i < |a| ==> (a + b)[i] == a[i]
    ensures forall i :: 0 <= i < |b| ==> (a + b)[|a| + i] == b[i]
    ensures forall i :: |a| <= i < |a| + |b| ==> (a + b)[i] == b[i - |a|]
  {
  }

  /** A rule of one condition is that condition, whatever the combinator; a rule of none is nobody's to decide here. */
  lemma OneCondition(eng: Engines, email: Email, rule: Rule, c: Condition)
    ensures RuleMatches(eng, email, rule.(conditions := [c])) == Some(ConditionMatches(eng, email, c))
    ensures RuleMatches(eng, email, rule.(conditions := [])) == None
  {
    assert [c][0] == c;
  }

  /** What the operators ask of the value of the field. */
  lemma OperatorsExactly(eng: Engines, email: Email, c: Condition)
    ensures var v := FieldValue(email, c.field);
            && (c.operator == "equals" ==> (ConditionMatches(eng, email, c) <==> Lower(v) == Lower(c.value)))
            && (c.operator == "contains" ==>
                  (ConditionMatches(eng, email, c) <==> exists i :: FoundAt(Lower(v), Lower(c.value), i)))
            && (c.operator == "regex" ==> (ConditionMatches(eng, email, c) <==> eng.regex(c.value, v)))
            && (c.operator == "glob" ==> (ConditionMatches(eng, email, c) <==> eng.glob(Lower(v), Lower(c.value))))
            && (c.operator !in {"equals", "contains", "regex", "glob"} ==> !ConditionMatches(eng, email, c))
  {
    var v := FieldValue(email, c.field);
    ContainsExactly(Lower(v), Lower(c.value));
    if c.operator == "contains" {
      assert ConditionMatches(eng, email, c) <==> Contains(Lower(v), Lower(c.value));
    }
  }

  predicate FirstNamed(headers: seq<Header>, name: string, i: int) {
    && 0 <= i < |headers| && Lower(headers[i].name) == name
    && forall k :: 0 <= k < i ==> Lower(headers[k].name) != name
  }

  /** Where the values of the fields come from; a header is the first of its name in any case, or empty. */
  lemma FieldsExactly(email: Email, name: string)
    ensures FieldValue(email, "from") == Lower(email.sender)
    ensures |email.to| == 1 ==> FieldValue(email, "to") == Lower(email.to[0])
    ensures |email.to| == 2 ==> FieldValue(email, "to") == Lower(email.to[0]) + ", " + Lower(email.to[1])
    ensures FieldValue(email, "subject") == if email.subject.Some? then email.subject.value else ""
    ensures email.body.Some? && email.body.value != "" ==> FieldValue(email, "body") == email.body.value
    ensures (email.body.None? || email.body.value == "") && email.preview.Some? ==>
              FieldValue(email, "body") == email.preview.value
    ensures FieldValue(email, "header:" + name) == HeaderValue(email.headers, Lower(name))
  {
    if |email.to| == 2 {
      assert email.to[1..] == [email.to[1]];
      assert JoinLower([email.to[1]]) == Lower(email.to[1]);
      assert JoinLower(email.to) == Lower(email.to[0]) + ", " + JoinLower(email.to[1..]);
    }
    var field := "header:" + name;
    assert field[|HEADER|..] == name && field[0] == 'h';
  }

  lemma {:induction false} HeaderExactly(headers: seq<Header>, name: string)
    ensures (exists i :: FirstNamed(headers, name, i) && HeaderValue(headers, name) == Text(headers[i].value))
         || ((forall i :: 0 <= i < |headers| ==> Lower(headers[i].name) != name) && HeaderValue(headers, name) == "")
  {
    if headers != [] {
      if Lower(headers[0].name) == name {
        assert FirstNamed(headers, name, 0);
      } else {
        HeaderExactly(headers[1..], name);
        assert forall i :: 0 < i < |headers| ==> headers[i] == headers[1..][i - 1];
        if k :| FirstNamed(headers[1..], name, k) && HeaderValue(headers[1..], name) == Text(headers[1..][k].value) {
          assert FirstNamed(headers, name, k + 1) && headers[k + 1] == headers[1..][k];
        }
      }
    }
  }

  predicate FirstMatching(eng: Engines, email: Email, rules: seq<Rule>, i: int) {
    && 0 <= i < |rules| && RuleMatches(eng, email, rules[i]) == Some(true)
    && forall k :: 0 <= k < i ==> RuleMatches(eng, email, rules[k]) != Some(true)
  }

  /** The static stage picks the first rule that matches, if one does. */
  lemma {:induction false} FirstMatchExactly(eng: Engines, email: Email, rules: seq<Rule>)
    ensures (exists i :: FirstMatching(eng, email, rules, i) && FirstMatch(eng, email, rules) == Some(rules[i]))
         || ((forall i :: 0 <= i < |rules| ==> RuleMatches(eng, email, rules[i]) != Some(true))
             && FirstMatch(eng, email, rules) == None)
  {
    if rules != [] {
      if RuleMatches(eng, email, rules[0]) == Some(true) {
        assert FirstMatching(eng, email, rules, 0);
      } else {
        FirstMatchExactly(eng, email, rules[1..]);
        assert forall i :: 0 < i < |rules| ==> rules[i] == rules[1..][i - 1];
        if k :| FirstMatching(eng, email, rules[1..], k) && FirstMatch(eng, email, rules[1..]) == Some(rules[1..][k]) {
          assert FirstMatching(eng, email, rules, k + 1) && rules[k + 1] == rules[1..][k];
        }
      }
    }
  }

  /** An email that an AND rule takes live would be taken by each of its conditions alone. */
  lemma TakenByEachCondition(eng: Engines, email: Email, rules: seq<Rule>, i: nat)
    requires var r := FirstMatch(eng, email, rules);
             r.Some? && r.value.combinator == "AND" && i < |r.value.conditions|
    ensures var r := FirstMatch(eng, email, rules).value;
            RuleMatches(eng, email, r.(conditions := [r.conditions[i]])) == Some(true)
  {
    FirstMatchExactly(eng, email, rules);
    var r := FirstMatch(eng, email, rules).value;
    OneCondition(eng, email, r, r.conditions[i]);
  }

  // ---- Capture ----

  const CAPTURED_HEADERS := {"from", "to", "subject", "list-unsubscribe", "list-id", "authentication-results"}

  /** The captured dictionary: whitelisted names in lower case, first occurrence of each. */
  function Captured(headers: seq<Header>): map<string, string> {
    if headers == [] then map[]
    else
      var name := Lower(headers[0].name);
      var rest := Captured(headers[1..]);
      if name in CAPTURED_HEADERS then rest[name := Text(headers[0].value)] else rest
  }

  lemma CapturedNext(headers: seq<Header>, i: nat, result: map<string, string>)
    requires i < |headers|
    ensures var name := Lower(headers[i].name);
            Captured(headers[i..]) + result ==
            Captured(headers[i + 1..]) +
            (if name in CAPTURED_HEADERS && name !in result then result[name := Text(headers[i].value)] else result)
  {
    assert headers[i..][1..] == headers[i + 1..];
  }

  method ExtractEnvelopeHeaders(headers: seq<Header>) returns (result: map<string, string>)
    ensures result == Captured(headers)
  {
    result := map[];
    assert headers[0..] == headers;
    for i := 0 to |headers|
      invariant Captured(headers) == Captured(headers[i..]) + result
    {
      CapturedNext(headers, i, result);
      var name := Lower(headers[i].name);
      if name in CAPTURED_HEADERS && name !in result {
        result := result[name := Text(headers[i].value)];
      }
    }
    assert Captured(headers[|headers|..]) == map[];
  }

  /** A decision row. `headers`: the captured pairs in whatever order the database returns them, or
      None when nothing was captured. */
  datatype Decision = Decision(id: int, sender: string, subject: Option<string>, bucket: string,
                               headers: Option<seq<(string, string)>>)

  ghost predicate Lists(pairs: seq<(string, string)>, m: map<string, string>) {
    && (forall i :: 0 <= i < |pairs| ==> pairs[i].0 in m && m[pairs[i].0] == pairs[i].1)
    && (forall name :: name in m ==> exists i :: 0 <= i < |pairs| && pairs[i].0 == name)
  }

  /** `d` is a row `_terminate` may have written for this email (spam and phishing buckets). */
  ghost predicate Decides(d: Decision, email: Email) {
    && d.sender == Lower(email.sender)
    && d.subject == email.subject
    && d.bucket in {"spam", "phishing-alert"}
    && (if Captured(email.headers) == map[] then d.headers == None
        else d.headers.Some? && Lists(d.headers.value, Captured(email.headers)))
  }

  function RebuiltHeaders(pairs: seq<(string, string)>): seq<Header> {
    seq(|pairs|, i requires 0 <= i < |pairs| => Header(pairs[i].0, Some(pairs[i].1)))
  }

  /** `_build_jmap_envelope_from_decision`. */
  function Rebuilt(d: Decision): Email {
    Email(d.sender, [], d.subject, None, None, if d.headers.None? then [] else RebuiltHeaders(d.headers.value))
  }

  /** Fields whose value survives capture. */
  predicate Survives(field: string) {
    field != "to" && field != "body" && (IsHeaderField(field) ==> HeaderName(field) in CAPTURED_HEADERS)
  }

  lemma LowerTwice(s: string)
    ensures Lower(Lower(s)) == Lower(s)
  {
  }

  lemma {:induction false} CapturedKeys(headers: seq<Header>, name: string)
    requires name in Captured(headers)
    ensures name in CAPTURED_HEADERS && Lower(name) == name
  {
    if Lower(headers[0].name) == name && name in CAPTURED_HEADERS {
      LowerTwice(headers[0].name);
    } else {
      CapturedKeys(headers[1..], name);
    }
  }

  lemma {:induction false} CapturedValue(headers: seq<Header>, name: string)
    requires name in CAPTURED_HEADERS
    ensures HeaderValue(headers, name) == if name in Captured(headers) then Captured(headers)[name] else ""
  {
    if headers != [] {
      CapturedValue(headers[1..], name);
    }
  }

  lemma {:induction false} RebuiltValue(pairs: seq<(string, string)>, m: map<string, string>, name: string)
    requires forall i :: 0 <= i < |pairs| ==>
               Lower(pairs[i].0) == pairs[i].0 && pairs[i].0 in m && m[pairs[i].0] == pairs[i].1
    ensures HeaderValue(RebuiltHeaders(pairs), name) ==
            if exists i :: 0 <= i < |pairs| && pairs[i].0 == name then m[name] else ""
  {
    if pairs != [] {
      assert RebuiltHeaders(pairs)[1..] == RebuiltHeaders(pairs[1..]);
      RebuiltValue(pairs[1..], m, name);
      assert (exists i :: 0 <= i < |pairs| && pairs[i].0 == name) <==>
             pairs[0].0 == name || (exists i :: 0 <= i < |pairs[1..]| && pairs[1..][i].0 == name) by {
        assert forall i :: 0 < i < |pairs| ==> pairs[i] == pairs[1..][i - 1];
      }
    }
  }

  lemma HeaderSurvives(d: Decision, email: Email, name: string)
    requires Decides(d, email) && name in CAPTURED_HEADERS
    ensures HeaderValue(Rebuilt(d).headers, name) == HeaderValue(email.headers, name)
  {
    var m := Captured(email.headers);
    CapturedValue(email.headers, name);
    if m != map[] {
      var pairs := d.headers.value;
      forall i | 0 <= i < |pairs| ensures Lower(pairs[i].0) == pairs[i].0 {
        CapturedKeys(email.headers, pairs[i].0);
      }
      RebuiltValue(pairs, m, name);
    }
  }

  lemma FieldSurvives(d: Decision, email: Email, field: string)
    requires Decides(d, email) && Survives(field)
    ensures FieldValue(Rebuilt(d), field) == FieldValue(email, field)
  {
    LowerTwice(email.sender);
    if IsHeaderField(field) {
      HeaderSurvives(d, email, HeaderName(field));
    }
  }

  /** Capturing preserves verdicts: on rules over surviving fields, the rebuilt envelope and the original
      email get the same answer, whatever the operators, the combinator and the order of stored headers. */
  lemma CapturePreservesVerdict(eng: Engines, d: Decision, email: Email, rule: Rule)
    requires Decides(d, email)
    requires forall i :: 0 <= i < |rule.conditions| ==> Survives(rule.conditions[i].field)
    ensures RuleMatches(eng, Rebuilt(d), rule) == RuleMatches(eng, email, rule)
  {
    forall i | 0 <= i < |rule.conditions|
      ensures ConditionMatches(eng, Rebuilt(d), rule.conditions[i]) == ConditionMatches(eng, email, rule.conditions[i])
    {
      FieldSurvives(d, email, rule.conditions[i].field);
    }
  }

  // ---- The other fields do not survive ----

  ghost predicate AlwaysSame(field: string) {
    forall d, email :: Decides(d, email) ==> FieldValue(Rebuilt(d), field) == FieldValue(email, field)
  }

  lemma LostHeader(field: string)
    requires IsHeaderField(field) && HeaderName(field) !in CAPTURED_HEADERS
    ensures !AlwaysSame(field)
  {
    var email := Email("a", [], None, None, None, [Header(HeaderName(field), Some("v"))]);
    var d := Decision(0, Lower("a"), None, "spam", None);
    LowerTwice(field[|HEADER|..]);
    assert email.headers[1..] == [];
    assert Captured(email.headers) == map[];
    assert field[..|HEADER|] == HEADER;
    assert field[0] == 'h' && field != "from" && field != "to" && field != "subject" && field != "body";
    assert Decides(d, email);
    assert FieldValue(email, field) == "v" && FieldValue(Rebuilt(d), field) == "";
  }

  lemma LostRecipients()
    ensures !AlwaysSame("to")
  {
    var email := Email("a", ["b"], None, None, None, []);
    var d := Decision(0, Lower("a"), None, "spam", None);
    assert Decides(d, email);
    assert FieldValue(email, "to") == Lower("b") && FieldValue(Rebuilt(d), "to") == "";
  }

  lemma LostBody()
    ensures !AlwaysSame("body")
  {
    var email := Email("a", [], None, None, Some("p"), []);
    var d := Decision(0, Lower("a"), None, "spam", None);
    assert Decides(d, email);
    assert FieldValue(email, "body") == "p" && FieldValue(Rebuilt(d), "body") == "";
  }

  /** Exactly these fields survive capture; `to`, `body` and every other header do not. */
  lemma SurvivesExactly(field: string)
    ensures AlwaysSame(field) <==> Survives(field)
    ensures Survives(field) <==>
            field !in {"to", "body"} &&
            (IsHeaderField(field) ==>
               HeaderName(field) in {"from", "to", "subject", "list-unsubscribe", "list-id", "authentication-results"})
  {
    if Survives(field) {
      forall d, email | Decides(d, email) ensures FieldValue(Rebuilt(d), field) == FieldValue(email, field) {
        FieldSurvives(d, email, field);
      }
    } else if field == "to" {
      LostRecipients();
    } else if field == "body" {
      LostBody();
    } else {
      LostHeader(field);
    }
  }

  // ---- The preview ----

  predicate UsesHeader(rule: Rule) {
    exists i :: 0 <= i < |rule.conditions| && IsHeaderField(rule.conditions[i].field)
  }

  predicate UsesBody(rule: Rule) {
    exists i :: 0 <= i < |rule.conditions| && rule.conditions[i].field == "body"
  }

  datatype Example = Example(id: int, sender: string, subject: string, bucket: string, shadowedBy: Option<string>)

  datatype Preview = Preview(matched: nat, shadowed: nat, examples: seq<Example>, shadowers: set<string>,
                             partialHeaders: bool, partialBody: bool)

  const MAX_EXAMPLES := 10

  function EarlierRules(rules: seq<Rule>, priority: int): seq<Rule> {
    if rules == [] then []
    else (if rules[0].priority < priority then [rules[0]] else []) + EarlierRules(rules[1..], priority)
  }

  predicate Hits(eng: Engines, d: Decision, rule: Rule) {
    RuleMatches(eng, Rebuilt(d), rule) == Some(true)
  }

  /** The decisions the proposal matches, in order. */
  function Matched(eng: Engines, ds: seq<Decision>, p: Rule): seq<Decision> {
    if ds == [] then []
    else Matched(eng, ds[..|ds| - 1], p) + (if Hits(eng, ds[|ds| - 1], p) then [ds[|ds| - 1]] else [])
  }

  /** The earlier rule that takes a decision before the proposal can. */
  function Shadower(eng: Engines, earlier: seq<Rule>, d: Decision): Option<Rule> {
    FirstMatch(eng, Rebuilt(d), earlier)
  }

  function Shadowed(eng: Engines, earlier: seq<Rule>, ds: seq<Decision>): seq<Decision> {
    if ds == [] then []
    else Shadowed(eng, earlier, ds[..|ds| - 1]) +
         (if Shadower(eng, earlier, ds[|ds| - 1]).Some? then [ds[|ds| - 1]] else [])
  }

  function ExampleOf(eng: Engines, earlier: seq<Rule>, d: Decision): Example {
    var s := Shadower(eng, earlier, d);
    Example(d.id, d.sender, Text(d.subject), d.bucket, if s.None? then None else Some(s.value.name))
  }

  predicate HasShadower(eng: Engines, earlier: seq<Rule>, ds: seq<Decision>, name: string) {
    exists i :: 0 <= i < |ds| && Shadower(eng, earlier, ds[i]).Some? && Shadower(eng, earlier, ds[i]).value.name == name
  }

  ghost predicate IsPreview(eng: Engines, earlier: seq<Rule>, hits: seq<Decision>, r: Preview) {
    && r.matched == |hits|
    && r.shadowed == |Shadowed(eng, earlier, hits)|
    && |r.examples| == (if |hits| < MAX_EXAMPLES then |hits| else MAX_EXAMPLES)
    && (forall i :: 0 <= i < |r.examples| ==> r.examples[i] == ExampleOf(eng, earlier, hits[i]))
    && (forall name :: name in r.shadowers <==> HasShadower(eng, earlier, hits, name))
  }

  /** The shadow loop: the first earlier rule that matches. */
  method FindShadower(eng: Engines, earlier: seq<Rule>, envelope: Email) returns (s: Option<Rule>)
    ensures s == FirstMatch(eng, envelope, earlier)
  {
    assert earlier[0..] == earlier;
    for i := 0 to |earlier|
      invariant FirstMatch(eng, envelope, earlier) == FirstMatch(eng, envelope, earlier[i..])
    {
      assert earlier[i..][1..] == earlier[i + 1..];
      if RuleMatches(eng, envelope, earlier[i]) == Some(true) {
        return Some(earlier[i]);
      }
    }
    return None;
  }

  predicate NullHeaders(d: Decision) {
    d.headers.None?
  }

  /** What makes the preview call itself partial: a condition on stored headers that are missing, or on
      the body, in the proposal or in the rule that shadows it. */
  predicate SkipsHeaders(eng: Engines, earlier: seq<Rule>, p: Rule, d: Decision) {
    var s := Shadower(eng, earlier, d);
    NullHeaders(d) && (UsesHeader(p) || (Hits(eng, d, p) && s.Some? && UsesHeader(s.value)))
  }

  predicate SkipsBody(eng: Engines, earlier: seq<Rule>, p: Rule, d: Decision) {
    var s := Shadower(eng, earlier, d);
    UsesBody(p) || (Hits(eng, d, p) && s.Some? && UsesBody(s.value))
  }

  ghost predicate HeadersSkipped(eng: Engines, earlier: seq<Rule>, p: Rule, ds: seq<Decision>) {
    exists i :: 0 <= i < |ds| && SkipsHeaders(eng, earlier, p, ds[i])
  }

  ghost predicate BodySkipped(eng: Engines, earlier: seq<Rule>, p: Rule, ds: seq<Decision>) {
    exists i :: 0 <= i < |ds| && SkipsBody(eng, earlier, p, ds[i])
  }

  lemma PreviewNext(eng: Engines, earlier: seq<Rule>, hits: seq<Decision>, r: Preview, r': Preview, d: Decision)
    requires IsPreview(eng, earlier, hits, r)
    requires var s := Shadower(eng, earlier, d);
             && r'.matched == r.matched + 1
             && r'.shadowed == r.shadowed + (if s.Some? then 1 else 0)
             && r'.examples == (if |r.examples| < MAX_EXAMPLES then r.examples + [ExampleOf(eng, earlier, d)] else r.examples)
             && r'.shadowers == r.shadowers + (if s.Some? then {s.value.name} else {})
    ensures IsPreview(eng, earlier, hits + [d], r')
  {
    var all := hits + [d];
    assert all[..|all| - 1] == hits;
    forall name ensures HasShadower(eng, earlier, all, name) <==>
      HasShadower(eng, earlier, hits, name) ||
      (Shadower(eng, earlier, d).Some? && Shadower(eng, earlier, d).value.name == name)
    {
      assert all[|hits|] == d;
      assert forall i :: 0 <= i < |hits| ==> all[i] == hits[i];
    }
  }

  lemma SkippedNext(eng: Engines, earlier: seq<Rule>, p: Rule, ds: seq<Decision>, d: Decision)
    ensures HeadersSkipped(eng, earlier, p, ds + [d]) <==>
            HeadersSkipped(eng, earlier, p, ds) || SkipsHeaders(eng, earlier, p, d)
    ensures BodySkipped(eng, earlier, p, ds + [d]) <==>
            BodySkipped(eng, earlier, p, ds) || SkipsBody(eng, earlier, p, d)
  {
    var all := ds + [d];
    assert all[|ds|] == d;
    assert forall j :: 0 <= j < |ds| ==> all[j] == ds[j];
  }

  /** What the preview says of the decisions seen so far. */
  ghost predicate Reports(eng: Engines, earlier: seq<Rule>, p: Rule, ds: seq<Decision>, r: Preview) {
    && IsPreview(eng, earlier, Matched(eng, ds, p), r)
    && (r.partialHeaders <==> HeadersSkipped(eng, earlier, p, ds))
    && (r.partialBody <==> BodySkipped(eng, earlier, p, ds))
  }

  /** `r'` is the report `r` after one more decision. */
  ghost predicate Accounts(eng: Engines, earlier: seq<Rule>, p: Rule, d: Decision, r: Preview, r': Preview) {
    var s := Shadower(eng, earlier, d);
    && (r'.partialHeaders <==> r.partialHeaders || SkipsHeaders(eng, earlier, p, d))
    && (r'.partialBody <==> r.partialBody || SkipsBody(eng, earlier, p, d))
    && if Hits(eng, d, p) then
         && r'.matched == r.matched + 1
         && r'.shadowed == r.shadowed + (if s.Some? then 1 else 0)
         && r'.examples == (if |r.examples| < MAX_EXAMPLES then r.examples + [ExampleOf(eng, earlier, d)] else r.examples)
         && r'.shadowers == r.shadowers + (if s.Some? then {s.value.name} else {})
       else
         && r'.matched == r.matched && r'.shadowed == r.shadowed
         && r'.examples == r.examples && r'.shadowers == r.shadowers
  }

  lemma ReportsNext(eng: Engines, earlier: seq<Rule>, p: Rule, ds: seq<Decision>, d: Decision, r: Preview, r': Preview)
    requires Reports(eng, earlier, p, ds, r) && Accounts(eng, earlier, p, d, r, r')
    ensures Reports(eng, earlier, p, ds + [d], r')
  {
    assert (ds + [d])[..|ds|] == ds;
    SkippedNext(eng, earlier, p, ds, d);
    var hits := Matched(eng, ds, p);
    assert Matched(eng, ds + [d], p) == hits + (if Hits(eng, d, p) then [d] else []);
    if Hits(eng, d, p) {
      PreviewNext(eng, earlier, hits, r, r', d);
    } else {
      assert hits + [] == hits;
    }
  }

  /** Body of the loop over decisions. */
  method ProposeStep(eng: Engines, earlier: seq<Rule>, p: Rule, d: Decision, was: Preview) returns (r: Preview)
    ensures Accounts(eng, earlier, p, d, was, r)
  {
    var partialHeaders := was.partialHeaders || (UsesHeader(p) && NullHeaders(d));
    var partialBody := was.partialBody || UsesBody(p);
    if !Hits(eng, d, p) {
      return was.(partialHeaders := partialHeaders, partialBody := partialBody);
    }
    var s := FindShadower(eng, earlier, Rebuilt(d));
    var shadowed, shadowers := was.shadowed, was.shadowers;
    if s.Some? {
      shadowers := shadowers + {s.value.name};
      partialHeaders := partialHeaders || (UsesHeader(s.value) && NullHeaders(d));
      partialBody := partialBody || UsesBody(s.value);
      shadowed := shadowed + 1;
    }
    var examples := was.examples;
    if |examples| < MAX_EXAMPLES {
      var shadowedBy := if s.None? then None else Some(s.value.name);
      examples := examples + [Example(d.id, d.sender, Text(d.subject), d.bucket, shadowedBy)];
    }
    r := Preview(was.matched + 1, shadowed, examples, shadowers, partialHeaders, partialBody);
  }

  /** `propose_rule`, from the decisions and the enabled rules on. */
  method ProposeRule(eng: Engines, ds: seq<Decision>, rules: seq<Rule>, p: Rule) returns (r: Preview)
    ensures Reports(eng, EarlierRules(rules, p.priority), p, ds, r)
  {
    var earlier := EarlierRules(rules, p.priority);
    r := Preview(0, 0, [], {}, false, false);
    NothingReported(eng, earlier, p);
    assert ds[..0] == [];
    for i := 0 to |ds|
      invariant Reports(eng, earlier, p, ds[..i], r)
    {
      ghost var was := r;
      r := ProposeStep(eng, earlier, p, ds[i], r);
      ReportsNext(eng, earlier, p, ds[..i], ds[i], was, r);
      assert ds[..i] + [ds[i]] == ds[..i + 1];
    }
    assert ds[..|ds|] == ds;
  }

  /** The example is that decision, with the name of the first smaller-priority rule that matches it, if any. */
  predicate ShowsExample(eng: Engines, rules: seq<Rule>, p: Rule, d: Decision, e: Example) {
    var shadower := FirstMatch(eng, Rebuilt(d), EarlierRules(rules, p.priority));
    && e.id == d.id && e.sender == d.sender && e.bucket == d.bucket
    && e.subject == (if d.subject.Some? then d.subject.value else "")
    && e.shadowedBy == (if shadower.Some? then Some(shadower.value.name) else None)
  }

  /** When a report calls itself partial: the proposal, or the rule that shadows a decision it matches, has a condition
      on a header although that decision stored none; or one of them has a condition on the body. */
  lemma PartialExactly(eng: Engines, earlier: seq<Rule>, p: Rule, d: Decision)
    ensures var s := FirstMatch(eng, Rebuilt(d), earlier);
            var shadows := RuleMatches(eng, Rebuilt(d), p) == Some(true) && s.Some?;
            && (SkipsHeaders(eng, earlier, p, d) <==>
                  d.headers == None &&
                  ((exists i :: 0 <= i < |p.conditions| && "header:" <= p.conditions[i].field)
                   || (shadows && exists i :: 0 <= i < |s.value.conditions| && "header:" <= s.value.conditions[i].field)))
            && (SkipsBody(eng, earlier, p, d) <==>
                  (exists i :: 0 <= i < |p.conditions| && p.conditions[i].field == "body")
                  || (shadows && exists i :: 0 <= i < |s.value.conditions| && s.value.conditions[i].field == "body"))
  {
  }

  /** A report shows the first ten matched decisions, as they are stored. */
  lemma ReportShowsExamples(eng: Engines, rules: seq<Rule>, p: Rule, ds: seq<Decision>, r: Preview)
    requires Reports(eng, EarlierRules(rules, p.priority), p, ds, r)
    ensures var hits := Matched(eng, ds, p);
            && |r.examples| == (if |hits| < 10 then |hits| else 10)
            && forall i :: 0 <= i < |r.examples| ==> ShowsExample(eng, rules, p, hits[i], r.examples[i])
  {
  }

  ghost predicate Ascends(at: seq<nat>) {
    forall i, j :: 0 <= i < j < |at| ==> at[i] < at[j]
  }

  /** `at` lists the positions of the decisions that pass, in order, and `found` those decisions. */
  ghost predicate Picked(ds: seq<Decision>, found: seq<Decision>, at: seq<nat>, pass: Decision -> bool) {
    && Ascends(at) && |found| == |at|
    && (forall k :: 0 <= k < |at| ==> at[k] < |ds| && found[k] == ds[at[k]])
    && (forall i: nat :: i in at <==> i < |ds| && pass(ds[i]))
  }

  lemma PickedNext(ds: seq<Decision>, found: seq<Decision>, at: seq<nat>, pass: Decision -> bool, d: Decision)
    requires Picked(ds, found, at, pass)
    ensures Picked(ds + [d], found + (if pass(d) then [d] else []), at + (if pass(d) then [|ds|] else []), pass)
  {
    var all, longer := ds + [d], at + (if pass(d) then [|ds|] else []);
    assert forall k :: 0 <= k < |at| ==> at[k] in at;
    forall i: nat ensures i in longer <==> i < |all| && pass(all[i]) {
      assert i in longer <==> i in at || (pass(d) && i == |ds|);
    }
  }

  /** The matched decisions are exactly those that the proposal matches on their rebuilt envelope, in order. */
  lemma {:induction false} MatchedExactly(eng: Engines, ds: seq<Decision>, p: Rule) returns (at: seq<nat>)
    ensures Picked(ds, Matched(eng, ds, p), at, (d: Decision) => RuleMatches(eng, Rebuilt(d), p) == Some(true))
  {
    at := [];
    if ds != [] {
      var n := |ds| - 1;
      var pass := (d: Decision) => RuleMatches(eng, Rebuilt(d), p) == Some(true);
      var before := MatchedExactly(eng, ds[..n], p);
      PickedNext(ds[..n], Matched(eng, ds[..n], p), before, pass, ds[n]);
      assert ds[..n] + [ds[n]] == ds;
      at := before + (if pass(ds[n]) then [n] else []);
    }
  }

  /** And the shadowed ones exactly those that some smaller-priority rule matches. */
  lemma {:induction false} ShadowedExactly(eng: Engines, earlier: seq<Rule>, ds: seq<Decision>) returns (at: seq<nat>)
    ensures Picked(ds, Shadowed(eng, earlier, ds), at, (d: Decision) => FirstMatch(eng, Rebuilt(d), earlier).Some?)
  {
    at := [];
    if ds != [] {
      var n := |ds| - 1;
      var pass := (d: Decision) => FirstMatch(eng, Rebuilt(d), earlier).Some?;
      var before := ShadowedExactly(eng, earlier, ds[..n]);
      PickedNext(ds[..n], Shadowed(eng, earlier, ds[..n]), before, pass, ds[n]);
      assert ds[..n] + [ds[n]] == ds;
      at := before + (if pass(ds[n]) then [n] else []);
    }
  }

  lemma NothingReported(eng: Engines, earlier: seq<Rule>, p: Rule)
    ensures Reports(eng, earlier, p, [], Preview(0, 0, [], {}, false, false))
  {
  }

  // ---- The preview agrees with the live matcher ----

  /** How the database orders names. */
  type Collation = (string, string) -> bool

  ghost predicate StrictOrder(before: Collation) {
    && (forall a :: !before(a, a))
    && (forall a, b, c :: before(a, b) && before(b, c) ==> before(a, c))
    && (forall a, b :: before(a, b) || a == b || before(b, a))
  }

  /** ORDER BY priority, name. */
  predicate Precedes(before: Collation, a: Rule, b: Rule) {
    a.priority < b.priority || (a.priority == b.priority && before(a.name, b.name))
  }

  /** The rules of `list_all(enabled_only=True)`. */
  ghost predicate StoreOrder(before: Collation, rules: seq<Rule>) {
    && StrictOrder(before)
    && (forall i :: 0 <= i < |rules| ==> rules[i].enabled)
    && (forall i, j :: 0 <= i < j < |rules| ==> !Precedes(before, rules[j], rules[i]))
  }

  /** The same list once the proposal is stored; a disabled proposal is not in it. */
  function WithProposal(before: Collation, rules: seq<Rule>, p: Rule): seq<Rule> {
    if !p.enabled then rules
    else if rules == [] || !Precedes(before, rules[0], p) then [p] + rules
    else [rules[0]] + WithProposal(before, rules[1..], p)
  }

  /** What the preview reports about an email the proposal matches: the shadowing rule, or the proposal itself. */
  function Predicted(eng: Engines, email: Email, rules: seq<Rule>, p: Rule): Option<Rule> {
    var shadower := FirstMatch(eng, email, EarlierRules(rules, p.priority));
    if shadower.Some? then shadower else Some(p)
  }

  predicate SmallerPriorityMatches(eng: Engines, email: Email, rules: seq<Rule>, p: Rule) {
    exists i :: 0 <= i < |rules| && rules[i].priority < p.priority && RuleMatches(eng, email, rules[i]) == Some(true)
  }

  /** A rule of the proposal's own priority that the store lists before it matches. */
  predicate TieMatches(eng: Engines, email: Email, before: Collation, rules: seq<Rule>, p: Rule) {
    exists i :: 0 <= i < |rules| && rules[i].priority == p.priority && before(rules[i].name, p.name)
                && RuleMatches(eng, email, rules[i]) == Some(true)
  }

  predicate PreviewHolds(eng: Engines, email: Email, before: Collation, rules: seq<Rule>, p: Rule) {
    SmallerPriorityMatches(eng, email, rules, p) || (p.enabled && !TieMatches(eng, email, before, rules, p))
  }

  lemma {:induction false} NoEarlier(rules: seq<Rule>, priority: int)
    requires forall i :: 0 <= i < |rules| ==> rules[i].priority >= priority
    ensures EarlierRules(rules, priority) == []
  {
    if rules != [] {
      NoEarlier(rules[1..], priority);
    }
  }

  lemma {:induction false} FirstIsListed(eng: Engines, email: Email, rules: seq<Rule>)
    ensures var r := FirstMatch(eng, email, rules); r.Some? ==> r.value in rules && RuleMatches(eng, email, r.value) == Some(true)
  {
    if rules != [] {
      FirstIsListed(eng, email, rules[1..]);
    }
  }

  lemma {:induction false} FirstOfEarlier(eng: Engines, email: Email, rules: seq<Rule>, p: Rule)
    ensures FirstMatch(eng, email, EarlierRules(rules, p.priority)).Some? <==> SmallerPriorityMatches(eng, email, rules, p)
  {
    if rules != [] {
      FirstOfEarlier(eng, email, rules[1..], p);
      var rest := EarlierRules(rules[1..], p.priority);
      if rules[0].priority < p.priority {
        assert ([rules[0]] + rest)[1..] == rest;
      } else {
        assert [] + rest == rest;
      }
      assert forall i :: 0 < i < |rules| ==> rules[i] == rules[1..][i - 1];
    }
  }

  /** The rules not listed before the proposal have its priority at least, and no tie is among them. */
  lemma NothingBefore(before: Collation, rules: seq<Rule>, p: Rule)
    requires StoreOrder(before, rules) && rules != [] && !Precedes(before, rules[0], p)
    ensures forall i :: 0 <= i < |rules| ==> rules[i].priority >= p.priority && !Precedes(before, rules[i], p)
  {
    forall i | 0 <= i < |rules| ensures rules[i].priority >= p.priority && !Precedes(before, rules[i], p) {
      if i > 0 {
        assert !Precedes(before, rules[i], rules[0]);
      }
    }
  }

  lemma {:induction false} LiveAgain(eng: Engines, email: Email, before: Collation, rules: seq<Rule>, p: Rule)
    requires StoreOrder(before, rules) && p.enabled && RuleMatches(eng, email, p) == Some(true)
    ensures FirstMatch(eng, email, WithProposal(before, rules, p)) == Predicted(eng, email, rules, p)
       <==> PreviewHolds(eng, email, before, rules, p)
  {
    if rules == [] || !Precedes(before, rules[0], p) {
      if rules != [] {
        NothingBefore(before, rules, p);
      }
      NoEarlier(rules, p.priority);
    } else {
      var first, rest := rules[0], rules[1..];
      var live := WithProposal(before, rest, p);
      assert ([first] + live)[1..] == live;
      assert forall i :: 0 < i < |rules| ==> rules[i] == rest[i - 1];
      if RuleMatches(eng, email, first) == Some(true) {
        if first.priority == p.priority {
          forall i | 0 <= i < |rules| ensures rules[i].priority >= p.priority {
            assert i > 0 ==> !Precedes(before, rules[i], first);
          }
          NoEarlier(rules, p.priority);
        } else {
          assert SmallerPriorityMatches(eng, email, rules, p);
        }
      } else {
        LiveAgain(eng, email, before, rest, p);
        var earlier := EarlierRules(rest, p.priority);
        assert ([first] + earlier)[1..] == earlier && [] + earlier == earlier;
        assert Predicted(eng, email, rules, p) == Predicted(eng, email, rest, p);
        assert SmallerPriorityMatches(eng, email, rules, p) <==> SmallerPriorityMatches(eng, email, rest, p);
        assert TieMatches(eng, email, before, rules, p) <==> TieMatches(eng, email, before, rest, p);
      }
    }
  }

  /** On an email the proposal matches, the live static stage picks what the preview reports, the shadowing rule or
      the proposal, if and only if some rule of strictly smaller priority matches, or the proposal is enabled and no
      matching rule of the same priority has a smaller name. */
  lemma PreviewAgreesWithLive(eng: Engines, email: Email, before: Collation, rules: seq<Rule>, p: Rule)
    requires StoreOrder(before, rules) && RuleMatches(eng, email, p) == Some(true)
    ensures FirstMatch(eng, email, WithProposal(before, rules, p)) == Predicted(eng, email, rules, p)
       <==> PreviewHolds(eng, email, before, rules, p)
  {
    if p.enabled {
      LiveAgain(eng, email, before, rules, p);
    } else {
      FirstOfEarlier(eng, email, rules, p);
      FirstIsListed(eng, email, rules);
      if SmallerPriorityMatches(eng, email, rules, p) {
        FirstIsEarlier(eng, email, before, rules, p);
      }
    }
  }

  /** A match of smaller priority comes first. */
  lemma {:induction false} FirstIsEarlier(eng: Engines, email: Email, before: Collation, rules: seq<Rule>, p: Rule)
    requires StoreOrder(before, rules) && SmallerPriorityMatches(eng, email, rules, p)
    ensures FirstMatch(eng, email, rules) == FirstMatch(eng, email, EarlierRules(rules, p.priority))
  {
    var k :| 0 <= k < |rules| && rules[k].priority < p.priority && RuleMatches(eng, email, rules[k]) == Some(true);
    var first, rest := rules[0], rules[1..];
    assert k > 0 ==> !Precedes(before, rules[k], first);
    var earlier := EarlierRules(rest, p.priority);
    assert EarlierRules(rules, p.priority) == [first] + earlier && ([first] + earlier)[1..] == earlier;
    if RuleMatches(eng, email, first) != Some(true) {
      assert rest[k - 1] == rules[k];
      FirstIsEarlier(eng, email, before, rest, p);
    }
  }

  /** The exception is the default case, since priorities default to the same number: an enabled rule with a smaller
      name takes the email, and the preview reports no shadowing rule. */
  lemma TieHidesShadower(eng: Engines, email: Email, before: Collation, rule: Rule, p: Rule)
    requires StrictOrder(before) && rule.enabled && p.enabled
    requires rule.priority == p.priority && before(rule.name, p.name)
    requires RuleMatches(eng, email, rule) == Some(true) && RuleMatches(eng, email, p) == Some(true)
    ensures StoreOrder(before, [rule])
    ensures Predicted(eng, email, [rule], p) == Some(p)
    ensures FirstMatch(eng, email, WithProposal(before, [rule], p)) == Some(rule) && rule != p
  {
    NoEarlier([rule], p.priority);
    assert ([rule] + WithProposal(before, [], p))[0] == rule;
  }

  /** End to end: for a decided email and rules over surviving fields, the preview's reading of the stored row tells
      whether the proposal matches the original email, and then what the live static stage does with it, if and only
      if the stored row passes the guard of `PreviewAgreesWithLive`. */
  lemma PreviewPredictsLive(eng: Engines, d: Decision, email: Email, before: Collation, rules: seq<Rule>, p: Rule)
    requires Decides(d, email) && StoreOrder(before, rules)
    requires AllSurvive(p) && forall i :: 0 <= i < |rules| ==> AllSurvive(rules[i])
    ensures Hits(eng, d, p) <==> RuleMatches(eng, email, p) == Some(true)
    ensures Hits(eng, d, p) ==>
              (FirstMatch(eng, email, WithProposal(before, rules, p)) == Predicted(eng, Rebuilt(d), rules, p)
               <==> PreviewHolds(eng, Rebuilt(d), before, rules, p))
  {
    CapturePreservesVerdict(eng, d, email, p);
    if Hits(eng, d, p) {
      PreviewAgreesWithLive(eng, email, before, rules, p);
      EarlierSurvive(rules, p.priority);
      SameFirstMatch(eng, d, email, EarlierRules(rules, p.priority));
      forall i | 0 <= i < |rules| ensures RuleMatches(eng, Rebuilt(d), rules[i]) == RuleMatches(eng, email, rules[i]) {
        CapturePreservesVerdict(eng, d, email, rules[i]);
      }
    }
  }

  predicate AllSurvive(rule: Rule) {
    forall i :: 0 <= i < |rule.conditions| ==> Survives(rule.conditions[i].field)
  }

  lemma {:induction false} EarlierSurvive(rules: seq<Rule>, priority: int)
    requires forall i :: 0 <= i < |rules| ==> AllSurvive(rules[i])
    ensures forall i :: 0 <= i < |EarlierRules(rules, priority)| ==> AllSurvive(EarlierRules(rules, priority)[i])
  {
    if rules != [] {
      EarlierSurvive(rules[1..], priority);
    }
  }

  lemma {:induction false} SameFirstMatch(eng: Engines, d: Decision, email: Email, rules: seq<Rule>)
    requires Decides(d, email) && forall i :: 0 <= i < |rules| ==> AllSurvive(rules[i])
    ensures FirstMatch(eng, Rebuilt(d), rules) == FirstMatch(eng, email, rules)
  {
    if rules != [] {
      CapturePreservesVerdict(eng, d, email, rules[0]);
      SameFirstMatch(eng, d, email, rules[1..]);
    }
  }

  /** Outside the surviving fields the preview can be wrong without calling itself partial: a proposal on `to`
      misses every stored decision, though live it would have matched. */
  lemma RecipientRuleMissesSilently(eng: Engines, d: Decision, email: Email, address: string, priority: int)
    requires Decides(d, email) && email.to == [address] && address != ""
    ensures var p := Rule("p", [Condition("to", "equals", address)], "AND", priority, true);
            && RuleMatches(eng, email, p) == Some(true)
            && !Hits(eng, d, p)
            && forall earlier :: !SkipsHeaders(eng, earlier, p, d) && !SkipsBody(eng, earlier, p, d)
  {
    var c := Condition("to", "equals", address);
    LowerTwice(address);
    assert FieldValue(email, "to") == Lower(address) && FieldValue(Rebuilt(d), "to") == "";
    assert ConditionMatches(eng, email, c) && !ConditionMatches(eng, Rebuilt(d), c) by {
      assert |Lower(address)| == |address| && Lower("") == "";
    }
    var p := Rule("p", [c], "AND", priority, true);
    assert p.conditions[0] == c;
    assert !UsesHeader(p) by {
      assert !IsHeaderField("to");
    }
  }

  lemma UncapturedIsEmpty(d: Decision, email: Email, field: string)
    requires Decides(d, email) && d.headers.Some?
    requires IsHeaderField(field) && HeaderName(field) !in CAPTURED_HEADERS
    ensures FieldValue(Rebuilt(d), field) == ""
  {
    var pairs := d.headers.value;
    assert field[0] == HEADER[0] && field != "from" && field != "to" && field != "subject" && field != "body";
    forall i | 0 <= i < |pairs| ensures Lower(pairs[i].0) == pairs[i].0 && pairs[i].0 in CAPTURED_HEADERS {
      CapturedKeys(email.headers, pairs[i].0);
    }
    RebuiltValue(pairs, Captured(email.headers), HeaderName(field));
  }

  /** The same for a header outside the whitelist, when some other header was captured. */
  lemma UncapturedHeaderMissesSilently(eng: Engines, d: Decision, email: Email, field: string, priority: int)
    requires Decides(d, email) && d.headers.Some?
    requires IsHeaderField(field) && HeaderName(field) !in CAPTURED_HEADERS
    requires FieldValue(email, field) != ""
    ensures var p := Rule("p", [Condition(field, "equals", FieldValue(email, field))], "AND", priority, true);
            && RuleMatches(eng, email, p) == Some(true)
            && !Hits(eng, d, p)
            && forall earlier :: !SkipsHeaders(eng, earlier, p, d) && !SkipsBody(eng, earlier, p, d)
  {
    var v := FieldValue(email, field);
    var c := Condition(field, "equals", v);
    var p := Rule("p", [c], "AND", priority, true);
    UncapturedIsEmpty(d, email, field);
    assert field[0] == HEADER[0] && field != "body";
    assert |Lower(v)| == |v| && Lower("") == "";
    assert ConditionMatches(eng, email, c) && !ConditionMatches(eng, Rebuilt(d), c);
    assert p.conditions[0] == c;
    assert !NullHeaders(d) && !UsesBody(p);
  }
}
