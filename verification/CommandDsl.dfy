/**
  The command DSL (app/core/execution_dsl.py): a validated intent, the argument list built
  from it, and the display string joined from that list.

  JSON objects come parsed.  `Effect` says what a command does; the argument list
  and the display string determine it, and are determined by it.
*/
module CommandDsl {
  import opened Common
  import opened Decimal

  /** A JSON value; `Other` is a float, list or the like with its Python text and truth value. */
  datatype Json =
    | Null
    | Bool(flag: bool)
    | Int(number: int)
    | Str(text: string)
    | Obj(fields: map<string, Json>)
    | Other(repr: string, truthy: bool)

  type Params = map<string, Json>

  datatype Action = RestartDeployment | ScaleDeployment | GetLogs | DescribeResource | GetPods

  datatype Concurrency = Unprotected | Precondition | NotNeeded

  datatype ActionSpec = ActionSpec(mutating: bool, concurrency: Concurrency)

  datatype Intent = Intent(
    action: Action, resourceType: string, resourceName: string, namespace: string, params: Params,
    risk: string, playbook: Option<string>, playbookMatch: Option<string>)

  const FORBIDDEN_NAMESPACES: set<string> := {"kube-system", "kube-public", "kube-node-lease", "chaos-mesh", "mcp"}
  const RESOURCE_TYPES: set<string> := {"deployment", "pod", "service", "ingress"}
  const MAX_INT32 := 0x7fff_ffff

  /** `ACTION_SPECS` */
  function SpecOf(a: Action): ActionSpec {
    match a
    case RestartDeployment => ActionSpec(true, Unprotected)
    case ScaleDeployment => ActionSpec(true, Precondition)
    case _ => ActionSpec(false, NotNeeded)
  }

  // ---- character sets -----------------------------------------------------------------------------

  predicate IsLower(c: char) {
    'a' <= c <= 'z' || IsDigit(c)
  }

  /** `[a-z0-9]([a-z0-9.\-]{0,251}[a-z0-9])?` */
  predicate NameOk(s: string) {
    && 1 <= |s| <= 253 && IsLower(s[0]) && IsLower(s[|s| - 1])
    && forall i | 0 <= i < |s| :: IsLower(s[i]) || s[i] == '.' || s[i] == '-'
  }

  /** `[A-Za-z0-9._/=,\-]{1,253}` */
  predicate LabelOk(s: string) {
    && 1 <= |s| <= 253
    && forall i | 0 <= i < |s| :: IsLower(s[i]) || 'A' <= s[i] <= 'Z' || s[i] in "._/=,-"
  }

  predicate PlaybookOk(s: string) {
    1 <= |s| <= 64 && forall i | 0 <= i < |s| :: IsLower(s[i]) || s[i] == '_'
  }

  predicate MatchOk(s: string) {
    |s| == 12 && forall i | 0 <= i < |s| :: IsDigit(s[i]) || 'a' <= s[i] <= 'f'
  }

  predicate NamespaceOk(s: string) {
    NameOk(s) && s !in FORBIDDEN_NAMESPACES
  }

  const LETTERS := "abcdefghijklmnopqrstuvwxyz"
  const CAPITALS := "ABCDEFGHIJKLMNOPQRSTUVWXYZ"
  const DIGITS := "0123456789"

  lemma {:induction false} LettersAre(c: char)
    ensures 'a' <= c <= 'z' <==> c in LETTERS
  {
    if 'a' <= c <= 'z' {
      assert LETTERS[c as int - 'a' as int] == c;
    }
  }

  lemma {:induction false} CapitalsAre(c: char)
    ensures 'A' <= c <= 'Z' <==> c in CAPITALS
  {
    if 'A' <= c <= 'Z' {
      assert CAPITALS[c as int - 'A' as int] == c;
    }
  }

  lemma {:induction false} DigitsAre(c: char)
    ensures IsDigit(c) <==> c in DIGITS
    ensures 'a' <= c <= 'f' <==> c in "abcdef"
  {
    if IsDigit(c) {
      assert DIGITS[c as int - '0' as int] == c;
    }
    if 'a' <= c <= 'f' {
      assert "abcdef"[c as int - 'a' as int] == c;
    }
  }

  lemma {:induction false} AlphabetsAre(s: string)
    ensures forall i | 0 <= i < |s| :: IsLower(s[i]) <==> s[i] in LETTERS || s[i] in DIGITS
    ensures forall i | 0 <= i < |s| :: 'A' <= s[i] <= 'Z' <==> s[i] in CAPITALS
    ensures forall i | 0 <= i < |s| :: IsDigit(s[i]) || 'a' <= s[i] <= 'f' <==> s[i] in DIGITS || s[i] in "abcdef"
  {
    forall i | 0 <= i < |s|
      ensures IsLower(s[i]) <==> s[i] in LETTERS || s[i] in DIGITS
      ensures 'A' <= s[i] <= 'Z' <==> s[i] in CAPITALS
      ensures IsDigit(s[i]) || 'a' <= s[i] <= 'f' <==> s[i] in DIGITS || s[i] in "abcdef"
    {
      LettersAre(s[i]);
      CapitalsAre(s[i]);
      DigitsAre(s[i]);
    }
  }

  /** The four patterns by their alphabets and lengths. */
  lemma {:induction false} PatternsByAlphabet(s: string)
    ensures NameOk(s) <==>
            && 0 < |s| < 254
            && (forall i | 0 <= i < |s| :: s[i] in LETTERS || s[i] in DIGITS || s[i] == '.' || s[i] == '-')
            && (s[0] in LETTERS || s[0] in DIGITS) && (s[|s| - 1] in LETTERS || s[|s| - 1] in DIGITS)
    ensures LabelOk(s) <==>
            && 0 < |s| < 254
            && forall i | 0 <= i < |s| :: s[i] in LETTERS || s[i] in CAPITALS || s[i] in DIGITS || s[i] in "._/=,-"
    ensures PlaybookOk(s) <==>
            0 < |s| < 65 && forall i | 0 <= i < |s| :: s[i] in LETTERS || s[i] in DIGITS || s[i] == '_'
    ensures MatchOk(s) <==> |s| == 12 && forall i | 0 <= i < |s| :: s[i] in DIGITS || s[i] in "abcdef"
  {
    AlphabetsAre(s);
  }

  // ---- parameters ---------------------------------------------------------------------------------

  /** `str(v)`; of a dictionary only that it is no label matters. */
  function TextOf(v: Json): string {
    match v
    case Null => "None"
    case Bool(b) => if b then "True" else "False"
    case Int(n) => Text(n)
    case Str(s) => s
    case Obj(_) => "{}"
    case Other(t, _) => t
  }

  predicate Truthy(v: Json) {
    match v
    case Null => false
    case Bool(b) => b
    case Int(n) => n != 0
    case Str(s) => s != ""
    case Obj(f) => f != map[]
    case Other(_, t) => t
  }

  /** `s.isdigit()` on ASCII text */
  predicate IsDigits(s: string) {
    s != "" && forall c | c in s :: IsDigit(c)
  }

  /** A string of digits becomes its number. */
  function Coerced(v: Json): Json {
    if v.Str? && IsDigits(v.text) then Int(Value(v.text)) else v
  }

  predicate NumberOk(v: Json, low: int, high: int) {
    v.Int? && low <= v.number <= high
  }

  predicate ParamsOk(v: Params) {
    && ("replicas" in v ==> NumberOk(Coerced(v["replicas"]), 1, 100))
    && ("current_replicas" in v ==> NumberOk(Coerced(v["current_replicas"]), 0, MAX_INT32))
    && ("label" in v && Truthy(v["label"]) ==> LabelOk(TextOf(v["label"])))
  }

  /** The parameters with digit strings turned into numbers. */
  function Canonical(v: Params): Params {
    map k | k in v :: if k == "replicas" || k == "current_replicas" then Coerced(v[k]) else v[k]
  }

  /** `validate_params`: None is a ValidationError. */
  method ValidateParams(given: Params) returns (r: Option<Params>)
    ensures r.Some? <==> ParamsOk(given)
    ensures r.Some? ==> r.value == Canonical(given)
  {
    var v := given;
    if "replicas" in v {
      var n := v["replicas"];
      if n.Str? && IsDigits(n.text) {
        n := Int(Value(n.text));
        v := v["replicas" := n];
      }
      if n.Bool? || !n.Int? || !(1 <= n.number <= 100) {
        return None;
      }
    }
    if "current_replicas" in v {
      var c := v["current_replicas"];
      if c.Str? && IsDigits(c.text) {
        c := Int(Value(c.text));
        v := v["current_replicas" := c];
      }
      if c.Bool? || !c.Int? || !(0 <= c.number <= MAX_INT32) {
        return None;
      }
    }
    if "label" in v && Truthy(v["label"]) {
      if !LabelOk(TextOf(v["label"])) {
        return None;
      }
    }
    assert v.Keys == Canonical(given).Keys;
    return Some(v);
  }

  /** Validating what was validated changes nothing. */
  lemma {:induction false} ValidationIsIdempotent(v: Params)
    requires ParamsOk(v)
    ensures ParamsOk(Canonical(v)) && Canonical(Canonical(v)) == Canonical(v)
    ensures "replicas" in v ==> NumberOk(Canonical(v)["replicas"], 1, 100)
    ensures "current_replicas" in v ==> NumberOk(Canonical(v)["current_replicas"], 0, MAX_INT32)
    ensures forall k | k in v && k != "replicas" && k != "current_replicas" :: Canonical(v)[k] == v[k]
  {
    var c := Canonical(v);
    assert c.Keys == v.Keys;
    assert "label" in v ==> c["label"] == v["label"];
    assert Canonical(c).Keys == c.Keys;
    assert forall k | k in c :: Canonical(c)[k] == c[k];
  }

  /** A number given as text is that number. */
  lemma {:induction false} DigitsBecomeTheirNumber(n: nat)
    ensures Coerced(Str(NatText(n))) == Int(n)
  {
    ValueOfText(n);
  }

  /** So the text of a count is accepted iff the count is, and becomes it. */
  lemma {:induction false} TextCountsAreAccepted(n: nat)
    ensures ParamsOk(map["replicas" := Str(NatText(n))]) <==> 1 <= n <= 100
    ensures Canonical(map["replicas" := Str(NatText(n))]) == map["replicas" := Int(n)]
    ensures ParamsOk(map["current_replicas" := Str(NatText(n))]) <==> n < 0x8000_0000
    ensures Canonical(map["current_replicas" := Str(NatText(n))]) == map["current_replicas" := Int(n)]
  {
    DigitsBecomeTheirNumber(n);
    assert |"replicas"| != |"label"| && |"current_replicas"| != |"label"| && |"replicas"| != |"current_replicas"|;
  }

  // ---- intents -----------------------------------------------------------------------------------

  /** The state of an intent that passed validation. */
  ghost predicate Valid(i: Intent) {
    && i.resourceType in RESOURCE_TYPES
    && NameOk(i.resourceName)
    && NamespaceOk(i.namespace)
    && ParamsOk(i.params) && Canonical(i.params) == i.params
    && (i.playbook.Some? ==> PlaybookOk(i.playbook.value))
    && (i.playbookMatch.Some? ==> MatchOk(i.playbookMatch.value))
  }

  function ActionNamed(s: string): Option<Action> {
    if s == "restart_deployment" then Some(RestartDeployment)
    else if s == "scale_deployment" then Some(ScaleDeployment)
    else if s == "get_logs" then Some(GetLogs)
    else if s == "describe_resource" then Some(DescribeResource)
    else if s == "get_pods" then Some(GetPods)
    else None
  }

  /** A string field: given, or the default when the key is missing. */
  function StringField(o: map<string, Json>, k: string, missing: Option<string>): Option<string> {
    if k !in o then missing else if o[k].Str? then Some(o[k].text) else None
  }

  /** An optional string field meets its pattern, or is null or missing. */
  predicate OptionalOk(o: map<string, Json>, k: string, ok: string -> bool) {
    k in o ==> o[k].Null? || (o[k].Str? && ok(o[k].text))
  }

  function OptionalField(o: map<string, Json>, k: string): Option<string> {
    if k in o && o[k].Str? then Some(o[k].text) else None
  }

  function ParamsField(o: map<string, Json>): Params {
    if "params" in o && o["params"].Obj? then o["params"].fields else map[]
  }

  predicate FieldIs(field: Option<string>, ok: string -> bool) {
    field.Some? && ok(field.value)
  }

  /** What `model_validate` accepts. */
  predicate Accepts(obj: Json) {
    obj.Obj? &&
    var o := obj.fields;
    && FieldIs(StringField(o, "action", None), s => ActionNamed(s).Some?)
    && FieldIs(StringField(o, "resource_type", None), s => s in RESOURCE_TYPES)
    && FieldIs(StringField(o, "resource_name", None), NameOk)
    && FieldIs(StringField(o, "namespace", Some("default")), NamespaceOk)
    && StringField(o, "risk", Some("medium")).Some?
    && ("params" in o ==> o["params"].Obj?) && ParamsOk(ParamsField(o))
    && OptionalOk(o, "playbook", PlaybookOk) && OptionalOk(o, "playbook_match", MatchOk)
  }

  /** The intent an accepted object denotes. */
  function Built(obj: Json): Intent
    requires Accepts(obj)
  {
    var o := obj.fields;
    Intent(
      ActionNamed(StringField(o, "action", None).value).value,
      StringField(o, "resource_type", None).value,
      StringField(o, "resource_name", None).value,
      StringField(o, "namespace", Some("default")).value,
      Canonical(ParamsField(o)),
      StringField(o, "risk", Some("medium")).value,
      OptionalField(o, "playbook"), OptionalField(o, "playbook_match"))
  }

  lemma {:induction false} BuiltIsValid(obj: Json)
    requires Accepts(obj)
    ensures Valid(Built(obj))
  {
    ValidationIsIdempotent(ParamsField(obj.fields));
  }

  /** `model_validate`: None is a ValidationError. */
  method ModelValidate(obj: Json) returns (r: Option<Intent>)
    ensures r.Some? <==> Accepts(obj)
    ensures r.Some? ==> r.value == Built(obj) && Valid(r.value)
  {
    if !obj.Obj? {
      return None;
    }
    var o := obj.fields;
    var action := StringField(o, "action", None);
    var resourceType := StringField(o, "resource_type", None);
    var resourceName := StringField(o, "resource_name", None);
    var namespace := StringField(o, "namespace", Some("default"));
    var risk := StringField(o, "risk", Some("medium"));
    if action.None? || resourceType.None? || resourceName.None? || namespace.None? || risk.None? {
      return None;
    }
    if ActionNamed(action.value).None? || resourceType.value !in RESOURCE_TYPES {
      return None;
    }
    if !NameOk(resourceName.value) || !NamespaceOk(namespace.value) {
      return None;
    }
    if "params" in o && !o["params"].Obj? {
      return None;
    }
    if !OptionalOk(o, "playbook", PlaybookOk) || !OptionalOk(o, "playbook_match", MatchOk) {
      return None;
    }
    var given := ParamsField(o);
    var params := ValidateParams(given);
    if params.None? {
      return None;
    }
    BuiltIsValid(obj);
    return Some(Intent(
      ActionNamed(action.value).value, resourceType.value, resourceName.value, namespace.value, params.value,
      risk.value, OptionalField(o, "playbook"), OptionalField(o, "playbook_match")));
  }

  /** `_drop_server_fields` */
  function DropServerFields(obj: Json): Json {
    if !obj.Obj? then obj
    else
      var out := map k | k in obj.fields && k != "playbook_match" :: obj.fields[k];
      if "params" in out && out["params"].Obj? then
        Obj(out["params" := Obj(map k | k in out["params"].fields && k != "current_replicas" ::
            out["params"].fields[k])])
      else Obj(out)
  }

  lemma {:induction false} ServerFieldsAreDropped(obj: Json)
    requires obj.Obj?
    ensures var o := DropServerFields(obj);
            && o.Obj? && "playbook_match" !in o.fields
            && ("params" in o.fields && o.fields["params"].Obj? ==> "current_replicas" !in o.fields["params"].fields)
            && o.fields.Keys == obj.fields.Keys - {"playbook_match"}
            && (forall k | k in o.fields && k != "params" :: o.fields[k] == obj.fields[k])
            && ("params" in obj.fields && obj.fields["params"].Obj? ==>
                  "params" in o.fields && o.fields["params"].Obj?
                  && o.fields["params"].fields.Keys == obj.fields["params"].fields.Keys - {"current_replicas"}
                  && forall k | k in o.fields["params"].fields ::
                       o.fields["params"].fields[k] == obj.fields["params"].fields[k])
  {
    var out := map k | k in obj.fields && k != "playbook_match" :: obj.fields[k];
    assert out.Keys == obj.fields.Keys - {"playbook_match"};
  }

  predicate Usable(parsed: Option<Json>) {
    parsed.Some? && Accepts(DropServerFields(parsed.value))
  }

  /** `from_llm_response`, given what the whole text and its first `{…}` parse to. */
  method FromLlmResponse(whole: Option<Json>, embedded: Option<Json>) returns (r: Option<Intent>)
    ensures r == if Usable(whole) then Some(Built(DropServerFields(whole.value)))
                 else if Usable(embedded) then Some(Built(DropServerFields(embedded.value)))
                 else None
    ensures r.Some? ==> Valid(r.value) && FromModel(r.value)
  {
    if whole.Some? {
      r := ModelValidate(DropServerFields(whole.value));
      if r.Some? {
        return;
      }
    }
    if embedded.None? {
      return None;
    }
    r := ModelValidate(DropServerFields(embedded.value));
  }

  /** Nothing that only the server may set. */
  predicate FromModel(i: Intent) {
    i.playbookMatch.None? && "current_replicas" !in i.params
  }

  /** A missing namespace is `default`, a missing risk `medium`, missing parameters are none. */
  lemma {:induction false} DefaultsApply(action: string, kind: string, name: string)
    requires ActionNamed(action).Some? && kind in RESOURCE_TYPES && NameOk(name)
    ensures var obj := Obj(map["action" := Str(action), "resource_type" := Str(kind), "resource_name" := Str(name)]);
            && Accepts(obj)
            && Built(obj) == Intent(ActionNamed(action).value, kind, name, "default", map[], "medium", None, None)
  {
    assert NameOk("default") && "default"[0] != 'k' && "default"[0] != 'c' && "default"[0] != 'm';
    assert Canonical(map[]) == map[];
  }

  // ---- intents as JSON ----------------------------------------------------------------------------

  function ActionName(a: Action): string {
    match a
    case RestartDeployment => "restart_deployment"
    case ScaleDeployment => "scale_deployment"
    case GetLogs => "get_logs"
    case DescribeResource => "describe_resource"
    case GetPods => "get_pods"
  }

  function OptionalJson(s: Option<string>): Json {
    if s.Some? then Str(s.value) else Null
  }

  /** `model_dump` */
  function Dumped(i: Intent): Json {
    Obj(map[
      "action" := Str(ActionName(i.action)), "resource_type" := Str(i.resourceType),
      "resource_name" := Str(i.resourceName), "namespace" := Str(i.namespace), "params" := Obj(i.params),
      "risk" := Str(i.risk), "playbook" := OptionalJson(i.playbook), "playbook_match" := OptionalJson(i.playbookMatch)])
  }

  lemma {:induction false} ActionNamesRoundTrip(a: Action)
    ensures ActionNamed(ActionName(a)) == Some(a)
  {
  }

  /** Every valid intent is accepted again from its own dump, unchanged; and only valid intents are built. */
  lemma {:induction false} DumpRoundTrip(i: Intent)
    ensures Valid(i) <==> Accepts(Dumped(i)) && Built(Dumped(i)) == i
  {
    ActionNamesRoundTrip(i.action);
    assert ParamsField(Dumped(i).fields) == i.params;
    if Accepts(Dumped(i)) {
      ValidationIsIdempotent(i.params);
    }
  }

  // ---- commands -----------------------------------------------------------------------------------

  /** `to_argv` */
  function Argv(i: Intent): seq<string> {
    match i.action
    case RestartDeployment => ["kubectl", "rollout", "restart", "deployment/" + i.resourceName, "-n", i.namespace]
    case ScaleDeployment =>
      ["kubectl", "scale", "deployment/" + i.resourceName, "-n", i.namespace, "--replicas=" + TextOf(Replicas(i))]
      + if HasPrecondition(i) then ["--current-replicas=" + TextOf(i.params["current_replicas"])] else []
    case GetLogs => ["kubectl", "logs", i.resourceName, "-n", i.namespace, "--tail=100"]
    case DescribeResource => ["kubectl", "describe", i.resourceType + "/" + i.resourceName, "-n", i.namespace]
    case GetPods =>
      ["kubectl", "get", "pods", "-n", i.namespace] + if HasLabel(i) then ["-l", TextOf(i.params["label"])] else []
  }

  function Replicas(i: Intent): Json {
    if "replicas" in i.params then i.params["replicas"] else Int(1)
  }

  predicate HasPrecondition(i: Intent) {
    SpecOf(i.action).concurrency.Precondition? && "current_replicas" in i.params && !i.params["current_replicas"].Null?
  }

  predicate HasLabel(i: Intent) {
    "label" in i.params && Truthy(i.params["label"])
  }

  method ToArgv(i: Intent) returns (argv: seq<string>)
    ensures argv == Argv(i)
    ensures Valid(i) ==> Meaning(argv) == Some(EffectOf(i))
  {
    var ns := ["-n", i.namespace];
    match i.action {
      case RestartDeployment =>
        argv := ["kubectl", "rollout", "restart", "deployment/" + i.resourceName] + ns;
      case ScaleDeployment =>
        var replicas := if "replicas" in i.params then i.params["replicas"] else Int(1);
        argv := ["kubectl", "scale", "deployment/" + i.resourceName] + ns + ["--replicas=" + TextOf(replicas)];
        if SpecOf(i.action).concurrency.Precondition? {
          if "current_replicas" in i.params && !i.params["current_replicas"].Null? {
            argv := argv + ["--current-replicas=" + TextOf(i.params["current_replicas"])];
          }
        }
      case GetLogs =>
        argv := ["kubectl", "logs", i.resourceName] + ns + ["--tail=100"];
      case DescribeResource =>
        argv := ["kubectl", "describe", i.resourceType + "/" + i.resourceName] + ns;
      case GetPods =>
        argv := ["kubectl", "get", "pods"] + ns;
        if "label" in i.params && Truthy(i.params["label"]) {
          argv := argv + ["-l", TextOf(i.params["label"])];
        }
    }
    assert argv == Argv(i);
    if Valid(i) {
      ArgvMeansEffect(i);
    }
  }

  /** `" ".join(words)` */
  function Join(words: seq<string>): string {
    if words == [] then "" else if |words| == 1 then words[0] else words[0] + " " + Join(words[1..])
  }

  function ToKubectl(i: Intent): string {
    Join(Argv(i))
  }

  /** Length of the leading run without whitespace. */
  function WordLength(s: string): (n: nat)
    ensures n <= |s| && (n < |s| ==> IsSpace(s[n]))
    ensures forall k | 0 <= k < n :: !IsSpace(s[k])
  {
    if s == "" || IsSpace(s[0]) then 0 else 1 + WordLength(s[1..])
  }

  /** `s.split()` */
  function Words(s: string): seq<string>
    decreases |s|
  {
    if s == "" then []
    else if IsSpace(s[0]) then Words(s[1..])
    else [s[..WordLength(s)]] + Words(s[WordLength(s)..])
  }

  // ---- splitting the display string -------------------------------------------------------------------

  /** A word that `split` keeps whole. */
  predicate Clean(w: string) {
    w != "" && forall k | 0 <= k < |w| :: !IsSpace(w[k])
  }

  ghost predicate AllClean(words: seq<string>) {
    forall i | 0 <= i < |words| :: Clean(words[i])
  }

  lemma {:induction false} WordLengthOfWord(w: string, rest: string)
    requires (forall k | 0 <= k < |w| :: !IsSpace(w[k])) && (rest == "" || IsSpace(rest[0]))
    ensures WordLength(w + rest) == |w|
  {
    if w == "" {
      assert w + rest == rest;
    } else {
      assert forall k | 0 <= k < |w| - 1 :: w[1..][k] == w[k + 1];
      WordLengthOfWord(w[1..], rest);
      assert (w + rest)[1..] == w[1..] + rest;
    }
  }

  lemma {:induction false} FirstWord(w: string, rest: string)
    requires Clean(w) && (rest == "" || IsSpace(rest[0]))
    ensures Words(w + rest) == [w] + Words(rest)
  {
    WordLengthOfWord(w, rest);
    assert !IsSpace((w + rest)[0]);
    assert (w + rest)[..|w|] == w && (w + rest)[|w|..] == rest;
  }

  lemma {:induction false} WordThenRest(w: string, s: string)
    requires Clean(w)
    ensures Words(w + (" " + s)) == [w] + Words(s)
  {
    assert (" " + s)[1..] == s;
    FirstWord(w, " " + s);
  }

  lemma {:induction false} JoinCons(words: seq<string>)
    requires |words| > 1
    ensures Join(words) == words[0] + (" " + Join(words[1..]))
  {
  }

  lemma {:induction false} WordsOfJoin(words: seq<string>)
    requires AllClean(words)
    ensures Words(Join(words)) == words
  {
    if |words| == 1 {
      FirstWord(words[0], "");
      assert words[0] + "" == words[0];
    } else if words != [] {
      WordsOfJoin(words[1..]);
      JoinCons(words);
      WordThenRest(words[0], Join(words[1..]));
    }
  }

  lemma {:induction false} WordsAreClean(s: string)
    ensures AllClean(Words(s))
    decreases |s|
  {
    if s != "" {
      if IsSpace(s[0]) {
        WordsAreClean(s[1..]);
      } else {
        WordsAreClean(s[WordLength(s)..]);
      }
    }
  }

  /** Splitting a joined list gives the list back iff every word is clean. */
  lemma {:induction false} SplitUndoesJoinIff(words: seq<string>)
    ensures Words(Join(words)) == words <==> AllClean(words)
  {
    WordsAreClean(Join(words));
    if AllClean(words) {
      WordsOfJoin(words);
    }
  }

  lemma {:induction false} TextIsClean(n: int)
    ensures Clean(Text(n))
  {
    var t := Text(n);
    forall k | 0 <= k < |t|
      ensures !IsSpace(t[k])
    {
      assert t[k] in t;
    }
  }

  lemma {:induction false} PrefixedIsClean(p: string, n: int)
    requires Clean(p)
    ensures Clean(p + Text(n))
  {
    TextIsClean(n);
  }

  lemma {:induction false} NameIsClean(s: string)
    requires NameOk(s) || LabelOk(s)
    ensures Clean(s)
  {
  }

  lemma {:induction false} PlainScaleIsClean(name: string, namespace: string, replicas: int)
    requires NameOk(name) && NameOk(namespace)
    ensures AllClean(["kubectl", "scale", "deployment/" + name, "-n", namespace, "--replicas=" + Text(replicas)])
  {
    NameIsClean(name);
    NameIsClean(namespace);
    PrefixedIsClean("--replicas=", replicas);
  }

  lemma {:induction false} ScaleIsClean(i: Intent)
    requires Valid(i) && i.action.ScaleDeployment?
    ensures AllClean(Argv(i))
  {
    ValidationIsIdempotent(i.params);
    var plain := ["kubectl", "scale", "deployment/" + i.resourceName, "-n", i.namespace,
        "--replicas=" + TextOf(Replicas(i))];
    PlainScaleIsClean(i.resourceName, i.namespace, Replicas(i).number);
    if HasPrecondition(i) {
      var n := i.params["current_replicas"].number;
      PrefixedIsClean("--current-replicas=", n);
    } else {
      assert plain + [] == plain;
    }
  }

  lemma {:induction false} KindIsClean(kind: string)
    requires kind in RESOURCE_TYPES
    ensures Clean(kind + "/")
  {
    assert Clean(kind) && Clean("/");
  }

  lemma {:induction false} DescribeIsClean(i: Intent)
    requires Valid(i) && i.action.DescribeResource?
    ensures AllClean(Argv(i))
  {
    NameIsClean(i.resourceName);
    NameIsClean(i.namespace);
    KindIsClean(i.resourceType);
  }

  lemma {:induction false} PodsAreClean(i: Intent)
    requires Valid(i) && i.action.GetPods?
    ensures AllClean(Argv(i))
  {
    NameIsClean(i.namespace);
    if HasLabel(i) {
      NameIsClean(TextOf(i.params["label"]));
    }
  }

  lemma {:induction false} RestartIsClean(i: Intent)
    requires Valid(i) && i.action.RestartDeployment?
    ensures AllClean(Argv(i))
  {
    NameIsClean(i.resourceName);
    NameIsClean(i.namespace);
  }

  lemma {:induction false} LogsAreClean(i: Intent)
    requires Valid(i) && i.action.GetLogs?
    ensures AllClean(Argv(i))
  {
    NameIsClean(i.resourceName);
    NameIsClean(i.namespace);
  }

  lemma {:induction false} ArgvIsClean(i: Intent)
    requires Valid(i)
    ensures AllClean(Argv(i))
  {
    match i.action
    case ScaleDeployment => ScaleIsClean(i);
    case DescribeResource => DescribeIsClean(i);
    case GetPods => PodsAreClean(i);
    case RestartDeployment => RestartIsClean(i);
    case GetLogs => LogsAreClean(i);
  }

  /** Splitting the display string of a validated intent gives exactly its argument list. */
  lemma {:induction false} DisplaySplitsToArgv(i: Intent)
    requires Valid(i)
    ensures Words(ToKubectl(i)) == Argv(i)
  {
    ArgvIsClean(i);
    WordsOfJoin(Argv(i));
  }

  // ---- what a command does -----------------------------------------------------------------------------

  datatype Effect =
    | Restart(namespace: string, name: string)
    | Scale(namespace: string, name: string, replicas: int, expected: Option<int>)
    | Logs(namespace: string, name: string)
    | Describe(namespace: string, kind: string, name: string)
    | Pods(namespace: string, selector: Option<string>)

  function EffectOf(i: Intent): Effect {
    match i.action
    case RestartDeployment => Restart(i.namespace, i.resourceName)
    case ScaleDeployment =>
      Scale(i.namespace, i.resourceName,
            if "replicas" in i.params && i.params["replicas"].Int? then i.params["replicas"].number else 1,
            if "current_replicas" in i.params && i.params["current_replicas"].Int?
              then Some(i.params["current_replicas"].number) else None)
    case GetLogs => Logs(i.namespace, i.resourceName)
    case DescribeResource => Describe(i.namespace, i.resourceType, i.resourceName)
    case GetPods => Pods(i.namespace, if HasLabel(i) then Some(TextOf(i.params["label"])) else None)
  }

  // ---- reading an argument list as kubectl does --------------------------------------------------------

  /** What follows `p`, if `s` starts with it. */
  function Rest(s: string, p: string): Option<string> {
    if |p| <= |s| && s[..|p|] == p then Some(s[|p|..]) else None
  }

  /** The number after an option such as `--replicas=`. */
  function NumberAfter(s: string, option: string): Option<int> {
    match Rest(s, option)
    case Some(t) => if IsDigits(t) then Some(Value(t)) else None
    case None => None
  }

  /** The part before the first slash, and the part after it. */
  function SplitAtSlash(s: string): Option<(string, string)> {
    if s == "" then None
    else if s[0] == '/' then Some(("", s[1..]))
    else
      match SplitAtSlash(s[1..])
      case Some((kind, name)) => Some(([s[0]] + kind, name))
      case None => None
  }

  /** The command that kubectl would carry out, for the five forms in use. */
  function Meaning(argv: seq<string>): Option<Effect> {
    if |argv| == 6 && argv[..3] == ["kubectl", "rollout", "restart"] && argv[4] == "-n" then
      match Rest(argv[3], "deployment/")
      case Some(name) => Some(Restart(argv[5], name))
      case None => None
    else if (|argv| == 6 || |argv| == 7) && argv[..2] == ["kubectl", "scale"] && argv[3] == "-n" then
      var expected := if |argv| == 7 then NumberAfter(argv[6], "--current-replicas=") else None;
      match (Rest(argv[2], "deployment/"), NumberAfter(argv[5], "--replicas="))
      case (Some(name), Some(n)) =>
        if |argv| == 7 && expected.None? then None else Some(Scale(argv[4], name, n, expected))
      case _ => None
    else if |argv| == 6 && argv[..2] == ["kubectl", "logs"] && argv[3] == "-n" && argv[5] == "--tail=100" then
      Some(Logs(argv[4], argv[2]))
    else if |argv| == 5 && argv[..2] == ["kubectl", "describe"] && argv[3] == "-n" then
      match SplitAtSlash(argv[2])
      case Some((kind, name)) => Some(Describe(argv[4], kind, name))
      case None => None
    else if |argv| == 5 && argv[..4] == ["kubectl", "get", "pods", "-n"] then Some(Pods(argv[4], None))
    else if |argv| == 7 && argv[..4] == ["kubectl", "get", "pods", "-n"] && argv[5] == "-l" then
      Some(Pods(argv[4], Some(argv[6])))
    else None
  }

  lemma {:induction false} RestOfPrefixed(p: string, t: string)
    ensures Rest(p + t, p) == Some(t)
  {
  }

  lemma {:induction false} NumberOfText(option: string, n: nat)
    ensures NumberAfter(option + Text(n), option) == Some(n)
  {
    RestOfPrefixed(option, Text(n));
    ValueOfText(n);
  }

  lemma {:induction false} SplitsAtSlash(kind: string, name: string)
    requires '/' !in kind
    ensures SplitAtSlash(kind + "/" + name) == Some((kind, name))
  {
    if kind != "" {
      SplitsAtSlash(kind[1..], name);
      assert (kind + "/" + name)[1..] == kind[1..] + "/" + name;
      assert [kind[0]] + kind[1..] == kind;
    }
  }

  lemma {:induction false} ScaleMeansEffect(i: Intent)
    requires Valid(i) && i.action.ScaleDeployment?
    ensures Meaning(Argv(i)) == Some(EffectOf(i))
  {
    ValidationIsIdempotent(i.params);
    var argv, e := Argv(i), EffectOf(i);
    assert argv[..2] == ["kubectl", "scale"];
    RestOfPrefixed("deployment/", i.resourceName);
    NumberOfText("--replicas=", e.replicas);
    if e.expected.Some? {
      NumberOfText("--current-replicas=", e.expected.value);
    }
  }

  lemma {:induction false} DescribeMeansEffect(i: Intent)
    requires Valid(i) && i.action.DescribeResource?
    ensures Meaning(Argv(i)) == Some(EffectOf(i))
  {
    assert Argv(i)[..2] == ["kubectl", "describe"];
    assert '/' !in i.resourceType;
    SplitsAtSlash(i.resourceType, i.resourceName);
  }

  /** Read back as kubectl reads it, the argument list of a valid intent does what the intent is for. */
  lemma {:induction false} ArgvMeansEffect(i: Intent)
    requires Valid(i)
    ensures Meaning(Argv(i)) == Some(EffectOf(i))
  {
    var argv := Argv(i);
    match i.action
    case ScaleDeployment => ScaleMeansEffect(i);
    case DescribeResource => DescribeMeansEffect(i);
    case RestartDeployment =>
      assert argv[..3] == ["kubectl", "rollout", "restart"];
      RestOfPrefixed("deployment/", i.resourceName);
    case GetLogs => assert argv[..2] == ["kubectl", "logs"];
    case GetPods => assert argv[..4] == ["kubectl", "get", "pods", "-n"] && argv[1] == "get";
  }

  /** The display string, split and read, does what the intent is for. */
  lemma {:induction false} DisplayMeansEffect(i: Intent)
    requires Valid(i)
    ensures Meaning(Words(ToKubectl(i))) == Some(EffectOf(i))
  {
    DisplaySplitsToArgv(i);
    ArgvMeansEffect(i);
  }

  /** What an intent is for, in its own fields: one replica unless it says how many, and a precondition
      iff it carries a live count. */
  lemma {:induction false} EffectInFields(i: Intent)
    requires Valid(i)
    ensures i.action.RestartDeployment? ==> EffectOf(i) == Restart(i.namespace, i.resourceName)
    ensures i.action.GetLogs? ==> EffectOf(i) == Logs(i.namespace, i.resourceName)
    ensures i.action.DescribeResource? ==> EffectOf(i) == Describe(i.namespace, i.resourceType, i.resourceName)
    ensures i.action.ScaleDeployment? ==>
              && EffectOf(i).Scale? && EffectOf(i).namespace == i.namespace && EffectOf(i).name == i.resourceName
              && ("replicas" !in i.params ==> EffectOf(i).replicas == 1)
              && ("replicas" in i.params ==> i.params["replicas"] == Int(EffectOf(i).replicas))
              && ("current_replicas" in i.params <==> EffectOf(i).expected.Some?)
              && (EffectOf(i).expected.Some? ==> i.params["current_replicas"] == Int(EffectOf(i).expected.value))
    ensures i.action.GetPods? ==> EffectOf(i).Pods? && EffectOf(i).namespace == i.namespace
    ensures i.action.GetPods? && "label" !in i.params ==> EffectOf(i).selector == None
    ensures forall s | i.action.GetPods? && "label" in i.params && i.params["label"] == Str(s) ::
              EffectOf(i).selector == if s == "" then None else Some(s)
  {
    ValidationIsIdempotent(i.params);
  }

  /** Any other label selects by its Python text if it is truthy; a dictionary is no label. */
  lemma {:induction false} OtherLabels(n: int, d: map<string, Json>)
    ensures TextOf(Bool(true)) == "True" && Truthy(Bool(true)) && !Truthy(Bool(false)) && !Truthy(Null)
    ensures TextOf(Int(n)) == Text(n) && (Truthy(Int(n)) <==> n != 0)
    ensures ParamsOk(map["label" := Obj(d)]) <==> d == map[]
  {
    var p: Params := map["label" := Obj(d)];
    assert |"label"| != |"replicas"| && |"label"| != |"current_replicas"|;
    assert TextOf(Obj(d))[0] == '{';
  }

  /** An action is registered as mutating iff what it does is to restart or to scale. */
  lemma {:induction false} MutatingIffItChanges(i: Intent)
    ensures SpecOf(i.action).mutating <==> EffectOf(i).Restart? || EffectOf(i).Scale?
  {
  }

  /** The arguments of a validated scale command, by its effect. */
  lemma {:induction false} ScaleArgv(i: Intent)
    requires Valid(i) && i.action.ScaleDeployment?
    ensures var e := EffectOf(i);
            && |Argv(i)| == (if e.expected.Some? then 7 else 6)
            && Argv(i)[2] == "deployment/" + e.name && Argv(i)[4] == e.namespace
            && Argv(i)[5] == "--replicas=" + Text(e.replicas)
            && (e.expected.Some? ==> Argv(i)[6] == "--current-replicas=" + Text(e.expected.value))
  {
    ValidationIsIdempotent(i.params);
  }

  lemma {:induction false} SameScale(i: Intent, j: Intent)
    requires Valid(i) && Valid(j) && i.action.ScaleDeployment? && j.action.ScaleDeployment?
    ensures Argv(i) == Argv(j) <==> EffectOf(i) == EffectOf(j)
  {
    ScaleArgv(i);
    ScaleArgv(j);
    var e, f := EffectOf(i), EffectOf(j);
    if Argv(i) == Argv(j) {
      SamePrefix("deployment/", e.name, f.name);
      SamePrefix("--replicas=", Text(e.replicas), Text(f.replicas));
      TextIsInjective(e.replicas, f.replicas);
      if e.expected.Some? {
        SamePrefix("--current-replicas=", Text(e.expected.value), Text(f.expected.value));
        TextIsInjective(e.expected.value, f.expected.value);
      }
    }
  }

  lemma {:induction false} SameKindAndName(k: string, n: string, k': string, n': string)
    requires k in RESOURCE_TYPES && k' in RESOURCE_TYPES && k + "/" + n == k' + "/" + n'
    ensures k == k' && n == n'
  {
    assert (k + "/" + n)[0] == k[0] && (k' + "/" + n')[0] == k'[0];
    SamePrefix(k + "/", n, n');
  }

  /** The second word names the action. */
  lemma {:induction false} VerbNamesAction(i: Intent, j: Intent)
    requires Argv(i) == Argv(j)
    ensures i.action == j.action
  {
    var v, w := Argv(i)[1], Argv(j)[1];
    assert |"rollout"| == 7 && |"scale"| == 5 && |"logs"| == 4 && |"describe"| == 8 && |"get"| == 3;
    assert |v| == |w|;
  }

  /** Two validated intents have the same argument list iff they do the same. */
  lemma {:induction false} ArgvIsEffect(i: Intent, j: Intent)
    requires Valid(i) && Valid(j)
    ensures Argv(i) == Argv(j) <==> EffectOf(i) == EffectOf(j)
  {
    if Argv(i) == Argv(j) {
      VerbNamesAction(i, j);
    }
    if i.action == j.action {
      match i.action
      case ScaleDeployment => SameScale(i, j);
      case RestartDeployment => SameRestart(i, j);
      case DescribeResource => SameDescribe(i, j);
      case GetLogs => SameLogs(i, j);
      case GetPods => SamePods(i, j);
    }
  }

  lemma {:induction false} SameRestart(i: Intent, j: Intent)
    requires i.action.RestartDeployment? && j.action.RestartDeployment?
    ensures Argv(i) == Argv(j) <==> EffectOf(i) == EffectOf(j)
  {
    if Argv(i) == Argv(j) {
      assert Argv(i)[3] == Argv(j)[3] && Argv(i)[5] == Argv(j)[5];
      SamePrefix("deployment/", i.resourceName, j.resourceName);
    }
  }

  lemma {:induction false} SameDescribe(i: Intent, j: Intent)
    requires Valid(i) && Valid(j) && i.action.DescribeResource? && j.action.DescribeResource?
    ensures Argv(i) == Argv(j) <==> EffectOf(i) == EffectOf(j)
  {
    if Argv(i) == Argv(j) {
      assert Argv(i)[2] == Argv(j)[2] && Argv(i)[4] == Argv(j)[4];
      SameKindAndName(i.resourceType, i.resourceName, j.resourceType, j.resourceName);
    }
  }

  lemma {:induction false} SameLogs(i: Intent, j: Intent)
    requires i.action.GetLogs? && j.action.GetLogs?
    ensures Argv(i) == Argv(j) <==> EffectOf(i) == EffectOf(j)
  {
    assert Argv(i)[2] == i.resourceName && Argv(i)[4] == i.namespace;
    assert Argv(j)[2] == j.resourceName && Argv(j)[4] == j.namespace;
  }

  lemma {:induction false} SamePods(i: Intent, j: Intent)
    requires i.action.GetPods? && j.action.GetPods?
    ensures Argv(i) == Argv(j) <==> EffectOf(i) == EffectOf(j)
  {
    assert |Argv(i)| == (if HasLabel(i) then 7 else 5) && |Argv(j)| == (if HasLabel(j) then 7 else 5);
    assert Argv(i)[4] == i.namespace && Argv(j)[4] == j.namespace;
    if HasLabel(i) {
      assert Argv(i)[6] == TextOf(i.params["label"]);
    }
    if HasLabel(j) {
      assert Argv(j)[6] == TextOf(j.params["label"]);
    }
  }

  /** What a human is shown determines what is applied. */
  lemma {:induction false} DisplayIsEffect(i: Intent, j: Intent)
    requires Valid(i) && Valid(j)
    ensures ToKubectl(i) == ToKubectl(j) <==> EffectOf(i) == EffectOf(j)
  {
    ArgvIsEffect(i, j);
    DisplaySplitsToArgv(i);
    DisplaySplitsToArgv(j);
  }

  // ---- what the model cannot choose ---------------------------------------------------------------------

  predicate StartsWith(s: string, p: string) {
    |p| <= |s| && s[..|p|] == p
  }

  lemma {:induction false} ScaleSetsNoPrecondition(i: Intent, k: nat)
    requires Valid(i) && FromModel(i) && i.action.ScaleDeployment? && k < |Argv(i)|
    ensures !StartsWith(Argv(i)[k], "--current-replicas")
  {
    assert ("--replicas=" + TextOf(Replicas(i)))[2] == 'r';
    assert ("deployment/" + i.resourceName)[0] == 'd';
  }

  /** No option of an intent that came from the model sets a precondition; only a label's value may look like one. */
  lemma {:induction false} ModelSetsNoPrecondition(i: Intent, k: nat)
    requires Valid(i) && FromModel(i) && k < |Argv(i)| && StartsWith(Argv(i)[k], "--current-replicas")
    ensures i.action.GetPods? && k == 6 && Argv(i)[5] == "-l"
  {
    if i.action.ScaleDeployment? {
      ScaleSetsNoPrecondition(i, k);
    }
    assert ("deployment/" + i.resourceName)[0] == 'd';
    assert (i.resourceType + "/" + i.resourceName)[0] == i.resourceType[0];
  }

  /** A label may look like anything of its character set: the command selects pods by it and sets nothing. */
  lemma {:induction false} LabelIsOnlyASelector(namespace: string, name: string, text: string)
    requires NamespaceOk(namespace) && NameOk(name) && LabelOk(text)
    ensures var i := Intent(GetPods, "pod", name, namespace, map["label" := Str(text)], "low", None, None);
            Valid(i) && FromModel(i) && Argv(i)[6] == text && EffectOf(i) == Pods(namespace, Some(text))
  {
    var params: Params := map["label" := Str(text)];
    assert |"label"| != |"replicas"| && |"label"| != |"current_replicas"|;
    assert Canonical(params) == params;
  }

  /** Such as the option that the model may not set. */
  lemma {:induction false} LabelMayLookLikeOne()
    ensures LabelOk("--current-replicas" + "=3") && StartsWith("--current-replicas" + "=3", "--current-replicas")
  {
    var p := "--current-replicas";
    assert LabelOk("--current") && LabelOk("-replicas");
    assert p == "--current" + "-replicas";
    assert (p + "=3")[..|p|] == p;
  }

  /** A mutating command names one namespace, the intent's own, and never a forbidden one. */
  lemma {:induction false} OneNamespace(i: Intent, k: nat)
    requires Valid(i) && SpecOf(i.action).mutating && k < |Argv(i)| && Argv(i)[k] == "-n"
    ensures k + 1 < |Argv(i)| && Argv(i)[k + 1] == i.namespace && i.namespace !in FORBIDDEN_NAMESPACES
    ensures k == if i.action.RestartDeployment? then 4 else 3
  {
    var w := Argv(i)[k];
    assert w[0] == '-' && w[1] == 'n';
    assert "--replicas="[1] == '-' && "--current-replicas="[1] == '-';
    assert ("deployment/" + i.resourceName)[0] == 'd';
  }
}
