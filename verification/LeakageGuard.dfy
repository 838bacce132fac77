/** The guard that keeps provider details out of Core surfaces: its rules for keys
    and texts, and the recursive scan that reports where they are violated. */
module LeakageGuard {
  import opened Text
  import opened LeakageNames
  import opened Unique

  // -------------------------------------------------------------------- tokens

  function IdentityTokens(): set<string> {
    {"provider", "provider_id", "provider_key", "offer", "offer_id"}
  }

  function MetadataTokens(): set<string> {
    {"provider_capability", "provider_capabilities", "provider_profile", "provider_registry",
     "provider_registry_entry", "external_provider_ref", "native_provider", "browser_provider",
     "resource_provider", "core_provider_registry", "core_provider_discovery"}
  }

  function DecisionTokens(): set<string> {
    {"compatibility_decision", "compatibility_status", "decision_detail", "decision_details", "provider_offer"}
  }

  function RoutingTokens(): set<string> {
    {"selected_provider", "selected_profile", "provider_selector", "provider_selection", "provider_routing",
     "selector", "routing", "routing_policy", "priority", "rank", "ranking", "score", "fallback",
     "fallback_order", "fallback_outcome", "optional_capabilities", "preferred_profile",
     "preferred_profiles", "preferred_capabilities"}
  }

  function MarketplaceTokens(): set<string> {
    {"marketplace", "marketplace_listing", "provider_product_allowlist", "provider_product_support", "sla",
     "availability_sla"}
  }

  function LifecycleTokens(): set<string> {
    {"provider_lifecycle", "provider_lease", "resource_supply", "resource_pool", "account_pool", "proxy_pool",
     "task_record_provider_field"}
  }

  function TechnicalTokens(): set<string> {
    {"playwright", "cdp", "chromium", "browser", "browser_profile", "network", "network_tier", "transport",
     "sign_service"}
  }

  function CredentialTokens(): set<string> {
    {"authorization", "cookie", "cookies", "credential_freshness", "credential_material", "headers", "health_sla",
     "ms_token", "session", "session_health", "session_object", "token", "verify_fp", "xsec_token"}
  }

  function FailureTokens(): set<string> {
    {"provider_failure", "provider_unavailable", "provider_contract_violation", "invalid_provider_offer"}
  }

  function FieldTokens(): set<string> {
    IdentityTokens() + MetadataTokens() + DecisionTokens() + RoutingTokens() + MarketplaceTokens()
    + LifecycleTokens() + TechnicalTokens() + CredentialTokens()
  }

  function ExactTokens(): set<string> {
    IdentityTokens() + DecisionTokens() + CredentialTokens()
    + {"availability_sla", "browser", "cdp", "chromium", "decision_detail", "decision_details", "fallback",
       "marketplace", "network", "offer", "playwright", "priority", "rank", "ranking", "routing", "score",
       "selector", "sla", "session", "transport"}
  }

  function EmbeddedTokens(): set<string> {
    FieldTokens()
    - {"provider", "offer", "decision_detail", "decision_details", "compatibility_decision", "browser", "network",
       "sla"}
  }

  // ---------------------------------------------------------- the tests on texts

  predicate HoldsToken(normalized: string, tokens: set<string>) {
    exists t :: t in tokens && ContainsToken(normalized, Normalize(t), '_')
  }

  predicate AllowsCredentials(path: string) {
    var p := Normalize(path);
    StartsWith(p, "resource_lifecycle") && Contains("_" + p + "_", "_material_")
  }

  predicate ForbiddenField(key: string, path: string) {
    var n := Normalize(key);
    && !(AllowsCredentials(path) && HoldsToken(n, CredentialTokens()))
    && (n == "provider" || StartsWith(n, "provider_") || HoldsToken(n, FieldTokens()))
  }

  predicate MatchesIdentity(value: string, id: string) {
    || value == id
    || (IdentitySlug(id) != "" && ContainsToken(IdentitySlug(value), IdentitySlug(id), '-'))
  }

  predicate MatchesFailure(value: string, token: string) {
    || ContainsToken(IdentitySlug(value), IdentitySlug(token), '-')
    || ContainsToken(IdentitySlug(value), IdentitySlug(token), '_')
  }

  predicate HoldsIdentity(value: string, ids: seq<string>) {
    || (exists i :: 0 <= i < |ids| && MatchesIdentity(value, ids[i]))
    || (exists t :: t in FailureTokens() && MatchesFailure(value, t))
  }

  predicate ForbiddenText(value: string, path: string) {
    var n := Normalize(value);
    && !(AllowsCredentials(path) && HoldsToken(n, CredentialTokens()))
    && (StartsWith(n, "provider_")
        || (exists t :: t in ExactTokens() && n == Normalize(t))
        || HoldsToken(n, EmbeddedTokens()))
  }

  /** The part of a path behind the last dot, without a trailing index. */
  function LastSegment(path: string): string {
    if '.' in path then LastSegment(Behind(path, '.')) else WithoutIndex(path)
  }

  function WithoutIndex(s: string): string {
    var digits := DigitsInFront(s, |s| - 1);
    if s != "" && s[|s| - 1] == ']' && 0 < digits < |s| - 1 && s[|s| - 2 - digits] == '['
    then s[..|s| - 2 - digits] else s
  }

  /** How many digits stand in front of a position. */
  function DigitsInFront(s: string, end: int): (n: nat)
    requires end <= |s|
    ensures end >= 0 ==> n <= end
    decreases end
  {
    if end > 0 && IsDigit(s[end - 1]) then 1 + DigitsInFront(s, end - 1) else 0
  }

  predicate ForbiddenFailure(value: string, path: string) {
    var field, slug := Normalize(LastSegment(path)), IdentitySlug(value);
    && (field == "category" || field == "failure_category")
    && (slug == "provider" || slug == "provider-failure")
  }

  // ----------------------------------------------------- the rules, word by word

  predicate HasWordsOf(name: string, tokens: set<string>) {
    exists t :: t in tokens && Run(Words(t), Words(name))
  }

  /** A key may not be about providers, nor hold the words of a forbidden token;
      credential words are tolerated in the material of the resource lifecycle. */
  predicate FieldRule(key: string, path: string) {
    && !(AllowsCredentials(path) && HasWordsOf(key, CredentialTokens()))
    && (Words(key)[0] == "provider" || HasWordsOf(key, FieldTokens()))
  }

  /** A text or key may not name a provider or a provider failure. */
  predicate IdentityRule(value: string, ids: seq<string>) {
    || (exists i :: 0 <= i < |ids| && (value == ids[i] || (Normalize(ids[i]) != "" && Run(Words(ids[i]), Words(value)))))
    || HasWordsOf(value, FailureTokens())
  }

  predicate TextRule(value: string, path: string) {
    && !(AllowsCredentials(path) && HasWordsOf(value, CredentialTokens()))
    && ((Words(value)[0] == "provider" && |Words(value)| > 1)
        || (exists t :: t in ExactTokens() && Words(value) == Words(t))
        || HasWordsOf(value, EmbeddedTokens()))
  }

  lemma HoldsTokenIsWords(name: string, tokens: set<string>)
    ensures HoldsToken(Normalize(name), tokens) <==> HasWordsOf(name, tokens)
  {
    hide ContainsToken, Run, Split, Normalize;
    forall t | t in tokens
      ensures ContainsToken(Normalize(name), Normalize(t), '_') <==> Run(Words(t), Words(name))
    {
      TokenTestIsRun(Normalize(name), Normalize(t), '_');
    }
  }

  lemma PrefixedWord(h: string, t: string, w: string)
    requires '_' !in w && '_' !in h
    ensures StartsWith(h + ['_'] + t, w + "_") <==> h == w
  {
    var s := h + ['_'] + t;
    if StartsWith(s, w + "_") {
      assert s == w + ['_'] + s[|w| + 1..];
      UpToStopsAt(w, '_', s[|w| + 1..]);
      UpToStopsAt(h, '_', t);
    }
    if h == w {
      assert s[..|w| + 1] == w + "_";
    }
  }

  /** A name's first word, and whether more words follow. */
  lemma FirstWord(s: string, w: string)
    requires '_' !in w
    ensures s == w <==> Split(s, '_') == [w]
    ensures StartsWith(s, w + "_") <==> Split(s, '_')[0] == w && |Split(s, '_')| > 1
  {
    hide Split, UpTo, Behind;
    SplitStep(s, '_');
    if '_' in s {
      PrefixedWord(UpTo(s, '_'), Behind(s, '_'), w);
    } else if StartsWith(s, w + "_") {
      CharactersOfPrefix(s, w + "_", '_');
    }
  }

  lemma CharactersOfPrefix(s: string, t: string, c: char)
    requires StartsWith(s, t) && c in t
    ensures c in s
  {
  }

  lemma CharactersOfSuffix(s: string, t: string, c: char)
    requires EndsWith(s, t) && c in t
    ensures c in s
  {
    var i :| 0 <= i < |t| && t[i] == c;
    assert s[|s| - |t| + i] == c;
  }

  lemma FieldTestIsRule(key: string, path: string)
    ensures ForbiddenField(key, path) <==> FieldRule(key, path)
  {
    hide HoldsToken, HasWordsOf, AllowsCredentials, FieldTokens, CredentialTokens, Split, Normalize;
    HoldsTokenIsWords(key, CredentialTokens());
    HoldsTokenIsWords(key, FieldTokens());
    FirstWord(Normalize(key), "provider");
    assert "provider" + "_" == "provider_";
  }

  lemma EqualWords(a: string, b: string)
    ensures Normalize(a) == Normalize(b) <==> Words(a) == Words(b)
  {
    hide Normalize, Split, Fence;
    FenceOfSplit(Normalize(a), '_');
    FenceOfSplit(Normalize(b), '_');
    var x, y := ['_'] + Normalize(a) + ['_'], ['_'] + Normalize(b) + ['_'];
    assert x[1..|x| - 1] == Normalize(a) && y[1..|y| - 1] == Normalize(b);
  }

  lemma TextTestIsRule(value: string, path: string)
    ensures ForbiddenText(value, path) <==> TextRule(value, path)
  {
    hide HoldsToken, HasWordsOf, AllowsCredentials, ExactTokens, EmbeddedTokens, CredentialTokens, Split, Normalize;
    HoldsTokenIsWords(value, CredentialTokens());
    HoldsTokenIsWords(value, EmbeddedTokens());
    FirstWord(Normalize(value), "provider");
    assert "provider" + "_" == "provider_";
    forall t | t in ExactTokens()
      ensures Normalize(value) == Normalize(t) <==> Words(value) == Words(t)
    {
      EqualWords(value, t);
    }
  }

  lemma SlugHasNoUnderscore(value: string)
    ensures '_' !in IdentitySlug(value)
    ensures IdentitySlug(value) == "" <==> Normalize(value) == ""
  {
    hide Normalize;
  }

  lemma UnderscoreAddsNothing(value: string, token: string)
    ensures MatchesFailure(value, token) <==> ContainsToken(IdentitySlug(value), IdentitySlug(token), '-')
  {
    hide IdentitySlug, Contains;
    SlugHasNoUnderscore(value);
    var v, t := IdentitySlug(value), IdentitySlug(token);
    if StartsWith(v, t + ['_']) {
      CharactersOfPrefix(v, t + ['_'], '_');
    }
    if EndsWith(v, ['_'] + t) {
      CharactersOfSuffix(v, ['_'] + t, '_');
    }
    if Contains(v, ['_'] + t + ['_']) {
      CharactersOfContained(v, ['_'] + t + ['_'], '_');
    }
  }

  lemma IdentityTestIsRule(value: string, ids: seq<string>)
    ensures HoldsIdentity(value, ids) <==> IdentityRule(value, ids)
  {
    hide ContainsToken, Run, Split, Normalize, IdentitySlug, FailureTokens, MatchesFailure;
    forall i | 0 <= i < |ids|
      ensures MatchesIdentity(value, ids[i]) <==>
              value == ids[i] || (Normalize(ids[i]) != "" && Run(Words(ids[i]), Words(value)))
    {
      SlugTestIsRun(value, ids[i]);
      SlugHasNoUnderscore(ids[i]);
    }
    forall t | t in FailureTokens()
      ensures MatchesFailure(value, t) <==> Run(Words(t), Words(value))
    {
      UnderscoreAddsNothing(value, t);
      SlugTestIsRun(value, t);
    }
  }

  // ------------------------------------------------------------------ surfaces

  /** A mapping key; keys that are no texts are only shown in paths. */
  datatype Key = TextKey(text: string) | OtherKey(shown: string)

  /** What can be scanned: texts, mappings (records are scanned as mappings),
      sequences, and everything that holds nothing to scan. */
  datatype Surface = Str(text: string) | Opaque | Mapping(fields: Fields) | Listed(items: Items)
  datatype Fields = NoField | Field(key: Key, value: Surface, rest: Fields)
  datatype Items = NoItem | Item(value: Surface, rest: Items)

  /** The places a rule speaks about. */
  datatype Node = KeyNode(key: string, path: string) | TextNode(text: string, path: string)

  predicate BadField(n: Node) {
    n.KeyNode? && FieldRule(n.key, n.path)
  }

  predicate BadValue(n: Node, ids: seq<string>) {
    match n
    case KeyNode(key, _) => IdentityRule(key, ids)
    case TextNode(text, path) => IdentityRule(text, ids) || TextRule(text, path) || ForbiddenFailure(text, path)
  }

  function KeyPath(path: string, key: Key): string {
    path + "." + (if key.TextKey? then key.text else key.shown)
  }

  function ItemPath(path: string, index: nat): string {
    path + "[" + Decimal(index) + "]"
  }

  /** Every key and every text of a surface, in the order they are met. */
  function Nodes(s: Surface, path: string): seq<Node>
    decreases s
  {
    match s
    case Str(text) => [TextNode(text, path)]
    case Opaque => []
    case Mapping(fields) => FieldNodes(fields, path)
    case Listed(items) => ItemNodes(items, path, 0)
  }

  function FieldNodes(fields: Fields, path: string): seq<Node>
    decreases fields
  {
    match fields
    case NoField => []
    case Field(key, value, rest) =>
      (if key.TextKey? then [KeyNode(key.text, KeyPath(path, key))] else [])
      + Nodes(value, KeyPath(path, key)) + FieldNodes(rest, path)
  }

  function ItemNodes(items: Items, path: string, index: nat): seq<Node>
    decreases items
  {
    match items
    case NoItem => []
    case Item(value, rest) => Nodes(value, ItemPath(path, index)) + ItemNodes(rest, path, index + 1)
  }

  function BadFieldPaths(nodes: seq<Node>): seq<string> {
    if nodes == [] then []
    else BadFieldPaths(nodes[..|nodes| - 1])
         + (if BadField(nodes[|nodes| - 1]) then [nodes[|nodes| - 1].path] else [])
  }

  function BadValuePaths(nodes: seq<Node>, ids: seq<string>): seq<string> {
    if nodes == [] then []
    else BadValuePaths(nodes[..|nodes| - 1], ids)
         + (if BadValue(nodes[|nodes| - 1], ids) then [nodes[|nodes| - 1].path] else [])
  }

  lemma {:induction false} BadPathsOfConcat(a: seq<Node>, b: seq<Node>, ids: seq<string>)
    ensures BadFieldPaths(a + b) == BadFieldPaths(a) + BadFieldPaths(b)
    ensures BadValuePaths(a + b, ids) == BadValuePaths(a, ids) + BadValuePaths(b, ids)
  {
    hide BadField, BadValue;
    if b == [] {
      assert a + b == a;
    } else {
      assert (a + b)[..|a + b| - 1] == a + b[..|b| - 1];
      BadPathsOfConcat(a, b[..|b| - 1], ids);
    }
  }

  // ------------------------------------------------------------------ the scan

  /** The two lists of paths that a scan fills. */
  class Findings {
    var fields: seq<string>
    var values: seq<string>

    constructor ()
      ensures fields == [] && values == []
    {
      fields, values := [], [];
    }

    ghost predicate Adds(nodes: seq<Node>, ids: seq<string>, f: seq<string>, v: seq<string>)
      reads this
    {
      fields == f + BadFieldPaths(nodes) && values == v + BadValuePaths(nodes, ids)
    }

    method AddKey(key: string, path: string, ids: seq<string>)
      modifies this
      ensures Adds([KeyNode(key, path)], ids, old(fields), old(values))
    {
      hide FieldRule, IdentityRule, ForbiddenField, HoldsIdentity;
      OneNode(KeyNode(key, path), ids);
      FieldTestIsRule(key, path);
      IdentityTestIsRule(key, ids);
      if ForbiddenField(key, path) {
        fields := fields + [path];
      }
      if HoldsIdentity(key, ids) {
        values := values + [path];
      }
    }

    method AddText(text: string, path: string, ids: seq<string>)
      modifies this
      ensures Adds([TextNode(text, path)], ids, old(fields), old(values))
    {
      hide TextRule, IdentityRule, ForbiddenText, HoldsIdentity, ForbiddenFailure;
      OneNode(TextNode(text, path), ids);
      TextTestIsRule(text, path);
      IdentityTestIsRule(text, ids);
      if HoldsIdentity(text, ids) || ForbiddenText(text, path) || ForbiddenFailure(text, path) {
        values := values + [path];
      }
    }
  }

  lemma OneNode(n: Node, ids: seq<string>)
    ensures BadFieldPaths([n]) == if BadField(n) then [n.path] else []
    ensures BadValuePaths([n], ids) == if BadValue(n, ids) then [n.path] else []
  {
    hide BadField, BadValue;
    assert [n][..0] == [];
  }

  method ScanSurface(s: Surface, path: string, ids: seq<string>, findings: Findings)
    modifies findings
    ensures findings.Adds(Nodes(s, path), ids, old(findings.fields), old(findings.values))
    decreases s
  {
    hide BadFieldPaths, BadValuePaths;
    match s
    case Str(text) => findings.AddText(text, path, ids);
    case Opaque => NoNodes(ids);
    case Mapping(fields) => ScanFields(fields, path, ids, findings);
    case Listed(items) => ScanItems(items, path, 0, ids, findings);
  }

  method ScanFields(fields: Fields, path: string, ids: seq<string>, findings: Findings)
    modifies findings
    ensures findings.Adds(FieldNodes(fields, path), ids, old(findings.fields), old(findings.values))
    decreases fields
  {
    hide BadFieldPaths, BadValuePaths, KeyPath;
    NoNodes(ids);
    if fields.Field? {
      var p := KeyPath(path, fields.key);
      ghost var a := if fields.key.TextKey? then [KeyNode(fields.key.text, p)] else [];
      ghost var b, c := Nodes(fields.value, p), FieldNodes(fields.rest, path);
      if fields.key.TextKey? {
        findings.AddKey(fields.key.text, p, ids);
      }
      ScanSurface(fields.value, p, ids, findings);
      ScanFields(fields.rest, path, ids, findings);
      BadPathsOfConcat(a, b, ids);
      BadPathsOfConcat(a + b, c, ids);
    }
  }

  method ScanItems(items: Items, path: string, index: nat, ids: seq<string>, findings: Findings)
    modifies findings
    ensures findings.Adds(ItemNodes(items, path, index), ids, old(findings.fields), old(findings.values))
    decreases items
  {
    hide BadFieldPaths, BadValuePaths, ItemPath;
    NoNodes(ids);
    if items.Item? {
      var p := ItemPath(path, index);
      ScanSurface(items.value, p, ids, findings);
      ScanItems(items.rest, path, index + 1, ids, findings);
      BadPathsOfConcat(Nodes(items.value, p), ItemNodes(items.rest, path, index + 1), ids);
    }
  }

  lemma NoNodes(ids: seq<string>)
    ensures BadFieldPaths([]) == [] && BadValuePaths([], ids) == []
  {
  }

  // ----------------------------------------------------------------- the guard

  lemma {:induction false} BadFieldPathsAreExact(nodes: seq<Node>)
    ensures forall p :: p in BadFieldPaths(nodes) <==> exists n :: n in nodes && BadField(n) && n.path == p
  {
    hide BadField;
    if nodes != [] {
      BadFieldPathsAreExact(nodes[..|nodes| - 1]);
      assert nodes == nodes[..|nodes| - 1] + [nodes[|nodes| - 1]];
    }
  }

  lemma {:induction false} BadValuePathsAreExact(nodes: seq<Node>, ids: seq<string>)
    ensures forall p :: p in BadValuePaths(nodes, ids) <==> exists n :: n in nodes && BadValue(n, ids) && n.path == p
  {
    hide BadValue;
    if nodes != [] {
      BadValuePathsAreExact(nodes[..|nodes| - 1], ids);
      assert nodes == nodes[..|nodes| - 1] + [nodes[|nodes| - 1]];
    }
  }

  datatype Evidence = NoEvidence | Evidence(providerKey: string, offerId: string)

  function NotEmpty(values: seq<string>): seq<string> {
    if values == [] then [] else (if values[0] == "" then [] else [values[0]]) + NotEmpty(values[1..])
  }

  /** The identities to look for: those given, and those of the decision. */
  function IdentityValues(given: seq<string>, decision: Evidence): seq<string> {
    Dedupe(NotEmpty(given) + (if decision.Evidence? then [decision.providerKey, decision.offerId] else []))
  }

  datatype GuardResult = GuardResult(passed: bool, fieldPaths: seq<string>, valuePaths: seq<string>, ids: seq<string>)

  /** A surface passes exactly when no key and no text in it violates a rule. */
  method GuardCore(name: string, surface: Surface, decision: Evidence, given: seq<string>) returns (r: GuardResult)
    ensures r.ids == IdentityValues(given, decision)
    ensures r.fieldPaths == BadFieldPaths(Nodes(surface, name))
    ensures r.valuePaths == BadValuePaths(Nodes(surface, name), r.ids)
    ensures r.passed <==> forall n :: n in Nodes(surface, name) ==> !BadField(n) && !BadValue(n, r.ids)
  {
    hide BadField, BadValue, Nodes, BadFieldPaths, BadValuePaths;
    var ids := DedupeValues(NotEmpty(given) + (if decision.Evidence? then [decision.providerKey, decision.offerId] else []));
    var findings := new Findings();
    ScanSurface(surface, name, ids, findings);
    BadFieldPathsAreExact(Nodes(surface, name));
    BadValuePathsAreExact(Nodes(surface, name), ids);
    AnyPath(Nodes(surface, name), ids);
    r := GuardResult(findings.fields == [] && findings.values == [], findings.fields, findings.values, ids);
  }

  lemma AnyPath(nodes: seq<Node>, ids: seq<string>)
    ensures BadFieldPaths(nodes) == [] <==> forall n :: n in nodes ==> !BadField(n)
    ensures BadValuePaths(nodes, ids) == [] <==> forall n :: n in nodes ==> !BadValue(n, ids)
  {
    hide BadField, BadValue, BadFieldPaths, BadValuePaths;
    BadFieldPathsAreExact(nodes);
    BadValuePathsAreExact(nodes, ids);
    forall n | n in nodes
      ensures BadField(n) ==> n.path in BadFieldPaths(nodes)
      ensures BadValue(n, ids) ==> n.path in BadValuePaths(nodes, ids)
    {
    }
    assert BadFieldPaths(nodes) != [] ==> BadFieldPaths(nodes)[0] in BadFieldPaths(nodes);
    assert BadValuePaths(nodes, ids) != [] ==> BadValuePaths(nodes, ids)[0] in BadValuePaths(nodes, ids);
  }

  // ------------------------------------------------------------------ addresses

  datatype ChildOption = NoChild | SomeChild(mark: Mark, child: Surface)
  datatype Mark = KeyMark(key: Key) | IndexMark(index: nat)

  function FieldAt(fields: Fields, i: nat): ChildOption {
    match fields
    case NoField => NoChild
    case Field(key, value, rest) => if i == 0 then SomeChild(KeyMark(key), value) else FieldAt(rest, i - 1)
  }

  function ItemAt(items: Items, i: nat, offset: nat): ChildOption {
    match items
    case NoItem => NoChild
    case Item(value, rest) => if i == 0 then SomeChild(IndexMark(offset), value) else ItemAt(rest, i - 1, offset + 1)
  }

  function ChildAt(s: Surface, i: nat): ChildOption {
    match s
    case Mapping(fields) => FieldAt(fields, i)
    case Listed(items) => ItemAt(items, i, 0)
    case _ => NoChild
  }

  function MarkPath(path: string, mark: Mark): string {
    match mark
    case KeyMark(key) => KeyPath(path, key)
    case IndexMark(index) => ItemPath(path, index)
  }

  /** Walking down from a surface along child numbers arrives at this key or text. */
  predicate Leads(s: Surface, path: string, steps: seq<nat>, n: Node)
    decreases |steps|, 0
  {
    if steps == [] then s.Str? && n == TextNode(s.text, path)
    else ChildAt(s, steps[0]).SomeChild? && LeadsInto(ChildAt(s, steps[0]), path, steps[1..], n)
  }

  predicate LeadsInto(c: ChildOption, path: string, steps: seq<nat>, n: Node)
    requires c.SomeChild?
    decreases |steps|, 1
  {
    var p := MarkPath(path, c.mark);
    || (steps == [] && c.mark.KeyMark? && c.mark.key.TextKey? && n == KeyNode(c.mark.key.text, p))
    || Leads(c.child, p, steps, n)
  }

  lemma {:induction false} FindSteps(s: Surface, path: string, n: Node) returns (steps: seq<nat>)
    requires n in Nodes(s, path)
    ensures Leads(s, path, steps, n)
    decreases s
  {
    match s
    case Str(text) =>
      steps := [];
    case Mapping(fields) =>
      var i, rest := FindInFields(fields, path, n);
      steps := [i] + rest;
      assert steps[1..] == rest;
    case Listed(items) =>
      var i, rest := FindInItems(items, path, 0, n);
      steps := [i] + rest;
      assert steps[1..] == rest;
  }

  lemma {:induction false} FindInFields(fields: Fields, path: string, n: Node) returns (i: nat, rest: seq<nat>)
    requires n in FieldNodes(fields, path)
    ensures FieldAt(fields, i).SomeChild? && LeadsInto(FieldAt(fields, i), path, rest, n)
    decreases fields
  {
    var p := KeyPath(path, fields.key);
    if fields.key.TextKey? && n == KeyNode(fields.key.text, p) {
      i, rest := 0, [];
    } else if n in Nodes(fields.value, p) {
      i := 0;
      rest := FindSteps(fields.value, p, n);
    } else {
      var j;
      j, rest := FindInFields(fields.rest, path, n);
      i := j + 1;
    }
  }

  lemma {:induction false} FindInItems(items: Items, path: string, offset: nat, n: Node) returns (i: nat, rest: seq<nat>)
    requires n in ItemNodes(items, path, offset)
    ensures ItemAt(items, i, offset).SomeChild? && LeadsInto(ItemAt(items, i, offset), path, rest, n)
    decreases items
  {
    var p := ItemPath(path, offset);
    if n in Nodes(items.value, p) {
      i := 0;
      rest := FindSteps(items.value, p, n);
    } else {
      var j;
      j, rest := FindInItems(items.rest, path, offset + 1, n);
      i := j + 1;
    }
  }

  lemma {:induction false} StepsLead(s: Surface, path: string, steps: seq<nat>, n: Node)
    requires Leads(s, path, steps, n)
    ensures n in Nodes(s, path)
    decreases s, 1, 0
  {
    match s
    case Str(text) =>
    case Opaque =>
    case Mapping(fields) => StepsLeadInFields(fields, path, steps[0], steps[1..], n);
    case Listed(items) => StepsLeadInItems(items, path, 0, steps[0], steps[1..], n);
  }

  lemma {:induction false} StepsLeadInFields(fields: Fields, path: string, i: nat, rest: seq<nat>, n: Node)
    requires FieldAt(fields, i).SomeChild? && LeadsInto(FieldAt(fields, i), path, rest, n)
    ensures n in FieldNodes(fields, path)
    decreases fields
  {
    if i > 0 {
      StepsLeadInFields(fields.rest, path, i - 1, rest, n);
    } else if Leads(fields.value, KeyPath(path, fields.key), rest, n) {
      StepsLead(fields.value, KeyPath(path, fields.key), rest, n);
    }
  }

  lemma {:induction false} StepsLeadInItems(items: Items, path: string, offset: nat, i: nat, rest: seq<nat>, n: Node)
    requires ItemAt(items, i, offset).SomeChild? && LeadsInto(ItemAt(items, i, offset), path, rest, n)
    ensures n in ItemNodes(items, path, offset)
    decreases items
  {
    if i > 0 {
      StepsLeadInItems(items.rest, path, offset + 1, i - 1, rest, n);
    } else {
      StepsLead(items.value, ItemPath(path, offset), rest, n);
    }
  }

  ghost predicate Reachable(s: Surface, path: string, n: Node) {
    exists steps: seq<nat> :: Leads(s, path, steps, n)
  }

  /** The scan meets exactly the keys and texts that can be reached, at any depth. */
  lemma NodesAreReached(s: Surface, path: string, n: Node)
    ensures n in Nodes(s, path) <==> Reachable(s, path, n)
  {
    if n in Nodes(s, path) {
      var steps := FindSteps(s, path, n);
      assert Reachable(s, path, n);
    }
    if Reachable(s, path, n) {
      var steps: seq<nat> :| Leads(s, path, steps, n);
      StepsLead(s, path, steps, n);
    }
  }
}
