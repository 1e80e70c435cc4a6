/**
 Project configurations: how they are normalised before they are stored, and the table they are
 stored in. Where the code goes through a map, the result may depend on the order the map yields
 its entries in; such steps are told as a relation between what goes in and what may come out.
 */
module ProjectConfig {
  import opened Basics
  import opened Text
  import opened Names

  datatype Config = Config(
    projectId: string,
    modelIds: seq<string>,
    defaultId: Option<string>,
    tokenThreshold: Option<int>,
    thresholds: map<string, int>,
    ruleIds: seq<string>,
    skillIds: seq<string>,
    mcpIds: seq<string>,
    updatedAt: string)

  // ---- thresholds -----------------------------------------------------------------------------------------

  /** An entry that is kept, under the key without its blanks. */
  predicate Keeps(input: map<string, int>, key: string, allowed: set<string>) {
    key in input && input[key] > 0 && Trim(key) != "" && Trim(key) in allowed
  }

  /** `output` may come of cleaning `input`: its keys are the trimmed keys of the kept entries, and the
      value of each is that of one of them. */
  ghost predicate Cleans(input: map<string, int>, allowed: set<string>, output: map<string, int>) {
    && (forall key :: Keeps(input, key, allowed) ==> Trim(key) in output)
    && (forall id :: id in output ==>
          exists key :: Keeps(input, key, allowed) && Trim(key) == id && output[id] == input[key])
  }

  /** No two kept entries with different values meet under one trimmed key. */
  ghost predicate Unambiguous(input: map<string, int>, allowed: set<string>) {
    forall a, b :: Keeps(input, a, allowed) && Keeps(input, b, allowed) && Trim(a) == Trim(b) ==> input[a] == input[b]
  }

  /** Goes through the entries in whatever order the map yields them. */
  method CleanThresholds(input: map<string, int>, allowed: set<string>) returns (output: map<string, int>)
    ensures Cleans(input, allowed, output)
  {
    output := map[];
    var todo := input.Keys;
    while todo != {}
      invariant todo <= input.Keys
      invariant forall key :: Keeps(input, key, allowed) && key !in todo ==> Trim(key) in output
      invariant forall id :: id in output ==>
        exists key :: Keeps(input, key, allowed) && Trim(key) == id && output[id] == input[key]
    {
      var key :| key in todo;
      todo := todo - {key};
      var id := Trim(key);
      if id == "" || input[key] <= 0 {
        continue;
      }
      if id !in allowed {
        continue;
      }
      output := output[id := input[key]];
      assert Keeps(input, key, allowed);
    }
  }

  function Ids(items: seq<string>): set<string> {
    Elements(UniqueTrimmed(items))
  }

  method SanitizeModelTokenThresholds(input: map<string, int>, modelIds: seq<string>) returns (output: map<string, int>)
    ensures Cleans(input, Ids(modelIds), output)
  {
    var allowed := UniqueTrimmedStrings(modelIds);
    output := CleanThresholds(input, Elements(allowed));
  }

  /** Keys that trim alike make the result depend on chance, exactly when their values differ. */
  lemma CleaningIsDeterminedExactly(input: map<string, int>, allowed: set<string>)
    ensures Unambiguous(input, allowed) <==>
      forall x, y :: Cleans(input, allowed, x) && Cleans(input, allowed, y) ==> x == y
  {
    if Unambiguous(input, allowed) {
      forall x, y | Cleans(input, allowed, x) && Cleans(input, allowed, y)
        ensures x == y
      {
        CleansAlike(input, allowed, x, y);
      }
    } else {
      var a, b :| Keeps(input, a, allowed) && Keeps(input, b, allowed) && Trim(a) == Trim(b) && input[a] != input[b];
      var x, y := Preferring(input, allowed, a), Preferring(input, allowed, b);
      PreferringCleans(input, allowed, a);
      PreferringCleans(input, allowed, b);
      assert x[Trim(a)] != y[Trim(a)];
    }
  }

  lemma CleansAlike(input: map<string, int>, allowed: set<string>, x: map<string, int>, y: map<string, int>)
    requires Unambiguous(input, allowed) && Cleans(input, allowed, x) && Cleans(input, allowed, y)
    ensures x == y
  {
    forall id
      ensures id in x <==> id in y
      ensures id in x ==> x[id] == y[id]
    {
      if id in x {
        var a :| Keeps(input, a, allowed) && Trim(a) == id && x[id] == input[a];
        var b :| Keeps(input, b, allowed) && Trim(b) == id && y[id] == input[b];
      }
      if id in y {
        var b :| Keeps(input, b, allowed) && Trim(b) == id && y[id] == input[b];
      }
    }
  }

  /** Some kept entry for `id`. */
  ghost function Source(input: map<string, int>, allowed: set<string>, id: string): (key: string)
    requires exists key :: Keeps(input, key, allowed) && Trim(key) == id
    ensures Keeps(input, key, allowed) && Trim(key) == id
  {
    var key :| Keeps(input, key, allowed) && Trim(key) == id;
    key
  }

  ghost function KeptIds(input: map<string, int>, allowed: set<string>): set<string> {
    set key | key in input && Keeps(input, key, allowed) :: Trim(key)
  }

  /** One result of cleaning: the one where the entry of `a` is reached last. */
  ghost function Preferring(input: map<string, int>, allowed: set<string>, a: string): map<string, int>
    requires Keeps(input, a, allowed)
  {
    map id | id in KeptIds(input, allowed) :: if id == Trim(a) then input[a] else input[Source(input, allowed, id)]
  }

  lemma PreferringCleans(input: map<string, int>, allowed: set<string>, a: string)
    requires Keeps(input, a, allowed)
    ensures Cleans(input, allowed, Preferring(input, allowed, a))
    ensures Trim(a) in Preferring(input, allowed, a) && Preferring(input, allowed, a)[Trim(a)] == input[a]
  {
    var output := Preferring(input, allowed, a);
    forall id | id in output
      ensures exists key :: Keeps(input, key, allowed) && Trim(key) == id && output[id] == input[key]
    {
      if id != Trim(a) {
        assert Keeps(input, Source(input, allowed, id), allowed);
      }
    }
    forall key | Keeps(input, key, allowed)
      ensures Trim(key) in output
    {
      assert Trim(key) in KeptIds(input, allowed);
    }
  }

  // ---- normalising ------------------------------------------------------------------------------------------

  function Positive(v: Option<int>): Option<int> {
    match v
    case None => None
    case Some(n) => if n <= 0 then None else v
  }

  function TrimmedDefault(v: Option<string>): Option<string> {
    match v
    case None => None
    case Some(s) => if Trim(s) == "" then None else Some(Trim(s))
  }

  predicate ContainsTrimmed(items: seq<string>, target: string) {
    exists i :: 0 <= i < |items| && Trim(items[i]) == Trim(target)
  }

  function WithDefault(ids: seq<string>, defaultId: Option<string>): seq<string> {
    if defaultId.Some? && !ContainsTrimmed(ids, defaultId.value) then ids + [defaultId.value] else ids
  }

  /** Everything but the thresholds, which are cleaned twice: for the ids as given, then with the
      default among them. */
  function Normalized(c: Config, thresholds: map<string, int>, now: string): Config {
    var defaultId := TrimmedDefault(c.defaultId);
    Config(Trim(c.projectId), WithDefault(UniqueTrimmed(c.modelIds), defaultId), defaultId,
           Positive(c.tokenThreshold), thresholds,
           UniqueTrimmed(c.ruleIds), UniqueTrimmed(c.skillIds), UniqueTrimmed(c.mcpIds),
           if Trim(c.updatedAt) == "" then now else c.updatedAt)
  }

  /** `out` may come of normalising `c`, with `once` as the thresholds between the two passes. */
  ghost predicate NormalizesThrough(c: Config, now: string, once: map<string, int>, out: Config) {
    && Cleans(c.thresholds, Ids(c.modelIds), once)
    && Cleans(once, Ids(out.modelIds), out.thresholds)
    && out == Normalized(c, out.thresholds, now)
  }

  ghost predicate Normalizes(c: Config, now: string, out: Config) {
    exists once :: NormalizesThrough(c, now, once, out)
  }

  method NormalizeForStorage(c: Config, now: string) returns (out: Config)
    ensures Normalizes(c, now, out)
  {
    hide Cleans, Trim, UniqueTrimmed, ContainsTrimmed;
    var modelIds := UniqueTrimmedStrings(c.modelIds);
    UniqueTrimmedTwice(c.modelIds);
    var once := SanitizeModelTokenThresholds(c.thresholds, modelIds);
    var ruleIds := UniqueTrimmedStrings(c.ruleIds);
    var skillIds := UniqueTrimmedStrings(c.skillIds);
    var mcpIds := UniqueTrimmedStrings(c.mcpIds);
    var defaultId := c.defaultId;
    if defaultId.Some? {
      var value := Trim(defaultId.value);
      defaultId := if value == "" then None else Some(value);
    }
    if defaultId.Some? && !ContainsTrimmed(modelIds, defaultId.value) {
      modelIds := modelIds + [defaultId.value];
    }
    var thresholds := SanitizeModelTokenThresholds(once, modelIds);
    var updatedAt := c.updatedAt;
    if Trim(updatedAt) == "" {
      updatedAt := now;
    }
    out := Config(Trim(c.projectId), modelIds, defaultId, Positive(c.tokenThreshold), thresholds,
                  ruleIds, skillIds, mcpIds, updatedAt);
    assert NormalizesThrough(c, now, once, out);
  }

  ghost predicate NormalFields(c: Config) {
    && Tight(c.projectId) && Trim(c.updatedAt) != ""
    && CleanNames(c.modelIds) && CleanNames(c.ruleIds) && CleanNames(c.skillIds) && CleanNames(c.mcpIds)
    && (c.defaultId.Some? ==> c.defaultId.value in c.modelIds)
    && (c.tokenThreshold.Some? ==> c.tokenThreshold.value > 0)
  }

  ghost predicate NormalThresholds(thresholds: map<string, int>, modelIds: seq<string>) {
    forall id :: id in thresholds ==> id in modelIds && thresholds[id] > 0
  }

  /** What a normalised configuration looks like. */
  ghost predicate Normal(c: Config) {
    NormalFields(c) && NormalThresholds(c.thresholds, c.modelIds)
  }

  lemma UniqueTrimmedClean(values: seq<string>)
    ensures CleanNames(UniqueTrimmed(values))
  {
    UniqueTrimmedElements(values);
    forall s | s in UniqueTrimmed(values)
      ensures Tight(s)
    {
      var v :| v in values && Trim(v) == s;
      TrimIsTight(v);
    }
  }

  lemma CleanFixed(ids: seq<string>)
    requires CleanNames(ids)
    ensures UniqueTrimmed(ids) == ids && Ids(ids) == Elements(ids)
  {
    UniqueTrimmedFixed(ids);
  }

  lemma ContainsClean(ids: seq<string>, d: string)
    requires CleanNames(ids) && Tight(d)
    ensures ContainsTrimmed(ids, d) <==> d in ids
  {
    TightIsTrimmed(d);
    forall i | 0 <= i < |ids|
      ensures Trim(ids[i]) == ids[i]
    {
      assert ids[i] in ids;
      TightIsTrimmed(ids[i]);
    }
  }

  lemma DefaultIsTight(c: Config)
    ensures var d := TrimmedDefault(c.defaultId); d.Some? ==> d.value != "" && Tight(d.value)
  {
    if c.defaultId.Some? {
      TrimIsTight(c.defaultId.value);
    }
  }

  lemma WithDefaultClean(ids: seq<string>, d: Option<string>)
    requires CleanNames(ids) && (d.Some? ==> d.value != "" && Tight(d.value))
    ensures CleanNames(WithDefault(ids, d))
    ensures forall id :: id in WithDefault(ids, d) <==> id in ids || d == Some(id)
  {
    if d.Some? {
      ContainsClean(ids, d.value);
    }
  }

  /** Thresholds are only cleaned away by the second pass, never brought back. */
  lemma CleanedTwice(input: map<string, int>, few: set<string>, once: map<string, int>,
      more: set<string>, twice: map<string, int>)
    requires Cleans(input, few, once) && Cleans(once, more, twice) && few <= more
    requires forall id :: id in few ==> id != "" && Tight(id)
    ensures twice == once
  {
    forall id | id in once
      ensures Trim(id) == id && Keeps(once, id, more)
    {
      var key :| Keeps(input, key, few) && Trim(key) == id && once[id] == input[key];
      TightIsTrimmed(id);
    }
    forall id
      ensures id in twice <==> id in once
      ensures id in twice ==> twice[id] == once[id]
    {
      if id in twice {
        var key :| Keeps(once, key, more) && Trim(key) == id && twice[id] == once[key];
      }
    }
  }

  lemma NormalizedFields(c: Config, thresholds: map<string, int>, now: string)
    requires Trim(now) != ""
    ensures NormalFields(Normalized(c, thresholds, now))
    ensures forall id :: id in UniqueTrimmed(c.modelIds) ==> id in Normalized(c, thresholds, now).modelIds
  {
    UniqueTrimmedClean(c.modelIds);
    UniqueTrimmedClean(c.ruleIds);
    UniqueTrimmedClean(c.skillIds);
    UniqueTrimmedClean(c.mcpIds);
    DefaultIsTight(c);
    WithDefaultClean(UniqueTrimmed(c.modelIds), TrimmedDefault(c.defaultId));
    TrimIsTight(c.projectId);
  }

  lemma CleanedIsPositive(input: map<string, int>, allowed: set<string>, output: map<string, int>, id: string)
    requires Cleans(input, allowed, output) && id in output
    ensures id in allowed && output[id] > 0
  {
    var key :| Keeps(input, key, allowed) && Trim(key) == id && output[id] == input[key];
  }

  lemma IdsAreTight(given: seq<string>)
    ensures forall id :: id in Ids(given) ==> id != "" && Tight(id)
  {
    UniqueTrimmedClean(given);
  }

  lemma NormalizedThresholds(input: map<string, int>, few: set<string>, once: map<string, int>,
      modelIds: seq<string>, twice: map<string, int>)
    requires forall id :: id in few ==> id != "" && Tight(id) && id in modelIds
    requires Cleans(input, few, once) && Cleans(once, Elements(modelIds), twice)
    ensures twice == once && NormalThresholds(twice, modelIds)
  {
    CleanedTwice(input, few, once, Elements(modelIds), twice);
    forall id | id in twice
      ensures id in modelIds && twice[id] > 0
    {
      CleanedIsPositive(once, Elements(modelIds), twice, id);
    }
  }

  /** A normalised configuration is normal: unique ids with the default among them, and positive
      thresholds for ids only. Its thresholds are those given for the ids as they were given: a
      threshold for a default that was not among them is lost. */
  lemma NormalizingNormalizes(c: Config, now: string, out: Config)
    requires Trim(now) != "" && Normalizes(c, now, out)
    ensures Normal(out)
    ensures Cleans(c.thresholds, Ids(c.modelIds), out.thresholds)
  {
    var once :| NormalizesThrough(c, now, once, out);
    NormalizedFields(c, out.thresholds, now);
    IdsAreTight(c.modelIds);
    CleanFixed(out.modelIds);
    NormalizedThresholds(c.thresholds, Ids(c.modelIds), once, out.modelIds, out.thresholds);
  }

  ghost predicate GivenFor(input: map<string, int>, id: string) {
    exists key :: key in input && input[key] > 0 && Trim(key) == id
  }

  lemma KeptExactly(input: map<string, int>, allowed: set<string>, output: map<string, int>, id: string)
    requires Cleans(input, allowed, output) && id != ""
    ensures id in output <==> id in allowed && GivenFor(input, id)
  {
    hide Trim;
    if id in output {
      var key :| Keeps(input, key, allowed) && Trim(key) == id && output[id] == input[key];
    }
    if id in allowed && GivenFor(input, id) {
      var key :| key in input && input[key] > 0 && Trim(key) == id;
      assert Keeps(input, key, allowed);
    }
  }

  /** The default is always among the models, but it keeps a threshold exactly when it was listed and a
      positive one was given for it; given for a default that was not listed, it is lost. */
  lemma {:induction false} DefaultThresholdExactly(c: Config, now: string, out: Config, d: string)
    requires Trim(now) != "" && Normalizes(c, now, out) && TrimmedDefault(c.defaultId) == Some(d)
    ensures d in out.modelIds
    ensures d in out.thresholds <==> d in UniqueTrimmed(c.modelIds) && GivenFor(c.thresholds, d)
  {
    NormalizingNormalizes(c, now, out);
    assert out.defaultId == Some(d);
    assert out.defaultId.value in out.modelIds;
    DefaultIsTight(c);
    hide Normal, Normalizes, UniqueTrimmed, Trim;
    KeptExactly(c.thresholds, Ids(c.modelIds), out.thresholds, d);
  }

  /** The list has the non-blank names of `given`, trimmed, each once. */
  ghost predicate Lists(list: seq<string>, given: seq<string>) {
    NoDup(list) && forall id :: id in list <==> id != "" && exists v :: v in given && Trim(v) == id
  }

  /** Every field of a normalised configuration, told from what was given. */
  lemma {:induction false} FieldsTell(c: Config, now: string, out: Config)
    requires Normalizes(c, now, out)
    ensures out.projectId == Trim(c.projectId) && out.updatedAt == if Blank(c.updatedAt) then now else c.updatedAt
    ensures Lists(out.ruleIds, c.ruleIds) && Lists(out.skillIds, c.skillIds) && Lists(out.mcpIds, c.mcpIds)
    ensures out.defaultId.None? <==> c.defaultId.None? || Blank(c.defaultId.value)
    ensures out.defaultId.Some? ==> out.defaultId.value == Trim(c.defaultId.value)
    ensures forall id :: id in out.modelIds <==>
      out.defaultId == Some(id) || (id != "" && exists v :: v in c.modelIds && Trim(v) == id)
    ensures out.tokenThreshold.Some? <==> c.tokenThreshold.Some? && c.tokenThreshold.value >= 1
    ensures out.tokenThreshold.Some? ==> out.tokenThreshold == c.tokenThreshold
  {
    UniqueTrimmedElements(c.ruleIds);
    UniqueTrimmedElements(c.skillIds);
    UniqueTrimmedElements(c.mcpIds);
    UniqueTrimmedElements(c.modelIds);
    UniqueTrimmedClean(c.modelIds);
    DefaultIsTight(c);
    WithDefaultClean(UniqueTrimmed(c.modelIds), TrimmedDefault(c.defaultId));
    BlankExactly(c.updatedAt);
    if c.defaultId.Some? {
      BlankExactly(c.defaultId.value);
    }
    hide Trim, UniqueTrimmed, Blank, WithDefault;
  }

  /** A model has a threshold exactly when it was listed and a positive one was given for it, and then one of
      those given. */
  lemma {:induction false} ThresholdsTell(c: Config, now: string, out: Config, id: string)
    requires Trim(now) != "" && Normalizes(c, now, out)
    ensures id in out.thresholds <==>
      id != "" && (exists v :: v in c.modelIds && Trim(v) == id) && GivenFor(c.thresholds, id)
    ensures id in out.thresholds ==>
      exists key :: key in c.thresholds && Trim(key) == id && out.thresholds[id] == c.thresholds[key] > 0
  {
    NormalizingNormalizes(c, now, out);
    hide Normal, Normalizes, Cleans, Trim;
    CleaningTells(c.thresholds, c.modelIds, out.thresholds, id);
  }

  lemma CleaningTells(input: map<string, int>, given: seq<string>, output: map<string, int>, id: string)
    requires Cleans(input, Ids(given), output)
    ensures id in output <==> id != "" && (exists v :: v in given && Trim(v) == id) && GivenFor(input, id)
    ensures id in output ==> exists key :: key in input && Trim(key) == id && output[id] == input[key] > 0
  {
    UniqueTrimmedElements(given);
    hide UniqueTrimmed, Trim;
    if id in output {
      var key :| Keeps(input, key, Ids(given)) && Trim(key) == id && output[id] == input[key];
    }
    if id != "" {
      KeptExactly(input, Ids(given), output, id);
    }
  }

  lemma FieldsFixed(c: Config, thresholds: map<string, int>, now: string)
    requires Normal(c)
    ensures Normalized(c, thresholds, now) == c.(thresholds := thresholds)
  {
    CleanFixed(c.modelIds);
    CleanFixed(c.ruleIds);
    CleanFixed(c.skillIds);
    CleanFixed(c.mcpIds);
    TightIsTrimmed(c.projectId);
    DefaultFixed(c);
  }

  lemma NormalizesItself(c: Config, now: string)
    requires Normal(c)
    ensures Normalizes(c, now, c)
  {
    CleanFixed(c.modelIds);
    ThresholdsFixed(c);
    FieldsFixed(c, c.thresholds, now);
    assert NormalizesThrough(c, now, c.thresholds, c);
  }

  lemma NormalizesToNothingElse(c: Config, now: string, once: map<string, int>, out: Config)
    requires Normal(c)
    requires NormalizesThrough(c, now, once, out)
    ensures out == c
  {
    CleanFixed(c.modelIds);
    FieldsFixed(c, out.thresholds, now);
    OnlyThresholds(c, once);
    OnlyThresholds(c, out.thresholds);
  }

  lemma OnlyThresholds(c: Config, cleaned: map<string, int>)
    requires Normal(c) && Cleans(c.thresholds, Elements(c.modelIds), cleaned)
    ensures cleaned == c.thresholds
  {
    ThresholdsFixed(c);
    CleansAlike(c.thresholds, Elements(c.modelIds), cleaned, c.thresholds);
  }

  lemma NormalizesOnlyToItself(c: Config, now: string, out: Config)
    requires Normal(c) && Normalizes(c, now, out)
    ensures out == c
  {
    var once :| NormalizesThrough(c, now, once, out);
    NormalizesToNothingElse(c, now, once, out);
  }

  /** Normalising is idempotent: a normal configuration normalises to itself and to nothing else. */
  lemma NormalIsFixed(c: Config, now: string, out: Config)
    requires Normal(c)
    ensures Normalizes(c, now, out) <==> out == c
  {
    if out == c {
      NormalizesItself(c, now);
    } else if Normalizes(c, now, out) {
      NormalizesOnlyToItself(c, now, out);
    }
  }

  lemma DefaultFixed(c: Config)
    requires Normal(c)
    ensures TrimmedDefault(c.defaultId) == c.defaultId && WithDefault(c.modelIds, c.defaultId) == c.modelIds
  {
    if c.defaultId.Some? {
      TightIsTrimmed(c.defaultId.value);
      ContainsClean(c.modelIds, c.defaultId.value);
    }
  }

  lemma ThresholdsFixed(c: Config)
    requires Normal(c)
    ensures Cleans(c.thresholds, Elements(c.modelIds), c.thresholds)
    ensures Unambiguous(c.thresholds, Elements(c.modelIds))
  {
    forall id | id in c.thresholds
      ensures Trim(id) == id && Keeps(c.thresholds, id, Elements(c.modelIds))
    {
      TightIsTrimmed(id);
    }
  }

  // ---- the table ------------------------------------------------------------------------------------------------

  /** A row, with its JSON columns decoded. */
  datatype Row = Row(
    workspaceId: string,
    modelIds: seq<string>,
    defaultId: Option<string>,
    tokenThreshold: Option<int>,
    thresholds: map<string, int>,
    ruleIds: seq<string>,
    skillIds: seq<string>,
    mcpIds: seq<string>,
    updatedAt: string)

  function RowOf(c: Config, workspaceId: string): Row {
    Row(Trim(workspaceId), UniqueTrimmed(c.modelIds), TrimmedDefault(c.defaultId), c.tokenThreshold, c.thresholds,
        UniqueTrimmed(c.ruleIds), UniqueTrimmed(c.skillIds), UniqueTrimmed(c.mcpIds), c.updatedAt)
  }

  function KeysTrimmed(input: map<string, int>): set<string> {
    set key | key in input :: Trim(key)
  }

  class ConfigTable {
    var rows: map<string, Row>
    /** What was written last for every project. */
    ghost var written: map<string, Config>

    ghost predicate Valid()
      reads this
    {
      && rows.Keys == written.Keys
      && forall id :: id in written ==>
          Normal(written[id]) && written[id].projectId == id && rows[id] == RowOf(written[id], rows[id].workspaceId)
            && Tight(rows[id].workspaceId)
    }

    constructor ()
      ensures Valid() && written == map[]
    {
      rows, written := map[], map[];
    }

    /** Writes the normalised configuration and returns it. */
    method Upsert(workspaceId: string, input: Config, now: string) returns (config: Config)
      requires Valid() && Trim(now) != ""
      modifies this
      ensures Valid() && Normalizes(input, now, config)
      ensures written == old(written)[config.projectId := config]
    {
      hide Normalizes, Normal, RowOf;
      config := NormalizeForStorage(input, now);
      NormalizingNormalizes(input, now, config);
      RowAgain(config, workspaceId);
      rows := rows[config.projectId := RowOf(config, workspaceId)];
      written := written[config.projectId := config];
    }

    /** Reads a row and normalises it again; what comes back is exactly what the write returned. */
    method Get(projectId: string, now: string) returns (config: Option<Config>)
      requires Valid()
      ensures config == if Trim(projectId) in written then Some(written[Trim(projectId)]) else None
    {
      var id := Trim(projectId);
      if id !in rows {
        return None;
      }
      var row := rows[id];
      ghost var c := written[id];
      var modelIds := UniqueTrimmedStrings(row.modelIds);
      var ruleIds := UniqueTrimmedStrings(row.ruleIds);
      var skillIds := UniqueTrimmedStrings(row.skillIds);
      var mcpIds := UniqueTrimmedStrings(row.mcpIds);
      var thresholds := CleanThresholds(row.thresholds, KeysTrimmed(row.thresholds));
      ReadsBack(c, row.workspaceId);
      ThresholdsReadBack(c, thresholds);
      var item := Config(id, modelIds, TrimmedDefault(row.defaultId), Positive(row.tokenThreshold), thresholds,
                         ruleIds, skillIds, mcpIds, row.updatedAt);
      assert item == c;
      item := NormalizeForStorage(item, now);
      NormalIsFixed(c, now, item);
      config := Some(item);
    }
  }

  lemma RowAgain(c: Config, workspaceId: string)
    ensures Tight(RowOf(c, workspaceId).workspaceId)
    ensures RowOf(c, RowOf(c, workspaceId).workspaceId) == RowOf(c, workspaceId)
  {
    TrimIsTight(workspaceId);
    TightIsTrimmed(Trim(workspaceId));
  }

  lemma ReadsBack(c: Config, workspaceId: string)
    requires Normal(c)
    ensures var row := RowOf(c, workspaceId);
      && UniqueTrimmed(row.modelIds) == c.modelIds && UniqueTrimmed(row.ruleIds) == c.ruleIds
      && UniqueTrimmed(row.skillIds) == c.skillIds && UniqueTrimmed(row.mcpIds) == c.mcpIds
      && TrimmedDefault(row.defaultId) == c.defaultId && Positive(row.tokenThreshold) == c.tokenThreshold
      && row.thresholds == c.thresholds && row.updatedAt == c.updatedAt
  {
    CleanFixed(c.modelIds);
    CleanFixed(c.ruleIds);
    CleanFixed(c.skillIds);
    CleanFixed(c.mcpIds);
    DefaultFixed(c);
  }

  lemma ThresholdsReadBack(c: Config, read: map<string, int>)
    requires Normal(c) && Cleans(c.thresholds, KeysTrimmed(c.thresholds), read)
    ensures read == c.thresholds
  {
    var all := KeysTrimmed(c.thresholds);
    forall id | id in c.thresholds
      ensures Trim(id) == id && Keeps(c.thresholds, id, all)
    {
      TightIsTrimmed(id);
    }
    CleansAlike(c.thresholds, all, read, c.thresholds);
  }
}
