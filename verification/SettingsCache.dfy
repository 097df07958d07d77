/** Per-organisation settings of app/domain/org_settings.py: defaults, the read-through cache with
    its time to live, the single write path, and the cache under racing readers and writers. */
module SettingsCache {
  import opened Common
  import opened Rounding

  type Org = string
  type Field = string
  datatype Value = Number(n: real) | Text(s: string)
  type Settings = map<Field, Value>

  const TIER := "quality_tier"

  /** product.yaml, the operator's environment and the table definition, as far as they matter:
      the model's fields, the columns of type NUMERIC(3,2), and the table's CHECK constraints. */
  datatype Config = Config(
    ttl: real,
    newOrgDefaults: Settings,
    presets: map<string, Settings>,
    reranker: Value,
    fields: seq<Field>,
    twoDecimals: set<Field>,
    accepts: Settings -> bool,
    render: Value -> string)
  {
    predicate Complete() {
      && "balanced" in presets && TIER in fields
      && (TIER in newOrgDefaults ==> newOrgDefaults[TIER].Text?)
    }

    /** `_defaults_for`: organisation defaults, overlaid with the tier's preset. */
    function Defaults(): Settings
      requires Complete()
    {
      var tier := if TIER in newOrgDefaults then newOrgDefaults[TIER].s else "balanced";
      var preset := if tier in presets then presets[tier] else presets["balanced"];
      (newOrgDefaults + preset)[TIER := Text(tier)]["reranker_provider" := reranker]
    }

    /** What a row holds after `settings` was written: a NUMERIC(3,2) column keeps two decimals. */
    function Stored(settings: Settings): (r: Settings)
      ensures r.Keys == settings.Keys
    {
      map f | f in settings :: if f in twoDecimals && settings[f].Number? then Number(Cents(settings[f].n))
          else settings[f]
    }

    /** Every number in a two-decimal column has at most two decimals. */
    predicate Representable(settings: Settings) {
      forall f :: f in settings && f in twoDecimals && settings[f].Number? ==> IsMultiple(settings[f].n, Two)
    }

    /** The fields a write is to set, after the preset overlay. */
    function Overlaid(current: Settings, given: Settings, applyPreset: bool): Settings
      requires TIER in current && current[TIER].Text? && (TIER in given ==> given[TIER].Text?)
    {
      var tier := if TIER in given then given[TIER].s else current[TIER].s;
      if applyPreset && tier in presets then
        var preset := presets[tier];
        (preset + (given - preset.Keys))[TIER := Text(tier)]
      else given
    }

    function NewState(current: Settings, given: Settings, applyPreset: bool): Settings
      requires TIER in current && current[TIER].Text? && (TIER in given ==> given[TIER].Text?)
    {
      var over := Overlaid(current, given, applyPreset);
      current + (map f | f in over && f in fields :: over[f])
    }
  }

  lemma StoredIsExact(cfg: Config, s: Settings)
    ensures cfg.Stored(s) == s <==> cfg.Representable(s)
  {
    forall f | f in s && f in cfg.twoDecimals && s[f].Number?
      ensures cfg.Stored(s)[f] == s[f] <==> IsMultiple(s[f].n, Two)
    {
      CentsKeepTwoDecimals(s[f].n);
    }
    if cfg.Stored(s) == s {
      forall f | f in s && f in cfg.twoDecimals && s[f].Number? ensures IsMultiple(s[f].n, Two) {
        assert cfg.Stored(s)[f] == s[f];
      }
    }
  }

  /** On the governed path the preset wins over the caller, not the other way round: every given
      field takes effect exactly when it does not disagree with the tier's preset. */
  lemma PresetBeatsCaller(cfg: Config, current: Settings, given: Settings)
    requires TIER in current && current[TIER].Text? && (TIER in given ==> given[TIER].Text?)
    requires TIER in cfg.fields
    requires var tier := if TIER in given then given[TIER].s else current[TIER].s; tier in cfg.presets
    ensures var tier := if TIER in given then given[TIER].s else current[TIER].s;
            var preset := cfg.presets[tier];
            var next := cfg.NewState(current, given, true);
            (forall f :: f in given && f in cfg.fields ==> f in next && next[f] == given[f]) <==>
            (forall f :: f in given && f in cfg.fields && f in preset && f != TIER ==> given[f] == preset[f])
  {
    var tier := if TIER in given then given[TIER].s else current[TIER].s;
    var preset := cfg.presets[tier];
    var next := cfg.NewState(current, given, true);
    forall f | f in given && f in cfg.fields
      ensures f in next && next[f] == if f in preset && f != TIER then preset[f] else given[f]
    {
      var over := cfg.Overlaid(current, given, true);
      assert f in over;
      assert next[f] == over[f];
    }
  }

  /** The defaults, field by field: the reranker comes from the environment, the tier from the organisation
      defaults or is "balanced", and where that tier's preset (or the balanced one) sets a field it wins. */
  lemma DefaultsAre(cfg: Config, f: Field)
    requires cfg.Complete()
    ensures var base, got := cfg.newOrgDefaults, cfg.Defaults();
            var tier := if "quality_tier" in base then base["quality_tier"].s else "balanced";
            var preset := if tier in cfg.presets then cfg.presets[tier] else cfg.presets["balanced"];
            && (f in got <==> f in base || f in preset || f == "quality_tier" || f == "reranker_provider")
            && (f in got ==> got[f] == if f == "reranker_provider" then cfg.reranker
                                       else if f == "quality_tier" then Text(tier)
                                       else if f in preset then preset[f] else base[f])
  {
  }

  /** What a write sets, field by field.  With the preset applied, and a tier that has one, its values win
      over the caller's; otherwise, or where it has none, the caller's do; a field neither names, or the
      model does not know, stays. */
  lemma NewStateIs(cfg: Config, current: Settings, given: Settings, applyPreset: bool, f: Field)
    requires "quality_tier" in current && current["quality_tier"].Text?
    requires "quality_tier" in given ==> given["quality_tier"].Text?
    ensures var tier := if "quality_tier" in given then given["quality_tier"].s else current["quality_tier"].s;
            var preset := if applyPreset && tier in cfg.presets then cfg.presets[tier]["quality_tier" := Text(tier)]
                          else map[];
            var next := cfg.NewState(current, given, applyPreset);
            && (f in next <==> f in current || (f in cfg.fields && (f in preset || f in given)))
            && (f in next ==> next[f] == if f in cfg.fields && f in preset then preset[f]
                                         else if f in cfg.fields && f in given then given[f] else current[f])
  {
  }

  /** A NUMERIC(3,2) column keeps the nearest hundredth; any other keeps the value. */
  lemma StoredIs(cfg: Config, s: Settings, f: Field)
    requires f in s
    ensures var kept := cfg.Stored(s)[f];
            if f in cfg.twoDecimals && s[f].Number?
            then kept.Number? && IsMultiple(kept.n, Two) && -0.005 <= kept.n - s[f].n <= 0.005 else kept == s[f]
  {
    if s[f].Number? { CentsAreNear(s[f].n); }
  }

  // ---- the store, run by one caller at a time ------------------------------------------------

  datatype AuditRow = AuditRow(org: Org, changedBy: string, field: Field, before: string, after: string)

  type Cache = map<Org, (real, Settings)>
  type Rows = map<Org, Settings>

  predicate Hit(cfg: Config, cache: Cache, org: Org, now: real) {
    org in cache && now - cache[org].0 < cfg.ttl
  }

  function Resolve(cfg: Config, rows: Rows, org: Org): Settings
    requires cfg.Complete()
  {
    if org in rows then rows[org] else cfg.Defaults()
  }

  function Got(cfg: Config, cache: Cache, rows: Rows, org: Org, now: real): Settings
    requires cfg.Complete()
  {
    if Hit(cfg, cache, org, now) then cache[org].1 else Resolve(cfg, rows, org)
  }

  /** The fields of a settings object, its tier a text. */
  predicate Typed(cfg: Config, s: Settings) {
    && (forall f :: f in cfg.fields ==> f in s)
    && TIER in s && s[TIER].Text?
  }

  /** The audit trail of one write: a row for each field whose rendered value changed. */
  function Audits(cfg: Config, org: Org, changedBy: string, prior: Settings, next: Settings, n: nat): seq<AuditRow>
    requires n <= |cfg.fields| && Typed(cfg, prior) && Typed(cfg, next)
  {
    if n == 0 then []
    else
      var f := cfg.fields[n - 1];
      var before, after := cfg.render(prior[f]), cfg.render(next[f]);
      Audits(cfg, org, changedBy, prior, next, n - 1) + if before != after
          then [AuditRow(org, changedBy, f, before, after)] else []
  }

  /** A field is audited exactly when its rendered value changed, with both values. */
  lemma {:induction false} AuditsAreTheChanges(cfg: Config, org: Org, changedBy: string, prior: Settings,
      next: Settings, n: nat, row: AuditRow)
    requires n <= |cfg.fields| && Typed(cfg, prior) && Typed(cfg, next)
    ensures row in Audits(cfg, org, changedBy, prior, next, n) <==>
            && row.field in cfg.fields[..n]
            && row == AuditRow(org, changedBy, row.field, cfg.render(prior[row.field]), cfg.render(next[row.field]))
            && row.before != row.after
  {
    if n > 0 {
      AuditsAreTheChanges(cfg, org, changedBy, prior, next, n - 1, row);
      assert cfg.fields[..n] == cfg.fields[..n - 1] + [cfg.fields[n - 1]];
    }
  }

  class SettingsStore {
    const cfg: Config
    var cache: Cache
    var rows: Rows
    var audit: seq<AuditRow>

    ghost predicate Valid()
      reads this
    {
      && cfg.Complete() && Typed(cfg, cfg.Defaults())
      && (forall o :: o in rows ==> Typed(cfg, rows[o]))
      && (forall o :: o in cache ==> Typed(cfg, cache[o].1))
    }

    constructor (cfg: Config)
      requires cfg.Complete() && Typed(cfg, cfg.Defaults())
      ensures Valid() && this.cfg == cfg && cache == map[] && rows == map[] && audit == []
    {
      this.cfg := cfg;
      cache, rows, audit := map[], map[], [];
    }

    method Get(org: Org, now: real) returns (val: Settings)
      requires Valid()
      modifies this`cache
      ensures Valid() && val == Got(cfg, old(cache), rows, org, now) && Typed(cfg, val)
      ensures cache == if Hit(cfg, old(cache), org, now) then old(cache) else old(cache)[org := (now, val)]
      ensures if org in old(cache) && now - old(cache)[org].0 < cfg.ttl
              then val == old(cache)[org].1 && cache == old(cache)
              else val == (if org in rows then rows[org] else cfg.Defaults()) && cache == old(cache)[org := (now, val)]
    {
      if org in cache {
        var (ts, cached) := cache[org];
        if now - ts < cfg.ttl { return cached; }
      }
      val := if org in rows then rows[org] else cfg.Defaults();
      cache := cache[org := (now, val)];
    }

    method Invalidate(org: Org)
      requires Valid()
      modifies this`cache
      ensures Valid()
      ensures forall now :: Got(cfg, cache, rows, org, now) == if org in rows then rows[org] else cfg.Defaults()
      ensures forall o, now :: o != org ==> Got(cfg, cache, rows, o, now) == Got(cfg, old(cache), rows, o, now)
      ensures org !in cache
    {
      cache := cache - {org};
    }

    method RecordAudits(org: Org, changedBy: string, before: Settings, after: Settings)
      requires Typed(cfg, before) && Typed(cfg, after)
      modifies this`audit
      ensures audit == old(audit) + Audits(cfg, org, changedBy, before, after, |cfg.fields|)
    {
      for i := 0 to |cfg.fields|
        invariant audit == old(audit) + Audits(cfg, org, changedBy, before, after, i)
      {
        var was, becomes := cfg.render(before[cfg.fields[i]]), cfg.render(after[cfg.fields[i]]);
        if was != becomes {
          audit := audit + [AuditRow(org, changedBy, cfg.fields[i], was, becomes)];
        }
      }
    }

    /** `upsert_org_settings`; `None` is the exception raised when a CHECK constraint refuses the
        row, in which case the transaction leaves rows and audit trail as they were. */
    method Upsert(org: Org, changedBy: string, given: Settings, applyPreset: bool, now: real, later: real)
      returns (result: Option<Settings>)
      requires Valid() && (TIER in given ==> given[TIER].Text?)
      modifies this
      ensures Valid()
      ensures var current := Got(cfg, old(cache), old(rows), org, now);
              var written := cfg.NewState(current, given, applyPreset);
              if cfg.accepts(cfg.Stored(written)) then
                && result == Some(cfg.Stored(written))
                && rows == old(rows)[org := cfg.Stored(written)]
                && audit == old(audit) + Audits(cfg, org, changedBy, current, written, |cfg.fields|)
                && org in cache && cache[org] == (later, cfg.Stored(written))
              else result == None && rows == old(rows) && audit == old(audit)
      ensures var written := cfg.NewState(Got(cfg, old(cache), old(rows), org, now), given, applyPreset);
              result.Some? ==> (result.value == written <==> cfg.Representable(written))
    {
      var current := Get(org, now);
      var written := cfg.NewState(current, given, applyPreset);
      NewStateTyped(cfg, current, given, applyPreset);
      if !cfg.accepts(cfg.Stored(written)) { return None; }
      rows := rows[org := cfg.Stored(written)];
      RecordAudits(org, changedBy, current, written);
      Invalidate(org);
      ReadBackIsExact(cfg, current, given, applyPreset);
      var readBack := Get(org, later);
      return Some(readBack);
    }
  }

  lemma NewStateTyped(cfg: Config, current: Settings, given: Settings, applyPreset: bool)
    requires Typed(cfg, current) && (TIER in given ==> given[TIER].Text?)
    ensures Typed(cfg, cfg.NewState(current, given, applyPreset))
    ensures Typed(cfg, cfg.Stored(cfg.NewState(current, given, applyPreset)))
  {
    var over := cfg.Overlaid(current, given, applyPreset);
    var next := cfg.NewState(current, given, applyPreset);
    assert TIER in over ==> over[TIER].Text?;
    assert TIER in next && next[TIER].Text?;
  }

  /** Run alone, a write is read back unchanged exactly when every number bound for a two-decimal
      column has at most two decimals; other values come back rounded. */
  lemma ReadBackIsExact(cfg: Config, current: Settings, given: Settings, applyPreset: bool)
    requires TIER in current && current[TIER].Text? && (TIER in given ==> given[TIER].Text?)
    ensures var written := cfg.NewState(current, given, applyPreset);
            cfg.Stored(written) == written <==> cfg.Representable(written)
  {
    StoredIsExact(cfg, cfg.NewState(current, given, applyPreset));
  }
}
