/** The main plugin object: the PRO check, the monthly free-usage quota kept
    in the option store, the "add only if absent" default options, and the
    daily-audit schedule set up on activation. */
module JeiSeo {
  import opened Wrappers
  import opened Text
  import opened Options
  import License

  const Version := "1.0.0"
  const DailyAuditHook := "jeiseo_daily_audit"

  /** The option name of one month's counter for one feature:
      `jeiseo_{type}_count_{Y-m}`. */
  function QuotaKey(kind: string, month: string): string {
    "jeiseo_" + kind + "_count_" + month
  }

  /** A month as `gmdate( 'Y-m' )` writes it. */
  predicate IsYearMonth(m: string) {
    |m| == 7 && m[4] == '-' && forall i :: 0 <= i < 7 && i != 4 ==> IsDigit(m[i])
  }

  /** Free limits per month: 4 audits, 3 content generations, 0 for any
      other feature. */
  function Limit(kind: string): nat {
    if kind == "audit" then 4 else if kind == "content" then 3 else 0
  }

  /** `(int) get_option( $key, 0 )`. */
  function UsageCount(values: map<string, Value>, kind: string, month: string): int {
    ToInt(Get(values, QuotaKey(kind, month), VInt(0)))
  }

  /** `get_free_quota`: what the limit leaves after this month's count,
      never below zero. */
  function Remaining(values: map<string, Value>, kind: string, month: string): (r: nat)
    ensures r == 0 <==> UsageCount(values, kind, month) >= Limit(kind)
    ensures r > 0 ==> r + UsageCount(values, kind, month) == Limit(kind)
    ensures UsageCount(values, kind, month) >= 0 ==> r <= Limit(kind)
  {
    var left := Limit(kind) - UsageCount(values, kind, month);
    if left > 0 then left else 0
  }

  /** `increment_usage`: this month's counter for the feature becomes one
      more than it was, with no clamping at the limit. */
  function Incremented(values: map<string, Value>, kind: string, month: string): map<string, Value> {
    values[QuotaKey(kind, month) := VInt(UsageCount(values, kind, month) + 1)]
  }

  /** An increment takes one from what remains, and once nothing remains it
      stays at nothing while the count keeps growing. */
  lemma IncrementedEffect(values: map<string, Value>, kind: string, month: string)
    ensures UsageCount(Incremented(values, kind, month), kind, month) == UsageCount(values, kind, month) + 1
    ensures Remaining(Incremented(values, kind, month), kind, month) ==
      if Remaining(values, kind, month) > 0 then Remaining(values, kind, month) - 1 else 0
    ensures forall k :: k in values && k != QuotaKey(kind, month) ==> Incremented(values, kind, month)[k] == values[k]
    ensures Incremented(values, kind, month).Keys == values.Keys + {QuotaKey(kind, month)}
  {
  }

  lemma {:induction false} QuotaKeyLastUnderscore(kind: string, month: string)
    ensures |QuotaKey(kind, month)| == 14 + |kind| + |month|
    ensures QuotaKey(kind, month)[13 + |kind|] == '_'
    ensures QuotaKey(kind, month)[14 + |kind|..] == month
    ensures QuotaKey(kind, month)[..7] == "jeiseo_"
    ensures QuotaKey(kind, month)[7..7 + |kind|] == kind
  {
  }

  /** Different features or different months never share a counter: the
      option name determines both. */
  lemma QuotaKeyInjective(k1: string, m1: string, k2: string, m2: string)
    requires '_' !in m1 && '_' !in m2
    requires QuotaKey(k1, m1) == QuotaKey(k2, m2)
    ensures k1 == k2 && m1 == m2
  {
    var key := QuotaKey(k1, m1);
    QuotaKeyLastUnderscore(k1, m1);
    QuotaKeyLastUnderscore(k2, m2);
    if |m1| < |m2| {
      assert false;
    } else if |m2| < |m1| {
      assert false;
    }
    assert |k1| == |k2|;
  }

  lemma YearMonthHasNoUnderscore(m: string)
    requires IsYearMonth(m)
    ensures '_' !in m
  {
    assert forall i :: 0 <= i < |m| ==> m[i] != '_';
  }

  /** Counters of different features or months are independent: an
      increment of one leaves what remains of every other unchanged. */
  lemma IncrementIndependent(values: map<string, Value>, kind: string, month: string, otherKind: string, otherMonth: string)
    requires IsYearMonth(month) && IsYearMonth(otherMonth)
    requires kind != otherKind || month != otherMonth
    ensures UsageCount(Incremented(values, kind, month), otherKind, otherMonth) == UsageCount(values, otherKind, otherMonth)
    ensures Remaining(Incremented(values, kind, month), otherKind, otherMonth) == Remaining(values, otherKind, otherMonth)
  {
    YearMonthHasNoUnderscore(month);
    YearMonthHasNoUnderscore(otherMonth);
    if QuotaKey(kind, month) == QuotaKey(otherKind, otherMonth) {
      QuotaKeyInjective(kind, month, otherKind, otherMonth);
    }
  }

  /** The defaults written on activation, in the order they are added. */
  const Defaults: seq<(string, Value)> := [
    ("jeiseo_version", VStr(Version)),
    ("jeiseo_license_key", VStr("")),
    ("jeiseo_license_status", VStr("free")),
    ("jeiseo_api_provider", VStr("openai")),
    ("jeiseo_api_key", VStr("")),
    ("jeiseo_auto_fix", VBool(false)),
    ("jeiseo_weekly_report", VBool(true)),
    ("jeiseo_last_audit", VStr("")),
    ("jeiseo_audit_count", VInt(0)),
    ("jeiseo_content_count", VInt(0))
  ]

  function DefaultKeys(defaults: seq<(string, Value)>): set<string> {
    set i | 0 <= i < |defaults| :: defaults[i].0
  }

  /** The options after adding each default whose name is absent. */
  function WithDefaults(values: map<string, Value>, defaults: seq<(string, Value)>): map<string, Value> {
    if defaults == [] then values
    else
      var before := WithDefaults(values, defaults[..|defaults| - 1]);
      var (key, value) := defaults[|defaults| - 1];
      if key in before then before else before[key := value]
  }

  /** Adding defaults never changes an option that exists, and afterwards
      every default name is present and nothing else is new. */
  lemma {:induction false} WithDefaultsKeeps(values: map<string, Value>, defaults: seq<(string, Value)>)
    ensures WithDefaults(values, defaults).Keys == values.Keys + DefaultKeys(defaults)
    ensures forall k :: k in values ==> WithDefaults(values, defaults)[k] == values[k]
  {
    if defaults != [] {
      var init := defaults[..|defaults| - 1];
      WithDefaultsKeeps(values, init);
      assert DefaultKeys(defaults) == DefaultKeys(init) + {defaults[|defaults| - 1].0} by {
        forall k | k in DefaultKeys(defaults) ensures k in DefaultKeys(init) + {defaults[|defaults| - 1].0} {
          var i :| 0 <= i < |defaults| && defaults[i].0 == k;
          if i < |defaults| - 1 { assert init[i] == defaults[i]; }
        }
        forall k | k in DefaultKeys(init) ensures k in DefaultKeys(defaults) {
          var i :| 0 <= i < |init| && init[i].0 == k;
          assert defaults[i] == init[i];
        }
      }
    }
  }

  /** When every default name already exists, adding defaults changes
      nothing. */
  lemma {:induction false} WithDefaultsPresent(values: map<string, Value>, defaults: seq<(string, Value)>)
    requires DefaultKeys(defaults) <= values.Keys
    ensures WithDefaults(values, defaults) == values
  {
    if defaults != [] {
      var init := defaults[..|defaults| - 1];
      assert DefaultKeys(init) <= DefaultKeys(defaults) by {
        forall k | k in DefaultKeys(init) ensures k in DefaultKeys(defaults) {
          var i :| 0 <= i < |init| && init[i].0 == k;
          assert defaults[i] == init[i];
        }
      }
      WithDefaultsPresent(values, init);
      assert defaults[|defaults| - 1].0 in DefaultKeys(defaults);
    }
  }

  /** Setting the defaults twice has the effect of setting them once. */
  lemma WithDefaultsIdempotent(values: map<string, Value>, defaults: seq<(string, Value)>)
    ensures WithDefaults(WithDefaults(values, defaults), defaults) == WithDefaults(values, defaults)
  {
    WithDefaultsKeeps(values, defaults);
    WithDefaultsPresent(WithDefaults(values, defaults), defaults);
  }

  /** `is_pro`: a license object exists and it is valid. */
  predicate IsProLicense(license: Option<License.License>) {
    license.Some? && License.IsValid(license.value)
  }

  class Plugin {
    const options: OptionStore
    /** The license manager; None until `init` has run. */
    var license: Option<License.License>
    /** Scheduled events: hook name to the time of its first run. */
    var cron: map<string, int>

    constructor (options: OptionStore, cron: map<string, int>)
      ensures this.options == options && this.cron == cron && license == None
    {
      this.options := options;
      this.cron := cron;
      license := None;
    }

    /** `init`: builds the license manager from the stored options. */
    method Init()
      modifies this
      ensures license == Some(License.FromOptions(options.values))
      ensures cron == old(cron)
      ensures IsPro() <==> License.IsValid(License.FromOptions(options.values))
    {
      license := Some(License.FromOptions(options.values));
    }

    predicate IsPro()
      reads this
    {
      IsProLicense(license)
    }

    function FreeQuota(kind: string, month: string): nat
      reads options
    {
      Remaining(options.values, kind, month)
    }

    /** `set_defaults`: adds each default option whose name is absent. */
    method SetDefaults()
      modifies options
      ensures options.values == WithDefaults(old(options.values), Defaults)
      ensures options.values.Keys == old(options.values).Keys + DefaultKeys(Defaults)
      ensures forall k :: k in old(options.values) ==> options.values[k] == old(options.values)[k]
    {
      var i := 0;
      while i < |Defaults|
        invariant 0 <= i <= |Defaults|
        invariant options.values == WithDefaults(old(options.values), Defaults[..i])
      {
        var (key, value) := Defaults[i];
        assert Defaults[..i + 1][..i] == Defaults[..i];
        if key !in options.values {
          options.values := options.values[key := value];
        }
        i := i + 1;
      }
      assert Defaults[..i] == Defaults;
      WithDefaultsKeeps(old(options.values), Defaults);
    }

    /** `activate`: default options, then the daily audit is scheduled only
      if it is not scheduled already (table creation and rewrite flushing
      are not part of this model). */
    method Activate(now: int)
      modifies this, options
      ensures options.values == WithDefaults(old(options.values), Defaults)
      ensures DailyAuditHook in old(cron) ==> cron == old(cron)
      ensures DailyAuditHook !in old(cron) ==> cron == old(cron)[DailyAuditHook := now]
      ensures DailyAuditHook in cron
      ensures license == old(license)
    {
      SetDefaults();
      if DailyAuditHook !in cron {
        cron := cron[DailyAuditHook := now];
      }
    }

    /** `deactivate`: clears the scheduled daily audit. */
    method Deactivate()
      modifies this
      ensures cron == old(cron) - {DailyAuditHook}
      ensures license == old(license)
    {
      cron := cron - {DailyAuditHook};
    }

    /** `increment_usage`. */
    method IncrementUsage(kind: string, month: string)
      modifies options
      ensures options.values == Incremented(old(options.values), kind, month)
      ensures FreeQuota(kind, month) == if old(FreeQuota(kind, month)) > 0 then old(FreeQuota(kind, month)) - 1 else 0
    {
      IncrementedEffect(options.values, kind, month);
      var count := UsageCount(options.values, kind, month);
      options.values := options.values[QuotaKey(kind, month) := VInt(count + 1)];
    }
  }
}
