/** The settings the retry and resend schedules depend on, as the loader accepts them. */
module Config {
  import opened Wrappers
  import opened Schedule
  import opened Text

  const ENV_PREFIX := "RATATOSKR__"
  const BUS_URL_KEY := ENV_PREFIX + "BUS__URL"
  const RAW_OBJECT_ROOT_KEY := ENV_PREFIX + "PUBLIC_RESOLUTION__RAW_OBJECT_ROOT"
  const MAX_ATTEMPTS_KEY := ENV_PREFIX + "PUBLIC_RESOLUTION__MAX_ATTEMPTS"
  const BATCH_SIZE_KEY := ENV_PREFIX + "PUBLIC_RESOLUTION__BATCH_SIZE"
  const RESEND_AFTER_KEY := ENV_PREFIX + "TOMBSTONE__RESEND_AFTER_SECONDS"
  const RESEND_CAP_KEY := ENV_PREFIX + "TOMBSTONE__RESEND_CAP_SECONDS"

  const U64_LIMIT := 0x1_0000_0000_0000_0000

  /**
   The settings below and whether the bus and the raw object root are configured; the rest is not
   part of this model.
   */
  datatype Settings = Settings(
    maxAttempts: nat, batchSize: nat, resendAfter: nat, resendCap: nat, bus: bool, rawRoot: bool)

  const DEFAULTS := Settings(5, 8, 600, 21_600, false, false)

  predicate IsDigit(c: char) {
    '0' <= c <= '9'
  }

  lemma {:induction false} DigitsAreNatural(text: string)
    requires forall i :: 0 <= i < |text| ==> IsDigit(text[i])
    ensures 0 <= Value(text)
    decreases |text|
  {
    if text == "" {
    } else {
      DigitsAreNatural(text[..|text| - 1]);
    }
  }

  function ParseDigits(digits: string, limit: nat): (n: Option<nat>)
    ensures n.Some? ==> n.value < limit
  {
    if digits == "" || exists i :: 0 <= i < |digits| && !IsDigit(digits[i]) then None
    else
      DigitsAreNatural(digits);
      if Value(digits) < limit then Some(Value(digits)) else None
  }

  /** `str::parse` for an unsigned type with values below `limit`: digits after at most one plus sign. */
  function ParseUnsigned(text: string, limit: nat): (n: Option<nat>)
    ensures n.Some? ==> n.value < limit
  {
    ParseDigits(if text != "" && text[0] == '+' then text[1..] else text, limit)
  }

  function ParseInRange(text: string, lowest: nat, highest: nat): (n: Option<nat>)
    ensures n.Some? ==> lowest <= n.value <= highest
  {
    var n := ParseUnsigned(text, U64_LIMIT);
    if n.Some? && lowest <= n.value <= highest then n else None
  }

  function ParsePositive(text: string): (n: Option<nat>)
    ensures n.Some? ==> 1 <= n.value < U32_LIMIT
  {
    var n := ParseUnsigned(text, U32_LIMIT);
    if n.Some? && n.value > 0 then n else None
  }

  /** `apply_entry`; `accepts` decides the entries whose values are not part of this model. */
  function ApplyEntry(
      settings: Settings, key: string, value: string, accepts: (string, string) -> bool): Option<Settings> {
    if key == MAX_ATTEMPTS_KEY then
      var n := ParsePositive(value);
      if n.Some? then Some(settings.(maxAttempts := n.value)) else None
    else if key == BATCH_SIZE_KEY then
      var n := ParsePositive(value);
      if n.Some? then Some(settings.(batchSize := n.value)) else None
    else if key == RESEND_AFTER_KEY then
      var n := ParseInRange(value, 30, 86_400);
      if n.Some? then Some(settings.(resendAfter := n.value)) else None
    else if key == RESEND_CAP_KEY then
      var n := ParseInRange(value, 1, 604_800);
      if n.Some? then Some(settings.(resendCap := n.value)) else None
    else if !accepts(key, value) then None
    else if key == BUS_URL_KEY then Some(settings.(bus := true))
    else if key == RAW_OBJECT_ROOT_KEY then Some(settings.(rawRoot := true))
    else Some(settings)
  }

  predicate IsOurs(key: string) {
    |ENV_PREFIX| <= |key| && key[..|ENV_PREFIX|] == ENV_PREFIX
  }

  predicate IsRefused(settings: Settings, entry: (string, string), accepts: (string, string) -> bool) {
    IsOurs(entry.0) && ApplyEntry(settings, entry.0, entry.1, accepts).None?
  }

  /** The settings after one more entry. */
  function WithEntry(settings: Settings, entry: (string, string), accepts: (string, string) -> bool): Settings {
    var next := ApplyEntry(settings, entry.0, entry.1, accepts);
    if IsOurs(entry.0) && next.Some? then next.value else settings
  }

  /** The settings after the accepted entries, and the keys of the refused ones, in order. */
  function Applied(entries: seq<(string, string)>, accepts: (string, string) -> bool): (Settings, seq<string>) {
    if entries == [] then (DEFAULTS, [])
    else
      var (settings, refused) := Applied(entries[..|entries| - 1], accepts);
      var last := entries[|entries| - 1];
      (WithEntry(settings, last, accepts), if IsRefused(settings, last, accepts) then refused + [last.0] else refused)
  }

  /** What is checked once all entries are applied. */
  function CrossChecks(settings: Settings, refused: seq<string>): seq<string> {
    (if !settings.bus then [BUS_URL_KEY]
     else if !settings.rawRoot && RAW_OBJECT_ROOT_KEY !in refused then [RAW_OBJECT_ROOT_KEY] else [])
    + (if settings.resendCap < settings.resendAfter && RESEND_CAP_KEY !in refused && RESEND_AFTER_KEY !in refused
       then [RESEND_CAP_KEY] else [])
  }

  /** `from_environment`: every violation is reported, and a configuration is handed out only without any. */
  method FromEnvironment(entries: seq<(string, string)>, accepts: (string, string) -> bool)
    returns (loaded: Result<Settings, seq<string>>)
    ensures var (settings, refused) := Applied(entries, accepts);
            var violations := refused + CrossChecks(settings, refused);
            loaded == if violations == [] then Success(settings) else Failure(violations)
    ensures loaded.Success? ==> Bounded(loaded.value) && loaded.value.bus && loaded.value.rawRoot
    ensures loaded.Success? <==>
            && (forall i :: 0 <= i < |entries| ==> Acceptable(entries[i], accepts))
            && IsSet(entries, BUS_URL_KEY, accepts) && IsSet(entries, RAW_OBJECT_ROOT_KEY, accepts)
            && Applied(entries, accepts).0.resendAfter <= Applied(entries, accepts).0.resendCap
  {
    var settings, violations := DEFAULTS, [];
    for n := 0 to |entries|
      invariant (settings, violations) == Applied(entries[..n], accepts)
    {
      assert entries[..n + 1][..n] == entries[..n];
      var (key, value) := entries[n];
      if IsOurs(key) {
        var next := ApplyEntry(settings, key, value, accepts);
        if next.Some? {
          settings := next.value;
        } else {
          violations := violations + [key];
        }
      }
    }
    assert entries[..|entries|] == entries;
    AppliedInRange(entries, accepts);
    LoadsIff(entries, accepts);
    ghost var refused := violations;
    if !settings.bus {
      violations := violations + [BUS_URL_KEY];
    } else if !settings.rawRoot && RAW_OBJECT_ROOT_KEY !in violations {
      violations := violations + [RAW_OBJECT_ROOT_KEY];
    }
    if settings.resendCap < settings.resendAfter && RESEND_CAP_KEY !in violations && RESEND_AFTER_KEY !in violations {
      violations := violations + [RESEND_CAP_KEY];
    }
    assert violations == refused + CrossChecks(settings, refused);
    return if violations == [] then Success(settings) else Failure(violations);
  }

  /** The bounds of each setting on its own. */
  predicate InRange(settings: Settings) {
    && 1 <= settings.maxAttempts < U32_LIMIT && 1 <= settings.batchSize < U32_LIMIT
    && 30 <= settings.resendAfter <= 86_400 && 1 <= settings.resendCap <= 604_800
  }

  /** A loaded configuration: every setting in its range, and the cap not below the first delay. */
  predicate Bounded(settings: Settings) {
    InRange(settings) && Loadable(ResendPolicy(settings.resendAfter, settings.resendCap))
  }

  lemma {:induction false} AppliedInRange(entries: seq<(string, string)>, accepts: (string, string) -> bool)
    ensures InRange(Applied(entries, accepts).0)
  {
    if entries == [] {
    } else {
      AppliedInRange(entries[..|entries| - 1], accepts);
    }
  }

  /** For every configuration the loader hands out, the resend delay is the documented one. */
  lemma LoadedDelayIsExact(settings: Settings, resends: nat)
    requires Bounded(settings)
    ensures var policy := ResendPolicy(settings.resendAfter, settings.resendCap);
            && ResendDelay(policy, resends) == Min(settings.resendAfter * Pow(2, resends), settings.resendCap)
            && settings.resendAfter <= ResendDelay(policy, resends)
            && ResendDelay(policy, resends) <= ResendDelay(policy, resends + 1) <= settings.resendCap
  {
    ResendDelayIsExact(ResendPolicy(settings.resendAfter, settings.resendCap), resends);
  }

  /** Every positive 32-bit limit is accepted, also one the 32-bit signed attempt counter can never reach. */
  lemma EveryLimitIsAccepted(n: nat)
    requires 1 <= n < U32_LIMIT
    ensures ParsePositive(Decimal(n)) == Some(n)
  {
    NumberIsRead(n, U32_LIMIT);
  }

  lemma NumberIsRead(n: nat, limit: nat)
    ensures ParseUnsigned(Decimal(n), limit) == if n < limit then Some(n) else None
  {
    DecimalValue(n);
    var text := Decimal(n);
    assert '0' <= text[0] <= '9';
    assert forall i :: 0 <= i < |text| ==> IsDigit(text[i]);
  }

  // ----- Which entry decides a setting -------------------------------------------------------

  predicate IsNumberKey(key: string) {
    key == MAX_ATTEMPTS_KEY || key == BATCH_SIZE_KEY || key == RESEND_AFTER_KEY || key == RESEND_CAP_KEY
  }

  /** The setting a key stands for. */
  function NumberOf(settings: Settings, key: string): nat
    requires IsNumberKey(key)
  {
    if key == MAX_ATTEMPTS_KEY then settings.maxAttempts
    else if key == BATCH_SIZE_KEY then settings.batchSize
    else if key == RESEND_AFTER_KEY then settings.resendAfter
    else settings.resendCap
  }

  /** The number an entry of the key is accepted with. */
  function Reads(key: string, value: string): Option<nat>
    requires IsNumberKey(key)
  {
    if key == MAX_ATTEMPTS_KEY || key == BATCH_SIZE_KEY then ParsePositive(value)
    else if key == RESEND_AFTER_KEY then ParseInRange(value, 30, 86_400)
    else ParseInRange(value, 1, 604_800)
  }

  predicate AcceptsNumber(key: string, n: nat)
    requires IsNumberKey(key)
  {
    if key == MAX_ATTEMPTS_KEY || key == BATCH_SIZE_KEY then 1 <= n < U32_LIMIT
    else if key == RESEND_AFTER_KEY then 30 <= n <= 86_400
    else 1 <= n <= 604_800
  }

  /** A number is accepted exactly within the bounds of its key, and read as itself. */
  lemma NumberIsAccepted(key: string, n: nat)
    requires IsNumberKey(key)
    ensures Reads(key, Decimal(n)) == if AcceptsNumber(key, n) then Some(n) else None
  {
    KeysDiffer();
    NumberIsRead(n, U32_LIMIT);
    NumberIsRead(n, U64_LIMIT);
  }

  /** The entry is one of the key, and accepted. */
  predicate Decides(entry: (string, string), key: string)
    requires IsNumberKey(key)
  {
    entry.0 == key && Reads(key, entry.1).Some?
  }

  /** One more entry changes a setting exactly when it is an accepted one of its key. */
  lemma EntrySets(settings: Settings, entry: (string, string), key: string, accepts: (string, string) -> bool)
    requires IsNumberKey(key)
    ensures NumberOf(WithEntry(settings, entry, accepts), key) ==
            if Decides(entry, key) then Reads(key, entry.1).value else NumberOf(settings, key)
  {
    KeysDiffer();
    NumberKeyIsOurs(key);
    if entry.0 == key {
    } else if IsNumberKey(entry.0) {
    } else {
    }
  }

  /** The last accepted entry of a key decides its setting, whatever comes before or between. */
  lemma {:induction false} LastEntryWins(
      entries: seq<(string, string)>, key: string, i: nat, accepts: (string, string) -> bool)
    requires IsNumberKey(key) && i < |entries| && Decides(entries[i], key)
    requires forall j :: i < j < |entries| ==> !Decides(entries[j], key)
    ensures NumberOf(Applied(entries, accepts).0, key) == Reads(key, entries[i].1).value
    decreases |entries|
  {
    EntrySets(Applied(entries[..|entries| - 1], accepts).0, entries[|entries| - 1], key, accepts);
    if i == |entries| - 1 {
    } else {
      LastEntryWins(entries[..|entries| - 1], key, i, accepts);
    }
  }

  /** A key without an accepted entry keeps its default. */
  lemma {:induction false} DefaultStays(entries: seq<(string, string)>, key: string, accepts: (string, string) -> bool)
    requires IsNumberKey(key) && forall j :: 0 <= j < |entries| ==> !Decides(entries[j], key)
    ensures NumberOf(Applied(entries, accepts).0, key) ==
            if key == MAX_ATTEMPTS_KEY then 5 else if key == BATCH_SIZE_KEY then 8
            else if key == RESEND_AFTER_KEY then 600 else 21_600
    decreases |entries|
  {
    if entries == [] {
    } else {
      EntrySets(Applied(entries[..|entries| - 1], accepts).0, entries[|entries| - 1], key, accepts);
      DefaultStays(entries[..|entries| - 1], key, accepts);
    }
  }

  // ----- When a configuration is handed out --------------------------------------------------

  /** The text is the decimal number `n`, with or without a plus sign. */
  ghost predicate Spells(text: string, n: nat) {
    exists digits :: (text == digits || text == "+" + digits) && IsNumeral(digits, n)
  }

  ghost predicate IsNumeral(digits: string, n: nat) {
    digits != "" && (forall i :: 0 <= i < |digits| ==> IsDigit(digits[i])) && Value(digits) == n
  }

  /** The entry is one of another service, a number within the bounds of its key, or accepted as it is. */
  ghost predicate Acceptable(entry: (string, string), accepts: (string, string) -> bool) {
    (exists rest :: entry.0 == "RATATOSKR__" + rest) ==>
      if IsNumberKey(entry.0) then exists n: nat :: Spells(entry.1, n) && AcceptsNumber(entry.0, n)
      else accepts(entry.0, entry.1)
  }

  /** Some entry of the key is accepted. */
  ghost predicate IsSet(entries: seq<(string, string)>, key: string, accepts: (string, string) -> bool) {
    exists i :: 0 <= i < |entries| && entries[i].0 == key && accepts(key, entries[i].1)
  }

  lemma ParsedIff(text: string, limit: nat, n: nat)
    ensures ParseUnsigned(text, limit) == Some(n) <==> Spells(text, n) && n < limit
  {
    var digits := if text != "" && text[0] == '+' then text[1..] else text;
    assert text == digits || text == "+" + digits;
    if ParseUnsigned(text, limit) == Some(n) {
      assert IsNumeral(digits, n);
    }
    if Spells(text, n) {
      var other :| (text == other || text == "+" + other) && IsNumeral(other, n);
      assert text[0] == '+' <==> text == "+" + other;
      assert other == digits;
    }
  }

  lemma ReadIff(key: string, text: string, n: nat)
    requires IsNumberKey(key)
    ensures Reads(key, text) == Some(n) <==> Spells(text, n) && AcceptsNumber(key, n)
  {
    KeysDiffer();
    ParsedIff(text, U32_LIMIT, n);
    ParsedIff(text, U64_LIMIT, n);
  }

  lemma RefusedIff(settings: Settings, entry: (string, string), accepts: (string, string) -> bool)
    ensures IsRefused(settings, entry, accepts) <==> !Acceptable(entry, accepts)
  {
    KeysDiffer();
    OursIff(entry.0);
    if IsNumberKey(entry.0) {
      forall n: nat
        ensures Reads(entry.0, entry.1) == Some(n) <==> Spells(entry.1, n) && AcceptsNumber(entry.0, n)
      {
        ReadIff(entry.0, entry.1, n);
      }
      assert ApplyEntry(settings, entry.0, entry.1, accepts).None? <==> Reads(entry.0, entry.1).None?;
    }
  }

  lemma OursIff(key: string)
    ensures IsOurs(key) <==> exists rest :: key == "RATATOSKR__" + rest
  {
    if IsOurs(key) {
      assert key == "RATATOSKR__" + key[|ENV_PREFIX|..];
    }
  }

  lemma {:induction false} NoneRefusedIff(entries: seq<(string, string)>, accepts: (string, string) -> bool)
    ensures Applied(entries, accepts).1 == [] <==>
            forall i :: 0 <= i < |entries| ==> Acceptable(entries[i], accepts)
    decreases |entries|
  {
    if entries == [] {
    } else {
      var front, last := entries[..|entries| - 1], entries[|entries| - 1];
      NoneRefusedIff(front, accepts);
      RefusedIff(Applied(front, accepts).0, last, accepts);
      assert forall i :: 0 <= i < |front| ==> front[i] == entries[i];
    }
  }

  lemma FlagSets(settings: Settings, entry: (string, string), accepts: (string, string) -> bool)
    ensures var next := WithEntry(settings, entry, accepts);
            && (next.bus <==> settings.bus || (entry.0 == BUS_URL_KEY && accepts(entry.0, entry.1)))
            && (next.rawRoot <==> settings.rawRoot || (entry.0 == RAW_OBJECT_ROOT_KEY && accepts(entry.0, entry.1)))
  {
    KeysDiffer();
    KeyIsOurs("BUS__URL");
    KeyIsOurs("PUBLIC_RESOLUTION__RAW_OBJECT_ROOT");
  }

  lemma {:induction false} FlagsAreSet(entries: seq<(string, string)>, accepts: (string, string) -> bool)
    ensures var settings := Applied(entries, accepts).0;
            && (settings.bus <==> IsSet(entries, BUS_URL_KEY, accepts))
            && (settings.rawRoot <==> IsSet(entries, RAW_OBJECT_ROOT_KEY, accepts))
    decreases |entries|
  {
    if entries == [] {
    } else {
      var front, last := entries[..|entries| - 1], entries[|entries| - 1];
      FlagsAreSet(front, accepts);
      FlagSets(Applied(front, accepts).0, last, accepts);
      SetThen(front, last, BUS_URL_KEY, accepts);
      SetThen(front, last, RAW_OBJECT_ROOT_KEY, accepts);
      assert entries == front + [last];
    }
  }

  lemma SetThen(
      front: seq<(string, string)>, last: (string, string), key: string, accepts: (string, string) -> bool)
    ensures IsSet(front + [last], key, accepts) <==>
            IsSet(front, key, accepts) || (last.0 == key && accepts(key, last.1))
  {
    var entries := front + [last];
    assert entries[|front|] == last;
    assert forall i :: 0 <= i < |front| ==> entries[i] == front[i];
  }

  /**
   A configuration is handed out exactly when every entry of the service is acceptable, one sets the
   bus and one the raw object root, and the cap is not below the first delay.
   */
  lemma LoadsIff(entries: seq<(string, string)>, accepts: (string, string) -> bool)
    ensures var (settings, refused) := Applied(entries, accepts);
            refused + CrossChecks(settings, refused) == [] <==>
            && (forall i :: 0 <= i < |entries| ==> Acceptable(entries[i], accepts))
            && IsSet(entries, BUS_URL_KEY, accepts) && IsSet(entries, RAW_OBJECT_ROOT_KEY, accepts)
            && settings.resendAfter <= settings.resendCap
  {
    NoneRefusedIff(entries, accepts);
    FlagsAreSet(entries, accepts);
  }

  lemma KeysDiffer()
    ensures MAX_ATTEMPTS_KEY != BATCH_SIZE_KEY && RESEND_AFTER_KEY != RESEND_CAP_KEY
    ensures RESEND_AFTER_KEY != MAX_ATTEMPTS_KEY && RESEND_AFTER_KEY != BATCH_SIZE_KEY
    ensures RESEND_CAP_KEY != MAX_ATTEMPTS_KEY && RESEND_CAP_KEY != BATCH_SIZE_KEY
    ensures !IsNumberKey(BUS_URL_KEY) && !IsNumberKey(RAW_OBJECT_ROOT_KEY) && BUS_URL_KEY != RAW_OBJECT_ROOT_KEY
  {
    assert |RAW_OBJECT_ROOT_KEY| != |MAX_ATTEMPTS_KEY| && |RAW_OBJECT_ROOT_KEY| != |BATCH_SIZE_KEY|;
    assert RAW_OBJECT_ROOT_KEY[|ENV_PREFIX|] == 'P' && BUS_URL_KEY[|ENV_PREFIX|] == 'B';
    assert |MAX_ATTEMPTS_KEY| != |BATCH_SIZE_KEY| && |RESEND_AFTER_KEY| != |RESEND_CAP_KEY|;
    assert MAX_ATTEMPTS_KEY[|ENV_PREFIX|] == 'P' && BATCH_SIZE_KEY[|ENV_PREFIX|] == 'P';
    assert RESEND_AFTER_KEY[|ENV_PREFIX|] == 'T' && RESEND_CAP_KEY[|ENV_PREFIX|] == 'T';
  }

  lemma KeyIsOurs(name: string)
    ensures IsOurs(ENV_PREFIX + name)
  {
  }

  lemma NumberKeyIsOurs(key: string)
    requires IsNumberKey(key)
    ensures IsOurs(key)
  {
    KeyIsOurs("PUBLIC_RESOLUTION__MAX_ATTEMPTS");
    KeyIsOurs("PUBLIC_RESOLUTION__BATCH_SIZE");
    KeyIsOurs("TOMBSTONE__RESEND_AFTER_SECONDS");
    KeyIsOurs("TOMBSTONE__RESEND_CAP_SECONDS");
  }
}
