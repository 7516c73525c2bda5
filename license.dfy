/** The license manager: the stored key and status, the PRO check, the
    key-format validator, the masked display of the key, and the option
    updates made when a license is activated or deactivated. */
module License {
  import opened Wrappers
  import opened Text
  import opened Options
  import opened Request

  const KeyOption := "jeiseo_license_key"
  const StatusOption := "jeiseo_license_status"

  const EmptyKeyMessage := "Please enter a license key."
  const BadFormatMessage := "Invalid license key format."
  const ActivatedMessage := "License activated successfully!"
  const DeactivatedMessage := "License deactivated."

  /** The manager's two fields, read from the options when it is built and
      not refreshed afterwards. */
  datatype License = License(key: string, status: string)

  /** The constructor: key and status from the options, with the defaults
      '' and 'free'. */
  function FromOptions(values: map<string, Value>): (l: License)
    ensures KeyOption !in values ==> l.key == ""
    ensures StatusOption !in values ==> l.status == "free"
  {
    License(ToStr(Get(values, KeyOption, VStr(""))), ToStr(Get(values, StatusOption, VStr("free"))))
  }

  /** `is_valid`: PRO exactly when the status is 'valid' and the key is not
      empty. */
  predicate IsValid(l: License) {
    l.status == "valid" && !Falsy(l.key)
  }

  /** `get_plan`. */
  function Plan(l: License): (plan: string)
    ensures plan == "pro" <==> IsValid(l)
    ensures plan == "free" <==> !IsValid(l)
  {
    if IsValid(l) then "pro" else "free"
  }

  predicate IsKeyChar(c: char) {
    'A' <= c <= 'Z' || '0' <= c <= '9'
  }

  /** `[A-Z0-9]{4}` */
  predicate IsGroup(g: string) {
    |g| == 4 && forall i :: 0 <= i < 4 ==> IsKeyChar(g[i])
  }

  /** XXXX-XXXX-XXXX-XXXX, read group by group as the pattern is written. */
  predicate MatchesKeyPattern(s: string) {
    && |s| == 19
    && IsGroup(s[0..4]) && s[4] == '-'
    && IsGroup(s[5..9]) && s[9] == '-'
    && IsGroup(s[10..14]) && s[14] == '-'
    && IsGroup(s[15..19])
  }

  /** Reference definition by position: 19 characters, '-' at positions 4,
      9 and 14 and an upper-case letter or digit everywhere else. */
  predicate KeyShape(s: string) {
    |s| == 19 && forall i :: 0 <= i < 19 ==> if i == 4 || i == 9 || i == 14 then s[i] == '-' else IsKeyChar(s[i])
  }

  datatype Validation = Validation(valid: bool, message: string)

  /** `validate_license`: `preg_match` with `^...$` and no D modifier, so
      `$` also matches before a final newline. */
  function ValidateLicense(key: string): (r: Validation)
    ensures r.valid <==> MatchesKeyPattern(key) || (|key| == 20 && key[19] == '\n' && MatchesKeyPattern(key[..19]))
    ensures r.message == if r.valid then "" else BadFormatMessage
  {
    if MatchesKeyPattern(key) || (|key| == 20 && key[19] == '\n' && MatchesKeyPattern(key[..19])) then
      Validation(true, "")
    else
      Validation(false, BadFormatMessage)
  }

  lemma PatternIsShape(s: string)
    ensures MatchesKeyPattern(s) <==> KeyShape(s)
  {
    if |s| == 19 {
      if KeyShape(s) {
        assert forall k :: 0 <= k < 4 ==>
          (s[0..4][k] == s[k] && s[5..9][k] == s[5 + k] && s[10..14][k] == s[10 + k] && s[15..19][k] == s[15 + k]);
      }
      if MatchesKeyPattern(s) {
        forall i | 0 <= i < 19
          ensures if i == 4 || i == 9 || i == 14 then s[i] == '-' else IsKeyChar(s[i])
        {
          if i < 4 { assert s[0..4][i] == s[i]; }
          else if 4 < i < 9 { assert s[5..9][i - 5] == s[i]; }
          else if 9 < i < 14 { assert s[10..14][i - 10] == s[i]; }
          else if 14 < i { assert s[15..19][i - 15] == s[i]; }
        }
      }
    }
  }

  /** The validator accepts exactly the 19-character keys of four groups of
      four `[A-Z0-9]` joined by '-', and, because of `$`, the same keys
      followed by one newline; nothing else. */
  lemma ValidateLicenseAcceptsExactly(key: string)
    ensures ValidateLicense(key).valid <==>
      KeyShape(key) || (|key| == 20 && key[19] == '\n' && KeyShape(key[..19]))
    ensures '\n' !in key ==> (ValidateLicense(key).valid <==> KeyShape(key))
  {
    PatternIsShape(key);
    if |key| == 20 {
      PatternIsShape(key[..19]);
      assert key[19] in key;
    }
  }

  /** Any four groups joined by '-' are accepted. */
  lemma KeyFromGroups(g1: string, g2: string, g3: string, g4: string)
    requires IsGroup(g1) && IsGroup(g2) && IsGroup(g3) && IsGroup(g4)
    ensures ValidateLicense(g1 + "-" + g2 + "-" + g3 + "-" + g4).valid
  {
    var k := g1 + "-" + g2 + "-" + g3 + "-" + g4;
    assert k[0..4] == g1 && k[5..9] == g2 && k[10..14] == g3 && k[15..19] == g4;
  }

  /** `get_masked_key`: '' for an empty key, otherwise the first four
      characters, "-****-****-" and the last four. */
  function MaskedKey(key: string): (m: string)
    ensures Falsy(key) ==> m == ""
    ensures !Falsy(key) ==> m == Prefix(key, 4) + "-****-****-" + Suffix(key, 4)
  {
    if Falsy(key) then "" else Prefix(key, 4) + "-****-****-" + Suffix(key, 4)
  }

  /** A key of the accepted form masks to 19 characters that keep its first
      and last groups and hide the middle two. */
  lemma MaskedValidKey(key: string)
    requires KeyShape(key)
    ensures |MaskedKey(key)| == 19
    ensures MaskedKey(key)[..4] == key[..4]
    ensures MaskedKey(key)[4..15] == "-****-****-"
    ensures MaskedKey(key)[15..] == key[15..]
  {
    assert IsKeyChar(key[0]);
    assert !Falsy(key);
  }

  datatype Response = Success(message: string) | Error(message: string)

  /** `ajax_activate` past the nonce and capability checks: the
      `license_key` field is read through `sanitize` (`sanitize_text_field`);
      a key that is empty after cleaning is rejected, a cleaned key of the
      accepted form is stored together with the status 'valid', and any
      other key stores nothing. */
  method Activate(store: OptionStore, licenseKey: Option<string>, sanitize: string -> string) returns (r: Response)
    modifies store
    ensures Falsy(Field(licenseKey, sanitize, "")) ==> r == Error(EmptyKeyMessage) && store.values == old(store.values)
    ensures !Falsy(Field(licenseKey, sanitize, "")) && ValidateLicense(Field(licenseKey, sanitize, "")).valid ==>
      r == Success(ActivatedMessage) &&
      store.values == old(store.values)[KeyOption := VStr(Field(licenseKey, sanitize, ""))][StatusOption := VStr("valid")]
    ensures !Falsy(Field(licenseKey, sanitize, "")) && !ValidateLicense(Field(licenseKey, sanitize, "")).valid ==>
      r == Error(BadFormatMessage) && store.values == old(store.values)
    ensures r.Success? ==> IsValid(FromOptions(store.values))
  {
    var key := Field(licenseKey, sanitize, "");
    if Falsy(key) {
      return Error(EmptyKeyMessage);
    }
    var result := ValidateLicense(key);
    if result.valid {
      store.values := store.values[KeyOption := VStr(key)];
      store.values := store.values[StatusOption := VStr("valid")];
      r := Success(ActivatedMessage);
    } else {
      r := Error(result.message);
    }
  }

  /** `ajax_deactivate`: the key becomes '' and the status 'free', so a
      manager rebuilt from the options is no longer PRO. */
  method Deactivate(store: OptionStore) returns (r: Response)
    modifies store
    ensures store.values == old(store.values)[KeyOption := VStr("")][StatusOption := VStr("free")]
    ensures r == Success(DeactivatedMessage)
    ensures !IsValid(FromOptions(store.values))
    ensures Plan(FromOptions(store.values)) == "free"
  {
    store.values := store.values[KeyOption := VStr("")];
    store.values := store.values[StatusOption := VStr("free")];
    r := Success(DeactivatedMessage);
  }
}
